/**
  The silence evaluator (services/api/src/watches/silence-evaluator.ts): who is firing,
  and how far apart alerts are although the cooldowns are pruned.
*/
module Silence {
  import opened Base

  datatype Key = Key(tenant: string, service: string)

  datatype Kind = Silent | Resolved

  datatype Alert = Alert(kind: Kind, key: Key, time: nat)

  /** What the scorer and the settings say of one active tenant. */
  datatype Report = Report(tenant: string, maintenance: bool, silent: seq<string>, tracked: set<string>)

  /** The keys of the silent services, and of the first `n` of them. */
  function KeysOf(r: Report): set<Key> { KeysUpTo(r, |r.silent|) }

  function KeysUpTo(r: Report, n: nat): (keys: set<Key>)
    requires n <= |r.silent|
    ensures forall k :: k in keys ==> k.tenant == r.tenant
  {
    if n == 0 then {} else KeysUpTo(r, n - 1) + {Key(r.tenant, r.silent[n - 1])}
  }

  /** When a key last had a silence alert; -1 if never. */
  function LastAlert(alerts: seq<Alert>, k: Key): (t: int)
    ensures t >= -1
  {
    if alerts == [] then -1
    else
      var last := alerts[|alerts| - 1];
      if last.kind == Silent && last.key == k then last.time else LastAlert(alerts[..|alerts| - 1], k)
  }

  /** Silence alerts of one key are at least a cooldown apart. */
  predicate Spaced(alerts: seq<Alert>, cooldown: nat) {
    alerts == []
    || (var most, last := alerts[..|alerts| - 1], alerts[|alerts| - 1];
        && Spaced(most, cooldown)
        && (last.kind == Silent && LastAlert(most, last.key) >= 0
            ==> last.time - LastAlert(most, last.key) >= cooldown))
  }

  lemma {:induction false} LastAlertIsLatest(alerts: seq<Alert>, i: nat, cooldown: nat)
    requires i < |alerts| && alerts[i].kind == Silent && Spaced(alerts, cooldown)
    ensures LastAlert(alerts, alerts[i].key) >= alerts[i].time
  {
    var most, last := alerts[..|alerts| - 1], alerts[|alerts| - 1];
    if i < |alerts| - 1 {
      LastAlertIsLatest(most, i, cooldown);
    }
  }

  /** Any two silence alerts for one service, however far back. */
  lemma {:induction false} AlertsAreApart(alerts: seq<Alert>, cooldown: nat, i: nat, j: nat)
    requires Spaced(alerts, cooldown) && i < j < |alerts|
    requires alerts[i].kind == Silent && alerts[j].kind == Silent && alerts[i].key == alerts[j].key
    ensures alerts[j].time - alerts[i].time >= cooldown
  {
    var most, last := alerts[..|alerts| - 1], alerts[|alerts| - 1];
    if j < |alerts| - 1 {
      AlertsAreApart(most, cooldown, i, j);
    } else {
      LastAlertIsLatest(most, i, cooldown);
    }
  }

  /** A cooldown entry is the last alert of its key; a key without one never had an
      alert, or had the last so long ago that it no longer matters. */
  ghost predicate CooldownsOk(alerts: seq<Alert>, cooldowns: map<Key, nat>, cooldown: nat, evaluated: nat) {
    && Spaced(alerts, cooldown)
    && (forall k :: LastAlert(alerts, k) <= evaluated)
    && forall k :: if k in cooldowns then LastAlert(alerts, k) == cooldowns[k]
                   else LastAlert(alerts, k) >= 0 ==> LastAlert(alerts, k) + 2 * cooldown < evaluated
  }

  /** The same as a value: what the methods carry along. */
  ghost function Judged(alerts: seq<Alert>, cooldowns: map<Key, nat>, cooldown: nat, evaluated: nat): Verdict {
    if CooldownsOk(alerts, cooldowns, cooldown, evaluated) then Upheld else Violated
  }

  lemma OneMore(alerts: seq<Alert>, a: Alert, cooldown: nat)
    ensures Spaced(alerts + [a], cooldown) <==>
              Spaced(alerts, cooldown)
              && (a.kind == Silent && LastAlert(alerts, a.key) >= 0 ==> a.time - LastAlert(alerts, a.key) >= cooldown)
    ensures forall k ::
            LastAlert(alerts + [a], k)
            == if a.kind == Silent && a.key == k then a.time else LastAlert(alerts, k)
  {
    assert (alerts + [a])[..|alerts|] == alerts;
  }

  /** A resolve changes nothing about silence alerts. */
  lemma AfterResolve(alerts: seq<Alert>, cooldowns: map<Key, nat>, cooldown: nat, evaluated: nat, key: Key, time: nat)
    requires Judged(alerts, cooldowns, cooldown, evaluated) == Upheld
    ensures Judged(alerts + [Alert(Resolved, key, time)], cooldowns, cooldown, evaluated) == Upheld
  {
    OneMore(alerts, Alert(Resolved, key, time), cooldown);
  }

  /** Time passes. */
  lemma AfterTime(alerts: seq<Alert>, cooldowns: map<Key, nat>, cooldown: nat, evaluated: nat, time: nat)
    requires Judged(alerts, cooldowns, cooldown, evaluated) == Upheld && evaluated <= time
    ensures Judged(alerts, cooldowns, cooldown, time) == Upheld
  {
  }

  /** A silence alert out of cooldown. */
  lemma AfterSilent(alerts: seq<Alert>, cooldowns: map<Key, nat>, cooldown: nat, time: nat, key: Key)
    requires Judged(alerts, cooldowns, cooldown, time) == Upheld
    requires key !in cooldowns || time - cooldowns[key] >= cooldown
    ensures Judged(alerts + [Alert(Silent, key, time)], cooldowns[key := time], cooldown, time) == Upheld
  {
    OneMore(alerts, Alert(Silent, key, time), cooldown);
  }

  /** The alerts of the first `n` silent services, and the cooldowns after them. */
  function Fired(cooldowns: map<Key, nat>, r: Report, n: nat, time: nat, cooldown: nat): (seq<Alert>, map<Key, nat>)
    requires n <= |r.silent|
  {
    if n == 0 then ([], cooldowns)
    else
      var before, k := Fired(cooldowns, r, n - 1, time, cooldown), Key(r.tenant, r.silent[n - 1]);
      if k in before.1 && time - before.1[k] < cooldown then before
      else (before.0 + [Alert(Silent, k, time)], before.1[k := time])
  }

  /** A key that is not in its cooldown. */
  predicate Due(cooldowns: map<Key, nat>, k: Key, time: nat, cooldown: nat) {
    k !in cooldowns || time - cooldowns[k] >= cooldown
  }

  /** Exactly the silent services that are due get an alert, and start a cooldown. */
  lemma {:induction false} FiredIsRight(cooldowns: map<Key, nat>, r: Report, n: nat, time: nat, cooldown: nat)
    requires n <= |r.silent|
    ensures var fired := Fired(cooldowns, r, n, time, cooldown);
            forall a :: a in fired.0 <==>
              a.kind == Silent && a.time == time && a.key in KeysUpTo(r, n) && Due(cooldowns, a.key, time, cooldown)
    ensures var fired := Fired(cooldowns, r, n, time, cooldown);
            forall k :: if k in KeysUpTo(r, n) && Due(cooldowns, k, time, cooldown)
                then k in fired.1 && fired.1[k] == time
                        else if k in cooldowns then k in fired.1 && fired.1[k] == cooldowns[k] else k !in fired.1
  {
    if n > 0 {
      FiredIsRight(cooldowns, r, n - 1, time, cooldown);
    }
  }

  /** A cooldown older than twice the cooldown is not missed. */
  lemma AfterPruning(alerts: seq<Alert>, cooldowns: map<Key, nat>, cooldown: nat, time: nat, key: Key)
    requires Judged(alerts, cooldowns, cooldown, time) == Upheld
    requires key in cooldowns && cooldowns[key] + 2 * cooldown < time
    ensures Judged(alerts, cooldowns - {key}, cooldown, time) == Upheld
  {
  }

  lemma JudgedIsSpaced(alerts: seq<Alert>, cooldowns: map<Key, nat>, cooldown: nat, evaluated: nat, i: nat, j: nat)
    requires Judged(alerts, cooldowns, cooldown, evaluated) == Upheld && i < j < |alerts|
    requires alerts[i].kind == Silent && alerts[j].kind == Silent && alerts[i].key == alerts[j].key
    ensures alerts[j].time - alerts[i].time >= cooldown
  {
    AlertsAreApart(alerts, cooldown, i, j);
  }

  class SilenceEvaluator {
    const cooldownMs: nat
    var cooldowns: map<Key, nat>
    var firing: set<Key>
    ghost var alerts: seq<Alert>     // every alert that was dispatched
    ghost var evaluated: nat         // when the last evaluation was

    constructor (cooldownMs: nat)
      ensures Valid() && this.cooldownMs == cooldownMs && firing == {} && alerts == []
    {
      this.cooldownMs, cooldowns, firing := cooldownMs, map[], {};
      alerts, evaluated := [], 0;
    }

    ghost predicate Valid()
      reads this
    {
      Judged(alerts, cooldowns, cooldownMs, evaluated) == Upheld
    }

    /** Services of the tenant that fired and are not silent now stop firing; those
        that are still tracked are resolved. */
    method Resolve(time: nat, r: Report) returns (ghost sent: seq<Alert>)
      requires Valid() && evaluated <= time
      modifies this`firing, this`alerts
      ensures Valid() && firing == set k | k in old(firing) && (k.tenant != r.tenant || k in KeysOf(r))
      ensures alerts == old(alerts) + sent
      ensures forall a :: a in sent <==> Recovered(a, r, old(firing), time)
    {
      var silentNow, keys := KeysOf(r), firing;
      ghost var all := firing;
      sent := [];
      while keys != {}
        invariant keys <= all && Valid()
        invariant firing == set k | k in all && (k in keys || k.tenant != r.tenant || k in silentNow)
        invariant alerts == old(alerts) + sent
        invariant forall a :: a in sent <==> Recovered(a, r, all, time) && a.key !in keys
      {
        var k :| k in keys;
        keys := keys - {k};
        if k.tenant != r.tenant || k in silentNow {
          continue;
        }
        firing := firing - {k};
        if k.service in r.tracked {
          AfterResolve(alerts, cooldowns, cooldownMs, evaluated, k, time);
          alerts := alerts + [Alert(Resolved, k, time)];
          sent := sent + [Alert(Resolved, k, time)];
        }
      }
    }

    /** One silent service fires, and is alerted unless it was less than a cooldown ago. */
    method FireOne(time: nat, key: Key) returns (alerted: bool)
      requires Valid() && evaluated == time
      modifies this`firing, this`alerts, this`cooldowns
      ensures Valid() && firing == old(firing) + {key}
      ensures alerted <==> !(key in old(cooldowns) && time - old(cooldowns)[key] < cooldownMs)
      ensures alerts == if alerted then old(alerts) + [Alert(Silent, key, time)] else old(alerts)
      ensures cooldowns == if alerted then old(cooldowns)[key := time] else old(cooldowns)
    {
      firing := firing + {key};
      if key in cooldowns && time - cooldowns[key] < cooldownMs {
        return false;
      }
      AfterSilent(alerts, cooldowns, cooldownMs, time, key);
      alerts := alerts + [Alert(Silent, key, time)];
      cooldowns := cooldowns[key := time];
      alerted := true;
    }

    /** Every silent service fires; new alerts are of silent services only, and each of
        those has had one now or less than a cooldown ago. */
    method Fire(time: nat, r: Report) returns (count: nat, ghost sent: seq<Alert>)
      requires Valid() && evaluated == time
      modifies this`firing, this`alerts, this`cooldowns
      ensures Valid() && firing == old(firing) + KeysOf(r)
      ensures alerts == old(alerts) + sent && count == |sent|
      ensures (sent, cooldowns) == Fired(old(cooldowns), r, |r.silent|, time, cooldownMs)
    {
      count, sent := 0, [];
      ghost var start, was, fired := cooldowns, alerts, firing;
      for i := 0 to |r.silent|
        invariant Valid() && firing == fired + KeysUpTo(r, i)
        invariant alerts == was + sent && count == |sent|
        invariant (sent, cooldowns) == Fired(start, r, i, time, cooldownMs)
      {
        var key := Key(r.tenant, r.silent[i]);
        var alerted := FireOne(time, key);
        assert firing == fired + (KeysUpTo(r, i) + {key});
        if alerted {
          sent := sent + [Alert(Silent, key, time)];
          count := count + 1;
        }
      }
    }

    /** Drop what fires for tenants that are no longer active, and cooldowns older than
        twice the cooldown. */
    method Tidy(time: nat, active: set<string>)
      requires Valid() && evaluated == time
      modifies this`firing, this`cooldowns
      ensures Valid() && firing == set k | k in old(firing) && k.tenant in active
    {
      firing := set k | k in firing && k.tenant in active;
      var keys, all := cooldowns.Keys, cooldowns;
      while keys != {}
        invariant Valid() && keys <= all.Keys && firing == set k | k in old(firing) && k.tenant in active
        invariant cooldowns == map k | k in all && (k in keys || all[k] + 2 * cooldownMs >= time) :: all[k]
      {
        var k :| k in keys;
        keys := keys - {k};
        if all[k] + 2 * cooldownMs < time {
          AfterPruning(alerts, cooldowns, cooldownMs, time, k);
          cooldowns := cooldowns - {k};
        }
      }
    }

    /** One tenant that is not in maintenance. */
    method EvaluateTenant(time: nat, r: Report) returns (count: nat, ghost sent: seq<Alert>)
      requires Valid() && evaluated == time
      modifies this`firing, this`alerts, this`cooldowns
      ensures Valid() && firing == FiringAfter(old(firing), r)
      ensures alerts == old(alerts) + sent && count == SilentIn(sent)
      ensures forall a :: a in sent <==> JustifiedBy(a, r, old(firing), old(cooldowns), time, cooldownMs)
      ensures forall k: Key :: k.tenant != r.tenant ==> LastOf(cooldowns, k) == LastOf(old(cooldowns), k)
    {
      ghost var resolved, fired;
      ghost var start := cooldowns;
      resolved := Resolve(time, r);
      count, fired := Fire(time, r);
      sent := resolved + fired;
      TenantAlerts(r, old(firing), resolved, fired, start, cooldowns, time, cooldownMs);
      TenantCount(r, old(firing), resolved, fired, start, cooldowns, time, cooldownMs);
    }

    /** One evaluation. Afterwards exactly the silent services of every evaluated tenant
        fire; exactly those that are due get a silence alert; a resolve is sent exactly
        for a service that fired, is not silent, and is still tracked. */
    method Evaluate(time: nat, reports: seq<Report>) returns (alertCount: nat, ghost sent: seq<Alert>)
      requires Valid() && evaluated <= time && OncePerTenant(reports)
      modifies this
      ensures Valid() && evaluated == time
      ensures firing == set k | k in FiringAfterAll(old(firing), reports) && k.tenant in Tenants(reports)
      ensures alerts == old(alerts) + sent && alertCount == SilentIn(sent)
      ensures forall a :: a in sent <==> Justified(a, reports, |reports|, old(firing), old(cooldowns), time, cooldownMs)
    {
      alertCount, sent := 0, [];
      AfterTime(alerts, cooldowns, cooldownMs, evaluated, time);
      evaluated := time;
      ghost var was, start, before := firing, cooldowns, alerts;
      for i := 0 to |reports|
        invariant Valid() && evaluated == time
        invariant firing == FiringAfterAll(was, reports[..i])
        invariant alerts == before + sent && alertCount == SilentIn(sent)
        invariant forall a :: a in sent <==> Justified(a, reports, i, was, start, time, cooldownMs)
        invariant forall j, k: Key ::
                  i <= j < |reports| && k.tenant == reports[j].tenant
                  ==> LastOf(cooldowns, k) == LastOf(start, k)
      {
        var r := reports[i];
        assert reports[..i + 1][..i] == reports[..i];
        if r.maintenance {
          continue;
        }
        OwnFiring(was, reports, i);
        ghost var f, c := firing, cooldowns;
        var count;
        ghost var more;
        count, more := EvaluateTenant(time, r);
        SameJustice(r, f, was, c, start, time, cooldownMs);
        SilentInConcat(sent, more);
        sent := sent + more;
        alertCount := alertCount + count;
      }
      assert reports[..|reports|] == reports;
      Tidy(time, Tenants(reports));
    }
  }

  /** When a cooldown started; -1 if there is none. */
  function LastOf(cooldowns: map<Key, nat>, k: Key): int { if k in cooldowns then cooldowns[k] else -1 }

  function SilentIn(alerts: seq<Alert>): nat {
    if alerts == [] then 0
    else SilentIn(alerts[..|alerts| - 1]) + if alerts[|alerts| - 1].kind == Silent then 1 else 0
  }

  lemma {:induction false} SilentInConcat(a: seq<Alert>, b: seq<Alert>)
    ensures SilentIn(a + b) == SilentIn(a) + SilentIn(b)
  {
    if b == [] {
      assert a + b == a;
    } else {
      assert (a + b)[..|a + b| - 1] == a + b[..|b| - 1];
      SilentInConcat(a, b[..|b| - 1]);
    }
  }

  lemma {:induction false} SilentInOne(alerts: seq<Alert>)
    ensures (forall a :: a in alerts ==> a.kind == Silent) ==> SilentIn(alerts) == |alerts|
    ensures (forall a :: a in alerts ==> a.kind == Resolved) ==> SilentIn(alerts) == 0
  {
    if alerts != [] {
      SilentInOne(alerts[..|alerts| - 1]);
      assert forall a :: a in alerts[..|alerts| - 1] ==> a in alerts;
    }
  }

  lemma TenantAlerts(r: Report, firing: set<Key>, resolved: seq<Alert>, fired: seq<Alert>, start: map<Key, nat>,
        after: map<Key, nat>, time: nat, cooldown: nat)
    requires (fired, after) == Fired(start, r, |r.silent|, time, cooldown)
    requires forall a :: a in resolved <==> Recovered(a, r, firing, time)
    ensures forall a :: a in resolved + fired <==> JustifiedBy(a, r, firing, start, time, cooldown)
    ensures forall k: Key :: k.tenant != r.tenant ==> LastOf(after, k) == LastOf(start, k)
  {
    FiredIsRight(start, r, |r.silent|, time, cooldown);
    forall a ensures a in resolved + fired <==> JustifiedBy(a, r, firing, start, time, cooldown) {
      assert a in resolved + fired <==> a in resolved || a in fired;
    }
  }

  lemma TenantCount(r: Report, firing: set<Key>, resolved: seq<Alert>, fired: seq<Alert>, start: map<Key, nat>,
        after: map<Key, nat>, time: nat, cooldown: nat)
    requires (fired, after) == Fired(start, r, |r.silent|, time, cooldown)
    requires forall a :: a in resolved <==> Recovered(a, r, firing, time)
    ensures SilentIn(resolved + fired) == |fired|
  {
    FiredIsRight(start, r, |r.silent|, time, cooldown);
    SilentInConcat(resolved, fired);
    SilentInOne(resolved);
    SilentInOne(fired);
  }

  lemma SameJustice(r: Report, f: set<Key>, was: set<Key>, c: map<Key, nat>, start: map<Key, nat>, time: nat,
        cooldown: nat)
    requires forall k: Key :: k.tenant == r.tenant ==> (k in f <==> k in was) && LastOf(c, k) == LastOf(start, k)
    ensures forall a :: JustifiedBy(a, r, f, c, time, cooldown) <==> JustifiedBy(a, r, was, start, time, cooldown)
  {
    forall a: Alert ensures JustifiedBy(a, r, f, c, time, cooldown) <==> JustifiedBy(a, r, was, start, time, cooldown) {
      if a.key.tenant == r.tenant {
        assert LastOf(c, a.key) == LastOf(start, a.key);
      }
    }
  }

  function Tenants(reports: seq<Report>): set<string> { set r | r in reports :: r.tenant }

  predicate OncePerTenant(reports: seq<Report>) {
    forall i, j :: 0 <= i < j < |reports| ==> reports[i].tenant != reports[j].tenant
  }

  function FiringAfter(firing: set<Key>, r: Report): set<Key> {
    (set k | k in firing && k.tenant != r.tenant) + KeysOf(r)
  }

  function FiringAfterAll(firing: set<Key>, reports: seq<Report>): set<Key> {
    if reports == [] then firing
    else
      var r, before := reports[|reports| - 1], FiringAfterAll(firing, reports[..|reports| - 1]);
      if r.maintenance then before else FiringAfter(before, r)
  }

  /** What the reports gone through so far have left for a tenant. */
  lemma {:induction false} FiringIsSilent(firing: set<Key>, reports: seq<Report>, k: Key)
    requires OncePerTenant(reports)
    ensures forall r :: r in reports && r.tenant == k.tenant && !r.maintenance
              ==> (k in FiringAfterAll(firing, reports) <==> k in KeysOf(r))
    ensures (forall r :: r in reports && r.tenant == k.tenant ==> r.maintenance)
              ==> (k in FiringAfterAll(firing, reports) <==> k in firing)
  {
    if reports != [] {
      var most, last := reports[..|reports| - 1], reports[|reports| - 1];
      FiringIsSilent(firing, most, k);
      assert reports == most + [last];
      assert forall r :: r in most ==> r.tenant != last.tenant;
    }
  }

  /** A tenant's keys are as before when its turn comes. */
  lemma OwnFiring(firing: set<Key>, reports: seq<Report>, i: nat)
    requires OncePerTenant(reports) && i < |reports|
    ensures forall k: Key ::
            k.tenant == reports[i].tenant
            ==> (k in FiringAfterAll(firing, reports[..i]) <==> k in firing)
  {
    forall k: Key | k.tenant == reports[i].tenant ensures k in FiringAfterAll(firing, reports[..i]) <==> k in firing {
      FiringIsSilent(firing, reports[..i], k);
    }
  }

  /** After an evaluation the firing services of every evaluated tenant are its silent
      ones, those of a tenant in maintenance are as before, and there are no others. */
  lemma FiringAfterEvaluation(firing: set<Key>, reports: seq<Report>, k: Key)
    requires OncePerTenant(reports)
    ensures k in (set x | x in FiringAfterAll(firing, reports) && x.tenant in Tenants(reports))
       <==> exists r :: r in reports && r.tenant == k.tenant && if r.maintenance then k in firing else k in KeysOf(r)
  {
    FiringIsSilent(firing, reports, k);
    if k.tenant in Tenants(reports) {
      var r :| r in reports && r.tenant == k.tenant;
      forall x | x in reports && x.tenant == k.tenant ensures x == r {
      }
    }
  }

  /** The alerts of a tenant's report: of what is silent and due, and of what fired, is
      not silent, and is still tracked. */
  predicate JustifiedBy(a: Alert, r: Report, firing: set<Key>, cooldowns: map<Key, nat>, time: nat, cooldown: nat) {
    && a.key.tenant == r.tenant && a.time == time
    && if a.kind == Silent then a.key in KeysOf(r) && Due(cooldowns, a.key, time, cooldown)
       else Recovered(a, r, firing, time)
  }

  /** A resolve: of a service that fired, is not silent, and is still tracked. */
  predicate Recovered(a: Alert, r: Report, firing: set<Key>, time: nat) {
    && a.kind == Resolved && a.time == time && a.key.tenant == r.tenant
    && a.key in firing && a.key !in KeysOf(r) && a.key.service in r.tracked
  }

  /** The alerts of the first `n` reports. */
  ghost predicate Justified(a: Alert, reports: seq<Report>, n: nat, firing: set<Key>, cooldowns: map<Key, nat>,
        time: nat, cooldown: nat)
    requires n <= |reports|
  {
    exists i :: 0 <= i < n && !reports[i].maintenance && JustifiedBy(a, reports[i], firing, cooldowns, time, cooldown)
  }

  lemma {:induction false} KeysAre(r: Report, n: nat, k: Key)
    requires n <= |r.silent|
    ensures k in KeysUpTo(r, n) <==> k.tenant == r.tenant && k.service in r.silent[..n]
  {
    if n > 0 {
      KeysAre(r, n - 1, k);
      assert r.silent[..n] == r.silent[..n - 1] + [r.silent[n - 1]];
    }
  }

  /** Which alerts an evaluation sends, in the words of the reports: silence alerts of
      services that are silent and had none for a cooldown, and resolves of services that
      fired, are not silent and are still tracked; none for a tenant in maintenance. */
  lemma JustifiedIff(a: Alert, reports: seq<Report>, firing: set<Key>, cooldowns: map<Key, nat>, time: nat,
        cooldown: nat)
    ensures Justified(a, reports, |reports|, firing, cooldowns, time, cooldown)
       <==> a.time == time
            && exists r :: r in reports && r.tenant == a.key.tenant && !r.maintenance
                 && match a.kind
                    case Silent =>
                      a.key.service in r.silent && (a.key in cooldowns ==> cooldowns[a.key] + cooldown <= time)
                    case Resolved =>
                      a.key in firing && a.key.service !in r.silent && a.key.service in r.tracked
  {
    forall r | r in reports ensures a.key in KeysOf(r) <==> a.key.tenant == r.tenant && a.key.service in r.silent {
      KeysAre(r, |r.silent|, a.key);
      assert r.silent[..|r.silent|] == r.silent;
    }
  }
}
