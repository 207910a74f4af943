/**
  The anomaly scorer (services/api/src/pipeline/anomaly-scorer.ts, anomaly-strategy.ts):
  pruned in-memory counters against the whole history of recorded events.
*/
module Anomaly {
  import opened Base

  const FIVE_MINUTES: nat := 300_000
  const TEN_MINUTES: nat := 600_000
  const TWO_HOURS: nat := 7_200_000
  const HOUR: nat := 3_600_000

  const UNCLUSTERED := "0"
  const SENTINEL := "__warmup_sentinel__"

  /** What happened to the scorer. */
  datatype Entry =
    | Record(time: nat, tenant: string, service: string, template: string)
    | Prune(time: nat)

  type History = seq<Entry>

  datatype Pair = Pair(tenant: string, service: string)
  datatype Seen = Seen(first: nat, last: nat)
  datatype CounterKey = CounterKey(tenant: string, service: string, template: string, interval: nat)
  datatype HourKey = HourKey(tenant: string, service: string, template: string, hour: nat)

  function Init(h: History): History
    requires h != []
  {
    h[..|h| - 1]
  }

  function Last(h: History): Entry
    requires h != []
  {
    h[|h| - 1]
  }

  /** The clock does not go back. */
  predicate Clocked(h: History) {
    h == [] || (Clocked(Init(h)) && Latest(Init(h)) <= Last(h).time)
  }

  function Latest(h: History): nat { if h == [] then 0 else Last(h).time }

  function Interval(time: nat): nat { time - time % FIVE_MINUTES }

  function Hour(time: nat): nat { time / HOUR % 24 }

  lemma TimesAre(time: nat, interval: nat, day: nat, hour: nat)
    requires interval % 300_000 == 0 && interval <= time < interval + 300_000
    requires hour < 24 && (24 * day + hour) * 3_600_000 <= time < (24 * day + hour + 1) * 3_600_000
    ensures Interval(time) == interval && Hour(time) == hour
  {
    Division(time, FIVE_MINUTES, interval / FIVE_MINUTES, time - interval);
    Division(time, HOUR, 24 * day + hour, time - (24 * day + hour) * HOUR);
  }

  // ------------------------------------------------------- what the history defines

  /** Since when a pair is tracked, and when it was last seen: from its first clustered
      event, until a pruning finds it idle for two hours. */
  function Tracked(h: History, p: Pair): Option<Seen> {
    if h == [] then None
    else
      var before := Tracked(Init(h), p);
      match Last(h)
      case Record(time, tenant, service, template) =>
        if template == UNCLUSTERED || p != Pair(tenant, service) then before
        else if before.None? then Some(Seen(time, time))
        else Some(before.value.(last := time))
      case Prune(time) => if before.Some? && before.value.last + TWO_HOURS < time then None else before
  }

  /** The counter that a recorded event goes to, if it is eligible for one: clustered,
      of a pair that was tracked before, and past its cold start. */
  function CountedBy(before: History, e: Entry, coldStart: nat): Option<CounterKey> {
    if e.Prune? || e.template == UNCLUSTERED || e.template == SENTINEL then None
    else
      var seen := Tracked(before, Pair(e.tenant, e.service));
      if seen.None? || e.time - seen.value.first < coldStart then None
      else Some(CounterKey(e.tenant, e.service, e.template, Interval(e.time)))
  }

  /** How many eligible events a counter has had. */
  function CountOf(h: History, k: CounterKey, coldStart: nat): nat {
    if h == [] then 0
    else CountOf(Init(h), k, coldStart) + if CountedBy(Init(h), Last(h), coldStart) == Some(k) then 1 else 0
  }

  /** How many eligible events a service has had in an interval. */
  function ServiceCount(h: History, p: Pair, interval: nat, coldStart: nat): nat {
    if h == [] then 0
    else
      var k := CountedBy(Init(h), Last(h), coldStart);
      ServiceCount(Init(h), p, interval, coldStart)
      + if k.Some? && Pair(k.value.tenant, k.value.service) == p && k.value.interval == interval then 1 else 0
  }

  // --------------------------------------------------------------------- the score

  datatype Thresholds = Thresholds(warmup: real, steady: real, newTemplate: real)
  {
    ghost predicate Positive() { warmup > 0.0 && steady > 0.0 && newTemplate > 0.0 }
  }

  /** The ratio of the count to the baseline (at least one) against the threshold, or
      of the count to an absolute threshold when there is no baseline. */
  function Score(o: Thresholds, count: nat, baseline: Option<real>, inWarmup: bool): real
    requires o.Positive()
  {
    if baseline.None? || baseline.value <= 0.0 then
      (if count as real > o.newTemplate then count as real / o.newTemplate else 0.0)
    else
      var effective := if baseline.value > 1.0 then baseline.value else 1.0;
      var score := count as real / effective / (if inWarmup then o.warmup else o.steady);
      if score >= 1.0 then score else 0.0
  }

  lemma DivLess(a: real, b: real, c: real)
    requires c > 0.0 && a <= b
    ensures a / c <= b / c
    ensures b > c ==> b / c >= 1.0
  {
    var p, q := a / c, b / c;
    assert p * c == a && q * c == b;
    assert p - q > 0.0 ==> (p - q) * c > 0.0;
    assert 1.0 - q > 0.0 ==> (1.0 - q) * c > 0.0;
  }

  /** A score is zero or at least one, and does not fall as the count rises. */
  lemma ScoreIsMonotone(o: Thresholds, m: nat, n: nat, baseline: Option<real>, inWarmup: bool)
    requires o.Positive() && m <= n
    ensures Score(o, m, baseline, inWarmup) == 0.0 || Score(o, m, baseline, inWarmup) >= 1.0
    ensures Score(o, m, baseline, inWarmup) <= Score(o, n, baseline, inWarmup)
  {
    var a, b := m as real, n as real;
    if baseline.None? || baseline.value <= 0.0 {
      DivLess(a, a, o.newTemplate);
      DivLess(a, b, o.newTemplate);
    } else {
      var effective := if baseline.value > 1.0 then baseline.value else 1.0;
      var threshold := if inWarmup then o.warmup else o.steady;
      DivLess(a, b, effective);
      DivLess(a / effective, b / effective, threshold);
    }
  }

  /** The least count that is anomalous where there is a baseline. */
  function Least(o: Thresholds, baseline: real, inWarmup: bool): real {
    (if inWarmup then o.warmup else o.steady) * (if baseline > 1.0 then baseline else 1.0)
  }

  lemma DivIs(a: real, b: real, c: real)
    requires b > 0.0 && c > 0.0
    ensures (a / b / c) * (c * b) == a && (a / b / c >= 1.0 <==> a >= c * b)
  {
    var p, q := a / b, a / b / c;
    assert p * b == a && q * c == p;
    assert q * (c * b) == (q * c) * b;
    var d, n := q - 1.0, c * b;
    assert n > 0.0 && d * n == a - n;
    assert d >= 0.0 ==> d * n >= 0.0;
    assert d < 0.0 ==> d * n < 0.0;
  }

  lemma OverIs(a: real, c: real)
    requires c > 0.0
    ensures (a / c) * c == a && (a / c > 1.0 <==> a > c)
  {
    var d := a / c - 1.0;
    assert d * c == a - c;
    assert d > 0.0 ==> d * c > 0.0;
    assert d <= 0.0 ==> d * c <= 0.0;
  }

  /** Which counts are anomalous, and by how much: those over the absolute threshold
      where there is no baseline, and else those that reach the multiple of it that is
      due, during the warmup and after. */
  lemma ScoreIs(o: Thresholds, count: nat, baseline: Option<real>, inWarmup: bool)
    requires o.Positive()
    ensures baseline.None? || baseline.value <= 0.0
            ==> var score := Score(o, count, baseline, inWarmup);
                if count as real <= o.newTemplate then score == 0.0
                else score > 1.0 && score * o.newTemplate == count as real
    ensures baseline.Some? && baseline.value > 0.0
            ==> var score, least := Score(o, count, baseline, inWarmup), Least(o, baseline.value, inWarmup);
                if (count as real) < least then score == 0.0 else score >= 1.0 && score * least == count as real
  {
    if baseline.None? || baseline.value <= 0.0 {
      OverIs(count as real, o.newTemplate);
    } else {
      DivIs(count as real, if baseline.value > 1.0 then baseline.value else 1.0,
          if inWarmup then o.warmup else o.steady);
    }
  }

  // ------------------------------------------------------------ facts of the history

  /** A pair with a clustered event in the last two hours is tracked. */
  lemma {:induction false} RecentIsTracked(h: History, i: nat)
    requires Clocked(h) && i < |h| && h[i].Record? && h[i].template != UNCLUSTERED && Latest(h) <= h[i].time + TWO_HOURS
    ensures var seen := Tracked(h, Pair(h[i].tenant, h[i].service)); seen.Some? && seen.value.last >= h[i].time
    decreases |h|
  {
    if i < |h| - 1 {
      RecentIsTracked(Init(h), i);
      ClockedUpTo(Init(h), i);
    } else {
      LastSeenIsPast(Init(h), Pair(h[i].tenant, h[i].service));
    }
  }

  lemma {:induction false} ClockedUpTo(h: History, i: nat)
    requires Clocked(h) && i < |h|
    ensures h[i].time <= Latest(h)
    decreases |h|
  {
    if i < |h| - 1 {
      ClockedUpTo(Init(h), i);
    }
  }

  lemma {:induction false} LastSeenIsPast(h: History, p: Pair)
    requires Clocked(h)
    ensures Tracked(h, p).Some? ==> Tracked(h, p).value.first <= Tracked(h, p).value.last <= Latest(h)
  {
    if h != [] {
      LastSeenIsPast(Init(h), p);
    }
  }

  /** A counter of the current or the previous interval is out of reach of pruning. */
  lemma RecentIntervalIsKept(k: CounterKey, time: nat, pruned: nat)
    requires pruned <= time && k.interval + FIVE_MINUTES >= Interval(time)
    ensures k.interval + TEN_MINUTES >= pruned
  {
  }

  // ----------------------------------------------------------------------- the scorer

  function Value(counters: map<CounterKey, nat>, k: CounterKey): nat { if k in counters then counters[k] else 0 }

  function Lookup(baselines: map<HourKey, real>, k: HourKey): Option<real> {
    if k in baselines then Some(baselines[k]) else None
  }

  /** A counter that is there counts its events; one that is not never had any, or
      belongs to an interval that pruning has passed. */
  ghost predicate Counts(counters: map<CounterKey, nat>, h: History, coldStart: nat, pruned: nat) {
    forall k :: if k in counters then counters[k] == CountOf(h, k, coldStart) > 0
                else CountOf(h, k, coldStart) == 0 || k.interval + TEN_MINUTES < pruned
  }

  /** One more event, and the counters after it. */
  lemma CountsMore(counters: map<CounterKey, nat>, h: History, e: Entry, coldStart: nat, pruned: nat)
    requires Counts(counters, h, coldStart, pruned)
    ensures var k := CountedBy(h, e, coldStart);
            if k.None? then Counts(counters, h + [e], coldStart, pruned)
            else k.value.interval + TEN_MINUTES >= pruned
                 ==> Value(counters, k.value) == CountOf(h, k.value, coldStart)
                     && Counts(counters[k.value := Value(counters, k.value) + 1], h + [e], coldStart, pruned)
  {
    assert Init(h + [e]) == h;
  }

  datatype Watched = Watched(score: real, count: nat, baseline: real)

  datatype Config = Config(coldStart: nat, warmup: nat, thresholds: Thresholds, drop: real, minExpected: real)

  class AnomalyScorer {
    const config: Config
    var counters: map<CounterKey, nat>
    var baselines: map<HourKey, real>
    var tracker: map<Pair, Seen>
    ghost var history: History
    ghost var pruned: nat             // when counters were last pruned

    constructor (config: Config)
      requires config.thresholds.Positive()
      ensures Valid() && this.config == config && history == [] && baselines == map[]
    {
      this.config := config;
      counters, baselines, tracker := map[], map[], map[];
      history, pruned := [], 0;
    }

    ghost predicate TrackerOk()
      reads this
    {
      forall p :: if p in tracker then Tracked(history, p) == Some(tracker[p]) else Tracked(history, p) == None
    }

    ghost predicate CountersOk()
      reads this
    {
      Counts(counters, history, config.coldStart, pruned)
    }

    ghost predicate Valid()
      reads this
    {
      config.thresholds.Positive() && Clocked(history) && pruned <= Latest(history) && TrackerOk() && CountersOk()
    }

    /** The counters of the current and the previous interval are those of the whole
        history. */
    lemma CountersAreExact(time: nat, k: CounterKey)
      requires Valid() && Latest(history) <= time && k.interval + FIVE_MINUTES >= Interval(time)
      ensures Value(counters, k) == CountOf(history, k, config.coldStart)
    {
      RecentIntervalIsKept(k, time, pruned);
    }

    /** The score of an event that follows `before`: zero unless it is counted, else
        that of its count over the whole history. */
    ghost function RecordedScore(before: History, e: Entry): real
      reads this`baselines
      requires config.thresholds.Positive() && e.Record?
    {
      var k := CountedBy(before, e, config.coldStart);
      if k.None? then 0.0
      else Score(config.thresholds, CountOf(before, k.value, config.coldStart) + 1,
                 Lookup(baselines, HourKey(e.tenant, e.service, e.template, Hour(e.time))),
                 e.time - Tracked(before, Pair(e.tenant, e.service)).value.first < config.warmup)
    }

    /** Which events score, from what the history and the baselines of the hour say: a
        clustered one of a pair whose first event is a cold start old, when the events
        that the five minutes have counted with it reach what is due at the age. */
    lemma ScoresIff(before: History, e: Entry, interval: nat, day: nat, hour: nat)
      requires config.thresholds.Positive() && e.Record?
      requires interval % 300_000 == 0 && interval <= e.time < interval + 300_000
      requires hour < 24 && (24 * day + hour) * 3_600_000 <= e.time < (24 * day + hour + 1) * 3_600_000
      ensures var seen := Tracked(before, Pair(e.tenant, e.service));
              var n := CountOf(before, CounterKey(e.tenant, e.service, e.template, interval), config.coldStart) + 1;
              var baseline := Lookup(baselines, HourKey(e.tenant, e.service, e.template, hour));
              RecordedScore(before, e) > 0.0
              <==> && e.template != "0" && e.template != "__warmup_sentinel__"
                   && seen.Some? && seen.value.first + config.coldStart <= e.time
                   && if baseline.None? || baseline.value <= 0.0 then n as real > config.thresholds.newTemplate
                      else n as real >= Least(config.thresholds, baseline.value,
                                              e.time < seen.value.first + config.warmup)
    {
      TimesAre(e.time, interval, day, hour);
      var k := CountedBy(before, e, config.coldStart);
      if k.Some? {
        ScoreIs(config.thresholds, CountOf(before, k.value, config.coldStart) + 1,
            Lookup(baselines, HourKey(e.tenant, e.service, e.template, Hour(e.time))),
            e.time - Tracked(before, Pair(e.tenant, e.service)).value.first < config.warmup);
      }
    }

    /** At the instant an event is counted, the watch sees the score that it got. */
    lemma WatchAgrees(before: History, e: Entry)
      requires config.thresholds.Positive() && history == before + [e] && CountedBy(before, e, config.coldStart).Some?
      ensures var w, score := WatchedOf(e.time, e.tenant, e.service, e.template), RecordedScore(before, e);
              if score > 0.0 && e.service != "" && e.template != "" then w.Some? && w.value.score == score else w.None?
    {
      assert Init(history) == before;
    }

    /** Record an event; its score is that of its counter over the whole history. */
    method RecordAndScore(time: nat, tenant: string, service: string, template: string) returns (score: real)
      requires Valid() && Latest(history) <= time
      modifies this`counters, this`tracker, this`history
      ensures Valid() && history == old(history) + [Record(time, tenant, service, template)]
      ensures score == RecordedScore(old(history), Record(time, tenant, service, template))
    {
      ghost var before, event := history, Record(time, tenant, service, template);
      history := history + [event];
      assert Init(history) == before;
      CountsMore(counters, before, event, config.coldStart, pruned);
      score := 0.0;
      if template == UNCLUSTERED {
        return;
      }
      var pair := Pair(tenant, service);
      if pair !in tracker {
        tracker := tracker[pair := Seen(time, time)];
        return;
      }
      var first := tracker[pair].first;
      tracker := tracker[pair := tracker[pair].(last := time)];
      if template == SENTINEL || time - first < config.coldStart {
        return;
      }
      var key := CounterKey(tenant, service, template, Interval(time));
      RecentIntervalIsKept(key, time, pruned);
      var count := Value(counters, key) + 1;
      counters := counters[key := count];
      score := Score(config.thresholds, count, Lookup(baselines, HourKey(tenant, service, template, Hour(time))),
          time - first < config.warmup);
    }

    /** Remove counters older than ten minutes and pairs idle for two hours. */
    method PruneOldCounters(time: nat)
      requires Valid() && Latest(history) <= time
      modifies this`counters, this`tracker, this`history, this`pruned
      ensures Valid() && history == old(history) + [Prune(time)]
      ensures forall k: CounterKey ::
              k.interval + FIVE_MINUTES >= Interval(time)
              ==> Value(counters, k) == Value(old(counters), k)
    {
      ghost var before := history;
      PruneCounters(time);
      PruneTracker(time);
      history := history + [Prune(time)];
      pruned := time;
      assert Init(history) == before;
    }

    method PruneCounters(time: nat)
      modifies this`counters
      ensures counters == map k: CounterKey | k in old(counters) && k.interval + TEN_MINUTES >= time :: old(counters)[k]
    {
      var keys, all := counters.Keys, counters;
      while keys != {}
        invariant keys <= all.Keys
        invariant counters == map k: CounterKey | k in all && (k in keys || k.interval + TEN_MINUTES >= time) :: all[k]
      {
        var k :| k in keys;
        keys := keys - {k};
        if k.interval + TEN_MINUTES < time {
          counters := counters - {k};
        }
      }
    }

    method PruneTracker(time: nat)
      modifies this`tracker
      ensures tracker == map p | p in old(tracker) && old(tracker)[p].last + TWO_HOURS >= time :: old(tracker)[p]
    {
      var keys, all := tracker.Keys, tracker;
      while keys != {}
        invariant keys <= all.Keys
        invariant tracker == map p | p in all && (p in keys || all[p].last + TWO_HOURS >= time) :: all[p]
      {
        var p :| p in keys;
        keys := keys - {p};
        if all[p].last + TWO_HOURS < time {
          tracker := tracker - {p};
        }
      }
    }

    /** What the scorer says of a watched template at some time, from the history. */
    ghost function WatchedOf(time: nat, tenant: string, service: string, template: string): (w: Option<Watched>)
      reads this
      requires config.thresholds.Positive()
    {
      var seen := Tracked(history, Pair(tenant, service));
      var count := CountOf(history, CounterKey(tenant, service, template, Interval(time)), config.coldStart);
      var baseline := Lookup(baselines, HourKey(tenant, service, template, Hour(time)));
      if count == 0 || template == "" || service == "" || seen.None? || time - seen.value.first < config.coldStart
          then None
      else
        var score := Score(config.thresholds, count, baseline, time - seen.value.first < config.warmup);
        if score > 0.0 then Some(Watched(score, count, if baseline.Some? then baseline.value else 0.0)) else None
    }

    /** Read-only scores of watched templates. */
    method GetWatchedScores(time: nat, tenant: string, templates: set<string>)
      returns (scores: map<(string, string), Watched>)
      requires Valid() && Latest(history) <= time
      ensures forall service, template ::
                if template in templates && WatchedOf(time, tenant, service, template).Some?
                then (service, template) in scores
                    && scores[(service, template)] == WatchedOf(time, tenant, service, template).value
                else (service, template) !in scores
    {
      scores := map[];
      var keys := counters.Keys;
      while keys != {}
        invariant keys <= counters.Keys
        invariant forall service, template ::
                    var k := CounterKey(tenant, service, template, Interval(time));
                    if k in counters && k !in keys && template in templates
                        && WatchedOf(time, tenant, service, template).Some?
                    then (service, template) in scores
                        && scores[(service, template)] == WatchedOf(time, tenant, service, template).value
                    else (service, template) !in scores
      {
        var k :| k in keys;
        keys := keys - {k};
        if k.tenant != tenant || k.interval != Interval(time) || k.template == "" || k.service == ""
            || k.template !in templates {
          continue;
        }
        var pair := Pair(tenant, k.service);
        if pair !in tracker || time - tracker[pair].first < config.coldStart {
          continue;
        }
        var baseline := Lookup(baselines, HourKey(tenant, k.service, k.template, Hour(time)));
        var score := Score(config.thresholds, counters[k], baseline, time - tracker[pair].first < config.warmup);
        if score > 0.0 {
          scores := scores[(k.service, k.template) :=
              Watched(score, counters[k], if baseline.Some? then baseline.value else 0.0)];
        }
      }
    }

    /** Clear and replace one tenant's baselines; of rows with one key the last wins. */
    method ReplaceBaselines(tenant: string, rows: seq<(HourKey, real)>)
      requires forall r :: r in rows ==> r.0.tenant == tenant
      modifies this`baselines
      ensures forall k: HourKey :: k.tenant != tenant ==> Lookup(baselines, k) == Lookup(old(baselines), k)
      ensures forall k: HourKey :: k.tenant == tenant ==> Lookup(baselines, k) == LastOf(rows, k)
    {
      var all := baselines;
      baselines := map k: HourKey | k in all && k.tenant != tenant :: all[k];
      for i := 0 to |rows|
        invariant forall k: HourKey :: k.tenant != tenant ==> Lookup(baselines, k) == Lookup(all, k)
        invariant forall k: HourKey :: k.tenant == tenant ==> Lookup(baselines, k) == LastOf(rows[..i], k)
      {
        assert rows[..i + 1][..i] == rows[..i];
        baselines := baselines[rows[i].0 := rows[i].1];
      }
      assert rows[..|rows|] == rows;
    }

    /** A service is silent when it is tracked and past its cold start, and in the last
        complete interval its events were fewer than a fraction of what its baselines
        of that hour add up to. */
    ghost predicate Silent(time: nat, tenant: string, service: string)
      reads this
      requires time >= FIVE_MINUTES && config.drop > 0.0
    {
      var previous := Interval(time) - FIVE_MINUTES;
      var seen := Tracked(history, Pair(tenant, service));
      var expected := Expected(baselines.Keys, baselines, Pair(tenant, service), Hour(previous));
      var actual := ServiceCount(history, Pair(tenant, service), previous, config.coldStart);
      && service != "" && seen.Some? && time - seen.value.first >= config.coldStart
      && (exists k :: k in baselines && Pair(k.tenant, k.service) == Pair(tenant, service) && k.hour == Hour(previous))
      && expected >= config.minExpected && expected > 0.0 && actual as real / expected < 1.0 / config.drop
    }

    /** How the sums and the tracker tell it. */
    lemma SilentIs(time: nat, tenant: string, service: string, expected: real, actual: nat)
      requires Valid() && Latest(history) <= time && time >= FIVE_MINUTES && config.drop > 0.0 && service != ""
      requires var previous := Interval(time) - FIVE_MINUTES;
               && expected == Expected(baselines.Keys, baselines, Pair(tenant, service), Hour(previous))
               && actual == Actual(counters.Keys, counters, Pair(tenant, service), previous)
               && exists k :: k in baselines && Pair(k.tenant, k.service) == Pair(tenant, service)
                   && k.hour == Hour(previous)
      ensures var pair := Pair(tenant, service);
              Silent(time, tenant, service)
              <==> expected >= config.minExpected && pair in tracker && time - tracker[pair].first >= config.coldStart
                   && expected > 0.0 && actual as real / expected < 1.0 / config.drop
    {
      ActualIsCount(time, Pair(tenant, service), Interval(time) - FIVE_MINUTES);
    }

    /** The silent services: exactly those that the history and the baselines say. */
    method GetServiceSilenceScores(time: nat, tenant: string) returns (silent: set<string>)
      requires Valid() && Latest(history) <= time && time >= FIVE_MINUTES && config.drop > 0.0
      ensures forall service :: service in silent <==> Silent(time, tenant, service)
    {
      var previous := Interval(time) - FIVE_MINUTES;
      var expectedByService := SumBaselines(tenant, Hour(previous));
      var actualByService := SumCounters(tenant, previous);
      silent := {};
      var services := expectedByService.Keys;
      while services != {}
        invariant services <= expectedByService.Keys
        invariant forall s :: s in silent <==> s in expectedByService && s !in services && Silent(time, tenant, s)
      {
        var service :| service in services;
        services := services - {service};
        var pair := Pair(tenant, service);
        var expected := expectedByService[service];
        var actual := if service in actualByService then actualByService[service] else 0;
        SilentIs(time, tenant, service, expected, actual);
        if expected >= config.minExpected && pair in tracker && time - tracker[pair].first >= config.coldStart {
          // a ratio to zero is infinite or not a number, and never below the threshold
          if expected > 0.0 && actual as real / expected < 1.0 / config.drop {
            silent := silent + {service};
          }
        }
      }
    }

    /** What the counters of an interval add up to is what the history counts. */
    lemma ActualIsCount(time: nat, p: Pair, interval: nat)
      requires Valid() && Latest(history) <= time && interval + FIVE_MINUTES >= Interval(time)
      ensures Actual(counters.Keys, counters, p, interval) == ServiceCount(history, p, interval, config.coldStart)
    {
      forall k | k in counters && k.interval == interval ensures counters[k] == CountOf(history, k, config.coldStart) {
      }
      ActualIsCountOver(counters.Keys, counters, history, p, interval, config.coldStart);
      forall k: CounterKey | k.interval == interval && CountOf(history, k, config.coldStart) > 0 ensures k in counters {
        CountersAreExact(time, k);
      }
      CountOverIsServiceCount(counters.Keys, history, p, interval, config.coldStart);
    }

    method SumBaselines(tenant: string, hour: nat) returns (sums: map<string, real>)
      ensures forall s ::
              s in sums
              <==> s != "" && exists k ::
                     k in baselines && Pair(k.tenant, k.service) == Pair(tenant, s) && k.hour == hour
      ensures forall s :: s in sums ==> sums[s] == Expected(baselines.Keys, baselines, Pair(tenant, s), hour)
    {
      sums := map[];
      var keys := baselines.Keys;
      ghost var done: set<HourKey> := {};
      while keys != {}
        invariant done !! keys && done + keys == baselines.Keys
        invariant forall s ::
                  s in sums
                  <==> s != "" && exists k ::
                         k in done && Pair(k.tenant, k.service) == Pair(tenant, s) && k.hour == hour
        invariant forall s ::
                  s != ""
                  ==> (if s in sums then sums[s] else 0.0) == Expected(done, baselines, Pair(tenant, s), hour)
      {
        var k :| k in keys;
        keys := keys - {k};
        forall s ensures Expected(done + {k}, baselines, Pair(tenant, s), hour)
                      == Expected(done, baselines, Pair(tenant, s), hour)
                          + ExpectedTerm(baselines, Pair(tenant, s), hour, k) {
          ExpectedAdd(done, baselines, Pair(tenant, s), hour, k);
        }
        done := done + {k};
        if k.tenant == tenant && k.hour == hour && k.service != "" {
          sums := sums[k.service := (if k.service in sums then sums[k.service] else 0.0) + baselines[k]];
        }
      }
      assert done == baselines.Keys;
    }

    method SumCounters(tenant: string, interval: nat) returns (sums: map<string, nat>)
      ensures forall s ::
              s != ""
              ==> (if s in sums then sums[s] else 0) == Actual(counters.Keys, counters, Pair(tenant, s), interval)
    {
      sums := map[];
      var keys := counters.Keys;
      ghost var done: set<CounterKey> := {};
      while keys != {}
        invariant done !! keys && done + keys == counters.Keys
        invariant forall s ::
                  s != ""
                  ==> (if s in sums then sums[s] else 0) == Actual(done, counters, Pair(tenant, s), interval)
      {
        var k :| k in keys;
        keys := keys - {k};
        forall s ensures Actual(done + {k}, counters, Pair(tenant, s), interval)
                      == Actual(done, counters, Pair(tenant, s), interval)
                          + ActualTerm(counters, Pair(tenant, s), interval, k) {
          ActualAdd(done, counters, Pair(tenant, s), interval, k);
        }
        done := done + {k};
        if k.tenant == tenant && k.interval == interval && k.service != "" {
          sums := sums[k.service := (if k.service in sums then sums[k.service] else 0) + counters[k]];
        }
      }
      assert done == counters.Keys;
    }
  }

  function LastOf(rows: seq<(HourKey, real)>, k: HourKey): Option<real> {
    if rows == [] then None
    else if rows[|rows| - 1].0 == k then Some(rows[|rows| - 1].1)
    else LastOf(rows[..|rows| - 1], k)
  }

  lemma {:induction false} LastOfIs(rows: seq<(HourKey, real)>, k: HourKey, i: nat)
    requires i < |rows| && rows[i].0 == k && forall j :: i < j < |rows| ==> rows[j].0 != k
    ensures LastOf(rows, k) == Some(rows[i].1)
    decreases |rows|
  {
    if i < |rows| - 1 {
      LastOfIs(rows[..|rows| - 1], k, i);
    }
  }

  // ---------------------------------------------------------- sums over sets of keys

  function ExpectedTerm(baselines: map<HourKey, real>, p: Pair, hour: nat, k: HourKey): real {
    if k in baselines && Pair(k.tenant, k.service) == p && k.hour == hour then baselines[k] else 0.0
  }

  ghost function Expected(keys: set<HourKey>, baselines: map<HourKey, real>, p: Pair, hour: nat): real {
    if keys == {} then 0.0
    else
      var k :| k in keys;
      Expected(keys - {k}, baselines, p, hour) + ExpectedTerm(baselines, p, hour, k)
  }

  lemma {:induction false} ExpectedAdd(keys: set<HourKey>, baselines: map<HourKey, real>, p: Pair, hour: nat,
        k: HourKey)
    requires k !in keys
    ensures Expected(keys + {k}, baselines, p, hour)
            == Expected(keys, baselines, p, hour) + ExpectedTerm(baselines, p, hour, k)
    decreases |keys|
  {
    var all := keys + {k};
    var x :| x in all && Expected(all, baselines, p, hour)
        == Expected(all - {x}, baselines, p, hour) + ExpectedTerm(baselines, p, hour, x);
    if x == k {
      assert all - {x} == keys;
    } else {
      assert all - {x} == (keys - {x}) + {k} && (keys - {x}) + {x} == keys;
      ExpectedAdd(keys - {x}, baselines, p, hour, k);
      ExpectedAdd(keys - {x}, baselines, p, hour, x);
    }
  }

  /** One more key of a baseline adds it where the service and the hour are its own. */
  lemma ExpectedGrows(keys: set<HourKey>, baselines: map<HourKey, real>, k: HourKey, tenant: string, service: string,
        hour: nat)
    requires k !in keys && k in baselines
    ensures Expected(keys + {k}, baselines, Pair(tenant, service), hour)
            == Expected(keys, baselines, Pair(tenant, service), hour)
                + if k.tenant == tenant && k.service == service && k.hour == hour then baselines[k] else 0.0
  {
    ExpectedAdd(keys, baselines, Pair(tenant, service), hour, k);
  }

  function ActualTerm(counters: map<CounterKey, nat>, p: Pair, interval: nat, k: CounterKey): nat {
    if Pair(k.tenant, k.service) == p && k.interval == interval then Value(counters, k) else 0
  }

  ghost function Actual(keys: set<CounterKey>, counters: map<CounterKey, nat>, p: Pair, interval: nat): nat {
    if keys == {} then 0
    else
      var k :| k in keys;
      Actual(keys - {k}, counters, p, interval) + ActualTerm(counters, p, interval, k)
  }

  lemma {:induction false} ActualAdd(keys: set<CounterKey>, counters: map<CounterKey, nat>, p: Pair, interval: nat,
        k: CounterKey)
    requires k !in keys
    ensures Actual(keys + {k}, counters, p, interval)
            == Actual(keys, counters, p, interval) + ActualTerm(counters, p, interval, k)
    decreases |keys|
  {
    var all := keys + {k};
    var x :| x in all && Actual(all, counters, p, interval)
        == Actual(all - {x}, counters, p, interval) + ActualTerm(counters, p, interval, x);
    if x == k {
      assert all - {x} == keys;
    } else {
      assert all - {x} == (keys - {x}) + {k} && (keys - {x}) + {x} == keys;
      ActualAdd(keys - {x}, counters, p, interval, k);
      ActualAdd(keys - {x}, counters, p, interval, x);
    }
  }

  /** The counts of some counters of a service in an interval, over the history. */
  function CountOver(keys: set<CounterKey>, h: History, p: Pair, interval: nat, coldStart: nat): nat {
    if h == [] then 0
    else
      var k := CountedBy(Init(h), Last(h), coldStart);
      CountOver(keys, Init(h), p, interval, coldStart)
      + if k.Some? && k.value in keys && Pair(k.value.tenant, k.value.service) == p && k.value.interval == interval
          then 1 else 0
  }

  lemma {:induction false} CountOverAdd(keys: set<CounterKey>, h: History, p: Pair, interval: nat, coldStart: nat,
        k: CounterKey)
    requires k !in keys
    ensures CountOver(keys + {k}, h, p, interval, coldStart)
         == CountOver(keys, h, p, interval, coldStart)
            + if Pair(k.tenant, k.service) == p && k.interval == interval then CountOf(h, k, coldStart) else 0
  {
    if h != [] {
      CountOverAdd(keys, Init(h), p, interval, coldStart, k);
    }
  }

  lemma {:induction false} CountOverNone(h: History, p: Pair, interval: nat, coldStart: nat)
    ensures CountOver({}, h, p, interval, coldStart) == 0
  {
    if h != [] {
      CountOverNone(Init(h), p, interval, coldStart);
    }
  }

  lemma {:induction false} ActualIsCountOver(keys: set<CounterKey>, counters: map<CounterKey, nat>, h: History,
        p: Pair, interval: nat, coldStart: nat)
    requires forall k :: k in keys && k.interval == interval ==> Value(counters, k) == CountOf(h, k, coldStart)
    ensures Actual(keys, counters, p, interval) == CountOver(keys, h, p, interval, coldStart)
    decreases |keys|
  {
    if keys == {} {
      CountOverNone(h, p, interval, coldStart);
    } else {
      var k :| k in keys;
      ActualAdd(keys - {k}, counters, p, interval, k);
      ActualIsCountOver(keys - {k}, counters, h, p, interval, coldStart);
      CountOverAdd(keys - {k}, h, p, interval, coldStart, k);
      assert (keys - {k}) + {k} == keys;
    }
  }

  lemma {:induction false} CountOverIsServiceCount(keys: set<CounterKey>, h: History, p: Pair, interval: nat,
        coldStart: nat)
    requires forall k: CounterKey :: k.interval == interval && CountOf(h, k, coldStart) > 0 ==> k in keys
    ensures CountOver(keys, h, p, interval, coldStart) == ServiceCount(h, p, interval, coldStart)
  {
    if h != [] {
      forall k: CounterKey | k.interval == interval && CountOf(Init(h), k, coldStart) > 0 ensures k in keys {
        assert CountOf(h, k, coldStart) > 0;
      }
      CountOverIsServiceCount(keys, Init(h), p, interval, coldStart);
      var k := CountedBy(Init(h), Last(h), coldStart);
      if k.Some? {
        assert CountOf(h, k.value, coldStart) > 0;
      }
    }
  }
}
