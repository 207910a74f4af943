/**
  The fixed-window rate limiter (services/api/src/middleware/rate-limit.ts) against
  the whole history of requests.
*/
module RateLimit {
  import opened Base

  const WINDOW: nat := 60_000

  datatype Group = Ingest | RawLogs | Default

  /** A bucket of a key: its route group has a window and a limit of its own. */
  datatype Bucket = Bucket(keyId: string, group: Group)

  /** A request and what became of it. */
  datatype Entry = Entry(time: nat, bucket: Bucket, tenant: string, admitted: bool)

  datatype Window = Window(count: nat, resetAt: nat)

  type Log = seq<Entry>

  predicate Clocked(log: Log) {
    |log| <= 1 || (Clocked(log[..|log| - 1]) && log[|log| - 2].time <= log[|log| - 1].time)
  }

  function Latest(log: Log): nat { if log == [] then 0 else log[|log| - 1].time }

  // ------------------------------------------------------------ windows of a history

  /** The window that a request at some time falls into. */
  function Opened(w: Option<Window>, time: nat): Window {
    if w.None? || time >= w.value.resetAt then Window(0, time + WINDOW) else w.value
  }

  /** The last window of a key, by the history alone. */
  function WindowOf<K(==)>(log: Log, key: Entry -> K, k: K): Option<Window> {
    if log == [] then None
    else
      var before, e := WindowOf(log[..|log| - 1], key, k), log[|log| - 1];
      if key(e) != k then before
      else
        var w := Opened(before, e.time);
        Some(if e.admitted then w.(count := w.count + 1) else w)
  }

  /** No request is admitted over the limit of its key. */
  ghost predicate Respects<K(!new)>(log: Log, key: Entry -> K, limit: K -> nat) {
    log == []
    || (var before, e := log[..|log| - 1], log[|log| - 1];
        Respects(before, key, limit)
        && (e.admitted ==> Opened(WindowOf(before, key, key(e)), e.time).count < limit(key(e))))
  }

  /** How many requests of a key were admitted in a span of time. */
  function Admitted<K(==)>(log: Log, key: Entry -> K, k: K, from: int, until: int): nat {
    if log == [] then 0
    else
      var e := log[|log| - 1];
      Admitted(log[..|log| - 1], key, k, from, until)
      + if e.admitted && key(e) == k && from <= e.time < until then 1 else 0
  }

  // ----------------------------------------------------------------- the bound on 60 s

  predicate Expired(w: Option<Window>, time: nat) { w.None? || time >= w.value.resetAt }

  /** Each request that opens a window of `k` is admitted. */
  ghost predicate OpenersAdmitted<K(!new)>(log: Log, key: Entry -> K, k: K) {
    log == []
    || (var before, e := log[..|log| - 1], log[|log| - 1];
        OpenersAdmitted(before, key, k)
        && (key(e) == k && Expired(WindowOf(before, key, k), e.time) ==> e.admitted))
  }

  /** One where every window of `k` begins with an admission, else zero. */
  ghost function Bonus<K(!new)>(log: Log, key: Entry -> K, k: K): nat {
    if OpenersAdmitted(log, key, k) then 1 else 0
  }

  /** What a window knows of the admissions: none after its end; those since its start
      are its count, one less if its opener, who was admitted, is left out; those of the
      minute before that are at most one limit more. */
  ghost predicate WindowOk<K(!new)>(log: Log, key: Entry -> K, k: K, limit: nat, bonus: nat) {
    var w := WindowOf(log, key, k);
    if w.None? then forall a, b :: Admitted(log, key, k, a, b) == 0
    else
      var count, start := w.value.count, w.value.resetAt - WINDOW;
      && bonus <= count <= limit && start >= 0
      && (forall a, b :: a >= start + WINDOW ==> Admitted(log, key, k, a, b) == 0)
      && (forall a, b :: a >= start ==> Admitted(log, key, k, a, b) <= count)
      && (forall a, b :: a > start ==> Admitted(log, key, k, a, b) <= count - bonus)
      && (forall a, b :: a > start - WINDOW ==> Admitted(log, key, k, a, b) <= count + limit - bonus)
  }

  lemma {:induction false} WindowsAreOk<K(!new)>(log: Log, key: Entry -> K, k: K, limit: K -> nat, bonus: nat)
    requires Respects(log, key, limit) && bonus <= Bonus(log, key, k)
    ensures WindowOk(log, key, k, limit(k), bonus)
  {
    if log != [] {
      var before, e := log[..|log| - 1], log[|log| - 1];
      WindowsAreOk(before, key, k, limit, bonus);
      forall a: int, b: int ensures Admitted(log, key, k, a, b)
          == Admitted(before, key, k, a, b) + if e.admitted && key(e) == k && a <= e.time < b then 1 else 0 {
      }
      if key(e) == k {
        var was, w := WindowOf(before, key, k), WindowOf(log, key, k).value;
        if was.Some? && e.time >= was.value.resetAt {
          assert w.resetAt == e.time + WINDOW;
        }
      }
    }
  }

  lemma {:induction false} ResetIsSoon<K>(log: Log, key: Entry -> K, k: K)
    requires Clocked(log)
    ensures WindowOf(log, key, k).Some? ==> WindowOf(log, key, k).value.resetAt <= Latest(log) + WINDOW
  {
    if log != [] {
      ResetIsSoon(log[..|log| - 1], key, k);
    }
  }

  /** Any half-open minute admits at most twice the limit, and one less where every
      window begins with an admission. */
  lemma {:induction false} TwiceTheLimit<K(!new)>(log: Log, key: Entry -> K, k: K, limit: K -> nat, a: int)
    requires Respects(log, key, limit) && Clocked(log)
    ensures var n := Admitted(log, key, k, a, a + WINDOW); n == 0 || n <= 2 * limit(k) - Bonus(log, key, k)
  {
    if log != [] {
      var before, e := log[..|log| - 1], log[|log| - 1];
      TwiceTheLimit(before, key, k, limit, a);
      if e.admitted && key(e) == k && a <= e.time < a + WINDOW {
        WindowsAreOk(log, key, k, limit, Bonus(log, key, k));
        ResetIsSoon(log, key, k);
        var w := WindowOf(log, key, k).value;
        assert a > w.resetAt - 2 * WINDOW;
      }
    }
  }

  // ----------------------------------------------------------------- the middleware

  datatype Options = Options(keyRpm: nat, tenantRpm: nat, ingestKeyRpm: nat, rawLogsKeyRpm: nat)
  {
    function KeyLimit(b: Bucket): nat {
      match b.group
      case Ingest => ingestKeyRpm
      case RawLogs => rawLogsKeyRpm
      case Default => keyRpm
    }
  }

  ghost function KeyLimits(o: Options): Bucket -> nat { (b: Bucket) => o.KeyLimit(b) }

  ghost function TenantLimits(o: Options): string -> nat { (t: string) => o.tenantRpm }

  ghost function ByBucket(): Entry -> Bucket { (e: Entry) => e.bucket }

  ghost function ByTenant(): Entry -> string { (e: Entry) => e.tenant }

  /** By the history alone both windows of a request have room. */
  ghost predicate HasRoom(o: Options, log: Log, time: nat, bucket: Bucket, tenant: string) {
    && Opened(WindowOf(log, ByBucket(), bucket), time).count < o.KeyLimit(bucket)
    && Opened(WindowOf(log, ByTenant(), tenant), time).count < o.tenantRpm
  }

  /** The histories of the limiter: time does not run backwards, and a request is
      admitted exactly when both its windows have room. */
  ghost predicate IsHistory(o: Options, log: Log) {
    log == []
    || (var before, e := log[..|log| - 1], log[|log| - 1];
        && IsHistory(o, before) && Latest(before) <= e.time
        && (e.admitted <==> HasRoom(o, before, e.time, e.bucket, e.tenant)))
  }

  lemma {:induction false} HistoryRespects(o: Options, log: Log)
    requires IsHistory(o, log)
    ensures Clocked(log) && Respects(log, ByBucket(), KeyLimits(o)) && Respects(log, ByTenant(), TenantLimits(o))
  {
    if log != [] {
      HistoryRespects(o, log[..|log| - 1]);
    }
  }

  /** A map of windows agrees with the history, but for windows that are over. */
  ghost predicate Agrees<K(!new)>(windows: map<K, Window>, log: Log, key: Entry -> K, clock: nat) {
    forall k ::
      if k in windows then WindowOf(log, key, k) == Some(windows[k])
      else WindowOf(log, key, k).Some? ==> WindowOf(log, key, k).value.resetAt <= clock
  }

  class RateLimiter {
    const options: Options
    var keyWindows: map<Bucket, Window>
    var tenantWindows: map<string, Window>
    ghost var log: Log
    ghost var clock: nat    // the time of the last request or cleanup

    constructor (options: Options)
      ensures Valid() && this.options == options && log == []
    {
      this.options := options;
      keyWindows, tenantWindows, log, clock := map[], map[], [], 0;
    }

    ghost predicate Valid()
      reads this
    {
      && IsHistory(options, log) && Latest(log) <= clock
      && Agrees(keyWindows, log, ByBucket(), clock) && Agrees(tenantWindows, log, ByTenant(), clock)
    }

    static method GetOrResetWindow<K(==)>(windows: map<K, Window>, key: K, now: nat) returns (w: Window)
      ensures w == Opened(if key in windows then Some(windows[key]) else None, now)
    {
      if key !in windows || now >= windows[key].resetAt {
        w := Window(0, now + WINDOW);
      } else {
        w := windows[key];
      }
    }

    /** A request is admitted exactly when, by the history alone, both its windows have
        room; cleanups in between make no difference. */
    method Handle(now: nat, bucket: Bucket, tenant: string) returns (admitted: bool)
      requires Valid() && clock <= now
      modifies this
      ensures Valid() && clock == now && log == old(log) + [Entry(now, bucket, tenant, admitted)]
      ensures admitted <==> HasRoom(options, old(log), now, bucket, tenant)
    {
      var keyWindow := GetOrResetWindow(keyWindows, bucket, now);
      var tenantWindow := GetOrResetWindow(tenantWindows, tenant, now);
      admitted := keyWindow.count < options.KeyLimit(bucket) && tenantWindow.count < options.tenantRpm;
      if admitted {
        keyWindow := keyWindow.(count := keyWindow.count + 1);
        tenantWindow := tenantWindow.(count := tenantWindow.count + 1);
      }
      ghost var e := Entry(now, bucket, tenant, admitted);
      StaysInStep(keyWindows, log, ByBucket(), e, keyWindow, clock);
      StaysInStep(tenantWindows, log, ByTenant(), e, tenantWindow, clock);
      HistorySnoc(options, log, e);
      keyWindows := keyWindows[bucket := keyWindow];
      tenantWindows := tenantWindows[tenant := tenantWindow];
      log, clock := log + [e], now;
    }

    /** Dropping the windows that are over is not observable: nothing of the contract
        of `Handle` depends on the maps. */
    method Cleanup(now: nat)
      requires Valid() && clock <= now
      modifies this`keyWindows, this`tenantWindows, this`clock
      ensures Valid() && clock == now
    {
      keyWindows := Swept(keyWindows, now);
      tenantWindows := Swept(tenantWindows, now);
      clock := now;
    }

    static method Swept<K(==)>(windows: map<K, Window>, now: nat) returns (left: map<K, Window>)
      ensures left == map k | k in windows && now < windows[k].resetAt :: windows[k]
    {
      left := windows;
      var keys := windows.Keys;
      while keys != {}
        invariant keys <= windows.Keys
        invariant left == map k | k in windows && (k in keys || now < windows[k].resetAt) :: windows[k]
      {
        var k :| k in keys;
        keys := keys - {k};
        if now >= windows[k].resetAt {
          left := left - {k};
        }
      }
    }
  }

  lemma HistorySnoc(o: Options, log: Log, e: Entry)
    requires IsHistory(o, log) && Latest(log) <= e.time
    requires e.admitted <==> HasRoom(o, log, e.time, e.bucket, e.tenant)
    ensures IsHistory(o, log + [e]) && Latest(log + [e]) == e.time
  {
    assert (log + [e])[..|log|] == log;
  }

  /** A rejected request consumes nothing: the windows it opens or finds keep their
      counts, and no span of time has one more admission. */
  lemma RejectedConsumesNothing<K(!new)>(log: Log, key: Entry -> K, e: Entry, k: K, from: int, until: int)
    requires !e.admitted
    ensures Admitted(log + [e], key, k, from, until) == Admitted(log, key, k, from, until)
    ensures WindowOf(log + [e], key, k)
         == if key(e) == k then Some(Opened(WindowOf(log, key, k), e.time)) else WindowOf(log, key, k)
  {
    assert (log + [e])[..|log|] == log;
  }

  /** One request keeps a map of windows in step with the history. */
  lemma StaysInStep<K(!new)>(windows: map<K, Window>, log: Log, key: Entry -> K, e: Entry, w: Window, clock: nat)
    requires Agrees(windows, log, key, clock) && clock <= e.time
    requires var o := Opened(if key(e) in windows then Some(windows[key(e)]) else None, e.time);
             w == if e.admitted then o.(count := o.count + 1) else o
    ensures Agrees(windows[key(e) := w], log + [e], key, e.time)
    ensures Opened(if key(e) in windows then Some(windows[key(e)]) else None, e.time)
            == Opened(WindowOf(log, key, key(e)), e.time)
  {
    assert (log + [e])[..|log|] == log;
  }

  // ------------------------------------------------- the most that a minute can admit

  /** Each key belongs to one tenant. */
  ghost predicate Owned(log: Log, owner: string -> string) {
    forall i :: 0 <= i < |log| ==> log[i].tenant == owner(log[i].bucket.keyId)
  }

  /** Some group of routes has a key limit under the tenant's. */
  predicate SomeUnder(o: Options) {
    o.ingestKeyRpm < o.tenantRpm || o.rawLogsKeyRpm < o.tenantRpm || o.keyRpm < o.tenantRpm
  }

  /** The most requests of a bucket that any half-open minute can admit. */
  function Most(o: Options, b: Bucket): nat {
    if SomeUnder(o) then 2 * Min(o.KeyLimit(b), o.tenantRpm)
    else if o.tenantRpm == 0 then 0
    else 2 * o.tenantRpm - 1
  }

  /** Where no key limit is under the tenant's: a bucket whose window began after the
      tenant's has less in it, for the one that opened the tenant's is not. */
  ghost predicate Trails(log: Log, b: Bucket, tenant: string) {
    var mine, all := WindowOf(log, ByBucket(), b), WindowOf(log, ByTenant(), tenant);
    && (mine.Some? ==> all.Some?)
    && (all.Some? ==> all.value.count > 0)
    && (mine.Some? && mine.value.resetAt > all.value.resetAt ==> mine.value.count < all.value.count)
  }

  lemma {:induction false} BucketsTrail(o: Options, log: Log, owner: string -> string, b: Bucket)
    requires IsHistory(o, log) && Owned(log, owner) && !SomeUnder(o) && o.tenantRpm > 0
    ensures Trails(log, b, owner(b.keyId)) && OpenersAdmitted(log, ByTenant(), owner(b.keyId))
  {
    if log != [] {
      var before, e := log[..|log| - 1], log[|log| - 1];
      BucketsTrail(o, before, owner, b);
      assert e.tenant == owner(e.bucket.keyId);
      if e.tenant == owner(b.keyId) {
        BucketsTrail(o, before, owner, e.bucket);
        if Expired(WindowOf(before, ByTenant(), e.tenant), e.time) {
          OpenerHasRoom(o, before, e);
        }
        HistoryRespects(o, log);
        ResetIsSoon(log, ByBucket(), b);
      }
    }
  }

  /** A request that opens a window of its tenant finds room. */
  lemma OpenerHasRoom(o: Options, log: Log, e: Entry)
    requires !SomeUnder(o) && o.tenantRpm > 0 && IsHistory(o, log) && Trails(log, e.bucket, e.tenant)
    requires Expired(WindowOf(log, ByTenant(), e.tenant), e.time)
    ensures HasRoom(o, log, e.time, e.bucket, e.tenant)
  {
    HistoryRespects(o, log);
    WindowsAreOk(log, ByTenant(), e.tenant, TenantLimits(o), 0);
  }

  lemma {:induction false} BucketIsWithinTenant(log: Log, owner: string -> string, b: Bucket, from: int, until: int)
    requires Owned(log, owner)
    ensures Admitted(log, ByBucket(), b, from, until) <= Admitted(log, ByTenant(), owner(b.keyId), from, until)
  {
    if log != [] {
      BucketIsWithinTenant(log[..|log| - 1], owner, b, from, until);
      assert log[|log| - 1].tenant == owner(log[|log| - 1].bucket.keyId);
    }
  }

  /** No minute of any history admits more. */
  lemma AdmitsAtMost(o: Options, log: Log, owner: string -> string, b: Bucket, a: int)
    requires IsHistory(o, log) && Owned(log, owner)
    ensures Admitted(log, ByBucket(), b, a, a + WINDOW) <= Most(o, b)
  {
    HistoryRespects(o, log);
    TwiceTheLimit(log, ByBucket(), b, KeyLimits(o), a);
    TwiceTheLimit(log, ByTenant(), owner(b.keyId), TenantLimits(o), a);
    BucketIsWithinTenant(log, owner, b, a, a + WINDOW);
    if !SomeUnder(o) && o.tenantRpm > 0 {
      BucketsTrail(o, log, owner, b);
    }
  }

  /** Which limit is whose, in any minute: that of the ingest routes, of the raw-log
      routes or of the others, and never more than the tenant's twice. */
  lemma GroupsAreBounded(o: Options, log: Log, owner: string -> string, keyId: string, a: int)
    requires IsHistory(o, log) && Owned(log, owner)
    ensures Admitted(log, ByBucket(), Bucket(keyId, Ingest), a, a + 60_000) <= 2 * Min(o.ingestKeyRpm, o.tenantRpm)
    ensures Admitted(log, ByBucket(), Bucket(keyId, RawLogs), a, a + 60_000) <= 2 * Min(o.rawLogsKeyRpm, o.tenantRpm)
    ensures Admitted(log, ByBucket(), Bucket(keyId, Default), a, a + 60_000) <= 2 * Min(o.keyRpm, o.tenantRpm)
  {
    AdmitsAtMost(o, log, owner, Bucket(keyId, Ingest), a);
    AdmitsAtMost(o, log, owner, Bucket(keyId, RawLogs), a);
    AdmitsAtMost(o, log, owner, Bucket(keyId, Default), a);
  }

  /** The limits over every history that the middleware has had: in any half-open
      minute at most twice the limit of a bucket, and of a tenant, and of a bucket
      whose keys have an owner no more than `Most`. */
  lemma MinuteIsBounded(limiter: RateLimiter, bucket: Bucket, tenant: string, owner: string -> string, a: int)
    requires limiter.Valid()
    ensures Admitted(limiter.log, ByBucket(), bucket, a, a + WINDOW) <= 2 * limiter.options.KeyLimit(bucket)
    ensures Admitted(limiter.log, ByTenant(), tenant, a, a + WINDOW) <= 2 * limiter.options.tenantRpm
    ensures Owned(limiter.log, owner)
      ==> Admitted(limiter.log, ByBucket(), bucket, a, a + WINDOW) <= Most(limiter.options, bucket)
  {
    HistoryRespects(limiter.options, limiter.log);
    TwiceTheLimit(limiter.log, ByBucket(), bucket, KeyLimits(limiter.options), a);
    TwiceTheLimit(limiter.log, ByTenant(), tenant, TenantLimits(limiter.options), a);
    if Owned(limiter.log, owner) {
      AdmitsAtMost(limiter.options, limiter.log, owner, bucket, a);
    }
  }

  // --------------------------------------------------------- and some minute admits it

  /** How a window stands after one more request of its key. */
  lemma WindowSnoc<K(!new)>(log: Log, key: Entry -> K, k: K, e: Entry)
    ensures WindowOf(log + [e], key, k)
         == if key(e) != k then WindowOf(log, key, k)
            else
              var w := Opened(WindowOf(log, key, k), e.time);
              Some(if e.admitted then w.(count := w.count + 1) else w)
  {
    assert (log + [e])[..|log|] == log;
  }

  lemma AdmittedSnoc(log: Log, b: Bucket, e: Entry, from: int, until: int)
    ensures Admitted(log + [e], ByBucket(), b, from, until)
         == Admitted(log, ByBucket(), b, from, until)
            + if e.admitted && e.bucket == b && from <= e.time < until then 1 else 0
  {
    assert (log + [e])[..|log|] == log;
  }

  /** What the construction below keeps in view: the windows of two buckets and of
      their tenant, and how often one of the buckets was admitted. */
  datatype View = View(b: Option<Window>, c: Option<Window>, all: Option<Window>, got: nat)

  /** The parties: two buckets, a tenant, and a span of time. */
  datatype Scene = Scene(o: Options, b: Bucket, c: Bucket, tenant: string, from: int, until: int)
  {
    ghost predicate Shows(log: Log, v: View) {
      && IsHistory(o, log) && (forall i :: 0 <= i < |log| ==> log[i].tenant == tenant)
      && v == View(WindowOf(log, ByBucket(), b), WindowOf(log, ByBucket(), c), WindowOf(log, ByTenant(), tenant),
                   Admitted(log, ByBucket(), b, from, until))
    }
  }

  /** A window after `n` more requests were admitted to it at some time. */
  function Used(w: Option<Window>, time: nat, n: nat): Window {
    Opened(w, time).(count := Opened(w, time).count + n)
  }

  function Filled(w: Option<Window>, time: nat, n: nat): Option<Window> {
    if n == 0 then w else Some(Used(w, time, n))
  }

  /** The view after `n` admissions of bucket `b`, or of `c`. */
  function AfterB(s: Scene, v: View, time: nat, n: nat): View {
    View(Filled(v.b, time, n), v.c, Filled(v.all, time, n), v.got + if s.from <= time < s.until then n else 0)
  }

  function AfterC(v: View, time: nat, n: nat): View {
    v.(c := Filled(v.c, time, n), all := Filled(v.all, time, n))
  }

  /** A window after one more request, of its key or not. */
  function Then(w: Option<Window>, mine: bool, e: Entry): Option<Window> {
    if !mine then w
    else
      var o := Opened(w, e.time);
      Some(if e.admitted then o.(count := o.count + 1) else o)
  }

  lemma ShowsSnoc(s: Scene, log: Log, v: View, e: Entry)
    requires s.Shows(log, v) && Latest(log) <= e.time && e.tenant == s.tenant
    requires e.admitted <==> HasRoom(s.o, log, e.time, e.bucket, e.tenant)
    ensures var got := if e.admitted && e.bucket == s.b && s.from <= e.time < s.until then 1 else 0;
            s.Shows(log + [e], View(Then(v.b, e.bucket == s.b, e), Then(v.c, e.bucket == s.c, e), Then(v.all, true, e),
                                    v.got + got))
    ensures Latest(log + [e]) == e.time
  {
    HistorySnoc(s.o, log, e);
    WindowSnoc(log, ByBucket(), s.b, e);
    WindowSnoc(log, ByBucket(), s.c, e);
    WindowSnoc(log, ByTenant(), s.tenant, e);
    AdmittedSnoc(log, s.b, e, s.from, s.until);
  }

  lemma {:induction false} BurstOfB(s: Scene, log: Log, v: View, time: nat, n: nat) returns (more: Log)
    requires s.Shows(log, v) && s.b != s.c && Latest(log) <= time
    requires Used(v.b, time, n).count <= s.o.KeyLimit(s.b) && Used(v.all, time, n).count <= s.o.tenantRpm
    ensures s.Shows(more, AfterB(s, v, time, n)) && Latest(more) <= time
  {
    more := log;
    if n > 0 {
      var most := BurstOfB(s, log, v, time, n - 1);
      var e := Entry(time, s.b, s.tenant, true);
      more := most + [e];
      ShowsSnoc(s, most, AfterB(s, v, time, n - 1), e);
    }
  }

  lemma {:induction false} BurstOfC(s: Scene, log: Log, v: View, time: nat, n: nat) returns (more: Log)
    requires s.Shows(log, v) && s.b != s.c && Latest(log) <= time
    requires Used(v.c, time, n).count <= s.o.KeyLimit(s.c) && Used(v.all, time, n).count <= s.o.tenantRpm
    ensures s.Shows(more, AfterC(v, time, n)) && Latest(more) <= time
  {
    more := log;
    if n > 0 {
      var most := BurstOfC(s, log, v, time, n - 1);
      var e := Entry(time, s.c, s.tenant, true);
      more := most + [e];
      ShowsSnoc(s, most, AfterC(v, time, n - 1), e);
    }
  }

  /** A rejected request opens the windows that are over. */
  lemma Rejected(s: Scene, log: Log, v: View, bucket: Bucket, time: nat) returns (more: Log)
    requires s.Shows(log, v) && s.b != s.c && Latest(log) <= time && bucket in {s.b, s.c}
    requires Opened(if bucket == s.b then v.b else v.c, time).count >= s.o.KeyLimit(bucket)
          || Opened(v.all, time).count >= s.o.tenantRpm
    ensures s.Shows(more, v.(b := if bucket == s.b then Some(Opened(v.b, time)) else v.b,
                             c := if bucket == s.c then Some(Opened(v.c, time)) else v.c,
                             all := Some(Opened(v.all, time))))
    ensures Latest(more) <= time
  {
    var e := Entry(time, bucket, s.tenant, false);
    more := log + [e];
    ShowsSnoc(s, log, v, e);
  }

  /** Keys with longer names, one request each. */
  function Other(keyId: string, n: nat): string { if n == 0 then keyId else Other(keyId, n - 1) + "+" }

  lemma {:induction false} OtherIsLonger(keyId: string, n: nat)
    ensures |Other(keyId, n)| == |keyId| + n
  {
    if n > 0 {
      OtherIsLonger(keyId, n - 1);
    }
  }

  ghost predicate NoneLonger(log: Log, n: nat) { forall i :: 0 <= i < |log| ==> |log[i].bucket.keyId| <= n }

  lemma {:induction false} UnknownHasNoWindow(log: Log, b: Bucket, n: nat)
    requires NoneLonger(log, n) && |b.keyId| > n
    ensures WindowOf(log, ByBucket(), b) == None
  {
    if log != [] {
      assert |log[|log| - 1].bucket.keyId| <= n;
      assert NoneLonger(log[..|log| - 1], n) by {
        forall i | 0 <= i < |log| - 1 ensures |log[i].bucket.keyId| <= n {
        }
      }
      UnknownHasNoWindow(log[..|log| - 1], b, n);
    }
  }

  /** `n` other keys use up part of the tenant's first window. */
  lemma {:induction false} OthersFill(s: Scene, n: nat) returns (log: Log)
    requires |s.c.keyId| == |s.b.keyId| + 1
    requires s.o.KeyLimit(s.b) > 0 && n <= s.o.tenantRpm
    ensures s.Shows(log, View(None, None, if n == 0 then None else Some(Window(n, WINDOW)), 0))
    ensures Latest(log) == 0 && NoneLonger(log, |s.c.keyId| + n)
  {
    log := [];
    if n > 0 {
      var before := OthersFill(s, n - 1);
      OtherIsLonger(s.c.keyId, n);
      var e := Entry(0, Bucket(Other(s.c.keyId, n), s.b.group), s.tenant, true);
      log := before + [e];
      UnknownHasNoWindow(before, e.bucket, |s.c.keyId| + n - 1);
      HistorySnoc(s.o, before, e);
      WindowSnoc(before, ByBucket(), s.b, e);
      WindowSnoc(before, ByBucket(), s.c, e);
      WindowSnoc(before, ByTenant(), s.tenant, e);
      AdmittedSnoc(before, s.b, e, s.from, s.until);
    }
  }

  /** A group whose key limit is under the tenant's. */
  function Under(o: Options): Group {
    if o.ingestKeyRpm < o.tenantRpm then Ingest else if o.rawLogsKeyRpm < o.tenantRpm then RawLogs else Default
  }

  /** The windows of `b` and of the tenant are open and empty, and that of `b` is
      about to end. */
  function Poised(low: nat): View {
    View(Some(Window(0, WINDOW + 10)), Some(Window(low, WINDOW + 5)), Some(Window(0, 2 * WINDOW)), 0)
  }

  /** Other keys, among them `c` of the group under the limit, use up the tenant's
      window; then `b` is rejected, which opens its window, and when the tenant's is
      over `c` is rejected, which opens that. */
  lemma GetsPoised(s: Scene, low: nat) returns (log: Log)
    requires SomeUnder(s.o) && s.c == Bucket(s.b.keyId + "+", Under(s.o)) && low == s.o.KeyLimit(s.c)
    requires s.o.KeyLimit(s.b) > 0
    ensures s.Shows(log, Poised(low)) && Latest(log) <= WINDOW
  {
    var all := s.o.tenantRpm;
    var v0 := View(None, None, Some(Window(all - low, WINDOW)), 0);
    var l0 := OthersFill(s, all - low);
    var l1 := BurstOfC(s, l0, v0, 5, low);
    var l2 := Rejected(s, l1, AfterC(v0, 5, low), s.c, 5);
    var v2 := View(None, Some(Window(low, WINDOW + 5)), Some(Window(all, WINDOW)), 0);
    var l3 := Rejected(s, l2, v2, s.b, 10);
    log := Rejected(s, l3, v2.(b := Some(Window(0, WINDOW + 10))), s.c, WINDOW);
  }

  /** A burst before the windows end, and one after. */
  lemma TwoFullBursts(s: Scene, n: nat) returns (log: Log)
    requires SomeUnder(s.o) && s.c == Bucket(s.b.keyId + "+", Under(s.o))
    requires n == Min(s.o.KeyLimit(s.b), s.o.tenantRpm) && n > 0
    requires s.from == WINDOW + 1 && s.until == 2 * WINDOW + 1
    ensures exists v :: s.Shows(log, v) && v.got == 2 * n
  {
    var v := Poised(s.o.KeyLimit(s.c));
    var l0 := GetsPoised(s, s.o.KeyLimit(s.c));
    var l1 := BurstOfB(s, l0, v, WINDOW + 1, n);
    log := BurstOfB(s, l1, AfterB(s, v, WINDOW + 1, n), 2 * WINDOW, n);
    assert AfterB(s, AfterB(s, v, WINDOW + 1, n), 2 * WINDOW, n).got == 2 * n;
  }

  /** Where each window of the tenant begins with an admission: one request, the rest
      of the limit, and the limit again, of which all but the first are in one minute. */
  lemma AllButOpener(s: Scene) returns (log: Log)
    requires !SomeUnder(s.o) && s.o.tenantRpm > 0 && s.b != s.c
    requires s.from == 1 && s.until == WINDOW + 1
    ensures exists v :: s.Shows(log, v) && v.got == 2 * s.o.tenantRpm - 1
  {
    var all := s.o.tenantRpm;
    var v0 := View(None, None, None, 0);
    var l0 := BurstOfB(s, [], v0, 0, 1);
    var v1 := AfterB(s, v0, 0, 1);
    var l1 := BurstOfB(s, l0, v1, 1, all - 1);
    var v2 := AfterB(s, v1, 1, all - 1);
    log := BurstOfB(s, l1, v2, WINDOW, all);
    assert AfterB(s, v2, WINDOW, all).got == 2 * all - 1;
  }

  /** The bound is reached by a history of the limiter, whatever the options. */
  lemma MostIsReached(o: Options, b: Bucket, tenant: string) returns (log: Log, a: int)
    ensures IsHistory(o, log) && Owned(log, keyId => tenant)
    ensures Admitted(log, ByBucket(), b, a, a + WINDOW) == Most(o, b)
  {
    var n := Min(o.KeyLimit(b), o.tenantRpm);
    var c := Bucket(b.keyId + "+", Under(o));
    if n == 0 {
      log, a := [], 0;
    } else if SomeUnder(o) {
      a := WINDOW + 1;
      log := TwoFullBursts(Scene(o, b, c, tenant, a, a + WINDOW), n);
    } else {
      a := 1;
      assert |c.keyId| == |b.keyId| + 1;
      log := AllButOpener(Scene(o, b, c, tenant, a, a + WINDOW));
    }
  }
}
