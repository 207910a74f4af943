/**
  One tenant's archive with everything that works on it at once: compaction, the
  reconcile sweep, and the queue and consumer that ingest what the sweep finds missing.
  The two protocols share the bucket and the table: the sweep looks up what compaction
  repoints, and compaction deletes what the consumer may still ingest.
*/
module ArchiveProtocol {
  import opened Base
  import opened Keys
  import opened Runs
  import opened Reconcile
  import C = Compaction
  import R = ReconcileProtocol

  /** The bucket and the table with the compaction jobs; the sweep and what it sees of
      them; the keys that are queued, and those whose object the consumer has read. */
  datatype State = State(archive: C.State, sweep: R.State, queue: set<Key>, hands: set<Key>)

  datatype Step =
    | Archive(c: C.Step)                       // landing and compaction, and rows that name no object
    | Sweep(r: R.Step, missing: set<Key>)      // a step of the sweep; its walk enqueues gaps
    | Fetch(key: Key)                          // the consumer reads an object
    | Insert(key: Key, events: seq<C.Event>)   // and inserts rows of it, some or all, once or more often
    | Drop(key: Key)                           // and is done, or gives up, or the process dies

  /** The archive, and how the tenant of a key is read off it. */
  datatype World = World(o: TotalOrder, l: R.Limits, tenantOf: Key -> string)
  {
    function Naming(): C.Naming { C.Naming(o.compacted, tenantOf) }
  }

  function Refs(rows: seq<C.Row>): set<Key> { set r | r in rows :: r.ref }

  /** What the sweep sees of a step of the archive that leaves it as `t`. */
  function SeenAs(s: C.State, c: C.Step, t: C.State): R.Step {
    match c
    case Land(key, _) => R.Land(key)
    case Put(id) => if id in s.jobs then R.Compact(s.jobs[id].target) else R.Rows(Refs(t.rows))
    case Delete(_, key) => R.Delete(key)
    case _ => R.Rows(Refs(t.rows))
  }

  // ------------------------------------------------------------------- the hazard

  /** The consumer can never again insert rows of a key: it has not read its object, and
      the object is gone, or the key is neither queued nor above the watermark. */
  ghost predicate Calm(w: World, s: State, key: Key) {
    && key !in s.hands
    && (key in s.archive.objects ==> key !in s.queue && w.o.AtMost(key, s.sweep.Cursor()))
  }

  /** Steps of the sweep that it takes on its own. */
  predicate Own(r: R.Step) {
    r.Begin? || r.Page? || r.EndListing? || r.Lookup? || r.Walk? || r.Write? || r.Fail? || r.Restart?
  }

  /** What a walk may enqueue: the keys it found missing. */
  function Gaps(s: R.State): set<Key> {
    if s.sweep.Looking? then (set k | k in s.sweep.seen && k !in s.sweep.existing) else {}
  }

  /** A job has events of all its sources. With `careful`, a mutation is submitted only
      when the consumer can never again insert rows of its sources. */
  ghost predicate Enabled(w: World, careful: bool, s: State, step: Step) {
    match step
    case Archive(c) =>
      && !c.Ingest? && C.Enabled(w.Naming(), s.archive, c)
      && R.Enabled(w.o, w.l, s.sweep, SeenAs(s.archive, c, C.Next(w.Naming(), s.archive, c)))
      && (c.Start? ==> forall k :: k in c.job.keys ==> s.archive.landed[k] != [])
      && (careful && c.Submit? ==> forall k :: k in s.archive.jobs[c.id].keys ==> Calm(w, s, k))
    case Sweep(r, missing) =>
      && Own(r) && R.Enabled(w.o, w.l, s.sweep, r) && missing <= if r.Walk? then Gaps(s.sweep) else {}
    case Fetch(key) => key in s.queue && key in s.archive.objects && s.archive.objects[key] != []
    case Insert(key, events) =>
      && key in s.hands && key in s.archive.landed && forall e :: e in events ==> e in s.archive.landed[key]
    case Drop(key) => true
  }

  function Inserted(n: C.Naming, s: C.State, key: Key, events: seq<C.Event>): C.State {
    s.(rows := s.rows + C.NewRows(n, key, events))
  }

  ghost function Next(w: World, careful: bool, s: State, step: Step): State
    requires Enabled(w, careful, s, step)
  {
    match step
    case Archive(c) =>
      var t := C.Next(w.Naming(), s.archive, c);
      s.(archive := t, sweep := R.Next(w.o, w.l, s.sweep, SeenAs(s.archive, c, t)))
    case Sweep(r, missing) => s.(sweep := R.Next(w.o, w.l, s.sweep, r), queue := s.queue + missing)
    case Fetch(key) => s.(hands := s.hands + {key})
    case Insert(key, events) =>
      var t := Inserted(w.Naming(), s.archive, key, events);
      s.(archive := t, sweep := s.sweep.(refs := Refs(t.rows)))
    case Drop(key) => s.(queue := s.queue - {key}, hands := s.hands - {key})
  }

  // -------------------------------------------------------------------- invariant

  /** The sweep sees the bucket and the table as they are. */
  ghost predicate Tied(s: State) {
    && s.sweep.objects == s.archive.objects.Keys && s.sweep.landed == s.archive.landed.Keys
    && s.sweep.refs == Refs(s.archive.rows)
  }

  /** What is queued or read is an original; sources, and what is read, have events. */
  ghost predicate Known(s: State) {
    && s.queue <= s.sweep.landed && (forall k :: k in s.hands ==> k in s.archive.landed && s.archive.landed[k] != [])
    && forall j, k :: j in s.archive.jobs && k in s.archive.jobs[j].keys
         ==> k in s.archive.landed && s.archive.landed[k] != []
  }

  ghost predicate Inv(w: World, s: State) {
    C.Inv(w.Naming(), s.archive) && R.Inv(w.o, w.l, s.sweep) && Tied(s) && Known(s)
  }

  /** Every source of a mutation under way is calm, and what the consumer has read is
      there. */
  ghost predicate Peaceful(w: World, s: State) {
    && (forall k :: C.Rewriting(s.archive, k) ==> Calm(w, s, k))
    && (forall k :: k in s.hands ==> k in s.archive.objects)
  }

  // ------------------------------------------------------------- careful submissions

  lemma ArchiveKeepsTied(w: World, careful: bool, s: State, c: C.Step)
    requires Tied(s) && Enabled(w, careful, s, Archive(c))
    ensures Tied(Next(w, careful, s, Archive(c)))
  {
    var a, t := s.archive, C.Next(w.Naming(), s.archive, c);
    match c
    case Land(key, events) => assert t.objects.Keys == a.objects.Keys + {key} && t.landed.Keys == a.landed.Keys + {key};
    case Put(id) => assert t.objects.Keys == a.objects.Keys + {a.jobs[id].target};
    case Delete(_, key) => assert t.objects.Keys == a.objects.Keys - {key};
    case _ =>
  }

  lemma ArchiveKeepsKnown(w: World, careful: bool, s: State, c: C.Step)
    requires Known(s) && Tied(s) && Enabled(w, careful, s, Archive(c))
    ensures Known(Next(w, careful, s, Archive(c)))
  {
    ArchiveKeepsTied(w, careful, s, c);
  }

  lemma GapsAreLanded(w: World, s: R.State)
    requires R.Inv(w.o, w.l, s)
    ensures Gaps(s) <= s.landed && forall k :: k in Gaps(s) ==> w.o.less(s.Cursor(), k)
  {
  }

  lemma StepKeepsInv(w: World, careful: bool, s: State, step: Step)
    requires Inv(w, s) && Enabled(w, careful, s, step) && (step.Insert? ==> !C.Rewriting(s.archive, step.key))
    ensures Inv(w, Next(w, careful, s, step))
  {
    match step
    case Archive(c) =>
      ArchiveKeepsTied(w, careful, s, c);
      ArchiveKeepsKnown(w, careful, s, c);
      C.StepKeepsInv(w.Naming(), s.archive, c);
      R.StepKeepsInv(w.o, w.l, s.sweep, SeenAs(s.archive, c, C.Next(w.Naming(), s.archive, c)));
    case Sweep(r, missing) =>
      GapsAreLanded(w, s.sweep);
      R.StepKeepsInv(w.o, w.l, s.sweep, r);
    case Fetch(key) =>
    case Insert(key, events) =>
      C.StepKeepsInv(w.Naming(), s.archive, C.Ingest(key, events));
      R.StepKeepsInv(w.o, w.l, s.sweep, R.Rows(Refs(Inserted(w.Naming(), s.archive, key, events).rows)));
    case Drop(key) =>
  }

  /** What makes no key that is calm less so. */
  ghost predicate Quiet(w: World, s: State, t: State) {
    && w.o.AtMost(s.sweep.Cursor(), t.sweep.Cursor())
    && (forall k :: k in s.archive.landed && k in t.archive.objects ==> k in s.archive.objects)
    && (forall k :: k in t.queue ==> k in s.queue || w.o.less(s.sweep.Cursor(), k))
    && (forall k :: k in t.hands ==> k in s.hands || (k in s.queue && k in s.archive.objects))
  }

  lemma StaysCalm(w: World, s: State, t: State, k: Key)
    requires Quiet(w, s, t) && Calm(w, s, k) && k in s.archive.landed
    ensures Calm(w, t, k)
  {
  }

  lemma ArchiveIsQuiet(w: World, careful: bool, s: State, c: C.Step)
    requires Inv(w, s) && Enabled(w, careful, s, Archive(c))
    ensures Quiet(w, s, Next(w, careful, s, Archive(c)))
  {
    if c.Put? {
      assert C.JobOk(w.Naming(), s.archive, s.archive.jobs[c.id]);
    }
  }

  lemma SweepIsQuiet(w: World, careful: bool, s: State, r: R.Step, missing: set<Key>)
    requires Inv(w, s) && Enabled(w, careful, s, Sweep(r, missing))
    ensures Quiet(w, s, Next(w, careful, s, Sweep(r, missing)))
  {
    R.StepIsLater(w.o, w.l, s.sweep, r);
    GapsAreLanded(w, s.sweep);
  }

  lemma StepIsQuiet(w: World, careful: bool, s: State, step: Step)
    requires Inv(w, s) && Enabled(w, careful, s, step)
    ensures Quiet(w, s, Next(w, careful, s, step))
  {
    match step
    case Archive(c) => ArchiveIsQuiet(w, careful, s, c);
    case Sweep(r, missing) => SweepIsQuiet(w, careful, s, r, missing);
    case _ =>
  }

  /** A key whose rows a mutation may rewrite after a step: it was so before, or the
      mutation has just been submitted. */
  lemma RewritingBefore(w: World, careful: bool, s: State, step: Step, k: Key)
    requires Known(s) && Enabled(w, careful, s, step) && C.Rewriting(Next(w, careful, s, step).archive, k)
    ensures C.Rewriting(s.archive, k)
            || (step.Archive? && step.c.Submit? && k in s.archive.jobs[step.c.id].keys)
    ensures k in s.archive.landed
  {
    if step.Archive? {
      JobsBefore(w.Naming(), s.archive, step.c, k);
    }
  }

  lemma JobsBefore(n: C.Naming, s: C.State, c: C.Step, k: Key)
    requires C.Enabled(n, s, c) && C.Rewriting(C.Next(n, s, c), k)
    ensures C.Rewriting(s, k) || (c.Submit? && k in s.jobs[c.id].keys)
  {
    var t := C.Next(n, s, c);
    var j :| j in t.jobs && t.jobs[j].phase in {C.Mutating, C.Repointed} && k in t.jobs[j].keys;
    assert c.Start? ==> c.id != j;
    assert j in s.jobs && s.jobs[j].keys == t.jobs[j].keys;
    assert s.jobs[j].phase in {C.Mutating, C.Repointed} || c == C.Submit(j);
  }

  /** What the consumer has read stays as long as it is calm around it. */
  lemma HandsStay(w: World, s: State, step: Step)
    requires Inv(w, s) && Peaceful(w, s) && Enabled(w, true, s, step)
    ensures var t := Next(w, true, s, step); forall k :: k in t.hands ==> k in t.archive.objects
  {
    if step.Archive? {
      ObjectsStay(w.Naming(), s.archive, step.c);
    }
  }

  lemma ObjectsStay(n: C.Naming, s: C.State, c: C.Step)
    requires C.Enabled(n, s, c)
    ensures forall k :: k in s.objects ==> k in C.Next(n, s, c).objects || C.Rewriting(s, k)
  {
  }

  lemma StepKeepsPeace(w: World, s: State, step: Step)
    requires Inv(w, s) && Peaceful(w, s) && Enabled(w, true, s, step)
    ensures Peaceful(w, Next(w, true, s, step))
  {
    var t := Next(w, true, s, step);
    StepIsQuiet(w, true, s, step);
    HandsStay(w, s, step);
    forall k | C.Rewriting(t.archive, k) ensures Calm(w, t, k) {
      RewritingBefore(w, true, s, step, k);
      StaysCalm(w, s, t, k);
    }
  }

  // -------------------------------------------------------------------------- runs

  ghost predicate Moves(w: World, careful: bool, s: State, t: State) {
    exists step :: Enabled(w, careful, s, step) && t == Next(w, careful, s, step)
  }

  ghost function Steps(w: World, careful: bool): (State, State) -> bool { (s, t) => Moves(w, careful, s, t) }

  lemma OthersLoseNone(w: World, s: R.State, r: R.Step)
    requires R.Enabled(w.o, w.l, s, r) && !r.Delete?
    ensures R.Next(w.o, w.l, s, r).lost == s.lost
  {
  }

  /** A deletion takes only originals that the sweep has settled. */
  lemma NothingIsLostEarly(w: World, s: State, step: Step)
    requires Inv(w, s) && Peaceful(w, s) && s.sweep.lost == {} && Enabled(w, true, s, step)
    ensures Next(w, true, s, step).sweep.lost == {}
  {
    match step
    case Archive(c) =>
      if c.Delete? {
        assert C.Rewriting(s.archive, c.key);
        DeleteLosesNone(w, s, c.key);
      } else {
        OthersLoseNone(w, s.sweep, SeenAs(s.archive, c, C.Next(w.Naming(), s.archive, c)));
      }
    case Sweep(r, _) => OthersLoseNone(w, s.sweep, r);
    case _ =>
  }

  lemma DeleteLosesNone(w: World, s: State, key: Key)
    requires R.Inv(w.o, w.l, s.sweep) && Tied(s) && Calm(w, s, key) && s.sweep.lost == {}
    ensures R.Deleted(w.o, s.sweep, key).lost == {}
  {
    if key in s.sweep.objects && !w.o.compacted(key) {
      PassedIsSettled(w, s.sweep, key);
    }
  }

  lemma PassedIsSettled(w: World, s: R.State, key: Key)
    requires R.Inv(w.o, w.l, s) && s.lost == {} && w.o.AtMost(key, s.Cursor())
    requires key in s.objects && !w.o.compacted(key)
    ensures R.Settled(s, key)
  {
  }

  lemma ArchiveMoves(w: World, s: State, step: Step)
    requires Inv(w, s) && Peaceful(w, s) && Enabled(w, true, s, step)
    ensures var t := Next(w, true, s, step); t.archive == s.archive || C.Moves(w.Naming(), s.archive, t.archive)
  {
    match step
    case Archive(c) => assert C.Moves(w.Naming(), s.archive, C.Next(w.Naming(), s.archive, c));
    case Insert(key, events) =>
      var c := C.Ingest(key, events);
      assert C.Enabled(w.Naming(), s.archive, c) && C.Moves(w.Naming(), s.archive, C.Next(w.Naming(), s.archive, c));
    case _ =>
  }

  lemma SweepMoves(w: World, careful: bool, s: State, step: Step)
    requires Enabled(w, careful, s, step)
    ensures var t := Next(w, careful, s, step); t.sweep == s.sweep || R.Moves(w.o, w.l, s.sweep, t.sweep)
  {
    var t := Next(w, careful, s, step);
    match step
    case Archive(c) =>
      var r := SeenAs(s.archive, c, t.archive);
      assert R.Enabled(w.o, w.l, s.sweep, r) && t.sweep == R.Next(w.o, w.l, s.sweep, r);
    case Sweep(r, _) => assert R.Enabled(w.o, w.l, s.sweep, r);
    case Insert(_, _) => R.RowsMove(w.o, w.l, s.sweep, Refs(t.archive.rows));
    case _ =>
  }

  /** Rows inserted since `s` that name an original name one that is there. */
  ghost predicate NoneDangles(s: State, t: State) {
    |s.archive.rows| <= |t.archive.rows|
    && forall i :: |s.archive.rows| <= i < |t.archive.rows| && t.archive.rows[i].ref in t.archive.landed
         ==> t.archive.rows[i].ref in t.archive.objects
  }

  lemma ArchiveLeavesNone(w: World, s: State, t: State, c: C.Step)
    requires Inv(w, t) && NoneDangles(s, t) && Enabled(w, true, t, Archive(c))
    ensures NoneDangles(s, Next(w, true, t, Archive(c)))
  {
    var a, b := t.archive, C.Next(w.Naming(), t.archive, c);
    if c.Delete? || c.RepointSome? || c.RepointAll? {
      assert C.JobOk(w.Naming(), a, a.jobs[c.id]);
    }
    forall i | |s.archive.rows| <= i < |b.rows| && b.rows[i].ref in b.landed ensures b.rows[i].ref in b.objects {
      if i < |a.rows| {
        assert b.rows[i] == a.rows[i];
      }
    }
  }

  lemma StepLeavesNone(w: World, s: State, t: State, step: Step)
    requires Inv(w, t) && Peaceful(w, t) && NoneDangles(s, t) && Enabled(w, true, t, step)
    ensures NoneDangles(s, Next(w, true, t, step))
  {
    if step.Archive? {
      ArchiveLeavesNone(w, s, t, step.c);
    }
  }

  /** All that holds in the course of careful runs from a peaceful state. */
  ghost predicate Course(w: World, s: State, t: State) {
    && Inv(w, t) && Peaceful(w, t) && NoneDangles(s, t)
    && Run(C.Steps(w.Naming()), s.archive, t.archive) && Run(R.Steps(w.o, w.l), s.sweep, t.sweep)
    && (s.sweep.lost == {} ==> t.sweep.lost == {})
  }

  lemma MoveKeepsCourse(w: World, s: State, t: State, u: State)
    requires Course(w, s, t) && Moves(w, true, t, u)
    ensures Course(w, s, u)
  {
    var step :| Enabled(w, true, t, step) && u == Next(w, true, t, step);
    if step.Insert? {
      assert !C.Rewriting(t.archive, step.key);
    }
    StepKeepsInv(w, true, t, step);
    StepKeepsPeace(w, t, step);
    StepLeavesNone(w, s, t, step);
    StepIsRun(w, s, t, step);
    if s.sweep.lost == {} {
      NothingIsLostEarly(w, t, step);
    }
  }

  lemma StepIsRun(w: World, s: State, t: State, step: Step)
    requires Inv(w, t) && Peaceful(w, t) && Enabled(w, true, t, step)
    requires Run(C.Steps(w.Naming()), s.archive, t.archive) && Run(R.Steps(w.o, w.l), s.sweep, t.sweep)
    ensures var u := Next(w, true, t, step);
            Run(C.Steps(w.Naming()), s.archive, u.archive) && Run(R.Steps(w.o, w.l), s.sweep, u.sweep)
  {
    var u := Next(w, true, t, step);
    ArchiveMoves(w, t, step);
    SweepMoves(w, true, t, step);
    if C.Moves(w.Naming(), t.archive, u.archive) {
      Then(C.Steps(w.Naming()), s.archive, t.archive, u.archive);
    }
    if R.Moves(w.o, w.l, t.sweep, u.sweep) {
      Then(R.Steps(w.o, w.l), s.sweep, t.sweep, u.sweep);
    }
  }

  lemma RunKeepsCourse(w: World, s: State, t: State)
    requires Inv(w, s) && Peaceful(w, s) && Run(Steps(w, true), s, t)
    ensures Course(w, s, t)
  {
    var steps := Steps(w, true);
    var inv := u => Course(w, s, u);
    Nothing(C.Steps(w.Naming()), s.archive);
    Nothing(R.Steps(w.o, w.l), s.sweep);
    forall a, b {:trigger steps(a, b)} | inv(a) && steps(a, b) ensures inv(b) {
      MoveKeepsCourse(w, s, a, b);
    }
    RunKeeps(steps, inv, s, t);
  }

  /** Both sweeps start over an archive of originals. */
  ghost predicate Init(w: World, s: State) {
    && C.Init(w.Naming(), s.archive) && R.Init(w.o, s.sweep) && Tied(s) && s.queue == {} && s.hands == {}
  }

  lemma InitIsPeaceful(w: World, s: State)
    requires Init(w, s)
    ensures Inv(w, s) && Peaceful(w, s)
  {
    C.InitIsInv(w.Naming(), s.archive);
  }

  /** If mutations are submitted only when their sources are calm, then over every run of
      compaction, sweep and consumer together: no event is lost; a row that can be drilled
      into always can; a row that the consumer inserts names an object that is there; and
      every original up to the watermark was found in the table or quarantined, the
      deleted ones too. */
  lemma CarefulIsSafe(w: World, start: State, s: State, t: State)
    requires Init(w, start) && Run(Steps(w, true), start, s) && Run(Steps(w, true), s, t)
    ensures forall k, e :: k in s.archive.objects && e in s.archive.objects[k]
              ==> exists c :: c in t.archive.objects && e in t.archive.objects[c]
    ensures forall row: nat :: C.Good(s.archive, row) ==> C.Good(t.archive, row)
    ensures NoneDangles(s, t)
    ensures w.o.AtMost(s.sweep.Cursor(), t.sweep.Cursor())
    ensures forall k :: k in t.archive.landed && w.o.AtMost(k, t.sweep.Cursor()) ==> R.Settled(t.sweep, k)
  {
    InitIsPeaceful(w, start);
    RunKeepsCourse(w, start, s);
    RunKeepsCourse(w, s, t);
    C.CompactionIsCrashSafe(w.Naming(), start.archive, s.archive, t.archive);
    R.NothingIsForgotten(w.o, w.l, start.sweep, s.sweep, t.sweep);
  }

  // ---------------------------------------------------------------- and only then

  lemma Go(w: World, start: State, s: State, step: Step) returns (t: State)
    requires Run(Steps(w, true), start, s) && Enabled(w, true, s, step)
    ensures t == Next(w, true, s, step) && Run(Steps(w, true), start, t)
  {
    t := Next(w, true, s, step);
    assert Moves(w, true, s, t);
    Then(Steps(w, true), start, s, t);
  }

  lemma {:induction false} InOrder(o: TotalOrder, keys: set<Key>) returns (list: seq<Key>)
    ensures Sorted(o, list) && |list| == |keys| && forall k :: k in list <==> k in keys
    decreases keys
  {
    list := [];
    if keys != {} {
      var m := LeastOf(o, keys);
      var rest := InOrder(o, keys - {m});
      list := [m] + rest;
    }
  }

  lemma {:induction false} LeastOf(o: TotalOrder, keys: set<Key>) returns (m: Key)
    requires keys != {}
    ensures m in keys && forall k :: k in keys && k != m ==> o.less(m, k)
    decreases keys
  {
    m :| m in keys;
    if keys != {m} {
      var n := LeastOf(o, keys - {m});
      if o.less(n, m) {
        m := n;
      }
    }
  }

  lemma AllIsPage(w: World, s: R.State, keys: seq<Key>)
    requires s.sweep == R.Listing([], true) && |keys| <= w.l.max && Sorted(w.o, keys)
    requires forall k :: k in keys <==> k in s.objects && w.o.less(s.Cursor(), k)
    ensures R.Enabled(w.o, w.l, s, R.Page(keys, false))
  {
  }

  function Above(w: World, s: R.State): set<Key> { set k | k in s.objects && w.o.less(s.Cursor(), k) }

  /** A step of the sweep. */
  lemma Sweeps(w: World, start: State, s: State, r: R.Step, missing: set<Key>) returns (t: State)
    requires Run(Steps(w, true), start, s) && Own(r) && R.Enabled(w.o, w.l, s.sweep, r)
    requires missing <= if r.Walk? then Gaps(s.sweep) else {}
    ensures t == s.(sweep := R.Next(w.o, w.l, s.sweep, r), queue := s.queue + missing)
    ensures Run(Steps(w, true), start, t)
  {
    t := Go(w, start, s, Sweep(r, missing));
  }

  lemma Begins(w: World, start: State, s: State) returns (t: State)
    requires Run(Steps(w, true), start, s)
    ensures Run(Steps(w, true), start, t) && t == s.(sweep := s.sweep.(sweep := R.Listing([], w.l.max > 0)))
  {
    t := Sweeps(w, start, s, R.Fail, {});
    t := Sweeps(w, start, t, R.Begin, {});
  }

  /** A new sweep lists all that is above the watermark. */
  lemma Lists(w: World, start: State, s: State, keys: seq<Key>) returns (t: State)
    requires Run(Steps(w, true), start, s) && 0 < |keys| <= w.l.max && Sorted(w.o, keys)
    requires forall k :: k in keys <==> k in s.sweep.objects && w.o.less(s.sweep.Cursor(), k)
    ensures Run(Steps(w, true), start, t)
    ensures t == s.(sweep := s.sweep.(sweep := R.Looking(Uncompacted(w.o, keys), 0, {})))
  {
    var u := Begins(w, start, s);
    AllIsPage(w, u.sweep, keys);
    u := Sweeps(w, start, u, R.Page(keys, false), {});
    assert [] + keys == keys;
    t := Sweeps(w, start, u, R.EndListing, {});
  }

  /** It looks all originals up at once. */
  lemma LooksUp(w: World, start: State, s: State, keys: seq<Key>) returns (t: State, found: set<Key>)
    requires Run(Steps(w, true), start, s) && s.sweep.sweep == R.Looking(keys, 0, {})
    ensures Run(Steps(w, true), start, t)
    ensures t == s.(sweep := s.sweep.(sweep := R.Looking(keys, |keys|, found), confirmed := s.sweep.confirmed + found))
    ensures forall k :: k in found <==> k in keys && k in s.sweep.refs
  {
    found := R.Found(keys, 0, |keys|, s.sweep.refs);
    t := Sweeps(w, start, s, R.Lookup(|keys|), {});
    assert {} + found == found;
  }

  /** And finds a key missing that no row names. */
  lemma Enqueues(w: World, start: State, s: State, key: Key) returns (t: State)
    requires Run(Steps(w, true), start, s) && key in s.sweep.objects && |Above(w, s.sweep)| <= w.l.max
    requires !w.o.compacted(key) && w.o.less(s.sweep.Cursor(), key) && key !in s.sweep.refs
    ensures Run(Steps(w, true), start, t) && t.archive == s.archive && t.hands == s.hands && key in t.queue
  {
    var keys := InOrder(w.o, Above(w, s.sweep));
    assert key in keys;
    t := Lists(w, start, s, keys);
    t := FindsMissing(w, start, t, Uncompacted(w.o, keys), key);
  }

  lemma FindsMissing(w: World, start: State, s: State, keys: seq<Key>, key: Key) returns (t: State)
    requires Run(Steps(w, true), start, s) && s.sweep.sweep == R.Looking(keys, 0, {})
    requires key in keys && key !in s.sweep.refs
    ensures Run(Steps(w, true), start, t) && t.archive == s.archive && t.hands == s.hands && key in t.queue
  {
    var u, found := LooksUp(w, start, s, keys);
    assert key in Gaps(u.sweep);
    t := Sweeps(w, start, u, R.Walk, {key});
  }

  /** The mutation of a job returns, if it has not yet. */
  lemma MutationReturns(w: World, s: State, j: nat) returns (t: State)
    requires Inv(w, s) && j in s.archive.jobs && s.archive.jobs[j].phase in {C.Mutating, C.Repointed}
    ensures Run(Steps(w, true), s, t) && Inv(w, t) && t.queue == s.queue && t.hands == s.hands
    ensures forall k :: k in s.archive.jobs[j].keys ==> Deletes(t.archive, j, k)
    ensures |t.archive.rows| == |s.archive.rows|
    ensures t.archive.objects == s.archive.objects && t.archive.landed == s.archive.landed
    ensures t.sweep.marks == s.sweep.marks
  {
    t := s;
    Nothing(Steps(w, true), s);
    if s.archive.jobs[j].phase == C.Mutating {
      t := Go(w, s, s, Archive(C.RepointAll(j)));
      StepKeepsInv(w, true, s, Archive(C.RepointAll(j)));
      RepointsAll(w.Naming(), s.archive, t.archive, j);
    }
  }

  lemma RepointsAll(n: C.Naming, s: C.State, t: C.State, j: nat)
    requires C.Enabled(n, s, C.RepointAll(j)) && t == C.Next(n, s, C.RepointAll(j))
    ensures forall k :: k in s.jobs[j].keys ==> Deletes(t, j, k)
    ensures |t.rows| == |s.rows| && t.objects == s.objects && t.landed == s.landed
  {
  }

  /** A source that is not calm gets into the consumer's hands. */
  lemma GetsIntoHands(w: World, start: State, s: State, j: nat, key: Key) returns (t: State)
    requires Run(Steps(w, true), start, s) && Inv(w, s) && |Above(w, s.sweep)| <= w.l.max && !Calm(w, s, key)
    requires Deletes(s.archive, j, key)
    ensures Run(Steps(w, true), start, t) && t.archive == s.archive && key in t.hands
  {
    t := s;
    if key !in s.hands {
      assert C.JobOk(w.Naming(), s.archive, s.archive.jobs[j]);
      if key !in s.queue {
        t := Enqueues(w, start, s, key);
      }
      t := Go(w, start, t, Fetch(key));
    }
  }

  predicate Deletes(s: C.State, j: nat, key: Key) {
    j in s.jobs && s.jobs[j].phase == C.Repointed && key in s.jobs[j].keys
  }

  /** The consumer inserts a row of an object that then goes, or is gone. */
  lemma Dangles(w: World, start: State, s: State, j: nat, key: Key) returns (t: State)
    requires Run(Steps(w, true), start, s) && key in s.hands && |start.archive.rows| <= |s.archive.rows|
    requires key in s.archive.landed && s.archive.landed[key] != []
    requires key in s.archive.objects ==> Deletes(s.archive, j, key)
    ensures Run(Steps(w, true), start, t) && !NoneDangles(start, t)
  {
    var i := |s.archive.rows|;
    t := Go(w, start, s, Insert(key, [s.archive.landed[key][0]]));
    assert t.archive.rows[i].ref == key && t.archive.landed == s.archive.landed;
    if key in s.archive.objects {
      t := Go(w, start, t, Archive(C.Delete(j, key)));
      assert t.archive.rows[i].ref == key && t.archive.landed == s.archive.landed;
    }
  }

  lemma RewritingDangles(w: World, s: State, j: nat, key: Key) returns (t: State)
    requires Inv(w, s) && !Calm(w, s, key) && |Above(w, s.sweep)| <= w.l.max
    requires j in s.archive.jobs && s.archive.jobs[j].phase in {C.Mutating, C.Repointed}
             && key in s.archive.jobs[j].keys
    ensures Run(Steps(w, true), s, t) && !NoneDangles(s, t)
  {
    assert key in s.archive.landed && s.archive.landed[key] != [];
    var u := MutationReturns(w, s, j);
    var v := GetsIntoHands(w, s, u, j, key);
    t := Dangles(w, s, v, j, key);
  }

  /** From a state that is not peaceful some run leaves a row without its object. */
  lemma UnrestDangles(w: World, s: State) returns (t: State)
    requires Inv(w, s) && !Peaceful(w, s) && |Above(w, s.sweep)| <= w.l.max
    ensures Run(Steps(w, true), s, t) && !NoneDangles(s, t)
  {
    Nothing(Steps(w, true), s);
    if key :| key in s.hands && key !in s.archive.objects {
      t := Dangles(w, s, s, 0, key);
    } else {
      var key :| C.Rewriting(s.archive, key) && !Calm(w, s, key);
      var j :| j in s.archive.jobs && s.archive.jobs[j].phase in {C.Mutating, C.Repointed}
               && key in s.archive.jobs[j].keys;
      t := RewritingDangles(w, s, j, key);
    }
  }

  /** The condition is exact: with careful submissions from now on, a row that the
      consumer inserts can still be left without its object, in some run, if and only if
      a source of a mutation that is under way is not calm, or the consumer holds an
      object that is gone. */
  lemma RaceIff(w: World, s: State)
    requires Inv(w, s) && |Above(w, s.sweep)| <= w.l.max
    ensures (exists t :: Run(Steps(w, true), s, t) && !NoneDangles(s, t)) <==> !Peaceful(w, s)
  {
    if Peaceful(w, s) {
      forall t | Run(Steps(w, true), s, t) ensures NoneDangles(s, t) {
        RunKeepsCourse(w, s, t);
      }
    } else {
      var t := UnrestDangles(w, s);
    }
  }

  /** The state after a submission, careful or not. */
  ghost function Submitted(w: World, s: State, id: nat): State
    requires id in s.archive.jobs && s.archive.jobs[id].phase == C.Stored
  {
    Next(w, false, s, Archive(C.Submit(id)))
  }

  /** What a submission has to ask for: submitted in a peaceful state, a mutation lets a
      row be left without its object, in some run, if and only if one of its sources is
      not calm. */
  lemma SubmissionRacesIff(w: World, s: State, id: nat)
    requires Inv(w, s) && Peaceful(w, s) && |Above(w, s.sweep)| <= w.l.max
    requires id in s.archive.jobs && s.archive.jobs[id].phase == C.Stored
    ensures (exists u :: Run(Steps(w, true), Submitted(w, s, id), u) && !NoneDangles(Submitted(w, s, id), u))
       <==> exists k :: k in s.archive.jobs[id].keys && !Calm(w, s, k)
  {
    var t := Submitted(w, s, id);
    StepKeepsInv(w, false, s, Archive(C.Submit(id)));
    SubmitKeepsPeaceIff(w, s, t, id);
    RaceIff(w, t);
  }

  lemma SubmitKeepsPeaceIff(w: World, s: State, t: State, id: nat)
    requires Peaceful(w, s) && id in s.archive.jobs && s.archive.jobs[id].phase == C.Stored
    requires t == Submitted(w, s, id)
    ensures Peaceful(w, t) <==> forall k :: k in s.archive.jobs[id].keys ==> Calm(w, s, k)
  {
    assert forall k :: Calm(w, t, k) <==> Calm(w, s, k);
    forall k | C.Rewriting(t.archive, k) ensures C.Rewriting(s.archive, k) || k in s.archive.jobs[id].keys {
      JobsBefore(w.Naming(), s.archive, C.Submit(id), k);
    }
    assert id in t.archive.jobs && t.archive.jobs[id].phase == C.Mutating;
    assert forall k :: k in s.archive.jobs[id].keys ==> C.Rewriting(t.archive, k);
    forall k | C.Rewriting(s.archive, k) ensures C.Rewriting(t.archive, k) {
      var j :| j in s.archive.jobs && s.archive.jobs[j].phase in {C.Mutating, C.Repointed}
               && k in s.archive.jobs[j].keys;
      assert j in t.archive.jobs && t.archive.jobs[j] == s.archive.jobs[j];
    }
  }

  // ----------------------------------------------------------------- it can be met

  lemma {:induction false} Dropped(w: World, start: State, s: State, keys: set<Key>) returns (t: State)
    requires Run(Steps(w, true), start, s)
    ensures Run(Steps(w, true), start, t) && t == s.(queue := s.queue - keys, hands := s.hands - keys)
    decreases keys
  {
    t := s;
    if keys != {} {
      var key :| key in keys;
      t := Go(w, start, s, Drop(key));
      t := Dropped(w, start, t, keys - {key});
    }
  }

  /** A sweep that finds all that it lists moves the watermark to the last. */
  lemma Advances(w: World, start: State, s: State, keys: seq<Key>) returns (t: State)
    requires Run(Steps(w, true), start, s) && 0 < |keys| && s.sweep.sweep == R.Looking(keys, 0, {})
    requires (forall k :: k in keys ==> k in s.sweep.refs) && s.sweep.Cursor() != keys[|keys| - 1]
    ensures Run(Steps(w, true), start, t) && t.archive == s.archive && t.queue == s.queue && t.hands == s.hands
    ensures t.sweep.Cursor() == keys[|keys| - 1] && t.sweep.objects == s.sweep.objects
  {
    var u, found := LooksUp(w, start, s, keys);
    t := Writes(w, start, u, keys);
  }

  lemma Writes(w: World, start: State, s: State, keys: seq<Key>) returns (t: State)
    requires Run(Steps(w, true), start, s) && s.sweep.sweep.Looking? && s.sweep.sweep.seen == keys != []
    requires s.sweep.sweep.done == |keys| && (forall k :: k in keys ==> k in s.sweep.sweep.existing)
    requires s.sweep.Cursor() != keys[|keys| - 1]
    ensures Run(Steps(w, true), start, t) && t.archive == s.archive && t.queue == s.queue && t.hands == s.hands
    ensures t.sweep.Cursor() == keys[|keys| - 1] && t.sweep.objects == s.sweep.objects
  {
    WalksToEnd(w, s.sweep, keys);
    var u := Sweeps(w, start, s, R.Walk, {});
    var version := R.NewVersion(u.sweep.marks);
    NewMarkIsLatest(u.sweep.marks, R.Mark(keys[|keys| - 1], version));
    t := Sweeps(w, start, u, R.Write(version), {});
  }

  lemma WalksToEnd(w: World, s: R.State, keys: seq<Key>)
    requires s.sweep.Looking? && s.sweep.seen == keys != [] && (forall k :: k in keys ==> k in s.sweep.existing)
    requires s.Cursor() != keys[|keys| - 1]
    ensures R.AfterWalk(w.l, s).sweep == R.Writing(keys[|keys| - 1])
  {
    R.AllFound(s.counts, keys, s.sweep.existing, w.l.threshold, s.Cursor());
  }

  lemma NewMarkIsLatest(marks: seq<R.Mark>, m: R.Mark)
    requires forall x :: x in marks ==> x.version < m.version
    ensures R.Latest(marks + [m]) == m
  {
    assert m in marks + [m];
    R.LatestSnoc(marks, m);
  }

  /** The condition can be met: once rows name all originals that are there, a sweep and
      a consumer that is done make every key calm. */
  lemma AllCanBeCalm(w: World, s: State) returns (t: State)
    requires Inv(w, s) && |Above(w, s.sweep)| <= w.l.max
    requires forall k :: k in s.archive.objects && !w.o.compacted(k) ==> k in Refs(s.archive.rows)
    ensures Run(Steps(w, true), s, t) && t.archive == s.archive
    ensures forall k :: k in s.archive.landed ==> Calm(w, t, k)
  {
    Nothing(Steps(w, true), s);
    t := Dropped(w, s, s, s.queue + s.hands);
    var above := Above(w, s.sweep);
    if exists k :: k in above && !w.o.compacted(k) {
      var keys := InOrder(w.o, above);
      t := Lists(w, s, t, keys);
      var found := Uncompacted(w.o, keys);
      var k :| k in above && !w.o.compacted(k);
      assert k in found;
      LastIsGreatest(w, s.sweep, keys, found);
      t := Advances(w, s, t, found);
    }
  }

  lemma LastIsGreatest(w: World, s: R.State, keys: seq<Key>, found: seq<Key>)
    requires Sorted(w.o, keys) && (forall k :: k in keys <==> k in Above(w, s)) && found == Uncompacted(w.o, keys) != []
    ensures w.o.less(s.Cursor(), found[|found| - 1])
    ensures forall k :: k in s.objects && !w.o.compacted(k) ==> w.o.AtMost(k, found[|found| - 1])
  {
    UncompactedIsSorted(w.o, keys);
    assert found[|found| - 1] in found;
    forall k | k in s.objects && !w.o.compacted(k) ensures w.o.AtMost(k, found[|found| - 1]) {
      if k in found {
        var i :| 0 <= i < |found| && found[i] == k;
      }
    }
  }
}
