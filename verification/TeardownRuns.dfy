/**
 * Every run of drivers over one manifest directory and one account, each dying between any two
 * steps: recover, claim, create, tear down, by the writes and replays of scripts/bench-teardown.ts.
 */
module TeardownRuns {
  import opened BenchTeardown
  import opened Wrappers

  /** A replay under way: the manifest in memory, the entry it stands at, and whether that
      entry's deletion has run without having been written yet. */
  datatype Job = Job(manifest: Manifest, at: nat, unsaved: bool)

  /** A driver: the run id it will use, the manifest it claimed, whether it may still create
      resources, the manifests a scan loaded, and the replay under way. */
  datatype Driver = Driver(runId: RunId, own: Option<Manifest>, creating: bool, loaded: seq<Manifest>, job: Option<Job>)

  datatype State = State(disk: Disk, live: set<Resource>, alive: set<Owner>, born: set<Owner>, drivers: map<Owner, Driver>)

  datatype Event =
    | Start(who: Owner, runId: RunId)
    | Load(who: Owner, run: RunId)
    | Begin(who: Owner)
    | Skip(who: Owner)
    | Execute(who: Owner, outcome: Outcome, gone: set<Resource>)
    | Save(who: Owner)
    | Finish(who: Owner)
    | Claim(who: Owner, recorded: bool, resources: seq<Resource>, kept: bool)
    | Create(who: Owner, entry: nat)
    | TearDown(who: Owner)
    | Crash(who: Owner)

  function Named(m: Manifest): seq<Resource> {
    seq(|m.entries|, i requires 0 <= i < |m.entries| => m.entries[i].resource)
  }

  /** What an event needs. A deletion that reports success leaves its resource gone; any
      deletion may take other resources with it. */
  predicate Enabled(s: State, e: Event) {
    if e.Start? then e.who !in s.born
    else
      && e.who in s.alive && e.who in s.drivers
      && var d := s.drivers[e.who];
      match e
      case Load(_, run) =>
        && d.own.None? && d.job.None? && run in s.disk
        && StandingOf(s.disk, run, d.runId, s.alive) == Abandoned && !s.disk[run].manifest.kept
      case Begin(_) => d.job.None? && d.loaded != []
      case Skip(_) => d.job.Some? && AtEntry(d.job.value) && !d.job.value.unsaved && d.job.value.manifest.entries[d.job.value.at].done
      case Execute(_, outcome, gone) =>
        && d.job.Some? && AtEntry(d.job.value) && !d.job.value.unsaved
        && !d.job.value.manifest.entries[d.job.value.at].done
        && (outcome.Deleted? ==> d.job.value.manifest.entries[d.job.value.at].resource in gone)
      case Save(_) => d.job.Some? && AtEntry(d.job.value) && d.job.value.unsaved
      case Finish(_) => d.job.Some? && !AtEntry(d.job.value)
      case Claim(_, _, _, _) => d.own.None? && d.loaded == [] && d.job.None?
      case Create(_, entry) => d.own.Some? && d.creating && entry < |d.own.value.entries|
      case TearDown(_) => d.own.Some? && d.creating && !d.own.value.kept
      case Crash(_) => true
  }

  predicate AtEntry(j: Job) { j.at < |j.manifest.entries| }

  function Executed(j: Job, o: Outcome): Job
    requires AtEntry(j)
  {
    j.(manifest := j.manifest.(entries := j.manifest.entries[j.at := AfterStep(j.manifest.entries[j.at], o)]), unsaved := true)
  }

  function Dead(s: State, o: Owner): State { s.(alive := s.alive - {o}, drivers := s.drivers - {o}) }

  /** The manifest a claim writes: it names the driver's process, or nobody where that cannot be told. */
  function Claimed(s: State, e: Event): Manifest
    requires e.Claim? && e.who in s.drivers
  {
    Manifest(s.drivers[e.who].runId, if e.recorded then Some(e.who) else None, Planned(e.resources), e.kept)
  }

  /** A refused write throws, and the driver ends. */
  function After(s: State, e: Event): State
    requires Enabled(s, e)
  {
    if e.Start? then
      s.(alive := s.alive + {e.who}, born := s.born + {e.who}, drivers := s.drivers[e.who := Driver(e.runId, None, false, [], None)])
    else
      var d := s.drivers[e.who];
      match e
      case Load(o, run) => s.(drivers := s.drivers[o := d.(loaded := d.loaded + [s.disk[run].manifest])])
      case Begin(o) => s.(drivers := s.drivers[o := d.(loaded := d.loaded[1..], job := Some(Job(d.loaded[0], 0, false)))])
      case Skip(o) => s.(drivers := s.drivers[o := d.(job := Some(d.job.value.(at := d.job.value.at + 1)))])
      case Execute(o, outcome, gone) =>
        s.(live := s.live - gone, drivers := s.drivers[o := d.(job := Some(Executed(d.job.value, outcome)))])
      case Save(o) =>
        var (written, disk) := Written(s.disk, d.job.value.manifest, s.alive);
        if !written then Dead(s, o)
        else s.(disk := disk, drivers := s.drivers[o := d.(job := Some(d.job.value.(at := d.job.value.at + 1, unsaved := false)))])
      case Finish(o) => s.(drivers := s.drivers[o := d.(job := None)])
      case Claim(o, _, _, _) =>
        var m := Claimed(s, e);
        var (written, disk) := Written(s.disk, m, s.alive);
        if !written then Dead(s, o)
        else s.(disk := disk, drivers := s.drivers[o := d.(own := Some(m), creating := true)])
      case Create(o, entry) => s.(live := s.live + {d.own.value.entries[entry].resource})
      case TearDown(o) => s.(drivers := s.drivers[o := d.(creating := false, job := Some(Job(d.own.value, 0, false)))])
      case Crash(o) => Dead(s, o)
  }

  const EMPTY := State(map[], {}, {}, {}, map[])

  predicate Allowed(s: State, es: seq<Event>)
    decreases |es|
  {
    es == [] || (Enabled(s, es[0]) && Allowed(After(s, es[0]), es[1..]))
  }

  function Ran(s: State, es: seq<Event>): State
    requires Allowed(s, es)
    decreases |es|
  {
    if es == [] then s else Ran(After(s, es[0]), es[1..])
  }

  // --------------------------------------------------------------- the promise

  ghost predicate NamedOnDisk(s: State, run: RunId, i: nat, r: Resource) {
    && run in s.disk && s.disk[run].Readable?
    && i < |s.disk[run].manifest.entries|
    && s.disk[run].manifest.entries[i].resource == r
    && !s.disk[run].manifest.entries[i].done
  }

  /** Each resource alive is named by a pending entry of a manifest on disk. */
  ghost predicate Covered(s: State) {
    forall r :: r in s.live ==> exists run, i :: NamedOnDisk(s, run, i, r)
  }

  predicate GoesThrough(s: State, e: Event)
    requires e.Claim? && e.who in s.drivers
  {
    Written(s.disk, Claimed(s, e), s.alive).0
  }

  /** A claim that a recovery cannot take for an abandoned run's: it records its process, or asks
      to be kept, or names nothing. */
  predicate Answerable(e: Event)
    requires e.Claim?
  {
    e.recorded || e.kept || e.resources == []
  }

  /** What a claim finds under its run id, if anything, is no other driver's: none has it loaded or
      creates under it, and what it left pending and alive is named again. */
  ghost predicate Unclaimed(s: State, e: Event)
    requires e.Claim? && e.who in s.drivers
  {
    var run := s.drivers[e.who].runId;
    run in s.disk && s.disk[run].Readable? ==>
      && (forall o, m :: o in s.drivers && Holds(s.drivers[o], m) ==> m.runId != run)
      && (forall o :: o in s.drivers && s.drivers[o].creating ==> s.drivers[o].runId != run)
      && forall i, r :: NamedOnDisk(s, run, i, r) && r in s.live ==> r in e.resources
  }

  /** What a claim must respect, unless it is refused. */
  ghost predicate Careful(s: State, e: Event) {
    e.Claim? && e.who in s.drivers && GoesThrough(s, e) ==> Answerable(e) && Unclaimed(s, e)
  }

  ghost predicate AllCareful(s: State, es: seq<Event>)
    requires Allowed(s, es)
    decreases |es|
  {
    es == [] || (Careful(s, es[0]) && AllCareful(After(s, es[0]), es[1..]))
  }

  // -------------------------------------------------------------- the invariant

  /** The manifests a driver may still write. */
  ghost predicate Holds(d: Driver, m: Manifest) {
    m in d.loaded || (d.job.Some? && m == d.job.value.manifest)
  }

  /** A manifest in memory agrees with its file about everything but progress. */
  ghost predicate SameRun(s: State, m: Manifest) {
    && m.runId in s.disk && s.disk[m.runId].Readable?
    && var f := s.disk[m.runId].manifest;
    f.owner == m.owner && f.kept == m.kept && Named(f) == Named(m)
  }

  /** A driver replays its own run once it stopped creating, or an abandoned run of a process
      that has ended, never one kept and never the id it will use itself. Of a manifest that
      names nothing there is nothing to replay. */
  ghost predicate MayReplay(s: State, o: Owner, m: Manifest)
    requires o in s.drivers
  {
    var d := s.drivers[o];
    !m.kept && (m.entries == [] || (m.owner.Some? &&
      if m.owner == Some(o) then d.own.Some? && !d.creating && m.runId == d.runId
      else m.owner.value !in s.alive && d.own.None? && m.runId != d.runId))
  }

  /** A manifest with an owner, or one that no recovery has to do with. */
  predicate Accounted(m: Manifest) { m.owner.Some? || m.kept || m.entries == [] }

  ghost predicate OwnIsOnDisk(s: State, o: Owner)
    requires o in s.drivers
  {
    var d := s.drivers[o];
    d.own.Some? && d.creating ==>
      && d.loaded == [] && d.job.None?
      && d.own.value.owner in {None, Some(o)} && Accounted(d.own.value) && d.own.value.runId == d.runId
      && d.runId in s.disk && s.disk[d.runId] == Readable(d.own.value)
      && forall i :: 0 <= i < |d.own.value.entries| ==> !d.own.value.entries[i].done
  }

  /** Recovery comes first, then the claim, then creation, then the driver's own teardown. */
  predicate OneThingAtATime(d: Driver) {
    (d.creating ==> d.own.Some?) && (d.own.Some? ==> d.loaded == [])
  }

  /** Each file has its run's name, and if its owner runs it is that driver's own. */
  ghost predicate FilesNamed(s: State) {
    forall run :: run in s.disk && s.disk[run].Readable? ==> FileNamed(s, run, s.disk[run].manifest)
  }

  ghost predicate FileNamed(s: State, run: RunId, m: Manifest) {
    && m.runId == run && Accounted(m)
    && (m.owner.Some? ==> m.owner.value in s.born)
    && (m.owner.Some? && m.owner.value in s.drivers ==>
          s.drivers[m.owner.value].own.Some? && s.drivers[m.owner.value].runId == run)
  }

  /** A resource's witness: pending on disk and in every manifest held in memory. */
  ghost predicate PendingEverywhere(s: State, run: RunId, i: nat, r: Resource) {
    && NamedOnDisk(s, run, i, r)
    && forall o, m :: o in s.drivers && Holds(s.drivers[o], m) && m.runId == run ==> i < |m.entries| && !m.entries[i].done
  }

  ghost predicate Witnessed(s: State) {
    forall r :: r in s.live ==> exists run, i :: PendingEverywhere(s, run, i, r)
  }

  ghost predicate HoldersDue(s: State) {
    forall o, m :: o in s.drivers && Holds(s.drivers[o], m) ==> SameRun(s, m) && MayReplay(s, o, m)
  }

  ghost predicate DriversOrdered(s: State) {
    forall o :: o in s.drivers ==> OwnIsOnDisk(s, o) && OneThingAtATime(s.drivers[o])
  }

  ghost predicate Invariant(s: State) {
    && s.alive <= s.born && s.drivers.Keys == s.alive
    && FilesNamed(s)
    && DriversOrdered(s)
    && HoldersDue(s)
    && Witnessed(s)
  }

  /** Nobody replays a run whose driver is still creating, unless it names nothing. */
  lemma NobodyReplaysACreator(s: State, o: Owner, p: Owner, m: Manifest)
    requires Invariant(s) && o in s.drivers && p in s.drivers && Holds(s.drivers[p], m)
    requires s.drivers[o].creating
    ensures m.runId == s.drivers[o].runId ==> m.entries == [] && s.drivers[o].own.Some? && s.drivers[o].own.value.entries == []
  {
    assert OneThingAtATime(s.drivers[o]) && OwnIsOnDisk(s, o);
    assert SameRun(s, m) && MayReplay(s, p, m);
    if m.runId == s.drivers[o].runId {
      assert |Named(m)| == |Named(s.drivers[o].own.value)|;
    }
  }

  lemma StartKeeps(s: State, o: Owner, runId: RunId)
    requires Invariant(s) && Enabled(s, Start(o, runId))
    ensures Invariant(After(s, Start(o, runId)))
  {
    var t := After(s, Start(o, runId));
    forall p, m | p in t.drivers && Holds(t.drivers[p], m) ensures SameRun(t, m) && MayReplay(t, p, m) {
      assert p in s.drivers && Holds(s.drivers[p], m);
      assert SameRun(s, m) && MayReplay(s, p, m);
    }
    forall p | p in t.drivers ensures OwnIsOnDisk(t, p) {
      if p != o { assert OwnIsOnDisk(s, p); }
    }
    KeepsWitnesses(s, t);
  }

  /** Every manifest held after is held before, or stands on disk. */
  ghost predicate HoldsNoMore(s: State, t: State) {
    forall o, m :: o in t.drivers && Holds(t.drivers[o], m) ==>
      (o in s.drivers && Holds(s.drivers[o], m)) || (m.runId in t.disk && t.disk[m.runId] == Readable(m))
  }

  lemma KeepsWitness(s: State, t: State, run: RunId, i: nat, r: Resource)
    requires t.disk == s.disk && HoldsNoMore(s, t) && PendingEverywhere(s, run, i, r)
    ensures PendingEverywhere(t, run, i, r)
  {
    forall o, m | o in t.drivers && Holds(t.drivers[o], m) && m.runId == run
      ensures i < |m.entries| && !m.entries[i].done
    {
      if o in s.drivers && Holds(s.drivers[o], m) {}
    }
  }

  /** Fewer holders, the same files: every witness stays. */
  lemma KeepsWitnesses(s: State, t: State)
    requires Witnessed(s) && t.live <= s.live && t.disk == s.disk && HoldsNoMore(s, t)
    ensures Witnessed(t)
  {
    forall r | r in t.live ensures exists run, i :: PendingEverywhere(t, run, i, r) {
      var run, i :| PendingEverywhere(s, run, i, r);
      KeepsWitness(s, t, run, i, r);
    }
  }

  lemma DeadKeeps(s: State, o: Owner)
    requires Invariant(s) && o in s.alive
    ensures Invariant(Dead(s, o))
  {
    var t := Dead(s, o);
    forall p, m | p in t.drivers && Holds(t.drivers[p], m) ensures SameRun(t, m) && MayReplay(t, p, m) {
      assert p in s.drivers && Holds(s.drivers[p], m);
      assert SameRun(s, m) && MayReplay(s, p, m);
    }
    forall p | p in t.drivers ensures OwnIsOnDisk(t, p) { assert OwnIsOnDisk(s, p); }
    KeepsWitnesses(s, t);
  }

  /** A driver that holds no more than before, or what is on disk, and creates no more than before. */
  lemma DriverKeeps(s: State, t: State, o: Owner, d: Driver)
    requires Invariant(s) && o in s.drivers && t == s.(drivers := s.drivers[o := d])
    requires d.runId == s.drivers[o].runId && d.own == s.drivers[o].own
    requires OneThingAtATime(d) && (d.creating ==> d == s.drivers[o])
    requires forall m :: Holds(d, m) ==> MayReplay(t, o, m)
    requires forall m :: Holds(d, m) ==> Holds(s.drivers[o], m) || (m.runId in s.disk && s.disk[m.runId] == Readable(m))
    ensures Invariant(t)
  {
    forall p, m | p in t.drivers && Holds(t.drivers[p], m) ensures SameRun(t, m) && MayReplay(t, p, m) {
      if p != o || Holds(s.drivers[o], m) {
        assert SameRun(s, m) && MayReplay(s, p, m);
      }
    }
    forall p | p in t.drivers ensures OwnIsOnDisk(t, p) { assert OwnIsOnDisk(s, p); }
    KeepsWitnesses(s, t);
  }

  lemma LoadKeeps(s: State, o: Owner, run: RunId)
    requires Invariant(s) && Enabled(s, Load(o, run))
    ensures Invariant(After(s, Load(o, run)))
  {
    var t, d := After(s, Load(o, run)), After(s, Load(o, run)).drivers[o];
    assert OneThingAtATime(s.drivers[o]);
    forall m | Holds(d, m)
      ensures MayReplay(t, o, m) && (Holds(s.drivers[o], m) || (m.runId in s.disk && s.disk[m.runId] == Readable(m)))
    {
      if Holds(s.drivers[o], m) {
        assert MayReplay(s, o, m);
      } else {
        assert m == s.disk[run].manifest;
      }
    }
    DriverKeeps(s, t, o, d);
  }

  lemma QueueKeeps(s: State, e: Event)
    requires Invariant(s) && Enabled(s, e) && (e.Begin? || e.Skip? || e.Finish?)
    ensures Invariant(After(s, e))
  {
    var o := e.who;
    var t, c, d := After(s, e), s.drivers[o], After(s, e).drivers[o];
    assert OneThingAtATime(c) && OwnIsOnDisk(s, o);
    assert !c.creating;
    forall m | Holds(d, m) ensures MayReplay(t, o, m) && Holds(c, m) {
      if e.Begin? { assert m in c.loaded; }
      assert MayReplay(s, o, m);
    }
    DriverKeeps(s, t, o, d);
  }

  lemma TearDownKeeps(s: State, o: Owner)
    requires Invariant(s) && Enabled(s, TearDown(o))
    ensures Invariant(After(s, TearDown(o)))
  {
    var t, d := After(s, TearDown(o)), After(s, TearDown(o)).drivers[o];
    assert OneThingAtATime(s.drivers[o]) && OwnIsOnDisk(s, o);
    DriverKeeps(s, t, o, d);
  }

  lemma ClaimKeeps(s: State, e: Event)
    requires Invariant(s) && e.Claim? && Enabled(s, e) && Careful(s, e)
    ensures Invariant(After(s, e))
  {
    if GoesThrough(s, e) { WrittenClaimKeeps(s, e); } else { DeadKeeps(s, e.who); }
  }

  lemma WrittenClaimKeeps(s: State, e: Event)
    requires Invariant(s) && e.Claim? && Enabled(s, e) && Careful(s, e) && GoesThrough(s, e)
    ensures Invariant(After(s, e))
  {
    var d, t := s.drivers[e.who], After(s, e);
    assert t.disk == s.disk[d.runId := Readable(Claimed(s, e))];
    ClaimKeepsHolders(s, e);
    forall p | p in t.drivers ensures OwnIsOnDisk(t, p) && OneThingAtATime(t.drivers[p]) {
      assert OwnIsOnDisk(s, p) && OneThingAtATime(s.drivers[p]);
    }
    forall r | r in t.live ensures exists run, i :: PendingEverywhere(t, run, i, r) {
      var run, i :| PendingEverywhere(s, run, i, r);
      if run == d.runId {
        NamedAgain(s, e, r);
      } else {
        assert PendingEverywhere(t, run, i, r);
      }
    }
  }

  /** What a claim names again is pending in it and in no other driver's hands. */
  lemma NamedAgain(s: State, e: Event, r: Resource)
    requires Invariant(s) && e.Claim? && Enabled(s, e) && Careful(s, e) && GoesThrough(s, e)
    requires r in e.resources && s.drivers[e.who].runId in s.disk
    ensures exists i :: PendingEverywhere(After(s, e), s.drivers[e.who].runId, i, r)
  {
    var t, run := After(s, e), s.drivers[e.who].runId;
    var i: nat :| i < |e.resources| && e.resources[i] == r;
    forall o, m | o in t.drivers && Holds(t.drivers[o], m) ensures m.runId != run { assert Holds(s.drivers[o], m); }
    assert PendingEverywhere(t, run, i, r);
  }

  lemma ClaimKeepsHolders(s: State, e: Event)
    requires Invariant(s) && e.Claim? && Enabled(s, e) && Careful(s, e) && GoesThrough(s, e)
    ensures HoldersDue(After(s, e))
  {
    var t := After(s, e);
    forall p, n | p in t.drivers && Holds(t.drivers[p], n) ensures SameRun(t, n) && MayReplay(t, p, n) {
      assert Holds(s.drivers[p], n);
      assert SameRun(s, n) && MayReplay(s, p, n);
    }
  }

  lemma CreateKeeps(s: State, o: Owner, entry: nat)
    requires Invariant(s) && Enabled(s, Create(o, entry))
    ensures Invariant(After(s, Create(o, entry)))
  {
    var t, d := After(s, Create(o, entry)), s.drivers[o];
    CreateKeepsHolders(s, o, entry);
    forall p | p in t.drivers ensures OwnIsOnDisk(t, p) && OneThingAtATime(t.drivers[p]) {
      assert OwnIsOnDisk(s, p) && OneThingAtATime(s.drivers[p]);
    }
    var new_ := d.own.value.entries[entry].resource;
    forall r | r in t.live ensures exists run, i :: PendingEverywhere(t, run, i, r) {
      if r != new_ {
        var run, i :| PendingEverywhere(s, run, i, r);
        CreatedWitness(s, t, run, i, r);
      }
    }
  }

  /** A new resource is witnessed by its own entry, which nobody replays. */
  lemma CreateKeepsHolders(s: State, o: Owner, entry: nat)
    requires Invariant(s) && Enabled(s, Create(o, entry))
    ensures var t, d := After(s, Create(o, entry)), s.drivers[o];
      HoldersDue(t) && PendingEverywhere(t, d.runId, entry, d.own.value.entries[entry].resource)
  {
    var t, d := After(s, Create(o, entry)), s.drivers[o];
    assert OneThingAtATime(d) && OwnIsOnDisk(s, o);
    forall p, m | p in t.drivers && Holds(t.drivers[p], m)
      ensures SameRun(t, m) && MayReplay(t, p, m) && m.runId != d.runId
    {
      assert SameRun(s, m) && MayReplay(s, p, m);
      NobodyReplaysACreator(s, o, p, m);
    }
  }

  lemma CreatedWitness(s: State, t: State, run: RunId, i: nat, r: Resource)
    requires PendingEverywhere(s, run, i, r) && t == s.(live := t.live)
    ensures PendingEverywhere(t, run, i, r)
  {
  }

  lemma ExecutedStaysDue(s: State, e: Event, p: Owner, x: Manifest)
    requires Invariant(s) && e.Execute? && Enabled(s, e)
    requires p in After(s, e).drivers && Holds(After(s, e).drivers[p], x)
    ensures SameRun(After(s, e), x) && MayReplay(After(s, e), p, x)
  {
    var o, t := e.who, After(s, e);
    var m, n := s.drivers[o].job.value.manifest, t.drivers[o].job.value.manifest;
    if p == o && x == n {
      assert Holds(s.drivers[o], m);
      assert SameRun(s, m) && MayReplay(s, o, m);
      assert Named(n) == Named(m);
    } else {
      assert Holds(s.drivers[p], x);
      assert SameRun(s, x) && MayReplay(s, p, x);
    }
  }

  lemma ExecuteKeeps(s: State, e: Event)
    requires Invariant(s) && e.Execute? && Enabled(s, e)
    ensures Invariant(After(s, e))
  {
    var t := After(s, e);
    forall p, x | p in t.drivers && Holds(t.drivers[p], x) ensures SameRun(t, x) && MayReplay(t, p, x) {
      ExecutedStaysDue(s, e, p, x);
    }
    forall r | r in t.live ensures exists run, i :: PendingEverywhere(t, run, i, r) {
      var run, i :| PendingEverywhere(s, run, i, r);
      ExecutedWitness(s, e, run, i, r);
    }
  }

  lemma ExecutedWitness(s: State, e: Event, run: RunId, i: nat, r: Resource)
    requires Invariant(s) && e.Execute? && Enabled(s, e)
    requires PendingEverywhere(s, run, i, r) && r in After(s, e).live
    ensures PendingEverywhere(After(s, e), run, i, r)
  {
    var o, t := e.who, After(s, e);
    var j, n := s.drivers[o].job.value, t.drivers[o].job.value.manifest;
    assert Holds(s.drivers[o], j.manifest) && SameRun(s, j.manifest);
    forall p, x | p in t.drivers && Holds(t.drivers[p], x) && x.runId == run ensures i < |x.entries| && !x.entries[i].done {
      if p == o && x == n {
        var f := s.disk[run].manifest;
        assert i < |j.manifest.entries| && !j.manifest.entries[i].done;
        assert Named(f)[i] == Named(j.manifest)[i] == r;
      } else {
        assert Holds(s.drivers[p], x);
      }
    }
  }

  lemma SaveKeeps(s: State, o: Owner)
    requires Invariant(s) && Enabled(s, Save(o))
    ensures Written(s.disk, s.drivers[o].job.value.manifest, s.alive).0
    ensures Invariant(After(s, Save(o)))
  {
    var t := After(s, Save(o));
    SaveGoesThrough(s, o);
    SaveKeepsHolders(s, o);
    SaveKeepsOrder(s, o);
    forall r | r in t.live ensures exists run, i :: PendingEverywhere(t, run, i, r) {
      var run, i :| PendingEverywhere(s, run, i, r);
      SavedWitness(s, o, run, i, r);
    }
  }

  /** No write of a replay is ever refused. */
  lemma SaveGoesThrough(s: State, o: Owner)
    requires Invariant(s) && Enabled(s, Save(o))
    ensures var m := s.drivers[o].job.value.manifest;
      && SameRun(s, m) && MayReplay(s, o, m)
      && Written(s.disk, m, s.alive).0 && Written(s.disk, m, s.alive).1 == s.disk[m.runId := Readable(m)]
  {
    var m := s.drivers[o].job.value.manifest;
    assert Holds(s.drivers[o], m);
    assert SameRun(s, m) && MayReplay(s, o, m);
    assert !HeldByAnother(s.disk, m, s.alive);
  }

  lemma SaveKeepsHolders(s: State, o: Owner)
    requires Invariant(s) && Enabled(s, Save(o))
    ensures HoldersDue(After(s, Save(o)))
  {
    var t := After(s, Save(o));
    SaveGoesThrough(s, o);
    forall p, x | p in t.drivers && Holds(t.drivers[p], x) ensures SameRun(t, x) && MayReplay(t, p, x) {
      assert Holds(s.drivers[p], x);
      assert SameRun(s, x) && MayReplay(s, p, x);
    }
  }

  lemma SaveKeepsOrder(s: State, o: Owner)
    requires Invariant(s) && Enabled(s, Save(o))
    ensures DriversOrdered(After(s, Save(o))) && FilesNamed(After(s, Save(o)))
  {
    var t, m := After(s, Save(o)), s.drivers[o].job.value.manifest;
    SaveGoesThrough(s, o);
    forall p | p in t.drivers ensures OwnIsOnDisk(t, p) && OneThingAtATime(t.drivers[p]) {
      assert OwnIsOnDisk(s, p) && OneThingAtATime(s.drivers[p]);
      if s.drivers[p].creating { NobodyReplaysACreator(s, p, o, m); }
    }
  }

  lemma SavedWitness(s: State, o: Owner, run: RunId, i: nat, r: Resource)
    requires Invariant(s) && Enabled(s, Save(o)) && PendingEverywhere(s, run, i, r)
    requires Written(s.disk, s.drivers[o].job.value.manifest, s.alive).0
    ensures PendingEverywhere(After(s, Save(o)), run, i, r)
  {
    var t, m := After(s, Save(o)), s.drivers[o].job.value.manifest;
    assert Holds(s.drivers[o], m) && SameRun(s, m);
    if m.runId == run {
      assert Named(s.disk[run].manifest)[i] == Named(m)[i] == r;
    }
    forall p, x | p in t.drivers && Holds(t.drivers[p], x) && x.runId == run ensures i < |x.entries| && !x.entries[i].done {
      assert Holds(s.drivers[p], x);
    }
  }

  /** Every step of every driver keeps the invariant, a refused claim included. */
  lemma StepKeeps(s: State, e: Event)
    requires Invariant(s) && Enabled(s, e) && Careful(s, e)
    ensures Invariant(After(s, e))
  {
    match e
    case Start(o, runId) => StartKeeps(s, o, runId);
    case Load(o, run) => LoadKeeps(s, o, run);
    case Begin(_) => QueueKeeps(s, e);
    case Skip(_) => QueueKeeps(s, e);
    case Finish(_) => QueueKeeps(s, e);
    case Execute(_, _, _) => ExecuteKeeps(s, e);
    case Save(o) => SaveKeeps(s, o);
    case Claim(_, _, _, _) => ClaimKeeps(s, e);
    case Create(o, entry) => CreateKeeps(s, o, entry);
    case TearDown(o) => TearDownKeeps(s, o);
    case Crash(o) => DeadKeeps(s, o);
  }

  lemma {:induction false} RunKeeps(s: State, es: seq<Event>)
    requires Invariant(s) && Allowed(s, es) && AllCareful(s, es)
    ensures Invariant(Ran(s, es))
    decreases |es|
  {
    if es != [] {
      StepKeeps(s, es[0]);
      RunKeeps(After(s, es[0]), es[1..]);
    }
  }

  // ------------------------------------------------------------- main results

  /** Whatever the drivers do and wherever they die, each resource still alive is named by a
      pending entry of a manifest on disk. */
  lemma NothingIsStranded(es: seq<Event>)
    requires Allowed(EMPTY, es) && AllCareful(EMPTY, es)
    ensures Covered(Ran(EMPTY, es))
  {
    RunKeeps(EMPTY, es);
    InvariantCovers(Ran(EMPTY, es));
  }

  lemma InvariantCovers(s: State)
    requires Invariant(s)
    ensures Covered(s)
  {
    forall r | r in s.live ensures exists run, i :: NamedOnDisk(s, run, i, r) {
      var run, i :| PendingEverywhere(s, run, i, r);
    }
  }

  /** A deletion runs only for the driver's own run, once it stopped creating, or for a run of
      a process that has ended, not kept and not the driver's own id; and its result can be
      written back. */
  lemma DeletionsAreDue(es: seq<Event>, e: Event)
    requires Allowed(EMPTY, es) && AllCareful(EMPTY, es)
    requires e.Execute? && Enabled(Ran(EMPTY, es), e)
    ensures var s := Ran(EMPTY, es);
      var d, m := s.drivers[e.who], s.drivers[e.who].job.value.manifest;
      && !m.kept && m.owner.Some?
      && (m.owner == Some(e.who) ==> !d.creating && m.runId == d.runId)
      && (m.owner != Some(e.who) ==> m.owner.value !in s.alive && m.runId != d.runId)
      && Written(s.disk, m, s.alive).0
  {
    RunKeeps(EMPTY, es);
    var s := Ran(EMPTY, es);
    var m := s.drivers[e.who].job.value.manifest;
    assert Holds(s.drivers[e.who], m);
    assert MayReplay(s, e.who, m) && SameRun(s, m);
  }

  /** A claim of a run id whose owner still runs, as two drivers started in one second make, is
      refused: the second driver ends, and nothing else changes. */
  lemma LiveRunIsNotClaimed(s: State, e: Event)
    requires e.Claim? && Enabled(s, e)
    requires var run := s.drivers[e.who].runId;
      run in s.disk && s.disk[run].Readable? && s.disk[run].manifest.owner.Some?
      && s.disk[run].manifest.owner.value in s.alive && s.disk[run].manifest.owner != Claimed(s, e).owner
    ensures After(s, e) == Dead(s, e.who) && Careful(s, e)
  {
  }

  /** A run in which that happens is one the results above cover. */
  lemma SameSecondIsCareful(r: Resource, q: Resource)
    ensures var es := [Start(1, "a"), Claim(1, true, [r], false), Start(2, "a"), Claim(2, true, [q], false)];
      && Allowed(EMPTY, es) && AllCareful(EMPTY, es)
      && Ran(EMPTY, es).alive == {1} && Ran(EMPTY, es).disk.Keys == {"a"}
      && Ran(EMPTY, es).disk["a"] == Readable(Manifest("a", Some(1), Planned([r]), false))
  {
    var e1, e2 := Start(1, "a"), Claim(1, true, [r], false);
    var e3, e4 := Start(2, "a"), Claim(2, true, [q], false);
    var s1 := After(EMPTY, e1);
    var s2 := After(s1, e2);
    var s3 := After(s2, e3);
    LiveRunIsNotClaimed(s3, e4);
    Then(s3, e4, []);
    Then(s2, e3, [e4]);
    Then(s1, e2, [e3, e4]);
    Then(EMPTY, e1, [e2, e3, e4]);
    assert [e1, e2, e3, e4] == [e1] + [e2, e3, e4] && [e2, e3, e4] == [e2] + [e3, e4];
    assert [e3, e4] == [e3] + [e4] && [e4] == [e4] + [];
    CarefulOn(s3, e4, []);
    CarefulOn(s2, e3, [e4]);
    CarefulOn(s1, e2, [e3, e4]);
    CarefulOn(EMPTY, e1, [e2, e3, e4]);
  }

  lemma Then(s: State, e: Event, es: seq<Event>)
    requires Enabled(s, e) && Allowed(After(s, e), es)
    ensures Allowed(s, [e] + es) && Ran(s, [e] + es) == Ran(After(s, e), es)
  {
    assert ([e] + es)[1..] == es;
  }

  lemma CarefulOn(s: State, e: Event, es: seq<Event>)
    requires Enabled(s, e) && Allowed(After(s, e), es) && Careful(s, e) && AllCareful(After(s, e), es)
    ensures Allowed(s, [e] + es) && AllCareful(s, [e] + es)
  {
    assert ([e] + es)[1..] == es;
  }

  lemma {:induction false} Continue(s: State, es: seq<Event>, more: seq<Event>)
    requires Allowed(s, es) && Allowed(Ran(s, es), more)
    ensures Allowed(s, es + more) && Ran(s, es + more) == Ran(Ran(s, es), more)
    decreases |es|
  {
    if es == [] {
      assert es + more == more;
    } else {
      assert (es + more)[0] == es[0] && (es + more)[1..] == es[1..] + more;
      Continue(After(s, es[0]), es[1..], more);
    }
  }
}
