/**
 * A manifest write as its file operations (`writeManifest` in scripts/bench-teardown.ts), any
 * number of processes writing one run id at once, in any order: who may come to hold the id. A
 * process that stops takes no further operation; who runs is settled before the race.
 */
module ClaimRace {
  import opened BenchTeardown
  import opened Wrappers

  /** What stands at the run's path. */
  datatype Path = Free | Garbled | Held(holder: Option<Owner>)

  /** How far a write is: nothing done, what `existsSync` said, the holder that was loaded, the
      holder found out of the way, and the two ends. */
  datatype Phase = Ready | SawFree | SawTaken | Loaded(holder: Option<Owner>) | Clear | Passed | Refused

  /** The processes writing, those of them that could record themselves, and those running. */
  datatype Race = Race(path: Path, phases: map<Owner, Phase>, recorded: set<Owner>, alive: set<Owner>)

  /** The owner a process writes into its manifest. */
  function Signed(r: Race, w: Owner): Option<Owner> { if w in r.recorded then Some(w) else None }

  predicate Blocks(r: Race, w: Owner, holder: Option<Owner>) {
    holder.Some? && holder != Signed(r, w) && holder.value in r.alive
  }

  function To(r: Race, w: Owner, next: Phase): Race { r.(phases := r.phases[w := next]) }

  function Taken(r: Race, w: Owner): Race { To(r, w, Passed).(path := Held(Signed(r, w))) }

  /** The next file operation of one writer. */
  function Step(r: Race, w: Owner): Race {
    if w !in r.phases then r
    else
      match r.phases[w]
      case Ready => To(r, w, if r.path.Free? then SawFree else SawTaken)
      case SawFree => if r.path.Free? then Taken(r, w) else To(r, w, SawTaken)
      case SawTaken =>
        (match r.path
         case Free => To(r, w, Loaded(None))
         case Garbled => To(r, w, Refused)
         case Held(holder) => To(r, w, Loaded(holder)))
      case Loaded(holder) => To(r, w, if Blocks(r, w, holder) then Refused else Clear)
      case Clear => Taken(r, w)
      case Passed => r
      case Refused => r
  }

  /** The operations in the order the file system saw them. */
  function Raced(r: Race, order: seq<Owner>): Race
    decreases |order|
  {
    if order == [] then r else Raced(Step(r, order[0]), order[1..])
  }

  ghost predicate OnePasses(r: Race) {
    forall v, w :: v in r.phases && w in r.phases && r.phases[v] == Passed && r.phases[w] == Passed ==> v == w
  }

  /** In every order of the operations at most one write goes through. */
  ghost predicate Excludes(r: Race) {
    forall order :: OnePasses(Raced(r, order))
  }

  predicate Fresh(r: Race) {
    r.phases.Keys <= r.alive && forall w :: w in r.phases ==> r.phases[w] == Ready
  }

  // ------------------------------------------------------- a write on its own

  /** The path as part of a manifest directory. */
  function PathOf(disk: Disk, run: RunId): Path {
    if run !in disk then Free else if disk[run].Unreadable? then Garbled else Held(disk[run].manifest.owner)
  }

  lemma RaceOn(r: Race, w: Owner, rest: seq<Owner>)
    ensures Raced(r, [w] + rest) == Raced(Step(r, w), rest)
  {
    assert ([w] + rest)[1..] == rest;
  }

  lemma FourSteps(r: Race, a: Owner, b: Owner, c: Owner, d: Owner)
    ensures Raced(r, [a, b, c, d]) == Step(Step(Step(Step(r, a), b), c), d)
  {
    RaceOn(r, a, [b, c, d]);
    RaceOn(Step(r, a), b, [c, d]);
    RaceOn(Step(Step(r, a), b), c, [d]);
    RaceOn(Step(Step(Step(r, a), b), c), d, []);
    assert [a] + [b, c, d] == [a, b, c, d] && [b] + [c, d] == [b, c, d] && [c] + [d] == [c, d] && [d] + [] == [d];
  }

  /** Undisturbed, the operations come to the write taken as one step. */
  lemma AloneIsWritten(r: Race, w: Owner, disk: Disk, m: Manifest)
    requires w in r.phases && r.phases[w] == Ready && r.path == PathOf(disk, m.runId) && Signed(r, w) == m.owner
    ensures var end, (written, after) := Raced(r, [w, w, w, w]), Written(disk, m, r.alive);
      && w in end.phases && end.phases[w] == (if written then Passed else Refused)
      && end.path == PathOf(after, m.runId)
  {
    FourSteps(r, w, w, w, w);
  }

  // ------------------------------------------------------------ who may hold it

  /** A running process holds the path, and whoever signs otherwise is not past loading that. */
  ghost predicate HeldFast(r: Race, p: Owner) {
    && r.path == Held(Some(p)) && p in r.alive
    && forall w :: w in r.phases && Signed(r, w) != Some(p) ==>
         r.phases[w] in {Ready, SawFree, SawTaken, Loaded(Some(p)), Refused}
  }

  /** Nothing stands at the path, and nobody has found anything there. */
  ghost predicate Untouched(r: Race) {
    r.path.Free? && forall w :: w in r.phases ==> w in r.recorded && r.phases[w] in {Ready, SawFree}
  }

  ghost predicate Stuck(r: Race) {
    r.path.Garbled? && forall w :: w in r.phases ==> r.phases[w] in {Ready, SawTaken, Refused}
  }

  ghost predicate Safe(r: Race) {
    r.phases.Keys <= r.alive && (Untouched(r) || Stuck(r) || exists p :: HeldFast(r, p))
  }

  lemma StepStaysSafe(r: Race, w: Owner)
    requires Safe(r)
    ensures Safe(Step(r, w))
  {
    var next := Step(r, w);
    if p :| HeldFast(r, p) {
      assert HeldFast(next, p);
    } else if Untouched(r) && w in r.phases && r.phases[w] == SawFree {
      assert HeldFast(next, w);
    } else if Untouched(r) {
      assert Untouched(next);
    } else {
      assert Stuck(next);
    }
  }

  lemma {:induction false} RacedStaysSafe(r: Race, order: seq<Owner>)
    requires Safe(r)
    ensures Safe(Raced(r, order))
    decreases |order|
  {
    if order != [] {
      StepStaysSafe(r, order[0]);
      RacedStaysSafe(Step(r, order[0]), order[1..]);
    }
  }

  lemma SafeHasOnePass(r: Race)
    requires Safe(r)
    ensures OnePasses(r)
  {
  }

  /** The path can be claimed twice: it names nobody that runs, or it is free and some process
      cannot record itself. */
  predicate Claimable(r: Race) {
    || (r.path.Held? && (r.path.holder.None? || r.path.holder.value !in r.alive))
    || (r.path.Free? && exists w :: w in r.phases && w !in r.recorded)
  }

  /** Both load the record of a process that is gone before either replaces it. */
  lemma BothReplace(r: Race, v: Owner, w: Owner)
    requires Fresh(r) && v in r.phases && w in r.phases && v != w
    requires r.path.Held? && (r.path.holder.None? || r.path.holder.value !in r.alive)
    ensures !Excludes(r)
  {
    var order := [v, v, v, w] + [w, w, v, w];
    FourSteps(r, v, v, v, w);
    var mid := Raced(r, [v, v, v, w]);
    assert mid.phases[v] == Clear && mid.phases[w] == SawTaken && mid.path == r.path;
    FourSteps(mid, w, w, v, w);
    var end := Raced(mid, [w, w, v, w]);
    assert end.phases[v] == Passed && end.phases[w] == Passed;
    RacedConcat(r, [v, v, v, w], [w, w, v, w]);
    assert !OnePasses(Raced(r, order));
  }

  /** The first claims without a name, and the next finds nobody it knows to run. */
  lemma NamelessIsReplaced(r: Race, v: Owner, w: Owner)
    requires Fresh(r) && v in r.phases && w in r.phases && v != w
    requires r.path.Free? && v !in r.recorded
    ensures !Excludes(r)
  {
    var order := [v, v, w, w] + [w, w, w, w];
    FourSteps(r, v, v, w, w);
    var mid := Raced(r, [v, v, w, w]);
    assert mid.phases[v] == Passed && mid.phases[w] == Loaded(None);
    FourSteps(mid, w, w, w, w);
    var end := Raced(mid, [w, w, w, w]);
    assert end.phases[v] == Passed && end.phases[w] == Passed;
    RacedConcat(r, [v, v, w, w], [w, w, w, w]);
    assert !OnePasses(Raced(r, order));
  }

  lemma {:induction false} RacedConcat(r: Race, a: seq<Owner>, b: seq<Owner>)
    ensures Raced(r, a + b) == Raced(Raced(r, a), b)
    decreases |a|
  {
    if a == [] {
      assert a + b == b;
    } else {
      assert (a + b)[1..] == a[1..] + b;
      RacedConcat(Step(r, a[0]), a[1..], b);
    }
  }

  /** Writes started by two or more running processes exclude one another in every order exactly
      when the path does not name a process that is gone, or nobody, and if it is free when every
      one of them records itself. */
  lemma ExcludesIff(r: Race)
    requires Fresh(r) && |r.phases| >= 2
    ensures Excludes(r) <==> !Claimable(r)
  {
    if Claimable(r) {
      var v: Owner :| v in r.phases && (r.path.Free? ==> v !in r.recorded);
      var w := Another(r.phases.Keys, v);
      if r.path.Held? { BothReplace(r, v, w); } else { NamelessIsReplaced(r, v, w); }
    } else {
      if r.path.Held? { assert HeldFast(r, r.path.holder.value); }
      assert Safe(r);
      forall order ensures OnePasses(Raced(r, order)) {
        RacedStaysSafe(r, order);
        SafeHasOnePass(Raced(r, order));
      }
    }
  }

  lemma Another(s: set<Owner>, v: Owner) returns (w: Owner)
    requires v in s && |s| >= 2
    ensures w in s && w != v
  {
    var rest := s - {v};
    assert |rest| >= 1;
    w :| w in rest;
  }

  // ---------------------------------------------------------- somebody claims it

  predicate Ended(r: Race) {
    forall w :: w in r.phases ==> r.phases[w].Passed? || r.phases[w].Refused?
  }

  /** What stands at the path was left by a write that went through, and until there is something
      nobody has found anything. */
  ghost predicate Accounted(r: Race) {
    && (r.path.Free? ==> forall w :: w in r.phases ==> r.phases[w] in {Ready, SawFree})
    && !r.path.Garbled?
    && (r.path.Held? ==> exists w :: w in r.phases && r.phases[w] == Passed && r.path.holder == Signed(r, w))
  }

  lemma StepAccounts(r: Race, w: Owner)
    requires Accounted(r)
    ensures Accounted(Step(r, w))
  {
    var next := Step(r, w);
    if r.path.Held? {
      var v :| v in r.phases && r.phases[v] == Passed && r.path.holder == Signed(r, v);
      assert v in next.phases && next.phases[v] == Passed && Signed(next, v) == Signed(r, v);
      if next.path != r.path {
        assert w in next.phases && next.phases[w] == Passed && next.path.holder == Signed(next, w);
      }
    } else if w in r.phases && r.phases[w] == SawFree {
      assert w in next.phases && next.phases[w] == Passed && next.path.holder == Signed(next, w);
    }
  }

  lemma {:induction false} RacedAccounts(r: Race, order: seq<Owner>)
    requires Accounted(r)
    ensures Accounted(Raced(r, order))
    decreases |order|
  {
    if order != [] {
      StepAccounts(r, order[0]);
      RacedAccounts(Step(r, order[0]), order[1..]);
    }
  }

  lemma {:induction false} SameWriters(r: Race, order: seq<Owner>)
    ensures var end := Raced(r, order);
      end.phases.Keys == r.phases.Keys && end.recorded == r.recorded && end.alive == r.alive
    decreases |order|
  {
    if order != [] {
      SameWriters(Step(r, order[0]), order[1..]);
    }
  }

  /** Processes that record themselves and find the path free: in every order, once all writes have
      ended, exactly one went through, it is the one on disk, and every other was refused. */
  lemma ExactlyOneClaims(r: Race, order: seq<Owner>)
    requires Fresh(r) && r.path.Free? && r.phases.Keys <= r.recorded && r.phases != map[]
    requires Ended(Raced(r, order))
    ensures var end := Raced(r, order);
      exists p :: p in r.phases && end.path == Held(Some(p))
                  && end.phases == map w | w in r.phases :: if w == p then Passed else Refused
  {
    var end := Raced(r, order);
    SameWriters(r, order);
    RacedAccounts(r, order);
    assert Untouched(r);
    RacedStaysSafe(r, order);
    SafeHasOnePass(end);
    var some :| some in r.phases;
    assert some in end.phases && (end.phases[some].Passed? || end.phases[some].Refused?);
    var p :| p in end.phases && end.phases[p] == Passed && end.path.holder == Signed(end, p);
    assert end.phases == map w | w in r.phases :: if w == p then Passed else Refused;
  }
}
