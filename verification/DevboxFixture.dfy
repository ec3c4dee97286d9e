/**
 * Deleting a devbox benchmark's resources by name alone (scripts/bench-devbox-fixture.ts): a
 * container application with every snapshot it made, and durable state only behind its Worker.
 */
module DevboxFixture {
  import opened Lists
  import opened Wrappers

  /** What the registry says of one application's snapshots. */
  datatype Sweep = Swept(left: nat) | Refused(reason: string)

  datatype Outcome = Cleared(absent: bool) | Failed

  /** What a teardown does to the world, in order. */
  datatype Effect = Persist(ids: seq<string>) | Remove(took: seq<string>) | Ask(id: string, answer: Sweep)

  /** The ids a removal deleted, on a listing of its own, and its failure if it had one. */
  datatype Removal = Removal(took: seq<string>, failure: Option<string>)

  /** The answers of a sweep, up to the first that refuses or leaves something. */
  function Asks(ids: seq<string>, sweep: string -> Sweep): seq<Effect> {
    if ids == [] then []
    else [Ask(ids[0], sweep(ids[0]))] + (if sweep(ids[0]) == Swept(0) then Asks(ids[1..], sweep) else [])
  }

  predicate AllSwept(ids: seq<string>, sweep: string -> Sweep) {
    forall i :: 0 <= i < |ids| ==> sweep(ids[i]) == Swept(0)
  }

  /** What a teardown does before it asks the registry: new ids are written, then the application
      removed if it is listed. */
  function Prelude(recorded: seq<string>, listed: seq<string>, took: seq<string>): seq<Effect> {
    var ids := Distinct(recorded + listed);
    (if |ids| > |recorded| then [Persist(ids)] else []) + (if listed == [] then [] else [Remove(took)])
  }

  /** One teardown: its outcome, the ids its entry then holds, and its effects. */
  function Teardown(recorded: seq<string>, listed: seq<string>, removal: Removal, sweep: string -> Sweep)
    : (Outcome, seq<string>, seq<Effect>)
  {
    var ids := Distinct(recorded + listed);
    var entryIds := if |ids| > |recorded| then ids else recorded;
    var before := Prelude(recorded, listed, removal.took);
    if listed != [] && removal.failure.Some? then (Failed, entryIds, before)
    else if ids == [] then (Cleared(true), entryIds, before)
    else (if AllSwept(ids, sweep) then Cleared(false) else Failed, entryIds, before + Asks(ids, sweep))
  }

  /** The listed ids an entry does not have yet, as the listing gives them. */
  function Learnt(ids: seq<string>, listed: seq<string>): seq<string> {
    if listed == [] then []
    else Learnt(ids, listed[..|listed| - 1]) + if listed[|listed| - 1] in ids then [] else [listed[|listed| - 1]]
  }

  /** A container application's entry of a teardown manifest. */
  class AppEntry {
    var ids: seq<string>
    var effects: seq<Effect>

    constructor (ids: seq<string>)
      ensures this.ids == ids && effects == []
    {
      this.ids := ids;
      effects := [];
    }

    method ContainerAppTeardown(listed: seq<string>, removal: Removal, sweep: string -> Sweep)
      returns (outcome: Outcome)
      modifies this
      ensures var t := Teardown(old(ids), listed, removal, sweep);
        outcome == t.0 && ids == t.1 && effects == old(effects) + t.2
    {
      var all := Distinct(ids + listed);
      ghost var start, recorded := effects, ids;
      Prepare(listed, removal.took);
      if listed != [] && removal.failure.Some? {
        return Failed;
      }
      ghost var before := Prelude(recorded, listed, removal.took);
      outcome := Settle(all, sweep);
      assert before + [] == before;
      Regroup(start, before, if all == [] then [] else Asks(all, sweep));
    }

    /** Answer for the known ids: none, all swept with nothing left, or not. */
    method Settle(all: seq<string>, sweep: string -> Sweep) returns (outcome: Outcome)
      modifies this`effects
      ensures outcome == if all == [] then Cleared(true) else if AllSwept(all, sweep) then Cleared(false) else Failed
      ensures effects == old(effects) + if all == [] then [] else Asks(all, sweep)
    {
      if all == [] {
        return Cleared(true);
      }
      var clean := SweepAll(all, sweep);
      outcome := if clean then Cleared(false) else Failed;
    }

    /** Write the ids first when there are new ones, then remove the application if it is listed. */
    method Prepare(listed: seq<string>, took: seq<string>)
      modifies this
      ensures var all := Distinct(old(ids) + listed);
        && ids == (if |all| > |old(ids)| then all else old(ids))
        && effects == old(effects) + Prelude(old(ids), listed, took)
    {
      var all := Distinct(ids + listed);
      if |all| > |ids| {
        ids := all;
        effects := effects + [Persist(ids)];
      }
      if listed != [] {
        effects := effects + [Remove(took)];
      }
    }

    /** The ids the platform lists now, added to the entry and written when there is a new one. */
    method RecordApplicationIds(listed: seq<string>)
      modifies this
      ensures ids == old(ids) + Learnt(old(ids), listed)
      ensures effects == old(effects) + Recorded(old(ids), listed)
    {
      var learnt := Learnt(ids, listed);
      ids := ids + learnt;
      if |learnt| > 0 {
        effects := effects + [Persist(ids)];
      }
    }

    /** Ask for each id's snapshots in turn, stopping at the first that refuses or leaves some. */
    method SweepAll(all: seq<string>, sweep: string -> Sweep) returns (clean: bool)
      modifies this`effects
      ensures clean == AllSwept(all, sweep) && effects == old(effects) + Asks(all, sweep)
    {
      var i := 0;
      while i < |all|
        invariant 0 <= i <= |all|
        invariant forall k :: 0 <= k < i ==> sweep(all[k]) == Swept(0)
        invariant effects + Asks(all[i..], sweep) == old(effects) + Asks(all, sweep)
      {
        var answer := sweep(all[i]);
        AskNext(effects, all, i, sweep);
        effects := effects + [Ask(all[i], answer)];
        if answer != Swept(0) {
          return false;
        }
        i := i + 1;
      }
      clean := true;
    }
  }

  lemma AskNext(done: seq<Effect>, ids: seq<string>, i: nat, sweep: string -> Sweep)
    requires i < |ids|
    ensures var next := Ask(ids[i], sweep(ids[i]));
      done + Asks(ids[i..], sweep)
      == if sweep(ids[i]) == Swept(0) then done + [next] + Asks(ids[i + 1..], sweep) else done + [next]
  {
    var next := Ask(ids[i], sweep(ids[i]));
    assert ids[i..][0] == ids[i] && ids[i..][1..] == ids[i + 1..];
    assert done + ([next] + Asks(ids[i + 1..], sweep)) == done + [next] + Asks(ids[i + 1..], sweep);
    assert done + ([next] + []) == done + [next];
  }

  /** A sweep asks for the ids in turn, each only when all before it were swept with nothing left. */
  lemma {:induction false} AsksInTurn(ids: seq<string>, sweep: string -> Sweep, k: nat)
    requires k < |ids|
    ensures var asks := Asks(ids, sweep);
      && |asks| <= |ids| && (k < |asks| ==> asks[k] == Ask(ids[k], sweep(ids[k])))
      && (k < |asks| <==> forall j :: 0 <= j < k ==> sweep(ids[j]) == Swept(0))
  {
    var rest := ids[1..];
    if k > 0 {
      AsksInTurn(rest, sweep, k - 1);
      assert forall j :: 1 <= j < k ==> ids[j] == rest[j - 1];
      assert forall j :: 0 <= j < k - 1 ==> rest[j] == ids[j + 1];
    } else if rest != [] {
      AsksInTurn(rest, sweep, 0);
    }
  }

  /** What a teardown does, effect by effect: new ids are written first, then a listed application is
      removed; after a failed removal nothing more, and otherwise the sweep. */
  lemma TeardownDoes(recorded: seq<string>, listed: seq<string>, removal: Removal, sweep: string -> Sweep)
    ensures var (_, after, es) := Teardown(recorded, listed, removal, sweep);
      var all := Distinct(recorded + listed);
      var p := if |all| > |recorded| then 1 else 0;
      var q := p + if listed != [] then 1 else 0;
      && after == (if p == 1 then all else recorded) && |es| >= q
      && (p == 1 ==> es[0] == Persist(all))
      && (listed != [] ==> es[p] == Remove(removal.took))
      && if listed != [] && removal.failure.Some? then |es| == q else es[q..] == Asks(all, sweep)
  {
  }

  // ------------------------------------------------------- what is durable, when

  /** The ids on disk after some effects. */
  function Durable(ids: seq<string>, effects: seq<Effect>): seq<string>
    decreases |effects|
  {
    if effects == [] then ids
    else Durable(if effects[0].Persist? then effects[0].ids else ids, effects[1..])
  }

  /** Every id an application is removed under was on disk before the removal. */
  ghost predicate RemovedWereDurable(ids: seq<string>, effects: seq<Effect>) {
    forall k :: 0 <= k < |effects| && effects[k].Remove? ==>
      forall x :: x in effects[k].took ==> x in Durable(ids, effects[..k])
  }

  /** One teardown or one recording, its process dying after `cut` of its effects. */
  datatype Run =
    | TearsDown(listed: seq<string>, removal: Removal, sweep: string -> Sweep, cut: nat)
    | Records(listed: seq<string>, cut: nat)

  /** What a recording does: the ids written when there are new ones. */
  function Recorded(ids: seq<string>, listed: seq<string>): seq<Effect> {
    if Learnt(ids, listed) == [] then [] else [Persist(ids + Learnt(ids, listed))]
  }

  function All(ids: seq<string>, r: Run): seq<Effect> {
    match r
    case TearsDown(listed, removal, sweep, _) => Teardown(ids, listed, removal, sweep).2
    case Records(listed, _) => Recorded(ids, listed)
  }

  function Done(ids: seq<string>, r: Run): seq<Effect> {
    var all := All(ids, r);
    if r.cut < |all| then all[..r.cut] else all
  }

  /** A run, and the ids on disk when the next one starts from them. */
  function DurableAfter(ids: seq<string>, runs: seq<Run>): seq<string>
    decreases |runs|
  {
    if runs == [] then ids else DurableAfter(Durable(ids, Done(ids, runs[0])), runs[1..])
  }

  /** The run lives to its removal. */
  predicate Removes(ids: seq<string>, r: Run) {
    r.TearsDown? && r.listed != [] && r.cut > if |Distinct(ids + r.listed)| > |ids| then 1 else 0
  }

  /** What a removal deletes on its own listing is recorded or was listed just before. */
  predicate RemovesKnown(ids: seq<string>, r: Run) {
    Removes(ids, r) ==> forall x :: x in r.removal.took ==> x in ids || x in r.listed
  }

  /** A run from ids without repeats: its removal takes only what is on disk exactly when its own
      listing shows nothing the teardown's did not. */
  lemma RunIsDurable(ids: seq<string>, r: Run)
    requires NoRepeats(ids)
    ensures RemovedWereDurable(ids, Done(ids, r)) <==> RemovesKnown(ids, r)
    ensures ids <= Durable(ids, Done(ids, r))
    ensures r.TearsDown? || NoRepeats(r.listed) ==> NoRepeats(Durable(ids, Done(ids, r)))
  {
    RunGrows(ids, r);
    OnlyAsksLater(ids, r);
    var done := Done(ids, r);
    if Removes(ids, r) {
      RemovalIsDurable(ids, r);
    }
  }

  /** The ids a teardown starts from, and all it will know. */
  lemma KnownIds(ids: seq<string>, listed: seq<string>)
    requires NoRepeats(ids)
    ensures var all := Distinct(ids + listed);
      && NoRepeats(all) && ids <= all
      && (forall x :: x in all <==> x in ids || x in listed)
      && (|all| > |ids| || all == ids)
  {
    DistinctKeepsAll(ids + listed);
    DistinctKeepsAll(ids);
    DistinctConcat(ids, listed);
  }

  lemma RunGrows(ids: seq<string>, r: Run)
    requires NoRepeats(ids)
    ensures ids <= Durable(ids, Done(ids, r))
    ensures r.TearsDown? || NoRepeats(r.listed) ==> NoRepeats(Durable(ids, Done(ids, r)))
  {
    var effects, done := All(ids, r), Done(ids, r);
    OnlyAsksLater(ids, r);
    DurableOfPrefix(ids, effects, |done|);
    assert done == effects[..|done|];
    if r.TearsDown? {
      KnownIds(ids, r.listed);
    } else {
      RecordingKeepsNoRepeats(ids, r.listed);
    }
  }

  lemma RemovalIsDurable(ids: seq<string>, r: Run)
    requires NoRepeats(ids) && Removes(ids, r)
    ensures RemovedWereDurable(ids, Done(ids, r)) <==> forall x :: x in r.removal.took ==> x in ids || x in r.listed
  {
    var all := Distinct(ids + r.listed);
    var effects, done := All(ids, r), Done(ids, r);
    var k := if |all| > |ids| then 1 else 0;
    KnownIds(ids, r.listed);
    OnlyAsksLater(ids, r);
    assert done[k] == effects[k] == Remove(r.removal.took);
    assert done[..k] == if |all| > |ids| then [Persist(all)] else [];
    assert Durable(ids, done[..k]) == all;
    assert forall j :: 0 <= j < |done| && done[j].Remove? ==> j == k;
  }

  /** What a run persists comes first, a removal right after, and nothing else persists or removes. */
  lemma OnlyAsksLater(ids: seq<string>, r: Run)
    ensures var known, effects := if r.TearsDown? then Distinct(ids + r.listed) else ids + Learnt(ids, r.listed), All(ids, r);
      var persisted: seq<Effect> := if |known| > |ids| then [Persist(known)] else [];
      && persisted <= effects
      && (forall k :: 0 <= k < |effects| && effects[k].Persist? ==> k < |persisted|)
      && (r.TearsDown? && r.listed != [] ==> |effects| > |persisted| && effects[|persisted|] == Remove(r.removal.took))
      && (forall k :: 0 <= k < |effects| && effects[k].Remove? ==> r.TearsDown? && r.listed != [] && k == |persisted|)
  {
    if r.TearsDown? {
      AsksOnlyAsk(Distinct(ids + r.listed), r.sweep);
    }
  }

  lemma {:induction false} AsksOnlyAsk(ids: seq<string>, sweep: string -> Sweep)
    ensures forall k :: 0 <= k < |Asks(ids, sweep)| ==> Asks(ids, sweep)[k].Ask?
  {
    if ids != [] { AsksOnlyAsk(ids[1..], sweep); }
  }

  /** What a prefix leaves on disk: the first effect's ids if it persists, the old ones otherwise. */
  lemma {:induction false} DurableOfPrefix(ids: seq<string>, effects: seq<Effect>, n: nat)
    requires n <= |effects| && forall k :: 0 <= k < |effects| && effects[k].Persist? ==> k == 0
    ensures Durable(ids, effects[..n]) == if n > 0 && effects[0].Persist? then effects[0].ids else ids
  {
    if n > 0 {
      assert effects[..n][1..] == effects[1..n];
      NothingPersists(if effects[0].Persist? then effects[0].ids else ids, effects[1..n]);
    }
  }

  lemma {:induction false} NothingPersists(ids: seq<string>, effects: seq<Effect>)
    requires forall k :: 0 <= k < |effects| ==> !effects[k].Persist?
    ensures Durable(ids, effects) == ids
  {
    if effects != [] { NothingPersists(ids, effects[1..]); }
  }

  lemma FirstRun(ids: seq<string>, runs: seq<Run>, n: nat)
    requires 0 < n <= |runs|
    ensures DurableAfter(ids, runs[..n]) == DurableAfter(Durable(ids, Done(ids, runs[0])), runs[1..][..n - 1])
  {
    assert runs[..n][0] == runs[0] && runs[..n][1..] == runs[1..][..n - 1];
  }

  /** Over any teardowns and recordings, crashes and refused sweeps, from ids without repeats and
      with listings that name no id twice: no id once on disk is ever lost, and every run removes
      only what was durable before exactly when its removal's own listing shows nothing new. */
  lemma {:induction false} RemovedWereAlwaysDurable(ids: seq<string>, runs: seq<Run>, n: nat)
    requires NoRepeats(ids) && n < |runs|
    requires forall i :: 0 <= i < n && runs[i].Records? ==> NoRepeats(runs[i].listed)
    ensures var now := DurableAfter(ids, runs[..n]);
      && NoRepeats(now) && ids <= now
      && (RemovedWereDurable(now, Done(now, runs[n])) <==> RemovesKnown(now, runs[n]))
    decreases n
  {
    RunIsDurable(ids, runs[0]);
    if n > 0 {
      var next := Durable(ids, Done(ids, runs[0]));
      RemovedWereAlwaysDurable(next, runs[1..], n - 1);
      FirstRun(ids, runs, n);
    }
  }

  lemma {:induction false} LearntIsNew(ids: seq<string>, listed: seq<string>)
    ensures forall x :: x in Learnt(ids, listed) <==> x in listed && x !in ids
    ensures NoRepeats(listed) ==> NoRepeats(Learnt(ids, listed))
    decreases |listed|
  {
    if listed != [] {
      var init, last := listed[..|listed| - 1], listed[|listed| - 1];
      LearntIsNew(ids, init);
      assert listed == init + [last];
      NoRepeatsSnoc(init, last);
      NoRepeatsSnoc(Learnt(ids, init), last);
    }
  }

  /** Recording misses no listed id, and keeps the entry free of repeats exactly when the listing
      names no new id twice: only what the entry already had is left out. */
  lemma RecordingKeepsNoRepeats(ids: seq<string>, listed: seq<string>)
    requires NoRepeats(ids)
    ensures forall x :: x in ids || x in listed ==> x in ids + Learnt(ids, listed)
    ensures NoRepeats(ids + Learnt(ids, listed)) <==> NoRepeats(Learnt(ids, listed))
    ensures NoRepeats(listed) ==> NoRepeats(ids + Learnt(ids, listed))
  {
    var learnt := Learnt(ids, listed);
    var all := ids + learnt;
    LearntIsNew(ids, listed);
    if NoRepeats(all) {
      forall i, j | 0 <= i < j < |learnt| ensures learnt[i] != learnt[j] {
        assert all[|ids| + i] != all[|ids| + j];
      }
    }
    if NoRepeats(learnt) {
      forall i, j | 0 <= i < j < |all| ensures all[i] != all[j] {
        if i < |ids| <= j { assert all[j] in learnt; }
      }
    }
  }

  /** Longer than every id of `ids`, so none of them. */
  function Unlisted(ids: seq<string>): (x: string)
    ensures x !in ids
    ensures forall i :: 0 <= i < |ids| ==> |ids[i]| < |x|
  {
    if ids == [] then "x" else Unlisted(ids[1..]) + ids[0]
  }

  /** Ids without repeats are exactly what makes every removal of listed ids durable first: with a
      repeat, the count of ids hides a newly listed one. */
  lemma DurableIffNoRepeats(ids: seq<string>)
    ensures NoRepeats(ids) <==> forall r :: RemovesKnown(ids, r) ==> RemovedWereDurable(ids, Done(ids, r))
  {
    if NoRepeats(ids) {
      forall r | RemovesKnown(ids, r) ensures RemovedWereDurable(ids, Done(ids, r)) { RunIsDurable(ids, r); }
    } else {
      var x := Unlisted(ids);
      var r := TearsDown([x], Removal([x], None), _ => Swept(0), 2);
      DistinctKeepsAll(ids);
      DistinctSnoc(ids, x);
      assert |Distinct(ids + [x])| == |Distinct(ids)| + 1 <= |ids|;
      var done := Done(ids, r);
      assert done[0] == Remove([x]);
      assert done[..0] == [] && x in [x];
      assert RemovesKnown(ids, r) && !RemovedWereDurable(ids, done);
    }
  }

  /** A teardown answers that it deleted something exactly when there was something to delete, the
      removal did not fail, and every id recorded or listed was swept with nothing left; it answers
      absent exactly when nothing was recorded or listed. */
  lemma OkMeansNothingLeft(recorded: seq<string>, listed: seq<string>, removal: Removal, sweep: string -> Sweep)
    ensures var t := Teardown(recorded, listed, removal, sweep);
      && (t.0 == Cleared(false) <==>
            recorded + listed != [] && (listed == [] || removal.failure.None?)
            && forall x :: x in recorded || x in listed ==> sweep(x) == Swept(0) && Ask(x, Swept(0)) in t.2)
      && (t.0 == Cleared(true) <==> recorded == [] && listed == [])
  {
    var ids := Distinct(recorded + listed);
    DistinctKeepsAll(recorded + listed);
    if recorded != [] { assert recorded[0] in recorded + listed; }
    if listed != [] { assert listed[0] in recorded + listed; }
    if recorded + listed != [] { assert (recorded + listed)[0] in ids; }
    if AllSwept(ids, sweep) {
      SweptAreAsked(ids, sweep);
      forall x | x in recorded || x in listed ensures sweep(x) == Swept(0) && Ask(x, Swept(0)) in Asks(ids, sweep) {
        assert x in recorded + listed;
        assert x in ids;
        var i :| 0 <= i < |ids| && ids[i] == x;
        assert sweep(ids[i]) == Swept(0);
      }
    } else {
      var i :| 0 <= i < |ids| && sweep(ids[i]) != Swept(0);
      assert ids[i] in recorded + listed;
    }
  }

  lemma {:induction false} SweptAreAsked(ids: seq<string>, sweep: string -> Sweep)
    requires AllSwept(ids, sweep)
    ensures forall x :: x in ids ==> Ask(x, Swept(0)) in Asks(ids, sweep)
  {
    if ids != [] {
      assert AllSwept(ids[1..], sweep);
      SweptAreAsked(ids[1..], sweep);
      assert ids == [ids[0]] + ids[1..];
    }
  }

  // -------------------------------------------------- durable state behind a Worker

  const BOX_PREFIX := "ab-snapshot-chain-"
  const WORKER_PREFIX := "kinu-devbox-bench-"
  const ARM := "-snapshot-chain"

  function WorkerName(runId: string): string { WORKER_PREFIX + runId + ARM }

  function BoxName(runId: string): string { BOX_PREFIX + runId }

  /** The Worker that serves a box, read off the box's name alone. */
  function WorkerServingBox(box: string): Option<string> {
    if |box| < |BOX_PREFIX| || box[..|BOX_PREFIX|] != BOX_PREFIX then None
    else
      var runId := box[|BOX_PREFIX|..];
      if runId == "" || BoxName(runId) != box then None else Some(WorkerName(runId))
  }

  /** The names some run gives its boxes, and no others, are read back to that run's Worker. */
  lemma BoxNameReadsBack(box: string, runId: string)
    ensures WorkerServingBox(BoxName(runId)) == if runId == "" then None else Some(WorkerName(runId))
    ensures WorkerServingBox(box).Some? ==> exists r :: r != "" && box == BoxName(r) && WorkerServingBox(box) == Some(WorkerName(r))
  {
    assert BoxName(runId)[..|BOX_PREFIX|] == BOX_PREFIX && BoxName(runId)[|BOX_PREFIX|..] == runId;
    if WorkerServingBox(box).Some? {
      var r := box[|BOX_PREFIX|..];
      assert r != "" && box == BoxName(r);
    }
  }

  /** An entry of a recovered manifest and, for a Worker, whether its deletion goes through. */
  datatype Orphan = Worker(name: string, deletes: bool) | BoxState(box: string)

  function OrphanStep(deleted: set<string>, o: Orphan): (bool, set<string>) {
    match o
    case Worker(name, deletes) => (deletes, if deletes then deleted + {name} else deleted)
    case BoxState(box) => (WorkerServingBox(box).Some? && WorkerServingBox(box).value in deleted, deleted)
  }

  function DeletedAfter(orphans: seq<Orphan>): set<string> {
    if orphans == [] then {} else OrphanStep(DeletedAfter(orphans[..|orphans| - 1]), orphans[|orphans| - 1]).1
  }

  lemma {:induction false} DeletedEarlier(orphans: seq<Orphan>, name: string)
    ensures name in DeletedAfter(orphans) <==> Worker(name, true) in orphans
  {
    if orphans != [] {
      var init := orphans[..|orphans| - 1];
      DeletedEarlier(init, name);
      assert orphans == init + [orphans[|orphans| - 1]];
    }
  }

  /** Durable state is reported deleted exactly when the Worker of the run that named the box was
      deleted earlier in the same recovery. */
  lemma StateOnlyAfterWorker(earlier: seq<Orphan>, box: string)
    ensures OrphanStep(DeletedAfter(earlier), BoxState(box)).0
       <==> exists runId :: runId != "" && box == BoxName(runId) && Worker(WorkerName(runId), true) in earlier
  {
    BoxNameReadsBack(box, "");
    forall runId | runId != "" && box == BoxName(runId) ensures WorkerServingBox(box) == Some(WorkerName(runId)) {
      BoxNameReadsBack(box, runId);
    }
    if WorkerServingBox(box).Some? {
      DeletedEarlier(earlier, WorkerServingBox(box).value);
    }
  }
}
