/**
 * Durable teardown of a benchmark run (scripts/bench-teardown.ts): a manifest on disk names
 * every resource, is replayed entry by entry, and is recovered by a later driver.
 */
module BenchTeardown {
  import opened Lists
  import opened Wrappers

  type RunId = string

  /** One process across time: boot, pid and start time. */
  type Owner = nat

  datatype Resource = Resource(kind: string, name: string)

  datatype Entry = Entry(resource: Resource, done: bool, attempts: nat, lastError: Option<string>)

  datatype Manifest = Manifest(runId: RunId, owner: Option<Owner>, entries: seq<Entry>, kept: bool)

  /** A manifest file, which another program may have left undecodable. */
  datatype File = Readable(manifest: Manifest) | Unreadable

  type Disk = map<RunId, File>

  /** What one deletion reports; a step that throws reports its error. */
  datatype Outcome = Deleted | Failed(error: string)

  function Planned(resources: seq<Resource>): seq<Entry> {
    seq(|resources|, i requires 0 <= i < |resources| => Entry(resources[i], false, 0, None))
  }

  predicate HasPending(m: Manifest) {
    exists i :: 0 <= i < |m.entries| && !m.entries[i].done
  }

  // ------------------------------------------------------------------- writing

  /** Another process that still runs holds the run id. */
  predicate HeldByAnother(disk: Disk, m: Manifest, alive: set<Owner>) {
    && m.runId in disk && disk[m.runId].Readable?
    && var holder := disk[m.runId].manifest.owner;
    && holder.Some? && holder != m.owner && holder.value in alive
  }

  /** A manifest is written by linking it at a free path, or by renaming it over its own. */
  function Written(disk: Disk, m: Manifest, alive: set<Owner>): (bool, Disk) {
    if m.runId !in disk then (true, disk[m.runId := Readable(m)])
    else if disk[m.runId].Unreadable? || HeldByAnother(disk, m, alive) then (false, disk)
    else (true, disk[m.runId := Readable(m)])
  }

  // ------------------------------------------------------------------- replaying

  function AfterStep(e: Entry, o: Outcome): Entry {
    match o
    case Deleted => e.(attempts := e.attempts + 1, done := true, lastError := None)
    case Failed(error) => e.(attempts := e.attempts + 1, lastError := Some(error))
  }

  /** Where a replay stands: the disk, the manifest in memory, the entries executed and
      failed, and whether every write so far went through. */
  datatype Replay = Replay(disk: Disk, manifest: Manifest, executed: seq<nat>, failures: seq<nat>, going: bool)

  function ReplayEntry(r: Replay, i: nat, o: Outcome, alive: set<Owner>): Replay
    requires i < |r.manifest.entries|
  {
    if !r.going || r.manifest.entries[i].done then r
    else
      var m := r.manifest.(entries := r.manifest.entries[i := AfterStep(r.manifest.entries[i], o)]);
      var (written, disk) := Written(r.disk, m, alive);
      Replay(disk, m, r.executed + [i], if o.Failed? then r.failures + [i] else r.failures, written)
  }

  function ReplayFrom(r: Replay, i: nat, outcomes: seq<Outcome>, alive: set<Owner>): Replay
    requires i <= |r.manifest.entries| == |outcomes|
    decreases |outcomes| - i
  {
    if i == |outcomes| then r else ReplayFrom(ReplayEntry(r, i, outcomes[i], alive), i + 1, outcomes, alive)
  }

  function Replayed(disk: Disk, m: Manifest, outcomes: seq<Outcome>, alive: set<Owner>): Replay
    requires |m.entries| == |outcomes|
  {
    ReplayFrom(Replay(disk, m, [], [], true), 0, outcomes, alive)
  }

  // ------------------------------------------------------------------- scanning

  datatype Standing = Settled | Undecodable | InFlight | Abandoned

  /** What a startup scan makes of one manifest file. */
  function StandingOf(disk: Disk, run: RunId, exclude: RunId, alive: set<Owner>): Standing
    requires run in disk
  {
    if run == exclude then Settled
    else if disk[run].Unreadable? then Undecodable
    else
      var m := disk[run].manifest;
      if !HasPending(m) then Settled
      else if m.owner.Some? && m.owner.value in alive then InFlight
      else Abandoned
  }

  /** The runs of one standing, in listing order. */
  function OfStanding(disk: Disk, listing: seq<RunId>, exclude: RunId, alive: set<Owner>, standing: Standing): seq<RunId>
    requires forall i :: 0 <= i < |listing| ==> listing[i] in disk
  {
    if listing == [] then []
    else
      var last := listing[|listing| - 1];
      OfStanding(disk, listing[..|listing| - 1], exclude, alive, standing)
      + if StandingOf(disk, last, exclude, alive) == standing then [last] else []
  }

  /** One deletion attempted during a recovery. */
  datatype Attempt = Attempt(run: RunId, entry: nat)

  /** A recovery under way: the disk, the deletions attempted, and whether every write went through. */
  datatype Recovery = Recovery(disk: Disk, attempts: seq<Attempt>, going: bool)

  /** What the deletions of one run report, and what was attempted of it. */
  function Reports(m: Manifest, run: RunId, outcomes: (RunId, nat) -> Outcome): seq<Outcome> {
    seq(|m.entries|, i requires 0 <= i < |m.entries| => outcomes(run, i))
  }

  function Attempts(run: RunId, entries: seq<nat>): seq<Attempt> {
    seq(|entries|, i requires 0 <= i < |entries| => Attempt(run, entries[i]))
  }

  function RecoverRun(r: Recovery, found: Disk, run: RunId, outcomes: (RunId, nat) -> Outcome, alive: set<Owner>): Recovery
    requires run in found && found[run].Readable?
  {
    var m := found[run].manifest;
    if !r.going || m.kept then r
    else
      var end := Replayed(r.disk, m, Reports(m, run, outcomes), alive);
      Recovery(end.disk, r.attempts + Attempts(run, end.executed), end.going)
  }

  function RecoverRuns(start: Disk, runs: seq<RunId>, outcomes: (RunId, nat) -> Outcome, alive: set<Owner>): Recovery
    requires forall i :: 0 <= i < |runs| ==> runs[i] in start && start[runs[i]].Readable?
  {
    if runs == [] then Recovery(start, [], true)
    else
      RecoverRun(RecoverRuns(start, runs[..|runs| - 1], outcomes, alive), start, runs[|runs| - 1], outcomes, alive)
  }

  /** Everything a recovery owes: each pending entry of each run nobody asked to keep, in order. */
  function Due(found: Disk, runs: seq<RunId>): seq<Attempt>
    requires forall i :: 0 <= i < |runs| ==> runs[i] in found && found[runs[i]].Readable?
  {
    if runs == [] then []
    else
      var last := runs[|runs| - 1];
      Due(found, runs[..|runs| - 1]) + if found[last].manifest.kept then [] else Attempts(last, PendingFrom(found[last].manifest, 0))
  }

  /** The manifest directory, changed by every write. */
  class Manifests {
    var disk: Disk

    constructor (disk: Disk)
      ensures this.disk == disk
    {
      this.disk := disk;
    }

    method Write(m: Manifest, alive: set<Owner>) returns (written: bool)
      modifies this
      ensures (written, disk) == Written(old(disk), m, alive)
      ensures m.runId !in old(disk) ==> written
      ensures m.runId in old(disk) && old(disk)[m.runId].Unreadable? ==> !written
      ensures m.runId in old(disk) && old(disk)[m.runId].Readable? ==> var holder := old(disk)[m.runId].manifest.owner;
        written == (holder == m.owner || holder.None? || holder.value !in alive)
      ensures disk == if written then old(disk)[m.runId := Readable(m)] else old(disk)
    {
      if m.runId !in disk {
        disk := disk[m.runId := Readable(m)];
        return true;
      }
      if disk[m.runId].Unreadable? {
        return false;
      }
      var holder := disk[m.runId].manifest.owner;
      if holder.Some? && holder != m.owner && holder.value in alive {
        return false;
      }
      disk := disk[m.runId := Readable(m)];
      return true;
    }

    /** Replay every unfinished entry, each status written before the next step. */
    method ReplayTeardown(m: Manifest, outcomes: seq<Outcome>, alive: set<Owner>)
      returns (after: Manifest, executed: seq<nat>, failures: seq<nat>, finished: bool)
      requires |outcomes| == |m.entries|
      modifies this
      ensures Replay(disk, after, executed, failures, finished) == Replayed(old(disk), m, outcomes, alive)
    {
      after, executed, failures, finished := m, [], [], true;
      for i := 0 to |outcomes|
        invariant finished && |after.entries| == |outcomes|
        invariant ReplayFrom(Replay(disk, after, executed, failures, true), i, outcomes, alive)
               == Replayed(old(disk), m, outcomes, alive)
      {
        ghost var before := Replay(disk, after, executed, failures, true);
        if after.entries[i].done {
          continue;
        }
        var o := outcomes[i];
        executed := executed + [i];
        after := after.(entries := after.entries[i := AfterStep(after.entries[i], o)]);
        if o.Failed? {
          failures := failures + [i];
        }
        finished := Write(after, alive);
        assert Replay(disk, after, executed, failures, finished) == ReplayEntry(before, i, o, alive);
        if !finished {
          StoppedStays(Replay(disk, after, executed, failures, false), i + 1, outcomes, alive);
          return;
        }
      }
    }

    method ScanUnfinished(listing: seq<RunId>, exclude: RunId, alive: set<Owner>)
      returns (unfinished: seq<RunId>, inFlight: seq<RunId>, unreadable: seq<RunId>)
      requires forall i :: 0 <= i < |listing| ==> listing[i] in disk
      ensures unfinished == OfStanding(disk, listing, exclude, alive, Abandoned)
      ensures inFlight == OfStanding(disk, listing, exclude, alive, InFlight)
      ensures unreadable == OfStanding(disk, listing, exclude, alive, Undecodable)
      ensures forall run :: multiset(unfinished)[run] ==
                if run in disk && run != exclude && disk[run].Readable?
                   && (exists k :: 0 <= k < |disk[run].manifest.entries| && !disk[run].manifest.entries[k].done)
                   && (disk[run].manifest.owner.None? || disk[run].manifest.owner.value !in alive)
                then multiset(listing)[run] else 0
      ensures forall run :: multiset(inFlight)[run] ==
                if run in disk && run != exclude && disk[run].Readable?
                   && (exists k :: 0 <= k < |disk[run].manifest.entries| && !disk[run].manifest.entries[k].done)
                   && disk[run].manifest.owner.Some? && disk[run].manifest.owner.value in alive
                then multiset(listing)[run] else 0
      ensures forall run :: multiset(unreadable)[run] ==
                if run in disk && run != exclude && disk[run].Unreadable? then multiset(listing)[run] else 0
    {
      unfinished, inFlight, unreadable := [], [], [];
      for i := 0 to |listing|
        invariant unfinished == OfStanding(disk, listing[..i], exclude, alive, Abandoned)
        invariant inFlight == OfStanding(disk, listing[..i], exclude, alive, InFlight)
        invariant unreadable == OfStanding(disk, listing[..i], exclude, alive, Undecodable)
      {
        var run := listing[i];
        assert listing[..i + 1][..i] == listing[..i];
        if run == exclude {
          continue;
        }
        if disk[run].Unreadable? {
          unreadable := unreadable + [run];
          continue;
        }
        var m := disk[run].manifest;
        if forall k :: 0 <= k < |m.entries| ==> m.entries[k].done {
          continue;
        }
        if m.owner.Some? && m.owner.value in alive {
          inFlight := inFlight + [run];
        } else {
          unfinished := unfinished + [run];
        }
      }
      assert listing[..|listing|] == listing;
      forall run { ScanCounts(disk, listing, exclude, alive, run); }
    }

    /** Replay each run not kept, until a write is refused. */
    method ReplayEach(unfinished: seq<RunId>, outcomes: (RunId, nat) -> Outcome, alive: set<Owner>)
      returns (attempts: seq<Attempt>, finished: bool)
      requires forall i :: 0 <= i < |unfinished| ==> unfinished[i] in disk && disk[unfinished[i]].Readable?
      modifies this
      ensures Recovery(disk, attempts, finished) == RecoverRuns(old(disk), unfinished, outcomes, alive)
    {
      ghost var start := disk;
      attempts, finished := [], true;
      var found := disk;
      for n := 0 to |unfinished|
        invariant finished
        invariant Recovery(disk, attempts, finished) == RecoverRuns(start, unfinished[..n], outcomes, alive)
      {
        var run := unfinished[n];
        assert unfinished[..n + 1][..n] == unfinished[..n];
        var m := found[run].manifest;
        if m.kept {
          continue;
        }
        var _, executed, _, went := ReplayTeardown(m, Reports(m, run, outcomes), alive);
        attempts := attempts + Attempts(run, executed);
        if !went {
          finished := false;
          StoppedRecovery(start, unfinished, n + 1, outcomes, alive);
          return;
        }
      }
      assert unfinished[..|unfinished|] == unfinished;
    }

    /** Replay every abandoned run nobody asked to keep. `outcomes(run, entry)` is what the
        deletion of that entry reports. Only what is due is attempted, in order, and all of it
        unless a write was refused: each entry not done of a listed run that is not excluded, not
        kept, and not a running process's. */
    method RecoverAbandonedRuns(listing: seq<RunId>, exclude: RunId, outcomes: (RunId, nat) -> Outcome, alive: set<Owner>)
      returns (attempts: seq<Attempt>, finished: bool)
      requires forall i :: 0 <= i < |listing| ==> listing[i] in disk
      modifies this
      ensures var abandoned := OfStanding(old(disk), listing, exclude, alive, Abandoned);
        && (forall i :: 0 <= i < |abandoned| ==> abandoned[i] in old(disk) && old(disk)[abandoned[i]].Readable?)
        && Recovery(disk, attempts, finished) == RecoverRuns(old(disk), abandoned, outcomes, alive)
        && attempts <= Due(old(disk), abandoned) && (finished ==> attempts == Due(old(disk), abandoned))
      ensures forall a :: a in attempts ==>
                && a.run in listing && a.run != exclude && old(disk)[a.run].Readable?
                && var m := old(disk)[a.run].manifest;
                !m.kept && (m.owner.None? || m.owner.value !in alive) && a.entry < |m.entries| && !m.entries[a.entry].done
      ensures finished ==> forall run, k :: run in listing && run != exclude && old(disk)[run].Readable? ==>
                var m := old(disk)[run].manifest;
                !m.kept && (m.owner.None? || m.owner.value !in alive) && 0 <= k < |m.entries| && !m.entries[k].done ==>
                Attempt(run, k) in attempts
      ensures NoRepeats(listing) ==>
                forall i, j :: 0 <= i < j < |attempts| && attempts[i].run == attempts[j].run ==> attempts[i].entry < attempts[j].entry
      ensures forall run :: run in old(disk) ==> run in disk
    {
      var unfinished, inFlight, unreadable := ScanUnfinished(listing, exclude, alive);
      StandingListed(disk, listing, exclude, alive, Abandoned);
      forall i | 0 <= i < |unfinished| ensures unfinished[i] in disk && disk[unfinished[i]].Readable? {
        assert unfinished[i] in unfinished;
      }
      AttemptsAre(disk, listing, exclude, alive, unfinished, outcomes);
      attempts, finished := ReplayEach(unfinished, outcomes, alive);
    }
  }

  // ------------------------------------------------------ what a recovery attempts

  /** A replay executes pending entries in order, and all of them unless a write is refused. */
  lemma {:induction false} ReplayFromPrefix(r: Replay, i: nat, outcomes: seq<Outcome>, alive: set<Owner>)
    requires i <= |r.manifest.entries| == |outcomes|
    ensures var end := ReplayFrom(r, i, outcomes, alive);
      && end.executed <= r.executed + PendingFrom(r.manifest, i)
      && (end.going ==> r.going && end.executed == r.executed + PendingFrom(r.manifest, i))
    decreases |outcomes| - i
  {
    if i == |outcomes| {
      assert r.executed + [] == r.executed;
    } else if !r.going {
      StoppedStays(r, i, outcomes, alive);
    } else {
      var next := ReplayEntry(r, i, outcomes[i], alive);
      ReplayFromPrefix(next, i + 1, outcomes, alive);
      PendingOn(r.executed, r.manifest, next.manifest, i);
    }
  }

  /** Whatever the deletions report, a recovery attempts what is due, in order, and all of it when
      every write went through. */
  lemma {:induction false} RecoveryIsDue(start: Disk, runs: seq<RunId>, outcomes: (RunId, nat) -> Outcome, alive: set<Owner>)
    requires forall i :: 0 <= i < |runs| ==> runs[i] in start && start[runs[i]].Readable?
    ensures var r := RecoverRuns(start, runs, outcomes, alive);
      && r.attempts <= Due(start, runs) && (r.going ==> r.attempts == Due(start, runs))
      && (forall run :: run in start ==> run in r.disk)
    decreases |runs|
  {
    if runs != [] {
      var init, last := runs[..|runs| - 1], runs[|runs| - 1];
      RecoveryIsDue(start, init, outcomes, alive);
      var r, m := RecoverRuns(start, init, outcomes, alive), start[last].manifest;
      if r.going && !m.kept {
        var reports := Reports(m, last, outcomes);
        ReplayFromPrefix(Replay(r.disk, m, [], [], true), 0, reports, alive);
        ReplayTouches(r.disk, m, reports, alive);
        assert [] + PendingFrom(m, 0) == PendingFrom(m, 0);
      }
    }
  }

  lemma {:induction false} StoppedRecovery(start: Disk, runs: seq<RunId>, n: nat, outcomes: (RunId, nat) -> Outcome, alive: set<Owner>)
    requires forall i :: 0 <= i < |runs| ==> runs[i] in start && start[runs[i]].Readable?
    requires n <= |runs| && !RecoverRuns(start, runs[..n], outcomes, alive).going
    ensures RecoverRuns(start, runs, outcomes, alive) == RecoverRuns(start, runs[..n], outcomes, alive)
    decreases |runs|
  {
    if n == |runs| {
      assert runs[..n] == runs;
    } else {
      var init := runs[..|runs| - 1];
      assert init[..n] == runs[..n];
      StoppedRecovery(start, init, n, outcomes, alive);
    }
  }

  lemma {:induction false} PendingIsPending(m: Manifest, i: nat)
    requires i <= |m.entries|
    ensures forall k: nat :: k in PendingFrom(m, i) <==> i <= k < |m.entries| && !m.entries[k].done
    decreases |m.entries| - i
  {
    if i < |m.entries| { PendingIsPending(m, i + 1); }
  }

  /** What is due is exactly each pending entry of each run listed that nobody asked to keep. */
  lemma {:induction false} DueIsPending(found: Disk, runs: seq<RunId>)
    requires forall i :: 0 <= i < |runs| ==> runs[i] in found && found[runs[i]].Readable?
    ensures forall a :: a in Due(found, runs) <==>
      && a.run in runs && !found[a.run].manifest.kept
      && a.entry < |found[a.run].manifest.entries| && !found[a.run].manifest.entries[a.entry].done
  {
    if runs != [] {
      var init, last := runs[..|runs| - 1], runs[|runs| - 1];
      DueIsPending(found, init);
      assert runs == init + [last];
      PendingIsPending(found[last].manifest, 0);
      var pending := PendingFrom(found[last].manifest, 0);
      forall a ensures a in Attempts(last, pending) <==> a.run == last && a.entry in pending {
        if a.run == last && a.entry in pending {
          var k :| 0 <= k < |pending| && pending[k] == a.entry;
          assert Attempts(last, pending)[k] == a;
        }
      }
    }
  }

  /** What is due is exactly each entry not done of each listed run that is readable, not excluded,
      not kept, and whose owner is nobody or not running; of one run in the order of its entries. */
  lemma DueIsAbandoned(found: Disk, listing: seq<RunId>, exclude: RunId, alive: set<Owner>, runs: seq<RunId>)
    requires forall i :: 0 <= i < |listing| ==> listing[i] in found
    requires runs == OfStanding(found, listing, exclude, alive, Abandoned)
    ensures forall i :: 0 <= i < |runs| ==> runs[i] in found && found[runs[i]].Readable?
    ensures forall a :: a in Due(found, runs) <==>
      && a.run in listing && a.run != exclude && found[a.run].Readable?
      && var m := found[a.run].manifest;
      !m.kept && (m.owner.None? || m.owner.value !in alive) && a.entry < |m.entries| && !m.entries[a.entry].done
    ensures NoRepeats(listing) ==> InEntryOrder(Due(found, runs))
  {
    StandingListed(found, listing, exclude, alive, Abandoned);
    forall run | run in found
      ensures run in runs <==>
        && run in listing && run != exclude && found[run].Readable?
        && (exists k :: 0 <= k < |found[run].manifest.entries| && !found[run].manifest.entries[k].done)
        && (found[run].manifest.owner.None? || found[run].manifest.owner.value !in alive)
    {
      StandingMeans(found, run, exclude, alive);
    }
    forall i | 0 <= i < |runs| ensures runs[i] in found && found[runs[i]].Readable? { assert runs[i] in runs; }
    DueIsPending(found, runs);
    if NoRepeats(listing) {
      StandingOnce(found, listing, exclude, alive, Abandoned);
      DueInOrder(found, runs);
    }
  }

  /** What a recovery attempts, read off the manifests alone. */
  lemma AttemptsAre(found: Disk, listing: seq<RunId>, exclude: RunId, alive: set<Owner>, runs: seq<RunId>,
                    outcomes: (RunId, nat) -> Outcome)
    requires forall i :: 0 <= i < |listing| ==> listing[i] in found
    requires runs == OfStanding(found, listing, exclude, alive, Abandoned)
    requires forall i :: 0 <= i < |runs| ==> runs[i] in found && found[runs[i]].Readable?
    ensures var r := RecoverRuns(found, runs, outcomes, alive);
      && r.attempts <= Due(found, runs) && (r.going ==> r.attempts == Due(found, runs))
      && (forall run :: run in found ==> run in r.disk)
    ensures var attempts := RecoverRuns(found, runs, outcomes, alive).attempts;
      && (forall a :: a in attempts ==>
            && a.run in listing && a.run != exclude && found[a.run].Readable?
            && var m := found[a.run].manifest;
            !m.kept && (m.owner.None? || m.owner.value !in alive) && a.entry < |m.entries| && !m.entries[a.entry].done)
      && (NoRepeats(listing) ==> InEntryOrder(attempts))
    ensures var r := RecoverRuns(found, runs, outcomes, alive);
      r.going ==> forall run, k :: run in listing && run != exclude && found[run].Readable? ==>
        var m := found[run].manifest;
        !m.kept && (m.owner.None? || m.owner.value !in alive) && 0 <= k < |m.entries| && !m.entries[k].done ==>
        Attempt(run, k) in r.attempts
  {
    RecoveryIsDue(found, runs, outcomes, alive);
    DueIsAbandoned(found, listing, exclude, alive, runs);
    var r := RecoverRuns(found, runs, outcomes, alive);
    var due := Due(found, runs);
    assert r.attempts == due[..|r.attempts|];
    forall a | a in r.attempts ensures a in due {}
  }

  /** Attempts of one run go up its entries. */
  ghost predicate InEntryOrder(attempts: seq<Attempt>) {
    forall i, j :: 0 <= i < j < |attempts| && attempts[i].run == attempts[j].run ==> attempts[i].entry < attempts[j].entry
  }

  lemma {:induction false} PendingGoesUp(m: Manifest, i: nat)
    requires i <= |m.entries|
    ensures GoesUp(PendingFrom(m, i))
    decreases |m.entries| - i
  {
    if i < |m.entries| {
      PendingGoesUp(m, i + 1);
      PendingIsPending(m, i + 1);
      var rest := PendingFrom(m, i + 1);
      UpFrom(i, rest);
      assert [] + rest == rest;
    }
  }

  lemma {:induction false} DueInOrder(found: Disk, runs: seq<RunId>)
    requires forall i :: 0 <= i < |runs| ==> runs[i] in found && found[runs[i]].Readable?
    requires NoRepeats(runs)
    ensures InEntryOrder(Due(found, runs))
  {
    if runs != [] {
      var init, last := runs[..|runs| - 1], runs[|runs| - 1];
      assert runs == init + [last];
      NoRepeatsSnoc(init, last);
      DueInOrder(found, init);
      DueIsPending(found, init);
      PendingGoesUp(found[last].manifest, 0);
      forall a | a in Due(found, init) ensures a.run != last {}
      JoinInOrder(Due(found, init), last, PendingFrom(found[last].manifest, 0));
      assert Due(found, init) + [] == Due(found, init);
    }
  }

  lemma JoinInOrder(before: seq<Attempt>, run: RunId, entries: seq<nat>)
    requires InEntryOrder(before) && forall a :: a in before ==> a.run != run
    requires GoesUp(entries)
    ensures InEntryOrder(before + Attempts(run, entries))
  {
    var all := before + Attempts(run, entries);
    forall i, j | 0 <= i < j < |all| && all[i].run == all[j].run ensures all[i].entry < all[j].entry {
      if i < |before| { assert all[i] in before; }
      if j < |before| { assert all[j] in before; }
    }
  }

  lemma {:induction false} StandingOnce(disk: Disk, listing: seq<RunId>, exclude: RunId, alive: set<Owner>, standing: Standing)
    requires forall i :: 0 <= i < |listing| ==> listing[i] in disk
    requires NoRepeats(listing)
    ensures NoRepeats(OfStanding(disk, listing, exclude, alive, standing))
  {
    if listing != [] {
      var init, last := listing[..|listing| - 1], listing[|listing| - 1];
      assert listing == init + [last];
      NoRepeatsSnoc(init, last);
      StandingOnce(disk, init, exclude, alive, standing);
      StandingListed(disk, init, exclude, alive, standing);
      NoRepeatsSnoc(OfStanding(disk, init, exclude, alive, standing), last);
    }
  }

  lemma StandingMeans(disk: Disk, run: RunId, exclude: RunId, alive: set<Owner>)
    requires run in disk
    ensures StandingOf(disk, run, exclude, alive) == Abandoned <==>
      && run != exclude && disk[run].Readable?
      && (exists k :: 0 <= k < |disk[run].manifest.entries| && !disk[run].manifest.entries[k].done)
      && (disk[run].manifest.owner.None? || disk[run].manifest.owner.value !in alive)
    ensures StandingOf(disk, run, exclude, alive) == InFlight <==>
      && run != exclude && disk[run].Readable?
      && (exists k :: 0 <= k < |disk[run].manifest.entries| && !disk[run].manifest.entries[k].done)
      && disk[run].manifest.owner.Some? && disk[run].manifest.owner.value in alive
    ensures StandingOf(disk, run, exclude, alive) == Undecodable <==> run != exclude && disk[run].Unreadable?
  {
  }

  /** What a scan takes for abandoned, in flight and undecodable, read off the manifests alone; each
      run as often as it is listed. */
  lemma ScanCounts(disk: Disk, listing: seq<RunId>, exclude: RunId, alive: set<Owner>, run: RunId)
    requires forall i :: 0 <= i < |listing| ==> listing[i] in disk
    ensures multiset(OfStanding(disk, listing, exclude, alive, Abandoned))[run] ==
              if run in disk && run != exclude && disk[run].Readable?
                 && (exists k :: 0 <= k < |disk[run].manifest.entries| && !disk[run].manifest.entries[k].done)
                 && (disk[run].manifest.owner.None? || disk[run].manifest.owner.value !in alive)
              then multiset(listing)[run] else 0
    ensures multiset(OfStanding(disk, listing, exclude, alive, InFlight))[run] ==
              if run in disk && run != exclude && disk[run].Readable?
                 && (exists k :: 0 <= k < |disk[run].manifest.entries| && !disk[run].manifest.entries[k].done)
                 && disk[run].manifest.owner.Some? && disk[run].manifest.owner.value in alive
              then multiset(listing)[run] else 0
    ensures multiset(OfStanding(disk, listing, exclude, alive, Undecodable))[run] ==
              if run in disk && run != exclude && disk[run].Unreadable? then multiset(listing)[run] else 0
  {
    if run in disk { StandingMeans(disk, run, exclude, alive); }
    StandingCount(disk, listing, exclude, alive, Abandoned, run);
    StandingCount(disk, listing, exclude, alive, InFlight, run);
    StandingCount(disk, listing, exclude, alive, Undecodable, run);
  }

  lemma {:induction false} StandingCount(disk: Disk, listing: seq<RunId>, exclude: RunId, alive: set<Owner>, standing: Standing, run: RunId)
    requires forall i :: 0 <= i < |listing| ==> listing[i] in disk
    ensures multiset(OfStanding(disk, listing, exclude, alive, standing))[run]
         == if run in disk && StandingOf(disk, run, exclude, alive) == standing then multiset(listing)[run] else 0
  {
    if listing != [] {
      var init, last := listing[..|listing| - 1], listing[|listing| - 1];
      StandingCount(disk, init, exclude, alive, standing, run);
      assert listing == init + [last];
    }
  }

  lemma {:induction false} StandingListed(disk: Disk, listing: seq<RunId>, exclude: RunId, alive: set<Owner>, standing: Standing)
    requires forall i :: 0 <= i < |listing| ==> listing[i] in disk
    ensures forall run :: run in OfStanding(disk, listing, exclude, alive, standing)
              <==> run in listing && StandingOf(disk, run, exclude, alive) == standing
  {
    if listing != [] {
      var init := listing[..|listing| - 1];
      StandingListed(disk, init, exclude, alive, standing);
      assert listing == init + [listing[|listing| - 1]];
    }
  }

  lemma {:induction false} StoppedStays(r: Replay, i: nat, outcomes: seq<Outcome>, alive: set<Owner>)
    requires i <= |r.manifest.entries| == |outcomes| && !r.going
    ensures ReplayFrom(r, i, outcomes, alive) == r
    decreases |outcomes| - i
  {
    if i < |outcomes| { StoppedStays(r, i + 1, outcomes, alive); }
  }

  // --------------------------------------------------------- what a replay does

  /** From entry `i` on: what is executed was pending, and only this run's file changes. */
  lemma {:induction false} ReplayFromTouches(r: Replay, i: nat, outcomes: seq<Outcome>, alive: set<Owner>)
    requires i <= |r.manifest.entries| == |outcomes|
    ensures var end := ReplayFrom(r, i, outcomes, alive);
      && |end.manifest.entries| == |outcomes| && end.manifest.runId == r.manifest.runId
      && end.manifest.owner == r.manifest.owner
      && (forall k :: k in end.executed ==> k in r.executed || (i <= k < |outcomes| && !r.manifest.entries[k].done))
      && (forall run :: run in r.disk ==> run in end.disk)
      && (forall run :: run != r.manifest.runId ==> (run in end.disk <==> run in r.disk)
                                                     && (run in r.disk ==> end.disk[run] == r.disk[run]))
    decreases |outcomes| - i
  {
    if i < |outcomes| {
      ReplayFromTouches(ReplayEntry(r, i, outcomes[i], alive), i + 1, outcomes, alive);
    }
  }

  lemma ReplayTouches(disk: Disk, m: Manifest, outcomes: seq<Outcome>, alive: set<Owner>)
    requires |m.entries| == |outcomes|
    ensures var end := Replayed(disk, m, outcomes, alive);
      && (forall k :: k in end.executed ==> k < |m.entries| && !m.entries[k].done)
      && (forall run :: run in disk ==> run in end.disk)
  {
    ReplayFromTouches(Replay(disk, m, [], [], true), 0, outcomes, alive);
  }

  /** The pending entries from `i` on, in order. */
  function PendingFrom(m: Manifest, i: nat): seq<nat>
    requires i <= |m.entries|
    decreases |m.entries| - i
  {
    if i == |m.entries| then [] else (if m.entries[i].done then [] else [i]) + PendingFrom(m, i + 1)
  }

  /** An entry after its replay. */
  function Settle(e: Entry, o: Outcome): Entry { if e.done then e else AfterStep(e, o) }

  lemma EntrySettles(r: Replay, i: nat, o: Outcome, alive: set<Owner>)
    requires i < |r.manifest.entries| && r.going && OnDisk(r.disk, r.manifest)
    ensures var next := ReplayEntry(r, i, o, alive);
      && next.going && OnDisk(next.disk, next.manifest)
      && next.manifest == r.manifest.(entries := r.manifest.entries[i := Settle(r.manifest.entries[i], o)])
      && next.executed == r.executed + (if r.manifest.entries[i].done then [] else [i])
  {
  }

  lemma {:induction false} ReplayFromSettles(r: Replay, i: nat, outcomes: seq<Outcome>, alive: set<Owner>)
    requires i <= |r.manifest.entries| == |outcomes| && r.going && OnDisk(r.disk, r.manifest)
    ensures var end := ReplayFrom(r, i, outcomes, alive);
      && end.going && OnDisk(end.disk, end.manifest)
      && end.manifest.(entries := r.manifest.entries) == r.manifest
      && |end.manifest.entries| == |outcomes|
      && (forall k :: 0 <= k < |outcomes| ==>
            end.manifest.entries[k] == if k < i then r.manifest.entries[k] else Settle(r.manifest.entries[k], outcomes[k]))
    decreases |outcomes| - i
  {
    if i < |outcomes| {
      EntrySettles(r, i, outcomes[i], alive);
      ReplayFromSettles(ReplayEntry(r, i, outcomes[i], alive), i + 1, outcomes, alive);
    }
  }

  lemma {:induction false} ReplayFromExecutes(r: Replay, i: nat, outcomes: seq<Outcome>, alive: set<Owner>)
    requires i <= |r.manifest.entries| == |outcomes| && r.going && OnDisk(r.disk, r.manifest)
    ensures ReplayFrom(r, i, outcomes, alive).executed == r.executed + PendingFrom(r.manifest, i)
    decreases |outcomes| - i
  {
    if i < |outcomes| {
      var next := ReplayEntry(r, i, outcomes[i], alive);
      EntrySettles(r, i, outcomes[i], alive);
      ReplayFromExecutes(next, i + 1, outcomes, alive);
      PendingOn(r.executed, r.manifest, next.manifest, i);
    }
  }

  lemma {:induction false} ReplayFromFails(r: Replay, i: nat, outcomes: seq<Outcome>, alive: set<Owner>)
    requires i <= |r.manifest.entries| == |outcomes| && r.going && OnDisk(r.disk, r.manifest)
    requires GoesUp(r.failures) && forall k :: k in r.failures ==> k < i
    ensures var end := ReplayFrom(r, i, outcomes, alive);
      && GoesUp(end.failures)
      && (forall k: nat :: k in end.failures <==> k in r.failures || (i <= k < |outcomes| && !r.manifest.entries[k].done && outcomes[k].Failed?))
    decreases |outcomes| - i
  {
    if i < |outcomes| {
      var next := ReplayEntry(r, i, outcomes[i], alive);
      EntrySettles(r, i, outcomes[i], alive);
      assert forall k :: i < k < |outcomes| ==> next.manifest.entries[k] == r.manifest.entries[k];
      UpTo(r.failures, i);
      ReplayFromFails(next, i + 1, outcomes, alive);
    }
  }

  /** An entry's turn moves it from pending to executed, if it was pending. */
  lemma PendingOn(executed: seq<nat>, m: Manifest, n: Manifest, i: nat)
    requires i < |m.entries| == |n.entries|
    requires forall k :: i < k < |m.entries| ==> m.entries[k].done == n.entries[k].done
    ensures executed + PendingFrom(m, i)
         == executed + (if m.entries[i].done then [] else [i]) + PendingFrom(n, i + 1)
  {
    SamePending(m, n, i + 1);
    var here: seq<nat> := if m.entries[i].done then [] else [i];
    assert executed + (here + PendingFrom(m, i + 1)) == executed + here + PendingFrom(m, i + 1);
  }

  lemma {:induction false} SamePending(m: Manifest, n: Manifest, i: nat)
    requires i <= |m.entries| == |n.entries|
    requires forall k :: i <= k < |m.entries| ==> m.entries[k].done == n.entries[k].done
    ensures PendingFrom(m, i) == PendingFrom(n, i)
    decreases |m.entries| - i
  {
    if i < |m.entries| { SamePending(m, n, i + 1); }
  }

  /** The manifest in memory is the one on disk. */
  predicate OnDisk(disk: Disk, m: Manifest) {
    m.runId in disk && disk[m.runId] == Readable(m)
  }

  /** A replay of what is on disk executes exactly the pending entries, in order, settles each
      by what its step reported, and leaves the result on disk. */
  lemma ReplayExecutesPending(disk: Disk, m: Manifest, outcomes: seq<Outcome>, alive: set<Owner>)
    requires |m.entries| == |outcomes| && OnDisk(disk, m)
    ensures var end := Replayed(disk, m, outcomes, alive);
      && end.going && end.executed == PendingFrom(m, 0)
      && |end.manifest.entries| == |outcomes|
      && (forall k :: 0 <= k < |outcomes| ==> end.manifest.entries[k] == Settle(m.entries[k], outcomes[k]))
      && end.disk == disk[m.runId := Readable(end.manifest)]
  {
    ReplayFromSettles(Replay(disk, m, [], [], true), 0, outcomes, alive);
    ReplayFromExecutes(Replay(disk, m, [], [], true), 0, outcomes, alive);
    ReplayFromTouches(Replay(disk, m, [], [], true), 0, outcomes, alive);
  }

  lemma SettledReads(e: Entry, o: Outcome)
    ensures var now := Settle(e, o);
      if e.done then now == e
      else
        && now.resource == e.resource && now.attempts == e.attempts + 1
        && (o.Deleted? ==> now.done && now.lastError == None)
        && (o.Failed? ==> !now.done && now.lastError == Some(o.error))
  {
  }

  /** So every entry not done is executed, in order, and no other; those whose step failed are the
      failures, and each entry says what became of it. */
  lemma ReplayLeaves(disk: Disk, m: Manifest, outcomes: seq<Outcome>, alive: set<Owner>)
    requires |m.entries| == |outcomes| && OnDisk(disk, m)
    ensures var end := Replayed(disk, m, outcomes, alive);
      && (forall k: nat :: k in end.executed <==> k < |m.entries| && !m.entries[k].done)
      && (forall k: nat :: k in end.failures <==> k < |m.entries| && !m.entries[k].done && outcomes[k].Failed?)
      && GoesUp(end.executed) && GoesUp(end.failures)
      && |end.manifest.entries| == |m.entries|
      && forall k :: 0 <= k < |m.entries| ==>
           var was, now := m.entries[k], end.manifest.entries[k];
           if was.done then now == was
           else
             && now.resource == was.resource && now.attempts == was.attempts + 1
             && (outcomes[k].Deleted? ==> now.done && now.lastError == None)
             && (outcomes[k].Failed? ==> !now.done && now.lastError == Some(outcomes[k].error))
  {
    ReplayExecutesPending(disk, m, outcomes, alive);
    PendingIsPending(m, 0);
    PendingGoesUp(m, 0);
    ReplayFromFails(Replay(disk, m, [], [], true), 0, outcomes, alive);
    forall k | 0 <= k < |m.entries| { SettledReads(m.entries[k], outcomes[k]); }
  }

  /** Replaying a finished manifest executes nothing and writes nothing. */
  lemma FinishedReplayDoesNothing(disk: Disk, m: Manifest, outcomes: seq<Outcome>, alive: set<Owner>)
    requires |m.entries| == |outcomes| && !HasPending(m)
    ensures Replayed(disk, m, outcomes, alive) == Replay(disk, m, [], [], true)
  {
    DoneFromHere(Replay(disk, m, [], [], true), 0, outcomes, alive);
  }

  lemma {:induction false} DoneFromHere(r: Replay, i: nat, outcomes: seq<Outcome>, alive: set<Owner>)
    requires i <= |r.manifest.entries| == |outcomes|
    requires forall k :: 0 <= k < |r.manifest.entries| ==> r.manifest.entries[k].done
    ensures ReplayFrom(r, i, outcomes, alive) == r
    decreases |outcomes| - i
  {
    if i < |outcomes| { DoneFromHere(r, i + 1, outcomes, alive); }
  }

  /** What is on disk when the driver dies after `n` entries. */
  function CrashedAfter(disk: Disk, m: Manifest, outcomes: seq<Outcome>, alive: set<Owner>, n: nat): Replay
    requires n <= |m.entries| == |outcomes|
    ensures |CrashedAfter(disk, m, outcomes, alive, n).manifest.entries| == |outcomes|
    decreases n
  {
    if n == 0 then Replay(disk, m, [], [], true)
    else ReplayEntry(CrashedAfter(disk, m, outcomes, alive, n - 1), n - 1, outcomes[n - 1], alive)
  }

  lemma {:induction false} CrashSettles(disk: Disk, m: Manifest, outcomes: seq<Outcome>, alive: set<Owner>, n: nat)
    requires n <= |m.entries| == |outcomes| && OnDisk(disk, m)
    ensures var mid := CrashedAfter(disk, m, outcomes, alive, n);
      && mid.going && OnDisk(mid.disk, mid.manifest)
      && mid.manifest.(entries := m.entries) == m
      && (forall k :: 0 <= k < |outcomes| ==>
            mid.manifest.entries[k] == if k < n then Settle(m.entries[k], outcomes[k]) else m.entries[k])
      && (forall run :: run != m.runId ==> (run in mid.disk <==> run in disk) && (run in disk ==> mid.disk[run] == disk[run]))
    decreases n
  {
    if n > 0 { CrashSettles(disk, m, outcomes, alive, n - 1); }
  }

  /** A replay that dies after any entry, and is replayed from what it left on disk, executes no
      entry already deleted and leaves strictly what is still failing. */
  lemma InterruptedReplayResumes(disk: Disk, m: Manifest, first: seq<Outcome>, second: seq<Outcome>,
                                 alive: set<Owner>, later: set<Owner>, n: nat)
    requires n <= |m.entries| == |first| == |second| && OnDisk(disk, m)
    ensures var left := CrashedAfter(disk, m, first, alive, n);
      && OnDisk(left.disk, left.manifest)
      && var end := Replayed(left.disk, left.manifest, second, later);
      && end.going && |end.manifest.entries| == |m.entries|
      && (forall k :: k in end.executed ==> k < |m.entries| && !m.entries[k].done && (k < n ==> first[k].Failed?))
      && (forall k :: 0 <= k < |m.entries| ==>
            (end.manifest.entries[k].done <==> m.entries[k].done || second[k].Deleted? || (k < n && first[k].Deleted?)))
  {
    CrashSettles(disk, m, first, alive, n);
    var left := CrashedAfter(disk, m, first, alive, n);
    ReplayExecutesPending(left.disk, left.manifest, second, later);
    ReplayTouches(left.disk, left.manifest, second, later);
  }
}
