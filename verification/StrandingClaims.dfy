/**
 * What a claim that is not careful can do (scripts/bench-teardown.ts): for each thing a claim must
 * respect, a careful run after it that leaves a resource alive and named nowhere.
 */
module StrandingClaims {
  import opened BenchTeardown
  import opened TeardownRuns
  import opened Wrappers

  // ------------------------------------------------- what a claim replaces

  /** A claim that goes through keeps everything alive named exactly when each resource alive is
      named by the claim or by a pending entry under another run id. */
  lemma ClaimCoversIff(s: State, e: Event)
    requires e.Claim? && Enabled(s, e) && GoesThrough(s, e)
    ensures Covered(After(s, e)) <==>
      forall r :: r in s.live ==> r in e.resources || NamedElsewhere(s, s.drivers[e.who].runId, r)
  {
    var t, run := After(s, e), s.drivers[e.who].runId;
    assert t.disk == s.disk[run := Readable(Claimed(s, e))] && t.live == s.live;
    forall r | r in s.live
      ensures (exists other, i :: NamedOnDisk(t, other, i, r)) <==> r in e.resources || NamedElsewhere(s, run, r)
    {
      ClaimNames(s, t, e, r);
    }
  }

  ghost predicate NamedElsewhere(s: State, run: RunId, r: Resource) {
    exists other, i :: other != run && NamedOnDisk(s, other, i, r)
  }

  lemma ClaimNames(s: State, t: State, e: Event, r: Resource)
    requires e.Claim? && e.who in s.drivers
    requires t.disk == s.disk[s.drivers[e.who].runId := Readable(Claimed(s, e))]
    ensures (exists other, i :: NamedOnDisk(t, other, i, r)) <==> r in e.resources || NamedElsewhere(s, s.drivers[e.who].runId, r)
  {
    var run := s.drivers[e.who].runId;
    if r in e.resources {
      var i :| 0 <= i < |e.resources| && e.resources[i] == r;
      assert NamedOnDisk(t, run, i, r);
    }
    if other, i: nat :| other != run && NamedOnDisk(s, other, i, r) { assert NamedOnDisk(t, other, i, r); }
    if other, i: nat :| NamedOnDisk(t, other, i, r) {
      if other == run {
        assert t.disk[run].manifest.entries == Planned(e.resources);
        assert e.resources[i] == r;
      } else {
        assert NamedOnDisk(s, other, i, r);
      }
    }
  }

  /** So a claim over a manifest whose pending entries alone name a live resource strands it,
      unless the claim names it again. */
  lemma ReusedRunIdAlwaysStrands(s: State, e: Event, i: nat, r: Resource)
    requires e.Claim? && Enabled(s, e) && GoesThrough(s, e)
    requires r in s.live && NamedOnDisk(s, s.drivers[e.who].runId, i, r)
    requires !NamedElsewhere(s, s.drivers[e.who].runId, r) && r !in e.resources
    ensures !Covered(After(s, e))
  {
    ClaimCoversIff(s, e);
  }


  /** A driver still creating under the id strands what only its replaced manifest named. */
  lemma ReplacedCreatorStrands(s: State, e: Event, q: Owner, i: nat)
    requires e.Claim? && Enabled(s, e) && GoesThrough(s, e)
    requires q != e.who && q in s.alive && q in s.drivers && Enabled(s, Create(q, i))
    requires s.drivers[q].runId == s.drivers[e.who].runId
    requires var r := s.drivers[q].own.value.entries[i].resource;
      r !in e.resources && !NamedElsewhere(s, s.drivers[e.who].runId, r)
    ensures Allowed(After(s, e), [Create(q, i)]) && AllCareful(After(s, e), [Create(q, i)])
    ensures !Covered(Ran(After(s, e), [Create(q, i)]))
  {
    var t, c := After(s, e), Create(q, i);
    var r := s.drivers[q].own.value.entries[i].resource;
    assert t.drivers[q] == s.drivers[q];
    CarefulOn(t, c, []);
    Then(t, c, []);
    assert [c] + [] == [c];
    ClaimNames(s, t, e, r);
    assert r in After(t, c).live;
    forall run, j ensures !NamedOnDisk(After(t, c), run, j, r) {
      assert NamedOnDisk(After(t, c), run, j, r) ==> NamedOnDisk(t, run, j, r);
    }
  }

  /** A driver with the replaced manifest in its hands writes it back once the claiming driver has
      died, and what only the claim named is stranded. */
  lemma HeldManifestStrands(s: State, e: Event, p: Owner, k: nat)
    requires e.Claim? && Enabled(s, e) && GoesThrough(s, e) && k < |e.resources|
    requires p != e.who && p in s.alive && p in s.drivers && Enabled(s, Save(p))
    requires var n := s.drivers[p].job.value.manifest;
      n.runId == s.drivers[e.who].runId && !Pending(n, e.resources[k])
    requires !NamedElsewhere(s, s.drivers[e.who].runId, e.resources[k])
    ensures var es := [Create(e.who, k), Crash(e.who), Save(p)];
      Allowed(After(s, e), es) && AllCareful(After(s, e), es) && !Covered(Ran(After(s, e), es))
  {
    var o, r, n := e.who, e.resources[k], s.drivers[p].job.value.manifest;
    var t1 := After(s, e);
    assert t1.drivers[p] == s.drivers[p];
    assert t1.drivers[o].own.value.entries[k].resource == r;
    var t2 := After(t1, Create(o, k));
    var t3 := After(t2, Crash(o));
    assert t3.disk[n.runId] == Readable(Claimed(s, e));
    assert Written(t3.disk, n, t3.alive).0;
    var t4 := After(t3, Save(p));
    assert t4.disk == t1.disk[n.runId := Readable(n)] && r in t4.live;
    forall run, j ensures !NamedOnDisk(t4, run, j, r) {
      if NamedOnDisk(t4, run, j, r) {
        if run != n.runId { assert NamedOnDisk(s, run, j, r); }
      }
    }
    ThreeOn(t1, Create(o, k), Crash(o), Save(p));
  }

  ghost predicate Pending(m: Manifest, r: Resource) {
    exists i :: 0 <= i < |m.entries| && m.entries[i].resource == r && !m.entries[i].done
  }

  lemma ThreeOn(s: State, a: Event, b: Event, c: Event)
    requires Enabled(s, a) && Careful(s, a)
    requires Enabled(After(s, a), b) && Careful(After(s, a), b)
    requires Enabled(After(After(s, a), b), c) && Careful(After(After(s, a), b), c)
    ensures Leads(s, [a, b, c], After(After(After(s, a), b), c))
  {
    LeadsBy(s, a);
    LeadsBy(After(s, a), b);
    LeadsBy(After(After(s, a), b), c);
    LeadsOn(s, [a], After(s, a), [b], After(After(s, a), b));
    LeadsOn(s, [a, b], After(After(s, a), b), [c], After(After(After(s, a), b), c));
    assert [a] + [b] == [a, b] && [a, b] + [c] == [a, b, c];
  }

  // --------------------------------------------------------- putting runs together

  ghost predicate Leads(s: State, es: seq<Event>, t: State) {
    Allowed(s, es) && AllCareful(s, es) && Ran(s, es) == t
  }

  lemma LeadsBy(s: State, e: Event)
    requires Enabled(s, e) && Careful(s, e)
    ensures Leads(s, [e], After(s, e))
  {
    CarefulOn(s, e, []);
    Then(s, e, []);
    assert [e] + [] == [e];
  }

  lemma {:induction false} LeadsOn(s: State, es: seq<Event>, t: State, more: seq<Event>, u: State)
    requires Leads(s, es, t) && Leads(t, more, u)
    ensures Leads(s, es + more, u)
    decreases |es|
  {
    if es == [] {
      assert es + more == more;
    } else {
      assert (es + more)[0] == es[0] && (es + more)[1..] == es[1..] + more;
      LeadsOn(After(s, es[0]), es[1..], t, more, u);
    }
  }

  // ------------------------------------------------------ an unanswerable claim

  /** Everybody else dies. */
  lemma {:induction false} OthersDie(s: State, who: Owner) returns (es: seq<Event>, t: State)
    requires who in s.alive && s.drivers.Keys == s.alive
    ensures Leads(s, es, t) && t == s.(alive := {who}, drivers := map[who := s.drivers[who]])
    decreases |s.alive|
  {
    if p :| p in s.alive && p != who {
      var next := After(s, Crash(p));
      LeadsBy(s, Crash(p));
      var more;
      more, t := OthersDie(next, who);
      es := [Crash(p)] + more;
      LeadsOn(s, [Crash(p)], next, more, t);
    } else {
      es, t := [], s;
      assert s.alive == {who};
    }
  }

  lemma {:induction false} FreshOwner(born: set<Owner>) returns (p: Owner)
    ensures forall o :: o in born ==> o < p
    decreases |born|
  {
    if o :| o in born {
      var q := FreshOwner(born - {o});
      p := if q > o then q else o + 1;
      assert forall b :: b in born ==> b == o || b in born - {o};
    } else {
      p := 0;
    }
  }

  /** The rest of a replay in which every deletion succeeds. */
  ghost predicate Replaying(s: State, p: Owner, m: Manifest, at: nat) {
    && p in s.alive && p in s.drivers && s.drivers[p].job == Some(Job(m, at, false))
    && at <= |m.entries| && (forall k :: 0 <= k < |m.entries| ==> (m.entries[k].done <==> k < at))
    && m.runId in s.disk && s.disk[m.runId] == Readable(m)
  }

  lemma OneReplayed(s: State, p: Owner, m: Manifest, at: nat) returns (es: seq<Event>, t: State, n: Manifest)
    requires Replaying(s, p, m, at) && at < |m.entries|
    ensures Leads(s, es, t) && Replaying(t, p, n, at + 1)
    ensures n.runId == m.runId && n.owner == m.owner && |n.entries| == |m.entries|
    ensures t == s.(live := t.live, disk := s.disk[m.runId := Readable(n)], drivers := t.drivers)
    ensures t.drivers == s.drivers[p := s.drivers[p].(job := Some(Job(n, at + 1, false)))]
  {
    var gone := {m.entries[at].resource};
    var x := Execute(p, Deleted, gone);
    var mid := After(s, x);
    n := mid.drivers[p].job.value.manifest;
    assert n.entries == m.entries[at := AfterStep(m.entries[at], Deleted)];
    assert Written(mid.disk, n, mid.alive) == (true, mid.disk[n.runId := Readable(n)]);
    t := After(mid, Save(p));
    LeadsBy(s, x);
    LeadsBy(mid, Save(p));
    es := [x] + [Save(p)];
    LeadsOn(s, [x], mid, [Save(p)], t);
  }

  lemma {:induction false} ReplaySettles(s: State, p: Owner, m: Manifest, at: nat) returns (es: seq<Event>, t: State, n: Manifest)
    requires Replaying(s, p, m, at)
    ensures Leads(s, es, t) && Replaying(t, p, n, |n.entries|)
    ensures n.runId == m.runId && n.owner == m.owner && |n.entries| == |m.entries|
    ensures t == s.(live := t.live, disk := s.disk[m.runId := Readable(n)], drivers := t.drivers)
    ensures t.drivers == s.drivers[p := s.drivers[p].(job := Some(Job(n, |n.entries|, false)))]
    decreases |m.entries| - at
  {
    if at == |m.entries| {
      es, t, n := [], s, m;
      assert s.disk == s.disk[m.runId := Readable(m)];
    } else {
      var first, mid, half := OneReplayed(s, p, m, at);
      var rest;
      rest, t, n := ReplaySettles(mid, p, half, at + 1);
      es := first + rest;
      LeadsOn(s, first, mid, rest, t);
    }
  }

  /** One driver is left, creating under a claim that is pending and names nobody. */
  ghost predicate Alone(s: State, who: Owner, m: Manifest) {
    && s.alive == {who} && who in s.born
    && s.drivers == map[who := Driver(m.runId, Some(m), true, [], None)]
    && m.owner.None? && !m.kept && m.entries != [] && (forall i :: 0 <= i < |m.entries| ==> !m.entries[i].done)
    && m.runId in s.disk && s.disk[m.runId] == Readable(m)
    && forall run :: run in s.disk && s.disk[run].Readable? ==>
         s.disk[run].manifest.runId == run && s.disk[run].manifest.owner != Some(who)
  }

  /** Runs other than `m`'s that name `r` as pending. */
  ghost function Naming(s: State, m: Manifest, r: Resource): set<RunId> {
    set run | run in s.disk && run != m.runId && s.disk[run].Readable? && Pending(s.disk[run].manifest, r)
  }

  /** A driver claims another run's id for all that run named, and tears it down. */
  lemma ClaimedAway(s: State, who: Owner, m: Manifest, run: RunId) returns (es: seq<Event>, t: State, p: Owner, c: Manifest)
    requires Alone(s, who, m) && run != m.runId && run in s.disk && s.disk[run].Readable?
    ensures p !in s.born && c.runId == run && c.owner == Some(p)
    ensures Leads(s, es, t) && Replaying(t, p, c, 0)
    ensures t.live == s.live && t.disk == s.disk[run := Readable(c)] && t.alive == {who, p} && t.born == s.born + {p}
    ensures t.drivers.Keys == {who, p} && t.drivers[who] == s.drivers[who]
  {
    p := FreshOwner(s.born);
    var named := Named(s.disk[run].manifest);
    var e1, e2, e3 := Start(p, run), Claim(p, true, named, false), TearDown(p);
    var s1 := After(s, e1);
    c := Claimed(s1, e2);
    assert Unclaimed(s1, e2) by {
      forall i: nat, r | NamedOnDisk(s1, run, i, r) ensures r in named { assert named[i] == r; }
      assert forall o, n :: o in s1.drivers ==> !Holds(s1.drivers[o], n);
    }
    assert Written(s1.disk, c, s1.alive) == (true, s1.disk[run := Readable(c)]);
    var s2 := After(s1, e2);
    t := After(s2, e3);
    es := [e1, e2, e3];
    ThreeOn(s, e1, e2, e3);
  }

  lemma RunSettled(s: State, who: Owner, m: Manifest, run: RunId) returns (es: seq<Event>, t: State)
    requires Alone(s, who, m) && run != m.runId && run in s.disk && s.disk[run].Readable?
    ensures Leads(s, es, t) && Alone(t, who, m)
    ensures forall r :: Naming(t, m, r) <= Naming(s, m, r) - {run}
  {
    var claim, s1, p, c := ClaimedAway(s, who, m, run);
    var replay, s2, n := ReplaySettles(s1, p, c, 0);
    t := After(s2, Crash(p));
    LeadsBy(s2, Crash(p));
    LeadsOn(s, claim, s1, replay, s2);
    LeadsOn(s, claim + replay, s2, [Crash(p)], t);
    es := claim + replay + [Crash(p)];
    assert t.disk == s.disk[run := Readable(n)];
    assert t.drivers == s.drivers;
    assert forall r :: !Pending(n, r);
  }

  lemma {:induction false} ElsewhereSettled(s: State, who: Owner, m: Manifest, r: Resource) returns (es: seq<Event>, t: State)
    requires Alone(s, who, m)
    ensures Leads(s, es, t) && Alone(t, who, m) && Naming(t, m, r) == {}
    decreases Naming(s, m, r)
  {
    if run :| run in Naming(s, m, r) {
      var first, mid := RunSettled(s, who, m, run);
      var rest;
      rest, t := ElsewhereSettled(mid, who, m, r);
      es := first + rest;
      LeadsOn(s, first, mid, rest, t);
    } else {
      es, t := [], s;
    }
  }

  /** A recovery takes the claim for an abandoned run's. */
  lemma LoadedAlone(s: State, who: Owner, m: Manifest) returns (es: seq<Event>, t: State, p: Owner)
    requires Alone(s, who, m)
    ensures Leads(s, es, t) && Replaying(t, p, m, 0) && p != who
    ensures t.live == s.live && t.disk == s.disk && t.alive == {who, p}
    ensures t.drivers.Keys == {who, p} && t.drivers[who] == s.drivers[who]
  {
    p := FreshOwner(s.born);
    var e1, e2, e3 := Start(p, m.runId + "2"), Load(p, m.runId), Begin(p);
    var s1 := After(s, e1);
    assert |m.runId + "2"| > |m.runId|;
    assert HasPending(m) by { assert !m.entries[0].done; }
    var s2 := After(s1, e2);
    t := After(s2, e3);
    es := [e1, e2, e3];
    ThreeOn(s, e1, e2, e3);
  }

  /** Settled while its driver is at work, the claim names nothing that driver creates. */
  lemma AloneStrands(s: State, who: Owner, m: Manifest, k: nat) returns (es: seq<Event>, t: State)
    requires Alone(s, who, m) && k < |m.entries| && Naming(s, m, m.entries[k].resource) == {}
    ensures Leads(s, es, t) && !Covered(t)
  {
    var r := m.entries[k].resource;
    var load, s1, p := LoadedAlone(s, who, m);
    var replay, s2, n := ReplaySettles(s1, p, m, 0);
    t := After(s2, Create(who, k));
    LeadsBy(s2, Create(who, k));
    LeadsOn(s, load, s1, replay, s2);
    LeadsOn(s, load + replay, s2, [Create(who, k)], t);
    es := load + replay + [Create(who, k)];
    assert r in t.live;
    forall run, i ensures !NamedOnDisk(t, run, i, r) {
      assert run !in Naming(s, m, r);
      assert run != m.runId && run in s.disk ==> t.disk[run] == s.disk[run];
    }
  }

  lemma ClaimStandsAlone(s: State, e: Event) returns (es: seq<Event>, t: State, m: Manifest)
    requires Invariant(s) && e.Claim? && Enabled(s, e) && GoesThrough(s, e) && !Answerable(e)
    ensures Leads(After(s, e), es, t) && Alone(t, e.who, m) && m == Claimed(s, e)
  {
    var d, next := s.drivers[e.who], After(s, e);
    m := Claimed(s, e);
    assert next.disk == s.disk[d.runId := Readable(m)];
    es, t := OthersDie(next, e.who);
    assert OneThingAtATime(d);
    forall run | run in t.disk && t.disk[run].Readable?
      ensures t.disk[run].manifest.runId == run && t.disk[run].manifest.owner != Some(e.who)
    {
      if run != d.runId { assert FileNamed(s, run, s.disk[run].manifest); }
    }
  }

  /** A claim that names resources, asks for no keeping and could not record its process can always
      be followed by a careful run that strands one of them. */
  lemma UnanswerableClaimStrands(s: State, e: Event) returns (more: seq<Event>)
    requires Invariant(s) && e.Claim? && Enabled(s, e) && GoesThrough(s, e) && !Answerable(e)
    ensures Allowed(After(s, e), more) && AllCareful(After(s, e), more) && !Covered(Ran(After(s, e), more))
  {
    var others, s1, m := ClaimStandsAlone(s, e);
    var elsewhere, s2 := ElsewhereSettled(s1, e.who, m, m.entries[0].resource);
    var end, s3 := AloneStrands(s2, e.who, m, 0);
    LeadsOn(After(s, e), others, s1, elsewhere, s2);
    LeadsOn(After(s, e), others + elsewhere, s2, end, s3);
    more := others + elsewhere + end;
  }

  /** Under a run id that is nobody else's, a claim is safe whatever careful drivers do after it
      if and only if it records its process, asks to be kept, or names nothing. */
  lemma SafeIffAnswerable(s: State, e: Event)
    requires Invariant(s) && e.Claim? && Enabled(s, e) && GoesThrough(s, e) && Unclaimed(s, e)
    ensures (forall more :: Allowed(After(s, e), more) && AllCareful(After(s, e), more) ==> Covered(Ran(After(s, e), more)))
       <==> Answerable(e)
  {
    if Answerable(e) {
      StepKeeps(s, e);
      forall more | Allowed(After(s, e), more) && AllCareful(After(s, e), more) ensures Covered(Ran(After(s, e), more)) {
        RunKeeps(After(s, e), more);
        InvariantCovers(Ran(After(s, e), more));
      }
    } else {
      var more := UnanswerableClaimStrands(s, e);
    }
  }

  // --------------------------------------------------------------- literal runs

  /** The shortest such run: a recovery settles the entries of a driver still at work, and what
      that creates next is stranded. */
  lemma UnrecordedOwnerStrands(r: Resource)
    ensures var es := [Start(1, "a"), Claim(1, false, [r], false), Start(2, "b"), Load(2, "a"), Begin(2),
                       Execute(2, Deleted, {r}), Save(2), Create(1, 0)];
      Allowed(EMPTY, es) && !Covered(Ran(EMPTY, es))
  {
    var e1, e2, e3, e4 := Start(1, "a"), Claim(1, false, [r], false), Start(2, "b"), Load(2, "a");
    var e5, e6, e7, e8 := Begin(2), Execute(2, Deleted, {r}), Save(2), Create(1, 0);
    var s4 := LoadedWhileRunning(r);
    var s8 := SettledWhileRunning(s4, r);
    assert !Covered(s8) by { assert r in s8.live; }
    Continue(EMPTY, [e1, e2, e3, e4], [e5, e6, e7, e8]);
    assert [e1, e2, e3, e4] + [e5, e6, e7, e8] == [e1, e2, e3, e4, e5, e6, e7, e8];
  }

  lemma FourOn(s: State, a: Event, b: Event, c: Event, d: Event)
    requires Enabled(s, a) && Enabled(After(s, a), b)
    requires var t := After(After(s, a), b); Enabled(t, c) && Enabled(After(t, c), d)
    ensures Allowed(s, [a, b, c, d]) && Ran(s, [a, b, c, d]) == After(After(After(After(s, a), b), c), d)
  {
    var s1 := After(s, a);
    var s2 := After(s1, b);
    var s3 := After(s2, c);
    Then(s3, d, []);
    Then(s2, c, [d]);
    Then(s1, b, [c, d]);
    Then(s, a, [b, c, d]);
    assert [a] + [b, c, d] == [a, b, c, d] && [b] + [c, d] == [b, c, d] && [c] + [d] == [c, d] && [d] + [] == [d];
  }

  function OneEntry(r: Resource, done: bool): Manifest {
    Manifest("a", None, [Entry(r, done, if done then 1 else 0, None)], false)
  }

  lemma LoadedWhileRunning(r: Resource) returns (s: State)
    ensures var es := [Start(1, "a"), Claim(1, false, [r], false), Start(2, "b"), Load(2, "a")];
      Allowed(EMPTY, es) && s == Ran(EMPTY, es)
    ensures s == State(map["a" := Readable(OneEntry(r, false))], {}, {1, 2}, {1, 2},
                       map[1 := Driver("a", Some(OneEntry(r, false)), true, [], None),
                           2 := Driver("b", None, false, [OneEntry(r, false)], None)])
  {
    var e1, e2, e3, e4 := Start(1, "a"), Claim(1, false, [r], false), Start(2, "b"), Load(2, "a");
    var m := OneEntry(r, false);
    assert Planned([r]) == m.entries;
    var s1 := After(EMPTY, e1);
    var s2 := After(s1, e2);
    assert s2.disk == map["a" := Readable(m)];
    var s3 := After(s2, e3);
    assert HasPending(m) by { assert !m.entries[0].done; }
    assert Enabled(s3, e4);
    assert s3.drivers == map[1 := Driver("a", Some(m), true, [], None), 2 := Driver("b", None, false, [], None)];
    assert s3.drivers[2].loaded + [m] == [m];
    s := After(s3, e4);
    assert s.drivers == map[1 := Driver("a", Some(m), true, [], None), 2 := Driver("b", None, false, [m], None)];
    assert s.alive == {1, 2} && s.born == {1, 2} && s.live == {};
    FourOn(EMPTY, e1, e2, e3, e4);
  }

  lemma SettledWhileRunning(s: State, r: Resource) returns (t: State)
    requires s == State(map["a" := Readable(OneEntry(r, false))], {}, {1, 2}, {1, 2},
                        map[1 := Driver("a", Some(OneEntry(r, false)), true, [], None),
                            2 := Driver("b", None, false, [OneEntry(r, false)], None)])
    ensures var es := [Begin(2), Execute(2, Deleted, {r}), Save(2), Create(1, 0)];
      Allowed(s, es) && t == Ran(s, es)
    ensures t.live == {r} && t.disk == map["a" := Readable(OneEntry(r, true))]
  {
    var e5, e6, e7, e8 := Begin(2), Execute(2, Deleted, {r}), Save(2), Create(1, 0);
    var m, n := OneEntry(r, false), OneEntry(r, true);
    var s5 := After(s, e5);
    assert s5.drivers[2].job == Some(Job(m, 0, false));
    var s6 := After(s5, e6);
    assert m.entries[0 := AfterStep(m.entries[0], Deleted)] == n.entries;
    assert s6.drivers[2].job == Some(Job(n, 0, true));
    var s7 := After(s6, e7);
    assert s7.disk == map["a" := Readable(n)];
    t := After(s7, e8);
    FourOn(s, e5, e6, e7, e8);
  }

  /** A run in which the claim of a dead run's id strands what only that run's manifest named. */
  lemma ReusedRunIdStrands(r: Resource, q: Resource)
    requires r != q
    ensures var es := [Start(1, "a"), Claim(1, true, [r], false), Create(1, 0), Crash(1),
                       Start(2, "a"), Claim(2, true, [q], false)];
      Allowed(EMPTY, es) && !Covered(Ran(EMPTY, es))
  {
    var e1, e2, e3 := Start(1, "a"), Claim(1, true, [r], false), Create(1, 0);
    var e4, e5, e6 := Crash(1), Start(2, "a"), Claim(2, true, [q], false);
    var s4 := DiedHolding(r);
    var s5 := After(s4, e5);
    var old_, new_ := Manifest("a", Some(1), Planned([r]), false), Manifest("a", Some(2), Planned([q]), false);
    assert s5 == State(map["a" := Readable(old_)], {r}, {2}, {1, 2}, map[2 := Driver("a", None, false, [], None)]);
    assert Written(s5.disk, new_, s5.alive).0;
    var s6 := After(s5, e6);
    assert s6.disk == map["a" := Readable(new_)] && s6.live == {r};
    assert !Covered(s6) by {
      assert r in s6.live;
      assert Planned([q])[0].resource == q;
    }
    Then(s5, e6, []);
    Then(s4, e5, [e6]);
    assert [e5, e6] == [e5] + [e6] && [e6] == [e6] + [];
    var dying, rest := [e1, e2, e3, e4], [e5, e6];
    Continue(EMPTY, dying, rest);
    assert [e1, e2, e3, e4, e5, e6] == dying + rest;
  }

  /** A driver dies with its one resource alive. */
  lemma DiedHolding(r: Resource) returns (s: State)
    ensures var es := [Start(1, "a"), Claim(1, true, [r], false), Create(1, 0), Crash(1)];
      Allowed(EMPTY, es) && s == Ran(EMPTY, es)
    ensures s == State(map["a" := Readable(Manifest("a", Some(1), Planned([r]), false))], {r}, {}, {1}, map[])
  {
    var e1, e2, e3, e4 := Start(1, "a"), Claim(1, true, [r], false), Create(1, 0), Crash(1);
    var s1 := After(EMPTY, e1);
    var s2 := After(s1, e2);
    assert s2.drivers[1].own.value.entries[0].resource == r;
    var s3 := After(s2, e3);
    s := After(s3, e4);
    FourOn(EMPTY, e1, e2, e3, e4);
  }
}
