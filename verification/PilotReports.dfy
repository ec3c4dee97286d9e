/**
 * What a pilot's report says of the run it was built from (scripts/bench-pilot.ts), read off the
 * outcomes themselves, and what the validator asks of any report.
 */
module PilotReports {
  import opened BenchPilot
  import opened Lists
  import opened Numbers
  import opened Sorting
  import opened Wrappers

  // ---------------------------------------------------------- sums and counts

  lemma {:induction false} SumIsTotal(s: seq<int>)
    ensures Sum(s) == Total(s)
    decreases |s|
  {
    if s != [] {
      var init, last := s[..|s| - 1], s[|s| - 1];
      SumIsTotal(init);
      SumSplits(init, [last]);
      assert s == init + [last] && [last][1..] == [];
    }
  }

  lemma OneMore(n: nat, wanted: nat -> bool)
    ensures |set i: nat | i < n + 1 && wanted(i)| == |set i: nat | i < n && wanted(i)| + if wanted(n) then 1 else 0
  {
    var before := set i: nat | i < n && wanted(i);
    assert (set i: nat | i < n + 1 && wanted(i)) == before + if wanted(n) then {n} else {};
  }

  lemma CountSnoc(os: seq<Outcome>, o: Outcome, test: Outcome -> int)
    ensures Count(os + [o], test) == Count(os, test) + test(o)
  {
    EachSplits(os, [o], test);
    SumSplits(Each(os, test), [test(o)]);
    assert [o][1..] == [] && [test(o)][1..] == [];
    assert Each([o], test) == [test(o)];
    assert Sum([test(o)]) == test(o);
  }

  /** Of one task's outcomes, those that pass a test are the positions of the run that do. */
  lemma {:induction false} OwnCount(os: seq<Outcome>, n: nat, id: string, test: Outcome -> int, wanted: nat -> bool)
    requires n <= |os|
    requires forall i: nat :: i < n && os[i].taskId == id ==> test(os[i]) == if wanted(i) then 1 else 0
    requires forall i: nat :: i < n && os[i].taskId != id ==> !wanted(i)
    ensures Count(Of(os[..n], id), test) == |set i: nat | i < n && wanted(i)|
  {
    var named := set i: nat | i < n && wanted(i);
    if n == 0 {
      assert named == {};
    } else {
      var init, last := os[..n - 1], os[n - 1];
      OwnCount(os, n - 1, id, test, wanted);
      OneMore(n - 1, wanted);
      assert os[..n][..n - 1] == init;
      CountSnoc(Of(init, id), last, test);
      assert Of(init, id) + [] == Of(init, id);
    }
  }

  lemma {:induction false} RunCount(os: seq<Outcome>, n: nat, test: Outcome -> int, wanted: nat -> bool)
    requires n <= |os|
    requires forall i: nat :: i < n ==> test(os[i]) == if wanted(i) then 1 else 0
    ensures Count(os[..n], test) == |set i: nat | i < n && wanted(i)|
  {
    var named := set i: nat | i < n && wanted(i);
    if n == 0 {
      assert named == {};
    } else {
      RunCount(os, n - 1, test, wanted);
      OneMore(n - 1, wanted);
      assert os[..n] == os[..n - 1] + [os[n - 1]];
      CountSnoc(os[..n - 1], os[n - 1], test);
    }
  }

  /** One task's outcomes stand at its positions in the run, in order. */
  ghost predicate StandAt(os: seq<Outcome>, id: string, at: seq<nat>) {
    GoesUp(at) && forall i: nat :: i in at <==> i < |os| && os[i].taskId == id
  }

  lemma NextStands(os: seq<Outcome>, id: string, before: seq<nat>, at: seq<nat>)
    requires os != [] && StandAt(os[..|os| - 1], id, before) && GoesUp(at)
    requires at == if os[|os| - 1].taskId == id then before + [|os| - 1] else before
    ensures StandAt(os, id, at)
  {
    var n := |os| - 1;
    forall i: nat ensures i in at <==> i < |os| && os[i].taskId == id {
      assert i in before <==> i < n && os[..n][i].taskId == id;
      if os[n].taskId == id { assert at[|before|] == n; }
    }
  }

  lemma {:induction false} OwnAt(os: seq<Outcome>, id: string) returns (at: seq<nat>)
    ensures StandAt(os, id, at) && |at| == |Of(os, id)|
    ensures forall k :: 0 <= k < |at| ==> at[k] < |os| && Of(os, id)[k] == os[at[k]]
  {
    if os == [] {
      at := [];
    } else {
      var init, last := os[..|os| - 1], os[|os| - 1];
      var before := OwnAt(init, id);
      at := if last.taskId == id then before + [|init|] else before;
      UpTo(before, |init|);
      NextStands(os, id, before, at);
    }
  }

  lemma {:induction false} EachAt(os: seq<Outcome>, measure: Outcome -> int)
    ensures |Each(os, measure)| == |os| && forall k :: 0 <= k < |os| ==> Each(os, measure)[k] == measure(os[k])
  {
    if os != [] { EachAt(os[1..], measure); }
  }

  // ------------------------------------------------------- what a report says

  /** The report's own fields are the run's. */
  lemma BuiltIsTheRuns(input: Input, r: Report)
    requires Built(input) == Ok(r)
    ensures r.family == input.family && r.manifestHash == input.manifestHash && r.variant == input.variant
    ensures r.model == input.model && r.providerHash == input.providerHash && r.budget == input.budget
    ensures r.seed == input.seed && r.repeats == input.repeats && r.attempts == |input.outcomes|
    ensures forall o :: o in input.outcomes ==> o.tokens.Some? && o.modelCalls.Some?
  {
    BuiltIsAssembled(input);
    BuiltWhenMeasured(input.outcomes);
  }

  /** The report counts the attempts that passed, failed with an error, and breached the budget. */
  lemma BuiltCounts(input: Input, r: Report)
    requires Built(input) == Ok(r)
    ensures var os := input.outcomes;
      && r.passed == |set i: nat | i < |os| && os[i].passed|
      && r.errors == |set i: nat | i < |os| && os[i].error|
      && r.budgetBreaches == |set i: nat | i < |os| && os[i].breach|
  {
    var os := input.outcomes;
    BuiltIsAssembled(input);
    PassedCount(os);
    FaultyCount(os);
    BreachedCount(os);
  }

  lemma PassedCount(os: seq<Outcome>)
    ensures Count(os, Passed) == |set i: nat | i < |os| && os[i].passed|
  {
    var wanted := (i: nat) => i < |os| && os[i].passed;
    assert os[..|os|] == os && (set i: nat | i < |os| && os[i].passed) == set i: nat | i < |os| && wanted(i);
    RunCount(os, |os|, Passed, wanted);
  }

  lemma FaultyCount(os: seq<Outcome>)
    ensures Count(os, Faulty) == |set i: nat | i < |os| && os[i].error|
  {
    var wanted := (i: nat) => i < |os| && os[i].error;
    assert os[..|os|] == os && (set i: nat | i < |os| && os[i].error) == set i: nat | i < |os| && wanted(i);
    RunCount(os, |os|, Faulty, wanted);
  }

  lemma BreachedCount(os: seq<Outcome>)
    ensures Count(os, Breached) == |set i: nat | i < |os| && os[i].breach|
  {
    var wanted := (i: nat) => i < |os| && os[i].breach;
    assert os[..|os|] == os && (set i: nat | i < |os| && os[i].breach) == set i: nat | i < |os| && wanted(i);
    RunCount(os, |os|, Breached, wanted);
  }

  /** The tasks are those the outcomes name, each once and in order, with one result each. */
  lemma BuiltTasks(input: Input, r: Report)
    requires Built(input) == Ok(r)
    ensures r.tasks == |r.taskIds| == |r.taskResults|
    ensures NoRepeats(r.taskIds) && Sorted(r.taskIds, StringLeq)
    ensures forall id :: id in r.taskIds <==> exists i :: 0 <= i < |input.outcomes| && input.outcomes[i].taskId == id
    ensures forall j :: 0 <= j < |r.taskIds| ==> r.taskResults[j].taskId == r.taskIds[j]
  {
    BuiltIsAssembled(input);
    SortedIds(input.outcomes);
    ResultsAt(input.outcomes, TaskIds(input.outcomes));
  }

  /** What a result lists stands at the positions of its task's attempts, in order. */
  ghost predicate ListedAt(os: seq<Outcome>, t: TaskResult, at: seq<nat>) {
    && StandAt(os, t.taskId, at)
    && t.attempts == |t.tokens| == |t.modelCalls| == |t.repeatIndices| == |at|
    && forall k :: 0 <= k < |at| ==>
         && at[k] < |os|
         && Some(t.tokens[k]) == os[at[k]].tokens && Some(t.modelCalls[k]) == os[at[k]].modelCalls
         && t.repeatIndices[k] == os[at[k]].at
  }

  /** A task's result lists what each of its attempts measured, in order, and counts those that
      passed, failed with an error, and breached the budget. */
  lemma BuiltResult(input: Input, r: Report, j: nat)
    requires Built(input) == Ok(r) && j < |r.taskResults|
    ensures exists at :: ListedAt(input.outcomes, r.taskResults[j], at)
    ensures var os, t := input.outcomes, r.taskResults[j];
      && t.passes == |set i: nat | i < |os| && os[i].taskId == t.taskId && os[i].passed|
      && t.errors == |set i: nat | i < |os| && os[i].taskId == t.taskId && os[i].error|
      && t.budgetBreaches == |set i: nat | i < |os| && os[i].taskId == t.taskId && os[i].breach|
  {
    var os, ids := input.outcomes, TaskIds(input.outcomes);
    BuiltIsAssembled(input);
    ResultsAt(os, ids);
    ResultLists(os, ids[j]);
    ResultCounts(os, ids[j]);
    BuiltIsTheRuns(input, r);
  }

  lemma ResultLists(os: seq<Outcome>, id: string)
    ensures (forall o :: o in os ==> o.tokens.Some? && o.modelCalls.Some?) ==> exists at :: ListedAt(os, ResultOf(os, id), at)
  {
    var mine := Of(os, id);
    var at := OwnAt(os, id);
    EachAt(mine, Index);
    EachAt(mine, Tokens);
    EachAt(mine, Calls);
    if forall o :: o in os ==> o.tokens.Some? && o.modelCalls.Some? {
      forall k | 0 <= k < |at| ensures os[at[k]].tokens.Some? && os[at[k]].modelCalls.Some? { assert os[at[k]] in os; }
      assert ListedAt(os, ResultOf(os, id), at);
    }
  }

  lemma ResultCounts(os: seq<Outcome>, id: string)
    ensures var t := ResultOf(os, id);
      && t.passes == |set i: nat | i < |os| && os[i].taskId == id && os[i].passed|
      && t.errors == |set i: nat | i < |os| && os[i].taskId == id && os[i].error|
      && t.budgetBreaches == |set i: nat | i < |os| && os[i].taskId == id && os[i].breach|
  {
    assert os[..|os|] == os;
    var passed := (i: nat) => i < |os| && os[i].taskId == id && os[i].passed;
    var error := (i: nat) => i < |os| && os[i].taskId == id && os[i].error;
    var breach := (i: nat) => i < |os| && os[i].taskId == id && os[i].breach;
    OwnCount(os, |os|, id, Passed, passed);
    OwnCount(os, |os|, id, Faulty, error);
    OwnCount(os, |os|, id, Breached, breach);
    assert (set i: nat | i < |os| && os[i].taskId == id && os[i].passed) == set i: nat | i < |os| && passed(i);
    assert (set i: nat | i < |os| && os[i].taskId == id && os[i].error) == set i: nat | i < |os| && error(i);
    assert (set i: nat | i < |os| && os[i].taskId == id && os[i].breach) == set i: nat | i < |os| && breach(i);
  }

  /** A task is unstable exactly when one of its attempts passed and another did not. */
  lemma BuiltUnstable(input: Input, r: Report, id: string)
    requires Built(input) == Ok(r)
    ensures var os := input.outcomes;
      id in r.unstableTaskIds <==>
        exists i, j :: 0 <= i < |os| && 0 <= j < |os| && os[i].taskId == os[j].taskId == id && os[i].passed && !os[j].passed
    ensures NoRepeats(r.unstableTaskIds)
  {
    var os, ids := input.outcomes, TaskIds(input.outcomes);
    BuiltIsAssembled(input);
    SortedIds(os);
    UnstableIff(os, ids, id);
    UnstableOnce(os, ids);
    PassesBetween(os, id);
  }

  lemma {:induction false} UnstableIff(os: seq<Outcome>, ids: seq<string>, id: string)
    ensures id in UnstableIds(Results(os, ids)) <==> id in ids && Unstable(ResultOf(os, id))
  {
    if ids != [] {
      UnstableIff(os, ids[1..], id);
      assert Results(os, ids)[1..] == Results(os, ids[1..]);
      assert ids == [ids[0]] + ids[1..];
    }
  }

  lemma {:induction false} UnstableOnce(os: seq<Outcome>, ids: seq<string>)
    requires NoRepeats(ids)
    ensures NoRepeats(UnstableIds(Results(os, ids)))
  {
    if ids != [] {
      assert Results(os, ids)[1..] == Results(os, ids[1..]);
      UnstableOnce(os, ids[1..]);
      UnstableIff(os, ids[1..], ids[0]);
      assert ids[0] !in ids[1..];
    }
  }

  lemma PassesBetween(os: seq<Outcome>, id: string)
    ensures Unstable(ResultOf(os, id)) <==>
      exists i, j :: 0 <= i < |os| && 0 <= j < |os| && os[i].taskId == os[j].taskId == id && os[i].passed && !os[j].passed
  {
    var mine := Of(os, id);
    var at := OwnAt(os, id);
    SomePass(mine);
    if 0 < Count(mine, Passed) < |mine| {
      var a, b :| 0 <= a < |mine| && 0 <= b < |mine| && mine[a].passed && !mine[b].passed;
      assert os[at[a]].taskId == id by { assert at[a] in at; }
      assert os[at[b]].taskId == id by { assert at[b] in at; }
    }
    if i: nat, j: nat :| i < |os| && j < |os| && os[i].taskId == os[j].taskId == id && os[i].passed && !os[j].passed {
      assert i in at && j in at;
      var a :| 0 <= a < |at| && at[a] == i;
      var b :| 0 <= b < |at| && at[b] == j;
      assert mine[a].passed && !mine[b].passed;
    }
  }

  /** Some pass and some do not, exactly when the count lies between. */
  lemma {:induction false} SomePass(os: seq<Outcome>)
    ensures 0 <= Count(os, Passed) <= |os|
    ensures Count(os, Passed) > 0 <==> exists i :: 0 <= i < |os| && os[i].passed
    ensures Count(os, Passed) < |os| <==> exists i :: 0 <= i < |os| && !os[i].passed
  {
    if os != [] {
      var init, last := os[..|os| - 1], os[|os| - 1];
      SomePass(init);
      assert os == init + [last];
      CountSnoc(init, last, Passed);
      if i :| 0 <= i < |init| && init[i].passed { assert os[i].passed; }
      if i :| 0 <= i < |init| && !init[i].passed { assert !os[i].passed; }
      assert os[|init|] == last;
      if i :| 0 <= i < |os| && os[i].passed { assert i < |init| ==> init[i].passed; }
      if i :| 0 <= i < |os| && !os[i].passed { assert i < |init| ==> !init[i].passed; }
    }
  }

  function TokensOf(os: seq<Outcome>): seq<int>
    requires forall o :: o in os ==> o.tokens.Some?
  {
    seq(|os|, i requires 0 <= i < |os| => assert os[i] in os; os[i].tokens.value)
  }

  function CallsOf(os: seq<Outcome>): seq<int>
    requires forall o :: o in os ==> o.modelCalls.Some?
  {
    seq(|os|, i requires 0 <= i < |os| => assert os[i] in os; os[i].modelCalls.value)
  }

  /** A mean that times the count is the total, and the largest; neither of nothing. */
  ghost predicate AggregatesOf(s: seq<int>, mean: Option<real>, max: Option<int>) {
    if s == [] then mean == None && max == None
    else
      && mean.Some? && mean.value * |s| as real == Total(s) as real
      && max.Some? && IsLargest(s, max.value)
  }

  /** The means are the totals over the attempts by their number, and the maxima their largest. */
  lemma BuiltAggregates(input: Input, r: Report)
    requires Built(input) == Ok(r)
    ensures forall o :: o in input.outcomes ==> o.tokens.Some? && o.modelCalls.Some?
    ensures var os := input.outcomes;
      && r.totalModelCalls == Total(CallsOf(os))
      && AggregatesOf(TokensOf(os), r.meanTokens, r.maxObservedTokens)
      && AggregatesOf(CallsOf(os), r.meanModelCalls, r.maxObservedModelCalls)
  {
    var os := input.outcomes;
    BuiltIsAssembled(input);
    BuiltIsTheRuns(input, r);
    MeasuredEach(os);
    AggregatesAre(TokensOf(os));
    AggregatesAre(CallsOf(os));
    SumIsTotal(CallsOf(os));
  }

  lemma MeasuredEach(os: seq<Outcome>)
    requires forall o :: o in os ==> o.tokens.Some? && o.modelCalls.Some?
    ensures Each(os, Tokens) == TokensOf(os) && Each(os, Calls) == CallsOf(os)
  {
    EachAt(os, Tokens);
    EachAt(os, Calls);
    forall i | 0 <= i < |os| ensures os[i].tokens.Some? && os[i].modelCalls.Some? { assert os[i] in os; }
  }

  lemma AggregatesAre(s: seq<int>)
    ensures AggregatesOf(s, Mean(s), Maximum(s))
  {
    SumIsTotal(s);
    if s != [] { LargestIs(s); }
  }

  // ------------------------------------------------------ what a validator asks

  function Listed<T>(rs: seq<TaskResult>, part: TaskResult -> T): seq<T> { seq(|rs|, i requires 0 <= i < |rs| => part(rs[i])) }

  /** The lists one after the other. */
  function Together(lists: seq<seq<int>>): seq<int> {
    if lists == [] then [] else Together(lists[..|lists| - 1]) + lists[|lists| - 1]
  }

  /** A result with every repeat, each index once, and no more passes or faults than attempts. */
  ghost predicate Complete(t: TaskResult, repeats: int) {
    && t.attempts == |t.tokens| == |t.modelCalls| == |t.repeatIndices| == repeats
    && (forall k :: multiset(t.repeatIndices)[k] == if 0 <= k < repeats then 1 else 0)
    && t.passes <= repeats && t.errors <= repeats && t.budgetBreaches <= repeats
  }

  /** One complete result for each of at least forty tasks, three repeats or more. */
  ghost predicate WellShaped(r: Report) {
    && r.tasks >= 40 && r.repeats >= 3 && r.attempts == r.tasks * r.repeats
    && |r.taskIds| == |r.taskResults| == r.tasks && NoRepeats(r.taskIds)
    && (forall i, j :: 0 <= i < j < |r.taskResults| ==> r.taskResults[i].taskId != r.taskResults[j].taskId)
    && (forall i :: 0 <= i < |r.taskIds| ==> exists j :: 0 <= j < |r.taskResults| && r.taskResults[j].taskId == r.taskIds[i])
    && forall j :: 0 <= j < |r.taskResults| ==> Complete(r.taskResults[j], r.repeats)
  }

  /** The report's totals, means, maxima and unstable tasks are those of its results. */
  ghost predicate AddsUp(r: Report) {
    var rs := r.taskResults;
    && r.passed == Total(Listed(rs, (t: TaskResult) => t.passes))
    && r.errors == Total(Listed(rs, (t: TaskResult) => t.errors))
    && r.budgetBreaches == Total(Listed(rs, (t: TaskResult) => t.budgetBreaches))
    && (forall id :: multiset(r.unstableTaskIds)[id] == |set j: nat | j < |rs| && rs[j].taskId == id && 0 < rs[j].passes < rs[j].attempts|)
    && AggregatesOf(Together(Listed(rs, (t: TaskResult) => t.tokens)), r.meanTokens, r.maxObservedTokens)
    && AggregatesOf(Together(Listed(rs, (t: TaskResult) => t.modelCalls)), r.meanModelCalls, r.maxObservedModelCalls)
    && r.totalModelCalls == Total(Together(Listed(rs, (t: TaskResult) => t.modelCalls)))
  }

  /** The report is of the corpus, model, endpoint, envelope and one of the arms expected, and clean. */
  predicate IsExpected(r: Report, e: Expected) {
    && r.family == e.family && r.manifestHash == e.manifestHash && r.model == e.model && r.providerHash == e.providerHash
    && r.budget == e.budget && r.variant in e.comparedVariants && r.errors <= 0 && r.budgetBreaches <= 0
  }

  /** The validator accepts exactly the reports that fit the schema, are well shaped, add up, and
      are of what was expected. */
  lemma AcceptsIff(r: Report, e: Expected)
    ensures ValidatePilotReport(r, e).Ok? <==> Fits(r) && WellShaped(r) && AddsUp(r) && IsExpected(r, e)
  {
    AcceptedPassesAll(r, e);
    if Fits(r) {
      ShapeIff(r);
      AggregatesIff(r);
      PassedWithinAttempts(r, e);
    }
  }

  lemma ShapeIff(r: Report)
    requires Fits(r)
    ensures ShapeFlaw(r).None? <==> WellShaped(r)
  {
    NoFlaws(r.taskResults, r.repeats);
    forall j | 0 <= j < |r.taskResults| ensures FlawOf(r.taskResults[j], r.repeats).None? <==> Complete(r.taskResults[j], r.repeats) {
      CompleteIff(r.taskResults[j], r.repeats);
    }
    if ShapeFlaw(r).None? {
      ShapeIsComplete(r);
    }
    if WellShaped(r) {
      SetSize(r.taskIds);
      DistinctResults(r.taskResults);
      forall i | 0 <= i < |r.taskIds| ensures r.taskIds[i] in ResultIdSet(r.taskResults) {
        var j :| 0 <= j < |r.taskResults| && r.taskResults[j].taskId == r.taskIds[i];
      }
    }
  }

  lemma CompleteIff(t: TaskResult, repeats: nat)
    ensures FlawOf(t, repeats).None? <==> Complete(t, repeats)
  {
    SortsToUpto(t.repeatIndices, repeats);
    assert OnceUpto(t.repeatIndices, repeats) <==> forall k :: multiset(t.repeatIndices)[k] == if 0 <= k < repeats then 1 else 0;
  }

  lemma DistinctResults(rs: seq<TaskResult>)
    requires forall i, j :: 0 <= i < j < |rs| ==> rs[i].taskId != rs[j].taskId
    ensures |ResultIdSet(rs)| == |rs|
  {
    var ids := Listed(rs, (t: TaskResult) => t.taskId);
    SetSize(ids);
    forall id ensures id in ToSet(ids) <==> id in ResultIdSet(rs) {
      if id in ResultIdSet(rs) {
        var i :| 0 <= i < |rs| && rs[i].taskId == id;
        assert ids[i] == id;
      }
    }
    assert ToSet(ids) == ResultIdSet(rs);
  }

  lemma {:induction false} SumOfIsTotal(rs: seq<TaskResult>, measure: TaskResult -> int)
    ensures SumOf(rs, measure) == Total(Listed(rs, measure))
  {
    SumOfIsSum(rs, measure);
    SumIsTotal(Listed(rs, measure));
  }

  lemma {:induction false} SumOfIsSum(rs: seq<TaskResult>, measure: TaskResult -> int)
    ensures SumOf(rs, measure) == Sum(Listed(rs, measure))
  {
    if rs != [] {
      SumOfIsSum(rs[1..], measure);
      assert Listed(rs, measure)[1..] == Listed(rs[1..], measure);
    }
  }

  lemma {:induction false} TogetherSplits(a: seq<seq<int>>, b: seq<seq<int>>)
    ensures Together(a + b) == Together(a) + Together(b)
    decreases |b|
  {
    if b == [] {
      assert a + b == a;
    } else {
      assert (a + b)[..|a + b| - 1] == a + b[..|b| - 1];
      TogetherSplits(a, b[..|b| - 1]);
    }
  }

  lemma TogetherFrom(lists: seq<seq<int>>)
    requires lists != []
    ensures Together(lists) == lists[0] + Together(lists[1..])
  {
    assert lists == [lists[0]] + lists[1..];
    TogetherSplits([lists[0]], lists[1..]);
    assert [lists[0]][..0] == [] && Together([]) + lists[0] == lists[0];
  }

  lemma {:induction false} TokensTogether(rs: seq<TaskResult>, lists: seq<seq<int>>)
    requires |lists| == |rs| && forall i :: 0 <= i < |rs| ==> lists[i] == rs[i].tokens
    ensures AllTokens(rs) == Together(lists)
  {
    if rs != [] {
      TokensTogether(rs[1..], lists[1..]);
      TogetherFrom(lists);
    }
  }

  lemma {:induction false} CallsTogether(rs: seq<TaskResult>, lists: seq<seq<int>>)
    requires |lists| == |rs| && forall i :: 0 <= i < |rs| ==> lists[i] == rs[i].modelCalls
    ensures AllCalls(rs) == Together(lists)
  {
    if rs != [] {
      CallsTogether(rs[1..], lists[1..]);
      TogetherFrom(lists);
    }
  }

  lemma {:induction false} UnstableCounts(rs: seq<TaskResult>, id: string)
    ensures multiset(UnstableIds(rs))[id] == |set j: nat | j < |rs| && rs[j].taskId == id && 0 < rs[j].passes < rs[j].attempts|
    decreases |rs|
  {
    var here := set j: nat | j < |rs| && rs[j].taskId == id && 0 < rs[j].passes < rs[j].attempts;
    if rs == [] {
      assert here == {};
    } else {
      var init, last := rs[..|rs| - 1], rs[|rs| - 1];
      UnstableCounts(init, id);
      UnstableSplits(init, [last]);
      assert rs == init + [last] && [last][1..] == [];
      OneMoreUnstable(rs, id);
    }
  }

  lemma OneMoreUnstable(rs: seq<TaskResult>, id: string)
    requires rs != []
    ensures var init, last := rs[..|rs| - 1], rs[|rs| - 1];
      |set j: nat | j < |rs| && rs[j].taskId == id && 0 < rs[j].passes < rs[j].attempts|
      == |set j: nat | j < |init| && init[j].taskId == id && 0 < init[j].passes < init[j].attempts|
         + if last.taskId == id && 0 < last.passes < last.attempts then 1 else 0
  {
    var init, last := rs[..|rs| - 1], rs[|rs| - 1];
    var before := set j: nat | j < |init| && init[j].taskId == id && 0 < init[j].passes < init[j].attempts;
    var now := set j: nat | j < |rs| && rs[j].taskId == id && 0 < rs[j].passes < rs[j].attempts;
    assert now == before + if last.taskId == id && 0 < last.passes < last.attempts then {|init|} else {};
  }

  lemma {:induction false} UnstableSplits(a: seq<TaskResult>, b: seq<TaskResult>)
    ensures UnstableIds(a + b) == UnstableIds(a) + UnstableIds(b)
  {
    if a == [] {
      assert a + b == b;
    } else {
      assert (a + b)[1..] == a[1..] + b;
      UnstableSplits(a[1..], b);
    }
  }

  lemma UnstableListIff(ids: seq<string>, rs: seq<TaskResult>)
    ensures Sort(ids, StringLeq) == Sort(UnstableIds(rs), StringLeq) <==>
              forall id :: multiset(ids)[id] == |set j: nat | j < |rs| && rs[j].taskId == id && 0 < rs[j].passes < rs[j].attempts|
  {
    var unstable := UnstableIds(rs);
    StringOrder();
    SortSorts(ids, StringLeq);
    SortSorts(unstable, StringLeq);
    forall id { UnstableCounts(rs, id); }
    if multiset(ids) == multiset(unstable) { SortedIsUnique(Sort(ids, StringLeq), Sort(unstable, StringLeq), StringLeq); }
    if forall id :: multiset(ids)[id] == multiset(unstable)[id] { assert multiset(ids) == multiset(unstable); }
  }

  lemma AggregatesOnlyOf(s: seq<int>, mean: Option<real>, max: Option<int>)
    ensures AggregatesOf(s, mean, max) <==> mean == Mean(s) && max == Maximum(s)
  {
    AggregatesAre(s);
    if s != [] && AggregatesOf(s, mean, max) { SameQuotient(mean.value, Mean(s).value, |s| as real); }
  }

  lemma SameQuotient(a: real, b: real, n: real)
    requires n > 0.0 && a * n == b * n
    ensures a == b
  {
    assert (a - b) * n == 0.0;
  }

  lemma AggregatesIff(r: Report)
    ensures AggregateFlaw(r).None? <==> AddsUp(r)
  {
    var rs := r.taskResults;
    SumOfIsTotal(rs, ResultPasses);
    SumOfIsTotal(rs, ResultErrors);
    SumOfIsTotal(rs, ResultBreaches);
    assert Listed(rs, ResultPasses) == Listed(rs, (t: TaskResult) => t.passes);
    assert Listed(rs, ResultErrors) == Listed(rs, (t: TaskResult) => t.errors);
    assert Listed(rs, ResultBreaches) == Listed(rs, (t: TaskResult) => t.budgetBreaches);
    UnstableListIff(r.unstableTaskIds, rs);
    TokensTogether(rs, Listed(rs, (t: TaskResult) => t.tokens));
    CallsTogether(rs, Listed(rs, (t: TaskResult) => t.modelCalls));
    SumIsTotal(AllCalls(rs));
    AggregatesOnlyOf(AllTokens(rs), r.meanTokens, r.maxObservedTokens);
    AggregatesOnlyOf(AllCalls(rs), r.meanModelCalls, r.maxObservedModelCalls);
  }
}
