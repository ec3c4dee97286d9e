/**
 * The stability pilot's report (scripts/bench-pilot.ts): the builder that groups a run's outcomes
 * by task, and the validator that derives every aggregate again from the grouped results. Means
 * are exact quotients; a report is taken as already decoded from its JSON.
 */
module BenchPilot {
  import opened Lists
  import opened Sorting
  import opened Wrappers

  datatype Flaw =
    | NoTokens(taskId: string, at: int) | NoModelCalls(taskId: string, at: int)
    | Schema | TooFewTasks | TooFewRepeats | TaskIdsRepeat | AttemptCount | ResultCount | ResultIds
    | Unfinished(taskId: string) | RepeatIndices(taskId: string) | TooManyPasses(taskId: string) | TooManyFaults(taskId: string)
    | Counts | UnstableList | TokenAggregates | CallAggregates | PassedExceedsAttempts
    | OtherCorpus | OtherModel | OtherBudget | OtherVariant | WorkerErrors | Breaches

  datatype Family = Defect | LongHorizon

  datatype Budget = Budget(wallClockMs: int, maxTokens: int)

  /** One attempt, as the run reports it. */
  datatype Outcome = Outcome(
    taskId: string, at: int, passed: bool, tokens: Option<int>, modelCalls: Option<int>, error: bool, breach: bool)

  datatype Input = Input(
    family: Family, manifestHash: string, variant: string, model: string, providerHash: string,
    budget: Budget, seed: int, repeats: int, outcomes: seq<Outcome>)

  datatype TaskResult = TaskResult(
    taskId: string, attempts: int, repeatIndices: seq<int>, passes: int,
    tokens: seq<int>, modelCalls: seq<int>, errors: int, budgetBreaches: int)

  datatype Report = Report(
    family: Family, manifestHash: string, variant: string, model: string, providerHash: string,
    budget: Budget, seed: int, tasks: int, taskIds: seq<string>, taskResults: seq<TaskResult>,
    repeats: int, attempts: int, passed: int, unstableTaskIds: seq<string>, errors: int, budgetBreaches: int,
    meanTokens: Option<real>, maxObservedTokens: Option<int>,
    totalModelCalls: int, meanModelCalls: Option<real>, maxObservedModelCalls: Option<int>)

  datatype Expected = Expected(
    family: Family, manifestHash: string, model: string, providerHash: string, budget: Budget, comparedVariants: seq<string>)

  const MIN_PILOT_TASKS := 40
  const MIN_PILOT_REPEATS := 3

  // ---------------------------------------------------------------- arithmetic

  function Sum(s: seq<int>): int { if s == [] then 0 else s[0] + Sum(s[1..]) }

  function Largest(s: seq<int>): int
    requires s != []
  {
    if |s| == 1 || Largest(s[1..]) < s[0] then s[0] else Largest(s[1..])
  }

  function Mean(s: seq<int>): Option<real> {
    if s == [] then None else Some(Sum(s) as real / |s| as real)
  }

  function Maximum(s: seq<int>): Option<int> { if s == [] then None else Some(Largest(s)) }

  /** Each outcome's measure, in order. */
  function Each(os: seq<Outcome>, measure: Outcome -> int): seq<int> {
    if os == [] then [] else [measure(os[0])] + Each(os[1..], measure)
  }

  function Passed(o: Outcome): int { if o.passed then 1 else 0 }

  function Faulty(o: Outcome): int { if o.error then 1 else 0 }

  function Breached(o: Outcome): int { if o.breach then 1 else 0 }

  function Tokens(o: Outcome): int { if o.tokens.Some? then o.tokens.value else 0 }

  function Calls(o: Outcome): int { if o.modelCalls.Some? then o.modelCalls.value else 0 }

  function Index(o: Outcome): int { o.at }

  /** How many outcomes pass a test, a test being a measure of 0 or 1. */
  function Count(os: seq<Outcome>, test: Outcome -> int): int { Sum(Each(os, test)) }

  // ------------------------------------------------------------------- builder

  function Names(os: seq<Outcome>): seq<string> { seq(|os|, i requires 0 <= i < |os| => os[i].taskId) }

  function TaskIds(os: seq<Outcome>): seq<string> { Sort(Distinct(Names(os)), StringLeq) }

  /** One task's outcomes, in the order the run gave them. */
  function Of(os: seq<Outcome>, id: string): seq<Outcome> {
    if os == [] then []
    else Of(os[..|os| - 1], id) + if os[|os| - 1].taskId == id then [os[|os| - 1]] else []
  }

  function ResultOf(os: seq<Outcome>, id: string): TaskResult {
    var mine := Of(os, id);
    TaskResult(id, |mine|, Each(mine, Index), Count(mine, Passed), Each(mine, Tokens), Each(mine, Calls),
               Count(mine, Faulty), Count(mine, Breached))
  }

  function Results(os: seq<Outcome>, ids: seq<string>): seq<TaskResult> {
    if ids == [] then [] else [ResultOf(os, ids[0])] + Results(os, ids[1..])
  }

  predicate Unstable(r: TaskResult) { 0 < r.passes < r.attempts }

  function UnstableIds(rs: seq<TaskResult>): seq<string> {
    if rs == [] then [] else (if Unstable(rs[0]) then [rs[0].taskId] else []) + UnstableIds(rs[1..])
  }

  /** The first outcome of one task without a token count, or failing that a call count. */
  function Unmeasured(os: seq<Outcome>): Option<Flaw> {
    var noTokens := Missing(os, true);
    if noTokens.Some? then noTokens else Missing(os, false)
  }

  function Missing(os: seq<Outcome>, tokens: bool): Option<Flaw> {
    if os == [] then None
    else if tokens && os[0].tokens.None? then Some(NoTokens(os[0].taskId, os[0].at))
    else if !tokens && os[0].modelCalls.None? then Some(NoModelCalls(os[0].taskId, os[0].at))
    else Missing(os[1..], tokens)
  }

  function FirstUnmeasured(os: seq<Outcome>, ids: seq<string>): Option<Flaw> {
    if ids == [] then None
    else
      var here := Unmeasured(Of(os, ids[0]));
      if here.Some? then here else FirstUnmeasured(os, ids[1..])
  }

  function Assembled(input: Input, ids: seq<string>, results: seq<TaskResult>): Report {
    var os := input.outcomes;
    Report(input.family, input.manifestHash, input.variant, input.model, input.providerHash, input.budget, input.seed,
           |ids|, ids, results, input.repeats, |os|, Count(os, Passed), UnstableIds(results),
           Count(os, Faulty), Count(os, Breached),
           Mean(Each(os, Tokens)), Maximum(Each(os, Tokens)),
           Sum(Each(os, Calls)), Mean(Each(os, Calls)), Maximum(Each(os, Calls)))
  }

  function Built(input: Input): Result<Report, Flaw> {
    var ids := TaskIds(input.outcomes);
    var gap := FirstUnmeasured(input.outcomes, ids);
    if gap.Some? then Err(gap.value) else Parsed(Assembled(input, ids, Results(input.outcomes, ids)))
  }

  /** The grouping loop: each task's outcomes under its id, in order. */
  method ByTask(os: seq<Outcome>) returns (byTask: map<string, seq<Outcome>>)
    ensures forall id :: id in byTask <==> id in Names(os)
    ensures forall id :: id in byTask ==> byTask[id] == Of(os, id)
  {
    byTask := map[];
    for i := 0 to |os|
      invariant forall id :: id in byTask <==> id in Names(os[..i])
      invariant forall id :: id in byTask ==> byTask[id] == Of(os[..i], id)
    {
      assert os[..i + 1][..i] == os[..i];
      var outcome := os[i];
      if outcome.taskId !in byTask {
        NamesAre(os[..i], outcome.taskId);
        OfAbsent(os[..i], outcome.taskId);
      }
      assert Names(os[..i + 1]) == Names(os[..i]) + [outcome.taskId];
      var outcomes := if outcome.taskId in byTask then byTask[outcome.taskId] else [];
      byTask := byTask[outcome.taskId := outcomes + [outcome]];
    }
    assert os[..|os|] == os;
  }

  /** Each task's result, unless an outcome lacks a measurement. */
  method TaskResults(os: seq<Outcome>, taskIds: seq<string>, byTask: map<string, seq<Outcome>>)
    returns (r: Result<seq<TaskResult>, Flaw>)
    requires forall id :: id in taskIds ==> id in byTask && byTask[id] == Of(os, id)
    ensures var gap := FirstUnmeasured(os, taskIds);
            r == if gap.Some? then Err(gap.value) else Ok(Results(os, taskIds))
  {
    var taskResults := [];
    for i := 0 to |taskIds|
      invariant FirstUnmeasured(os, taskIds) == FirstUnmeasured(os, taskIds[i..])
      invariant taskResults + Results(os, taskIds[i..]) == Results(os, taskIds)
    {
      var taskId := taskIds[i];
      assert taskIds[i..][1..] == taskIds[i + 1..] && taskIds[i..][0] == taskId;
      var outcomes := byTask[taskId];
      var gap := Unmeasured(outcomes);
      if gap.Some? { return Err(gap.value); }
      var result := TaskResult(taskId, |outcomes|, Each(outcomes, Index), Count(outcomes, Passed),
                               Each(outcomes, Tokens), Each(outcomes, Calls), Count(outcomes, Faulty), Count(outcomes, Breached));
      Regroup(taskResults, [result], Results(os, taskIds[i + 1..]));
      taskResults := taskResults + [result];
    }
    assert taskIds[|taskIds|..] == [] && taskResults + [] == taskResults;
    return Ok(taskResults);
  }

  method BuildPilotReport(input: Input) returns (r: Result<Report, Flaw>)
    ensures r == Built(input)
  {
    var taskIds := TaskIds(input.outcomes);
    var byTask := ByTask(input.outcomes);
    SortedIds(input.outcomes);
    forall id | id in taskIds ensures id in byTask { NamesAre(input.outcomes, id); }
    var results := TaskResults(input.outcomes, taskIds, byTask);
    match results {
      case Err(flaw) => return Err(flaw);
      case Ok(taskResults) => return Parsed(Assembled(input, taskIds, taskResults));
    }
  }

  // -------------------------------------------------------------------- schema

  predicate NonNegative(s: seq<int>) { forall i :: 0 <= i < |s| ==> s[i] >= 0 }

  predicate ResultFits(r: TaskResult) {
    && r.taskId != "" && r.attempts >= 1 && NonNegative(r.repeatIndices) && r.passes >= 0
    && NonNegative(r.tokens) && NonNegative(r.modelCalls) && r.errors >= 0 && r.budgetBreaches >= 0
  }

  predicate Fits(r: Report) {
    && r.manifestHash != "" && r.variant != "" && r.model != "" && r.providerHash != ""
    && r.budget.wallClockMs >= 1 && r.budget.maxTokens >= 1
    && r.tasks >= 1
    && (forall i :: 0 <= i < |r.taskIds| ==> r.taskIds[i] != "")
    && (forall i :: 0 <= i < |r.taskResults| ==> ResultFits(r.taskResults[i]))
    && r.repeats >= 1 && r.attempts >= 1 && r.passed >= 0
    && (forall i :: 0 <= i < |r.unstableTaskIds| ==> r.unstableTaskIds[i] != "")
    && r.errors >= 0 && r.budgetBreaches >= 0
    && (r.meanTokens.Some? ==> r.meanTokens.value >= 0.0)
    && (r.maxObservedTokens.Some? ==> r.maxObservedTokens.value >= 0)
    && r.totalModelCalls >= 0
    && (r.meanModelCalls.Some? ==> r.meanModelCalls.value >= 0.0)
    && (r.maxObservedModelCalls.Some? ==> r.maxObservedModelCalls.value >= 0)
  }

  function Parsed(r: Report): Result<Report, Flaw> { if Fits(r) then Ok(r) else Err(Schema) }

  // ----------------------------------------------------------------- validator

  function Upto(n: nat): seq<int> { if n == 0 then [] else Upto(n - 1) + [n - 1] }

  function FlawOf(r: TaskResult, repeats: nat): Option<Flaw> {
    if r.attempts != repeats || |r.tokens| != repeats || |r.modelCalls| != repeats || |r.repeatIndices| != repeats then
      Some(Unfinished(r.taskId))
    else if Sort(r.repeatIndices, NumberLeq) != Upto(repeats) then Some(RepeatIndices(r.taskId))
    else if r.passes > r.attempts then Some(TooManyPasses(r.taskId))
    else if r.errors > r.attempts || r.budgetBreaches > r.attempts then Some(TooManyFaults(r.taskId))
    else None
  }

  function FirstFlaw(rs: seq<TaskResult>, repeats: nat): Option<Flaw> {
    if rs == [] then None
    else if FlawOf(rs[0], repeats).Some? then FlawOf(rs[0], repeats)
    else FirstFlaw(rs[1..], repeats)
  }

  function SumOf(rs: seq<TaskResult>, measure: TaskResult -> int): int {
    if rs == [] then 0 else measure(rs[0]) + SumOf(rs[1..], measure)
  }

  function AllTokens(rs: seq<TaskResult>): seq<int> {
    if rs == [] then [] else rs[0].tokens + AllTokens(rs[1..])
  }

  function AllCalls(rs: seq<TaskResult>): seq<int> {
    if rs == [] then [] else rs[0].modelCalls + AllCalls(rs[1..])
  }

  function ResultPasses(r: TaskResult): int { r.passes }

  function ResultErrors(r: TaskResult): int { r.errors }

  function ResultBreaches(r: TaskResult): int { r.budgetBreaches }

  function ToSet(s: seq<string>): set<string> { set i | 0 <= i < |s| :: s[i] }

  function ResultIdSet(rs: seq<TaskResult>): set<string> { set i | 0 <= i < |rs| :: rs[i].taskId }

  /** The guards up to the aggregates, in the validator's order. */
  function ShapeFlaw(r: Report): Option<Flaw>
    requires Fits(r)
  {
    if r.tasks < MIN_PILOT_TASKS then Some(TooFewTasks)
    else if r.repeats < MIN_PILOT_REPEATS then Some(TooFewRepeats)
    else if |r.taskIds| != r.tasks || |ToSet(r.taskIds)| != r.tasks then Some(TaskIdsRepeat)
    else if r.attempts != r.tasks * r.repeats then Some(AttemptCount)
    else if |r.taskResults| != r.tasks then Some(ResultCount)
    else if |ResultIdSet(r.taskResults)| != r.tasks
         || (exists i :: 0 <= i < |r.taskIds| && r.taskIds[i] !in ResultIdSet(r.taskResults)) then Some(ResultIds)
    else FirstFlaw(r.taskResults, r.repeats)
  }

  function AggregateFlaw(r: Report): Option<Flaw> {
    var tokens, calls := AllTokens(r.taskResults), AllCalls(r.taskResults);
    if SumOf(r.taskResults, ResultPasses) != r.passed || SumOf(r.taskResults, ResultErrors) != r.errors
       || SumOf(r.taskResults, ResultBreaches) != r.budgetBreaches then Some(Counts)
    else if Sort(r.unstableTaskIds, StringLeq) != Sort(UnstableIds(r.taskResults), StringLeq) then Some(UnstableList)
    else if r.meanTokens != Mean(tokens) || r.maxObservedTokens != Maximum(tokens) then Some(TokenAggregates)
    else if r.totalModelCalls != Sum(calls) || r.meanModelCalls != Mean(calls)
         || r.maxObservedModelCalls != Maximum(calls) then Some(CallAggregates)
    else None
  }

  function ExpectationFlaw(r: Report, e: Expected): Option<Flaw> {
    if r.family != e.family || r.manifestHash != e.manifestHash then Some(OtherCorpus)
    else if r.model != e.model || r.providerHash != e.providerHash then Some(OtherModel)
    else if r.budget.wallClockMs != e.budget.wallClockMs || r.budget.maxTokens != e.budget.maxTokens then Some(OtherBudget)
    else if r.variant !in e.comparedVariants then Some(OtherVariant)
    else if r.errors > 0 then Some(WorkerErrors)
    else if r.budgetBreaches > 0 then Some(Breaches)
    else None
  }

  function ValidatePilotReport(r: Report, e: Expected): Result<Report, Flaw> {
    if !Fits(r) then Err(Schema)
    else if ShapeFlaw(r).Some? then Err(ShapeFlaw(r).value)
    else if AggregateFlaw(r).Some? then Err(AggregateFlaw(r).value)
    else if r.passed > r.attempts then Err(PassedExceedsAttempts)
    else if ExpectationFlaw(r, e).Some? then Err(ExpectationFlaw(r, e).value)
    else Ok(r)
  }

  // -------------------------------------------------------- grouping loses nothing

  lemma {:induction false} OfAbsent(os: seq<Outcome>, id: string)
    requires forall i :: 0 <= i < |os| ==> os[i].taskId != id
    ensures Of(os, id) == []
  {
    if os != [] { OfAbsent(os[..|os| - 1], id); }
  }

  lemma NamesAre(os: seq<Outcome>, id: string)
    ensures id in Names(os) <==> exists i :: 0 <= i < |os| && os[i].taskId == id
  {
    if i :| 0 <= i < |os| && os[i].taskId == id {
      assert Names(os)[i] == id;
    }
  }

  lemma NoRepeatsByMultiset<T>(s: seq<T>)
    ensures NoRepeats(s) <==> forall x :: multiset(s)[x] <= 1
  {
    if NoRepeats(s) {
      forall x ensures multiset(s)[x] <= 1 { OnceIn(s, x); }
    }
    if i, j :| 0 <= i < j < |s| && s[i] == s[j] {
      assert s == s[..j] + [s[j]] + s[j + 1..];
      assert s[i] in s[..j];
      assert multiset(s) == multiset(s[..j]) + multiset{s[j]} + multiset(s[j + 1..]);
      assert multiset(s)[s[j]] >= 2;
    }
  }

  lemma {:induction false} OnceIn<T>(s: seq<T>, x: T)
    requires NoRepeats(s)
    ensures multiset(s)[x] <= 1
  {
    if s != [] {
      OnceIn(s[1..], x);
      assert s == [s[0]] + s[1..];
      assert multiset(s) == multiset{s[0]} + multiset(s[1..]);
      if x == s[0] { assert x !in s[1..]; }
    }
  }

  lemma SortedIds(os: seq<Outcome>)
    ensures var ids := TaskIds(os);
      && NoRepeats(ids) && Sorted(ids, StringLeq)
      && (forall id :: id in ids <==> exists i :: 0 <= i < |os| && os[i].taskId == id)
  {
    var names := Names(os);
    DistinctKeepsAll(names);
    StringOrder();
    SortSorts(Distinct(names), StringLeq);
    NoRepeatsByMultiset(Distinct(names));
    NoRepeatsByMultiset(TaskIds(os));
    forall id ensures id in TaskIds(os) <==> exists i :: 0 <= i < |os| && os[i].taskId == id {
      NamesAre(os, id);
      assert id in TaskIds(os) <==> id in Distinct(names);
    }
  }

  /** The outcomes task by task. */
  function Grouped(os: seq<Outcome>, ids: seq<string>): seq<Outcome> {
    if ids == [] then [] else Of(os, ids[0]) + Grouped(os, ids[1..])
  }

  lemma {:induction false} OfKeeps(os: seq<Outcome>, id: string, o: Outcome)
    ensures multiset(Of(os, id))[o] == if o.taskId == id then multiset(os)[o] else 0
  {
    if os != [] {
      OfKeeps(os[..|os| - 1], id, o);
      assert os == os[..|os| - 1] + [os[|os| - 1]];
      assert multiset(os) == multiset(os[..|os| - 1]) + multiset{os[|os| - 1]};
    }
  }

  lemma {:induction false} GroupedKeeps(os: seq<Outcome>, ids: seq<string>, o: Outcome)
    requires NoRepeats(ids)
    ensures multiset(Grouped(os, ids))[o] == if o.taskId in ids then multiset(os)[o] else 0
  {
    if ids != [] {
      OfKeeps(os, ids[0], o);
      GroupedKeeps(os, ids[1..], o);
      assert ids == [ids[0]] + ids[1..];
    }
  }

  /** Grouping by task only reorders the outcomes. */
  lemma GroupingOnlyReorders(os: seq<Outcome>)
    ensures multiset(Grouped(os, TaskIds(os))) == multiset(os)
  {
    SortedIds(os);
    forall o ensures multiset(Grouped(os, TaskIds(os)))[o] == multiset(os)[o] {
      GroupedKeeps(os, TaskIds(os), o);
      if o in multiset(os) {
        assert o in os;
      }
    }
  }

  // ------------------------------------------- aggregates do not see the order

  lemma {:induction false} EachSplits(a: seq<Outcome>, b: seq<Outcome>, measure: Outcome -> int)
    ensures Each(a + b, measure) == Each(a, measure) + Each(b, measure)
    ensures |Each(a, measure)| == |a|
  {
    if a == [] {
      assert a + b == b;
    } else {
      assert (a + b)[1..] == a[1..] + b;
      EachSplits(a[1..], b, measure);
    }
  }

  lemma {:induction false} SumSplits(a: seq<int>, b: seq<int>)
    ensures Sum(a + b) == Sum(a) + Sum(b)
  {
    if a == [] {
      assert a + b == b;
    } else {
      assert (a + b)[1..] == a[1..] + b;
      SumSplits(a[1..], b);
    }
  }

  lemma {:induction false} EachReorders(a: seq<Outcome>, b: seq<Outcome>, measure: Outcome -> int)
    requires multiset(a) == multiset(b)
    ensures multiset(Each(a, measure)) == multiset(Each(b, measure))
    decreases |a|
  {
    SameSize(a, b);
    if a != [] {
      var i := HeadElsewhere(a, b);
      EachReorders(a[1..], b[..i] + b[i + 1..], measure);
      EachSplits(b[..i] + [b[i]], b[i + 1..], measure);
      EachSplits(b[..i], [b[i]], measure);
      EachSplits(b[..i], b[i + 1..], measure);
      assert Each([b[i]], measure) == [measure(b[i])];
    }
  }

  lemma {:induction false} SumReorders(a: seq<int>, b: seq<int>)
    requires multiset(a) == multiset(b)
    ensures Sum(a) == Sum(b)
    decreases |a|
  {
    SameSize(a, b);
    if a != [] {
      var i := HeadElsewhere(a, b);
      SumReorders(a[1..], b[..i] + b[i + 1..]);
      SumSplits(b[..i] + [b[i]], b[i + 1..]);
      SumSplits(b[..i], [b[i]]);
      SumSplits(b[..i], b[i + 1..]);
      assert Sum([b[i]]) == b[i] + Sum([b[i]][1..]);
    }
  }

  lemma {:induction false} LargestIs(s: seq<int>)
    requires s != []
    ensures Largest(s) in s && forall x :: x in s ==> x <= Largest(s)
  {
    if |s| > 1 {
      LargestIs(s[1..]);
      assert s == [s[0]] + s[1..];
    }
  }

  lemma LargestReorders(a: seq<int>, b: seq<int>)
    requires a != [] && b != [] && multiset(a) == multiset(b)
    ensures Largest(a) == Largest(b)
  {
    LargestIs(a);
    LargestIs(b);
    assert Largest(a) in multiset(b) && Largest(b) in multiset(a);
    assert Largest(a) in b && Largest(b) in a;
  }

  /** The three aggregates over a list are the same over any reordering of it. */
  lemma AggregatesIgnoreOrder(a: seq<int>, b: seq<int>)
    requires multiset(a) == multiset(b)
    ensures Sum(a) == Sum(b) && Mean(a) == Mean(b) && Maximum(a) == Maximum(b)
  {
    SameSize(a, b);
    SumReorders(a, b);
    if a != [] { LargestReorders(a, b); }
  }

  // ------------------------------------- the builder's aggregates are the validator's

  lemma {:induction false} ResultsAt(os: seq<Outcome>, ids: seq<string>)
    ensures |Results(os, ids)| == |ids|
    ensures forall i :: 0 <= i < |ids| ==> Results(os, ids)[i] == ResultOf(os, ids[i])
  {
    if ids != [] { ResultsAt(os, ids[1..]); }
  }

  lemma {:induction false} RegroupedPasses(os: seq<Outcome>, ids: seq<string>)
    ensures SumOf(Results(os, ids), ResultPasses) == Count(Grouped(os, ids), Passed)
  {
    if ids != [] {
      RegroupedPasses(os, ids[1..]);
      EachSplits(Of(os, ids[0]), Grouped(os, ids[1..]), Passed);
      SumSplits(Each(Of(os, ids[0]), Passed), Each(Grouped(os, ids[1..]), Passed));
      assert Results(os, ids)[1..] == Results(os, ids[1..]);
    }
  }

  lemma {:induction false} RegroupedErrors(os: seq<Outcome>, ids: seq<string>)
    ensures SumOf(Results(os, ids), ResultErrors) == Count(Grouped(os, ids), Faulty)
  {
    if ids != [] {
      RegroupedErrors(os, ids[1..]);
      EachSplits(Of(os, ids[0]), Grouped(os, ids[1..]), Faulty);
      SumSplits(Each(Of(os, ids[0]), Faulty), Each(Grouped(os, ids[1..]), Faulty));
      assert Results(os, ids)[1..] == Results(os, ids[1..]);
    }
  }

  lemma {:induction false} RegroupedBreaches(os: seq<Outcome>, ids: seq<string>)
    ensures SumOf(Results(os, ids), ResultBreaches) == Count(Grouped(os, ids), Breached)
  {
    if ids != [] {
      RegroupedBreaches(os, ids[1..]);
      EachSplits(Of(os, ids[0]), Grouped(os, ids[1..]), Breached);
      SumSplits(Each(Of(os, ids[0]), Breached), Each(Grouped(os, ids[1..]), Breached));
      assert Results(os, ids)[1..] == Results(os, ids[1..]);
    }
  }

  lemma {:induction false} RegroupedMeasures(os: seq<Outcome>, ids: seq<string>)
    ensures AllTokens(Results(os, ids)) == Each(Grouped(os, ids), Tokens)
    ensures AllCalls(Results(os, ids)) == Each(Grouped(os, ids), Calls)
  {
    if ids != [] {
      RegroupedMeasures(os, ids[1..]);
      EachSplits(Of(os, ids[0]), Grouped(os, ids[1..]), Tokens);
      EachSplits(Of(os, ids[0]), Grouped(os, ids[1..]), Calls);
      assert Results(os, ids)[1..] == Results(os, ids[1..]);
    }
  }

  /** Every aggregate the builder takes over the run is the one the validator derives from the
      grouped results. */
  lemma AggregatesAgree(input: Input)
    ensures var ids := TaskIds(input.outcomes);
            AggregateFlaw(Assembled(input, ids, Results(input.outcomes, ids))).None?
  {
    var os, ids := input.outcomes, TaskIds(input.outcomes);
    var grouped := Grouped(os, ids);
    GroupingOnlyReorders(os);
    RegroupedPasses(os, ids);
    RegroupedErrors(os, ids);
    RegroupedBreaches(os, ids);
    RegroupedMeasures(os, ids);
    EachReorders(grouped, os, Passed);
    SumReorders(Each(grouped, Passed), Each(os, Passed));
    EachReorders(grouped, os, Faulty);
    SumReorders(Each(grouped, Faulty), Each(os, Faulty));
    EachReorders(grouped, os, Breached);
    SumReorders(Each(grouped, Breached), Each(os, Breached));
    EachReorders(grouped, os, Tokens);
    AggregatesIgnoreOrder(Each(grouped, Tokens), Each(os, Tokens));
    EachReorders(grouped, os, Calls);
    AggregatesIgnoreOrder(Each(grouped, Calls), Each(os, Calls));
  }

  // ------------------------------------------------------ every repeat exactly once

  /** How many outcomes are repeat `k` of a task. */
  function Times(os: seq<Outcome>, id: string, k: int): nat {
    if os == [] then 0
    else Times(os[..|os| - 1], id, k) + if os[|os| - 1].taskId == id && os[|os| - 1].at == k then 1 else 0
  }

  /** Every task of the run has each of its repeats exactly once, and no other. */
  ghost predicate ExactlyOnce(os: seq<Outcome>, repeats: int) {
    forall id :: id in TaskIds(os) ==> OnceEach(os, id, repeats)
  }

  lemma {:induction false} TimesIsIndex(os: seq<Outcome>, id: string, k: int)
    ensures multiset(Each(Of(os, id), Index))[k] == Times(os, id, k)
  {
    if os != [] {
      var init, last := os[..|os| - 1], os[|os| - 1];
      TimesIsIndex(init, id, k);
      if last.taskId == id {
        EachSplits(Of(init, id), [last], Index);
        assert Each([last], Index) == [last.at];
      } else {
        assert Of(os, id) == Of(init, id);
      }
    }
  }

  lemma {:induction false} UptoHolds(n: nat)
    ensures |Upto(n)| == n && Sorted(Upto(n), NumberLeq)
    ensures forall k :: multiset(Upto(n))[k] == if 0 <= k < n then 1 else 0
    ensures forall i :: 0 <= i < n ==> Upto(n)[i] == i
  {
    if n > 0 { UptoHolds(n - 1); }
  }

  /** A list of the numbers below `n`, each once. */
  ghost predicate OnceUpto(s: seq<int>, n: nat) {
    forall k :: multiset(s)[k] == if 0 <= k < n then 1 else 0
  }

  lemma SortsToUpto(s: seq<int>, n: nat)
    ensures Sort(s, NumberLeq) == Upto(n) <==> OnceUpto(s, n)
    ensures OnceUpto(s, n) ==> |s| == n
  {
    UptoHolds(n);
    SortSorts(s, NumberLeq);
    if OnceUpto(s, n) {
      assert multiset(Sort(s, NumberLeq)) == multiset(Upto(n));
      SortedIsUnique(Sort(s, NumberLeq), Upto(n), NumberLeq);
    }
  }

  lemma {:induction false} CountBounds(os: seq<Outcome>, test: Outcome -> int)
    requires forall o :: 0 <= test(o) <= 1
    ensures 0 <= Count(os, test) <= |os|
    ensures Count(os, test) == 0 <==> forall i :: 0 <= i < |os| ==> test(os[i]) == 0
  {
    if os != [] {
      CountBounds(os[1..], test);
      assert os == [os[0]] + os[1..];
    }
  }

  ghost predicate OnceEach(os: seq<Outcome>, id: string, repeats: int) {
    forall k :: Times(os, id, k) == if 0 <= k < repeats then 1 else 0
  }

  lemma OnceEachIsOnceUpto(os: seq<Outcome>, id: string, repeats: nat)
    ensures OnceEach(os, id, repeats) <==> OnceUpto(Each(Of(os, id), Index), repeats)
  {
    var indices := Each(Of(os, id), Index);
    if OnceEach(os, id, repeats) {
      forall k ensures multiset(indices)[k] == if 0 <= k < repeats then 1 else 0 { TimesIsIndex(os, id, k); }
    }
    if OnceUpto(indices, repeats) {
      forall k ensures Times(os, id, k) == if 0 <= k < repeats then 1 else 0 {
        TimesIsIndex(os, id, k);
        assert multiset(indices)[k] == if 0 <= k < repeats then 1 else 0;
      }
    }
  }

  lemma SortsWhenOnceEach(os: seq<Outcome>, id: string, repeats: nat)
    ensures Sort(Each(Of(os, id), Index), NumberLeq) == Upto(repeats) <==> OnceEach(os, id, repeats)
    ensures OnceEach(os, id, repeats) ==> |Of(os, id)| == repeats
  {
    OnceEachIsOnceUpto(os, id, repeats);
    SortsToUpto(Each(Of(os, id), Index), repeats);
    EachSplits(Of(os, id), [], Index);
  }

  /** A built task result passes the validator's checks exactly when its repeats are all there once. */
  lemma BuiltResultFlaw(os: seq<Outcome>, id: string, repeats: nat)
    ensures FlawOf(ResultOf(os, id), repeats).None? <==> OnceEach(os, id, repeats)
  {
    var mine := Of(os, id);
    EachSplits(mine, [], Index);
    EachSplits(mine, [], Tokens);
    EachSplits(mine, [], Calls);
    CountBounds(mine, Passed);
    CountBounds(mine, Faulty);
    CountBounds(mine, Breached);
    SortsWhenOnceEach(os, id, repeats);
  }

  lemma {:induction false} NoFlaws(rs: seq<TaskResult>, repeats: nat)
    ensures FirstFlaw(rs, repeats).None? <==> forall i :: 0 <= i < |rs| ==> FlawOf(rs[i], repeats).None?
  {
    if rs != [] {
      NoFlaws(rs[1..], repeats);
      assert rs == [rs[0]] + rs[1..];
    }
  }

  lemma BuiltResultsFlaw(os: seq<Outcome>, repeats: nat)
    ensures FirstFlaw(Results(os, TaskIds(os)), repeats).None? <==> ExactlyOnce(os, repeats)
  {
    var ids := TaskIds(os);
    ResultsAt(os, ids);
    NoFlaws(Results(os, ids), repeats);
    forall i | 0 <= i < |ids| ensures FlawOf(Results(os, ids)[i], repeats).None? <==> OnceEach(os, ids[i], repeats) {
      BuiltResultFlaw(os, ids[i], repeats);
    }
  }

  lemma {:induction false} GroupsOfEqualSize(os: seq<Outcome>, ids: seq<string>, n: nat)
    requires forall id :: id in ids ==> |Of(os, id)| == n
    ensures |Grouped(os, ids)| == |ids| * n
  {
    if ids != [] {
      GroupsOfEqualSize(os, ids[1..], n);
      assert |ids| * n == (|ids| - 1) * n + n;
    }
  }

  lemma ExactlyOnceCounts(os: seq<Outcome>, repeats: nat)
    requires ExactlyOnce(os, repeats)
    ensures |os| == |TaskIds(os)| * repeats
  {
    var ids := TaskIds(os);
    forall id | id in ids ensures |Of(os, id)| == repeats { SortsWhenOnceEach(os, id, repeats); }
    GroupsOfEqualSize(os, ids, repeats);
    GroupingOnlyReorders(os);
    SameSize(Grouped(os, ids), os);
  }

  // ------------------------------------------------------------------ main results

  lemma {:induction false} SetSize(s: seq<string>)
    ensures |ToSet(s)| <= |s|
    ensures |ToSet(s)| == |s| <==> NoRepeats(s)
  {
    if s != [] {
      var rest := s[1..];
      SetSize(rest);
      assert s == [s[0]] + rest;
      assert ToSet(s) == ToSet(rest) + {s[0]};
      assert s[0] in ToSet(rest) <==> s[0] in rest;
    }
  }

  lemma ResultIdsAreTaskIds(os: seq<Outcome>, ids: seq<string>)
    ensures ResultIdSet(Results(os, ids)) == ToSet(ids)
  {
    ResultsAt(os, ids);
    forall id ensures id in ResultIdSet(Results(os, ids)) <==> id in ToSet(ids) {
      if id in ToSet(ids) {
        var i :| 0 <= i < |ids| && ids[i] == id;
        assert Results(os, ids)[i].taskId == id;
      }
    }
  }

  /** An outcome the report can hold: named, measured, and free of errors and breaches. */
  predicate Sound(o: Outcome) {
    && o.taskId != ""
    && o.tokens.Some? && o.tokens.value >= 0 && o.modelCalls.Some? && o.modelCalls.value >= 0
    && !o.error && !o.breach
  }

  predicate AsExpected(input: Input, e: Expected) {
    && input.manifestHash != "" && input.variant != "" && input.model != "" && input.providerHash != ""
    && input.budget.wallClockMs >= 1 && input.budget.maxTokens >= 1
    && input.family == e.family && input.manifestHash == e.manifestHash
    && input.model == e.model && input.providerHash == e.providerHash
    && input.budget == e.budget && input.variant in e.comparedVariants
  }

  /** A pilot worth accepting: enough tasks and repeats, each repeat of each task exactly once,
      every outcome sound, against the arms and the envelope expected. */
  ghost predicate GoodPilot(input: Input, e: Expected) {
    && |TaskIds(input.outcomes)| >= MIN_PILOT_TASKS && input.repeats >= MIN_PILOT_REPEATS
    && ExactlyOnce(input.outcomes, input.repeats)
    && (forall i :: 0 <= i < |input.outcomes| ==> Sound(input.outcomes[i]))
    && AsExpected(input, e)
  }

  lemma OutcomeIn(os: seq<Outcome>, o: Outcome, id: string)
    ensures o in Of(os, id) <==> o in os && o.taskId == id
  {
    OfKeeps(os, id, o);
    assert o in Of(os, id) <==> o in multiset(Of(os, id));
    assert o in os <==> o in multiset(os);
  }

  lemma {:induction false} NoneMissing(os: seq<Outcome>, tokens: bool)
    ensures Missing(os, tokens).None?
            <==> forall o :: o in os ==> if tokens then o.tokens.Some? else o.modelCalls.Some?
  {
    if os != [] {
      NoneMissing(os[1..], tokens);
      assert os == [os[0]] + os[1..];
    }
  }

  lemma {:induction false} NoneUnmeasured(os: seq<Outcome>, ids: seq<string>)
    ensures FirstUnmeasured(os, ids).None?
            <==> forall o :: o in os && o.taskId in ids ==> o.tokens.Some? && o.modelCalls.Some?
  {
    if ids != [] {
      NoneUnmeasured(os, ids[1..]);
      NoneMissing(Of(os, ids[0]), true);
      NoneMissing(Of(os, ids[0]), false);
      forall o ensures o in Of(os, ids[0]) <==> o in os && o.taskId == ids[0] { OutcomeIn(os, o, ids[0]); }
      assert ids == [ids[0]] + ids[1..];
    }
  }

  /** The builder throws for a missing measurement exactly when some outcome lacks one. */
  lemma BuiltWhenMeasured(os: seq<Outcome>)
    ensures FirstUnmeasured(os, TaskIds(os)).None? <==> forall o :: o in os ==> o.tokens.Some? && o.modelCalls.Some?
  {
    SortedIds(os);
    NoneUnmeasured(os, TaskIds(os));
    forall o | o in os ensures o.taskId in TaskIds(os) {
      var i :| 0 <= i < |os| && os[i] == o;
    }
  }

  lemma {:induction false} EachFits(os: seq<Outcome>, measure: Outcome -> int)
    ensures NonNegative(Each(os, measure)) <==> forall o :: o in os ==> measure(o) >= 0
    ensures NonNegative(Each(os, measure)) ==> Sum(Each(os, measure)) >= 0
  {
    if os != [] {
      EachFits(os[1..], measure);
      assert os == [os[0]] + os[1..];
      var rest := Each(os[1..], measure);
      assert Each(os, measure) == [measure(os[0])] + rest;
      assert NonNegative(Each(os, measure)) <==> measure(os[0]) >= 0 && NonNegative(rest) by {
        if NonNegative(Each(os, measure)) {
          assert Each(os, measure)[0] >= 0;
          forall i | 0 <= i < |rest| ensures rest[i] >= 0 { assert Each(os, measure)[i + 1] >= 0; }
        }
      }
    }
  }

  /** What the schema asks of an outcome. */
  predicate Fitting(o: Outcome) { o.taskId != "" && o.at >= 0 && Tokens(o) >= 0 && Calls(o) >= 0 }

  lemma OwnOutcomes(os: seq<Outcome>, id: string)
    ensures forall o :: o in Of(os, id) <==> o in os && o.taskId == id
    ensures id in TaskIds(os) ==> Of(os, id) != []
  {
    forall o ensures o in Of(os, id) <==> o in os && o.taskId == id { OutcomeIn(os, o, id); }
    SortedIds(os);
    if id in TaskIds(os) {
      var i :| 0 <= i < |os| && os[i].taskId == id;
      assert os[i] in Of(os, id);
    }
  }

  lemma ResultFitsIff(os: seq<Outcome>, id: string)
    requires id in TaskIds(os)
    ensures ResultFits(ResultOf(os, id)) <==> forall o :: o in os && o.taskId == id ==> Fitting(o)
  {
    var mine := Of(os, id);
    OwnOutcomes(os, id);
    assert mine[0] in mine;
    EachFits(mine, Index);
    EachFits(mine, Tokens);
    EachFits(mine, Calls);
    CountBounds(mine, Passed);
    CountBounds(mine, Faulty);
    CountBounds(mine, Breached);
    assert ResultFits(ResultOf(os, id)) <==> id != "" && forall o :: o in mine ==> o.at >= 0 && Tokens(o) >= 0 && Calls(o) >= 0;
  }

  lemma ResultsFitIff(os: seq<Outcome>)
    ensures var rs := Results(os, TaskIds(os));
      (forall i :: 0 <= i < |rs| ==> ResultFits(rs[i])) <==> forall o :: o in os ==> Fitting(o)
  {
    var ids := TaskIds(os);
    var rs := Results(os, ids);
    ResultsAt(os, ids);
    SortedIds(os);
    forall i | 0 <= i < |ids|
      ensures ResultFits(rs[i]) <==> forall o :: o in os && o.taskId == ids[i] ==> Fitting(o)
    {
      ResultFitsIff(os, ids[i]);
    }
    if forall i :: 0 <= i < |rs| ==> ResultFits(rs[i]) {
      forall o | o in os ensures Fitting(o) {
        var k :| 0 <= k < |os| && os[k] == o;
        assert o.taskId in ids;
        var i :| 0 <= i < |ids| && ids[i] == o.taskId;
        assert ResultFits(rs[i]);
      }
    }
  }

  lemma {:induction false} UnstableAreIds(os: seq<Outcome>, ids: seq<string>, id: string)
    requires id in UnstableIds(Results(os, ids))
    ensures id in ids
  {
    if ids != [] {
      assert Results(os, ids)[1..] == Results(os, ids[1..]);
      if id in UnstableIds(Results(os, ids[1..])) { UnstableAreIds(os, ids[1..], id); }
    }
  }

  lemma AggregatesFit(s: seq<int>)
    requires NonNegative(s) && Sum(s) >= 0
    ensures Mean(s).Some? ==> Mean(s).value >= 0.0
    ensures Maximum(s).Some? ==> Maximum(s).value >= 0
  {
    if s != [] { LargestIs(s); }
  }

  /** The built report parses exactly when its names and budget do and every outcome does. */
  lemma BuiltFits(input: Input)
    requires |TaskIds(input.outcomes)| >= 1 && input.repeats >= 1
    ensures var ids := TaskIds(input.outcomes);
      Fits(Assembled(input, ids, Results(input.outcomes, ids)))
      <==> && input.manifestHash != "" && input.variant != "" && input.model != "" && input.providerHash != ""
           && input.budget.wallClockMs >= 1 && input.budget.maxTokens >= 1
           && forall o :: o in input.outcomes ==> Fitting(o)
  {
    var os, ids := input.outcomes, TaskIds(input.outcomes);
    var rs := Results(os, ids);
    ResultsFitIff(os);
    SortedIds(os);
    assert ids[0] in ids;
    CountBounds(os, Passed);
    CountBounds(os, Faulty);
    CountBounds(os, Breached);
    if forall o :: o in os ==> Fitting(o) {
      EachFits(os, Tokens);
      EachFits(os, Calls);
      AggregatesFit(Each(os, Tokens));
      AggregatesFit(Each(os, Calls));
      forall i | 0 <= i < |ids| ensures ids[i] != "" {
        assert ids[i] in ids;
        var k :| 0 <= k < |os| && os[k].taskId == ids[i];
        assert os[k] in os;
      }
      forall i | 0 <= i < |UnstableIds(rs)| ensures UnstableIds(rs)[i] != "" {
        UnstableAreIds(os, ids, UnstableIds(rs)[i]);
        assert UnstableIds(rs)[i] in ids;
      }
    }
  }

  lemma {:induction false} TimesOfMember(os: seq<Outcome>, o: Outcome)
    requires o in os
    ensures Times(os, o.taskId, o.at) >= 1
  {
    assert os == os[..|os| - 1] + [os[|os| - 1]];
    if o != os[|os| - 1] { TimesOfMember(os[..|os| - 1], o); }
  }

  lemma OnceEachAreFitting(os: seq<Outcome>, repeats: int, o: Outcome)
    requires ExactlyOnce(os, repeats) && o in os
    ensures 0 <= o.at < repeats
  {
    SortedIds(os);
    var i :| 0 <= i < |os| && os[i] == o;
    assert o.taskId in TaskIds(os);
    assert OnceEach(os, o.taskId, repeats);
    TimesOfMember(os, o);
  }

  /** A built report names each of its tasks once, in its ids and in its results. */
  lemma BuiltNames(os: seq<Outcome>)
    ensures var ids, rs := TaskIds(os), Results(os, TaskIds(os));
      && |rs| == |ids| == |ToSet(ids)| == |ResultIdSet(rs)|
      && forall i :: 0 <= i < |ids| ==> ids[i] in ResultIdSet(rs)
  {
    var ids := TaskIds(os);
    SortedIds(os);
    SetSize(ids);
    ResultsAt(os, ids);
    ResultIdsAreTaskIds(os, ids);
    forall i | 0 <= i < |ids| ensures ids[i] in ToSet(ids) {}
  }

  /** The shape guards pass a built report exactly when the run was large enough and complete. */
  lemma BuiltShape(input: Input)
    requires var ids := TaskIds(input.outcomes); Fits(Assembled(input, ids, Results(input.outcomes, ids)))
    ensures var ids := TaskIds(input.outcomes);
      ShapeFlaw(Assembled(input, ids, Results(input.outcomes, ids))).None?
      <==> |ids| >= MIN_PILOT_TASKS && input.repeats >= MIN_PILOT_REPEATS && ExactlyOnce(input.outcomes, input.repeats)
  {
    var os := input.outcomes;
    BuiltNames(os);
    BuiltResultsFlaw(os, input.repeats);
    if ExactlyOnce(os, input.repeats) { ExactlyOnceCounts(os, input.repeats); }
  }

  /** Acceptance is every guard passed. */
  lemma AcceptedPassesAll(r: Report, e: Expected)
    ensures ValidatePilotReport(r, e).Ok? <==>
      Fits(r) && ShapeFlaw(r).None? && AggregateFlaw(r).None? && r.passed <= r.attempts && ExpectationFlaw(r, e).None?
    ensures ValidatePilotReport(r, e).Ok? ==> ValidatePilotReport(r, e) == Ok(r)
  {
  }

  lemma BuiltIsAssembled(input: Input)
    ensures Built(input).Ok? ==>
      && Built(input).value == Assembled(input, TaskIds(input.outcomes), Results(input.outcomes, TaskIds(input.outcomes)))
      && FirstUnmeasured(input.outcomes, TaskIds(input.outcomes)).None?
  {
  }

  lemma CleanWhenUncounted(os: seq<Outcome>, i: nat)
    requires i < |os| && Count(os, Faulty) <= 0 && Count(os, Breached) <= 0
    ensures !os[i].error && !os[i].breach
  {
    CountBounds(os, Faulty);
    CountBounds(os, Breached);
    assert Faulty(os[i]) == 0 && Breached(os[i]) == 0;
  }

  lemma GoodWhenAccepted(input: Input, e: Expected)
    requires Built(input).Ok? && ValidatePilotReport(Built(input).value, e).Ok?
    ensures GoodPilot(input, e)
  {
    var os, report := input.outcomes, Built(input).value;
    AcceptedPassesAll(report, e);
    BuiltIsAssembled(input);
    BuiltWhenMeasured(os);
    BuiltShape(input);
    BuiltFits(input);
    forall i | 0 <= i < |os| ensures Sound(os[i]) {
      assert os[i] in os;
      CleanWhenUncounted(os, i);
    }
  }

  lemma AcceptedWhenGood(input: Input, e: Expected)
    requires GoodPilot(input, e)
    ensures Built(input).Ok? && ValidatePilotReport(Built(input).value, e) == Built(input)
  {
    var os, ids := input.outcomes, TaskIds(input.outcomes);
    var report := Assembled(input, ids, Results(os, ids));
    forall o | o in os ensures Sound(o) && Fitting(o) {
      var i :| 0 <= i < |os| && os[i] == o;
      OnceEachAreFitting(os, input.repeats, o);
    }
    BuiltWhenMeasured(os);
    BuiltFits(input);
    BuiltShape(input);
    AggregatesAgree(input);
    PassedWithinAttempts(report, e);
    CountBounds(os, Faulty);
    CountBounds(os, Breached);
  }

  /** The validator accepts what the builder makes of a run exactly when the pilot was a good one. */
  lemma AcceptedIffGood(input: Input, e: Expected)
    ensures Built(input).Ok? && ValidatePilotReport(Built(input).value, e).Ok? <==> GoodPilot(input, e)
  {
    if Built(input).Ok? && ValidatePilotReport(Built(input).value, e).Ok? { GoodWhenAccepted(input, e); }
    if GoodPilot(input, e) { AcceptedWhenGood(input, e); }
  }

  // ------------------------------------------------------------- any accepted report

  lemma {:induction false} PassesWithin(rs: seq<TaskResult>, repeats: nat)
    requires FirstFlaw(rs, repeats).None?
    ensures SumOf(rs, ResultPasses) <= |rs| * repeats
  {
    if rs != [] {
      PassesWithin(rs[1..], repeats);
      assert |rs| * repeats == (|rs| - 1) * repeats + repeats;
    }
  }

  lemma {:induction false} TaskFlawKinds(rs: seq<TaskResult>, repeats: nat)
    ensures FirstFlaw(rs, repeats) != Some(PassedExceedsAttempts)
  {
    if rs != [] { TaskFlawKinds(rs[1..], repeats); }
  }

  /** The guard against more passes than attempts never fires: the guards before it settle that. */
  lemma PassedWithinAttempts(r: Report, e: Expected)
    ensures Fits(r) && ShapeFlaw(r).None? && AggregateFlaw(r).None? ==> r.passed <= r.attempts
    ensures ValidatePilotReport(r, e) != Err(PassedExceedsAttempts)
  {
    if Fits(r) {
      TaskFlawKinds(r.taskResults, r.repeats);
      if ShapeFlaw(r).None? { PassesWithin(r.taskResults, r.repeats); }
    }
  }

  lemma ResultIdsAreDistinct(rs: seq<TaskResult>)
    requires |ResultIdSet(rs)| == |rs|
    ensures forall i, j :: 0 <= i < j < |rs| ==> rs[i].taskId != rs[j].taskId
  {
    var ids := seq(|rs|, i requires 0 <= i < |rs| => rs[i].taskId);
    forall id ensures id in ToSet(ids) <==> id in ResultIdSet(rs) {
      if id in ResultIdSet(rs) {
        var i :| 0 <= i < |rs| && rs[i].taskId == id;
        assert ids[i] == id;
      }
    }
    assert ToSet(ids) == ResultIdSet(rs);
    SetSize(ids);
    forall i, j | 0 <= i < j < |rs| ensures rs[i].taskId != rs[j].taskId { assert ids[i] != ids[j]; }
  }

  lemma EachRepeatOnce(rs: seq<TaskResult>, repeats: nat)
    requires FirstFlaw(rs, repeats).None?
    ensures forall i, k :: 0 <= i < |rs| ==> multiset(rs[i].repeatIndices)[k] == if 0 <= k < repeats then 1 else 0
  {
    NoFlaws(rs, repeats);
    forall i: nat, k | i < |rs| ensures multiset(rs[i].repeatIndices)[k] == if 0 <= k < repeats then 1 else 0 {
      assert FlawOf(rs[i], repeats).None?;
      SortsToUpto(rs[i].repeatIndices, repeats);
      assert OnceUpto(rs[i].repeatIndices, repeats);
    }
  }

  lemma ShapeIsComplete(r: Report)
    requires Fits(r) && ShapeFlaw(r).None?
    ensures |r.taskIds| == |r.taskResults| == r.tasks && NoRepeats(r.taskIds)
    ensures forall i :: 0 <= i < |r.taskIds| ==> exists j :: 0 <= j < |r.taskResults| && r.taskResults[j].taskId == r.taskIds[i]
    ensures forall i, j :: 0 <= i < j < |r.taskResults| ==> r.taskResults[i].taskId != r.taskResults[j].taskId
    ensures FirstFlaw(r.taskResults, r.repeats).None?
  {
    SetSize(r.taskIds);
    ResultIdsAreDistinct(r.taskResults);
    forall i | 0 <= i < |r.taskIds| ensures exists j :: 0 <= j < |r.taskResults| && r.taskResults[j].taskId == r.taskIds[i] {
      assert r.taskIds[i] in ResultIdSet(r.taskResults);
    }
  }

  /** Any report the validator accepts, built or not: one result per named task and no other, each
      with every repeat index exactly once, and a pass count its results bear out. */
  lemma AcceptedIsComplete(r: Report, e: Expected)
    requires ValidatePilotReport(r, e).Ok?
    ensures |r.taskIds| == |r.taskResults| == r.tasks && NoRepeats(r.taskIds)
    ensures forall i :: 0 <= i < |r.taskIds| ==> exists j :: 0 <= j < |r.taskResults| && r.taskResults[j].taskId == r.taskIds[i]
    ensures forall i, j :: 0 <= i < j < |r.taskResults| ==> r.taskResults[i].taskId != r.taskResults[j].taskId
    ensures forall i, k :: 0 <= i < |r.taskResults| ==>
              multiset(r.taskResults[i].repeatIndices)[k] == if 0 <= k < r.repeats then 1 else 0
    ensures r.errors == 0 && r.budgetBreaches == 0 && r.passed <= r.attempts
  {
    AcceptedPassesAll(r, e);
    ShapeIsComplete(r);
    EachRepeatOnce(r.taskResults, r.repeats);
  }
}
