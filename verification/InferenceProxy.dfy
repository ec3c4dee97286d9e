/**
 * The metering proxy of one bench attempt (scripts/bench-inference-proxy.ts): every model call of
 * the attempt passes it, responses are inspected while other requests come and go, and a spent
 * token budget is told once and refuses what follows.
 */
module InferenceProxy {
  import opened Lists
  import opened Numbers
  import opened Wrappers

  // ------------------------------------------------------------ a body's usage

  datatype Usage = Usage(
    promptTokens: Option<nat>, inputTokens: Option<nat>, inputTokensCamel: Option<nat>,
    completionTokens: Option<nat>, outputTokens: Option<nat>, outputTokensCamel: Option<nat>,
    totalTokens: Option<nat>)

  /** A fragment of a response body that parsed: its own usage, and its result's. */
  datatype Envelope = Envelope(usage: Option<Usage>, resultUsage: Option<Usage>)

  datatype CallUsage = CallUsage(tokens: nat, promptTokens: nat)

  function Or<T>(a: Option<T>, b: Option<T>): Option<T> { if a.Some? then a else b }

  function Prompt(u: Usage): Option<nat> { Or(Or(u.promptTokens, u.inputTokens), u.inputTokensCamel) }

  function Completion(u: Usage): Option<nat> { Or(Or(u.completionTokens, u.outputTokens), u.outputTokensCamel) }

  function UsageOf(e: Envelope): Option<CallUsage> {
    var found := Or(e.usage, e.resultUsage);
    if found.None? then None
    else
      var usage := found.value;
      var prompt, completion := Prompt(usage), Completion(usage);
      if prompt.None? || (completion.None? && usage.totalTokens.None?) then None
      else
        var derived := prompt.value + if completion.Some? then completion.value else 0;
        if usage.totalTokens.Some? && completion.Some? && usage.totalTokens.value != derived then None
        else Some(CallUsage(if usage.totalTokens.Some? then usage.totalTokens.value else derived, prompt.value))
  }

  /** The first of three names that is given. */
  ghost predicate FirstNamed(a: Option<nat>, b: Option<nat>, c: Option<nat>, n: nat) {
    a == Some(n) || (a.None? && b == Some(n)) || (a.None? && b.None? && c == Some(n))
  }

  /** The envelope's usage, or failing that its result's, names a prompt count, and either a
      completion count the two of which are the total if that is named, or else just a total. */
  ghost predicate Says(e: Envelope, c: CallUsage) {
    exists u: Usage ::
      && (e.usage == Some(u) || (e.usage.None? && e.resultUsage == Some(u)))
      && FirstNamed(u.promptTokens, u.inputTokens, u.inputTokensCamel, c.promptTokens)
      && if u.completionTokens.None? && u.outputTokens.None? && u.outputTokensCamel.None? then u.totalTokens == Some(c.tokens)
         else
           && c.tokens >= c.promptTokens
           && FirstNamed(u.completionTokens, u.outputTokens, u.outputTokensCamel, c.tokens - c.promptTokens)
           && (u.totalTokens.None? || u.totalTokens == Some(c.tokens))
  }

  /** Which usages count, and as what. */
  lemma UsageCounts(e: Envelope, c: CallUsage)
    ensures UsageOf(e) == Some(c) <==> Says(e, c)
  {
    if UsageOf(e) == Some(c) {
      var u := Or(e.usage, e.resultUsage).value;
      assert e.usage == Some(u) || (e.usage.None? && e.resultUsage == Some(u));
    }
  }

  /** A usage that names both of its parts counts as their sum or not at all. Without a completion
      count the total stands unchecked, and may even be below the prompt's. */
  lemma NamedPartsAddUp(e: Envelope, u: Usage)
    requires Or(e.usage, e.resultUsage) == Some(u) && Prompt(u).Some?
    ensures Completion(u).Some? && UsageOf(e).Some? ==>
              UsageOf(e).value.tokens == Prompt(u).value + Completion(u).value >= UsageOf(e).value.promptTokens
    ensures UsageOf(e).Some? && UsageOf(e).value.tokens < UsageOf(e).value.promptTokens
            <==> Completion(u).None? && u.totalTokens.Some? && u.totalTokens.value < Prompt(u).value
  {
  }

  /** A response body: what the whole of it parses to, then each of its `data:` lines; `None` for
      an empty fragment, the end mark, or text that is not an envelope. */
  datatype Body = Lost | Body(whole: Option<Envelope>, lines: seq<Option<Envelope>>)

  function Recorded(fragment: Option<Envelope>): seq<CallUsage> {
    if fragment.None? || UsageOf(fragment.value).None? then [] else [UsageOf(fragment.value).value]
  }

  function RecordedAll(fragments: seq<Option<Envelope>>): seq<CallUsage> {
    if fragments == [] then []
    else RecordedAll(fragments[..|fragments| - 1]) + Recorded(fragments[|fragments| - 1])
  }

  function Usages(body: Body): seq<CallUsage>
    requires body.Body?
  {
    Recorded(body.whole) + RecordedAll(body.lines)
  }

  /** A body's fragments in the order they are read: the whole of it, then its data lines. */
  function Fragments(body: Body): seq<Option<Envelope>>
    requires body.Body?
  {
    [body.whole] + body.lines
  }

  /** The usages are those the fragments at `at` say, in order, and no other fragment says one. */
  ghost predicate ListedAt(fragments: seq<Option<Envelope>>, usages: seq<CallUsage>, at: seq<nat>) {
    && GoesUp(at) && |at| == |usages|
    && (forall k :: 0 <= k < |at| ==>
          at[k] < |fragments| && fragments[at[k]].Some? && Says(fragments[at[k]].value, usages[k]))
    && (forall i, c :: 0 <= i < |fragments| && fragments[i].Some? && Says(fragments[i].value, c) ==> i in at)
  }

  lemma RecordedSays(fragment: Option<Envelope>)
    ensures forall c :: c in Recorded(fragment) <==> fragment.Some? && Says(fragment.value, c)
    ensures |Recorded(fragment)| <= 1
  {
    if fragment.Some? {
      forall c ensures UsageOf(fragment.value) == Some(c) <==> Says(fragment.value, c) { UsageCounts(fragment.value, c); }
    }
  }

  lemma {:induction false} ListedOn(fragments: seq<Option<Envelope>>, usages: seq<CallUsage>, at: seq<nat>, f: Option<Envelope>)
    returns (next: seq<nat>)
    requires ListedAt(fragments, usages, at)
    ensures ListedAt(fragments + [f], usages + Recorded(f), next)
  {
    RecordedSays(f);
    var all, more := fragments + [f], usages + Recorded(f);
    next := if Recorded(f) == [] then at else at + [|fragments|];
    forall k | k in at ensures k < |fragments| { var j :| 0 <= j < |at| && at[j] == k; }
    UpTo(at, |fragments|);
    forall k | 0 <= k < |next| ensures next[k] < |all| && all[next[k]].Some? && Says(all[next[k]].value, more[k]) {
      if k == |at| { assert more[k] == Recorded(f)[0] && Recorded(f)[0] in Recorded(f); }
    }
    forall i, c | 0 <= i < |all| && all[i].Some? && Says(all[i].value, c) ensures i in next {
      if i < |fragments| { assert i in at; } else { assert c in Recorded(f); assert next[|at|] == i; }
    }
  }

  lemma {:induction false} AllListed(first: Option<Envelope>, lines: seq<Option<Envelope>>) returns (at: seq<nat>)
    ensures ListedAt([first] + lines, Recorded(first) + RecordedAll(lines), at)
  {
    if lines == [] {
      at := ListedOn([], [], [], first);
      assert [] + [first] == [first] + lines && [] + Recorded(first) == Recorded(first) + RecordedAll(lines);
    } else {
      var init, last := lines[..|lines| - 1], lines[|lines| - 1];
      var before := AllListed(first, init);
      at := ListedOn([first] + init, Recorded(first) + RecordedAll(init), before, last);
      assert [first] + init + [last] == [first] + lines;
      Regroup(Recorded(first), RecordedAll(init), Recorded(last));
    }
  }

  /** A usage is listed exactly for each fragment of a body that says one, in the fragments' order. */
  lemma UsagesAreSaid(body: Body)
    requires body.Body?
    ensures exists at :: ListedAt(Fragments(body), Usages(body), at)
  {
    var at := AllListed(body.whole, body.lines);
    assert ListedAt(Fragments(body), Usages(body), at);
  }

  method UsagesFromBody(body: Body) returns (usages: seq<CallUsage>)
    requires body.Body?
    ensures usages == Usages(body)
    ensures exists at :: ListedAt(Fragments(body), usages, at)
  {
    UsagesAreSaid(body);
    usages := Recorded(body.whole);
    for i := 0 to |body.lines|
      invariant usages == Recorded(body.whole) + RecordedAll(body.lines[..i])
    {
      assert body.lines[..i + 1][..i] == body.lines[..i];
      if body.lines[i].Some? {
        var usage := UsageOf(body.lines[i].value);
        if usage.Some? { usages := usages + [usage.value]; }
      }
    }
    assert body.lines[..|body.lines|] == body.lines;
  }

  /** The first of the usages that no other exceeds. */
  ghost predicate IsLargest(usages: seq<CallUsage>, largest: CallUsage) {
    exists k: nat :: k < |usages| && usages[k] == largest
      && (forall i :: 0 <= i < k ==> usages[i].tokens < largest.tokens)
      && (forall i :: k <= i < |usages| ==> usages[i].tokens <= largest.tokens)
  }

  function LargestTokens(usages: seq<CallUsage>): nat {
    if usages == [] then 0
    else Max(LargestTokens(usages[..|usages| - 1]), usages[|usages| - 1].tokens)
  }

  function LargestPrompt(usages: seq<CallUsage>): nat {
    if usages == [] then 0
    else Max(LargestPrompt(usages[..|usages| - 1]), usages[|usages| - 1].promptTokens)
  }

  /** The reduction over one response's usages, and the running peak. */
  method Reduce(usages: seq<CallUsage>, peak: nat) returns (largest: CallUsage, newPeak: nat)
    requires usages != []
    ensures IsLargest(usages, largest) && largest.tokens == LargestTokens(usages)
    ensures newPeak == Max(peak, LargestPrompt(usages))
    ensures forall i :: 0 <= i < |usages| ==> usages[i].promptTokens <= newPeak
  {
    largest, newPeak := usages[0], Max(peak, usages[0].promptTokens);
    ghost var k := 0;
    assert usages[..1][..0] == [];
    assert usages[..1][0] == usages[0];
    for i := 1 to |usages|
      invariant k < i && usages[k] == largest
      invariant forall j :: 0 <= j < k ==> usages[j].tokens < largest.tokens
      invariant forall j :: k <= j < i ==> usages[j].tokens <= largest.tokens
      invariant largest.tokens == LargestTokens(usages[..i])
      invariant newPeak == Max(peak, LargestPrompt(usages[..i]))
      invariant forall j :: 0 <= j < i ==> usages[j].promptTokens <= newPeak
    {
      assert usages[..i + 1][..i] == usages[..i];
      if usages[i].tokens > largest.tokens {
        largest := usages[i];
        k := i;
      }
      newPeak := Max(newPeak, usages[i].promptTokens);
    }
    assert usages[..|usages|] == usages;
  }

  // ----------------------------------------------------------------- the meter

  /** Where a request has come to. */
  datatype Phase =
    | Exhausted                      // refused, the budget being spent
    | Unrouted                       // refused, its route being unknown
    | Awaiting                       // forwarded, the upstream not having answered
    | Failed                         // forwarded, the upstream unreachable
    | Pending(ok: bool, body: Body)  // answered, its body not yet inspected
    | NotOk                          // answered with an error status
    | Metered(usages: seq<CallUsage>)
    | Unmetered                      // answered with no usage to count

  datatype Event =
    | Ask(known: bool)
    | UpstreamFails(id: nat)
    | UpstreamAnswers(id: nat, ok: bool, body: Body)
    | Inspect(id: nat)

  datatype State = State(
    phases: seq<Phase>, calls: nat, tokens: nat, peak: nat, unmetered: nat, breached: bool, told: nat)

  /** The attempt's budget, and whether the breach callback throws. */
  datatype Settings = Settings(maxTokens: nat, throws: bool)

  const START := State([], 0, 0, 0, 0, false, 0)

  predicate Enabled(s: State, e: Event) {
    match e
    case Ask(_) => true
    case UpstreamFails(id) => id < |s.phases| && s.phases[id].Awaiting?
    case UpstreamAnswers(id, _, _) => id < |s.phases| && s.phases[id].Awaiting?
    case Inspect(id) => id < |s.phases| && s.phases[id].Pending?
  }

  /** What an inspection makes of an answer. */
  function Inspected(p: Phase): Phase
    requires p.Pending?
  {
    if !p.ok then NotOk
    else if p.body.Lost? || Usages(p.body) == [] then Unmetered
    else Metered(Usages(p.body))
  }

  /** One metered response is charged, and the breach it may bring told. */
  function Charged(o: Settings, s: State, usages: seq<CallUsage>): State {
    var tokens := s.tokens + LargestTokens(usages);
    var spent := tokens > o.maxTokens && !s.breached;
    s.(tokens := tokens, peak := Max(s.peak, LargestPrompt(usages)),
       breached := s.breached || spent, told := s.told + if spent then 1 else 0,
       unmetered := s.unmetered + if spent && o.throws then 1 else 0)
  }

  function Step(o: Settings, s: State, e: Event): State
    requires Enabled(s, e)
  {
    match e
    case Ask(known) =>
      if s.breached then s.(phases := s.phases + [Exhausted])
      else if !known then s.(phases := s.phases + [Unrouted])
      else s.(phases := s.phases + [Awaiting], calls := s.calls + 1)
    case UpstreamFails(id) => s.(phases := s.phases[id := Failed])
    case UpstreamAnswers(id, ok, body) => s.(phases := s.phases[id := Pending(ok, body)])
    case Inspect(id) =>
      var p := Inspected(s.phases[id]);
      var moved := s.(phases := s.phases[id := p]);
      if p.NotOk? then moved
      else if p.Unmetered? then moved.(unmetered := s.unmetered + 1)
      else Charged(o, moved, p.usages)
  }

  ghost predicate Behaviour(o: Settings, es: seq<Event>)
    decreases |es|, 0
  {
    es == [] || (Behaviour(o, es[..|es| - 1]) && Enabled(Run(o, es[..|es| - 1]), es[|es| - 1]))
  }

  ghost function Run(o: Settings, es: seq<Event>): State
    requires Behaviour(o, es)
    decreases |es|, 1
  {
    if es == [] then START else Step(o, Run(o, es[..|es| - 1]), es[|es| - 1])
  }

  /** The proxy's own state. `phases` records what became of each request. */
  class Proxy {
    const o: Settings
    var calls: nat
    var tokens: nat
    var peakPromptTokens: nat
    var unmeteredResponses: nat
    var breached: bool
    var pending: set<nat>
    var told: nat
    ghost var phases: seq<Phase>

    ghost function Contents(): State
      reads this
    {
      State(phases, calls, tokens, peakPromptTokens, unmeteredResponses, breached, told)
    }

    ghost predicate Valid()
      reads this
    {
      forall id: nat :: id in pending <==> id < |phases| && phases[id].Pending?
    }

    constructor (o: Settings)
      ensures this.o == o && Valid() && Contents() == START
    {
      this.o := o;
      calls, tokens, peakPromptTokens, unmeteredResponses, breached, pending := 0, 0, 0, 0, false, {};
      told, phases := 0, [];
    }

    /** A request arrives: the status it is refused with, or 0 when it is forwarded. */
    method Fetch(known: bool) returns (status: nat)
      requires Valid()
      modifies this
      ensures Valid() && Contents() == Step(o, old(Contents()), Ask(known))
      ensures status == if old(breached) then 429 else if !known then 400 else 0
    {
      if breached {
        phases := phases + [Exhausted];
        return 429;
      }
      if !known {
        phases := phases + [Unrouted];
        return 400;
      }
      calls := calls + 1;
      phases := phases + [Awaiting];
      return 0;
    }

    method FetchFailed(id: nat) returns (status: nat)
      requires Valid() && Enabled(Contents(), UpstreamFails(id))
      modifies this
      ensures Valid() && Contents() == Step(o, old(Contents()), UpstreamFails(id)) && status == 502
      ensures Contents() == old(Contents()).(phases := old(phases)[id := Failed])
    {
      phases := phases[id := Failed];
      return 502;
    }

    method Fetched(id: nat, ok: bool, body: Body)
      requires Valid() && Enabled(Contents(), UpstreamAnswers(id, ok, body))
      modifies this
      ensures Valid() && Contents() == Step(o, old(Contents()), UpstreamAnswers(id, ok, body))
      ensures pending == old(pending) + {id}
      ensures Contents() == old(Contents()).(phases := old(phases)[id := Pending(ok, body)])
    {
      pending := pending + {id};
      phases := phases[id := Pending(ok, body)];
    }

    /** The inspection of one answer, and whether it told the attempt that its budget is spent. */
    method InspectAnswer(id: nat, ok: bool, body: Body) returns (tells: bool)
      requires Valid() && id < |phases| && phases[id] == Pending(ok, body)
      modifies this
      ensures Valid() && Contents() == Step(o, old(Contents()), Inspect(id))
      ensures pending == old(pending) - {id}
      ensures tells <==> told > old(told)
    {
      tells := false;
      pending := pending - {id};
      phases := phases[id := Inspected(phases[id])];
      if !ok { return; }
      if body.Lost? {
        unmeteredResponses := unmeteredResponses + 1;
        return;
      }
      var callUsages := UsagesFromBody(body);
      if callUsages == [] {
        unmeteredResponses := unmeteredResponses + 1;
        return;
      }
      tells := Charge(callUsages);
    }

    method Charge(callUsages: seq<CallUsage>) returns (tells: bool)
      requires callUsages != []
      modifies this`tokens, this`peakPromptTokens, this`breached, this`told, this`unmeteredResponses
      ensures Contents() == Charged(o, old(Contents()), callUsages)
      ensures tells <==> told > old(told)
    {
      var usage, peak := Reduce(callUsages, peakPromptTokens);
      tells := false;
      tokens := tokens + usage.tokens;
      peakPromptTokens := peak;
      if tokens > o.maxTokens && !breached {
        breached := true;
        tells := true;
        told := told + 1;
        if o.throws { unmeteredResponses := unmeteredResponses + 1; }
      }
    }
  }

  // ------------------------------------------------------- what the counts mean

  datatype Kind = IsRefused | IsAwaiting | IsFailed | IsPending | IsNotOk | IsMetered | IsUnmetered

  function KindOf(p: Phase): Kind {
    match p
    case Exhausted => IsRefused
    case Unrouted => IsRefused
    case Awaiting => IsAwaiting
    case Failed => IsFailed
    case Pending(_, _) => IsPending
    case NotOk => IsNotOk
    case Metered(_) => IsMetered
    case Unmetered => IsUnmetered
  }

  /** The tokens spent, or the number of requests of a kind. */
  datatype Measure = Spent | In(kind: Kind)

  function Weight(m: Measure, p: Phase): nat {
    match m
    case Spent => if p.Metered? then LargestTokens(p.usages) else 0
    case In(kind) => if KindOf(p) == kind then 1 else 0
  }

  function Sum(m: Measure, ps: seq<Phase>): nat {
    if ps == [] then 0 else Sum(m, ps[..|ps| - 1]) + Weight(m, ps[|ps| - 1])
  }

  function PromptPeak(ps: seq<Phase>): nat {
    if ps == [] then 0
    else
      var p := ps[|ps| - 1];
      Max(PromptPeak(ps[..|ps| - 1]), if p.Metered? then LargestPrompt(p.usages) else 0)
  }

  lemma {:induction false} SumUpdates(m: Measure, ps: seq<Phase>, i: nat, p: Phase)
    requires i < |ps|
    ensures Sum(m, ps[i := p]) == Sum(m, ps) - Weight(m, ps[i]) + Weight(m, p)
  {
    var last := |ps| - 1;
    if i == last {
      assert ps[i := p][..last] == ps[..last];
    } else {
      SumUpdates(m, ps[..last], i, p);
      assert ps[i := p][..last] == ps[..last][i := p];
    }
  }

  lemma {:induction false} PeakUpdates(ps: seq<Phase>, i: nat, p: Phase)
    requires i < |ps| && !ps[i].Metered?
    ensures PromptPeak(ps[i := p]) == Max(PromptPeak(ps), if p.Metered? then LargestPrompt(p.usages) else 0)
  {
    var last := |ps| - 1;
    if i == last {
      assert ps[i := p][..last] == ps[..last];
    } else {
      PeakUpdates(ps[..last], i, p);
      assert ps[i := p][..last] == ps[..last][i := p];
    }
  }

  function Count(kind: Kind, ps: seq<Phase>): nat { Sum(In(kind), ps) }

  /** Where a forwarded request can be. */
  function Forwarded(ps: seq<Phase>): nat {
    Count(IsAwaiting, ps) + Count(IsFailed, ps) + Count(IsPending, ps)
    + Count(IsNotOk, ps) + Count(IsMetered, ps) + Count(IsUnmetered, ps)
  }

  /** In every interleaving of requests and inspections: the tokens are each metered response's
      largest usage, the calls are the requests sent on, the budget is breached exactly when the
      tokens pass it, and that is told once. A breach callback that throws leaves its response
      counted twice, as metered and as unmetered. */
  ghost predicate Accounts(o: Settings, s: State) {
    && s.tokens == Sum(Spent, s.phases)
    && s.calls == Forwarded(s.phases) == |s.phases| - Count(IsRefused, s.phases)
    && s.peak == PromptPeak(s.phases)
    && (s.breached <==> s.tokens > o.maxTokens)
    && s.told == (if s.breached then 1 else 0)
    && s.unmetered == Count(IsUnmetered, s.phases) + (if s.breached && o.throws then 1 else 0)
  }

  lemma Appends(ps: seq<Phase>, p: Phase)
    ensures forall m :: Sum(m, ps + [p]) == Sum(m, ps) + Weight(m, p)
    ensures !p.Metered? ==> PromptPeak(ps + [p]) == PromptPeak(ps)
  {
    assert (ps + [p])[..|ps|] == ps;
  }

  /** The requests in a place, after one request moves. */
  lemma CountMoves(kind: Kind, ps: seq<Phase>, id: nat, p: Phase)
    requires id < |ps|
    ensures Count(kind, ps[id := p]) + (if KindOf(ps[id]) == kind then 1 else 0)
         == Count(kind, ps) + (if KindOf(p) == kind then 1 else 0)
  {
    SumUpdates(In(kind), ps, id, p);
  }

  /** A forwarded request stays one, whatever it comes to. */
  lemma StaysForwarded(ps: seq<Phase>, id: nat, p: Phase)
    requires id < |ps| && KindOf(ps[id]) != IsRefused && KindOf(p) != IsRefused
    ensures Forwarded(ps[id := p]) == Forwarded(ps)
    ensures Count(IsRefused, ps[id := p]) == Count(IsRefused, ps)
  {
    CountMoves(IsRefused, ps, id, p);
    CountMoves(IsAwaiting, ps, id, p);
    CountMoves(IsFailed, ps, id, p);
    CountMoves(IsPending, ps, id, p);
    CountMoves(IsNotOk, ps, id, p);
    CountMoves(IsMetered, ps, id, p);
    CountMoves(IsUnmetered, ps, id, p);
  }

  lemma AskAccounts(o: Settings, s: State, known: bool)
    requires Accounts(o, s)
    ensures Accounts(o, Step(o, s, Ask(known)))
  {
    var p := if s.breached then Exhausted else if !known then Unrouted else Awaiting;
    Appends(s.phases, p);
  }

  lemma AnswerAccounts(o: Settings, s: State, id: nat, p: Phase)
    requires Accounts(o, s) && id < |s.phases| && s.phases[id].Awaiting? && (p.Failed? || p.Pending?)
    ensures Accounts(o, s.(phases := s.phases[id := p]))
  {
    StaysForwarded(s.phases, id, p);
    SumUpdates(Spent, s.phases, id, p);
    SumUpdates(In(IsUnmetered), s.phases, id, p);
    PeakUpdates(s.phases, id, p);
  }

  lemma InspectAccounts(o: Settings, s: State, id: nat)
    requires Accounts(o, s) && Enabled(s, Inspect(id))
    ensures Accounts(o, Step(o, s, Inspect(id)))
  {
    var p := Inspected(s.phases[id]);
    InspectMoves(s.phases, id, p);
  }

  /** What moving a pending answer to where its inspection puts it does to every count. */
  lemma InspectMoves(ps: seq<Phase>, id: nat, p: Phase)
    requires id < |ps| && ps[id].Pending? && (p.NotOk? || p.Unmetered? || p.Metered?)
    ensures var qs := ps[id := p];
      && Forwarded(qs) == Forwarded(ps) && Count(IsRefused, qs) == Count(IsRefused, ps)
      && Sum(Spent, qs) == Sum(Spent, ps) + Weight(Spent, p)
      && Count(IsUnmetered, qs) == Count(IsUnmetered, ps) + (if p.Unmetered? then 1 else 0)
      && PromptPeak(qs) == Max(PromptPeak(ps), if p.Metered? then LargestPrompt(p.usages) else 0)
  {
    StaysForwarded(ps, id, p);
    SumUpdates(Spent, ps, id, p);
    CountMoves(IsUnmetered, ps, id, p);
    PeakUpdates(ps, id, p);
  }

  lemma StepAccounts(o: Settings, s: State, e: Event)
    requires Accounts(o, s) && Enabled(s, e)
    ensures Accounts(o, Step(o, s, e))
  {
    match e
    case Ask(known) => AskAccounts(o, s, known);
    case UpstreamFails(id) => AnswerAccounts(o, s, id, Failed);
    case UpstreamAnswers(id, ok, body) => AnswerAccounts(o, s, id, Pending(ok, body));
    case Inspect(id) => InspectAccounts(o, s, id);
  }

  lemma {:induction false} RunAccounts(o: Settings, es: seq<Event>)
    requires Behaviour(o, es)
    ensures Accounts(o, Run(o, es))
    decreases |es|
  {
    if es != [] {
      RunAccounts(o, es[..|es| - 1]);
      StepAccounts(o, Run(o, es[..|es| - 1]), es[|es| - 1]);
    }
  }

  lemma {:induction false} LargestOf(usages: seq<CallUsage>)
    requires usages != []
    ensures exists c, d :: c in usages && d in usages
              && c.tokens == LargestTokens(usages) && d.promptTokens == LargestPrompt(usages)
    ensures forall c :: c in usages ==> c.tokens <= LargestTokens(usages) && c.promptTokens <= LargestPrompt(usages)
  {
    var init, last := usages[..|usages| - 1], usages[|usages| - 1];
    assert usages == init + [last];
    if init == [] {
      assert last in usages && LargestTokens(usages) == last.tokens && LargestPrompt(usages) == last.promptTokens;
    } else {
      LargestOf(init);
      var c, d :| c in init && d in init && c.tokens == LargestTokens(init) && d.promptTokens == LargestPrompt(init);
      var e, f := if last.tokens > c.tokens then last else c, if last.promptTokens > d.promptTokens then last else d;
      assert e in usages && f in usages;
    }
  }

  /** Some fragment of the body says `c`. */
  ghost predicate SaidIn(body: Body, c: CallUsage)
    requires body.Body?
  {
    exists i :: 0 <= i < |Fragments(body)| && Fragments(body)[i].Some? && Says(Fragments(body)[i].value, c)
  }

  lemma ListedIsSaid(body: Body)
    requires body.Body?
    ensures forall c :: c in Usages(body) <==> SaidIn(body, c)
  {
    UsagesAreSaid(body);
    var at :| ListedAt(Fragments(body), Usages(body), at);
    forall i: nat, c | i < |Fragments(body)| && Fragments(body)[i].Some? && Says(Fragments(body)[i].value, c)
      ensures c in Usages(body)
    {
      SaidIsListed(Fragments(body), Usages(body), at, i, c);
    }
    forall k: nat | k < |Usages(body)| ensures SaidIn(body, Usages(body)[k]) {
      assert Says(Fragments(body)[at[k]].value, Usages(body)[k]);
    }
  }

  lemma SaidIsListed(fragments: seq<Option<Envelope>>, usages: seq<CallUsage>, at: seq<nat>, i: nat, c: CallUsage)
    requires ListedAt(fragments, usages, at)
    requires i < |fragments| && fragments[i].Some? && Says(fragments[i].value, c)
    ensures c in usages
  {
    assert i in at;
    var k :| 0 <= k < |at| && at[k] == i;
    UsageCounts(fragments[i].value, c);
    UsageCounts(fragments[i].value, usages[k]);
    assert usages[k] == c;
  }

  /** An answer is charged the largest usage any of its fragments says, whole body and data lines
      alike, and its prompts raise the peak; an ok answer that says none counts as unmetered, and an
      answer that is not ok counts for nothing. */
  lemma InspectionCharges(o: Settings, s: State, id: nat)
    requires Enabled(s, Inspect(id))
    ensures var t, p := Step(o, s, Inspect(id)), s.phases[id];
      if !p.ok then t == s.(phases := t.phases) && t.phases[id].NotOk?
      else if p.body.Lost? || !(exists c :: SaidIn(p.body, c)) then
        t == s.(phases := t.phases, unmetered := s.unmetered + 1) && t.phases[id].Unmetered?
      else
        && t.phases[id].Metered?
        && (exists c :: SaidIn(p.body, c) && t.tokens == s.tokens + c.tokens && forall d :: SaidIn(p.body, d) ==> d.tokens <= c.tokens)
        && (t.peak == s.peak || exists c :: SaidIn(p.body, c) && t.peak == c.promptTokens)
        && t.peak >= s.peak && forall c :: SaidIn(p.body, c) ==> c.promptTokens <= t.peak
  {
    var p := s.phases[id];
    if p.ok && p.body.Body? {
      ListedIsSaid(p.body);
      var usages := Usages(p.body);
      if usages != [] {
        assert usages[0] in usages;
        LargestOf(usages);
      }
    }
  }

  /** Once breached, nothing more is forwarded, whatever is still in flight: the calls stand, the
      breach is not told again, and the tokens only take in what was already sent. */
  lemma {:induction false} BreachIsFinal(o: Settings, es: seq<Event>, n: nat)
    requires Behaviour(o, es) && n <= |es|
    ensures Behaviour(o, es[..n])
    ensures var s, t := Run(o, es[..n]), Run(o, es);
      && |s.phases| <= |t.phases| && s.tokens <= t.tokens
      && (s.breached ==>
            && t.breached && t.calls == s.calls && t.told == s.told
            && forall id :: |s.phases| <= id < |t.phases| ==> t.phases[id] == Exhausted)
    decreases |es|
  {
    if n == |es| {
      assert es[..n] == es;
    } else {
      var init := es[..|es| - 1];
      BreachIsFinal(o, init, n);
      assert init[..n] == es[..n];
    }
  }
}
