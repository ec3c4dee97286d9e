/**
 * The bench driver's bounded pool (`inPool` in scripts/bench.ts), and the partition a sharded
 * validate run is cut from (`shardTaskIds`).
 *
 * The pool's lanes take jobs from one counter and interleave wherever a job is awaited. A step is
 * what one lane does between two awaits, and a schedule says which lane takes the next step, so
 * what holds under every schedule holds of every interleaving.
 */
module BenchPool {
  import opened Sorting
  import opened Wrappers

  // -------------------------------------------------------------------- the pool

  /** What a job comes to once it is awaited. */
  datatype Job<T> = Fulfils(value: T) | Rejects

  /** A lane about to look at the counter, awaiting a job, returned, or ended by a job's rejection. */
  datatype Lane = Ready | Running(job: nat) | Returned | Threw(job: nat)

  /** `starts` records which job each start took, in order. */
  datatype Pool<T> = Pool(next: nat, lanes: seq<Lane>, results: map<nat, T>, starts: seq<nat>)

  function LaneCount(jobs: nat, width: int): nat {
    var lanes := if width < jobs then width else jobs;
    if lanes < 0 then 0 else lanes
  }

  function Opened<T>(jobs: seq<Job<T>>, width: int): Pool<T> {
    Pool(0, seq(LaneCount(|jobs|, width), _ => Ready), map[], [])
  }

  predicate Enabled<T>(p: Pool<T>, lane: nat) {
    lane < |p.lanes| && (p.lanes[lane].Ready? || p.lanes[lane].Running?)
  }

  /** One lane runs to its next await, or what it awaits settles. */
  function Step<T>(jobs: seq<Job<T>>, p: Pool<T>, lane: nat): Pool<T>
    requires Enabled(p, lane)
    requires p.lanes[lane].Running? ==> p.lanes[lane].job < |jobs|
  {
    match p.lanes[lane]
    case Ready =>
      if p.next < |jobs| then
        p.(lanes := p.lanes[lane := Running(p.next)], next := p.next + 1, starts := p.starts + [p.next])
      else p.(lanes := p.lanes[lane := Returned])
    case Running(job) =>
      if jobs[job].Fulfils? then
        p.(lanes := p.lanes[lane := Ready], results := p.results[job := jobs[job].value])
      else p.(lanes := p.lanes[lane := Threw(job)])
    case _ => assert false; p
  }

  predicate Holds(l: Lane, job: nat) { (l.Running? || l.Threw?) && l.job == job }

  /** What every interleaving keeps. */
  ghost predicate Inv<T>(jobs: seq<Job<T>>, width: int, p: Pool<T>) {
    && |p.lanes| == LaneCount(|jobs|, width)
    && p.next <= |jobs| && (p.lanes == [] ==> p.next == 0)
    && p.starts == seq(p.next, i => i)
    && (forall job :: job in p.results ==> job < p.next && jobs[job] == Fulfils(p.results[job]))
    && (forall k :: 0 <= k < |p.lanes| && (p.lanes[k].Running? || p.lanes[k].Threw?) ==>
          p.lanes[k].job < p.next && p.lanes[k].job !in p.results)
    && (forall k :: 0 <= k < |p.lanes| && p.lanes[k].Threw? ==> jobs[p.lanes[k].job].Rejects?)
    && (forall k :: 0 <= k < |p.lanes| && p.lanes[k].Returned? ==> p.next == |jobs|)
    && (forall i, j :: 0 <= i < j < |p.lanes| ==>
          p.lanes[i].Ready? || p.lanes[i].Returned? || !Holds(p.lanes[j], p.lanes[i].job))
    && (forall job: nat :: job < p.next ==> Placed(p, job))
  }

  /** A job once started has its result or is still with the lane that took it. */
  ghost predicate Placed<T>(p: Pool<T>, job: nat) {
    job in p.results || exists k :: 0 <= k < |p.lanes| && Holds(p.lanes[k], job)
  }

  lemma OpenedKeeps<T>(jobs: seq<Job<T>>, width: int)
    ensures Inv(jobs, width, Opened(jobs, width))
  {
  }

  lemma PlacedKeeps<T>(jobs: seq<Job<T>>, width: int, p: Pool<T>, lane: nat, job: nat)
    requires Inv(jobs, width, p) && Enabled(p, lane) && job < Step(jobs, p, lane).next
    ensures Placed(Step(jobs, p, lane), job)
  {
    var q := Step(jobs, p, lane);
    if job < p.next {
      assert Placed(p, job);
      if job !in p.results {
        var k :| 0 <= k < |p.lanes| && Holds(p.lanes[k], job);
        if k != lane { assert Holds(q.lanes[k], job); }
        else if job !in q.results { assert Holds(q.lanes[lane], job); }
      }
    } else {
      assert Holds(q.lanes[lane], job);
    }
  }

  lemma StepKeeps<T>(jobs: seq<Job<T>>, width: int, p: Pool<T>, lane: nat)
    requires Inv(jobs, width, p) && Enabled(p, lane)
    ensures Inv(jobs, width, Step(jobs, p, lane))
  {
    var q := Step(jobs, p, lane);
    forall job: nat | job < q.next ensures Placed(q, job) { PlacedKeeps(jobs, width, p, lane, job); }
  }

  /** Work left: every interleaving runs it down. */
  function Weight(l: Lane): nat { if l.Running? then 2 else if l.Ready? then 1 else 0 }

  function Weights(lanes: seq<Lane>): nat {
    if lanes == [] then 0 else Weights(lanes[..|lanes| - 1]) + Weight(lanes[|lanes| - 1])
  }

  function Left<T>(jobs: seq<Job<T>>, p: Pool<T>): int { 3 * (|jobs| - p.next) + Weights(p.lanes) }

  lemma {:induction false} WeightsUpdate(lanes: seq<Lane>, k: nat, l: Lane)
    requires k < |lanes|
    ensures Weights(lanes[k := l]) == Weights(lanes) - Weight(lanes[k]) + Weight(l)
  {
    var last := |lanes| - 1;
    if k == last {
      assert lanes[k := l][..last] == lanes[..last];
    } else {
      WeightsUpdate(lanes[..last], k, l);
      assert lanes[k := l][..last] == lanes[..last][k := l];
    }
  }

  lemma StepRunsDown<T>(jobs: seq<Job<T>>, width: int, p: Pool<T>, lane: nat)
    requires Inv(jobs, width, p) && Enabled(p, lane)
    ensures 0 <= Left(jobs, Step(jobs, p, lane)) < Left(jobs, p)
  {
    var q := Step(jobs, p, lane);
    StepKeeps(jobs, width, p, lane);
    WeightsUpdate(p.lanes, lane, q.lanes[lane]);
  }

  // -------------------------------------------------------------- whole schedules

  /** A schedule names the lane that moves next; the interleaving is otherwise free. */
  ghost predicate Schedule<T>(jobs: seq<Job<T>>, width: int, lanes: seq<nat>)
    decreases |lanes|, 0
  {
    lanes == [] || (Schedule(jobs, width, lanes[..|lanes| - 1])
                    && Enabled(After(jobs, width, lanes[..|lanes| - 1]), lanes[|lanes| - 1]))
  }

  ghost function After<T>(jobs: seq<Job<T>>, width: int, lanes: seq<nat>): (p: Pool<T>)
    requires Schedule(jobs, width, lanes)
    ensures Inv(jobs, width, p)
    decreases |lanes|, 1
  {
    if lanes == [] then
      OpenedKeeps(jobs, width);
      Opened(jobs, width)
    else
      var before := After(jobs, width, lanes[..|lanes| - 1]);
      StepKeeps(jobs, width, before, lanes[|lanes| - 1]);
      Step(jobs, before, lanes[|lanes| - 1])
  }

  function InFlight(lanes: seq<Lane>): nat {
    if lanes == [] then 0
    else InFlight(lanes[..|lanes| - 1]) + if lanes[|lanes| - 1].Running? then 1 else 0
  }

  lemma {:induction false} InFlightWithin(lanes: seq<Lane>)
    ensures InFlight(lanes) <= |lanes|
  {
    if lanes != [] { InFlightWithin(lanes[..|lanes| - 1]); }
  }

  /** Under any schedule each job starts at most once, in order, at most `width` are in flight, and
      whatever a job came to stands at its own index. */
  lemma PoolIsBounded<T>(jobs: seq<Job<T>>, width: int, lanes: seq<nat>)
    requires Schedule(jobs, width, lanes)
    ensures var p := After(jobs, width, lanes);
      && |p.starts| <= |jobs| && (forall i :: 0 <= i < |p.starts| ==> p.starts[i] == i)
      && (InFlight(p.lanes) == 0 || InFlight(p.lanes) <= width)
      && (forall job :: job in p.results ==> job < |jobs| && jobs[job] == Fulfils(p.results[job]))
  {
    InFlightWithin(After(jobs, width, lanes).lanes);
  }

  lemma {:induction false} OpenedWeighs(n: nat)
    ensures Weights(seq(n, _ => Ready)) == n
  {
    if n > 0 {
      OpenedWeighs(n - 1);
      assert seq(n, _ => Ready)[..n - 1] == seq(n - 1, _ => Ready);
    }
  }

  /** Every schedule ends: it has no more moves than three a job and one a lane. */
  lemma {:induction false} SchedulesEnd<T>(jobs: seq<Job<T>>, width: int, lanes: seq<nat>)
    requires Schedule(jobs, width, lanes)
    ensures |lanes| + Left(jobs, After(jobs, width, lanes)) <= 3 * |jobs| + LaneCount(|jobs|, width)
    ensures |lanes| <= 3 * |jobs| + LaneCount(|jobs|, width)
    decreases |lanes|
  {
    if lanes == [] {
      OpenedWeighs(LaneCount(|jobs|, width));
    } else {
      var init := lanes[..|lanes| - 1];
      SchedulesEnd(jobs, width, init);
      StepRunsDown(jobs, width, After(jobs, width, init), lanes[|lanes| - 1]);
    }
  }

  ghost predicate Ended<T>(p: Pool<T>) { forall lane: nat :: !Enabled(p, lane) }

  predicate AnyThrew<T>(p: Pool<T>) { exists k :: 0 <= k < |p.lanes| && p.lanes[k].Threw? }

  /** Once nothing can move: with a lane at all, some lane threw exactly when some job rejects, and
      otherwise every job has its own result. With no lane, which is any width below one, nothing
      was started. */
  lemma EndedPool<T>(jobs: seq<Job<T>>, width: int, p: Pool<T>)
    requires Inv(jobs, width, p) && Ended(p)
    ensures LaneCount(|jobs|, width) == 0 <==> jobs == [] || width < 1
    ensures LaneCount(|jobs|, width) == 0 ==> !AnyThrew(p) && p.results == map[]
    ensures LaneCount(|jobs|, width) > 0 ==>
      (AnyThrew(p) <==> exists job :: 0 <= job < |jobs| && jobs[job].Rejects?)
    ensures LaneCount(|jobs|, width) > 0 && !AnyThrew(p) ==>
      forall job :: 0 <= job < |jobs| ==> job in p.results && jobs[job] == Fulfils(p.results[job])
  {
    forall k: nat | k < |p.lanes| ensures p.lanes[k].Returned? || p.lanes[k].Threw? {
      assert !Enabled(p, k);
    }
    if |p.lanes| == 0 {
      assert p.results.Keys == {};
    } else if !AnyThrew(p) {
      assert p.lanes[0].Returned?;
      forall job: nat | job < |jobs| ensures job in p.results { assert Placed(p, job); }
    } else {
      var k :| 0 <= k < |p.lanes| && p.lanes[k].Threw?;
      assert jobs[p.lanes[k].job].Rejects?;
    }
  }

  /** The pool under whatever schedule comes: `Promise.all` over its lanes. */
  method InPool<T>(jobs: seq<Job<T>>, width: int) returns (r: Result<map<nat, T>, ()>)
    ensures jobs == [] || width < 1 ==> r == Ok(map[])
    ensures jobs != [] && width >= 1 ==>
      (r == Err(()) <==> exists job :: 0 <= job < |jobs| && jobs[job].Rejects?)
    ensures jobs != [] && width >= 1 && r.Ok? ==>
      && (forall job :: job in r.value <==> 0 <= job < |jobs|)
      && (forall job :: 0 <= job < |jobs| ==> jobs[job] == Fulfils(r.value[job]))
  {
    var p := Opened(jobs, width);
    OpenedKeeps(jobs, width);
    while exists lane :: 0 <= lane < |p.lanes| && Enabled(p, lane)
      invariant Inv(jobs, width, p)
      decreases Left(jobs, p)
    {
      var lane :| 0 <= lane < |p.lanes| && Enabled(p, lane);
      StepRunsDown(jobs, width, p, lane);
      StepKeeps(jobs, width, p, lane);
      p := Step(jobs, p, lane);
    }
    forall lane: nat ensures !Enabled(p, lane) {}
    EndedPool(jobs, width, p);
    r := if AnyThrew(p) then Err(()) else Ok(p.results);
  }

  // ---------------------------------------------------------------------- shards

  datatype Shard = Shard(index: nat, count: nat)

  /** What `--shard k/n` admits. */
  predicate IsShard(shard: Shard) { 1 <= shard.index <= shard.count }

  /** Whose turn it is. */
  function Turn(position: nat, count: nat): nat
    requires count > 0
  {
    position % count
  }

  /** The elements dealt to place `place` of `count`, in order. */
  function Dealt(s: seq<string>, count: nat, place: nat): seq<string>
    requires count > 0
  {
    if s == [] then []
    else Dealt(s[..|s| - 1], count, place) + if Turn(|s| - 1, count) == place then [s[|s| - 1]] else []
  }

  function ShardTaskIds(ids: seq<string>, shard: Shard): Result<seq<string>, string>
    requires IsShard(shard)
  {
    if shard.count > |ids| then Err("leaves a shard empty") else Ok(Dealt(Sort(ids, StringLeq), shard.count, shard.index - 1))
  }

  /** What each place is dealt. */
  function Hands(s: seq<string>, count: nat): seq<multiset<string>>
    requires count > 0
  {
    seq(count, place requires 0 <= place < count => multiset(Dealt(s, count, place)))
  }

  function Together(hands: seq<multiset<string>>): multiset<string> {
    if hands == [] then multiset{} else Together(hands[..|hands| - 1]) + hands[|hands| - 1]
  }

  lemma {:induction false} TogetherGrows(hands: seq<multiset<string>>, k: nat, x: string)
    requires k < |hands|
    ensures Together(hands[k := hands[k] + multiset{x}]) == Together(hands) + multiset{x}
  {
    var last := |hands| - 1;
    var more := hands[k := hands[k] + multiset{x}];
    if k == last {
      assert more[..last] == hands[..last];
    } else {
      TogetherGrows(hands[..last], k, x);
      assert more[..last] == hands[..last][k := hands[k] + multiset{x}];
    }
  }

  lemma {:induction false} TogetherEmpty(hands: seq<multiset<string>>)
    requires forall k :: 0 <= k < |hands| ==> hands[k] == multiset{}
    ensures Together(hands) == multiset{}
  {
    if hands != [] { TogetherEmpty(hands[..|hands| - 1]); }
  }

  lemma DealtGrows(s: seq<string>, x: string, count: nat, place: nat)
    requires count > 0
    ensures place == Turn(|s|, count) ==> multiset(Dealt(s + [x], count, place)) == multiset(Dealt(s, count, place)) + multiset{x}
    ensures place != Turn(|s|, count) ==> multiset(Dealt(s + [x], count, place)) == multiset(Dealt(s, count, place))
  {
    assert (s + [x])[..|s|] == s;
  }

  lemma HandsGrow(s: seq<string>, x: string, count: nat, turn: nat)
    requires count > 0 && turn == Turn(|s|, count) < count
    ensures Hands(s + [x], count) == Hands(s, count)[turn := Hands(s, count)[turn] + multiset{x}]
  {
    var before, after := Hands(s, count), Hands(s + [x], count);
    DealtGrows(s, x, count, turn);
    assert after[turn] == before[turn] + multiset{x};
    forall place: nat | place < count && place != turn ensures after[place] == before[place] {
      DealtGrows(s, x, count, place);
    }
  }

  lemma OneMoreHand(s: seq<string>, x: string, count: nat)
    requires count > 0
    ensures Together(Hands(s + [x], count)) == Together(Hands(s, count)) + multiset{x}
  {
    var turn := Turn(|s|, count);
    HandsGrow(s, x, count, turn);
    TogetherGrows(Hands(s, count), turn, x);
  }

  lemma {:induction false} HandsAreAll(s: seq<string>, count: nat)
    requires count > 0
    ensures Together(Hands(s, count)) == multiset(s)
    decreases |s|
  {
    if s == [] {
      TogetherEmpty(Hands(s, count));
    } else {
      var init, last := s[..|s| - 1], s[|s| - 1];
      HandsAreAll(init, count);
      OneMoreHand(init, last, count);
      assert s == init + [last];
    }
  }

  lemma {:induction false} HandSize(s: seq<string>, count: nat, place: nat)
    requires place < count
    ensures |Dealt(s, count, place)| == |s| / count + if place < |s| % count then 1 else 0
    decreases |s|
  {
    if s != [] {
      HandSize(s[..|s| - 1], count, place);
      OneMore(|s| - 1, count);
    }
  }

  lemma OneMore(n: nat, count: nat)
    requires count > 0
    ensures if n % count == count - 1 then (n + 1) / count == n / count + 1 && (n + 1) % count == 0
            else (n + 1) / count == n / count && (n + 1) % count == n % count + 1
  {
    var q, r := n / count, n % count;
    assert n + 1 == q * count + r + 1;
    if r == count - 1 {
      assert n + 1 == (q + 1) * count;
      Quotient(n + 1, count, q + 1, 0);
    } else {
      Quotient(n + 1, count, q, r + 1);
    }
  }

  lemma Quotient(n: nat, count: nat, q: nat, r: nat)
    requires count > 0 && r < count && n == q * count + r
    ensures n / count == q && n % count == r
  {
    SameQuotient(count, q, r, n / count, n % count);
  }

  lemma SameQuotient(count: nat, q: nat, r: nat, p: nat, t: nat)
    requires r < count && t < count && q * count + r == p * count + t
    ensures q == p && r == t
  {
    if q < p { Apart(count, q, p); }
    if p < q { Apart(count, p, q); }
  }

  lemma Apart(count: nat, q: nat, p: nat)
    requires q < p
    ensures q * count + count <= p * count
  {
    var d := p - q - 1;
    assert p * count == (q + 1 + d) * count == q * count + count + d * count;
  }

  lemma {:induction false} OneHandEach(s: seq<string>, count: nat, a: nat, b: nat, id: string)
    requires a != b && count > 0
    ensures multiset(Dealt(s, count, a))[id] + multiset(Dealt(s, count, b))[id] <= multiset(s)[id]
    decreases |s|
  {
    if s != [] {
      OneHandEach(s[..|s| - 1], count, a, b, id);
      assert s == s[..|s| - 1] + [s[|s| - 1]];
    }
  }

  /** A place is dealt every `count`-th element from its own on. */
  lemma {:induction false} DealtAt(s: seq<string>, count: nat, place: nat, k: nat)
    requires place < count && k < |Dealt(s, count, place)|
    ensures 0 <= place + k * count < |s| && Dealt(s, count, place)[k] == s[place + k * count]
    decreases |s|
  {
    var n := |s| - 1;
    var before := Dealt(s[..n], count, place);
    if k < |before| {
      DealtAt(s[..n], count, place, k);
    } else {
      assert n % count == place;
      HandSize(s[..n], count, place);
      assert k == n / count;
      Divided(n, count);
    }
  }

  lemma Divided(n: nat, count: nat)
    requires count > 0
    ensures n == n % count + n / count * count
  {
  }

  /** A shard takes its own id of the sorted corpus and every `count`-th after it. */
  lemma ShardIsDealt(ids: seq<string>, shard: Shard, sorted: seq<string>, k: nat)
    requires IsShard(shard) && ShardTaskIds(ids, shard).Ok? && k < |ShardTaskIds(ids, shard).value|
    requires multiset(sorted) == multiset(ids) && forall i, j :: 0 <= i < j < |sorted| ==> StringLeq(sorted[i], sorted[j])
    ensures 0 <= shard.index - 1 + k * shard.count < |sorted|
    ensures ShardTaskIds(ids, shard).value[k] == sorted[shard.index - 1 + k * shard.count]
  {
    StringOrder();
    SortSorts(ids, StringLeq);
    SortedIsUnique(Sort(ids, StringLeq), sorted, StringLeq);
    DealtAt(sorted, shard.count, shard.index - 1, k);
  }

  /** The shards together are the corpus. */
  lemma ShardsAreTheCorpus(ids: seq<string>, count: nat)
    requires 1 <= count <= |ids|
    ensures Together(Hands(Sort(ids, StringLeq), count)) == multiset(ids)
  {
    StringOrder();
    SortSorts(ids, StringLeq);
    HandsAreAll(Sort(ids, StringLeq), count);
  }

  /** A shard is refused exactly when there are more shards than tasks; otherwise none is empty and
      any two differ by at most one task. */
  lemma ShardSizes(ids: seq<string>, shard: Shard)
    requires IsShard(shard)
    ensures ShardTaskIds(ids, shard).Ok? <==> shard.count <= |ids|
    ensures shard.count <= |ids| ==>
      1 <= |ids| / shard.count <= |ShardTaskIds(ids, shard).value| <= |ids| / shard.count + 1
  {
    StringOrder();
    SortSorts(ids, StringLeq);
    HandSize(Sort(ids, StringLeq), shard.count, shard.index - 1);
    if shard.count <= |ids| { AtLeastOne(|ids|, shard.count); }
  }

  lemma AtLeastOne(n: nat, count: nat)
    requires 1 <= count <= n
    ensures n / count >= 1
  {
  }

  /** No occurrence of a task is in two shards. */
  lemma ShardsAreDisjoint(ids: seq<string>, a: Shard, b: Shard, mine: seq<string>, other: seq<string>, id: string)
    requires IsShard(a) && IsShard(b) && a.count == b.count && a.index != b.index
    requires ShardTaskIds(ids, a) == Ok(mine) && ShardTaskIds(ids, b) == Ok(other)
    ensures multiset(mine)[id] + multiset(other)[id] <= multiset(ids)[id]
  {
    var s := Sort(ids, StringLeq);
    OneHandEach(s, a.count, a.index - 1, b.index - 1, id);
    assert multiset(s) == multiset(ids) by {
      StringOrder();
      SortSorts(ids, StringLeq);
    }
  }
}
