/**
 * Which backend modules could move to a shared package (scripts/capability-parity.ts):
 * a memoised depth-first search over an import graph that may have cycles, its memo
 * shared by every file asked about.
 */
module MovableModules {
  import opened Lists

  type File = string

  /** `blockers`: the imports a shared package could not make. `deps`: the files of the same
      package each file imports. */
  datatype Graph = Graph(blockers: map<File, seq<string>>, deps: map<File, seq<File>>)

  type Memo = map<File, bool>

  predicate Blocked(g: Graph, f: File) {
    f in g.blockers && |g.blockers[f]| > 0
  }

  function Deps(g: Graph, f: File): seq<File> {
    if f in g.deps then g.deps[f] else []
  }

  // ------------------------------------------------------ what movable means

  ghost predicate IsPath(g: Graph, p: seq<File>) {
    |p| > 0 && forall i :: 0 <= i < |p| - 1 ==> p[i + 1] in Deps(g, p[i])
  }

  ghost predicate Joins(g: Graph, p: seq<File>, a: File, b: File) {
    IsPath(g, p) && p[0] == a && p[|p| - 1] == b
  }

  ghost predicate Reaches(g: Graph, a: File, b: File) {
    exists p :: Joins(g, p, a, b)
  }

  /** Nothing the file reaches, itself included, imports what a shared package could not. */
  ghost predicate CanMove(g: Graph, f: File) {
    forall b :: Reaches(g, f, b) ==> !Blocked(g, b)
  }

  /** `f` reaches itself through at least one import, over files that are not blocked. */
  ghost predicate OnFreeCycle(g: Graph, f: File) {
    exists p :: FreeCycle(g, p, f)
  }

  ghost predicate FreeCycle(g: Graph, p: seq<File>, f: File) {
    |p| > 1 && Joins(g, p, f, f) && forall i :: 0 <= i < |p| ==> !Blocked(g, p[i])
  }

  lemma ReachesItself(g: Graph, f: File)
    ensures Reaches(g, f, f)
  {
    assert Joins(g, [f], f, f);
  }

  lemma ReachesThroughDep(g: Graph, f: File, d: File, b: File)
    requires d in Deps(g, f) && Reaches(g, d, b)
    ensures Reaches(g, f, b)
  {
    var p :| Joins(g, p, d, b);
    assert Joins(g, [f] + p, f, b);
  }

  lemma FirstStep(g: Graph, f: File, b: File) returns (d: File)
    requires Reaches(g, f, b) && f != b
    ensures d in Deps(g, f) && Reaches(g, d, b)
  {
    var p :| Joins(g, p, f, b);
    d := p[1];
    assert Joins(g, p[1..], d, b);
  }

  lemma CanMoveSteps(g: Graph, f: File)
    ensures CanMove(g, f) <==> !Blocked(g, f) && forall d :: d in Deps(g, f) ==> CanMove(g, d)
  {
    ReachesItself(g, f);
    forall d, b | d in Deps(g, f) && Reaches(g, d, b) ensures Reaches(g, f, b) {
      ReachesThroughDep(g, f, d, b);
    }
    forall b | Reaches(g, f, b) && f != b ensures exists d :: d in Deps(g, f) && Reaches(g, d, b) {
      var d := FirstStep(g, f, b);
    }
  }

  // ----------------------------------------------------- the search, as a value

  /** The answer for `file` and the memo after it. `open` holds the files on the way here. */
  function Search(g: Graph, file: File, memo: Memo, open: set<File>): (r: (bool, Memo))
    ensures forall x :: x in memo ==> x in r.1 && r.1[x] == memo[x]
    ensures forall x :: x in open && x in r.1 ==> x in memo
    decreases g.deps.Keys - open, 0
  {
    if file in memo then (memo[file], memo)
    else if file in open then (true, memo)
    else
      var (ok, after) :=
        if Blocked(g, file) then (false, memo)
        else if file !in g.deps then (true, memo)
        else SearchAll(g, g.deps[file], memo, open + {file});
      (ok, after[file := ok])
  }

  /** The files of a dependency list in turn, stopping at the first that cannot move. */
  function SearchAll(g: Graph, files: seq<File>, memo: Memo, open: set<File>): (r: (bool, Memo))
    ensures forall x :: x in memo ==> x in r.1 && r.1[x] == memo[x]
    ensures forall x :: x in open && x in r.1 ==> x in memo
    decreases g.deps.Keys - open, |files|
  {
    if files == [] then (true, memo)
    else
      var (ok, after) := Search(g, files[0], memo, open);
      if !ok then (false, after) else SearchAll(g, files[1..], after, open)
  }

  /** The search over its shared memo and the set of open files, both changed in place. */
  class Searcher {
    const graph: Graph
    var memo: Memo
    var open: set<File>

    constructor (graph: Graph)
      ensures this.graph == graph && memo == map[] && open == {}
    {
      this.graph := graph;
      memo, open := map[], {};
    }

    method MovableIn(file: File) returns (ok: bool)
      modifies this
      ensures (ok, memo) == Search(graph, file, old(memo), old(open))
      ensures open == old(open)
      decreases graph.deps.Keys - open, 0
    {
      if file in memo {
        return memo[file];
      }
      if file in open {
        return true;
      }
      open := open + {file};
      ok := !Blocked(graph, file);
      if ok && file in graph.deps {
        var deps, i := graph.deps[file], 0;
        ghost var before, within := memo, open;
        while i < |deps| && ok
          invariant 0 <= i <= |deps| && open == within
          invariant if ok then SearchAll(graph, deps[i..], memo, open) == SearchAll(graph, deps, before, open)
                    else (false, memo) == SearchAll(graph, deps, before, open)
          decreases |deps| - i, ok
        {
          ok := MovableIn(deps[i]);
          i := i + 1;
        }
      }
      open := open - {file};
      memo := memo[file := ok];
    }
  }

  // ----------------------------------------------- false answers are always real

  /** Every recorded refusal has a blocked file behind it. */
  ghost predicate RefusalsReal(g: Graph, memo: Memo) {
    forall f :: f in memo && !memo[f] ==> !CanMove(g, f)
  }

  /** Whatever the memo holds, provided its refusals are real, a false answer has a path to
      a blocked file, cycles or not. */
  lemma {:induction false} FalseIsReal(g: Graph, file: File, memo: Memo, open: set<File>)
    requires RefusalsReal(g, memo)
    ensures var r := Search(g, file, memo, open);
      RefusalsReal(g, r.1) && (!r.0 ==> exists b :: Reaches(g, file, b) && Blocked(g, b))
    decreases g.deps.Keys - open, 0
  {
    CanMoveSteps(g, file);
    if file !in memo && file !in open && !Blocked(g, file) && file in g.deps {
      FalseIsRealAll(g, g.deps[file], memo, open + {file});
    }
  }

  lemma {:induction false} FalseIsRealAll(g: Graph, files: seq<File>, memo: Memo, open: set<File>)
    requires RefusalsReal(g, memo)
    ensures var r := SearchAll(g, files, memo, open);
      RefusalsReal(g, r.1) && (!r.0 ==> exists d :: d in files && !CanMove(g, d))
    decreases g.deps.Keys - open, |files|
  {
    if files != [] {
      FalseIsReal(g, files[0], memo, open);
      var (ok, after) := Search(g, files[0], memo, open);
      if ok {
        FalseIsRealAll(g, files[1..], after, open);
        assert forall d :: d in files[1..] ==> d in files;
      } else {
        assert files[0] in files && !CanMove(g, files[0]);
      }
    }
  }

  // -------------------------------------------- a root asked with an exact memo

  ghost predicate Exact(g: Graph, memo: Memo) {
    forall f :: f in memo ==> (memo[f] <==> CanMove(g, f))
  }

  ghost predicate AnsweredTrue(memo: Memo, f: File) {
    f in memo && memo[f]
  }

  /** A file answered true is either truly movable, or all it imports is answered true or still open. */
  ghost predicate Settled(g: Graph, memo: Memo, open: set<File>) {
    forall f :: AnsweredTrue(memo, f) ==>
      CanMove(g, f)
      || (!Blocked(g, f) && forall d :: d in Deps(g, f) ==> d in open || AnsweredTrue(memo, d))
  }

  lemma {:induction false} TrueIsSettled(g: Graph, file: File, memo: Memo, open: set<File>)
    requires Settled(g, memo, open)
    ensures var r := Search(g, file, memo, open);
      r.0 ==> Settled(g, r.1, open) && (file in open || AnsweredTrue(r.1, file))
    decreases g.deps.Keys - open, 0
  {
    if file !in memo && file !in open && !Blocked(g, file) {
      if file in g.deps {
        TrueIsSettledAll(g, g.deps[file], memo, open + {file});
      }
      var (ok, after) := if file !in g.deps then (true, memo) else SearchAll(g, g.deps[file], memo, open + {file});
      if ok {
        var last := after[file := true];
        forall f | AnsweredTrue(last, f) && !CanMove(g, f)
          ensures !Blocked(g, f) && forall d :: d in Deps(g, f) ==> d in open || AnsweredTrue(last, d)
        {
          if f != file { assert AnsweredTrue(after, f); }
        }
      }
    }
  }

  lemma {:induction false} TrueIsSettledAll(g: Graph, files: seq<File>, memo: Memo, open: set<File>)
    requires Settled(g, memo, open)
    ensures var r := SearchAll(g, files, memo, open);
      r.0 ==> Settled(g, r.1, open) && forall d :: d in files ==> d in open || AnsweredTrue(r.1, d)
    decreases g.deps.Keys - open, |files|
  {
    if files != [] {
      TrueIsSettled(g, files[0], memo, open);
      var (ok, after) := Search(g, files[0], memo, open);
      if ok { TrueIsSettledAll(g, files[1..], after, open); }
    }
  }

  /** With nothing open, everything answered true is truly movable. */
  lemma {:induction false} SettledIsMovable(g: Graph, memo: Memo, f: File, p: seq<File>)
    requires Settled(g, memo, {}) && AnsweredTrue(memo, f)
    requires |p| > 0 && Joins(g, p, f, p[|p| - 1])
    ensures !Blocked(g, p[|p| - 1])
    decreases |p|
  {
    assert Reaches(g, f, p[|p| - 1]);
    if !CanMove(g, f) && |p| > 1 {
      assert AnsweredTrue(memo, p[1]);
      assert Joins(g, p[1..], p[1], p[|p| - 1]);
      SettledIsMovable(g, memo, p[1], p[1..]);
    }
  }

  /** Asked with nothing open and an exact memo (a fresh one in particular), the answer is
      exact, cycles included. */
  lemma RootIsExact(g: Graph, file: File, memo: Memo)
    requires Exact(g, memo)
    ensures Search(g, file, memo, {}).0 <==> CanMove(g, file)
  {
    FalseIsReal(g, file, memo, {});
    TrueIsSettled(g, file, memo, {});
    var r := Search(g, file, memo, {});
    if r.0 {
      forall b | Reaches(g, file, b) ensures !Blocked(g, b) {
        var p :| Joins(g, p, file, b);
        SettledIsMovable(g, r.1, file, p);
      }
    }
  }

  // ------------------------------------------------- a memo shared across roots

  function Members(p: seq<File>): set<File> { set f | f in p }

  ghost predicate Meets(q: seq<File>, way: seq<File>) {
    exists i :: 0 <= i < |q| && q[i] in way
  }

  ghost predicate ToBlocked(g: Graph, q: seq<File>, f: File) {
    IsPath(g, q) && q[0] == f && Blocked(g, q[|q| - 1])
  }

  /** Whatever blocked file `f` reaches, it reaches back through the way. */
  ghost predicate OnlyBackThrough(g: Graph, f: File, way: seq<File>) {
    forall q :: ToBlocked(g, q, f) ==> Meets(q, way)
  }

  /** A way over files that are not blocked to a file that cannot move, but only because of what it
      reaches back through the way: searched while the way is open, it finds nothing blocked. */
  ghost predicate Trap(g: Graph, p: seq<File>) {
    && |p| >= 2 && IsPath(g, p) && NoRepeats(p)
    && (forall i :: 0 <= i < |p| - 1 ==> !Blocked(g, p[i]))
    && !CanMove(g, p[|p| - 1])
    && OnlyBackThrough(g, p[|p| - 1], p[..|p| - 1])
  }

  ghost predicate NoTraps(g: Graph) { forall p :: !Trap(g, p) }

  /** The open files, in the order they lead to `file`: none twice, none blocked. */
  ghost predicate OnWay(g: Graph, way: seq<File>, open: set<File>, file: File) {
    && NoRepeats(way) && open == Members(way) && IsPath(g, way + [file])
    && forall i :: 0 <= i < |way| ==> !Blocked(g, way[i])
  }

  /** From a file answered true every path to a blocked file meets one still open. */
  lemma {:induction false} SettledMeetsOpen(g: Graph, memo: Memo, open: set<File>, f: File, q: seq<File>)
    requires Settled(g, memo, open) && AnsweredTrue(memo, f) && ToBlocked(g, q, f)
    ensures exists i :: 0 <= i < |q| && q[i] in open
    decreases |q|
  {
    assert Joins(g, q, f, q[|q| - 1]);
    assert !CanMove(g, f) by { assert Reaches(g, f, q[|q| - 1]); }
    assert q[1] in Deps(g, f);
    if q[1] !in open {
      SettledMeetsOpen(g, memo, open, q[1], q[1..]);
      var i :| 0 <= i < |q| - 1 && q[1..][i] in open;
      assert q[i + 1] in open;
    }
  }

  /** Without traps, what is answered true while others are open can truly move. */
  lemma TrueCanMove(g: Graph, memo: Memo, way: seq<File>, open: set<File>, file: File)
    requires NoTraps(g) && Settled(g, memo, open) && AnsweredTrue(memo, file)
    requires OnWay(g, way, open, file) && file !in open
    ensures CanMove(g, file)
  {
    if !CanMove(g, file) {
      var p := way + [file];
      NoRepeatsSnoc(way, file);
      forall q | ToBlocked(g, q, file) ensures Meets(q, way) {
        SettledMeetsOpen(g, memo, open, file, q);
      }
      var b :| Reaches(g, file, b) && Blocked(g, b);
      var q :| Joins(g, q, file, b);
      assert ToBlocked(g, q, file);
      assert p[..|p| - 1] == way && Trap(g, p);
    }
  }

  /** Without traps a memo stays exact from root to root, whatever is asked. */
  lemma {:induction false} SharedMemoIsExact(g: Graph, file: File, memo: Memo, way: seq<File>, open: set<File>)
    requires NoTraps(g) && Exact(g, memo) && OnWay(g, way, open, file)
    ensures var r := Search(g, file, memo, open);
      (file !in open ==> (r.0 <==> CanMove(g, file))) && Exact(g, r.1)
    decreases g.deps.Keys - open, 0
  {
    if file !in memo && file !in open {
      FalseIsReal(g, file, memo, open);
      TrueIsSettled(g, file, memo, open);
      if !Blocked(g, file) && file in g.deps {
        forall d | d in g.deps[file] ensures OnWay(g, way + [file], open + {file}, d) {
        }
        SharedMemoIsExactAll(g, g.deps[file], memo, way + [file], open + {file});
      }
      var r := Search(g, file, memo, open);
      if r.0 { TrueCanMove(g, r.1, way, open, file); }
    }
  }

  lemma {:induction false} SharedMemoIsExactAll(g: Graph, files: seq<File>, memo: Memo, way: seq<File>, open: set<File>)
    requires NoTraps(g) && Exact(g, memo) && forall d :: d in files ==> OnWay(g, way, open, d)
    ensures Exact(g, SearchAll(g, files, memo, open).1)
    decreases g.deps.Keys - open, |files|
  {
    if files != [] {
      SharedMemoIsExact(g, files[0], memo, way, open);
      var (ok, after) := Search(g, files[0], memo, open);
      if ok { SharedMemoIsExactAll(g, files[1..], after, way, open); }
    }
  }

  /** Every file that lies on a cycle of unblocked files can move: acyclic graphs, and cyclic
      ones whose cycles are sound. */
  ghost predicate CyclesMovable(g: Graph) {
    forall f :: OnFreeCycle(g, f) ==> CanMove(g, f)
  }

  /** Such graphs have no traps: the end of a trap lies on a cycle of unblocked files. */
  lemma SoundCyclesHaveNoTraps(g: Graph)
    requires CyclesMovable(g)
    ensures NoTraps(g)
  {
    forall p ensures !Trap(g, p) {
      if Trap(g, p) { TrapEndsOnCycle(g, p); }
    }
  }

  lemma PathPart(g: Graph, p: seq<File>, i: nat, j: nat)
    requires IsPath(g, p) && i < j <= |p|
    ensures IsPath(g, p[i..j])
  {
    forall k | 0 <= k < j - i - 1 ensures p[i..j][k + 1] in Deps(g, p[i..j][k]) {
      assert p[i + k + 1] in Deps(g, p[i + k]);
    }
  }

  /** On such graphs a file met while it is open, which the search lets pass, can move too. */
  lemma OpenCanMove(g: Graph, way: seq<File>, open: set<File>, file: File)
    requires CyclesMovable(g) && OnWay(g, way, open, file) && file in open
    ensures CanMove(g, file)
  {
    var i :| 0 <= i < |way| && way[i] == file;
    var round := (way + [file])[i..|way| + 1];
    PathPart(g, way + [file], i, |way| + 1);
    assert round[0] == file && round[|round| - 1] == file;
    assert FreeCycle(g, round, file);
  }

  lemma TrapEndsOnCycle(g: Graph, p: seq<File>)
    requires Trap(g, p)
    ensures OnFreeCycle(g, p[|p| - 1])
  {
    var n := |p| - 1;
    var last, way := p[n], p[..n];
    assert last !in way;
    var b :| Reaches(g, last, b) && Blocked(g, b);
    var q :| Joins(g, q, last, b);
    var k := FirstMeeting(g, q, last, way);
    var j :| 0 <= j < n && p[j] == q[k];
    PathPart(g, q, 0, k + 1);
    PathPart(g, p, j, |p|);
    assert q[0..k + 1][..k] == q[..k];
    BackIsFree(g, p, q, j, k);
  }

  lemma BackIsFree(g: Graph, p: seq<File>, q: seq<File>, j: nat, k: nat)
    requires |p| >= 2 && j < |p| - 1 && 0 < k < |q| && q[0] == p[|p| - 1]
    requires IsPath(g, q[..k] + p[j..])
    requires forall i :: 0 <= i < |p| - 1 ==> !Blocked(g, p[i])
    requires forall i :: 0 <= i < k ==> !Blocked(g, q[i])
    ensures OnFreeCycle(g, p[|p| - 1])
  {
    var back := q[..k] + p[j..];
    assert back[0] == q[0] && back[|back| - 1] == p[|p| - 1];
    forall i | 0 <= i < |back| ensures !Blocked(g, back[i]) {
      if i < k { assert back[i] == q[i]; } else { assert back[i] == p[j + i - k]; }
    }
    assert FreeCycle(g, back, p[|p| - 1]);
  }

  /** Where a path first meets the way; before that it is not blocked, or it would be a path to a
      blocked file that never meets it. */
  lemma FirstMeeting(g: Graph, q: seq<File>, f: File, way: seq<File>) returns (k: nat)
    requires ToBlocked(g, q, f) && f !in way && OnlyBackThrough(g, f, way)
    ensures 0 < k < |q| && q[k] in way
    ensures forall i :: 0 <= i < k ==> !Blocked(g, q[i])
  {
    k := 0;
    assert Meets(q, way);
    while q[k] !in way
      invariant k < |q| && forall i :: 0 <= i < k ==> q[i] !in way
      decreases |q| - k
    {
      k := k + 1;
    }
    forall i: nat | i < k ensures !Blocked(g, q[i]) {
      PathPart(g, q, 0, i + 1);
      assert !Meets(q[0..i + 1], way);
      assert !ToBlocked(g, q[0..i + 1], f);
    }
  }

  // ------------------------------------------------------- the files reported

  /** The closure files answered true, asked in turn over one memo. */
  function Reported(g: Graph, files: seq<File>, closure: set<File>, memo: Memo): seq<File> {
    if files == [] then []
    else if files[0] !in closure then Reported(g, files[1..], closure, memo)
    else
      var (ok, after) := Search(g, files[0], memo, {});
      (if ok then [files[0]] else []) + Reported(g, files[1..], closure, after)
  }

  method FindMovable(g: Graph, files: seq<File>, closure: set<File>) returns (movable: seq<File>)
    ensures movable == Reported(g, files, closure, map[])
  {
    var search := new Searcher(g);
    movable := [];
    for i := 0 to |files|
      invariant search.graph == g && search.open == {}
      invariant movable + Reported(g, files[i..], closure, search.memo) == Reported(g, files, closure, map[])
    {
      if files[i] in closure {
        var ok := search.MovableIn(files[i]);
        if ok {
          movable := movable + [files[i]];
        }
      }
    }
  }

  /** No movable file is ever withheld, on any graph and in any order of asking. */
  lemma {:induction false} EveryMovableIsReported(g: Graph, files: seq<File>, closure: set<File>, memo: Memo)
    requires RefusalsReal(g, memo)
    ensures forall f :: f in files && f in closure && CanMove(g, f) ==> f in Reported(g, files, closure, memo)
  {
    if files != [] {
      if files[0] in closure {
        FalseIsReal(g, files[0], memo, {});
        EveryMovableIsReported(g, files[1..], closure, Search(g, files[0], memo, {}).1);
      } else {
        EveryMovableIsReported(g, files[1..], closure, memo);
      }
    }
  }

  /** Without traps exactly the movable files are reported, in any order of asking. */
  lemma {:induction false} ReportedAreMovable(g: Graph, files: seq<File>, closure: set<File>, memo: Memo)
    requires NoTraps(g) && Exact(g, memo)
    ensures forall f :: f in Reported(g, files, closure, memo) <==> f in files && f in closure && CanMove(g, f)
  {
    if files != [] {
      if files[0] in closure {
        assert OnWay(g, [], {}, files[0]);
        SharedMemoIsExact(g, files[0], memo, [], {});
        ReportedAreMovable(g, files[1..], closure, Search(g, files[0], memo, {}).1);
      } else {
        ReportedAreMovable(g, files[1..], closure, memo);
      }
    }
  }

  // ----------------------------------------- exactly when the report is exact

  /** The same imports, in another order. */
  ghost predicate Reordered(g: Graph, h: Graph) {
    && h.blockers == g.blockers && h.deps.Keys == g.deps.Keys
    && forall f :: f in g.deps ==> multiset(h.deps[f]) == multiset(g.deps[f])
  }

  ghost predicate ReportsExactly(h: Graph, files: seq<File>, closure: set<File>) {
    forall f :: f in Reported(h, files, closure, map[]) <==> f in files && f in closure && CanMove(h, f)
  }

  ghost predicate AlwaysExact(g: Graph) {
    forall h, files, closure :: Reordered(g, h) ==> ReportsExactly(h, files, closure)
  }

  lemma SamePaths(g: Graph, h: Graph)
    requires Reordered(g, h)
    ensures forall p :: IsPath(g, p) <==> IsPath(h, p)
    ensures forall f :: CanMove(g, f) <==> CanMove(h, f)
  {
    forall f, d ensures d in Deps(g, f) <==> d in Deps(h, f) {
      if f in g.deps {
        assert d in g.deps[f] <==> d in multiset(g.deps[f]);
        assert d in h.deps[f] <==> d in multiset(h.deps[f]);
      }
    }
    forall p ensures IsPath(g, p) <==> IsPath(h, p) {}
    forall f, b ensures Reaches(g, f, b) <==> Reaches(h, f, b) {
      if p :| Joins(g, p, f, b) { assert Joins(h, p, f, b); }
      if p :| Joins(h, p, f, b) { assert Joins(g, p, f, b); }
    }
  }

  lemma SameTraps(g: Graph, h: Graph, p: seq<File>)
    requires Reordered(g, h)
    ensures Trap(g, p) <==> Trap(h, p)
  {
    SamePaths(g, h);
    forall f, q ensures ToBlocked(g, q, f) <==> ToBlocked(h, q, f) {}
    assert forall f, way :: OnlyBackThrough(g, f, way) <==> OnlyBackThrough(h, f, way);
  }

  function Without(d: File, ds: seq<File>): seq<File> {
    if ds == [] then [] else if ds[0] == d then ds[1..] else [ds[0]] + Without(d, ds[1..])
  }

  lemma {:induction false} WithoutOne(d: File, ds: seq<File>)
    requires d in ds
    ensures multiset([d] + Without(d, ds)) == multiset(ds)
  {
    assert ds == [ds[0]] + ds[1..];
    if ds[0] != d { WithoutOne(d, ds[1..]); }
  }

  /** A file's imports with one of them moved to the head. */
  function Headed(g: Graph, f: File, d: File): Graph {
    g.(deps := g.deps[f := [d] + Without(d, Deps(g, f))])
  }

  /** Every file of a path but the last lists the next one first. */
  ghost predicate ListsNext(g: Graph, p: seq<File>, n: nat)
    requires n < |p|
  {
    forall i :: 0 <= i < n ==> p[i] in g.deps && g.deps[p[i]] != [] && g.deps[p[i]][0] == p[i + 1]
  }

  lemma HeadedIsReordered(g: Graph, h: Graph, f: File, d: File)
    requires Reordered(g, h) && d in Deps(g, f)
    ensures Reordered(g, Headed(h, f, d))
  {
    assert d in multiset(g.deps[f]);
    assert d in h.deps[f];
    WithoutOne(d, h.deps[f]);
  }

  /** Some order of the imports leads along a path. */
  lemma {:induction false} LedAlong(g: Graph, p: seq<File>, n: nat) returns (h: Graph)
    requires IsPath(g, p) && NoRepeats(p) && n < |p|
    ensures Reordered(g, h) && ListsNext(h, p, n)
  {
    if n == 0 {
      h := g;
    } else {
      var before := LedAlong(g, p, n - 1);
      assert p[n - 1 + 1] in Deps(g, p[n - 1]);
      HeadedIsReordered(g, before, p[n - 1], p[n]);
      h := Headed(before, p[n - 1], p[n]);
      forall i | 0 <= i < n ensures p[i] in h.deps && h.deps[p[i]] != [] && h.deps[p[i]][0] == p[i + 1] {
        if i < n - 1 { assert p[i] != p[n - 1]; }
      }
    }
  }

  /** A path to a blocked file that meets none of `base`. */
  ghost predicate Escapes(g: Graph, q: seq<File>, f: File, base: set<File>) {
    ToBlocked(g, q, f) && forall i :: 0 <= i < |q| ==> q[i] !in base
  }

  ghost predicate CanEscape(g: Graph, f: File, base: set<File>) { exists q :: Escapes(g, q, f, base) }

  ghost predicate RefusalsEscape(g: Graph, memo: Memo, base: set<File>) {
    forall f :: f in memo && !memo[f] ==> CanEscape(g, f, base)
  }

  /** A refusal found while `base` is open has a path to a blocked file around it. */
  lemma {:induction false} FalseEscapes(g: Graph, file: File, memo: Memo, open: set<File>, base: set<File>)
    requires base <= open && RefusalsEscape(g, memo, base)
    ensures var r := Search(g, file, memo, open);
      RefusalsEscape(g, r.1, base) && (!r.0 ==> CanEscape(g, file, base))
    decreases g.deps.Keys - open, 0
  {
    if file !in memo && file !in open {
      if Blocked(g, file) {
        assert Escapes(g, [file], file, base);
      } else if file in g.deps {
        FalseEscapesAll(g, g.deps[file], memo, open + {file}, base);
        if d :| d in g.deps[file] && CanEscape(g, d, base) {
          var q :| Escapes(g, q, d, base);
          assert Escapes(g, [file] + q, file, base);
        }
      }
    }
  }

  lemma {:induction false} FalseEscapesAll(g: Graph, files: seq<File>, memo: Memo, open: set<File>, base: set<File>)
    requires base <= open && RefusalsEscape(g, memo, base)
    ensures var r := SearchAll(g, files, memo, open);
      RefusalsEscape(g, r.1, base) && (!r.0 ==> exists d :: d in files && CanEscape(g, d, base))
    decreases g.deps.Keys - open, |files|
  {
    if files != [] {
      FalseEscapes(g, files[0], memo, open, base);
      var (ok, after) := Search(g, files[0], memo, open);
      if ok {
        FalseEscapesAll(g, files[1..], after, open, base);
        assert forall d :: d in files[1..] ==> d in files;
      } else {
        assert files[0] in files;
      }
    }
  }

  /** Asked along a trap whose files list the next one first, the search answers its end true. */
  lemma {:induction false} TrapAnswersTrue(h: Graph, p: seq<File>, i: nat)
    requires Trap(h, p) && i < |p| && ListsNext(h, p, |p| - 1)
    ensures AnsweredTrue(Search(h, p[i], map[], Members(p[..i])).1, p[|p| - 1])
    decreases |p| - i
  {
    var open, last := Members(p[..i]), p[|p| - 1];
    assert p[i] !in open;
    if i == |p| - 1 {
      FalseEscapes(h, last, map[], open, open);
      assert !CanEscape(h, last, open) by {
        forall q ensures !Escapes(h, q, last, open) {
          if ToBlocked(h, q, last) { assert Meets(q, p[..i]); }
        }
      }
    } else {
      TrapAnswersTrue(h, p, i + 1);
      assert open + {p[i]} == Members(p[..i + 1]) by { assert p[..i + 1] == p[..i] + [p[i]]; }
      var first := Search(h, p[i + 1], map[], open + {p[i]});
      var all := SearchAll(h, h.deps[p[i]], map[], open + {p[i]});
      assert AnsweredTrue(all.1, last);
      assert p[i] != last;
    }
  }

  /** Asked after the head of such a trap, its end is reported. */
  lemma TrapOverReports(h: Graph, p: seq<File>)
    requires Trap(h, p) && ListsNext(h, p, |p| - 1)
    ensures var last := p[|p| - 1]; last in Reported(h, [p[0], last], {p[0], last}, map[]) && !CanMove(h, last)
  {
    var last := p[|p| - 1];
    TrapAnswersTrue(h, p, 0);
    assert Members(p[..0]) == {};
    var files, closure := [p[0], last], {p[0], last};
    var memo := Search(h, p[0], map[], {}).1;
    assert files[1..] == [last] && [last][1..] == [];
    assert last in Reported(h, [last], closure, memo);
  }

  /** Exactly the movable files are reported, in every order of the imports and of the asking,
      if and only if the graph has no trap. */
  lemma ExactIffNoTraps(g: Graph)
    ensures AlwaysExact(g) <==> NoTraps(g)
  {
    if NoTraps(g) {
      forall h, files, closure | Reordered(g, h) ensures ReportsExactly(h, files, closure) {
        forall p ensures !Trap(h, p) { SameTraps(g, h, p); }
        ReportedAreMovable(h, files, closure, map[]);
      }
    }
    if p :| Trap(g, p) {
      var h := LedAlong(g, p, |p| - 1);
      SameTraps(g, h, p);
      TrapOverReports(h, p);
      var last := p[|p| - 1];
      assert !ReportsExactly(h, [p[0], last], {p[0], last});
    }
  }

  /** A imports B and C, B imports A, C is blocked. */
  const LOOP := Graph(map["C" := ["agents"]], map["A" := ["B", "C"], "B" := ["A"]])

  /** Asked first, A is refused and leaves B recorded as movable. */
  lemma AskedAFirst()
    ensures Search(LOOP, "A", map[], {}) == (false, map["B" := true, "C" := false, "A" := false])
  {
    var afterB: Memo := map["B" := true];
    assert Search(LOOP, "A", map[], {"A", "B"}) == (true, map[]);
    assert SearchAll(LOOP, ["A"], map[], {"A", "B"}) == (true, map[]) by {
      assert ["A"][1..] == [];
    }
    assert {"A"} + {"B"} == {"A", "B"};
    assert Search(LOOP, "B", map[], {"A"}) == (true, afterB);
    assert Search(LOOP, "C", afterB, {"A"}) == (false, afterB["C" := false]);
    assert ["B", "C"][1..] == ["C"];
    assert SearchAll(LOOP, ["C"], afterB, {"A"}) == (false, afterB["C" := false]);
    assert SearchAll(LOOP, ["B", "C"], map[], {"A"}) == (false, afterB["C" := false]);
    assert {} + {"A"} == {"A"};
  }

  /** Asked first, B is refused and A with it. */
  lemma AskedBFirst()
    ensures !Search(LOOP, "B", map[], {}).0
    ensures var first := Search(LOOP, "B", map[], {}).1; "A" in first && !first["A"]
  {
    assert Joins(LOOP, ["B", "A", "C"], "B", "C");
    RootIsExact(LOOP, "B", map[]);
    assert Search(LOOP, "B", map[], {"B", "A"}) == (true, map[]);
    assert SearchAll(LOOP, ["B", "C"], map[], {"B", "A"}).0 == false by {
      assert SearchAll(LOOP, ["C"], map[], {"B", "A"}).0 == false;
    }
    assert {} + {"B"} == {"B"} && {"B"} + {"A"} == {"B", "A"};
    assert Search(LOOP, "A", map[], {"B"}).0 == false;
  }

  /** On a cycle with a blocked file behind it the shared memo over-reports: asked after A,
      B is answered from the memo entry written while A was still open. */
  lemma SharedMemoOverReports()
    ensures Reported(LOOP, ["A", "B"], {"A", "B"}, map[]) == ["B"]
    ensures Reaches(LOOP, "B", "C") && Blocked(LOOP, "C") && !CanMove(LOOP, "B")
    ensures Reported(LOOP, ["B", "A"], {"A", "B"}, map[]) == []
  {
    assert Joins(LOOP, ["B", "A", "C"], "B", "C");
    assert Reaches(LOOP, "B", "C") && Blocked(LOOP, "C");
    AskedAFirst();
    AskedBFirst();
    var after, first := Search(LOOP, "A", map[], {}).1, Search(LOOP, "B", map[], {}).1;
    assert ["A", "B"][1..] == ["B"] && ["B"][1..] == [];
    assert Reported(LOOP, ["B"], {"A", "B"}, after) == ["B"];
    assert ["B", "A"][1..] == ["A"] && ["A"][1..] == [];
    assert Reported(LOOP, ["A"], {"A", "B"}, first) == [];
  }
}
