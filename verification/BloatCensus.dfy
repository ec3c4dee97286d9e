/**
 * The size of a syntax tree and of every function in it (`treeSize` in scripts/bloat-census.ts):
 * a function's whole subtree, and the part of it that no function inside it owns.
 *
 * The walk returns two counts from every node, its subtree's size and how much of that functions
 * below it own, and fills a map from functions to their sizes on the way back up.
 */
module BloatCensus {

  /** A syntax node; `callable` when its type is one of the function types. */
  datatype Node = Node(callable: bool, children: seq<Node>)

  /** Which node of a tree: the child taken at each step down from the root. */
  type Path = seq<nat>

  datatype FunctionSize = FunctionSize(nodes: nat, own: nat)

  datatype Owner = Nobody | Function(at: Path)

  predicate Within(tree: Node, at: Path)
    decreases |at|
  {
    at == [] || (at[0] < |tree.children| && Within(tree.children[at[0]], at[1..]))
  }

  function NodeAt(tree: Node, at: Path): Node
    requires Within(tree, at)
    decreases |at|
  {
    if at == [] then tree else NodeAt(tree.children[at[0]], at[1..])
  }

  function Size(n: Node): nat
    decreases n, |n.children| + 1
  {
    1 + SizeFrom(n, 0)
  }

  function SizeFrom(n: Node, i: nat): nat
    requires i <= |n.children|
    decreases n, |n.children| - i
  {
    if i == |n.children| then 0 else Size(n.children[i]) + SizeFrom(n, i + 1)
  }

  /** For each node in the walk's order, the innermost function it lies in; a function lies in
      itself. `at` is where `n` is, and `outer` the innermost function above it. */
  function Owners(n: Node, at: Path, outer: Owner): seq<Owner>
    decreases n, |n.children| + 1
  {
    var mine := if n.callable then Function(at) else outer;
    [mine] + OwnersFrom(n, 0, at, mine)
  }

  function OwnersFrom(n: Node, i: nat, at: Path, mine: Owner): seq<Owner>
    requires i <= |n.children|
    decreases n, |n.children| - i
  {
    if i == |n.children| then [] else Owners(n.children[i], at + [i], mine) + OwnersFrom(n, i + 1, at, mine)
  }

  function TreeOwners(tree: Node): seq<Owner> { Owners(tree, [], Nobody) }

  // ------------------------------------------------------------------ counting

  function Count(owners: seq<Owner>, o: Owner): nat {
    if owners == [] then 0 else (if owners[0] == o then 1 else 0) + Count(owners[1..], o)
  }

  lemma {:induction false} CountJoins(a: seq<Owner>, b: seq<Owner>, o: Owner)
    ensures Count(a + b, o) == Count(a, o) + Count(b, o)
  {
    if a == [] {
      assert a + b == b;
    } else {
      assert (a + b)[1..] == a[1..] + b;
      CountJoins(a[1..], b, o);
    }
  }

  /** Nodes of `n` that the innermost function holding `n` owns, `n` itself among them. */
  function Free(n: Node): nat
    decreases n, |n.children| + 1
  {
    1 + FreeFrom(n, 0)
  }

  function FreeFrom(n: Node, i: nat): nat
    requires i <= |n.children|
    decreases n, |n.children| - i
  {
    if i == |n.children| then 0
    else (if n.children[i].callable then 0 else Free(n.children[i])) + FreeFrom(n, i + 1)
  }

  lemma {:induction false} FreeBelowSize(n: Node)
    ensures 1 <= Free(n) <= Size(n)
    decreases n, |n.children| + 1
  {
    FreeBelowSizeFrom(n, 0);
  }

  lemma {:induction false} FreeBelowSizeFrom(n: Node, i: nat)
    requires i <= |n.children|
    ensures FreeFrom(n, i) <= SizeFrom(n, i)
    decreases n, |n.children| - i
  {
    if i < |n.children| {
      FreeBelowSize(n.children[i]);
      FreeBelowSizeFrom(n, i + 1);
    }
  }

  // ------------------------------------------------------------------ the walk

  /** What the map holds for the functions at or below `n`, which hangs at `at`. */
  ghost predicate Sized(m: map<Path, FunctionSize>, n: Node, at: Path) {
    forall p: Path :: Within(n, p) && NodeAt(n, p).callable ==>
      at + p in m && m[at + p] == FunctionSize(Size(NodeAt(n, p)), Free(NodeAt(n, p)))
  }

  /** The map `after` adds to `before` only functions at or below a child of `n` before `i`. */
  ghost predicate OnlyChildren(before: map<Path, FunctionSize>, after: map<Path, FunctionSize>, n: Node, at: Path, i: nat) {
    forall q :: q in after && q !in before ==> exists p: Path ::
      p != [] && Within(n, p) && p[0] < i && NodeAt(n, p).callable && q == at + p
  }

  ghost predicate Only(before: map<Path, FunctionSize>, after: map<Path, FunctionSize>, n: Node, at: Path) {
    forall q :: q in after && q !in before ==> exists p: Path :: Within(n, p) && NodeAt(n, p).callable && q == at + p
  }

  /** Nothing at or below `at` has been sized yet. */
  ghost predicate Fresh(m: map<Path, FunctionSize>, at: Path) {
    forall q :: q in m ==> !(at <= q)
  }

  class TreeSizer {
    var functions: map<Path, FunctionSize>

    constructor ()
      ensures functions == map[]
    {
      functions := map[];
    }

    /** A subtree's size, and how much of it lies inside functions of its own below its root. */
    method Visit(node: Node, at: Path) returns (total: nat, nested: nat)
      requires Fresh(functions, at)
      modifies this
      ensures total == Size(node) && nested == Size(node) - Free(node)
      ensures Sized(functions, node, at) && Only(old(functions), functions, node, at)
      ensures forall q :: q in old(functions) ==> q in functions && functions[q] == old(functions)[q]
      decreases node
    {
      total, nested := 1, 0;
      var i := 0;
      FreeBelowSize(node);
      while i < |node.children|
        invariant i <= |node.children|
        invariant total + SizeFrom(node, i) == Size(node)
        invariant total - nested + FreeFrom(node, i) == Free(node)
        invariant forall q :: q in old(functions) ==> q in functions && functions[q] == old(functions)[q]
        invariant OnlyChildren(old(functions), functions, node, at, i)
        invariant forall j: nat :: j < i ==> Sized(functions, node.children[j], at + [j])
      {
        var child := node.children[i];
        FreshChild(old(functions), functions, node, at, i);
        ghost var before := functions;
        var size, inner := Visit(child, at + [i]);
        FreeBelowSize(child);
        total := total + size;
        nested := nested + if child.callable then size else inner;
        NextChild(old(functions), before, functions, node, at, i);
        forall j: nat | j < i ensures Sized(functions, node.children[j], at + [j]) {
        }
        i := i + 1;
      }
      ghost var below := functions;
      if node.callable {
        assert at !in functions by { }
        functions := functions[at := FunctionSize(total, total - nested)];
      }
      WholeNode(old(functions), below, functions, node, at);
    }
  }

  lemma FreshChild(before: map<Path, FunctionSize>, now: map<Path, FunctionSize>, n: Node, at: Path, i: nat)
    requires Fresh(before, at) && OnlyChildren(before, now, n, at, i)
    ensures Fresh(now, at + [i])
  {
    forall q | q in now ensures !(at + [i] <= q) {
      if q in before {
        assert at + [i] <= q ==> at <= q;
      } else {
        var p: Path :| p != [] && Within(n, p) && p[0] < i && NodeAt(n, p).callable && q == at + p;
        assert q[|at|] == p[0];
      }
    }
  }

  lemma NextChild(start: map<Path, FunctionSize>, before: map<Path, FunctionSize>, after: map<Path, FunctionSize>,
                  n: Node, at: Path, i: nat)
    requires i < |n.children|
    requires OnlyChildren(start, before, n, at, i) && Only(before, after, n.children[i], at + [i])
    ensures OnlyChildren(start, after, n, at, i + 1)
  {
    forall q | q in after && q !in start
      ensures exists p: Path :: p != [] && Within(n, p) && p[0] < i + 1 && NodeAt(n, p).callable && q == at + p
    {
      if q in before {
        var p: Path :| p != [] && Within(n, p) && p[0] < i && NodeAt(n, p).callable && q == at + p;
        assert p[0] < i + 1;
      } else {
        var p: Path :| Within(n.children[i], p) && NodeAt(n.children[i], p).callable && q == at + [i] + p;
        var down: Path := [i] + p;
        assert down[1..] == p && at + down == q;
      }
    }
  }

  lemma WholeNode(start: map<Path, FunctionSize>, below: map<Path, FunctionSize>, after: map<Path, FunctionSize>,
                  n: Node, at: Path)
    requires Fresh(start, at) && OnlyChildren(start, below, n, at, |n.children|)
    requires forall j: nat :: j < |n.children| ==> Sized(below, n.children[j], at + [j])
    requires after == if n.callable then below[at := FunctionSize(Size(n), Free(n))] else below
    ensures Sized(after, n, at) && Only(start, after, n, at)
  {
    forall p: Path | Within(n, p) && NodeAt(n, p).callable
      ensures at + p in after && after[at + p] == FunctionSize(Size(NodeAt(n, p)), Free(NodeAt(n, p)))
    {
      OneFunction(below, after, n, at, p);
    }
    forall q | q in after && q !in start
      ensures exists p: Path :: Within(n, p) && NodeAt(n, p).callable && q == at + p
    {
      if q in below {
        var p: Path :| p != [] && Within(n, p) && p[0] < |n.children| && NodeAt(n, p).callable && q == at + p;
      } else {
        var here: Path := [];
        assert Within(n, here) && NodeAt(n, here) == n && at == at + here;
      }
    }
  }

  lemma OneFunction(below: map<Path, FunctionSize>, after: map<Path, FunctionSize>, n: Node, at: Path, p: Path)
    requires forall j: nat :: j < |n.children| ==> Sized(below, n.children[j], at + [j])
    requires after == if n.callable then below[at := FunctionSize(Size(n), Free(n))] else below
    requires Within(n, p) && NodeAt(n, p).callable
    ensures at + p in after && after[at + p] == FunctionSize(Size(NodeAt(n, p)), Free(NodeAt(n, p)))
  {
    if p == [] {
      assert at + p == at;
    } else {
      var q := at + p;
      ChildFunction(below, n.children[p[0]], at, p);
      assert |q| == |at| + |p|;
    }
  }

  lemma ChildFunction(m: map<Path, FunctionSize>, child: Node, at: Path, p: Path)
    requires p != [] && Within(child, p[1..]) && NodeAt(child, p[1..]).callable
    requires Sized(m, child, at + [p[0]])
    ensures at + p in m && m[at + p] == FunctionSize(Size(NodeAt(child, p[1..])), Free(NodeAt(child, p[1..])))
  {
    var rest: Path := p[1..];
    assert at + [p[0]] + rest in m;
    assert at + [p[0]] + rest == at + p;
  }

  /** The sizes of a whole tree. */
  method TreeSize(tree: Node) returns (total: nat, functions: map<Path, FunctionSize>)
    ensures total == |TreeOwners(tree)|
    ensures forall p: Path :: p in functions <==> Within(tree, p) && NodeAt(tree, p).callable
    ensures forall p: Path :: p in functions ==>
      && functions[p].nodes == |TreeOwners(NodeAt(tree, p))|
      && functions[p].own == Count(TreeOwners(tree), Function(p))
  {
    var sizer := new TreeSizer();
    var nested;
    total, nested := sizer.Visit(tree, []);
    functions := sizer.functions;
    OneOwnerEach(tree, [], Nobody);
    forall p: Path | p in functions || (Within(tree, p) && NodeAt(tree, p).callable)
      ensures p in functions && Within(tree, p) && NodeAt(tree, p).callable
      ensures functions[p].nodes == |TreeOwners(NodeAt(tree, p))|
      ensures functions[p].own == Count(TreeOwners(tree), Function(p))
    {
      assert [] + p == p;
      if p in functions {
        var q: Path :| Within(tree, q) && NodeAt(tree, q).callable && p == [] + q;
        assert q == p;
      }
      OneOwnerEach(NodeAt(tree, p), [], Nobody);
      OwnIsFree(tree, [], Nobody, p);
    }
  }

  // ------------------------------------------------- own, as the owners count it

  lemma {:induction false} OneOwnerEach(n: Node, at: Path, outer: Owner)
    ensures |Owners(n, at, outer)| == Size(n)
    decreases n, |n.children| + 1
  {
    OneOwnerEachFrom(n, 0, at, if n.callable then Function(at) else outer);
  }

  lemma {:induction false} OneOwnerEachFrom(n: Node, i: nat, at: Path, mine: Owner)
    requires i <= |n.children|
    ensures |OwnersFrom(n, i, at, mine)| == SizeFrom(n, i)
    decreases n, |n.children| - i
  {
    if i < |n.children| {
      OneOwnerEach(n.children[i], at + [i], mine);
      OneOwnerEachFrom(n, i + 1, at, mine);
    }
  }

  /** `o` is not a function at or below `at`. */
  predicate Above(o: Owner, at: Path) { o.Function? ==> !(at <= o.at) }

  /** The function above `n` owns its free nodes, and none of them when `n` is a function. */
  lemma {:induction false} OuterOwnsFree(n: Node, at: Path, outer: Owner, o: Owner)
    requires Above(o, at)
    ensures Count(Owners(n, at, outer), o) == if n.callable || o != outer then 0 else Free(n)
    decreases n, |n.children| + 1
  {
    var mine := if n.callable then Function(at) else outer;
    assert o == mine ==> o == outer && !n.callable;
    OuterOwnsFreeFrom(n, 0, at, mine, o);
    CountJoins([mine], OwnersFrom(n, 0, at, mine), o);
  }

  lemma {:induction false} OuterOwnsFreeFrom(n: Node, i: nat, at: Path, mine: Owner, o: Owner)
    requires i <= |n.children|
    requires forall j: nat :: i <= j < |n.children| ==> Above(o, at + [j])
    ensures Count(OwnersFrom(n, i, at, mine), o) == if o == mine then FreeFrom(n, i) else 0
    decreases n, |n.children| - i
  {
    if i < |n.children| {
      OuterOwnsFree(n.children[i], at + [i], mine, o);
      OuterOwnsFreeFrom(n, i + 1, at, mine, o);
      CountJoins(Owners(n.children[i], at + [i], mine), OwnersFrom(n, i + 1, at, mine), o);
    }
  }

  /** A function owns exactly the nodes that lie in it and in no function inside it. */
  lemma {:induction false} OwnIsFree(n: Node, at: Path, outer: Owner, p: Path)
    requires Within(n, p) && NodeAt(n, p).callable && Above(outer, at)
    ensures Count(Owners(n, at, outer), Function(at + p)) == Free(NodeAt(n, p))
    decreases |p|, 1, 0
  {
    var mine := if n.callable then Function(at) else outer;
    var o := Function(at + p);
    CountJoins([mine], OwnersFrom(n, 0, at, mine), o);
    if p == [] {
      assert at + p == at;
      OuterOwnsFreeFrom(n, 0, at, mine, o);
    } else {
      assert mine != o;
      OwnIsFreeFrom(n, 0, at, mine, p);
    }
  }

  lemma {:induction false} OwnIsFreeFrom(n: Node, i: nat, at: Path, mine: Owner, p: Path)
    requires i <= |n.children| && p != [] && Within(n, p) && NodeAt(n, p).callable
    requires forall j: nat :: Above(mine, at + [j])
    ensures Count(OwnersFrom(n, i, at, mine), Function(at + p)) == if i <= p[0] then Free(NodeAt(n, p)) else 0
    decreases |p|, 0, |n.children| - i
  {
    var o := Function(at + p);
    if i < |n.children| {
      CountJoins(Owners(n.children[i], at + [i], mine), OwnersFrom(n, i + 1, at, mine), o);
      OwnIsFreeFrom(n, i + 1, at, mine, p);
      if i == p[0] {
        OwnIsFree(n.children[i], at + [i], mine, p[1..]);
        assert at + [i] + p[1..] == at + p;
      } else {
        assert (at + p)[|at|] == p[0];
        assert Above(o, at + [i]);
        assert Above(mine, at + [p[0]]);
        OuterOwnsFree(n.children[i], at + [i], mine, o);
      }
    }
  }

  // -------------------------------------------------------------- conservation

  /** `fs` lists the tree's functions, each once. */
  ghost predicate Lists(tree: Node, fs: seq<Path>) {
    && (forall i, j :: 0 <= i < j < |fs| ==> fs[i] != fs[j])
    && (forall p: Path :: p in fs <==> Within(tree, p) && NodeAt(tree, p).callable)
  }

  function SumOwn(m: map<Path, FunctionSize>, fs: seq<Path>): nat
    requires forall f :: f in fs ==> f in m
  {
    if fs == [] then 0 else m[fs[0]].own + SumOwn(m, fs[1..])
  }

  function SumCounts(owners: seq<Owner>, fs: seq<Path>): nat {
    if fs == [] then 0 else Count(owners, Function(fs[0])) + SumCounts(owners, fs[1..])
  }

  lemma {:induction false} OwnersAreFunctions(n: Node, at: Path, outer: Owner, o: Owner)
    requires o in Owners(n, at, outer) && o != outer
    ensures exists p: Path :: Within(n, p) && NodeAt(n, p).callable && o == Function(at + p)
    decreases n, |n.children| + 1
  {
    var mine := if n.callable then Function(at) else outer;
    if o == mine {
      var here: Path := [];
      assert Within(n, here) && NodeAt(n, here) == n && at == at + here;
    } else {
      OwnersAreFunctionsFrom(n, 0, at, mine, o);
    }
  }

  lemma {:induction false} OwnersAreFunctionsFrom(n: Node, i: nat, at: Path, mine: Owner, o: Owner)
    requires i <= |n.children| && o in OwnersFrom(n, i, at, mine) && o != mine
    ensures exists p: Path :: Within(n, p) && NodeAt(n, p).callable && o == Function(at + p)
    decreases n, |n.children| - i
  {
    if o in Owners(n.children[i], at + [i], mine) {
      OwnersAreFunctions(n.children[i], at + [i], mine, o);
      var p: Path :| Within(n.children[i], p) && NodeAt(n.children[i], p).callable && o == Function(at + [i] + p);
      var down: Path := [i] + p;
      assert down[1..] == p && at + down == at + [i] + p;
    } else {
      OwnersAreFunctionsFrom(n, i + 1, at, mine, o);
    }
  }

  lemma {:induction false} HeadCounts(o: Owner, owners: seq<Owner>, fs: seq<Path>)
    requires forall i, j :: 0 <= i < j < |fs| ==> fs[i] != fs[j]
    ensures SumCounts([o] + owners, fs) == SumCounts(owners, fs) + if o.Function? && o.at in fs then 1 else 0
  {
    assert ([o] + owners)[1..] == owners;
    if fs != [] {
      HeadCounts(o, owners, fs[1..]);
      assert forall f :: f in fs <==> f == fs[0] || f in fs[1..];
      assert fs[0] !in fs[1..];
    }
  }

  lemma {:induction false} CountsPartition(owners: seq<Owner>, fs: seq<Path>)
    requires forall i, j :: 0 <= i < j < |fs| ==> fs[i] != fs[j]
    requires forall o :: o in owners && o.Function? ==> o.at in fs
    ensures SumCounts(owners, fs) + Count(owners, Nobody) == |owners|
  {
    if owners == [] {
      NoneCounts(fs);
    } else {
      CountsPartition(owners[1..], fs);
      HeadCounts(owners[0], owners[1..], fs);
      assert owners == [owners[0]] + owners[1..];
    }
  }

  lemma {:induction false} NoneCounts(fs: seq<Path>)
    ensures SumCounts([], fs) == 0
  {
    if fs != [] { NoneCounts(fs[1..]); }
  }

  lemma {:induction false} SumsAgree(m: map<Path, FunctionSize>, owners: seq<Owner>, fs: seq<Path>)
    requires forall f :: f in fs ==> f in m && m[f].own == Count(owners, Function(f))
    ensures SumOwn(m, fs) == SumCounts(owners, fs)
  {
    if fs != [] { SumsAgree(m, owners, fs[1..]); }
  }

  /** The functions' own nodes and the nodes in no function add up to the whole tree. */
  lemma OwnNodesAddUp(tree: Node, m: map<Path, FunctionSize>, fs: seq<Path>)
    requires Lists(tree, fs)
    requires forall f :: f in fs ==> f in m && m[f].own == Count(TreeOwners(tree), Function(f))
    ensures SumOwn(m, fs) + Count(TreeOwners(tree), Nobody) == |TreeOwners(tree)| == Size(tree)
  {
    var owners := TreeOwners(tree);
    forall o | o in owners && o.Function? ensures o.at in fs {
      OwnersAreFunctions(tree, [], Nobody, o);
      var p: Path :| Within(tree, p) && NodeAt(tree, p).callable && o == Function([] + p);
      assert [] + p == p;
    }
    CountsPartition(owners, fs);
    SumsAgree(m, owners, fs);
    OneOwnerEach(tree, [], Nobody);
  }

  /** A function always owns itself, and its size is its own nodes and those its inner functions hold. */
  lemma OwnAtLeastOne(tree: Node, p: Path)
    requires Within(tree, p) && NodeAt(tree, p).callable
    ensures 1 <= Count(TreeOwners(tree), Function(p)) <= |TreeOwners(NodeAt(tree, p))|
  {
    assert [] + p == p;
    OwnIsFree(tree, [], Nobody, p);
    OneOwnerEach(NodeAt(tree, p), [], Nobody);
    FreeBelowSize(NodeAt(tree, p));
  }
}
