/**
 * Contracts and the literals that construct them (scripts/capability-parity.ts):
 * inherited members folded into each contract, and each object literal attributed to
 * the tightest contract it can construct.
 */
module ContractHeritage {
  import opened Sorting
  import opened Wrappers

  /** The three member sets a contract carries. */
  datatype Alphabet = Alphabet(members: set<string>, required: set<string>, optional: set<string>)

  datatype Contract = Contract(name: string, own: Alphabet, heritage: seq<string>)

  function Union(a: Alphabet, b: Alphabet): Alphabet {
    Alphabet(a.members + b.members, a.required + b.required, a.optional + b.optional)
  }

  type Named = map<string, Contract>

  /** Later declarations of a name win, as they do when a map is built from a list. */
  function ByName(declared: seq<Contract>): Named {
    if declared == [] then map[]
    else ByName(declared[..|declared| - 1])[declared[|declared| - 1].name := declared[|declared| - 1]]
  }

  // -------------------------------------------------- the closure, as a value

  /** `c` closed over its bases, and the names seen. `seen` is shared by every branch. */
  function Closure(byName: Named, c: Contract, seen: set<string>): (r: (Alphabet, set<string>))
    ensures seen <= r.1
    decreases byName.Keys - seen, |c.heritage| + 1
  {
    CloseBases(byName, c.heritage, c.own, seen)
  }

  function CloseBases(byName: Named, bases: seq<string>, folded: Alphabet, seen: set<string>): (r: (Alphabet, set<string>))
    ensures seen <= r.1
    decreases byName.Keys - seen, |bases|
  {
    if bases == [] then (folded, seen)
    else if bases[0] in seen then CloseBases(byName, bases[1..], folded, seen)
    else if bases[0] !in byName then CloseBases(byName, bases[1..], folded, seen + {bases[0]})
    else
      var (full, after) := Closure(byName, byName[bases[0]], seen + {bases[0]});
      CloseBases(byName, bases[1..], Union(folded, full), after)
  }

  class Closer {
    const byName: Named
    var seen: set<string>

    constructor (byName: Named, root: string)
      ensures this.byName == byName && seen == {root}
    {
      this.byName := byName;
      seen := {root};
    }

    method CloseOver(c: Contract) returns (folded: Alphabet)
      modifies this
      ensures (folded, seen) == Closure(byName, c, old(seen))
      decreases byName.Keys - seen, |c.heritage| + 1
    {
      folded := c.own;
      var i := 0;
      while i < |c.heritage|
        invariant 0 <= i <= |c.heritage| && old(seen) <= seen
        invariant CloseBases(byName, c.heritage[i..], folded, seen) == Closure(byName, c, old(seen))
      {
        var base := c.heritage[i];
        i := i + 1;
        if base !in seen {
          ghost var before := seen;
          seen := seen + {base};
          if base in byName {
            assert byName.Keys - seen < byName.Keys - before;
            var full := CloseOver(byName[base]);
            folded := Union(folded, full);
          }
        }
      }
    }
  }

  function Resolved(byName: Named, c: Contract): Alphabet {
    Closure(byName, c, {c.name}).0
  }

  /** A name is in the map exactly when it is declared, and it holds its last declaration. */
  lemma {:induction false} ByNameHoldsLast(declared: seq<Contract>, n: string)
    ensures n in ByName(declared) <==> exists i :: 0 <= i < |declared| && declared[i].name == n
    ensures n in ByName(declared) ==>
              exists i: nat :: i < |declared| && declared[i].name == n && ByName(declared)[n] == declared[i] && IsLast(declared, i)
  {
    if declared != [] {
      var init, last := declared[..|declared| - 1], declared[|declared| - 1];
      ByNameHoldsLast(init, n);
      if n == last.name {
        assert declared[|init|] == last && IsLast(declared, |init|);
      } else if n in ByName(init) {
        var i: nat :| i < |init| && init[i].name == n && ByName(init)[n] == init[i] && IsLast(init, i);
        assert declared[i] == init[i];
        LastStays(declared, i);
      } else {
        forall i | 0 <= i < |declared| ensures declared[i].name != n { assert i < |init| ==> declared[i] == init[i]; }
      }
    }
  }

  lemma LastStays(declared: seq<Contract>, i: nat)
    requires i < |declared| - 1 && IsLast(declared[..|declared| - 1], i)
    requires declared[|declared| - 1].name != declared[i].name
    ensures IsLast(declared, i)
  {
    var init := declared[..|declared| - 1];
    forall j | i < j < |declared| ensures declared[j].name != declared[i].name {
      if j < |init| { assert init[j] == declared[j] && init[i] == declared[i]; }
    }
  }

  /** No later declaration has the name. */
  ghost predicate IsLast(declared: seq<Contract>, i: nat)
    requires i < |declared|
  {
    forall j :: i < j < |declared| ==> declared[j].name != declared[i].name
  }

  /** Each contract gets the members, required and optional, of the last declarations reached by
      `extends`, through names other than its own. */
  method ResolveHeritage(declared: seq<Contract>) returns (resolved: seq<Contract>)
    ensures |resolved| == |declared|
    ensures forall i :: 0 <= i < |declared| ==> resolved[i].name == declared[i].name && resolved[i].heritage == declared[i].heritage
    ensures forall i, x :: 0 <= i < |declared| ==>
              (x in resolved[i].own.members <==>
                 x in declared[i].own.members || exists k: nat :: Extends(declared, i, k) && x in declared[k].own.members)
    ensures forall i, x :: 0 <= i < |declared| ==>
              (x in resolved[i].own.required <==>
                 x in declared[i].own.required || exists k: nat :: Extends(declared, i, k) && x in declared[k].own.required)
    ensures forall i, x :: 0 <= i < |declared| ==>
              (x in resolved[i].own.optional <==>
                 x in declared[i].own.optional || exists k: nat :: Extends(declared, i, k) && x in declared[k].own.optional)
    ensures forall i :: 0 <= i < |declared| ==>
              resolved[i] == declared[i].(own := Resolved(ByName(declared), declared[i]))
  {
    var byName := ByName(declared);
    resolved := [];
    for i := 0 to |declared|
      invariant |resolved| == i
      invariant forall k :: 0 <= k < i ==> resolved[k] == declared[k].(own := Resolved(byName, declared[k]))
    {
      var closer := new Closer(byName, declared[i].name);
      var folded := closer.CloseOver(declared[i]);
      resolved := resolved + [declared[i].(own := folded)];
    }
    forall i: nat, x | i < |declared| { ResolvedIsDeclared(declared, i, x); }
  }

  // ------------------------------------------- inheritance, stated on its own

  function Heritage(byName: Named, name: string): seq<string> {
    if name in byName then byName[name].heritage else []
  }

  /** A chain of `extends` from one of `bases`, never through a name in `avoid`. */
  ghost predicate Chain(byName: Named, bases: seq<string>, avoid: set<string>, p: seq<string>) {
    && |p| > 0
    && p[0] in bases
    && (forall i :: 0 <= i < |p| ==> p[i] !in avoid)
    && (forall i :: 0 <= i < |p| - 1 ==> p[i + 1] in Heritage(byName, p[i]))
  }

  ghost predicate Inherits(byName: Named, bases: seq<string>, avoid: set<string>, name: string) {
    exists p :: Chain(byName, bases, avoid, p) && p[|p| - 1] == name
  }

  /** `x` belongs to one of the three sets, selected by `which`, of a named contract in `names`. */
  datatype Which = Members | Required | Optional

  function Select(a: Alphabet, which: Which): set<string> {
    match which
    case Members => a.members
    case Required => a.required
    case Optional => a.optional
  }

  ghost predicate HeldBy(byName: Named, names: set<string>, which: Which, x: string) {
    exists n :: n in names && n in byName && x in Select(byName[n].own, which)
  }

  // ------------------------------------------------------------- what it folds

  /** The names a closure newly sees: closed under `extends`, and exactly what it folded. */
  ghost predicate Folds(byName: Named, bases: seq<string>, start: Alphabet, seen: set<string>,
                        r: (Alphabet, set<string>)) {
    && seen <= r.1
    && (forall b :: b in bases ==> b in r.1)
    && (forall n, b :: n in r.1 - seen && b in Heritage(byName, n) ==> b in r.1)
    && (forall which: Which, x :: x in Select(r.0, which)
          <==> x in Select(start, which) || HeldBy(byName, r.1 - seen, which, x))
  }

  lemma {:induction false} CloseOverFolds(byName: Named, c: Contract, seen: set<string>)
    ensures Folds(byName, c.heritage, c.own, seen, Closure(byName, c, seen))
    ensures forall n :: n in Closure(byName, c, seen).1 - seen ==> Inherits(byName, c.heritage, seen, n)
    decreases byName.Keys - seen, |c.heritage| + 1
  {
    CloseBasesFolds(byName, c.heritage, c.own, seen);
  }

  lemma {:induction false} CloseBasesFolds(byName: Named, bases: seq<string>, folded: Alphabet, seen: set<string>)
    ensures Folds(byName, bases, folded, seen, CloseBases(byName, bases, folded, seen))
    ensures forall n :: n in CloseBases(byName, bases, folded, seen).1 - seen ==> Inherits(byName, bases, seen, n)
    decreases byName.Keys - seen, |bases|
  {
    if bases != [] {
      var base, rest := bases[0], bases[1..];
      var r := CloseBases(byName, bases, folded, seen);
      assert bases == [base] + rest;
      if base in seen {
        CloseBasesFolds(byName, rest, folded, seen);
      } else {
        var marked := seen + {base};
        assert Chain(byName, bases, seen, [base]);
        if base !in byName {
          CloseBasesFolds(byName, rest, folded, marked);
          assert r.1 - seen == (r.1 - marked) + {base};
        } else {
          var c := byName[base];
          CloseOverFolds(byName, c, marked);
          var (full, after) := Closure(byName, c, marked);
          CloseBasesFolds(byName, rest, Union(folded, full), after);
          assert r == CloseBases(byName, rest, Union(folded, full), after);
          ChainsThrough(byName, bases, seen, base, after - marked);
          assert r.1 - seen == (r.1 - after) + ((after - marked) + {base});
          JoinFolds(byName, folded, full, seen, base, marked, after, r);
        }
      }
    }
  }

  lemma JoinFolds(byName: Named, folded: Alphabet, full: Alphabet, seen: set<string>, base: string,
                  marked: set<string>, after: set<string>, r: (Alphabet, set<string>))
    requires base in byName && base !in seen
    requires forall which: Which, x :: x in Select(full, which)
               <==> x in Select(byName[base].own, which) || HeldBy(byName, after - marked, which, x)
    requires forall which: Which, x :: x in Select(r.0, which)
               <==> x in Select(Union(folded, full), which) || HeldBy(byName, r.1 - after, which, x)
    requires forall which: Which, x :: HeldBy(byName, r.1 - seen, which, x)
               <==> HeldBy(byName, r.1 - after, which, x) || HeldBy(byName, (after - marked) + {base}, which, x)
    requires forall which: Which, x :: HeldBy(byName, (after - marked) + {base}, which, x)
               <==> HeldBy(byName, after - marked, which, x) || HeldBy(byName, {base}, which, x)
    ensures forall which: Which, x :: x in Select(r.0, which)
              <==> x in Select(folded, which) || HeldBy(byName, r.1 - seen, which, x)
  {
    forall which: Which, x
      ensures HeldBy(byName, {base}, which, x) <==> x in Select(byName[base].own, which)
      ensures x in Select(Union(folded, full), which) <==> x in Select(folded, which) || x in Select(full, which)
    {
      if x in Select(byName[base].own, which) { assert base in {base}; }
    }
  }

  lemma ChainsThrough(byName: Named, bases: seq<string>, seen: set<string>, base: string, names: set<string>)
    requires base in byName && base in bases && base !in seen
    requires forall n :: n in names ==> Inherits(byName, byName[base].heritage, seen + {base}, n)
    ensures forall n :: n in names ==> Inherits(byName, bases, seen, n)
  {
    forall n | n in names ensures Inherits(byName, bases, seen, n) {
      var p :| Chain(byName, byName[base].heritage, seen + {base}, p) && p[|p| - 1] == n;
      var q := [base] + p;
      assert forall i :: 0 <= i < |q| - 1 ==> q[i + 1] in Heritage(byName, q[i]);
      assert Chain(byName, bases, seen, q);
    }
  }

  // ------------------------------------------------------------- main results

  lemma {:induction false} ChainIsSeen(byName: Named, c: Contract, last: set<string>, p: seq<string>)
    requires Chain(byName, c.heritage, {c.name}, p)
    requires c.name in last && forall b :: b in c.heritage ==> b in last
    requires forall n, b :: n in last - {c.name} && b in Heritage(byName, n) ==> b in last
    ensures p[|p| - 1] in last
    decreases |p|
  {
    if |p| > 1 {
      var q := p[..|p| - 1];
      assert Chain(byName, c.heritage, {c.name}, q);
      ChainIsSeen(byName, c, last, q);
      assert p[|p| - 1] in Heritage(byName, q[|q| - 1]);
    }
  }

  /** A contract folds exactly the members, required and optional, of the contracts reachable
      by name, cycles included, although the branches share one seen set. */
  lemma ResolvedIsInheritedUnion(byName: Named, c: Contract, which: Which, x: string)
    ensures x in Select(Resolved(byName, c), which)
       <==> x in Select(c.own, which)
            || exists n :: Inherits(byName, c.heritage, {c.name}, n) && n in byName && x in Select(byName[n].own, which)
  {
    var r := Closure(byName, c, {c.name});
    CloseOverFolds(byName, c, {c.name});
    if n :| Inherits(byName, c.heritage, {c.name}, n) && n in byName && x in Select(byName[n].own, which) {
      var p :| Chain(byName, c.heritage, {c.name}, p) && p[|p| - 1] == n;
      ChainIsSeen(byName, c, r.1, p);
      assert n in r.1 - {c.name};
      assert HeldBy(byName, r.1 - {c.name}, which, x);
    }
  }

  /** Declaration `k` is reached from declaration `i`: each next one is the last of a name that the
      one before extends, and that is not the name started from. */
  ghost predicate Extends(declared: seq<Contract>, i: nat, k: nat)
    requires i < |declared|
    ensures Extends(declared, i, k) ==> k < |declared|
  {
    exists p: seq<nat> :: |p| >= 2 && p[0] == i && p[|p| - 1] == k && Path(declared, p)
  }

  ghost predicate Path(declared: seq<Contract>, p: seq<nat>) {
    && (forall t :: 0 <= t < |p| ==> p[t] < |declared|)
    && forall t :: 0 < t < |p| ==>
         && IsLast(declared, p[t]) && declared[p[t]].name in declared[p[t - 1]].heritage
         && declared[p[t]].name != declared[p[0]].name
  }

  /** A chain of names as a path of declarations, and back. */
  lemma {:induction false} ChainIsPath(declared: seq<Contract>, i: nat, c: seq<string>) returns (p: seq<nat>)
    requires i < |declared| && Chain(ByName(declared), declared[i].heritage, {declared[i].name}, c)
    requires c[|c| - 1] in ByName(declared)
    ensures |p| == |c| + 1 && p[0] == i && Path(declared, p)
    ensures declared[p[|c|]] == ByName(declared)[c[|c| - 1]]
    decreases |c|
  {
    var n := c[|c| - 1];
    ByNameHoldsLast(declared, n);
    var k: nat :| k < |declared| && declared[k].name == n && ByName(declared)[n] == declared[k] && IsLast(declared, k);
    if |c| == 1 {
      p := [i, k];
    } else {
      var init := c[..|c| - 1];
      ShorterChain(ByName(declared), declared[i].heritage, {declared[i].name}, c);
      var q := ChainIsPath(declared, i, init);
      p := q + [k];
      PathOn(declared, q, k);
    }
  }

  lemma ShorterChain(byName: Named, bases: seq<string>, avoid: set<string>, c: seq<string>)
    requires |c| > 1 && Chain(byName, bases, avoid, c)
    ensures var init := c[..|c| - 1];
      Chain(byName, bases, avoid, init) && init[|init| - 1] in byName && c[|c| - 1] in byName[init[|init| - 1]].heritage
  {
    var init := c[..|c| - 1];
    assert c[|init| - 1 + 1] in Heritage(byName, c[|init| - 1]);
  }

  lemma PathOn(declared: seq<Contract>, q: seq<nat>, k: nat)
    requires q != [] && Path(declared, q) && k < |declared| && IsLast(declared, k)
    requires declared[k].name in declared[q[|q| - 1]].heritage && declared[k].name != declared[q[0]].name
    ensures Path(declared, q + [k])
  {
  }

  lemma PathIsChain(declared: seq<Contract>, p: seq<nat>)
    requires |p| >= 2 && Path(declared, p)
    ensures var k := p[|p| - 1];
      && declared[k].name in ByName(declared) && ByName(declared)[declared[k].name] == declared[k]
      && Inherits(ByName(declared), declared[p[0]].heritage, {declared[p[0]].name}, declared[k].name)
  {
    var byName := ByName(declared);
    var c := seq(|p| - 1, t requires 0 <= t < |p| - 1 => declared[p[t + 1]].name);
    forall t | 0 < t < |p| ensures declared[p[t]].name in byName && byName[declared[p[t]].name] == declared[p[t]] {
      LastIsHeld(declared, p[t]);
    }
    forall t | 0 <= t < |c| - 1 ensures c[t + 1] in Heritage(byName, c[t]) {
      assert declared[p[t + 2]].name in declared[p[t + 1]].heritage;
    }
    assert Chain(byName, declared[p[0]].heritage, {declared[p[0]].name}, c);
  }

  lemma LastIsHeld(declared: seq<Contract>, k: nat)
    requires k < |declared| && IsLast(declared, k)
    ensures declared[k].name in ByName(declared) && ByName(declared)[declared[k].name] == declared[k]
  {
    var n := declared[k].name;
    ByNameHoldsLast(declared, n);
    var i: nat :| i < |declared| && declared[i].name == n && ByName(declared)[n] == declared[i] && IsLast(declared, i);
    assert i == k;
  }

  lemma InheritedIsReached(declared: seq<Contract>, i: nat, n: string)
    requires i < |declared| && n in ByName(declared)
    requires Inherits(ByName(declared), declared[i].heritage, {declared[i].name}, n)
    ensures exists k: nat :: Extends(declared, i, k) && declared[k] == ByName(declared)[n]
  {
    var chain :| Chain(ByName(declared), declared[i].heritage, {declared[i].name}, chain) && chain[|chain| - 1] == n;
    var p := ChainIsPath(declared, i, chain);
    assert Extends(declared, i, p[|chain|]);
  }

  lemma ReachedIsInherited(declared: seq<Contract>, i: nat, k: nat)
    requires i < |declared| && Extends(declared, i, k)
    ensures declared[k].name in ByName(declared) && ByName(declared)[declared[k].name] == declared[k]
    ensures Inherits(ByName(declared), declared[i].heritage, {declared[i].name}, declared[k].name)
  {
    var p: seq<nat> :| |p| >= 2 && p[0] == i && p[|p| - 1] == k && Path(declared, p);
    PathIsChain(declared, p);
  }

  lemma ResolvedHolds(declared: seq<Contract>, i: nat, which: Which, x: string)
    requires i < |declared|
    ensures x in Select(Resolved(ByName(declared), declared[i]), which)
       <==> x in Select(declared[i].own, which) || exists k: nat :: Extends(declared, i, k) && x in Select(declared[k].own, which)
  {
    var byName, c := ByName(declared), declared[i];
    ResolvedIsInheritedUnion(byName, c, which, x);
    if n :| Inherits(byName, c.heritage, {c.name}, n) && n in byName && x in Select(byName[n].own, which) {
      InheritedIsReached(declared, i, n);
    }
    if k: nat :| Extends(declared, i, k) && x in Select(declared[k].own, which) {
      ReachedIsInherited(declared, i, k);
    }
  }

  lemma ResolvedIsDeclared(declared: seq<Contract>, i: nat, x: string)
    requires i < |declared|
    ensures var own := Resolved(ByName(declared), declared[i]);
      && (x in own.members <==> x in declared[i].own.members || exists k: nat :: Extends(declared, i, k) && x in declared[k].own.members)
      && (x in own.required <==> x in declared[i].own.required || exists k: nat :: Extends(declared, i, k) && x in declared[k].own.required)
      && (x in own.optional <==> x in declared[i].own.optional || exists k: nat :: Extends(declared, i, k) && x in declared[k].own.optional)
  {
    ResolvedHolds(declared, i, Members, x);
    ResolvedHolds(declared, i, Required, x);
    ResolvedHolds(declared, i, Optional, x);
  }

  ghost predicate SameBases(a: Contract, b: Contract) {
    a.name == b.name && a.own == b.own && forall n :: n in a.heritage <==> n in b.heritage
  }

  /** The order in which bases are written changes nothing. */
  lemma BaseOrderIsIrrelevant(p: Named, q: Named, a: Contract, b: Contract)
    requires p.Keys == q.Keys && forall n :: n in p ==> SameBases(p[n], q[n])
    requires SameBases(a, b)
    ensures Resolved(p, a) == Resolved(q, b)
  {
    forall which: Which, x
      ensures x in Select(Resolved(p, a), which) <==> x in Select(Resolved(q, b), which)
    {
      ResolvedIsInheritedUnion(p, a, which, x);
      ResolvedIsInheritedUnion(q, b, which, x);
    }
    var s, t := Resolved(p, a), Resolved(q, b);
    assert Select(s, Members) == Select(t, Members);
    assert Select(s, Required) == Select(t, Required);
    assert Select(s, Optional) == Select(t, Optional);
  }

  // -------------------------------------------------------------- attribution

  /** The keys an object literal writes, and whether it also spreads something. */
  datatype Site = Site(supplied: set<string>, opaque_: bool)

  const MIN_OVERLAP := 2

  predicate Before(a: string, b: string) { a != b && StringLeq(a, b) }

  lemma BeforeIsTotal(a: string, b: string)
    ensures Before(a, b) || Before(b, a) || a == b
    ensures !(Before(a, b) && Before(b, a))
  {
    StringsAreTotal(a, b);
  }

  lemma BeforeIsTransitive(a: string, b: string, c: string)
    requires Before(a, b) && Before(b, c)
    ensures Before(a, c)
  {
    StringsAreTransitive(a, b, c);
    StringsAreTotal(a, b);
  }

  /** TypeScript's rule for a fresh literal: no key the contract lacks, and no required member
      missing unless a spread may bring it. */
  predicate Constructs(site: Site, c: Contract) {
    && site.supplied <= c.own.members
    && (!site.opaque_ ==> c.own.required <= site.supplied)
  }

  /** `b` is at least as tight as `c`: fewer members, or as many and not a later name. */
  predicate AsTight(b: Contract, c: Contract) {
    |b.own.members| < |c.own.members| || (|b.own.members| == |c.own.members| && !Before(c.name, b.name))
  }

  function Fit(site: Site, c: Contract): real
    requires |c.own.members| > 0
  {
    |site.supplied| as real / |c.own.members| as real
  }

  lemma FitOrdersBySize(site: Site, b: Contract, c: Contract)
    requires |site.supplied| > 0 && |b.own.members| > 0 && |c.own.members| > 0
    ensures Fit(site, b) > Fit(site, c) <==> |b.own.members| < |c.own.members|
    ensures Fit(site, b) == Fit(site, c) <==> |b.own.members| == |c.own.members|
    ensures Fit(site, b) > 0.0
  {
    QuotientOrder(|site.supplied| as real, |b.own.members| as real, |c.own.members| as real);
  }

  lemma QuotientOrder(s: real, m: real, n: real)
    requires s > 0.0 && m > 0.0 && n > 0.0
    ensures s / m > s / n <==> m < n
    ensures s / m == s / n <==> m == n
    ensures s / m > 0.0
  {
    var x, y := s / m, s / n;
    assert x * m == s && y * n == s;
    assert x > 0.0 && y > 0.0;
    if m < n { assert y * m < y * n; assert x * m > y * m; }
    if n < m { assert x * n < x * m; assert y * n > x * n; }
  }

  method Attribute(site: Site, contracts: seq<Contract>) returns (best: Option<Contract>)
    ensures best.None? <==> |site.supplied| < MIN_OVERLAP || forall c :: c in contracts ==> !Constructs(site, c)
    ensures best.Some? ==>
              && best.value in contracts && Constructs(site, best.value)
              && forall c :: c in contracts && Constructs(site, c) ==> AsTight(best.value, c)
    ensures best.None? <==> |site.supplied| < 2 || forall c :: c in contracts ==>
              !(site.supplied <= c.own.members && (site.opaque_ || c.own.required <= site.supplied))
    ensures best.Some? ==>
              && best.value in contracts
              && site.supplied <= best.value.own.members && (site.opaque_ || best.value.own.required <= site.supplied)
              && forall c :: c in contracts && site.supplied <= c.own.members && (site.opaque_ || c.own.required <= site.supplied) ==>
                   |best.value.own.members| < |c.own.members|
                   || (|best.value.own.members| == |c.own.members| && StringLeq(best.value.name, c.name))
  {
    best := None;
    if |site.supplied| < MIN_OVERLAP {
      return;
    }
    var bestFit := 0.0;
    for i := 0 to |contracts|
      invariant best.None? <==> forall c :: c in contracts[..i] ==> !Constructs(site, c)
      invariant best.None? ==> bestFit == 0.0
      invariant best.Some? ==>
                  && best.value in contracts[..i] && Constructs(site, best.value)
                  && |best.value.own.members| > 0 && bestFit == Fit(site, best.value)
                  && forall c :: c in contracts[..i] && Constructs(site, c) ==> AsTight(best.value, c)
    {
      var c := contracts[i];
      assert contracts[..i + 1] == contracts[..i] + [c];
      if Constructs(site, c) {
        var fit := Fit(site, c);
        FitOrdersBySize(site, c, c);
        BeforeIsTotal(c.name, c.name);
        if best.Some? {
          FitOrdersBySize(site, c, best.value);
          FitOrdersBySize(site, best.value, c);
          BeforeIsTotal(c.name, best.value.name);
        }
        if fit > bestFit || (fit == bestFit && best.Some? && Before(c.name, best.value.name)) {
          forall d | d in contracts[..i] && Constructs(site, d) ensures AsTight(c, d) {
            TighterStillTight(c, best.value, d);
          }
          best, bestFit := Some(c), fit;
        }
      }
    }
    assert contracts[..|contracts|] == contracts;
    if best.Some? {
      forall c | c in contracts { StringsAreTotal(best.value.name, c.name); }
    }
  }

  lemma TighterStillTight(c: Contract, b: Contract, d: Contract)
    requires AsTight(b, d)
    requires |c.own.members| < |b.own.members|
             || (|c.own.members| == |b.own.members| && Before(c.name, b.name))
    ensures AsTight(c, d)
  {
    if Before(d.name, c.name) && Before(c.name, b.name) {
      BeforeIsTransitive(d.name, c.name, b.name);
    }
  }

  /** The tightest fit does not depend on the order contracts are listed in. */
  lemma TightestIsUnique(site: Site, contracts: seq<Contract>, b: Contract, c: Contract)
    requires forall x, y :: x in contracts && y in contracts && x.name == y.name ==> x == y
    requires b in contracts && Constructs(site, b) && c in contracts && Constructs(site, c)
    requires forall x :: x in contracts && Constructs(site, x) ==> AsTight(b, x)
    requires forall x :: x in contracts && Constructs(site, x) ==> AsTight(c, x)
    ensures b == c
  {
    assert AsTight(b, c) && AsTight(c, b);
    BeforeIsTotal(b.name, c.name);
  }
}
