/**
 * The duplicate gate's groups (`findDuplicateGroups` in scripts/ast-duplication.ts): bodies of one
 * likeness grouped together, and of the groups only the outermost kept.
 */
module DuplicateGroups {
  import A = AstDuplication
  import opened Lists
  import opened Sorting

  /** One function body and its place in a file. */
  datatype Unit = Unit(file: string, name: string, size: nat, likeness: string, start: nat, end: nat)

  datatype Group = Group(likeness: string, nodes: nat, units: seq<Unit>)

  // ------------------------------------------------------------------ grouping

  /** The bodies of one likeness that are large enough, in the order they are met. */
  function Alike(us: seq<Unit>, min: nat, likeness: string): seq<Unit> {
    if us == [] then []
    else
      var last := us[|us| - 1];
      Alike(us[..|us| - 1], min, likeness) + if last.size >= min && last.likeness == likeness then [last] else []
  }

  /** The likenesses of the bodies large enough, in the order they are first met. */
  function Likenesses(us: seq<Unit>, min: nat): seq<string> {
    if us == [] then []
    else
      var before, last := Likenesses(us[..|us| - 1], min), us[|us| - 1];
      if last.size < min || last.likeness in before then before else before + [last.likeness]
  }

  function GroupsOf(us: seq<Unit>, min: nat, likenesses: seq<string>): seq<Group> {
    if likenesses == [] then []
    else
      var units := Alike(us, min, likenesses[0]);
      (if |units| < 2 then [] else [Group(likenesses[0], units[0].size, units)]) + GroupsOf(us, min, likenesses[1..])
  }

  function Candidates(us: seq<Unit>, min: nat): seq<Group> { GroupsOf(us, min, Likenesses(us, min)) }

  /** The grouping loop: a map whose keys keep the order they came in. */
  method ByLikeness(us: seq<Unit>, min: nat) returns (order: seq<string>, buckets: map<string, seq<Unit>>)
    ensures order == Likenesses(us, min)
    ensures forall l :: l in buckets <==> l in order
    ensures forall l :: l in buckets ==> buckets[l] == Alike(us, min, l)
    ensures NoRepeats(order) && forall l :: l in buckets <==> exists i :: 0 <= i < |us| && us[i].size >= min && us[i].likeness == l
    ensures forall l, u :: l in buckets ==>
              multiset(buckets[l])[u] == if u.size >= min && u.likeness == l then multiset(us)[u] else 0
  {
    order, buckets := [], map[];
    for i := 0 to |us|
      invariant order == Likenesses(us[..i], min)
      invariant forall l :: l in buckets <==> l in order
      invariant forall l :: l in buckets ==> buckets[l] == Alike(us[..i], min, l)
    {
      assert us[..i + 1][..i] == us[..i];
      var unit := us[i];
      if unit.size < min { continue; }
      if unit.likeness in buckets {
        buckets := buckets[unit.likeness := buckets[unit.likeness] + [unit]];
      } else {
        NoneAlike(us[..i], min, unit.likeness);
        order := order + [unit.likeness];
        buckets := buckets[unit.likeness := [unit]];
      }
    }
    assert us[..|us|] == us;
    BucketsAre(us, min, order, buckets);
  }

  lemma BucketsAre(us: seq<Unit>, min: nat, order: seq<string>, buckets: map<string, seq<Unit>>)
    requires order == Likenesses(us, min) && forall l :: l in buckets <==> l in order
    requires forall l :: l in buckets ==> buckets[l] == Alike(us, min, l)
    ensures NoRepeats(order) && forall l :: l in buckets <==> exists i :: 0 <= i < |us| && us[i].size >= min && us[i].likeness == l
    ensures forall l, u :: l in buckets ==>
              multiset(buckets[l])[u] == if u.size >= min && u.likeness == l then multiset(us)[u] else 0
  {
    LikenessesOnce(us, min);
    forall l ensures l in buckets <==> exists i :: 0 <= i < |us| && us[i].size >= min && us[i].likeness == l {
      LikenessAt(us, min, l);
    }
    forall l, u | l in buckets
      ensures multiset(buckets[l])[u] == if u.size >= min && u.likeness == l then multiset(us)[u] else 0
    {
      AlikeCounts(us, min, l, u);
    }
  }

  lemma {:induction false} LikenessAt(us: seq<Unit>, min: nat, likeness: string)
    ensures likeness in Likenesses(us, min) <==> exists i :: 0 <= i < |us| && us[i].size >= min && us[i].likeness == likeness
  {
    if us != [] {
      var init, last := us[..|us| - 1], us[|us| - 1];
      LikenessAt(init, min, likeness);
      if likeness in Likenesses(init, min) {
        var i :| 0 <= i < |init| && init[i].size >= min && init[i].likeness == likeness;
        assert us[i] == init[i];
      } else if i :| 0 <= i < |us| && us[i].size >= min && us[i].likeness == likeness {
        assert i < |init| ==> us[i] == init[i];
      }
    }
  }

  /** A body stands among those of a likeness as often as it stands among all. */
  lemma {:induction false} AlikeCounts(us: seq<Unit>, min: nat, likeness: string, u: Unit)
    ensures multiset(Alike(us, min, likeness))[u] == if u.size >= min && u.likeness == likeness then multiset(us)[u] else 0
  {
    if us != [] {
      var init, last := us[..|us| - 1], us[|us| - 1];
      AlikeCounts(init, min, likeness, u);
      assert us == init + [last];
    }
  }

  /** Two positions carry a likeness exactly when the bodies of it are two or more. */
  lemma {:induction false} AlikeTwice(us: seq<Unit>, min: nat, likeness: string)
    ensures |Alike(us, min, likeness)| >= 2 <==>
              exists i, j :: 0 <= i < j < |us| && us[i].size >= min && us[j].size >= min
                             && us[i].likeness == us[j].likeness == likeness
  {
    if us != [] {
      var init, last := us[..|us| - 1], us[|us| - 1];
      AlikeTwice(init, min, likeness);
      NoneAlike(init, min, likeness);
      LikenessAt(init, min, likeness);
      if |Alike(us, min, likeness)| >= 2 {
        if |Alike(init, min, likeness)| >= 2 {
          var i, j :| 0 <= i < j < |init| && init[i].size >= min && init[j].size >= min
                      && init[i].likeness == init[j].likeness == likeness;
          assert us[i] == init[i] && us[j] == init[j];
        } else {
          var i :| 0 <= i < |init| && init[i].size >= min && init[i].likeness == likeness;
          assert us[i] == init[i] && us[|init|] == last;
        }
      }
      if i, j :| 0 <= i < j < |us| && us[i].size >= min && us[j].size >= min && us[i].likeness == us[j].likeness == likeness {
        assert us[i] == init[i];
        if j < |init| { assert us[j] == init[j]; }
      }
    }
  }

  lemma {:induction false} NoneAlike(us: seq<Unit>, min: nat, likeness: string)
    ensures likeness in Likenesses(us, min) <==> Alike(us, min, likeness) != []
  {
    if us != [] { NoneAlike(us[..|us| - 1], min, likeness); }
  }

  lemma {:induction false} AlikeHolds(us: seq<Unit>, min: nat, likeness: string)
    ensures forall u :: u in Alike(us, min, likeness) <==> u in us && u.size >= min && u.likeness == likeness
  {
    if us != [] {
      AlikeHolds(us[..|us| - 1], min, likeness);
      assert us == us[..|us| - 1] + [us[|us| - 1]];
    }
  }

  lemma {:induction false} LikenessesOnce(us: seq<Unit>, min: nat)
    ensures NoRepeats(Likenesses(us, min))
  {
    if us != [] {
      LikenessesOnce(us[..|us| - 1], min);
      NoRepeatsSnoc(Likenesses(us[..|us| - 1], min), us[|us| - 1].likeness);
    }
  }

  lemma {:induction false} GroupsAre(us: seq<Unit>, min: nat, ls: seq<string>)
    requires NoRepeats(ls)
    ensures forall g :: g in GroupsOf(us, min, ls) <==>
              g.likeness in ls && |g.units| >= 2 && g.units == Alike(us, min, g.likeness) && g.nodes == g.units[0].size
    ensures NoRepeats(GroupsOf(us, min, ls))
  {
    if ls != [] {
      assert ls == [ls[0]] + ls[1..];
      GroupsAre(us, min, ls[1..]);
    }
  }

  /** Each likeness shared by two large enough bodies is one group, of exactly those bodies, and
      there is no other group. */
  lemma GroupsAreClasses(us: seq<Unit>, min: nat)
    ensures NoRepeats(Candidates(us, min))
    ensures forall g :: g in Candidates(us, min) <==>
              |g.units| >= 2 && g.units == Alike(us, min, g.likeness) && g.nodes == g.units[0].size
    ensures forall g, u :: g in Candidates(us, min) ==>
              (u in g.units <==> u in us && u.size >= min && u.likeness == g.likeness)
  {
    LikenessesOnce(us, min);
    GroupsAre(us, min, Likenesses(us, min));
    forall g: Group | |g.units| >= 2 && g.units == Alike(us, min, g.likeness) ensures g.likeness in Likenesses(us, min) {
      NoneAlike(us, min, g.likeness);
    }
    forall g | g in Candidates(us, min)
      ensures forall u :: u in g.units <==> u in us && u.size >= min && u.likeness == g.likeness
    {
      AlikeHolds(us, min, g.likeness);
    }
  }

  /** A likeness has a group exactly when two positions of large enough bodies carry it, and then
      one. Each large enough body of it stands in the group as often as it was met, and no other. */
  lemma LikenessHasGroup(us: seq<Unit>, min: nat, l: string)
    ensures (exists g :: g in Candidates(us, min) && g.likeness == l) <==>
              exists i, j :: 0 <= i < j < |us| && us[i].size >= min && us[j].size >= min && us[i].likeness == us[j].likeness == l
    ensures forall g, h :: g in Candidates(us, min) && h in Candidates(us, min) && g.likeness == h.likeness == l ==> g == h
    ensures forall g, u :: g in Candidates(us, min) && g.likeness == l ==>
              multiset(g.units)[u] == if u.size >= min && u.likeness == l then multiset(us)[u] else 0
  {
    LikenessesOnce(us, min);
    GroupsAre(us, min, Likenesses(us, min));
    AlikeTwice(us, min, l);
    NoneAlike(us, min, l);
    var units := Alike(us, min, l);
    if |units| >= 2 {
      assert Group(l, units[0].size, units) in Candidates(us, min);
    }
    forall u ensures multiset(units)[u] == if u.size >= min && u.likeness == l then multiset(us)[u] else 0 {
      AlikeCounts(us, min, l, u);
    }
  }

  /** Each unit measures a body, and no two bodies of different tokens share a likeness. */
  ghost predicate Measures(us: seq<Unit>, bodies: Unit -> (A.Node, A.Place)) {
    && (forall u :: u in us ==> u.size + 1 == A.Size(bodies(u).0))
    && (forall u, v :: u in us && v in us && u.likeness == v.likeness ==>
          A.Tokens(bodies(u).0, bodies(u).1, true) == A.Tokens(bodies(v).0, bodies(v).1, true))
  }

  /** A group's size is the size of each of its members, whichever of them it is read off. */
  lemma GroupHasOneSize(us: seq<Unit>, min: nat, bodies: Unit -> (A.Node, A.Place), g: Group, u: Unit)
    requires Measures(us, bodies) && g in Candidates(us, min) && u in g.units
    ensures u.size == g.nodes
  {
    GroupsAreClasses(us, min);
    var v := g.units[0];
    assert v in g.units;
    A.EqualTokensEqualSize(bodies(u).0, bodies(u).1, bodies(v).0, bodies(v).1, true);
  }

  // ----------------------------------------------------- the containment filter

  predicate Inside(u: Unit, outer: Unit) {
    outer.file == u.file && outer.start <= u.start && outer.end >= u.end
  }

  predicate InGroup(u: Unit, g: Group) { exists o :: o in g.units && Inside(u, o) }

  predicate Covered(u: Unit, kept: seq<Group>) { exists g :: g in kept && InGroup(u, g) }

  predicate Contained(c: Group, kept: seq<Group>) { forall u :: u in c.units ==> Covered(u, kept) }

  function Keep(kept: seq<Group>, cs: seq<Group>): seq<Group>
    decreases |cs|
  {
    if cs == [] then kept else Keep(if Contained(cs[0], kept) then kept else kept + [cs[0]], cs[1..])
  }

  predicate NoSmaller(a: Group, b: Group) { a.nodes >= b.nodes }

  /** The larger groups first, and of those only what an earlier one does not contain. */
  function Kept(cs: seq<Group>): seq<Group> { Keep([], Sort(cs, NoSmaller)) }

  method KeepOutermost(cs: seq<Group>) returns (kept: seq<Group>)
    ensures kept == Kept(cs)
  {
    kept := [];
    var candidates := Sort(cs, NoSmaller);
    for i := 0 to |candidates|
      invariant Keep(kept, candidates[i..]) == Keep([], candidates)
    {
      assert candidates[i..][1..] == candidates[i + 1..];
      if !Contained(candidates[i], kept) {
        kept := kept + [candidates[i]];
      }
    }
  }

  lemma {:induction false} KeepGrows(kept: seq<Group>, cs: seq<Group>)
    ensures kept <= Keep(kept, cs)
    ensures forall g :: g in Keep(kept, cs) ==> g in kept || g in cs
    decreases |cs|
  {
    if cs != [] {
      KeepGrows(if Contained(cs[0], kept) then kept else kept + [cs[0]], cs[1..]);
      assert cs == [cs[0]] + cs[1..];
    }
  }

  /** Every unit of every group given is inside a unit of some group kept that is no smaller. */
  lemma {:induction false} KeepCovers(kept: seq<Group>, cs: seq<Group>, c: Group, u: Unit) returns (g: Group)
    requires Sorted(cs, NoSmaller) && c in cs && u in c.units
    requires forall k :: k in kept ==> Leads(k, cs, NoSmaller)
    ensures g in Keep(kept, cs) && InGroup(u, g) && g.nodes >= c.nodes
    decreases |cs|
  {
    var next := if Contained(cs[0], kept) then kept else kept + [cs[0]];
    assert cs == [cs[0]] + cs[1..];
    SortedFrom(cs[0], cs[1..], NoSmaller);
    KeepGrows(next, cs[1..]);
    if c == cs[0] {
      if Contained(c, kept) {
        assert Covered(u, kept);
        g :| g in kept && InGroup(u, g);
      } else {
        g := c;
        assert Inside(u, u);
        assert c in next;
      }
      assert g in next;
    } else {
      forall k | k in next ensures Leads(k, cs[1..], NoSmaller) {
        if k in kept { assert Leads(k, cs, NoSmaller); }
      }
      g := KeepCovers(next, cs[1..], c, u);
    }
  }

  /** Nothing is lost: each unit of a group lies, in its file and between its ends, in a unit of a
      kept group at least as large. */
  lemma NothingIsLost(cs: seq<Group>, c: Group, u: Unit)
    requires c in cs && u in c.units
    ensures exists g, o :: g in Kept(cs) && g in cs && g.nodes >= c.nodes
              && o in g.units && o.file == u.file && o.start <= u.start && u.end <= o.end
  {
    var sorted := Sort(cs, NoSmaller);
    SortIsSorted(cs, NoSmaller);
    SortPermutes(cs, NoSmaller);
    assert c in multiset(sorted);
    var g := KeepCovers([], sorted, c, u);
    KeepGrows([], sorted);
    assert g in sorted;
    assert g in multiset(cs);
    var o :| o in g.units && Inside(u, o);
  }

  /** No group kept is contained in those kept before it. */
  ghost predicate EachAdds(kept: seq<Group>) {
    forall i: nat :: i < |kept| ==> !Contained(kept[i], kept[..i])
  }

  lemma {:induction false} KeepAdds(kept: seq<Group>, cs: seq<Group>)
    requires EachAdds(kept)
    ensures EachAdds(Keep(kept, cs))
    decreases |cs|
  {
    if cs != [] {
      if !Contained(cs[0], kept) {
        var next := kept + [cs[0]];
        forall i: nat | i < |next| ensures !Contained(next[i], next[..i]) {
          if i < |kept| {
            assert next[..i] == kept[..i];
            assert !Contained(kept[i], kept[..i]);
          } else {
            assert next[..i] == kept;
          }
        }
        KeepAdds(next, cs[1..]);
      } else {
        KeepAdds(kept, cs[1..]);
      }
    }
  }

  lemma {:induction false} KeepsWhatAdds(kept: seq<Group>, n: nat)
    requires EachAdds(kept) && n <= |kept|
    ensures Keep(kept[..n], kept[n..]) == kept
    decreases |kept| - n
  {
    if n == |kept| {
      assert kept[..n] == kept;
    } else {
      assert !Contained(kept[n], kept[..n]);
      assert kept[..n] + [kept[n]] == kept[..n + 1] && kept[n..][1..] == kept[n + 1..];
      KeepsWhatAdds(kept, n + 1);
    }
  }

  ghost predicate ReachesPast(kept: seq<Group>, j: nat)
    requires j < |kept|
  {
    exists u ::
      && u in kept[j].units
      && forall i, o :: 0 <= i < j && o in kept[i].units ==> o.file != u.file || o.start > u.start || o.end < u.end
  }

  lemma AddsUnit(kept: seq<Group>, j: nat)
    requires EachAdds(kept) && j < |kept|
    ensures ReachesPast(kept, j)
  {
    assert !Contained(kept[j], kept[..j]);
    var u :| u in kept[j].units && !Covered(u, kept[..j]);
    forall i, o | 0 <= i < j && o in kept[i].units ensures o.file != u.file || o.start > u.start || o.end < u.end {
      assert kept[..j][i] == kept[i];
      assert !InGroup(u, kept[i]);
      assert !Inside(u, o);
    }
  }

  lemma {:induction false} KeepIsPart(kept: seq<Group>, cs: seq<Group>)
    ensures multiset(Keep(kept, cs)) <= multiset(kept) + multiset(cs)
    decreases |cs|
  {
    if cs != [] {
      assert cs == [cs[0]] + cs[1..];
      KeepIsPart(if Contained(cs[0], kept) then kept else kept + [cs[0]], cs[1..]);
    }
  }

  lemma {:induction false} KeepGoesDown(kept: seq<Group>, cs: seq<Group>)
    requires Sorted(kept + cs, NoSmaller)
    ensures Sorted(Keep(kept, cs), NoSmaller)
    decreases |cs|
  {
    if cs == [] {
      assert kept + cs == kept;
    } else {
      var all := kept + cs;
      assert kept + [cs[0]] + cs[1..] == all;
      forall i, j | 0 <= i < j < |kept + cs[1..]| ensures NoSmaller((kept + cs[1..])[i], (kept + cs[1..])[j]) {
        var a, b := if i < |kept| then i else i + 1, if j < |kept| then j else j + 1;
        assert NoSmaller(all[a], all[b]);
      }
      KeepGoesDown(if Contained(cs[0], kept) then kept else kept + [cs[0]], cs[1..]);
    }
  }

  /** Every kept group says something no group kept before it says, so filtering again keeps all. */
  lemma EachKeptAdds(cs: seq<Group>)
    ensures EachAdds(Kept(cs))
    ensures Keep([], Kept(cs)) == Kept(cs)
  {
    KeepAdds([], Sort(cs, NoSmaller));
    KeepsWhatAdds(Kept(cs), 0);
    assert Kept(cs)[..0] == [] && Kept(cs)[0..] == Kept(cs);
  }

  /** What is kept are some of the groups, no smaller one before a larger, and each has a unit that
      in its file reaches past every unit of the groups kept before it. */
  lemma KeptAreOutermost(cs: seq<Group>)
    ensures multiset(Kept(cs)) <= multiset(cs)
    ensures forall i, j :: 0 <= i < j < |Kept(cs)| ==> Kept(cs)[i].nodes >= Kept(cs)[j].nodes
    ensures forall j: nat :: j < |Kept(cs)| ==> ReachesPast(Kept(cs), j)
  {
    var sorted := Sort(cs, NoSmaller);
    SortIsSorted(cs, NoSmaller);
    SortPermutes(cs, NoSmaller);
    assert [] + sorted == sorted;
    KeepIsPart([], sorted);
    KeepGoesDown([], sorted);
    KeepAdds([], sorted);
    forall i, j | 0 <= i < j < |Kept(cs)| ensures Kept(cs)[i].nodes >= Kept(cs)[j].nodes {
      assert NoSmaller(Kept(cs)[i], Kept(cs)[j]);
    }
    forall j: nat | j < |Kept(cs)| ensures ReachesPast(Kept(cs), j) { AddsUnit(Kept(cs), j); }
  }

  // ---------------------------------------------------------------------- keys

  function Seen(cs: seq<Group>, base: Group -> string, b: string): nat {
    if cs == [] then 0 else Seen(cs[..|cs| - 1], base, b) + if base(cs[|cs| - 1]) == b then 1 else 0
  }

  /** A group's key: what names its members, and how many groups before it are named the same. */
  function Key(cs: seq<Group>, base: Group -> string, i: nat): (string, nat)
    requires i < |cs|
  {
    (base(cs[i]), Seen(cs[..i], base, base(cs[i])))
  }

  lemma {:induction false} SeenGrows(cs: seq<Group>, base: Group -> string, b: string, i: nat, j: nat)
    requires i < j <= |cs| && base(cs[i]) == b
    ensures Seen(cs[..i], base, b) < Seen(cs[..j], base, b)
    decreases j
  {
    assert cs[..j][..j - 1] == cs[..j - 1] && cs[..j][j - 1] == cs[j - 1];
    if i < j - 1 { SeenGrows(cs, base, b, i, j - 1); }
  }

  lemma {:induction false} SeenCounts(cs: seq<Group>, base: Group -> string, b: string, n: nat)
    requires n <= |cs|
    ensures Seen(cs[..n], base, b) == |set i | 0 <= i < n && base(cs[i]) == b|
  {
    var named := set i | 0 <= i < n && base(cs[i]) == b;
    if n == 0 {
      assert named == {};
    } else {
      SeenCounts(cs, base, b, n - 1);
      assert cs[..n][..n - 1] == cs[..n - 1];
      OneMoreNamed(cs, base, b, n - 1);
    }
  }

  lemma OneMoreNamed(cs: seq<Group>, base: Group -> string, b: string, n: nat)
    requires n < |cs|
    ensures |set i | 0 <= i < n + 1 && base(cs[i]) == b|
         == |set i | 0 <= i < n && base(cs[i]) == b| + if base(cs[n]) == b then 1 else 0
  {
    var before := set i | 0 <= i < n && base(cs[i]) == b;
    assert (set i | 0 <= i < n + 1 && base(cs[i]) == b) == before + if base(cs[n]) == b then {n} else {};
  }

  /** Two groups never share a key, even when they name the same members: a key counts the groups
      before it that are named the same. */
  lemma KeysDiffer(cs: seq<Group>, base: Group -> string, i: nat, j: nat)
    requires i < j < |cs|
    ensures Key(cs, base, i) != Key(cs, base, j)
    ensures Key(cs, base, j) == (base(cs[j]), |set k | 0 <= k < j && base(cs[k]) == base(cs[j])|)
  {
    SeenCounts(cs, base, base(cs[j]), j);
    if base(cs[i]) == base(cs[j]) { SeenGrows(cs, base, base(cs[i]), i, j); }
  }
}
