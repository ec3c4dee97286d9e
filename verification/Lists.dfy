/**
 * What the modules share about lists.
 *
 * A list without repeats names each element once; `Distinct` makes one of any list, keeping each
 * element where it first stands, and so in the order a set or a map would keep. Reorderings are
 * lists of one multiset: the head of one has a place in the other, which is what a proof by
 * induction over both needs.
 */
module Lists {

  ghost predicate NoRepeats<T>(s: seq<T>) {
    forall i, j :: 0 <= i < j < |s| ==> s[i] != s[j]
  }

  ghost predicate GoesUp(s: seq<nat>) { forall i, j :: 0 <= i < j < |s| ==> s[i] < s[j] }

  lemma UpFrom(i: nat, rest: seq<nat>)
    requires GoesUp(rest) && forall k :: k in rest ==> i < k
    ensures GoesUp([i] + rest)
  {
    var s := [i] + rest;
    forall a, b | 0 <= a < b < |s| ensures s[a] < s[b] {
      assert s[b] == rest[b - 1] && s[b] in rest;
      if a > 0 { assert s[a] == rest[a - 1]; }
    }
  }

  lemma UpTo(s: seq<nat>, i: nat)
    requires GoesUp(s) && forall k :: k in s ==> k < i
    ensures GoesUp(s + [i])
  {
    forall a, b | 0 <= a < b < |s + [i]| ensures (s + [i])[a] < (s + [i])[b] { assert s[a] in s; }
  }

  lemma NoRepeatsSnoc<T>(s: seq<T>, x: T)
    ensures NoRepeats(s + [x]) <==> NoRepeats(s) && x !in s
  {
    var t := s + [x];
    assert t[|s|] == x;
    if NoRepeats(t) {
      forall i, j | 0 <= i < j < |s| ensures s[i] != s[j] { assert t[i] == s[i] && t[j] == s[j]; }
      forall i | 0 <= i < |s| ensures s[i] != x { assert t[i] == s[i]; }
    }
    if NoRepeats(s) && x !in s {
      forall i, j | 0 <= i < j < |t| ensures t[i] != t[j] {
        assert t[i] == s[i];
        if j < |s| { assert t[j] == s[j]; }
      }
    }
  }

  /** Each element once, where it first stands. */
  function Distinct<T(==)>(s: seq<T>): seq<T> {
    if s == [] then []
    else
      var before, last := s[..|s| - 1], s[|s| - 1];
      Distinct(before) + (if last in before then [] else [last])
  }

  lemma DistinctSnoc<T>(s: seq<T>, x: T)
    ensures Distinct(s + [x]) == Distinct(s) + (if x in s then [] else [x])
  {
    assert (s + [x])[..|s + [x]| - 1] == s;
  }

  lemma {:induction false} DistinctKeepsAll<T>(s: seq<T>)
    ensures NoRepeats(Distinct(s))
    ensures forall x :: x in Distinct(s) <==> x in s
    ensures |Distinct(s)| <= |s|
    ensures |Distinct(s)| == |s| <==> NoRepeats(s)
    ensures NoRepeats(s) ==> Distinct(s) == s
  {
    if s != [] {
      var before, last := s[..|s| - 1], s[|s| - 1];
      DistinctKeepsAll(before);
      assert s == before + [last];
      NoRepeatsSnoc(before, last);
      NoRepeatsSnoc(Distinct(before), last);
    }
  }

  /** `x` stands in `s` before `y` first does. */
  ghost predicate StandsBefore<T>(s: seq<T>, x: T, y: T) {
    exists p :: 0 <= p < |s| && s[p] == x && forall q :: 0 <= q <= p ==> s[q] != y
  }

  lemma StandsBeforeLonger<T>(s: seq<T>, last: T, x: T, y: T)
    requires StandsBefore(s, x, y)
    ensures StandsBefore(s + [last], x, y)
  {
    var p :| 0 <= p < |s| && s[p] == x && forall q :: 0 <= q <= p ==> s[q] != y;
    assert (s + [last])[p] == x;
  }

  lemma StandsBeforeNew<T>(s: seq<T>, last: T, x: T)
    requires x in s && last !in s
    ensures StandsBefore(s + [last], x, last)
  {
    var p :| 0 <= p < |s| && s[p] == x;
    assert (s + [last])[p] == x;
  }

  lemma DistinctHas<T>(s: seq<T>, x: T)
    ensures x in Distinct(s) <==> x in s
  {
    DistinctKeepsAll(s);
  }

  /** What stands first first comes first. */
  lemma {:induction false} DistinctInOrder<T>(s: seq<T>)
    ensures forall i, j :: 0 <= i < j < |Distinct(s)| ==> StandsBefore(s, Distinct(s)[i], Distinct(s)[j])
  {
    if s != [] {
      var before, last := s[..|s| - 1], s[|s| - 1];
      DistinctInOrder(before);
      DistinctKeepsAll(before);
      assert s == before + [last];
      var d := Distinct(before);
      forall i, j | 0 <= i < j < |Distinct(s)| ensures StandsBefore(s, Distinct(s)[i], Distinct(s)[j]) {
        if j < |d| {
          StandsBeforeLonger(before, last, d[i], d[j]);
        } else {
          assert d[i] in d;
          DistinctHas(before, d[i]);
          StandsBeforeNew(before, last, d[i]);
        }
      }
    }
  }

  lemma {:induction false} DistinctConcat<T>(a: seq<T>, b: seq<T>)
    ensures Distinct(a) <= Distinct(a + b)
    ensures (exists x :: x in b && x !in a) ==> |Distinct(a + b)| > |Distinct(a)|
    ensures (forall x :: x in b ==> x in a) ==> Distinct(a + b) == Distinct(a)
    decreases |b|
  {
    if b == [] {
      assert a + b == a;
    } else {
      var front, last := b[..|b| - 1], b[|b| - 1];
      DistinctConcat(a, front);
      assert (a + b)[..|a + b| - 1] == a + front && (a + b)[|a + b| - 1] == last;
      assert b == front + [last];
    }
  }

  /** The head of one list has a place in any reordering of it. */
  lemma HeadElsewhere<T>(a: seq<T>, b: seq<T>) returns (i: nat)
    requires a != [] && multiset(a) == multiset(b)
    ensures i < |b| && b[i] == a[0] && b == b[..i] + [b[i]] + b[i + 1..]
    ensures multiset(a[1..]) == multiset(b[..i] + b[i + 1..])
  {
    assert a[0] in multiset(b);
    i :| 0 <= i < |b| && b[i] == a[0];
    assert b == b[..i] + [b[i]] + b[i + 1..];
    assert a == [a[0]] + a[1..];
    assert multiset(a[1..]) == multiset(a) - multiset{a[0]};
    assert multiset(b[..i] + b[i + 1..]) == multiset(b) - multiset{b[i]};
  }

  lemma Regroup<T>(a: seq<T>, b: seq<T>, c: seq<T>)
    ensures a + (b + c) == a + b + c
  {
  }

  lemma HeadMoves<T>(a: seq<T>, s: seq<T>)
    requires s != []
    ensures a + [s[0]] + s[1..] == a + s
  {
  }

  lemma SameSize<T>(a: seq<T>, b: seq<T>)
    requires multiset(a) == multiset(b)
    ensures |a| == |b|
  {
    assert |multiset(a)| == |multiset(b)|;
  }
}
