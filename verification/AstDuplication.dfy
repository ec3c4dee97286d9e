/**
 * The duplicate gate's fingerprint (scripts/ast-duplication.ts): a body as tokens, its names
 * replaced by first-use numbers; exact, or with only query text and intrinsic tags kept.
 */
module AstDuplication {
  import opened Lists

  // ---------------------------------------------------------------- syntax trees

  /** A syntax node as the fingerprint sees it. `text` is the identifier's name or the
      literal's content for the kinds that carry one, and unused otherwise; `computed`
      tells `a[b]` from `a.b` on a member expression. */
  datatype Node = Node(kind: string, text: string, computed: bool, children: seq<Node>)

  /** Where a node hangs: its parent, its position among the parent's children, and
      where the parent hangs in turn. */
  datatype Place = Root | Under(parent: Node, index: nat, above: Place)

  predicate IsIdentifier(n: Node) {
    n.kind == "Identifier" || n.kind == "PrivateIdentifier" || n.kind == "JSXIdentifier"
  }

  predicate IsLiteral(n: Node) {
    n.kind == "TemplateElement" || n.kind == "JSXText" || n.kind == "Literal"
  }

  /** The callee of `holder` is a member access named `exec`. */
  predicate CallsExec(holder: Node) {
    && holder.kind == "CallExpression"
    && |holder.children| > 0
    && var callee := holder.children[0];
    && callee.kind == "MemberExpression"
    && |callee.children| == 2
    && var property := callee.children[1];
    && (if callee.computed then property.kind == "Literal" else IsIdentifier(property))
    && property.text == "exec"
  }

  /** Text handed to the SQL port: a tagged template, or the first argument of `.exec(...)`. */
  predicate IsQueryText(n: Node, place: Place) {
    var textAt := if n.kind == "TemplateElement" then (if place.Root? then Root else place.above) else place;
    && textAt.Under?
    && (textAt.parent.kind == "TaggedTemplateExpression"
        || (textAt.parent.kind == "CallExpression" && textAt.index == 1 && CallsExec(textAt.parent)))
  }

  /** `<dt>` is the string 'dt' to React and not a binding. */
  predicate IsIntrinsicTag(n: Node, place: Place) {
    && n.kind == "JSXIdentifier"
    && |n.text| > 0 && 'a' <= n.text[0] <= 'z'
    && place.Under?
    && (place.parent.kind == "JSXOpeningElement" || place.parent.kind == "JSXClosingElement")
  }

  function Size(n: Node): (s: nat)
    decreases n, |n.children| + 1
  {
    1 + SizeFrom(n, 0)
  }

  function SizeFrom(n: Node, i: nat): nat
    requires i <= |n.children|
    decreases n, |n.children| - i
  {
    if i == |n.children| then 0 else Size(n.children[i]) + SizeFrom(n, i + 1)
  }

  // ------------------------------------------------------------ token sequences

  /** What the fingerprint pushes. */
  datatype Token = Open | Kind(kind: string) | Slot(slot: nat) | Text(text: string) | Close

  /** The same sequence before names are numbered. A `tag` is an intrinsic JSX tag in the
      likeness: it takes a number like any name but is written out. */
  datatype Raw = ROpen | RKind(kind: string) | RName(name: string, tag: bool) | RText(text: string) | RClose

  function Mark(n: Node, place: Place, like: bool): seq<Raw> {
    if IsIdentifier(n) then [RName(n.text, like && IsIntrinsicTag(n, place))]
    else if IsLiteral(n) && (!like || IsQueryText(n, place)) then [RText(n.text)]
    else []
  }

  function RawOf(n: Node, place: Place, like: bool): seq<Raw>
    decreases n, |n.children| + 1
  {
    [ROpen, RKind(n.kind)] + Mark(n, place, like) + RawFrom(n, 0, place, like) + [RClose]
  }

  function RawFrom(n: Node, i: nat, place: Place, like: bool): seq<Raw>
    requires i <= |n.children|
    decreases n, |n.children| - i
  {
    if i == |n.children| then []
    else RawOf(n.children[i], Under(n, i, place), like) + RawFrom(n, i + 1, place, like)
  }

  /** A name keeps its number, and a new one takes the next. */
  function Noted(names: map<string, nat>, name: string): map<string, nat> {
    if name in names then names else names[name := |names|]
  }

  function Next(names: map<string, nat>, t: Raw): map<string, nat> {
    if t.RName? then Noted(names, t.name) else names
  }

  function NamesAfter(names: map<string, nat>, raw: seq<Raw>): map<string, nat>
    decreases |raw|
  {
    if raw == [] then names else NamesAfter(Next(names, raw[0]), raw[1..])
  }

  function Numbered(names: map<string, nat>, t: Raw): Token {
    match t
    case ROpen => Open
    case RKind(k) => Kind(k)
    case RName(n, tag) => if tag then Text(n) else Slot(Noted(names, n)[n])
    case RText(s) => Text(s)
    case RClose => Close
  }

  function Numbering(names: map<string, nat>, raw: seq<Raw>): (ts: seq<Token>)
    ensures |ts| == |raw|
    decreases |raw|
  {
    if raw == [] then [] else [Numbered(names, raw[0])] + Numbering(Next(names, raw[0]), raw[1..])
  }

  /** The exact (`like == false`) or likeness (`like == true`) tokens of a body's children. */
  function Tokens(body: Node, above: Place, like: bool): seq<Token> {
    Numbering(map[], RawFrom(body, 0, above, like))
  }

  lemma {:induction false} NamesAfterConcat(names: map<string, nat>, a: seq<Raw>, b: seq<Raw>)
    ensures NamesAfter(names, a + b) == NamesAfter(NamesAfter(names, a), b)
    decreases |a|
  {
    if a == [] {
      assert a + b == b;
    } else {
      assert (a + b)[0] == a[0] && (a + b)[1..] == a[1..] + b;
      NamesAfterConcat(Next(names, a[0]), a[1..], b);
    }
  }

  lemma {:induction false} NumberingConcat(names: map<string, nat>, a: seq<Raw>, b: seq<Raw>)
    ensures Numbering(names, a + b) == Numbering(names, a) + Numbering(NamesAfter(names, a), b)
    decreases |a|
  {
    if a == [] {
      assert a + b == b;
    } else {
      assert (a + b)[0] == a[0] && (a + b)[1..] == a[1..] + b;
      NumberingConcat(Next(names, a[0]), a[1..], b);
    }
  }

  // ----------------------------------------------------- the fingerprint's walk

  /** Both modes meet the same identifiers in the same order, so one name table serves both. */
  lemma {:induction false} SameNamesInBothModes(n: Node, place: Place, names: map<string, nat>)
    ensures NamesAfter(names, RawOf(n, place, true)) == NamesAfter(names, RawOf(n, place, false))
    decreases n, |n.children| + 1
  {
    MarkNames(n, place, true, names);
    MarkNames(n, place, false, names);
    var noted := NamesAfter(names, Mark(n, place, false));
    Enclosed(names, n.kind, Mark(n, place, true), RawFrom(n, 0, place, true));
    Enclosed(names, n.kind, Mark(n, place, false), RawFrom(n, 0, place, false));
    SameNamesFrom(n, 0, place, noted);
  }

  lemma {:induction false} SameNamesFrom(n: Node, i: nat, place: Place, names: map<string, nat>)
    requires i <= |n.children|
    ensures NamesAfter(names, RawFrom(n, i, place, true)) == NamesAfter(names, RawFrom(n, i, place, false))
    decreases n, |n.children| - i
  {
    if i < |n.children| {
      var child, at := n.children[i], Under(n, i, place);
      SameNamesInBothModes(child, at, names);
      NamesAfterConcat(names, RawOf(child, at, true), RawFrom(n, i + 1, place, true));
      NamesAfterConcat(names, RawOf(child, at, false), RawFrom(n, i + 1, place, false));
      SameNamesFrom(n, i + 1, place, NamesAfter(names, RawOf(child, at, false)));
    }
  }

  /** A node's own tokens enclose its children's, numbered after its own name if it has one. */
  lemma Enclosed(names: map<string, nat>, kind: string, mark: seq<Raw>, kids: seq<Raw>)
    ensures var noted := NamesAfter(names, mark);
      var whole := [ROpen, RKind(kind)] + mark + kids + [RClose];
      && NamesAfter(names, whole) == NamesAfter(noted, kids)
      && Numbering(names, whole)
         == [Open, Kind(kind)] + Numbering(names, mark) + Numbering(noted, kids) + [Close]
  {
    var head := [ROpen, RKind(kind)];
    OpensWithKind(names, kind);
    NamesAfterConcat(names, head, mark);
    NumberingConcat(names, head, mark);
    NamesAfterConcat(names, head + mark, kids);
    NumberingConcat(names, head + mark, kids);
    var front := head + mark + kids;
    NamesAfterConcat(names, front, [RClose]);
    NumberingConcat(names, front, [RClose]);
    assert NamesAfter(NamesAfter(names, front), [RClose]) == NamesAfter(names, front);
    assert Numbering(NamesAfter(names, front), [RClose]) == [Close];
  }

  lemma OpensWithKind(names: map<string, nat>, kind: string)
    ensures NamesAfter(names, [ROpen, RKind(kind)]) == names
    ensures Numbering(names, [ROpen, RKind(kind)]) == [Open, Kind(kind)]
  {
    NamesAfterConcat(names, [ROpen], [RKind(kind)]);
    NumberingConcat(names, [ROpen], [RKind(kind)]);
    assert [ROpen, RKind(kind)] == [ROpen] + [RKind(kind)];
  }

  lemma MarkNames(n: Node, place: Place, like: bool, names: map<string, nat>)
    ensures NamesAfter(names, Mark(n, place, like)) == if IsIdentifier(n) then Noted(names, n.text) else names
    ensures Numbering(names, Mark(n, place, like))
         == if IsIdentifier(n) then
              [if like && IsIntrinsicTag(n, place) then Text(n.text) else Slot(Noted(names, n.text)[n.text])]
            else if IsLiteral(n) && (!like || IsQueryText(n, place)) then [Text(n.text)] else []
  {
  }

  lemma RegroupFour<T>(a: seq<T>, b: seq<T>, c: seq<T>, d: seq<T>, e: seq<T>)
    ensures a + b + c + d + e == a + (b + c + d + e)
  {
  }

  /** The walk of one body: two growing sequences, the name table and the node count. */
  class Fingerprinter {
    var names: map<string, nat>
    var exact: seq<Token>
    var likeness: seq<Token>
    var size: nat

    constructor ()
      ensures names == map[] && exact == [] && likeness == [] && size == 0
    {
      names, exact, likeness, size := map[], [], [], 0;
    }

    method TakeSlot(key: string) returns (slot: nat)
      modifies this`names
      ensures names == Noted(old(names), key) && key in names && slot == names[key]
    {
      if key in names {
        return names[key];
      }
      slot := |names|;
      names := names[key := slot];
    }

    method Visit(n: Node, place: Place)
      modifies this
      ensures size == old(size) + Size(n)
      ensures names == NamesAfter(old(names), RawOf(n, place, false))
      ensures exact == old(exact) + Numbering(old(names), RawOf(n, place, false))
      ensures likeness == old(likeness) + Numbering(old(names), RawOf(n, place, true))
      decreases n, |n.children| + 1
    {
      ghost var was := names;
      Enclosed(names, n.kind, Mark(n, place, false), RawFrom(n, 0, place, false));
      Enclosed(names, n.kind, Mark(n, place, true), RawFrom(n, 0, place, true));
      size := size + 1;
      exact := exact + [Open, Kind(n.kind)];
      likeness := likeness + [Open, Kind(n.kind)];
      VisitText(n, place);
      ghost var markExact, markLike := Numbering(was, Mark(n, place, false)), Numbering(was, Mark(n, place, true));
      ghost var kidsExact, kidsLike := Numbering(names, RawFrom(n, 0, place, false)), Numbering(names, RawFrom(n, 0, place, true));
      VisitChildren(n, place);
      exact := exact + [Close];
      likeness := likeness + [Close];
      RegroupFour(old(exact), [Open, Kind(n.kind)], markExact, kidsExact, [Close]);
      RegroupFour(old(likeness), [Open, Kind(n.kind)], markLike, kidsLike, [Close]);
    }

    /** A node's own text: a slot for a name, and the literals each sequence keeps. */
    method VisitText(n: Node, place: Place)
      modifies this`names, this`exact, this`likeness
      ensures names == NamesAfter(old(names), Mark(n, place, false)) == NamesAfter(old(names), Mark(n, place, true))
      ensures exact == old(exact) + Numbering(old(names), Mark(n, place, false))
      ensures likeness == old(likeness) + Numbering(old(names), Mark(n, place, true))
    {
      MarkNames(n, place, false, names);
      MarkNames(n, place, true, names);
      if IsIdentifier(n) {
        var slot := TakeSlot(n.text);
        exact := exact + [Slot(slot)];
        likeness := likeness + [if IsIntrinsicTag(n, place) then Text(n.text) else Slot(slot)];
      } else if IsLiteral(n) {
        exact := exact + [Text(n.text)];
        if IsQueryText(n, place) {
          likeness := likeness + [Text(n.text)];
        }
      }
    }

    method VisitChildren(n: Node, place: Place)
      modifies this
      ensures size == old(size) + SizeFrom(n, 0)
      ensures names == NamesAfter(old(names), RawFrom(n, 0, place, false))
      ensures exact == old(exact) + Numbering(old(names), RawFrom(n, 0, place, false))
      ensures likeness == old(likeness) + Numbering(old(names), RawFrom(n, 0, place, true))
      decreases n, |n.children|
    {
      ghost var was := names;
      var i := 0;
      while i < |n.children|
        invariant 0 <= i <= |n.children|
        invariant size + SizeFrom(n, i) == old(size) + SizeFrom(n, 0)
        invariant NamesAfter(names, RawFrom(n, i, place, false)) == NamesAfter(was, RawFrom(n, 0, place, false))
        invariant exact + Numbering(names, RawFrom(n, i, place, false))
               == old(exact) + Numbering(was, RawFrom(n, 0, place, false))
        invariant likeness + Numbering(names, RawFrom(n, i, place, true))
               == old(likeness) + Numbering(was, RawFrom(n, 0, place, true))
      {
        ghost var before := names;
        ghost var at := Under(n, i, place);
        SameNamesInBothModes(n.children[i], at, names);
        NamesAfterConcat(names, RawOf(n.children[i], at, false), RawFrom(n, i + 1, place, false));
        NumberingConcat(names, RawOf(n.children[i], at, false), RawFrom(n, i + 1, place, false));
        NumberingConcat(names, RawOf(n.children[i], at, true), RawFrom(n, i + 1, place, true));
        ghost var e, l := exact, likeness;
        Visit(n.children[i], Under(n, i, place));
        Regroup(e, Numbering(before, RawOf(n.children[i], at, false)), Numbering(names, RawFrom(n, i + 1, place, false)));
        Regroup(l, Numbering(before, RawOf(n.children[i], at, true)), Numbering(names, RawFrom(n, i + 1, place, true)));
        i := i + 1;
      }
    }
  }

  method FingerprintOf(body: Node, above: Place) returns (exact: seq<Token>, likeness: seq<Token>, size: nat)
    ensures exact == Tokens(body, above, false)
    ensures likeness == Tokens(body, above, true)
    ensures size == Size(body) - 1
  {
    var walk := new Fingerprinter();
    walk.VisitChildren(body, above);
    return walk.exact, walk.likeness, walk.size;
  }

  // ------------------------------------------------- copies up to renaming

  ghost predicate Injective(r: map<string, string>) {
    forall m, n :: m in r && n in r && r[m] == r[n] ==> m == n
  }

  /** One node's own text against another's: names correspond under `r`, intrinsic tags
      and query text are equal, and the literals the mode keeps are equal. */
  ghost predicate CopyOfText(a: Node, pa: Place, b: Node, pb: Place, r: map<string, string>, like: bool) {
    if IsIdentifier(a) then
      var tag := like && IsIntrinsicTag(a, pa);
      && tag == (like && IsIntrinsicTag(b, pb))
      && (if tag then a.text == b.text else a.text in r && r[a.text] == b.text)
    else if IsLiteral(a) then
      if like then IsQueryText(a, pa) == IsQueryText(b, pb) && (IsQueryText(a, pa) ==> a.text == b.text)
      else a.text == b.text
    else true
  }

  /** `b` is `a` with its names replaced through `r`, node for node. */
  ghost predicate CopyOf(a: Node, pa: Place, b: Node, pb: Place, r: map<string, string>, like: bool)
    decreases a, |a.children| + 1
  {
    && a.kind == b.kind
    && CopyOfText(a, pa, b, pb, r, like)
    && |a.children| == |b.children|
    && CopyFrom(a, 0, pa, b, pb, r, like)
  }

  ghost predicate CopyFrom(a: Node, i: nat, pa: Place, b: Node, pb: Place, r: map<string, string>, like: bool)
    requires i <= |a.children| == |b.children|
    decreases a, |a.children| - i
  {
    i == |a.children|
    || (CopyOf(a.children[i], Under(a, i, pa), b.children[i], Under(b, i, pb), r, like)
        && CopyFrom(a, i + 1, pa, b, pb, r, like))
  }

  /** Two bodies are copies when their children are. */
  ghost predicate BodyCopy(a: Node, pa: Place, b: Node, pb: Place, r: map<string, string>, like: bool) {
    |a.children| == |b.children| && CopyFrom(a, 0, pa, b, pb, r, like)
  }

  // ---------------------------------------------- copies as token sequences

  ghost predicate SameToken(t: Raw, u: Raw, r: map<string, string>) {
    if t.RName? && !t.tag then u.RName? && !u.tag && t.name in r && r[t.name] == u.name
    else !(u.RName? && !u.tag) && Numbered(map[], t) == Numbered(map[], u)
  }

  ghost predicate SameTokens(s: seq<Raw>, t: seq<Raw>, r: map<string, string>) {
    |s| == |t| && forall i :: 0 <= i < |s| ==> SameToken(s[i], t[i], r)
  }

  lemma Unpacked(n: Node, place: Place, like: bool, tail: seq<Raw>)
    ensures RawOf(n, place, like) + tail
         == [ROpen, RKind(n.kind)] + (Mark(n, place, like) + (RawFrom(n, 0, place, like) + [RClose] + tail))
  {
  }

  lemma KindsMatch(a: string, b: string, s: seq<Raw>, t: seq<Raw>, r: map<string, string>)
    requires SameTokens([ROpen, RKind(a)] + s, [ROpen, RKind(b)] + t, r)
    ensures a == b && SameTokens(s, t, r)
  {
    SameTokensSplit([ROpen, RKind(a)], [ROpen, RKind(b)], s, t, r);
    assert SameToken([ROpen, RKind(a)][1], [ROpen, RKind(b)][1], r);
  }

  /** Tokens are self-delimiting: equal sequences come from trees that are copies, whatever follows. */
  lemma {:induction false} ReadBack(a: Node, pa: Place, b: Node, pb: Place, r: map<string, string>, like: bool,
                                    ta: seq<Raw>, tb: seq<Raw>)
    requires SameTokens(RawOf(a, pa, like) + ta, RawOf(b, pb, like) + tb, r)
    ensures CopyOf(a, pa, b, pb, r, like) && SameTokens(ta, tb, r)
    decreases a, |a.children| + 1
  {
    var ka, kb := RawFrom(a, 0, pa, like) + [RClose] + ta, RawFrom(b, 0, pb, like) + [RClose] + tb;
    var ma, mb := Mark(a, pa, like), Mark(b, pb, like);
    Unpacked(a, pa, like, ta);
    Unpacked(b, pb, like, tb);
    KindsMatch(a.kind, b.kind, ma + ka, mb + kb, r);
    ChildrenStart(a, 0, pa, like, ta);
    ChildrenStart(b, 0, pb, like, tb);
    MarksMatch(a, pa, b, pb, r, like, ka, kb);
    SameTokensSplit(ma, mb, ka, kb, r);
    ReadBackFrom(a, 0, pa, b, pb, r, like, ta, tb);
  }

  lemma SameTokensSplit(s: seq<Raw>, t: seq<Raw>, s': seq<Raw>, t': seq<Raw>, r: map<string, string>)
    requires |s| == |t| && SameTokens(s + s', t + t', r)
    ensures SameTokens(s, t, r) && SameTokens(s', t', r)
  {
    forall i | 0 <= i < |s| ensures SameToken(s[i], t[i], r) {
      assert SameToken((s + s')[i], (t + t')[i], r);
    }
    forall i | 0 <= i < |s'| ensures SameToken(s'[i], t'[i], r) {
      assert SameToken((s + s')[|s| + i], (t + t')[|t| + i], r);
    }
  }

  /** Two nodes of one kind show their text alike, and whether they show it at all. */
  lemma MarksMatch(a: Node, pa: Place, b: Node, pb: Place, r: map<string, string>, like: bool,
                   ka: seq<Raw>, kb: seq<Raw>)
    requires a.kind == b.kind
    requires |ka| > 0 && |kb| > 0 && (ka[0].ROpen? || ka[0].RClose?) && (kb[0].ROpen? || kb[0].RClose?)
    requires SameTokens(Mark(a, pa, like) + ka, Mark(b, pb, like) + kb, r)
    ensures |Mark(a, pa, like)| == |Mark(b, pb, like)|
    ensures CopyOfText(a, pa, b, pb, r, like)
  {
    var s, t := Mark(a, pa, like) + ka, Mark(b, pb, like) + kb;
    assert SameToken(s[0], t[0], r);
  }

  /** The tokens of a child list begin by opening a child or closing the list. */
  lemma ChildrenStart(n: Node, i: nat, place: Place, like: bool, tail: seq<Raw>)
    requires i <= |n.children|
    ensures var s := RawFrom(n, i, place, like) + [RClose] + tail;
      |s| > 0 && s[0] == if i == |n.children| then RClose else ROpen
  {
  }

  /** Both lists have a child at `i`, or neither. */
  lemma BothGoOn(a: Node, b: Node, i: nat, pa: Place, pb: Place, r: map<string, string>, like: bool, ta: seq<Raw>, tb: seq<Raw>)
    requires i <= |a.children| && i <= |b.children|
    requires SameTokens(RawFrom(a, i, pa, like) + [RClose] + ta, RawFrom(b, i, pb, like) + [RClose] + tb, r)
    ensures i == |a.children| <==> i == |b.children|
  {
    var s, t := RawFrom(a, i, pa, like) + [RClose] + ta, RawFrom(b, i, pb, like) + [RClose] + tb;
    ChildrenStart(a, i, pa, like, ta);
    ChildrenStart(b, i, pb, like, tb);
    assert SameToken(s[0], t[0], r);
  }

  lemma {:induction false} ReadBackFrom(a: Node, i: nat, pa: Place, b: Node, pb: Place, r: map<string, string>,
                                        like: bool, ta: seq<Raw>, tb: seq<Raw>)
    requires i <= |a.children| && i <= |b.children|
    requires SameTokens(RawFrom(a, i, pa, like) + [RClose] + ta, RawFrom(b, i, pb, like) + [RClose] + tb, r)
    ensures |a.children| == |b.children| && CopyFrom(a, i, pa, b, pb, r, like) && SameTokens(ta, tb, r)
    decreases a, |a.children| - i
  {
    BothGoOn(a, b, i, pa, pb, r, like, ta, tb);
    if i == |a.children| {
      NoChildren(a, pa, like, ta);
      NoChildren(b, pb, like, tb);
      SameTokensSplit([RClose], [RClose], ta, tb, r);
    } else {
      NextChild(a, i, pa, like, ta);
      NextChild(b, i, pb, like, tb);
      ReadBack(a.children[i], Under(a, i, pa), b.children[i], Under(b, i, pb), r, like,
               RawFrom(a, i + 1, pa, like) + [RClose] + ta, RawFrom(b, i + 1, pb, like) + [RClose] + tb);
      ReadBackFrom(a, i + 1, pa, b, pb, r, like, ta, tb);
    }
  }

  lemma NoChildren(n: Node, place: Place, like: bool, tail: seq<Raw>)
    ensures RawFrom(n, |n.children|, place, like) + [RClose] + tail == [RClose] + tail
  {
  }

  lemma NextChild(n: Node, i: nat, place: Place, like: bool, tail: seq<Raw>)
    requires i < |n.children|
    ensures RawFrom(n, i, place, like) + [RClose] + tail
         == RawOf(n.children[i], Under(n, i, place), like) + (RawFrom(n, i + 1, place, like) + [RClose] + tail)
  {
  }

  lemma SameTokensConcat(s: seq<Raw>, t: seq<Raw>, s': seq<Raw>, t': seq<Raw>, r: map<string, string>)
    requires SameTokens(s, t, r) && SameTokens(s', t', r)
    ensures SameTokens(s + s', t + t', r)
    ensures NamesPaired(s, t) && NamesPaired(s', t') ==> NamesPaired(s + s', t + t')
  {
  }

  /** Names stand where names stand. */
  ghost predicate NamesPaired(s: seq<Raw>, t: seq<Raw>) {
    |s| == |t| && forall i :: 0 <= i < |s| ==> (s[i].RName? <==> t[i].RName?)
  }

  lemma {:induction false} CopiesHaveSameTokens(a: Node, pa: Place, b: Node, pb: Place, r: map<string, string>, like: bool)
    requires CopyOf(a, pa, b, pb, r, like)
    ensures SameTokens(RawOf(a, pa, like), RawOf(b, pb, like), r)
    ensures NamesPaired(RawOf(a, pa, like), RawOf(b, pb, like))
    decreases a, |a.children| + 1
  {
    CopyFromHasSameTokens(a, 0, pa, b, pb, r, like);
    var ka, kb := RawFrom(a, 0, pa, like), RawFrom(b, 0, pb, like);
    var ha, hb := [ROpen, RKind(a.kind)], [ROpen, RKind(b.kind)];
    SameTokensConcat(ha, hb, Mark(a, pa, like), Mark(b, pb, like), r);
    SameTokensConcat(ha + Mark(a, pa, like), hb + Mark(b, pb, like), ka, kb, r);
    SameTokensConcat(ha + Mark(a, pa, like) + ka, hb + Mark(b, pb, like) + kb, [RClose], [RClose], r);
  }

  lemma {:induction false} CopyFromHasSameTokens(a: Node, i: nat, pa: Place, b: Node, pb: Place,
                                                 r: map<string, string>, like: bool)
    requires i <= |a.children| == |b.children| && CopyFrom(a, i, pa, b, pb, r, like)
    ensures SameTokens(RawFrom(a, i, pa, like), RawFrom(b, i, pb, like), r)
    ensures NamesPaired(RawFrom(a, i, pa, like), RawFrom(b, i, pb, like))
    decreases a, |a.children| - i
  {
    if i < |a.children| {
      var qa, qb := Under(a, i, pa), Under(b, i, pb);
      CopiesHaveSameTokens(a.children[i], qa, b.children[i], qb, r, like);
      CopyFromHasSameTokens(a, i + 1, pa, b, pb, r, like);
      SameTokensConcat(RawOf(a.children[i], qa, like), RawOf(b.children[i], qb, like),
                       RawFrom(a, i + 1, pa, like), RawFrom(b, i + 1, pb, like), r);
    }
  }

  // ------------------------------------------------------- first-use numbers

  /** Numbers are dense and never shared. */
  ghost predicate Dense(names: map<string, nat>) {
    && (forall m, n :: m in names && n in names && names[m] == names[n] ==> m == n)
    && (forall n :: n in names ==> names[n] < |names|)
  }

  lemma NextKeepsDense(names: map<string, nat>, t: Raw)
    requires Dense(names)
    ensures Dense(Next(names, t))
    ensures forall n :: n in names ==> n in Next(names, t) && Next(names, t)[n] == names[n]
  {
  }

  lemma {:induction false} NamesGrow(names: map<string, nat>, s: seq<Raw>)
    requires Dense(names)
    ensures Dense(NamesAfter(names, s))
    ensures forall n :: n in names ==> n in NamesAfter(names, s) && NamesAfter(names, s)[n] == names[n]
    decreases |s|
  {
    if s != [] {
      NextKeepsDense(names, s[0]);
      NamesGrow(Next(names, s[0]), s[1..]);
    }
  }

  /** What a token shows, given the final numbers. */
  ghost predicate Shows(t: Raw, token: Token, last: map<string, nat>) {
    if t.RName? && !t.tag then t.name in last && token == Slot(last[t.name])
    else token == Numbered(map[], t)
  }

  lemma FirstShows(names: map<string, nat>, s: seq<Raw>)
    requires Dense(names) && s != []
    ensures Dense(Next(names, s[0])) && Shows(s[0], Numbering(names, s)[0], NamesAfter(names, s))
  {
    NextKeepsDense(names, s[0]);
    NamesGrow(Next(names, s[0]), s[1..]);
  }

  /** A name's number never changes once given, so every occurrence shows its final number. */
  lemma {:induction false} NumbersAreFinal(names: map<string, nat>, s: seq<Raw>, i: nat)
    requires Dense(names) && i < |s|
    ensures Shows(s[i], Numbering(names, s)[i], NamesAfter(names, s))
    decreases i
  {
    FirstShows(names, s);
    if i > 0 {
      NumbersAreFinal(Next(names, s[0]), s[1..], i - 1);
    }
  }

  ghost predicate HasSlot(names: map<string, nat>, slot: nat) {
    exists n :: n in names && names[n] == slot
  }

  ghost function NameAt(names: map<string, nat>, slot: nat): string
    requires HasSlot(names, slot)
  {
    var n :| n in names && names[n] == slot; n
  }

  /** Equal numbered sequences pair the names up one to one: through their numbers. */
  lemma EqualNumbersPairNames(s: seq<Raw>, t: seq<Raw>) returns (r: map<string, string>)
    requires Numbering(map[], s) == Numbering(map[], t)
    ensures Injective(r) && SameTokens(s, t, r)
  {
    NamesGrow(map[], s);
    NamesGrow(map[], t);
    var ms, mt := NamesAfter(map[], s), NamesAfter(map[], t);
    r := map n | n in ms && HasSlot(mt, ms[n]) :: NameAt(mt, ms[n]);
    assert |s| == |Numbering(map[], s)| == |t|;
    forall i | 0 <= i < |s|
      ensures SameToken(s[i], t[i], r)
    {
      NumbersAreFinal(map[], s, i);
      NumbersAreFinal(map[], t, i);
    }
  }

  ghost predicate TagsFixed(s: seq<Raw>, r: map<string, string>) {
    forall i :: 0 <= i < |s| && s[i].RName? && s[i].tag ==> s[i].name in r && r[s[i].name] == s[i].name
  }

  /** Two name tables that agree through `r`. */
  ghost predicate InStep(p: map<string, nat>, q: map<string, nat>, r: map<string, string>) {
    && |p| == |q|
    && forall n :: n in r ==> (n in p <==> r[n] in q) && (n in p ==> q[r[n]] == p[n])
  }

  /** A consistent renaming that keeps the tags keeps every number. */
  lemma {:induction false} RenamingKeepsNumbers(p: map<string, nat>, q: map<string, nat>,
                                                s: seq<Raw>, t: seq<Raw>, r: map<string, string>)
    requires Injective(r) && InStep(p, q, r) && SameTokens(s, t, r) && NamesPaired(s, t) && TagsFixed(s, r)
    ensures Numbering(p, s) == Numbering(q, t)
    decreases |s|
  {
    if s != [] {
      assert SameToken(s[0], t[0], r);
      assert SameTokens(s[1..], t[1..], r) by {
        forall i | 0 <= i < |s| - 1 ensures SameToken(s[1..][i], t[1..][i], r) {
          assert SameToken(s[i + 1], t[i + 1], r);
        }
      }
      if s[0].RName? {
        var n := s[0].name;
        assert n in r && r[n] == t[0].name;
      }
      RenamingKeepsNumbers(Next(p, s[0]), Next(q, t[0]), s[1..], t[1..], r);
    }
  }

  // ------------------------------------------------------------- main results

  lemma EqualTokensGiveCopy(a: Node, pa: Place, b: Node, pb: Place, like: bool) returns (r: map<string, string>)
    requires Tokens(a, pa, like) == Tokens(b, pb, like)
    ensures Injective(r) && BodyCopy(a, pa, b, pb, r, like)
  {
    var s, t := RawFrom(a, 0, pa, like), RawFrom(b, 0, pb, like);
    r := EqualNumbersPairNames(s, t);
    SameTokensConcat(s, t, [RClose], [RClose], r);
    assert s + [RClose] + [] == s + [RClose] && t + [RClose] + [] == t + [RClose];
    ReadBackFrom(a, 0, pa, b, pb, r, like, [], []);
  }

  lemma CopyGivesEqualTokens(a: Node, pa: Place, b: Node, pb: Place, r: map<string, string>, like: bool)
    requires Injective(r) && BodyCopy(a, pa, b, pb, r, like) && TagsFixed(RawFrom(a, 0, pa, like), r)
    ensures Tokens(a, pa, like) == Tokens(b, pb, like)
  {
    CopyFromHasSameTokens(a, 0, pa, b, pb, r, like);
    RenamingKeepsNumbers(map[], map[], RawFrom(a, 0, pa, like), RawFrom(b, 0, pb, like), r);
  }

  lemma {:induction false} ExactWritesNoTags(n: Node, place: Place)
    ensures forall t :: t in RawOf(n, place, false) && t.RName? ==> !t.tag
    decreases n, |n.children| + 1
  {
    ExactWritesNoTagsFrom(n, 0, place);
  }

  lemma {:induction false} ExactWritesNoTagsFrom(n: Node, i: nat, place: Place)
    requires i <= |n.children|
    ensures forall t :: t in RawFrom(n, i, place, false) && t.RName? ==> !t.tag
    decreases n, |n.children| - i
  {
    if i < |n.children| {
      ExactWritesNoTags(n.children[i], Under(n, i, place));
      ExactWritesNoTagsFrom(n, i + 1, place);
    }
  }

  /** The exact fingerprint is a complete invariant of a body up to consistent renaming. */
  lemma ExactIffRenamedCopy(a: Node, pa: Place, b: Node, pb: Place)
    ensures Tokens(a, pa, false) == Tokens(b, pb, false)
       <==> exists r :: Injective(r) && BodyCopy(a, pa, b, pb, r, false)
  {
    if Tokens(a, pa, false) == Tokens(b, pb, false) {
      var r := EqualTokensGiveCopy(a, pa, b, pb, false);
    }
    if r :| Injective(r) && BodyCopy(a, pa, b, pb, r, false) {
      ExactWritesNoTagsFrom(a, 0, pa);
      CopyGivesEqualTokens(a, pa, b, pb, r, false);
    }
  }

  /** Equal likeness means a copy: bindings correspond one to one, and intrinsic tags and
      query text are equal. */
  lemma EqualLikenessIsCopy(a: Node, pa: Place, b: Node, pb: Place)
    requires Tokens(a, pa, true) == Tokens(b, pb, true)
    ensures exists r :: Injective(r) && BodyCopy(a, pa, b, pb, r, true)
  {
    var r := EqualTokensGiveCopy(a, pa, b, pb, true);
  }

  /** Renaming every binding, and editing literals that are not query text, never hides a
      copy as long as the renaming leaves the names of intrinsic tags alone. */
  lemma RenamedCopyHasEqualLikeness(a: Node, pa: Place, b: Node, pb: Place, r: map<string, string>)
    requires Injective(r) && BodyCopy(a, pa, b, pb, r, true)
    requires TagsFixed(RawFrom(a, 0, pa, true), r)
    ensures Tokens(a, pa, true) == Tokens(b, pb, true)
  {
    CopyGivesEqualTokens(a, pa, b, pb, r, true);
  }

  // ------------------------------------------------- equal likeness, equal size

  function Opens(raw: seq<Raw>): nat
    decreases |raw|
  {
    if raw == [] then 0 else (if raw[0].ROpen? then 1 else 0) + Opens(raw[1..])
  }

  lemma {:induction false} OpensConcat(a: seq<Raw>, b: seq<Raw>)
    ensures Opens(a + b) == Opens(a) + Opens(b)
    decreases |a|
  {
    if a == [] {
      assert a + b == b;
    } else {
      assert (a + b)[0] == a[0] && (a + b)[1..] == a[1..] + b;
      OpensConcat(a[1..], b);
    }
  }

  lemma {:induction false} OneOpenEach(n: Node, place: Place, like: bool)
    ensures Opens(RawOf(n, place, like)) == Size(n)
    decreases n, |n.children| + 1
  {
    var head, kids := [ROpen, RKind(n.kind)] + Mark(n, place, like), RawFrom(n, 0, place, like);
    OneOpenEachFrom(n, 0, place, like);
    OpensConcat([ROpen, RKind(n.kind)], Mark(n, place, like));
    OpensConcat([ROpen], [RKind(n.kind)]);
    assert [ROpen, RKind(n.kind)] == [ROpen] + [RKind(n.kind)];
    OpensConcat(head, kids);
    OpensConcat(head + kids, [RClose]);
  }

  lemma {:induction false} OneOpenEachFrom(n: Node, i: nat, place: Place, like: bool)
    requires i <= |n.children|
    ensures Opens(RawFrom(n, i, place, like)) == SizeFrom(n, i)
    decreases n, |n.children| - i
  {
    if i < |n.children| {
      OneOpenEach(n.children[i], Under(n, i, place), like);
      OneOpenEachFrom(n, i + 1, place, like);
      OpensConcat(RawOf(n.children[i], Under(n, i, place), like), RawFrom(n, i + 1, place, like));
    }
  }

  lemma {:induction false} EqualNumberingsOpenAlike(p: map<string, nat>, q: map<string, nat>, s: seq<Raw>, t: seq<Raw>)
    requires Numbering(p, s) == Numbering(q, t)
    ensures Opens(s) == Opens(t)
    decreases |s|
  {
    if s != [] {
      assert Numbering(p, s)[0] == Numbered(p, s[0]) && Numbering(q, t)[0] == Numbered(q, t[0]);
      assert Numbering(p, s)[1..] == Numbering(Next(p, s[0]), s[1..]);
      assert Numbering(q, t)[1..] == Numbering(Next(q, t[0]), t[1..]);
      EqualNumberingsOpenAlike(Next(p, s[0]), Next(q, t[0]), s[1..], t[1..]);
    } else {
      assert |t| == |Numbering(q, t)| == 0;
    }
  }

  /** Bodies of one fingerprint, exact or likeness, have one size: a bucket has no larger member. */
  lemma EqualTokensEqualSize(a: Node, pa: Place, b: Node, pb: Place, like: bool)
    requires Tokens(a, pa, like) == Tokens(b, pb, like)
    ensures Size(a) == Size(b)
  {
    EqualNumberingsOpenAlike(map[], map[], RawFrom(a, 0, pa, like), RawFrom(b, 0, pb, like));
    OneOpenEachFrom(a, 0, pa, like);
    OneOpenEachFrom(b, 0, pb, like);
  }

  // ---------------------------------------------- what a number is, by itself

  function NamesIn(s: seq<Raw>): set<string> {
    set i | 0 <= i < |s| && s[i].RName? :: s[i].name
  }

  /** Where a name first stands, as a binding or as a tag. */
  function FirstUse(s: seq<Raw>, name: string): nat
    decreases |s|
  {
    if s == [] || (s[0].RName? && s[0].name == name) then 0 else 1 + FirstUse(s[1..], name)
  }

  /** How many other names come into use before a name does. */
  ghost function Rank(s: seq<Raw>, name: string): nat
    requires name in NamesIn(s)
  {
    FirstUseWithin(s, name);
    |NamesIn(s[..FirstUse(s, name)])|
  }

  lemma {:induction false} FirstUseWithin(s: seq<Raw>, name: string)
    ensures FirstUse(s, name) <= |s|
    ensures FirstUse(s, name) < |s| <==> name in NamesIn(s)
    decreases |s|
  {
    if s != [] && !(s[0].RName? && s[0].name == name) {
      FirstUseWithin(s[1..], name);
      NamesInSplit(s[..1], s[1..]);
      assert s == s[..1] + s[1..];
    } else if s != [] {
      assert s[0].name in NamesIn(s);
    }
  }

  lemma NamesInSplit(s: seq<Raw>, t: seq<Raw>)
    ensures NamesIn(s + t) == NamesIn(s) + NamesIn(t)
  {
    forall n | n in NamesIn(s) + NamesIn(t) ensures n in NamesIn(s + t) {
      if i :| 0 <= i < |s| && s[i].RName? && s[i].name == n { assert (s + t)[i] == s[i]; }
      else {
        var j :| 0 <= j < |t| && t[j].RName? && t[j].name == n;
        assert (s + t)[|s| + j] == t[j];
      }
    }
  }

  lemma {:induction false} FirstUseStays(s: seq<Raw>, t: Raw, name: string)
    ensures FirstUse(s + [t], name) == if name in NamesIn(s) || (t.RName? && t.name == name) then FirstUse(s, name) else |s| + 1
    decreases |s|
  {
    FirstUseWithin(s, name);
    if s == [] {
      assert (s + [t])[1..] == [];
    } else if !(s[0].RName? && s[0].name == name) {
      assert (s + [t])[1..] == s[1..] + [t];
      FirstUseStays(s[1..], t, name);
      NamesInSplit(s[..1], s[1..]);
      assert s == s[..1] + s[1..];
    }
  }

  lemma NamesInOne(t: Raw)
    ensures NamesIn([t]) == if t.RName? then {t.name} else {}
  {
    assert [t][0] == t;
    if t.RName? { assert [t][0].name in NamesIn([t]); }
  }

  lemma RankStays(s: seq<Raw>, t: Raw, name: string)
    ensures NamesIn(s + [t]) == NamesIn(s) + if t.RName? then {t.name} else {}
    ensures name in NamesIn(s) ==> Rank(s + [t], name) == Rank(s, name)
    ensures name !in NamesIn(s) && t.RName? && t.name == name ==> Rank(s + [t], name) == |NamesIn(s)|
  {
    NamesInSplit(s, [t]);
    NamesInOne(t);
    FirstUseStays(s, t, name);
    FirstUseWithin(s, name);
    var at := FirstUse(s, name);
    assert at <= |s|;
    assert (s + [t])[..at] == s[..at];
    assert s[..|s|] == s;
  }

  /** The name table holds each name met, under its rank. */
  ghost predicate RanksNames(names: map<string, nat>, s: seq<Raw>) {
    names.Keys == NamesIn(s) && forall n :: n in NamesIn(s) ==> names[n] == Rank(s, n)
  }

  lemma NextRanks(names: map<string, nat>, s: seq<Raw>, t: Raw)
    requires RanksNames(names, s)
    ensures RanksNames(Next(names, t), s + [t])
  {
    assert |names| == |names.Keys|;
    RankStays(s, t, "");
    forall n | n in NamesIn(s + [t]) ensures Next(names, t)[n] == Rank(s + [t], n) {
      RankStays(s, t, n);
    }
  }

  /** A name's number is the number of names in use before it. */
  lemma {:induction false} NumberIsRank(s: seq<Raw>)
    ensures NamesAfter(map[], s).Keys == NamesIn(s)
    ensures forall n :: n in NamesIn(s) ==> NamesAfter(map[], s)[n] == Rank(s, n)
    decreases |s|
  {
    if s != [] {
      var init, last := s[..|s| - 1], s[|s| - 1];
      NumberIsRank(init);
      assert s == init + [last];
      NamesAfterConcat(map[], init, [last]);
      assert NamesAfter(NamesAfter(map[], init), [last]) == Next(NamesAfter(map[], init), last);
      NextRanks(NamesAfter(map[], init), init, last);
    }
  }

  /** A copy keeps the likeness exactly when each binding's name first comes into use, as a binding
      or as a tag, after as many other names as the name it is copied to does. */
  lemma CopyKeepsLikenessIff(a: Node, pa: Place, b: Node, pb: Place, r: map<string, string>)
    requires Injective(r) && BodyCopy(a, pa, b, pb, r, true)
    ensures Tokens(a, pa, true) == Tokens(b, pb, true)
       <==> SameRanks(RawFrom(a, 0, pa, true), RawFrom(b, 0, pb, true))
  {
    var s, t := RawFrom(a, 0, pa, true), RawFrom(b, 0, pb, true);
    CopyFromHasSameTokens(a, 0, pa, b, pb, r, true);
    NumberIsRank(s);
    NumberIsRank(t);
    forall i: nat | i < |s| ensures Numbering(map[], s)[i] == Numbering(map[], t)[i] <==> SameRank(s, t, i) {
      assert SameToken(s[i], t[i], r);
      NumbersAreFinal(map[], s, i);
      NumbersAreFinal(map[], t, i);
    }
    if SameRanks(s, t) {
      assert Numbering(map[], s) == Numbering(map[], t);
    }
  }

  ghost predicate SameRank(s: seq<Raw>, t: seq<Raw>, i: nat)
    requires i < |s| && i < |t|
  {
    s[i].RName? && !s[i].tag && t[i].RName? ==> Rank(s, s[i].name) == Rank(t, t[i].name)
  }

  ghost predicate SameRanks(s: seq<Raw>, t: seq<Raw>) {
    |s| == |t| && forall i: nat :: i < |s| ==> SameRank(s, t, i)
  }

  function Around(kind: string, n: Node): Node { Node(kind, "", false, [n]) }

  /** `<tag/>;` */
  function TagStatement(tag: string): Node {
    Around("ExpressionStatement", Around("JSXElement", Around("JSXOpeningElement", Node("JSXIdentifier", tag, false, []))))
  }

  /** `name;` */
  function NameStatement(name: string): Node { Around("ExpressionStatement", Node("Identifier", name, false, [])) }

  /** `{ <tag/>; name; }` */
  function TagThenName(tag: string, name: string): Node {
    Node("BlockStatement", "", false, [TagStatement(tag), NameStatement(name)])
  }

  /** Without that condition a copy can be hidden: tags take numbers too, so renaming a
      binding to the name of a tag it follows shifts the numbers. */
  lemma TagNamedBindingHidesCopy()
    ensures var a, b := TagThenName("p", "x"), TagThenName("p", "p");
      && Injective(map["x" := "p"])
      && BodyCopy(a, Root, b, Root, map["x" := "p"], true)
      && Tokens(a, Root, true) != Tokens(b, Root, true)
  {
    NumberAfterTag("p", "x");
    NumberAfterTag("p", "p");
    RenamedAfterTag("p", "x", "p");
  }

  lemma RenamedAfterTag(tag: string, x: string, y: string)
    requires |tag| > 0 && 'a' <= tag[0] <= 'z'
    ensures BodyCopy(TagThenName(tag, x), Root, TagThenName(tag, y), Root, map[x := y], true)
  {
    var a, b, r := TagThenName(tag, x), TagThenName(tag, y), map[x := y];
    TagCopies(tag, Under(a, 0, Root), Under(b, 0, Root), r);
    NameCopies(x, y, Under(a, 1, Root), Under(b, 1, Root), r);
    assert CopyFrom(a, 2, Root, b, Root, r, true);
    assert CopyFrom(a, 1, Root, b, Root, r, true);
  }

  lemma NameCopies(x: string, y: string, pa: Place, pb: Place, r: map<string, string>)
    requires x in r && r[x] == y
    ensures CopyOf(NameStatement(x), pa, NameStatement(y), pb, r, true)
  {
    var n, m := NameStatement(x), NameStatement(y);
    assert CopyOf(n.children[0], Under(n, 0, pa), m.children[0], Under(m, 0, pb), r, true);
    AroundCopies("ExpressionStatement", n.children[0], pa, m.children[0], pb, r);
  }

  predicate Bare(kind: string) { !IsIdentifier(Node(kind, "", false, [])) && !IsLiteral(Node(kind, "", false, [])) }

  lemma AroundCopies(kind: string, n: Node, pn: Place, m: Node, pm: Place, r: map<string, string>)
    requires Bare(kind)
    requires CopyOf(n, Under(Around(kind, n), 0, pn), m, Under(Around(kind, m), 0, pm), r, true)
    ensures CopyOf(Around(kind, n), pn, Around(kind, m), pm, r, true)
  {
    var a, b := Around(kind, n), Around(kind, m);
    assert CopyFrom(a, 1, pn, b, pm, r, true);
    assert CopyFrom(a, 0, pn, b, pm, r, true);
  }

  lemma TagCopies(tag: string, pa: Place, pb: Place, r: map<string, string>)
    requires |tag| > 0 && 'a' <= tag[0] <= 'z'
    ensures CopyOf(TagStatement(tag), pa, TagStatement(tag), pb, r, true)
  {
    var n := Node("JSXIdentifier", tag, false, []);
    var opening := Around("JSXOpeningElement", n);
    var element := Around("JSXElement", opening);
    var statement := Around("ExpressionStatement", element);
    var ea, eb := Under(statement, 0, pa), Under(statement, 0, pb);
    var oa, ob := Under(element, 0, ea), Under(element, 0, eb);
    assert CopyOf(n, Under(opening, 0, oa), n, Under(opening, 0, ob), r, true);
    AroundCopies("JSXOpeningElement", n, oa, n, ob, r);
    AroundCopies("JSXElement", opening, ea, opening, eb, r);
    AroundCopies("ExpressionStatement", element, pa, element, pb, r);
  }

  lemma LeafTokens(n: Node, place: Place)
    requires IsIdentifier(n) && n.children == []
    ensures RawOf(n, place, true) == [ROpen, RKind(n.kind), RName(n.text, IsIntrinsicTag(n, place)), RClose]
  {
  }

  lemma AroundTokens(kind: string, n: Node, place: Place)
    requires Bare(kind)
    ensures var a := Around(kind, n);
      RawOf(a, place, true) == [ROpen, RKind(kind)] + RawOf(n, Under(a, 0, place), true) + [RClose]
  {
    var a := Around(kind, n);
    assert Mark(a, place, true) == [] && RawFrom(a, 1, place, true) == [];
    assert RawFrom(a, 0, place, true) == RawOf(n, Under(a, 0, place), true) + RawFrom(a, 1, place, true);
  }

  lemma TagTokens(tag: string, place: Place)
    requires |tag| > 0 && 'a' <= tag[0] <= 'z'
    ensures var raw := RawOf(TagStatement(tag), place, true);
      |raw| == 13 && raw[8] == RName(tag, true) && forall i :: 0 <= i < 13 && i != 8 ==> !raw[i].RName?
  {
    var n := Node("JSXIdentifier", tag, false, []);
    var opening := Around("JSXOpeningElement", n);
    var element := Around("JSXElement", opening);
    var inner := Under(element, 0, Under(Around("ExpressionStatement", element), 0, place));
    LeafTokens(n, Under(opening, 0, inner));
    AroundTokens("JSXOpeningElement", n, inner);
    AroundTokens("JSXElement", opening, Under(Around("ExpressionStatement", element), 0, place));
    AroundTokens("ExpressionStatement", element, place);
  }

  lemma NameTokens(name: string, place: Place)
    ensures RawOf(NameStatement(name), place, true)
         == [ROpen, RKind("ExpressionStatement"), ROpen, RKind("Identifier"), RName(name, false), RClose, RClose]
  {
    var n := Node("Identifier", name, false, []);
    LeafTokens(n, Under(NameStatement(name), 0, place));
    AroundTokens("ExpressionStatement", n, place);
  }

  lemma NumberAfterTag(tag: string, name: string)
    requires |tag| > 0 && 'a' <= tag[0] <= 'z'
    ensures var ts := Tokens(TagThenName(tag, name), Root, true);
      |ts| == 20 && ts[17] == Slot(if name == tag then 0 else 1)
  {
    var body := TagThenName(tag, name);
    var first, second := RawOf(TagStatement(tag), Under(body, 0, Root), true), RawOf(NameStatement(name), Under(body, 1, Root), true);
    TagTokens(tag, Under(body, 0, Root));
    NameTokens(name, Under(body, 1, Root));
    assert RawFrom(body, 2, Root, true) == [];
    assert RawFrom(body, 1, Root, true) == second + RawFrom(body, 2, Root, true);
    assert RawFrom(body, 0, Root, true) == first + RawFrom(body, 1, Root, true);
    var front, back := first + second[..4], second[4..];
    assert second == second[..4] + back;
    Regroup(first, second[..4], back);
    assert second + [] == second && RawFrom(body, 0, Root, true) == front + back;
    OnlyTag(front, tag);
    NumberingConcat(map[], front, back);
    assert back[0] == RName(name, false);
    assert Numbering(map[tag := 0], back)[0] == Numbered(map[tag := 0], back[0]);
    assert |map[tag := 0]| == 1;
  }

  lemma OnlyTag(front: seq<Raw>, tag: string)
    requires |front| == 17 && front[8] == RName(tag, true)
    requires forall i :: 0 <= i < 17 && i != 8 ==> !front[i].RName?
    ensures NamesAfter(map[], front) == map[tag := 0]
  {
    NoNames(map[], front[..8]);
    NoNames(map[tag := 0], front[9..]);
    assert front == front[..8] + ([front[8]] + front[9..]);
    NamesAfterConcat(map[], front[..8], [front[8]] + front[9..]);
    NamesAfterConcat(map[], [front[8]], front[9..]);
  }

  lemma {:induction false} NoNames(names: map<string, nat>, s: seq<Raw>)
    requires forall i :: 0 <= i < |s| ==> !s[i].RName?
    ensures NamesAfter(names, s) == names
    decreases |s|
  {
    if s != [] { NoNames(names, s[1..]); }
  }
}
