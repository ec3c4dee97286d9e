/**
 * What the duplicate gate's two fingerprints keep of a body (scripts/ast-duplication.ts): the exact
 * one every literal, the likeness only text handed to the SQL port and tags in lower case.
 *
 * Each result is about two small bodies alike in all but one text: whether their token sequences
 * differ is whether that text shows.
 */
module LikenessText {
  import opened AstDuplication

  function Name(name: string): Node { Node("Identifier", name, false, []) }

  /** `'text'`, or the same as a template. */
  function Quoted(text: string, template: bool): Node {
    if template then Around("TemplateLiteral", Node("TemplateElement", text, false, []))
    else Node("Literal", text, false, [])
  }

  /** `receiver.name`, or `receiver['name']`. */
  function Member(receiver: string, name: string, computed: bool): Node {
    Node("MemberExpression", "", computed, [Name(receiver), if computed then Quoted(name, false) else Name(name)])
  }

  /** The call with one argument. */
  function Call(receiver: string, name: string, computed: bool, text: Node): Node {
    Node("CallExpression", "", false, [Member(receiver, name, computed), text])
  }

  /** The call with the text as its second argument. */
  function SecondCall(receiver: string, name: string, computed: bool, first: string, text: Node): Node {
    Node("CallExpression", "", false, [Member(receiver, name, computed), Name(first), text])
  }

  /** The text after a tag. */
  function Tagged(tag: string, text: string): Node {
    Node("TaggedTemplateExpression", "", false, [Name(tag), Quoted(text, true)])
  }

  /** `{ expression; }` */
  function Body(expression: Node): Node {
    Around("BlockStatement", Around("ExpressionStatement", expression))
  }

  function At(expression: Node): Place {
    Under(Around("ExpressionStatement", expression), 0, Under(Body(expression), 0, Root))
  }

  // ------------------------------------------------ what equal likeness forces

  lemma LastIsCopied(a: Node, pa: Place, b: Node, pb: Place, r: map<string, string>)
    requires CopyOf(a, pa, b, pb, r, true) && 1 <= |a.children| <= 3
    ensures |b.children| == |a.children|
    ensures var i := |a.children| - 1;
      CopyOf(a.children[i], Under(a, i, pa), b.children[i], Under(b, i, pb), r, true)
  {
    assert CopyFrom(a, 0, pa, b, pb, r, true);
    if |a.children| > 1 {
      assert CopyFrom(a, 1, pa, b, pb, r, true);
      if |a.children| > 2 { assert CopyFrom(a, 2, pa, b, pb, r, true); }
    }
  }

  lemma ExpressionIsCopied(a: Node, b: Node, r: map<string, string>)
    requires BodyCopy(Body(a), Root, Body(b), Root, r, true)
    ensures CopyOf(a, At(a), b, At(b), r, true)
  {
    var x, y := Body(a), Body(b);
    assert CopyFrom(x, 0, Root, y, Root, r, true);
    LastIsCopied(x.children[0], Under(x, 0, Root), y.children[0], Under(y, 0, Root), r);
  }

  /** With equal likeness the last parts of two expressions correspond. */
  lemma LastOfLikes(a: Node, b: Node) returns (r: map<string, string>)
    requires Tokens(Body(a), Root, true) == Tokens(Body(b), Root, true)
    requires 1 <= |a.children| <= 3
    ensures |b.children| == |a.children|
    ensures var i := |a.children| - 1;
      CopyOf(a.children[i], Under(a, i, At(a)), b.children[i], Under(b, i, At(b)), r, true)
  {
    EqualLikenessIsCopy(Body(a), Root, Body(b), Root);
    r :| Injective(r) && BodyCopy(Body(a), Root, Body(b), Root, r, true);
    ExpressionIsCopied(a, b, r);
    LastIsCopied(a, At(a), b, At(b), r);
  }

  /** A template's text is that of its one element. */
  lemma ElementIsCopied(s: string, pa: Place, t: string, pb: Place, r: map<string, string>)
    requires CopyOf(Quoted(s, true), pa, Quoted(t, true), pb, r, true)
    ensures var a, b := Quoted(s, true), Quoted(t, true);
      CopyOfText(a.children[0], Under(a, 0, pa), b.children[0], Under(b, 0, pb), r, true)
  {
    LastIsCopied(Quoted(s, true), pa, Quoted(t, true), pb, r);
  }

  // ------------------------------------------------ what differs without showing

  lemma LeafRaw(n: Node, place: Place)
    requires n.children == []
    ensures RawOf(n, place, true) == [ROpen, RKind(n.kind)] + Mark(n, place, true) + [RClose]
  {
  }

  lemma TwoRaw(n: Node, place: Place)
    requires |n.children| == 2 && Bare(n.kind)
    ensures RawOf(n, place, true) == [ROpen, RKind(n.kind)]
      + (RawOf(n.children[0], Under(n, 0, place), true) + RawOf(n.children[1], Under(n, 1, place), true)) + [RClose]
  {
    assert RawFrom(n, 2, place, true) == [] && Mark(n, place, true) == [];
    assert RawFrom(n, 1, place, true) == RawOf(n.children[1], Under(n, 1, place), true);
  }

  lemma ThreeRaw(n: Node, place: Place)
    requires |n.children| == 3 && Bare(n.kind)
    ensures RawOf(n, place, true) == [ROpen, RKind(n.kind)]
      + (RawOf(n.children[0], Under(n, 0, place), true) + (RawOf(n.children[1], Under(n, 1, place), true)
      + RawOf(n.children[2], Under(n, 2, place), true))) + [RClose]
  {
    assert RawFrom(n, 3, place, true) == [] && Mark(n, place, true) == [];
    assert RawFrom(n, 2, place, true) == RawOf(n.children[2], Under(n, 2, place), true);
    assert RawFrom(n, 1, place, true)
      == RawOf(n.children[1], Under(n, 1, place), true) + RawOf(n.children[2], Under(n, 2, place), true);
  }

  lemma NameRaw(name: string, p: Place, q: Place)
    ensures RawOf(Name(name), p, true) == RawOf(Name(name), q, true)
  {
    LeafRaw(Name(name), p);
    LeafRaw(Name(name), q);
  }

  lemma MemberRaw(receiver: string, name: string, computed: bool, p: Place, q: Place)
    ensures RawOf(Member(receiver, name, computed), p, true) == RawOf(Member(receiver, name, computed), q, true)
  {
    var m := Member(receiver, name, computed);
    TwoRaw(m, p);
    TwoRaw(m, q);
    NameRaw(receiver, Under(m, 0, p), Under(m, 0, q));
    LeafRaw(m.children[1], Under(m, 1, p));
    LeafRaw(m.children[1], Under(m, 1, q));
  }

  /** Where a quoted text's own literal hangs. */
  function Inner(text: string, template: bool, place: Place): Place {
    if template then Under(Quoted(text, true), 0, place) else place
  }

  function Literal(text: string, template: bool): Node {
    Node(if template then "TemplateElement" else "Literal", text, false, [])
  }

  lemma QuotedRaw(s: string, t: string, template: bool, p: Place, q: Place)
    requires !IsQueryText(Literal(s, template), Inner(s, template, p))
    requires !IsQueryText(Literal(t, template), Inner(t, template, q))
    ensures RawOf(Quoted(s, template), p, true) == RawOf(Quoted(t, template), q, true)
  {
    LeafRaw(Literal(s, template), Inner(s, template, p));
    LeafRaw(Literal(t, template), Inner(t, template, q));
    if template {
      AroundTokens("TemplateLiteral", Literal(s, true), p);
      AroundTokens("TemplateLiteral", Literal(t, true), q);
    }
  }

  lemma BodyTokens(a: Node, b: Node)
    requires RawOf(a, At(a), true) == RawOf(b, At(b), true)
    ensures Tokens(Body(a), Root, true) == Tokens(Body(b), Root, true)
  {
    BodyRaw(a);
    BodyRaw(b);
  }

  lemma BodyRaw(a: Node)
    ensures RawFrom(Body(a), 0, Root, true) == [ROpen, RKind("ExpressionStatement")] + RawOf(a, At(a), true) + [RClose]
  {
    var x := Body(a);
    AroundTokens("ExpressionStatement", a, Under(x, 0, Root));
    assert RawFrom(x, 1, Root, true) == [];
  }

  // ------------------------------------------------------------------ which text

  /** The first argument of a method call shows in the likeness exactly when the method is
      named `exec`, quoted or as a template. */
  lemma FirstArgumentShows(receiver: string, name: string, computed: bool, s: string, t: string, template: bool)
    ensures Tokens(Body(Call(receiver, name, computed, Quoted(s, template))), Root, true)
        == Tokens(Body(Call(receiver, name, computed, Quoted(t, template))), Root, true)
       <==> name != "exec" || s == t
  {
    var a := Call(receiver, name, computed, Quoted(s, template));
    var b := Call(receiver, name, computed, Quoted(t, template));
    if name != "exec" {
      MemberRaw(receiver, name, computed, Under(a, 0, At(a)), Under(b, 0, At(b)));
      QuotedRaw(s, t, template, Under(a, 1, At(a)), Under(b, 1, At(b)));
      TwoRaw(a, At(a));
      TwoRaw(b, At(b));
      BodyTokens(a, b);
    } else if Tokens(Body(a), Root, true) == Tokens(Body(b), Root, true) {
      var r := LastOfLikes(a, b);
      if template { ElementIsCopied(s, Under(a, 1, At(a)), t, Under(b, 1, At(b)), r); }
    }
  }

  /** No later argument shows, whatever the method. */
  lemma SecondArgumentHides(receiver: string, name: string, computed: bool, first: string, s: string, t: string,
                            template: bool)
    ensures Tokens(Body(SecondCall(receiver, name, computed, first, Quoted(s, template))), Root, true)
        == Tokens(Body(SecondCall(receiver, name, computed, first, Quoted(t, template))), Root, true)
  {
    var a := SecondCall(receiver, name, computed, first, Quoted(s, template));
    var b := SecondCall(receiver, name, computed, first, Quoted(t, template));
    MemberRaw(receiver, name, computed, Under(a, 0, At(a)), Under(b, 0, At(b)));
    NameRaw(first, Under(a, 1, At(a)), Under(b, 1, At(b)));
    QuotedRaw(s, t, template, Under(a, 2, At(a)), Under(b, 2, At(b)));
    ThreeRaw(a, At(a));
    ThreeRaw(b, At(b));
    BodyTokens(a, b);
  }

  /** A tagged template's text always shows. */
  lemma TaggedTextShows(tag: string, s: string, t: string)
    ensures Tokens(Body(Tagged(tag, s)), Root, true) == Tokens(Body(Tagged(tag, t)), Root, true) <==> s == t
  {
    var a, b := Tagged(tag, s), Tagged(tag, t);
    if Tokens(Body(a), Root, true) == Tokens(Body(b), Root, true) {
      var r := LastOfLikes(a, b);
      ElementIsCopied(s, Under(a, 1, At(a)), t, Under(b, 1, At(b)), r);
    }
  }

  /** A text standing alone does not show. */
  lemma PlainTextHides(s: string, t: string, template: bool)
    ensures Tokens(Body(Quoted(s, template)), Root, true) == Tokens(Body(Quoted(t, template)), Root, true)
  {
    var a, b := Quoted(s, template), Quoted(t, template);
    QuotedRaw(s, t, template, At(a), At(b));
    BodyTokens(a, b);
  }

  // ------------------------------------------------------------ names, literals, tags

  lemma {:induction false} NamelessNumbering(p: map<string, nat>, q: map<string, nat>, s: seq<Raw>)
    requires forall i :: 0 <= i < |s| ==> !s[i].RName?
    ensures Numbering(p, s) == Numbering(q, s)
    decreases |s|
  {
    if s != [] { NamelessNumbering(p, q, s[1..]); }
  }

  /** Of two token sequences that differ in one place and name nothing elsewhere. */
  lemma OneDiffers(front: seq<Raw>, x: Raw, y: Raw, back: seq<Raw>)
    requires forall i :: 0 <= i < |front| ==> !front[i].RName?
    requires forall i :: 0 <= i < |back| ==> !back[i].RName?
    ensures Numbering(map[], front + ([x] + back)) == Numbering(map[], front + ([y] + back))
       <==> Numbered(map[], x) == Numbered(map[], y)
  {
    NoNames(map[], front);
    NumberingConcat(map[], front, [x] + back);
    NumberingConcat(map[], front, [y] + back);
    HeadNumbered(x, back);
    HeadNumbered(y, back);
    NamelessNumbering(Next(map[], x), Next(map[], y), back);
    SameFront(Numbering(map[], front), Numbered(map[], x), Numbered(map[], y), Numbering(Next(map[], x), back));
  }

  lemma HeadNumbered(x: Raw, back: seq<Raw>)
    ensures Numbering(map[], [x] + back) == [Numbered(map[], x)] + Numbering(Next(map[], x), back)
  {
    assert ([x] + back)[0] == x && ([x] + back)[1..] == back;
  }

  lemma SameFront<T>(front: seq<T>, x: T, y: T, back: seq<T>)
    ensures front + ([x] + back) == front + ([y] + back) <==> x == y
  {
    assert (front + ([x] + back))[|front|] == x && (front + ([y] + back))[|front|] == y;
  }

  lemma ExactLeaf(n: Node)
    requires n.children == []
    ensures RawFrom(Body(n), 0, Root, false)
         == [ROpen, RKind("ExpressionStatement"), ROpen, RKind(n.kind)] + (Mark(n, At(n), false) + [RClose, RClose])
  {
    var body, statement := Body(n), Around("ExpressionStatement", n);
    assert RawFrom(statement, 1, Under(body, 0, Root), false) == [];
    assert RawOf(n, At(n), false) == [ROpen, RKind(n.kind)] + Mark(n, At(n), false) + [RClose];
    assert RawFrom(statement, 0, Under(body, 0, Root), false) == RawOf(n, At(n), false);
    assert Mark(statement, Under(body, 0, Root), false) == [];
    assert RawFrom(body, 1, Root, false) == [];
  }

  /** In the exact fingerprint a name never shows, and the text of the three kinds of literal does. */
  lemma LeafShows(kind: string, s: string, t: string)
    ensures Tokens(Body(Node(kind, s, false, [])), Root, false) == Tokens(Body(Node(kind, t, false, [])), Root, false)
       <==> s == t || kind !in {"TemplateElement", "JSXText", "Literal"}
  {
    var a, b := Node(kind, s, false, []), Node(kind, t, false, []);
    var front, back := [ROpen, RKind("ExpressionStatement"), ROpen, RKind(kind)], [RClose, RClose];
    ExactLeaf(a);
    ExactLeaf(b);
    if IsIdentifier(a) {
      OneDiffers(front, RName(s, false), RName(t, false), back);
    } else if IsLiteral(a) {
      OneDiffers(front, RText(s), RText(t), back);
    }
  }

  /** `<tag>` or `</tag>` */
  function Tag(tag: string, closing: bool): Node {
    Around(if closing then "JSXClosingElement" else "JSXOpeningElement", Node("JSXIdentifier", tag, false, []))
  }

  predicate LowerCase(tag: string) { |tag| > 0 && 'a' <= tag[0] <= 'z' }

  lemma TagRaw(tag: string, closing: bool)
    ensures RawFrom(Body(Tag(tag, closing)), 0, Root, true)
         == [ROpen, RKind("ExpressionStatement"), ROpen, RKind(Tag(tag, closing).kind), ROpen, RKind("JSXIdentifier")]
            + ([RName(tag, LowerCase(tag))] + [RClose, RClose, RClose])
  {
    var n, element := Node("JSXIdentifier", tag, false, []), Tag(tag, closing);
    BodyRaw(element);
    AroundTokens(element.kind, n, At(element));
    LeafTokens(n, Under(element, 0, At(element)));
  }

  /** A tag that starts in lower case shows in the likeness; one that does not is a name like any other. */
  lemma LowerCaseTagsShow(s: string, t: string, closing: bool)
    ensures Tokens(Body(Tag(s, closing)), Root, true) == Tokens(Body(Tag(t, closing)), Root, true)
       <==> s == t || (!LowerCase(s) && !LowerCase(t))
  {
    TagRaw(s, closing);
    TagRaw(t, closing);
    OneDiffers([ROpen, RKind("ExpressionStatement"), ROpen, RKind(Tag(s, closing).kind), ROpen, RKind("JSXIdentifier")],
               RName(s, LowerCase(s)), RName(t, LowerCase(t)), [RClose, RClose, RClose]);
  }

  lemma PlainNameRaw(n: Node)
    requires IsIdentifier(n) && n.children == []
    ensures RawFrom(Body(n), 0, Root, true)
         == [ROpen, RKind("ExpressionStatement"), ROpen, RKind(n.kind)] + ([RName(n.text, false)] + [RClose, RClose])
  {
    BodyRaw(n);
    LeafTokens(n, At(n));
    assert !IsIntrinsicTag(n, At(n));
  }

  /** A JSX name anywhere else is a name like any other. */
  lemma OtherJsxNamesHide(s: string, t: string)
    ensures Tokens(Body(Node("JSXIdentifier", s, false, [])), Root, true)
         == Tokens(Body(Node("JSXIdentifier", t, false, [])), Root, true)
  {
    PlainNameRaw(Node("JSXIdentifier", s, false, []));
    PlainNameRaw(Node("JSXIdentifier", t, false, []));
    OneDiffers([ROpen, RKind("ExpressionStatement"), ROpen, RKind("JSXIdentifier")], RName(s, false), RName(t, false),
               [RClose, RClose]);
  }
}
