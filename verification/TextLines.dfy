/**
 * Text as lines.
 *
 * `Split` is the scripts' split at newlines: a text without one is a single line, and a newline at
 * the end leaves an empty last line. A chunk of text that ends in the middle of a line is gone on
 * with from that line, so splitting two chunks together is splitting the second after what the
 * first left unfinished.
 */
module TextLines {

  /** Where `c` first stands in `s`, or the length of `s`. */
  function IndexOf(s: string, c: char): (i: nat)
    ensures i <= |s|
    ensures i < |s| ==> s[i] == c
    ensures forall j :: 0 <= j < i ==> s[j] != c
  {
    if s == "" || s[0] == c then 0 else 1 + IndexOf(s[1..], c)
  }

  lemma IndexOfJoined(a: string, c: char, b: string)
    requires forall j :: 0 <= j < |a| ==> a[j] != c
    ensures IndexOf(a + [c] + b, c) == |a|
  {
    var s := a + [c] + b;
    assert s[|a|] == c;
    assert forall i :: 0 <= i < |a| ==> s[i] == a[i];
  }

  function Split(text: string): (lines: seq<string>)
    decreases |text|
  {
    var i := IndexOf(text, '\n');
    if i == |text| then [text] else [text[..i]] + Split(text[i + 1..])
  }

  predicate HasNo(s: string, c: char) { forall i :: 0 <= i < |s| ==> s[i] != c }

  lemma HasNoConcat(a: string, b: string, c: char)
    requires HasNo(a, c) && HasNo(b, c)
    ensures HasNo(a + b, c)
  {
  }

  /** The characters a regex dot does not match. */
  predicate IsLineBreak(c: char) {
    c == '\n' || c == '\r' || c == '\U{2028}' || c == '\U{2029}'
  }

  /** What a regex and `trim` take for white space. */
  predicate IsSpace(c: char) {
    IsLineBreak(c) || c == '\t' || c == '\U{0B}' || c == '\U{0C}' || c == ' ' || c == '\U{A0}' || c == '\U{1680}'
    || '\U{2000}' <= c <= '\U{200A}' || c == '\U{202F}' || c == '\U{205F}' || c == '\U{3000}' || c == '\U{FEFF}'
  }

  lemma SplitFirst(line: string, rest: string)
    requires HasNo(line, '\n')
    ensures Split(line + "\n" + rest) == [line] + Split(rest)
  {
    var text := line + "\n" + rest;
    IndexOfJoined(line, '\n', rest);
    assert text == line + ['\n'] + rest;
    assert text[..|line|] == line && text[|line| + 1..] == rest;
  }

  lemma {:induction false} SplitOnOneLine(text: string)
    ensures forall i :: 0 <= i < |Split(text)| ==> HasNo(Split(text)[i], '\n')
    decreases |text|
  {
    var i := IndexOf(text, '\n');
    if i < |text| { SplitOnOneLine(text[i + 1..]); }
  }

  /** Splitting goes on from the unfinished last line. */
  lemma {:induction false} SplitGoesOn(a: string, b: string)
    ensures var first := Split(a);
      Split(a + b) == first[..|first| - 1] + Split(first[|first| - 1] + b)
    decreases |a|
  {
    var i := IndexOf(a, '\n');
    if i == |a| {
      var first := Split(a);
      assert first == [a] && first[..0] == [];
    } else {
      var rest := a[i + 1..];
      SplitGoesOn(rest, b);
      FirstBreakStays(a, b);
      assert (a + b)[i + 1..] == rest + b && (a + b)[..i] == a[..i];
      var tail := Split(rest);
      HeadFirst(a[..i], tail, Split(tail[|tail| - 1] + b));
    }
  }

  lemma HeadFirst<T>(x: T, middle: seq<T>, end: seq<T>)
    requires middle != []
    ensures ([x] + middle)[|middle|] == middle[|middle| - 1]
    ensures ([x] + middle)[..|middle|] + end == [x] + (middle[..|middle| - 1] + end)
  {
  }

  lemma FirstBreakStays(a: string, b: string)
    requires IndexOf(a, '\n') < |a|
    ensures IndexOf(a + b, '\n') == IndexOf(a, '\n')
  {
    var i := IndexOf(a, '\n');
    assert (a + b)[i] == '\n';
    assert forall j :: 0 <= j < i ==> (a + b)[j] == a[j];
  }
}
