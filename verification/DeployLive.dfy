/**
 * The live status of a deploy phase (scripts/deploy-live.ts): rewritten when a row starts or
 * ends, and otherwise at most once a second while output arrives, without losing an update.
 *
 * What a row shows of its output comes first: chunks, unfinished lines, and what is kept of them.
 * Then the status and its timer, and every run of it.
 */
module DeployLive {
  import opened Lists
  import opened Numbers
  import opened TextLines
  import opened Wrappers

  const REWRITE_MS := 1000
  const LINE_CHARS := 400

  // ------------------------------------------------------------- a row's output

  datatype Stream = Stdout | Stderr

  /** One row: the last whole line it printed, and what each stream has printed of the next. */
  datatype Row = Row(title: string, startedAt: int, last: string, out: string, err: string)

  function Tail(s: string): string { if |s| > LINE_CHARS then s[|s| - LINE_CHARS..] else s }

  /** The last of the lines that shows as anything, or what was shown before. */
  function LastShown(lines: seq<string>, shown: string -> string, before: string): string
    decreases |lines|
  {
    if lines == [] then before
    else if shown(lines[|lines| - 1]) != "" then shown(lines[|lines| - 1])
    else LastShown(lines[..|lines| - 1], shown, before)
  }

  predicate AnyShown(lines: seq<string>, shown: string -> string) {
    exists i :: 0 <= i < |lines| && shown(lines[i]) != ""
  }

  /** A stream's unfinished line and the row's last line, after more text. */
  datatype Heard = Heard(partial: string, last: string)

  function Hear(h: Heard, text: string, shown: string -> string): Heard {
    var lines := Split(h.partial + text);
    Heard(Tail(lines[|lines| - 1]), LastShown(lines[..|lines| - 1], shown, h.last))
  }

  lemma AllButLast<T>(a: seq<T>, b: seq<T>)
    requires b != []
    ensures (a + b)[..|a + b| - 1] == a + b[..|b| - 1] && (a + b)[|a + b| - 1] == b[|b| - 1]
  {
  }

  lemma {:induction false} LastShownGoesOn(a: seq<string>, b: seq<string>, shown: string -> string, before: string)
    ensures LastShown(a + b, shown, before) == LastShown(b, shown, LastShown(a, shown, before))
    decreases |b|
  {
    if b == [] {
      assert a + b == a;
    } else {
      assert (a + b)[..|a + b| - 1] == a + b[..|b| - 1];
      LastShownGoesOn(a, b[..|b| - 1], shown, before);
    }
  }

  lemma HeardInParts(h: Heard, text: string, whole: seq<string>, more: seq<string>, shown: string -> string)
    requires more != [] && Split(h.partial + text) == whole + more
    ensures Hear(h, text, shown)
         == Heard(Tail(more[|more| - 1]), LastShown(more[..|more| - 1], shown, LastShown(whole, shown, h.last)))
  {
    AllButLast(whole, more);
    LastShownGoesOn(whole, more[..|more| - 1], shown, h.last);
  }

  lemma OpenGoesOn(partial: string, a: string, b: string)
    ensures var lines := Split(partial + a);
      Split(partial + (a + b)) == lines[..|lines| - 1] + Split(lines[|lines| - 1] + b)
  {
    SplitGoesOn(partial + a, b);
    Regroup(partial, a, b);
  }

  /** Of a chunk that more comes after, only what is kept of its unfinished line can make a difference. */
  lemma CutAtOpen(h: Heard, a: string, b: string, shown: string -> string)
    ensures var lines := Split(h.partial + a);
      var o, last := lines[|lines| - 1], LastShown(lines[..|lines| - 1], shown, h.last);
      && HasNo(o, '\n') && Hear(h, a, shown) == Heard(Tail(o), last)
      && Hear(h, a + b, shown) == Hear(Heard(o, last), b, shown)
  {
    var lines := Split(h.partial + a);
    var whole, o := lines[..|lines| - 1], lines[|lines| - 1];
    SplitOnOneLine(h.partial + a);
    OpenGoesOn(h.partial, a, b);
    HeardInParts(h, a + b, whole, Split(o + b), shown);
  }

  /** What a row shows does not depend on where its output was cut into chunks, as long as no
      unfinished line passed what is kept of one. */
  lemma ChunksDoNotMatter(h: Heard, a: string, b: string, shown: string -> string)
    requires var lines := Split(h.partial + a); |lines[|lines| - 1]| <= LINE_CHARS
    ensures Hear(Hear(h, a, shown), b, shown) == Hear(h, a + b, shown)
  {
    CutAtOpen(h, a, b, shown);
  }

  // --------------------------------------------- what a terminal shows of a line

  const ESCAPE := '\U{1B}'

  /** `[0-9;?]*` */
  function Parameters(s: string): (n: nat)
    ensures n <= |s|
  {
    if s != "" && ('0' <= s[0] <= '9' || s[0] == ';' || s[0] == '?') then 1 + Parameters(s[1..]) else 0
  }

  /** How long the escape sequence is that `s` starts with, if it starts with one. */
  function EscapeAt(s: string): (n: nat)
    ensures n <= |s|
  {
    if |s| < 2 || s[0] != ESCAPE || s[1] != '[' then 0
    else
      var n := 2 + Parameters(s[2..]);
      if n < |s| && ('a' <= s[n] <= 'z' || 'A' <= s[n] <= 'Z') then n + 1 else 0
  }

  function WithoutEscapes(s: string): string
    decreases |s|
  {
    if s == "" then ""
    else if EscapeAt(s) > 0 then WithoutEscapes(s[EscapeAt(s)..])
    else [s[0]] + WithoutEscapes(s[1..])
  }

  /** What follows the last carriage return. */
  function AfterReturn(s: string): string {
    if s == "" || s[|s| - 1] == '\r' then "" else AfterReturn(s[..|s| - 1]) + [s[|s| - 1]]
  }

  function TrimStart(s: string): (r: string)
    ensures |r| <= |s| && (|r| == |s| ==> r == s)
  {
    if s != "" && IsSpace(s[0]) then TrimStart(s[1..]) else s
  }

  function TrimEnd(s: string): (r: string)
    ensures r <= s
  {
    if s != "" && IsSpace(s[|s| - 1]) then TrimEnd(s[..|s| - 1]) else s
  }

  function First(s: string): string { if |s| > LINE_CHARS then s[..LINE_CHARS] else s }

  /** What a row shows of a line. */
  function OnTerminal(line: string): string { First(TrimEnd(TrimStart(AfterReturn(WithoutEscapes(line))))) }

  /** Text a terminal shows as it is. */
  predicate Plain(s: string) {
    HasNo(s, ESCAPE) && HasNo(s, '\r') && s != "" && !IsSpace(s[0]) && !IsSpace(s[|s| - 1])
  }

  lemma CharStays(s: string)
    requires s != "" && s[0] != ESCAPE
    ensures WithoutEscapes(s) == [s[0]] + WithoutEscapes(s[1..])
  {
  }

  lemma {:induction false} EscapesLater(p: string, x: string)
    requires HasNo(p, ESCAPE)
    ensures WithoutEscapes(p + x) == p + WithoutEscapes(x)
    decreases |p|
  {
    if p == "" {
      assert p + x == x;
    } else {
      EscapesLater(p[1..], x);
      CharStays(p + x);
      assert (p + x)[1..] == p[1..] + x;
      assert p == [p[0]] + p[1..];
      Regroup([p[0]], p[1..], WithoutEscapes(x));
    }
  }

  lemma {:induction false} NoReturn(s: string)
    requires HasNo(s, '\r')
    ensures AfterReturn(s) == s
  {
    if s != "" { NoReturn(s[..|s| - 1]); }
  }

  lemma {:induction false} ReturnsLater(p: string, y: string)
    requires HasNo(p, '\r')
    ensures AfterReturn(p + y) == if HasNo(y, '\r') then p + y else AfterReturn(y)
    decreases |y|
  {
    if y == "" {
      assert p + y == p;
      NoReturn(p);
    } else {
      var init, c := y[..|y| - 1], y[|y| - 1];
      assert y == init + [c];
      Regroup(p, init, [c]);
      assert (p + y)[..|p + y| - 1] == p + init && (p + y)[|p + y| - 1] == c;
      ReturnsLater(p, init);
      if c != '\r' && HasNo(init, '\r') { HasNoConcat(init, [c], '\r'); }
    }
  }

  lemma {:induction false} TrimStopsAt(p: string, y: string)
    requires p != "" && !IsSpace(p[|p| - 1])
    ensures p <= TrimEnd(p + y)
    decreases |y|
  {
    if y == "" {
      assert p + y == p;
    } else {
      assert (p + y)[..|p + y| - 1] == p + y[..|y| - 1];
      TrimStopsAt(p, y[..|y| - 1]);
    }
  }

  /** What is shown of a line that starts plainly, its start being as long as what is kept. */
  lemma PlainStart(p: string, x: string)
    requires Plain(p) && |p| >= LINE_CHARS
    ensures var y := WithoutEscapes(x);
      OnTerminal(p + x) == if HasNo(y, '\r') then p[..LINE_CHARS] else First(TrimEnd(TrimStart(AfterReturn(y))))
  {
    var y := WithoutEscapes(x);
    EscapesLater(p, x);
    ReturnsLater(p, y);
    if HasNo(y, '\r') { StartStays(p, y); }
  }

  lemma StartStays(p: string, y: string)
    requires p != "" && !IsSpace(p[0]) && !IsSpace(p[|p| - 1]) && |p| >= LINE_CHARS
    ensures First(TrimEnd(TrimStart(p + y))) == p[..LINE_CHARS]
  {
    assert (p + y)[0] == p[0];
    TrimStopsAt(p, y);
  }

  /** Of plain text but for its start, no less is shown than the text without that. */
  lemma PlainEnd(t: string)
    requires HasNo(t, ESCAPE) && HasNo(t, '\r') && t != "" && !IsSpace(t[|t| - 1]) && |t| <= LINE_CHARS
    ensures OnTerminal(t) != "" && (|OnTerminal(t)| == |t| ==> OnTerminal(t) == t)
  {
    EscapesLater(t, "");
    ReturnsLater(t, "");
    assert t + "" == t;
    EndStays(t);
    assert TrimEnd(TrimStart(t)) == TrimStart(t);
  }

  lemma {:induction false} EndStays(t: string)
    requires t != "" && !IsSpace(t[|t| - 1])
    ensures TrimStart(t) != "" && !IsSpace(TrimStart(t)[|TrimStart(t)| - 1])
  {
    if IsSpace(t[0]) { EndStays(t[1..]); }
  }

  // --------------------------------------------------- lines past what is kept

  lemma AtBreak(o: string, b: string, i: nat)
    requires i < |b| && b[i] == '\n'
    ensures o + b == o + b[..i] + "\n" + b[i + 1..]
  {
  }

  /** Output that ends the unfinished line, or does not. */
  lemma SplitAtBreak(o: string, b: string)
    requires HasNo(o, '\n')
    ensures var i := IndexOf(b, '\n');
      Split(o + b) == if i == |b| then [o + b] else [o + b[..i]] + Split(b[i + 1..])
  {
    var i := IndexOf(b, '\n');
    if i == |b| {
      assert HasNo(o + b, '\n');
    } else {
      HasNoConcat(o, b[..i], '\n');
      SplitFirst(o + b[..i], b[i + 1..]);
      AtBreak(o, b, i);
    }
  }

  lemma LineGoesOn(o: string, b: string, shown: string -> string, last: string)
    requires HasNo(o, '\n') && HasNo(b, '\n')
    ensures Hear(Heard(o, last), b, shown) == Heard(Tail(o + b), last)
  {
    SplitAtBreak(o, b);
    assert [o + b][..0] == [];
  }

  lemma LineEnds(o: string, b: string, i: nat, shown: string -> string, last: string)
    requires HasNo(o, '\n') && i < |b| && i == IndexOf(b, '\n')
    ensures var line, rest := shown(o + b[..i]), Split(b[i + 1..]);
      Hear(Heard(o, last), b, shown)
      == Heard(Tail(rest[|rest| - 1]), LastShown(rest[..|rest| - 1], shown, if line != "" then line else last))
  {
    SplitAtBreak(o, b);
    HeardInParts(Heard(o, last), b, [o + b[..i]], Split(b[i + 1..]), shown);
    OneShown(o + b[..i], shown, last);
  }

  lemma TailOfTail(o: string, b: string)
    ensures Tail(Tail(o) + b) == Tail(o + b)
  {
    if |o| > LINE_CHARS {
      var k := |o| - LINE_CHARS;
      assert Tail(o) + b == (o + b)[k..];
      if |b| > 0 { assert (o + b)[k..][|b|..] == (o + b)[k + |b|..]; }
    }
  }

  /** Two unfinished lines of one tail come to the same when whatever ends them shows the same. */
  lemma SameTailsHearAlike(o: string, t: string, b: string, shown: string -> string, last: string)
    requires HasNo(o, '\n') && HasNo(t, '\n') && t == Tail(o)
    requires var i := IndexOf(b, '\n'); i < |b| ==> shown(o + b[..i]) == shown(t + b[..i])
    ensures Hear(Heard(t, last), b, shown) == Hear(Heard(o, last), b, shown)
  {
    var i := IndexOf(b, '\n');
    if i == |b| {
      LineGoesOn(o, b, shown, last);
      LineGoesOn(t, b, shown, last);
      TailOfTail(o, b);
    } else {
      LineEnds(o, b, i, shown, last);
      LineEnds(t, b, i, shown, last);
    }
  }

  lemma OneShown(line: string, shown: string -> string, before: string)
    ensures LastShown([line], shown, before) == if shown(line) != "" then shown(line) else before
  {
    assert [line][..0] == [];
  }

  /** A line past what is kept of one shows by its cuts where its start is not its end: the newline
      that ends it finds only its tail when it comes in a chunk of its own. */
  lemma LongLineShowsItsCut(h: Heard, a: string, shown: string -> string)
    requires var lines := Split(h.partial + a);
      shown(lines[|lines| - 1]) != "" && shown(Tail(lines[|lines| - 1])) != ""
    ensures var lines := Split(h.partial + a);
      && Hear(Hear(h, a, shown), "\n", shown).last == shown(Tail(lines[|lines| - 1]))
      && Hear(h, a + "\n", shown).last == shown(lines[|lines| - 1])
  {
    var lines := Split(h.partial + a);
    var o := lines[|lines| - 1];
    CutAtOpen(h, a, "\n", shown);
    SplitAtBreak(o, "\n");
    SplitAtBreak(Tail(o), "\n");
    assert Split("") == [""] && "\n"[..0] == "" && o + "" == o && Tail(o) + "" == Tail(o);
    assert [o, ""][..1] == [o] && [Tail(o), ""][..1] == [Tail(o)];
  }

  /** What is kept of a line shows as the line does, however it goes on. */
  ghost predicate StartIsEnd(o: string) { |o| <= LINE_CHARS || o[..LINE_CHARS] == Tail(o) }

  /** A rule by which a long line shows as its tail does, however it goes on, if it starts as it
      ends, and otherwise shows differently. */
  ghost predicate TellsStart(o: string, shown: string -> string) {
    if StartIsEnd(o) then |o| > LINE_CHARS ==> forall x :: shown(o + x) == shown(Tail(o) + x)
    else shown(o) != "" && shown(Tail(o)) != "" && shown(o) != shown(Tail(o))
  }

  lemma CutsAreSeenIff(h: Heard, a: string, shown: string -> string)
    requires var lines := Split(h.partial + a); TellsStart(lines[|lines| - 1], shown)
    ensures var lines := Split(h.partial + a);
      (forall b :: Hear(Hear(h, a, shown), b, shown) == Hear(h, a + b, shown)) <==> StartIsEnd(lines[|lines| - 1])
  {
    var lines := Split(h.partial + a);
    var o, last := lines[|lines| - 1], LastShown(lines[..|lines| - 1], shown, h.last);
    if StartIsEnd(o) {
      forall b ensures Hear(Hear(h, a, shown), b, shown) == Hear(h, a + b, shown) {
        CutAtOpen(h, a, b, shown);
        if |o| > LINE_CHARS { SameTailsHearAlike(o, Tail(o), b, shown, last); }
      }
    } else {
      LongLineShowsItsCut(h, a, shown);
      assert Hear(Hear(h, a, shown), "\n", shown) != Hear(h, a + "\n", shown);
    }
  }

  lemma TextTells(o: string)
    ensures TellsStart(o, First)
  {
    if |o| > LINE_CHARS && StartIsEnd(o) {
      forall x ensures First(o + x) == First(Tail(o) + x) { FirstOfLong(o, x); FirstOfLong(Tail(o), x); }
    }
  }

  lemma FirstOfLong(p: string, x: string)
    requires |p| >= LINE_CHARS
    ensures First(p + x) == p[..LINE_CHARS]
  {
    assert (p + x)[..LINE_CHARS] == p[..LINE_CHARS];
  }

  lemma TailShowsAlike(o: string)
    requires |o| > LINE_CHARS && Plain(o) && StartIsEnd(o)
    ensures forall x :: OnTerminal(o + x) == OnTerminal(Tail(o) + x)
  {
    var t := Tail(o);
    assert t[0] == o[..LINE_CHARS][0] && t[|t| - 1] == o[|o| - 1];
    assert Plain(t) && t[..LINE_CHARS] == t;
    forall x ensures OnTerminal(o + x) == OnTerminal(t + x) {
      PlainStart(o, x);
      PlainStart(t, x);
    }
  }

  lemma LongShows(o: string)
    requires |o| > LINE_CHARS && Plain(o) && !StartIsEnd(o)
    ensures OnTerminal(o) == o[..LINE_CHARS] && OnTerminal(Tail(o)) != "" && OnTerminal(Tail(o)) != OnTerminal(o)
  {
    PlainStart(o, "");
    assert o + "" == o;
    PlainEnd(Tail(o));
  }

  lemma PlainTells(o: string)
    requires |o| > LINE_CHARS ==> Plain(o)
    ensures TellsStart(o, OnTerminal)
  {
    if |o| > LINE_CHARS {
      if StartIsEnd(o) { TailShowsAlike(o); } else { LongShows(o); }
    }
  }

  /** For text kept as it is: cuts are never seen if and only if the unfinished line is no longer
      than what is kept of one, or starts as it ends. */
  lemma CutsOfTextIff(h: Heard, a: string)
    ensures var lines := Split(h.partial + a);
      (forall b :: Hear(Hear(h, a, First), b, First) == Hear(h, a + b, First)) <==> StartIsEnd(lines[|lines| - 1])
  {
    var lines := Split(h.partial + a);
    TextTells(lines[|lines| - 1]);
    CutsAreSeenIff(h, a, First);
  }

  /** As a terminal shows lines, with a long unfinished line that is plain so far: the same, whatever
      comes next, escapes and carriage returns included. */
  lemma ChunksDoNotMatterIff(h: Heard, a: string)
    requires var lines := Split(h.partial + a); |lines[|lines| - 1]| > LINE_CHARS ==> Plain(lines[|lines| - 1])
    ensures var lines := Split(h.partial + a);
      (forall b :: Hear(Hear(h, a, OnTerminal), b, OnTerminal) == Hear(h, a + b, OnTerminal))
      <==> StartIsEnd(lines[|lines| - 1])
  {
    var lines := Split(h.partial + a);
    PlainTells(lines[|lines| - 1]);
    CutsAreSeenIff(h, a, OnTerminal);
  }

  function Repeated(c: char, n: nat): string { seq(n, _ => c) }

  /** One letter more than is kept, heard before its newline and with it. */
  lemma CutIsSeen()
    ensures var h, a := Heard("", ""), "b" + Repeated('a', LINE_CHARS);
      && Hear(Hear(h, a, OnTerminal), "\n", OnTerminal).last == Repeated('a', LINE_CHARS)
      && Hear(h, a + "\n", OnTerminal).last == "b" + Repeated('a', LINE_CHARS - 1)
  {
    var h, t := Heard("", ""), Repeated('a', LINE_CHARS);
    var a := "b" + t;
    assert "" + a == a && Tail(a) == t;
    assert a[..LINE_CHARS] == "b" + Repeated('a', LINE_CHARS - 1) && t[..LINE_CHARS] == t;
    ShownWhole(a);
    ShownWhole(t);
    SplitAtBreak(a, "");
    assert a + "" == a;
    LongLineShowsItsCut(h, a, OnTerminal);
  }

  lemma ShownWhole(line: string)
    requires |line| >= LINE_CHARS && forall i :: 0 <= i < |line| ==> 'a' <= line[i] <= 'z'
    ensures Plain(line) && OnTerminal(line) == line[..LINE_CHARS]
  {
    PlainStart(line, "");
    assert line + "" == line;
  }

  // ------------------------------------------------------------------ the status

  /** What the file says of one row. */
  datatype Shown = Shown(title: string, startedAt: int, last: string)

  datatype File = File(at: int, ended: bool, rows: map<nat, Shown>)

  /** A rewrite, and whether only output brought it about. */
  datatype Rewrite = Rewrite(at: int, forOutput: bool)

  /** `rows` holds every row there was, in the order they started; `running` those not ended.
      `due` is when the armed timer fires. */
  datatype Status = Status(
    rows: seq<Row>, running: set<nat>, writtenAt: Option<int>, due: Option<int>, closed: bool,
    file: Option<File>, rewrites: seq<Rewrite>)

  const START := Status([], {}, None, None, false, None, [])

  datatype Event =
    | Started(title: string, at: int)
    | Output(id: nat, text: string, from: Stream, at: int)
    | Ended(id: nat, at: int)
    | Fires(at: int)
    | Closes(at: int)

  function Lines(s: Status): map<nat, Shown> {
    map id | id in s.running && id < |s.rows| :: Shown(s.rows[id].title, s.rows[id].startedAt, s.rows[id].last)
  }

  function Written(s: Status, now: int, ending: bool, forOutput: bool): Status {
    if s.closed then s
    else s.(due := None, writtenAt := Some(now), file := Some(File(now, ending, Lines(s))),
            rewrites := s.rewrites + [Rewrite(now, forOutput)])
  }

  function Soon(s: Status, now: int): Status {
    if s.due.Some? || s.closed then s
    else s.(due := Some(if s.writtenAt.None? then now else now + Max(0, s.writtenAt.value + REWRITE_MS - now)))
  }

  function HeardOf(r: Row, from: Stream): Heard { Heard(if from.Stdout? then r.out else r.err, r.last) }

  /** Some whole line of the text, with what stood before it, shows as anything. */
  predicate Says(r: Row, text: string, from: Stream, shown: string -> string) {
    var lines := Split(HeardOf(r, from).partial + text);
    AnyShown(lines[..|lines| - 1], shown)
  }

  function RowAfter(r: Row, text: string, from: Stream, shown: string -> string): Row {
    var h := Hear(HeardOf(r, from), text, shown);
    if from.Stdout? then r.(out := h.partial, last := h.last) else r.(err := h.partial, last := h.last)
  }

  /** A row after text, by how the text splits. */
  lemma RowParts(r: Row, text: string, from: Stream, shown: string -> string, lines: seq<string>, last: string)
    requires lines == Split((if from.Stdout? then r.out else r.err) + text)
    requires last == if AnyShown(lines[..|lines| - 1], shown) then LastShown(lines[..|lines| - 1], shown, r.last) else r.last
    ensures Says(r, text, from, shown) <==> AnyShown(lines[..|lines| - 1], shown)
    ensures RowAfter(r, text, from, shown)
         == if from.Stdout? then r.(out := Tail(lines[|lines| - 1]), last := last)
            else r.(err := Tail(lines[|lines| - 1]), last := last)
  {
    if !AnyShown(lines[..|lines| - 1], shown) { NothingShown(lines[..|lines| - 1], shown, r.last); }
  }

  predicate Enabled(s: Status, e: Event) {
    match e
    case Output(id, _, _, _) => id < |s.rows|
    case Ended(id, _) => id < |s.rows|
    case Fires(at) => s.due.Some? && at >= s.due.value
    case _ => true
  }

  function Step(s: Status, e: Event, shown: string -> string): Status
    requires Enabled(s, e)
  {
    match e
    case Started(title, at) =>
      Written(s.(rows := s.rows + [Row(title, at, "", "", "")], running := s.running + {|s.rows|}), at, false, false)
    case Output(id, text, from, at) =>
      var t := s.(rows := s.rows[id := RowAfter(s.rows[id], text, from, shown)]);
      if Says(s.rows[id], text, from, shown) then Soon(t, at) else t
    case Ended(id, at) => Written(s.(running := s.running - {id}), at, false, false)
    case Fires(at) => Written(s.(due := None), at, false, true)
    case Closes(at) => Written(s, at, true, false).(closed := true)
  }

  class DeployLive {
    const shown: string -> string
    var rows: seq<Row>
    var running: set<nat>
    var writtenAt: Option<int>
    var due: Option<int>
    var closed: bool
    var file: Option<File>
    ghost var rewrites: seq<Rewrite>

    ghost function Contents(): Status
      reads this
    {
      Status(rows, running, writtenAt, due, closed, file, rewrites)
    }

    constructor (shown: string -> string)
      ensures this.shown == shown && Contents() == START
    {
      this.shown := shown;
      rows, running, writtenAt, due, closed, file := [], {}, None, None, false, None;
      rewrites := [];
    }

    method Write(now: int, ending: bool, ghost forOutput: bool)
      modifies this
      ensures Contents() == Written(old(Contents()), now, ending, forOutput)
    {
      if closed { return; }
      due := None;
      var status := map id | id in running && id < |rows| :: rows[id];
      file := Some(File(now, ending, map id | id in status :: Shown(status[id].title, status[id].startedAt, status[id].last)));
      writtenAt := Some(now);
      rewrites := rewrites + [Rewrite(now, forOutput)];
      assert file.value.rows == Lines(old(Contents()));
    }

    method ArmSoon(now: int)
      modifies this
      ensures Contents() == Soon(old(Contents()), now)
    {
      if due.Some? || closed { return; }
      var wait := if writtenAt.None? then 0 else Max(0, writtenAt.value + REWRITE_MS - now);
      due := Some(now + wait);
    }

    method Start(title: string, now: int) returns (id: nat)
      modifies this
      ensures Contents() == Step(old(Contents()), Started(title, now), shown) && id == |old(rows)|
    {
      id := |rows|;
      rows := rows + [Row(title, now, "", "", "")];
      running := running + {id};
      Write(now, false, false);
    }

    method Hears(id: nat, text: string, from: Stream, now: int)
      requires id < |rows|
      modifies this
      ensures Contents() == Step(old(Contents()), Output(id, text, from, now), shown)
    {
      var row := rows[id];
      var lines := Split((if from.Stdout? then row.out else row.err) + text);
      var open, whole := Tail(lines[|lines| - 1]), lines[..|lines| - 1];
      var anyShown := AnyShown(whole, shown);
      var last := if anyShown then LastShown(whole, shown, row.last) else row.last;
      RowParts(row, text, from, shown, lines, last);
      rows := rows[id := if from.Stdout? then row.(out := open, last := last) else row.(err := open, last := last)];
      if anyShown {
        ArmSoon(now);
      }
    }

    method End(id: nat, now: int)
      requires id < |rows|
      modifies this
      ensures Contents() == Step(old(Contents()), Ended(id, now), shown)
    {
      running := running - {id};
      Write(now, false, false);
    }

    /** The armed timer's callback. */
    method TimerFires(now: int)
      requires due.Some? && now >= due.value
      modifies this
      ensures Contents() == Step(old(Contents()), Fires(now), shown)
    {
      due := None;
      Write(now, false, true);
    }

    method Close(now: int)
      modifies this
      ensures Contents() == Step(old(Contents()), Closes(now), shown)
    {
      Write(now, true, false);
      closed := true;
    }
  }

  lemma {:induction false} NothingShown(lines: seq<string>, shown: string -> string, before: string)
    requires !AnyShown(lines, shown)
    ensures LastShown(lines, shown, before) == before
    decreases |lines|
  {
    if lines != [] {
      assert shown(lines[|lines| - 1]) == "";
      NothingShown(lines[..|lines| - 1], shown, before);
    }
  }

  // ------------------------------------------------------------------ whole runs

  ghost predicate Behaviour(es: seq<Event>, shown: string -> string)
    decreases |es|, 0
  {
    es == [] || (Behaviour(es[..|es| - 1], shown) && Enabled(Run(es[..|es| - 1], shown), es[|es| - 1]))
  }

  ghost function Run(es: seq<Event>, shown: string -> string): Status
    requires Behaviour(es, shown)
    decreases |es|, 1
  {
    if es == [] then START else Step(Run(es[..|es| - 1], shown), es[|es| - 1], shown)
  }

  ghost predicate Clocked(es: seq<Event>) {
    forall i, j :: 0 <= i < j < |es| ==> es[i].at <= es[j].at
  }

  /** The file says what the rows running have printed. */
  predicate UpToDate(s: Status) {
    if s.file.None? then s.running == {} else s.file.value.rows == Lines(s) && !s.file.value.ended
  }

  /** What every run keeps, `now` being the time of its last event. */
  ghost predicate Keeps(s: Status, now: int) {
    && (forall id :: id in s.running ==> id < |s.rows|)
    && (s.writtenAt.None? <==> s.file.None?)
    && (s.writtenAt.None? <==> s.rewrites == [])
    && (s.writtenAt.Some? ==> s.writtenAt.value <= now && s.rewrites[|s.rewrites| - 1].at == s.writtenAt.value)
    && (s.rows != [] && !s.closed ==> s.writtenAt.Some?)
    // an update not yet written is on a timer, which waits out the second and no longer
    && (!s.closed && s.due.None? ==> UpToDate(s))
    && (s.due.Some? ==> s.writtenAt.Some? && s.writtenAt.value + REWRITE_MS <= s.due.value)
    && (s.due.Some? ==> s.due.value <= now + REWRITE_MS)
    && (forall i :: 0 < i < |s.rewrites| && s.rewrites[i].forOutput ==>
          s.rewrites[i].at >= s.rewrites[i - 1].at + REWRITE_MS)
    && (s.rewrites != [] ==> !s.rewrites[0].forOutput)
    && (s.closed ==> s.due.None?)
  }

  lemma StepKeeps(s: Status, now: int, e: Event, shown: string -> string)
    requires Keeps(s, now) && now <= e.at && Enabled(s, e)
    ensures Keeps(Step(s, e, shown), e.at)
  {
    match e
    case Started(title, at) =>
    case Ended(id, at) => 
    case Fires(at) => 
    case Closes(at) => 
    case Output(id, text, from, at) => OutputKeeps(s, now, e, shown);
  }

  lemma OutputKeeps(s: Status, now: int, e: Event, shown: string -> string)
    requires Keeps(s, now) && now <= e.at && Enabled(s, e) && e.Output?
    ensures Keeps(Step(s, e, shown), e.at)
  {
    var row := s.rows[e.id];
    var lines := Split(HeardOf(row, e.from).partial + e.text);
    if !Says(row, e.text, e.from, shown) {
      NothingShown(lines[..|lines| - 1], shown, row.last);
      assert Lines(Step(s, e, shown)) == Lines(s);
    }
  }

  lemma {:induction false} RunKeeps(es: seq<Event>, start: int, shown: string -> string)
    requires Behaviour(es, shown) && Clocked(es)
    requires es != [] ==> start <= es[0].at
    ensures Keeps(Run(es, shown), if es == [] then start else es[|es| - 1].at)
    decreases |es|
  {
    if es != [] {
      var init := es[..|es| - 1];
      RunKeeps(init, start, shown);
      StepKeeps(Run(init, shown), if init == [] then start else init[|init| - 1].at, es[|es| - 1], shown);
    }
  }

  /** No update is lost: while open, either the file says what the running rows printed, or a timer
      will rewrite it within the second. */
  lemma NoLostUpdate(es: seq<Event>, shown: string -> string)
    requires Behaviour(es, shown) && Clocked(es) && es != []
    ensures var s := Run(es, shown); !s.closed ==>
      UpToDate(s) || (s.due.Some? && s.due.value <= es[|es| - 1].at + REWRITE_MS)
  {
    RunKeeps(es, es[0].at, shown);
  }

  /** An armed timer stands until a rewrite, and every rewrite brings the file up to date. */
  lemma DueStands(s: Status, e: Event, shown: string -> string)
    requires Enabled(s, e) && s.due.Some? && !s.closed
    ensures var t := Step(s, e, shown);
      || t.due == s.due
      || (t.due.None? && t.rewrites == s.rewrites + [Rewrite(e.at, e.Fires?)] && t.file.Some?
          && t.file.value.rows == Lines(t))
  {
  }

  /** Output alone never rewrites the file within a second of the rewrite before. */
  lemma OutputIsThrottled(es: seq<Event>, shown: string -> string, i: nat)
    requires Behaviour(es, shown) && Clocked(es)
    requires i < |Run(es, shown).rewrites| && Run(es, shown).rewrites[i].forOutput
    ensures i > 0 && Run(es, shown).rewrites[i].at >= Run(es, shown).rewrites[i - 1].at + REWRITE_MS
  {
    RunKeeps(es, if es == [] then 0 else es[0].at, shown);
  }

  lemma {:induction false} ClosedForGood(es: seq<Event>, n: nat, shown: string -> string)
    requires Behaviour(es, shown) && n <= |es|
    ensures Behaviour(es[..n], shown)
    ensures Run(es[..n], shown).closed ==> Run(es, shown).closed && Run(es, shown).file == Run(es[..n], shown).file
    decreases |es|
  {
    if n == |es| {
      assert es[..n] == es;
    } else {
      var init := es[..|es| - 1];
      ClosedForGood(init, n, shown);
      assert init[..n] == es[..n];
    }
  }

  /** The file's last word is what was running when the phase closed it, whatever comes after. */
  lemma ClosingIsFinal(es: seq<Event>, n: nat, shown: string -> string)
    requires Behaviour(es, shown) && n < |es| && es[n].Closes?
    ensures Behaviour(es[..n], shown)
    ensures !Run(es[..n], shown).closed ==>
      Run(es, shown).file == Some(File(es[n].at, true, Lines(Run(es[..n], shown))))
  {
    ClosedForGood(es, n + 1, shown);
    ClosedForGood(es, n, shown);
    assert es[..n + 1][..n] == es[..n];
  }
}
