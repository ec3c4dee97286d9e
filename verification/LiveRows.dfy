/**
 * What the live status of a deploy phase says (scripts/deploy-live.ts), read off the events: which
 * rows the file lists, what it says of each, and what a chunk of output changes.
 *
 * A row's number is its place among the starts. It runs from its start to its end, whatever it
 * prints and whether or not the phase was closed in between.
 */
module LiveRows {
  import opened DeployLive
  import opened Numbers
  import opened TextLines
  import opened Wrappers

  /** The rows' starts, in order; a row's number is its place among them. */
  function Starts(es: seq<Event>): seq<Event>
    decreases |es|
  {
    if es == [] then []
    else Starts(es[..|es| - 1]) + if es[|es| - 1].Started? then [es[|es| - 1]] else []
  }

  lemma {:induction false} StartsStart(es: seq<Event>)
    ensures forall id :: 0 <= id < |Starts(es)| ==> Starts(es)[id].Started?
    decreases |es|
  {
    if es != [] { StartsStart(es[..|es| - 1]); }
  }

  ghost predicate HasEnded(es: seq<Event>, id: nat) {
    exists k :: 0 <= k < |es| && es[k].Ended? && es[k].id == id
  }

  /** The row started and has not ended. */
  ghost predicate IsRunning(es: seq<Event>, id: nat) { id < |Starts(es)| && !HasEnded(es, id) }

  ghost predicate RowsFit(s: Status, es: seq<Event>) {
    && |s.rows| == |Starts(es)|
    && (forall id: nat :: id < |s.rows| && Starts(es)[id].Started? ==>
          s.rows[id].title == Starts(es)[id].title && s.rows[id].startedAt == Starts(es)[id].at)
    && (forall id: nat :: id in s.running <==> IsRunning(es, id))
    && (forall id: nat :: HasEnded(es, id) ==> id < |s.rows|)
  }

  lemma EndedSnoc(es: seq<Event>, id: nat)
    requires es != []
    ensures var e := es[|es| - 1]; HasEnded(es, id) <==> HasEnded(es[..|es| - 1], id) || (e.Ended? && e.id == id)
  {
    var init := es[..|es| - 1];
    if HasEnded(es, id) {
      var k :| 0 <= k < |es| && es[k].Ended? && es[k].id == id;
      if k < |init| { assert init[k].Ended? && init[k].id == id; }
    }
    if HasEnded(init, id) {
      var k :| 0 <= k < |init| && init[k].Ended? && init[k].id == id;
      assert es[k].Ended? && es[k].id == id;
    }
  }

  /** How an event changes which rows there are and which run. */
  lemma StepRows(s: Status, e: Event, shown: string -> string)
    requires Enabled(s, e)
    ensures var t := Step(s, e, shown);
      && |t.rows| == |s.rows| + (if e.Started? then 1 else 0)
      && (forall id :: 0 <= id < |s.rows| ==>
            t.rows[id].title == s.rows[id].title && t.rows[id].startedAt == s.rows[id].startedAt)
      && (e.Started? ==> t.rows[|s.rows|].title == e.title && t.rows[|s.rows|].startedAt == e.at)
      && t.running == if e.Started? then s.running + {|s.rows|} else if e.Ended? then s.running - {e.id} else s.running
  {
  }

  lemma StartsSnoc(es: seq<Event>)
    requires es != []
    ensures |Starts(es)| == |Starts(es[..|es| - 1])| + if es[|es| - 1].Started? then 1 else 0
  {
  }

  lemma RunningFits(s: Status, es: seq<Event>, e: Event, now: set<nat>, id: nat)
    requires es != [] && e == es[|es| - 1] && |Starts(es)| == |s.rows| + if e.Started? then 1 else 0
    requires id in s.running <==> id < |s.rows| && !HasEnded(es[..|es| - 1], id)
    requires (HasEnded(es[..|es| - 1], id) ==> id < |s.rows|) && (e.Ended? ==> e.id < |s.rows|)
    requires now == if e.Started? then s.running + {|s.rows|} else if e.Ended? then s.running - {e.id} else s.running
    ensures id in now <==> IsRunning(es, id)
    ensures HasEnded(es, id) ==> id < |Starts(es)|
  {
    EndedSnoc(es, id);
  }

  lemma StepFits(s: Status, es: seq<Event>, shown: string -> string)
    requires es != [] && RowsFit(s, es[..|es| - 1]) && Enabled(s, es[|es| - 1])
    ensures RowsFit(Step(s, es[|es| - 1], shown), es)
  {
    var t := Step(s, es[|es| - 1], shown);
    StepRows(s, es[|es| - 1], shown);
    StartsSnoc(es);
    forall id: nat
      ensures id in t.running <==> IsRunning(es, id)
      ensures HasEnded(es, id) ==> id < |Starts(es)|
    {
      assert id in s.running <==> IsRunning(es[..|es| - 1], id);
      RunningFits(s, es, es[|es| - 1], t.running, id);
    }
  }

  /** The rows are those started, and the running ones those started and not ended. */
  lemma {:induction false} RowsAreRead(es: seq<Event>, shown: string -> string)
    requires Behaviour(es, shown)
    ensures RowsFit(Run(es, shown), es)
    decreases |es|
  {
    if es != [] {
      RowsAreRead(es[..|es| - 1], shown);
      StepFits(Run(es[..|es| - 1], shown), es, shown);
    }
  }

  /** The file lists the running rows: each with its title, when it started, and its last line. */
  ghost predicate Lists(f: File, es: seq<Event>, rows: seq<Row>) {
    && |rows| == |Starts(es)|
    && (forall id: nat :: id in f.rows <==> IsRunning(es, id))
    && (forall id: nat :: id in f.rows && id < |rows| && Starts(es)[id].Started? ==>
          f.rows[id] == Shown(Starts(es)[id].title, Starts(es)[id].at, rows[id].last))
  }

  lemma LinesList(s: Status, es: seq<Event>, at: int, ended: bool)
    requires RowsFit(s, es)
    ensures Lists(File(at, ended, Lines(s)), es, s.rows)
  {
  }

  lemma StepWrites(s: Status, e: Event, shown: string -> string)
    requires Enabled(s, e) && !s.closed && !e.Output?
    ensures var t := Step(s, e, shown);
      t.file == Some(File(e.at, e.Closes?, Lines(t))) && t.due.None? && t.writtenAt == Some(e.at)
  {
  }

  /** A start, an end, the timer and the closing each bring the open file up to date at once; output
      leaves it alone. */
  lemma FileIsRead(es: seq<Event>, shown: string -> string)
    requires Behaviour(es, shown) && es != []
    requires !Run(es[..|es| - 1], shown).closed
    ensures var (e, s) := (es[|es| - 1], Run(es, shown));
      if e.Output? then s.file == Run(es[..|es| - 1], shown).file
      else s.file.Some? && s.file.value.at == e.at && s.file.value.ended == e.Closes? && Lists(s.file.value, es, s.rows)
           && s.due.None? && s.writtenAt == Some(e.at)
  {
    var e, s := es[|es| - 1], Run(es, shown);
    if !e.Output? {
      RowsAreRead(es, shown);
      LinesList(s, es, e.at, e.Closes?);
      StepWrites(Run(es[..|es| - 1], shown), e, shown);
    }
  }

  /** Nothing but the closing closes, and then nothing more is written. */
  lemma ClosedIsRead(s: Status, e: Event, shown: string -> string)
    requires Enabled(s, e)
    ensures Step(s, e, shown).closed <==> s.closed || e.Closes?
    ensures s.closed ==> Step(s, e, shown).file == s.file && Step(s, e, shown).rewrites == s.rewrites
  {
  }

  // ------------------------------------------------------------- a chunk of output

  /** `text` is what shows of the last of the lines that shows as anything. */
  ghost predicate ShowsLast(lines: seq<string>, shown: string -> string, text: string) {
    exists i :: 0 <= i < |lines| && shown(lines[i]) == text && text != ""
                && forall j :: i < j < |lines| ==> shown(lines[j]) == ""
  }

  lemma EmptyLineOn(lines: seq<string>, line: string, shown: string -> string, text: string)
    requires ShowsLast(lines, shown, text) && shown(line) == ""
    ensures ShowsLast(lines + [line], shown, text)
  {
    var i :| 0 <= i < |lines| && shown(lines[i]) == text && text != ""
             && forall j :: i < j < |lines| ==> shown(lines[j]) == "";
    var more := lines + [line];
    assert more[i] == lines[i];
    forall j | i < j < |more| ensures shown(more[j]) == "" {
      if j < |lines| { assert more[j] == lines[j]; }
    }
  }

  lemma {:induction false} LastShownIs(lines: seq<string>, shown: string -> string, before: string)
    requires AnyShown(lines, shown)
    ensures ShowsLast(lines, shown, LastShown(lines, shown, before))
    decreases |lines|
  {
    var init, last := lines[..|lines| - 1], lines[|lines| - 1];
    assert lines == init + [last];
    if shown(last) == "" {
      var k :| 0 <= k < |lines| && shown(lines[k]) != "";
      assert init[k] == lines[k];
      LastShownIs(init, shown, before);
      EmptyLineOn(init, last, shown, LastShown(init, shown, before));
    }
  }

  /** The last characters of a line, as many as are kept. */
  ghost predicate IsEnd(kept: string, line: string) {
    kept == if |line| <= 400 then line else line[|line| - 400..]
  }

  /** What a chunk makes of its row: it goes on from the unfinished line of its own stream. Of the lines
      it ends, the last that shows as anything is the row's last line; the end of what is left
      unfinished is kept. */
  ghost predicate Chunk(r: Row, q: Row, lines: seq<string>, from: Stream, shown: string -> string)
    requires lines != []
  {
    && q.title == r.title && q.startedAt == r.startedAt
    && IsEnd(if from.Stdout? then q.out else q.err, lines[|lines| - 1])
    && (if from.Stdout? then q.err == r.err else q.out == r.out)
    && var whole := lines[..|lines| - 1];
       if exists i :: 0 <= i < |whole| && shown(whole[i]) != "" then ShowsLast(whole, shown, q.last) else q.last == r.last
  }

  lemma RowIsRead(r: Row, text: string, from: Stream, shown: string -> string, lines: seq<string>)
    requires lines == Split((if from.Stdout? then r.out else r.err) + text)
    ensures Chunk(r, RowAfter(r, text, from, shown), lines, from, shown)
  {
    var whole := lines[..|lines| - 1];
    var last := if AnyShown(whole, shown) then LastShown(whole, shown, r.last) else r.last;
    RowParts(r, text, from, shown, lines, last);
    if AnyShown(whole, shown) { LastShownIs(whole, shown, r.last); }
  }

  lemma OutputIsRead(s: Status, e: Event, shown: string -> string)
    requires Enabled(s, e) && e.Output?
    ensures var (t, r) := (Step(s, e, shown), s.rows[e.id]);
      && |t.rows| == |s.rows| && (forall id :: 0 <= id < |s.rows| && id != e.id ==> t.rows[id] == s.rows[id])
      && t.running == s.running
      && Chunk(r, t.rows[e.id], Split((if e.from.Stdout? then r.out else r.err) + e.text), e.from, shown)
  {
    var r := s.rows[e.id];
    RowIsRead(r, e.text, e.from, shown, Split((if e.from.Stdout? then r.out else r.err) + e.text));
  }

  /** A shown line arms one timer, a second after the last rewrite or at once; nothing else does. */
  lemma OutputArms(s: Status, e: Event, shown: string -> string)
    requires Enabled(s, e) && e.Output?
    ensures var (t, r) := (Step(s, e, shown), s.rows[e.id]);
      var lines := Split((if e.from.Stdout? then r.out else r.err) + e.text);
      if s.due.Some? || s.closed || !AnyShown(lines[..|lines| - 1], shown) then t.due == s.due
      else t.due == Some(if s.writtenAt.None? || s.writtenAt.value + 1000 < e.at then e.at else s.writtenAt.value + 1000)
  {
    var r := s.rows[e.id];
    var lines := Split((if e.from.Stdout? then r.out else r.err) + e.text);
    SaysWhenShown(r, e.text, e.from, shown, lines);
    StepArms(s, e, shown);
  }

  lemma SaysWhenShown(r: Row, text: string, from: Stream, shown: string -> string, lines: seq<string>)
    requires lines == Split((if from.Stdout? then r.out else r.err) + text)
    ensures Says(r, text, from, shown) <==> AnyShown(lines[..|lines| - 1], shown)
  {
  }

  lemma StepArms(s: Status, e: Event, shown: string -> string)
    requires Enabled(s, e) && e.Output?
    ensures Step(s, e, shown).due == if Says(s.rows[e.id], e.text, e.from, shown) then Soon(s, e.at).due else s.due
  {
  }

  // ---------------------------------------------------------- what a terminal shows

  /** A colour or cursor sequence is dropped wherever it stands. */
  lemma SequenceIsDropped(parameters: string, letter: char, rest: string)
    requires forall i :: 0 <= i < |parameters| ==> parameters[i] == ';' || parameters[i] == '?' || '0' <= parameters[i] <= '9'
    requires 'a' <= letter <= 'z' || 'A' <= letter <= 'Z'
    ensures WithoutEscapes("\U{1B}[" + parameters + [letter] + rest) == WithoutEscapes(rest)
  {
    var s := "\U{1B}[" + parameters + [letter] + rest;
    assert s[2..] == parameters + [letter] + rest;
    ParametersEnd(parameters, letter, rest);
    var n := |parameters| + 2;
    assert s[n] == letter && s[n + 1..] == rest;
    assert EscapeAt(s) == n + 1;
  }

  lemma {:induction false} ParametersEnd(parameters: string, letter: char, rest: string)
    requires forall i :: 0 <= i < |parameters| ==> parameters[i] == ';' || parameters[i] == '?' || '0' <= parameters[i] <= '9'
    requires 'a' <= letter <= 'z' || 'A' <= letter <= 'Z'
    ensures Parameters(parameters + [letter] + rest) == |parameters|
    decreases |parameters|
  {
    var s := parameters + [letter] + rest;
    if parameters != [] {
      assert s[0] == parameters[0] && s[1..] == parameters[1..] + [letter] + rest;
      ParametersEnd(parameters[1..], letter, rest);
    } else {
      assert s[0] == letter;
    }
  }

  /** Only what follows the last carriage return shows. */
  lemma ReturnStartsOver(before: string, line: string)
    requires HasNo(before, ESCAPE) && Plain(line) && |line| <= 400
    ensures OnTerminal(before + "\r" + line) == line
  {
    HasNoConcat(before, "\r", ESCAPE);
    HasNoConcat(before + "\r", line, ESCAPE);
    NoEscapes(before + "\r" + line);
    AfterLastReturn(before, line);
    Trimmed(line);
  }

  /** White space at the ends does not show. */
  lemma EndsAreTrimmed(line: string)
    requires Plain(line) && |line| <= 400
    ensures OnTerminal(" " + (line + " ")) == line
  {
    var spaced := " " + (line + " ");
    HasNoConcat(line, " ", ESCAPE);
    HasNoConcat(" ", line + " ", ESCAPE);
    HasNoConcat(line, " ", '\r');
    HasNoConcat(" ", line + " ", '\r');
    NoEscapes(spaced);
    NoReturn(spaced);
    SpacesTrimmed(line);
  }

  lemma SpacesTrimmed(line: string)
    requires line != "" && !IsSpace(line[0]) && !IsSpace(line[|line| - 1])
    ensures TrimEnd(TrimStart(" " + (line + " "))) == line
  {
    var spaced, ended := " " + (line + " "), line + " ";
    assert spaced[1..] == ended && ended[0] == line[0];
    assert TrimStart(ended) == ended;
    assert ended[..|line|] == line && ended[|line|] == ' ';
    Trimmed(line);
  }

  lemma NoEscapes(s: string)
    requires HasNo(s, ESCAPE)
    ensures WithoutEscapes(s) == s
  {
    EscapesLater(s, "");
    assert s + "" == s;
  }

  lemma Trimmed(line: string)
    requires line != "" && !IsSpace(line[0]) && !IsSpace(line[|line| - 1])
    ensures TrimEnd(TrimStart(line)) == line
  {
  }

  lemma {:induction false} AfterLastReturn(before: string, line: string)
    requires HasNo(line, '\r')
    ensures AfterReturn(before + "\r" + line) == line
    decreases |line|
  {
    var s := before + "\r" + line;
    if line != "" {
      var init := line[..|line| - 1];
      assert s[..|s| - 1] == before + "\r" + init && s[|s| - 1] == line[|line| - 1];
      AfterLastReturn(before, init);
    }
  }
}
