/**
 * A whole tracefile, read off its lines (scripts/coverage-lcov.ts): which records a parse yields,
 * where it fails and with what, and which lines a record prints.
 *
 * A record goes from a line that names a file to the next such line, the next end, or the end of
 * the text. The parser in `LcovText` finds this out one line at a time.
 */
module LcovRecords {
  import opened LcovLines
  import opened LcovText
  import opened Lists
  import opened TextLines
  import opened Wrappers

  // ------------------------------------------------------------ the hits counted

  function HitsAt<K>(data: seq<Datum<K>>): set<nat> { set i: nat | i < |data| && data[i].count > 0 }

  lemma {:induction false} HitsAreCounted<K>(data: seq<Datum<K>>)
    ensures Hits(data) == |HitsAt(data)|
  {
    if data == [] {
      assert HitsAt(data) == {};
    } else {
      var rest := data[1..];
      HitsAreCounted(rest);
      HitsShift(data);
    }
  }

  lemma HitsShift<K>(data: seq<Datum<K>>)
    requires data != []
    ensures |HitsAt(data)| == (if data[0].count > 0 then 1 else 0) + |HitsAt(data[1..])|
  {
    var later, moved := HitsAt(data[1..]), HitsAt(data) - {0};
    forall i: nat ensures i in later <==> i + 1 in moved {
      if i + 1 < |data| { assert data[1..][i] == data[i + 1]; }
    }
    ShiftKeepsSize(later, moved);
    if data[0].count > 0 { assert HitsAt(data) == {0} + moved; } else { assert HitsAt(data) == moved; }
  }

  lemma {:induction false} ShiftKeepsSize(s: set<nat>, t: set<nat>)
    requires 0 !in t && forall i: nat :: i in s <==> i + 1 in t
    ensures |s| == |t|
    decreases |s|
  {
    forall k | k in t ensures k > 0 && k - 1 in s {
      assert k != 0;
      var i: nat := k - 1;
      assert i in s <==> i + 1 in t;
    }
    if s == {} {
      assert t == {};
    } else {
      var i :| i in s;
      ShiftKeepsSize(s - {i}, t - {i + 1});
    }
  }

  /** A section lists its items; its totals count them, or are those declared when there are none. */
  ghost predicate Counts<K>(s: Section<K>, data: seq<Datum<K>>, found: nat, hit: nat) {
    && s.data == data
    && s.found == (if data != [] then |data| else found)
    && s.hit == (if data != [] then |HitsAt(data)| else hit)
  }

  lemma RecordCounts(c: Coverage)
    ensures var r := RecordOf(c);
      && r.file == c.file
      && Counts(r.lines, c.lines, 0, 0)
      && Counts(r.functions, c.functions, c.declared.functionsFound, c.declared.functionsHit)
      && Counts(r.branches, c.branches, c.declared.branchesFound, c.declared.branchesHit)
  {
    HitsAreCounted(c.lines);
    HitsAreCounted(c.functions);
    HitsAreCounted(c.branches);
    assert HitsAt(c.lines) == {} || c.lines != [];
  }

  // ---------------------------------------------------------- what lines record

  function CountsIn(body: seq<Told>): seq<Datum<nat>>
    decreases |body|
  {
    if body == [] then []
    else (if body[0].says.CountLine? then [body[0].says.line] else []) + CountsIn(body[1..])
  }

  function FunctionsIn(body: seq<Told>): seq<Datum<string>>
    decreases |body|
  {
    if body == [] then []
    else (if body[0].says.FunctionLine? then [body[0].says.function_] else []) + FunctionsIn(body[1..])
  }

  function BranchesIn(body: seq<Told>): seq<Datum<BranchKey>>
    decreases |body|
  {
    if body == [] then []
    else (if body[0].says.BranchLine? then [body[0].says.branch] else []) + BranchesIn(body[1..])
  }

  predicate Declares(t: Told, which: Total) { t.says.TotalLine? && t.says.which == which }

  /** The last total declared under a name, or what was declared before. */
  function LastDeclared(body: seq<Told>, which: Total, before: nat): nat
    decreases |body|
  {
    if body == [] then before
    else LastDeclared(body[1..], which, if Declares(body[0], which) then body[0].says.total else before)
  }

  function AllDeclared(body: seq<Told>, d: Declared): Declared {
    Declared(LastDeclared(body, FNF, d.functionsFound), LastDeclared(body, FNH, d.functionsHit),
             LastDeclared(body, BRF, d.branchesFound), LastDeclared(body, BRH, d.branchesHit))
  }

  /** A file's coverage with what more lines say of it. */
  function Grown(c: Coverage, body: seq<Told>): Coverage {
    Coverage(c.file, c.lines + CountsIn(body), c.functions + FunctionsIn(body), c.branches + BranchesIn(body),
             AllDeclared(body, c.declared))
  }

  predicate Stops(t: Told) { t.says.FileLine? || t.says.EndOfRecord? }

  /** How many lines go on with the record at hand. */
  function Going(ts: seq<Told>): (n: nat)
    ensures n <= |ts| && (n < |ts| ==> Stops(ts[n]))
    ensures forall i :: 0 <= i < n ==> !Stops(ts[i])
    decreases |ts|
  {
    if ts == [] || Stops(ts[0]) then 0 else 1 + Going(ts[1..])
  }

  /** Every line that names a file opens a record, which goes on to the next such line, the next
      end, or the end of the text. */
  function Coverages(ts: seq<Told>): seq<Coverage>
    decreases |ts|
  {
    if ts == [] then []
    else if ts[0].says.FileLine? then
      [Grown(Opened(ts[0].says.file), ts[1..][..Going(ts[1..])])] + Coverages(ts[1..])
    else Coverages(ts[1..])
  }

  function Adds(p: Parse, t: Told): Parse
    requires p.open.Some?
  {
    p.(open := Some(Grown(p.open.value, [t])))
  }

  lemma OneIn(t: Told)
    ensures CountsIn([t]) == (if t.says.CountLine? then [t.says.line] else [])
    ensures FunctionsIn([t]) == (if t.says.FunctionLine? then [t.says.function_] else [])
    ensures BranchesIn([t]) == (if t.says.BranchLine? then [t.says.branch] else [])
    ensures forall which, before ::
      LastDeclared([t], which, before) == if Declares(t, which) then t.says.total else before
  {
    assert [t][1..] == [];
    forall which, before ensures LastDeclared([t], which, before) == if Declares(t, which) then t.says.total else before {
      assert LastDeclared([t], which, before) == LastDeclared([], which, if Declares(t, which) then t.says.total else before);
    }
  }

  lemma StepAdds(p: Parse, t: Told)
    requires Step(p, t).Ok? && !Stops(t)
    ensures Step(p, t).value == if p.open.None? then p else Adds(p, t)
  {
    if p.open.Some? {
      var c := p.open.value;
      OneIn(t);
      assert c.lines + [] == c.lines && c.functions + [] == c.functions && c.branches + [] == c.branches;
      assert AllDeclared([t], c.declared)
          == if t.says.TotalLine? then SetTotal(c.declared, t.says.which, t.says.total) else c.declared;
    }
  }

  lemma GrownOn(c: Coverage, body: seq<Told>)
    requires body != []
    ensures Grown(Grown(c, [body[0]]), body[1..]) == Grown(c, body)
  {
    OneIn(body[0]);
    var t := body[0];
    Regroup(c.lines, CountsIn([t]), CountsIn(body[1..]));
    Regroup(c.functions, FunctionsIn([t]), FunctionsIn(body[1..]));
    Regroup(c.branches, BranchesIn([t]), BranchesIn(body[1..]));
  }

  lemma GrownByNothing(c: Coverage)
    ensures Grown(c, []) == c
  {
    assert c.lines + [] == c.lines && c.functions + [] == c.functions && c.branches + [] == c.branches;
  }

  /** The record at hand, once its lines have come. */
  function Pending(p: Parse, ts: seq<Told>): seq<Coverage> {
    if p.open.None? then [] else [Grown(p.open.value, ts[..Going(ts)])]
  }

  lemma RecordsConcat(a: seq<Coverage>, b: seq<Coverage>)
    ensures Records(a + b) == Records(a) + Records(b)
  {
  }

  lemma ItemPends(p: Parse, ts: seq<Told>)
    requires ts != [] && !Stops(ts[0]) && Step(p, ts[0]).Ok?
    ensures Pending(Step(p, ts[0]).value, ts[1..]) == Pending(p, ts) && Step(p, ts[0]).value.records == p.records
  {
    StepAdds(p, ts[0]);
    if p.open.Some? {
      var n := Going(ts);
      assert ts[..n][1..] == ts[1..][..n - 1] && ts[..n][0] == ts[0];
      GrownOn(p.open.value, ts[..n]);
    }
  }

  lemma StopPends(p: Parse, ts: seq<Told>)
    requires ts != [] && Stops(ts[0])
    ensures Pending(p, ts) == if p.open.None? then [] else [p.open.value]
  {
    if p.open.Some? {
      assert ts[..0] == [];
      GrownByNothing(p.open.value);
    }
  }

  lemma FinishedAdds(p: Parse)
    ensures Finished(p).records == p.records + Records(if p.open.None? then [] else [p.open.value])
  {
    assert p.records + [] == p.records;
  }

  lemma {:induction false} StepsRecord(p: Parse, ts: seq<Told>)
    requires Steps(p, ts).Ok?
    ensures Finished(Steps(p, ts).value).records == p.records + Records(Pending(p, ts) + Coverages(ts))
    decreases |ts|
  {
    FinishedAdds(p);
    if ts == [] {
      if p.open.Some? { GrownByNothing(p.open.value); }
      assert Pending(p, ts) + [] == if p.open.None? then [] else [p.open.value];
    } else {
      var q := Step(p, ts[0]).value;
      StepsRecord(q, ts[1..]);
      StepRecords(p, ts, q);
    }
  }

  lemma StepRecords(p: Parse, ts: seq<Told>, q: Parse)
    requires ts != [] && Step(p, ts[0]) == Ok(q)
    ensures q.records + Records(Pending(q, ts[1..]) + Coverages(ts[1..])) == p.records + Records(Pending(p, ts) + Coverages(ts))
  {
    if !Stops(ts[0]) {
      ItemPends(p, ts);
    } else {
      StopPends(p, ts);
      FinishedAdds(p);
      var now := if p.open.None? then [] else [p.open.value];
      assert q.records == p.records + Records(now);
      assert Coverages(ts) == Pending(q, ts[1..]) + Coverages(ts[1..]) by {
        if ts[0].says.EndOfRecord? { assert [] + Coverages(ts[1..]) == Coverages(ts[1..]); }
      }
      RecordsConcat(now, Coverages(ts));
      Regroup(p.records, Records(now), Records(Coverages(ts)));
    }
  }

  /** What a tracefile parses as, record by record. */
  lemma ParsedRecords(text: string)
    ensures Parsed(text).Ok? ==> Parsed(text).value == Records(Coverages(Tell(Split(text))))
  {
    var ts := Tell(Split(text));
    if Parsed(text).Ok? {
      StepsRecord(Parse([], None), ts);
      assert [] + Coverages(ts) == Coverages(ts) && [] + Records(Coverages(ts)) == Records(Coverages(ts));
    }
  }

  // ------------------------------------------------------------- where it fails

  /** Whether line `i` comes inside a record: the last line before it that names a file or ends a
      record names a file. */
  ghost predicate Inside(ts: seq<Told>, i: nat)
    requires i <= |ts|
  {
    exists j :: 0 <= j < i && ts[j].says.FileLine? && forall k :: j < k < i ==> !Stops(ts[k])
  }

  /** An item, a total or a passed-over line outside any record is an error, and so is a line that
      cannot be read. */
  ghost predicate Fails(ts: seq<Told>, i: nat, e: Error)
    requires i < |ts|
  {
    && !ts[i].says.Blank? && !Stops(ts[i])
    && if Inside(ts, i) then ts[i].says == BadLine(e) else e == OutsideRecord(ts[i].text)
  }

  ghost predicate Fine(ts: seq<Told>, i: nat)
    requires i < |ts|
  {
    ts[i].says.Blank? || Stops(ts[i]) || (Inside(ts, i) && !ts[i].says.BadLine?)
  }

  lemma InsideNext(ts: seq<Told>, i: nat)
    requires i < |ts|
    ensures Inside(ts, i + 1) <==> ts[i].says.FileLine? || (Inside(ts, i) && !Stops(ts[i]))
  {
    if j :| 0 <= j < i + 1 && ts[j].says.FileLine? && forall k :: j < k < i + 1 ==> !Stops(ts[k]) {
      if j < i { assert Inside(ts, i); }
    }
    if Inside(ts, i) && !Stops(ts[i]) {
      var j :| 0 <= j < i && ts[j].says.FileLine? && forall k :: j < k < i ==> !Stops(ts[k]);
      assert ts[j].says.FileLine? && forall k :: j < k < i + 1 ==> !Stops(ts[k]);
    }
  }

  lemma {:induction false} StepsGoOn(ts: seq<Told>, i: nat)
    requires i <= |ts| && forall j :: 0 <= j < i ==> Fine(ts, j)
    ensures Steps(Parse([], None), ts[..i]).Ok?
    ensures Steps(Parse([], None), ts[..i]).value.open.Some? <==> Inside(ts, i)
  {
    if i > 0 {
      StepsGoOn(ts, i - 1);
      StepsSnoc(Parse([], None), ts, i - 1);
      InsideNext(ts, i - 1);
      assert Fine(ts, i - 1);
    }
  }

  lemma StepsSnoc(p: Parse, ts: seq<Told>, i: nat)
    requires i < |ts| && Steps(p, ts[..i]).Ok?
    ensures Steps(p, ts[..i + 1]) == Step(Steps(p, ts[..i]).value, ts[i])
  {
    assert ts[..i + 1] == ts[..i] + [ts[i]];
    StepsConcat(p, ts[..i], [ts[i]]);
    var q := Steps(p, ts[..i]).value;
    assert [ts[i]][1..] == [];
    if Step(q, ts[i]).Ok? { assert Steps(Step(q, ts[i]).value, []) == Step(q, ts[i]); }
  }

  lemma FailureStays(p: Parse, ts: seq<Told>, i: nat)
    requires i <= |ts| && Steps(p, ts[..i]).Err?
    ensures Steps(p, ts) == Steps(p, ts[..i])
  {
    assert ts == ts[..i] + ts[i..];
    StepsConcat(p, ts[..i], ts[i..]);
  }

  /** A parse fails at the first line that is not fine, with that line's own error, and not otherwise. */
  lemma ParseFailsIff(text: string)
    ensures var ts := Tell(Split(text));
      && (Parsed(text).Ok? <==> forall i :: 0 <= i < |ts| ==> Fine(ts, i))
      && forall i, e :: 0 <= i < |ts| && Fails(ts, i, e) && (forall j :: 0 <= j < i ==> Fine(ts, j)) ==>
           Parsed(text) == Err(e)
  {
    var ts, p := Tell(Split(text)), Parse([], None);
    forall i, e | 0 <= i < |ts| && Fails(ts, i, e) && (forall j :: 0 <= j < i ==> Fine(ts, j))
      ensures Parsed(text) == Err(e)
    {
      FailsAtFirst(text, i, e);
    }
    if forall i :: 0 <= i < |ts| ==> Fine(ts, i) {
      StepsGoOn(ts, |ts|);
      assert ts[..|ts|] == ts;
    } else {
      var i := FirstBad(ts);
      var e: Error;
      if Inside(ts, i) { e := ts[i].says.error; } else { e := OutsideRecord(ts[i].text); }
      assert Fails(ts, i, e);
    }
  }

  lemma FirstBad(ts: seq<Told>) returns (i: nat)
    requires exists i :: 0 <= i < |ts| && !Fine(ts, i)
    ensures i < |ts| && !Fine(ts, i) && forall j :: 0 <= j < i ==> Fine(ts, j)
  {
    i := 0;
    while Fine(ts, i)
      invariant i < |ts| && forall j :: 0 <= j < i ==> Fine(ts, j)
      decreases |ts| - i
    {
      i := i + 1;
    }
  }

  lemma FailsAtFirst(text: string, i: nat, e: Error)
    requires var ts := Tell(Split(text)); i < |ts| && Fails(ts, i, e) && forall j :: 0 <= j < i ==> Fine(ts, j)
    ensures Parsed(text) == Err(e)
  {
    var ts, p := Tell(Split(text)), Parse([], None);
    StepsGoOn(ts, i);
    StepsSnoc(p, ts, i);
    FailureStays(p, ts, i + 1);
  }

  // ------------------------------------------------------------- what is printed

  /** A section's two totals stand after its items. */
  ghost predicate TotalsAt(ls: seq<string>, at: nat, foundTag: string, found: nat, hitTag: string, hit: nat) {
    at + 2 <= |ls| && ls[at] == foundTag + Decimal(found) && ls[at + 1] == hitTag + Decimal(hit)
  }

  lemma SectionLaid<K>(before: seq<string>, data: seq<Datum<K>>, text: Datum<K> -> string, foundTag: string, found: nat,
                       hitTag: string, hit: nat, after: seq<string>)
    ensures var ls := before + SectionLines(data, text, foundTag, found, hitTag, hit) + after;
      && |ls| == |before| + |data| + 2 + |after|
      && (forall i :: 0 <= i < |data| ==> ls[|before| + i] == text(data[i]))
      && TotalsAt(ls, |before| + |data|, foundTag, found, hitTag, hit)
  {
    var section := SectionLines(data, text, foundTag, found, hitTag, hit);
    var ls := before + section + after;
    forall i | 0 <= i < |data| ensures ls[|before| + i] == text(data[i]) { assert ls[|before| + i] == section[i]; }
    assert ls[|before| + |data|] == section[|data|] && ls[|before| + |data| + 1] == section[|data| + 1];
  }

  lemma FiveParts<T>(a: seq<T>, b: seq<T>, c: seq<T>, d: seq<T>, e: seq<T>)
    ensures a + b + c + d + e == a + b + (c + d + e) && a + b + c + d + e == (a + b) + c + (d + e)
  {
  }

  lemma ItemText(f: Datum<string>, l: Datum<nat>, b: Datum<BranchKey>)
    ensures FunctionText(f) == "FNDA:" + Decimal(f.count) + "," + f.key
    ensures CountText(l) == "DA:" + Decimal(l.key) + "," + Decimal(l.count)
    ensures BranchText(b)
         == "BRDA:" + Decimal(b.key.line) + "," + Decimal(b.key.block) + "," + Decimal(b.key.branch) + "," + Decimal(b.count)
  {
  }

  /** Where each line of a record stands, its totals counted from its items. */
  lemma PrintedLayout(c: Coverage)
    ensures var (ls, f, l, b) := (PrintedLines(c), |c.functions|, |c.lines|, |c.branches|);
      && |ls| == f + l + b + 9 && ls[0] == "TN:" && ls[1] == "SF:" + c.file && ls[f + l + b + 8] == "end_of_record"
      && (forall i :: 0 <= i < f ==> ls[2 + i] == FunctionText(c.functions[i]))
      && TotalsAt(ls, 2 + f, "FNF:", if f > 0 then f else c.declared.functionsFound,
                  "FNH:", if f > 0 then |HitsAt(c.functions)| else c.declared.functionsHit)
      && (forall i :: 0 <= i < l ==> ls[f + 4 + i] == CountText(c.lines[i]))
      && TotalsAt(ls, f + 4 + l, "LF:", l, "LH:", |HitsAt(c.lines)|)
      && (forall i :: 0 <= i < b ==> ls[f + l + 6 + i] == BranchText(c.branches[i]))
      && TotalsAt(ls, f + l + 6 + b, "BRF:", if b > 0 then b else c.declared.branchesFound,
                  "BRH:", if b > 0 then |HitsAt(c.branches)| else c.declared.branchesHit)
  {
    HitsAreCounted(c.lines);
    HitsAreCounted(c.functions);
    HitsAreCounted(c.branches);
    var f := Totals(c.functions, c.declared.functionsFound, c.declared.functionsHit);
    var b := Totals(c.branches, c.declared.branchesFound, c.declared.branchesHit);
    Laid(c, f.found, f.hit, b.found, b.hit);
  }

  lemma Laid(c: Coverage, functionsFound: nat, functionsHit: nat, branchesFound: nat, branchesHit: nat)
    ensures var (f, l, b) := (|c.functions|, |c.lines|, |c.branches|);
      var ls := ["TN:", "SF:" + c.file] + SectionLines(c.functions, FunctionText, "FNF:", functionsFound, "FNH:", functionsHit)
        + SectionLines(c.lines, CountText, "LF:", l, "LH:", Hits(c.lines))
        + SectionLines(c.branches, BranchText, "BRF:", branchesFound, "BRH:", branchesHit) + ["end_of_record"];
      && |ls| == f + l + b + 9 && ls[0] == "TN:" && ls[1] == "SF:" + c.file && ls[f + l + b + 8] == "end_of_record"
      && (forall i :: 0 <= i < f ==> ls[2 + i] == FunctionText(c.functions[i]))
      && TotalsAt(ls, 2 + f, "FNF:", functionsFound, "FNH:", functionsHit)
      && (forall i :: 0 <= i < l ==> ls[f + 4 + i] == CountText(c.lines[i]))
      && TotalsAt(ls, f + 4 + l, "LF:", l, "LH:", Hits(c.lines))
      && (forall i :: 0 <= i < b ==> ls[f + l + 6 + i] == BranchText(c.branches[i]))
      && TotalsAt(ls, f + l + 6 + b, "BRF:", branchesFound, "BRH:", branchesHit)
  {
    var head, end := ["TN:", "SF:" + c.file], ["end_of_record"];
    var fns := SectionLines(c.functions, FunctionText, "FNF:", functionsFound, "FNH:", functionsHit);
    var das := SectionLines(c.lines, CountText, "LF:", |c.lines|, "LH:", Hits(c.lines));
    var brs := SectionLines(c.branches, BranchText, "BRF:", branchesFound, "BRH:", branchesHit);
    FiveParts(head, fns, das, brs, end);
    SectionLaid(head, c.functions, FunctionText, "FNF:", functionsFound, "FNH:", functionsHit, das + brs + end);
    SectionLaid(head + fns, c.lines, CountText, "LF:", |c.lines|, "LH:", Hits(c.lines), brs + end);
    SectionLaid(head + fns + das, c.branches, BranchText, "BRF:", branchesFound, "BRH:", branchesHit, end);
  }
}
