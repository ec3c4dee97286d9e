/**
 * The lcov tracefile text: printing a file's coverage and parsing a whole tracefile
 * (`serialize` and `parseLcov` in scripts/coverage-lcov.ts).
 *
 * The parser keeps the records so far and the one being read, and takes one line at a time; what
 * a line says is read in `LcovLines`. A record carries its own text, printed again from its items.
 */
module LcovText {
  import opened LcovLines
  import opened TextLines
  import opened Wrappers

  // --------------------------------------------------------------- the records

  datatype Declared = Declared(functionsFound: nat, functionsHit: nat, branchesFound: nat, branchesHit: nat)

  /** One file's coverage as it goes into a tracefile. */
  datatype Coverage = Coverage(file: string, lines: seq<Datum<nat>>, functions: seq<Datum<string>>,
                               branches: seq<Datum<BranchKey>>, declared: Declared)

  datatype Section<K> = Section(data: seq<Datum<K>>, found: nat, hit: nat)

  datatype Record = Record(file: string, lines: Section<nat>, functions: Section<string>,
                           branches: Section<BranchKey>, raw: string)

  const NONE_DECLARED := Declared(0, 0, 0, 0)

  function Hits<K>(data: seq<Datum<K>>): (n: nat)
    ensures n <= |data|
  {
    if data == [] then 0 else (if data[0].count > 0 then 1 else 0) + Hits(data[1..])
  }

  /** A section's totals: counted from its items, or as declared when it has none. */
  function Totals<K>(data: seq<Datum<K>>, found: nat, hit: nat): Section<K> {
    if |data| > 0 then Section(data, |data|, Hits(data)) else Section(data, found, hit)
  }

  /** The record a coverage prints and parses as. */
  function RecordOf(c: Coverage): Record {
    Record(c.file, Section(c.lines, |c.lines|, Hits(c.lines)),
           Totals(c.functions, c.declared.functionsFound, c.declared.functionsHit),
           Totals(c.branches, c.declared.branchesFound, c.declared.branchesHit),
           Joined(PrintedLines(c)))
  }

  // ------------------------------------------------------------------- parsing

  /** The records so far, and the one being read. */
  datatype Parse = Parse(records: seq<Record>, open: Option<Coverage>)

  function Opened(file: string): Coverage { Coverage(file, [], [], [], NONE_DECLARED) }

  function Finished(p: Parse): Parse {
    if p.open.None? then p else Parse(p.records + [RecordOf(p.open.value)], None)
  }

  function SetTotal(d: Declared, which: Total, total: nat): Declared {
    match which
    case FNF => d.(functionsFound := total)
    case FNH => d.(functionsHit := total)
    case BRF => d.(branchesFound := total)
    case BRH => d.(branchesHit := total)
  }

  /** A line and what it says. */
  datatype Told = Told(text: string, says: Line)

  function Tell(lines: seq<string>): seq<Told> {
    seq(|lines|, i requires 0 <= i < |lines| => Told(lines[i], Read(lines[i])))
  }

  function Step(p: Parse, t: Told): Result<Parse, Error> {
    var l := t.says;
    if l.Blank? then Ok(p)
    else if l.FileLine? then Ok(Finished(p).(open := Some(Opened(l.file))))
    else if l.EndOfRecord? then Ok(Finished(p))
    else if p.open.None? then Err(OutsideRecord(t.text))
    else
      var c := p.open.value;
      match l
      case FunctionLine(f) => Ok(p.(open := Some(c.(functions := c.functions + [f]))))
      case CountLine(d) => Ok(p.(open := Some(c.(lines := c.lines + [d]))))
      case BranchLine(b) => Ok(p.(open := Some(c.(branches := c.branches + [b]))))
      case TotalLine(which, total) => Ok(p.(open := Some(c.(declared := SetTotal(c.declared, which, total)))))
      case BadLine(e) => Err(e)
      case _ => Ok(p)
  }

  function Steps(p: Parse, ts: seq<Told>): Result<Parse, Error>
    decreases |ts|
  {
    if ts == [] then Ok(p)
    else
      var next := Step(p, ts[0]);
      if next.Err? then next else Steps(next.value, ts[1..])
  }

  /** The records of a tracefile, or its first bad line. */
  function Parsed(text: string): Result<seq<Record>, Error> {
    var end := Steps(Parse([], None), Tell(Split(text)));
    if end.Err? then Err(end.error) else Ok(Finished(end.value).records)
  }

  method ParseLcov(text: string) returns (result: Result<seq<Record>, Error>)
    ensures result == Parsed(text)
  {
    var records: seq<Record> := [];
    var file: Option<string> := None;
    var lines: seq<Datum<nat>> := [];
    var functions: seq<Datum<string>> := [];
    var branches: seq<Datum<BranchKey>> := [];
    var declared := NONE_DECLARED;
    var texts := Split(text);
    ghost var told := Tell(texts);
    for i := 0 to |texts|
      invariant file.None? ==> lines == [] && functions == [] && branches == [] && declared == NONE_DECLARED
      invariant Steps(Reading(records, file, lines, functions, branches, declared), told[i..])
             == Steps(Parse([], None), told)
    {
      var line := texts[i];
      var l := Read(line);
      assert told[i..][0] == Told(line, l) && told[i..][1..] == told[i + 1..];
      if l.Blank? {
        continue;
      }
      if l.FileLine? || l.EndOfRecord? {
        if file.Some? {
          var record := Finish(file.value, lines, functions, branches, declared);
          records := records + [record];
          file, lines, functions, branches, declared := None, [], [], [], NONE_DECLARED;
        }
        if l.FileLine? {
          file := Some(l.file);
        }
        continue;
      }
      if file.None? {
        return Err(OutsideRecord(line));
      }
      match l {
        case FunctionLine(f) => functions := functions + [f];
        case CountLine(d) => lines := lines + [d];
        case BranchLine(b) => branches := branches + [b];
        case TotalLine(FNF, total) => declared := declared.(functionsFound := total);
        case TotalLine(FNH, total) => declared := declared.(functionsHit := total);
        case TotalLine(BRF, total) => declared := declared.(branchesFound := total);
        case TotalLine(BRH, total) => declared := declared.(branchesHit := total);
        case BadLine(e) => return Err(e);
        case _ =>
      }
    }
    if file.Some? {
      var record := Finish(file.value, lines, functions, branches, declared);
      records := records + [record];
    }
    return Ok(records);
  }

  ghost function Reading(records: seq<Record>, file: Option<string>, lines: seq<Datum<nat>>, functions: seq<Datum<string>>,
                         branches: seq<Datum<BranchKey>>, declared: Declared): Parse {
    Parse(records, if file.None? then None else Some(Coverage(file.value, lines, functions, branches, declared)))
  }

  method Finish(file: string, lines: seq<Datum<nat>>, functions: seq<Datum<string>>,
                branches: seq<Datum<BranchKey>>, declared: Declared) returns (record: Record)
    ensures record == RecordOf(Coverage(file, lines, functions, branches, declared))
  {
    var raw := Serialize(Coverage(file, lines, functions, branches, declared));
    record := Record(file, Section(lines, |lines|, Hits(lines)),
                     Section(functions, if |functions| > 0 then |functions| else declared.functionsFound,
                             if |functions| > 0 then Hits(functions) else declared.functionsHit),
                     Section(branches, if |branches| > 0 then |branches| else declared.branchesFound,
                             if |branches| > 0 then Hits(branches) else declared.branchesHit),
                     raw);
  }

  // ------------------------------------------------------------------ printing

  /** Every line ended by a newline. */
  function Joined(lines: seq<string>): string {
    if lines == [] then "" else lines[0] + "\n" + Joined(lines[1..])
  }

  function Texts<K>(data: seq<Datum<K>>, text: Datum<K> -> string): seq<string> {
    seq(|data|, i requires 0 <= i < |data| => text(data[i]))
  }

  /** A section's items and then its two totals. */
  function SectionLines<K>(data: seq<Datum<K>>, text: Datum<K> -> string, foundTag: string, found: nat,
                           hitTag: string, hit: nat): seq<string> {
    Texts(data, text) + [foundTag + Decimal(found), hitTag + Decimal(hit)]
  }

  function PrintedLines(c: Coverage): seq<string> {
    var f := Totals(c.functions, c.declared.functionsFound, c.declared.functionsHit);
    var b := Totals(c.branches, c.declared.branchesFound, c.declared.branchesHit);
    ["TN:", "SF:" + c.file]
    + SectionLines(c.functions, FunctionText, "FNF:", f.found, "FNH:", f.hit)
    + SectionLines(c.lines, CountText, "LF:", |c.lines|, "LH:", Hits(c.lines))
    + SectionLines(c.branches, BranchText, "BRF:", b.found, "BRH:", b.hit)
    + ["end_of_record"]
  }

  lemma {:induction false} JoinedConcat(a: seq<string>, b: seq<string>)
    ensures Joined(a + b) == Joined(a) + Joined(b)
  {
    if a == [] {
      assert a + b == b;
    } else {
      assert (a + b)[1..] == a[1..] + b;
      JoinedConcat(a[1..], b);
    }
  }

  lemma JoinedSnoc(lines: seq<string>, line: string)
    ensures Joined(lines + [line]) == Joined(lines) + line + "\n"
  {
    JoinedConcat(lines, [line]);
    assert Joined([line]) == line + "\n" + Joined([]);
  }

  /** `out` holds the lines `printed`; one line more. */
  method AppendLine(out: string, ghost printed: seq<string>, line: string) returns (longer: string)
    requires out == Joined(printed)
    ensures longer == Joined(printed + [line])
  {
    longer := out + line + "\n";
    JoinedSnoc(printed, line);
  }

  method AppendAll<K>(out: string, ghost printed: seq<string>, data: seq<Datum<K>>, text: Datum<K> -> string)
    returns (longer: string)
    requires out == Joined(printed)
    ensures longer == Joined(printed + Texts(data, text))
  {
    longer := out;
    ghost var all := Texts(data, text);
    assert printed + all[..0] == printed;
    for i := 0 to |data|
      invariant longer == Joined(printed + all[..i])
    {
      longer := AppendLine(longer, printed + all[..i], text(data[i]));
      assert printed + all[..i] + [text(data[i])] == printed + all[..i + 1];
    }
    assert all[..|data|] == all;
  }

  method AppendSection<K>(out: string, ghost printed: seq<string>, data: seq<Datum<K>>, text: Datum<K> -> string,
                          foundTag: string, found: nat, hitTag: string, hit: nat) returns (longer: string)
    requires out == Joined(printed)
    ensures longer == Joined(printed + SectionLines(data, text, foundTag, found, hitTag, hit))
  {
    longer := AppendAll(out, printed, data, text);
    ghost var items := printed + Texts(data, text);
    longer := AppendLine(longer, items, foundTag + Decimal(found));
    longer := AppendLine(longer, items + [foundTag + Decimal(found)], hitTag + Decimal(hit));
    assert items + [foundTag + Decimal(found)] + [hitTag + Decimal(hit)]
        == printed + SectionLines(data, text, foundTag, found, hitTag, hit);
  }

  method Serialize(c: Coverage) returns (out: string)
    ensures out == Joined(PrintedLines(c))
  {
    var fnFound := if |c.functions| > 0 then |c.functions| else c.declared.functionsFound;
    var fnHits := if |c.functions| > 0 then Hits(c.functions) else c.declared.functionsHit;
    var brFound := if |c.branches| > 0 then |c.branches| else c.declared.branchesFound;
    var brHits := if |c.branches| > 0 then Hits(c.branches) else c.declared.branchesHit;
    ghost var head := ["TN:", "SF:" + c.file];
    out := AppendLine("", [], "TN:");
    out := AppendLine(out, [] + ["TN:"], "SF:" + c.file);
    assert [] + ["TN:"] + ["SF:" + c.file] == head;
    out := AppendSection(out, head, c.functions, FunctionText, "FNF:", fnFound, "FNH:", fnHits);
    ghost var upToFunctions := head + SectionLines(c.functions, FunctionText, "FNF:", fnFound, "FNH:", fnHits);
    out := AppendSection(out, upToFunctions, c.lines, CountText, "LF:", |c.lines|, "LH:", Hits(c.lines));
    ghost var upToLines := upToFunctions + SectionLines(c.lines, CountText, "LF:", |c.lines|, "LH:", Hits(c.lines));
    out := AppendSection(out, upToLines, c.branches, BranchText, "BRF:", brFound, "BRH:", brHits);
    out := AppendLine(out, upToLines + SectionLines(c.branches, BranchText, "BRF:", brFound, "BRH:", brHits), "end_of_record");
  }

  predicate CleanNames(functions: seq<Datum<string>>) {
    forall i :: 0 <= i < |functions| ==> OneLine(functions[i].key)
  }

  /** A file name on one line, and function names a regex dot matches throughout. */
  predicate Clean(c: Coverage) {
    HasNo(c.file, '\n') && CleanNames(c.functions)
  }

  // ------------------------------------------------- a whole record, read back

  lemma {:induction false} StepsConcat(p: Parse, a: seq<Told>, b: seq<Told>)
    ensures Steps(p, a + b) == if Steps(p, a).Err? then Steps(p, a) else Steps(Steps(p, a).value, b)
    decreases |a|
  {
    if a == [] {
      assert a + b == b;
    } else {
      assert (a + b)[0] == a[0] && (a + b)[1..] == a[1..] + b;
      if Step(p, a[0]).Ok? { StepsConcat(Step(p, a[0]).value, a[1..], b); }
    }
  }

  lemma TellConcat(a: seq<string>, b: seq<string>)
    ensures Tell(a + b) == Tell(a) + Tell(b)
  {
  }

  lemma {:induction false} FunctionsRead(rs: seq<Record>, c: Coverage, items: seq<Datum<string>>, ts: seq<Told>)
    requires |ts| == |items| && forall i :: 0 <= i < |ts| ==> ts[i].says == FunctionLine(items[i])
    ensures Steps(Parse(rs, Some(c)), ts) == Ok(Parse(rs, Some(c.(functions := c.functions + items))))
    decreases |ts|
  {
    if ts == [] {
      assert c.functions + items == c.functions;
    } else {
      var next := c.(functions := c.functions + [items[0]]);
      FunctionsRead(rs, next, items[1..], ts[1..]);
      assert next.functions + items[1..] == c.functions + items;
    }
  }

  lemma {:induction false} CountsRead(rs: seq<Record>, c: Coverage, items: seq<Datum<nat>>, ts: seq<Told>)
    requires |ts| == |items| && forall i :: 0 <= i < |ts| ==> ts[i].says == CountLine(items[i])
    ensures Steps(Parse(rs, Some(c)), ts) == Ok(Parse(rs, Some(c.(lines := c.lines + items))))
    decreases |ts|
  {
    if ts == [] {
      assert c.lines + items == c.lines;
    } else {
      var next := c.(lines := c.lines + [items[0]]);
      CountsRead(rs, next, items[1..], ts[1..]);
      assert next.lines + items[1..] == c.lines + items;
    }
  }

  lemma {:induction false} BranchesRead(rs: seq<Record>, c: Coverage, items: seq<Datum<BranchKey>>, ts: seq<Told>)
    requires |ts| == |items| && forall i :: 0 <= i < |ts| ==> ts[i].says == BranchLine(items[i])
    ensures Steps(Parse(rs, Some(c)), ts) == Ok(Parse(rs, Some(c.(branches := c.branches + items))))
    decreases |ts|
  {
    if ts == [] {
      assert c.branches + items == c.branches;
    } else {
      var next := c.(branches := c.branches + [items[0]]);
      BranchesRead(rs, next, items[1..], ts[1..]);
      assert next.branches + items[1..] == c.branches + items;
    }
  }

  lemma TwoSteps(p: Parse, a: string, b: string)
    requires Step(p, Told(a, Read(a))).Ok?
    ensures Steps(p, Tell([a, b])) == Step(Step(p, Told(a, Read(a))).value, Told(b, Read(b)))
  {
    var ts := Tell([a, b]);
    var q := Step(p, ts[0]).value;
    assert ts[1..] == [ts[1]] && [ts[1]][1..] == [];
    assert Steps(q, [ts[1]]) == Step(q, ts[1]) by {
      if Step(q, ts[1]).Ok? { assert Steps(Step(q, ts[1]).value, []) == Step(q, ts[1]); }
    }
  }

  /** A section's items, then its two totals, by what they say. */
  lemma SectionSteps(p: Parse, items: seq<string>, x: string, y: string, q: Parse)
    requires Steps(p, Tell(items)) == Ok(q) && Step(q, Told(x, Read(x))).Ok?
    ensures Steps(p, Tell(items + [x, y])) == Step(Step(q, Told(x, Read(x))).value, Told(y, Read(y)))
  {
    StepsOn(p, items, [x, y], q);
    TwoSteps(q, x, y);
  }

  lemma StepsOn(p: Parse, a: seq<string>, b: seq<string>, q: Parse)
    requires Steps(p, Tell(a)) == Ok(q)
    ensures Steps(p, Tell(a + b)) == Steps(q, Tell(b))
  {
    TellConcat(a, b);
    StepsConcat(p, Tell(a), Tell(b));
  }

  lemma FunctionItemsRead(rs: seq<Record>, c: Coverage, fs: seq<Datum<string>>)
    requires CleanNames(fs)
    ensures Steps(Parse(rs, Some(c)), Tell(Texts(fs, FunctionText))) == Ok(Parse(rs, Some(c.(functions := c.functions + fs))))
  {
    var ts := Tell(Texts(fs, FunctionText));
    forall i | 0 <= i < |fs| ensures ts[i].says == FunctionLine(fs[i]) { FunctionReads(fs[i]); }
    FunctionsRead(rs, c, fs, ts);
  }

  lemma CountItemsRead(rs: seq<Record>, c: Coverage, ds: seq<Datum<nat>>)
    ensures Steps(Parse(rs, Some(c)), Tell(Texts(ds, CountText))) == Ok(Parse(rs, Some(c.(lines := c.lines + ds))))
  {
    var ts := Tell(Texts(ds, CountText));
    forall i | 0 <= i < |ds| ensures ts[i].says == CountLine(ds[i]) { CountReads(ds[i]); }
    CountsRead(rs, c, ds, ts);
  }

  lemma BranchItemsRead(rs: seq<Record>, c: Coverage, bs: seq<Datum<BranchKey>>)
    ensures Steps(Parse(rs, Some(c)), Tell(Texts(bs, BranchText))) == Ok(Parse(rs, Some(c.(branches := c.branches + bs))))
  {
    var ts := Tell(Texts(bs, BranchText));
    forall i | 0 <= i < |bs| ensures ts[i].says == BranchLine(bs[i]) { BranchReads(bs[i]); }
    BranchesRead(rs, c, bs, ts);
  }

  lemma FunctionSectionReads(rs: seq<Record>, c: Coverage, fs: seq<Datum<string>>, found: nat, hit: nat)
    requires CleanNames(fs)
    ensures Steps(Parse(rs, Some(c)), Tell(SectionLines(fs, FunctionText, "FNF:", found, "FNH:", hit)))
         == Ok(Parse(rs, Some(c.(functions := c.functions + fs,
                                 declared := c.declared.(functionsFound := found, functionsHit := hit)))))
  {
    FunctionItemsRead(rs, c, fs);
    FunctionTotalsRead(found);
    FunctionTotalsRead(hit);
    SectionSteps(Parse(rs, Some(c)), Texts(fs, FunctionText), "FNF:" + Decimal(found), "FNH:" + Decimal(hit),
                 Parse(rs, Some(c.(functions := c.functions + fs))));
  }

  lemma LineSectionReads(rs: seq<Record>, c: Coverage, ds: seq<Datum<nat>>, found: nat, hit: nat)
    ensures Steps(Parse(rs, Some(c)), Tell(SectionLines(ds, CountText, "LF:", found, "LH:", hit)))
         == Ok(Parse(rs, Some(c.(lines := c.lines + ds))))
  {
    CountItemsRead(rs, c, ds);
    LineTotalsRead(found);
    LineTotalsRead(hit);
    SectionSteps(Parse(rs, Some(c)), Texts(ds, CountText), "LF:" + Decimal(found), "LH:" + Decimal(hit),
                 Parse(rs, Some(c.(lines := c.lines + ds))));
  }

  lemma BranchSectionReads(rs: seq<Record>, c: Coverage, bs: seq<Datum<BranchKey>>, found: nat, hit: nat)
    ensures Steps(Parse(rs, Some(c)), Tell(SectionLines(bs, BranchText, "BRF:", found, "BRH:", hit)))
         == Ok(Parse(rs, Some(c.(branches := c.branches + bs,
                                 declared := c.declared.(branchesFound := found, branchesHit := hit)))))
  {
    BranchItemsRead(rs, c, bs);
    BranchTotalsRead(found);
    BranchTotalsRead(hit);
    SectionSteps(Parse(rs, Some(c)), Texts(bs, BranchText), "BRF:" + Decimal(found), "BRH:" + Decimal(hit),
                 Parse(rs, Some(c.(branches := c.branches + bs))));
  }

  /** The totals a record shows, whatever was declared. */
  function Shown(c: Coverage): Coverage {
    var f := Totals(c.functions, c.declared.functionsFound, c.declared.functionsHit);
    var b := Totals(c.branches, c.declared.branchesFound, c.declared.branchesHit);
    c.(declared := Declared(f.found, f.hit, b.found, b.hit))
  }

  lemma ShownPrintsTheSame(c: Coverage)
    ensures RecordOf(Shown(c)) == RecordOf(c)
  {
  }

  lemma HeaderReads(rs: seq<Record>, file: string)
    ensures Steps(Parse(rs, None), Tell(["TN:", "SF:" + file])) == Ok(Parse(rs, Some(Opened(file))))
  {
    Tagged("SF:", file);
    TwoSteps(Parse(rs, None), "TN:", "SF:" + file);
    assert ("SF:" + file)[0] == 'S';
  }

  lemma EndReads(rs: seq<Record>, c: Coverage)
    ensures Steps(Parse(rs, Some(c)), Tell(["end_of_record"])) == Ok(Parse(rs + [RecordOf(c)], None))
  {
    var line := "end_of_record";
    Differs(line, "SF:", 0);
    assert Read(line) == EndOfRecord;
    assert Tell([line])[1..] == [];
  }

  lemma RecordReads(rs: seq<Record>, c: Coverage)
    requires Clean(c)
    ensures Steps(Parse(rs, None), Tell(PrintedLines(c))) == Ok(Parse(rs + [RecordOf(c)], None))
  {
    var f := Totals(c.functions, c.declared.functionsFound, c.declared.functionsHit);
    var b := Totals(c.branches, c.declared.branchesFound, c.declared.branchesHit);
    var head := ["TN:", "SF:" + c.file];
    var fns := SectionLines(c.functions, FunctionText, "FNF:", f.found, "FNH:", f.hit);
    var das := SectionLines(c.lines, CountText, "LF:", |c.lines|, "LH:", Hits(c.lines));
    var brs := SectionLines(c.branches, BranchText, "BRF:", b.found, "BRH:", b.hit);
    var c0 := Opened(c.file);
    var c1 := c0.(functions := c0.functions + c.functions, declared := c0.declared.(functionsFound := f.found, functionsHit := f.hit));
    var c2 := c1.(lines := c1.lines + c.lines);
    var c3 := c2.(branches := c2.branches + c.branches, declared := c2.declared.(branchesFound := b.found, branchesHit := b.hit));
    HeaderReads(rs, c.file);
    FunctionSectionReads(rs, c0, c.functions, f.found, f.hit);
    LineSectionReads(rs, c1, c.lines, |c.lines|, Hits(c.lines));
    BranchSectionReads(rs, c2, c.branches, b.found, b.hit);
    EndReads(rs, c3);
    assert c3 == Shown(c) by {
      assert c3.functions == c.functions && c3.lines == c.lines && c3.branches == c.branches;
    }
    ShownPrintsTheSame(c);
    FourParts(Parse(rs, None), head, fns, das, brs, ["end_of_record"]);
  }

  lemma FourParts(p: Parse, a: seq<string>, b: seq<string>, c: seq<string>, d: seq<string>, e: seq<string>)
    requires Steps(p, Tell(a)).Ok? && Steps(Steps(p, Tell(a)).value, Tell(b)).Ok?
    requires Steps(Steps(Steps(p, Tell(a)).value, Tell(b)).value, Tell(c)).Ok?
    requires Steps(Steps(Steps(Steps(p, Tell(a)).value, Tell(b)).value, Tell(c)).value, Tell(d)).Ok?
    ensures Steps(p, Tell(a + b + c + d + e))
         == Steps(Steps(Steps(Steps(Steps(p, Tell(a)).value, Tell(b)).value, Tell(c)).value, Tell(d)).value, Tell(e))
  {
    StepsConcat(p, Tell(a), Tell(b));
    StepsConcat(p, Tell(a) + Tell(b), Tell(c));
    StepsConcat(p, Tell(a) + Tell(b) + Tell(c), Tell(d));
    StepsConcat(p, Tell(a) + Tell(b) + Tell(c) + Tell(d), Tell(e));
    TellConcat(a, b);
    TellConcat(a + b, c);
    TellConcat(a + b + c, d);
    TellConcat(a + b + c + d, e);
  }

  // ----------------------------------------------------------------- round trip

  function AllLines(cs: seq<Coverage>): seq<string> {
    if cs == [] then [] else PrintedLines(cs[0]) + AllLines(cs[1..])
  }

  /** The tracefile of several files' coverage. */
  function Printed(cs: seq<Coverage>): string { Joined(AllLines(cs)) }

  function Records(cs: seq<Coverage>): seq<Record> { seq(|cs|, i requires 0 <= i < |cs| => RecordOf(cs[i])) }

  lemma {:induction false} SplitJoined(lines: seq<string>)
    requires forall i :: 0 <= i < |lines| ==> HasNo(lines[i], '\n')
    ensures Split(Joined(lines)) == lines + [""]
    decreases |lines|
  {
    if lines == [] {
      assert IndexOf("", '\n') == 0;
      assert Split("") == [""];
    } else {
      SplitFirst(lines[0], Joined(lines[1..]));
      SplitJoined(lines[1..]);
      assert lines == [lines[0]] + lines[1..];
      assert [lines[0]] + (lines[1..] + [""]) == lines + [""];
    }
  }

  lemma SectionOnOneLine<K>(data: seq<Datum<K>>, text: Datum<K> -> string, foundTag: string, found: nat, hitTag: string, hit: nat)
    requires HasNo(foundTag, '\n') && HasNo(hitTag, '\n')
    requires forall i :: 0 <= i < |data| ==> HasNo(text(data[i]), '\n')
    ensures forall l :: l in SectionLines(data, text, foundTag, found, hitTag, hit) ==> HasNo(l, '\n')
  {
    DecimalReads(found);
    DecimalReads(hit);
    HasNoConcat(foundTag, Decimal(found), '\n');
    HasNoConcat(hitTag, Decimal(hit), '\n');
    forall l | l in Texts(data, text) ensures HasNo(l, '\n') {
      var i :| 0 <= i < |data| && Texts(data, text)[i] == l;
    }
  }

  lemma PrintedOnOneLine(c: Coverage)
    requires Clean(c)
    ensures forall l :: l in PrintedLines(c) ==> HasNo(l, '\n')
  {
    var f := Totals(c.functions, c.declared.functionsFound, c.declared.functionsHit);
    var b := Totals(c.branches, c.declared.branchesFound, c.declared.branchesHit);
    forall i | 0 <= i < |c.functions| ensures HasNo(FunctionText(c.functions[i]), '\n') { FunctionReads(c.functions[i]); }
    forall i | 0 <= i < |c.lines| ensures HasNo(CountText(c.lines[i]), '\n') { CountReads(c.lines[i]); }
    forall i | 0 <= i < |c.branches| ensures HasNo(BranchText(c.branches[i]), '\n') { BranchReads(c.branches[i]); }
    SectionOnOneLine(c.functions, FunctionText, "FNF:", f.found, "FNH:", f.hit);
    SectionOnOneLine(c.lines, CountText, "LF:", |c.lines|, "LH:", Hits(c.lines));
    SectionOnOneLine(c.branches, BranchText, "BRF:", b.found, "BRH:", b.hit);
    HasNoConcat("SF:", c.file, '\n');
  }

  lemma RecordsOn(rs: seq<Record>, cs: seq<Coverage>)
    requires cs != []
    ensures rs + [RecordOf(cs[0])] + Records(cs[1..]) == rs + Records(cs)
  {
  }

  lemma {:induction false} AllRead(rs: seq<Record>, cs: seq<Coverage>)
    requires forall i :: 0 <= i < |cs| ==> Clean(cs[i])
    ensures Steps(Parse(rs, None), Tell(AllLines(cs))) == Ok(Parse(rs + Records(cs), None))
    decreases |cs|
  {
    if cs == [] {
      assert rs + Records(cs) == rs;
    } else {
      var first := RecordOf(cs[0]);
      RecordReads(rs, cs[0]);
      AllRead(rs + [first], cs[1..]);
      RecordsOn(rs, cs);
      StepsOn(Parse(rs, None), PrintedLines(cs[0]), AllLines(cs[1..]), Parse(rs + [first], None));
    }
  }

  lemma {:induction false} AllOnOneLine(cs: seq<Coverage>)
    requires forall i :: 0 <= i < |cs| ==> Clean(cs[i])
    ensures forall l :: l in AllLines(cs) ==> HasNo(l, '\n')
    decreases |cs|
  {
    if cs != [] {
      PrintedOnOneLine(cs[0]);
      AllOnOneLine(cs[1..]);
    }
  }

  lemma CleanRoundTrips(cs: seq<Coverage>)
    requires forall i :: 0 <= i < |cs| ==> Clean(cs[i])
    ensures Parsed(Printed(cs)) == Ok(Records(cs))
  {
    var lines := AllLines(cs);
    AllRead([], cs);
    AllOnOneLine(cs);
    SplitJoined(lines);
    TellConcat(lines, [""]);
    StepsConcat(Parse([], None), Tell(lines), Tell([""]));
    assert [] + Records(cs) == Records(cs);
    var p := Parse(Records(cs), None);
    assert Tell([""])[1..] == [];
    assert Steps(p, Tell([""])) == Ok(p);
  }

  /** Whatever parses has its names on one line. */
  predicate CleanRecord(r: Record) {
    HasNo(r.file, '\n') && CleanNames(r.functions.data)
  }

  /** The record is what some clean coverage prints and parses as. */
  ghost predicate Printable(r: Record) {
    exists c :: r == RecordOf(c) && Clean(c)
  }

  ghost predicate AllPrintable(rs: seq<Record>) { forall i :: 0 <= i < |rs| ==> Printable(rs[i]) }

  ghost predicate CleanParse(p: Parse) {
    AllPrintable(p.records) && (p.open.Some? ==> Clean(p.open.value))
  }

  lemma FinishedIsPrintable(p: Parse)
    requires CleanParse(p)
    ensures CleanParse(Finished(p))
  {
    if p.open.Some? {
      assert Printable(RecordOf(p.open.value));
    }
  }

  /** A line that says a name says it on one line. */
  predicate SaysCleanly(t: Told) {
    (t.says.FileLine? ==> HasNo(t.says.file, '\n')) && (t.says.FunctionLine? ==> OneLine(t.says.function_.key))
  }

  lemma ReadsCleanly(line: string)
    requires HasNo(line, '\n')
    ensures SaysCleanly(Told(line, Read(line)))
  {
    if Read(line).FileLine? { assert Read(line).file == line[3..]; }
  }

  lemma {:induction false} StepsStayClean(p: Parse, ts: seq<Told>)
    requires CleanParse(p) && forall i :: 0 <= i < |ts| ==> SaysCleanly(ts[i])
    ensures Steps(p, ts).Ok? ==> CleanParse(Steps(p, ts).value)
    decreases |ts|
  {
    if ts != [] && Step(p, ts[0]).Ok? {
      assert SaysCleanly(ts[0]);
      FinishedIsPrintable(p);
      StepsStayClean(Step(p, ts[0]).value, ts[1..]);
    }
  }

  /** Whatever parses is what some coverage with printable names prints. */
  lemma ParsedIsPrintable(text: string)
    ensures Parsed(text).Ok? ==> AllPrintable(Parsed(text).value)
  {
    SplitOnOneLine(text);
    var lines := Split(text);
    forall i | 0 <= i < |lines| ensures SaysCleanly(Tell(lines)[i]) { ReadsCleanly(lines[i]); }
    StepsStayClean(Parse([], None), Tell(lines));
    var end := Steps(Parse([], None), Tell(lines));
    if end.Ok? { FinishedIsPrintable(end.value); }
  }

  /** Printing and parsing give the records back, data and totals alike, exactly when every
      file name is free of newlines and every function name is free of line breaks. */
  lemma RoundTripIffClean(cs: seq<Coverage>)
    ensures Parsed(Printed(cs)) == Ok(Records(cs)) <==> forall i :: 0 <= i < |cs| ==> Clean(cs[i])
  {
    if forall i :: 0 <= i < |cs| ==> Clean(cs[i]) {
      CleanRoundTrips(cs);
    }
    if Parsed(Printed(cs)) == Ok(Records(cs)) {
      ParsedIsPrintable(Printed(cs));
      forall i | 0 <= i < |cs| ensures Clean(cs[i]) {
        assert Printable(Records(cs)[i]);
        var c :| RecordOf(cs[i]) == RecordOf(c) && Clean(c);
        assert RecordOf(c).file == c.file && RecordOf(c).functions.data == c.functions;
      }
    }
  }

  function Raws(rs: seq<Record>): string {
    if rs == [] then "" else rs[0].raw + Raws(rs[1..])
  }

  /** The records carry their own text: putting it together again is the tracefile printed. */
  lemma {:induction false} RawsReprint(cs: seq<Coverage>)
    ensures Raws(Records(cs)) == Printed(cs)
    decreases |cs|
  {
    if cs != [] {
      JoinedConcat(PrintedLines(cs[0]), AllLines(cs[1..]));
      assert Records(cs)[1..] == Records(cs[1..]);
      RawsReprint(cs[1..]);
    }
  }
}
