/**
 * The forms of an lcov line (scripts/coverage-lcov.ts): which lines the parser takes, which it
 * passes over and which it refuses.
 *
 * `LcovLines` scans a line as the parser's regular expressions do. Here each form is written as the
 * shape its expression describes, and a line is taken exactly when it has the shape.
 */
module LcovForms {
  import opened LcovLines
  import opened TextLines
  import opened Wrappers

  /** `\d+` */
  predicate Numeral(s: string) { |s| > 0 && forall i :: 0 <= i < |s| ==> '0' <= s[i] <= '9' }

  /** `\d+|-` */
  predicate Tally(s: string) { s == "-" || Numeral(s) }

  function Worth(s: string): nat
    requires Tally(s)
  {
    if s == "-" then 0 else Value(s)
  }

  /** `(?:,\S+)?` */
  predicate Checksum(s: string) {
    s == "" || (|s| > 1 && s[0] == ',' && forall i :: 0 < i < |s| ==> !IsSpace(s[i]))
  }

  lemma TallyCounts(s: string)
    ensures Tally(s) <==> Count(s).Some?
    ensures Tally(s) ==> Count(s) == Some(Worth(s)) && HasNo(s, ',')
  {
  }

  lemma FieldIff(s: string)
    ensures Field(s).None? <==> HasNo(s, ',')
    ensures Field(s).Some? ==> var (a, b) := Field(s).value; HasNo(a, ',') && s == a + "," + b
  {
  }

  // ------------------------------------------------------------------ functions

  ghost predicate IsFunction(rest: string, n: string, d: Datum<string>) {
    Tally(n) && OneLine(d.key) && rest == n + "," + d.key && d.count == Worth(n)
  }

  /** `FNDA:` takes a tally and a name on one line, and refuses anything else. */
  lemma FunctionLineIff(rest: string, d: Datum<string>)
    ensures var line := "FNDA:" + rest;
      && (Read(line) == FunctionLine(d) <==> exists n :: IsFunction(rest, n, d))
      && (Read(line) == BadLine(Malformed(line)) || Read(line).FunctionLine?)
  {
    var line := "FNDA:" + rest;
    FunctionTag(rest);
    if n :| IsFunction(rest, n, d) {
      TallyCounts(n);
      Cut(n, d.key);
    }
    if Read(line) == FunctionLine(d) {
      FieldIff(rest);
      var (n, name) := Field(rest).value;
      TallyCounts(n);
      assert IsFunction(rest, n, d);
    }
  }

  // ---------------------------------------------------------------------- lines

  ghost predicate IsCount(rest: string, k: string, n: string, end: string, d: Datum<nat>) {
    Numeral(k) && Tally(n) && Checksum(end) && rest == k + "," + (n + end) && d == Datum(Value(k), Worth(n))
  }

  /** The second field of a line count and what stands after it. */
  function SecondField(tail: string): (string, string) {
    if Field(tail).Some? then (Field(tail).value.0, "," + Field(tail).value.1) else (tail, "")
  }

  lemma TailCut(n: string, end: string)
    requires HasNo(n, ',') && Checksum(end)
    ensures if end == "" then Field(n + end).None? && n + end == n
            else Field(n + end) == Some((n, end[1..])) && IsChecksum(end[1..])
  {
    if end == "" {
      assert n + end == n;
      Whole(n);
    } else {
      assert n + end == n + "," + end[1..];
      Cut(n, end[1..]);
    }
  }

  lemma CountIsTaken(rest: string, k: string, n: string, end: string, d: Datum<nat>)
    requires IsCount(rest, k, n, end, d)
    ensures ParseCount("DA:" + rest, rest) == CountLine(d)
  {
    TallyCounts(n);
    TallyCounts(k);
    Cut(k, n + end);
    TailCut(n, end);
  }

  lemma SumAfterComma(sum: string)
    requires IsChecksum(sum)
    ensures Checksum("," + sum)
  {
    var end := "," + sum;
    forall m | 0 < m < |end| ensures !IsSpace(end[m]) { assert end[m] == sum[m - 1]; }
  }

  lemma TailSplits(tail: string)
    requires Field(tail).Some? ==> IsChecksum(Field(tail).value.1)
    ensures var (n, end) := SecondField(tail); tail == n + end && Checksum(end)
  {
    FieldIff(tail);
    if Field(tail).Some? {
      var (n, sum) := Field(tail).value;
      SumAfterComma(sum);
      assert n + "," + sum == n + ("," + sum);
    } else {
      assert tail + "" == tail;
    }
  }

  lemma CountHas(rest: string, k: string, n: string, end: string, d: Datum<nat>)
    requires rest == k + "," + (n + end) && Checksum(end)
    requires Digits(k) == Some(d.key) && Count(n) == Some(d.count)
    ensures IsCount(rest, k, n, end, d)
  {
    TallyCounts(n);
  }

  lemma TakenIsCount(rest: string, d: Datum<nat>)
    requires ParseCount("DA:" + rest, rest) == CountLine(d)
    ensures exists k, n, end :: IsCount(rest, k, n, end, d)
  {
    FieldIff(rest);
    var (k, tail) := Field(rest).value;
    var (n, end) := SecondField(tail);
    TailSplits(tail);
    CountHas(rest, k, n, end, d);
  }

  /** `DA:` takes a line number, a tally and perhaps a checksum it drops, and refuses anything else. */
  lemma CountLineIff(rest: string, d: Datum<nat>)
    ensures var line := "DA:" + rest;
      && (Read(line) == CountLine(d) <==> exists k, n, end :: IsCount(rest, k, n, end, d))
      && (Read(line) == BadLine(Malformed(line)) || Read(line).CountLine?)
  {
    CountTag(rest);
    if k, n, end :| IsCount(rest, k, n, end, d) { CountIsTaken(rest, k, n, end, d); }
    if ParseCount("DA:" + rest, rest) == CountLine(d) { TakenIsCount(rest, d); }
  }

  // ------------------------------------------------------------------- branches

  ghost predicate IsBranch(rest: string, l: string, k: string, r: string, n: string, d: Datum<BranchKey>) {
    && Numeral(l) && Numeral(k) && Numeral(r) && Tally(n)
    && rest == l + "," + (k + "," + (r + "," + n))
    && d == Datum(BranchKey(Value(l), Value(k), Value(r)), Worth(n))
  }

  lemma BranchHas(rest: string, l: string, k: string, r: string, n: string, d: Datum<BranchKey>)
    requires rest == l + "," + (k + "," + (r + "," + n))
    requires Digits(l) == Some(d.key.line) && Digits(k) == Some(d.key.block) && Digits(r) == Some(d.key.branch)
    requires Count(n) == Some(d.count)
    ensures IsBranch(rest, l, k, r, n, d)
  {
    TallyCounts(n);
  }

  lemma TakenIsBranch(rest: string, d: Datum<BranchKey>)
    requires ParseBranch("BRDA:" + rest, rest) == BranchLine(d)
    ensures exists l, k, r, n :: IsBranch(rest, l, k, r, n, d)
  {
    var (l, rest2) := Field(rest).value;
    var (k, rest3) := Field(rest2).value;
    var (r, n) := Field(rest3).value;
    FieldIff(rest);
    FieldIff(rest2);
    FieldIff(rest3);
    BranchHas(rest, l, k, r, n, d);
  }

  /** `BRDA:` takes three numbers and a tally, and refuses anything else. */
  lemma BranchLineIff(rest: string, d: Datum<BranchKey>)
    ensures var line := "BRDA:" + rest;
      && (Read(line) == BranchLine(d) <==> exists l, k, r, n :: IsBranch(rest, l, k, r, n, d))
      && (Read(line) == BadLine(Malformed(line)) || Read(line).BranchLine?)
  {
    BranchTag(rest);
    if l, k, r, n :| IsBranch(rest, l, k, r, n, d) {
      TallyCounts(n);
      BranchParses("BRDA:" + rest, l, k, r, n);
    }
    if ParseBranch("BRDA:" + rest, rest) == BranchLine(d) { TakenIsBranch(rest, d); }
  }

  // ------------------------------------------------- what is passed over or refused

  ghost predicate Begins(line: string, tag: string) { exists rest :: line == tag + rest }

  lemma BeginsIff(line: string, tag: string)
    ensures Begins(line, tag) <==> StartsWith(line, tag)
  {
    if StartsWith(line, tag) { assert line == tag + line[|tag|..]; }
    if rest :| line == tag + rest { Tagged(tag, rest); }
  }

  function Tag(which: Total): string {
    match which
    case FNF => "FNF:"
    case FNH => "FNH:"
    case BRF => "BRF:"
    case BRH => "BRH:"
  }

  /** A total with its number and nothing after. */
  ghost predicate IsTotal(line: string, which: Total, digits: string) {
    Numeral(digits) && line == Tag(which) + digits
  }

  lemma TotalIsNamed(line: string, which: Total)
    ensures TotalNamed(line) == Some(which) <==> StartsWith(line, Tag(which))
  {
    if |line| >= 4 { assert forall i :: 0 <= i < 4 ==> line[..4][i] == line[i]; }
    if StartsWith(line, Tag(which)) { assert forall i :: 0 <= i < 4 ==> line[i] == Tag(which)[i]; }
  }

  lemma TagStarts(line: string, tag: string)
    requires StartsWith(line, tag)
    ensures |line| >= |tag| && forall i :: 0 <= i < |tag| ==> line[i] == tag[i]
  {
    assert forall i :: 0 <= i < |tag| ==> line[..|tag|][i] == line[i];
  }

  /** No total or passed-over line reads as anything before it. */
  lemma OtherTag(line: string, tag: string)
    requires tag in ["FNF:", "FNH:", "BRF:", "BRH:", "LF:", "LH:", "FN:"] && StartsWith(line, tag)
    ensures line != "" && line != "TN:" && line != "end_of_record"
    ensures !StartsWith(line, "SF:") && !StartsWith(line, "FNDA:")
    ensures !StartsWith(line, "DA:") && !StartsWith(line, "BRDA:")
  {
    TagStarts(line, tag);
    assert "TN:"[0] == 'T' && line[0] == tag[0];
    NoItem(line);
  }

  lemma TotalIsTaken(line: string, which: Total, digits: string)
    requires IsTotal(line, which, digits)
    ensures Read(line) == TotalLine(which, Value(digits))
  {
    Tagged(Tag(which), digits);
    TotalIsNamed(line, which);
    OtherTag(line, Tag(which));
  }

  lemma TotalLineIff(line: string, which: Total, total: nat)
    ensures Read(line) == TotalLine(which, total)
       <==> exists digits :: IsTotal(line, which, digits) && total == Value(digits)
  {
    if digits :| IsTotal(line, which, digits) && total == Value(digits) { TotalIsTaken(line, which, digits); }
    if Read(line) == TotalLine(which, total) {
      TotalIsNamed(line, which);
      assert IsTotal(line, which, line[4..]);
    }
  }

  /** Declarations and line totals are passed over, whatever they hold. */
  lemma IgnoredIff(line: string)
    ensures Read(line) == Ignored <==> Begins(line, "LF:") || Begins(line, "LH:") || Begins(line, "FN:")
  {
    BeginsIff(line, "LF:");
    BeginsIff(line, "LH:");
    BeginsIff(line, "FN:");
    if StartsWith(line, "LF:") { PassedOver(line, "LF:"); }
    if StartsWith(line, "LH:") { PassedOver(line, "LH:"); }
    if StartsWith(line, "FN:") { PassedOver(line, "FN:"); }
    ItemsAreNotOther(line);
  }

  lemma PassedOver(line: string, tag: string)
    requires tag in ["LF:", "LH:", "FN:"] && StartsWith(line, tag)
    ensures Read(line) == Ignored
  {
    OtherTag(line, tag);
    NoTotal(line, tag);
  }

  lemma NoTotal(line: string, tag: string)
    requires tag in ["LF:", "LH:", "FN:"] && StartsWith(line, tag)
    ensures TotalNamed(line).None?
  {
    TagStarts(line, tag);
    forall which: Total ensures !StartsWith(line, Tag(which)) {
      if StartsWith(line, Tag(which)) { TagStarts(line, Tag(which)); }
    }
    TotalIsNamed(line, FNF);
    TotalIsNamed(line, FNH);
    TotalIsNamed(line, BRF);
    TotalIsNamed(line, BRH);
  }

  /** A file is named by the rest of its line, and the blank lines and the end are whole lines. */
  lemma FileLineIff(line: string, file: string)
    ensures Read(line) == FileLine(file) <==> line == "SF:" + file
    ensures Read(line) == Blank <==> line == "" || line == "TN:"
    ensures Read(line) == EndOfRecord <==> line == "end_of_record"
  {
    if StartsWith(line, "SF:") { assert line == "SF:" + line[3..]; }
    if line == "SF:" + file {
      Tagged("SF:", file);
      assert line[0] == 'S' && "TN:"[0] == 'T';
    }
    if line == "end_of_record" { assert line[0] == 'e' && "TN:"[0] == 'T'; }
    ItemsAreNotOther(line);
  }

  /** Zeros in front do not count. */
  lemma {:induction false} ZerosInFront(s: string)
    requires AllDigits(s)
    ensures AllDigits("0" + s) && Value("0" + s) == Value(s)
  {
    if s == "" {
      assert ("0" + s)[..0] == "" && ("0" + s)[0] == '0';
    } else {
      var init := s[..|s| - 1];
      assert ("0" + s)[..|s|] == "0" + init && ("0" + s)[|s|] == s[|s| - 1];
      ZerosInFront(init);
    }
  }

  ghost predicate AnyTotal(line: string) { exists which, digits :: IsTotal(line, which, digits) }

  lemma AnyTotalIff(line: string)
    ensures AnyTotal(line) <==> TotalNamed(line).Some? && Digits(line[4..]).Some?
  {
    if which, digits :| IsTotal(line, which, digits) {
      Tagged(Tag(which), digits);
      TotalIsNamed(line, which);
    }
    if TotalNamed(line).Some? && Digits(line[4..]).Some? {
      TotalIsNamed(line, TotalNamed(line).value);
      assert IsTotal(line, TotalNamed(line).value, line[4..]);
    }
  }

  /** What is no blank, end, file, item, passed-over line or total is refused as it stands. */
  lemma UnrecognisedIff(line: string)
    ensures Read(line) == BadLine(Unrecognised(line))
       <==> line != "" && line != "TN:" && line != "end_of_record" && !Begins(line, "SF:")
            && !Begins(line, "FNDA:") && !Begins(line, "DA:") && !Begins(line, "BRDA:")
            && !Begins(line, "LF:") && !Begins(line, "LH:") && !Begins(line, "FN:") && !AnyTotal(line)
  {
    BeginsIff(line, "SF:");
    BeginsIff(line, "FNDA:");
    BeginsIff(line, "DA:");
    BeginsIff(line, "BRDA:");
    BeginsIff(line, "LF:");
    BeginsIff(line, "LH:");
    BeginsIff(line, "FN:");
    AnyTotalIff(line);
    ItemsAreNotOther(line);
  }

  ghost predicate ItemOrRefused(l: Line, line: string) {
    l.FunctionLine? || l.CountLine? || l.BranchLine? || l == BadLine(Malformed(line))
  }

  lemma ItemsAreNotOther(line: string)
    ensures StartsWith(line, "FNDA:") ==> ItemOrRefused(ParseFunction(line, line[5..]), line)
    ensures StartsWith(line, "DA:") ==> ItemOrRefused(ParseCount(line, line[3..]), line)
    ensures StartsWith(line, "BRDA:") ==> ItemOrRefused(ParseBranch(line, line[5..]), line)
  {
  }
}
