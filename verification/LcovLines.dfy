/**
 * The lines of an lcov tracefile (scripts/coverage-lcov.ts).
 *
 * A tracefile is split at newlines, and each line is one of a few kinds: a file, an item of one of
 * three sections, a total, the end of a record. This module says what one line reads as, how an
 * item or a total is printed on one line, and that what is printed reads back as what it was,
 * decimals included. Whole records and tracefiles are in `LcovText`.
 *
 * The regular expressions of the parser are written out as scans over the line: a dot stops at the
 * four line breaks, a digit is an ASCII digit, and a dash counts as zero where the parser takes one.
 */
module LcovLines {
  import opened TextLines
  import opened Wrappers

  datatype Error = OutsideRecord(line: string) | Malformed(line: string) | Unrecognised(line: string)

  // ----------------------------------------------------------------- the items

  /** A count under a key: a line number, a function name, or a branch. */
  datatype Datum<K> = Datum(key: K, count: nat)

  datatype BranchKey = BranchKey(line: nat, block: nat, branch: nat)

  // ------------------------------------------------------------------ decimals

  predicate IsDigit(c: char) { '0' <= c <= '9' }

  predicate AllDigits(s: string) { forall i :: 0 <= i < |s| ==> IsDigit(s[i]) }

  function Decimal(n: nat): (s: string)
    ensures |s| > 0 && AllDigits(s)
  {
    if n < 10 then [('0' as int + n) as char] else Decimal(n / 10) + [('0' as int + n % 10) as char]
  }

  function Value(s: string): nat
    requires AllDigits(s)
  {
    if s == "" then 0 else Value(s[..|s| - 1]) * 10 + (s[|s| - 1] as int - '0' as int)
  }

  lemma {:induction false} ValueOfDecimal(n: nat)
    ensures Value(Decimal(n)) == n
  {
    if n >= 10 {
      var s := Decimal(n);
      assert s[..|s| - 1] == Decimal(n / 10);
      ValueOfDecimal(n / 10);
    } else {
      assert Decimal(n)[..0] == "";
    }
  }

  /** `\d+` */
  function Digits(s: string): Option<nat> {
    if |s| > 0 && AllDigits(s) then Some(Value(s)) else None
  }

  /** `\d+|-`, a dash counting as zero */
  function Count(s: string): Option<nat> {
    if s == "-" then Some(0) else Digits(s)
  }

  // ------------------------------------------------------------ scanning lines

  predicate StartsWith(s: string, prefix: string) {
    |prefix| <= |s| && s[..|prefix|] == prefix
  }

  datatype Line =
    | Blank
    | FileLine(file: string)
    | EndOfRecord
    | FunctionLine(function_: Datum<string>)
    | CountLine(line: Datum<nat>)
    | BranchLine(branch: Datum<BranchKey>)
    | TotalLine(which: Total, total: nat)
    | Ignored
    | BadLine(error: Error)

  datatype Total = FNF | FNH | BRF | BRH

  /** What stands before the first comma, and after it. */
  function Field(s: string): Option<(string, string)> {
    var i := IndexOf(s, ',');
    if i == |s| then None else Some((s[..i], s[i + 1..]))
  }

  /** `(\d+|-),(.*)` after `FNDA:` */
  function ParseFunction(line: string, rest: string): Line {
    match Field(rest)
    case None => BadLine(Malformed(line))
    case Some((n, name)) =>
      if Count(n).None? || !OneLine(name) then BadLine(Malformed(line)) else FunctionLine(Datum(name, Count(n).value))
  }

  predicate OneLine(s: string) { forall i :: 0 <= i < |s| ==> !IsLineBreak(s[i]) }

  predicate NoSpaces(s: string) { forall k :: 0 <= k < |s| ==> !IsSpace(s[k]) }

  /** `(\d+),(\d+|-)(?:,\S+)?` after `DA:` */
  function ParseCount(line: string, rest: string): Line {
    match Field(rest)
    case None => BadLine(Malformed(line))
    case Some((k, tail)) =>
      var n := if Field(tail).Some? then Field(tail).value.0 else tail;
      if Digits(k).None? || Count(n).None? || (Field(tail).Some? && !IsChecksum(Field(tail).value.1))
      then BadLine(Malformed(line))
      else CountLine(Datum(Digits(k).value, Count(n).value))
  }

  predicate IsChecksum(s: string) { s != "" && NoSpaces(s) }

  /** `(\d+),(\d+),(\d+),(\d+|-)` after `BRDA:` */
  function ParseBranch(line: string, rest: string): Line {
    match Field(rest)
    case None => BadLine(Malformed(line))
    case Some((l, rest2)) =>
      match Field(rest2)
      case None => BadLine(Malformed(line))
      case Some((k, rest3)) =>
        match Field(rest3)
        case None => BadLine(Malformed(line))
        case Some((r, n)) =>
          if Digits(l).None? || Digits(k).None? || Digits(r).None? || Count(n).None? then BadLine(Malformed(line))
          else BranchLine(Datum(BranchKey(Digits(l).value, Digits(k).value, Digits(r).value), Count(n).value))
  }

  function TotalNamed(line: string): Option<Total> {
    if StartsWith(line, "FNF:") then Some(FNF)
    else if StartsWith(line, "FNH:") then Some(FNH)
    else if StartsWith(line, "BRF:") then Some(BRF)
    else if StartsWith(line, "BRH:") then Some(BRH)
    else None
  }

  /** What one line says, in the order the parser asks. */
  function Read(line: string): Line {
    if line == "" || line == "TN:" then Blank
    else if StartsWith(line, "SF:") then FileLine(line[3..])
    else if line == "end_of_record" then EndOfRecord
    else if StartsWith(line, "FNDA:") then ParseFunction(line, line[5..])
    else if StartsWith(line, "DA:") then ParseCount(line, line[3..])
    else if StartsWith(line, "BRDA:") then ParseBranch(line, line[5..])
    else if TotalNamed(line).Some? && Digits(line[4..]).Some? then TotalLine(TotalNamed(line).value, Digits(line[4..]).value)
    else if StartsWith(line, "LF:") || StartsWith(line, "LH:") || StartsWith(line, "FN:") then Ignored
    else BadLine(Unrecognised(line))
  }

  // ------------------------------------------------------------------- printing

  function FunctionText(f: Datum<string>): string { "FNDA:" + (Decimal(f.count) + "," + f.key) }

  function CountText(d: Datum<nat>): string { "DA:" + (Decimal(d.key) + "," + Decimal(d.count)) }

  function BranchText(b: Datum<BranchKey>): string {
    "BRDA:" + (Decimal(b.key.line) + "," + (Decimal(b.key.block) + "," + (Decimal(b.key.branch) + "," + Decimal(b.count))))
  }

  // ------------------------------------------------ reading back what is printed

  lemma DecimalReads(n: nat)
    ensures Digits(Decimal(n)) == Some(n) && Count(Decimal(n)) == Some(n)
    ensures HasNo(Decimal(n), ',') && HasNo(Decimal(n), '\n')
  {
    ValueOfDecimal(n);
    assert Decimal(n)[0] != '-';
  }

  lemma Differs(s: string, prefix: string, i: nat)
    requires i < |s| && i < |prefix| && s[i] != prefix[i]
    ensures !StartsWith(s, prefix)
  {
  }

  lemma Tagged(tag: string, rest: string)
    ensures StartsWith(tag + rest, tag) && (tag + rest)[|tag|..] == rest
    ensures forall i :: 0 <= i < |tag| ==> (tag + rest)[i] == tag[i]
  {
    assert (tag + rest)[..|tag|] == tag;
  }

  lemma FunctionTag(rest: string)
    ensures Read("FNDA:" + rest) == ParseFunction("FNDA:" + rest, rest)
  {
    var line := "FNDA:" + rest;
    Tagged("FNDA:", rest);
    Differs(line, "SF:", 0);
    assert line[0] == 'F';
  }

  lemma CountTag(rest: string)
    ensures Read("DA:" + rest) == ParseCount("DA:" + rest, rest)
  {
    var line := "DA:" + rest;
    Tagged("DA:", rest);
    Differs(line, "SF:", 0);
    Differs(line, "FNDA:", 0);
    assert line[0] == 'D';
  }

  lemma BranchTag(rest: string)
    ensures Read("BRDA:" + rest) == ParseBranch("BRDA:" + rest, rest)
  {
    var line := "BRDA:" + rest;
    Tagged("BRDA:", rest);
    Differs(line, "SF:", 0);
    Differs(line, "FNDA:", 0);
    Differs(line, "DA:", 0);
    assert line[0] == 'B';
  }

  /** The first comma cuts a field off. */
  lemma Cut(a: string, b: string)
    requires HasNo(a, ',')
    ensures Field(a + "," + b) == Some((a, b))
  {
    IndexOfJoined(a, ',', b);
    var s := a + "," + b;
    assert s[..|a|] == a && s[|a| + 1..] == b;
  }

  lemma Whole(a: string)
    requires HasNo(a, ',')
    ensures Field(a).None?
  {
  }

  lemma FunctionReads(f: Datum<string>)
    requires OneLine(f.key)
    ensures Read(FunctionText(f)) == FunctionLine(f) && HasNo(FunctionText(f), '\n')
  {
    var n := Decimal(f.count);
    DecimalReads(f.count);
    Cut(n, f.key);
    FunctionTag(n + "," + f.key);
  }

  lemma CountParses(line: string, k: string, n: string)
    requires Digits(k).Some? && Count(n).Some? && HasNo(k, ',') && HasNo(n, ',')
    ensures ParseCount(line, k + "," + n) == CountLine(Datum(Digits(k).value, Count(n).value))
  {
    Cut(k, n);
    Whole(n);
  }

  lemma CountTextReads(k: string, n: string)
    requires Digits(k).Some? && Count(n).Some? && HasNo(k, ',') && HasNo(n, ',')
    ensures Read("DA:" + (k + "," + n)) == CountLine(Datum(Digits(k).value, Count(n).value))
  {
    var rest := k + "," + n;
    CountTag(rest);
    CountParses("DA:" + rest, k, n);
  }

  lemma CountReads(d: Datum<nat>)
    ensures Read(CountText(d)) == CountLine(d) && HasNo(CountText(d), '\n')
  {
    var k, n := Decimal(d.key), Decimal(d.count);
    DecimalReads(d.key);
    DecimalReads(d.count);
    CountTextReads(k, n);
    HasNoConcat(k, ",", '\n');
    HasNoConcat(k + ",", n, '\n');
    HasNoConcat("DA:", k + "," + n, '\n');
  }

  lemma BranchParses(line: string, l: string, k: string, r: string, n: string)
    requires Digits(l).Some? && Digits(k).Some? && Digits(r).Some? && Count(n).Some?
    requires HasNo(l, ',') && HasNo(k, ',') && HasNo(r, ',')
    ensures ParseBranch(line, l + "," + (k + "," + (r + "," + n)))
         == BranchLine(Datum(BranchKey(Digits(l).value, Digits(k).value, Digits(r).value), Count(n).value))
  {
    Cut(l, k + "," + (r + "," + n));
    Cut(k, r + "," + n);
    Cut(r, n);
  }

  lemma BranchTextReads(l: string, k: string, r: string, n: string)
    requires Digits(l).Some? && Digits(k).Some? && Digits(r).Some? && Count(n).Some?
    requires HasNo(l, ',') && HasNo(k, ',') && HasNo(r, ',')
    ensures Read("BRDA:" + (l + "," + (k + "," + (r + "," + n))))
         == BranchLine(Datum(BranchKey(Digits(l).value, Digits(k).value, Digits(r).value), Count(n).value))
  {
    var rest := l + "," + (k + "," + (r + "," + n));
    BranchTag(rest);
    BranchParses("BRDA:" + rest, l, k, r, n);
  }

  lemma BranchOnOneLine(l: string, k: string, r: string, n: string)
    requires HasNo(l, '\n') && HasNo(k, '\n') && HasNo(r, '\n') && HasNo(n, '\n')
    ensures HasNo("BRDA:" + (l + "," + (k + "," + (r + "," + n))), '\n')
  {
    HasNoConcat(r + ",", n, '\n');
    HasNoConcat(k + ",", r + "," + n, '\n');
    HasNoConcat(l + ",", k + "," + (r + "," + n), '\n');
    HasNoConcat("BRDA:", l + "," + (k + "," + (r + "," + n)), '\n');
  }

  lemma BranchReads(b: Datum<BranchKey>)
    ensures Read(BranchText(b)) == BranchLine(b) && HasNo(BranchText(b), '\n')
  {
    var l, k, r, n := Decimal(b.key.line), Decimal(b.key.block), Decimal(b.key.branch), Decimal(b.count);
    DecimalReads(b.key.line);
    DecimalReads(b.key.block);
    DecimalReads(b.key.branch);
    DecimalReads(b.count);
    BranchTextReads(l, k, r, n);
    BranchOnOneLine(l, k, r, n);
  }

  /** A line no item or file line starts like. */
  lemma NoItem(line: string)
    requires |line| >= 3 && line != "TN:" && line[0] != 'S' && line[0] != 'e' && line[0] != 'D'
    requires |line| > 2 && (line[2] != 'D' || (line[0] != 'F' && line[0] != 'B'))
    ensures line != "" && line != "TN:" && line != "end_of_record"
    ensures !StartsWith(line, "SF:") && !StartsWith(line, "FNDA:") && !StartsWith(line, "DA:") && !StartsWith(line, "BRDA:")
  {
    Differs(line, "SF:", 0);
    Differs(line, "DA:", 0);
    if line[2] != 'D' {
      Differs(line, "FNDA:", 2);
      Differs(line, "BRDA:", 2);
    } else {
      Differs(line, "FNDA:", 0);
      Differs(line, "BRDA:", 0);
    }
  }

  lemma FunctionTotalsRead(n: nat)
    ensures Read("FNF:" + Decimal(n)) == TotalLine(FNF, n) && HasNo("FNF:" + Decimal(n), '\n')
    ensures Read("FNH:" + Decimal(n)) == TotalLine(FNH, n) && HasNo("FNH:" + Decimal(n), '\n')
  {
    DecimalReads(n);
    Tagged("FNF:", Decimal(n));
    Tagged("FNH:", Decimal(n));
    NoItem("FNF:" + Decimal(n));
    NoItem("FNH:" + Decimal(n));
    Differs("FNH:" + Decimal(n), "FNF:", 2);
  }

  lemma BranchTotalsRead(n: nat)
    ensures Read("BRF:" + Decimal(n)) == TotalLine(BRF, n) && HasNo("BRF:" + Decimal(n), '\n')
    ensures Read("BRH:" + Decimal(n)) == TotalLine(BRH, n) && HasNo("BRH:" + Decimal(n), '\n')
  {
    DecimalReads(n);
    Tagged("BRF:", Decimal(n));
    Tagged("BRH:", Decimal(n));
    NoItem("BRF:" + Decimal(n));
    NoItem("BRH:" + Decimal(n));
    Differs("BRF:" + Decimal(n), "FNF:", 0);
    Differs("BRF:" + Decimal(n), "FNH:", 0);
    Differs("BRH:" + Decimal(n), "FNF:", 0);
    Differs("BRH:" + Decimal(n), "FNH:", 0);
    Differs("BRH:" + Decimal(n), "BRF:", 2);
  }

  lemma LineTotalsRead(n: nat)
    ensures Read("LF:" + Decimal(n)) == Ignored && HasNo("LF:" + Decimal(n), '\n')
    ensures Read("LH:" + Decimal(n)) == Ignored && HasNo("LH:" + Decimal(n), '\n')
  {
    DecimalReads(n);
    LineTotalIgnored("LF:", n);
    LineTotalIgnored("LH:", n);
  }

  lemma LineTotalIgnored(tag: string, n: nat)
    requires tag == "LF:" || tag == "LH:"
    ensures Read(tag + Decimal(n)) == Ignored
  {
    var line := tag + Decimal(n);
    Tagged(tag, Decimal(n));
    NoItem(line);
    Differs(line, "FNF:", 0);
    Differs(line, "FNH:", 0);
    Differs(line, "BRF:", 0);
    Differs(line, "BRH:", 0);
  }
}
