/**
 * Merging coverage records of the same file (`mergeLcov` in scripts/coverage-lcov.ts):
 * line and function counts sum, branch counts take the larger, declared totals the larger.
 *
 * A file's records are taken in one after the other; the first stays as it is. Totals are counted
 * again from the merged items, and a section without items keeps the larger of what is declared.
 */
module LcovMerge {
  import opened LcovLines
  import opened LcovText
  import opened Lists
  import Numbers
  import Sorting
  import opened Wrappers

  datatype Op = Sum | Max

  function Combine(op: Op, a: nat, b: nat): nat {
    match op
    case Sum => a + b
    case Max => Numbers.Max(a, b)
  }

  // --------------------------------------------- a map that keeps insertion order

  function Keys<K(==)>(data: seq<Datum<K>>): set<K> { set d | d in data :: d.key }

  ghost predicate UniqueKeys<K>(data: seq<Datum<K>>) {
    forall i, j :: 0 <= i < j < |data| ==> data[i].key != data[j].key
  }

  /** Combine `count` into the entry of `k`, or append an entry. */
  function Put<K(==)>(data: seq<Datum<K>>, k: K, count: nat, op: Op): seq<Datum<K>> {
    if data == [] then [Datum(k, count)]
    else if data[0].key == k then [Datum(k, Combine(op, data[0].count, count))] + data[1..]
    else [data[0]] + Put(data[1..], k, count, op)
  }

  function Gather<K(==)>(into: seq<Datum<K>>, data: seq<Datum<K>>, op: Op): seq<Datum<K>>
    decreases |data|
  {
    if data == [] then into else Gather(Put(into, data[0].key, data[0].count, op), data[1..], op)
  }

  /** What all the items under one key come to. */
  function Tally<K(==)>(data: seq<Datum<K>>, k: K, op: Op): nat {
    if data == [] then 0
    else if data[0].key == k then Combine(op, data[0].count, Tally(data[1..], k, op))
    else Tally(data[1..], k, op)
  }

  lemma {:induction false} TallyConcat<K>(a: seq<Datum<K>>, b: seq<Datum<K>>, k: K, op: Op)
    ensures Tally(a + b, k, op) == Combine(op, Tally(a, k, op), Tally(b, k, op))
  {
    if a == [] {
      assert a + b == b;
    } else {
      assert (a + b)[1..] == a[1..] + b;
      TallyConcat(a[1..], b, k, op);
    }
  }

  lemma {:induction false} TallyPut<K>(data: seq<Datum<K>>, k: K, count: nat, op: Op, j: K)
    ensures Tally(Put(data, k, count, op), j, op)
         == if j == k then Combine(op, Tally(data, k, op), count) else Tally(data, j, op)
  {
    if data != [] {
      if data[0].key == k {
        assert Put(data, k, count, op)[1..] == data[1..];
      } else {
        assert Put(data, k, count, op)[1..] == Put(data[1..], k, count, op);
        TallyPut(data[1..], k, count, op, j);
      }
    } else {
      assert [Datum(k, count)][1..] == [];
    }
  }

  lemma {:induction false} TallyGather<K>(into: seq<Datum<K>>, data: seq<Datum<K>>, op: Op, j: K)
    ensures Tally(Gather(into, data, op), j, op) == Combine(op, Tally(into, j, op), Tally(data, j, op))
    decreases |data|
  {
    if data != [] {
      TallyPut(into, data[0].key, data[0].count, op, j);
      TallyGather(Put(into, data[0].key, data[0].count, op), data[1..], op, j);
    }
  }

  lemma KeysConcat<K>(a: seq<Datum<K>>, b: seq<Datum<K>>)
    ensures Keys(a + b) == Keys(a) + Keys(b)
  {
  }

  lemma KeyOfOne<K>(d: Datum<K>)
    ensures Keys([d]) == {d.key}
  {
    assert d in [d];
  }

  lemma UniqueSnoc<K>(data: seq<Datum<K>>, d: Datum<K>)
    ensures UniqueKeys(data + [d]) <==> UniqueKeys(data) && d.key !in Keys(data)
  {
    var all := data + [d];
    assert all[|data|] == d;
    if UniqueKeys(all) {
      forall i, j | 0 <= i < j < |data| ensures data[i].key != data[j].key {
        assert all[i] == data[i] && all[j] == data[j];
      }
      forall i | 0 <= i < |data| ensures data[i].key != d.key { assert all[i] == data[i]; }
    }
    if UniqueKeys(data) && d.key !in Keys(data) {
      forall i, j | 0 <= i < j < |all| ensures all[i].key != all[j].key {
        assert all[i] == data[i] && data[i] in data;
        if j < |data| { assert all[j] == data[j]; }
      }
    }
  }

  /** No key stands twice exactly when there are as many keys as items. */
  lemma {:induction false} KeyCount<K>(data: seq<Datum<K>>)
    ensures |Keys(data)| <= |data|
    ensures |Keys(data)| == |data| <==> UniqueKeys(data)
    decreases |data|
  {
    if data == [] {
      assert Keys(data) == {};
    } else {
      var init, d := data[..|data| - 1], data[|data| - 1];
      assert data == init + [d];
      KeyCount(init);
      KeysConcat(init, [d]);
      KeyOfOne(d);
      UniqueSnoc(init, d);
    }
  }

  lemma HeadKey<K>(data: seq<Datum<K>>)
    requires data != []
    ensures Keys(data) == {data[0].key} + Keys(data[1..])
  {
    assert data == [data[0]] + data[1..];
    KeysConcat([data[0]], data[1..]);
    KeyOfOne(data[0]);
  }

  lemma {:induction false} PutKeys<K>(data: seq<Datum<K>>, k: K, count: nat, op: Op)
    ensures Keys(Put(data, k, count, op)) == Keys(data) + {k}
    ensures |Put(data, k, count, op)| == |data| + if k in Keys(data) then 0 else 1
  {
    if data == [] {
      KeyOfOne(Datum(k, count));
    } else {
      var rest := data[1..];
      HeadKey(data);
      if data[0].key == k {
        HeadKey(Put(data, k, count, op));
      } else {
        PutKeys(rest, k, count, op);
        HeadKey(Put(data, k, count, op));
      }
    }
  }

  lemma PutKeepsUnique<K>(data: seq<Datum<K>>, k: K, count: nat, op: Op)
    requires UniqueKeys(data)
    ensures UniqueKeys(Put(data, k, count, op))
  {
    var put := Put(data, k, count, op);
    PutKeys(data, k, count, op);
    KeyCount(data);
    KeyCount(put);
    if k in Keys(data) { assert Keys(put) == Keys(data); }
  }

  lemma {:induction false} GatherKeys<K>(into: seq<Datum<K>>, data: seq<Datum<K>>, op: Op)
    ensures Keys(Gather(into, data, op)) == Keys(into) + Keys(data)
    ensures UniqueKeys(into) ==> UniqueKeys(Gather(into, data, op))
    decreases |data|
  {
    if data != [] {
      var first := data[0];
      PutKeys(into, first.key, first.count, op);
      if UniqueKeys(into) { PutKeepsUnique(into, first.key, first.count, op); }
      GatherKeys(Put(into, first.key, first.count, op), data[1..], op);
      HeadKey(data);
    }
  }

  method GatherBoth<K(==)>(a: seq<Datum<K>>, b: seq<Datum<K>>, op: Op) returns (entries: seq<Datum<K>>)
    ensures entries == Gather([], a + b, op)
  {
    entries := [];
    var all := a + b;
    for i := 0 to |all|
      invariant Gather(entries, all[i..], op) == Gather([], all, op)
    {
      entries := Put(entries, all[i].key, all[i].count, op);
    }
  }

  // ------------------------------------------------------------------- sorting

  predicate LineBefore(a: nat, b: nat) { a < b }

  predicate BranchBefore(a: BranchKey, b: BranchKey) {
    a.line < b.line || (a.line == b.line && (a.block < b.block || (a.block == b.block && a.branch < b.branch)))
  }

  predicate LineLeq(a: Datum<nat>, b: Datum<nat>) { a.key <= b.key }

  predicate BranchLeq(a: Datum<BranchKey>, b: Datum<BranchKey>) { !BranchBefore(b.key, a.key) }

  lemma {:induction false} TallyReorders<K>(a: seq<Datum<K>>, b: seq<Datum<K>>, k: K, op: Op)
    requires multiset(a) == multiset(b)
    ensures Tally(a, k, op) == Tally(b, k, op)
    decreases |a|
  {
    SameSize(a, b);
    if a != [] {
      var i := HeadElsewhere(a, b);
      var front, back := b[..i], b[i + 1..];
      TallyReorders(a[1..], front + back, k, op);
      TallyConcat(front, back, k, op);
      TallyConcat(front, [b[i]] + back, k, op);
      assert ([b[i]] + back)[1..] == back && front + ([b[i]] + back) == b;
    }
  }

  lemma KeysReorder<K>(a: seq<Datum<K>>, b: seq<Datum<K>>)
    requires multiset(a) == multiset(b)
    ensures Keys(a) == Keys(b)
    ensures UniqueKeys(a) <==> UniqueKeys(b)
  {
    forall d ensures d in a <==> d in b { assert d in a <==> d in multiset(a); }
    SameSize(a, b);
    KeyCount(a);
    KeyCount(b);
  }

  ghost predicate Increasing<K(!new)>(data: seq<Datum<K>>, before: (K, K) -> bool) {
    forall i, j :: 0 <= i < j < |data| ==> before(data[i].key, data[j].key)
  }

  lemma SortedIncreases<K(!new)>(data: seq<Datum<K>>, leq: (Datum<K>, Datum<K>) -> bool, before: (K, K) -> bool)
    requires Sorting.Ranks(leq) && UniqueKeys(data)
    requires forall a, b :: leq(a, b) && a.key != b.key ==> before(a.key, b.key)
    ensures Increasing(Sorting.Sort(data, leq), before)
  {
    Sorting.SortIsSorted(data, leq);
    Sorting.SortPermutes(data, leq);
    KeysReorder(Sorting.Sort(data, leq), data);
  }

  // -------------------------------------------------------------- two records

  /** Two records of one file as one: totals counted again from the merged items, or the
      larger of the declared ones where there are no items. */
  function MergeTwo(e: Record, r: Record): Record {
    var lines := Sorting.Sort(Gather([], e.lines.data + r.lines.data, Sum), LineLeq);
    var functions := Gather([], e.functions.data + r.functions.data, Sum);
    var branches := Sorting.Sort(Gather([], e.branches.data + r.branches.data, Max), BranchLeq);
    var f := Totals(functions, Numbers.Max(e.functions.found, r.functions.found), Numbers.Max(e.functions.hit, r.functions.hit));
    var b := Totals(branches, Numbers.Max(e.branches.found, r.branches.found), Numbers.Max(e.branches.hit, r.branches.hit));
    RecordOf(Coverage(r.file, lines, functions, branches, Declared(f.found, f.hit, b.found, b.hit)))
  }

  function At(acc: seq<Record>, file: string): (i: nat)
    ensures i <= |acc|
    ensures i < |acc| ==> acc[i].file == file
    ensures forall j :: 0 <= j < i ==> acc[j].file != file
  {
    if acc == [] || acc[0].file == file then 0 else 1 + At(acc[1..], file)
  }

  function Insert(acc: seq<Record>, r: Record): seq<Record> {
    var i := At(acc, r.file);
    if i == |acc| then acc + [r] else acc[i := MergeTwo(acc[i], r)]
  }

  function MergeInto(acc: seq<Record>, records: seq<Record>): seq<Record>
    decreases |records|
  {
    if records == [] then acc else MergeInto(Insert(acc, records[0]), records[1..])
  }

  function Merged(records: seq<Record>): seq<Record> { MergeInto([], records) }

  method MergeLcov(records: seq<Record>) returns (byFile: seq<Record>)
    ensures byFile == Merged(records)
  {
    byFile := [];
    for n := 0 to |records|
      invariant MergeInto(byFile, records[n..]) == Merged(records)
    {
      var record := records[n];
      var i := At(byFile, record.file);
      if i == |byFile| {
        byFile := byFile + [record];
      } else {
        var existing := byFile[i];
        var lines := GatherBoth(existing.lines.data, record.lines.data, Sum);
        var functions := GatherBoth(existing.functions.data, record.functions.data, Sum);
        var branches := GatherBoth(existing.branches.data, record.branches.data, Max);
        var lineData, branchData := Sorting.Sort(lines, LineLeq), Sorting.Sort(branches, BranchLeq);
        var totals := Declared(
          if |functions| > 0 then |functions| else Numbers.Max(existing.functions.found, record.functions.found),
          if |functions| > 0 then Hits(functions) else Numbers.Max(existing.functions.hit, record.functions.hit),
          if |branchData| > 0 then |branchData| else Numbers.Max(existing.branches.found, record.branches.found),
          if |branchData| > 0 then Hits(branchData) else Numbers.Max(existing.branches.hit, record.branches.hit));
        var merged := Finish(record.file, lineData, functions, branchData, totals);
        byFile := byFile[i := merged];
      }
    }
  }

  // ----------------------------------------------- one record per file, in order

  ghost predicate UniqueFiles(rs: seq<Record>) {
    forall i, j :: 0 <= i < j < |rs| ==> rs[i].file != rs[j].file
  }

  function Files(rs: seq<Record>): seq<string> { seq(|rs|, i requires 0 <= i < |rs| => rs[i].file) }

  lemma InsertFiles(acc: seq<Record>, r: Record)
    ensures Files(Insert(acc, r)) == if r.file in Files(acc) then Files(acc) else Files(acc) + [r.file]
  {
    var i := At(acc, r.file);
    if i < |acc| {
      assert Files(acc)[i] == r.file;
    }
  }

  lemma NextFiles(files: seq<string>, next: seq<string>, seen: seq<string>, file: string)
    requires files == Distinct(seen)
    requires next == if file in files then files else files + [file]
    ensures next == Distinct(seen + [file])
  {
    DistinctKeepsAll(seen);
    DistinctSnoc(seen, file);
  }

  lemma {:induction false} MergeIntoFiles(acc: seq<Record>, seen: seq<string>, records: seq<Record>)
    requires Files(acc) == Distinct(seen)
    ensures Files(MergeInto(acc, records)) == Distinct(seen + Files(records))
    decreases |records|
  {
    if records == [] {
      assert seen + Files(records) == seen;
    } else {
      var r, next := records[0], Insert(acc, records[0]);
      InsertFiles(acc, r);
      NextFiles(Files(acc), Files(next), seen, r.file);
      FilesTail(seen, records);
      MergeIntoFiles(next, seen + [r.file], records[1..]);
    }
  }

  lemma FilesTail(seen: seq<string>, records: seq<Record>)
    requires records != []
    ensures seen + [records[0].file] + Files(records[1..]) == seen + Files(records)
  {
  }

  lemma FilesApart(rs: seq<Record>)
    requires NoRepeats(Files(rs))
    ensures UniqueFiles(rs)
  {
    forall i, j | 0 <= i < j < |rs| ensures rs[i].file != rs[j].file {
      assert Files(rs)[i] != Files(rs)[j];
    }
  }

  /** One record per file, in the order the files were first seen. */
  lemma OneRecordPerFile(records: seq<Record>)
    ensures Files(Merged(records)) == Distinct(Files(records))
    ensures UniqueFiles(Merged(records))
  {
    MergeIntoFiles([], [], records);
    assert [] + Files(records) == Files(records);
    DistinctKeepsAll(Files(records));
    FilesApart(Merged(records));
  }

  // ------------------------------------------------------- merging in stages

  lemma {:induction false} MergeIntoConcat(acc: seq<Record>, a: seq<Record>, b: seq<Record>)
    ensures MergeInto(acc, a + b) == MergeInto(MergeInto(acc, a), b)
    decreases |a|
  {
    if a == [] {
      assert a + b == b;
    } else {
      assert (a + b)[0] == a[0] && (a + b)[1..] == a[1..] + b;
      MergeIntoConcat(Insert(acc, a[0]), a[1..], b);
    }
  }

  lemma {:induction false} UniqueFilesMergeToThemselves(acc: seq<Record>, records: seq<Record>)
    requires UniqueFiles(acc + records)
    ensures MergeInto(acc, records) == acc + records
    decreases |records|
  {
    if records == [] {
      assert acc + records == acc;
    } else {
      var all := acc + records;
      assert all[|acc|] == records[0];
      assert At(acc, records[0].file) == |acc| by {
        assert forall j :: 0 <= j < |acc| ==> all[j] == acc[j];
      }
      assert acc + [records[0]] + records[1..] == all;
      UniqueFilesMergeToThemselves(acc + [records[0]], records[1..]);
    }
  }

  /** Merging what was merged with what came later is merging everything at once. */
  lemma IncrementalMerge(a: seq<Record>, b: seq<Record>)
    ensures Merged(Merged(a) + b) == Merged(a + b)
  {
    OneRecordPerFile(a);
    assert [] + Merged(a) == Merged(a);
    UniqueFilesMergeToThemselves([], Merged(a));
    MergeIntoConcat([], Merged(a), b);
    MergeIntoConcat([], a, b);
  }

  // -------------------------------------------------------------------- counts

  /** All items of one section over every record of `file`. */
  function Pool<K>(rs: seq<Record>, file: string, data: Record -> seq<Datum<K>>): seq<Datum<K>> {
    if rs == [] then [] else (if rs[0].file == file then data(rs[0]) else []) + Pool(rs[1..], file, data)
  }

  lemma {:induction false} PoolConcat<K>(a: seq<Record>, b: seq<Record>, file: string, data: Record -> seq<Datum<K>>)
    ensures Pool(a + b, file, data) == Pool(a, file, data) + Pool(b, file, data)
  {
    if a == [] {
      assert a + b == b;
    } else {
      assert (a + b)[0] == a[0] && (a + b)[1..] == a[1..] + b;
      PoolConcat(a[1..], b, file, data);
    }
  }

  /** Merging two records keeps a section's keys and combines its counts key by key. */
  ghost predicate Combines<K(!new)>(data: Record -> seq<Datum<K>>, op: Op) {
    && (forall e, r :: Keys(data(MergeTwo(e, r))) == Keys(data(e)) + Keys(data(r)))
    && (forall e, r, k :: Tally(data(MergeTwo(e, r)), k, op) == Combine(op, Tally(data(e), k, op), Tally(data(r), k, op)))
  }

  /** The same keys, coming to the same under each. */
  ghost predicate SameItems<K(!new)>(a: seq<Datum<K>>, b: seq<Datum<K>>, op: Op) {
    Keys(a) == Keys(b) && forall k :: Tally(a, k, op) == Tally(b, k, op)
  }

  lemma SameThreeParts<K(!new)>(a: seq<Datum<K>>, m: seq<Datum<K>>, e: seq<Datum<K>>, c: seq<Datum<K>>, r: seq<Datum<K>>, op: Op)
    requires Keys(m) == Keys(e) + Keys(r)
    requires forall k :: Tally(m, k, op) == Combine(op, Tally(e, k, op), Tally(r, k, op))
    ensures SameItems(a + m + c, a + e + c + r, op)
  {
    KeysConcat(a, m);
    KeysConcat(a + m, c);
    KeysConcat(a, e);
    KeysConcat(a + e, c);
    KeysConcat(a + e + c, r);
    forall k ensures Tally(a + m + c, k, op) == Tally(a + e + c + r, k, op) {
      TallyConcat(a, m, k, op);
      TallyConcat(a + m, c, k, op);
      TallyConcat(a, e, k, op);
      TallyConcat(a + e, c, k, op);
      TallyConcat(a + e + c, r, k, op);
    }
  }

  lemma SameBefore<K(!new)>(a: seq<Datum<K>>, b: seq<Datum<K>>, c: seq<Datum<K>>, op: Op)
    requires SameItems(a, b, op)
    ensures SameItems(a + c, b + c, op)
  {
    KeysConcat(a, c);
    KeysConcat(b, c);
    forall k ensures Tally(a + c, k, op) == Tally(b + c, k, op) {
      TallyConcat(a, c, k, op);
      TallyConcat(b, c, k, op);
    }
  }

  lemma {:induction false} PoolOfRecord<K>(r: Record, file: string, data: Record -> seq<Datum<K>>)
    ensures Pool([r], file, data) == if r.file == file then data(r) else []
  {
    assert [r][1..] == [];
  }

  lemma PoolOfParts<K>(before: seq<Record>, r: Record, after: seq<Record>, file: string, data: Record -> seq<Datum<K>>)
    ensures Pool(before + [r] + after, file, data)
         == Pool(before, file, data) + (if r.file == file then data(r) else []) + Pool(after, file, data)
  {
    PoolConcat(before + [r], after, file, data);
    PoolConcat(before, [r], file, data);
    PoolOfRecord(r, file, data);
  }

  /** A record of the file in the place of an earlier one, combining that with another. */
  lemma ReplacedPools<K(!new)>(acc: seq<Record>, i: nat, m: Record, r: Record, file: string,
                               data: Record -> seq<Datum<K>>, op: Op)
    requires i < |acc| && acc[i].file == m.file == r.file
    requires Keys(data(m)) == Keys(data(acc[i])) + Keys(data(r))
    requires forall k :: Tally(data(m), k, op) == Combine(op, Tally(data(acc[i]), k, op), Tally(data(r), k, op))
    ensures SameItems(Pool(acc[i := m], file, data), Pool(acc + [r], file, data), op)
  {
    var before, e, after := acc[..i], acc[i], acc[i + 1..];
    assert acc == before + [e] + after && acc[i := m] == before + [m] + after;
    PoolConcat(acc, [r], file, data);
    PoolOfParts(before, e, after, file, data);
    PoolOfParts(before, m, after, file, data);
    PoolOfRecord(r, file, data);
    if r.file == file {
      SameThreeParts(Pool(before, file, data), data(m), data(e), Pool(after, file, data), data(r), op);
    } else {
      assert Pool(acc + [r], file, data) == Pool(acc[i := m], file, data) + [] == Pool(acc[i := m], file, data);
    }
  }

  lemma InsertPools<K(!new)>(acc: seq<Record>, r: Record, file: string, data: Record -> seq<Datum<K>>, op: Op)
    requires Combines(data, op)
    ensures SameItems(Pool(Insert(acc, r), file, data), Pool(acc + [r], file, data), op)
  {
    var i := At(acc, r.file);
    if i < |acc| {
      ReplacedPools(acc, i, MergeTwo(acc[i], r), r, file, data, op);
    }
  }

  lemma PoolsGoOn<K(!new)>(out: seq<Record>, a: seq<Record>, b: seq<Record>, rest: seq<Record>, file: string,
                            data: Record -> seq<Datum<K>>, op: Op)
    requires SameItems(Pool(a, file, data), Pool(b, file, data), op)
    requires SameItems(Pool(out, file, data), Pool(a + rest, file, data), op)
    ensures SameItems(Pool(out, file, data), Pool(b + rest, file, data), op)
  {
    PoolConcat(a, rest, file, data);
    PoolConcat(b, rest, file, data);
    SameBefore(Pool(a, file, data), Pool(b, file, data), Pool(rest, file, data), op);
  }

  lemma {:induction false} MergeIntoPools<K(!new)>(acc: seq<Record>, records: seq<Record>, file: string,
                                                    data: Record -> seq<Datum<K>>, op: Op)
    requires Combines(data, op)
    ensures SameItems(Pool(MergeInto(acc, records), file, data), Pool(acc + records, file, data), op)
    decreases |records|
  {
    if records == [] {
      assert acc + records == acc;
    } else {
      var next := Insert(acc, records[0]);
      MergeIntoPools(next, records[1..], file, data, op);
      InsertPools(acc, records[0], file, data, op);
      PoolsGoOn(MergeInto(next, records[1..]), next, acc + [records[0]], records[1..], file, data, op);
      HeadMoves(acc, records);
    }
  }

  lemma {:induction false} PoolOfOne<K>(rs: seq<Record>, i: nat, data: Record -> seq<Datum<K>>)
    requires UniqueFiles(rs) && i < |rs|
    ensures Pool(rs, rs[i].file, data) == data(rs[i])
  {
    var file := rs[i].file;
    if i == 0 {
      NoPool(rs[1..], file, data);
    } else {
      PoolOfOne(rs[1..], i - 1, data);
    }
  }

  lemma {:induction false} NoPool<K>(rs: seq<Record>, file: string, data: Record -> seq<Datum<K>>)
    requires forall i :: 0 <= i < |rs| ==> rs[i].file != file
    ensures Pool(rs, file, data) == []
  {
    if rs != [] { NoPool(rs[1..], file, data); }
  }

  const LINES := (r: Record) => r.lines.data
  const FUNCTIONS := (r: Record) => r.functions.data
  const BRANCHES := (r: Record) => r.branches.data

  lemma SortedItems<K(!new)>(a: seq<Datum<K>>, b: seq<Datum<K>>, op: Op, leq: (Datum<K>, Datum<K>) -> bool)
    ensures SameItems(Sorting.Sort(Gather([], a + b, op), leq), a + b, op)
    ensures SameItems(Gather([], a + b, op), a + b, op)
    ensures UniqueKeys(Sorting.Sort(Gather([], a + b, op), leq)) && UniqueKeys(Gather([], a + b, op))
  {
    var gathered := Gather([], a + b, op);
    GatherKeys([], a + b, op);
    Sorting.SortPermutes(gathered, leq);
    KeysReorder(Sorting.Sort(gathered, leq), gathered);
    forall k ensures Tally(Sorting.Sort(gathered, leq), k, op) == Tally(gathered, k, op) == Tally(a + b, k, op) {
      TallyReorders(Sorting.Sort(gathered, leq), gathered, k, op);
      TallyGather([], a + b, op, k);
    }
  }

  lemma MergedSections(e: Record, r: Record)
    ensures var m := MergeTwo(e, r);
      && SameItems(m.lines.data, e.lines.data + r.lines.data, Sum)
      && SameItems(m.functions.data, e.functions.data + r.functions.data, Sum)
      && SameItems(m.branches.data, e.branches.data + r.branches.data, Max)
      && UniqueKeys(m.lines.data) && UniqueKeys(m.functions.data) && UniqueKeys(m.branches.data)
  {
    SortedItems(e.lines.data, r.lines.data, Sum, LineLeq);
    SortedItems(e.functions.data, r.functions.data, Sum, (a, b) => true);
    SortedItems(e.branches.data, r.branches.data, Max, BranchLeq);
  }

  lemma ConcatCombines<K(!new)>(m: seq<Datum<K>>, a: seq<Datum<K>>, b: seq<Datum<K>>, op: Op)
    requires SameItems(m, a + b, op)
    ensures Keys(m) == Keys(a) + Keys(b)
    ensures forall k :: Tally(m, k, op) == Combine(op, Tally(a, k, op), Tally(b, k, op))
  {
    KeysConcat(a, b);
    forall k ensures Tally(m, k, op) == Combine(op, Tally(a, k, op), Tally(b, k, op)) {
      TallyConcat(a, b, k, op);
    }
  }

  lemma SectionsCombine()
    ensures Combines(LINES, Sum) && Combines(FUNCTIONS, Sum) && Combines(BRANCHES, Max)
  {
    forall e, r
      ensures var m := MergeTwo(e, r);
        && Keys(LINES(m)) == Keys(LINES(e)) + Keys(LINES(r))
        && (forall k :: Tally(LINES(m), k, Sum) == Combine(Sum, Tally(LINES(e), k, Sum), Tally(LINES(r), k, Sum)))
    {
      MergedSections(e, r);
      ConcatCombines(LINES(MergeTwo(e, r)), LINES(e), LINES(r), Sum);
    }
    forall e, r
      ensures var m := MergeTwo(e, r);
        && Keys(FUNCTIONS(m)) == Keys(FUNCTIONS(e)) + Keys(FUNCTIONS(r))
        && (forall k :: Tally(FUNCTIONS(m), k, Sum) == Combine(Sum, Tally(FUNCTIONS(e), k, Sum), Tally(FUNCTIONS(r), k, Sum)))
    {
      MergedSections(e, r);
      ConcatCombines(FUNCTIONS(MergeTwo(e, r)), FUNCTIONS(e), FUNCTIONS(r), Sum);
    }
    forall e, r
      ensures var m := MergeTwo(e, r);
        && Keys(BRANCHES(m)) == Keys(BRANCHES(e)) + Keys(BRANCHES(r))
        && (forall k :: Tally(BRANCHES(m), k, Max) == Combine(Max, Tally(BRANCHES(e), k, Max), Tally(BRANCHES(r), k, Max)))
    {
      MergedSections(e, r);
      ConcatCombines(BRANCHES(MergeTwo(e, r)), BRANCHES(e), BRANCHES(r), Max);
    }
  }

  /** A merged record lists exactly what the records of its file list, each count the sum (for a
      branch the maximum) over all of them. */
  lemma MergedCounts(records: seq<Record>, i: nat)
    requires i < |Merged(records)|
    ensures var m := Merged(records)[i];
      && SameItems(m.lines.data, Pool(records, m.file, LINES), Sum)
      && SameItems(m.functions.data, Pool(records, m.file, FUNCTIONS), Sum)
      && SameItems(m.branches.data, Pool(records, m.file, BRANCHES), Max)
  {
    var out := Merged(records);
    var file := out[i].file;
    assert [] + records == records;
    OneRecordPerFile(records);
    SectionsCombine();
    PoolOfOne(out, i, LINES);
    PoolOfOne(out, i, FUNCTIONS);
    PoolOfOne(out, i, BRANCHES);
    MergeIntoPools([], records, file, LINES, Sum);
    MergeIntoPools([], records, file, FUNCTIONS, Sum);
    MergeIntoPools([], records, file, BRANCHES, Max);
  }

  lemma {:induction false} PoolReorders<K>(a: seq<Record>, b: seq<Record>, file: string, data: Record -> seq<Datum<K>>)
    requires multiset(a) == multiset(b)
    ensures multiset(Pool(a, file, data)) == multiset(Pool(b, file, data))
    decreases |a|
  {
    SameSize(a, b);
    if a != [] {
      var i := HeadElsewhere(a, b);
      PoolReorders(a[1..], b[..i] + b[i + 1..], file, data);
      PoolConcat(b[..i], b[i + 1..], file, data);
      PoolOfParts(b[..i], b[i], b[i + 1..], file, data);
    }
  }

  lemma ReorderedPool<K(!new)>(a: seq<Record>, b: seq<Record>, file: string, data: Record -> seq<Datum<K>>, op: Op)
    requires multiset(a) == multiset(b)
    ensures SameItems(Pool(a, file, data), Pool(b, file, data), op)
  {
    var p, q := Pool(a, file, data), Pool(b, file, data);
    PoolReorders(a, b, file, data);
    KeysReorder(p, q);
    forall k ensures Tally(p, k, op) == Tally(q, k, op) { TallyReorders(p, q, k, op); }
  }

  /** Two records merged list each line, function and branch once, lines and branches in order. */
  lemma MergedItemsInOrder(e: Record, r: Record)
    ensures var m := MergeTwo(e, r);
      && Increasing(m.lines.data, LineBefore) && Increasing(m.branches.data, BranchBefore)
      && UniqueKeys(m.functions.data)
  {
    var lines := Gather([], e.lines.data + r.lines.data, Sum);
    var branches := Gather([], e.branches.data + r.branches.data, Max);
    GatherKeys([], e.lines.data + r.lines.data, Sum);
    GatherKeys([], e.functions.data + r.functions.data, Sum);
    GatherKeys([], e.branches.data + r.branches.data, Max);
    SortedIncreases(lines, LineLeq, LineBefore);
    SortedIncreases(branches, BranchLeq, BranchBefore);
  }

  // ------------------------------------------------------------ what was found

  function Those(rs: seq<Record>, file: string): seq<Record> {
    if rs == [] then [] else Those(rs[..|rs| - 1], file) + if rs[|rs| - 1].file == file then [rs[|rs| - 1]] else []
  }

  /** A section that lists nothing twice: found is how many there are, hit how many of them were. */
  ghost predicate ListsOnce<K>(section: Section<K>) {
    UniqueKeys(section.data) && section.found == |Keys(section.data)| && section.hit == Hits(section.data)
  }

  /** Lines go up, and so do branches by line, block and branch. */
  ghost predicate GoUp(m: Record) {
    && (forall i, j :: 0 <= i < j < |m.lines.data| ==> m.lines.data[i].key < m.lines.data[j].key)
    && (forall i, j :: 0 <= i < j < |m.branches.data| ==> var (a, b) := (m.branches.data[i].key, m.branches.data[j].key);
          a.line < b.line || (a.line == b.line && (a.block < b.block || (a.block == b.block && a.branch < b.branch))))
  }

  lemma MergedGoUp(e: Record, r: Record)
    ensures GoUp(MergeTwo(e, r))
  {
    var m := MergeTwo(e, r);
    MergedItemsInOrder(e, r);
    forall i, j | 0 <= i < j < |m.branches.data| ensures BranchBefore(m.branches.data[i].key, m.branches.data[j].key) {
    }
    forall i, j | 0 <= i < j < |m.lines.data| ensures LineBefore(m.lines.data[i].key, m.lines.data[j].key) {
    }
  }

  /** So every section with items, and the lines in any case. */
  ghost predicate Counted(m: Record) {
    && GoUp(m)
    && ListsOnce(m.lines)
    && (m.functions.data != [] ==> ListsOnce(m.functions))
    && (m.branches.data != [] ==> ListsOnce(m.branches))
  }

  /** The largest of what the records declare, or nothing. */
  function Most(rs: seq<Record>, declared: Record -> nat): nat {
    if rs == [] then 0 else Numbers.Max(Most(rs[..|rs| - 1], declared), declared(rs[|rs| - 1]))
  }

  const FUNCTIONS_FOUND := (r: Record) => r.functions.found
  const FUNCTIONS_HIT := (r: Record) => r.functions.hit
  const BRANCHES_FOUND := (r: Record) => r.branches.found
  const BRANCHES_HIT := (r: Record) => r.branches.hit

  /** A section without items has the largest totals any record of the file declares. */
  ghost predicate DeclaredMost(m: Record, those: seq<Record>) {
    && (m.functions.data == [] ==>
          m.functions.found == Most(those, FUNCTIONS_FOUND) && m.functions.hit == Most(those, FUNCTIONS_HIT))
    && (m.branches.data == [] ==>
          m.branches.found == Most(those, BRANCHES_FOUND) && m.branches.hit == Most(those, BRANCHES_HIT))
  }

  lemma MostSnoc(rs: seq<Record>, r: Record, declared: Record -> nat)
    ensures Most(rs + [r], declared) == Numbers.Max(Most(rs, declared), declared(r))
  {
    assert (rs + [r])[..|rs + [r]| - 1] == rs;
  }

  /** A merged section without items comes of two without, and declares the larger of each total. */
  lemma MergedDeclares(e: Record, r: Record)
    ensures var m := MergeTwo(e, r);
      && (m.functions.data == [] ==>
            && e.functions.data == []
            && m.functions.found == Numbers.Max(e.functions.found, r.functions.found)
            && m.functions.hit == Numbers.Max(e.functions.hit, r.functions.hit))
      && (m.branches.data == [] ==>
            && e.branches.data == []
            && m.branches.found == Numbers.Max(e.branches.found, r.branches.found)
            && m.branches.hit == Numbers.Max(e.branches.hit, r.branches.hit))
  {
    MergedSections(e, r);
    NoKeysNoItems(MergeTwo(e, r).functions.data);
    NoKeysNoItems(MergeTwo(e, r).branches.data);
    KeysConcat(e.functions.data, r.functions.data);
    KeysConcat(e.branches.data, r.branches.data);
    NoKeysNoItems(e.functions.data);
    NoKeysNoItems(e.branches.data);
  }

  lemma MergedIsMost(e: Record, r: Record, m: Record, those: seq<Record>)
    requires DeclaredMost(e, those) && m == MergeTwo(e, r)
    ensures DeclaredMost(m, those + [r])
  {
    MergedDeclares(e, r);
    MostSnoc(those, r, FUNCTIONS_FOUND);
    MostSnoc(those, r, FUNCTIONS_HIT);
    MostSnoc(those, r, BRANCHES_FOUND);
    MostSnoc(those, r, BRANCHES_HIT);
  }

  lemma NoKeysNoItems<K>(data: seq<Datum<K>>)
    ensures Keys(data) == {} <==> data == []
  {
    if data != [] { HeadKey(data); }
  }

  lemma MergeTwoCounts(e: Record, r: Record)
    ensures Counted(MergeTwo(e, r))
  {
    var m := MergeTwo(e, r);
    MergedSections(e, r);
    MergedGoUp(e, r);
    KeyCount(m.lines.data);
    KeyCount(m.functions.data);
    KeyCount(m.branches.data);
  }

  /** The record of a file is its only one, or was merged, and declares no less than any. */
  ghost predicate Stands(m: Record, seen: seq<Record>) {
    && (if |Those(seen, m.file)| > 1 then Counted(m) else Those(seen, m.file) == [m])
    && DeclaredMost(m, Those(seen, m.file))
  }

  ghost predicate AllStand(acc: seq<Record>, seen: seq<Record>) {
    && (forall i :: 0 <= i < |acc| ==> Stands(acc[i], seen))
    && (forall r :: r in seen ==> r.file in Files(acc))
  }

  lemma {:induction false} NoneOf(seen: seq<Record>, file: string)
    ensures Those(seen, file) == [] <==> forall r :: r in seen ==> r.file != file
  {
    if seen != [] {
      var init, last := seen[..|seen| - 1], seen[|seen| - 1];
      NoneOf(init, file);
      assert seen == init + [last];
    }
  }

  lemma ThoseSnoc(seen: seq<Record>, r: Record, file: string)
    ensures Those(seen + [r], file) == Those(seen, file) + if r.file == file then [r] else []
  {
    assert (seen + [r])[..|seen + [r]| - 1] == seen;
  }

  lemma MergedStands(e: Record, r: Record, m: Record, seen: seq<Record>)
    requires Stands(e, seen) && e.file == r.file && m == MergeTwo(e, r) && Those(seen, r.file) != []
    ensures Stands(m, seen + [r])
  {
    ThoseSnoc(seen, r, r.file);
    MergeTwoCounts(e, r);
    MergedIsMost(e, r, m, Those(seen, r.file));
    assert m.file == r.file;
  }

  lemma OtherStands(m: Record, r: Record, seen: seq<Record>)
    requires Stands(m, seen) && m.file != r.file
    ensures Stands(m, seen + [r])
  {
    ThoseSnoc(seen, r, m.file);
    assert Those(seen + [r], m.file) == Those(seen, m.file);
  }

  lemma FirstStands(r: Record, seen: seq<Record>)
    requires Those(seen, r.file) == []
    ensures Stands(r, seen + [r])
  {
    ThoseSnoc(seen, r, r.file);
    assert Those(seen + [r], r.file) == [r];
    MostOfOne(r);
  }

  lemma InsertStands(acc: seq<Record>, r: Record, seen: seq<Record>)
    requires UniqueFiles(acc) && AllStand(acc, seen)
    ensures UniqueFiles(Insert(acc, r)) && AllStand(Insert(acc, r), seen + [r])
  {
    var i, next := At(acc, r.file), Insert(acc, r);
    InsertFiles(acc, r);
    NoneOf(seen, r.file);
    if i == |acc| {
      NotAmong(acc, seen, r);
      FirstStands(r, seen);
    } else {
      assert Stands(acc[i], seen);
      MergedStands(acc[i], r, next[i], seen);
    }
    OthersStand(acc, r, seen, i);
    FilesHeld(acc, seen, r, Files(next));
  }

  lemma OthersStand(acc: seq<Record>, r: Record, seen: seq<Record>, i: nat)
    requires UniqueFiles(acc) && AllStand(acc, seen) && i == At(acc, r.file)
    ensures forall j :: 0 <= j < |acc| && j != i ==> Stands(acc[j], seen + [r])
  {
    forall j | 0 <= j < |acc| && j != i ensures Stands(acc[j], seen + [r]) {
      assert Stands(acc[j], seen);
      OtherStands(acc[j], r, seen);
    }
  }

  lemma FilesHeld(acc: seq<Record>, seen: seq<Record>, r: Record, files: seq<string>)
    requires forall x :: x in seen ==> x.file in Files(acc)
    requires files == if r.file in Files(acc) then Files(acc) else Files(acc) + [r.file]
    ensures forall x :: x in seen + [r] ==> x.file in files
  {
  }

  lemma MostOfOne(r: Record)
    ensures DeclaredMost(r, [r])
  {
    assert [r][..0] == [];
  }

  lemma NotAmong(acc: seq<Record>, seen: seq<Record>, r: Record)
    requires AllStand(acc, seen) && At(acc, r.file) == |acc|
    ensures forall x :: x in seen ==> x.file != r.file
  {
    forall x | x in seen ensures x.file != r.file {
      assert x.file in Files(acc);
      var j :| 0 <= j < |acc| && Files(acc)[j] == x.file;
    }
  }

  lemma {:induction false} MergeIntoStands(acc: seq<Record>, records: seq<Record>, seen: seq<Record>)
    requires UniqueFiles(acc) && AllStand(acc, seen)
    ensures AllStand(MergeInto(acc, records), seen + records)
    decreases |records|
  {
    if records == [] {
      assert seen + records == seen;
    } else {
      InsertStands(acc, records[0], seen);
      MergeIntoStands(Insert(acc, records[0]), records[1..], seen + [records[0]]);
      HeadMoves(seen, records);
    }
  }

  /** A file of one record keeps it as it is. One of several lists each line, function and branch
      of them once, and what it reports found is how many different ones they have. A section
      nobody listed items of has the largest totals declared for the file. */
  lemma MergedFound(records: seq<Record>, i: nat)
    requires i < |Merged(records)|
    ensures var m := Merged(records)[i];
      && DeclaredMost(m, Those(records, m.file))
      && if |Those(records, m.file)| > 1 then
           && Counted(m)
           && m.lines.found == |Keys(Pool(records, m.file, LINES))|
           && (m.functions.data != [] ==> m.functions.found == |Keys(Pool(records, m.file, FUNCTIONS))|)
           && (m.branches.data != [] ==> m.branches.found == |Keys(Pool(records, m.file, BRANCHES))|)
         else Those(records, m.file) == [m]
  {
    MergeIntoStands([], records, []);
    assert [] + records == records;
    assert Stands(Merged(records)[i], records);
    MergedCounts(records, i);
  }

  lemma {:induction false} NothingUnder<K>(data: seq<Datum<K>>, k: K, op: Op)
    requires k !in Keys(data)
    ensures Tally(data, k, op) == 0
  {
    if data != [] {
      HeadKey(data);
      NothingUnder(data[1..], k, op);
    }
  }

  ghost function HitKeys<K(!new)>(data: seq<Datum<K>>, op: Op): set<K> { set k | k in Keys(data) && Tally(data, k, op) > 0 }

  /** With each key once, hits are the keys that come to something. */
  lemma {:induction false} HitsAreKeys<K(!new)>(data: seq<Datum<K>>, op: Op)
    requires UniqueKeys(data)
    ensures Hits(data) == |HitKeys(data, op)|
  {
    if data == [] {
      assert HitKeys(data, op) == {};
    } else {
      UniqueHead(data);
      HitsAreKeys(data[1..], op);
      HitHead(data, op);
    }
  }

  lemma UniqueHead<K>(data: seq<Datum<K>>)
    requires data != [] && UniqueKeys(data)
    ensures UniqueKeys(data[1..]) && data[0].key !in Keys(data[1..])
  {
    HeadKey(data);
    KeyCount(data);
    KeyCount(data[1..]);
  }

  lemma HitHead<K(!new)>(data: seq<Datum<K>>, op: Op)
    requires data != [] && data[0].key !in Keys(data[1..])
    ensures HitKeys(data, op) == HitKeys(data[1..], op) + if data[0].count > 0 then {data[0].key} else {}
    ensures data[0].key !in HitKeys(data[1..], op)
  {
    HeadKey(data);
    NothingUnder(data[1..], data[0].key, op);
  }

  lemma SameSections<K(!new)>(p: Section<K>, q: Section<K>, op: Op)
    requires ListsOnce(p) && ListsOnce(q) && SameItems(p.data, q.data, op)
    ensures p.found == q.found && p.hit == q.hit
  {
    HitsAreKeys(p.data, op);
    HitsAreKeys(q.data, op);
    assert HitKeys(p.data, op) == HitKeys(q.data, op);
  }

  lemma {:induction false} ThoseConcat(a: seq<Record>, b: seq<Record>, file: string)
    ensures Those(a + b, file) == Those(a, file) + Those(b, file)
    decreases |b|
  {
    if b == [] {
      assert a + b == a;
    } else {
      assert (a + b)[..|a + b| - 1] == a + b[..|b| - 1] && (a + b)[|a + b| - 1] == b[|b| - 1];
      ThoseConcat(a, b[..|b| - 1], file);
    }
  }

  lemma {:induction false} ThoseReorder(a: seq<Record>, b: seq<Record>, file: string)
    requires multiset(a) == multiset(b)
    ensures multiset(Those(a, file)) == multiset(Those(b, file))
    decreases |a|
  {
    SameSize(a, b);
    if a != [] {
      var i := HeadElsewhere(a, b);
      var front, back := b[..i], b[i + 1..];
      ThoseReorder(a[1..], front + back, file);
      assert a == [a[0]] + a[1..];
      ThoseConcat([a[0]], a[1..], file);
      ThoseConcat(front, back, file);
      ThoseConcat(front + [b[i]], back, file);
      ThoseConcat(front, [b[i]], file);
    }
  }

  lemma {:induction false} MostConcat(a: seq<Record>, b: seq<Record>, declared: Record -> nat)
    ensures Most(a + b, declared) == Numbers.Max(Most(a, declared), Most(b, declared))
    decreases |b|
  {
    if b == [] {
      assert a + b == a;
    } else {
      assert (a + b)[..|a + b| - 1] == a + b[..|b| - 1] && (a + b)[|a + b| - 1] == b[|b| - 1];
      MostConcat(a, b[..|b| - 1], declared);
    }
  }

  lemma {:induction false} MostReorders(a: seq<Record>, b: seq<Record>, declared: Record -> nat)
    requires multiset(a) == multiset(b)
    ensures Most(a, declared) == Most(b, declared)
    decreases |a|
  {
    SameSize(a, b);
    if a != [] {
      var i := HeadElsewhere(a, b);
      var front, back := b[..i], b[i + 1..];
      MostReorders(a[1..], front + back, declared);
      assert a == [a[0]] + a[1..];
      MostConcat([a[0]], a[1..], declared);
      MostConcat(front, back, declared);
      MostConcat(front + [b[i]], back, declared);
      MostConcat(front, [b[i]], declared);
    }
  }

  ghost predicate SameTotals(m: Record, n: Record) {
    && m.lines.found == n.lines.found && m.lines.hit == n.lines.hit
    && m.functions.found == n.functions.found && m.functions.hit == n.functions.hit
    && m.branches.found == n.branches.found && m.branches.hit == n.branches.hit
  }

  /** Lists, counts and totals of a file's merged record do not depend on the order its records come in. */
  lemma CountsIgnoreOrder(a: seq<Record>, b: seq<Record>, i: nat, j: nat)
    requires multiset(a) == multiset(b)
    requires i < |Merged(a)| && j < |Merged(b)| && Merged(a)[i].file == Merged(b)[j].file
    ensures var m, n := Merged(a)[i], Merged(b)[j];
      && SameItems(m.lines.data, n.lines.data, Sum)
      && SameItems(m.functions.data, n.functions.data, Sum)
      && SameItems(m.branches.data, n.branches.data, Max)
      && SameTotals(m, n)
  {
    var m, n := Merged(a)[i], Merged(b)[j];
    MergedCounts(a, i);
    MergedCounts(b, j);
    ReorderedPool(a, b, m.file, LINES, Sum);
    ReorderedPool(a, b, m.file, FUNCTIONS, Sum);
    ReorderedPool(a, b, m.file, BRANCHES, Max);
    MergedFound(a, i);
    MergedFound(b, j);
    ThoseReorder(a, b, m.file);
    TotalsIgnoreOrder(m, n, Those(a, m.file), Those(b, m.file));
  }

  lemma TotalsIgnoreOrder(m: Record, n: Record, those: seq<Record>, others: seq<Record>)
    requires multiset(those) == multiset(others)
    requires if |those| > 1 then Counted(m) else those == [m]
    requires if |others| > 1 then Counted(n) else others == [n]
    requires DeclaredMost(m, those) && DeclaredMost(n, others)
    requires SameItems(m.lines.data, n.lines.data, Sum) && SameItems(m.functions.data, n.functions.data, Sum)
    requires SameItems(m.branches.data, n.branches.data, Max)
    ensures SameTotals(m, n)
  {
    SameSize(those, others);
    if |those| > 1 {
      NoKeysNoItems(m.functions.data);
      NoKeysNoItems(n.functions.data);
      NoKeysNoItems(m.branches.data);
      NoKeysNoItems(n.branches.data);
      MostReorders(those, others, FUNCTIONS_FOUND);
      MostReorders(those, others, FUNCTIONS_HIT);
      MostReorders(those, others, BRANCHES_FOUND);
      MostReorders(those, others, BRANCHES_HIT);
      SameSections(m.lines, n.lines, Sum);
      if m.functions.data != [] { SameSections(m.functions, n.functions, Sum); }
      if m.branches.data != [] { SameSections(m.branches, n.branches, Max); }
    } else {
      assert m in multiset(others);
    }
  }

  // -------------------------------------------------------------------- totals

  /** No section claims more hits than it found. */
  predicate Sane(r: Record) {
    r.lines.hit <= r.lines.found && r.functions.hit <= r.functions.found && r.branches.hit <= r.branches.found
  }

  lemma MergeTwoKeeps(e: Record, r: Record)
    ensures Sane(e) && Sane(r) ==> Sane(MergeTwo(e, r))
    ensures CleanRecord(e) && CleanRecord(r) ==> Printable(MergeTwo(e, r))
    ensures MergeTwo(e, r).file == r.file
  {
    if CleanRecord(e) && CleanRecord(r) {
      var all := e.functions.data + r.functions.data;
      GatherKeepsClean([], all);
      var lines := Sorting.Sort(Gather([], e.lines.data + r.lines.data, Sum), LineLeq);
      var functions := Gather([], all, Sum);
      var branches := Sorting.Sort(Gather([], e.branches.data + r.branches.data, Max), BranchLeq);
      var f := Totals(functions, Numbers.Max(e.functions.found, r.functions.found), Numbers.Max(e.functions.hit, r.functions.hit));
      var b := Totals(branches, Numbers.Max(e.branches.found, r.branches.found), Numbers.Max(e.branches.hit, r.branches.hit));
      var c := Coverage(r.file, lines, functions, branches, Declared(f.found, f.hit, b.found, b.hit));
      assert MergeTwo(e, r) == RecordOf(c) && Clean(c);
    }
  }

  lemma {:induction false} GatherKeepsClean(into: seq<Datum<string>>, data: seq<Datum<string>>)
    requires CleanNames(into) && CleanNames(data)
    ensures CleanNames(Gather(into, data, Sum))
    decreases |data|
  {
    if data != [] {
      PutKeepsClean(into, data[0].key, data[0].count);
      GatherKeepsClean(Put(into, data[0].key, data[0].count, Sum), data[1..]);
    }
  }

  lemma {:induction false} PutKeepsClean(data: seq<Datum<string>>, k: string, count: nat)
    requires OneLine(k) && CleanNames(data)
    ensures CleanNames(Put(data, k, count, Sum))
  {
    if data != [] {
      assert OneLine(data[0].key);
      if data[0].key != k {
        PutKeepsClean(data[1..], k, count);
      }
    }
  }

  predicate AllSane(rs: seq<Record>) { forall i :: 0 <= i < |rs| ==> Sane(rs[i]) }

  lemma {:induction false} MergeIntoStaysSane(acc: seq<Record>, records: seq<Record>)
    requires AllSane(acc) && AllSane(records)
    ensures AllSane(MergeInto(acc, records))
    decreases |records|
  {
    if records != [] {
      var i := At(acc, records[0].file);
      assert Sane(records[0]);
      if i < |acc| { MergeTwoKeeps(acc[i], records[0]); }
      MergeIntoStaysSane(Insert(acc, records[0]), records[1..]);
    }
  }

  lemma InsertStaysPrintable(acc: seq<Record>, r: Record)
    requires AllPrintable(acc) && Printable(r)
    ensures AllPrintable(Insert(acc, r))
  {
    var i := At(acc, r.file);
    if i < |acc| {
      assert Printable(acc[i]);
      MergeTwoKeeps(acc[i], r);
    }
  }

  lemma {:induction false} MergeIntoStaysPrintable(acc: seq<Record>, records: seq<Record>)
    requires AllPrintable(acc) && AllPrintable(records)
    ensures AllPrintable(MergeInto(acc, records))
    decreases |records|
  {
    if records != [] {
      assert Printable(records[0]);
      InsertStaysPrintable(acc, records[0]);
      MergeIntoStaysPrintable(Insert(acc, records[0]), records[1..]);
    }
  }

  /** Declared-only sections included, a merge never reports more hits than it found. */
  lemma HitsStayWithinFound(records: seq<Record>)
    requires AllSane(records)
    ensures AllSane(Merged(records))
  {
    MergeIntoStaysSane([], records);
  }

  /** Printable records merge to a tracefile that parses to what was merged. */
  lemma MergedTracefileParsesBack(records: seq<Record>)
    requires AllPrintable(records)
    ensures Parsed(Raws(Merged(records))) == Ok(Merged(records))
  {
    MergeIntoStaysPrintable([], records);
    var cs := Sources(Merged(records));
    assert Records(cs) == Merged(records);
    RawsReprint(cs);
    RoundTripIffClean(cs);
  }

  /** The records of several tracefiles, one after the other. */
  function AllParsed(texts: seq<string>): seq<Record>
    requires forall i :: 0 <= i < |texts| ==> Parsed(texts[i]).Ok?
  {
    if texts == [] then [] else Parsed(texts[0]).value + AllParsed(texts[1..])
  }

  lemma {:induction false} AllParsedIsPrintable(texts: seq<string>)
    requires forall i :: 0 <= i < |texts| ==> Parsed(texts[i]).Ok?
    ensures AllPrintable(AllParsed(texts))
  {
    if texts != [] {
      ParsedIsPrintable(texts[0]);
      AllParsedIsPrintable(texts[1..]);
      BothPrintable(Parsed(texts[0]).value, AllParsed(texts[1..]));
    }
  }

  lemma BothPrintable(a: seq<Record>, b: seq<Record>)
    requires AllPrintable(a) && AllPrintable(b)
    ensures AllPrintable(a + b)
  {
  }

  /** Parsing any tracefiles, keeping some of their records, merging those, printing what was merged
      and parsing that gives exactly what was merged. */
  lemma ParsedMergesBack(texts: seq<string>, kept: seq<Record>)
    requires forall i :: 0 <= i < |texts| ==> Parsed(texts[i]).Ok?
    requires forall r :: r in kept ==> r in AllParsed(texts)
    ensures Parsed(Raws(Merged(kept))) == Ok(Merged(kept))
  {
    AllParsedIsPrintable(texts);
    forall i | 0 <= i < |kept| ensures Printable(kept[i]) { assert kept[i] in AllParsed(texts); }
    MergedTracefileParsesBack(kept);
  }

  ghost function Source(r: Record): (c: Coverage)
    requires Printable(r)
    ensures r == RecordOf(c) && Clean(c)
  {
    var c :| r == RecordOf(c) && Clean(c); c
  }

  ghost function Sources(rs: seq<Record>): (cs: seq<Coverage>)
    requires AllPrintable(rs)
    ensures |cs| == |rs| && forall i :: 0 <= i < |rs| ==> rs[i] == RecordOf(cs[i]) && Clean(cs[i])
  {
    seq(|rs|, i requires 0 <= i < |rs| => Source(rs[i]))
  }
}
