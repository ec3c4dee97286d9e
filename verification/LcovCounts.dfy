/**
 * What merged coverage comes to, count by count (`mergeLcov` in scripts/coverage-lcov.ts).
 *
 * `LcovMerge` shows that merging keeps each key's tally over all records of a file. Here a tally is
 * what it should be: the sum of all counts for a line or a function, the largest for a branch.
 */
module LcovCounts {
  import opened LcovLines
  import opened LcovMerge
  import opened LcovText
  import opened Lists
  import Numbers

  /** The counts a list has under one key, in order. */
  function Under<K(==)>(data: seq<Datum<K>>, k: K): seq<int>
    decreases |data|
  {
    if data == [] then []
    else Under(data[..|data| - 1], k) + if data[|data| - 1].key == k then [data[|data| - 1].count] else []
  }

  lemma TotalSnoc(s: seq<int>, x: int)
    ensures Numbers.Total(s + [x]) == Numbers.Total(s) + x
  {
    assert (s + [x])[..|s + [x]| - 1] == s;
  }

  lemma TallyOfOne<K>(d: Datum<K>, k: K, op: Op)
    ensures Tally([d], k, op) == if d.key == k then d.count else 0
  {
    assert [d][1..] == [];
  }

  lemma {:induction false} SumIsTotal<K>(data: seq<Datum<K>>, k: K)
    ensures Tally(data, k, Op.Sum) == Numbers.Total(Under(data, k))
    decreases |data|
  {
    if data != [] {
      var init, d := data[..|data| - 1], data[|data| - 1];
      SumIsTotal(init, k);
      assert data == init + [d];
      TallyConcat(init, [d], k, Op.Sum);
      TallyOfOne(d, k, Op.Sum);
      TotalSnoc(Under(init, k), d.count);
      assert Under(init, k) + [] == Under(init, k);
    }
  }

  lemma {:induction false} MaxIsLargest<K>(data: seq<Datum<K>>, k: K)
    ensures if k in Keys(data) then Numbers.IsLargest(Under(data, k), Tally(data, k, Op.Max))
            else Under(data, k) == [] && Tally(data, k, Op.Max) == 0
    decreases |data|
  {
    if data != [] {
      var init, d := data[..|data| - 1], data[|data| - 1];
      MaxIsLargest(init, k);
      assert data == init + [d];
      TallyConcat(init, [d], k, Op.Max);
      TallyOfOne(d, k, Op.Max);
      KeysConcat(init, [d]);
      KeyOfOne(d);
      if d.key == k && k in Keys(init) {
        LargerOfBoth(Under(init, k), Tally(init, k, Op.Max), d.count);
      } else {
        assert Under(init, k) + [] == Under(init, k) && [] + [d.count] == [d.count];
      }
    }
  }

  lemma LargerOfBoth(s: seq<int>, m: int, x: int)
    requires Numbers.IsLargest(s, m)
    ensures Numbers.IsLargest(s + [x], Numbers.Max(m, x))
  {
  }

  /** With each key once, an item's count is all there is under its key. */
  lemma {:induction false} OnlyItem<K>(data: seq<Datum<K>>, d: Datum<K>, op: Op)
    requires UniqueKeys(data)
    ensures d in data <==> d.key in Keys(data) && Tally(data, d.key, op) == d.count
    decreases |data|
  {
    if data != [] {
      UniqueHead(data);
      HeadKey(data);
      OnlyItem(data[1..], d, op);
      assert data == [data[0]] + data[1..];
      TallyConcat([data[0]], data[1..], d.key, op);
      TallyOfOne(data[0], d.key, op);
      NothingUnder(data[1..], data[0].key, op);
    }
  }

  /** What a key is listed with, over all records of a file. */
  ghost predicate Sums<K(!new)>(data: seq<Datum<K>>, pool: seq<Datum<K>>) {
    forall d :: d in data <==> d.key in Keys(pool) && d.count == Numbers.Total(Under(pool, d.key))
  }

  ghost predicate Largest<K(!new)>(data: seq<Datum<K>>, pool: seq<Datum<K>>) {
    forall d :: d in data <==> d.key in Keys(pool) && Numbers.IsLargest(Under(pool, d.key), d.count)
  }

  lemma ListedSums<K(!new)>(data: seq<Datum<K>>, pool: seq<Datum<K>>)
    requires UniqueKeys(data) && SameItems(data, pool, Op.Sum)
    ensures Sums(data, pool)
  {
    forall d ensures d in data <==> d.key in Keys(pool) && d.count == Numbers.Total(Under(pool, d.key)) {
      OnlyItem(data, d, Op.Sum);
      SumIsTotal(pool, d.key);
    }
  }

  lemma OneLargest(s: seq<int>, a: int, b: int)
    requires Numbers.IsLargest(s, a)
    ensures Numbers.IsLargest(s, b) <==> a == b
  {
  }

  lemma ListedLargest<K(!new)>(data: seq<Datum<K>>, pool: seq<Datum<K>>)
    requires UniqueKeys(data) && SameItems(data, pool, Op.Max)
    ensures Largest(data, pool)
  {
    forall d ensures d in data <==> d.key in Keys(pool) && Numbers.IsLargest(Under(pool, d.key), d.count) {
      OnlyItem(data, d, Op.Max);
      MaxIsLargest(pool, d.key);
      if d.key in Keys(pool) { OneLargest(Under(pool, d.key), Tally(pool, d.key, Op.Max), d.count); }
    }
  }

  lemma Unique<K(!new)>(section: Section<K>)
    requires section.data == [] || ListsOnce(section)
    ensures UniqueKeys(section.data)
  {
  }

  /** The record several records of a file merge to lists each line and function with the sum of the
      counts they have for it, each branch with the largest, and nothing else; lines and branches go up. */
  lemma MergedListing(records: seq<Record>, i: nat)
    requires i < |Merged(records)| && |Those(records, Merged(records)[i].file)| > 1
    ensures var m := Merged(records)[i];
      && Sums(m.lines.data, Pool(records, m.file, LINES))
      && Sums(m.functions.data, Pool(records, m.file, FUNCTIONS))
      && Largest(m.branches.data, Pool(records, m.file, BRANCHES))
      && GoUp(m)
  {
    var m := Merged(records)[i];
    MergedCounts(records, i);
    MergedFound(records, i);
    Unique(m.lines);
    Unique(m.functions);
    Unique(m.branches);
    ListedSums(m.lines.data, Pool(records, m.file, LINES));
    ListedSums(m.functions.data, Pool(records, m.file, FUNCTIONS));
    ListedLargest(m.branches.data, Pool(records, m.file, BRANCHES));
  }

  /** The items pooled are those of the file's records. */
  lemma {:induction false} PoolHolds(records: seq<Record>, file: string)
    ensures forall d :: d in Pool(records, file, LINES) <==> exists r :: r in records && r.file == file && d in r.lines.data
    ensures forall d :: d in Pool(records, file, FUNCTIONS)
                        <==> exists r :: r in records && r.file == file && d in r.functions.data
    ensures forall d :: d in Pool(records, file, BRANCHES)
                        <==> exists r :: r in records && r.file == file && d in r.branches.data
  {
    if records != [] {
      PoolHolds(records[1..], file);
      assert records == [records[0]] + records[1..];
    }
  }

  // ----------------------------------------------------- the order of functions

  function KeyList<K>(data: seq<Datum<K>>): seq<K> { seq(|data|, i requires 0 <= i < |data| => data[i].key) }

  lemma KeyListHolds<K>(data: seq<Datum<K>>, k: K)
    ensures k in KeyList(data) <==> k in Keys(data)
  {
    if k in Keys(data) {
      var d :| d in data && d.key == k;
      var i :| 0 <= i < |data| && data[i] == d;
      assert KeyList(data)[i] == k;
    }
  }

  lemma {:induction false} PutInOrder<K>(data: seq<Datum<K>>, k: K, count: nat, op: Op)
    ensures KeyList(Put(data, k, count, op)) == KeyList(data) + if k in Keys(data) then [] else [k]
  {
    if data != [] {
      var put := Put(data, k, count, op);
      HeadKey(data);
      HeadListed(data);
      HeadListed(put);
      if data[0].key == k {
        assert put[1..] == data[1..];
      } else {
        assert put[1..] == Put(data[1..], k, count, op);
        PutInOrder(data[1..], k, count, op);
        Regroup([data[0].key], KeyList(data[1..]), if k in Keys(data) then [] else [k]);
      }
    }
  }

  lemma HeadListed<K>(data: seq<Datum<K>>)
    requires data != []
    ensures KeyList(data) == [data[0].key] + KeyList(data[1..])
  {
  }

  lemma {:induction false} GatherInOrder<K>(into: seq<Datum<K>>, data: seq<Datum<K>>, op: Op, seen: seq<K>)
    requires KeyList(into) == Distinct(seen)
    ensures KeyList(Gather(into, data, op)) == Distinct(seen + KeyList(data))
    decreases |data|
  {
    if data == [] {
      assert seen + KeyList(data) == seen;
    } else {
      var k := data[0].key;
      PutInOrder(into, k, data[0].count, op);
      KeyListHolds(into, k);
      DistinctHas(seen, k);
      DistinctSnoc(seen, k);
      assert Distinct(seen) + [] == Distinct(seen);
      GatherInOrder(Put(into, k, data[0].count, op), data[1..], op, seen + [k]);
      HeadMovesOn(seen, data);
    }
  }

  lemma HeadMovesOn<K>(seen: seq<K>, data: seq<Datum<K>>)
    requires data != []
    ensures seen + [data[0].key] + KeyList(data[1..]) == seen + KeyList(data)
  {
  }

  /** Two records merged list their functions as first met, the earlier record's first. */
  lemma FunctionsInOrder(e: Record, r: Record)
    ensures KeyList(MergeTwo(e, r).functions.data) == Distinct(KeyList(e.functions.data + r.functions.data))
  {
    var both := e.functions.data + r.functions.data;
    GatherInOrder([], both, Op.Sum, []);
    assert [] + KeyList(both) == KeyList(both);
  }
}
