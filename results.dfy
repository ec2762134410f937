/**
 * Search results and their row index. The musicdl client returns a dict from
 * client id to that client's list of records; Python dicts iterate in insertion
 * order, so it is modelled as the ordered list of its (client id, records)
 * entries. The GUI numbers the records source by source with a dense row
 * ordinal and stores each one in `music_records` under the key `str(row)`.
 */
module Results {
  import opened Decimal

  /** One record of a search result, with the fields the GUI reads. */
  datatype Record = Record(
    singers: string,
    songName: string,
    fileSize: string,
    duration: string,
    album: string,
    source: string,
    downloadUrl: string,
    ext: string)

  /** The client's return value: (client id, that client's records), in dict order. */
  type SearchResults = seq<(string, seq<Record>)>

  /** The sum of the lengths of the per-source lists. */
  function TotalCount(results: SearchResults): (n: nat)
  {
    if |results| == 0 then 0
    else TotalCount(results[..|results| - 1]) + |results[|results| - 1].1|
  }

  /** The source-major concatenation of the per-source lists: the table's rows. */
  function Flatten(results: SearchResults): (rows: seq<Record>)
  {
    if |results| == 0 then []
    else Flatten(results[..|results| - 1]) + results[|results| - 1].1
  }

  /** Flattening adds one source's list at the end. */
  lemma FlattenSnoc(results: SearchResults, i: nat)
    requires i < |results|
    ensures Flatten(results[..i + 1]) == Flatten(results[..i]) + results[i].1
    ensures TotalCount(results[..i + 1]) == TotalCount(results[..i]) + |results[i].1|
  {
    assert results[..i + 1][..i] == results[..i];
  }

  /** There are as many rows as the per-source lists hold records together. */
  lemma {:induction false} FlattenLength(results: SearchResults)
    ensures |Flatten(results)| == TotalCount(results)
  {
    if |results| > 0 {
      FlattenLength(results[..|results| - 1]);
    }
  }

  /** The rows of the first `i` sources come first, in the same order. */
  lemma {:induction false} FlattenPrefix(results: SearchResults, i: nat)
    requires i <= |results|
    ensures Flatten(results[..i]) <= Flatten(results)
  {
    if i < |results| {
      var n := |results| - 1;
      FlattenPrefix(results[..n], i);
      assert results[..n][..i] == results[..i];
    } else {
      assert results[..i] == results;
    }
  }

  /** The first `i` sources hold no more records than all of them. */
  lemma FlattenPrefixCount(results: SearchResults, i: nat)
    requires i <= |results|
    ensures TotalCount(results[..i]) <= |Flatten(results)|
  {
    FlattenPrefix(results, i);
    FlattenLength(results[..i]);
  }

  /**
   * Record `j` of source `i` sits at row `TotalCount(results[..i]) + j`: the
   * order is source-major and each source keeps its own order.
   */
  lemma FlattenAt(results: SearchResults, i: nat, j: nat)
    requires i < |results| && j < |results[i].1|
    ensures TotalCount(results[..i]) + j < |Flatten(results)|
    ensures Flatten(results)[TotalCount(results[..i]) + j] == results[i].1[j]
  {
    FlattenSnoc(results, i);
    FlattenLength(results[..i]);
    FlattenPrefix(results, i + 1);
  }
  /** Source `i`'s records are the rows from `TotalCount(results[..i])` on, in order. */
  lemma SourceRows(results: SearchResults, i: nat)
    requires i < |results|
    ensures TotalCount(results[..i + 1]) == TotalCount(results[..i]) + |results[i].1|
    ensures TotalCount(results[..i + 1]) <= |Flatten(results)|
    ensures forall j :: 0 <= j < |results[i].1| ==>
      Flatten(results)[TotalCount(results[..i]) + j] == results[i].1[j]
  {
    FlattenSnoc(results, i);
    FlattenPrefixCount(results, i + 1);
    forall j | 0 <= j < |results[i].1|
      ensures Flatten(results)[TotalCount(results[..i]) + j] == results[i].1[j]
    {
      FlattenAt(results, i, j);
    }
  }


  /** The key `str(row)` under which row `row` is stored. */
  function RowKey(row: nat): (key: string)
  {
    NatToString(row)
  }

  ghost function RowKeys(n: nat): (keys: set<string>)
  {
    set r: nat | r < n :: RowKey(r)
  }

  /** `m` holds exactly the rows `rows`, row `r` under `str(r)`. */
  ghost predicate IndexedBy(m: map<string, Record>, rows: seq<Record>)
  {
    m.Keys == RowKeys(|rows|) &&
    forall r: nat :: r < |rows| ==> m[RowKey(r)] == rows[r]
  }

  /** The empty index holds no rows. */
  lemma IndexedEmpty()
    ensures IndexedBy(map[], [])
  {
  }

  /** A row key belongs to the first `n` rows exactly when its row does. */
  lemma RowKeyIn(row: nat, n: nat)
    ensures RowKey(row) in RowKeys(n) <==> row < n
  {
    if RowKey(row) in RowKeys(n) {
      var r: nat :| r < n && RowKey(r) == RowKey(row);
      NatToStringInjective(r, row);
    }
  }

  /** Storing the next row under `str(row)` indexes one more row and overwrites nothing. */
  lemma IndexedExtend(m: map<string, Record>, rows: seq<Record>, rec: Record)
    requires IndexedBy(m, rows)
    ensures RowKey(|rows|) !in m
    ensures IndexedBy(m[RowKey(|rows|) := rec], rows + [rec])
  {
    var n := |rows|;
    RowKeyIn(n, n);
    var m' := m[RowKey(n) := rec];
    assert RowKeys(n + 1) == RowKeys(n) + {RowKey(n)};
    forall r: nat | r < n + 1
      ensures m'[RowKey(r)] == (rows + [rec])[r]
    {
      if r < n {
        RowKeyIn(r, n);
        if RowKey(r) == RowKey(n) {
          NatToStringInjective(r, n);
        }
      }
    }
  }

  /** An index of `n` rows has exactly `n` entries. */
  lemma {:induction false} RowKeysCount(n: nat)
    ensures |RowKeys(n)| == n
  {
    if n > 0 {
      RowKeysCount(n - 1);
      RowKeyIn(n - 1, n - 1);
      assert RowKeys(n) == RowKeys(n - 1) + {RowKey(n - 1)};
    }
  }

  /** Looking up `str(row)` finds row `row` when it exists and misses otherwise. */
  lemma IndexedLookup(m: map<string, Record>, rows: seq<Record>, row: nat)
    requires IndexedBy(m, rows)
    ensures RowKey(row) in m <==> row < |rows|
    ensures row < |rows| ==> m[RowKey(row)] == rows[row]
  {
    RowKeyIn(row, |rows|);
  }

  /** Every stored record is one of the rows: nothing else is kept. */
  lemma IndexedValues(m: map<string, Record>, rows: seq<Record>, key: string)
    requires IndexedBy(m, rows) && key in m
    ensures m[key] in rows
  {
    var r: nat :| r < |rows| && RowKey(r) == key;
  }

  /** The index is determined by its rows: equal rows give equal indexes. */
  lemma IndexedUnique(m1: map<string, Record>, m2: map<string, Record>, rows: seq<Record>)
    requires IndexedBy(m1, rows) && IndexedBy(m2, rows)
    ensures m1 == m2
  {
    forall key | key in m1
      ensures m1[key] == m2[key]
    {
      var r: nat :| r < |rows| && RowKey(r) == key;
    }
  }
}
