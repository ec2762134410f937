/**
 * The six search engines the GUI offers. Each check box shows a Chinese name
 * (`src_names`); `src_map` translates a name to the id of the musicdl client
 * that serves it. The table is a Python dict, so it is modelled as its ordered
 * list of (name, client id) entries: `ClientIdOf` is the dict lookup used when
 * building the client list, `LabelOf` the reverse scan `next(key for key, value
 * in src_map.items() if value == source)` used to show a result's engine.
 */
module Sources {
  import opened Wrappers

  type Entry = (string, string)

  const SrcNames: seq<string> := ["QQ音乐", "酷我音乐", "咪咕音乐", "千千音乐", "酷狗音乐", "网易云音乐"]

  const SrcMap: seq<Entry> := [
    ("QQ音乐", "QQMusicClient"),
    ("酷我音乐", "KuwoMusicClient"),
    ("咪咕音乐", "MiguMusicClient"),
    ("千千音乐", "QianqianMusicClient"),
    ("酷狗音乐", "KugouMusicClient"),
    ("网易云音乐", "NeteaseMusicClient")
  ]

  /** The value stored under `name`, as `table[name]` would find it. */
  function Lookup(table: seq<Entry>, name: string): (r: Option<string>)
  {
    if |table| == 0 then None
    else if table[0].0 == name then Some(table[0].1)
    else Lookup(table[1..], name)
  }

  /** The first key whose value is `id`, as the `next(...)` scan finds it; `None` where that scan raises `StopIteration`. */
  function ReverseLookup(table: seq<Entry>, id: string): (r: Option<string>)
  {
    if |table| == 0 then None
    else if table[0].1 == id then Some(table[0].0)
    else ReverseLookup(table[1..], id)
  }

  ghost predicate DistinctKeys(table: seq<Entry>) {
    forall i, j :: 0 <= i < j < |table| ==> table[i].0 != table[j].0
  }

  ghost predicate DistinctValues(table: seq<Entry>) {
    forall i, j :: 0 <= i < j < |table| ==> table[i].1 != table[j].1
  }

  /** In a table with distinct keys, the lookup finds exactly the stored entries. */
  lemma {:induction false} LookupFinds(table: seq<Entry>, name: string, id: string)
    requires DistinctKeys(table)
    ensures Lookup(table, name) == Some(id) <==> (name, id) in table
  {
    if |table| > 0 {
      assert DistinctKeys(table[1..]);
      LookupFinds(table[1..], name, id);
    }
  }

  /** In a table with distinct values, the reverse scan finds exactly the stored entries. */
  lemma {:induction false} ReverseLookupFinds(table: seq<Entry>, name: string, id: string)
    requires DistinctValues(table)
    ensures ReverseLookup(table, id) == Some(name) <==> (name, id) in table
  {
    if |table| > 0 {
      assert DistinctValues(table[1..]);
      ReverseLookupFinds(table[1..], name, id);
    }
  }

  /** The reverse scan fails only for an id that is no value of the table. */
  lemma {:induction false} ReverseLookupMisses(table: seq<Entry>, id: string)
    ensures ReverseLookup(table, id).None? <==> forall k :: 0 <= k < |table| ==> table[k].1 != id
  {
    if |table| > 0 {
      ReverseLookupMisses(table[1..], id);
      assert forall k :: 1 <= k < |table| ==> table[k] == table[1..][k - 1];
    }
  }

  /** The forward result of a successful reverse scan is always a stored pair. */
  lemma {:induction false} ReverseLookupSound(table: seq<Entry>, id: string)
    requires ReverseLookup(table, id).Some?
    ensures (ReverseLookup(table, id).value, id) in table
  {
    if table[0].1 != id {
      ReverseLookupSound(table[1..], id);
    }
  }

  /** `src_map` is a bijection: its labels are distinct and so are its client ids. */
  lemma SrcMapBijective()
    ensures DistinctKeys(SrcMap) && DistinctValues(SrcMap)
  {
  }

  /** The check-box labels are exactly the keys of `src_map`, in the same order. */
  lemma SrcNamesAreKeys()
    ensures |SrcNames| == |SrcMap|
    ensures forall i :: 0 <= i < |SrcNames| ==> SrcNames[i] == SrcMap[i].0
  {
  }

  /**
   * Every check-box name maps to a client id (so `src_map[cb.text()]` never
   * raises), and the reverse scan on that id gives the name back.
   */
  lemma LabelRoundTrip(i: nat)
    requires i < |SrcNames|
    ensures Lookup(SrcMap, SrcNames[i]).Some?
    ensures ReverseLookup(SrcMap, Lookup(SrcMap, SrcNames[i]).value) == Some(SrcNames[i])
  {
    SrcMapBijective();
    SrcNamesAreKeys();
    assert SrcMap[i] in SrcMap;
    LookupFinds(SrcMap, SrcNames[i], SrcMap[i].1);
    ReverseLookupFinds(SrcMap, SrcNames[i], SrcMap[i].1);
  }

  /** A name found by the reverse scan maps forward to the same client id. */
  lemma ClientIdRoundTrip(id: string)
    requires ReverseLookup(SrcMap, id).Some?
    ensures Lookup(SrcMap, ReverseLookup(SrcMap, id).value) == Some(id)
  {
    SrcMapBijective();
    ReverseLookupSound(SrcMap, id);
    LookupFinds(SrcMap, ReverseLookup(SrcMap, id).value, id);
  }
}
