/**
 * The bookkeeping of the `MusicdlGUI` window: the session state reset by
 * `initialize`, the flattening of a search into numbered rows, the progress
 * values and configuration updates of a download, and the download-directory
 * preference. Widgets appear only as the state the window keeps in them: the
 * engine check boxes, the text of the download-path field, the table's row
 * count and engine column, and the values passed to the progress bar.
 */
module Gui {
  import opened Wrappers
  import opened Decimal
  import opened Sources
  import opened Results
  import opened Progress
  import opened Config

  /** `selected_music_idx`: the -10000 sentinel set by `initialize`, or a row key set by `download`. */
  datatype Selection = NoSelection(marker: int) | Selected(key: string)

  const NoSelectionMarker: int := -10000

  /** The streamed HTTP response, as far as `download` reads it. */
  datatype Response = Response(status: int, contentLength: Option<nat>, chunks: seq<nat>)

  /** How a call of `download` ends: normally, or at the exception it raises. */
  datatype DownloadOutcome =
    | Downloaded
    | NoDirectory              // the download directory is missing and `os.makedirs` raises
    | NoRecord                 // `music_records.get` gave None: subscripting it raises
    | NoClient                 // no client for the record's source when the headers are looked up
    | NotOk(status: int)       // the success message reads a path bound only for status 200
    | NoContentLength          // `resp.headers['content-length']` raises KeyError
    | NoFile                   // `open(..., 'wb')` raises
    | ZeroContentLength        // a non-empty chunk divides by a zero total

  /** The client ids of the ticked engines, in check-box order. */
  function CheckedClientIds(checked: seq<bool>): (ids: seq<string>)
    requires |checked| <= |SrcMap|
    ensures |ids| <= |checked|
  {
    if |checked| == 0 then []
    else
      var i := |checked| - 1;
      CheckedClientIds(checked[..i]) + (if checked[i] then [SrcMap[i].1] else [])
  }

  /**
   * How many leading rows have an engine label: the search stops showing rows
   * at the first record whose source the reverse scan of `src_map` cannot find.
   */
  function LabelledRows(rows: seq<Record>): (k: nat)
    ensures k <= |rows|
    ensures forall r :: 0 <= r < k ==> ReverseLookup(SrcMap, rows[r].source).Some?
    ensures k < |rows| ==> ReverseLookup(SrcMap, rows[k].source).None?
  {
    if |rows| == 0 then 0
    else if ReverseLookup(SrcMap, rows[0].source).None? then 0
    else 1 + LabelledRows(rows[1..])
  }

  /** The progress values a download shows before the final reset. */
  function ProgressShown(chunks: seq<nat>, total: nat): (values: seq<nat>)
  {
    if total == 0 then [] else Emitted(chunks, total)
  }

  /** The session client knows the record's source. */
  predicate HasClient(client: Option<seq<string>>, source: string)
  {
    client.Some? && source in client.value
  }

  /** Collects the client ids of the ticked check boxes (`music_sources`). */
  method CheckedSources(checked: seq<bool>) returns (sources: seq<string>)
    requires |checked| == |SrcNames|
    ensures sources == CheckedClientIds(checked)
  {
    SrcMapBijective();
    SrcNamesAreKeys();
    sources := [];
    for i := 0 to |checked|
      invariant sources == CheckedClientIds(checked[..i])
    {
      assert checked[..i + 1][..i] == checked[..i];
      if checked[i] {
        assert SrcMap[i] in SrcMap;
        LookupFinds(SrcMap, SrcNames[i], SrcMap[i].1);
        var id := Lookup(SrcMap, SrcNames[i]).value;
        sources := sources + [id];
      }
    }
    assert checked[..|checked|] == checked;
  }

  /** Counts the records of all sources together (`count`). */
  method CountResults(results: SearchResults) returns (count: nat)
    ensures count == TotalCount(results)
    ensures count == |Flatten(results)|
  {
    count := 0;
    for i := 0 to |results|
      invariant count == TotalCount(results[..i])
    {
      FlattenSnoc(results, i);
      count := count + |results[i].1|;
    }
    assert results[..|results|] == results;
    FlattenLength(results);
  }

  /** With every box ticked, the client is built for all engines, in `src_map` order. */
  lemma {:induction false} AllCheckedAllClients(checked: seq<bool>)
    requires |checked| <= |SrcMap|
    requires forall i :: 0 <= i < |checked| ==> checked[i]
    ensures |CheckedClientIds(checked)| == |checked|
    ensures forall k :: 0 <= k < |checked| ==> CheckedClientIds(checked)[k] == SrcMap[k].1
  {
    if |checked| > 0 {
      AllCheckedAllClients(checked[..|checked| - 1]);
    }
  }

  /** With no box ticked, the client is built for no engine. */
  lemma {:induction false} NoneCheckedNoClients(checked: seq<bool>)
    requires |checked| <= |SrcMap|
    requires forall i :: 0 <= i < |checked| ==> !checked[i]
    ensures CheckedClientIds(checked) == []
  {
    if |checked| > 0 {
      NoneCheckedNoClients(checked[..|checked| - 1]);
    }
  }

  /** Every client id collected from the check boxes has an engine label. */
  lemma {:induction false} CheckedClientIdsLabelled(checked: seq<bool>, id: string)
    requires |checked| <= |SrcMap|
    requires id in CheckedClientIds(checked)
    ensures ReverseLookup(SrcMap, id).Some?
  {
    var i := |checked| - 1;
    if id in CheckedClientIds(checked[..i]) {
      CheckedClientIdsLabelled(checked[..i], id);
    } else {
      ReverseLookupMisses(SrcMap, id);
      assert SrcMap[i].1 == id;
    }
  }

  /**
   * When the client answers only for the engines it was asked about, every row
   * gets its label and the search shows all rows.
   */
  lemma RequestedSourcesAllShown(checked: seq<bool>, results: SearchResults)
    requires |checked| <= |SrcMap|
    requires forall rec :: rec in Flatten(results) ==> rec.source in CheckedClientIds(checked)
    ensures LabelledRows(Flatten(results)) == |Flatten(results)|
  {
    var rows := Flatten(results);
    var k := LabelledRows(rows);
    if k < |rows| {
      assert rows[k] in rows;
      CheckedClientIdsLabelled(checked, rows[k].source);
    }
  }

  /** The engine column shows, for each of the first `n` rows, the label of that row's source. */
  ghost predicate ColumnShows(column: map<nat, string>, rows: seq<Record>, n: nat)
    requires n <= |rows|
  {
    forall r :: 0 <= r < n ==> r in column && Some(column[r]) == ReverseLookup(SrcMap, rows[r].source)
  }

  lemma ColumnExtend(column: map<nat, string>, rows: seq<Record>, n: nat, name: string)
    requires n < |rows| && ColumnShows(column, rows, n)
    requires Some(name) == ReverseLookup(SrcMap, rows[n].source)
    ensures ColumnShows(column[n := name], rows, n + 1)
  {
  }

  /**
   * What a search shows of `results`: the rows before the first record without
   * an engine label are stored under their row keys and labelled in the engine
   * column.
   */
  ghost predicate ShowsResults(records: map<string, Record>, column: map<nat, string>, results: SearchResults)
  {
    var rows := Flatten(results);
    IndexedBy(records, rows[..LabelledRows(rows)]) && ColumnShows(column, rows, LabelledRows(rows))
  }

  /**
   * After a search, `music_records.get(str(r))` finds a record exactly for the
   * rows `r` before the first unlabelled one, and that record is row `r` of the
   * source-major concatenation.
   */
  lemma SelectRow(records: map<string, Record>, column: map<nat, string>, results: SearchResults, r: nat)
    requires ShowsResults(records, column, results)
    ensures RowKey(r) in records <==> r < LabelledRows(Flatten(results))
    ensures RowKey(r) in records ==> r < |Flatten(results)| && records[RowKey(r)] == Flatten(results)[r]
  {
    var rows := Flatten(results);
    IndexedLookup(records, rows[..LabelledRows(rows)], r);
  }

  /**
   * After a search that shows all rows, the keys of `music_records` are exactly
   * `str(0)` … `str(n-1)` for `n` the total number of results, and `str(r)`
   * holds row `r` of the source-major concatenation.
   */
  lemma SearchIndex(records: map<string, Record>, column: map<nat, string>, results: SearchResults)
    requires ShowsResults(records, column, results)
    requires LabelledRows(Flatten(results)) == |Flatten(results)|
    ensures |records| == TotalCount(results) == |Flatten(results)|
    ensures forall r: nat :: RowKey(r) in records <==> r < |Flatten(results)|
    ensures forall r: nat :: r < |Flatten(results)| ==> RowKey(r) in records && records[RowKey(r)] == Flatten(results)[r]
  {
    var rows := Flatten(results);
    assert rows[..|rows|] == rows;
    FlattenLength(results);
    RowKeysCount(|rows|);
    forall r: nat
      ensures RowKey(r) in records <==> r < |rows|
      ensures r < |rows| ==> records[RowKey(r)] == rows[r]
    {
      IndexedLookup(records, rows, r);
    }
  }

  /** The first three row keys. */
  lemma FirstRowKeys()
    ensures RowKey(0) == "0" && RowKey(1) == "1" && RowKey(2) == "2"
    ensures RowKeys(3) == {"0", "1", "2"}
  {
    assert RowKeys(3) == RowKeys(2) + {RowKey(2)};
    assert RowKeys(2) == RowKeys(1) + {RowKey(1)};
    assert RowKeys(1) == {RowKey(0)};
  }

  /** Two sources answering [a, b] and [c] are shown as the rows [a, b, c]. */
  lemma TwoSourceRows(a: Record, b: Record, c: Record)
    ensures Flatten([("QQMusicClient", [a, b]), ("KuwoMusicClient", [c])]) == [a, b, c]
  {
    var results := [("QQMusicClient", [a, b]), ("KuwoMusicClient", [c])];
    assert results[..1] == [("QQMusicClient", [a, b])];
    assert results[..1][..0] == [];
    assert Flatten(results[..1]) == [a, b];
  }

  /** Two sources answering [a, b] and [c]: the index is {"0": a, "1": b, "2": c}. */
  lemma TwoSourceExample(records: map<string, Record>, column: map<nat, string>, a: Record, b: Record, c: Record)
    requires ShowsResults(records, column, [("QQMusicClient", [a, b]), ("KuwoMusicClient", [c])])
    requires LabelledRows([a, b, c]) == 3
    ensures records == map["0" := a, "1" := b, "2" := c]
  {
    TwoSourceRows(a, b, c);
    FirstRowKeys();
    var rows := [a, b, c];
    assert rows[..3] == rows;
    assert IndexedBy(records, rows);
    var expected := map["0" := a, "1" := b, "2" := c];
    assert expected.Keys == records.Keys;
    assert records["0"] == a && records["1"] == b && records["2"] == c;
  }

  /**
   * The state of the showing loop after `row` rows: those rows are stored and
   * labelled, and the engine column holds nothing else new.
   */
  ghost predicate ShownUpTo(records: map<string, Record>, column: map<nat, string>,
                            column0: map<nat, string>, rows: seq<Record>, row: nat)
  {
    row <= LabelledRows(rows) &&
    IndexedBy(records, rows[..row]) &&
    ColumnShows(column, rows, row) &&
    (forall r :: r in column ==> r in column0 || r < row) &&
    forall r :: r in column0 && row <= r ==> r in column && column[r] == column0[r]
  }

  /** Showing one more labelled row keeps the loop's state. */
  lemma ShowRow(records: map<string, Record>, column: map<nat, string>,
                column0: map<nat, string>, rows: seq<Record>, row: nat, name: string)
    requires ShownUpTo(records, column, column0, rows, row) && row < |rows|
    requires Some(name) == ReverseLookup(SrcMap, rows[row].source)
    ensures ShownUpTo(records[RowKey(row) := rows[row]], column[row := name], column0, rows, row + 1)
  {
    ColumnExtend(column, rows, row, name);
    IndexedExtend(records, rows[..row], rows[row]);
    assert rows[..row] + [rows[row]] == rows[..row + 1];
  }

  /**
   * The inner showing loop of `search`, over source `i`'s records, whose first
   * row number is `row0`: each gets the next row number, is stored under
   * `str(row)` and labelled in the engine column. Stops at a record whose
   * source has no label.
   */
  method IndexSource(results: SearchResults, i: nat, row0: nat, records0: map<string, Record>,
                     column1: map<nat, string>, ghost column0: map<nat, string>)
    returns (ok: bool, row: nat, records: map<string, Record>, column: map<nat, string>)
    requires i < |results| && row0 == TotalCount(results[..i])
    requires ShownUpTo(records0, column1, column0, Flatten(results), row0)
    ensures ShownUpTo(records, column, column0, Flatten(results), row)
    ensures ok ==> row == TotalCount(results[..i + 1])
    ensures !ok ==> row < |Flatten(results)| && row == LabelledRows(Flatten(results))
  {
    ghost var rows := Flatten(results);
    SourceRows(results, i);
    row, records, column := row0, records0, column1;
    var j := 0;
    while j < |results[i].1|
      invariant 0 <= j <= |results[i].1|
      invariant row == row0 + j
      invariant ShownUpTo(records, column, column0, rows, row)
    {
      var rec := results[i].1[j];
      assert rows[row] == rec;
      var name := ReverseLookup(SrcMap, rec.source);
      if name.None? {
        return false, row, records, column;
      }
      ShowRow(records, column, column0, rows, row, name.value);
      column := column[row := name.value];
      records := records[RowKey(row) := rec];
      row := row + 1;
      j := j + 1;
    }
    return true, row, records, column;
  }

  /**
   * The showing loop of `search`: walks the sources in order and each source's
   * records in order, numbering them with a dense row counter from 0, storing
   * each under `str(row)` and putting its engine label in the table's engine
   * column. Stops at the first record whose source has no label, as the
   * `next(...)` scan raises there; the rows before it stay stored.
   */
  method IndexRows(results: SearchResults, column0: map<nat, string>)
    returns (shown: bool, records: map<string, Record>, column: map<nat, string>)
    ensures shown <==> LabelledRows(Flatten(results)) == |Flatten(results)|
    ensures ShowsResults(records, column, results)
    ensures forall r :: r in column ==> r in column0 || r < LabelledRows(Flatten(results))
    ensures forall r :: r in column0 && LabelledRows(Flatten(results)) <= r ==> r in column && column[r] == column0[r]
  {
    FlattenLength(results);
    records, column := map[], column0;
    IndexedEmpty();
    assert Flatten(results)[..0] == [];
    var row: nat := 0;
    var i := 0;
    while i < |results|
      invariant 0 <= i <= |results|
      invariant row == TotalCount(results[..i])
      invariant ShownUpTo(records, column, column0, Flatten(results), row)
    {
      var ok;
      ok, row, records, column := IndexSource(results, i, row, records, column, column0);
      if !ok {
        return false, records, column;
      }
      i := i + 1;
    }
    assert results[..i] == results;
    return true, records, column;
  }

  /**
   * The work of `search` after `initialize`: collect the ticked engines' client
   * ids, count the results, cut the table to that many rows (`setRowCount`
   * keeps the cells of the rows below `count`) and show the rows.
   */
  method ShowSearch(checked: seq<bool>, results: SearchResults, column0: map<nat, string>)
    returns (sources: seq<string>, count: nat, shown: bool, records: map<string, Record>, column: map<nat, string>)
    requires |checked| == |SrcNames|
    ensures sources == CheckedClientIds(checked)
    ensures count == TotalCount(results)
    ensures shown <==> LabelledRows(Flatten(results)) == |Flatten(results)|
    ensures ShowsResults(records, column, results)
    ensures forall r :: r in column ==> r < count
    ensures forall r :: r in column0 && LabelledRows(Flatten(results)) <= r < count ==>
      r in column && column[r] == column0[r]
  {
    sources := CheckedSources(checked);
    count := CountResults(results);
    var kept := map r: nat | r in column0 && r < count :: column0[r];
    shown, records, column := IndexRows(results, kept);
  }

  /**
   * The chunk loop of `download`: skips empty chunks, adds each other chunk's
   * length to the byte counter and sets the bar to the percentage of `total`.
   * Fails (`ZeroDivisionError`) at the first non-empty chunk when `total` is 0.
   */
  method ReceiveBody(chunks: seq<nat>, total: nat) returns (values: seq<nat>, completed: bool)
    ensures completed <==> total > 0 || Sum(chunks) == 0
    ensures values == if completed then ProgressShown(chunks, total) else []
  {
    var downloadSize := 0;
    values := [];
    for i := 0 to |chunks|
      invariant downloadSize == Sum(chunks[..i])
      invariant values == ProgressShown(chunks[..i], total)
      invariant total == 0 ==> downloadSize == 0
    {
      SumStep(chunks, i);
      var chunk := chunks[i];
      if total > 0 {
        ChunkStep(chunks, i, total);
      }
      if chunk != 0 {
        downloadSize := downloadSize + chunk;
        if total == 0 {
          SumAtLeastPrefix(chunks, i + 1);
          return [], false;
        }
        values := values + [Percent(downloadSize, total)];
      }
    }
    assert chunks[..|chunks|] == chunks;
    return values, true;
  }

  class MusicdlGui {
    var searchResults: SearchResults
    var musicRecords: map<string, Record>
    var selectedMusicIdx: Selection
    /** The musicdl client of the session, as the list of client ids it was built for. */
    var musicClient: Option<seq<string>>
    var config: map<string, string>
    /** The contents of `config.json` as the next start-up would read it. */
    var configFile: ConfigFile
    var downloadPath: string
    /** The text of the download-path field. */
    var pathField: string
    /** The state of the engine check boxes, one per entry of `SrcNames`. */
    var checked: seq<bool>
    var rowCount: nat
    /** The table's engine column: row -> engine label. */
    var sourceColumn: map<nat, string>
    /** Every value passed to the progress bar, in order. */
    var barValues: seq<nat>

    ghost predicate Valid()
      reads this
    {
      |checked| == |SrcNames|
    }

    /** `__init__`: reset the session, read the config and pick the download directory. */
    constructor (file: ConfigFile, scriptDir: string)
      ensures Valid()
      ensures musicRecords == map[] && searchResults == [] && musicClient == None
      ensures selectedMusicIdx == NoSelection(NoSelectionMarker)
      ensures config == ReadConfig(file) && configFile == file
      ensures downloadPath == InitialDownloadPath(file, scriptDir) && pathField == downloadPath
      ensures checked == seq(|SrcNames|, _ => true)
      ensures rowCount == 0 && sourceColumn == map[] && barValues == []
    {
      searchResults := [];
      musicRecords := map[];
      selectedMusicIdx := NoSelection(NoSelectionMarker);
      musicClient := None;
      var cfg := ReadConfig(file);
      config := cfg;
      configFile := file;
      downloadPath := Get(cfg, DownloadPathKey, scriptDir);
      pathField := downloadPath;
      checked := seq(|SrcNames|, _ => true);
      rowCount := 0;
      sourceColumn := map[];
      barValues := [];
    }

    /** `initialize`: forget the previous search. */
    method Initialize()
      modifies this
      ensures searchResults == [] && musicRecords == map[] && musicClient == None
      ensures selectedMusicIdx == NoSelection(NoSelectionMarker)
      ensures unchanged(this`config, this`configFile, this`downloadPath, this`pathField)
      ensures unchanged(this`checked, this`rowCount, this`sourceColumn, this`barValues)
    {
      searchResults := [];
      musicRecords := map[];
      selectedMusicIdx := NoSelection(NoSelectionMarker);
      musicClient := None;
    }

    /**
     * `search`, given what the client returned. Returns false when it stops at
     * a record whose source has no engine label; the rows before it stay stored.
     */
    method Search(results: SearchResults) returns (shown: bool)
      requires Valid()
      modifies this
      ensures Valid()
      ensures searchResults == results && rowCount == TotalCount(results)
      ensures musicClient == Some(CheckedClientIds(checked))
      ensures selectedMusicIdx == NoSelection(NoSelectionMarker)
      ensures shown <==> LabelledRows(Flatten(results)) == |Flatten(results)|
      ensures ShowsResults(musicRecords, sourceColumn, results)
      ensures forall r :: r in sourceColumn ==> r < rowCount
      ensures forall r :: r in old(sourceColumn) && LabelledRows(Flatten(results)) <= r < rowCount ==>
        r in sourceColumn && sourceColumn[r] == old(sourceColumn)[r]
      ensures unchanged(this`config, this`configFile, this`downloadPath, this`pathField, this`checked, this`barValues)
    {
      Initialize();
      var sources, count, records, column;
      sources, count, shown, records, column := ShowSearch(checked, results, sourceColumn);
      musicRecords, sourceColumn := records, column;
      musicClient, searchResults, rowCount := Some(sources), results, count;
    }

    /** `write_config`: a failed write is swallowed and leaves the file as it was. */
    method WriteConfig(writeOk: bool)
      modifies this`configFile
      ensures configFile == if writeOk then Stored(config) else old(configFile)
    {
      if writeOk {
        configFile := Stored(config);
      }
    }

    /**
     * `download` of the record in table row `row`, given the server's response.
     * `dirOk` says whether the download directory exists or can be created,
     * `fileOk` whether the target file can be opened for writing, and
     * `writeOk` whether saving the config succeeds.
     */
    method Download(row: nat, resp: Response, dirOk: bool, fileOk: bool, writeOk: bool)
      returns (outcome: DownloadOutcome)
      requires Valid()
      modifies this
      ensures Valid()
      ensures selectedMusicIdx == Selected(RowKey(row))
      ensures downloadPath == old(pathField)
      ensures old(pathField) == "" || !dirOk ==> outcome == NoDirectory
      ensures old(pathField) != "" && dirOk && RowKey(row) !in old(musicRecords) ==> outcome == NoRecord
      ensures old(pathField) != "" && dirOk && RowKey(row) in old(musicRecords) ==>
        var rec := old(musicRecords)[RowKey(row)];
        if !HasClient(musicClient, rec.source) then outcome == NoClient
        else if resp.status != 200 then outcome == NotOk(resp.status)
        else if resp.contentLength.None? then outcome == NoContentLength
        else if !fileOk then outcome == NoFile
        else if resp.contentLength.value == 0 && Sum(resp.chunks) > 0 then outcome == ZeroContentLength
        else outcome == Downloaded
      ensures outcome == Downloaded ==>
        barValues == old(barValues) + ProgressShown(resp.chunks, resp.contentLength.value) + [0] &&
        config == old(config)[DownloadPathKey := old(pathField)] &&
        configFile == (if writeOk then Stored(config) else old(configFile))
      ensures outcome != Downloaded ==> unchanged(this`barValues, this`config, this`configFile)
      ensures unchanged(this`searchResults, this`musicRecords, this`musicClient, this`pathField)
      ensures unchanged(this`checked, this`rowCount, this`sourceColumn)
    {
      var key := RowKey(row);
      selectedMusicIdx := Selected(key);
      var songInfo := if key in musicRecords then Some(musicRecords[key]) else None;
      downloadPath := pathField;
      // `os.path.exists("")` is false and `os.makedirs("")` raises.
      if downloadPath == "" || !dirOk {
        outcome := NoDirectory;
      } else if songInfo.None? {
        outcome := NoRecord;
      } else if musicClient.None? || songInfo.value.source !in musicClient.value {
        outcome := NoClient;
      } else if resp.status != 200 {
        outcome := NotOk(resp.status);
      } else if resp.contentLength.None? {
        outcome := NoContentLength;
      } else if !fileOk {
        outcome := NoFile;
      } else {
        var values, completed := ReceiveBody(resp.chunks, resp.contentLength.value);
        if !completed {
          outcome := ZeroContentLength;
        } else {
          barValues := barValues + values + [0];
          config := config[DownloadPathKey := downloadPath];
          WriteConfig(writeOk);
          outcome := Downloaded;
        }
      }
    }

    /** `browse_download_path`, given the directory the dialog returned ("" when cancelled). */
    method BrowseDownloadPath(picked: string, writeOk: bool)
      requires Valid()
      modifies this
      ensures Valid()
      ensures picked == "" ==> unchanged(this`downloadPath, this`pathField, this`config, this`configFile)
      ensures picked != "" ==>
        downloadPath == picked && pathField == picked &&
        config == old(config)[DownloadPathKey := picked] &&
        configFile == (if writeOk then Stored(config) else old(configFile))
      ensures unchanged(this`searchResults, this`musicRecords, this`selectedMusicIdx, this`musicClient)
      ensures unchanged(this`checked, this`rowCount, this`sourceColumn, this`barValues)
    {
      if picked != "" {
        downloadPath := picked;
        pathField := picked;
        config := config[DownloadPathKey := downloadPath];
        WriteConfig(writeOk);
      }
    }
  }
}
