# MusicdlGUI — a Dafny model of the window's bookkeeping

`MusicdlGUI` is the PyQt5 front end of the musicdl downloader. It has a row of
engine check boxes (QQ音乐, 酷我音乐, 咪咕音乐, 千千音乐, 酷狗音乐, 网易云音乐), a
keyword field and a download-directory field with a browse button. It also has
a results table and a progress bar. This project models what the window keeps
and computes, and proves properties of it:

- **Session state** (`initialize`): the search results, the `music_records`
  index, the `-10000` selection sentinel and the client are reset.
- **Engines** (`src_names`, `src_map`): the forward lookup turns a check-box
  label into a client id. The reverse scan (`next(...)`) turns a record's
  source back into its label. Both directions are proved to be inverse on the
  six engines. The reverse scan's failure (StopIteration) is modelled as
  `None`.
- **Search flattening**: per-source result lists are laid out source by
  source, in order. A dense row counter starts at 0. Each record is stored
  under the decimal string `str(row)` and its engine label goes in the table's
  engine column. The table's row count is the total number of records. The
  search stops at the first record whose source has no label, and the rows
  before it stay stored.
- **Download**: the row key is selected and the download directory is taken
  from the path field. Then comes the chunk loop. Every non-empty chunk adds
  its length to a counter, and `int(size / total * 100)` goes to the progress
  bar. Afterwards the bar is reset to 0, `download_path` is written to the
  config and the config is saved. The model's `Download` ends with a distinct
  outcome for each of these raises: the directory cannot be created (including
  an empty path field), no record, no client, a non-200 status, no
  `content-length`, the file cannot be opened, and division by a zero total.
  The raises it does not model are listed under "Left out".
- **Configuration**: `config.json` is read as the stored object, or as `{}`
  when the file is missing or unreadable. The download directory defaults to
  the script's directory. A failed write is swallowed.
- **Browsing**: a non-empty directory from the dialog becomes the download
  directory, the field's text and the saved config entry. A cancelled dialog
  changes nothing.

Files: `wrappers.dfy` (Option), `decimal.dfy` (`str` of a row number and its
parse), `sources.dfy` (engine tables), `results.dfy` (flattening and the row
index), `progress.dfy` (progress values), `config.dfy` (config file) and
`gui.dfy` (the `MusicdlGui` class and the loops of `search` and `download`).

In three places the code does something easy to misread; the model follows the code:

- A response whose status is not 200 skips the body. The code then reaches the
  success message at line 130, which reads a file path bound only in the
  status-200 branch. The call raises there, so the bar is not reset and the
  config is not saved. The model's outcome for this case is `NotOk`, not a
  success.
- A record whose source is not a value of `src_map` aborts the showing loop at
  line 155. The rows already shown stay in `music_records`.
- A zero `content-length` with a non-empty chunk divides by zero at line 129
  (`ZeroContentLength`). Before that point nothing reaches the bar.

## Model

| member | source | states |
|---|---|---|
| Gui.MusicdlGui.constructor | musicdlgui.py:30-64 | The session starts reset. The config is what `read_config` finds. The download directory is the stored `download_path`, else the script's directory, and the path field shows it. All six engine boxes start ticked. |
| Gui.MusicdlGui.Initialize | musicdlgui.py:101-105 | Results and records become empty, the selection becomes the -10000 sentinel and the client becomes None. Nothing else changes. |
| Gui.MusicdlGui.Search | musicdlgui.py:136-162 | The row count is the total number of records. The client is built for exactly the ticked engines' ids. The selection is reset. `music_records` maps `str(r)` to row r of the source-major concatenation for every row before the first unlabelled one, and to nothing else. The engine column labels those rows. Rows from the first unlabelled one up to the row count keep their old engine label, and no label remains at or beyond the row count. The result is true iff every row is labelled. Config, path and boxes are unchanged. |
| Gui.ShowSearch | musicdlgui.py:139-160 | The work of `search` after `initialize`, on values: the ticked engines' client ids, the total count, the shown index and engine column as above, and the old labels kept for unshown rows below the count. |
| Gui.CheckedSources | musicdlgui.py:139-142 | The collected sources are the `src_map` values of the ticked labels, in check-box order. |
| Gui.CheckedClientIds | musicdlgui.py:139-142 | Defines the ticked engines' client ids in box order. Its contract gives at most one id per box. CheckedSources, AllCheckedAllClients, NoneCheckedNoClients and CheckedClientIdsLabelled pin it down. |
| Gui.AllCheckedAllClients | musicdlgui.py:139-142 | With every box ticked (the start-up state), the client is built for all six engines in `src_map` order. |
| Gui.NoneCheckedNoClients | musicdlgui.py:139-142 | With no box ticked, the client is built for no engine. |
| Gui.CountResults | musicdlgui.py:149-152 | The count is the sum of the per-source lengths, which equals the number of flattened rows. |
| Gui.IndexSource | musicdlgui.py:154-160 | One source's records take the next consecutive row numbers and are stored and labelled. The loop stops exactly at the first record without a label. |
| Gui.IndexRows | musicdlgui.py:153-160 | Returns true iff all rows are labelled. The index is exactly rows 0..k-1 under their `str` keys, where k is the first unlabelled row. The column labels those rows and keeps every earlier label from row k on. |
| Gui.LabelledRows | musicdlgui.py:155 | Every row before k has a reverse-lookup label, and row k (if any) has none. |
| Gui.SelectRow | musicdlgui.py:112-113 | After a search, `music_records.get(str(r))` finds a record iff r is a shown row, and that record is row r of the concatenation. |
| Gui.SearchIndex | musicdlgui.py:149-160 | When all rows are shown, the index has as many entries as the row count. Its keys are exactly `str(0)`…`str(n-1)`, and `str(r)` holds row r. |
| Gui.TwoSourceExample | musicdlgui.py:153-160 | With two sources answering [a, b] and [c], the index is {"0": a, "1": b, "2": c}. |
| Gui.CheckedClientIdsLabelled | musicdlgui.py:142 | Every requested client id has an engine label under the reverse scan. |
| Gui.RequestedSourcesAllShown | musicdlgui.py:155 | If every returned record comes from a requested engine, the search shows every row. |
| Gui.ReceiveBody | musicdlgui.py:121-129 | The loop completes iff the total is positive or no chunk is non-empty. The values it sends to the bar are the percentages after each non-empty chunk. |
| Gui.MusicdlGui.Download | musicdlgui.py:111-134 | The selection becomes `str(row)` and the download directory becomes the field's text. The outcome is NoDirectory (an empty field or a directory that cannot be made), NoRecord, NoClient, NotOk, NoContentLength, NoFile, ZeroContentLength or Downloaded, in the code's order of checks. Only on Downloaded does the bar receive the progress values and then 0, and only then is `download_path` put in the config and the config saved. The search state is unchanged. |
| Gui.MusicdlGui.WriteConfig | musicdlgui.py:173-178 | A successful write stores the config. A failed one leaves the file as it was. |
| Gui.MusicdlGui.BrowseDownloadPath | musicdlgui.py:180-187 | A non-empty pick becomes the download directory, the field's text and the config entry, and the config is saved. An empty pick changes nothing. |
| Results.FlattenLength | musicdlgui.py:149-152 | The number of flattened rows equals the total count. |
| Results.FlattenAt | musicdlgui.py:153-160 | Record j of source i is row `TotalCount(first i sources) + j`. |
| Results.SourceRows | musicdlgui.py:153-160 | Source i's records occupy consecutive rows starting after the earlier sources' records. |
| Results.FlattenPrefix | musicdlgui.py:153-160 | The rows of the first i sources are a prefix of all rows. |
| Results.IndexedExtend | musicdlgui.py:159-160 | Storing the next row under `str(row)` adds a new key and extends the index by that row. |
| Results.RowKeysCount | musicdlgui.py:159 | n distinct row numbers give n distinct keys. |
| Results.RowKeyIn | musicdlgui.py:159 | `str(row)` is among the first n keys iff row < n. |
| Results.IndexedLookup | musicdlgui.py:113 | Looking up `str(row)` finds row `row` when it exists and misses otherwise. |
| Results.IndexedValues | musicdlgui.py:159 | Every stored record is one of the rows. |
| Results.IndexedUnique | musicdlgui.py:159 | The index of a row sequence is unique. |
| Decimal.NatToString | musicdlgui.py:156 | `str(row)` is a non-empty digit string with no leading zero unless row is 0. |
| Decimal.ParseNatToString | musicdlgui.py:112 | Parsing `str(n)` gives back n. |
| Decimal.NatToStringInjective | musicdlgui.py:159 | Distinct rows get distinct keys. |
| Sources.SrcMapBijective | musicdlgui.py:44-51 | Labels are pairwise distinct and client ids are pairwise distinct. |
| Sources.SrcNamesAreKeys | musicdlgui.py:43-51 | The check-box labels are the keys of `src_map`, in the same order. |
| Sources.Lookup | musicdlgui.py:142 | Defines `src_map[name]` as the first entry with that key, None when the key is absent. LookupFinds and LabelRoundTrip pin it down. |
| Sources.ReverseLookup | musicdlgui.py:155 | Defines the `next(...)` scan as the first entry with that value, None for StopIteration. ReverseLookupFinds, ReverseLookupMisses, ReverseLookupSound and ClientIdRoundTrip pin it down. |
| Sources.LookupFinds | musicdlgui.py:142 | With distinct keys, the lookup gives `id` iff (name, id) is an entry. |
| Sources.ReverseLookupFinds | musicdlgui.py:155 | With distinct values, the reverse scan gives `name` iff (name, id) is an entry. |
| Sources.ReverseLookupMisses | musicdlgui.py:155 | The reverse scan finds nothing (StopIteration) iff no entry has that id. |
| Sources.ReverseLookupSound | musicdlgui.py:155 | What the reverse scan finds is an entry for that id. |
| Sources.LabelRoundTrip | musicdlgui.py:142 | Every label's client id maps back to the same label. |
| Sources.ClientIdRoundTrip | musicdlgui.py:155 | Every labelled client id's label maps back to the same id. |
| Progress.Percent | musicdlgui.py:129 | Defines the bar value for `done` of `total` bytes as the integer percentage. PercentMonotone and PercentFull pin it down. |
| Progress.Sum | musicdlgui.py:125-128 | Defines the byte counter as the sum of all chunk lengths. SumAtLeastPrefix and SizesIncrease pin it down. |
| Progress.Sizes | musicdlgui.py:125-128 | Gives the counter after each non-empty chunk. Its contract allows at most one value per chunk. SizesIncrease pins it down. |
| Progress.Emitted | musicdlgui.py:125-129 | Gives the bar values of the loop, one per counter value in `Sizes`. EmittedAt, EmittedNonDecreasing, EmittedFullExactly and EmittedEndsFull pin it down. |
| Progress.PercentMonotone | musicdlgui.py:129 | More bytes received never give a smaller percentage. |
| Progress.PercentFull | musicdlgui.py:129 | Up to the total, the percentage is at most 100, and it is 100 iff the whole total has arrived. |
| Progress.SumAtLeastPrefix | musicdlgui.py:128 | The byte counter only grows along the chunk stream. |
| Progress.SizesIncrease | musicdlgui.py:126-128 | The counter values after non-empty chunks strictly increase, lie in (0, total received], and end at the total received. |
| Progress.EmittedAt | musicdlgui.py:129 | There is one bar value per non-empty chunk, and it is the percentage of the counter at that point. |
| Progress.EmittedNonDecreasing | musicdlgui.py:129 | The bar values never decrease. |
| Progress.EmittedFullExactly | musicdlgui.py:129 | When no more than `content-length` bytes arrive, each bar value is at most 100, and a value is 100 iff the counter has reached `content-length`. |
| Progress.EmittedEndsFull | musicdlgui.py:129 | When exactly `content-length` bytes arrive, the last bar value before the reset is 100. |
| Config.ReadConfig | musicdlgui.py:164-171 | `read_config` gives the stored entries, and `{}` when the file is missing or unreadable. |
| Config.InitialDownloadPath | musicdlgui.py:41 | Defines the start-up directory as `config.get('download_path', script_dir)`. InitialDownloadPathChoice and SavedPathIsRestored pin it down. |
| Config.InitialDownloadPathChoice | musicdlgui.py:41 | The start-up directory is the stored `download_path` when there is one, else the script's directory. |
| Config.SavedPathIsRestored | musicdlgui.py:133-134 | A config saved with `download_path` set makes the next start-up use that directory. |

## Left out

- Widgets and their look (titles, layout, alignment, header style, the context
  menu and `mouseclick`, the message box) are not modelled. The table is
  modelled only as its row count and engine column. Its other columns show the
  record fields verbatim.
- The user's own edits to the keyword field, the path field and the check
  boxes are not modelled as operations. `checked` and `pathField` hold their
  current state.
- The musicdl client is not modelled. Its construction and its `search(keyword)`
  are a parameter (`results`) and the list of client ids it was built for. The
  keyword is not modelled.
- The HTTP request is not modelled. Its headers, `verify=False` and streaming
  become a `Response` value (status, optional `content-length`, chunk lengths).
  A `content-length` that does not parse as an integer is not modelled.
- The file system is not modelled: `sanitize_filepath`, the file name and the
  bytes written. Three facts are parameters: whether the download directory
  exists or can be created, whether the target file opens, and whether saving
  `config.json` succeeds.
- JSON is not modelled. The config is a string-to-string map. A `config.json`
  holding a non-object value (which would make line 41 raise) is not modelled,
  and neither is a partially written file.
- Progress.Percent: computed as `done * 100 / total` on integers. The source
  computes `int(done / total * 100)` in floating point, which can come out one
  lower for some values (for example 29 of 100 gives 28.999…, so 28).
- Qt's clamping of values passed to `setValue` is not modelled. The model
  records the values passed, not the bar's displayed value.
- Gui.MusicdlGui.Download: some raises have no outcome of their own.
  - Selecting with no table row selected raises IndexError at line 112. The
    row is a parameter.
  - `requests.get` can fail at line 119. No bar value is sent, nothing is
    reset and nothing is saved.
  - The stream or a file write can fail inside the loop at lines 125-129. The
    bar keeps the last value sent, it is not reset to 0, and the config is not
    saved.
  - A negative `content-length` is accepted by `int()` at line 121 but is not
    modelled: `content-length` is a natural number. A negative value would send
    negative bar values.
- The client's dictionary of per-source lists is modelled as a sequence in the
  dictionary's iteration order. The source names it is keyed by are not used.
