# Europeana harvesters, modelled in Dafny

This project models the bookkeeping of the two Europeana harvesters of
heritage-data-hub and proves properties about it.

- **The resumable crawler** (`europeana_db/europeana/downloader.py` and the
  `europeana_crawler` helpers) works through search pages by cursor. It
  drops items whose `dcType` is on a deny-list. It downloads each new item's
  record into a create-only document directory. It keeps three stores in step:
  an append-only identifier log, a summary cache (`downloaded_count`,
  `item_ids`) and a resume-cursor file.
- **The category pipeline** (`europeana-db/europeana/downloader.py`,
  `parser.py`, `europeana_db/main.py`, `europeana_db/helpers/metadata_handler.py`)
  covers two programs. `europeana_db/main.py` follows search pages up to an
  item cap and hands the items, in fixed-size batches, to a `Downloader` class
  with cumulative counters; that class is not part of this model, so the
  batches are recorded as they are handed over. The category downloader of
  `europeana-db/europeana/downloader.py` keeps the items whose concept label is
  the category's, stores their documents and writes a CSV summary; it is
  modelled on its own (`CategoryDownloader.FilterAndSave`).

The outside world is state:

- the data directory is the `Files.Disk` class: documents as a map from file
  name to JSON, the log as a sequence of lines, the cache file and the cursor
  file;
- the API is the `Files.Network` class: the replies it will give, in order,
  with the requests sent and the waits slept recorded;
- the user at the prompt is the `Files.Console` class: the yes/no answers,
  in order;
- the category pipelines' output tree is the `Files.Output` class.

Procedures that change files or loop are methods over these classes. Each is
proved against a function of the inputs and the old state (`Crawl`, `Retry`,
`ScanItems`, `RowsOf`, `Unlogged`, `StoreNew`, ...), and the lemmas state what
the source promises about those functions. A crawler session is proved against
`SessionSpec`: `DownloadRun` for a series of fetch-and-saves, `RoundStep` for one
turn of the download loop and `Loop` for the whole loop, all over a `World` value
that observes the disk, the network and the console.

Behaviour worth noting:

- The crawler asks "download more?" before every batch, not only after the
  first: `first_run` is never cleared. `CrawlerSession.Round` asks once per
  round.
- The pre-check page fetch of `collect_data` already stores that page's next
  cursor. The loop then reloads the cursor from the file, so when the pre-check
  page had a valid next cursor the loop starts after it and that page's own
  items are never selected. `CrawlerSession.CollectData` makes both fetches.
- When any unlogged document exists, the log repair logs every cached but
  unlogged identifier, whether its document exists or not
  (`CrawlerSession.RepairLog`).
- Only the crawler's document write is create-only. The category pipelines'
  `save_json` overwrites (`CsvHandler.LastSaveWins`).
- The crawler matches `dcType` labels exactly. The filter script matches them
  as substrings, so it excludes strictly more (`FilterScript.ExactExcludedIsSubstringExcluded`,
  `FilterScript.TextileSeparatesTheFilters`).
- The category downloader keeps items by concept label alone. There is no
  image-format or description test in it.

## Model

| member | source | states |
|---|---|---|
| Json.GetSpec | europeana_db/europeana_crawler/europeana/api.py:119-121 | `d.get(key)` finds a value iff some field has that name, and it is that field's value (the first, which in a decoded dict is the only one) |
| Json.Index0 | europeana-db/europeana/parser.py:5-7 | `x[0]` succeeds exactly on a non-empty list or string; on a list it is the first element |
| Json.Take | europeana_db/helpers/metadata_handler.py:32 | Python's `xs[:n]` is a prefix of `xs`, of length `min(n, len)` for `n >= 0` and `len + n` (at least 0) for negative `n` |
| Text.StripKeepsStripped | europeana_db/europeana/downloader.py:13 | `strip` changes exactly the strings that start or end with whitespace |
| Text.SanitizeIsSafe | europeana_db/europeana/downloader.py:69-70 | a sanitized identifier holds no `/` and sanitizing is idempotent |
| Text.StorageKeyCollision | europeana_db/europeana/downloader.py:132-133 | two identifiers share a document file iff they sanitize alike |
| Text.SanitizeNotInjective | europeana_db/europeana/downloader.py:76-77 | `a/b` and `a_b` are stored under the same key |
| Files.Ask | europeana_db/europeana/downloader.py:206-211 | the prompt consumes one answer and is a yes exactly when the next scripted answer is `yes`/`y`; an exhausted stream reads as no |
| CursorStore.WriteCursor | europeana_db/europeana_crawler/europeana/api.py:15-22 | a save rewrites the file exactly for a truthy cursor other than `*`, and otherwise leaves it as it was |
| CursorStore.ReadCursor | europeana_db/europeana_crawler/europeana/api.py:25-41 | a load returns the stored cursor iff the file holds a valid one; a missing, corrupt, empty, null or `*` cursor loads as none |
| CursorStore.SaveCursor | europeana_db/europeana_crawler/europeana/api.py:15-22 | `save_cursor` changes the cursor file as `WriteCursor` says and nothing else on disk |
| CursorStore.SaveThenLoad | europeana_db/europeana_crawler/europeana/api.py:15-41 | loading after a valid save returns exactly the saved cursor |
| CursorStore.InvalidSaveIsInvisible | europeana_db/europeana_crawler/europeana/api.py:17-22 | saving an invalid cursor does not change what a later load returns |
| CursorStore.LoadNeverYieldsStart | europeana_db/europeana_crawler/europeana/api.py:32-37 | a load never returns `*` or the empty cursor |
| CursorStore.LastValidSaveWins | europeana_db/europeana_crawler/europeana/api.py:15-41 | of two saves, the later valid one is what loads |
| RetryPolicy.FetchWithRetries | europeana_db/europeana_crawler/europeana/api.py:44-71 | the body returned, the replies consumed, the requests sent (one per try) and the waits slept are those of the retry function `Retry` |
| RetryPolicy.RetryReturnsFirstSuccess | europeana_db/europeana_crawler/europeana/api.py:47-63 | a body is returned iff a 200 reply comes within the tries after nothing but retried failures; it is that reply's body, after `i+1` tries and waits 1, 2, 4, ... |
| RetryPolicy.RetryBounds | europeana_db/europeana_crawler/europeana/api.py:47-68 | at most `max_retries` requests and at least one when allowed; the waits are `2^0, 2^1, ...`, one after each retried failure |
| RetryPolicy.FatalStatusStopsAtOnce | europeana_db/europeana_crawler/europeana/api.py:59-63 | a status other than 200 and the retried ones returns nothing after one request, with no wait |
| RetryPolicy.RetriesExhausted | europeana_db/europeana_crawler/europeana/api.py:64-71 | `max_retries` retried failures in a row (network errors included) return nothing after waiting after every one |
| RetryPolicy.RetryAfter | europeana_db/europeana_crawler/europeana/api.py:47-71 | where the loop stands after `k` retried failures: what the next reply, or running out of tries, makes it return |
| RetryPolicy.NoRepliesNoData | europeana_db/europeana_crawler/europeana/api.py:64-71 | when every request fails at the network level, nothing is returned |
| Exclusion.WalkIsHitSomewhere | europeana_db/europeana_crawler/europeana/api.py:74-100 | the recursive walk with early returns is true iff some dict at any depth holds a `dcType` dict that the test accepts |
| Exclusion.FindExcludedDcTypeSpec | europeana_db/europeana_crawler/europeana/api.py:81-89 | the crawler excludes a record iff some `dcType` dict at any depth has a `def`/`en` label equal, case-insensitively, to a deny-list entry |
| Exclusion.FindExcludedDcTypeNothing | europeana_db/europeana_crawler/europeana/api.py:95-100 | scalars are never excluded, and an empty deny-list excludes nothing |
| Exclusion.NestedDcTypeExcluded | europeana_db/europeana_crawler/europeana/api.py:91-98 | a matching `dcType` dict inside a list inside a dict is found |
| Exclusion.PlainDcTypeKept | europeana_db/europeana_crawler/europeana/api.py:81-89 | a `dcType` dict of plain labels with no match does not exclude the record |
| Exclusion.NewspaperExcluded | europeana_db/europeana_crawler/europeana/api.py:74-100 | a nested `Newspaper` label is excluded by a deny-list holding `Newspaper` |
| Exclusion.SculptureKept | europeana_db/europeana_crawler/europeana/api.py:74-100 | a `Sculpture` label is kept by a deny-list holding `Newspaper` |
| Exclusion.WalkMonotone | europeana_db/europeana_crawler/europeana/api.py:91-98 | the walk finds a record whenever it would with a stronger test |
| FilterScript.DenyList | europeana_db/europeana_crawler/tests/test_filter.py:26 | the script's deny-list is the given one with every entry lower-cased, position by position |
| FilterScript.FindExcludedDcTypeSubstringSpec | europeana_db/europeana_crawler/tests/test_filter.py:52-84 | the script excludes a record iff some `dcType` dict at any depth has a lower-cased label containing a lower-cased deny-list entry |
| FilterScript.ScalarNotExcluded | europeana_db/europeana_crawler/tests/test_filter.py:84 | scalars are never excluded |
| FilterScript.ExactExcludedIsSubstringExcluded | europeana_db/europeana_crawler/tests/test_filter.py:67-73 | whatever the crawler's exact filter excludes, the script's substring filter excludes too |
| FilterScript.TextileSeparatesTheFilters | europeana_db/europeana_crawler/tests/test_filter.py:67-73 | the converse fails: `Textile` is excluded by the script for `Text` but kept by the crawler |
| CrawlerApi.Kept | europeana_db/europeana_crawler/europeana/api.py:120 | the kept items are exactly the items the filter does not flag |
| CrawlerApi.KeptAppend | europeana_db/europeana_crawler/europeana/api.py:120 | filtering keeps item order: it distributes over concatenation |
| CrawlerApi.KeptIdempotent | europeana_db/europeana_crawler/europeana/api.py:120 | filtering twice is filtering once |
| CrawlerApi.PageOfSpec | europeana_db/europeana_crawler/europeana/api.py:114-131 | without a usable reply the page is empty with no cursor; otherwise its items are the reply's unexcluded items and its cursor is the reply's |
| CrawlerApi.SearchCursor | europeana_db/europeana_crawler/europeana/api.py:105-106 | a missing cursor argument is replaced by the loaded one |
| CrawlerApi.FetchItemIds | europeana_db/europeana_crawler/europeana/api.py:103-131 | `fetch_item_ids` returns `PageOf` the retried search at the search cursor, and the cursor file afterwards holds the page's next cursor when it is valid and is unchanged otherwise |
| CrawlerApi.NoRepliesNoPage | europeana_db/europeana_crawler/europeana/api.py:114-117 | with no reply the page is empty and has no cursor |
| CrawlerApi.FetchItemMetadata | europeana_db/europeana_crawler/europeana/api.py:134-139 | a record fetch is the retried request for that identifier |
| CrawlerStore.LoggedIds | europeana_db/europeana/downloader.py:9-14 | every identifier read back from the log is stripped, and a line that is already stripped reads back as itself |
| CrawlerStore.LoggedIdsAppend | europeana_db/europeana/downloader.py:9-14 | reading back a log with lines appended adds exactly those lines' stripped forms |
| CrawlerStore.LoggedIdsSingle | europeana_db/europeana/downloader.py:13 | a one-line log reads back as its stripped line |
| CrawlerStore.StripIdempotent | europeana_db/europeana/downloader.py:13 | stripping twice is stripping once |
| CrawlerStore.LoadCache | europeana_db/europeana/downloader.py:17-31 | a missing cache file loads as a zero count with no identifiers; a missing `item_ids` loads as an empty list; otherwise the file as it is |
| CrawlerStore.Listed | europeana_db/europeana/downloader.py:36 | a saved cache always has an `item_ids` list, and the same count |
| CrawlerStore.SaveCache | europeana_db/europeana/downloader.py:34-38 | `save_cache` writes the cache with its list made explicit and nothing else |
| CrawlerStore.CacheRoundTrip | europeana_db/europeana/downloader.py:17-38 | loading after saving gives back what was saved |
| CrawlerStore.Unlogged | europeana_db/europeana/downloader.py:45 | the identifiers kept are exactly those given that are not logged |
| CrawlerStore.UnloggedAppend | europeana_db/europeana/downloader.py:45 | the new identifiers keep their input order |
| CrawlerStore.NothingUnlogged | europeana_db/europeana/downloader.py:45-47 | when every identifier is logged, nothing is appended |
| CrawlerStore.CacheWithLogged | europeana_db/europeana/downloader.py:54-61 | after logging, the cache keeps its count and its `item_ids` gains the appended identifiers, in order |
| CrawlerStore.SaveIdsLog | europeana_db/europeana/downloader.py:41-64 | `save_ids_log` appends the unlogged identifiers, and changes the cache only when it appended something |
| CrawlerStore.LogAfterSave | europeana_db/europeana/downloader.py:41-51 | after logging, every given identifier reads back from the log, and no appended line was already logged |
| CrawlerStore.LogIdempotent | europeana_db/europeana/downloader.py:41-51 | logging the same stripped identifiers twice appends nothing the second time |
| CrawlerStore.StoreNew | europeana_db/europeana/downloader.py:79-84 | a create-only write adds the key, keeps every existing document, and stores the data only if the key was new |
| CrawlerStore.StoreNewKeepsFirst | europeana_db/europeana_crawler/helpers/metadata_handler.py:30-41 | the helpers' `save_metadata` is the same create-only write: a second write under the same key changes nothing |
| CrawlerStore.CollidingIdsKeepFirst | europeana_db/europeana/downloader.py:76-81 | `a/b` stored first blocks the later `a_b` |
| CrawlerStore.SaveMetadata | europeana_db/europeana/downloader.py:67-86 | a path is returned iff `item_json_exists` was false before the call; afterwards it is true; the directory becomes `StoreNew` of the old one, and the log, cache and cursor are untouched |
| CrawlerStore.FetchAndSave | europeana_db/europeana/downloader.py:89-94 | the record is retried; a truthy record is written create-only, and a path is returned iff it was written |
| CrawlerSession.ListOfSet | europeana_db/europeana/downloader.py:269-271 | `list(set)` holds every element of the set once |
| CrawlerSession.Reconcile | europeana_db/europeana/downloader.py:129-144 | over log ∪ cache, missing-in-log are the identifiers with a document that are not logged (so cached but unlogged), and missing-JSON are the cached ones without a document |
| CrawlerSession.RepairLog | europeana_db/europeana/downloader.py:149-158 | with missing-in-log identifiers, the list handed to `save_ids_log` holds each of `missing_in_log ∪ (cached − existing)` once; the log gains exactly its unlogged entries, and the cache gains them too when there are some; otherwise nothing changes |
| CrawlerSession.NoneLogged | europeana_db/europeana/downloader.py:45 | identifiers none of which is logged are all appended |
| CrawlerSession.Repair | europeana_db/europeana/downloader.py:128-197 | missing-in-log and missing-JSON are characterised against the documents before the repair; the log gains exactly the cached unlogged identifiers and the cache lists them; the missing documents are fetched as `DownloadRun` says; the cursor is untouched |
| CrawlerSession.DownloadAll | europeana_db/europeana/downloader.py:178-189 | `executor.map(fetch_and_save, ids)` leaves the documents, replies, requests and waits that `DownloadRun` computes, with its per-identifier results |
| CrawlerSession.RecordBatch | europeana_db/europeana/downloader.py:264-272 | the downloaded identifiers are logged and counted, and every one of them reads back from the log |
| CrawlerSession.Union | europeana_db/europeana/downloader.py:269-271 | the merged identifiers are those of the cache and of the batch |
| CrawlerSession.CacheBatch | europeana_db/europeana/downloader.py:267-272 | the count grows by the batch's downloads and `item_ids` becomes old ∪ downloaded |
| CrawlerSession.DownloadBatch | europeana_db/europeana/downloader.py:245-272 | the downloads are `DownloadRun` of the batch and `downloaded` is its succeeded identifiers; the log gains the unlogged ones, the count rises by their number, `item_ids` becomes old ∪ downloaded and is written; the cursor is untouched |
| CrawlerSession.NextBatch | europeana_db/europeana/downloader.py:218-285 | the rest of a turn leaves exactly the state `AfterAnswer` computes; a batch is recorded iff the turn goes on or ends on the last page, and the cache file is untouched otherwise |
| CrawlerSession.Round | europeana_db/europeana/downloader.py:204-285 | one turn leaves exactly the state `RoundStep` computes, whose stop reasons `RoundStops` states; a batch is recorded iff the turn goes on or ends on the last page |
| CrawlerSession.LoopTurn | europeana_db/europeana/downloader.py:204-285 | a turn is one step of `Loop`: it either ends the session as `Loop` says or leaves a state from which `Loop` gives the rest, with fewer replies left |
| CrawlerSession.DownloadNewItems | europeana_db/europeana/downloader.py:202-285 | the download loop ends in exactly the session `Loop` computes (stop reason, state, batches, downloads); the cache file is untouched until a batch is recorded |
| CrawlerSession.StartCache | europeana_db/europeana/downloader.py:102-113 | an empty document directory resets the cache; otherwise the cache file is loaded |
| CrawlerSession.FirstCursor | europeana_db/europeana/downloader.py:100 | the pre-check starts at the stored cursor, else at `*`, else (when forced) at none |
| CrawlerSession.PreCheck | europeana_db/europeana/downloader.py:100-117 | the pre-check resets the cache file when no document is stored, loads cache and log, and fetches the first page, leaving the state `PreChecked` computes |
| CrawlerSession.CollectData | europeana_db/europeana/downloader.py:97-285 | when the document directory is empty the cache file is first reset to a zero count and no identifiers (`ResetCache`); the session stops for an empty first page iff the pre-check page has no items, and then documents, log and console are unchanged while the cursor file holds the page's next cursor; otherwise the repair runs on the state the pre-check left (`PreChecked`) and reaches `start` as `Repaired` states, the pre-check has stored that cursor, the loop restarts from the cursor reloaded from the file, and the session ends as `Loop` computes; documents are only added, the log is only appended to, and the final count is the start count plus the documents downloaded in batches |
| CrawlerSession.RepairAndDownload | europeana_db/europeana/downloader.py:122-285 | the repair runs first and reaches `start` as `Repaired` states (exactly the cached identifiers missing from the log are logged and recorded in the cache, exactly the cached identifiers without a document are downloaded as `DownloadRun` computes); then the loop runs from the reloaded cursor and ends as `Loop` computes; the loop only appends identifiers unknown at the start to the log; the user is asked once per batch and once more unless the last page ended it |
| SessionSpec.Succeeded | europeana_db/europeana/downloader.py:260-262 | at most as many identifiers succeed as were tried |
| SessionSpec.SucceededSpec | europeana_db/europeana/downloader.py:260-262 | an identifier succeeded iff one of its downloads reported a file |
| SessionSpec.DownloadRun | europeana_db/europeana/downloader.py:89-94 | one result per identifier, and no more replies than there were |
| SessionSpec.RepairedSpec | europeana_db/europeana/downloader.py:122-197 | a repair keeps every document and adds one per re-downloaded identifier, each cached and now stored, and only appends to the log |
| SessionSpec.DownloadRunSpec | europeana_db/europeana/downloader.py:248-262 | a run keeps every document and adds one per succeeded identifier; a reported file is the identifier's key, was new and is now present; requests and waits are only appended |
| SessionSpec.StepCount | europeana_db/europeana/downloader.py:89-94 | one fetch-and-save adds a document exactly when it reports a file |
| SessionSpec.ItemId | europeana_db/europeana/downloader.py:226-228 | an item's identifier is its `id` entry exactly when that entry is a string |
| SessionSpec.NewIds | europeana_db/europeana/downloader.py:225-231 | no more identifiers are selected than the page has items |
| SessionSpec.NewIdsSpec | europeana_db/europeana/downloader.py:225-231 | an identifier is selected iff some page item carries it and it was neither logged nor cached at session start |
| SessionSpec.NewIdsAppend | europeana_db/europeana/downloader.py:225-231 | selection keeps page order |
| SessionSpec.PageConsumes | europeana_db/europeana_crawler/europeana/api.py:114-120 | a page with items used up at least one reply |
| SessionSpec.BatchFromSpec | europeana_db/europeana/downloader.py:245-272 | a batch only adds documents, one per download, downloads only identifiers of the batch, appends the unlogged downloads to the log and writes the cache with the count raised by the downloads |
| SessionSpec.AfterAnswer | europeana_db/europeana/downloader.py:218-285 | a turn that goes on used up at least one reply |
| SessionSpec.RoundStep | europeana_db/europeana/downloader.py:204-285 | a turn that goes on used up at least one reply |
| SessionSpec.RoundStops | europeana_db/europeana/downloader.py:204-285 | a turn ends on a no iff the user was asked and declined; on an empty page, on a page with nothing new, or after a batch with no next cursor, each iff that case holds, and goes on otherwise; the cursor file holds the page's next cursor once the page is fetched; only identifiers among the first `limit or BATCH_SIZE` new ones are downloaded |
| SessionSpec.AfterAnswerSpec | europeana_db/europeana/downloader.py:218-285 | after the answer a turn only adds documents, one per download, downloads only identifiers unknown at session start, appends the unlogged ones to the log and keeps cache file and in-memory cache in step; without a batch none of these change |
| SessionSpec.RoundStepSpec | europeana_db/europeana/downloader.py:204-216 | with a limit a turn consumes one answer, without one none, and keeps what `AfterAnswerSpec` states |
| SessionSpec.LoopStops | europeana_db/europeana/downloader.py:204-285 | the loop never stops for an empty first page, stops on a no only with a limit and on the last page only after a batch; with a limit the user is asked once per batch and once more unless the last page ended it |
| SessionSpec.LoopDocs | europeana_db/europeana/downloader.py:248-262 | the loop keeps every document and adds one per download |
| SessionSpec.LoopLog | europeana_db/europeana/downloader.py:264-265 | the loop only appends to the log, never an identifier logged or cached at the start; with no batch, log, cache and downloads are unchanged |
| SessionSpec.LoopCache | europeana_db/europeana/downloader.py:267-272 | the in-memory count rises by every download of the loop; once a batch is recorded the cache file holds the in-memory cache, and with no batch the in-memory cache is unchanged |
| LogHandler.SaveIdsLogCounted | europeana_db/europeana_crawler/helpers/metadata_handler.py:14-27 | the unlogged identifiers are appended in order, and the result is the number of lines appended |
| LogHandler.CountTotalDownloaded | europeana_db/europeana_crawler/helpers/metadata_handler.py:44-49 | the line count is at least the number of distinct logged identifiers |
| LogHandler.LoggedIdsBound | europeana_db/europeana_crawler/helpers/metadata_handler.py:6-11 | there are never more distinct identifiers than log lines |
| LogHandler.CountIncludesDuplicates | europeana_db/europeana_crawler/helpers/metadata_handler.py:44-49 | a duplicated line counts twice while the identifier set holds it once |
| LogHandler.CountAfterLogging | europeana_db/europeana_crawler/helpers/metadata_handler.py:17-49 | the count grows by exactly what `save_ids_log` returns |
| LogHandler.LoadRawCache | europeana_db/europeana_crawler/helpers/metadata_handler.py:52-57 | a missing cache loads as a zero count with no other key, otherwise as it is |
| LogHandler.Updated | europeana_db/europeana_crawler/helpers/metadata_handler.py:60-63 | the count rises by exactly the given number and every other key is kept |
| LogHandler.UpdateCache | europeana_db/europeana_crawler/helpers/metadata_handler.py:60-70 | `update_cache` writes `Updated` of the loaded cache and nothing else |
| LogHandler.UpdatesAdd | europeana_db/europeana_crawler/helpers/metadata_handler.py:60-66 | two updates add up |
| CategoryDownloader.NewDownloader | europeana-db/europeana/downloader.py:11-32 | construction succeeds iff the category is given and has a non-empty table entry; otherwise `ValueError` |
| CategoryDownloader.UnknownCategoryRejected | europeana-db/europeana/downloader.py:18-32 | an unknown, missing or empty category is rejected with the shipped table |
| CategoryDownloader.LabelDef | europeana-db/europeana/downloader.py:81 | reading a concept label's `def` can only fail with `AttributeError` |
| CategoryDownloader.AnyLabelSpec | europeana-db/europeana/downloader.py:79-83 | on well-formed labels the test is true iff some label's `def`, lower-cased, is the category label |
| CategoryDownloader.ImageUrl | europeana-db/europeana/downloader.py:93-96 | the image URL is the first element of a non-empty `edmIsShownBy` list, otherwise none |
| CategoryDownloader.Description | europeana-db/europeana/downloader.py:98-106 | the first entry of a truthy `dcDescriptionLangAware[lang]`, otherwise `No <lang> description available`; a non-dict field raises |
| CategoryDownloader.Extract | europeana-db/europeana/downloader.py:74-113 | a non-dict item raises; an item without the label is skipped |
| CategoryDownloader.KeptRow | europeana-db/europeana/downloader.py:76-116 | a kept item has the label; its row is the sanitized identifier (`unknown` when absent), the image URL and the description; its document goes to the identifier's file |
| CategoryDownloader.KeepIffLabel | europeana-db/europeana/downloader.py:71-90 | an item is kept iff it carries the category label and the rest of it can be read, and no row's identifier holds `/` |
| CategoryDownloader.ScanItems | europeana-db/europeana/downloader.py:74-119 | the loop yields one stored document per row, at most one per item |
| CategoryDownloader.ScanAppend | europeana-db/europeana/downloader.py:74-119 | the loop keeps item order: rows and documents of two item runs follow each other |
| CategoryDownloader.ScanErrorSticks | europeana-db/europeana/downloader.py:74-119 | once an item raises, later items change nothing |
| CategoryDownloader.LastWriteWins | europeana-db/europeana/downloader.py:115-116 | after the loop's `save_json` calls, a writable path holds the last item written to it |
| CategoryDownloader.UnwrittenKept | europeana-db/europeana/downloader.py:115-116 | a document the loop cannot reach (unwritable, or never written) keeps its content |
| CategoryDownloader.OnlyWrittenAdded | europeana-db/europeana/downloader.py:115-116 | every document after the loop was there before or is at a writable path written to |
| CategoryDownloader.MetadataCsv | europeana-db/europeana/downloader.py:42-46 | the CSV is a header `id, image_url, description` followed by one row per kept item, in order |
| CategoryDownloader.SaveMetadata | europeana-db/europeana/downloader.py:34-47 | no rows write nothing; otherwise `metadata.csv` is overwritten with `MetadataCsv`, or an unopenable file raises |
| CategoryDownloader.FilterAndSave | europeana-db/europeana/downloader.py:63-123 | the documents written are those of `ScanItems`; the CSV is written only when the scan raised nothing and kept some item |
| CategoryParser.FirstOr | europeana-db/europeana/parser.py:5-7 | a missing key gives the fallback; a present one gives its first element or the indexing error |
| CategoryParser.ParseMetadata | europeana-db/europeana/parser.py:1-8 | a non-dict item raises; the parsed `id` is the item's, `null` when absent |
| CategoryParser.ParseMetadataSpec | europeana-db/europeana/parser.py:1-8 | parsing succeeds iff title, description and creator are each absent or non-empty; then each is its first element or its fallback |
| CategoryParser.EmptyTitleFails | europeana-db/europeana/parser.py:5 | an empty `title` list raises `IndexError` rather than falling back |
| CategoryParser.ParseExample | europeana-db/europeana/parser.py:1-8 | a record of one-element lists parses to those elements |
| CategoryParser.ParseFallbacks | europeana-db/europeana/parser.py:1-8 | an empty record gets every fallback and a null id |
| CategoryParser.ParseImageUrl | europeana-db/europeana/parser.py:11-16 | the only error that escapes is `TypeError` |
| CategoryParser.ParseImageUrlSpec | europeana-db/europeana/parser.py:11-16 | the URL is the first element of a non-empty list, none when the key is missing or the list empty, and an error exactly on a `TypeError` |
| CsvHandler.WriteAt | europeana_db/helpers/metadata_handler.py:75-84 | a write to a writable path puts the item there and keeps every other document; an unwritable path changes nothing |
| CsvHandler.JsonAfterSave | europeana_db/helpers/metadata_handler.py:75-84 | the item is written at its sanitized path over any earlier copy unless the file cannot be opened; other documents are untouched |
| CsvHandler.SaveJson | europeana_db/helpers/metadata_handler.py:75-84 | `save_json` changes the documents as `JsonAfterSave` says and no CSV |
| CsvHandler.LastSaveWins | europeana-db/europeana/downloader.py:49-61 | the last save of an identifier wins, unlike the crawler's create-only write |
| CsvHandler.ValidRow | europeana_db/helpers/metadata_handler.py:33-52 | a valid row has the eight columns; a non-dict item raises |
| CsvHandler.ValidRowSpec | europeana_db/helpers/metadata_handler.py:33-52 | each column is the item's value when present and its fixed default otherwise |
| CsvHandler.SkippedRow | europeana_db/helpers/metadata_handler.py:71-72 | a skipped row is written iff every key of the item is one of the four columns |
| CsvHandler.RowsOf | europeana_db/helpers/metadata_handler.py:32-53 | writing stops at the first failing item, and otherwise writes one line per item |
| CsvHandler.RowsOfSpec | europeana_db/helpers/metadata_handler.py:32-53 | every written line is a row; with no error, line `i` is item `i`'s row; an error is some item's error |
| CsvHandler.ErrorSticks | europeana_db/helpers/metadata_handler.py:32-53 | once a row fails, later items change nothing |
| CsvHandler.Prior | europeana_db/helpers/metadata_handler.py:10-29 | an existing file keeps its lines; a new one starts with the header |
| CsvHandler.AppendRows | europeana_db/helpers/metadata_handler.py:7-72 | the file becomes its old lines (or a header when new) followed by the rows of the first `count` items, up to the first failure |
| CsvHandler.SaveMetadata | europeana_db/helpers/metadata_handler.py:7-53 | `save_metadata` is `AppendRows` with the eight valid columns and their defaults |
| CsvHandler.SaveSkippedMetadata | europeana_db/helpers/metadata_handler.py:56-72 | `save_skipped_metadata` is `AppendRows` with the four skipped columns |
| CsvHandler.HeaderOnce | europeana_db/helpers/metadata_handler.py:27-29 | an append adds a header exactly when it creates the file and keeps the old lines as a prefix |
| CsvHandler.ValidRowsAllWritten | europeana_db/helpers/metadata_handler.py:31-53 | valid rows of dict items never fail: every item is written |
| CsvHandler.ExtraKeyStops | europeana_db/helpers/metadata_handler.py:62-72 | a skipped item with an extra key stops the writing with `ValueError` |
| Pagination.SearchPage | europeana_db/main.py:55-67 | a search makes one to five tries; a failed one made all five |
| Pagination.SearchFailsOnlyAfterFiveTries | europeana_db/main.py:55-67 | a search fails iff none of the five tries got a 200 reply |
| Pagination.Search5 | europeana_db/main.py:55-67 | the five-try loop returns `SearchPage`'s body, consumes its tries, sends one search request per try and sleeps 5 seconds after every failed try but the fifth |
| Pagination.CursorParam | europeana_db/main.py:58-60 | the cursor is sent exactly when it is a string |
| Pagination.Trim | europeana_db/main.py:73-78 | the trimmed page is a prefix of the page, keeps the total within `max_items`, and is the whole page when it fits |
| Pagination.Crawl | europeana_db/main.py:51-96 | the items the run takes never exceed `max_items` |
| Pagination.Paginate | europeana_db/main.py:44-105 | the batches concatenate to the items taken (all of them when no page failed); the total is their number, within `max_items`; every batch but the remainder has exactly `batch_size` items |
| Pagination.Turn | europeana_db/main.py:54-96 | one page keeps the loop's bookkeeping: batches then buffer then the rest of the run is the whole run |
| Pagination.NextPage | europeana_db/main.py:55-82 | a page's items are the trimmed page, and the run is those items followed by the run from the next cursor |
| Pagination.Drain | europeana_db/main.py:87-93 | handing over full batches keeps the items and their order and leaves fewer than `batch_size` buffered |
| Pagination.CrawlStep | europeana_db/main.py:51-96 | one successful page of the run: its items, then the run from its next cursor |
| Pagination.CrawlFails | europeana_db/main.py:62-67 | a failed page ends the run as failed |

## Left out

- Concurrency: the five-worker thread pool runs as a sequential map in input order.
  `executor.map` returns results in input order, so the pairing of identifiers
  and results is the same. The sequential map also removes the race between the
  `os.path.exists` test and the write in `save_metadata` (downloader.py:79-84):
  when a new identifier appears twice in one batch, two workers could both save
  it and both return a path, so the identifier would be logged twice (the log
  writer keeps duplicates, line 45) and the count would rise by two. In the
  model the second save finds the document and returns none.
- Crawler write errors: a document write that fails (downloader.py:82-83)
  raises through `list(executor.map(...))` (lines 248-257) and aborts
  `collect_data`, leaving the documents already written unlogged. The crawler's
  disk has no unwritable paths, so that path is not modelled.
- Text: `str.lower` lowers only the letters A-Z. Other Unicode case
  mappings are not modelled.
- Ill-typed JSON in the crawler is outside the model. A non-string `id` or
  cursor is treated as missing. A non-dict search reply reads as having no items.
  `dcType` labels that are not lists, or not strings, are passed over. The
  Python code would raise in these cases. The same holds for `main.py`: a
  successful reply that is not a dict raises `AttributeError` at main.py:70 and
  ends the run, while the model reads it as an empty last page and hands the
  buffer over. The category pipeline's parser and
  downloader do model their Python errors, as `PyError`.
- Files: a log line holding a newline is not modelled (the log is a sequence of
  lines). A cache file without `downloaded_count` raises `KeyError` in the
  crawler (downloader.py:113) and in the helpers' `update_cache`
  (europeana_db/europeana_crawler/helpers/metadata_handler.py:63); the model's
  cache always holds a count. A cache file with keys other than `downloaded_count` and `item_ids`
  is not modelled. Neither is a cache file that is not JSON, or a document
  directory holding files that are not documents.
- Pagination.CursorParam: sends the cursor only when it is a string. `requests`
  also sends any other truthy value (a number, a non-empty list) as a parameter
  (main.py:58-60, 96); those values, which a well-typed reply never holds, are
  modelled as no cursor.
- CrawlerStore.SaveMetadata: returns the document's file name rather than its full path,
  because the directory is a constant of the crawler.
- HTTP, the clock and the console are parameters. Replies come from a scripted
  stream; once it is exhausted, every request fails at the network level.
  Sleeps are recorded. The prompt reads from a scripted stream of answers, and
  an exhausted stream reads as "no".
- Pagination.Paginate: the `Downloader` class the batches are handed to is a
  sink. Its counters (`cumulative_valid_count`, `cumulative_skipped_count`) are
  not part of this model, because that class's code is not part of it. The
  requests and sleeps of each search are stated per page by `Search5` and are
  not repeated in `Paginate`'s contract. The `RemoteDisconnected`/`ConnectionError`
  handler cannot be reached from the search. The search raises a plain
  `Exception` after five tries, which ends the run; the model reports that as
  `failed`.
- Pagination.Paginate: requires a positive `batch_size`. With zero or a
  negative size, the batch loop of `main.py` (line 87) never ends, so that case
  has no final state to model.
- Json.Get: returns the first field of a name. A decoded dict has distinct keys:
  Python's decoder keeps the last value when the text repeats a key. JSON text
  is not parsed in this model, so every `JObj` stands for an already decoded dict.
- Constants are parameters: the crawler's `BATCH_SIZE` and `EXCLUDED_DC_TYPES`
  (the crawler's constants file is not part of this model), and the category
  pipeline's table (given once as `CategoryDownloader.Categories`).
- Directory creation, configuration and API-key loading, translation,
  country lookup, the command-line parsers, progress bars, messages, JSON
  indentation and CSV quoting are not modelled.
- The iteration order of Python sets is left open. Reconciliation and
  `list(set(...))` pick elements in an arbitrary order.
- The category downloader is a value, not a class, because
  its fields are set once by the constructor and never change.
