# SteamAnalysis, modelled in Dafny

This project models the deterministic core of the SteamAnalysis pipeline and proves properties of it. The pipeline scrapes Steam, Gamalytic, SteamCharts and HowLongToBeat into JSON-lines shards, then loads the Gamalytics documents into a relational store. The model covers four parts:

- **Identifier checkpoints, windows, shard names and batches** (`Checkpoint`, `Windows`, `Decimal`, `Text`). The `id<TAB>name` checkpoint file is written by the app-list scraper and read back by the others. Each run takes a clamped slice `[start:start+limit]` of it, with `end = start + len - 1`. Shards are named `<prefix>_<start>_<end>.jsonl`. The item scraper cuts its window into fixed-size batches.
- **The extraction loops** (`Api`, `Fetch`, `GamalyticExtract`, `GetItemsExtract`, `ReviewStatsExtract`, `ChartsExtract`, `HltbExtract`). Each HTTP call is an abstract fetch function passed in as a parameter, so every property holds for every server. The properties are about the lines written: per-app failure isolation, one line per success in window order, HLTB pagination, the release-date filter, the trimming of review summaries and the search-key match.
- **The schema** (`Schema`). The seven Gamalytics tables are records. `Valid` states the store's integrity: one root row per `steamId`, every child row pointing at a root row, and every `type` column holding a documented value. `Commit` models the primary key.
- **The two Gamalytics loaders** (`GamalyticsLoader`, `GamalyticsDictLoader`, `LoadRun`). One document fans out into a root row and its child rows. A run reads the sorted `*.jsonl` files line by line and commits either once per file or once per line. The model proves row counts, key propagation, type tags, the "absent list, no rows" rule, the committed state after every commit, and that every committed state is valid. It also proves that both granularities complete on the same inputs and end in the same store, and that both loaders build the same rows wherever the second one works at all.

Exceptions that escape the source are `Err` values of a `Result` carrying a `Fault`. A loop that can stop part way returns what it wrote so far together with how it ended (`Completed` or `Aborted`). Logging, progress bars and file handles are not modelled. Sleeps are modelled as a count of pacing events.

Two behaviours of the code are easy to misread:

- HLTB pagination stops only when `pageCurrent == pageTotal` or after `max_pages`. An empty page does not stop it: `HltbExtract.PagesStop` proves that the loop goes past every page that was read and was not the last, however few ids it held.
- Reloading a shard is not idempotent. The loaders insert with plain `add` against the primary key on `steamId`, so `Schema.ReloadConflicts` proves that reloading an app is a key conflict that refuses the whole commit.

## Model

| member | source | states |
|---|---|---|
| Api.RetrySet | src/extract/api_scraper.py:17-23 | The retry codes form a set of exactly five statuses, and a status is in that set exactly when it is retryable |
| Api.RetryableExactly | src/extract/api_scraper.py:17-23 | A status is retryable if and only if it is 429, 500, 502, 503 or 504, so 200, 400, 403 and 404 are not |
| Api.DefaultHeaders | src/extract/api_scraper.py:9-15 | The default headers are exactly Accept, Content-Type, Origin, Referer and User-Agent, in that order; Accept is `*/*`, Content-Type is `application/json`, and Origin and Referer both equal the base URL |
| Checkpoint.ReadLine | src/extract/gamalytic.py:38-42 | A line without a tab is skipped; a record read from a line has a stripped name with no tab in it |
| Checkpoint.ReadLineNumeral | src/extract/gamalytic.py:39-42 | A line with a tab reads if and only if its first field is an integer numeral, and the id is that numeral's value |
| Checkpoint.ReadCheckpoint | src/extract/gamalytic.py:37-42 | The lenient reader yields at most one record per line, each with a stripped name |
| Checkpoint.ReadCheckpointOk | src/extract/gamalytic.py:37-42 | The whole file reads without error if and only if every one of its lines does |
| Checkpoint.ReadCheckpointKeepsAll | src/extract/gamalytic.py:37-42 | When every line has a tab and the file reads, no line is lost: one record per line |
| Checkpoint.ReadLineStrict | src/extract/steam_getitems.py:65-67 | The strict reader fails on a line without a tab: with a `ValueError` when the line is not an integer numeral, because `int(data[0])` is evaluated before `data[1]`, and with an `IndexError` otherwise. On a line with a tab it succeeds exactly when the lenient reader does, and with the same record |
| Checkpoint.ReadStrict | src/extract/steam_getitems.py:63-68 | A strict read of a file gives one record per line, in file order, each being that line's strict reading |
| Checkpoint.ReadIdFiles | src/extract/steam_getitems.py:61-68 | The records are those of `game_ids.txt` followed by those of `dlc_ids.txt`, each file in order, and the read fails if either file fails |
| Checkpoint.ReadWrittenLine | src/extract/steam_app_list.py:28 | A written line is one full line, and both readers return its id and its stripped name, provided the name holds no tab, newline or carriage return |
| Checkpoint.CheckpointRoundTrip | src/extract/steam_app_list.py:26-28 | Reading back a written checkpoint file, leniently or strictly, gives every pair in order with stripped names |
| Checkpoint.PairsOf | src/extract/steam_app_list.py:19 | One pair per app entry, in response order, carrying that entry's `appid` and `name` |
| Checkpoint.AppPairs | src/extract/steam_app_list.py:18-19 | The pairs come from `applist.apps` of the response, one per listed app |
| Checkpoint.GetAppList | src/extract/steam_app_list.py:16-28 | The run succeeds exactly when the response yields its pairs, and the duplicate count it reports is that of the pairs |
| Checkpoint.AppListRoundTrip | src/extract/steam_app_list.py:26-28 | The file written for a response reads back as its pairs, in response order, with duplicates kept and names stripped |
| Checkpoint.DuplicateCount | src/extract/steam_app_list.py:22-23 | The reported count `len(pairs) - len(set(pairs))` is zero if and only if no pair repeats, and is below the number of pairs when there is any pair |
| Checkpoint.ElemsCard | src/extract/steam_app_list.py:22-23 | A list has no more distinct elements than entries, and exactly as many if and only if no entry repeats |
| Decimal.ParseIntToString | src/extract/gamalytic.py:42 | Reading back a written integer with `int` gives that integer, so `int(str(n)) == n` |
| Decimal.IntToStringInjective | src/extract/gamalytic.py:49 | Distinct integers are written as distinct numerals |
| Windows.ClampBound | src/extract/gamalytic.py:44 | A slice bound is clamped into the list: a bound inside the list is kept, and one past its end becomes its length |
| Windows.WindowContents | src/extract/gamalytic.py:44-45 | For a non-negative start and limit, the window holds the ids at positions start, start + 1 and so on, as many as exist up to the limit, and `end` indexes its last id |
| Windows.WindowsConcatenate | src/extract/steam_getitems.py:70 | Adjacent windows concatenate to the window covering both, so shards from separate runs over one id list add up |
| Windows.ShardNameRoundTrip | src/extract/steam_getitems.py:77 | A shard name `<prefix>_<start>_<end>.jsonl` gives back its start and end |
| Windows.TenToFourteen | src/extract/gamalytic.py:44-49 | Start 10 and limit 5 over 20 ids gives ids 10 to 14, `end` 14 and the shard `data_10_14.jsonl` |
| Windows.Batches | src/extract/steam_getitems.py:80-81 | The batches concatenate to the window; each is non-empty and holds at most `batch_size` ids, and all but the last hold exactly `batch_size` |
| Windows.BatchCount | src/extract/steam_getitems.py:80 | There are `ceil(len / batch_size)` batches, as many as the loop's `range` has steps |
| Windows.BatchesAreSlices | src/extract/steam_getitems.py:80-81 | Batch k is exactly the slice `ids[k * size : k * size + size]` that the loop takes |
| Windows.DivUnique | src/extract/steam_getitems.py:80 | Division has one quotient: an exact quotient-remainder split gives `n / d` |
| GetItemsExtract.BatchQueryIds | src/extract/steam_getitems.py:82 | A batch's query names exactly that batch's app ids, in order |
| GetItemsExtract.StoreItemsDefaults | src/extract/steam_getitems.py:88 | A missing `response` or `store_items` reads as no items and a present list is taken whole; a `response` that is not an object raises |
| GetItemsExtract.BatchItems | src/extract/steam_getitems.py:84-88 | A batch yields items only from a parsed body, and then exactly what its `response.store_items` holds; no response fails on `.url` with an `AttributeError`, and a body that is not JSON fails in `.json()` with a `ValueError` |
| GetItemsExtract.ProcessBatch | src/extract/steam_getitems.py:37-46 | Writing a batch appends one line per item, in item order, and leaves the earlier lines untouched |
| GetItemsExtract.ItemsOf | src/extract/steam_getitems.py:84-88 | When every batch is answered, each batch's items are those its reply yields |
| GetItemsExtract.RunBatches | src/extract/steam_getitems.py:80-100 | The loop only appends lines; it completes exactly when every batch's reply yields its items, and then it has sent every batch |
| GetItemsExtract.RunSent | src/extract/steam_getitems.py:80-86 | Queries go out batch by batch, in order, and stop at the first failing batch, which is itself sent |
| GetItemsExtract.RunPacing | src/extract/steam_getitems.py:100 | There is one pacing sleep per answered batch: all of them when the run completes, and none for the batch that failed |
| GetItemsExtract.RunAllSucceed | src/extract/steam_getitems.py:88-97 | With every batch answered, the shard holds every returned item, batch by batch in item order, whatever the counts, with one warning per batch whose count differs |
| GetItemsExtract.Mismatches | src/extract/steam_getitems.py:90-95 | At most one count warning per batch |
| GetItemsExtract.GetItems | src/extract/steam_getitems.py:49-100 | The run fails before writing exactly when an id file fails to read; otherwise the shard is named after the window, a zero batch size raises and a negative one sends nothing |
| GetItemsExtract.GetItemsCompleted | src/extract/steam_getitems.py:63-100 | When every batch is answered, every app of the window is requested once, in window order, and the shard holds all returned items with one sleep per batch |
| ChartsExtract.CcuUrlShape | src/extract/steam_charts.py:22 | The request URL starts with the base URL, ends with `/chart-data.json`, and names the app's id in between |
| ChartsExtract.CcuUrlInjective | src/extract/steam_charts.py:22 | Distinct apps are asked for at distinct URLs |
| ChartsExtract.Kept | src/extract/steam_charts.py:37-45 | At most one entry per record; each written entry has non-empty text, and that text is the one its app's request returned |
| ChartsExtract.KeptAppend | src/extract/steam_charts.py:32-45 | The entries kept for two stretches of the id file are those of each stretch, joined in order |
| ChartsExtract.FailureIsolated | src/extract/steam_charts.py:39-43 | An app with no history, or an empty one, writes nothing and leaves every other app's entry as it would have been |
| ChartsExtract.AllAnswered | src/extract/steam_charts.py:32-45 | When every app answers, there is one entry per record, in id-file order |
| ChartsExtract.LineEntries | src/extract/steam_charts.py:33-45 | One id-file line yields at most one entry |
| ChartsExtract.CollectCompleted | src/extract/steam_charts.py:30-45 | When the id file reads, the run completes and its entries are the answering records', in file order; single-field lines are skipped |
| ChartsExtract.CollectAborted | src/extract/steam_charts.py:37 | The first line with a bad numeral ends the run with its error, and the entries are those of the lines before it |
| ChartsExtract.RecordsRunTogether | src/extract/steam_charts.py:45 | As written, records of texts without newlines are never separated, so the file reads back as one line however many apps answered |
| ChartsExtract.ParseRecordRoundTrip | src/extract/steam_charts.py:45 | A record written with a line terminator parses back to its id and text |
| ChartsExtract.OutputRoundTrip | src/extract/steam_charts.py:45 | With newline-terminated records, the output reads back as one line per entry, in order, each parsing to its entry |
| ChartsExtract.OutputAsWrittenAppend | src/extract/steam_charts.py:32-45 | As written, the file for two stretches of entries is the first stretch's records followed directly by the second's |
| ChartsExtract.GetAllCcuHistory | src/extract/steam_charts.py:26-47 | The loop writes, for exactly the entries the run collects and in that order, each `id<TAB>data` record with no line terminator, as line 45 does, and ends as that run ends |
| GamalyticExtract.AppRequestShape | src/extract/gamalytic.py:17-57 | Each request names its app after the base URL, carries `include_pre_release_history=true` as its one parameter and the API key as its one header |
| GamalyticExtract.AppRequestInjective | src/extract/gamalytic.py:56 | Distinct apps get distinct requests |
| GamalyticExtract.AppStep | src/extract/gamalytic.py:57-67 | An app writes a line if and only if its reply parses, and the line is that body; the pacing sleep follows every reply except a falsy one |
| GamalyticExtract.LinesWithinPacing | src/extract/gamalytic.py:58-67 | Every written line is followed by a sleep, so there are no more lines than sleeps |
| GamalyticExtract.WrittenSplit | src/extract/gamalytic.py:52-67 | The lines for two consecutive stretches of the window are the lines of each stretch, in order |
| GamalyticExtract.FailureIsolated | src/extract/gamalytic.py:58-65 | An app that gets no parsed body writes nothing and leaves every other app's line as it would have been |
| GamalyticExtract.Answers | src/extract/gamalytic.py:52-63 | The answering positions are increasing, and a position is listed exactly when its app answered |
| GamalyticExtract.WrittenInOrder | src/extract/gamalytic.py:52-63 | There is one line per answering app, in window order, and each line is the body that app's request returned |
| GamalyticExtract.AllAnswered | src/extract/gamalytic.py:52-63 | When every app answers, the shard holds exactly their bodies, one per app, in window order |
| GamalyticExtract.FetchWindow | src/extract/gamalytic.py:51-67 | The loop writes exactly the lines and takes exactly the sleeps that the per-app steps give, with no more lines than sleeps and no more sleeps than apps |
| GamalyticExtract.GetData | src/extract/gamalytic.py:25-69 | A bad numeral in the checkpoint fails the run before any shard exists; otherwise the shard is named after the window and holds the window's lines |
| ReviewStatsExtract.Flag | src/extract/steam_reviewstats.py:71-74 | On a release object, a flag counts only when its key is present and its value is exactly `true` |
| ReviewStatsExtract.Absorb | src/extract/steam_reviewstats.py:61-78 | One stored record only ever adds or overwrites entries of the release map |
| ReviewStatsExtract.AbsorbRule | src/extract/steam_reviewstats.py:64-78 | A well-formed record maps its id to its `steam_release_date` exactly when it has a release that is neither coming soon nor early access and carries that date, and otherwise leaves the map alone; a record without an id raises |
| ReviewStatsExtract.ScanDocs | src/extract/steam_reviewstats.py:60-78 | Scanning a file's records never removes an entry |
| ReviewStatsExtract.ScanDocsAppend | src/extract/steam_reviewstats.py:61-78 | Records are absorbed in line order, each after those before it |
| ReviewStatsExtract.ScanIsApply | src/extract/steam_reviewstats.py:61-78 | Over well-formed records the scan never raises and equals the plain fold of each record's requested update |
| ReviewStatsExtract.ApplyLastWins | src/extract/steam_reviewstats.py:76 | The last update for a key decides its value |
| ReviewStatsExtract.ApplyUntouched | src/extract/steam_reviewstats.py:76 | A key that no update names keeps its entry, or its absence |
| ReviewStatsExtract.LastQualifyingWins | src/extract/steam_reviewstats.py:61-78 | The id of the last qualifying record with that id maps to that record's date |
| ReviewStatsExtract.Untouched | src/extract/steam_reviewstats.py:61-78 | A key that no qualifying record names keeps its entry or its absence, so nothing else changes |
| ReviewStatsExtract.ScanDocsConcat | src/extract/steam_reviewstats.py:56-78 | Scanning one run of records after another is scanning their concatenation, and a failure in the first run ends the scan |
| ReviewStatsExtract.ScanFiles | src/extract/steam_reviewstats.py:56-78 | Scanning the directory never removes an entry |
| ReviewStatsExtract.GetItemsFiles | src/extract/steam_reviewstats.py:57 | The files kept are those whose names start with `getitems_`, in listing order |
| ReviewStatsExtract.OnlyGetItemsFiles | src/extract/steam_reviewstats.py:56-57 | Any file whose name does not start with `getitems_` changes nothing, whatever it holds |
| ReviewStatsExtract.ScanKeptFiles | src/extract/steam_reviewstats.py:56-78 | Over `getitems_` files only, the directory scan is one scan of their records, file after file |
| ReviewStatsExtract.ScanFilesIsScanDocs | src/extract/steam_reviewstats.py:52-80 | The directory scan is one scan over the records of the `getitems_` files, file after file in listing order, so a record in a later file overwrites one in an earlier file |
| ReviewStatsExtract.ReleaseDatesLastWins | src/extract/steam_reviewstats.py:52-80 | In the release map of a directory of well-formed records, the id of the last qualifying record with that id, in whichever file, maps to that record's date |
| ReviewStatsExtract.FromTimestamp | src/extract/steam_reviewstats.py:84 | A timestamp becomes a local day and a second within that day which together give back the timestamp plus the offset |
| ReviewStatsExtract.TimestampEndAdds | src/extract/steam_reviewstats.py:83-86 | Under a fixed offset the end is exactly `604800 * weeks` seconds after the start, and 1209600 seconds after it by default |
| ReviewStatsExtract.FixedHasNoDates | src/extract/steam_reviewstats.py:19-27 | The fixed parameters hold neither date key |
| ReviewStatsExtract.ParamsShape | src/extract/steam_reviewstats.py:127-139 | Every request sends the fixed parameters unchanged and its own two dates; the all-time request sends the base parameters exactly, with both dates -1 |
| ReviewStatsExtract.Trim | src/extract/steam_reviewstats.py:42-47 | A record is written exactly when the reply body is an object |
| ReviewStatsExtract.TrimSpec | src/extract/steam_reviewstats.py:43-45 | The written record names its app and has neither `reviews` nor `success`; every other member keeps its value |
| ReviewStatsExtract.Submit | src/extract/steam_reviewstats.py:33-49 | One request writes at most one line, which is a trimmed summary of its app, and writes one exactly when the reply is an object |
| ReviewStatsExtract.Loop | src/extract/steam_reviewstats.py:120-141 | The loop completes exactly when every release date in the window is an integer or a boolean, which Python reads as 0 or 1; each shard gets at most one line per app, and there is one sleep per request |
| ReviewStatsExtract.LoopRequests | src/extract/steam_reviewstats.py:124-141 | A completed loop makes exactly the planned requests, app by app in window order: the all-time one always, and the early one when the app has a usable release date |
| ReviewStatsExtract.LoopStep | src/extract/steam_reviewstats.py:120-141 | An app the loop gets past writes its all-time lines and, when it has a usable release date, its early lines, ahead of those of the rest of the window |
| ReviewStatsExtract.RequestsStep | src/extract/steam_reviewstats.py:124-141 | An app the loop gets past makes its planned requests ahead of those of the rest of the window |
| ReviewStatsExtract.LoopAborts | src/extract/steam_reviewstats.py:128-136 | An app whose release date `fromtimestamp` rejects gets its all-time request and line, nothing in the early shard, and is the last app requested |
| ReviewStatsExtract.LoopInOrder | src/extract/steam_reviewstats.py:120-141 | A completed loop's all-time shard is every app's all-time summary in window order, and its early shard is the early-window summary of every app with a usable release date, in window order |
| ReviewStatsExtract.LoopStopsAt | src/extract/steam_reviewstats.py:120-141 | A loop that reaches an app whose release date `fromtimestamp` rejects has written the lines of every app before it, and that app's all-time line |
| ReviewStatsExtract.LoopStopsAfter | src/extract/steam_reviewstats.py:124-136 | Such a loop has made the planned requests of every app before that app, then that app's all-time request, and no other |
| ReviewStatsExtract.LoopWritesSummaries | src/extract/steam_reviewstats.py:128-140 | Every line of either shard is a trimmed summary of some app of the window |
| ReviewStatsExtract.GetData | src/extract/steam_reviewstats.py:89-141 | The run fails before opening a shard exactly when the checkpoint or the release dates fail to read; otherwise the two shards are named after the window and filled by the loop |
| HltbExtract.AlnumRun | src/extract/hltb.py:57 | The run measured is the longest prefix made only of ASCII letters and digits |
| HltbExtract.MatchAt | src/extract/hltb.py:56-58 | A match at a position is the key call written out there, with a non-empty key of ASCII letters and digits |
| HltbExtract.FindFrom | src/extract/hltb.py:56-58 | The position found holds a match and no earlier position from the start point does; when nothing is found, no position matches |
| HltbExtract.SearchKey | src/extract/hltb.py:56-61 | A key is found if and only if the script holds a match somewhere, and a found key is non-empty and alphanumeric |
| HltbExtract.KeyFoundAtStart | src/extract/hltb.py:56-61 | A script that starts with the key call yields that key, whatever follows |
| HltbExtract.KeyIsLeftmost | src/extract/hltb.py:56-61 | The key returned is the one at the leftmost match |
| HltbExtract.GetSearchKey | src/extract/hltb.py:38-66 | The key is returned if and only if the script tag exists and its script holds a match; otherwise the process exits with status 1 |
| HltbExtract.SearchBodyPage | src/extract/hltb.py:76-100 | Each request body asks for the page the counter names, and nothing else in it changes from page to page |
| HltbExtract.GameIds | src/extract/hltb.py:146-148 | One id per result, in response order, each the result's `game_id` |
| HltbExtract.DecodePage | src/extract/hltb.py:138-151 | A page is the last one exactly when `pageCurrent` equals `pageTotal`, and its ids are those of its `data`; a missing `pageCurrent` raises |
| HltbExtract.PageOf | src/extract/hltb.py:135-138 | A parsed reply is decoded, and any other reply raises |
| HltbExtract.Pages | src/extract/hltb.py:180-197 | The pages requested are numbered consecutively from the starting page, never more than `max_pages` of them, and none past the limit |
| HltbExtract.PagesStop | src/extract/hltb.py:183-197 | Every page the loop goes past was read and was not the last, so an empty page does not stop it; a run that completes early stops on a last page; an aborted run stops on the page that raised |
| HltbExtract.PagesIds | src/extract/hltb.py:183-191 | The ids recorded are those of the pages requested, in page and response order, the last page's included |
| HltbExtract.PagesPacing | src/extract/hltb.py:189-197 | There is one sleep after every page that was read and was not the last |
| HltbExtract.IdFileRoundTrip | src/extract/hltb.py:110-112 | The id file reads back as one line per recorded id, in order, each stripping to that id's numeral |
| HltbExtract.GetHltbIds | src/extract/hltb.py:153-200 | The loop harvests exactly what the pagination function gives from page 1, and the id file is emptied first when reset is asked for and then gets each recorded id as a line |
| HltbExtract.LineDoc | src/extract/hltb.py:211-225 | An id line yields its game's document exactly when the page holds `__NEXT_DATA__` JSON; a missing tag exits with status 1 |
| HltbExtract.GameDataLines | src/extract/hltb.py:240-244 | The run completes if and only if every page holds its data, and then it writes exactly one document per id line, in order |
| HltbExtract.HarvestedGames | src/extract/hltb.py:110-112 | After a harvest into a reset id file, the game pages requested are exactly those of the harvested ids, in order |
| HltbExtract.GetAllGameData | src/extract/hltb.py:227-247 | The loop writes the documents the run gives, in order, and ends as the run ends |
| GamalyticsLoader.MainOf | src/transform/stage_1/loaders/gamalytics_loader.py:26-53 | The root row exists exactly when the document is an object with a `steamId`; without one the insert raises `KeyError('steamId')`; the row's key is the document's `steamId` and every other column is the document's value for that column's name, or null when absent |
| GamalyticsLoader.HistoryEntry | src/transform/stage_1/loaders/gamalytics_loader.py:57-67 | A history entry yields a row exactly when it is an object; the row carries the parent's `steamId`, and every other column is the entry's value for that name |
| GamalyticsLoader.HistoryOf | src/transform/stage_1/loaders/gamalytics_loader.py:55-68 | With no `history` key there are no rows; otherwise there is one row per history entry, in list order, each the entry's own row and keyed by the parent |
| GamalyticsLoader.GenresOf | src/transform/stage_1/loaders/gamalytics_loader.py:80 | Missing genres join to the empty string; a null genres value raises; the join succeeds exactly when genres is iterable and every element is a string |
| GamalyticsLoader.JoinAllSpaced | src/transform/stage_1/loaders/gamalytics_loader.py:80 | Joining with `', '` equals a leading space plus the comma-join of the same parts each prefixed by one space |
| GamalyticsLoader.JoinSepSpaced | src/transform/stage_1/loaders/gamalytics_loader.py:80 | Joining parts with `', '` equals joining them with a bare comma after putting one space in front of every part but the first |
| GamalyticsLoader.GenresSplit | src/transform/stage_1/loaders/gamalytics_loader.py:80 | When no genre contains a comma, splitting the joined genres on commas gives back every genre, all but the first behind one space |
| GamalyticsLoader.OverlapEntry | src/transform/stage_1/loaders/gamalytics_loader.py:72-83 | An overlap entry yields a row exactly when it is an object whose genres join; a non-object entry raises `AttributeError`; the row has the parent's `steamId`, the group's type, the entry's own `steamId` and name as the related game, and the joined genres |
| GamalyticsLoader.OverlapGroup | src/transform/stage_1/loaders/gamalytics_loader.py:71-84 | A missing group adds no rows; otherwise there is one row per entry, in list order, each the row its entry gives |
| GamalyticsLoader.OverlapOf | src/transform/stage_1/loaders/gamalytics_loader.py:70-99 | The overlap insert succeeds exactly when both the `audienceOverlap` group and the `alsoPlayed` group do; with neither key it adds nothing |
| GamalyticsLoader.OverlapGroupRows | src/transform/stage_1/loaders/gamalytics_loader.py:72-83 | Every row of a group carries the parent's `steamId`, the group's type tag and its entry's `steamId` as the related id |
| GamalyticsLoader.OverlapRows | src/transform/stage_1/loaders/gamalytics_loader.py:70-99 | The overlap rows are the `audienceOverlap` rows tagged `audience_overlap`, followed by the `alsoPlayed` rows tagged `also_played`, one per entry; every row carries the parent's key |
| GamalyticsLoader.PlaytimeOf | src/transform/stage_1/loaders/gamalytics_loader.py:101-110 | Without `playtimeData` there are no rows; otherwise there is one row per member of the distribution, in member order, each holding the range, its percentage and the shared median |
| GamalyticsLoader.EstimateOf | src/transform/stage_1/loaders/gamalytics_loader.py:112-120 | There is always exactly one estimate row keyed by the parent, with null figures when `estimateDetails` is missing; it fails exactly when `estimateDetails` is present but not an object |
| GamalyticsLoader.DlcEntry | src/transform/stage_1/loaders/gamalytics_loader.py:123-133 | A DLC entry yields a row exactly when it is an object whose genres join; the row carries the parent's key, the DLC's own `steamId` and the joined genres |
| GamalyticsLoader.DlcOf | src/transform/stage_1/loaders/gamalytics_loader.py:122-134 | With no `dlc` key there are no rows; otherwise there is one row per DLC entry, in list order, each keyed by the parent |
| GamalyticsLoader.KindRows | src/transform/stage_1/loaders/gamalytics_loader.py:137-138 | One attribute row per list element, in order, each typed by the category and holding the element itself |
| GamalyticsLoader.AttributeList | src/transform/stage_1/loaders/gamalytics_loader.py:136-144 | The attribute rows are the tags, then the genres, then the features, then the languages, each typed by its category; each list element appears at its own position |
| GamalyticsLoader.AttributeListTagged | src/transform/stage_1/loaders/gamalytics_loader.py:136-144 | Every attribute row carries the parent's key and one of the four documented category tags |
| GamalyticsLoader.AttributesOf | src/transform/stage_1/loaders/gamalytics_loader.py:136-144 | The attribute insert succeeds exactly when all four lists are iterable, and then gives the four lists' rows in category order |
| GamalyticsLoader.Decompose | src/transform/stage_1/loaders/gamalytics_loader.py:161-168 | A line's document gives rows exactly when the root insert and all six child inserts succeed; a document without `steamId` raises `KeyError('steamId')` before anything else, and a non-object raises |
| GamalyticsLoader.AttributesTagged | src/transform/stage_1/loaders/gamalytics_loader.py:136-144 | Every attribute row of a document carries the parent's key and a documented type |
| GamalyticsLoader.FanKeyed | src/transform/stage_1/loaders/gamalytics_loader.py:162-168 | All rows of one document carry the root's `steamId` |
| GamalyticsLoader.FanTagged | src/transform/stage_1/models/gamalytics.py:48-95 | Every overlap and attribute row of one document has a documented type |
| GamalyticsLoader.FanShape | src/transform/stage_1/loaders/gamalytics_loader.py:162-168 | The rows of one document form one root row with children that all point at it and carry a documented type |
| GamalyticsLoader.DecomposeShape | src/transform/stage_1/loaders/gamalytics_loader.py:161-168 | A decomposed document has one root row keyed by the document's `steamId`, exactly one estimate row, and children that are all linked to the root and correctly tagged |
| GamalyticsDictLoader.Construct | src/transform/stage_1/loaders/gamalytics.py:19-25 | Building a row from a dict succeeds exactly when every key of the dict is a column of the table. It then holds the dict's values, with null for absent columns. Otherwise the handler's misspelt attribute makes it fail with `AttributeError` |
| GamalyticsDictLoader.StrayKeyFails | src/transform/stage_1/loaders/gamalytics.py:19-25 | A dict with a key that is not a column of the table always fails to insert |
| GamalyticsDictLoader.EntryData | src/transform/stage_1/loaders/gamalytics.py:30 | Merging an entry with the additional data succeeds exactly when the entry is a mapping. The merged dict has a key exactly when either side has it, and an additional key's value wins over the entry's |
| GamalyticsDictLoader.EntryDataNothing | src/transform/stage_1/loaders/gamalytics.py:30 | With no additional data the merged dict is the entry itself |
| GamalyticsDictLoader.ParentKeyWins | src/transform/stage_1/loaders/gamalytics.py:30 | The parent `steamId` passed as additional data reaches the constructor, whatever `steamId` the entry itself holds |
| GamalyticsDictLoader.Insert | src/transform/stage_1/loaders/gamalytics.py:29-31 | One entry inserts exactly when it is a mapping whose merged keys are all columns of the table. The row is built from the merged dict |
| GamalyticsDictLoader.JsonList | src/transform/stage_1/loaders/gamalytics.py:28-31 | A missing key inserts nothing. Otherwise there is one insert per list entry, in list order, each the row its merged entry builds |
| GamalyticsDictLoader.MainDictFits | src/transform/stage_1/loaders/gamalytics.py:45-72 | The root dict always fits its table, so the root insert never fails once `steamId` is read |
| GamalyticsDictLoader.MainAgrees | src/transform/stage_1/loaders/gamalytics.py:45-72 | The root row the dict loader builds is the same row the first loader builds from the same document |
| GamalyticsDictLoader.HistoryOf | src/transform/stage_1/loaders/gamalytics.py:95 | A missing `history` inserts nothing. Every history row carries the parent's `steamId` |
| GamalyticsDictLoader.HistoryEntryAgrees | src/transform/stage_1/loaders/gamalytics.py:95 | Any history row the dict loader builds from an entry is the row the first loader builds from it |
| GamalyticsDictLoader.HistoryAgrees | src/transform/stage_1/loaders/gamalytics.py:95 | Whenever the dict loader's history insert goes through, the first loader inserts the same history rows |
| GamalyticsDictLoader.OverlapGroup | src/transform/stage_1/loaders/gamalytics.py:96-101 | A missing group inserts nothing. Otherwise there is one row per entry, each carrying the parent's `steamId` and the group's `type` |
| GamalyticsDictLoader.OverlapParentWins | src/transform/stage_1/loaders/gamalytics.py:96-101 | Every row of an overlap group carries the parent's `steamId` and the group's type, never the entry's own `steamId` |
| GamalyticsDictLoader.OverlapEntryParentWins | src/transform/stage_1/loaders/gamalytics.py:96-101 | A single related-game row carries the parent's `steamId` and the group's type |
| GamalyticsDictLoader.OverlapNameFails | src/transform/stage_1/loaders/gamalytics.py:96-101 | A related-game entry with a `name` key fails to insert, because the overlap table has `relatedName` and no `name` column |
| GamalyticsDictLoader.PlaytimeDicts | src/transform/stage_1/loaders/gamalytics.py:104-111 | The playtime dicts can be built exactly when the first loader's playtime insert goes through, and both fail with the same exception otherwise |
| GamalyticsDictLoader.PlaytimeDictFits | src/transform/stage_1/loaders/gamalytics.py:106-112 | A playtime dict always fits its table. It builds the row of the parent, the shared median, the range and its percentage |
| GamalyticsDictLoader.PlaytimeDictsAgree | src/transform/stage_1/loaders/gamalytics.py:104-112 | Inserting the playtime dicts gives exactly the first loader's playtime rows |
| GamalyticsDictLoader.PlaytimeOf | src/transform/stage_1/loaders/gamalytics.py:103-112 | The dict loader's playtime insert agrees with the first loader's, rows or exception |
| GamalyticsDictLoader.EstimateDict | src/transform/stage_1/loaders/gamalytics.py:115-121 | The estimate dict can be built exactly when `estimateDetails` is absent or an object |
| GamalyticsDictLoader.EstimateOf | src/transform/stage_1/loaders/gamalytics.py:114-122 | The dict loader's estimate insert agrees with the first loader's: exactly one row per document, with null figures when `estimateDetails` is absent |
| GamalyticsDictLoader.Decompose | src/transform/stage_1/loaders/gamalytics.py:89-127 | A line's document gives rows exactly when it has a `steamId` and every child insert goes through. A document without `steamId` raises `KeyError('steamId')`. The root row is the first loader's root row |
| GamalyticsDictLoader.FanShape | src/transform/stage_1/loaders/gamalytics.py:92-127 | The rows of one document all carry its root's key and a documented type |
| GamalyticsDictLoader.FanKeyedFront | src/transform/stage_1/loaders/gamalytics.py:95-112 | Every history, overlap and playtime row of one document carries the root's key |
| GamalyticsDictLoader.FanKeyedBack | src/transform/stage_1/loaders/gamalytics.py:115-127 | The estimate, DLC and attribute rows of one document carry the root's key |
| GamalyticsDictLoader.FanTagged | src/transform/stage_1/loaders/gamalytics.py:96-101 | Every overlap and attribute row of one document has a documented type |
| GamalyticsDictLoader.DecomposeShape | src/transform/stage_1/loaders/gamalytics.py:89-127 | A decomposed document has one root row keyed by the document's `steamId` and exactly one estimate row. Its children all link to the root and are correctly tagged |
| GamalyticsDictLoader.VersionsAgree | src/transform/stage_1/loaders/gamalytics.py:89-127 | On a document with no related games, whatever the dict loader inserts is exactly what the first loader inserts |
| Schema.MainFrom | src/transform/stage_1/models/gamalytics.py:7-32 | The root row built from keyword values holds, column by column in declaration order, the value given for that column's name |
| Schema.MainValuesInjective | src/transform/stage_1/models/gamalytics.py:7-32 | Two root rows with the same column values are the same row |
| Schema.HistoryFrom | src/transform/stage_1/models/gamalytics.py:35-46 | A history row holds, column by column, the value given for that column's name |
| Schema.HistoryValuesInjective | src/transform/stage_1/models/gamalytics.py:35-46 | Two history rows with the same column values are the same row |
| Schema.OverlapFrom | src/transform/stage_1/models/gamalytics.py:48-60 | An overlap row holds, column by column, the value given for that column's name, with `type` among its columns |
| Schema.PlaytimeFrom | src/transform/stage_1/models/gamalytics.py:62-68 | A playtime row holds, column by column, the value given for that column's name |
| Schema.EstimateFrom | src/transform/stage_1/models/gamalytics.py:70-76 | An estimate row holds, column by column, the value given for that column's name |
| Schema.MainColumnsDistinct | src/transform/stage_1/models/gamalytics.py:7-32 | The root table names no column twice, and its first column is the primary key `steamId` |
| Schema.ChildColumnsDistinct | src/transform/stage_1/models/gamalytics.py:35-76 | No child table names a column twice, and each has `steamId` as its first non-surrogate column |
| Schema.AppendAssoc | src/transform/stage_1/models/gamalytics.py:7-95 | Appending rows table by table is associative |
| Schema.AppendEmpty | src/transform/stage_1/models/gamalytics.py:7-95 | Appending no rows changes nothing |
| Schema.MainIds | src/transform/stage_1/models/gamalytics.py:9 | The root keys list one key per root row, in insertion order |
| Schema.MainIdsAppend | src/transform/stage_1/models/gamalytics.py:9 | The root keys after an append are the old keys followed by the appended ones |
| Schema.Commit | src/transform/stage_1/models/gamalytics.py:9 | A commit succeeds exactly when no `steamId` repeats across stored and pending root rows. Otherwise it fails with the primary-key `IntegrityError` and keeps nothing. On success the store grows by the pending rows, every stored row stays in place, and the root keys stay distinct |
| Schema.OneDocumentShape | src/transform/stage_1/models/gamalytics.py:38-94 | The rows of one document have exactly its root key, and every child is linked to it and tagged |
| Schema.LinkedWider | src/transform/stage_1/models/gamalytics.py:38 | A child linked to some root keys stays linked when more keys are known |
| Schema.LinkedMono | src/transform/stage_1/models/gamalytics.py:38 | Adding root keys never breaks a child's link |
| Schema.LinkedAppend | src/transform/stage_1/models/gamalytics.py:38 | Two sets of rows linked to the same keys stay linked when appended |
| Schema.TaggedAppend | src/transform/stage_1/models/gamalytics.py:52 | Appending two sets of correctly typed rows keeps every `type` column documented |
| Schema.CommitKeepsValid | src/transform/stage_1/models/gamalytics.py:9 | A commit of tagged rows whose children name stored or committed roots keeps the store valid: distinct root keys, every child linked, every type documented |
| Schema.ReloadConflicts | src/transform/stage_1/models/gamalytics.py:9 | Loading an app whose root row is already stored always ends in the primary-key conflict; nothing upserts |
| LoadRun.BelowIrreflexive | src/transform/stage_1/loaders/gamalytics_loader.py:149 | No file name sorts before itself |
| LoadRun.BelowAsymmetric | src/transform/stage_1/loaders/gamalytics_loader.py:149 | If one name sorts before another, the other does not sort before it |
| LoadRun.BelowTotal | src/transform/stage_1/loaders/gamalytics_loader.py:149 | Of any two different names, one sorts before the other |
| LoadRun.BelowTransitive | src/transform/stage_1/loaders/gamalytics_loader.py:149 | Sorting names by code point is transitive |
| LoadRun.InsertName | src/transform/stage_1/loaders/gamalytics_loader.py:149 | Inserting a name into an ordered list keeps it ordered, and the result holds the old names plus the new one |
| LoadRun.SortNames | src/transform/stage_1/loaders/gamalytics_loader.py:149 | The sorted listing is ordered and is a permutation of the listing |
| LoadRun.OrderedUnique | src/transform/stage_1/loaders/gamalytics_loader.py:149 | Two ordered arrangements of the same names are equal, so the sorted listing does not depend on the order the directory returns |
| LoadRun.KeepJsonl | src/transform/stage_1/loaders/gamalytics_loader.py:149 | Keeping the `.jsonl` names keeps exactly the names that end in `.jsonl`, and it keeps an ordered list ordered |
| LoadRun.DataFiles | src/transform/stage_1/loaders/gamalytics_loader.py:149 | The data files are sorted and are exactly the listed names that end in `.jsonl` |
| LoadRun.Loads | src/transform/stage_1/loaders/gamalytics_loader.py:161 | A line decodes exactly when it holds a document; an undecodable line raises |
| LoadRun.Pending | src/transform/stage_1/loaders/gamalytics_loader.py:160-168 | A stretch of lines can be held for commit exactly when every line in it decodes and all its inserts go through |
| LoadRun.PendingConcat | src/transform/stage_1/loaders/gamalytics_loader.py:160-168 | When two stretches of lines in turn can be held, each can be held alone, and together they hold the first's rows followed by the second's |
| LoadRun.PendingJoin | src/transform/stage_1/loaders/gamalytics_loader.py:160-168 | Two stretches that can each be held can be held together, and they then hold the first's rows followed by the second's |
| LoadRun.CommitUnits | src/transform/stage_1/loaders/gamalytics_loader.py:151-171 | A run never commits more often than it has units, and a run that completes commits once per unit |
| LoadRun.CommitAt | src/transform/stage_1/loaders/gamalytics_loader.py:151-171 | After the (k+1)-th commit the store holds the starting rows followed by exactly the rows of the first k+1 units, in line order |
| LoadRun.CompletedMeans | src/transform/stage_1/loaders/gamalytics_loader.py:151-171 | From a store with one root row per key, a completed run saw every line decode and fan out, and no `steamId` repeated among stored and loaded root rows |
| LoadRun.CompletesWhen | src/transform/stage_1/loaders/gamalytics_loader.py:151-171 | From a store with one root row per key, a run completes when every line loads and no `steamId` repeats among stored and loaded root rows |
| LoadRun.CompletesIff | src/transform/stage_1/loaders/gamalytics_loader.py:151-171 | From a store with one root row per key, a run completes exactly when every line loads and no `steamId` repeats among stored and loaded root rows |
| LoadRun.CompletedFinal | src/transform/stage_1/loaders/gamalytics_loader.py:151-171 | A completed run ends with the starting rows followed by the rows of every line, in file and line order |
| LoadRun.DistinctPrefix | src/transform/stage_1/loaders/gamalytics_loader.py:171 | A prefix of a list without repeated keys has none either |
| LoadRun.PendingShape | src/transform/stage_1/loaders/gamalytics_loader.py:160-168 | When each document gives self-contained rows, the rows held for one commit are linked to their own root rows and correctly tagged |
| LoadRun.CommitsValid | src/transform/stage_1/loaders/gamalytics_loader.py:151-171 | Starting from a valid store, every state a run commits is valid: distinct root keys, every child linked to a root, every type documented |
| LoadRun.FileUnits | src/transform/stage_1/loaders/gamalytics_loader.py:149-160 | There is one unit per data file, in sorted order, each holding that file's lines |
| LoadRun.Singletons | src/transform/stage_1/loaders/gamalytics.py:87-130 | Committing after every line gives one unit per line, in line order |
| LoadRun.FlattenSingletons | src/transform/stage_1/loaders/gamalytics.py:87-130 | Reading the units of one line each in turn gives back the lines |
| LoadRun.FlattenSingletonsPrefix | src/transform/stage_1/loaders/gamalytics.py:87-130 | The first k+1 singleton units hold exactly the first k+1 lines |
| LoadRun.FirstLoaderShaped | src/transform/stage_1/loaders/gamalytics_loader.py:161-168 | Every document the first loader decomposes gives self-contained rows |
| LoadRun.DictLoaderShaped | src/transform/stage_1/loaders/gamalytics.py:89-127 | Every document the dict loader decomposes gives self-contained rows |
| LoadRun.PerFileValid | src/transform/stage_1/loaders/gamalytics_loader.py:146-171 | Starting from a valid store, every state the first loader commits, once per file, is valid |
| LoadRun.PerRecordCommits | src/transform/stage_1/loaders/gamalytics.py:75-130 | After its (k+1)-th commit, the dict loader's store holds the starting rows followed by exactly the rows of the first k+1 lines across all data files |
| LoadRun.PerRecordValid | src/transform/stage_1/loaders/gamalytics.py:75-130 | Starting from a valid store, every state the dict loader commits, once per line, is valid |
| LoadRun.GranularityAgrees | src/transform/stage_1/loaders/gamalytics.py:130 | For one decomposer, committing once per file and committing once per line complete on the same inputs, and then leave the same store |

## Left out

- The retry loop behind `get_request`/`post_request` is not part of this model: its source is not among the files modelled. Every fetch is a parameter, a function from app, batch or page to a reply, and only the retryable status set is modelled.
- HTTP, files, sleeps, logging, progress bars, `fake_useragent` and the `__main__` blocks are left out. Sleeps are counted as pacing events. The user agent is a parameter.
- `steam_reviewstats.py` never assigns `self.log`, and the base class does not either, so as written its first log call would raise `AttributeError`. The model treats logging as having no effect.
- BeautifulSoup HTML parsing is reduced to "tag found, with this text" or "tag not found".
- The text form of JSON (`json.dumps`/`json.loads`) is left out; documents are the abstract `Json` datatype. An undecodable loader line is `Malformed`.
- Duplicate keys: Python's `json.loads` keeps the last value for a repeated key, while the model's `Lookup` reads the first occurrence. The two agree on documents without repeated keys.
- Floating-point values are opaque (`Float` carries no arithmetic), and timing constants are plain reals. Python's equality across numeric types (`1 == 1.0 == True`, with equal hashes) is left out as well. `HltbExtract.DecodePage` compares `pageCurrent` with `pageTotal` as JSON values, so `1` and `1.0` differ there. The release-date map keeps `1`, `1.0` and `True` as three keys where a Python dict has one, and only the key `Int(id)` is looked up.
- `ReviewStatsExtract.Loop`: a float release date ends the run with `TypeError` in the model, because floats are opaque, while `datetime.fromtimestamp` accepts it. An integer date outside the range `fromtimestamp` accepts (years 1 to 9999, within the platform's `time_t`) raises in Python but gets a window in the model.
- `Checkpoint.PairsOf`: an `appid` that is not an integer or a `name` that is not a string ends the run with `TypeError` in the model, and so `Checkpoint.AppPairs` and `Checkpoint.GetAppList` fail too. Python formats any value into the line with an f-string, which would need `str()` of arbitrary JSON, including opaque floats.
- `HltbExtract.GameIds`: a `game_id` that is not an integer ends the run with `TypeError` in the model, while the source writes any value with `str()`.
- `GamalyticsDictLoader.Construct`: the model accepts only column names as keywords. SQLAlchemy's constructor checks `hasattr(cls, key)`, which also holds for the class's other attributes (`metadata`, `registry`, `__table__`, `__tablename__`, its methods), and then overwrites that attribute on the instance. For such a key `GamalyticsDictLoader.StrayKeyFails` and `GamalyticsDictLoader.Insert` state a failure that Python does not raise.
- `steam_app_list.py:16`, `steam_charts.py:23` and every request in `hltb.py` pass `headers=self.headers`, but those classes assign no `self.headers`, and the base class defines only `self.HEADERS`. As written those calls raise `AttributeError`. The model treats the headers as given, as it does for logging.
- `ReviewStatsExtract.FromTimestamp`: only a fixed UTC offset is modelled, because daylight saving and other local-zone behaviour of `datetime.fromtimestamp` depend on the machine's time zone database.
- `GetItemsExtract.GetItems`: the source reads `response.url` and `response.json()` on whatever the fetch returns. A response object that tests false, such as one with an error status, still has both, so the run would go on with its body. The fetch reply does not tell such a response from no response, because the retry loop that decides what is returned is not part of this model. The model ends the run with `AttributeError` for it.
- `GetItemsExtract.BatchItems`: for the same reason, a batch whose response tests false yet parses is treated as no response and fails.
- `HltbExtract.PageOf`: a response that tests false yet parses is treated as no response and raises, where `response.json()` would decode it.
- `ReviewStatsExtract.Submit`: a response object that tests false yet whose `.json()` would still parse is treated as no response, because the fetch reply does not distinguish it.
- `os.listdir` order is a parameter. The loaders sort it, and `LoadRun.OrderedUnique` shows the sorted list does not depend on it; the release-date scan keeps listing order.
- Universal-newline translation of `\r` and `\r\n` in text-mode reads is left out; lines split on `\n` only.
- `Decimal.ParseInt` accepts only ASCII digits with an optional sign and surrounding whitespace; Python's `int` also takes underscores and non-ASCII digits.
- SQL type coercion is left out: every column value is a `Json` value. The autoincrement surrogate keys of the child tables are left implicit: rows are appended and never move (`Schema.Grows`), so a committed row keeps its position.
- SQLite's handling of a null `steamId` in the integer primary key (a fresh rowid) is left out. A null key is compared like any other value.
- Foreign keys are stated as the invariant `Schema.Linked` that the loaders keep, because SQLite does not enforce them unless asked.
- `gamalytics.py` is broken as written, and these parts are substituted:
  - `Base` in the signature of `insert_data` is undefined, and `load_data` reads `self.data_dir` where the base class sets `data_folder`. The model assumes the class loads and reads the data folder.
  - `insert_attribute_data` uses undefined names, and `load_data` calls `insert_related_data` and `insert_attributes_data`, which the class does not define. The model uses the DLC and attribute builders of `gamalytics_loader.py` in their place.
  - Keyword arguments that name a surrogate key (`historyId` and the like) are treated as unknown keywords.
- The base loader and the engine and session setup (`baseloader.py`, `models/db.py`, `main.py`) are not part of this model. The store is the sequence of committed table states.
- `steam_appdetails.py` is incomplete, and `steam_cattag.py` only fetches and dumps; neither is part of this model.

## Findings

| source | as written | input that shows it | evidently intended | confidence | as-written member | corrected member |
|---|---|---|---|---|---|---|
| src/extract/steam_charts.py:45 | each record is written as `f"{app_id}\t{ccu_data}"` with no line terminator | two apps whose chart data has no newline, such as ids 10 and 20 with data `[]`: the file holds the single line `10\t[]20\t[]` | one `id<TAB>data` line per app | not executed | ChartsExtract.RecordsRunTogether | ChartsExtract.OutputRoundTrip |
