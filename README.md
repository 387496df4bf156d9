# rebuilder-tools: a Dafny model of the shard-recovery core

`rebuilder-tools` rebuilds a file from CAR (content-addressed archive) shards and uploads the
result to an MCS bucket. There are two ways to get the shards:

- `build` downloads every shard URL through an aria2 server. The downloader starts one aria2
  job at a time, in submission order, and polls it until it completes.
- `retrieve` fetches each shard from Filecoin storage providers through a Lotus node. For each
  shard it tries the deals' miners in list order and stops at the first one that serves it.

When a download fails and the records name deals, `build` falls back to retrieval. Once every
shard is present, the shards are reassembled (graphsplit) and the files found in the output
directory are uploaded.

This project models that decision logic in Dafny and proves what it promises. Every outside
service is an oracle held in a datatype of function-typed fields: aria2 (`Aria2.Rpc`), the Lotus
full node (`Lotus.Node`), the file system and the upload walk (`Rebuilder.Env`), the MCS bucket
(`Rebuilder.Bucket`), the client constructors (`Rebuilder.Connectors`), and the file reader and
the JSON/CSV decoders (`CarFiles.Io`). The orchestrating methods also return the effects they
cause, in order (`Rebuilder.Effect`). This lets the contracts say what happens before, after, or
never.

Modules, one per source file, plus helpers:

| module | file | models |
|---|---|---|
| `Aria2` | aria2.dfy | `rebuilder/aria2/aria2.go`: payloads, response classification, `NewClient` |
| `Downloader` | downloader.dfy | `rebuilder/downloader.go`: the `Downloader` class and its job loop |
| `Lotus` | lotus.dfy | `rebuilder/lotus/lotus.go`: `RetrieveData` and `getDealsCounts` |
| `Rebuilder` | rebuilder.dfy | `rebuilder/rebuilder.go`: `NewRebuilder`, `Build`, `Retrieve`, `RetrieveFile`, `RestoreAndUpload` |
| `CarFiles` | carfiles.dfy | `cmd/rebuilder/main.go`: `httpDownloadURL`, `readCarFile`, `readCarJson`, `readCarCsv`, `ReadCSVFile`, `readRawCSVFile` |
| `Cli` | cli.dfy | `cmd/rebuilder/main.go`: the actions of the `build` and `retrieve` commands |
| `Text`, `FilePath`, `Wrappers` | text.dfy, filepath.dfy, wrappers.dfy | the parts of Go's `strings`, `strconv`, `bufio` and `path/filepath` that the tool uses; Option/Result |

Although `parallel` sizes the downloader's channels (rebuilder/downloader.go:33-34), the code
keeps at most one aria2 job in flight: `finishChan` receives a value only once at start-up and once after each
success (rebuilder/downloader.go:83-85, 121-123), and a job is started only on that signal. The
model follows the code. `Downloader.Downloader.Valid` states this invariant
(`|inbox| + |parked| <= 1`), and every handler preserves it.

The job loop (rebuilder/downloader.go:93-134) is a `select` over three live cases. When the
start signal is pending, no job is queued or parked. When a job is queued for a poll, nothing is
parked. So a ticker fire in either state has nothing to re-poll. Apart from such no-op ticks the
loop is deterministic, and `Downloader.Downloader.Turn` runs the one case that can change state.
The `exit` case can only fire after the loop has returned (the channel is closed by the loop's
own `defer`), so it is not modelled.

`Downloader.Advance` is the same loop written as a function of aria2's answers (`Downloader.Answers`:
the answer to the n-th start, of the job for a URL, and to the n-th status query about a gid). One turn of
the class is one `Advance` step. `Downloader.Run` iterates it for a bounded number of turns, and
`DownloadFiles` returns `Run`'s verdict. The lemmas about `Run` then say which answers lead to
success and which to an abort.

## Model

| member | source | states |
|---|---|---|
| `Aria2.ServerUrlShape` | rebuilder/aria2/aria2.go:100-105 | the client keeps the secret as its token; the server URL is `http://<host>:<port>/jsonrpc`, and the decimal port in it reads back as the configured port |
| `Aria2.Classify` | rebuilder/aria2/aria2.go:107-161 | `ok` holds exactly for a well-formed `complete` report whose file exists, and then there is no error; `(false, nil)` exactly for well-formed `waiting`/`active` reports; transport error, error object, missing result or file count other than 1 (`invalid response`), status `error`, missing file after completion, and an unknown status each give their own error message |
| `Aria2.StartResult` | rebuilder/aria2/aria2.go:163-178 | `DownloadFile` returns the gid exactly when the request succeeded and the response has no error object; otherwise the transport error or the error object's message |
| `Downloader.JobDestination` | rebuilder/downloader.go:137-143 | a job asks aria2 to write `Base(url) + ".car"` into the download directory; that name has extension `.car`, and no `/` unless the URL's base name is `/` |
| `Downloader.InitialTable` | rebuilder/downloader.go:49-57 | the job table has exactly one entry per distinct URL, with the URL, the directory, no gid, status 0 and no error |
| `Downloader.Downloader.constructor` | rebuilder/downloader.go:31-39 | the downloader keeps the bound and the aria2 client; its two job operations are aria2's `DownloadFile` (with the `.car` name, as the n-th start of the session) and `DownloadStatus` |
| `Downloader.Downloader.Init` | rebuilder/downloader.go:49-74 | `total` counts every submitted URL, duplicates included; the table is the initial one; the feeder holds the URLs in submission order; the start signal is pending |
| `Downloader.Downloader.OnSignal` | rebuilder/downloader.go:95-107 | with `total == 0` the loop ends and every submitted job has succeeded; otherwise the next URL in submission order is started, its gid or error is recorded, a start error ends the loop with that error, and a started job is queued for a poll; every earlier job for another URL has succeeded; this is `Advance`'s move from the start signal |
| `Downloader.Downloader.Begin` | rebuilder/downloader.go:100-107 | hands over the next URL from the feeder and records the outcome of starting its job; nothing else in the table changes |
| `Downloader.Downloader.OnPoll` | rebuilder/downloader.go:108-123 | polls the job in flight: "not yet, no error" parks it with nothing else changed; an error marks it status -1 with that error and ends the loop; success marks it status 1, decrements `total` by one and signals the next start |
| `Downloader.Downloader.Settle` | rebuilder/downloader.go:110-123 | applies one poll answer, with the same three outcomes as `OnPoll`, to the job in flight; this is `Advance`'s move from a queued job |
| `Downloader.Downloader.Park` | rebuilder/downloader.go:110-113 | the polled job moves to the parked list; table and `total` are unchanged |
| `Downloader.Downloader.Fail` | rebuilder/downloader.go:114-118 | the polled job gets status -1 and the poll's error, the loop ends with that error, and earlier jobs for other URLs are still recorded as succeeded |
| `Downloader.Downloader.Succeed` | rebuilder/downloader.go:119-123 | the polled job gets status 1, `total` drops by one and the start signal is pending, keeping at most one job in flight |
| `Downloader.Downloader.OnTick` | rebuilder/downloader.go:124-129 | every parked job is queued for a poll again and the parked list is emptied; this is `Advance`'s move from a parked job |
| `Downloader.Downloader.Turn` | rebuilder/downloader.go:93-134 | the turn makes the reference loop's next move `Advance` for aria2's answers: it ends the loop with `Advance`'s verdict, or moves to `Advance`'s position; a turn that does not end the loop keeps the invariant (at most one job in flight, `total` counting the jobs not yet succeeded); ending with success means every job succeeded; an abort names the last job started, and every earlier job for another URL succeeded |
| `Downloader.Downloader.CheckDownload` | rebuilder/downloader.go:79-135 | the verdict is `Run` of aria2's answers from the current position for `fuel` turns; the loop returns success only when `total == 0`, all URLs were started and every submitted job succeeded; an error is the one recorded for the last job started |
| `Downloader.Downloader.DownloadFiles` | rebuilder/downloader.go:41-77 | a stat error or a non-directory is returned before any job; otherwise the verdict is `Run` from the first URL, with the answers of the downloader's two job operations for this directory; the returned table has one entry per distinct URL with its URL and directory, success means every entry succeeded, and an abort's error is recorded on the failed job |
| `Downloader.Advance` | rebuilder/downloader.go:93-134 | one turn: a URL is handed over only at the start signal and only when its job starts; the loop ends with success exactly at the start signal with every URL handed over; a move never un-sends a URL or un-counts a query |
| `Downloader.RunPrefix` | rebuilder/downloader.go:95-123 | jobs that start and finish at their first poll take two turns each |
| `Downloader.RunAllSucceed` | rebuilder/downloader.go:93-134 | when every job starts and its first poll reports it done, `2n + 1` turns end the loop with success |
| `Downloader.RunStartFails` | rebuilder/downloader.go:102-105 | the first job that fails to start (aria2's answer to the k-th start, for the k-th URL) ends the loop with aria2's error, after the jobs before it succeeded |
| `Downloader.RunQueryFails` | rebuilder/downloader.go:110-118 | a started job whose status query reports an error ends the loop with that error |
| `Downloader.RunRetries` | rebuilder/downloader.go:110-129 | a job reported "not yet, no error" is parked and polled again after the next tick, two turns later |
| `Downloader.RunFinishedStarted` | rebuilder/downloader.go:95-107 | success means every URL not yet handed over started without error |
| `Downloader.RunAbortedCause` | rebuilder/downloader.go:102-118 | an abort's error is aria2's answer to starting one of the URLs, or to a status query about one of them |
| `Downloader.RunAgree` | rebuilder/downloader.go:93-134 | the loop depends only on aria2's answers: answers that agree give the same verdict |
| `Downloader.DownloadsAgree` | rebuilder/downloader.go:41-77 | the same for `DownloadFiles`' verdict, the directory check included |
| `Lotus.Verdict` | rebuilder/lotus/lotus.go:203-212 | `Completed` ends the loop with data ready; `Rejected` gives "retrieval Proposal Rejected: " + message; `DealNotFound` and `Errored` give "retrieval error: " + message |
| `Lotus.ReadEvents` | rebuilder/lotus/lotus.go:178-213 | the event loop computes the fold `Await`: skip other deals' events and non-terminal statuses, stop at the first terminal one, time out when none arrives |
| `Lotus.AwaitSkips` | rebuilder/lotus/lotus.go:184-187 | inserting an event that does not decide the deal (another deal's, or a non-terminal status) anywhere leaves the outcome unchanged |
| `Lotus.AwaitAbout` | rebuilder/lotus/lotus.go:184-187 | only the events about the deal matter: filtering the others out gives the same outcome |
| `Lotus.AwaitFirst` | rebuilder/lotus/lotus.go:203-212 | the first deciding event gives the verdict, whatever follows it |
| `Lotus.AwaitTimeout` | rebuilder/lotus/lotus.go:181-183 | without a deciding event before the deadline the result is "retrieval timeout" |
| `Lotus.RetrieveData` | rebuilder/lotus/lotus.go:136-222 | the method's error and node calls equal `Retrieval`: the address, CID and wallet checks, the offer query, the subscription, the retrieval, the event loop and the export |
| `Lotus.PreChecks` | rebuilder/lotus/lotus.go:142-165 | no retrieval starts unless miner address, CID and wallet are valid; an invalid miner address or CID is returned before the node is asked anything |
| `Lotus.OrderFromOffer` | rebuilder/lotus/lotus.go:153-165 | the retrieval order is the miner's offer for the CID, paid from the wallet, selecting the whole DAG |
| `Lotus.ExportAfterCompletion` | rebuilder/lotus/lotus.go:204-221 | an export happens only as the fourth call, after the deal completed, with the query's root and the deal ID, as a CAR file at the save path; its error is the result; a run without an export is an error |
| `Lotus.DealsCounts` | rebuilder/lotus/lotus.go:121-134 | a node error is returned; otherwise each provider maps to the number of its deals with `SectorStartEpoch != -1`, and providers without such a deal are absent |
| `Rebuilder.NewRebuilder` | rebuilder/rebuilder.go:44-93 | a missing config, task, aria2 or MCS section is refused in that order; `parallel` 0 becomes 3 and other values are copied; no Lotus section gives no client and an empty wallet; with the required sections present only the client constructors can fail |
| `Rebuilder.WalkUploadSpec` | rebuilder/rebuilder.go:134-145 | files are uploaded in walk order, at most once each, stopping at the first error; the walk succeeds exactly when no walk error and no failed upload occurs, and then every file was uploaded and the URL is the last file's |
| `Rebuilder.UploadWalk` | rebuilder/rebuilder.go:134-145 | the walk callback loop computes `WalkUpload` |
| `Rebuilder.RestoreAndUpload` | rebuilder/rebuilder.go:128-146 | the method computes `Restored`: reassembly first (its outcome is not checked), then one upload per file the walk uploaded, answering with the walk's last URL and error (see `WalkUploadSpec`) |
| `Rebuilder.Build` | rebuilder/rebuilder.go:96-126 | an empty URL list or equal input and output paths is refused with no effect; the name defaults to the first URL's base name; a failure to make the source or the CAR directory is the answer's error, after only the directories attempted; otherwise the result is `AfterDownload` after the two directories: every URL is downloaded into the CAR directory, and restoring happens only after every URL's job succeeded |
| `Rebuilder.DownloadThenRestore` | rebuilder/rebuilder.go:117-125 | the method computes `AfterDownload`: a negative `parallel` panics when the downloader is made; a download error is the answer's error with no restore; restore and upload follow the download only when every job succeeded |
| `Rebuilder.AfterDownload` | rebuilder/rebuilder.go:117-125 | the download of every URL into the CAR directory comes first |
| `Rebuilder.RestoresIffDownloaded` | rebuilder/rebuilder.go:120-125 | restoring happens exactly when the download loop finished with success |
| `Rebuilder.AllDownloadedRestores` | rebuilder/rebuilder.go:117-125 | when every job starts and finishes at its first poll, and the loop may run long enough, the files are restored and uploaded after the download |
| `Rebuilder.StartFailureStopsBuild` | rebuilder/rebuilder.go:120-123 | a job that fails to start, after the earlier jobs succeeded, is the answer's error, and nothing is restored or uploaded |
| `Rebuilder.BadCarDirStopsBuild` | rebuilder/rebuilder.go:120-123 | a CAR directory that cannot be examined, or is not a directory, is the answer's error |
| `Rebuilder.RetrieveFile` | rebuilder/rebuilder.go:188-200 | no Lotus client, or an empty cid or miner, is refused before any node call |
| `Rebuilder.RetrieveFileTarget` | rebuilder/rebuilder.go:195-199 | the retrieval pays from the given wallet, or from the configured one when none is given, and exports only to `savePath/<miner>-<cid>.car` |
| `Rebuilder.CarPath` | rebuilder/rebuilder.go:198 | for a miner and CID without `/`, that path lies directly inside `savePath`, with base name `<miner>-<cid>.car` and extension `.car` |
| `Rebuilder.FirstSuccessSpec` | rebuilder/rebuilder.go:161-171 | the search finds the first miner, in list order, that serves the CID, and finds none exactly when no miner serves it |
| `Rebuilder.TriedSpec` | rebuilder/rebuilder.go:161-171 | the miners tried are a prefix of the deal list: all but the last failed, the last succeeded exactly when some miner serves the CID, and with no success every miner was tried |
| `Rebuilder.TryMiners` | rebuilder/rebuilder.go:161-171 | the inner loop succeeds exactly when some miner serves the CID, and its attempts are exactly the miners up to the first success |
| `Rebuilder.RetrieveAll` | rebuilder/rebuilder.go:157-176 | the outer loop computes `RetrieveLoop`, entry by entry in order |
| `Rebuilder.RetrieveLoopOk` | rebuilder/rebuilder.go:157-176 | the loop succeeds exactly when every entry has a CID, a deal and a miner that serves it |
| `Rebuilder.RetrieveLoopStops` | rebuilder/rebuilder.go:158-175 | at the first entry that cannot be retrieved the loop stops with "invalid empty cid or miners" or "retrieve failed with file :<cid>", and later entries do not affect what happened |
| `Rebuilder.Retrieve` | rebuilder/rebuilder.go:148-186 | the method computes `RetrieveSpec`: empty input refused, CAR directory made, the loop, the save path `savePath[0]` only when given and non-empty, then restore and upload |
| `Rebuilder.RestoreAfterLoop` | rebuilder/rebuilder.go:172-185 | any restore comes after a loop without error and restores the CAR directory into `<save path or output path>/<name>` |
| `Rebuilder.RestoreOnlyAfterRetrieval` | rebuilder/rebuilder.go:172-185 | nothing is restored unless every entry was retrieved |
| `CarFiles.HttpUrlOf` | cmd/rebuilder/main.go:304-306 | every `http://` or `https://` URL is accepted |
| `CarFiles.HttpUrlParts` | cmd/rebuilder/main.go:304-306 | every accepted URL starts with `http://` or `https://` |
| `CarFiles.SchemeCaseSensitive` | cmd/rebuilder/main.go:304-306 | a URL is accepted exactly when it begins with the lower-case `http` followed by `://` or `s://`; no other spelling of the scheme is accepted |
| `CarFiles.DistinctSpec` | cmd/rebuilder/main.go:327-338 | deduplication keeps every URL, repeats none, and keeps the order of first appearance |
| `CarFiles.MergedUrls` | cmd/rebuilder/main.go:327-341 | the merged records have exactly the input URLs, each once, in order of first appearance |
| `CarFiles.MergedNew` | cmd/rebuilder/main.go:332-340 | a record for a new URL appends a CarInfo with that URL, its CID and its deals |
| `CarFiles.MergedOld` | cmd/rebuilder/main.go:339-340 | a record for a known URL updates that CarInfo in place: its CID replaces the old one when present, and its deals are appended |
| `CarFiles.CidForAppend` | cmd/rebuilder/main.go:381-383 | the last CID set for a URL wins |
| `CarFiles.DealsForAppend` | cmd/rebuilder/main.go:340 | a URL's deals are the concatenation, in input order, of the deals of all its records |
| `CarFiles.Absorb` | cmd/rebuilder/main.go:373-390 | one record's update of the dedup map and the CarInfo list keeps them equal to the merge of the records so far |
| `CarFiles.JsonCidsDropped` | cmd/rebuilder/main.go:332-338 | as written, every CarInfo read from a JSON file has an empty CID |
| `CarFiles.JsonCidOfLastRecord` | cmd/rebuilder/main.go:318-343 | with the CID copied, each CarInfo carries the CID of the last record for its URL |
| `CarFiles.ReadCarJson` | cmd/rebuilder/main.go:318-343 | the loop over the decoded list computes `CarJson` as written, without the CID: a read or decode error is returned, any non-http(s) URL refuses the whole file, and otherwise the result is the merge of the records by URL (`MergedUrls`, `MergedNew`, `MergedOld`, `JsonCidsDropped`) |
| `CarFiles.ColumnsSpec` | cmd/rebuilder/main.go:359-362 | every header name is a column, at its last position in the header |
| `CarFiles.ColumnMap` | cmd/rebuilder/main.go:359-362 | the header loop computes `Columns` |
| `CarFiles.RowEntriesOk` | cmd/rebuilder/main.go:358-391 | the rows succeed exactly when each row does, and then give one entry per row, in order |
| `CarFiles.RowEntriesErr` | cmd/rebuilder/main.go:358-391 | otherwise the error is that of the first failing row |
| `CarFiles.ReadCSVFile` | cmd/rebuilder/main.go:395-407 | a read error is returned; the CSV library's records are used, or the fallback reader's when the library refuses the file |
| `CarFiles.ReadCarCsv` | cmd/rebuilder/main.go:351-393 | the loop over the records computes `CarCsvFile`: a read error is returned; a file without records gives no CarInfo; a header without `car_file_url` is refused; the first failing row's error ends the reading (`RowEntriesErr`); otherwise the rows are merged by URL, the CID overwritten by each row's `pay_load_cid` and deals appended only from non-empty cells |
| `CarFiles.CoveredRowErrors` | cmd/rebuilder/main.go:368-390 | a row that covers every column fails only on its URL or on its deals cell |
| `CarFiles.RawRowsCoverColumns` | cmd/rebuilder/main.go:422-444 | every column the header names lies inside every fallback row, so the CSV reader never indexes past their end |
| `CarFiles.RawRows` | cmd/rebuilder/main.go:422-444 | one record per line; every later record has as many fields as the header |
| `CarFiles.SplitRow` | cmd/rebuilder/main.go:429-442 | the field loop fills a fresh array of the header's width with `Fields(line, n)` |
| `CarFiles.ReadRawCsv` | cmd/rebuilder/main.go:417-447 | the fallback reader returns `RawRecords` of the bytes and never fails |
| `CarFiles.ReadRawCsvFile` | cmd/rebuilder/main.go:409-415 | a read error is returned; otherwise the fallback records of the file |
| `CarFiles.FieldsExact` | cmd/rebuilder/main.go:429-442 | a line with exactly one comma fewer than the header's width is cut at every comma |
| `CarFiles.FieldsJoin` | cmd/rebuilder/main.go:429-442 | with enough commas no text is lost: the last field keeps the extra commas, and joining the fields with commas gives the line back |
| `CarFiles.FieldsShort` | cmd/rebuilder/main.go:436-439 | with too few commas, the pieces before the last comma are kept, and the text after it and all later fields are empty |
| `Text.LinesCount` | cmd/rebuilder/main.go:418-423 | the scanner yields one line per newline, plus one for a final unterminated line |
| `CarFiles.ReadCarFileFormat` | cmd/rebuilder/main.go:308-316 | the extension after the last dot picks the reader case-insensitively: `.csv` for CSV, `.json` for the JSON reader as written, any other refused by name |
| `CarFiles.ReadCarFileNoExtension` | cmd/rebuilder/main.go:308-316 | a path without an extension is refused |
| `Cli.RecordUrlsSpec` | cmd/rebuilder/main.go:125-129 | the URLs taken from the records are exactly their non-empty download URLs |
| `Cli.AppendRecordUrls` | cmd/rebuilder/main.go:125-129 | the loop appends the records' non-empty URLs, in record order, after the positional ones |
| `Cli.BuildInputsSpec` | cmd/rebuilder/main.go:114-133 | no file and no argument is refused; a file read error is returned; otherwise the URL list is non-empty, starts with the positional URLs and continues with the records' non-empty URLs; "no valid car urls" exactly when there is no URL at all |
| `Cli.GatherBuildInputs` | cmd/rebuilder/main.go:114-133 | the first part of the `build` action computes `BuildInputs` |
| `Cli.WithLotusFlags` | cmd/rebuilder/main.go:140-147 | `--lotus-node` replaces the node API only when non-empty, `--timeout` replaces the timeout only when positive, and the wallet is kept |
| `Cli.BuildSetup` | cmd/rebuilder/main.go:136-152 | a config load error is returned; giving a Lotus flag without a Lotus section panics; otherwise the rebuilder is `NewRebuilder` of the overridden config |
| `Cli.BuildCommand` | cmd/rebuilder/main.go:106-173 | `Build` downloads exactly the gathered URLs; `Retrieve` runs exactly when `Build` failed with an error and the first record has deals, under `--name` or the file's base name; otherwise the command's result is `Build`'s; a fallback on records from a JSON file always fails |
| `Cli.PairedSpec` | cmd/rebuilder/main.go:236-245 | one record per CID, in order, each with a single deal on the miner at the same position |
| `Cli.PairRecords` | cmd/rebuilder/main.go:226-245 | lists of different lengths are refused; otherwise the pairing loop computes `Paired` |
| `Cli.CheckRecords` | cmd/rebuilder/main.go:250-258 | no record gives "not found valid info"; otherwise the check passes exactly when every record has a CID and a deal, and fails with "cids/miners not be empty" |
| `Cli.PairedComplete` | cmd/rebuilder/main.go:236-258 | records paired from the flags pass the check exactly when every CID is non-empty |
| `Cli.JsonRecordsRefused` | cmd/rebuilder/main.go:332-338 | every record read from a JSON file has an empty CID, so none passes the `retrieve` check |
| `Cli.EmptyCidRetrieveFails` | rebuilder/rebuilder.go:148-160 | a first record without a CID makes `Retrieve` fail with "invalid empty cid or miners" (or with the CAR directory's error), before anything is restored |
| `Cli.RetrieveSetup` | cmd/rebuilder/main.go:267-288 | a config load error is returned; a missing Lotus section panics; without a wallet in the config or `--wallet` the command is refused; otherwise the rebuilder is `NewRebuilder` of the overridden config |
| `Cli.RetrieveCommand` | cmd/rebuilder/main.go:218-301 | records come from the file, or from the paired flags; nothing is configured or retrieved unless there is a record and each has a CID and a deal; then `Retrieve` runs under `--name` or the first CID, with `--save-path`; a JSON file always ends at the check, with no effect |

## Left out

- The goroutines, channels, ticker and `select` of the downloader are folded into sequential turns (see above). The poll may never finish, so `Downloader.Downloader.CheckDownload` runs for at most `fuel` turns and then reports `Unfinished`; `Rebuilder.Build` reports `StillRunning`. Nothing is claimed about runs longer than the bound.
- A downloader bound of 0 would deadlock, because the first start is sent on an unbuffered channel from the receiving goroutine. `NewRebuilder` turns 0 into 3, so only a negative bound reaches the downloader, and it panics when the channel is made (`Rebuilder.DownloadThenRestore` returns `Panic`).
- aria2's `active` branch sleeps, computes a floating-point completion percentage and prints a progress line. Only its answer `(false, nil)` is modelled. The file size parsed with `strconv.Atoi` only feeds that line.
- HTTP requests (`httpRequest`) and JSON/TOML/CSV library decoding are oracles. The aria2 server's answer to the n-th download request and to the n-th status query is a function of n, so a URL listed twice is started twice and its second start may fail on its own.
- `Downloader.RunAllSucceed`, `Downloader.RunStartFails` and `Downloader.RunQueryFails` describe runs in which every earlier job finishes at its first poll. A run with retries is covered one retry at a time by `Downloader.RunRetries`, and in general by `Run` itself.
- The gid handed out by aria2 is taken as given: the model does not check that aria2 never reuses a gid.
- `graphsplit.CarTo` and `graphsplit.Merge` are a single `Restore` effect; the source ignores their outcome. The MCS bucket (rebuilder/mcs/mcs.go) is not part of this model; its upload is an oracle.
- Lotus: the ten-minute context is the finite sequence of updates that arrive before the deadline. `ClientExport` is an oracle. Logging and deal statuses other than the four that end the loop (`OtherStatus`) carry no further meaning here.
- Lotus.Node: one node answers every retrieval attempt of a `retrieve` run (rebuilder/rebuilder.go:161-165 reuses one Lotus client), and it gives the same answer to the same arguments each time: the same offer for a (miner, CID) pair, the same outcome for the same order, and one subscription result for all attempts. A node whose answers change between attempts is not captured.
- Lotus.Node: `RetrieveData` defers `closer` on that shared client (rebuilder/lotus/lotus.go:137), so the first attempt closes the connection the later attempts use. The model does not capture the closed connection; later attempts are answered like the first.
- CarFiles.Io: `decodeJson` and `decodeDeals` yield only present records. A JSON `null` list element makes Go dereference a nil CarInfo (cmd/rebuilder/main.go:329), and a `null` deal a nil CarDeal (rebuilder/rebuilder.go:163); both panics are not modelled.
- `GetMinerInfoByFId`, `ListMiners`, `GetCurrentHeight`, `SaveMinerByBrowser`, `getMiner`, `ArchiveDir` and Lotus RPC set-up are not part of this model.
- rebuilder/config/config.go is TOML decoding; its structs are plain records, and the unused `db` and `log` sections are dropped.
- The `init` command, the urfave CLI wiring, `tomlMarshal` and all logging are not modelled. Flags arrive as records. The `retrieve` command's `len(cids) == 0 || len(miners) == 0` check and both commands' "need run init" check can never fire, so they are omitted.
- Go strings are byte strings; here they are sequences of characters. The parsing only searches for ASCII characters (`,`, `/`, `.`, newline), so the results agree.
- `Text.EqualFold` folds only the code points that fold onto ASCII letters, which is exact when one side is ASCII, as in `readCarFile`. `FilePath.Join` does not model the lexical clean-up Go applies after joining.
- `CarFiles.RowEntry`: a CSV row shorter than a named column makes Go panic with an index out of range. The model returns this as the error `IndexPanic`; it never happens on the fallback reader's rows (`CarFiles.RawRowsCoverColumns`).
- `bufio.Scanner` stops silently at a line longer than 64 KiB, and `readRawCSVFile` never checks `scanner.Err()`. `Text.Lines` has no such limit.
- When a row fails, `readCarCsv` returns the records merged so far together with the error. Both commands discard them on error, so the model returns only the error.
- Rebuilder.RetrieveFile: its own contract states only the two refusals; what a retrieval pays from and where it writes is in `Rebuilder.RetrieveFileTarget`, and the rest is `Lotus.Retrieval`.

## Findings

| source | as written | input that shows it | evidently intended | confidence | as-written member | corrected member |
|---|---|---|---|---|---|---|
| cmd/rebuilder/main.go:332-338 | `readCarJson` makes each CarInfo with only `CarFileUrl` and never copies the record's `PayloadCid` | a JSON file `[{"CarFileUrl": "https://h/a.car", "PayloadCid": "bafy1", "Deals": [{"MinerFid": "f01"}]}]` gives a CarInfo with CID `""`; `retrieve -f a.json` then fails with "cids/miners not be empty", and `build`'s fallback fails with "invalid empty cid or miners" | copy the CID as `readCarCsv` does (main.go:381-383): each CarInfo carries the CID of the last record for its URL | medium, not executed | `CarFiles.JsonCidsDropped` | `CarFiles.JsonCidOfLastRecord` |

The readers and the commands follow the code as written, `CarJson(io, path, false)`. The
corrected reader is `CarJson(io, path, true)`, and `CarFiles.JsonCidOfLastRecord` is proved about it.
`Cli.JsonRecordsRefused`, `Cli.BuildCommand` and `Cli.RetrieveCommand` state what the finding costs
the two commands.
