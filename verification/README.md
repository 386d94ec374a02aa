# Verified model of the fund operations service

A Dafny model of the parts of the service that keep state across failures: the resumable sync of
trade data, the valuation of positions, the mock fund ledger with its subscription and redemption
records, the trading calendar, the netting of redemptions, and two small parsers. `dafny verify
dfyconfig.toml` checks everything.

## How it is organised

| file | what it holds |
|---|---|
| `SyncProtocol.dfy` | step rows, local files and tables as one persistent state; every persistent effect of a run as one step; the invariant of every history; crashes and lost files |
| `SyncRuns.dfy`, `SyncMixes.dfy` | runs of different days or task types, losses of their files included: neither disturbs the other, and they may be interleaved in any way |
| `SyncUnits.dfy`, `SyncLosses.dfy`, `SyncRounds.dfy`, `SyncService.dfy` | the run itself (`TradeDataSyncService`) as a class that logs each effect, while files may be lost at any moment; its log is proved to be a possible history, so stopping after any beginning of the log is a crash |
| `HostServer.dfy` | `execByHost`: one worker per host, all interleavings of the workers |
| `Tables.dfy`, `Writer.dfy`, `Paths.dfy` | the batch replace and the older row-by-row upsert, the writer, local file paths |
| `Quotes.dfy`, `MarketValue.dfy` | forward-filled closing prices and the valuation that reads them through a shared cache |
| `Ledger.dfy`, `Lifecycle.dfy` | mock transfers over an append-only snapshot log; subscription and redemption records |
| `Dates.dfy`, `Calendar.dfy` | civil dates, their texts and string order; the Python day list, calendar sync and lookups |
| `Netting.dfy`, `Texts.dfy`, `Ini.dfy`, `Etime.dfy` | the netting fold; INI written and read back; the elapsed time printed by `ps` |
| `Common.dfy` | option and result types, the database's enumerations, filtering of sequences |

What the outside world does is never fixed. A remote command, a file transfer, a database update and
the order in which concurrent computations proceed are arbitrary choices or parameters. Where a
`healthy` parameter appears, it restricts those choices to "nothing outside fails", and the contract
then says what must succeed.

The main results, hardest first:

1. Over every sequence of processes, each stopped after any of its effects, with any forced or
   filtered runs and with file losses between any two effects, a step that counts as written and has not
   lost its file since is pulled, its file is there, and its table slice holds exactly the rows of that
   file (`SyncProtocol.CrashResumeSafe`). A crash between a committed write and its status update is
   repaired (`SyncProtocol.CommitThenCrash`), and a loss there leaves the slice whole
   (`SyncProtocol.LostBeforeMark`). For a step that did lose its file the promise holds exactly when the
   file pulled instead stands for the same rows (`SyncProtocol.LostFileIsNotRewritten`), it breaks for a file that
   does not parse (`SyncProtocol.LostThenMalformed`), and no run without a forced reset ever writes the
   step again (`SyncProtocol.WrittenForGood`).
2. The run is proved to perform only such effects, while files of its units may be lost between any two of
   its effects or looks at the disk, to have exactly the units that its input asks for, and to bring every
   unit that lost no file meanwhile to an end in two rounds of pull and write, writing no unit again that it
   has written (`SyncService.TradeDataSyncService.Run`). A committed write stores exactly the records of its
   file, column by column (`SyncProtocol.CommitStores`).
3. Runs of different days or task types, interleaved effect by effect in any way, do not make each other
   impossible and leave one state (`SyncMixes.RunsInterleave`); as they really run, each drawing the row ids
   that are next, the states agree up to the ids of new rows (`SyncMixes.RealInterleavings`). One after the
   other, in either order, is the special case (`SyncMixes.RunsCommute`, `SyncMixes.RealRunsCommute`).
4. `execByHost` gives the same answer and keeps each host safe under every interleaving
   (`HostServer.InterleavingIsInvisible`, `HostServer.EveryHostIsSafe`), and answers each command by what
   happened to it (`HostServer.AnswersExactly`).
5. The batch replace refines the row-by-row upsert (`Tables.ReplaceRefinesUpsert`).
6. A valuation uses the last non-zero close, through the fill, the cache and every interleaving of
   accounts (`Quotes.ValuedByLastClose`, `MarketValue.EveryInterleavingOk`,
   `MarketValue.RowsHoldLastClose`).

Six properties that one might expect do not hold of the code; the model keeps the code as it is and
states exactly when they hold:

- a step written before its file was lost is pulled again but not written again, so its slice matches
  the new file exactly when the new file stands for the same rows as the lost one
  (`SyncProtocol.LostFileIsNotRewritten`; the invariant therefore excludes the keys in `lost`);
- two runs leave the same rows, ids included, in the two orders exactly when one of them creates no row
  (`SyncMixes.SameRowsExactly`; `SyncMixes.IdsMayDiffer` is the smallest case where they do not), and a run
  creates no row exactly when all its units have theirs before it starts
  (`SyncMixes.CreatesNothingExactly`, and for the real run `SyncService.TradeDataSyncService.Run`);
- batch and row-by-row loading agree on a file with distinct keys exactly when the slice has no row absent
  from the file (`Tables.ReplaceRefinesUpsert`), and on a file with a repeated key, of which the batch
  commits nothing, exactly when the table already holds the last row of every key
  (`Tables.LoadersAgreeOnRepeated`);
- a second calendar sync is quiet exactly when no date is listed both open and closed
  (`Calendar.SecondSyncIsQuiet`);
- a next trading day is later than its base day, as a text, exactly when the base day is not
  9999-12-31 or the calendar has a later open day (`Lifecycle.NextDayIsLater`);
- a section that the INI writer prints reads back exactly when its keys and values are clean texts and no
  line of it looks like a section header (`Ini.RoundTripExactly`).

## Model

| member | source | states |
|---|---|---|
| SyncProtocol.EffectKeepsInv | src/trade-data-sync/trade-data-sync.service.ts:183-451 | every single persistent effect of a run, and every file loss at any moment, keeps the invariant: paths belong to their unit, pulled steps have a path, ids are distinct, a written step whose file was not lost since its commit has it on disk and a slice that equals the transform of it, and a committed unit that awaits its mark holds one whole file |
| SyncProtocol.HistorySafe | src/trade-data-sync/trade-data-sync.service.ts:92-109 | after every beginning of every possible sequence of effects the invariant holds, so stopping a run anywhere leaves a safe state |
| SyncProtocol.CrashResumeSafe | src/trade-data-sync/trade-data-sync.service.ts:92-109 | however many processes ran, forced or not and with any filters, wherever each was stopped and whatever files were lost between any two effects, the state left behind is safe |
| SyncProtocol.SafeFromTheStart | src/trade-data-sync/trade-data-sync.service.ts:92-109 | in particular starting from no steps and no files |
| SyncProtocol.CommitThenCrash | src/trade-data-sync/trade-data-sync.service.ts:424-447 | after a crash between the committed write and the status update the write is still due, repeating it changes nothing, and the success mark is then justified |
| SyncProtocol.LostFileIsNotRewritten | src/trade-data-sync/trade-data-sync.service.ts:405-413 | for every settled step whose file is lost and pulled again, whatever comes: the step counts as pulled and written, no write is due, and its slice matches the new file exactly when the new file and the lost one stand for the same rows |
| SyncProtocol.FirstRunSettles | src/trade-data-sync/trade-data-sync.service.ts:207-449 | from the start, creating, pulling and writing a unit once with any file that stands for rows is possible and settles it, so the states these laws speak of are reached |
| SyncProtocol.LostThenMalformed | src/trade-data-sync/trade-data-sync.service.ts:405-413 | the input that shows the failure: with a new file that does not parse the written step does not match it |
| SyncProtocol.WrittenForGood | src/trade-data-sync/trade-data-sync.service.ts:405-413 | in every possible continuation without a forced reset of a written step, whatever is lost and pulled, the step is never committed and its slice stays |
| SyncProtocol.LostBeforeMark | src/trade-data-sync/trade-data-sync.service.ts:424-442 | a file lost between the commit and the success mark: the mark is still made, the state is safe, and the slice holds the whole file that was committed |
| SyncProtocol.CommitBringsInSync | src/trade-data-sync/trade-data-sync.service.ts:424-436 | a committed write makes the unit's slice equal to the transform of its file and leaves the slice of every other unit unchanged |
| SyncProtocol.CommitStores | src/trade-data-sync/trade-data-sync.service.ts:424-467 | column by column, what a committed write of a unit leaves in the tables: the records of its file in the slice of its day, account and market, every other slice as it was, and for a fund file the figures of its record under the reason BEFORE for the task type before trading and AFTER for the one after it |
| SyncProtocol.NoRewriteWithoutReset | src/trade-data-sync/trade-data-sync.service.ts:405-413 | in any history two writes of one unit, the first marked successful, have a forced reset that matches the unit between them |
| SyncProtocol.RowsKeepIds | src/trade-data-sync/trade-data-sync.service.ts:207-230 | in any history step rows are never removed, duplicated under another id or renumbered |
| SyncProtocol.UnitPathText | src/trade-data-sync/trade-data-sync.service.ts:70-75 | the file of a unit, as text, is named after its data type, for funds its task type, and its market, in the folder of its broker, account and day |
| SyncProtocol.OwnPathInjective | src/trade-data-sync/trade-data-sync.service.ts:251-261 | a local path belongs to one unit key, whatever brokers the units had when it was written |
| SyncProtocol.SliceKeyInjective | src/trade-data-sync/trade-data-sync.service.ts:453-467 | different reachable units own different table slices |
| SyncRuns.EffectFrame | src/trade-data-sync/trade-data-sync.service.ts:183-451 | an effect of a run of one day and task type, or the loss of one of its files, is invisible to every other day or task type: same rows, same files, same slices |
| SyncRuns.EffectIsLocal | src/trade-data-sync/trade-data-sync.service.ts:183-451 | what an effect does to its own day and task type depends on nothing outside them |
| SyncRuns.DueIsLocal | src/trade-data-sync/trade-data-sync.service.ts:183-451 | nor does whether the code performs it, the id of a new row aside |
| SyncRuns.PossibleExactly | src/trade-data-sync/trade-data-sync.service.ts:207-230 | a history is possible exactly when each effect is due and every row id handed out is new |
| SyncMixes.MixView | src/trade-data-sync/trade-data-sync.service.ts:92-109 | however two runs of different days or task types and the losses of their files are interleaved, each sees what it alone leaves, and everything else sees neither |
| SyncMixes.MixDue | src/trade-data-sync/trade-data-sync.service.ts:92-109 | and every effect of the interleaving is due when its turn comes, if it is due in its own run |
| SyncMixes.RunsInterleave | src/trade-data-sync/trade-data-sync.service.ts:92-109 | two runs of different days or task types that are possible alone and draw different ids are possible in every interleaving, and each interleaving leaves the same rows, warnings and commands, the same file at every unit path and the same rows in every unit slice as one after the other |
| SyncMixes.RealInterleavings | src/trade-data-sync/trade-data-sync.service.ts:207-230 | when each run draws the ids that are new when it creates a row, every two interleavings are possible and leave the same state up to the ids of rows created by the runs, which differ by a one-to-one renaming |
| SyncMixes.RunsCommute | src/trade-data-sync/trade-data-sync.service.ts:92-109 | in particular both orders of two such runs are possible and leave the same state |
| SyncMixes.RealRunsCommute | src/trade-data-sync/trade-data-sync.service.ts:207-230 | and as they really run, up to the ids of new rows |
| SyncMixes.SameRowsExactly | src/trade-data-sync/trade-data-sync.service.ts:207-230 | two runs that draw their ids from one autoincrement column leave the very same rows, ids included, in both orders exactly when one of them creates no row |
| SyncMixes.CreatesNothingExactly | src/trade-data-sync/trade-data-sync.service.ts:207-230 | a run creates no row exactly when every row after it was there before it |
| SyncMixes.IdsMayDiffer | src/trade-data-sync/trade-data-sync.service.ts:207-230 | an instance: two runs that create one row each leave other ids in the other order |
| SyncUnits.ResolvedTypes | src/trade-data-sync/trade-data-sync.service.ts:154-181 | the resolved data types are distinct and all owned by the task type |
| SyncUnits.UnitsHaveShape | src/trade-data-sync/trade-data-sync.service.ts:111-152 | whatever the names, loaded units have distinct keys of listed accounts and types of the task type, and a forced run with the same input resets the row of each |
| SyncUnits.UnitsExactly | src/trade-data-sync/trade-data-sync.service.ts:111-152 | the input has a unit for an account, a market and a type exactly when the account passes the account filter, the market is an XTP market of it, or an ATP market and it has no XTP market, and passes the market filter, and the type is wanted; the unit has the keys of the account, and units come by account, then configured market, then position, order, trade |
| SyncUnits.TypesExactly | src/trade-data-sync/trade-data-sync.service.ts:154-181 | the types wanted are those that the task type syncs (funds before and after trading; positions, orders and trades after it), cut down to the requested ones if any are; the request is refused exactly when it names types and the task type syncs none of them |
| SyncUnits.ResetNames | src/trade-data-sync/trade-data-sync.service.ts:183-205 | the reset of a forced run names exactly the rows of its day and task type, its types and, where given, its accounts and markets |
| SyncUnits.SortByTypeIsStableSort | src/trade-data-sync/trade-data-sync.service.ts:416-419 | the write order is a permutation of the units, ascending by position, order, trade, and keeps the order of units of one type |
| SyncUnits.WriteOrder | src/trade-data-sync/trade-data-sync.service.ts:416-419 | the same by name: every position before every order, every order before every trade, and the units of one type in the order they had |
| SyncUnits.SummaryConserves | src/trade-data-sync/trade-data-sync.service.ts:509-546 | pulled and not pulled add up to the units; written and not written add up to the units pulled or written; accounts with a failed position are among the failed accounts |
| SyncUnits.FiguresAreHonest | src/trade-data-sync/trade-data-sync.service.ts:509-546 | in a safe state every unit counted as written that lost no file has its file and an equal slice, and if no unit lost a file written and not written add up to the pulled units |
| SyncUnits.CountExact | src/trade-data-sync/trade-data-sync.service.ts:509-546 | each count of the summary is the number of units whose final row passes its test |
| SyncUnits.WarningCount | src/trade-data-sync/trade-data-sync.service.ts:469-492 | as many warnings as units that are not fully successful |
| SyncUnits.WarningsExactly | src/trade-data-sync/trade-data-sync.service.ts:469-492 | the warnings are those of the units not both pulled and written with success, in order, each naming account, market, type, both states and both errors of its row |
| SyncRounds.ExecAnswers | src/trade-data-sync/trade-data-sync.service.ts:290-309 | each command of a batch is answered exactly once under its id |
| SyncRounds.PulledMeansRan | src/trade-data-sync/trade-data-sync.service.ts:286-310 | a unit of a batch can end pulled only if its command got a connection, ran and returned 0 |
| SyncRounds.ChancesOfUnit | src/trade-data-sync/trade-data-sync.service.ts:99-102 | one row through pull, write, pull, write: a pull that ends failed was tried in both rounds, and a write that ends undone was tried in the last round, and in the first unless the pull took two |
| SyncRounds.FourSteps | src/trade-data-sync/trade-data-sync.service.ts:99-102 | what two pull rounds and two write rounds, with losses between and inside them, make of the units: each is pulled or failed and commanded at most twice, one that lost no file is finished and given both chances, and without losses nothing happens to units that were all done |
| SyncLosses.RunIsAHistory | src/trade-data-sync/trade-data-sync.service.ts:92-109 | what a run logs, losses of its files included, is a possible history of its own day and task type from the state it found, so the laws of SyncMixes apply to runs |
| SyncLosses.CreatesForNewUnits | src/trade-data-sync/trade-data-sync.service.ts:207-230 | the log of a run creates no row exactly when every unit of the run had its row before |
| SyncService.TradeDataSyncService.EveryCrashStateIsSafe | src/trade-data-sync/trade-data-sync.service.ts:92-109 | the state now, and the state after every beginning of what the service has done, satisfies the invariant |
| SyncService.TradeDataSyncService.ResetMatchingSteps | src/trade-data-sync/trade-data-sync.service.ts:183-205 | exactly the rows of the filter's day, task type and types, and of its accounts and markets where it lists any, go back to pending without errors; no other row and no other column changes |
| SyncService.TradeDataSyncService.EnsureSteps | src/trade-data-sync/trade-data-sync.service.ts:207-230 | existing rows are unchanged, every new row is pending and belongs to a unit, each unit holds its row, and nothing but losses happens when all rows exist |
| SyncService.TradeDataSyncService.StampOpsTaskId | src/trade-data-sync/trade-data-sync.service.ts:232-239 | only the operations-task id of the units' rows changes |
| SyncService.TradeDataSyncService.FetchFile | src/trade-data-sync/trade-data-sync.service.ts:343-381 | succeeds only when the command returned 0, the directory is there and a snapshot came and was written whole, or a file was named, the host connected and a file is at the unit's path, which an older one also satisfies; and then exactly, if the unit loses no file meanwhile; only that path can get a file, and a local write that fails may leave part of one |
| SyncService.TradeDataSyncService.HandlePullResult | src/trade-data-sync/trade-data-sync.service.ts:299-310 | the row ends successful exactly when the fetch succeeds and the update goes through, failed otherwise, a file lost meanwhile aside; the write columns and all other rows stay |
| SyncService.TradeDataSyncService.IssueCommands | src/trade-data-sync/trade-data-sync.service.ts:263-284 | each unit gets one command mapped back to it by id, or has failed for want of a master server |
| SyncService.TradeDataSyncService.ApplyResults | src/trade-data-sync/trade-data-sync.service.ts:299-310 | results in any order are applied to the unit of their id: every unit ends pulled or failed, with its file unless it was lost, and a failed command fails its own unit |
| SyncService.TradeDataSyncService.PullUnits | src/trade-data-sync/trade-data-sync.service.ts:263-310 | a pull round over given units: each ends pulled or failed, and pulled only if its own command was answered by a host that had a connection by then and returned 0 |
| SyncService.TradeDataSyncService.PullRound | src/trade-data-sync/trade-data-sync.service.ts:263-310 | every unit ends failed or successful, with its file unless it was lost meanwhile; the units that needed a pull are tried, and no other that lost no file, each with at most one command; if nothing else outside fails every unit that lost no file is pulled |
| SyncService.TradeDataSyncService.WriteUnit | src/trade-data-sync/trade-data-sync.service.ts:421-449 | marked successful exactly when the file was there to be read, the database answers and the file stands for rows, and then the tables store exactly the records of the file; otherwise marked failed, and the tables are as they were or store the whole file |
| SyncService.TradeDataSyncService.WriteRound | src/trade-data-sync/trade-data-sync.service.ts:405-451 | only units that were due are tried, and every unit that was due and lost no file; the outcomes logged by the round are theirs: positions, then orders, then trades, units of one type in the order they had |
| SyncService.TradeDataSyncService.Rounds | src/trade-data-sync/trade-data-sync.service.ts:99-102 | after the four rounds every unit is pulled or failed and was commanded at most twice, every unit that lost no file is finished and was given both chances, rows of other units stay, nothing happens without losses when every unit was done, and no unit is committed again after its write succeeded |
| SyncService.TradeDataSyncService.RecordWarnings | src/trade-data-sync/trade-data-sync.service.ts:469-492 | the warnings grow by exactly one per unit that is not both pulled and written with success |
| SyncService.TradeDataSyncService.Summarize | src/trade-data-sync/trade-data-sync.service.ts:509-546 | the counts are those of the pull and write states of the final rows, and the account lists are, without repeats, exactly the accounts with a unit not pulled or not written and those with such a position unit |
| SyncService.LoadUnits | src/trade-data-sync/trade-data-sync.service.ts:111-152 | exactly the units that the input asks for, each with its keys, in order of accounts, configured markets and types, and with distinct keys that the run's own filter matches |
| SyncService.TradeDataSyncService.Run | src/trade-data-sync/trade-data-sync.service.ts:92-109 | with files lost at any moment: throws before any effect exactly when types are requested and none belongs to the task type; otherwise its units are exactly those the input asks for, and every unit is pulled or failed, and finished and given both chances if it lost no file meanwhile; each is commanded at most twice and never written again once written, files vanish only by losses, a reset comes at most first and only if forced, the summary counts the final rows and the warnings tell of exactly the unfinished ones, a row is created exactly when a unit had none, a forced run commands every unit that does not end failed, an unforced run over finished units changes only their operations-task id unless a file is lost, other rows change only by the forced reset, what counts as written and is not lost is in sync, and if nothing else outside fails every unit that lost no file is pulled, and written unless its file stands for no rows |
| HostServer.ResultOrderIsPermutation | src/host_server/host_server.service.ts:278-286 | grouping by first-seen host and flattening again keeps every command exactly once |
| HostServer.OneResultPerCommand | src/host_server/host_server.service.ts:288-320 | a worker gives one result per command, with its id, in input order, whichever connects or commands fail |
| HostServer.TraceIsSafe | src/host_server/host_server.service.ts:288-326 | a worker has at most one piece of work in flight, dials no more once a connection opened, and disposes exactly what it opened |
| HostServer.EveryWorkerOnTrack | src/host_server/host_server.service.ts:288-328 | under every interleaving each host's share of the events and results is the beginning of what its worker does alone |
| HostServer.InterleavingIsInvisible | src/host_server/host_server.service.ts:288-328 | when all workers have finished the result does not depend on how they interleaved |
| HostServer.EveryHostIsSafe | src/host_server/host_server.service.ts:288-328 | in every reachable state of every interleaving each host has at most one command in flight and no dial after a success, and once its worker is done the opened connections, at most one, were disposed exactly once |
| HostServer.FlatResultIds | src/host_server/host_server.service.ts:287-327 | the results carry the ids of the commands in first-seen host order and input order inside a host |
| HostServer.ResultOrderByHost | src/host_server/host_server.service.ts:278-286 | the result order has the commands of each host in input order, and a host before another exactly when it is seen first |
| HostServer.AnswersExactly | src/host_server/host_server.service.ts:287-341 | every answer by what happened: with a connection open by then the output of the command, or code 999 and the message if it threw; without one code 999 and the reason of the refusal |
| HostServer.GoodFlatResults | src/host_server/host_server.service.ts:294-310 | if every host answers and every command returns 0 then every result is 0 |
| HostServer.GroupByHost | src/host_server/host_server.service.ts:278-285 | the groups are the commands of each host in input order, hosts in first-seen order |
| HostServer.RunGroup | src/host_server/host_server.service.ts:289-326 | the loop over one host's commands answers each with its output if a connection had opened by then and it ran, and otherwise with code 999 and the reason; its events are the worker's |
| HostServer.ExecByHost | src/host_server/host_server.service.ts:278-341 | whatever turns the workers take, the method ends with all of them finished, and each command, in the order of hosts first seen and of input, is answered by what happened to it: its own code, output and errors if a command of its host had got a connection by then and it ran, and otherwise code 999 with the reason |
| Paths.CompactInjective | src/trade-data-sync/trade-data-sync.paths.ts:7-9 | days of the shape YYYY-MM-DD have different compact forms |
| Paths.PathText | src/trade-data-sync/trade-data-sync.paths.ts:11-36 | the whole path as text, broker, account, day without dashes, kind, task type for funds and market; only a fund file without a task type is refused |
| Paths.PathInjective | src/trade-data-sync/trade-data-sync.paths.ts:11-36 | equal local paths come from equal broker, account, day, kind and market, and for fund files from equal task types |
| Paths.UnsafeNamesCollide | src/trade-data-sync/trade-data-sync.paths.ts:11-36 | with a slash inside a name two different units share a path, so the restriction on names is needed |
| Tables.ChunksOfData | src/trade-data-sync/trade-data-sync.writer.ts:91-105 | the chunks concatenate to the data, hold 1 to 1000 rows, and only the last may hold fewer than 1000 |
| Tables.ChunkingIsInvisible | src/trade-data-sync/trade-data-sync.writer.ts:91-105 | inserting chunk by chunk in one transaction is inserting everything at once, clashes included |
| Tables.CreateManyExact | src/trade-data-sync/trade-data-sync.writer.ts:91-105 | an insertion succeeds exactly when no key is repeated or taken, and then adds exactly the rows of the file |
| Tables.ReplaceExact | src/trade-data-sync/trade-data-sync.writer.ts:66-76 | the delete and the chunked inserts together commit the old table minus the slice plus the file's rows, or nothing when two rows share a key |
| Tables.ReplacedSlices | src/trade-data-sync/trade-data-sync.writer.ts:123-207 | the replaced slice holds the file's keys and no other, and every other slice is unchanged |
| Tables.ReplacedStores | src/trade-data-sync/trade-data-sync.writer.ts:123-207 | over the records of a file: the replaced slice holds a row for exactly the keys of the records that count, each the row of its record, and other slices stay |
| Tables.UpsertAllExact | src/fund_account/fund_account.service.ts:529-564 | for every file the row-by-row loop overwrites the columns it sets with the file's rows, the last row of a key staying, and keeps everything else |
| Tables.UpsertAllLoads | src/fund_account/fund_account.service.ts:529-564 | over the records of a file: the table holds the row of the last record that counts for each key, its other columns as they were, and every other row as it was |
| Tables.LastRowsExact | src/fund_account/fund_account.service.ts:529-564 | of the rows with one key the last one stays |
| Tables.ReplaceRefinesUpsert | src/trade-data-sync/trade-data-sync.writer.ts:123-207 | for distinct keys the replaced table equals the upserted one with the rows absent from the file removed from the slice, so the two agree exactly when there were none |
| Tables.SharedKey | src/fund_account/fund_account.service.ts:661-727 | for every file the replace commits nothing exactly when a key is repeated, while the upsert leaves the last row of each key and touches no other row |
| Tables.LoadersAgreeOnRepeated | src/fund_account/fund_account.service.ts:661-727 | on a file with a repeated key, of which the batch commits nothing, the two loaders leave the same columns exactly when the table already holds the last row of every key |
| Tables.RerunRepairs | src/fund_account/fund_account.service.ts:529-564 | a row-by-row loop that stopped anywhere is repaired by running it again: the result is that of one whole run |
| Writer.PositionsRestored | src/trade-data-sync/trade-data-sync.writer.ts:123-143 | the positions that come back from their rows, in order, are exactly those of the market: a ticker beginning with 00 or 30 for SZ, with 60 or 68 for SH, and none for any other market |
| Writer.OrdersRestored | src/trade-data-sync/trade-data-sync.writer.ts:145-177 | every order whose side code is B or S modulo 65536 comes back from its row with all its fields, the others leave no row, and rows carry the account's keys |
| Writer.TradesRestored | src/trade-data-sync/trade-data-sync.writer.ts:179-207 | the same for trades, whose amount is price times quantity |
| Writer.StoredOrdersAddUp | src/trade-data-sync/trade-data-sync.writer.ts:145-177 | after a committed write every order of the slice has traded plus left equal to its quantity |
| Writer.WriteExact | src/trade-data-sync/trade-data-sync.writer.ts:66-233 | a write commits exactly when its file has a meaning; then the slice it owns is exactly that meaning and every other slice of every table is unchanged |
| Writer.WriteStores | src/trade-data-sync/trade-data-sync.writer.ts:66-233 | a write commits exactly when the file parses and repeats no key among the records that count, and a fund file has its record; the slice then has exactly one row for each such record: positions of the market by their prefix with total and sellable quantity, orders and trades with side code B or S with every column, the fund snapshot with balance, buying power, frozen funds and both account texts; every row has the account's keys, and nothing else changes |
| Writer.WriteIdempotent | src/trade-data-sync/trade-data-sync.writer.ts:66-76 | writing one file twice equals writing it once |
| Writer.BatchRefinesLegacy | src/trade-data-sync/trade-data-sync.writer.ts:123-207 | for positions, orders and trades the written table equals the result of the older loop with the rows absent from the file removed |
| Writer.CreateManyInChunks | src/trade-data-sync/trade-data-sync.writer.ts:91-105 | the loop cuts the data into the specified chunks |
| Writer.MapOrders | src/trade-data-sync/trade-data-sync.writer.ts:145-177 | the loop maps exactly the orders with a known side |
| Writer.MapTrades | src/trade-data-sync/trade-data-sync.writer.ts:179-207 | the loop maps exactly the trades with a known side |
| Writer.ReplaceRows | src/trade-data-sync/trade-data-sync.writer.ts:66-76 | one transaction of the delete and the chunks gives the replaced table or none |
| Writer.TradeDataSyncWriter.Write | src/trade-data-sync/trade-data-sync.writer.ts:66-89 | succeeds exactly when the database answers and the file can be written, and then the tables store exactly its records, spelled out column by column; otherwise nothing changes |
| Writer.LegacyPositions | src/fund_account/fund_account.service.ts:529-564 | the older loop leaves, for each ticker the file lists for the market by its prefix, the last listed quantities under the account's keys, and every other row as it was; an upsert that throws stops it, and then exactly the positions before that one were handled |
| Writer.LegacyOrders | src/fund_account/fund_account.service.ts:661-727 | the older loop leaves the last listed row of each order whose side is B or S, and stops at the first upsert that throws in the same way |
| Writer.LegacyTrades | src/fund_account/fund_account.service.ts:817-885 | the older loop leaves the last listed row of each trade whose side is B or S and whose upsert does not throw, and skips the others |
| Writer.StoppedLoopIsRepaired | src/fund_account/fund_account.service.ts:529-564 | loading a positions or orders file after a loop over it stopped anywhere leaves what loading it once leaves |
| Writer.OtherKeys | src/trade-data-sync/trade-data-sync.writer.ts:123-207 | whether a file stands for rows does not depend on the account's configuration keys, and its rows under other keys differ in those columns only |
| Quotes.LastClosedIsLatest | src/quote/quote.service.ts:322-334 | the day found has a non-zero close and no later day before the given one has, or no day has |
| Quotes.FillDaysExact | src/quote/quote.service.ts:299-360 | calculating days in any order, any number of times, gives each listed day its own close or the last non-zero one before it, and touches nothing else |
| Quotes.FilledCarries | src/quote/quote.service.ts:299-360 | what is stored for a brief: the close of the latest day up to its own with a close that is not zero, and that day, or nothing if there is none |
| Quotes.OrderDoesNotMatter | src/quote/quote.service.ts:299-360 | two lists of the same days leave the same table |
| Quotes.FillingEveryDay | src/quote/quote.service.ts:299-360 | once every day up to a day has been listed, every brief up to it is filled |
| Quotes.ActualIsClose | src/market-value/market-value.service.ts:38-52 | on a filled table the last non-zero actual price is the last non-zero close and carries its date |
| Quotes.ValuedByLastClose | src/market-value/market-value.service.ts:30-117 | on a filled table the price used on a day is the close of the latest day up to it with a non-zero close, 0 if the day has a brief but no such close exists; a position is valued exactly when the day has a brief or an earlier non-zero close exists |
| Quotes.ValuedInFull | src/market-value/market-value.service.ts:30-117 | the same on its own terms, the day of the price included |
| Quotes.QuoteService.CalcActualClosePrice | src/quote/quote.service.ts:299-360 | every brief of the day, in whatever order the query returns them, gets the latest close up to it that is not zero and its day, or nothing if there is none; no other column and no other brief changes |
| MarketValue.WindCodeInjective | src/market-value/market-value.service.ts:31-32 | for SH and SZ the cache key names one ticker and market |
| MarketValue.OtherMarketsCollide | src/market-value/market-value.service.ts:31-32 | outside SH and SZ it does not: BJ and SZ share a key |
| MarketValue.AnswerIsLookup | src/market-value/market-value.service.ts:30-56 | at every moment of a batch a cached answer, null included, and a queried one equal the uncached lookup for the day |
| MarketValue.TurnKeepsOk | src/market-value/market-value.service.ts:30-117 | every turn of every computation, from one await to the next and failing or not, the upsert of a row after its answer was cached included, keeps the cache equal to the uncached lookup and the rows exact for the positions valued so far |
| MarketValue.EveryInterleavingOk | src/market-value/market-value.service.ts:169-180 | so does every interleaving of the computations of a batch |
| MarketValue.TurnUsesCache | src/market-value/market-value.service.ts:30-56 | a turn forgets no answer, null ones included, and queries only for a security that has none |
| MarketValue.AnswersStay | src/market-value/market-value.service.ts:169-180 | in every interleaving of a batch answers stay in the cache, and every security that was valued has one, so it is never queried again |
| MarketValue.RowsHoldBrief | src/market-value/market-value.service.ts:63-117 | an exact row holds the price and date that the brief to use says, the quantity and their product; the brief to use is that of the day, or the latest before it with an actual price; without one the row is as it was |
| MarketValue.RowsHoldLastClose | src/market-value/market-value.service.ts:63-117 | from closes to rows: with every day filled an exact row holds the latest close up to the day that is not zero, the day of it, the quantity and their product, or a zero price if the day has a brief and there is no such close; a security with neither keeps the row it had |
| MarketValue.BatchExtends | src/market-value/market-value.service.ts:176-207 | a batch adds its accounts to those already valued and touches the rows of no other account |
| MarketValue.SettleAll | src/market-value/market-value.service.ts:177-181 | whatever turns are taken, a batch ends with every computation settled before anything else happens |
| MarketValue.MarketValueService.BuildQuoteBriefMap | src/market-value/market-value.service.ts:16-28 | every brief of the day is entered and every entry is the uncached lookup |
| MarketValue.MarketValueService.RunBatch | src/market-value/market-value.service.ts:177-203 | the rows of the batch are exact or untouched, all exact if none failed, and the cache stays transparent |
| MarketValue.MarketValueService.BatchCalcActualClosePrice | src/market-value/market-value.service.ts:169-212 | the cache is empty afterwards on every path, rows of other accounts are untouched, rows of the accounts are exact or untouched, and all exact on success, which is certain when nothing outside fails |
| Ledger.RefinesBalances | src/fund_account/fund_account.service.ts:267-411 | each operation changes the latest balance of each account and market by exactly its signed amount, and a refused one or a refresh by nothing; buying power and frozen funds stay |
| Ledger.LatestExactly | src/fund_account/fund_account.service.ts:237-265 | the latest funds are those of the last row of the account and market, or zeros if there is none |
| Ledger.InnerDoes | src/fund_account/fund_account.service.ts:267-352 | an accepted transfer of an amount into a market raises its balance by the amount and lowers that of the other, one out of it the reverse, and no other balance, buying power or frozen figure changes; the four rows tell the balances before and after; it is accepted exactly when neither becomes negative |
| Ledger.ExternalDoes | src/fund_account/fund_account.service.ts:354-411 | the same for one from or to outside, which touches one balance |
| Ledger.NeverNegative | src/fund_account/fund_account.service.ts:267-411 | from an empty log no balance is negative after any operations |
| Ledger.MoneyConserved | src/fund_account/fund_account.service.ts:267-411 | over any run the SH and SZ total changes by the accepted external transfers and by nothing else |
| Ledger.AppendOnly | src/fund_account/fund_account.service.ts:290-351 | the snapshot log only grows |
| Ledger.NewestOfRefresh | src/fund_account/fund_account.service.ts:1071-1101 | the two newest rows after a refresh both hold the balance there was |
| Ledger.FundAccountService.GetLatestSnapshot | src/fund_account/fund_account.service.ts:237-265 | the funds of the last row of the account and market, or zeros if there is none |
| Ledger.FundAccountService.MockInnerTransfer | src/fund_account/fund_account.service.ts:267-352 | accepted exactly when neither balance becomes negative, the sign of the amount being that of the direction; then a row before and a row after for each market are appended, otherwise nothing |
| Ledger.FundAccountService.MockExternalTransfer | src/fund_account/fund_account.service.ts:354-411 | accepted exactly when the balance does not become negative; then the row before and the row after are appended, otherwise nothing |
| Ledger.FundAccountService.SyncFundAccount | src/fund_account/fund_account.service.ts:892-920 | in mock mode appends the latest funds again under the given reason, which changes no balance |
| Ledger.FundAccountService.RefreshFunds | src/fund_account/fund_account.service.ts:1071-1132 | reports the same total before and after and a delta of 0 |
| Lifecycle.FallbackIsLater | src/fund_account/fund_account.service.ts:123-129 | the weekend rule gives a weekday at most three days on, later as a text, for every base day but 9999-12-31 |
| Lifecycle.NextDayIsLater | src/fund_account/fund_account.service.ts:114-131 | on all three lookup paths the day handed out is later exactly when the base day is not 9999-12-31 or the calendar has a later open day |
| Lifecycle.OperationKeepsOk | src/fund_account/fund_account.service.ts:1451-1530 | create, confirm and update keep every record in order, never change a closed record or a redemption's day, and every day handed out is later than its base, 9999-12-31 aside |
| Lifecycle.OperationDoes | src/fund_account/fund_account.service.ts:1451-1530 | what each operation takes and does, on the records: a creation adds an open record of its request, with a day exactly for a redemption with a reduce day; a confirmation, taken exactly for an open record whose date parses if it is a subscription, closes the record, gives a subscription its day and changes nothing else; an update changes the remark of an open record, if one is given |
| Lifecycle.EveryRunOk | src/fund_account/fund_account.service.ts:1451-1530 | over every run of operations from the empty table, whatever the calendar answers at each: a subscription has its day exactly when it is closed, a redemption its later day exactly when it was created with a reduce day, closed records and redemption days never change from any state to any later one, and every day handed out is later than its base, 9999-12-31 aside |
| Lifecycle.ConfirmedStaysClosed | src/fund_account/fund_account.service.ts:1475-1505 | once a confirmation is taken the record is closed in every later state of every run |
| Lifecycle.WeekendSkipping | src/fund_account/fund_account.service.ts:123-127 | the loop ends and gives the first day after the base that is no Saturday or Sunday |
| Lifecycle.FundAccountService.GetNextTradingDay | src/fund_account/fund_account.service.ts:114-131 | refuses exactly what is no date, otherwise the calendar's answer or the weekend rule, later than the base, 9999-12-31 aside |
| Lifecycle.FundAccountService.CreateSubscriptionRedemption | src/fund_account/fund_account.service.ts:1451-1473 | succeeds exactly when the reduce day asked for is a date; then one record is added under the next id, open, with the account, direction, amount, reduce day and remark of the request and a day exactly for a redemption with a reduce day; otherwise nothing changes |
| Lifecycle.FundAccountService.ConfirmSubscriptionRedemption | src/fund_account/fund_account.service.ts:1475-1505 | succeeds exactly for an existing open record, with a readable date if it is a subscription; then that record alone changes: it is closed, a subscription gets the day that its lookup handed out, a redemption keeps its own; otherwise nothing changes |
| Lifecycle.FundAccountService.UpdateSubscriptionRedemption | src/fund_account/fund_account.service.ts:1507-1530 | succeeds exactly for an existing open record; then only its remark changes, to the one given if one was given; otherwise nothing changes |
| Dates.NextOrdinal | python/main.py:43 | the day after a valid date is valid and has the next day number |
| Dates.FormatOrder | src/trading-calendar/trading-calendar.service.ts:108-140 | string order on YYYY-MM-DD is day order, and equal texts are equal days |
| Dates.ParseOfFormat | src/fund_account/fund_account.service.ts:89-112 | printing a date of year 100 or later and parsing it gives it back |
| Dates.FormatOfParse | src/fund_account/fund_account.service.ts:89-112 | only the text of an existing date parses, and to that date |
| Dates.NextDayTextIsLater | src/trading-calendar/trading-calendar.service.ts:118-120 | the text of the day after is later exactly for every day but 9999-12-31 |
| Calendar.DaysFromExact | python/main.py:34-43 | the list holds exactly the dates of the range, consecutive and in order |
| Calendar.DaysFromDistinct | python/main.py:34-43 | no date is listed twice |
| Calendar.TradeCal | python/main.py:34-45 | the loop lists the range with the source's openness, and overflows exactly when the range ends on 9999-12-31 |
| Calendar.SyncedExact | src/trading-calendar/trading-calendar.service.ts:31-69 | after a sync of items that agree every item holds, and dates not listed are untouched |
| Calendar.SecondSyncIsQuiet | src/trading-calendar/trading-calendar.service.ts:31-69 | a second sync counts 0 and 0 exactly when no date is listed both open and closed |
| Calendar.CountsBounded | src/trading-calendar/trading-calendar.service.ts:31-69 | created plus updated is at most the total |
| Calendar.CalendarFollowsSource | src/trading-calendar/trading-calendar.service.ts:31-106 | after syncing the listed range a day of it is open exactly when the source has it, and days outside are unchanged |
| Calendar.PreviousOfNext | src/trading-calendar/trading-calendar.service.ts:108-140 | from an open day with a later open day, next and then previous comes back |
| Calendar.NextIsUnique | src/trading-calendar/trading-calendar.service.ts:108-123 | there is only one least later open day |
| Calendar.DayBeforeIsEarlier | src/trading-calendar/trading-calendar.service.ts:135-137 | without an earlier open day the day handed out is still earlier as a text, for every readable date |
| Calendar.NeighboursExactly | src/trading-calendar/trading-calendar.service.ts:118-137 | without another open day on record the next day is the day after, and the previous one the day whose next day was asked about; for what is no date both are Invalid Date |
| Calendar.TradingCalendarService.SyncFromData | src/trading-calendar/trading-calendar.service.ts:31-69 | rows and counters are the specified ones and the calendar grows by exactly the created count |
| Calendar.TradingCalendarService.Sync | src/trading-calendar/trading-calendar.service.ts:71-106 | a sync of whole years leaves every day of them a trading day exactly when the source has it and every other answer as it was, and counts what it created and updated; it fails, and changes nothing, exactly when the last year is 9999 |
| Calendar.TradingCalendarService.GetNextTradingDay | src/trading-calendar/trading-calendar.service.ts:108-123 | the least later open day, or one day on when there is none |
| Calendar.TradingCalendarService.GetPreviousTradingDay | src/trading-calendar/trading-calendar.service.ts:125-140 | the greatest earlier open day, or one day back when there is none |
| Netting.TotalOfPermutation | src/ops-task/ops-task.service.ts:518-550 | any order of the same records gives the same total |
| Netting.NettingIgnoresOrder | src/ops-task/ops-task.service.ts:508-550 | the figures and the accounts listed do not depend on the order of the records |
| Netting.AbsentTotals | src/ops-task/ops-task.service.ts:518-550 | an account without a kept record has zero figures, so starting from zero on its first one is right |
| Netting.FiguresExactly | src/ops-task/ops-task.service.ts:508-550 | an account's subscription figure is the sum, over its subscriptions and their transfers, of the amounts that came in, its redemption figure the sum of its redemptions, and it is present exactly when it has a redemption or a subscription with a transfer that came in |
| Netting.AddRecord | src/ops-task/ops-task.service.ts:525-547 | a record adds what its transfers brought in, or its redemption, to the figures in place; a subscription all of whose transfers went out is skipped |
| Netting.Net | src/ops-task/ops-task.service.ts:508-550 | an account is listed exactly when it has a redemption or a subscription with a transfer that came in; its figures are the sums of what came in and of its redemptions, net is their difference; the skipped ids are those of the subscriptions all of whose transfers went out, in order |
| Ini.ObjectToIni | src/host_server/host_server.service.ts:511-521 | the appending loop writes the specified text, nested sections included |
| Ini.ParseIni | bin/import-td-config.ts:11-40 | the loop reads the specified map, in which an entry under the key `__proto__` leaves no trace |
| Ini.ReadOfClean | bin/import-td-config.ts:11-40 | a printed section of clean entries reads back as the entries that do not look like a section header |
| Ini.RoundTripExactly | bin/import-td-config.ts:11-40 | a section of distinct keys reads back as its own map exactly when every key is non-empty, not `__proto__`, trimmed, without '=' or a line break and without a leading '#' or ';', every value is trimmed without a line break, and no line both starts with '[' and ends with ']' |
| Ini.SectionsRoundTrip | src/host_server/host_server.service.ts:511-523 | several sections read back as their union, the later section winning |
| Etime.ParseInvertsPrint | src/process-monitor/process-monitor.service.ts:267-290 | every number of seconds, printed as [[dd-]hh:]mm:ss with any leading zeros on the days, reads back as itself |
| Etime.ParseOfPieces | src/process-monitor/process-monitor.service.ts:267-290 | after days a piece that is missing or no number counts as 0; without days a single piece is 0 |

## Left out

- Freshness of pulled files: a failed transfer is only logged, so a pull success says that a file is at the path, not that it is new.
- Two runs of one day and task type at the same time; runs of different ones are covered, interleaved in any way, by `SyncMixes.RealInterleavings`.
- Exceptions outside the code's own try blocks, such as a database failure while a command row is created: they stop the run, which is a crash after some effect and covered as one.
- SyncService.TradeDataSyncService.Run: asks for a trade day YYYY-MM-DD and names that are single path segments, without which local paths can coincide (`Paths.UnsafeNamesCollide`). Files lost while it runs are those of units of its own day and task type; the loss of another's file is an effect of another run, interleaved as in `SyncMixes.RunsInterleave`.
- SyncService.TradeDataSyncService.FetchFile: does not parse command output; what was delivered is an arbitrary reply, and partial or malformed content is one of the possible contents.
- A write transaction whose outcome is unknown to the caller: it either commits and answers, commits without the status update, or does not commit.
- Updates by row id: modelled as updates of the row with the unit's key, which `SyncProtocol.RowsKeepIds` justifies.
- HostServer.ExecByHost: does not model a timed-out command that still runs on the remote side; in flight means awaited by the worker.
- The parallel mode of `batchExecRemoteCommand`, which promises no single connection per host.
- Paths.PathInjective: does not model the normalisation of path.join; names that contain a slash, are empty or are `.` or `..` are excluded by `SafeName`.
- MarketValue.MarketValueService.RunBatch: does not allow positions outside SH and SZ, for which cache keys collide (`MarketValue.OtherMarketsCollide`).
- MarketValue.MarketValueService.BatchCalcActualClosePrice: does not allow briefs or positions outside SH and SZ, for the same reason.
- MarketValue.MarketValueService.BuildQuoteBriefMap: does not allow briefs outside SH and SZ, for which cache keys collide (`MarketValue.OtherMarketsCollide`).
- The market-value ratio query at the end of `calcMarketValue`, an aggregate over the rows already proved.
- Floating-point rounding: prices are exact reals, money and quantities are integers.
- Trade days in `Quotes` and `MarketValue` are day numbers; `Dates.FormatOrder` is the link to the stored texts.
- Quotes.QuoteService.CalcActualClosePrice: does not model the update of a brief by someone else between the query and the loop.
- Ledger.FundAccountService.MockInnerTransfer: does not model transfer records and timestamps, or two transfers of one account at the same time; the two markets are SH and SZ.
- The real fund operations over SSH, and the XTP and ATP account details carried inside snapshots.
- Lifecycle.FundAccountService.ConfirmSubscriptionRedemption: does not model two confirmations of one record at the same time.
- Calendar.TradingCalendarService.Sync: does not model years below 1000, whose texts the platform decides, or a request that fails, which changes nothing.
- Calendar.TradingCalendarService.GetNextTradingDay: does not model texts that name no existing date, such as 2024-02-31, which dayjs normalises and the model answers with Invalid Date; no caller passes one.
- Calendar.TradingCalendarService.GetPreviousTradingDay: does not model such texts either.
- Calendar.TradeCal: does not model years below 1000, whose strftime text is platform dependent beyond four digits of padding, or the reading of request parameters.
- Etime.ParseInvertsPrint: other numerals that JavaScript reads as numbers (signs, exponents, hexadecimal) are not modelled by the parser; the printer never writes them.
- Ini.ObjectToIni: does not model JavaScript's numeric ordering of integer-like keys; entries come in insertion order and values are already texts.
- The wording of error messages, which the model shortens.
- Database collation: texts are compared character by character, which on texts of the shape YYYY-MM-DD every collation does alike.
- The file that the netting writes, sorted by locale, and its upload.
- SSH, SFTP, HTTP, chat notifications, e-mail, object storage, scheduling, controllers and logging.
