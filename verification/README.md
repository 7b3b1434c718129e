# A Dafny model of liquidityScope

liquidityScope pulls logs of Uniswap/PancakeSwap V3 style pools from a chain, decodes them into typed events,
and aggregates the events into time windows in Postgres. This project models the parts of it whose correctness
is not visible from one function, and proves what they keep. `dafny verify dfyconfig.toml` checks everything.

## What is modelled

**The windowed aggregator as a crash-restartable stream processor.** `Accumulators`, `Stores` and `Aggregators`
are classes with the source's fields and loops. Module `Stream` gives the same loop as a function: its memory and
the exact sequence of statements it sends (`PutPool`, `PutRow`, `Save`). Every method of class `Aggregator` is
proved against it, and the theorems are about that sequence. `GroupBy` is the independent reference: all accepted
events grouped by (pool, `ts - ts % W`), each group folded.

* A crash is a prefix. `Store.writesLeft` is the number of statements that still take effect before the process is
  lost, so a contract that holds for every `writesLeft` covers a crash between any two statements, in the middle of
  a batch too. All memory is lost; the tables and the checkpoint register stay.
* `Crash` chains such runs into histories in which each run may have its own batch size and map iteration order.
  `Recompute` follows a job with `--recompute-from` into later runs, `ReRun` repeats and extends finished jobs,
  `Growth`, `PoolGrowth` and `StateGrowth` let the input grow between lost runs, `CutWindows` treats runs that start
  inside a window, and `Restarts` runs the class itself that way.
* Go's random map iteration is an arbitrary choice (`:|`), reported in ghost results: `scans` for the search of each
  mid-run save, `order` for the final flush. The theorems hold for all of them.
* `Rows` says what a row means in terms of the input lines alone, without the functions the loop is specified with;
  `Batches` says when the loop sends.
* Rows hold raw integers. `Columns`, `Helpers` and `Rationals` model how they are printed. Token decimals and TVL
  are oracle functions.

**The log ingester's resume protocol.** `Ranges` splits a block interval with 64-bit wrap-around; `Ingest` and
`IngestHistory` describe what one run and any history of lost runs leave behind; classes `Runner` and `Sink` are
proved against them. The chain is a fixed function from blocks to matching logs. `TextLines` and `TornLines` go down
to the characters of the output file, where a lost run may leave the beginning of a line.

**Fixed-point text.** `Rationals` models `big.Rat.SetFrac`, `FloatString` and the reading of decimals, with the
digit-by-digit rounding the library does; `Helpers` proves exactness, injectivity and error bounds on top of it.

**Log encoding and decoding.** `Words`, `Abi`, `Hex` and `Decoder` follow the Solidity Contract ABI Specification,
sections "Formal Specification of the Encoding" and "Events", for static types.

## Assumptions about the environment

They appear as `requires` (mostly gathered in `Crash.Sound`):

* one spelling and one chain id per accumulator key: the accumulator map uses the lower-cased address, the tables
  the address as spelled;
* windows arrive in order (timestamps inside one window may come in any order); a plain uninterrupted run needs only
  that the events of a pool and window are contiguous among that pool's events;
* the starting checkpoint cuts no window; with `--recompute-from` that is needed only for what later runs without the
  flag find (`Recompute`), where one-second windows with a recompute value of 1 are left out too: the window that
  starts at 1 then saves the recompute value instead of 0 (`Stream.SaveTsExact`);
* block numbers are positive, for the claims about the first-seen block; the pools table may hold anything at the start,
  as long as each record's key is made of its own columns;
* for the ingester, the chain does not change, and a log is identified by block, transaction hash and index;
* for the output file as text, the line of a record is one JSON object without inner braces or newlines, which tells the
  log (`TextLines.IsFormat`); the time of ingestion in it may differ from run to run.

## Where the code does less than its documentation says

The model follows the code. The repository's README promises idempotent upserts for incremental and recompute
workflows. `Recompute.RecomputeAgain` and `ReRun.IncrementalState` prove that; these facts qualify it:

* `ReRun.IdempotentReRun`: running again on an unchanged input reads only rejected swaps later than every event that
  was not rejected, and writes no row exactly when none of them opens a window with metadata. Otherwise the second
  run flushes a window of its own over the finished row. `CutWindows.TableUnchanged` gives the exact condition for the
  table to stay the same, and `CutWindows.RejectedTailOverwrites` a pair of records for which a counted swap disappears.
* `CutWindows.CutWindowRow`: a run that starts inside a window (an unaligned `--recompute-from`, or events appended
  inside the last window of a finished input) leaves the full row exactly when no well-formed swap of the window was
  skipped. `CutWindows.CutWindowLosesSwap` shows a pair of records for which the row has one swap instead of two.
* With `--recompute-from` every restart begins at the given value and saves the early checkpoints again, so the
  durable checkpoint can go back. Without the flag it never does (`Crash.HistoryIsSafe`); with it, it can exactly when
  some value saved in the middle of a run lies below another such value, or below the checkpoint held at the start
  (`Recompute.CheckpointGoesBack`). For W = 100, recompute value 100, batch size 1 and swaps at 105, 205 and 305 it is
  299 after one crash and 199 after the next.
* `Scans.ScanRightInEveryOrder`: the search for the oldest open window uses 0 for "unset", so it is right in every
  iteration order exactly when no open window starts at 0, or all do.
* `TopicMaps.SameInEveryOrder`: the configured topic map is visited in random order too; the decoder it gives is the
  same in every order exactly when no two topics that differ in letter case only name different events.
  `TopicMaps.OrderMatters` is an accepted configuration for which it differs.

The ingester saves a checkpoint after the logs it covers, so no covered log should be missing from the output. That
holds for whole records over any history (`IngestHistory.CheckpointIsBacked`). A crash inside a record leaves the
beginning of a line, the next run appends its first record to it, and `decode` reports the joined line as an error.
`TornLines.BackedUnlessLost` says exactly when a checkpoint then covers a log the file does not hold: some run starts
behind a torn line and saves a checkpoint over its first record while no whole line holds that record.
`TornLines.LossIsForeseen` is the same condition as it can be checked before the run: that record is the first log
from the resume block on. `TornLines.LaterTearIsHarmless` excludes that after a tear behind another record of the same
batch, and `TornLines.FirstTearLosesRecord` is the smallest history with the loss.

`IngestHistory.ResumeBlock` shows that a checkpoint at block 2^64 - 1 resumes at block 0, and
`IngestHistory.WrapRepeats` that the next run then appends everything again. `Ranges.SplitWidths` shows that the whole
64-bit range comes back as one batch whatever the batch size, and `Helpers.AprReads` that a window of 2^63 seconds or
more counts as negative.

## Model

| member | source | states |
|---|---|---|
| Base.RegisterWraps | internal/indexer/range.go:22-30 | a 64-bit register counts to 18446744073709551615 and starts again at 0, in both directions |
| Base.LowerLetters | internal/aggregate/aggregator.go:378-380 | lower-casing maps A to Z to a to z and nothing else |
| Windows.WindowStartIsMod | internal/aggregate/aggregator.go:374-376 | the recursive remainder gives the window the source computes with its remainder operator |
| Windows.WindowStartUnique | internal/aggregate/aggregator.go:374-376 | the window of a timestamp is the only aligned one of size W around it |
| Windows.WindowAfterBoundary | internal/aggregate/aggregator.go:374-376 | an event at or after an aligned boundary lies in a window that starts at or after it |
| Numerals.ParsePrintedInt | internal/aggregate/accumulator.go:97-106 | the text of any integer, negative ones included, is parsed back to it |
| Numerals.PrintsDecimal | internal/aggregate/helpers.go:14-16 | one digit more is ten times the number plus the digit, digits 0 to 9, with a minus in front of negative numbers |
| Numerals.ParsesIntegers | internal/aggregate/accumulator.go:97-106 | accepted are exactly the empty text and an optional sign followed by at least one digit |
| Numerals.ParsesDecimal | internal/aggregate/accumulator.go:97-106 | the empty text is 0, one digit more counts the rest ten times, a plus changes nothing and a minus negates |
| Events.PoolKeyIgnoresCase | internal/aggregate/aggregator.go:378-380 | two addresses share an accumulator if and only if they differ in letter case only |
| Accumulators.Accumulator.constructor | internal/aggregate/accumulator.go:29-44 | a new accumulator carries the record's identity and metadata, zero sums, and the record's block as first and last block |
| Accumulators.Accumulator.AddEvent | internal/aggregate/accumulator.go:46-65 | the new value is the specified one for every event, also when the swap is rejected; an event of another name than "swap" is accepted and leaves the sums alone, whatever its payload; a swap fails exactly when its payload or one of its amounts does not parse |
| Accumulators.EventMeans | internal/aggregate/accumulator.go:46-95 | for every record: only a swap with two readable amounts moves sums, by 1, the two sizes, and amount * tier / 10^6 rounded down on the side that goes in while the other goes out; exactly the other swaps are rejected |
| Accumulators.FeeIsQuotient | internal/aggregate/accumulator.go:116-124 | the recursive product gives the fee the source computes, amount * tier / 1000000 rounded down |
| Accumulators.Accumulator.ApplySwap | internal/aggregate/accumulator.go:67-124 | both amounts must parse, otherwise nothing changes; otherwise exactly the swap's contribution is added, the zero fee tier included |
| Accumulators.FoldIsSum | internal/aggregate/accumulator.go:46-95 | a window's accumulator keeps the identity and metadata of its first event and sums the contributions of all |
| Accumulators.FoldFirstBlock | internal/aggregate/accumulator.go:51-53 | with positive block numbers the first block is the minimum over the window's events |
| Accumulators.FirstBlockAfterZero | internal/aggregate/accumulator.go:51-53 | with blocks at 0, which stand for unset: the least block after the last such event, or 0 if that is the last event |
| Accumulators.FoldLastBlock | internal/aggregate/accumulator.go:47-50 | the last block is that of the event with the greatest timestamp, the later in the input among equals |
| Fees.WindowFees | internal/aggregate/accumulator.go:67-124 | for every row: 10^6 * fee <= tier * input <= 10^6 * fee + 999999 * swaps on each side, the two directions together are at most the swap count, and fees stay below volumes when the tier is at most 10^6 |
| Stores.Store.Exec | internal/storage/postgres/store.go:66-74 | one statement takes effect completely or, when the process is lost, not at all |
| Stores.Store.UpsertPools | internal/storage/postgres/store.go:37-75 | the pools are sent in order; a crash keeps a prefix |
| Stores.Store.UpsertWindowMetrics | internal/storage/postgres/store.go:78-140 | the rows are sent in order; a crash keeps a prefix |
| Stores.Store.SaveState | internal/storage/postgres/store.go:159-170 | the checkpoint register is replaced or, in a crash, untouched |
| Stores.Store.LoadState | internal/storage/postgres/store.go:143-156 | the last saved value, or none |
| Stores.ApplyByTable | internal/storage/postgres/store.go:37-170 | any sequence of statements acts on rows, pools and checkpoint independently |
| Stores.UpsertRowsLookup | internal/storage/postgres/store.go:90-107 | a row is what the last statement for its key wrote, or its old value if there was none; no other row appears |
| Pools.UpsertPoolsLookup | internal/storage/postgres/store.go:47-54 | the stored first-seen block is the minimum of the old one and all sent ones, and is one of them; the other columns come from one record |
| Scans.ScanRightInEveryOrder | internal/aggregate/aggregator.go:382-393 | the minimum search is right in every iteration order if and only if no open window starts at 0 or all do |
| Stream.ScanIsMinOpen | internal/aggregate/aggregator.go:382-393 | with positive starts the search finds the oldest open window in every order |
| Stream.SaveTsExact | internal/aggregate/aggregator.go:231-238 | the value saved is the second before the window found, except that a window that starts at 0 or 1 makes it the recompute value |
| Aggregators.Aggregator.constructor | internal/aggregate/aggregator.go:48-62 | a new aggregator has no open window and has seen no pool |
| Aggregators.Aggregator.MinOpenWindowStart | internal/aggregate/aggregator.go:382-393 | when no open window starts at 0 the loop returns the oldest open start, in whatever order it visits; 0 when nothing is open |
| Aggregators.Aggregator.SaveState | internal/aggregate/aggregator.go:222-239 | saves one second before the start the search finds in the order it visits, or the recompute value, for every map and every crash point |
| Aggregators.Aggregator.FlushBatches | internal/aggregate/aggregator.go:241-253 | pools first, then rows; a crash keeps a prefix of the two together |
| Aggregators.Aggregator.RegisterPool | internal/aggregate/aggregator.go:335-356 | a pool is reported only when its first block improves on the remembered one |
| Aggregators.Aggregator.FlushInto | internal/aggregate/aggregator.go:255-333 | an accumulator with metadata gives its row and possibly a pool; one without is dropped |
| Aggregators.Aggregator.OpenWindow | internal/aggregate/aggregator.go:118-140 | the pool's open window is continued, or flushed and replaced when the window changes; the other accumulators are untouched |
| Aggregators.Aggregator.ConsumeRecord | internal/aggregate/aggregator.go:118-146 | one record moves the map, the pending rows and the pending pools as specified, also when it is rejected |
| Aggregators.Aggregator.ProcessRecord | internal/aggregate/aggregator.go:118-162 | one whole pass with the batch test, for every record: a rejected event skips the test and does not move the greatest timestamp |
| Aggregators.Aggregator.FlushOpen | internal/aggregate/aggregator.go:169-181 | every open window is flushed exactly once, in some order |
| Aggregators.Aggregator.LoadStartTimestamp | internal/aggregate/aggregator.go:205-220 | the start is one before the recompute value, else the saved checkpoint, else 0 |
| Aggregators.Aggregator.ReadLines | internal/aggregate/aggregator.go:99-163 | the loop over blank, malformed, skipped and accepted lines sends what the specified loop sends on the accepted ones; when the store is lost, a prefix of the whole run's statements got through |
| Aggregators.Aggregator.FinishRun | internal/aggregate/aggregator.go:182-193 | the last rows and pools, then the greatest accepted timestamp |
| Aggregators.Aggregator.Run | internal/aggregate/aggregator.go:65-203 | for every input, and whatever windows and pools the object holds: against a store that takes n more statements, exactly the first n statements of the specified run arrive; the run succeeds if and only if that is all of them, and then no window is open and the recompute value is the saved one |
| Batches.SendsWhenFull | internal/aggregate/aggregator.go:142-162 | a pass sends nothing while fewer rows than the batch size are pending or when its swap is rejected, otherwise all pending pools and rows and one checkpoint |
| Batches.PendingBelowBatch | internal/aggregate/aggregator.go:152-162 | after every event that is not rejected fewer rows are pending than a batch holds |
| Batches.ReportsImprove | internal/aggregate/aggregator.go:335-356 | a run reports a pool again only with a lower first-seen block |
| Stream.LoopEmits | internal/aggregate/aggregator.go:118-162 | batching only delays: sent plus pending equals what the unbatched loop emits, at every point |
| Stream.TraceEmits | internal/aggregate/aggregator.go:99-193 | for every batch size a run sends exactly the rows and pools of the windows it flushes, in order, and ends with the checkpoint |
| GroupBy.LoopRepresents | internal/aggregate/aggregator.go:118-146 | invariant: open and flushed accumulators are the folds of their groups, each window once, every event covered |
| GroupBy.FlushedIsGroupBy | internal/aggregate/aggregator.go:118-182 | a run flushes exactly one accumulator for each (pool, window), the fold of its group |
| Rows.GroupMeans | internal/aggregate/aggregator.go:118-140 | an event belongs to a row exactly by chain, address as spelled, window size and start = ts - ts % W |
| Rows.GroupKeepsOrder | internal/aggregate/aggregator.go:118-140 | the events of a row are those of the input that belong to it, in order and with repeats |
| Rows.RowMeans | internal/aggregate/aggregator.go:255-333 | a group has a row if and only if its first event names both tokens; the row names them in that order, ends W after its start modulo 2^64, carries the block of the latest event (the later line among equals), and counts, volumes and fees are those of the readable swaps of the group at the first event's tier |
| Rows.CompletedRows | internal/aggregate/aggregator.go:255-333 | one completed run from any safe state leaves such a row for every such group of the whole input, and all other rows as they were |
| Refinement.RunSendsGroupTable | internal/aggregate/aggregator.go:99-193 | streaming refines group-by: one row for each group whose first event has metadata, none twice, none else |
| Refinement.RunWritesGroupTable | internal/aggregate/aggregator.go:99-193 | an uninterrupted run leaves the old table overridden by the group-by table |
| Checkpoints.SavesAreSynced | internal/aggregate/aggregator.go:152-162 | at every mid-run save all closed windows have been sent |
| Checkpoints.SaveIsSafe | internal/aggregate/aggregator.go:152-162 | with or without a recompute value: a saved checkpoint ends a window, does not go back, and every group that starts at or before it has its final row among the statements before it |
| Checkpoints.SavesNeverGoBack | internal/aggregate/aggregator.go:222-239 | the values saved in one run never decrease, up to the final one |
| Pools.RunReportsPools | internal/aggregate/aggregator.go:335-356 | a run reports only pools of groups with rows, and reports each of them with a block that is no later, although repeats are suppressed |
| Pools.SaveCoversPools | internal/aggregate/aggregator.go:152-162 | at a save every group the checkpoint covers has its pool reported |
| Crash.CrashKeepsSafe | internal/aggregate/aggregator.go:99-193 | checkpoint safety (cuts no window, everything it covers is final, every row old or final) survives a run lost after any number of statements; without a recompute value the checkpoint does not go back |
| Crash.HistoryIsSafe | internal/aggregate/aggregator.go:99-239 | checkpoint safety holds in every reachable durable state, and without a recompute value the durable checkpoint never goes back |
| Crash.CompletionFromSafe | internal/aggregate/aggregator.go:99-220 | from any safe state one completed run makes the table the old one overridden by the group-by of all accepted events |
| Crash.CrashConvergence | internal/aggregate/aggregator.go:99-253 | after any crashes the first completed run leaves the table and the checkpoint of an uninterrupted run, and the table is the group-by of everything accepted |
| PoolHistory.FirstSeenIsMinimum | internal/aggregate/aggregator.go:260-266 | from any pools table, after any crashes and a completion, exactly the old pools and those with a counting event are listed, each with the least of its old block and the blocks of its counting events |
| PoolHistory.CompletionFirstSeen | internal/aggregate/aggregator.go:335-356 | the same for one completed run from any safe state |
| PoolHistory.PoolColumnsAreMeta | internal/aggregate/aggregator.go:335-356 | with constant metadata the other columns of a pool with events are those of any of its events, whatever was stored before |
| PoolHistory.StateConverges | internal/aggregate/aggregator.go:99-356 | with constant metadata the whole durable state after crashes and a completion equals that of an uninterrupted run, from any pools table |
| Recompute.CrashKeepsSafeForPlain | internal/aggregate/aggregator.go:231-238 | once a recompute run that starts on a window boundary has saved a checkpoint, that checkpoint is safe for a run without the flag, after any crash |
| Recompute.PlainRunFinishes | internal/aggregate/aggregator.go:205-239 | runs without the flag from that checkpoint, lost any number of times before one completes, complete the table, the checkpoint and the first-seen blocks of the recompute job |
| Recompute.RecomputeAgain | internal/aggregate/aggregator.go:205-208 | a recompute job repeated after it has completed, with crashes in between, leaves the same rows and checkpoint, whatever is rejected; with constant metadata it leaves the same state |
| Recompute.CheckpointGoesBack | internal/aggregate/aggregator.go:222-239 | with a recompute value crashes can take the durable checkpoint back if and only if some value saved in the middle of a run lies below another such value, or below the checkpoint held at the start |
| Recompute.GoesBackOnThreeWindows | internal/aggregate/aggregator.go:152-162 | three swaps in windows 100, 200 and 300, W = 100, recompute value 100, batch size 1: the checkpoint is 299, then 199 |
| Recompute.ThreeWindowsExists | internal/aggregate/aggregator.go:118-126 | concrete records for the previous row |
| Restarts.RunOnce | cmd/indexer/aggregate.go:82-97 | a run of the aggregator object completes or crashes in the sense of the histories |
| Restarts.RunUntilDone | cmd/indexer/aggregate.go:82-97 | restarting the object against a store that keeps failing ends, when a run completes, with the group-by table, the greatest accepted timestamp as checkpoint and exact first-seen blocks; until then rows and pools stay safe |
| ReRun.CompletionIsSafeForMore | internal/aggregate/aggregator.go:190-193 | a completed run that read no rejected swap later than all other events is a safe start for every continuation in later windows |
| ReRun.IncrementalRun | internal/aggregate/aggregator.go:113-116 | running on A, then on A ++ B with B in later windows, with crashes before each completion, leaves the table and checkpoint of one run on A ++ B, unless A has a rejected swap later than all its other events |
| ReRun.IncrementalState | internal/aggregate/aggregator.go:113-116 | with constant metadata the whole durable state is that of one run on A ++ B, from any pools table |
| ReRun.IdempotentReRun | internal/aggregate/aggregator.go:142-150 | running again on the same input reads exactly the late rejected swaps, writes no row if and only if none of them opens a window with metadata (with constant metadata: if there are none), and then changes nothing |
| Growth.CrashKeepsSafeToGrow | internal/aggregate/aggregator.go:99-239 | an invariant that leaves the rows of windows after the checkpoint open survives a lost run |
| Growth.GrowthKeepsSafeToGrow | internal/aggregate/aggregator.go:99-117 | it survives lines appended to the input, also inside windows that have been flushed already |
| Growth.GrowingInputConverges | internal/aggregate/aggregator.go:99-239 | runs lost anywhere on an input file that grows in between, then one completed run: the table is the old one overridden by the group-by of the whole input, the checkpoint its greatest accepted timestamp |
| PoolGrowth.GrowingFirstSeen | internal/aggregate/aggregator.go:335-356 | then the pools listed and their first-seen blocks are exact for the whole input too |
| StateGrowth.GrowingStateConverges | internal/aggregate/aggregator.go:99-356 | with constant metadata, lost runs over a growing input and one completed run leave the whole durable state of one uninterrupted run on the whole input, from any state of the pools table |
| CutWindows.TableUnchanged | internal/aggregate/aggregator.go:142-150 | the second run leaves the table unchanged if and only if every window it opens keeps its row; with constant metadata, if and only if no late rejected swap shares its window with a well-formed one |
| CutWindows.RejectedTailOverwrites | internal/aggregate/aggregator.go:142-150 | a swap followed by an undecodable one: the second run replaces the counted window by an empty one |
| CutWindows.GoodThenBadExists | internal/aggregate/aggregator.go:142-150 | concrete records for the previous row |
| CutWindows.TailRow | internal/aggregate/accumulator.go:46-95 | a window whose events up to some time were skipped falls short by exactly their sum when the fee tier is the same, and is right if and only if they hold no well-formed swap and the first event read names the same tokens and gives the same fees |
| CutWindows.CutWindowRow | internal/aggregate/aggregator.go:205-220 | a run from an arbitrary start writes a row for a window if and only if the first event it reads of it has metadata; it is the group-by row if and only if the skipped events make no difference (with constant metadata: if none is a well-formed swap); other rows stay |
| CutWindows.CutWindowLosesSwap | internal/aggregate/aggregator.go:113-116 | a start between two swaps of a window leaves a row with one of them where the group-by row has two |
| CutWindows.StraddlesExists | internal/aggregate/aggregator.go:113-116 | concrete records for the previous row |
| Independence.BatchAndOrderIndependent | internal/aggregate/aggregator.go:152-188 | two runs that differ in batch size and map iteration order leave the same tables and checkpoint, on every input |
| Conservation.Conserved | internal/aggregate/aggregator.go:118-162 | at every loop point sent + pending + dropped + open equals the count and volumes of everything accepted |
| Conservation.RunConserves | internal/aggregate/aggregator.go:260-264 | over a run, rows sent plus windows dropped for missing metadata account for every accepted swap |
| RollUp.GroupsAddUp | internal/aggregate/aggregator.go:374-376 | the events of a window of size k*W contribute what those of its k windows of size W do together |
| RollUp.TablesAddUp | internal/aggregate/aggregator.go:118-140 | every row of the coarse group-by table, present or absent, is the sum of the fine rows inside it |
| RollUp.RollUpConsistent | internal/aggregate/aggregator.go:99-193 | the same for the tables two completed runs leave |
| RollUp.PoolTotalsAgree | internal/aggregate/aggregator.go:99-193 | with any two window sizes the rows of a pool have the same sum of counts, volumes and fees |
| Columns.ColumnsShowTotals | internal/aggregate/aggregator.go:266-330 | over the oracle's own answers: each printed column reads back as its own total with the decimals of its own token; the TVL is that of both tokens at the last block, else at the latest, else missing, and the method text says which; a rate is present when fee and TVL of its side are positive and reads as their quotient rounded to 18 digits; an APR is present when exactly one side has a rate and reads as that rate * 31536000 / W |
| Columns.FetchTvl | internal/aggregate/tvl.go:34-55 | both balances at the block if and only if both are known there, else both at the latest one if and only if both are known there, or none |
| Columns.ColumnsDetermineTotals | internal/aggregate/aggregator.go:277-330 | for one pair of tokens equal columns mean equal totals |
| Rationals.FloatStringIsRounded | internal/aggregate/helpers.go:19-21 | the digit algorithm behind FloatString, with its carry, prints the scaled value rounded half up in magnitude |
| Rationals.PrintFraction | internal/aggregate/helpers.go:20-21 | reducing the fraction first does not change the printed digits |
| Rationals.GcdGreatest | internal/aggregate/helpers.go:20-21 | the divisor used to reduce is the greatest common one |
| Rationals.RoundIsNearest | internal/aggregate/helpers.go:20-21 | rounding is to the nearest integer, and up when two are equally near |
| Rationals.ReadPrinted | internal/aggregate/helpers.go:62-65 | printed fixed-point text reads back as its value |
| Helpers.AmountIsExact | internal/aggregate/helpers.go:10-26 | for every integer and number of decimals the text has that many fraction digits and reads back exactly |
| Helpers.AmountText | internal/aggregate/helpers.go:10-26 | letter by letter: a minus if negative, the whole part without leading zeros, and a point with exactly the decimals; no value prints as 0 |
| Helpers.AmountIsInjective | internal/aggregate/helpers.go:10-26 | for fixed decimals different amounts print differently |
| Helpers.RateReads | internal/aggregate/helpers.go:41-47 | a rate reads as fee / tvl rounded to the nearest multiple of 10^-18 |
| Helpers.AprReads | internal/aggregate/helpers.go:49-72 | for every window the APR reads as rate * year / int64(window) rounded to the nearest multiple of 10^-18, from either side |
| Helpers.AprReturned | internal/aggregate/helpers.go:28-60 | an APR is returned if and only if the window is not empty and exactly one side has a rate |
| Helpers.AprErrorBound | internal/aggregate/helpers.go:28-72 | two roundings, with W = int64(window): 2*abs(A*W*tvl - fee*31536000*10^18) <= tvl*(abs(W) + 31536000); W is the window if and only if that is below 2^63 |
| Ranges.SplitRange | internal/indexer/range.go:12-38 | the loop returns the specified batches, and an error exactly for a zero batch size or an inverted interval |
| Ranges.BatchEnd | internal/indexer/range.go:22-30 | no 64-bit step wraps, except the count of the whole 64-bit range, which reads as 0 |
| Ranges.SplitIsPartition | internal/indexer/range.go:20-35 | the batches are non-empty, ascending, adjacent and cover the interval, for all 64-bit inputs |
| Ranges.SplitWidths | internal/indexer/range.go:20-35 | all but the last batch have the asked width, and the last is no wider if and only if the interval is not the whole 64-bit range |
| Ranges.SplitCount | internal/indexer/range.go:20-35 | there are ceil(blocks / batchSize) batches |
| Ingest.IdKeyInjective | internal/indexer/runner.go:180-182 | the text key of the seen-set determines block, transaction and index |
| Ingest.UnseenExact | internal/indexer/runner.go:126-129 | the seen-set drops only repeats, never a distinct log |
| Ingest.BlockInOrder | internal/indexer/runner.go:124-136 | the logs of a block are appended in the order of the block, if none is repeated |
| Ingest.DistinctExact | internal/indexer/runner.go:119-136 | what is kept of an interval is exactly its logs, each once, in block order |
| Ingest.RunIsClean | internal/indexer/runner.go:110-147 | over a whole run the shared seen-set acts as if each batch had its own |
| Ingest.WithoutCheckpoints | internal/indexer/runner.go:110-147 | with checkpoints disabled a run appends the logs of its interval, each once, and nothing else |
| IngestHistory.ResumeBlock | internal/indexer/runner.go:89-98 | a run resumes one block after the checkpoint if and only if the checkpoint is not block 2^64 - 1 |
| IngestHistory.RunShape | internal/indexer/runner.go:89-149 | any run, lost or not, from any checkpoint up to any block, appends the logs of whole batches and at most the first ones of one more; its checkpoint covers exactly the whole batches |
| IngestHistory.RunOutput | internal/indexer/runner.go:110-140 | what one run appends, lost or not, has no repeated log, is in block order and comes from the chain |
| IngestHistory.WrapRepeats | internal/indexer/runner.go:94-96 | from a checkpoint at block 2^64 - 1 a completed run appends everything from block 0 on again |
| IngestHistory.HistoryOutput | internal/indexer/runner.go:89-149 | after any history in which no run that wrapped to block 0 saves a checkpoint, the output is, as a multiset, each log up to the checkpoint once plus the torn tails |
| IngestHistory.CheckpointIsBacked | internal/indexer/runner.go:138-146 | over any history of runs and crashes every matching log between the first block and a durable checkpoint is in the output |
| IngestHistory.OutputIsFromChain | internal/indexer/runner.go:119-140 | the output of any history holds only logs of the chain, and only from the first block on unless a run started from block 2^64 - 1 |
| IngestHistory.TailIsOneBatch | internal/indexer/runner.go:138-146 | what a lost run leaves to be repeated lies in the one batch after its checkpoint; a completed run leaves nothing |
| IngestHistory.MarksIncrease | internal/indexer/runner.go:110-147 | the checkpoints one run saves, lost after any number of statements, strictly increase and lie in its interval |
| IngestHistory.HistoryMarksIncrease | internal/indexer/runner.go:89-149 | over any history of runs and crashes the durable checkpoint is the last that took effect, and the checkpoints strictly increase if and only if no run that starts from one at block 2^64 - 1 saves another |
| Runners.Sink.PutLogBatch | internal/storage/jsonl.go:25-65 | the records are appended in order; a crash keeps a prefix |
| Runners.Sink.SaveCheckpoint | internal/indexer/checkpoint.go:56-86 | the checkpoint is replaced or, in a crash, untouched |
| Runners.Runner.IsDuplicate | internal/indexer/runner.go:180-187 | tells whether the key was seen, and marks it |
| Runners.Runner.DropDuplicates | internal/indexer/runner.go:124-136 | the loop keeps exactly the unseen logs and marks all |
| Runners.Runner.RunBatch | internal/indexer/runner.go:119-146 | one batch: the records first, the checkpoint after them, for every crash point |
| Runners.Runner.Run | internal/indexer/runner.go:56-152 | with checkpoints enabled or not, and whatever the object has seen: exactly the first n statements of the specified run take effect when n are left; success if and only if that is all; an empty address list or a zero batch size is an error |
| Runners.RunHistory | internal/indexer/runner.go:89-149 | new Runners, one after the other, each lost anywhere, up to given or latest blocks: every log up to the final checkpoint is in the output, nothing that is not a log of the chain, and nothing before the first block unless a run started from block 2^64 - 1 |
| TextLines.FormatExists | internal/model/log_record.go:5-27 | there is a format of lines as assumed |
| TextLines.LinesMakeText | cmd/indexer/decode.go:98-109 | the lines with their newlines and what is left are the file; no line holds a newline, and an unfinished last line counts as a line |
| TornLines.TextShape | internal/storage/jsonl.go:45-62 | what a run makes of the whole lines and the unfinished last line of the file, for every crash inside or between records |
| TornLines.LossIsNotBacked | internal/indexer/runner.go:138-146 | a run that saves a checkpoint over a record joined to a torn line, and held by no whole line, leaves a checkpoint the file does not back |
| TornLines.BackedUnlessLost | internal/indexer/runner.go:138-146 | over any history of runs lost inside or between records, every log up to every durable checkpoint can be read from the file if and only if there is no such run |
| TornLines.LossIsForeseen | internal/storage/jsonl.go:45-62 | a run is of that kind if and only if, before it, the file ends in a torn line and no whole line holds the first log from the resume block on, and the run saves a checkpoint over that log |
| TornLines.LaterTearIsHarmless | internal/storage/jsonl.go:45-62 | after a tear behind another record of the same batch the next run is never such a run |
| TornLines.FirstTearLosesRecord | internal/storage/jsonl.go:45-62 | a run lost inside its very first record, then a completed run: the record is lost although the checkpoint covers it |
| Hex.RoundTrip | internal/indexer/transform.go:15-28 | the hex text of any bytes decodes to them |
| Hex.EncodeDigits | internal/indexer/transform.go:15-28 | the text is 0x and two small hex digits for each byte, the high one first |
| Hex.DecodeExact | internal/dex/v3_pool_decoder.go:429-442 | read are exactly a prefix 0x or 0X and an even number of hex digits of either case |
| Hex.DecodeIgnoresCase | internal/dex/v3_pool_decoder.go:78-81 | letter case changes neither the bytes read nor what counts as an address |
| Hex.AddressIsTwentyBytes | internal/dex/v3_pool_decoder.go:78-81 | an address is the text of twenty bytes, with or without the prefix |
| Words.SignedRoundTrip | internal/dex/v3_pool_decoder.go:454-464 | two's complement words give back every 256-bit signed number |
| Words.ValueOfConcat | internal/dex/v3_pool_decoder.go:454-464 | words are big-endian |
| Words.SignedIs | internal/dex/v3_pool_decoder.go:454-464 | a word from 2^255 on stands for its value minus 2^256 |
| Abi.TypeRanges | internal/dex/v3_pool_decoder.go:200-206 | the values of the types in use, with their bounds as numbers |
| Abi.WordRoundTrip | internal/dex/v3_pool_decoder.go:200-206 | every value of an argument type survives its 32-byte word |
| Abi.DataRoundTrip | internal/dex/v3_pool_decoder.go:454-464 | the data of any list of static values decodes to it |
| Abi.DecodeDataExact | internal/dex/v3_pool_decoder.go:454-464 | decoding fails if and only if the data is too short, and value i is read from word i |
| Decoder.BuildLogRecord | internal/indexer/transform.go:12-32 | the loop writes every topic, in order, and every field of the log as text |
| Decoder.RecordRoundTrip | internal/indexer/transform.go:12-32 | every field of a log, the chain id, the block time and the time of ingestion can be read back from its record |
| Decoder.ParseTopicHashes | internal/dex/v3_pool_decoder.go:429-442 | the loop returns the padded words of all topics, or an error if any is not hex or too long |
| Decoder.TopicsRoundTrip | internal/dex/v3_pool_decoder.go:429-442 | topics written as hex are read back |
| Decoder.ArgsRoundTrip | internal/dex/v3_pool_decoder.go:421-464 | for any event signature, indexed and other values survive encoding, hex text and decoding |
| Decoder.LogRoundTrip | internal/dex/v3_pool_decoder.go:189-419 | every well-typed Swap, Mint, Burn and Collect, emitted, recorded and decoded, shows every field unchanged |
| Decoder.WellTypedExact | internal/dex/v3_pool_decoder.go:189-419 | what a well-typed event is, field by field, for all four events |
| Decoder.SwapFromWords | internal/dex/v3_pool_decoder.go:189-246 | any log decodes as a Swap if and only if it has three topics, five words of data and a last word between -8388608 and 8388607; each field of the payload is read from its own word |
| Decoder.MintFromWords | internal/dex/v3_pool_decoder.go:248-307 | the same for Mint: four topics, four words of data, two tick topics in range |
| Decoder.BurnFromWords | internal/dex/v3_pool_decoder.go:309-363 | the same for Burn, with three words of data |
| Decoder.CollectFromWords | internal/dex/v3_pool_decoder.go:365-419 | the same for Collect |
| Decoder.TickFits | internal/dex/metadata.go:347-354 | the accepted ticks are exactly the values of the ABI type int24 |
| Decoder.EventReachesAggregator | internal/aggregate/accumulator.go:55-75 | from the chain to the sums: an emitted, recorded and dispatched event keeps chain, block, time, address and metadata; a swap is a trade of the emitted amounts, a Mint, Burn or Collect moves no sum although its payload has amounts |
| TopicMaps.NewTopicMap | internal/dex/v3_pool_decoder.go:34-51 | the loop builds the specified map or refuses it |
| TopicMaps.TopicMapAccepted | internal/dex/v3_pool_decoder.go:41-46 | the map is refused if and only if some configured name is no event name |
| TopicMaps.NamesInAnyCase | internal/dex/v3_pool_decoder.go:118-131 | swap, mint, burn and collect, in any letter case and between any spaces, name their own events |
| TopicMaps.NamesExact | internal/dex/v3_pool_decoder.go:118-131 | no other text names an event |
| TopicMaps.BlanksListed | internal/dex/v3_pool_decoder.go:118-120 | the 25 space characters that are dropped, one by one |
| TopicMaps.EmptyTopic | internal/dex/v3_pool_decoder.go:47-49 | an entry without a topic adds nothing, but its name is still checked |
| TopicMaps.TopicMapExact | internal/dex/v3_pool_decoder.go:34-51 | a topic has the name of its last configured entry, or its built-in name |
| TopicMaps.SameInEveryOrder | internal/dex/v3_pool_decoder.go:41-51 | the map is the same in every visiting order if and only if it is refused or no two topics equal up to letter case name different events |
| TopicMaps.OrderMatters | internal/dex/v3_pool_decoder.go:41-51 | "0xAA" as swap and "0xaa" as mint: accepted, and the map depends on the order |
| Decoder.DispatchRoundTrip | internal/dex/v3_pool_decoder.go:69-116 | the round trip through the choice by topic0, for any topic map that registers the event |
| Decoder.DispatchExact | internal/dex/v3_pool_decoder.go:69-116 | a log is decoded only with a registered topic0 and an address of twenty bytes, under the registered name and with the fields of that event |
| Decoder.BuiltInRoundTrip | internal/dex/v3_pool_decoder.go:34-39 | without configured topics and with four different ids: every well-typed event, emitted with the id of its own kind, recorded and dispatched, comes back under its own name with all its fields |

## Left out

- Aggregators.Aggregator.SaveState: a configuration without a state store, in which nothing is ever saved, is not modelled; the command always passes one.
- Stores.Store.Exec: pgx sends a batch as one implicit transaction; the model lets a crash fall between its statements too, which covers both.
- Stores.Store.UpsertPools: the `created_at` and `updated_at` columns are not modelled.
- Accumulators.Accumulator.AddEvent: the swap counter is unbounded where the source has 64 bits, and big.Int objects are plain integers, so sharing of such objects is not captured.
- Events.TradeOf: JSON is not modelled; a line is blank, malformed or a record, and a swap payload unmarshals or does not.
- Base.ToLower: lower-casing is ASCII only.
- Columns.ColumnsOf: token decimals and balances come from oracle functions, and the empty USD columns are not modelled.
- Rationals.ReadDecimal: only the decimal texts that FloatString produces are read, not every form Rat.SetString accepts.
- Runners.Runner.Run: the address list only decides whether the run starts; the chain function stands for the logs that match the filters.
- Runners.Sink.PutLogBatch: in the class a record is appended completely or not at all; what is left of a record a crash cuts is added in `TornLines`, on top of the specified run.
- Ingest.Fetch: the node answers in block order and always the same; reorganisations, retries and timestamps of blocks are not modelled.
- Abi.DecodeWord: only types of the four pool events; the width checks the ABI library makes for integers of at most 64 bits do not apply to them.
- Decoder.RecordOf: addresses are printed in lower case, without the EIP-55 letter case; the time of ingestion is given as text.
- Decoder.TypedEvent: block hash, transaction, log index, the raw reference and the optional live metadata of a typed event are not modelled.
- Decoder.Decode: the pool metadata is fetched over the network and is not part of this model.
- RPC calls, token metadata, caches and mutexes, retry and backoff, the command line, configuration, logging and counters.
- End-to-end exactly-once from chain to metrics: the ingester may repeat a batch after a crash and the aggregator does not remove repeats.
