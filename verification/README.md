# Verified model of triodion's collection core

triodion collects chain data (logs, traces, state diffs, access lists, token transfers) from an
Ethereum node and writes it as tables. This project models the parts of it whose correctness is
not visible in one function, and proves what they are for:

- **Coalesced logs.** Up to five log datasets share one `eth_getLogs` query. The union filter, the
  narrowing of agreed topics and the fan-out are proved to give every dataset exactly the rows of its
  own query, in their order, for every node content, parameter set and set of datasets, which are the
  logs that the user's own bytes and block range ask for, and to end with
  the error of the first failing dataset in fan-out order. The one difference, a dataset whose own
  filter is refused, is characterised exactly. The narrowing is proved to be the tightest possible.
- **Trace trees.** The one-address failed-trace filter over a flat preorder list is proved equal to
  cutting failed subtrees out of the forest; the deployer column, the call-frame flattening and the
  trace-address text are proved against the same trees, with round trips.
- **The freeze run.** Planning with path collisions, the tasks, the semaphore and the collector as a
  step relation: permit bound, one writer a file, final summary, what a failure leads to, termination
  and freedom from deadlock for every interleaving.
- **Block and timestamp selection.** The binary search, its probe bound, monotonicity, the range
  grammar and integer sampling.
- **Argv normalisation.** The rewriter is proved to keep the meaning of a greedy multi-value option
  grammar, and to be idempotent, each if and only if a condition on the command line holds.
- **What the tables say.** Logs, traces, contracts, call frames, access lists and ERC-1155 batches are
  recovered from the columns that a successful call leaves; state diffs are walked in any hash-set
  order and replayed forwards and backwards.

## How it is put together

Column accumulators (`Columns.Table`) are classes with one sequence a column; a dataset stores a row
cell by cell under the schema, and the first selected cell that fails to convert ends the call and
leaves the earlier cells behind, as the source's `store!` and `?` do. Loops of the source are methods
with invariants, proved equal to a specification function; the properties are lemmas about those
functions. A panic of the source is an outcome (`Err(Panic)`), never an excluded input. The recovery
lemmas read row `i` of the table that a call leaves by column name (`Columns.TableRow`), so that
swapping two columns, or the values of two columns, breaks them. What is read from a node or a user is
named once more in its own terms where a result is about it: the request in `LogRequest`, the events of
a run in `SchedulerTraces`, an account list's values in `StateReplay.Told`, the decoder's values in
`LogDecoding`, and the seconds and blocks of a notation in `Blocks`.

The node is a fixed list of mined logs, selected by a filter as in the `eth_getLogs` method of the
Ethereum JSON-RPC API: a non-empty set at a topic position requires a topic there and that it be in
the set. The iteration order of hash sets is left open: methods choose any remaining element and
return, as a ghost result, the order they happened to take.

## What the proofs found

Places where the code does not do what its own comments, options or help text say. The model follows
the code; each has a concrete case and, where a property fails, the exact condition under which it
holds.

- `crates/freeze/src/multi_datasets/log_events.rs:30-38` promises the output of the single datasets. A
  dataset that refuses the parameters on its own is passed over in silence when coalesced: with a
  33-byte `--from-address`, transfers and approvals each end in an error, and the two together complete
  without a row (`LogEquivalence.WideSenderIsSilent`). The two ways succeed together on every node
  content if and only if every requested dataset accepts the parameters, or the shared base refuses
  them (`LogEquivalence.SucceedTogetherIff`).
- `README.md:470` and `crates/cli/src/run.rs:125` give `-1000:7000` as another spelling of `6000:7000`.
  It selects 6001 to 7000 and the other 6000 to 6999 (`Blocks.MinusStartIsOneLater`); `-n:e` and
  `(e-n):e` agree if and only if `n` is 0 (`Blocks.DocumentedMinusIff`). Read as the `n` blocks up to
  `e`, a start of more blocks than `e` is refused, and with it `-1:0` and `-6:5`, which stand for blocks
  (`Blocks.WholeChainBeforeEndRefused`); a range is accepted if and only if it stands for some block and
  the arithmetic on its ends stays within 64 bits (`Blocks.BlockRangeSelects`).
- `crates/cli/src/parse/timestamps.rs:211-213` documents that of several blocks with the searched
  timestamp the first one probed is found. A range can so lose blocks inside it, in the smallest case
  one of two (`Timestamps.SharedStampLosesBlock`). Which block that is depends on the head and on where
  the blocks stand: it is the first midpoint in the bisection of the whole chain that falls on them
  (`Timestamps.SearchHits`). A range on a non-decreasing chain has all its blocks if and only if that is
  the first of the blocks at its start and the last of those at its end (`Timestamps.RangeCoversIff`).
- `crates/cli/src/parse/timestamps.rs:200-206` reads the head anew for each end of a range. A range of
  one second can then be refused as inverted while the head moves (`Blocks.MovingHeadInverts`), which
  happens if and only if the bisection steps back (`Blocks.TimestampRangeInvertedIff`); and a range
  begun ahead of the chain takes in blocks before its start (`Timestamps.StartAheadAddsBlock`), which
  happens if and only if the next block is still before it (`Timestamps.RangeCoversIff`).
- `crates/freeze/src/multi_datasets/geth_state_diffs.rs:249-259` reads a value that the node omits as
  blank. Where a node omits a nonce of 5 because it has not changed, a change from 5 to 0 is stored
  (`StateReplay.UnchangedNonceReplaysAsZero`). The rows lead to the state that the node means if and
  only if every omitted value is blank there (`StateReplay.ReplayBlock`).
- `crates/freeze/src/multi_datasets/log_events.rs:50-58` says the by-transaction extractors of the
  single datasets never narrow, so the fan-out need not either. They do narrow
  (`crates/freeze/src/datasets/erc20_transfers.rs:103-120`). The two agree on every transaction if
  and only if no narrowing dimension of the dataset is given
  (`LogEquivalence.TransactionFanOutAgreesIff`).
- `crates/freeze/src/datasets/traces.rs:47-57` selects by sender or receiver before it drops failed
  subtrees, so a selected inner call of a reverted frame survives `exclude_failed`. Selecting and
  pruning commute on every forest if and only if nothing is selected by address
  (`Traces.ExcludeFailedCommutesIff`, case `Traces.FailedFrameHidden`).
- `crates/cli/src/argv.rs:45-46` says leading shorts of a cluster take no values, but any short is
  accepted there. The rewriting keeps its meaning if and only if no rewritten cluster has a
  value-taking short before its last (`ArgvMeaning.NormalizationKeepsMeaningIff`, case
  `ArgvMeaning.ClusterLosesItsValue`). It is idempotent if and only if the re-emitted leading shorts
  do not end in a negative-tolerant one and no bare option is followed by an attached value that is
  not valid text (`ArgvStability.NormalizationIdempotentIff`, cases
  `ArgvStability.DoubledShortIsNotStable` and `ArgvStability.RawValueIsNotStable`).
- `crates/cli/src/parse/blocks.rs:131-135`: a range `a:b:0` divides by zero when it is not empty
  (`Blocks.SkippedRange`).
- `crates/freeze/src/multi_datasets/log_events.rs:43-46`: a user's `--topic0` stays in the union even
  when raw logs are not requested, so the query can fetch logs that no active dataset takes
  (`LogTightness.Topic0IsTight`). Rows are not affected.

## Model

| member | source | states |
|---|---|---|
| RpcParams.LeftPadKeepsNumber | crates/freeze/src/types/rpc_params.rs:17-20 | left-padding an address-shaped value with zeros keeps its number, so topics may be compared as numbers |
| RpcParams.BytesOfRoundTrip | crates/freeze/src/types/rpc_params.rs:233-240 | a fixed-width value is determined by its number and its width |
| LogRequest.SingleReturnsAsked | crates/freeze/src/types/rpc_params.rs:150-178 | a single log collection is accepted if and only if the bytes given for each dimension have its width, and then returns exactly the mined logs of the user's block range, emitting address, topics or parties and the dataset's kind, in order |
| LogRequest.RefusalNamesDimension | crates/freeze/src/types/rpc_params.rs:150-178 | a collection that is not accepted ends with an error that names a dimension of the wrong width, or the missing range |
| LogRequest.ShareReturnsAsked | crates/freeze/src/multi_datasets/log_events.rs:137-193 | of the one coalesced response each member's share is exactly the mined logs that the user asked for of that dataset, in order |
| LogRequest.TransactionReturnsAsked | crates/freeze/src/datasets/erc20_transfers.rs:103-120 | by transaction, a dataset on its own keeps exactly the logs with the user's address, topics or parties and its kind |
| LogRequest.TransfersAreAsked | crates/freeze/src/datasets/erc1155_transfers.rs:170-194 | the ERC-1155 extractor returns exactly the mined logs of the range with the address, operator and parties asked for and one of its two signatures |
| LogRequest.AskedPartyStored | crates/freeze/src/types/rpc_params.rs:9-19 | a log asked for by a 20-byte sender or receiver has twelve zero bytes and those bytes in its topic, and its row stores them |
| LogRequest.PartyColumns | crates/freeze/src/types/rpc_params.rs:9-19 | after a single collection by a 20-byte sender or receiver every new cell of that party's column is the number of those bytes |
| Columns.Table.Store | crates/freeze/src/types/columns.rs:7-13 | one cell goes to its column if and only if the schema selects it; a failing cell is evaluated only then |
| Columns.Table.PushRow | crates/freeze/src/types/columns.rs:7-13 | a row counts first and then stores cell by cell, stopping at the first selected cell that fails |
| Columns.PutAllAppends | crates/freeze/src/types/columns.rs:7-13 | a stored row adds exactly its own cell to every selected column and touches no other column |
| Columns.PutAllFailsIff | crates/freeze/src/types/columns.rs:7-13 | storing fails if and only if some selected cell fails to convert |
| Columns.RowsTranspose | crates/freeze/src/types/columns.rs:7-13 | a successful sequence of rows keeps every selected column as long as the row count and appends that column of the rows, in order |
| LogDatasets.ExtractTransfers | crates/freeze/src/datasets/erc20_transfers.rs:68-92 | the by-block extractor of the three transfer-shaped datasets, with the error of each malformed dimension, is the scalar query |
| LogDatasets.ProcessLogs | crates/freeze/src/datasets/logs.rs:119-214 | the row loop of all five log datasets, with its skips, decoded columns and errors |
| LogDatasets.ProcessKeepsColumnsAligned | crates/freeze/src/datasets/logs.rs:119-214 | after any successful processing every selected column has a cell a row, every other none, and a decoded column one a row for each parameter of that name |
| LogDatasets.LogsRecoveredIff | crates/freeze/src/datasets/logs.rs:119-214 | from the default columns or any that have them, the table that a successful call leaves gives back every log it stored, in order and with its block hash where selected, if and only if each indexed address is at most 20 bytes wide and no raw log has a fifth topic |
| LogDatasets.PlacesStored | crates/freeze/src/datasets/logs.rs:119-214 | no stored row of any of the five datasets has a blank for its block, transaction, transaction hash or log index, with these columns selected |
| LogDatasets.SizesStored | crates/freeze/src/datasets/logs.rs:119-214 | beside the data of every stored raw log stands its number of bytes |
| LogDecoding.DecodedColumn | crates/freeze/src/datasets/logs.rs:169-184 | after a successful call the column of every event parameter with a name of its own, indexed or not, has grown by what the decoder says of it for each stored log, in the order of the rows |
| StoreFailures.LogsStoreIff | crates/freeze/src/datasets/logs.rs:119-214 | storing a dataset's logs succeeds if and only if block, position and, for raw logs, size of every stored log fit 32 bits, where selected |
| LogSafety.ExtractThenStoreNeverPanics | crates/freeze/src/datasets/erc20_wrapper_events.rs:140-158 | whatever the node holds, storing what a dataset's own extraction returned never panics, by block and by transaction |
| LogEvents.BuildUnionFilter | crates/freeze/src/multi_datasets/log_events.rs:137-193 | the merged filter: shared range and address, the union of signatures, the agreed topics, and its errors |
| LogEvents.UnionTopic0s | crates/freeze/src/multi_datasets/log_events.rs:160-185 | the pushed signature list holds exactly the union, without duplicates mattering |
| LogEvents.NarrowAgreedTopics | crates/freeze/src/multi_datasets/log_events.rs:227-246 | positions 1 to 3 are overwritten in place with the agreed topic and otherwise left; position 0 is left |
| LogEvents.AgreedTopic | crates/freeze/src/multi_datasets/log_events.rs:233-245 | one position yields a topic if and only if all active members pin that same padded value |
| LogEvents.LogEventColumns.FanOut | crates/freeze/src/multi_datasets/log_events.rs:297-339 | the five accumulators after a fan-out, in the source's order, stopping at the first error |
| LogEvents.LogEventColumns.FanOutTx | crates/freeze/src/multi_datasets/log_events.rs:345-374 | the same for one transaction's logs, raw logs first, with shape checks only |
| LogEquivalence.ScalarMeaning | crates/freeze/src/multi_datasets/log_events.rs:257-295 | a dataset's own node filter and shape check select exactly the shared base and its re-applied predicate |
| LogEquivalence.UnionAdmits | crates/freeze/src/multi_datasets/log_events.rs:16-21 | the union filter is a superset of every active member's own filter |
| LogEquivalence.CoalescedRows | crates/freeze/src/multi_datasets/log_events.rs:30-38 | each member's share of the one response is the row list of its own query, in order, for any parameters |
| LogFanOut.FanOutPerMember | crates/freeze/src/multi_datasets/log_events.rs:297-339 | each accumulator ends as its own share alone would leave it, up to the first member that fails, whose error ends the call |
| LogFanOut.TransactionPerMember | crates/freeze/src/multi_datasets/log_events.rs:345-374 | the same for the fan-out of one transaction |
| LogEquivalence.CoalescedEqualsScalar | crates/freeze/src/multi_datasets/log_events.rs:30-38 | the coalesced collection ends like the accepted single collections done one after the other in fan-out order: with their accumulators, or at the first failure with its error and the later ones untouched |
| LogEquivalence.CoalescedCompletesIff | crates/freeze/src/multi_datasets/log_events.rs:30-38 | it completes if and only if the base is accepted and no accepted single collection fails, and then leaves every accumulator as the single collection does |
| LogEquivalence.SucceedTogetherIff | crates/freeze/src/multi_datasets/log_events.rs:257-295 | it succeeds exactly when all single collections do, on every node content, if and only if every requested dataset accepts the parameters or the shared base refuses them |
| LogEquivalence.WideSenderIsSilent | crates/freeze/src/multi_datasets/log_events.rs:257-295 | a sender of 33 bytes is an error for transfers and approvals alone and silently empty for the two together |
| LogTightness.NarrowingIsTight | crates/freeze/src/multi_datasets/log_events.rs:195-246 | a position is narrowed to a topic if and only if every log of 32-byte words that any active member accepts has that topic there |
| LogTightness.Topic0IsTight | crates/freeze/src/multi_datasets/log_events.rs:43-46 | the union lists a signature if and only if some active member accepts a log with it or the user asked for it |
| LogEquivalence.TransactionFanOutAgreesIff | crates/freeze/src/multi_datasets/log_events.rs:50-58 | the by-transaction fan-out selects the rows of the single dataset on all transactions if and only if no narrowing dimension is given |
| LogEquivalence.TransactionEqualsScalar | crates/freeze/src/multi_datasets/log_events.rs:50-58 | without such a dimension it leaves every accumulator as the single transforms would, or ends with the first of their errors |
| TraceAddress.FormatTraceAddress | crates/freeze/src/datasets/traces.rs:125-142 | the separator-joined text of a path, the empty path included |
| TraceAddress.ParseFormat | crates/freeze/src/datasets/traces.rs:125-142 | splitting and reading the text gives back the path, for every non-digit separator |
| TraceAddress.DigitSeparatorAmbiguous | crates/freeze/src/datasets/traces.rs:125-142 | for a digit as separator two paths print alike |
| TraceAddress.FormatInjectiveIff | crates/freeze/src/datasets/traces.rs:125-142 | printing is injective if and only if the separator is not a digit |
| Traces.FilterFailedTraces | crates/freeze/src/datasets/traces.rs:290-321 | the loop with its one remembered address computes the list filter |
| Traces.FilterIsPrune | crates/freeze/src/datasets/traces.rs:290-321 | on every forest, filtering the preorder list is flattening the forest without its failed subtrees |
| Traces.FilterSubtree | crates/freeze/src/datasets/traces.rs:290-321 | one subtree is dropped whole or pruned inside, and an address remembered afterwards lies inside it |
| Traces.PruneKeepsForest | crates/freeze/src/datasets/traces.rs:290-321 | what is left is a forest again, with distinct sibling addresses |
| Traces.FilterIdempotent | crates/freeze/src/datasets/traces.rs:290-321 | on any list, no failed trace survives and filtering twice is filtering once |
| Traces.ExcludeFailedCommutesIff | crates/freeze/src/datasets/traces.rs:47-57 | selecting by address and dropping failed subtrees commute on every forest if and only if nothing is selected |
| Traces.FailedFrameHidden | crates/freeze/src/datasets/traces.rs:74-110 | a selected call inside a reverted frame is reported as if it had succeeded |
| TraceColumns.ProcessTraces | crates/freeze/src/datasets/traces.rs:145-257 | the row loop over all kinds of action and result, with its errors |
| TraceColumns.TracesKeepColumnsAligned | crates/freeze/src/datasets/traces.rs:145-257 | whatever the mixture of actions and results, every selected column gains one cell a trace |
| TraceColumns.TracesRecovered | crates/freeze/src/datasets/traces.rs:145-257 | with all columns selected, as by default, the table that a successful call leaves gives back every trace: action, result, place and error |
| StoreFailures.TracesStoreIff | crates/freeze/src/datasets/traces.rs:145-257 | storing traces succeeds if and only if every gas, count and position fits 32 bits and every trace says its block, where selected |
| TraceColumns.SelectedIffStored | crates/freeze/src/datasets/traces.rs:74-110 | a trace is selected by address if and only if its row carries the addresses: the sender column for a sender, but no reward; the receiver column for a receiver, or for a reward the sender column |
| Contracts.ProcessContracts | crates/freeze/src/datasets/contracts.rs:65-109 | the loop over current deployer and create index computes the deployments, and stores a row for each |
| Contracts.DeployerIsRootSender | crates/freeze/src/datasets/contracts.rs:73-81 | on every forest each contract carries the sender of the root of its own transaction's tree |
| Contracts.DeployersSurviveFiltering | crates/freeze/src/datasets/contracts.rs:43-47 | the same on the list without failed traces, of unfailed trees only, with indices from 0 in order |
| Contracts.DeedsStored | crates/freeze/src/datasets/contracts.rs:73-85 | which traces are creations, and the sender that a root gives its contracts as their deployer, are what its row in the traces table says; for a self-destruct the account refunded |
| Contracts.DeployerColumn | crates/freeze/src/datasets/contracts.rs:83-107 | a successful call adds exactly those senders to the stored deployer column, and keeps the columns aligned |
| Contracts.ContractsRecovered | crates/freeze/src/datasets/contracts.rs:83-107 | the table says every surviving creation in order, in all thirteen columns as far as they are selected: its place and index, deployer and factory, and its two codes, each beside its own hash and size |
| StoreFailures.ContractsStoreIff | crates/freeze/src/datasets/contracts.rs:87-106 | storing contracts succeeds if and only if every creation says its block and both of its codes are shorter than 2^32 bytes, where selected |
| GethCalls.ProcessTrace | crates/freeze/src/datasets/geth_calls.rs:73-104 | the recursive emission, a row before its calls, with the error of an index that is no `u32` |
| GethCalls.ProcessGethTraces | crates/freeze/src/datasets/geth_calls.rs:60-71 | the loop over paired hashes and frames |
| GethCalls.EmitsIff | crates/freeze/src/datasets/geth_calls.rs:60-104 | a call succeeds if and only if no paired frame, at any depth, and no list of frames is longer than there are 32-bit positions |
| GethCalls.EmitIsFlatten | crates/freeze/src/datasets/geth_calls.rs:60-104 | a successful call stores the preorder list of all paired frames |
| GethCalls.TraceAddressesIncrease | crates/freeze/src/datasets/geth_calls.rs:99-101 | one row a node, with pairwise distinct, lexicographically increasing trace addresses |
| GethCalls.RowSaysItem | crates/freeze/src/datasets/geth_calls.rs:82-97 | a row determines payload, transaction and trace address |
| GethCalls.FramesRecovered | crates/freeze/src/datasets/geth_calls.rs:60-104 | with all columns selected, as by default, the table that a successful call leaves gives back every frame that is paired with a transaction hash, shape and payloads |
| FilePaths.GetPath | crates/freeze/src/types/files.rs:63-105 | the loop over sub-directories computes the output path, or the error of a directory that cannot be made |
| FilePaths.PathInjective | crates/freeze/src/types/files.rs:63-105 | for one partition the paths of two datatypes are never equal, compared by components as the source compares them |
| FilePaths.LabelInjective | crates/freeze/src/types/files.rs:69-105 | for one datatype the paths of two partitions are equal only if their labels are |
| FilePaths.PathReads | crates/freeze/src/types/files.rs:63-105 | a path of plain names reads as the output directory, one component a subdirectory in order, and a file name whose fields are network, datatype, suffix, and label with format |
| Payloads.GetPaths | crates/freeze/src/types/files.rs:40-60 | the nested loops compute the path of each requested datatype, or the label or directory error |
| Payloads.PathsMeaning | crates/freeze/src/types/files.rs:40-60 | exactly the requested datatypes with a schema get a path, each its own |
| Payloads.GetPayloads | crates/freeze/src/freeze.rs:79-132 | the nested loops compute the plan: payloads, skipped partitions, or the collision error |
| Payloads.PlanSucceedsIff | crates/freeze/src/freeze.rs:97-129 | planning succeeds if and only if every job finds its paths and no two kept jobs share one; the plan is then those jobs in order |
| PlanMeaning.PlanIsToDo | crates/freeze/src/freeze.rs:97-129 | a successful plan has a payload for every datatype and partition with a file that does not exist, or for all of them if files may be overwritten, in order, with the paths of those files, and skips the partitions of the rest |
| PlanMeaning.PathsFoundIff | crates/freeze/src/types/files.rs:40-60 | a job finds its paths if and only if its partition has a label and every directory can be made, as far as it has anything to write |
| Payloads.OneOwner | crates/freeze/src/freeze.rs:104-112 | in a successful plan each path belongs to one datatype of one payload |
| Scheduler.AggregateResults | crates/freeze/src/freeze.rs:157-170 | each arrival is listed once, as completed or as errored with or without its partition, behind those of its side that came before it; the row count is the sum over the completed |
| Scheduler.RunSummary | crates/freeze/src/freeze.rs:157-176 | in every run the summary is that of the results in the order in which the run hands them over, each taken task once |
| Scheduler.StepInv | crates/freeze/src/freeze.rs:134-207 | every step of every task keeps the invariant on permits, writes, progress and summary |
| Scheduler.RunInv | crates/freeze/src/freeze.rs:134-207 | so does every run, in any interleaving |
| Scheduler.PermitsBound | crates/freeze/src/freeze.rs:181-185 | never more tasks past the semaphore than it has permits |
| Scheduler.OneWriter | crates/freeze/src/freeze.rs:190-198 | in every run of a planned freeze, no file is written more than once |
| Scheduler.FinalSummary | crates/freeze/src/freeze.rs:157-176 | at the end each payload is in exactly one of completed and errored, once, and `n_rows` is the sum over the completed |
| SchedulerTraces.FailedWriteIsError | crates/freeze/src/freeze.rs:197-198 | in any run, after a write that fails its payload is never completed, and is errored with its partition once its result is taken |
| SchedulerTraces.MissingPathIsError | crates/freeze/src/freeze.rs:194-196 | so is a payload without a path for one of its tables |
| SchedulerTraces.FailedCollectionIsError | crates/freeze/src/freeze.rs:187-188 | and one whose collection fails, with that error |
| SchedulerTraces.PanicIsError | crates/freeze/src/freeze.rs:167 | and one whose task panics, without its partition |
| SchedulerTraces.CompletedHasWritten | crates/freeze/src/freeze.rs:190-199 | a completed payload has collected its tables and written each of them, to its own path and by a write that did not fail |
| Scheduler.StepDecreases | crates/freeze/src/freeze.rs:134-207 | every step lowers a lexicographic measure |
| Scheduler.EveryRunEnds | crates/freeze/src/freeze.rs:134-207 | no infinite run exists |
| Scheduler.StuckIff | crates/freeze/src/freeze.rs:181-185 | some run deadlocks if and only if there is work and a semaphore without permits |
| Scheduler.ConfiguredLimit | crates/freeze/src/freeze.rs:85-94 | in every run under a configured limit at most that many tasks are past the semaphore, and a waiting one may pass if and only if fewer are; a limit of 0 is none |
| Scheduler.ConfiguredNeverStuck | crates/freeze/src/types/sources.rs:504-505 | a limit of 0 means no semaphore, so no configured run deadlocks |
| Timestamps.BlockAtTimestamp | crates/cli/src/parse/timestamps.rs:217-242 | the search loop, its read count, errors, underflow guard and 64-bit overflow, computes the recursive search |
| Timestamps.BlockAtFinds | crates/cli/src/parse/timestamps.rs:208-242 | on non-decreasing timestamps: block 0 before the first, else an exact match or the last block at or before the target |
| Timestamps.OverflowsIff | crates/cli/src/parse/timestamps.rs:217-242 | on non-decreasing timestamps the search panics if and only if the head is the largest number of 64 bits and is before the target, and otherwise finds a block |
| Timestamps.SearchIsScan | crates/cli/src/parse/timestamps.rs:208-242 | on strictly increasing timestamps it is a linear scan from the head |
| Timestamps.ReadBound | crates/cli/src/parse/timestamps.rs:208-242 | on any chain at most one more block is read than the binary logarithm of their number, rounded down |
| Timestamps.BlockAtMonotone | crates/cli/src/parse/timestamps.rs:217-242 | for a fixed head a later target never gives an earlier block, even with unordered timestamps |
| Timestamps.SearchHits | crates/cli/src/parse/timestamps.rs:208-242 | of the blocks that carry the searched timestamp, on a non-decreasing chain, the search gives the one that bisection hits first |
| Timestamps.RangeCoversIff | crates/cli/src/parse/timestamps.rs:60-66 | on any non-decreasing chain, with the head read anew for each search, a timestamp range has all its blocks if and only if bisection hits the first block of the start and the last of the end; besides the block current at its start it has no other if and only if the start was not ahead of the chain |
| Timestamps.RangeCovers | crates/cli/src/parse/timestamps.rs:60-66 | without shared timestamps it is exactly the blocks in it and the block current at its start, if and only if the start was not ahead of the chain |
| Timestamps.SharedStampLosesBlock | crates/cli/src/parse/timestamps.rs:211-213 | of two blocks with one timestamp a range over it loses the later |
| Timestamps.StartAheadAddsBlock | crates/cli/src/parse/timestamps.rs:200-206 | a range begun ahead of the chain takes in a block that is before its start |
| Timestamps.SearchesOrderedIff | crates/cli/src/parse/timestamps.rs:200-206 | with the head read anew, the end is found at or behind the start if and only if the two differ or bisection up to the later head does not step back among the blocks that carry it |
| Timestamps.TimestampsToBlockNumbers | crates/cli/src/parse/timestamps.rs:179-196 | a strictly ascending list that is exactly the set of the single answers; an error if and only if one of them is |
| Blocks.EvenlySpacedSubset | crates/cli/src/parse/blocks.rs:147-177 | the loop and its four early cases compute the sample |
| Blocks.SampleGaps | crates/cli/src/parse/blocks.rs:170-174 | consecutive indices differ by the interval rounded down or up, and by at least one |
| Blocks.SampleKeepsEnds | crates/cli/src/parse/blocks.rs:147-177 | min(k, len) items of the list, first and last kept for k of two or more, order kept |
| Blocks.SampledRangeKeepsEnds | crates/cli/src/parse/blocks.rs:122-126 | any range with `/k` is accepted as without, and keeps k of the blocks it stands for or all of them, ascending, for k of two or more the first and the last, and evenly: block i is the last at or before i parts in k-1 of the way, and each gap is that part rounded down or up |
| Blocks.BlockRangeSelects | crates/cli/src/parse/blocks.rs:179-238 | a range is accepted if and only if its notation stands for some block and the arithmetic on its ends fits, and selects exactly what it stands for, with exclusive ends and `-`, `+`, `latest` |
| Blocks.WholeChainBeforeEndRefused | crates/cli/src/parse/blocks.rs:184-193 | `-1:0` and `-6:5` stand for blocks and are refused |
| Blocks.EndBeyondU64Refused | crates/cli/src/parse/blocks.rs:195-204 | the 2048 blocks up to the largest number are refused |
| Blocks.MinusStartIsOneLater | crates/cli/src/run.rs:125 | `-1000:7000` is one block later than `6000:7000` at both ends |
| Blocks.DocumentedMinusIff | crates/cli/src/run.rs:125 | `-n:e` and `(e-n):e` agree if and only if n is 0 |
| Blocks.SkippedRange | crates/cli/src/parse/blocks.rs:129-135 | any range with a third part n selects every n-th of the blocks it stands for, from the first; it is accepted as without, and panics instead if and only if n is 0 |
| Blocks.TimestampEnds | crates/cli/src/parse/timestamps.rs:74-129 | the two ends that a timestamp notation is read as enclose exactly the seconds that it stands for, `-n:e` including both `e-n` and `e`, unless the arithmetic on them leaves 64 bits |
| Blocks.TimestampRangeSelects | crates/cli/src/parse/timestamps.rs:60-66 | while the head stays and no two blocks share a timestamp, a notation that stands for some second selects the blocks of those seconds and the block current at their start |
| Blocks.TimestampRangeNotInverted | crates/cli/src/parse/timestamps.rs:60-66 | while the head stays, an ordered timestamp range never becomes an inverted block range, on any readable chain |
| Blocks.TimestampRangeInvertedIff | crates/cli/src/parse/timestamps.rs:60-66 | while it moves on, on a non-decreasing chain, an ordered range is refused as inverted if and only if its ends are one timestamp and bisection steps back among the blocks that carry it |
| Blocks.MovingHeadInverts | crates/cli/src/parse/timestamps.rs:60-66 | `7:8` over two blocks at second 7 is refused when the head moves from 3 to 4, and accepted at either |
| Argv.FromCommand | crates/cli/src/argv.rs:69-97 | the maps hold exactly the spellings of the rewritable arguments, each with its canonical name, and all shorts |
| Argv.Normalize | crates/cli/src/argv.rs:155-209 | the loop with lookahead computes the rewriting |
| Argv.DashesEndNormalization | crates/cli/src/argv.rs:174-179 | the first `--` and everything after it stay, and do not change what is made of the tokens before |
| Argv.Turn | crates/cli/src/argv.rs:168-206 | one turn consumes at least one token and emits its rewriting |
| Argv.AttachValues | crates/cli/src/argv.rs:190-198 | the inner loop attaches exactly the values before the next flag |
| Argv.ValueIff | crates/cli/src/argv.rs:128-152 | a token is a value if and only if it is not text, has no dash in front, is a dash alone, or is a dash in front of the decimal text of any number, whatever follows |
| Argv.MinusAttached | crates/cli/src/argv.rs:190-198 | such a number behind an option that takes it is attached to the option |
| ArgvMeaning.RewriteKeepsMeaningIff | crates/cli/src/argv.rs:25-35 | reading the rewritten tokens with attached values only gives the same events as reading the original greedily, if and only if the clusters are clean |
| ArgvMeaning.NormalizationKeepsMeaningIff | crates/cli/src/argv.rs:154-209 | the same for a whole command line: same values per option in order, same flags and other tokens, same rest |
| ArgvMeaning.ClusterLosesItsValue | crates/cli/src/argv.rs:45-49 | a value-taking short in front of a negative-tolerant one loses its value |
| ArgvStability.FlagStaysFlagIff | crates/cli/src/argv.rs:137-152 | where no value followed, none follows after rewriting, unless an attached value there is not text |
| ArgvStability.NormalizationIdempotentIff | crates/cli/src/argv.rs:154-209 | normalising twice is normalising once if and only if the command line is stable |
| ArgvStability.DoubledShortIsNotStable | crates/cli/src/argv.rs:105-125 | `-bb` is rewritten again by a second pass |
| ArgvStability.RawValueIsNotStable | crates/cli/src/argv.rs:137-152 | an option before an option with a value that is not text takes the attached form for its own value in a second pass |
| GethStateDiffs.AddBalances | crates/freeze/src/multi_datasets/geth_state_diffs.rs:147-165 | one row with the value before and after, blank where absent |
| GethStateDiffs.AddCodes | crates/freeze/src/multi_datasets/geth_state_diffs.rs:167-191 | the same for code |
| GethStateDiffs.AddNonces | crates/freeze/src/multi_datasets/geth_state_diffs.rs:193-211 | the same for nonces |
| GethStateDiffs.AddStorages | crates/freeze/src/multi_datasets/geth_state_diffs.rs:213-247 | one row a slot of either side, in whatever order the set yields them |
| GethStateDiffs.ProcessGethDiffs | crates/freeze/src/multi_datasets/geth_state_diffs.rs:99-145 | every active table gains the rows of some walk over all accounts of each transaction, every other stays; the error of an index that is no `u32` |
| StateReplay.OneRowAKey | crates/freeze/src/multi_datasets/geth_state_diffs.rs:116-142 | the rows that a diff leaves in a table are exactly one an account of either side, for storage one a slot, with the values that the node tells before and after, zero or empty code where it tells none, and each names the diff's transaction |
| StateReplay.OrderIrrelevant | crates/freeze/src/multi_datasets/geth_state_diffs.rs:116-123 | any two orders of the hash sets give the same rows as a multiset |
| StateReplay.FilledTogetherAsAlone | crates/freeze/src/multi_datasets/geth_state_diffs.rs:130-141 | filling four tables at once leaves each as filling it alone, up to row order |
| StateReplay.ApplyDiff | crates/freeze/src/multi_datasets/geth_state_diffs.rs:249-259 | writing a transaction's new values gives the state after it if and only if each value that the node omits afterwards is blank there |
| StateReplay.RevertDiff | crates/freeze/src/multi_datasets/geth_state_diffs.rs:249-259 | writing its old values from there restores the state before it if and only if each value omitted before is blank there |
| StateReplay.UnchangedNonceReplaysAsZero | crates/freeze/src/multi_datasets/geth_state_diffs.rs:193-211 | a nonce that the node omits as unchanged is stored as a change to 0 |
| StateReplay.ReplayBlock | crates/freeze/src/multi_datasets/geth_state_diffs.rs:114-145 | the rows in the table after a block lead through every state between its transactions, forwards, and in reverse order back, each if and only if the omitted values are blank |
| StateReplay.RowsNameTheirTransaction | crates/freeze/src/multi_datasets/geth_state_diffs.rs:114-165 | every row of the n-th walk names the block, n and the n-th transaction hash, as far as these columns are selected |
| StateReplay.ReplayNamesTransaction | crates/freeze/src/multi_datasets/geth_state_diffs.rs:114-165 | the rows by which the replay goes through the n-th transaction are the changes of its diff and name it |
| AccessLists.ProcessAccessList | crates/freeze/src/datasets/access_lists.rs:108-158 | the nested loops store the items of one list, up to the first position that is no `u32` |
| AccessLists.Transform | crates/freeze/src/datasets/access_lists.rs:71-82 | a block: refused without full transactions or with too large a number, else all its lists |
| AccessLists.StoresEveryItemIff | crates/freeze/src/datasets/access_lists.rs:124-156 | a call succeeds if and only if every position fits, and then stores one row an item |
| AccessLists.RowSaysPlaced | crates/freeze/src/datasets/access_lists.rs:161-182 | a row says of its entry, its key and its transaction everything that the selected columns show |
| AccessLists.AccessListRecovered | crates/freeze/src/datasets/access_lists.rs:107-158 | from transaction hash, entry index, address and storage key, whatever else is selected, the table that a successful call leaves gives back every transaction's list: empty entries, repeated addresses and order included |
| Erc1155Transfers.ExtractByBlock | crates/freeze/src/datasets/erc1155_transfers.rs:127-159 | the by-block extractor returns exactly the logs of the range that the by-transaction check keeps, or the error of a malformed dimension |
| Erc1155Transfers.ExtractionsAgree | crates/freeze/src/datasets/erc1155_transfers.rs:170-194 | narrowed topics at the node and the client-side check select the same logs |
| Erc1155Transfers.ProcessTransfers | crates/freeze/src/datasets/erc1155_transfers.rs:270-311 | the nested loops store one row an item of every located, decodable log |
| StoreFailures.MovesStoreIff | crates/freeze/src/datasets/erc1155_transfers.rs:270-311 | storing the items succeeds if and only if the place of every log and the position of every item fit 32 bits, where selected |
| Erc1155Regroup.ProducesIff | crates/freeze/src/datasets/erc1155_transfers.rs:226-267 | a log gives rows if and only if it is located and a readable single, or a readable batch of equally many ids and values, at least one |
| Erc1155Regroup.BatchesRecovered | crates/freeze/src/datasets/erc1155_transfers.rs:16-25 | from the default columns or any that have them, the rows of the table that a successful call leaves, put together, are one group for each transfer log that gave rows, as its event tells it: place and what else is selected of it, contract, parties, kind, and its ordered (id, value) list |
| Erc1155Regroup.KeyUniqueIff | crates/freeze/src/datasets/erc1155_transfers.rs:25 | block, log index and token id index are a key if and only if no two producing logs share block and log index |

## Left out

- RPC calls, retries, rate limits, the async runtime, parquet, csv and json writing, reports and
  progress bars: I/O. The node is a list of logs or a timestamp function; a write is an event of the
  run.
- The clap parser: only greedy consumption, attached values and short clusters, as argv.rs describes
  them. Other value-taking options are events; how the parser pairs them with later tokens is a
  function of those events and is not modelled.
- Argv.FromCommand: takes a command whose spellings are text, without `=`, not digits and not shared
  by two arguments; clap itself demands this of a command in debug builds.
- Keccak hashes and ABI decoding are parameters: any function, and any partial decoder.
- Addresses, words and hashes are their numbers; widths are checked where user bytes become one. The
  upper bound of a word is not imposed on what the node holds, so results about all logs hold for
  larger numbers too; where a log is shown to exist it is one of words and addresses in range.
- Timestamps.RangeCoversIff: the chain may grow between the two searches of a range, but no block that was
  there changes or goes.
- Timestamps.BlockAtTimestamp: an overflow panics here, as in a build with overflow checks; only a head
  of `u64::MAX` gets there.
- Blocks.BlockRangeSelects: starts from ends already read as numbers; reading `K`, `M`, `B` and time
  units goes through floating point and is not modelled.
- FilePaths.GetPath: which directories can be made is a parameter; that making them changes the disk is
  not modelled.
- FilePaths.PathInjective: assumes datatype names without slashes and dots, as all names of the program
  are; symbolic links and `..` are not resolved, as the source does not.
- FilePaths.PathReads: for names without slashes, and fields without double underscores, which would
  end a field.
- LogDecoding.DecodedColumn: parameters that share a name share a column; of theirs only the number of
  cells is stated.
- Scheduler.EveryRunEnds: a collection that never returns is a task that takes no further step.
- Traces.FailedFrameHidden: the address filter panics on a dimension that is not 20 bytes wide; the
  model compares addresses and does not cover that panic.
- Contracts.ProcessContracts: the create index is unbounded here and a `u32` in the source.
- StateReplay.ReplayBlock: a state is the places of one table.
- Partition and chunk splitting, reorg buffers, multicall and batching modules: not part of this model.
- The by-transaction collectors of access lists and state diffs, which call the same row code on one
  transaction, would only add easy members.
