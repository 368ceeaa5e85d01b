# Verified model of graph-node's Ethereum trigger pipeline

graph-node turns the data sources of a subgraph into merged trigger filters, turns those filters
into few and cheap RPC requests, and hands what comes back to the handlers of the data sources.
This project models that pipeline in Dafny and proves that none of the cleverness changes which
handlers run, and exactly when it changes how often they run. Around it, it models the state
machines that the pipeline depends on: the call cache, the block ingestor, the reorg check of
queries, the start/stop protocol of subgraphs, the ancestor walk and the validation of the
configuration.

`dafny verify dfyconfig.toml` checks everything.

| file | what it holds |
|---|---|
| `Types.dfy` | chain data, data sources and handlers |
| `LogFilter.dfy`, `CallFilter.dfy`, `BlockFilter.dfy` | the three filters: building, extending, meaning |
| `TriggerFilter.dfy` | the combined filter object, templates, when a filter covers a data source |
| `GetLogs.dfy` | the greedy vertex cover that splits a log filter into `eth_getLogs` requests |
| `LogScan.dfy`, `CallScan.dfy` | adaptive range scanning for logs and calls |
| `Dispatch.dfy` | `match_and_decode`, and the two ways to obtain the triggers of a block |
| `Intervals.dfy` | the blocks at which polling and once rules fire |
| `TriggerOrder.dfy` | the order of triggers within a block, sorting and deduplication |
| `TriggerSieve.dfy` | what becomes of that when some triggers are left out beforehand |
| `TriggerPaths.dfy` | the triggers of a block as both paths list them, and the sequences of handler runs |
| `RangeScan.dfy` | `blocks_with_triggers` and `triggers_in_block`, from requests to sorted triggers |
| `BlockSchedule.dfy` | validation of block handlers and when they run over any sequence of scans |
| `CallCache.dfy`, `CacheService.dfy` | the buffered call cache under interleaving: when its answers are right, and that it answers |
| `ContractCalls.dfy` | batched contract calls over the cache |
| `Ingestor.dfy` | the polling block ingestor and the chain head update |
| `QueryReorg.dfy` | the reorg check at the end of a query |
| `SubgraphProvider.dfy` | start and stop requests, gauge and start tasks, as interleaved steps |
| `StartTasks.dfy` | the life of each start task over all runs, and stops that come in time |
| `Ancestry.dfy` | the walk back along parent pointers |
| `Config.dfy` | AMP names and deployment rules |

## What is assumed

- The contract/event graph is a map from (contract, event) to the receipt flag; an isolated vertex
  has degree zero and is never picked, so it is not represented. Hash iteration is an arbitrary
  order, and `max_by_key` is any vertex of maximal degree.
- A node answers an `eth_getLogs` request as the `eth_getLogs` section of EIP-1474 says (an empty
  list is no constraint, topic sets constrain their own position), rejects it, or fails. Which of
  these happens is an arbitrary function of the request.
- ABI lookup and decoding, hashing, regular expressions and the validity of node and shard names
  are arbitrary functions. `keccak` of an event or function is its signature or selector.
- Hashes and addresses carry no structure beyond equality (block hashes also have an order, which
  the chain store uses to break ties). Block numbers are mathematical integers.
- Every block request of the ingestor for the same hash gives the same block, and a parent has a
  smaller number than its child; numbers need not be consecutive.
- `max_event_only_range` and `get_logs_max_contracts` are at least one, as node/src/config.rs:783-819
  enforces. The step size of trace streams is assumed to be at least one; nothing enforces that.
- Log indices follow the order of transactions within a block, which is exactly what the trigger
  comparison needs to be transitive (`TriggerOrder.OrderIffConsistent`). The standard library's sort
  is a stable sort, modelled as an insertion sort. A log's index identifies it within its block.
- A block without receipts has no traces.
- The status of a call's transaction is known on both paths, and calls of one transaction have one
  status; polling intervals fit in 32 bits.
- A start task runs on one of several threads, so an abort reaches it only while it waits for the
  manifest (core/src/subgraph_provider.rs:103-122 has no later wait). The trigger manager starts a
  subgraph in a task of its own, at any later time or never
  (core/src/subgraph/instance_manager.rs:129-148), and its stop ends what runs by then. The Amp
  manager takes starts and stops in the order in which they are sent
  (core/src/amp_subgraph/monitor.rs:73-120), which is modelled as taking effect at once. A subgraph
  that ends by itself still counts as running.

## Where the code does not do what is said about it

Each of these is a lemma here, together with the condition under which the promise holds.

- Log filters: a handler whose topic lists are all empty is registered as unfiltered although it
  matches nothing (`LogFilters.BuiltFilterExact`). A topic filter with an empty list yields a
  request with false positives (`GetLogs.EntryRequestExact`), against adapter.rs:654.
- Call filters: extending a filter that accepts every selector of a contract by one with selectors
  narrows it (`CallFilters.ExtendIsUnion`).
- Templates: the filter made from a template does not cover block handlers with a call filter
  (`TriggerFilters.TemplateCovers`), against the comment in core/src/subgraph/runner/mod.rs:193-196.
  With static filters such a handler of a dynamic data source runs in a parsed block exactly if
  something else watches its contract, and in a scanned block only once that has started
  (`BlockSchedule.CallFilteredRunsIff`), so the two paths can differ (`BlockSchedule.WatchedLater`).
- The triggers of a block are not without duplicates (graph/src/blockchain/block_stream.rs:226-227):
  deduplication only removes neighbours, so equal calls of one transaction, or calls to one watched
  contract, stay apart if another call separates them (`TriggerOrder.KeptTwice`).
  `TriggerOrder.DuplicateFreeIff` says exactly when there are none.
- What separates two equal triggers may be left out by a scan and not by parsing, because parsing does
  not look at start blocks. Then a call handler (`TriggerPaths.CallTwiceOnOnePath`) or a call-filtered
  block handler (`TriggerPaths.WatchedTwiceOnOnePath`) runs twice on one path and once on the other.
  `TriggerPaths.SameMultiplicityIff` and `TriggerPaths.PathRunsAgreeIff` say exactly when.
- The triggers of a range are joined in the order in which the requests finish. This does not show
  for logs and calls, but the call-filtered triggers and the end of a block change places with it
  (`TriggerPaths.ArrivalShows`), and nothing else does (`TriggerPaths.ArrivalOnlyMoves`). A data source
  with an unfiltered and a call-filtered block handler has them run in either order
  (`TriggerPaths.ArrivalRunsIff`, `BlockSchedule.ArrivalNoticed`).
- The comparison of two block starts is not antisymmetric (`TriggerOrder.ReversedUnlessStarts`); a
  block has at most one.
- `once` handlers do not run at all if their start block is a null block (`BlockSchedule.OnceRuns`).
- The ingestor's loop is bounded by the larger of one and the ancestor count
  (`Ingestor.ZeroAncestorsStillFetch`). A successful poll completes the ancestry of the preferred
  stored block above the head, which need not be the latest block: not if that is a sibling of the
  head (`Ingestor.PollSibling`, `Ingestor.SiblingPolled`), and not if a block above it was left
  behind by an interrupted poll (`Ingestor.PollBelowCandidate`, `Ingestor.AnotherCandidateWins`).
  `Ingestor.PollingBlockIngestor.DoPoll` says exactly when the latest block's ancestry is complete.
- The reorg check is sound exactly if a revert never skips a block number
  (`QueryReorg.SoundIffNoGaps`); on chains with null blocks it can pass although a queried block
  was replaced. It also rejects reads that nothing has happened to, down to the depth of the deepest
  reorg the deployment ever had (`QueryReorg.OneRevert`).
- The call cache may return the answer for another block if operations for different blocks
  overlap (`CallCache.OverlapBreaks`), and exactly if a step moves an answer between blocks that
  disagree on it (`CallCache.CacheAgreesIff`); for some chain it does whenever a step moves an answer
  while another block is recorded (`CallCache.RightForAllIff`).
- The deployment gauge stays too high after concurrent starts of one deployment
  (`SubgraphProvider.ConcurrentStartsLeak`).
- A subgraph can keep running without being assigned, so that no stop request reaches it, even if the
  requests of each deployment are serialised: if its task records the kind before the assignment is
  added (`SubgraphProvider.UntimelyTaskLeaks`), if a stop comes when the task is past waiting
  (`SubgraphProvider.RacingStopLeaks`), or if it comes before the trigger manager has launched the
  subgraph (`SubgraphProvider.LateLaunchLeaks`). `SubgraphProvider.StopsReach` says exactly when, for
  every interleaving.

## Model

| member | source | states |
|---|---|---|
| LogFilters.EthereumLogFilter.FromDataSources | chain/ethereum/src/adapter.rs:553-600 | the built filter has a key exactly if some handler is registered at it, flagged exactly if one of those handlers declares a receipt |
| LogFilters.EthereumLogFilter.Register | chain/ethereum/src/adapter.rs:556-596 | one handler is OR-inserted at the place its address and topics determine |
| LogFilters.EthereumLogFilter.Extend | chain/ethereum/src/adapter.rs:619-639 | the object becomes the merge of itself and the other filter |
| LogFilters.OrExtend | chain/ethereum/src/adapter.rs:382-385 | OR-inserting all entries of a map in any order is the pointwise OR of the maps |
| LogFilters.MergeEntries | chain/ethereum/src/adapter.rs:612-618 | keys and receipt flags of a merge are the ORs of both filters' |
| LogFilters.BuildConcat | chain/ethereum/src/adapter.rs:283-285 | building from a concatenated list equals extending one part's filter by the other's, in either order |
| LogFilters.MergeAssociates | chain/ethereum/src/adapter.rs:619-639 | extending may be grouped in any way |
| LogFilters.MatchesByKey | chain/ethereum/src/adapter.rs:489-551 | a log matches, or needs a receipt, exactly if a key, or a flagged key, accepts it |
| LogFilters.ReceiptWithoutAddress | chain/ethereum/src/adapter.rs:512-551 | without an address exactly the flagged keys not tied to a contract demand a receipt, and they do so at every address |
| LogFilters.BuiltFilterComplete | chain/ethereum/src/adapter.rs:553-600 | no log and no receipt that any handler needs is lost by the built filter |
| LogFilters.BuiltFilterExact | chain/ethereum/src/data_source.rs:1564-1588 | accepted equals handled (and receipt demanded equals declared) for all logs if and only if each handler with only empty topic lists is shadowed by an unfiltered one |
| GetLogs.VertexRequests | chain/ethereum/src/adapter.rs:703-722 | the requests for one vertex partition its edges within the contract cap; the assertions fail exactly for an event vertex and a cap of zero |
| GetLogs.CoverEdges | chain/ethereum/src/adapter.rs:690-724 | the loop ends on every graph, and covers each edge in exactly one request and nothing else |
| GetLogs.EthGetLogsFilters | chain/ethereum/src/adapter.rs:657-726 | one request per wildcard, one per topic filter, and a partition of the edges by greedily picked vertices of maximal degree; when the assertions fail |
| GetLogs.GreedyIsVertexCover | chain/ethereum/src/adapter.rs:677-684 | the picked vertices are a vertex cover of the graph |
| GetLogs.EntryRequestExact | chain/ethereum/src/adapter.rs:201-209 | the request of a topic-filtered event means what the filter means on every log if and only if it has no empty topic list |
| GetLogs.DecompositionMeaning | chain/ethereum/src/adapter.rs:654-726 | the requests together return exactly the logs the filter's keys stand for |
| GetLogs.DecompositionExact | chain/ethereum/src/adapter.rs:654-656 | a log is returned if and only if the filter matches it or an entry with an empty topic list lets it through |
| LogScan.LogStream | chain/ethereum/src/ethereum_adapter.rs:502-594 | under every pattern of rejections a successful stream equals the single scan of the range; each request starts after everything answered so far and spans the whole range, or the limit for address-free requests, divided by ten per rejection; answered ranges tile the range; rejections are at most the digits of the first span; it gives up exactly at a failure or when a single block is rejected |
| LogScan.ProgressNeedsStep | chain/ethereum/src/ethereum_adapter.rs:530-591 | an answered request makes progress if and only if the step is not negative |
| LogScan.TilesPartition | chain/ethereum/src/ethereum_adapter.rs:541-591 | each block of the range is in exactly one answered range |
| LogScan.LogsInBlockRange | chain/ethereum/src/ethereum_adapter.rs:920-949 | over all requests of the filter exactly the logs of the range that its keys stand for are returned; rejected ranges alone never make it fail |
| LogScan.FetchesExact | chain/ethereum/src/ethereum_adapter.rs:920-949 | a log is fetched if and only if the filter matches it or an entry with an empty topic list lets it through |
| CallFilters.BuildConcat | chain/ethereum/src/adapter.rs:834-883 | building from a concatenated list equals extending, in either order, with least start blocks and united selectors |
| CallFilters.ExtendContracts | chain/ethereum/src/adapter.rs:862-880 | merging contract entries in any order takes the least start block and the union of selectors |
| CallFilters.BuiltFilterExact | chain/ethereum/src/adapter.rs:783-816 | a built filter matches exactly the calls some data source has a handler for |
| CallFilters.ExtendIsUnion | chain/ethereum/src/adapter.rs:798-815 | the extended filter matches what either does if and only if no shared contract has selectors on one side only (or those are all selectors) |
| CallFilters.BuiltCompatible | chain/ethereum/src/adapter.rs:896-917 | filters built from data sources always satisfy that condition |
| BlockFilters.ExtendWatched | chain/ethereum/src/adapter.rs:1030-1047 | in any order, one entry per contract remains, with the least start block |
| BlockFilters.BuildConcat | chain/ethereum/src/adapter.rs:970-1053 | building from a concatenated list equals extending, in either order |
| BlockFilters.BuiltExact | chain/ethereum/src/adapter.rs:970-1015 | the built filter has a polling entry exactly for each polling and once handler, watches exactly the contracts of call-filtered handlers from their least start block on, and asks for every block exactly if some handler has no filter |
| TriggerFilters.EthereumCallFilter.FromDataSources | chain/ethereum/src/adapter.rs:834-849 | the filter summarises exactly the (start, contract, selector) triples of the handlers |
| TriggerFilters.EthereumCallFilter.Insert | chain/ethereum/src/adapter.rs:902-911 | one more triple is summarised |
| TriggerFilters.EthereumCallFilter.Extend | chain/ethereum/src/adapter.rs:852-883 | the object becomes the merge |
| TriggerFilters.EthereumBlockFilter.FromDataSources | chain/ethereum/src/adapter.rs:970-1015 | polling rules, watched contracts and the every-block flag are exactly those of the data sources with an address |
| TriggerFilters.EthereumBlockFilter.Extend | chain/ethereum/src/adapter.rs:1017-1053 | the object becomes the merge and keeps one entry per contract |
| TriggerFilters.TriggerFilter.Extend | chain/ethereum/src/adapter.rs:283-290 | all three filters are merged, old data sources stay covered and the new ones are covered |
| TriggerFilters.TriggerFilter.ExtendWithTemplate | chain/ethereum/src/adapter.rs:299-313 | the template's filter is merged in and no data source becomes uncovered |
| TriggerFilters.BuiltCovers | chain/ethereum/src/adapter.rs:553-1015 | a built filter covers each of its data sources |
| TriggerFilters.MergeCovers | chain/ethereum/src/adapter.rs:283-290 | extending on either side never uncovers a data source |
| TriggerFilters.TemplateCovers | chain/ethereum/src/adapter.rs:958-968 | a template's filter covers its instances if and only if no block handler has a call filter |
| TriggerFilters.TemplateExact | chain/ethereum/src/adapter.rs:602-832 | a template's filter matches exactly the logs and calls that have a handler of the template, at any contract; it demands a receipt exactly if a handler of the event declares one; it asks for every block exactly if there is a block handler |
| CallScan.TraceStream | chain/ethereum/src/ethereum_adapter.rs:445-493 | the ranges partition the block range, each of exactly the step size (one block if all traces are wanted) but for the last, and together give the single scan; it fails exactly if a range is not answered |
| CallScan.TraceProgressNeedsStep | chain/ethereum/src/ethereum_adapter.rs:468-477 | the loop makes progress if and only if the step size is positive |
| CallScan.CallsInBlockRange | chain/ethereum/src/ethereum_adapter.rs:951-998 | the calls made by traces of the range that neither failed nor lack a transaction or selector, that the filter matches, and that are to a started contract unless there are wildcards or more than 100 started contracts; all of them and no others, in the order of the chain; without failing requests it succeeds |
| CallScan.RangeCallsIn | chain/ethereum/src/ethereum_adapter.rs:966-985 | the same for the single scan: a call is in it if and only if a trace of its block makes it and it is fetched |
| CallScan.TraceMakes | graph/src/components/ethereum/types.rs:212-245 | a trace makes a call exactly if it did not fail, is a call, belongs to a transaction and has a selector, and then the call has the trace's number, callee, input, transaction and status |
| CallScan.FetchesByRequest | chain/ethereum/src/ethereum_adapter.rs:961-985 | the fetched calls in terms of the requests: which traces a narrow and a broad request ask for |
| CallScan.FetchesStarted | chain/ethereum/src/ethereum_adapter.rs:966-985 | every call a started data source handles is fetched, by narrow and by broad requests |
| Dispatch.LogOutcome | chain/ethereum/src/data_source.rs:690-779 | a log from another contract or before the start block does not match; otherwise it is an error exactly if a handler with its signature and topics has no ABI entry or two can decode it, it runs the only one that can, and does not match without one |
| Dispatch.CallOutcome | chain/ethereum/src/data_source.rs:837-872 | a call to another contract or before the start block does not match; otherwise the first handler with its selector runs if the input decodes, is skipped if not, and is an error without an ABI entry; no handler is no match, no selector an error |
| BlockSchedule.BlockOutcome | chain/ethereum/src/data_source.rs:534-570 | a block trigger runs the first handler that answers it: once at the start block, an end everywhere or at start + k * every, calls to the own contract; otherwise it does not match |
| Dispatch.HandlerForCallIn | chain/ethereum/src/data_source.rs:517-532 | the first handler with the call's selector is chosen, if there is one |
| Dispatch.HandlerForBlockIn | chain/ethereum/src/data_source.rs:534-570 | a block handler is chosen only if it fits the trigger, and none only if none fits |
| Dispatch.CallsExact | graph/src/components/ethereum/types.rs:212-245 | the calls of a block are exactly those its traces make |
| Dispatch.Survives | chain/ethereum/src/data_source.rs:690-702 | no trigger that a covered data source would act on is dropped on either path |
| Dispatch.ParsedMinusScanned | chain/ethereum/src/ethereum_adapter.rs:1932-2078 | scanning has exactly the parsed triggers except logs no request asks for and, unless all traces are requested, calls to contracts not started |
| Dispatch.PathsAgree | chain/ethereum/src/chain.rs:1041-1072 | scanning a final block, parsing a non-final one, and offering everything to everyone give the same set of runs |
| Dispatch.RunsAlone | chain/ethereum/src/ethereum_adapter.rs:1745-1810 | in a list each data source has exactly the runs it has with a filter of its own |
| RangeScan.NextExisting | chain/ethereum/src/ethereum_adapter.rs:1428-1476 | the first existing block at or after a number |
| RangeScan.ScheduledTriggers | chain/ethereum/src/ethereum_adapter.rs:1006-1052 | the starts and ends, in order, of exactly the existing blocks of the range at which one is due: everywhere, at a once rule's block, at start + k * interval |
| Intervals.ScheduledKindsExact | chain/ethereum/src/ethereum_adapter.rs:1006-1052 | a start is scheduled exactly if every block is asked for or a once rule starts at it, an end exactly if every block is asked for or a polling rule fires |
| RangeScan.ScheduledOf | chain/ethereum/src/ethereum_adapter.rs:1006-1052 | those of one block are exactly its scheduled kinds, and none for an absent block |
| RangeScan.FetchedCallsOf | chain/ethereum/src/ethereum_adapter.rs:951-998 | the calls of one block among those of a range are its fetched calls, in order |
| RangeScan.CollectTriggers | chain/ethereum/src/ethereum_adapter.rs:1749-1814 | what the requests bring back is what the filter asks for in the range; it succeeds if the requests that the filter needs are answered for single blocks |
| RangeScan.JoinArrives | chain/ethereum/src/ethereum_adapter.rs:1733-1814 | in whatever order the requests finish, each block gets its calls and its block triggers in order, and its logs |
| RangeScan.ScannedBlock | chain/ethereum/src/ethereum_adapter.rs:2091-2165 | removing calls of failed transactions after deduplication is the same as before |
| RangeScan.BlocksWithTriggers | chain/ethereum/src/ethereum_adapter.rs:1715-1883 | every existing block of the resolved range gets, sorted and deduplicated, exactly: its requested logs, the fetched calls its traces make in successful transactions, one trigger per callee of a fetched watched call, and the starts and ends that are due; absent blocks have none, the last block is present; it succeeds if the requests that the filter needs are answered for single blocks |
| RangeScan.TriggersInBlock | chain/ethereum/src/chain.rs:1025-1073 | a final block has the triggers of the scan, a non-final one exactly its logs, matching calls, watched callees and due starts and ends; on either path the set of runs is that of offering everything; when each path succeeds; a final block yields exactly one block |
| RangeScan.ScanDataSources | chain/ethereum/src/chain.rs:909-929 | building the filter and scanning a range: every existing block has the set of runs of offering everything, and for every order of arrival exactly when it has the sequence of runs of parsing it; it succeeds if the requests that the filter needs are answered for single blocks |
| TriggerOrder.ReversedUnlessStarts | chain/ethereum/src/trigger.rs:364-379 | swapping the operands reverses the comparison unless both are block starts |
| TriggerOrder.OrderIffConsistent | chain/ethereum/src/trigger.rs:364-404 | the comparison is transitive if and only if log indices follow the order of transactions |
| TriggerOrder.LexicographicIffConsistent | chain/ethereum/src/trigger.rs:364-404 | on the same condition it is the order: block starts, transaction by transaction its logs by index and then its calls, other block triggers |
| TriggerOrder.Sort | graph/src/blockchain/block_stream.rs:253-254 | the triggers end up sorted, with every group of ties in its original order |
| TriggerOrder.SortDetermined | graph/src/blockchain/block_stream.rs:253-254 | a sorted sequence is determined by the order within its ties |
| TriggerOrder.DedupTied | graph/src/blockchain/block_stream.rs:258-260 | deduplicating after sorting deduplicates each group of ties on its own |
| TriggerOrder.BlockWithTriggers | graph/src/blockchain/block_stream.rs:228-279 | sorted, and each group of ties is the deduplicated group of the input |
| TriggerOrder.PartsCommute | chain/ethereum/src/ethereum_adapter.rs:1733-1814 | parts that do not tie with each other may be fetched in any order |
| TriggerOrder.KeptOncePerRun | graph/src/blockchain/block_stream.rs:258-260 | nothing is lost or invented, and a trigger remains once per run of it among its ties |
| TriggerOrder.DuplicateFreeIff | graph/src/blockchain/block_stream.rs:226-260 | the result has no duplicates if and only if equal triggers were listed with no other tie between them |
| TriggerOrder.KeptOnce | chain/ethereum/src/trigger.rs:304-318 | logs and the block start always remain exactly once |
| TriggerOrder.KeptTwice | graph/src/blockchain/block_stream.rs:258-260 | two equal triggers with another tie between them are both kept |
| TriggerSieve.MultiplicityIff | graph/src/blockchain/block_stream.rs:248-260 | leaving triggers out before sorting keeps a trigger's multiplicity if and only if it is not left out and no two of it are separated only by what is |
| TriggerSieve.WantedSameIff | graph/src/blockchain/block_stream.rs:248-260 | it keeps the sequence of the wanted triggers if and only if no two equal wanted ones are separated only by what is left out |
| TriggerSieve.SieveLater | chain/ethereum/src/ethereum_adapter.rs:1855-1860 | leaving out whole groups of ties may as well be done after deduplication |
| TriggerPaths.ParsedIsOnly | chain/ethereum/src/ethereum_adapter.rs:1932-2078 | parsing lists the block's triggers, in order, without those the filter does not want |
| TriggerPaths.ScannedIsOnly | chain/ethereum/src/ethereum_adapter.rs:1733-1814 | scanning lists the parsed triggers, in order, without those it leaves out |
| TriggerPaths.SameCallTriggers | chain/ethereum/src/ethereum_adapter.rs:1972-1996 | both paths list the same call triggers if and only if every matching call of the block is fetched |
| TriggerPaths.SameWatchTriggers | chain/ethereum/src/ethereum_adapter.rs:2040-2057 | both paths list the same call-filtered block triggers if and only if no watched contract that the scan leaves out is called |
| TriggerPaths.SameMultiplicityIff | chain/ethereum/src/chain.rs:1041-1072 | in every order of arrival a trigger is processed equally often on both paths if and only if, where listed, it is not left out and nothing left out separates two of it |
| TriggerPaths.PathRunsAgreeIff | core/src/subgraph/trigger_processor.rs:111-180 | in every order of arrival both paths give the same sequence of handler runs if and only if nothing left out separates two equal handled triggers and, where scheduled block triggers arrive first, not both kinds are handled |
| TriggerPaths.RunsOnExact | core/src/subgraph/trigger_processor.rs:111-180 | a trigger runs on exactly the data sources that match it, in their order, once each |
| TriggerPaths.OfferedRunsAgreeIff | core/src/subgraph/trigger_processor.rs:111-180 | parsing and offering every trigger of the block give the same sequence of runs if and only if nothing left out separates two equal handled triggers |
| TriggerPaths.AloneRunsAgreeIff | chain/ethereum/src/adapter.rs:553-1015 | data sources have the same sequence of runs with their own filter as with that of a longer list if and only if their own leaves out nothing between two equal triggers they handle |
| TriggerPaths.StartedRunsAgree | chain/ethereum/src/ethereum_adapter.rs:961-985 | if no call is left out, the sequences agree if and only if the order of arrival is not noticed |
| TriggerPaths.ArrivedSorted | chain/ethereum/src/ethereum_adapter.rs:1813-1860 | however triggers arrive and logs repeat, the processed triggers are those of the list |
| TriggerPaths.ArrivalOnlyMoves | chain/ethereum/src/ethereum_adapter.rs:1733-1814 | the order of arrival only moves call-filtered block triggers against scheduled ones |
| TriggerPaths.ArrivalShows | chain/ethereum/src/ethereum_adapter.rs:1733-1814 | the processed triggers of a block are the same in both orders if and only if no call-filtered trigger is fetched or the end of the block is not scheduled |
| TriggerPaths.ArrivalRunsIff | chain/ethereum/src/ethereum_adapter.rs:1733-1814 | the sequence of handler runs is the same in both orders if and only if the scheduled end of the block and a fetched call-filtered trigger are not both handled |
| TriggerPaths.CallTwiceOnOnePath | chain/ethereum/src/ethereum_adapter.rs:1972-1996 | two equal calls separated by a call to a contract that starts after the scan: processed twice when parsed, once when scanned |
| TriggerPaths.WatchedTwiceOnOnePath | chain/ethereum/src/ethereum_adapter.rs:1794-1808 | the same with call-filtered block triggers |
| BlockSchedule.Validate | chain/ethereum/src/data_source.rs:310-358 | accepted exactly if call and block handlers have an address, there is at most one handler of each sort, and an unfiltered one excludes polling and once |
| Intervals.IntervalKindsExact | chain/ethereum/src/ethereum_adapter.rs:2003-2030 | Start fires exactly at once rules' start blocks and End exactly at start + k * interval |
| BlockSchedule.ScheduleByAllTriggers | chain/ethereum/src/data_source.rs:534-570 | offered all triggers of a block, a validated data source runs a handler exactly when it is scheduled |
| BlockSchedule.ScheduleExact | chain/ethereum/src/ethereum_adapter.rs:2030-2078 | with any covering filter, whatever else it holds, both paths run a handler exactly when it is scheduled |
| BlockSchedule.DueExact | chain/ethereum/src/ethereum_adapter.rs:1006-1052 | with the filter of a list of data sources a start is due exactly at the blocks of once handlers, an end exactly at start + k * every of polling handlers, and both everywhere if a handler has no filter |
| BlockSchedule.CallFilteredRunsIff | chain/ethereum/src/adapter.rs:958-968 | whatever the filter, a call-filtered handler runs in a parsed block if and only if it is scheduled and its contract is watched, and in a scanned one if and only if the watching has also started or the request is broad |
| BlockSchedule.WatchedLater | core/src/subgraph/runner/mod.rs:193-196 | a contract that a static data source watches from a later block on: an instance of a template runs when parsed and not when scanned |
| BlockSchedule.TimesRunExact | chain/ethereum/src/data_source.rs:534-570 | in the processed triggers of a scanned block a scheduled handler runs exactly once, a call-filtered one once per run of its trigger, others not at all |
| BlockSchedule.TimesRunParsed | chain/ethereum/src/data_source.rs:534-570 | the same in a parsed block |
| BlockSchedule.ArrivalNoticed | chain/ethereum/src/data_source.rs:534-570 | a data source with an unfiltered and a call-filtered handler notices the order of arrival in every block with a call to its contract |
| BlockSchedule.RunsOverScans | chain/ethereum/src/ethereum_adapter.rs:1715-1760 | over every split of a range into scans, each with a filter of its own, a handler runs, in order, at exactly the existing blocks it is scheduled for |
| BlockSchedule.OnceRuns | chain/ethereum/src/data_source.rs:540-549 | a once handler runs exactly once, at its start block, if and only if that block exists and is in range |
| BlockSchedule.PollingAndPlainRuns | chain/ethereum/src/data_source.rs:550-563 | polling handlers run exactly at the existing blocks start + k * every, unfiltered ones at every existing block from their start |
| CallCache.CacheAgrees | chain/ethereum/src/buffered_call_cache.rs:53-145 | in every interleaving from an empty cache in which overlapping operations share a block, every entry and every response is the chain's answer, across block changes and failed writes |
| CallCache.CacheAgreesIff | chain/ethereum/src/buffered_call_cache.rs:53-145 | in every interleaving at all this holds throughout if and only if every step is safe |
| CallCache.RightForAllIff | chain/ethereum/src/buffered_call_cache.rs:53-145 | a schedule is right whatever the chain answers if and only if everything is looked up, inserted and set while the operation's own block is recorded |
| CallCache.StepKeepsTruth | chain/ethereum/src/buffered_call_cache.rs:34-48 | each lock section keeps this, if it accesses the buffer while its own block is recorded |
| CallCache.StepSafeIff | chain/ethereum/src/buffered_call_cache.rs:42-75 | a lookup, an insert or a set keeps everything right if and only if what it moves has the same answer at the operation's block and at the recorded block |
| CallCache.OverlapBreaks | chain/ethereum/src/buffered_call_cache.rs:115-132 | overlapping operations for blocks with different answers can produce a wrong response |
| CacheService.EveryKeyServed | chain/ethereum/src/buffered_call_cache.rs:53-106 | in every interleaving a get that has ended has answered each of its keys, unless the persistent cache failed or did not have the key |
| CacheService.NothingUnasked | chain/ethereum/src/buffered_call_cache.rs:53-106 | in every interleaving from an empty cache each response is to a key that a get asked for, at its block |
| CacheService.AskExact | chain/ethereum/src/buffered_call_cache.rs:95-104 | the persistent cache contributes exactly the missing keys it returns a row for, with the stored values |
| CacheService.StoredExactly | chain/ethereum/src/buffered_call_cache.rs:115-145 | over every run the persistent cache keeps what it has and gains exactly what background writes that succeeded put there |
| CacheService.EndsInTime | chain/ethereum/src/buffered_call_cache.rs:53-145 | in every interleaving an operation takes a lookup per key, one request and one insert, or an insert and a write, no more, and has then ended |
| CacheService.BufferKept | chain/ethereum/src/buffered_call_cache.rs:34-48 | as long as every operation that begins is for the recorded block, nothing leaves the buffer |
| CacheService.BufferAfter | chain/ethereum/src/buffered_call_cache.rs:34-48 | after each lock section the buffer is empty if another block was recorded, and otherwise has what it had and what was inserted |
| ContractCalls.BufferedCallCache.CheckBlock | chain/ethereum/src/buffered_call_cache.rs:34-40 | a different block empties the buffer, the same block leaves it |
| ContractCalls.HitsSplit | chain/ethereum/src/buffered_call_cache.rs:78-106 | what the buffer answers and what it does not partition the requests |
| ContractCalls.BufferedCallCache.GetCalls | chain/ethereum/src/buffered_call_cache.rs:78-106 | what the buffer holds for the block is answered from it in order, then one row per stored key of the rest; responses and missing requests partition the requests, every response is the chain's answer, and exactly the keys answered are buffered in addition |
| ContractCalls.BufferedCallCache.SetCall | chain/ethereum/src/buffered_call_cache.rs:115-145 | the value is buffered at its block, with what else is buffered for that block and nothing more |
| ContractCalls.StoreGetCalls | store/postgres/src/chain_store.rs:3667-3711 | each stored key that is requested is answered exactly once, with the stored value and for its first request; everything else is missing, also when requests repeat |
| ContractCalls.SortedSame | chain/ethereum/src/ethereum_adapter.rs:1637-1638 | sorting is unique, so sorted indices of all calls are the identity |
| ContractCalls.ContractCallBatch | chain/ethereum/src/ethereum_adapter.rs:1597-1651 | one result per call, result i from the chain's answer to call i, whatever the caches held; it succeeds if each call is buffered for the block or the node answers it |
| Ingestor.ChainStore.AttemptChainHeadUpdate | store/postgres/src/chain_store.rs:2649-2699 | the preferred block above the head becomes the head, with every ancestor up to genesis stored that is numbered at least zero and at least the head's number minus the ancestor count; or the first block missing on the walk to those is returned and the head stays |
| Ingestor.NothingMissing | store/postgres/src/chain_store.rs:1056-1103 | nothing missing means every ancestor in range up to genesis is stored |
| Ingestor.MissingAfterStore | chain/ethereum/src/ingestor.rs:153-165 | storing the missing block moves the next missing one strictly below it |
| Ingestor.MissingInWalk | store/postgres/src/chain_store.rs:1056-1103 | a block is missing exactly if not everything the walk looks at is stored, and it is one of those |
| Ingestor.MissingExact | store/postgres/src/chain_store.rs:1056-1103 | the answer is the first ancestor that is not stored, up to genesis and up to the first that is at zero or at the candidate's number minus the ancestor count, or nothing exactly if all of these are stored |
| Ingestor.NeededExact | store/postgres/src/chain_store.rs:1056-1103 | exactly these ancestors are what a candidate needs |
| Ingestor.PollingBlockIngestor.IngestBlock | chain/ethereum/src/ingestor.rs:172-208 | the block is stored and the head updated; or it fails before and nothing changes, or after and the block stays stored |
| Ingestor.PollingBlockIngestor.FetchMissing | chain/ethereum/src/ingestor.rs:166-168 | the loop ends within the larger of one and the ancestor count of iterations; after success exactly what the candidate needs is added, and it is the head |
| Ingestor.PollingBlockIngestor.DoPoll | chain/ethereum/src/ingestor.rs:74-170 | loop bound; exactly the latest block and what the candidate needs is stored; the head never goes back and stays stored together with every ancestor up to genesis numbered at least zero and at least its number minus the ancestor count; after success no stored block is higher, and a new head has the least hash of its number; stale polls change nothing; when the latest block becomes the head, and when its ancestry is complete, case by case |
| Ingestor.PollingBlockIngestor.Run | chain/ethereum/src/ingestor.rs:326-355 | over every sequence of polls the head number never decreases, and the head stays stored with its ancestors in range |
| Ingestor.ZeroAncestorsStillFetch | chain/ethereum/src/ingestor.rs:153-165 | with an ancestor count of zero a missing parent is still fetched |
| Ingestor.PollSibling | chain/ethereum/src/ingestor.rs:95-112 | polling any sibling of a stored head stores it, succeeds, and leaves its missing parent missing |
| Ingestor.SiblingPolled | chain/ethereum/src/ingestor.rs:74-170 | such a pair of polls on an empty store |
| Ingestor.PollBelowCandidate | chain/ethereum/src/ingestor.rs:140-168 | polling below a stored candidate completes the candidate and leaves the latest block's missing parent missing |
| Ingestor.AnotherCandidateWins | chain/ethereum/src/ingestor.rs:74-170 | three polls on an empty store, one interrupted, that end like this |
| QueryReorg.CheckIsSound | graphql/src/runner.rs:65-89 | if the check passes and reverts are no wider than the deepest reorg, nothing queried was replaced at any time in the run |
| QueryReorg.SoundIffNoGaps | graphql/src/runner.rs:76-86 | this holds for all runs if and only if a revert never skips a block number |
| QueryReorg.CountersExact | store/postgres/src/deployment.rs:538-640 | over every run the reorg count is the number of reverts, the current depth the length of the streak of reverts under way, and the greatest depth that of the longest streak |
| QueryReorg.HeadExact | store/postgres/src/deployment.rs:538-640 | over every run the head is where the last step went |
| QueryReorg.DataExact | store/postgres/src/deployment.rs:538-640 | over every run a query sees at each number the last block written there that was not reverted |
| QueryReorg.OneRevert | graphql/src/runner.rs:76-86 | after one reverted block exactly the reads within the deepest reorg ever are rejected, although all reads below the reverted block are stable |
| QueryReorg.Execute | graphql/src/runner.rs:160-216 | the query succeeds exactly if changes are allowed, there was no revert, or every queried block is at least the greatest depth times the number of reverts below the head; then all its reads were stable over the whole run |
| SubgraphProvider.StepKeepsKinds | core/src/subgraph_provider.rs:312-332 | whatever is added, taken or recorded in between, a recorded kind is that of the locator's own manifest |
| SubgraphProvider.StepKeepsBalance | core/src/subgraph_provider.rs:129-210 | every step of a start, stop or task conserves the gauge's account |
| SubgraphProvider.GaugeConserved | core/src/subgraph_provider.rs:129-210 | in every interleaving the gauge is assignments plus pending requests plus overwritten assignments, kinds are the locator's own, and at rest the gauge is the number of assignments if and only if none was overwritten |
| SubgraphProvider.SerialisedRuns | core/src/subgraph_provider.rs:129-210 | with serialised requests no assignment is overwritten and the gauge at rest is the number of assignments |
| SubgraphProvider.StepDecided | core/src/subgraph_provider.rs:96-210 | exactly which steps put a subgraph out of reach of stop requests, and which bring it back |
| SubgraphProvider.StopsReach | core/src/subgraph_provider.rs:96-210 | in every interleaving, at rest a subgraph that runs or is bound to is assigned with its kind if and only if it did not escape for good |
| StartTasks.EachTaskMoves | core/src/subgraph_provider.rs:96-210 | each task handle goes through its phases on its own: a step moves exactly the task it concerns, and only a waiting task can fail or be aborted |
| StartTasks.PhasesAdvance | core/src/subgraph_provider.rs:96-176 | over every run the phases of a task only advance |
| StartTasks.AbortedForGood | core/src/subgraph_provider.rs:178-210 | in every run a stop that finds the task of the assignment it took still waiting ends it, and that task never starts or launches anything afterwards |
| StartTasks.StoppedStaysDown | core/src/subgraph_provider.rs:178-210 | if that task was all there was of the deployment, then until its next start it never runs or is bound to, in whatever order other steps follow |
| SubgraphProvider.ConcurrentStartsLeak | core/src/subgraph_provider.rs:135-176 | two concurrent starts leave the gauge one too high at rest |
| SubgraphProvider.UntimelyTaskLeaks | core/src/subgraph_provider.rs:142-176 | serialised requests whose task records its kind before the assignment is added end with an unassigned running subgraph |
| SubgraphProvider.RacingStopLeaks | core/src/subgraph_provider.rs:115-122 | so do a start and a stop that aborts the task after it has recorded the kind |
| SubgraphProvider.LateLaunchLeaks | core/src/subgraph/instance_manager.rs:129-163 | and a stop that is forwarded before the trigger manager has launched the subgraph |
| Ancestry.WalkBackAncestor | chain/ethereum/src/chain.rs:385-412 | the child of the nearest root within offset steps, else the offset-th ancestor, else nothing or an error by the lookup that ended the walk |
| Config.ValidateAmpNames | node/src/config.rs:581-613 | accepted exactly if effective AMP names are distinct and none is another chain's name |
| Config.AmpChainNames | node/src/config.rs:134-147 | the AMP map has one entry per chain and loses none |
| Config.ResolvesToChain | graph/src/components/network_provider/mod.rs:42-46 | after validation a chain's AMP name and its own name both resolve to the chain |
| Config.ValidateRules | node/src/config.rs:1294-1315 | accepted exactly if all rules are valid and exactly the last is a default rule |
| Config.Place | node/src/config.rs:1322-1346 | the placement of the first matching rule, and none exactly if no rule matches |
| Config.PlaceValidated | node/src/config.rs:1322-1346 | validated rules place every deployment whose name the any-name pattern matches, and never report an invalid rule |

## Left out

- RPC transport, retries, timeouts, batching of requests in flight, metrics and logging: foreign I/O, kept only as a node that answers, rejects or fails.
- Firehose filters and the protobuf codecs: field-by-field conversion.
- Receipt payloads, the API version gate, transaction lookup and declared calls in `match_and_decode`: they add errors that depend on the trigger alone, so both paths have them alike.
- Missing receipts of call transactions: both paths fail on them; the model knows the status of every transaction.
- `extend_triggers`, which sorts again without deduplicating, and the merging with subgraph triggers.
- `end_block` of data sources, subgraph data sources and off-chain data sources.
- `fetch_unique_blocks_from_cache` and `load_blocks`: a cache lookup and a sort, easy beside the rest.
- `resolve_provider` and `on_poll_failure`: the choice of a provider, with no effect on the store.
- Cleaning of cached blocks and the caches inside the chain store.
- Machine integers: block arithmetic does not overflow here.
- Config.PlaceValidated: says nothing about names that `.*` does not match in full, such as names with a line break, and configurations made from command line options have no rules and are not validated.
- Dispatch.PathsAgree: compares handler runs as sets, because sequences do not always agree; `TriggerPaths.PathRunsAgreeIff` and `TriggerPaths.OfferedRunsAgreeIff` are about sequences.
- Dispatch.RunsAlone: compares handler runs as sets, for the same reason; `TriggerPaths.AloneRunsAgreeIff` is about sequences.
- BlockSchedule.RunsOverScans: lists the blocks in which a handler runs; how often it runs in a block is `BlockSchedule.TimesRunExact` and `BlockSchedule.TimesRunParsed`.
- The lock inside `SubgraphAssignments`: the map is part of the protocol's state, and its critical sections are the steps that read or change it.
