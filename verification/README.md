# Terra indexer worker: a verified model

The worker answers a `GetTransactions` task by fetching a range of block heights from a node and streaming one `Block`
message per height and one `Transaction` message per transaction. This project models the two parts of it that are
hardest to get right and proves what they promise.

**The range pipeline** (`client/client.go`, `api/block.go`, the channel workers of `api/transaction.go`). A task is an
interleaving transition system (`Machine.dfy`): the main goroutine, one fetcher per request of 20 heights, five page
workers, the converter and the sender. Channels are bounded sequences with a closed flag and the code's capacities
(2, 10, 20, 201, 2). Sending on a closed channel or closing one twice sets `panicked` ("Send statements" and "Close" in
the Go specification); receiving from a closed, drained channel yields the zero value ("Receive operator"). Map
iteration may yield the keys in any order, the sender's select may take either ready case, and any request may fail. On
top of it:

- `Ranges` – the paging loops in wrapping uint64 arithmetic, and exactly when their requests tile the range;
- `Residues` – exactly when a paging loop leaves at all, by residues modulo the divisor its step shares with 2^64;
- `Blocks`, `Confluence` – the locked `BlocksMap`, its decode loop, and exactly when the concurrent merges of whole
  answers are confluent;
- `Pages` – `Ceil(float64(n)/100)` in binary64, how far it can be trusted, and the cover of a block's transactions;
- `Control` – inductive invariants: close discipline, lock, verdict on the replies, capacities, freeze before read;
- `Progress`, `Termination` – an enabled step in every unfinished state, a lexicographic rank that every step lowers,
  and from both: the run that any schedule chooses for an uncancelled task ends;
- `Stream` – `sendResp`: numbering, FIFO order, `END`, and how many final messages, on cancelled and failed runs too;
- `Flow` – conservation of items in every interleaving, and all-or-nothing per chunk;
- `Merging`, `Delivery` – the block map of every chunk, and end-to-end exactly-once delivery, with lemmas that nodes
  and schedules as assumed exist (`EveryChainServed`, for chains with a tip; `SomeSchedule`);
- `Endings` – exactly when a cancelled task may hang, and runs that fail in any given chunk.

**Log and amount decoding** (`api/types/types.go`, `api/mapper/bank.go`, `api/delegations.go`, `api/transaction.go`).

- `Attributes` – the bucketing loop over key/value entries;
- `Digits`, `Strings`, `Coins`, `Decimals` – decimal numerals, `strings.Split`, the currency regex, the two decimal
  readers;
- `Transfers` – `produceTransfers`, exactly when it panics, and the round trip from printed transfers back to transfers;
- `SubEvents` – `findLog` and the recursive `getSubEvent`, with its decoding of a tree of messages said path by path;
- `Events` – `eventFromLogs` and `appendEvents`.

Loops and objects that the program changes in place are methods and classes here, each proved against a specification
function; the properties are then proved about that function. `dafny verify dfyconfig.toml` checks the project.

Where a property does not hold of the code, the model keeps the code and proves exactly when it holds:

- the nested paging loops overrun near the end of uint64 (`Ranges.TwoLevelCover`), and a loop may never leave, as with
  `bigPage` 0 (`Residues.StopsIff`, `Ranges.ZeroPageNeverStops`);
- the floating-point page count is first wrong at 2^53 + 9 transactions, one page short (`Pages.PageCountThreshold`);
- concurrent merges of answers depend on their order when two answers end with different blocks of one height, or when
  a height 0, taken for "unset", makes them start differently (`Confluence.MergesCommute`); blocks that were replaced
  stay counted (`Blocks.CountIsOfMap`);
- a block whose count of transactions is too low loses transactions silently, when its pages end before them
  (`Delivery.HeightDeliveredIff`);
- a cancelled task may hang, because nobody who must send on `out` watches the context: it can do so, on a run in which
  no request is answered after the cancellation, exactly when its blocks and transactions are more than the 201 that
  `out` holds (`Endings.HangsIffLarge`);
- a failed task gets two final messages, main's error and the sender's `END`; any other task gets one
  (`Stream.FinalMessages`);
- a denomination of two or more characters that starts with `.`, `,` or `-` is not read back (`Coins.CoinRoundTrip`);
- `gettIntAndExp` drops the sign of the fraction: "-1.5" is read as -5 * 10^-1 (`Decimals.IntAndExpExact`,
  `Decimals.NegativeFractionMisread`). Its comment promises the number as written;
- the guard `len(attr.Amount) < i` lets `i == len(attr.Amount)` through, which then panics (`Transfers.EventCrashes`,
  `Transfers.LogCrashes`);
- `findLog` gives up when there are no more logs than the index, although a later scan could find the log
  (`SubEvents.LookupIsScan`);
- a nested message that fails ends an authorised execution silently (`SubEvents.ExecNeverFails`);
- storing transfers under a new type drops the transfers of every other type (`Transfers.ProduceTransfers`).

## Model

| member | source | states |
|---|---|---|
| Ranges.Turn | client/client.go:182-189 | one turn's bounds, every uint64 operation wrapped separately, are the piece computed with one wrap and clamped to the end of the range |
| Ranges.Cut | client/client.go:180-203 | the loop produces exactly its pieces in order, up to and including the first whose end is the end of the range, and ends if there is such a piece |
| Ranges.PlanRequests | client/client.go:546-565 | the nested loops start exactly the requests of all chunks, in order |
| Ranges.TilesIffReaches | client/client.go:180-203 | one loop leaves and tiles its range if and only if its exit test, evaluated in uint64 in the last turn, is met |
| Ranges.TwoLevelCover | client/client.go:180-203 | both loops leave and their requests are adjacent, ascending, non-empty and exactly cover the range, if and only if both exit tests are met in the last turn |
| Ranges.FarFromTheEnd | client/client.go:180-203 | `bigPage` at least 1 and ends below 2^64 by `bigPage` and 20 are enough for that |
| Ranges.OverrunInverts | client/client.go:546-565 | a loop that overruns and still leaves has started a request with its start above its end |
| Ranges.PieceSpan | client/client.go:546-558 | no piece spans more heights than the step, whatever wraps |
| Ranges.ZeroPageNeverStops | client/client.go:180-203 | with `bigPage` zero the paging loop never leaves |
| Residues.StopsIff | client/client.go:180-203 | any paging loop leaves if and only if the largest uint64 congruent to the height before the range, modulo the greatest common divisor of its step and 2^64, is not below the end of the range |
| Blocks.BlocksMap.Decode | api/block.go:95-173 | an answer that carries blocks, with heights and the version's own counter as printed numbers and anything in the other version's counter, is those blocks merged in order; a body that cannot be decoded or has an error message fails and leaves the map alone |
| Blocks.AnswerDecodes | api/block.go:109-121 | every list of blocks, carried by metas of either version, is decoded to itself |
| Blocks.MetaDecodes | api/block.go:150-161 | any meta is decoded to a block exactly if hash, chain and time are its own and height and the version's counter are what their strings stand for |
| Confluence.MergesCommute | api/block.go:107-130 | every order in which whole answers are merged gives the same map, count and bounds if and only if answers that share a height end with the same block of it and there is a start height that all fit: one with a height 0 leaves it whatever came before, one without has no lower height |
| Confluence.PositiveMergesCommute | api/block.go:107-130 | without a height 0 only the first condition remains |
| Confluence.ZeroMergesCommute | api/block.go:123-128 | with one, the start all must fit is the least height after the last 0 of any answer that has a 0, 0 if there is none |
| Confluence.BlockOrdersCommute | api/block.go:107-130 | every order of the single blocks gives the same summary if and only if blocks of the same height are the same block and the heights are all positive or all zero |
| Confluence.DistinctMerged | api/block.go:107-130 | blocks of distinct positive heights, in any order: the map holds exactly them, the bounds are its least and greatest height, the count is the sum over the map (mod 2^64) |
| Confluence.MergedSummary | api/block.go:107-130 | under the condition for single blocks the map holds exactly the blocks, the count is their sum (mod 2^64), and the bounds are the least and greatest height |
| Blocks.CountIsOfMap | api/block.go:122-129 | for any merges, the count is the sum over the map (mod 2^64) if and only if the blocks that later ones of their height replaced had none (mod 2^64) |
| Blocks.MergeBounded | api/block.go:123-128 | for positive heights, repeated or not, the bounds are the least and greatest key |
| Blocks.RemergeCountsAgain | api/block.go:122-129 | merging a present block again adds its transactions again, and changes nothing exactly when it has none |
| Confluence.HeightZeroOrderMatters | api/block.go:123-128 | among any blocks, one of height 0 merged last makes the start 0, one of positive height merged last keeps it positive |
| Digits.ParseUintShow | api/block.go:111-112 | every uint64 printed in decimal is parsed back |
| Digits.ParseUintExact | api/block.go:111-112 | any string parses to its number, to the largest uint64 once the digits it starts with exceed that, and otherwise to 0 |
| Pages.NearestIsNearest | client/client.go:606 | the rounding used is to the nearest integer, the even one of two |
| Pages.PageCountExact | client/client.go:605-613 | up to 2^53 + 8 transactions the floating-point page count is the integer ceiling of n/100 |
| Pages.PageCountShort | client/client.go:606 | for 2^53 + 9 it is one page short |
| Pages.PageCountThreshold | client/client.go:606 | the largest limit below which it is always right is exactly 2^53 + 8 |
| Pages.PagesReach | client/client.go:605-613 | the pages computed from any count are the whole transaction list, one after the other, if and only if they reach its end |
| Pages.PagesCover | client/client.go:605-613 | those computed from its own length are, up to 2^53 + 8 transactions |
| Control.CloseDiscipline | client/client.go:542-622 | in every reachable state, whatever step comes next, nobody sends on a closed channel or closes one twice |
| Control.ControlKept | client/client.go:539-623 | every step of every goroutine keeps the control invariants, including channel capacities and at most one reply per fetcher |
| Control.LastReply | client/client.go:567-577 | when the collecting loop takes its last reply every fetcher has replied and the channel held just that one |
| Control.CollectReplies | client/client.go:567-585 | the loop takes one reply for each fetcher and no more, and fails exactly if one of those is an error |
| Control.FrozenWhileRead | client/client.go:587-599 | while a pipeline runs all fetchers have replied, the lock is free, and no step changes the block map |
| Control.OneMergerAtATime | api/block.go:107-108 | two fetchers never merge at the same time |
| Progress.DeadlockFree | client/client.go:173-216 | in every reachable unfinished state some goroutine can move, unless the task was cancelled, its sender is gone, `out` is full and main or the converter must send on it |
| Progress.StateMoves | client/client.go:587-622 | which goroutine can move, found from the state |
| Termination.RankDrops | client/client.go:173-216 | every step of the task's own goroutines lowers a lexicographic rank of chunks, phase, turns, pages, fetches, items under way and items to send |
| Termination.TaskFinishes | client/client.go:173-216 | when the paging loops leave, the run that any schedule chooses, step by step, for an uncancelled task ends with main, fetchers, workers, converter and sender ended |
| Stream.SendResp | client/client.go:220-279 | what was received is sent in order with numbers from 0 (mod 2^64), then END with the next number; `fin` is signalled only when the context was not done, and closed |
| Stream.SenderNumbering | client/client.go:220-279 | on every run the sent data are a prefix of what was enqueued, numbered in FIFO order, and END has the next number |
| Stream.GoodEnd | client/client.go:205-216 | an uncancelled task that ends well has sent all of `out`, numbered, then END, and nothing else |
| Stream.FailedEnd | client/client.go:190-198 | a failed task's stream holds main's error once and still the sender's numbered data with END |
| Stream.FinalMessages | client/client.go:190-279 | a task that has ended, cancelled or not, has sent exactly one final message if and only if main ended well, and two otherwise |
| Flow.Conservation | api/transaction.go:485-500 | in every interleaving, items enqueued + under way + lost with failed pages + not yet issued = what the started pipelines stand for |
| Flow.FlowKept | api/transaction.go:166-189 | no step of the workers, the converter or any other goroutine loses or duplicates an item under way |
| Flow.TakeHeight | client/client.go:599-615 | the order of the map iteration does not matter to what is issued |
| Flow.AllOrNothing | client/client.go:579-585 | between pipelines, what was ever enqueued is exactly the output of the completed chunks, less failed pages |
| Merging.MergeKept | api/block.go:79-91 | every step keeps: each fetcher's request is answered into the map as far as that fetcher has got, and the map holds nothing else |
| Merging.FrozenMap | client/client.go:567-585 | when all replies are good the map is exactly the blocks of the chunk's heights |
| Delivery.HeightDeliveredIff | client/client.go:599-615 | a height's block and transactions are all delivered if and only if the pages its block's count asks for reach its last transaction |
| Delivery.RightCountGood | client/client.go:605-613 | a right count asks for pages enough, up to 2^53 + 8 transactions |
| Delivery.ChunkDelivered | client/client.go:599-615 | a chunk's pipeline stands for each of its heights' blocks and transactions, each with the hash and time of the block at its own height |
| Delivery.ChunksDelivered | client/client.go:178-203 | the chunks together stand for the range up to the last of them |
| Delivery.EverythingEnqueued | client/client.go:178-206 | once `out` is closed, cancelled or not, the enqueued items with those of failed pages are exactly the range's blocks and transactions, each once |
| Delivery.ExactlyOnce | client/client.go:173-216 | when an uncancelled task ends well, the stream is those items numbered, then END |
| Delivery.FailedChunkLeavesPrefix | client/client.go:190-198 | a block fetch that fails in chunk j leaves exactly the items of the chunks before j |
| Delivery.TaskDelivers | client/client.go:145-217 | total correctness: with every request answered and no cancellation, the run that any schedule chooses, step by step, ends with exactly the range's blocks and transactions in the stream, numbered, then END |
| Delivery.EveryChainServed | client/client.go:145-217 | the node assumed exists: one that serves any chain up to its tip makes a good task of every range below the tip and away from the end of uint64 |
| Endings.HangsIffLarge | client/client.go:173-216 | some run that is cancelled, and has no request answered since, reaches a state in which nobody can move and the task has not ended, if and only if the task's blocks and transactions are more than `out` holds |
| Endings.SmallTaskEnds | client/client.go:173-216 | a task no larger than that ends on every schedule from wherever it is, cancelled or not |
| Endings.FailsInAnyChunk | client/client.go:190-198 | each chunk of a task is the one in which some uncancelled run fails, with all goroutines ended and both final messages sent |
| Attributes.TxEventsAttributes.Set | api/types/types.go:209-245 | one entry changes exactly the field of its key |
| Attributes.TxEventsAttributes.UnmarshalJSON | api/types/types.go:193-254 | success exactly for a well-formed array; the fields hold the entries before the first malformed one, missing parts taken from the entry before |
| Attributes.ResolvesToLatest | api/types/types.go:195-209 | the loop sees, of each entry before the first malformed one, the last key and the last value given at or before it, empty if none was |
| Attributes.CompleteEntries | api/types/types.go:194-209 | entries with both key and value are bucketed as they are, nothing carried over from the entry before |
| Attributes.BucketPartitions | api/types/types.go:203-246 | every list is the old list and then its key's values in order, every scalar its key's last value, every map key present only for a value given |
| Attributes.NothingLost | api/types/types.go:203-246 | the lengths of all lists plus the entries of the three scalar keys add up to the entries read |
| Coins.LeftmostLongest | api/mapper/bank.go:169-173 | the match found is the regex's leftmost with the longest number group, and none is found exactly when nothing matches |
| Coins.AmountRoundTrip | api/mapper/bank.go:112-130 | any number that can be read, followed by a denomination, is read as that number with its exponent and that denomination, the text kept, if and only if the denomination is clean |
| Coins.CoinRoundTrip | api/mapper/bank.go:112-130 | a printed coin is read back with number and denomination if and only if its denomination is clean |
| Coins.CoinsRoundTrip | api/mapper/bank.go:109-133 | a printed coin list is read back if and only if it is not empty and every denomination is clean and free of commas |
| Coins.ReadPartsEach | api/mapper/bank.go:109-133 | a list is read as given amounts exactly when every part is read as the amount beside it |
| Coins.ReadPartsFails | api/mapper/bank.go:109-126 | a list fails with a part exactly if that is the first part no number is read from |
| Coins.GetCoinFails | api/mapper/bank.go:153-167 | no number is read exactly from a string with two or more points and commas |
| Digits.ValueConcat | api/mapper/bank.go:161-164 | reading a concatenation of digits shifts the left part by the length of the right |
| Decimals.GetCoinExact | api/mapper/bank.go:153-167 | every well-formed decimal, of either sign, is read as the written value |
| Decimals.DecimalCoinRoundTrip | api/mapper/bank.go:118-130 | a well-formed decimal and a denomination are read as the written value with its exponent, and that denomination, if and only if the denomination is clean |
| Decimals.IntAndExpAccepts | api/delegations.go:123-146 | a string is accepted exactly if it is a signed integer or two with a point between |
| Decimals.IntAndExpExact | api/delegations.go:123-155 | a well-formed decimal is read as the written value if and only if it is not negative or its fraction is zero |
| Decimals.ReadersAgree | api/delegations.go:123-155 | the two readers give the same number if and only if the decimal is not negative or its fraction is zero |
| Decimals.NegativeFractionMisread | api/delegations.go:151-154 | "-1.5" is read as -5 with one decimal place by one reader and -15 by the other |
| Transfers.ReadList | api/mapper/bank.go:109-133 | the innermost loop reads every part in order, or stops at the first it cannot read |
| Transfers.ReadRecipients | api/mapper/bank.go:103-138 | the loop over the recipients gives the transfers of those not skipped, or its first failure |
| Transfers.ProduceTransfers | api/mapper/bank.go:94-151 | the transfers of all events in order, or the first failure; if all were read and there is one they are stored under the type, the other types staying if the type was present and dropped if not, else the event is unchanged; from printed transfers that all survive exactly these are stored |
| Transfers.EventTransfers | api/mapper/bank.go:103-138 | the transfers read of one event are those of the recipients not skipped that have an amount, in order, none missed, each with the amounts at its own place |
| Transfers.LogTransfers | api/mapper/bank.go:97-139 | those of a log are those of its events one after the other |
| Transfers.EventUnread | api/mapper/bank.go:103-126 | one event fails with a part exactly if that is the part unread of the first amount that fails, all recipients before being skipped or read |
| Transfers.LogUnread | api/mapper/bank.go:97-126 | a whole log fails with a part exactly if some event does and the transfers of all events before it are read |
| Transfers.EventCrashes | api/mapper/bank.go:103-109 | an event panics if and only if it has no attributes, or the first recipient without an amount is not skipped and each one before it is skipped or has a readable amount |
| Transfers.EventProduces | api/mapper/bank.go:99-138 | an event's transfers are all read if and only if it has attributes and each recipient, up to the first without an amount, is skipped or has a readable amount |
| Transfers.LogCrashes | api/mapper/bank.go:94-151 | a whole log panics if and only if some event does and the transfers of all events before it are read |
| Transfers.NoCrash | api/mapper/bank.go:103-109 | with attributes and an amount for every recipient there is no panic |
| Transfers.EventRoundTrip | api/mapper/bank.go:94-151 | one printed transfer event is recovered if and only if each transfer is skipped or has a coin and clean denominations |
| Transfers.TransferRoundTrip | api/mapper/bank.go:94-151 | any transfers, printed as attributes of any number of events, bucketed, zipped, split and parsed, come back exactly, in order, less the skipped ones, if and only if the same holds of each |
| SubEvents.FindLog | api/transaction.go:616-629 | the method computes the positional guess, then the scan, then the zero log |
| SubEvents.LookupFinds | api/transaction.go:616-629 | whatever indices repeat: the zero log if there are too few logs, else the log at that position if it has the index, else the first that has it, else the zero log |
| SubEvents.LookupIsScan | api/transaction.go:616-629 | for distinct indices it is the first-match scan if and only if there are more logs than the index or no log has it |
| SubEvents.InOrderIsIndexing | api/transaction.go:616-629 | logs in message order are found by position |
| SubEvents.GetSubEvent | api/transaction.go:363-477 | the loop over nested messages computes the recursive decoding, at any depth |
| SubEvents.VerdictIs | api/transaction.go:363-477 | decoding fails for want of a handler exactly when route and type are none of the listed pairs, and succeeds exactly when the mapper does, an authorised execution always |
| SubEvents.DecodedAt | api/transaction.go:363-477 | at any depth, a message has an event at its place exactly when it and all messages before it on every level are accepted, and that event is its mapper's, given the log of the outermost call, or holds the grantee and the accepted prefix |
| SubEvents.NestedIsLongestPrefix | api/transaction.go:415-428 | nested events are the images, one for one, of the longest prefix of messages that all decode |
| SubEvents.ExecNeverFails | api/transaction.go:415-428 | an authorised execution decodes whatever its messages do, and holds the images of that prefix |
| Events.EventFromLogs | api/transaction.go:329-361 | a log's event has a sub-event for each of its events with attributes, in order |
| Events.SubsInOrder | api/transaction.go:335-357 | these are in order, none missed, each with the action, module, senders and recipients of its event and no more |
| Events.AppendEvents | api/transaction.go:261-327 | the transaction gains the decoded events, then the events of the logs they do not cover, then at most one error event |
| Events.AppendedInOrder | api/transaction.go:261-327 | what is appended, event by event: each decoding message in order, with its index, its type and its one image; then each log not covered, in order; then the error with its codespace and message, exactly if there is one; nothing else |
| Events.Coverage | api/transaction.go:261-327 | an index that decodes has exactly one event, any other as many as it has logs; with distinct indices exactly one for each index that decodes or is logged |
| Events.DecodedInOrder | api/transaction.go:263-287 | the decoded events are those of all decoding messages, in message order: the printed index, and the message's type with its one image if the image has a kind, else neither |
| Events.UncoveredInOrder | api/transaction.go:289-314 | the other events are those of all logs whose index did not decode, in log order |
| Events.LogEventShows | api/transaction.go:295-311 | a log's event has the printed index, no kind and the log's sub-events; the first of an unsuccessful log, made if there is none, has the log's message as error and is otherwise unchanged |
| Events.PresentSays | api/transaction.go:289-293 | the printed index tells decoded messages apart, because printing is injective |

## Left out

- HTTP requests, headers, rate limiting, metrics, logging, gRPC, configuration and `main`: a request either fails or answers with the node's data.
- What a fetcher receives is decoded blocks; `BlocksMap.Decode` models the decoding, the machine starts after it.
- A page answer is a page of the height's transactions; a node that repeats or reorders them between pages is not modelled.
- amino, base64, bech32 and the per-message mappers: a leaf mapper is any total function from message and log to an event and whether it failed; which of the mappers a handled pair is given to is not told apart, nor that some mappers do not look at the log.
- The conversion of a transaction is total in the machine; a panic inside it (`Transfers.EventCrashes`) would end the process and is not a step there.
- `encoding/json` internals: JSON is taken as already split into entries and records; message indices are natural numbers below 2^53.
- Transaction payloads are opaque to the machine: an item carries the raw transaction and the hash, time and chain taken from the block map. Fees, gas and memo only copy fields.
- A request asked for after a cancellation is refused by the rate limiter; the machine lets it fail or be answered, which adds runs. `Endings.HangsIffLarge` uses only runs without such answers.
- Errors of `stream.Send` are only logged by the code; the model's stream accepts every message. A send that never returns is not modelled.
- Goroutines are steps of a transition system rather than methods; the sequential loops they run are also methods where they compute something (`Ranges.Cut`, `Blocks.BlocksMap.Decode`, `Stream.SendResp`). One step merges one block under the lock.
- The reply counter of `getRangeSingular` is a natural number; its uint64 would need 2^64 goroutines to wrap.
- `Pages.PagesCover`: blocks of up to 2^53 + 8 transactions, because the code asks for too few pages for the next count; beyond it only the first wrong count is given.
- `Delivery.ExactlyOnce`: for a node that answers each request of the task with the blocks of exactly its heights, whose counts ask for pages enough (`Delivery.HeightDeliveredIff`); the items of failed pages are accounted for in `missing`, because the code logs the failure and goes on.
- `GetLatest`, the stream registration and dispatch loop, and the single-answer account handlers.
- The branch for `EndHeight == 0`: tasks start at height 1 or above with an end that is not below it.
- The fields `Withdraw`, `Commission` and `Denom` of the attributes: the loop never sets them.
- Strings are sequences of characters; lengths are counted in characters where the code counts bytes.
- A transfer type present with a nil list is not told apart from one present with a list: `produceTransfers` never stores a nil list.
