# LaminarDB Python bindings: a verified model

The bindings wrap a streaming database core in Python objects. The core itself is not part of this model: its subscriptions, query streams, sources and writers appear as objects whose coming answers are an arbitrary script, so that a statement about every script is a statement about every behaviour of the core. What is modelled is the state, the loops and the concurrency that the bindings put around the core.

Two forms are used side by side. Code that changes things step by step is a class or a method with loops, proved against a specification function. Code that several threads share is a state machine: a state, the steps the threads and the core can take, and `After`, the state after a run. A run is any sequence of steps, a step that is not enabled changes nothing, and the number of threads is a parameter. For each machine of the code two directions are proved: every run behaves as the code, and everything the code can do is some run, so that a machine that could do less would not pass. Steps are sequentially consistent and a call's time under its lock is one critical section made of several steps.

| file | contents |
|---|---|
| `Common.dfy`, `Arrow.dfy`, `QueryResults.dfy` | shared datatypes and sequence facts, record batches, the result object |
| `Frames.dfy` | frames, what one call makes of the core's answers, calls in sequence |
| `StreamSubscription.dfy`, `Deadline.dfy` | the loops of a named-stream subscription as code, and its deadline variant on an abstract clock |
| `SubscriptionMachine.dfy`, `SubscriptionRuns.dfy` | any number of threads sharing one named-stream subscription, and what its runs include |
| `Callback.dfy`, `CallbackMachine.dfy`, `CallbackRuns.dfy` | the callback thread as code, the same thread among others, and what its runs include |
| `Lease.dfy` | the shared-log charge that a batch and its copies hold |
| `Alignment.dfy`, `ArrowCasts.dfy` | fitting input batches to a source schema, and the same with the casts Arrow makes |
| `Json.dfy`, `JsonParser.dfy`, `JsonLines.dfy` | JSON text, what the library's parser keeps of it, and its conversion to one value per line |
| `Ingestion.dfy`, `IngestionMachine.dfy`, `IngestionRuns.dfy` | the insert loop and the streaming writer as code, concurrent inserts, flushes and closes, and what their runs include |
| `Execute.dfy`, `Results.dfy` | draining query streams, and reading results row by row |
| `Signals.dfy`, `Risk.dfy` | the sliding-window analytics of the two demos |

## Where the code and its promises differ

Each item names the lemma with the exact condition and a failing input.

- The documentation of `rows_affected` (src/execute.rs:34) promises 0 for a query. The code reports the rows of all drained batches (src/execute.rs:127-131); the model follows the code. The two agree exactly for queries whose batches are all empty (`Execute.ReportsZeroIff`, `Execute.OneRowQueryReportsOne`).
- Re-encoding a JSON array goes through the library's parser, which keeps one entry per key, keeps some numbers only approximately, and refuses deep nesting and numbers out of its range such as `1e400` or an integer of 400 digits. The elements reach the line reader unchanged exactly when none of this strikes (`JsonLines.JsonArrayRoundTripIff`); `JsonLines.RepeatedKeyIsLost`, `JsonLines.LongIntegerIsLostOnTheWay`, `JsonLines.OutOfRangeIsRefused`, `JsonLines.HugeIntegerIsRefusedOnTheWay` and `JsonLines.DeepNestingIsRefused` are the failing inputs.
- Alignment is idempotent for most schemas but not all. For the casts that Arrow makes the exact condition is `ArrowCasts.IdempotentInArrowIff`, with the failing batch in `ArrowCasts.SecondsBeforeNanoseconds`. `Alignment.IdempotentForEveryCastIff` is a different statement: what follows for every cast of which only length and type are known.
- The fallback for Python lists promises one JSON object per line (src/conversion.rs:239-240). It keeps that promise exactly when the list does not both begin and end with a list (`JsonLines.FallbackKeepsRecordsIff`), because the text is then taken for a JSON array: one list alone is refused or taken apart (`JsonLines.SingleListIsTakenApart`), several fail to parse (`JsonLines.ListsAtBothEndsFail`).
- `fetchall` goes through dictionaries, so its tuples are the rows exactly when no column name repeats or there are no rows (`Results.TuplesAreRowsIff`, `Results.RepeatedNameLosesAColumn`).
- `len(event)` counts the rows an event shows exactly when the result has a column or no rows (`Results.EventLengthIff`, `Results.ColumnlessEventMiscounts`).
- Buys and sells of the crossover demo need not alternate. They do exactly when no level stretch of the averages is left on the side it was entered from (`Signals.AlternatesIff`); thirty flat prices, a rise, a fall back to level averages and another rise give two buys in a row (`Signals.TieExampleDoesNotAlternate`).
- A zero price anywhere but at the end of a 200-price window fails the correlation, even where the 29 returns used do not reach it (`Risk.RiskEngine.CorrelationRows`, `Risk.ZeroOutsideTheRows`).
- After `cancel` of a callback subscription on a query the thread makes at most seven steps (`CallbackMachine.QueryLoopEndsInSevenSteps`). On a named stream the bound grows with the barriers the source still sends, and nothing else (`CallbackMachine.CancelEndsTheLoop`): a stream of barriers keeps `try_next` busy for as long as it lasts (`CallbackMachine.BarriersKeepTheThreadBusy`).
- `next_timeout` waits "for at most `timeout_ms`" (src/stream_subscription.rs:294). Once past its deadline it still takes every barrier that is ready, with no time to wait for it, so the reply may come later: by the deadline but for the time between those waits and the timer's own delay (`Deadlines.EndsByTheDeadlineButFor`), which nothing bounds. As long as barriers are ready the call takes them, however late, and only then ends with nothing to return (`Deadlines.ReadyBarriersOutlastTheDeadline`).
- `cancel` of a named-stream subscription needs the lock that a blocking `next` holds for as long as it waits, so it takes effect only after that call; the model has the same order of critical sections.

## Model

| member | source | states |
|---|---|---|
| Frames.ServeBatchOnly | src/stream_subscription.rs:140-177 | a batch-only call uses up a run of barriers and then exactly one more answer, which alone decides its reply: a result of exactly that frame's record batch, schema and lease, no data, or the core's error |
| Frames.ServeDelivers | src/stream_subscription.rs:131-177 | whichever call it is, the batches it hands out are the batches among the answers it used |
| Frames.ReplayDelivers | src/stream_subscription.rs:239-327 | however frame calls, batch-only calls and cancels are mixed, the results handed out are together exactly the batches among the answers consumed, in order |
| Frames.RowsHandedOutAreRowsConsumed | src/query.rs:279-289 | so the record batches handed out are, in order, exactly those of the batch frames consumed |
| Frames.BatchClientRefinesFrameClient | src/stream_subscription.rs:131-177 | a batch-only client and a framed client that consume the same answers see the same batches |
| Frames.FramedPollingReturnsEveryFrame | src/stream_subscription.rs:252-264 | polling frame by frame returns every frame in order with the core's own sequence: a batch with its rows, schema and lease, a barrier with its epoch, checkpoint and cut; and raises every error |
| StreamSubscriptions.NextBatch | src/stream_subscription.rs:140-177 | the loop replies as the specification `Serve` says, whose batches are those of the frames it took, leaves the unread answers in place, and asks the core at most once more than it has answers ready |
| StreamSubscriptions.StreamSubscription.constructor | src/stream_subscription.rs:369-375 | a new subscription owns the core subscription it was made from |
| StreamSubscriptions.StreamSubscription.NextFrame | src/stream_subscription.rs:239-281 | a frame call is one step of the sequential specification, and keeps the core in place |
| StreamSubscriptions.StreamSubscription.NextResult | src/stream_subscription.rs:284-316 | a batch-only call is one step of the sequential specification, and keeps the core in place |
| StreamSubscriptions.StreamSubscription.Cancel | src/stream_subscription.rs:318-327 | the core is cancelled once and forgotten; what it still held is neither read nor handed out |
| StreamSubscriptions.StreamSubscription.Perform | src/stream_subscription.rs:216-327 | any sequence of calls gets exactly the replies of the specification that the concurrent runs are held to |
| StreamSubscriptions.ReplayClosed | src/stream_subscription.rs:318-327 | after cancel the replies do not depend on the core: no data, whatever it would have answered |
| Deadlines.WaitUntil | src/stream_subscription.rs:195-197 | one pass reads the clock and waits for no more than what is left to the deadline |
| Deadlines.NextBatchTimeout | src/stream_subscription.rs:190-204 | the call makes exactly the waits of the specification against the deadline fixed at its start, and its reply is what the last answer calls for |
| Deadlines.BudgetsEndAtTheDeadline | src/stream_subscription.rs:194-197 | barriers never extend the deadline: every wait may last exactly to the original deadline, and is given no time once past it |
| Deadlines.WaitsFitInTheTimeout | src/stream_subscription.rs:190-204 | however many barriers arrive, the time spent inside the waits' budgets is at most the timeout |
| Deadlines.DeadlineIsKept | src/stream_subscription.rs:179-204 | with a punctual timer a timeout arises only at or after the deadline and with nothing but barriers consumed; the last wait of any other call ends by the deadline, or takes no time if it began past it. When that is, the three rows below say |
| Deadlines.LateWaitsTakeReadyBarriers | src/stream_subscription.rs:190-204 | past the deadline the call goes on only by taking barriers that are ready, each without waiting |
| Deadlines.EndsByTheDeadlineButFor | src/stream_subscription.rs:190-204 | with a punctual timer the call ends by the deadline (or by its start, if that is later), but for the time between the waits it makes past it and the delay of the timer |
| Deadlines.ReadyBarriersOutlastTheDeadline | src/stream_subscription.rs:190-204 | the failing inputs for "at most `timeout_ms`": whatever the deadline and whatever the gaps between barriers that are ready when asked for, a call with a punctual timer ends when all the gaps have passed, with nothing to return; so for every timeout and n there is one that ends n ticks late |
| Deadlines.DeadlineLoopServes | src/stream_subscription.rs:190-204 | the deadline loop gives the reply of the plain loop on the answers it received |
| SubscriptionMachine.MutualExclusion | src/stream_subscription.rs:239-327 | in every run a thread is inside a critical section exactly if it owns the lock |
| SubscriptionMachine.EveryFrameHasOneFate | src/stream_subscription.rs:140-327 | in every interleaving the frames consumed are a prefix of those emitted and each has exactly one fate: dropped, in flight to one caller, or delivered to one caller; a batch is never dropped |
| SubscriptionMachine.OnlyBarriersAreDropped | src/stream_subscription.rs:140-177 | what is dropped in any run is a barrier taken by a batch-only call |
| SubscriptionMachine.RepliesShowTheirFrames | src/stream_subscription.rs:239-316 | every delivered reply shows the consumed frame at its index, and is what the call does alone with the answers of its section |
| SubscriptionMachine.QuiescentBatchesDeliveredOnce | src/stream_subscription.rs:284-316 | once every call has returned, each batch frame consumed was returned to exactly one caller |
| SubscriptionMachine.LinearizedByTheLock | src/stream_subscription.rs:239-327 | linearizability: the replies of any interleaving are those of the same calls made one after another, in lock order, by one client |
| SubscriptionRuns.EveryHistoryHasARun | src/stream_subscription.rs:239-327 | the converse: every list of calls on every script of answers is the history of some run, one thread a call, with the replies of the sequential client, exactly the answers it uses up (and nothing once they are used up), and every reply delivered |
| SubscriptionRuns.AnyAnswerCanCome | src/stream_subscription.rs:140-177 | a thread with the lock whose call reads can always take the frame at the front of the queue, or be told that there is none or of an error, and then goes on or has the reply |
| SubscriptionRuns.EveryCallCanReturn | src/stream_subscription.rs:239-327 | no run is ever stuck: it has a continuation in which every call returns, without another frame |
| SubscriptionRuns.IterationEndsWhenInactive | src/stream_subscription.rs:497-516 | the asynchronous iterator asks for a batch if and only if it found the subscription there and active |
| SubscriptionMachine.ThreadsShareTheBatchStream | src/stream_subscription.rs:406-516 | the results of all threads together, in lock order, are exactly the batches among the core's answers |
| SubscriptionMachine.QuietConsumedIsSeen | src/stream_subscription.rs:406-516 | between sections the frames consumed are exactly those of the finished sections, a prefix of the frames emitted |
| SubscriptionMachine.NothingConsumedAfterCancel | src/stream_subscription.rs:473-482 | once cancelled, no run consumes another frame or cancels the core a second time |
| SubscriptionMachine.HonestAlways | src/stream_subscription.rs:239-327 | in every run each reply, finished or under way, is what its call does alone with the answers given in its section |
| SubscriptionMachine.HistoryAlways | src/stream_subscription.rs:239-327 | in every run the core's answers are those of the finished sections in lock order, then those of the section in progress |
| SubscriptionMachine.CancelAlways | src/stream_subscription.rs:318-327 | in every run the core is cancelled exactly when it has been taken, and a section finds it there exactly if no earlier one cancelled |
| Callbacks.StreamPollIsTryNext | src/callback.rs:34-54 | the callback's own barrier-skipping loop brings exactly what the public `try_next` would, for the same answers |
| Callbacks.SubscriptionKind.TryNext | src/callback.rs:34-54 | one poll brings what the specification says and leaves the later answers |
| Callbacks.RunWork | src/callback.rs:211-242 | one pass with the flag clear calls on_data and on_error as its observations dictate, and says whether to stop; which of the two handler events it is, the rows on handlers below say |
| Callbacks.RunPass | src/callback.rs:201-243 | one pass produces exactly its events, cancels the source exactly if it leaves by the cancelled exit, and never otherwise |
| Callbacks.CallbackThreadLoop | src/callback.rs:195-244 | the loop logs exactly the specified events and cancels the source once on every exit but the inactive one |
| Callbacks.ExitIsLogged | src/callback.rs:195-244 | the log ends with the cancel of the source exactly for the cancelled exit, and holds no other |
| CallbackMachine.OnDataReceivesAPrefix | src/callback.rs:211-226 | over every run on_data receives a prefix of the source's batches, each as its record batch, schema and, over a named stream, lease, in order and once each; at most one is taken and not handed over: in hand, or lost to a failed attach, which ends the loop |
| CallbackMachine.LoopStopsAtTheFirstUnhandledError | src/callback.rs:217-264 | in every ended run each failure is followed by an on_error that succeeded, or it is the last and only the cancel of the source follows: its on_error failed, or there is none, or the interpreter could not be attached. So without an on_error the first failure is the last |
| CallbackMachine.HandlersAlways | src/callback.rs:246-264 | over every run on_error is called only if there is one, and passed over only if there is none |
| CallbackMachine.HandlerDecides | src/callback.rs:246-264 | with an on_error it is called, with the outcome it has, and the loop goes on exactly if it succeeds; without one the loop stops |
| CallbackMachine.ExitsAreClean | src/callback.rs:173-244 | the source is cancelled exactly once on every exit but the inactive one and as the last event; the active flag goes false only after the loop has ended; the loop ends only for a stated reason |
| CallbackMachine.LittleHappensAfterCancel | src/callback.rs:107-109 | once the flag is set at most one more on_data call and one more on_error call begin, and the flag is read at most once more |
| CallbackMachine.CancelEndsTheLoop | src/callback.rs:201-243 | once the flag is set the thread makes at most as many steps as its distance to the end plus the barriers the source still sends, whatever the others do; batches, queued or new, do not count |
| CallbackMachine.QueryLoopEndsInSevenSteps | src/callback.rs:34-38 | over a query source, which has no barriers, the thread makes at most seven steps after the flag is set, whatever the source does |
| CallbackMachine.BarriersKeepTheThreadBusy | src/callback.rs:39-52 | over a named stream there is no bound: for every n, a run that makes n steps of the thread after the flag was set and leaves it polling |
| CallbackMachine.ThreadIsNeverStuck | src/callback.rs:201-243 | until it is done the thread always has a step to make |
| CallbackMachine.RunsFollowTheCode | src/callback.rs:195-244 | the machine and the code agree: the log of every ended run is the code's log for the same observations and answers, and the frames consumed are those in the answers |
| CallbackRuns.EveryLoopHasARun | src/callback.rs:195-244 | the converse: whatever the passes observe and however the source answers, some run logs what the code's loop logs and leaves the loop as the code does |
| Leases.InvAlways | src/query.rs:12-19 | in every run the core's count for a charge is the number of live objects that came from its frame |
| Leases.ChargeHeldWhileLive | src/query.rs:279-289 | every charge came with a batch frame that the run received, never with a barrier; it is held exactly while a result or frame that came from that frame is live; otherwise it has been released, exactly once |
| Leases.ReleaseIsFinal | src/query.rs:12-19 | a released charge is never held again |
| Leases.ReceivingHolds | src/query.rs:279-289 | a batch frame with a fresh charge becomes one live object showing its rows, which alone holds the charge |
| Leases.BarriersHoldNothing | src/stream_subscription.rs:114-127 | a barrier becomes a frame with the core's cut that holds no charge, and nothing at all for a batch-only call |
| Leases.CopyingRetains | src/stream_subscription.rs:47-51 | a copy of a live result, or of the result a live frame shows, shows the same rows and holds the charge once more |
| Leases.EveryChargeCanBeReleased | src/query.rs:12-19 | no charge is held for ever: every run has a continuation after which nothing is live and every charge it was given is released |
| Alignment.AlignedShape | src/conversion.rs:78-126 | a successful alignment keeps the rows, declares exactly the source schema and is a batch Arrow accepts, column for column the chosen inputs |
| Alignment.AlignmentPermutesColumns | src/conversion.rs:81-123 | with distinct declared names every input column is used exactly once: the index map is a permutation, and equal types are passed on untouched |
| Alignment.ColumnOrderDoesNotMatter | src/conversion.rs:89-99 | a batch with distinct names aligns to the same batch, or fails with the same error, in any column order |
| Alignment.AlignsIff | src/conversion.rs:81-125 | exactly which batches align: the right number of columns, at least one, and for each field the first column of its name has its type, or both are among Utf8, LargeUtf8 and Utf8View or timestamps of one zone and the cast succeeds, without nulls where they are not allowed; the aligned columns are those columns, as they are or as cast |
| Alignment.RefusedIff | src/conversion.rs:81-125 | exactly which error each other batch gives: the column count first, then the first field without a column (missing, not castable, or of a wrong type), then no columns at all, then the first field whose nulls are not allowed |
| Alignment.AlignIsIdempotent | src/conversion.rs:70-128 | aligning an aligned batch changes nothing if fields that share a name share a type |
| Alignment.IncompatibleNeverAligns | src/conversion.rs:89-119 | two same-named fields of incompatible types: no batch aligns, whatever the cast |
| Alignment.IdempotentForEveryCastIff | src/conversion.rs:70-128 | the length and type of a cast's result alone guarantee idempotence, over all such casts and batches, exactly for schemas in which same-named fields have one type, or for which nothing aligns |
| ArrowCasts.AsTwice | src/conversion.rs:103-111 | casting a column by way of another type is casting it directly, if both are strings or the timestamp went through a finer unit without overflowing |
| ArrowCasts.FinerCast | src/conversion.rs:103-104 | a timestamp in a finer unit is the same moment if that fits 64 bits, and null otherwise |
| ArrowCasts.CoarserCast | src/conversion.rs:103-104 | in a coarser unit it is the last whole tick toward the epoch |
| ArrowCasts.OthersStay | src/conversion.rs:103-104 | strings and nulls stay as they are |
| ArrowCasts.HarmlessIsIdempotent | src/conversion.rs:70-128 | with Arrow's casts, aligning an aligned batch changes nothing if each later field of a repeated name has the first one's type, or both are strings, or the first is a timestamp in a finer unit and some field of its type and name excludes nulls |
| ArrowCasts.CoarserFirstLoses | src/conversion.rs:89-111 | a timestamp name declared first in a coarser unit: one tick of the finer unit makes the second alignment differ |
| ArrowCasts.UnguardedFinerLoses | src/conversion.rs:89-111 | a timestamp name declared first in a finer unit that may be null: a value that overflows there makes the second alignment differ |
| ArrowCasts.IdempotentInArrowIff | src/conversion.rs:70-128 | the exact condition for the code: aligning twice is aligning once, for every batch, if and only if no later field of a repeated name is of those two kinds, or nothing aligns |
| ArrowCasts.SecondsBeforeNanoseconds | src/conversion.rs:89-111 | a failing input: one name as seconds and then nanoseconds, fed 1500000000 nanoseconds |
| Alignment.CompatibleIsEquivalence | src/conversion.rs:130-137 | "equal or representation-castable" is an equivalence of types, and its classes are the strings, the timestamps of one zone, and each other type alone |
| Alignment.RepresentationDoesNotMatter | src/conversion.rs:101-119 | schemas that differ only within those classes accept the same batches, when casts neither fail nor turn a value into null |
| ArrowCasts.OverflowIsRefused | src/conversion.rs:103-125 | that hypothesis on nulls is needed: seconds that overflow as nanoseconds are accepted as non-null seconds and refused as non-null nanoseconds |
| Alignment.AlignmentDistributes | src/conversion.rs:78-127 | aligning a concatenation of lists is aligning the parts, the first error winning |
| Alignment.OneBatch | src/conversion.rs:74-80 | a list of one batch aligns as that batch, with its error; without a schema it is passed on as it is |
| Alignment.AlignmentKeepsOrder | src/conversion.rs:78-127 | batch order, batch count and row counts are preserved |
| Json.CharRoundTrip | src/conversion.rs:245-272 | every character, astral ones included, is read back from its escape in either encoding |
| Json.StringRoundTrip | src/conversion.rs:245-272 | every string is read back from its escaped form, up to the closing quote and no further |
| Json.EncodeEnds | src/conversion.rs:264-272 | an encoded value never begins or ends with white space, and has brackets at its ends exactly if it is an array |
| Json.RoundTrip | src/conversion.rs:245-272 | every value, however nested, is read back exactly, as JSON text (RFC 8259), from either encoding at any place in a text |
| Json.ReadEncode | src/conversion.rs:245-272 | an encoded text is JSON for exactly the value that was written |
| Json.EscapeMeans | src/conversion.rs:245-272 | which characters each encoder leaves as they are, exactly, and that escapes are in lower-case hexadecimal |
| Json.EncodeExample | src/conversion.rs:245-272 | the text of an object of two keys in both styles, blanks after commas and colons in Python's only |
| Json.RefusedTexts | src/conversion.rs:266-267 | the reader refuses leading zeros, bare fractions, raw control characters, unknown escapes, open strings and trailing commas |
| JsonParser.ParseGivesBackIff | src/conversion.rs:266-268 | the library's parser gives an encoded value back if and only if it is not nested too deep, no object repeats a key, and the library keeps every number, which a number out of its range is not |
| JsonParser.StoredIffKept | src/conversion.rs:266-272 | storing a value changes nothing exactly if no object in it repeats a key and the library keeps all its numbers |
| JsonParser.StoredMembersMean | src/conversion.rs:266-268 | a parsed object has each key once, where it first appeared, with the last value given for it |
| JsonParser.ScalarsStored | src/conversion.rs:266-268 | a number is stored as the library keeps it; texts, truth values and null as they are |
| JsonParser.InRangeIff | src/conversion.rs:266-268 | a value is in range exactly if the library refuses none of the numbers in it, wherever they are |
| JsonParser.LongIntegerIsLost | src/conversion.rs:266-272 | an integer of more than twenty digits is not kept by a library that keeps integers of 64 bits only; `KnownLibraryExists` shows that there are such libraries |
| JsonParser.HugeIntegerIsRefused | src/conversion.rs:266-268 | an integer of more than 309 digits, of which `HugeIntegerExample` is one, is out of range for a library that refuses integers beyond the largest double, as the one of `KnownLibraryExists` does |
| JsonLines.EncodeOneLine | src/conversion.rs:269-274 | the text of a value never contains a raw line break, whatever its strings hold |
| JsonLines.SplitJoin | src/conversion.rs:270-274 | splitting joined lines gives the lines back |
| JsonLines.LinesRoundTrip | src/conversion.rs:269-274 | joined encodings split into one line per value, each holding that value |
| JsonLines.TrimPadded | src/conversion.rs:260-264 | trimming removes surrounding Unicode white space and nothing else |
| JsonLines.TrimMeans | src/conversion.rs:260-261 | any text is its trimmed text with white space before and after, and no white space is left at the ends of that |
| JsonLines.JsonStrToReaderInput | src/conversion.rs:259-281 | the loop hands the line reader the specified text, or the parse error |
| JsonLines.ArrayBecomesLines | src/conversion.rs:264-275 | whatever the parser, an array it finds reaches the reader as one element per line in order, an empty one as an empty text |
| JsonLines.ArrayText | src/conversion.rs:264-274 | the text of an array is the texts of its elements in order, in brackets, with commas between them |
| JsonLines.JsonArrayOutcome | src/conversion.rs:259-281 | any array, in either encoding and with white space around it, is refused if it is nested too deep or holds a number out of range, and otherwise reaches the reader one element to a line, in order, as the library stores them |
| JsonLines.StoredInPlace | src/conversion.rs:269-274 | each element is stored on its own and in its place |
| JsonLines.JsonArrayRoundTripIff | src/conversion.rs:259-281 | the reader gets exactly the elements of a non-empty array if and only if the array is not nested too deep, repeats no key in an object and has only numbers that the library keeps |
| JsonLines.RepeatedKeyIsLost | src/conversion.rs:266-275 | a failing input: of an object with one key twice only the second value reaches the reader, unless a value is nested too deep or holds a number out of range, which is a parse error |
| JsonLines.LongIntegerIsLostOnTheWay | src/conversion.rs:266-275 | a failing input: a record with an integer of more than twenty digits, of which `LongIntegerExample` is one, does not reach the reader, for every library that keeps integers of 64 bits only (one exists, `JsonParser.KnownLibraryExists`) |
| JsonLines.OutOfRangeIsRefused | src/conversion.rs:266-268 | a failing input: one number out of the library's range anywhere in an array, as `1e400` (`JsonParser.OutOfRangeExample`) is out of that of a double, is a parse error for the whole array |
| JsonLines.HugeIntegerIsRefusedOnTheWay | src/conversion.rs:266-268 | a failing input: a record with an integer of more than 309 digits is a parse error for every library that refuses integers beyond the largest double (one exists, `JsonParser.KnownLibraryExists`) |
| JsonLines.DeepNestingIsRefused | src/conversion.rs:266-268 | a failing input for every limit: one level more is a parse error |
| JsonLines.ListToReaderInput | src/conversion.rs:239-250 | the fallback's loop pushes one encoded item and a line break for each item, and goes on as for a string |
| JsonLines.PushedTrims | src/conversion.rs:239-264 | trimming the pushed lines leaves the joined lines, which look like an array exactly if lists are at both ends |
| JsonLines.SingleListIsTakenApart | src/conversion.rs:242-275 | a list that is the only item is refused, or other records than it reach the reader |
| JsonLines.ListsAtBothEndsFail | src/conversion.rs:242-267 | several items with lists at both ends are a parse error |
| JsonLines.FallbackKeepsRecordsIff | src/conversion.rs:239-250 | the fallback gives one record per line exactly if the list does not have lists at both ends, so for every list of dictionaries |
| Ingestion.InsertAll | src/connection.rs:57-65 | the loop appends the batches before the first refused write and returns their rows exactly if there is none: the whole list, or a proper prefix and a failure |
| Ingestion.Writer.constructor | src/writer.rs:146-150 | a new writer owns its core |
| Ingestion.Writer.SchemaSection | src/writer.rs:29-35 | the first critical section finds the writer closed, or reads the schema |
| Ingestion.Writer.WriteSection | src/writer.rs:37-46 | the second one looks again whether the writer is closed, and writes as the insert loop does |
| Ingestion.Writer.Insert | src/writer.rs:28-47 | a whole insert: a closed writer, a missing schema and a failed conversion write nothing; otherwise a prefix of the converted batches is appended, all of them exactly on success |
| Ingestion.Writer.Flush | src/writer.rs:50-59 | a closed writer fails; otherwise the core's answer decides |
| Ingestion.Writer.Close | src/writer.rs:62-71 | the core is closed if it was there, with its error passed on, and is gone afterwards even then, so it is closed at most once |
| Ingestion.Writer.Perform | src/writer.rs:28-71 | any critical sections, one after another, leave exactly the log and give exactly the replies of the replay that concurrent runs are held to |
| IngestionMachine.InvAlways | src/writer.rs:28-71 | in every run the lock, the write sections, the close and the log agree |
| IngestionMachine.LogIsSectionsInLockOrder | src/connection.rs:57-65 | in every interleaving of callers that share one mutex the log is what the write sections wrote, in lock order, then the insertion in progress, then the core's close: their calls are never interleaved. A `Writer` has a mutex of its own (src/connection.rs:116-126, src/writer.rs:19-21), so the batches of a writer may fall between those of a `Connection.insert` on the same source |
| IngestionMachine.SectionsWriteWholeLists | src/connection.rs:57-65 | a section wrote its whole batch list and reports its rows, or, on a core error, a proper prefix, or nothing if the core had been taken before it |
| IngestionMachine.InputAlways | src/connection.rs:48-56 | in every run what a call is about to write, or has written, is the conversion of the input that this call was given |
| IngestionMachine.ResultsTellTheLog | src/connection.rs:48-66 | a success left all the batches its own input became in the log, once each and in order, and reports their total rows; a failed schema read or conversion left nothing, and a failed conversion means the input could not be converted |
| IngestionMachine.SectionsTellTheLog | src/writer.rs:37-46 | every write section's call returned what the section says and has in the log exactly the first batches of its own input; success means all of them on an open core, a closed writer none, a core error fewer than all |
| IngestionMachine.StraddlingInsertWritesNothing | src/writer.rs:28-47 | an insert whose write section comes after a close writes nothing and fails, even if it had read the schema before |
| IngestionMachine.CoreClosedOnceAndLast | src/writer.rs:62-71 | the core is closed at most once and nothing follows in the log |
| IngestionMachine.NothingWrittenAfterClose | src/writer.rs:62-71 | once the core is taken the log never grows again but for the core's own close |
| IngestionMachine.RunsFollowTheCode | src/writer.rs:28-71 | linearizability down to the code: once every call has returned, the log and all results are those of the code's critical sections run one after another in lock order, with the core answering as it did |
| IngestionRuns.EverySectionCanRun | src/writer.rs:28-71 | the converse, section by section: whenever the lock is free, the section a thread is about to make can be made, and appends and replies as the code's does, whatever the core answers; so every schedule of sections is a run, an insert straddling a close included |
| IngestionRuns.ConversionRuns | src/writer.rs:36-36 | between its two sections an insert goes on exactly with the conversion of its own input, and fails if there is none |
| IngestionRuns.EveryListOfCallsHasARun | src/writer.rs:28-71 | every list of inserts, flushes and closes on every script of the core is a run, with the log and all the results of the code's sections one after another |
| IngestionRuns.EveryCallCanReturn | src/writer.rs:28-71 | no run is ever stuck: it has a continuation in which every call returns |
| Execute.DrainedMeans | src/execute.rs:117-126 | draining gives one batch per leading batch answer, in order, and fails exactly if the next answer is an error |
| Execute.QueryCall | src/connection.rs:134-162 | `query` returns the drained result, the metadata batch, the stream's error, or an error for anything that is not a query |
| Execute.QueryGives | src/connection.rs:144-162 | what that is: the batches the stream answers before it ends, with the stream's schema, or its error if that comes first; the one metadata batch; a refusal for anything else |
| Execute.FromCore | src/execute.rs:101-148 | the result of `execute` is the specified one for every core outcome |
| Execute.ExecuteReports | src/execute.rs:101-148 | the core's row count for DML, the statement's kind and object and no rows for DDL, the batch and no rows for metadata; only a query can fail |
| Execute.ExecuteAgreesWithQuery | src/execute.rs:53-57 | for the same core outcome `execute(sql).to_query_result()` is a result exactly when `query(sql)` returns it, same batches and schema; a stream error fails both and is the only failure of `execute` |
| Execute.QueryRowsAreDeliveredRows | src/execute.rs:127-135 | a query's reported row count is the rows of all delivered batches, each counted once |
| Execute.ReportsZeroIff | src/execute.rs:34-38 | the documented 0 is reported for a query if and only if every delivered batch is empty |
| Execute.OneRowQueryReportsOne | src/execute.rs:127-135 | a failing input: one batch of one row is reported as 1 |
| Results.TableTransposesRows | src/query.rs:214-231 | cell `i` of column `j` of the table is cell `j` of row `i` of the batches |
| Results.DictOfKeys | src/query.rs:219-228 | a row's dictionary has each name once, and fewer entries than columns exactly if a name repeats |
| Results.DictOfOrder | src/query.rs:219-228 | each name stands where it first appears |
| Results.DictOfLast | src/query.rs:219-228 | and has the last value given for it |
| Results.MapDictOf | python/laminardb/types.py:162-168 | taking row `i` of a dictionary of columns is building the dictionary of row `i` |
| Results.BatchesToTuples | src/query.rs:214-231 | the loop gives one tuple per row, in order |
| Results.FetchAll | src/query.rs:127-129 | all tuples of all batches |
| Results.FetchOne | src/query.rs:132-145 | the head of `fetchall`, or None exactly if it is empty, wherever the empty batches are |
| Results.FetchMany | src/query.rs:149-167 | the first `min(size, n)` tuples of `fetchall`, for any split into batches |
| Results.TuplesAreRowsIff | src/query.rs:214-231 | the tuples are the rows exactly if no column name repeats or there are no rows |
| Results.RepeatedNameLosesAColumn | src/query.rs:214-231 | a failing input: two columns of one name, whose row (1, 2) comes back as (2) |
| Results.BatchSplitDoesNotShow | src/query.rs:214-231 | results with the same rows give the same tuples and the same dictionary of columns, however they are cut into batches |
| Results.ChangeEvent.constructor | python/laminardb/types.py:155-158 | a new event has built no rows |
| Results.ChangeEvent.Materialize | python/laminardb/types.py:160-170 | the rows are built once, cached, and are the event's rows |
| Results.ChangeEvent.Len | python/laminardb/types.py:175-176 | the length is the result's row count without building the rows, and counts the rows shown if there is a column |
| Results.ColumnlessEventMiscounts | python/laminardb/types.py:163-176 | a result of three rows and no columns has length three and shows no row |
| Results.EventRowsAreRows | python/laminardb/types.py:160-170 | with distinct names the event's rows are the result's rows, same columns, same order |
| Signals.SignalEngine.constructor | examples/python-demo/trading_signals.py:140-142 | no history to begin with |
| Signals.SignalEngine.ComputeSignal | examples/python-demo/trading_signals.py:144-175 | the signal is that of the symbol's whole price history, and no other symbol's history changes |
| Signals.WindowAverages | examples/python-demo/trading_signals.py:157-168 | the averages over slices of the 35-entry deque are those of the whole history, and the "previous" ones are the current ones of one price earlier |
| Signals.WindowSignalIsSignalAt | examples/python-demo/trading_signals.py:153-175 | the bounded window is enough to decide the signal |
| Signals.SignalMeans | examples/python-demo/trading_signals.py:144-175 | the signal in prices alone: none before the thirtieth price; a buy exactly if the last ten outweigh the last thirty, three to one, and did not one price earlier; a sell symmetrically; otherwise a hold |
| Signals.SumSnoc | examples/python-demo/trading_signals.py:157-158 | a sum grows by what is appended |
| Signals.OnActiveTrades | examples/python-demo/trading_signals.py:211-223 | whatever symbols are interleaved, the log receives exactly the crossings of each symbol's own prices |
| Signals.LoggedExactly | examples/python-demo/trading_signals.py:211-223 | entry by entry: a trade adds its symbol, signal and price if its symbol's own prices cross with it, and nothing otherwise |
| Signals.StaysOnSide | examples/python-demo/trading_signals.py:162-175 | after a signal and without the opposite one the averages never change sides |
| Signals.RepeatedSignalIff | examples/python-demo/trading_signals.py:162-175 | after a buy, and without a sell since, there is another buy if and only if the averages were exactly level just before and rise from it; the short one was never below in between; symmetrically for sells |
| Signals.AlternatesIff | examples/python-demo/trading_signals.py:162-175 | over a whole history buys and sells alternate strictly if and only if no level stretch is left on the side it was entered from, once the averages have been off that side |
| Signals.NoTiesAlternate | examples/python-demo/trading_signals.py:162-175 | in particular, without exact ties buys and sells alternate strictly |
| Signals.TieBreaksAlternation | examples/python-demo/trading_signals.py:162-175 | a price series with a tie and two buys with only a hold between them |
| Signals.TieExampleDoesNotAlternate | examples/python-demo/trading_signals.py:162-175 | a failing input: that series does not alternate |
| Risk.SortedEntryIff | examples/python-demo/portfolio_risk.py:270-272 | the entry at place `k` of the sorted returns is the one return with at most `k` strictly below it and at least `k + 1` at or below it |
| Risk.RankIgnoresOrder | examples/python-demo/portfolio_risk.py:260-272 | that rank does not depend on the order of the returns |
| Risk.VarIndexIff | examples/python-demo/portfolio_risk.py:271-272 | the index is inside the list exactly for a positive confidence, is the floor of n(1 - c) for c <= 1 and 0 beyond |
| Risk.VarMeans | examples/python-demo/portfolio_risk.py:256-272 | on a history without a zero divisor the fallback succeeds exactly for a positive confidence, with the one price change of its rank among the changes from each price to the next |
| Risk.ComputeReturns | examples/python-demo/portfolio_risk.py:260-263 | the changes from each price to the next, or a division by zero exactly if a price before the last is zero |
| Risk.ReturnsAreChanges | examples/python-demo/portfolio_risk.py:260-263 | the returns are the one list whose entries take each price to the next: p(1 + r) is the next price |
| Risk.ReturnsRise | examples/python-demo/portfolio_risk.py:260-263 | a return on a positive price is positive exactly on a rise |
| Risk.ReturnsCompound | examples/python-demo/portfolio_risk.py:260-263 | compounded, they lead from the first price to the last |
| Risk.ComputeVarOf | examples/python-demo/portfolio_risk.py:259-272 | the fallback for one symbol computes the specified value or error |
| Risk.VarResultsMean | examples/python-demo/portfolio_risk.py:256-275 | the call succeeds exactly if it does for each symbol with 20 prices or more, and has a value for those symbols and no others |
| Risk.RiskEngine.constructor | examples/python-demo/portfolio_risk.py:203-206 | no history to begin with |
| Risk.RiskEngine.UpdatePriceHistory | examples/python-demo/portfolio_risk.py:219-224 | each deque keeps the last 200 prices of its symbol, the latest price is the last one, symbols keep their order |
| Risk.RiskEngine.ComputeVar | examples/python-demo/portfolio_risk.py:247-275 | the loop gives the specified values, or the first failure, which leaves the stored results alone |
| Risk.LastReturns | examples/python-demo/portfolio_risk.py:290-296 | the last 29 returns of the bounded window are the changes from each of the last 30 prices of the whole history to the next |
| Risk.RiskEngine.CorrelationRows | examples/python-demo/portfolio_risk.py:282-302 | every row given to the correlation holds exactly the 29 changes between the last 30 prices of its symbol's whole history, for the symbols with 30 prices or more; fewer than two symbols give nothing, and trimming never shortens a row |
| Risk.WithDataKeepsOrder | examples/python-demo/portfolio_risk.py:282-284 | those symbols keep the order of the history |
| Risk.ZeroOutsideTheRows | examples/python-demo/portfolio_risk.py:290-296 | a failing input: a zero as the oldest of 31 prices, which no row needs, and no rows are built |

## Left out

- The database core, SQL, connectors and checkpoint durability: behind the scripts and contracts above.
- PyO3, the interpreter lock, Arrow's C interface, and the pandas, polars and pyarrow dispatch of `python_to_batches`: foreign calls. The interpreter matters in one place, the callback thread's attach, which the model lets fail at will.
- `Subscription`, `AsyncSubscription` and `_QueryStreamIter` on plain queries (src/subscription.rs, src/async_support.rs): one critical section per call and no barriers to skip, so the machine of named streams covers what is hard. They differ in that `cancel` leaves the stream in place; what the core answers after that is its own affair.
- The value that `is_active` returns: the machine gives it a reply without data. Its effect on `__anext__`, which stops before it takes the lock again, is modelled.
- Real time and weak memory: the deadline runs on an abstract monotone clock, the flags are sequentially consistent. `Instant` overflow for huge timeouts is not modelled.
- Cancelling a pending asyncio awaitable, thread panics and `__del__`.
- The integer widths of counters (`u64`, `usize`): row counts are unbounded here.
- `Connection.close` and the `closed` field: it takes `&mut self`, so it does not run beside the calls modelled here. A connection's inserts are the machine of the writer without its flush and close steps.
- Two owners of one source: a connection and its writers lock different mutexes, so the machine of each describes its own entries, and how the core orders the entries of both is the core's affair.
- Schema inference for JSON and CSV, the line reader and Arrow's casts: library code. In `Alignment` a cast is an arbitrary function that may fail and keeps length and target type. In `ArrowCasts` it is what Arrow's default cast does between strings and between timestamp units, without the failure of a string column that outgrows 32-bit offsets.
- The JSON library: `JsonParser` has as parameters which numbers are kept, altered or refused and how deep values may nest, so the results hold for every such library, and takes its objects to be insertion-ordered maps, as the `indexmap` dependency of `serde_json` in the lock file (Cargo.lock:7222-7233) indicates. With sorted maps the members of a record would also change order.
- `NaN` and the infinities of `json.dumps`, and lone surrogates in Python strings, are not JSON and have no counterpart.
- A table without columns: `to_pylist` is taken to give one empty dictionary per row.
- Floating point: prices, averages and returns are exact reals. The numpy and scipy branches of the risk demo are foreign calls; the correlation is followed up to its matrix of rows.
- Results of a query are taken to consist of rectangular batches of the result's own schema, which Arrow guarantees when it builds the table.
- Catalog, metrics, topology, configuration, error codes, type strings, display and the market simulators: getters, finite tables and random data; the same for getters such as a frame's `kind` and `__bool__`.
