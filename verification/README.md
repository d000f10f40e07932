# Flashblocks processing, head tracking and acceptance decisions

A Dafny model of four parts of the repository, with proofs over every input or every run.

**Flashblocks processor** (`crates/firehose-flashblocks`). `ProcessorSpec` is the processor as a transition function over its
eleven fields and the FIRE BLOCK lines it writes; `Processor` is the same processor as a class updated in place, each
method proved equal to the specification. `Flashblocks` holds sequence validation, block assembly and the peek classifier.
`ProcessorInvariants`, `ProcessorEmissions`, `ProcessorWire`, `ProcessorRuns` and `ProcessorPending` prove what every run
keeps: exactly-once execution, agreement of the state-root cache with recomputation, soundness, order and uniqueness of
final lines, and the pending buffer's discipline. `ProcessorFinals` says what may follow a final, `ProcessorRoots` where
the root of a final comes from, `ProcessorStream` and `ProcessorTiming` what changes when the verdicts come from the
websocket stream, and `ProcessorBlocks` when two lines show one block number. `ProcessorLaws` says what every event does
in terms of numbers, hashes and timestamps alone, and `ProcessorHistory` what the fields remember of a run. `ProcessorLimits` gives concrete runs for the
conditions those theorems carry. `Dispatcher` puts the processor behind its command queue, the subscription's delivery loop
and three producers.

**Rollup node heads** (`actions/harness`). `RollupNode` tracks safe, unsafe and finalized heads and proves the incremental
finalization equal to a declarative maximum over the blocks derived since the last reset.

**Acceptance runner** (`acceptance`). `ForkSchedule` and `ForkWindows` decide fork schedules and check windows, `Aggregate`
and `AggregateWrite` merge sharded results, `Health` judges sampled rounds, `WindowRunner` runs checks inside fork windows.

What the program obtains from outside is an input. A `World` holds the trie root, the payload conversion and the header
hash as arbitrary functions, not assumed injective. An `Env` holds what the node answers during one event: state and header
by number, whether execution and root computation succeed, the clock, and whether a background task can be spawned. The
theorems that speak of one chain assume only that every state handed out for a number is the one that chain assigns.
In the acceptance modules RPC answers, clock readings and file sizes are streams or functions.

## Where code and documentation differ

- A canonical hash that contradicts the in-flight block is ignored once the block's final has been written, and also while
  the block is pending. The comment at `bin/node/src/firehose.rs:143-149` expects the hash-mismatch branch to reconcile it.
  See `ProcessorPending.ContradictionInRuns`.
- The peek-driven final path does not test `final_part_sent`, so one sequence can have two finals when a canonical signal
  confirms the block before its last flashblock. With a clock and base timestamps that do not fall this is the only way;
  otherwise the peeked base may also have been dropped as stale. See `ProcessorRuns.AtMostOneFinalIff` and
  `ProcessorTiming.OnlyEarlySignals`.
- `final_part_sent` guards one sequence, not one block: when a confirmed block is discarded and its base accepted again, the
  same signal draws the same final again. The comment at `bin/node/src/firehose.rs:129-133` promises that it does not. See
  `ProcessorBlocks.SharedBlockIff` and `ProcessorLimits.RestartRepeatsFinal`.
- Deltas accepted after a canonical-driven final are still executed and written, the first of them under the index of that
  final. See `ProcessorFinals.LinesAfterFinalIff` and `ProcessorFinals.TieIff`.
- The background state-root task reads the parent state by number again. If the provider re-assigns that number meanwhile,
  the cached root is not the live database's. See `ProcessorEmissions.CacheAgreesIff` and `ProcessorRoots.FinalRoots`.
- Aggregation turns a check with unavailable evidence into an error only while the bundle directory resolves; otherwise
  the check keeps its status. A bundle stops resolving only when it is changed after its result was read, which the comment
  at `acceptance/src/aggregate.rs:239-240` excludes. `AggregateWrite.Write` covers both, `AggregateWrite.CleanResolved` the
  plain case.
- Activation by timestamp and by block agree only while activation times in milliseconds fit 64 bits. See
  `ForkSchedule.ActivationExact`.

## Model

| member | source | states |
|---|---|---|
| `ProcessorRuns.ExactlyOnce` | crates/firehose-flashblocks/src/processor.rs:923-1025 | In every state of every run whose provider answers agree with one chain, a live database equals one direct execution on the parent snapshot: pre-execution once, then each transaction of flashblocks 0..=last_executed_index once, in order |
| `ProcessorRuns.Confluence` | crates/firehose-flashblocks/src/processor.rs:901-954 | Two runs over one chain that hold the same flashblocks up to the same executed index have equal databases, whatever their squash verdicts, pending delays, replays and failures were |
| `ProcessorEmissions.CacheAgrees` | crates/firehose-flashblocks/src/processor.rs:1157-1168 | With a database present, a speculative hit returns exactly what recomputing the root would; the projected lookup after a bundle change never hits |
| `ProcessorEmissions.CacheAgreesIff` | crates/firehose-flashblocks/src/processor.rs:1074-1137 | If the provider may re-assign numbers, a hit equals recomputation under every root function if and only if the task read the snapshot the database was built on |
| `ProcessorRoots.FinalRoots` | crates/firehose-flashblocks/src/processor.rs:1476-1576 | In any run, whatever the provider answers, a final carries the root of its own database, or the root of a task that had ended before: of the bundle behind an earlier partial of the same block number, over the snapshot the provider gave a task that ended after that partial. A final without a database is always of the second kind, and a database with it has that bundle |
| `ProcessorLimits.FinalWithoutDatabase` | crates/firehose-flashblocks/src/processor.rs:995-1010 | A concrete stream run: a missing parent header drops the database, and the next base draws a final from the root the background task left |
| `ProcessorRoots.StepSpeculation` | crates/firehose-flashblocks/src/processor.rs:1026-1042 | An event keeps or drops the speculation, launches a new one on the database of the partial it has just written from index 10 on, or answers it |
| `ProcessorLimits.ReorgedParentPublished` | crates/firehose-flashblocks/src/processor.rs:1074-1137 | A concrete stream run in which the parent number is re-assigned between bootstrap and the background read: a final is written whose root is not the live database's |
| `ProcessorRuns.FinalSoundness` | crates/firehose-flashblocks/src/processor.rs:1522-1576 | Every final written with a database present, on all three paths and with or without a cache hit, carries the assembled header of all stored flashblocks with the root of the live database, and its hash is that header's hash |
| `ProcessorRuns.FinalTriggered` | crates/firehose-flashblocks/src/processor.rs:719-790 | Every final of a run comes from one event of it, and its hash is the one that event supplied: the peeked or arriving base's parent hash, or the canonical hash |
| `ProcessorRuns.FinalCoversBlockIff` | crates/firehose-flashblocks/src/processor.rs:1522-1576 | The database behind a line covers the whole stored block if and only if no transaction is left behind the last executed index |
| `ProcessorRuns.FinalFlagExact` | crates/firehose-flashblocks/src/processor.rs:1221-1263 | In every run `final_part_sent` holds exactly when the in-flight sequence has written a final |
| `ProcessorRuns.AtMostOneFinalIff` | crates/firehose-flashblocks/src/processor.rs:1031-1035 | A run writes at most one final per sequence if and only if no peek-final flashblock passes the guards (fresh, in sequence, same payload, not squashed or pending, executing to the expected hash) after its block's final |
| `ProcessorRuns.RepeatsIff` | crates/firehose-flashblocks/src/processor.rs:1752-1797 | Those guards, evaluated before the event, are exactly the peek-final events that write a line for the in-flight block when it already has its final |
| `ProcessorTiming.OnlyEarlySignals` | crates/firehose-flashblocks/src/processor.rs:573-593 | In a stream run whose clock and base timestamps do not fall, or without a late base, the first of two finals of a sequence was drawn by a canonical signal for the block, and a later flashblock of that block wrote the second |
| `ProcessorStream.SecondFinals` | crates/execution/flashblocks/src/subscription.rs:163-197 | In any run whose flashblocks are classified against the next message of the stream, the second final of a sequence is a peek-final, and the first is either the guarded final a canonical signal for the block drew or, with the clock set back or a timestamp below the parent's, a peek-final whose own base then arrived more than five seconds late; that event precedes the one writing the second final |
| `ProcessorTiming.StreamUniqueFinals` | crates/firehose-flashblocks/src/processor.rs:386-397 | A stream run whose clock and base timestamps do not fall, and in which no signal for a block precedes one of its flashblocks, writes at most one final per sequence |
| `ProcessorTiming.HarmlessUniqueFinals` | crates/firehose-flashblocks/src/processor.rs:386-397 | The same under weaker conditions: no late base will do instead of a steady clock, and a signal may precede flashblocks of its block if that block is not in flight |
| `ProcessorStream.NextBaseEnds` | crates/firehose-flashblocks/src/processor.rs:573-820 | A base for the next block is dropped as stale and changes nothing, or ends or leaves the in-flight sequence and, once that has its final, writes nothing more for it |
| `ProcessorLimits.EarlySignalRepeatsFinal` | crates/firehose-flashblocks/src/processor.rs:1752-1797 | A concrete stream run: a canonical signal confirms the block, then its last delta is classified as final, and one sequence has two finals |
| `ProcessorLimits.StaleBaseRepeatsFinal` | crates/firehose-flashblocks/src/processor.rs:573-593 | A concrete stream run with the clock set back from 6 to 0: the base after a peek-final is dropped as stale, another delta follows before the base is sent again, and one sequence has two finals |
| `ProcessorBlocks.SharedBlockIff` | crates/firehose-flashblocks/src/processor.rs:386-397 | Two lines of a run, finals in particular, have one block number if and only if they belong to one sequence, or the block's base was accepted again after the first, when the block was no longer in flight |
| `ProcessorBlocks.LineOpened` | crates/firehose-flashblocks/src/processor.rs:637-874 | Every line starts with the base whose delivery opened its sequence, while another block or none was in flight |
| `ProcessorLimits.RestartRepeatsFinal` | crates/firehose-flashblocks/src/processor.rs:821-874 | A concrete stream run: a gap discards the confirmed block, its base is sent again, and the same signal draws a second final with the same number, header and hash |
| `ProcessorRuns.WireOrder` | crates/firehose-flashblocks/src/processor.rs:1570-1575 | For any two lines of a run: sequences never go back; inside a sequence the index rises after a partial or a peek-final and does not fall after a guarded final; only partials precede a guarded final; partials are never numbered 0 |
| `ProcessorFinals.TieIff` | crates/firehose-flashblocks/src/processor.rs:1570-1575 | A later line of a sequence extends the flashblocks of an earlier one; the two share an index if and only if the earlier is a guarded final and the later was executed with exactly one flashblock more |
| `ProcessorLimits.PartialAfterFinal` | crates/firehose-flashblocks/src/processor.rs:1012-1043 | A concrete stream run: the delta after an early confirmation is written as a partial under the index of the final |
| `ProcessorFinals.WritesAfterFinalIff` | crates/firehose-flashblocks/src/processor.rs:887-1043 | With the final written, an event writes a line of the sequence if and only if a delta passes the acceptance and execution guards, or a canonical signal replays the buffer |
| `ProcessorFinals.LinesAfterFinalIff` | crates/firehose-flashblocks/src/processor.rs:386-397 | In a whole run finals end their sequences if and only if no event passes those guards |
| `ProcessorPending.TransitionFinalKept` | crates/firehose-flashblocks/src/processor.rs:719-820 | A final built at a next-base transition is the first line written; every other line of that event belongs to the new sequence |
| `ProcessorPending.PendingDiscipline` | crates/firehose-flashblocks/src/processor.rs:879-885 | From a pending state, over any events without the canonical signal for the parent that carries the base's parent hash, nothing of the sequence is executed |
| `ProcessorPending.PendingRelease` | crates/firehose-flashblocks/src/processor.rs:1307-1368 | A canonical signal for the parent executes the buffer iff the hash matches, there is more than a base and the node can; keeps it iff only the parent state is missing; a contradicting hash empties it |
| `ProcessorPending.ReplayWhole` | crates/firehose-flashblocks/src/processor.rs:1387-1459 | A successful replay executes the whole buffer exactly once, writes one partial at the latest index and leaves the block awaiting confirmation |
| `ProcessorPending.AwaitingDefers` | crates/firehose-flashblocks/src/processor.rs:769-819 | A base of the next block is buffered if and only if the block before it was replayed, still awaits confirmation and was not given up, that is, already had its final or just got it; it starts unexecuted, without a database, and only a block given up costs the revision and the speculation |
| `ProcessorHistory.NextBlockExecutes` | crates/firehose-flashblocks/src/processor.rs:689-820 | In any run whose in-flight block does not await confirmation after a replay, a fresh, linked base of the next block and its first delta, classified against none: the delta is written as a partial with exactly these two flashblocks and its own block hash, if and only if they assemble and the node can execute them |
| `ProcessorHistory.AwaitingExact` | crates/firehose-flashblocks/src/processor.rs:1387-1459 | In every run the processor awaits confirmation if and only if the in-flight block was released by a replay and no canonical signal has named it since |
| `ProcessorHistory.CanonicalHeadIs` | crates/firehose-flashblocks/src/processor.rs:1206-1219 | In every run the recorded canonical head is the newest of the signals with the highest number, or none before the first |
| `ProcessorPending.RepeatedCanonicalIff` | crates/firehose-flashblocks/src/processor.rs:1206-1466 | An immediately repeated canonical signal changes nothing and writes nothing if and only if the first did not release a pending block 0 |
| `ProcessorPending.RepeatedSignalInRuns` | crates/firehose-flashblocks/src/processor.rs:1206-1466 | In every run whose bases carry their own block number, block 0 is never pending, and a repeated canonical signal does nothing at all |
| `ProcessorLimits.GenesisRepeatDiscards` | crates/firehose-flashblocks/src/processor.rs:1307-1313 | A concrete pending block 0, its own parent by the saturating decrement, which the first signal releases and the repeated one discards; its message is numbered 0 and its base 5, as a base numbered 0 is never assembled |
| `ProcessorPending.ContradictionResetsIff` | crates/firehose-flashblocks/src/processor.rs:1221-1313 | A canonical hash the in-flight block does not meet discards it if and only if the block is neither finished nor pending; otherwise the block stays as it is |
| `ProcessorPending.GenesisContradictionIff` | crates/firehose-flashblocks/src/processor.rs:1307-1368 | A signal for a pending block 0 discards it if and only if it contradicts the base's parent hash, or the parent state is there and the replay fails |
| `ProcessorPending.ContradictionInRuns` | crates/firehose-flashblocks/src/processor.rs:1221-1313 | In every run a contradicting signal for the in-flight block writes nothing and discards the block if and only if it is not pending and the wire holds no final of it |
| `ProcessorLimits.ContradictionUnnoticed` | crates/firehose-flashblocks/src/processor.rs:1221-1233 | A concrete stream run where a contradicting hash after the final leaves the block in place |
| `ProcessorLimits.PendingContradictionUnnoticed` | crates/firehose-flashblocks/src/processor.rs:1307-1313 | A concrete stream run where a contradicting hash leaves a pending block without any final in place |
| `ProcessorPending.SequenceStarts` | crates/firehose-flashblocks/src/processor.rs:573-635 | A sequence only starts on a base that is at most five seconds old and does not contradict the canonical hash known for its parent |
| `ProcessorPending.CanonicalHeadAdvances` | crates/firehose-flashblocks/src/processor.rs:1206-1219 | Over any run the recorded canonical head never goes back, through every reset |
| `ProcessorInvariants.StepInv` | crates/firehose-flashblocks/src/processor.rs:203-266 | Every event keeps the joint invariant: fields present together, indices consecutive from 0 with one block number and payload, pending without a database, exact database, live cache |
| `ProcessorInvariants.AdvanceExact` | crates/firehose-flashblocks/src/processor.rs:942-954 | Running the deferred tail on an exact database yields the direct execution of the whole buffer |
| `ProcessorInvariants.DeferredIsTail` | crates/firehose-flashblocks/src/processor.rs:942-949 | On a sequential buffer the gathered transactions are those of the tail after the last executed index |
| `ProcessorInvariants.AcceptInv` | crates/firehose-flashblocks/src/processor.rs:637-874 | Every validation arm keeps the invariant, and an accepted flashblock is last in the buffer and unexecuted |
| `ProcessorInvariants.TransitionInv` | crates/firehose-flashblocks/src/processor.rs:689-820 | A next-base transition, with or without a final or a reset, leaves a well-formed sequence of just the new base |
| `ProcessorInvariants.AdvanceInv` | crates/firehose-flashblocks/src/processor.rs:961-1043 | Executing, deferring or failing an accepted flashblock keeps the invariant |
| `ProcessorInvariants.CanonicalInv` | crates/firehose-flashblocks/src/processor.rs:1206-1466 | Confirmation, release, replay and reset on a canonical signal keep the invariant |
| `ProcessorLaws.FlashblockLaw` | crates/firehose-flashblocks/src/processor.rs:543-874 | What becomes of every flashblock, from its numbers, links and age and the in-flight block: it is ignored without effect, ends the sequence, extends it, or starts the next one; in the last case the previous block's final is written exactly when it was unfinished, the new block follows it and the final can be built |
| `ProcessorLaws.TransitionLaw` | crates/firehose-flashblocks/src/processor.rs:689-820 | The base of the next block starts a sequence of just itself, after the final of an unfinished block or after giving that block up; it is buffered exactly when the block before it awaits confirmation and was not given up |
| `ProcessorLaws.AdvanceLaw` | crates/firehose-flashblocks/src/processor.rs:887-1043 | What becomes of an accepted flashblock that does not wait: the sequence ends if it does not assemble or execution fails or misses the final hash, is buffered if parent state or header is missing, and otherwise all stored flashblocks are executed, one line is written, and the revision changes exactly when the bundle did |
| `ProcessorLaws.ContinueLaw` | crates/firehose-flashblocks/src/processor.rs:879-905 | An accepted flashblock waits exactly when the sequence is buffered, the verdict is to squash, or it is a base without an expected hash |
| `ProcessorLaws.SignalLaw` | crates/firehose-flashblocks/src/processor.rs:1206-1466 | What every canonical signal does: the newest of the highest number is remembered; it confirms the in-flight block, or releases, replays or discards a buffered block whose parent it names, and leaves everything else alone |
| `ProcessorLaws.ConfirmLaw` | crates/firehose-flashblocks/src/processor.rs:1221-1303 | A confirmation clears the await silently if the final was sent, else writes the final if it can be built, else discards the block |
| `ProcessorLaws.ReplayLaw` | crates/firehose-flashblocks/src/processor.rs:1387-1459 | A replay waits for the parent state, else executes all stored flashblocks once on it and writes one partial with its last flashblock's claims, dropping the speculation, else discards the block |
| `ProcessorLaws.FinalLaw` | crates/firehose-flashblocks/src/processor.rs:1522-1576 | A guarded final is built if and only if the stored flashblocks assemble to a header that, with the root in use, hashes to the expected value; then it carries that header, hash and index |
| `ProcessorLaws.RootLaw` | crates/firehose-flashblocks/src/processor.rs:1522-1576 | The root in use is the finished task's on a hit of block and revision, else that of the database if it is there and computable, else none |
| `ProcessorLaws.TaskLaw` | crates/firehose-flashblocks/src/processor.rs:1074-1137 | A finished task answers a speculation without an answer with the parent state it reads, and changes nothing else |
| `ProcessorEmissions.StepSound` | crates/firehose-flashblocks/src/processor.rs:1665-1816 | Each line an event writes, replay included, is the direct execution of its flashblocks under the header they assemble to; a partial carries the state root and block hash its last flashblock claims, a final the hash of its own header, which is the hash that triggered it |
| `ProcessorEmissions.StepRooted` | crates/firehose-flashblocks/src/processor.rs:1476-1489 | Each final an event writes carries the root of the database it was built on, over the parent snapshot the chain assigns |
| `ProcessorWire.StepLog` | crates/firehose-flashblocks/src/processor.rs:1026-1043 | Every event keeps the wire invariant: order of all lines, indices within what was executed or accepted, the flag exactly right |
| `Flashblocks.Classify` | crates/firehose-flashblocks/src/processor.rs:112-126 | At most one of squash and final hash is active, and the peek never squashes a base |
| `Flashblocks.TransactionsConcat` | crates/execution/flashblocks/src/block_assembler.rs:74-133 | The transactions of two runs of flashblocks in sequence are those of the first followed by those of the second |
| `Flashblocks.AssembleLaw` | crates/execution/flashblocks/src/block_assembler.rs:74-133 | Assembly yields a header if and only if there are flashblocks, the first has a base with a nonzero number and the payload converts; the header has that base, all transactions in order and the last flashblock's root and commitments |
| `Processor.FlashblocksProcessor.constructor` | crates/firehose-flashblocks/src/processor.rs:203-266 | A new processor is in the initial state with an empty wire |
| `Processor.FlashblocksProcessor.ResetState` | crates/firehose-flashblocks/src/processor.rs:368-381 | Sets every field to the reset state, keeps the canonical head, bumps the revision and drops the speculation |
| `Processor.FlashblocksProcessor.Start` | crates/firehose-flashblocks/src/processor.rs:386-397 | Starts a sequence at a base, keeping database, revision and speculation |
| `Processor.FlashblocksProcessor.GatherTransactions` | crates/firehose-flashblocks/src/processor.rs:942-949 | The loop over stored flashblocks collects exactly those after the last executed index, in order |
| `Processor.FlashblocksProcessor.RunTransactions` | crates/firehose-flashblocks/src/processor.rs:1706-1739 | The transaction loop merges pre-execution (on the first run) and every transaction once, in order, on top of the given bundle |
| `Processor.FlashblocksProcessor.ExecuteAndEmit` | crates/firehose-flashblocks/src/processor.rs:1619-1865 | Equals the execution specification: fails without a header, on execution failure or an unmet final hash; otherwise new database, change flag and one line, whose meaning `StepSound` and `AdvanceLaw` give |
| `Processor.FlashblocksProcessor.LookupRoot` | crates/firehose-flashblocks/src/processor.rs:1157-1168 | A hit needs the same block, the same revision and a finished task |
| `Processor.FlashblocksProcessor.LaunchSpeculation` | crates/firehose-flashblocks/src/processor.rs:1074-1137 | Replaces the speculation by one on the live bundle and revision when a database and a runtime exist |
| `Processor.FlashblocksProcessor.BuildFinalEmission` | crates/firehose-flashblocks/src/processor.rs:1522-1576 | Builds the final exactly when assembly, root and hash comparison succeed |
| `Processor.FlashblocksProcessor.EmitFinalIfPending` | crates/firehose-flashblocks/src/processor.rs:1581-1600 | Appends the pending final to the wire, or nothing |
| `Processor.FlashblocksProcessor.Process` | crates/firehose-flashblocks/src/processor.rs:509-520 | One flashblock command is one step of the specification, a failure being a reset; no state-dependent unwrap can fail |
| `Processor.FlashblocksProcessor.ProcessInner` | crates/firehose-flashblocks/src/processor.rs:543-635 | Stale flashblocks and bases contradicting the canonical head are turned away as the specification says |
| `Processor.FlashblocksProcessor.AcceptFlashblock` | crates/firehose-flashblocks/src/processor.rs:637-874 | The validation arms update buffer, indices and database as the specification's acceptance does |
| `Processor.FlashblocksProcessor.FinishBlock` | crates/firehose-flashblocks/src/processor.rs:689-820 | The next-base arm finishes or discards the previous block before the new base is stored and decides whether that base is buffered, as the specification does; `TransitionLaw` says when |
| `Processor.FlashblocksProcessor.AdvanceBlock` | crates/firehose-flashblocks/src/processor.rs:961-1010 | Bootstraps or defers on missing parent state or header, keeping the specification's state |
| `Processor.FlashblocksProcessor.CommitExecution` | crates/firehose-flashblocks/src/processor.rs:1012-1043 | Commits database, executed index, revision and final flag, and launches a speculation from index 10 on |
| `Processor.FlashblocksProcessor.OnCanonicalBlock` | crates/firehose-flashblocks/src/processor.rs:1206-1466 | One canonical command is one step of the specification |
| `Processor.FlashblocksProcessor.ConfirmBlock` | crates/firehose-flashblocks/src/processor.rs:1221-1303 | Confirms the in-flight block with a final, silently if one was sent, or resets it |
| `Processor.FlashblocksProcessor.ReplayBuffer` | crates/firehose-flashblocks/src/processor.rs:1387-1459 | Replays the pending buffer in one execution, or leaves or resets it |
| `Processor.FlashblocksProcessor.TaskFinishes` | crates/firehose-flashblocks/src/processor.rs:1074-1137 | A finished background task fills only its own unanswered speculation |
| `Dispatcher.Serialization` | crates/firehose-flashblocks/src/dispatcher.rs:150-172 | Under any schedule of the three producers, the consumer, its failure and the background task, the processor is one sequential run over the applied commands; these are a prefix of the arrival order, all of it once quiet, with each producer's order kept |
| `Dispatcher.CommandQueue.Drain` | crates/firehose-flashblocks/src/dispatcher.rs:150-172 | Draining the queue leaves processor and wire where the sequential run over it leads |
| `Dispatcher.CommandQueue.FlashblockReceivedWithPeek` | crates/firehose-flashblocks/src/dispatcher.rs:82-95 | Appends the flashblock with its peek verdict at the end of the queue |
| `Dispatcher.CommandQueue.Deliver` | crates/execution/flashblocks/src/subscription.rs:163-197 | The delivery loop with its one-message peek slot enqueues every message once, in order, classified against the next message if that was already in the mailbox, else against none |
| `Dispatcher.AppliedStreams` | crates/firehose-flashblocks/src/dispatcher.rs:75-116 | Under any schedule, with this ingress and two producers of canonical signals, what the consumer applies is a run fed by the stream |
| `Dispatcher.AppliedRules` | crates/firehose-flashblocks/src/dispatcher.rs:75-116 | Under any schedule the i-th flashblock applied is message i; it is squashed if and only if it is a delta and the next message, already in the mailbox, is of the same block, and it is final if and only if that message is the base of the next block, expecting its parent hash |
| `Dispatcher.IngressRules` | crates/execution/flashblocks/src/subscription.rs:163-197 | The same of every message the delivery loop enqueues |
| `Dispatcher.CommandQueue.SendCanonical` | crates/firehose-flashblocks/src/dispatcher.rs:104-116 | Appends the canonical signal at the end of the queue |
| `Dispatcher.CommandQueue.Apply` | crates/firehose-flashblocks/src/dispatcher.rs:150-172 | Applying a command is one step of the processor |
| `RollupNode.RunTracks` | actions/harness/src/node.rs:330-354 | In every state of every run the finalized head is the last derived block within the highest signal, else the head last started over from; finalized <= safe <= unsafe; the history is contiguous, hash-linked and its sequence numbers follow the epochs. What its entries are is `HistoryRecords` |
| `RollupNode.HistoryRecords` | actions/harness/src/node.rs:643-708 | In every run entry i of the history is the i-th block derived since the last reset, with its hash, number and timestamp, and as origin the one in its L1 info, else the L1 block it was derived from, else the default |
| `RollupNode.DeriveUnsafe` | actions/harness/src/node.rs:690-708 | A derived block becomes the unsafe head when that is not ahead of it, otherwise the unsafe head stays |
| `RollupNode.UnsafeMeetsSafe` | actions/harness/src/node.rs:690-708 | In every run an unsafe head level with the safe head is the safe head |
| `RollupNode.UnsafeMonotone` | actions/harness/src/node.rs:605-633 | Between resets the unsafe head never regresses |
| `RollupNode.ResetHeads` | actions/harness/src/node.rs:362-389 | After a reset at the end of any run all three heads are the given one, the history is empty and the L1 signal is the one before |
| `RollupNode.DrainTakes` | actions/harness/src/node.rs:605-633 | A drain takes a gap-free continuation of the unsafe head, each block the first of its number after the one before; the new unsafe head is the last block taken, with its own origin and its position in its epoch |
| `RollupNode.DrainTakesMost` | actions/harness/src/node.rs:605-633 | No gap-free continuation found in order in the drained blocks is longer than the one taken |
| `RollupNode.InterleavingIrrelevant` | actions/harness/src/node.rs:330-354 | Runs with the same derivations and resets and the same highest signal agree on safe and finalized heads, wherever signals and gossip fell |
| `RollupNode.FinalizedMonotone` | actions/harness/src/node.rs:339-354 | Between resets the finalized head never regresses |
| `RollupNode.EpochPosition` | actions/harness/src/node.rs:643-708 | The sequence number of a derived block is its position within its L1 epoch |
| `RollupNode.FindLast` | actions/harness/src/node.rs:339-354 | The backward scan finds the most recent entry whose L1 origin the signal covers, or none |
| `RollupNode.LastWithin` | actions/harness/src/node.rs:339-354 | The reference search: an entry within the limit after which none is, or no such entry at all |
| `RollupNode.HeadTracker.TryFinalizePending` | actions/harness/src/node.rs:339-354 | Moves only the finalized head, to the scan's result when that is higher |
| `RollupNode.HeadTracker.L1FinalizedSignal` | actions/harness/src/node.rs:330-336 | Ignores a lower signal, otherwise retains it and retries finalization |
| `RollupNode.HeadTracker.ExecuteAndAdvance` | actions/harness/src/node.rs:643-708 | Advances the safe head to the derived block, records it with the number of its L1 origin, retries finalization and lifts the unsafe head when overtaken; `HistoryRecords` and `DeriveUnsafe` say what that makes of a run |
| `RollupNode.HeadTracker.DrainGossip` | actions/harness/src/node.rs:605-633 | Draining gossip equals folding it: only the next sequential block moves the unsafe head; `DrainTakes` says where to |
| `RollupNode.HeadTracker.Reset` | actions/harness/src/node.rs:362-389 | All three heads restart at the given one, the history is cleared, the L1 signal is retained |
| `ForkWindows.WindowRuleExact` | acceptance/src/config.rs:116-143 | The one-pass window rule holds if and only if nondecreasing builder heights exist at which every check is inside its window |
| `ForkWindows.ValidateStarts` | acceptance/src/config.rs:116-143 | Validation accepts exactly the well-formed start conditions that such heights can play |
| `ForkSchedule.ValidateForks` | acceptance/src/config.rs:144-182 | Accepts exactly the schedules of all five forks and no other, enabled ones a prefix in nondecreasing block order, post-Denim offset divisible by five; the subtraction never underflows |
| `ForkSchedule.VerifiedForks` | acceptance/src/config.rs:187-253 | Succeeds exactly when the schedule is accepted and the generated timestamps are the expected ones without overflow; lists enabled forks in order with those times |
| `ForkSchedule.ActivationExact` | crates/common/genesis/src/schedule.rs:29-69 | A block's second-granular timestamp reaches a fork's time exactly from its block on, if and only if the fork sits on a whole second and its time in milliseconds fits 64 bits |
| `ForkSchedule.ClockSaturates` | crates/common/genesis/src/schedule.rs:41-62 | A concrete genesis past the millisecond clock, where the timestamp never reaches the activation time |
| `ForkSchedule.MillisSaturate` | crates/common/genesis/src/rollup.rs:418-435 | For a Denim time taken from a block, the saturating block clock is the exact one cut off at the largest 64-bit millisecond |
| `ForkSchedule.MillisExact` | crates/common/genesis/src/schedule.rs:41-62 | The same for every configured Denim time, from the first legacy slot at or after it |
| `ForkSchedule.DenimBlockLeast` | crates/common/genesis/src/schedule.rs:28-32 | The Denim block is the least one whose legacy time reaches the configured time |
| `ForkSchedule.ExpectedSeconds` | acceptance/src/config.rs:187-253 | The expected timestamp of a fork is the exact clock in whole seconds, missing only when these do not fit 64 bits |
| `ForkSchedule.VerifiedBoundaries` | acceptance/src/config.rs:212-241 | In every verified schedule activation times follow fork order, and each separates blocks at its configured block iff it fits the millisecond clock |
| `AggregateWrite.Write` | acceptance/src/aggregate.rs:94-208 | With an acceptable manifest the run has its identity, scenarios and checks in manifest order and passes iff every artifact is valid, current and wanted, and each scenario has exactly one good result, with all evidence within the budget. A scenario with exactly one result of exactly its checks is reported with the stages of that result and its checks: each recorded status, or an error when some evidence was not copied, and exactly the copied evidence, relocated; any other is an error with every check blocked. Only the first scenario changes when artifacts are faulty, by one integrity stage in error at the end. Without results every check is blocked, without an acceptable manifest the run is the fixed error report; the bytes copied are those of the kept evidence, at most 20 MiB |
| `AggregateWrite.Gather` | acceptance/src/aggregate.rs:124-198 | The collected scenarios mirror the manifest, are what their results recorded, the first one marked exactly when something found is not a readable, wanted result of this run, and all pass iff the inputs are clean |
| `AggregateWrite.Collect` | acceptance/src/aggregate.rs:131-152 | Every result of this run is filed under its scenario in order; unreadable or foreign artifacts are errors |
| `AggregateWrite.Assemble` | acceptance/src/aggregate.rs:154-182 | Wanted scenarios are taken out of the index in manifest order, each reported from its own entries with the budget the ones before left; all pass iff each has one good result and the evidence fits together; the rest of the index is left |
| `AggregateWrite.LeftoverExact` | acceptance/src/aggregate.rs:183-185 | Something is left in the index iff some artifact reports a scenario the manifest does not list |
| `AggregateWrite.BuildScenario` | acceptance/src/aggregate.rs:156-182 | One wanted scenario: adopted from its only result if that has exactly its checks (its stages, and each check's recorded status or an error, with exactly the copied evidence), else an error with every check blocked and no evidence; it passes iff the result is all passed and its evidence copies within what is left |
| `AggregateWrite.AdoptResult` | acceptance/src/aggregate.rs:165-181 | An adopted result keeps its stages; each check, in manifest order, is the recorded one of its name with the copied evidence relocated, an error if that is not all of it; the status is derived and the counter grows by what was copied |
| `AggregateWrite.Synthetic` | acceptance/src/aggregate.rs:323-358 | A missing or invalid scenario is one stage in error and all its checks blocked without evidence |
| `AggregateWrite.MarkIntegrity` | acceptance/src/aggregate.rs:186-198 | Collection errors replace any earlier integrity stage by one in error at the end; checks and other stages stay |
| `AggregateWrite.WithoutIntegrityNext` | acceptance/src/aggregate.rs:186-198 | The other stages stay in their order |
| `AggregateWrite.NoCollisions` | acceptance/src/aggregate.rs:275-276 | While every bundle resolves, no two checks anywhere in the report list the same evidence path |
| `AggregateWrite.RelativeInjective` | acceptance/src/aggregate.rs:275-276 | A relocated path determines its scenario, its check and its file, as safe identifiers hold no separator |
| `AggregateWrite.CopyNext` | acceptance/src/aggregate.rs:252-293 | Copying goes on after a failure: the next file is kept exactly when it is available and fits what the files kept before it leave |
| `AggregateWrite.CopyEvidence` | acceptance/src/aggregate.rs:241-294 | A resolving bundle is copied check by check under one running counter; an unresolved one is left unchanged |
| `AggregateWrite.CopyCheckEvidence` | acceptance/src/aggregate.rs:252-293 | One check's evidence is copied left to right; what fails is dropped and turns the check to an error |
| `AggregateWrite.CopyExact` | acceptance/src/aggregate.rs:252-293 | The counter grows by exactly what was kept and never passes 20 MiB; nothing is dropped iff everything is available and fits |
| `AggregateWrite.CopyChecksExact` | acceptance/src/aggregate.rs:252-293 | Checks keep their places; all stay passed iff all were and their evidence is available and fits together |
| `AggregateWrite.PassedKeepsEvidence` | acceptance/src/aggregate.rs:275-292 | When the checks of a copied bundle pass, each lists its complete evidence under its relocated path |
| `AggregateWrite.CleanResolved` | acceptance/src/aggregate.rs:241-294 | While every bundle resolves, clean means: artifacts valid, current and wanted, and every scenario with exactly one result of exactly its checks, all passed and all their evidence available within the budget |
| `AggregateWrite.UnresolvedBundlePasses` | acceptance/src/aggregate.rs:247-251 | Concrete inputs where evidence is missing and the run is nevertheless clean, because its bundle stopped resolving after the result was read |
| `Aggregate.LoadExpected` | acceptance/src/aggregate.rs:60-90 | Accepts exactly the manifests with schema 1, an identity, and 1..=100 distinct safe scenarios of 1..=1000 distinct safe checks |
| `Aggregate.ValidateId` | acceptance/src/aggregate.rs:394-405 | Accepts exactly the identifiers of 1..=100 ASCII letters, digits, dashes and underscores |
| `Aggregate.CompareChecks` | acceptance/src/aggregate.rs:166-169 | Comparing identifier sets and lengths accepts exactly the results whose checks are the wanted ones, each once |
| `Aggregate.SortedIsManifestOrder` | acceptance/src/aggregate.rs:166-178 | Any arrangement of exactly the wanted checks that is sorted by manifest position is the manifest's own order |
| `Aggregate.ArrangeSame` | acceptance/src/aggregate.rs:176-178 | Sorting an exact result by manifest position yields the manifest's order |
| `Aggregate.Outcome` | acceptance/src/result.rs:135-148 | Passed iff there are checks and every stage and check passed; otherwise a recorded status (or error without checks), and nothing recorded is more severe |
| `Health.Observe` | acceptance/src/check.rs:296-481 | Healthy iff some round is the first at or past the end of the window, every round up to it had all roles answering, fresh, within lag and agreeing at the lowest head, the window ends before the deadline, and every role advanced by the minimum |
| `Health.SampleHeads` | acceptance/src/check.rs:315-362 | A round samples iff every role answers within the age limit and the five-second future allowance; first numbers stay baselines |
| `Health.CheckRound` | acceptance/src/check.rs:363-436 | A sampled round is sound iff heads lie within the lag and one hash is reported at the lowest of them |
| `Health.Compare` | acceptance/src/check.rs:378-436 | The comparison loop succeeds iff all roles report one hash at the common height, matching heads sampled there |
| `Health.Extremes` | acceptance/src/check.rs:363-365 | The lowest and highest sampled numbers, both attained |
| `Health.SeveralRounds` | acceptance/src/config.rs:749-753 | With a nonzero minimum a healthy verdict takes at least two rounds and the full duration |
| `Health.AheadOfEveryBaseline` | acceptance/src/check.rs:450-476 | At the end every role is ahead of every baseline by the minimum, up to the allowed lag |
| `WindowRunner.ScenarioRun.Execute` | acceptance/src/runner.rs:234-269 | Results keep one entry per check: those reached record their verdict, the others stay blocked; checks run at most once, in order, each right after a head on its side of its fork; one before a fork passes only between two heads below the activation; a fork has a crossing recorded if and only if some window of it saw a head at or past its activation, and the record is the first such head |
| `WindowRunner.ScenarioRun.RunCheck` | acceptance/src/runner.rs:238-266 | One check records exactly its verdict, leaves the others alone, and its observations justify it |
| `WindowRunner.ScenarioRun.Perform` | acceptance/src/runner.rs:248-266 | The check runs with its fork's activation as minimum timestamp and is demoted when coverage before the fork is unconfirmed |
| `WindowRunner.ScenarioRun.OpenWindow` | acceptance/src/runner.rs:277-353 | A window before a fork opens iff the first head seen is below it; after a fork iff some head reaches it by the deadline, else failed iff the builder was still answering, else error; the first head seen at or past the activation is recorded as the crossing unless one is, other forks are left alone, and an unknown fork aborts without effect |
| `WindowRunner.ScenarioRun.PollWindow` | acceptance/src/runner.rs:293-353 | The polling loop: what it saw, in order, and the crossing it recorded |
| `WindowRunner.ScenarioRun.Record` | acceptance/src/runner.rs:300-309 | One answer is logged and recorded as a crossing exactly when it is at or past the activation and none is recorded |
| `WindowRunner.ScenarioRun.ConfirmPreFork` | acceptance/src/runner.rs:359-399 | Confirmed iff the next head the builder reports by the deadline is below the activation |
| `WindowRunner.ExpiryDecides` | acceptance/src/runner.rs:331-346 | Polls after the deadline decide nothing: neither reaching the fork, nor opening a window, nor answering |
| `WindowRunner.TracedRun` | acceptance/src/runner.rs:234-267 | Adding one check's observations keeps run order, window placement and confirmed passes for the whole run |

## Left out

- EVM execution, trie computation, RLP, signature recovery and the tracer's output are not modelled; execution is an ordered list of applied transactions and roots are an arbitrary function of it.
- The EVM environment taken from the parent header and the withdrawals list of the assembled header are not distinguished.
- Header fields other than the base, the transactions, the state root and one commitment value are not told apart.
- `bundle_revision` and block-number increments are unbounded; 64-bit overflow of these counters is not modelled.
- Mutexes, threads, task abort and channel capacity are not modelled; the queue and the background task are explicit steps.
- Log messages, metrics and error texts are not modelled.
- The derivation pipeline, the engine client, the safe-head database and the derived transaction counters of the rollup node are not part of this model; the pipeline is assumed to yield attributes for the block after the safe head.
- Gossip blocks injected without a valid L1 info deposit panic in the source; the model covers the transport path, which falls back to a default origin.
- Scenario validation also bounds identifiers, durations, counts and chain IDs and restricts endpoints to known roles; these field-by-field tests, and reading the rollup JSON, are not modelled.
- Genesis at a nonzero L2 block number and a legacy block time other than two seconds are not modelled for fork times.
- AggregateWrite.Write: does not model writing the report files, which can make the call fail after the run is computed.
- Result discovery, JSON parsing, report validation, symlink handling and path resolution are summarised by whether an artifact is valid, whether a bundle resolves and the size of an evidence file that can be copied.
- Messages, durations and diagnostics of stages, checks and scenarios are not modelled.
- WindowRunner.ScenarioRun.Execute: starts after readiness; provisioning, endpoint validation and the readiness stage are omitted, and each polling loop is assumed to see its deadline pass.
- Health.Observe: judges a finite stream of rounds, reporting that sampling goes on when the stream ends; warm-up and sleeping only shape the stream and are omitted.
- The progress, convergence and freshness checks poll one head, several heads or a head's age until a threshold; only the health check, which combines the three tests in every round, is modelled.
- Provisioning of devnets, publishing to GitHub, HTML and Markdown rendering, the command-line programs and the scripts perform I/O and presentation and are not modelled.
