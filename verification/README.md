# Verified model of the BTP SDK

The BTP SDK talks to several blockchain networks through one service: it merges the contract
specifications of the networks, follows cross-chain messages and calls by their events, keeps
tasks in a database, and rolls them back when a block turns out not to be final. This project
models the parts of it where something can go wrong over time or across components, and proves
what they promise.

| files | what they model |
|---|---|
| `tracker_events`, `tracker_linker`, `tracker_class` | linking the events of one BTP message into a chain with a status, in place on a slice |
| `xcall_store`, `xcall_machine` | the tables, result goroutines, event monitors and finality passes of the xCall auto-caller, as a step relation over runs |
| `xcall_safety`, `xcall_delivery`, `xcall_unique`, `xcall_rows`, `xcall_outcome`, `xcall_origin`, `xcall_complete`, `xcall_rolledback`, `xcall_done`, `xcall_finality`, `xcall_passes`, `xcall_flags` | what holds in every run of it, and exactly when it does |
| `xcall_runs`, `xcall_lost`, `xcall_doubled`, `xcall_unbacked`, `xcall_race` | concrete runs in which something does not |
| `xcall_effects` | what every step that writes a task leaves in the tables, row by row and field by field |
| `xcall_autocaller` | the auto-caller's methods over mutable tables, each tied to its step |
| `spec_types`, `spec_resolver`, `spec_signatures` | structural equality of types, resolution of possibly cyclic structs on the heap, and reading event signatures back |
| `service_spec`, `service_merge`, `service_expand`, `service_methods`, `service_events` | merging the methods and events of several network types, collapsing overloads, expanding and dispatching |
| `finality_channels`, `finality_polling`, `finality_verdict`, `finality_monitor`, `finality_oracle` | the finality monitor: subscriptions over bounded channels, its workers, its verdicts, and the auto-caller's passes asking it |
| `eth_polling` | ranges of log queries made head by head, over big integers changed in place |
| `abi_topics` | topics of indexed event parameters, against "Encoding of Indexed Event Parameters" of the Solidity Contract ABI Specification |
| `repository_paging` | pages of a query result |
| `wrappers` | optional values and names |

Code that computes is a function; code that changes things step by step is a method, most often
of a class, proved against such a function. What the source promises is proved of the functions,
or of every run of the step relations built from them.

In the runs of the auto-caller a network's chain can be replaced from any event on, the process can
end and begin anew over the stored rows at any point, and every `dropBlock` starts another event
monitor while the running one goes on: both `Start` and `dropBlock` store the new cancel function in
a copy of the network entry. Stopping and starting in one process does the same, as result goroutines
and callbacks do not look at the context that is cancelled.

What the proofs show that a reader of the code may not expect:

- The event of a block that takes a dropped one's place can be lost: the running monitor stores a
  higher row before the monitor started by the drop opens its stream, which then resumes above that
  block (`DroppedEventIsLost`).
  A monitor delivers every event that is owed exactly when it resumes at or below the first of them
  (`OpenIsInTimeExactly`), and delivery survives a drop exactly when no monitor, row or copy is past
  what it dropped (`StepUndoesExactly`).
- A Rollback that is Done can be overwritten although neither the old branch nor the new one both
  answers the request successfully and rolls it back: one monitor still holds the answer of the old
  branch (`ReplacedBranchLosesDone`). Done is kept with one monitor per network, and as long as no
  request has been both answered successfully and rolled back, on whatever branch.
- A request can get two rows after a failed insert (`FailedInsertDoubles`), and with every save
  succeeding after a drop, when a goroutine puts the dropped row back (`DroppedRowComesBack`). In any
  run rows are unique exactly as long as what adds a row is for a request without one
  (`CallRowsUniqueExactly`).
- A row's finalized flag is kept when another block is recorded for it, which is then never checked
  (`FlagWithoutConfirmation`, and exactly when in `FlagsBackedExactly`).
- A contract can join an overload that names only some of the facets in which it differs, and is
  then given the base's value of the others (`WildcardJoins`). It gets its own signature exactly
  when the overload's facets are those in which it differs from the base (`PlaceTellsContract`).
- Merging an event whose contract agrees with the base again takes its network type out of its
  overload and puts it nowhere (`MergeLosesExactly`).
- Expanding an overload drops its payable and readonly facets (`ReexpansionKeepsFlagsExactly`).
- A finality monitor that is stopped and started while a worker is in a poll or holds a block can
  notify blocks out of order and judge finality by a lower block again (`RestartRegresses`); any
  such start can, and no other (`QuietStartExactly`).
- A pass drops blocks only when one was found replaced, never because the monitor could not tell
  (`OnlyReplacedBlocksAreDropped`).
- A replaced block that the node's index still knows counts as final below the last final block
  (`ReplacedBlockIsFinal`).
- Log polling from above the head leaps further ahead with its first query (`WithinHeadsExactly`).
- The first page whose offset is 2^63 or more shows the first rows again (`PagesAreRightUntilWrapped`).

## Model

| member | source | states |
|---|---|---|
| BtpEvents.StatusDescribes | tracker/bmc/tracker.go:506-528 | the folded status says which links the chain holds: no RECEIVE yet, a first non-final RECEIVE, a reply after it, or a closing link |
| BtpEvents.CompletedIffClosed | tracker/bmc/tracker.go:506-528 | a message is Completed if and only if a link is a DROP, a RECEIVE without Next while Sending, or a RECEIVE after a non-final RECEIVE and a later REPLY or ERROR |
| BtpLinker.LinkConserves | tracker/bmc/tracker.go:450-504 | links and remaining events are a permutation of the stored events, the remaining ones in their order, no event linked twice |
| BtpLinker.LinkIsGreedyAndMaximal | tracker/bmc/tracker.go:450-559 | the chain starts at the first SEND, every link is the first unlinked event that the addresses and kinds allow after the one before, and no remaining event is allowed after the last link of a chain that is not Completed |
| BtpLinker.LinksAreOnRoute | tracker/bmc/tracker.go:540-559 | of any two links next to each other: after a RECEIVE comes a REPLY, ERROR or DROP, after anything else an event at the address that is named as next, which returns to where it came from only as a RECEIVE; no event stored before it that is not linked yet does so |
| BtpLinker.CompletedExactlyAtTheEnd | tracker/bmc/tracker.go:468-528 | Completed exactly when the last link closes the message, and no earlier link does |
| BtpLinker.WalkConserves | tracker/bmc/tracker.go:467-480 | following links from any event only moves events from the remaining ones to the chain |
| BtpLinker.WalkGreedy | tracker/bmc/tracker.go:467-559 | each followed link is the first of the events still unlinked that may come next |
| BtpLinker.WalkMaximal | tracker/bmc/tracker.go:467-480 | the search stops without Completed only when no remaining event may follow |
| BtpLinker.WalkStatus | tracker/bmc/tracker.go:467-528 | the status is the fold of the followed links |
| BtpLinker.LinkExtends | tracker/bmc/tracker.go:262-287 | one more stored event keeps the links as a prefix and does not lower the status |
| BtpLinker.LinksOnlyGrow | tracker/bmc/tracker.go:406-480 | over every run of appended events, earlier links are a prefix of later ones and the status rank never decreases |
| BtpTracker.FindStartingEvent | tracker/bmc/tracker.go:530-538 | the first SEND and its index, or the zero event and -1 |
| BtpTracker.FindNextLink | tracker/bmc/tracker.go:540-559 | the first event that the addresses and kinds allow next, or the zero event if none does |
| BtpTracker.TrimBTPEvents | tracker/bmc/tracker.go:484-488 | shifting in place leaves the slice without the event at the index |
| BtpTracker.TrimBTPEventsById | tracker/bmc/tracker.go:490-504 | the slice without the event with this id; unchanged if there is none |
| BtpTracker.TakeNextLink | tracker/bmc/tracker.go:471-476 | the next link and the slice without it, or the zero event and the slice as it was |
| BtpTracker.GetLinks | tracker/bmc/tracker.go:450-482 | in-place linking returns the ids and status of the linked chain; the loop's own guard never ends it |
| BtpTracker.MessageTracker.UpdateLink | tracker/bmc/tracker.go:406-430 | relinking brings the status row up to date; a lookup that fails leaves no links and the status Unknown |
| BtpTracker.MessageTracker.OnBTPEvent | tracker/bmc/tracker.go:262-287 | storing an event only appends links and does not lower the status if and only if the lookup succeeds or there were no links; the network is the event's |
| XCallStore.SaveKeeps | autocaller/xcall/repository.go:245-253 | a guarded save, even one that re-inserts a deleted row, takes no row out of Done |
| XCallStore.ExecuteKeeps | autocaller/xcall/autocaller.go:326-359 | submitting a transaction, accepted or refused, takes no row into or out of Done |
| XCallStore.ResultKeeps | autocaller/xcall/autocaller.go:361-385 | whatever a result goroutine does with its stale copy, no row leaves or enters Done |
| XCallEffects.FailedStored | autocaller/xcall/autocaller.go:346-359 | a refused or reverted task is stored as Skip without its transaction if and only if the error is of the estimate and its reason InvalidRequestId - for Rollbacks InvalidSerialNum or RollbackNotEnabled - and otherwise as Error with its message and transaction; nothing else changes, and nothing at all when the save fails or the stored row is Done |
| XCallEffects.SubmissionStored | autocaller/xcall/autocaller.go:326-344 | a submitted task is stored as Sending with its transaction under the same guard, and the new goroutine has a copy with the key it was stored under; a refused one is stored as above |
| XCallEffects.AttemptStored | autocaller/xcall/autocaller.go:361-385 | a goroutine goes on while there is no result and otherwise ends: an unknown transaction is submitted again, a reverted one stored as above, an executed one stored as Sent with its block, every other field kept, under the guard |
| XCallEffects.CallEventsAreRecorded | autocaller/xcall/autocaller.go:270-324 | every step that handles a call event: which new row, copy or Done row the table has afterwards, field by field, for every event and every state of the row that was read, and where the handler is then |
| XCallEffects.RollbackEventsAreRecorded | autocaller/xcall/autocaller.go:387-466 | the same for the three rollback events: new row, answer, submission, Done row or panic |
| XCallEffects.ResultsAreRecorded | autocaller/xcall/autocaller.go:504-528 | every step of a result goroutine, of Calls and of Rollbacks, leaves the table as one attempt does and everything else as it was |
| XCallSafety.StepKeepsDone | autocaller/xcall/autocaller.go:270-528 | every step but a drop keeps Done Calls, and takes a Rollback out of Done if and only if it is the unguarded write of a NotApplicable response |
| XCallSafety.StepKeepsOpen | autocaller/xcall/autocaller.go:387-466 | with one monitor per network the row a handler holds cannot become Done behind its back |
| XCallSafety.CallPassEffect | autocaller/xcall/autocaller.go:554-609 | a committed pass over Calls sets flags only, or sets flags and drops |
| XCallSafety.RollbackPassEffect | autocaller/xcall/autocaller.go:611-688 | a committed pass over Rollbacks sets flags only, or sets flags and drops |
| XCallSafety.DoneCallsStayDone | autocaller/xcall/autocaller.go:270-385 | in every run, under any interleaving and any number of monitors, a Done Call stays Done until a drop |
| XCallSafety.DoneRollbacksStayDone | autocaller/xcall/autocaller.go:387-528 | in every run in which no monitor is started while others go on, a Done Rollback stays Done |
| XCallDelivery.ResumesInTime | autocaller/xcall/autocaller.go:250-268 | as long as rows and copies are not above owed events, the height of the newest row is at or below the first owed event |
| XCallDelivery.OpensAtNewestRow | autocaller/xcall/autocaller.go:219-268 | a stream begins with the first event at or above the highest event height of the Calls and Rollbacks of its network, or the initial height if that is below 1 |
| XCallDelivery.OpenIsInTimeExactly | autocaller/xcall/autocaller.go:219-268 | a monitor that opens its stream has left no owed event behind if and only if the height it starts at is at or below the first of them |
| XCallDelivery.StepUndoesExactly | autocaller/xcall/autocaller.go:690-724 | after a drop or a replaced branch, rows, copies and monitors are still not past any owed event if and only if none of the network was past the first that became owed |
| XCallDelivery.NoEventSkipped | autocaller/xcall/autocaller.go:219-268 | in every run in which no drop and no new branch finds a monitor, row or copy past it - errors, restarts, failing saves and second monitors included - every event from the initial height on behind a monitor's position has been handled, and handled again if it was dropped or replaced |
| XCallDelivery.MonitorLeavesNothingOwed | autocaller/xcall/autocaller.go:219-268 | in every run, a monitor that starts in time whenever it opens its stream leaves no owed event behind, until events of its network are dropped or replaced, or its process ends |
| XCallDelivery.DroppedEventsAreHandledAgain | autocaller/xcall/autocaller.go:690-724 | in every run, the events from a drop's height on are owed, and the monitor started by the drop has handled every one it got past if it starts in time |
| XCallLost.DroppedEventIsLost | autocaller/xcall/autocaller.go:690-724 | a run over two branches in which the monitor started by a drop at 6 resumes at 7, both monitors are past the new event at 6, nothing is left to wait for and its request has no row |
| XCallUnique.OneRowPerRequest | autocaller/xcall/autocaller.go:270-344 | at most one Call row per network and positive request id in runs in which no monitor is started while others go on and submitted calls are inserted, however often events are redelivered and whatever other saves fail |
| XCallUnique.AcceptedMessageHasRow | autocaller/xcall/autocaller.go:282-300 | in such runs in which refused calls are inserted too, an accepted CallMessage has a Call row |
| XCallRows.CallRowsUniqueExactly | autocaller/xcall/repository.go:245-253 | in every run - drops, branches, second monitors, restarts and failing saves included - no request has two Call rows in any of the first states if and only if every save that adds a row, without a key or with one that is not in the table, is for a request without a row; without drops it is enough to look at the last state |
| XCallRows.RollbackRowsUniqueExactly | autocaller/xcall/repository.go:351-359 | the same for Rollbacks and serial numbers |
| XCallDoubled.FailedInsertDoubles | autocaller/xcall/autocaller.go:326-385 | a run without a drop in which one save fails and a request ends with two rows |
| XCallDoubled.DroppedRowComesBack | autocaller/xcall/autocaller.go:361-385 | a run in which no save fails: after a drop the goroutine of a dropped row puts it back beside the one inserted since |
| XCallOutcome.DoneRowsRecordTheirExecution | autocaller/xcall/autocaller.go:298-323 | in every run, drops, replaced branches and second monitors included, a Done row records transaction, block and result of an accepted execution event of its own network and request |
| XCallOrigin.RowsRecordTheirEvents | autocaller/xcall/repository.go:96-209 | in every run, drops, replaced branches and second monitors included, every Call row and copy has block, request id and contents of an accepted CallMessage of its network, every Rollback endpoints and trigger block of a CallMessageSent and the block of a ResponseMessage to the same serial number, or none |
| XCallOutcome.LosingIsInconsistent | autocaller/xcall/autocaller.go:407-440 | a step takes a Rollback out of Done only by accepting a success response to a serial number whose execution has been accepted |
| XCallOutcome.DoneRollbacksStayDoneIfConsistent | autocaller/xcall/autocaller.go:387-528 | in every run, as long as no serial number has been both answered with success and executed on any branch, a Done Rollback stays Done until a drop, however many monitors, drops and branches there were |
| XCallComplete.ExecutedRequestsAreDone | autocaller/xcall/autocaller.go:270-324 | in runs in which no monitor is started while others go on and new requests are inserted: once the execution event of a request announced before is accepted, the request's Call row is Done |
| XCallRolledBack.RolledBackRequestsAreDone | autocaller/xcall/autocaller.go:387-466 | in runs in which no monitor is started while others go on, saves failing or not: once the rollback of a serial number sent before is accepted - its handler did not panic - the Rollback row is Done |
| XCallDone.AcceptedExecutionStaysDone | autocaller/xcall/autocaller.go:302-323 | in every run: when an execution event is accepted by a handler whose row was in the table since the last drop, the row of the request is Done until the next drop |
| XCallDone.AcceptedRollbackStaysDone | autocaller/xcall/autocaller.go:436-464 | the same for the rollback of a serial number, as long as none has been both answered with success and executed |
| XCallFinality.DropCleans | autocaller/xcall/autocaller.go:690-724 | after a drop at h >= 1 no row of the network has an event, trigger or execution height of h or more; exactly the rows announced below h survive, those executed at h or later as Sending without block and result, Rollbacks answered at h or later as None without answer and transaction, all with their flags; every other row is untouched, and one more monitor is to start |
| XCallFinality.DropResumesBelow | autocaller/xcall/autocaller.go:250-268 | the height a monitor reads after a drop at h, before anything else is written, is below h |
| XCallFinality.PassFlagsOnlyConfirmed | autocaller/xcall/autocaller.go:554-688 | a pass flags only pending rows of its own table, network and height range, whose recorded block the monitor confirmed in that same pass; a mark keeps its block or loses it in a drop |
| XCallFinality.FlaggedWasConfirmed | autocaller/xcall/autocaller.go:554-688 | of each flag of each row: a pass sets it only for its own network and table, for a recorded height from 1 up to the finalized one, and for the recorded block if the monitor confirmed it |
| XCallPasses.CallPassEndsExactly | autocaller/xcall/autocaller.go:554-609 | a pass over Calls drops or aborts at a block some unflagged event records, or, when all of those are confirmed, some unflagged execution, if and only if the monitor does not find it or does not decide; it commits its flags if and only if all are confirmed |
| XCallPasses.RollbackPassEndsExactly | autocaller/xcall/autocaller.go:611-688 | the same for Rollbacks over the blocks of sendings, then of answers, then of executions |
| FinalityOracle.OnlyReplacedBlocksAreDropped | autocaller/xcall/autocaller.go:554-688 | asked of the finality monitor, a pass drops a height only if an unflagged row of its network records a block there which is not the last final one at its height, or which the index, answering, does not know at that lower height; a failing lookup never makes one drop |
| XCallFlags.EventFlagsAreBacked | autocaller/xcall/autocaller.go:554-688 | in every run, if the event of a row, or the sending of its request, is flagged at a height of 1 or more, a pass of its network has asked for that very height and block before and was told it is final |
| XCallFlags.FlagsBackedExactly | autocaller/xcall/autocaller.go:302-385 | all flags, those of executions too, are backed by such a confirmation throughout a run if and only if every block that an executed event or a result records on a record whose flag is already set had been confirmed before |
| XCallUnbacked.FlagWithoutConfirmation | autocaller/xcall/autocaller.go:302-323 | a run at whose end a Done Call is flagged with a block that no pass has confirmed |
| XCallFinality.DropLowersBacklog | autocaller/xcall/autocaller.go:690-724 | dropping at a pending row's height strictly lowers the number of unflagged heights |
| XCallFinality.RoundProgress | autocaller/xcall/autocaller.go:554-688 | a round of both passes either lowers the backlog or flags every height up to the finalized one |
| XCallFinality.RepeatedPassesFinish | autocaller/xcall/autocaller.go:530-688 | repeated rounds at a height the monitor decides end with every row height in 1..h of the network flagged, after at most as many drops as there were unflagged heights |
| XCallRace.ReplacedBranchLosesDone | autocaller/xcall/autocaller.go:690-724 | a run over two branches, each of them consistent, in which the first monitor overwrites a Rollback that the one started by the drop made Done |
| XCallAutoCaller.AutoCaller.Start | autocaller/xcall/autocaller.go:173-186 | fails if and only if it is running; otherwise a monitor for every network is added to those there are |
| XCallAutoCaller.AutoCaller.Stop | autocaller/xcall/autocaller.go:188-198 | fails if and only if it is not running; ends nothing by itself |
| XCallAutoCaller.AutoCaller.GetMonitorHeight | autocaller/xcall/autocaller.go:250-268 | the highest event height of the rows of the network in both tables, or 0 |
| XCallAutoCaller.SaveTask | autocaller/xcall/repository.go:245-253 | inserts without a key, otherwise saves unless the stored row is Done |
| XCallAutoCaller.ExecuteTask | autocaller/xcall/autocaller.go:326-344 | submits, saves under the guard and follows the result |
| XCallAutoCaller.OnTaskError | autocaller/xcall/autocaller.go:346-359 | the record is stored as that of a failed task, as stated above of the table itself |
| XCallAutoCaller.TaskResult | autocaller/xcall/autocaller.go:361-385 | one attempt of a result goroutine: wait, resubmit, fail, or Sent with its block |
| XCallAutoCaller.CompleteTask | autocaller/xcall/autocaller.go:308-321 | the row is Done with what the executed event reports, or the save fails |
| XCallAutoCaller.AutoCaller.OnCallEvent | autocaller/xcall/autocaller.go:270-324 | takes the Call table through the step of the event and returns its verdict |
| XCallAutoCaller.AutoCaller.OnRollbackEvent | autocaller/xcall/autocaller.go:387-466 | takes the Rollback table through the step of the event and returns its verdict, the panic included |
| XCallAutoCaller.AutoCaller.FinalizeCall | autocaller/xcall/autocaller.go:554-609 | a transaction over both columns of the Call table: flags, a drop, or nothing at all |
| XCallAutoCaller.AutoCaller.FinalizeRollback | autocaller/xcall/autocaller.go:611-688 | a transaction over the three columns of the Rollback table: flags, a drop, or nothing at all |
| XCallAutoCaller.AutoCaller.DropBlock | autocaller/xcall/autocaller.go:690-724 | the deletes and resets in their order are the drop of the model, and another monitor is started |
| SpecTypes.EqualsIsSameShape | contract/spec.go:453-469 | types are equal if and only if they have the same shape: dimension, value type or unknown name, and fields' shapes by name |
| SpecTypes.EqualsIsSameShapes | contract/spec.go:471-486 | equal sizes and a one-sided key check are the same shape on both sides |
| SpecTypes.TypeEqualityIsEquivalence | contract/spec.go:453-469 | reflexive, symmetric, transitive, for any nesting |
| SpecTypes.FieldEqualityIsEquivalence | contract/spec.go:471-486 | reflexive, symmetric, transitive, for any nesting |
| SpecResolver.TypeSpec.ResolveType | contract/spec.go:227-252 | terminates although structs may be cyclic; afterwards the type spec has its final tag and type, and nothing resolved before is undone |
| SpecResolver.TypeSpec.Descend | contract/spec.go:228-241 | an unknown type becomes the struct it names before the struct is resolved, which is what the recursion decreases |
| SpecResolver.StructSpec.ResolveType | contract/spec.go:374-392 | every field is resolved in whatever order, and the struct gets the record type of its fields; it fails only if some struct is not well-formed |
| SpecResolver.StructSpec.MakeType | contract/spec.go:381-391 | the record type is made if and only if the names are accepted and every field has a type |
| SpecResolver.ResolveStructs | contract/spec.go:421-425 | resolving all structs completes if and only if each has acceptable names and only fields of a value type or a named struct |
| SpecResolver.ResolveSpec | contract/spec.go:406-451 | exactly when reading a specification completes, and that every field, input and output then points to the struct it names with the types its name and dimension stand for, and every event has a signature that reads as its name and the types of its parameters |
| SpecResolver.EventSpec.ResolveType | contract/spec.go:327-347 | completes if and only if every parameter, those overwritten by a later one of the same name included, has a type with a name and no negative dimension; the signature then reads as the name of the event and the tags and dimensions of all of them in order |
| SpecResolver.EventSpec.Sign | contract/spec.go:335-346 | completes if and only if every parameter has a named type and no negative dimension by then; the signature reads as the name and these types |
| SpecResolver.TagWhenSigned | contract/spec.go:327-343 | the tags in a signature are those the parameters have when it is made |
| SpecResolver.ParameterTagIs | contract/spec.go:314-333 | a parameter overwritten by a later one of the same name keeps the tag of its own name, the others that name a struct are structs |
| SpecResolver.SameSignatureExactly | contract/spec.go:335-346 | resolved events whose names have no comma, parenthesis or bracket have the same signature if and only if they have the same name and as many parameters, of the same tags and dimensions |
| SpecSignatures.SignatureReads | contract/spec.go:72-79 | a signature reads as the name, a parenthesis, and between single commas int, bool, str, bytes, struct or Address for each tag with a pair of brackets for each dimension, and a parenthesis |
| SpecSignatures.SignaturesTellEventsApart | contract/spec.go:327-347 | texts that read as signatures of names without comma, parenthesis or bracket are the same if and only if the names, tags and dimensions are |
| SpecResolver.ResolvedTypesAre | contract/spec.go:227-252 | a resolved type spec has the predefined type of its tag - Struct, if its unknown name is that of a struct - in as many slices as it has dimensions, or none for Unknown and Void; and for a struct also the record of its fields in as many |
| SpecResolver.FieldTypesAre | contract/spec.go:381-391 | a struct's record type lists its fields in order, each at the predefined type of its tag in as many slices as it has dimensions, so cyclic structs have finite types |
| ServiceMerge.MergeSound | service/spec.go:181-218 | a merge keeps every merged network type in exactly one place, which agrees with its contract, and keeps the base signature |
| ServiceMerge.MergeAllSound | service/service.go:50-67 | after any sequence of merges with one contract per network type, each network type sits in the base with an agreeing contract or in the first overload its contract is compatible with |
| ServiceMerge.PlaceTellsContract | service/spec.go:181-218 | in the base all facets agree; in an overload every named facet agrees, and the whole effective signature agrees if and only if the overload's flags are the comparison's |
| ServiceMerge.WildcardJoins | service/spec.go:695-709 | a contract differing in two facets joins an overload naming one of them and loses the other, whatever the base |
| ServiceMerge.AddAllToBaseSound | service/spec.go:183-193 | network types whose contract agrees with the base are added there, each once |
| ServiceMerge.AddToOverloadSound | service/spec.go:194-216 | network types whose contract differs go to the first compatible overload, or to a new one with the differing facets |
| ServiceMerge.DifferingMergeMoves | service/spec.go:194-216 | whatever was merged before: network types whose contract differs leave the base and join the first overload none of whose facets the contract contradicts, or else a new one with exactly the facets in which it differs; nothing else changes |
| ServiceMerge.AgreeingMergeMoves | service/spec.go:183-193 | network types whose contract agrees leave their overloads for the end of the base; nothing else changes |
| ServiceMerge.MergedIs | service/spec.go:808-816 | merging lists appends, prefix by prefix, the elements that the first does not have, as often as the second has them |
| ServiceMerge.RemovedAllCount | service/spec.go:195-200 | removing each of some elements leaves of every element as many as there were more |
| ServiceExpand.CollapseKeepsNetworkTypes | service/spec.go:220-247 | collapsing succeeds if and only if no facets are demanded or every overload has exactly those; no network type is lost or duplicated and no overload is left |
| ServiceExpand.CollapseTakesFacets | service/spec.go:233-245 | without demanded facets the signature is the contract's; otherwise the demanded ones become the contract's and the others, and those equal to it already, stay |
| ServiceExpand.DispatchFinds | service/mergedservice.go:82-111 | an expanded method keeps the merged signature and network types and has an overload for exactly the network types the original supports: the base's first, then one for each overload |
| ServiceExpand.ReexpansionPreservesMeaning | service/mergedservice.go:82-111 | every network type keeps inputs and output, and an override is present if and only if its facet differs from the merged one |
| ServiceExpand.ReexpansionKeepsFlagsExactly | service/mergedservice.go:82-111 | payable and readonly survive for the original's base, and for an overload exactly when they equal the merged ones |
| ServiceExpand.DispatchServesContracts | service/mergedservice.go:167-237 | from contracts through merging, collapsing and expanding: every network type is dispatched and converted to its own contract's inputs and output, exactly when merging overrode that facet where it differs |
| ServiceMethods.StringSetIndex | service/spec.go:779-786 | the first index of the element, or -1 if there is none |
| ServiceMethods.StringSetRemove | service/spec.go:800-806 | the list without the first occurrence, and whether there was one |
| ServiceMethods.StringSetMerge | service/spec.go:808-816 | the list and the elements of the other that it does not have |
| ServiceMethods.MethodSpec.FindOverload | service/spec.go:172-179 | the first overload that supports the network type |
| ServiceMethods.MethodSpec.FindCompatible | service/spec.go:201-207 | the first overload the contract does not contradict |
| ServiceMethods.MethodSpec.MoveToBase | service/spec.go:185-192 | takes the network type out of its overload and appends it to the base |
| ServiceMethods.MethodSpec.MergeContract | service/spec.go:181-218 | merging in place is the merge of the model and returns the differing facets |
| ServiceMethods.MethodSpec.OverloadTypes | service/spec.go:221-230 | the overloads' network types, unless one of them has other facets than demanded |
| ServiceMethods.MethodSpec.MergeOverloads | service/spec.go:220-247 | collapsing in place is the collapse of the model; on an error nothing has changed |
| ServiceMethods.NewMethodSpec | service/mergedservice.go:82-111 | the expanded method, on a fresh object |
| ServiceMethods.MergeAll | service/mergedservice.go:172-199 | one loop over methods or events in any order, for any merge handler: completes if and only if the handler accepts each and leaves it without overloads; each is then as the handler left it, and those it merged are expanded |
| ServiceMethods.NewMergedService | service/mergedservice.go:167-205 | built if and only if all methods and all events can be merged; a failing method is reported before any event is looked at |
| ServiceMethods.MergeMethodOverloads | service/bmc/service.go:109-117 | the handler of the BMC service collapses the methods in its table and keeps the others |
| ServiceMethods.InfoHandlerMerges | service/bmc/service.go:109-117 | a method is kept if and only if it is not in the table, refused if and only if facets are demanded and an overload has others, and otherwise left without overloads and with all its network types |
| ServiceMethods.ServiceDispatches | service/mergedservice.go:219-237 | exactly when a call is refused, passed through or converted, and that a conversion is from and to the original's inputs and output |
| ServiceMethods.ServiceDispatchesEvents | service/mergedservice.go:274-328 | the same for event filters and callbacks: parameters and indexed parameters are the original's |
| ServiceEvents.MergeLosesExactly | service/spec.go:282-320 | a merged network type is supported afterwards unless its contract agrees with the base and it was in an overload only |
| ServiceEvents.AgreeingMerge | service/spec.go:284-295 | where every network type is after a merge with an agreeing contract: those in an overload only are nowhere, new ones in the base, all others where they were |
| ServiceEvents.DifferingEventMoves | service/spec.go:296-320 | network types whose contract differs leave the base and join the first overload the contract does not contradict, or else a new one with exactly the facets in which it differs; nothing else changes |
| ServiceEvents.AgreeingMergeAppends | service/spec.go:284-295 | merging an agreeing contract changes no facets and appends to the base |
| ServiceEvents.EqualsIndexedIsSameNames | service/spec.go:633-647 | with no duplicates on the left, comparing by length and one inclusion is equality of the names |
| ServiceEvents.DuplicatesCompareOneWay | service/spec.go:633-647 | with a duplicate on the left it is not symmetric |
| ServiceEvents.EventReexpansionPreservesMeaning | service/mergedservice.go:136-165 | every network type keeps its parameters, and its indexed parameters as a set of names when the merged event lists none twice |
| ServiceEvents.EventOverridesExactly | service/mergedservice.go:136-165 | when overloads of the original override only what differs from its base, an override is present if and only if the facet differs from the merged one; for indexed parameters when the merged event lists none twice |
| FinalityChannels.GapFreeDelivery | contract/monitor.go:93-243 | in every run, with any buffer sizes and any number of workers: no channel is closed twice or sent to after closing, a non-empty subscription map implies started, and received plus buffered values are exactly the notifications from subscription to removal |
| FinalityChannels.StepKeeps | contract/monitor.go:93-243 | every call, notification and receive keeps this and does not panic |
| FinalityChannels.SubscriptionEndsExactly | contract/monitor.go:100-111 | a subscription ends if and only if it is removed, the monitor is stopped, or a notification finds its buffer full and no receiver waiting |
| FinalityChannels.NotificationIsKept | contract/monitor.go:100-111 | a notification goes to a receiver waiting on an empty channel, into the buffer while that has fewer blocks than its capacity, and otherwise closes the channel |
| FinalityChannels.StartedExactly | contract/monitor.go:129-180 | which call starts or stops the monitor: removing a subscription stops it if and only if no other is left |
| FinalityChannels.RemovedStaysRemoved | contract/monitor.go:93-98 | a removed subscription keeps nothing but what is buffered, for good |
| FinalityPolling.DeliveriesAscend | contract/eth/monitor.go:140-160 | when every start finds earlier workers quiet, each subscriber gets strictly ascending heights and the judging block is the highest notified |
| FinalityPolling.StartedOnceAscends | contract/monitor.go:129-162 | the same for every caller that starts the monitor once |
| FinalityPolling.QuietStartExactly | contract/monitor.go:129-174 | a start finds the earlier workers quiet if and only if no continuation with quiet starts loses the order, from every state the monitor can be in |
| FinalityPolling.PollStepKeeps | contract/monitor.go:129-174 | every step of callers and workers keeps at most one worker that can notify, ahead of everything notified |
| FinalityPolling.FailedWorkerServesAgain | contract/monitor.go:129-162 | after an error a worker serves again, from the last block notified or a new latest one |
| FinalityPolling.RestartRegresses | contract/monitor.go:129-174 | a stop and start while a worker holds a block: a subscriber gets the lower block after the higher one, and finality is judged by the lower |
| FinalityVerdict.VerdictByChain | contract/monitor.go:188-222 | in every run with blocks of the chain and an index that answers by it or fails: final, not yet and not found are exactly on the chain, above the last final block, off the chain, and an error exactly without a last block or with a failing lookup below it |
| FinalityVerdict.VerdictExactly | contract/monitor.go:197-222 | in every run and for any index, when each of the five answers is given: not found only of another block at the last height, or of a lower one that the index, answering, does not have at that height |
| FinalityVerdict.ReplacedBlockIsFinal | contract/monitor.go:197-222 | a block off the chain is called final if and only if it is below the last final block and the index still answers for it |
| FinalityMonitors.FinalityMonitor.Subscribe | contract/monitor.go:224-243 | starts the monitor, with one more worker unless it was started, and adds a fresh channel |
| FinalityMonitors.FinalityMonitor.Unsubscribe | contract/monitor.go:232-239 | removes the subscription and stops with the last one |
| FinalityMonitors.FinalityMonitor.Remove | contract/monitor.go:93-98 | closes the channel and deletes the entry, if there is one |
| FinalityMonitors.FinalityMonitor.Notify | contract/monitor.go:100-111 | sends to every subscription in any order, cutting off those without room |
| FinalityMonitors.FinalityMonitor.Start | contract/monitor.go:129-162 | the monitor is started, with one more worker unless it was |
| FinalityMonitors.FinalityMonitor.Stop | contract/monitor.go:164-180 | closes and removes every subscription |
| FinalityMonitors.FinalityMonitor.Receive | contract/monitor.go:37-39 | the oldest buffered block, also after closing |
| FinalityMonitors.BlockChannel.TrySend | contract/monitor.go:104-108 | succeeds if and only if a receiver waits or the buffer has room |
| EthRanges.RangesInClosedForm | contract/eth/adaptor.go:284-305 | an initial gap g is closed by exactly ceil(g / 2048) queries, all but the last of 2049 blocks, and every later query is the polled head alone |
| EthRanges.RangesTile | contract/eth/adaptor.go:284-305 | each query starts one past the end of the one before, spans at most 2049 blocks and ends at or below its head |
| EthRanges.WithinHeadsExactly | contract/eth/adaptor.go:284-305 | queries stay at or below the polled heads if and only if the start height is at or below the first head |
| EthRanges.EveryBlockQueriedOnce | contract/eth/adaptor.go:284-305 | after the gap is closed every block from the start to the head has been queried exactly once, when it existed |
| EthPolling.BigInt.Add | contract/eth/adaptor.go:304 | a sum written into the receiver, which may be an operand |
| EthPolling.OnBlockHeader | contract/eth/adaptor.go:284-306 | queries the next range and moves the start one past it, although start, end and header share their numbers |
| EthPolling.PollHead | contract/eth/adaptor.go:383-417 | one arrived header is queried for and the next is polled |
| EthPolling.MonitorEvent | contract/eth/adaptor.go:250-310 | the queries made are the ranges above, as many as the node's answers lead to |
| EthPolling.QueryCountIs | contract/eth/adaptor.go:383-417 | as many queries as headers arrive up to and with the first whose query fails; turns without a header make no difference |
| AbiTopics.WordsAreWhole | contract/eth/result.go:322-374 | encoding fails exactly for unsupported values and malformed integers, and always makes whole 32-byte words |
| AbiTopics.WordsArePaddedEncoding | contract/eth/result.go:322-374 | for every nested value the words are the standard's in-place encoding, padded |
| AbiTopics.WordsSpellExactly | contract/eth/result.go:322-374 | the words of a value byte by byte, at any nesting: base-256 digits of numbers modulo 2^256, 0 or 1 in the last byte for booleans, addresses cut to their last 20 bytes or with zeros in front, contents of text and bytes followed by fewer than 32 zeros up to whole words; failure exactly when there are no such words |
| AbiTopics.TopicsAreStandard | contract/eth/result.go:305-320 | topics are the standard's: the word itself of a value type, the hash of the unpadded contents of top-level text and bytes, the hash of the encoding of the rest |
| AbiTopics.TopicsSpell | contract/eth/result.go:305-320 | the topic is such a word of a value type, the hash of the contents of top-level text or bytes, or the hash of such words of a group |
| AbiTopics.RoundTrip | contract/eth/result.go:322-374 | decoding by shape gives back every value with in-range integers and 20-byte addresses, at any nesting |
| AbiTopics.WordsAreInjective | contract/eth/result.go:322-374 | values of one shape have the same words if and only if they are the same |
| AbiTopics.IntegerWordsCoincide | contract/eth/result.go:330-335 | any two integers have the same word if and only if they are congruent modulo 2^256 |
| AbiTopics.MakeWords | contract/eth/result.go:322-374 | appending the members' words one by one makes exactly the words that spell the value |
| AbiTopics.NewTopic | contract/eth/result.go:305-320 | exactly the topic stated above |
| RepositoryPaging.PagesConcatenate | database/repository.go:257-285 | pages 0 to TotalPages - 1 are non-empty and concatenate to the ordered result; with size 0 every page is the whole result |
| RepositoryPaging.PageCounts | database/repository.go:257-285 | every page says how many rows the whole result has, and the number of pages: 0 without rows, 1 without a size, otherwise the least that hold all rows |
| RepositoryPaging.TotalPagesIsLeast | database/repository.go:272-278 | the rounded-up quotient is the least number of pages that hold all rows |
| RepositoryPaging.FloatTotalPages | database/repository.go:272-278 | the quotient of doubles, however it and the size are rounded, rounds up to that number for fewer than 2^53 rows |
| RepositoryPaging.LaterPagesAreEmpty | database/repository.go:257-285 | a later page is empty if and only if its wrapped offset is past the last row, always while the product stays below 2^63 |
| RepositoryPaging.PagesAreRightUntilWrapped | database/repository.go:257-285 | for every size: below the first page whose offset is 2^63 or more each has the rows from its offset on, as many as fit, and that page, past the last, shows the first page again |

## Left out

- Tracker: creating block and status rows, `Relink`, and `dropBlock`, which removes events without relinking; runs only append events. A serial number of 0 makes the event query match every serial number; the model starts from the queried events.
- Auto-caller: a transaction is one atomic step, a query reads one state, and the guarded save's lock by row and the finality passes' lock by network are not modelled as locks.
- Auto-caller: initial heights are at least 1 and network names not empty; events of one network arrive in the order of its present branch, and a stream that is past the fork goes on anywhere on the new branch. The two queries for the newest rows and the opening of the stream are one step: a monitor streams from when it has read the height. Tables start empty, and a restart keeps what they hold.
- XCallUnique.OneRowPerRequest: says nothing about request id 0, for which the query by example matches any request of the network, nor about runs with a drop; `XCallRows.CallRowsUniqueExactly` covers those.
- XCallRows.CallRowsUniqueExactly: request ids and serial numbers are at least 1.
- XCallRows.RollbackRowsUniqueExactly: likewise.
- XCallOutcome.DoneRowsRecordTheirExecution: request ids and serial numbers are at least 1; 0 matches every row of the network in the query by example.
- XCallOrigin.RowsRecordTheirEvents: likewise.
- XCallOutcome.DoneRollbacksStayDoneIfConsistent: likewise.
- XCallRolledBack.RolledBackRequestsAreDone: likewise; says nothing about runs with a drop.
- XCallComplete.ExecutedRequestsAreDone: says nothing about request id 0 or runs with a drop; `XCallDone.AcceptedExecutionStaysDone` covers those for the row that was read.
- XCallSafety.DoneRollbacksStayDone: says nothing about runs with a drop, where `XCallRace.ReplacedBranchLosesDone` shows it fails; `XCallOutcome.DoneRollbacksStayDoneIfConsistent` covers them under its condition.
- XCallPasses.CallPassEndsExactly: the monitor gives one answer about a block throughout a pass.
- XCallPasses.RollbackPassEndsExactly: likewise.
- FinalityOracle.OnlyReplacedBlocksAreDropped: likewise; recorded block ids stand for the monitor's by any function.
- XCallFinality.RepeatedPassesFinish: the event monitors do not run between the passes.
- SpecTypes.TypeEqualityIsEquivalence: resolved types are finite trees; comparing two types that refer back to themselves need not end in the source.
- SpecResolver.ResolveSpec: whether the run-time record type accepts a struct's field names is an input, and so are the inputs of methods that their maps hold.
- Service specs: structs and their conflicts, names of methods, collapsing the overloads of events, and the spec's own list of network types, whose merged value the source discards. Flags are booleans, not bits. Overload records and events are values; that a caller could hold on to one is not captured.
- ServiceMethods.NewMergedService: the merge handler's answer depends on the method or event alone; what it does to parameters, results, filters and events is not modelled.
- Finality monitor: the retry sleep, the race between asking whether it is started and reading the last block, and the supplier that is pushed every block instead of polling. A notification is one step, as receives on different channels do not affect one another.
- FinalityPolling.DeliveriesAscend: only for suppliers that poll.
- Log polling: the subscription that is tried first, the filter's topics and addresses, and matching logs to events; the node's answers are inputs.
- Topics: hexadecimal digits of addresses and decimal or hexadecimal digits of integers; a value carries what they stand for. The hash is any function. Bytes are always hashed, as in the source, so the standard's fixed-size byte types, which would not be, cannot be filtered by.
- RepositoryPaging.FloatTotalPages: rounding is described by what it cannot change - whole numbers up to 2^53, and a relative error of 2^-53 - and row counts from 2^53 on are not covered.
- Repositories: the map of locks, nested transactions, and SQL itself.
- Codecs, parameter conversion, RPC clients, signing, the web server and its documents, logging and configuration.
