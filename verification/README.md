# Verified models of the distributed-systems assignments

Dafny models, with proofs, of five programs kept in this repository:

* **two-phase commit** between a transaction manager and its workers (`transaction_management/`), with crashes and
  restarts between any two durable writes and sends;
* the workers' **undo log**, a write-ahead log with a backward scan;
* the **vector clocks** every node keeps, saves and sends;
* two programs for the **bully election** (`bully_algorithm_fg_mpi/`, `bully_algorithm/`);
* the **command parser** of the status server (`client_server/`), and the **wire formats** all of them use.

Run `dafny verify dfyconfig.toml` (Dafny 4.11) to check everything.

## How the models are laid out

Code that changes state in place is modelled in place: `WorkerProcess.Process`, `ManagerProcess.Manager`,
`CommandServer.Connection`, `ElectionNode.Process` and `UdpElection.Process` are classes whose methods follow the
handlers and loops of the source; clocks and wire buffers are arrays. Each method is proved against a function of the
old state, and these functions are the steps of the systems over which the theorems are proved.

| files | content |
|---|---|
| `Messages`, `WorkerNode`, `TwoPhaseCommit` | messages, one worker as atomic steps, and the whole commit system with its network |
| `CommitInvariant`, `CommitSteps`, `CommitManager`, `CommitDecisions`, `CommitRuns` | the inductive invariant of the commit system and its preservation by every step |
| `CommitTableLog` | the table/log invariant of every configuration whose manager is only killed between handlers |
| `AtomicCommit` | agreement and what goes with it |
| `CommitTame` | runs of the program as written in which its peculiarities take no effect |
| `CommitOverruled` | votes for commit cast over an own ABORT |
| `CommitScenes`, `CommitCounterexamples`, `CommitStray`, `CommitOutsider` | building blocks for runs; the runs that break agreement or a local abort |
| `WorkerRecovery`, `WorkerUncertainty`, `WorkerCommands`, `WorkerProcess` | undo, the time between vote and decision, and what commands come to, over runs of one worker; the worker's code |
| `CommitStores` | both over runs of the whole system, and the runs in which a member's store does not follow its transaction |
| `ManagerTable`, `ManagerProcess`, `ManagerServes` | the slot arrays as a map of transactions; the manager's code; each pass of its loop as one sequence of steps of the commit system |
| `VectorClock`, `Causality`, `ClockRuns`, `ClockLosses`, `ClockTags` | clock arrays; happened-before; clocks over runs with crashes; events tagged and then lost; causality among all tagged events |
| `Election`, `ElectionReactions`, `ElectionNode` | one node's reactions; what it sends and keeps, by kinds and addressees; its code |
| `ElectionRuns`, `ElectionReplies`, `ElectionClock`, `ElectionQuiescence`, `ElectionScenes` | whole runs: directions, who follows and answers whom, times, their end; a run that dismisses a living coordinator |
| `UdpElection`, `UdpReactions` | the UDP program; its sends by addressees and numbers |
| `CommandParser`, `CommandServer` | the one-pass automaton; the server's buffers and loops |
| `Wire` | serialisers and deserialisers |

## The commit system and its configurations

The manager, the workers and the network form one step system. Every append to a log, every store write and every send
is a step of its own, a worker may crash between any two, messages may be lost, delayed and reordered. Four switches
(`TwoPhaseCommit.Config`) say which of several forms of the program runs:

* `pollCounts`: `collectVote` stores a poll as if it were a vote, because the test at
  `transaction_management/tmanager.c:429` is always true. The comments describe the program without it.
* `silentRestart`: a restarted manager sends DECIDE_ABORT for undecided transactions without logging it or freeing the
  slot (`transaction_management/tmanager.c:823-831`), unlike every other path that aborts.
* `codedCompare`: the timeout scan compares a record with `(DECIDE_ABORT || DECIDE_COMMIT)`
  (`transaction_management/tmanager.c:118`), which no record equals, so that it never sees a decision.
* `midCrash`: the manager may be killed inside a handler and not only between two handlers (the crash after a decision
  that a client can ask for is always possible).

The program as written has the first three on. `AtomicCommit.AgreementIff` says that *all* runs agree **exactly when**
`pollCounts` and `silentRestart` are off and not both `codedCompare` and `midCrash` are on. So two of the four
peculiarities break agreement by themselves, and the third does no harm while the manager is only killed between
handlers: the table/log invariant (`AtomicCommit.TableLog`) makes the wrong comparison right.

The same can be said of single runs: in any configuration, the program as written included, a run agrees in which no poll of
a member that has not voted reaches its live transaction and no restart finds an undecided live one
(`AtomicCommit.TameAgreement`).

Environment of the commit system: transaction ids are not 0 (0 marks a free slot) and begun once; a worker joins a
transaction once; COMMIT is requested once per transaction; messages are not duplicated. A worker stores the manager's
address on JOIN_SUCCESS (`known`), and the polls of a restarted worker reach the manager only if it has done so
(`reach`; `transaction_management/tworker.c:541` and `:1008`). The manager's class
additionally assumes that a JOIN finds its slot or a free one (`ManagerServes.Admissible`).

## What the proofs found

* The poll of a member that has not voted can complete the votes: the poller is told commit while the transaction is later
  timed out. A restarted manager can tell members to abort and then commit with the last vote
  (`CommitCounterexamples.PollTears`, `CommitCounterexamples.RestartTears`).
* A worker whose JOIN is refused logs JOINTX all the same (`transaction_management/tworker.c:536-551`), and can then log
  DECIDE_ABORT for a transaction that commits: agreement is about workers that entered the table
  (`AtomicCommit.RefusedWorkersDisagree`). The eleventh worker of a transaction is told JOIN_SUCCESS without entering it.
* The undo scan stops at the first record of another transaction (`transaction_management/tworker.c:153-155`), and a worker
  logs a decision whatever it is about. A second DECIDE_COMMIT of the previous transaction, one broadcast and one answer to
  a poll, therefore cuts off the undo of the present one: the ABORT is logged and the store keeps what was written
  (`CommitStores.UndoCutOff`). `WorkerRecovery.UndoRestoresJoin` says exactly when undo works: as long as nothing about
  another transaction was logged since the join; after that no rollback brings a value back.
* The wait of an uncertain worker ends with *any* message (`transaction_management/tworker.c:505-508`). Agreement of the
  logs survives that, but one more update and a crash make the worker roll back on its own what it voted to commit; the
  transaction then commits, and the member logs DECIDE_COMMIT over the store it undid (`CommitStores.UncertaintyLost`).
  Which steps end the uncertainty, and which make a crash roll back, is exact in `WorkerUncertainty.PendingIff` and
  `WorkerUncertainty.RollsBackIff`.
* An ABORT tags its event before it saves its clock (`transaction_management/tworker.c:726-727`, `:737-738`, `:1000-1001`).
  After a crash in between the node's next event carries the same own entry, and by the clocks each of the two comes before
  the other (`ClockTags.LossHappens`). Over all tagged events that is the only thing that goes wrong
  (`ClockTags.TagsTellCausality`), and the clocks are right if and only if no node tags an event after losing one
  (`ClockTags.RightIffLossesLast`).
* `isLocalAbort` looks at the current transaction and not at the one asked about, so that a worker votes to commit what it
  has aborted exactly if another transaction is current and not aborted (`CommitOverruled.OverruledVote`). From every
  reachable state where that holds and only its vote is missing the commit can go through (`CommitOverruled.GoesThrough`),
  and such a state is reached by a late answer about its previous transaction and a restart
  (`CommitStray.AbortedYetCommitted`). A member that commits had aborted before it was asked exactly if its vote was one of
  these (`AtomicCommit.LocalAbortWins`).
* A late VOTE_COMMIT for a committed transaction would be answered by logging DECIDE_COMMIT once more and telling nobody;
  while the configuration agrees, no member's vote comes that late (`AtomicCommit.PresumedAbort`). With no member in a slot the returned decision is an uninitialised variable
  (parameter `stale`).
* In the MPI election a node asks its coordinator and calls an election against it in the same turn exactly if its turn to
  ask falls on a timeout tick (`Election.AskedAndDismissed`), and every node below the highest comes to that with a living
  coordinator in some run (`ElectionScenes.DismissesTheLiving`).
* In the UDP election the start-up loop resets `lastSent` for every group member, so that a node may announce itself over
  an ANSWER unless the group list ends with a higher member (`UdpElection.JustifiedIff`).
* In the status server one `e` at the start of a command ends the connection (`CommandParser.FirstLetterExits`).

## Model

| member | source | states |
|---|---|---|
| AtomicCommit.AgreementIff | transaction_management/tmanager.c:535-685 | all reachable states of a configuration agree (no two joined workers log opposite decisions on a transaction) if and only if polls are not votes, restart logs its aborts, and not both the coded comparison and crashes inside a handler are present |
| AtomicCommit.AgreementHolds | transaction_management/tworker.c:519-600 | in every run of such a configuration, with loss, reordering, worker crashes and manager crashes, no transaction is logged DECIDE_COMMIT by one joined worker and DECIDE_ABORT by another |
| AtomicCommit.TameAgreement | transaction_management/tmanager.c:429-431 | in any configuration, the program as written included, every run agrees in which no poll of an unvoted member reaches its live transaction, no restart finds an undecided live one and no kill hits a handler, as far as the switches make these matter |
| CommitTame.TameReaches | transaction_management/tmanager.c:535-685 | such a run is step by step a run of a configuration that agrees, up to the code a stored vote carries |
| AtomicCommit.RefusedWorkersDisagree | transaction_management/tworker.c:536-551 | in every configuration some run has a member log DECIDE_COMMIT and a worker whose JOIN was processed and refused log DECIDE_ABORT of one transaction |
| AtomicCommit.DecisionStable | transaction_management/tmanager.c:554-682 | no step, restart or late message changes a logged decision, both decisions are never logged, and what is in flight to members agrees with the log |
| AtomicCommit.CommitNeedsEveryVote | transaction_management/tmanager.c:621-635 | DECIDE_COMMIT is appended only when there is a member and every member in the table has sent VOTE_COMMIT |
| AtomicCommit.PollWaits | transaction_management/tmanager.c:422-464 | between handlers a vote or poll about a live transaction with members finds WAIT while a vote is missing, as it always is while nothing is decided, and else DECIDE_COMMIT, which is then logged and happens only after a kill inside a handler |
| AtomicCommit.PollOfLive | transaction_management/tmanager.c:620-659 | and a poll about it gets no answer, or DECIDE_COMMIT in the second case, and changes nothing else |
| AtomicCommit.TableLog | transaction_management/tmanager.c:89-128 | whatever the switches, while the manager is only killed between handlers: no live transaction has a decision record then, and the scan with the wrong comparison answers as the intended scan |
| AtomicCommit.FirstWaiting | transaction_management/tmanager.c:89-128 | so the scan as written picks the first live slot with a request and no decision, and none exactly if there is none |
| CommitTableLog.StepKeepsTable | transaction_management/tmanager.c:535-685 | every step of such a configuration keeps the table/log invariant |
| AtomicCommit.ScanFinds | transaction_management/tmanager.c:108-124 | for any log the intended backward scan says yes if and only if some request for the transaction has no decision on it behind |
| AtomicCommit.UndecidedScan | transaction_management/tmanager.c:108-124 | for any log without a decision on a transaction, the backward scan finds its request first if and only if there is one |
| AtomicCommit.PresumedAbort | transaction_management/tmanager.c:636-659 | a poll or late vote about a transaction that is not live, from whomever, is answered DECIDE_COMMIT exactly if that is logged, else DECIDE_ABORT, and nothing else changes; the answer agrees with every member's log, and to a late vote it is always abort |
| AtomicCommit.LocalAbortWins | transaction_management/tworker.c:565-587 | a member that logs DECIDE_COMMIT had voted to commit, and had logged ABORT of the transaction before its PREPARE_COMMIT if and only if its vote was cast over that ABORT |
| CommitOverruled.OverruledVote | transaction_management/tworker.c:572-580 | a worker that is asked about a transaction it has aborted sends VOTE_COMMIT if and only if another transaction is current, that one is not aborted, and it was not told to refuse; else it sends VOTE_ABORT |
| CommitOverruled.GoesThrough | transaction_management/tworker.c:66-97 | in every configuration and from every reachable state where this holds, the transaction is live, every other vote is in and the manager is not about to decide it or restarting, some run has manager and worker log its commit |
| CommitRuns.StepKeeps | transaction_management/tmanager.c:535-685 | every step of manager, worker or network keeps the invariant over logs, table, messages in flight and worker modes |
| CommitStray.AbortedYetCommitted | transaction_management/tworker.c:66-97 | in every configuration some run has a member log ABORT of a transaction, then PREPARE_COMMIT, and then its DECIDE_COMMIT, although it is in one transaction at a time |
| CommitCounterexamples.PollTears | transaction_management/tmanager.c:429-431 | when polls count, in some run the poll of a member that has not voted completes the votes: it is sent commit, and the other member, which voted, is sent abort |
| CommitCounterexamples.RestartTears | transaction_management/tmanager.c:823-831 | with the silent restart, in some run a member is sent abort and the last vote then commits the same transaction for the other |
| CommitCounterexamples.CompareTears | transaction_management/tmanager.c:118 | with the coded comparison and a crash inside a handler, some run times out a transaction whose commit is logged and sent to one member |
| CommitCounterexamples.TornSplits | transaction_management/tworker.c:447-510 | from a state in which one blocked member is sent commit and another abort, both log what they were sent |
| WorkerRecovery.UndoRestoresJoin | transaction_management/tworker.c:102-158 | after any run of a worker in one transaction at a time, with crashes between any two writes and messages about other transactions at any time, an undoing step (ABORT, DECIDE_ABORT, restart) gives back A, B, IDstring, update time and clock of the JOIN_SUCCESS if nothing about another transaction was logged since; otherwise it brings no value back, so that the values are those of the join if and only if they already were |
| WorkerRecovery.UndoConservedRun | transaction_management/tworker.c:654-698 | over any such run the log stays free of other transactions exactly if no step logs one, and as long as it does what a rollback would restore is the same at every point |
| WorkerRecovery.BrokenUndo | transaction_management/tworker.c:153-155 | behind a record of another transaction no rollback, of whatever transaction, changes a value |
| WorkerRecovery.JoinSnapshot | transaction_management/tworker.c:538-551 | right after joining, a rollback restores the present store |
| WorkerRecovery.UndoOfWrite | transaction_management/tworker.c:654-667 | overwriting a field leaves the undo alone if and only if its old value is already logged in the transaction or the write changes nothing |
| WorkerRecovery.UndoTwice | transaction_management/tworker.c:118-150 | a second rollback changes nothing |
| WorkerRecovery.UnloggedWrite | transaction_management/tworker.c:655-661 | a write made while no transaction runs survives the next rollback unless its field was logged before or did not change (both directions) |
| WorkerUncertainty.PendingEnds | transaction_management/tworker.c:447-513 | a worker whose last record is PREPARE_COMMIT or VOTE_COMMIT leaves that state exactly by a decision, an update, COMMIT or ABORT command, or, no longer waiting, an answer to a JOIN or another PREPARE_COMMIT; every other step leaves the store alone |
| WorkerUncertainty.PendingIff | transaction_management/tworker.c:565-587 | over whole runs, crashes between vote and log record included: the transaction is pending at every point if and only if no such step occurs, and then the store is the one voted on and only the vote record is appended |
| WorkerUncertainty.RollsBackIff | transaction_management/tworker.c:994-1009 | from a log whose last record makes a restart ask: after any run a crash makes the worker roll back without a decision if and only if the last step that logged was an update inside a transaction, a COMMIT or an answer to a JOIN; no crash anywhere in the run would, if and only if there is no such step |
| WorkerUncertainty.CrashRollsBack | transaction_management/tworker.c:981-1010 | a crash at any point and the restart roll the last transaction back, or leave the store untouched and wait, by the kind of the last record alone |
| WorkerUncertainty.VotingPends | transaction_management/tworker.c:565-580 | voting to commit makes the transaction pending |
| CommitStores.UndoCutOff | transaction_management/tworker.c:153-155 | in every configuration some run has a worker join transaction 2 with A = 0, set A, learn once more that transaction 1 committed, abort 2, and keep the A it had set |
| CommitStores.UncertaintyLost | transaction_management/tworker.c:505-508 | in every configuration some run has a member vote to commit with A = 5, roll back on its own while nothing is decided, and log DECIDE_COMMIT with A = 0 |
| CommitStores.OwnRun | transaction_management/tworker.c:605-760 | the steps of a worker in any run of the commit system form a run of that worker alone, ending in the same state |
| CommitStores.AbortedStore | transaction_management/tworker.c:589-595 | so in any run of the system a worker that is told to abort has the store of its join exactly under the condition of `UndoRestoresJoin` |
| CommitStores.CommittedStore | transaction_management/tworker.c:559-564 | and one that is told to commit has the store it voted on if it wrote and undid nothing in between, disturbed or not, and so in particular if nothing disturbed it |
| WorkerProcess.Process.ReadValFromRecord | transaction_management/tworker.c:102-158 | the backward loop leaves the store the oldest undo records and the join record of the transaction give |
| WorkerProcess.Process.IsLocalAbort | transaction_management/tworker.c:66-97 | true exactly if an ABORT of the current transaction is in the log |
| WorkerProcess.Process.HandleUpdate | transaction_management/tworker.c:654-698 | an update logs the old value inside a transaction, puts the new value into its field and no other, sets the time, counts the worker's own clock on and, for A and B, copies the new count to the same slot of the object's clock; as a run it is undo record, value, time and clock |
| WorkerProcess.Process.HandleBegin | transaction_management/tworker.c:747-762 | BEGIN sends its request and changes nothing else |
| WorkerProcess.Process.HandleJoin | transaction_management/tworker.c:747-762 | and so does JOIN |
| WorkerProcess.Process.HandleVoteAbort | transaction_management/tworker.c:744-746 | the VOTE_ABORT command sets the flag the next vote reads, and nothing else |
| WorkerCommands.UpdateWrites | transaction_management/tworker.c:654-698 | the steps of an update leave the value in its field, the other two fields as they were, the time, and the count in the one clock slot |
| WorkerCommands.LastUpdateHolds | transaction_management/tworker.c:654-698 | over any run, crashes included, the store holds the last update of a field as long as nothing was undone since |
| WorkerCommands.VoteFollows | transaction_management/tworker.c:572-580 | after any run the vote is for commit if and only if the current transaction has no ABORT in the log and no command to refuse came since the last vote or crash |
| WorkerCommands.RefusesNext | transaction_management/tworker.c:572-575 | a command to refuse decides the next vote whatever comes in between but a crash |
| WorkerCommands.RefusesOnce | transaction_management/tworker.c:572-575 | and without a further command the vote after that follows the log alone |
| WorkerProcess.Process.HandleAbort | transaction_management/tworker.c:722-743 | ABORT is the run: roll back, append ABORT |
| WorkerProcess.Process.HandleCommit | transaction_management/tworker.c:708-721 | COMMIT is the run: append COMMIT, send the request |
| WorkerProcess.Process.HandleMessage | transaction_management/tworker.c:519-600 | each manager message is the run of atomic steps the commit system has for it |
| WorkerProcess.Process.Decided | transaction_management/tworker.c:492-503 | a decision is undone if abort, then logged, and the wait ends |
| WorkerProcess.Process.Prepared | transaction_management/tworker.c:565-587 | PREPARE_COMMIT is the run: log, vote by the local log and the refusal flag, log the vote, wait |
| WorkerProcess.Process.PollDecision | transaction_management/tworker.c:469-480 | a turn of the wait without a message changes nothing and polls, which reaches the manager only if its address is the one waited on |
| WorkerProcess.Process.Recover | transaction_management/tworker.c:981-1010 | restart waits if the last record is PREPARE, VOTE, ABORT or a decision, else rolls back and logs ABORT |
| ManagerProcess.Manager.IsCommit | transaction_management/tmanager.c:133-163 | true exactly if DECIDE_COMMIT of the transaction is logged |
| ManagerProcess.Manager.WaitingForVotes | transaction_management/tmanager.c:89-128 | finds the first slot whose transaction the scan as written takes for waiting, and reports none exactly if there is none |
| ManagerProcess.Manager.SaveBegin | transaction_management/tmanager.c:231-260 | enters a transaction that is not live into the first free slot and says no to a live one |
| ManagerProcess.Manager.SaveJoin | transaction_management/tmanager.c:231-272 | enters the worker unless a free slot comes before the transaction's own |
| ManagerProcess.Manager.CleanWorkerInfo | transaction_management/tmanager.c:212-226 | removes exactly one transaction from the table |
| ManagerProcess.Manager.CollectVote | transaction_management/tmanager.c:422-464 | stores the message in its member's seat and nowhere else, and returns the decision of the slot's seats in their order or, for a transaction that is gone, of the log |
| ManagerProcess.Manager.SendToAllWorkers | transaction_management/tmanager.c:511-530 | sends to the seats of exactly the transaction's slot |
| ManagerProcess.BroadcastReaches | transaction_management/tmanager.c:511-530 | every member gets one message and nobody else any |
| ManagerTable.SeatOrder | transaction_management/tmanager.c:448-464 | while no abort is stored, the order of the seats does not change the decision |
| ManagerTable.FirstSettles | transaction_management/tmanager.c:448-464 | the first member whose vote is missing or an abort settles the verdict: WAIT or DECIDE_ABORT; with none it is DECIDE_COMMIT as soon as there is a member |
| ManagerServes.HandleWorkerMsg | transaction_management/tmanager.c:573-682 | one pass of the handler leaves log, table and network as one fixed sequence of the manager's own steps in the commit system leaves them, and sends exactly what these steps send, in their order |
| ManagerServes.PassNet | transaction_management/tmanager.c:573-682 | that sequence takes the message from the network, adds exactly the messages sent, loses none and moves no worker |
| ManagerServes.HandleTimeout | transaction_management/tmanager.c:559-571 | the first slot with a request gets DECIDE_ABORT logged, sent to each of its seats, and its transaction cleaned; if there is none, nothing happens |
| ManagerServes.Restart | transaction_management/tmanager.c:814-834 | the restart branch as written sends DECIDE_ABORT to the seats of each undecided slot in turn and nothing else, and leaves log and table as they are |
| VectorClock.MergeEntry | transaction_management/tmanager.c:193-205 | the inner loop inserts an entry or takes the maximum |
| VectorClock.MergeVectorClock | transaction_management/tworker.c:247-267 | the nested loops leave the array the merge of both arrays |
| VectorClock.UpdateMyVectorClock | transaction_management/helper.c:256-265 | counts the node's own entry on, in 32 bits, changes no other slot and returns that entry's slot; without one it changes nothing and returns the length |
| VectorClock.CopyClock | transaction_management/tmanager.c:277-311 | saving and restoring copy every slot |
| VectorClock.MergeChar | transaction_management/tmanager.c:187-207 | for any two well-shaped arrays merging keeps the shape and every slot, has the maximum for each id it knows, and knows all ids or is full |
| VectorClock.MergeIsMax | transaction_management/tmanager.c:187-207 | merging is the pointwise maximum of the two maps if and only if the ids of both fit |
| VectorClock.MergeCommutes | transaction_management/tworker.c:247-267 | up to the order of slots, merging is commutative |
| VectorClock.MergeAssociates | transaction_management/tworker.c:247-267 | and associative |
| VectorClock.MergeTwice | transaction_management/tworker.c:247-267 | and idempotent; an array merged into itself is unchanged |
| VectorClock.MergeLeast | transaction_management/tworker.c:247-267 | the merge is the least array above both, and merging is monotone |
| VectorClock.CountFirstOrLast | transaction_management/tmanager.c:580-582 | counting before merging and after merging give the same array if and only if the message knows no more of the node than the node itself |
| VectorClock.MergePositional | bully_algorithm/node.c:446-454 | the loop takes the later entry at each position |
| VectorClock.PositionalAgrees | bully_algorithm/node.c:446-454 | on arrays aligned with one group list the positional merge says of every member what the id-keyed merge says |
| Causality.BeforeIsUpto | transaction_management/tworker.c:487-489 | happened-before by paths of edges is the recursion over the previous event and the received send |
| Causality.Fidge | transaction_management/tworker.c:247-267 | on any log of clocks that follow the update rule, one event happened before another if and only if its own entry is at most the other's entry for its node |
| ClockRuns.StepKeeps | transaction_management/tworker.c:207-241 | every count, receipt, save, send, crash and restore keeps the invariant of clocks, messages and log |
| ClockRuns.ClocksTellCausality | transaction_management/tworker.c:487-489 | the equivalence holds in every run, with loss, reordering and crashes, for the events whose clock was saved |
| ClockLosses.LostTellsPast | transaction_management/tworker.c:726-727 | an event tagged before a crash that loses its clock still compares rightly with every earlier event |
| ClockLosses.LostRepeats | transaction_management/tworker.c:1000-1001 | every later saved event covers it exactly if it follows the node's next event or is it; but it covers a later saved event as well, wrongly, exactly if that is the node's next event |
| ClockTags.TagsTellCausality | transaction_management/tworker.c:726-727 | in every run and for any two tagged events, saved or lost: the one's clock covers the other exactly if the other happened before it, or, never both and then wrongly, comes after it at the same node with nothing of that node saved in between |
| ClockTags.RightIffLossesLast | transaction_management/tworker.c:737-738 | over all tagged events of a run the clocks tell causality if and only if no node has tagged an event after losing one |
| ClockTags.LossHappens | transaction_management/tworker.c:1000-1001 | for every node some run loses an event whose successor and itself cover each other |
| ClockRuns.EntriesCount | transaction_management/helper.c:256-265 | in every run each entry of a saved event's clock is the number of that node's events in its causal past |
| ClockRuns.OwnClockDominates | transaction_management/tmanager.c:277-311 | in every run no other node's clock and no message has a larger time for a node than it has saved itself |
| ClockRuns.OrderOfCounting | transaction_management/tmanager.c:580-582 | in every run the manager's order and the worker's order of counting and merging give the same array |
| Election.MessageOk | bully_algorithm_fg_mpi/bully.c:233-364 | the sends on a message go in their direction with consecutive times from the time heard, and the node's variables stay in order |
| Election.TickOk | bully_algorithm_fg_mpi/bully.c:209-232 | likewise on a tick and the timeout it may bring |
| Election.WhoProclaims | bully_algorithm_fg_mpi/bully.c:367-448 | COORD is sent only by the highest rank or on a timeout with `lastSent` ELECTION |
| Election.AskedAndDismissed | bully_algorithm_fg_mpi/bully.c:215-232 | below the highest rank a tick sends both an AYA and an ELECT if and only if the turn to ask falls on a timeout tick, and then the coordinator is forgotten in the same turn |
| ElectionScenes.DismissesTheLiving | bully_algorithm_fg_mpi/bully.c:209-232 | every node below the highest rank comes to that in some run in which nothing has failed |
| ElectionNode.Process.HandleMessage | bully_algorithm_fg_mpi/bully.c:233-364 | the switch on a received message does what the reaction function says, sends included |
| ElectionNode.Process.HandleTimeout | bully_algorithm_fg_mpi/bully.c:367-448 | the switch on `lastSent` does what the reaction function says |
| ElectionNode.Process.HandleTick | bully_algorithm_fg_mpi/bully.c:209-232 | a clock tick, with the random rate as a parameter |
| ElectionNode.Process.HandleNode | bully_algorithm_fg_mpi/bully.c:205-455 | the receive loop over any inputs, a dead coordinator ignoring them |
| ElectionNode.DeadIgnores | bully_algorithm_fg_mpi/bully.c:319-350 | a dead coordinator neither changes nor sends anything, whatever it receives, until its time is up |
| ElectionReactions.MessageSends | bully_algorithm_fg_mpi/bully.c:242-335 | for every kind and addressee, whether a message makes the node send it: ANSWER and IAA exactly to the sender, ELECT exactly to all higher ranks if no election of its own is open, COORD exactly to all others from the highest; nothing twice |
| ElectionReactions.MessageLeaves | bully_algorithm_fg_mpi/bully.c:233-364 | what a message leaves of the variables; a COORD installs its sender whoever was there before |
| ElectionReactions.TickSends | bully_algorithm_fg_mpi/bully.c:209-232 | AYA exactly to the coordinator when its turn comes, ELECT exactly to all higher and COORD exactly to all lower ranks on the timeouts that call or claim; nothing twice |
| ElectionReactions.TickLeaves | bully_algorithm_fg_mpi/bully.c:367-448 | a tick makes a node forget its coordinator exactly if it calls or claims, and asking draws a rate below 2 * AYATime |
| ElectionReactions.AsksInTime | bully_algorithm_fg_mpi/bully.c:215-222 | a node with a coordinator asks it at the next multiple of its rate, so at most that many ticks later and not before |
| ElectionReplies.StepsAreTurns | bully_algorithm_fg_mpi/bully.c:205-455 | every step of a run but a loss is one turn of one node's receive loop, sends included |
| ElectionReplies.CoordinatorIsLast | bully_algorithm_fg_mpi/bully.c:297-301 | in every run a node's coordinator is the sender of the last COORD it has processed since it last forgot one, and 0 if there is none |
| ElectionReplies.CoordInstalls | bully_algorithm_fg_mpi/bully.c:297-301 | delivering a COORD leaves the receiver with the node of the matching send as its coordinator |
| ElectionReplies.RepliesAreAskedFor | bully_algorithm_fg_mpi/bully.c:242-335 | in every run each ANSWER goes to a node whose ELECT its sender has processed before, and each IAA to one whose AYA it has |
| ElectionRuns.StepKeeps | bully_algorithm_fg_mpi/bully.c:205-455 | every delivery, loss, tick and return to life keeps the invariant of nodes, log and network |
| ElectionRuns.MessagesHaveDirection | bully_algorithm_fg_mpi/bully.c:247-313 | in every run every ELECT and AYA ever sent goes up, every ANSWER, COORD and IAA down, and the highest rank has sent neither ELECT nor AYA |
| ElectionRuns.CoordinatorIsAbove | bully_algorithm_fg_mpi/bully.c:297-301 | in every run a node's coordinator is 0 or above it |
| ElectionRuns.CoordIsJustified | bully_algorithm_fg_mpi/bully.c:367-448 | in every run a COORD comes from the highest rank or from a node that sent ELECT and has processed no ANSWER since |
| ElectionRuns.NoIdleElect | bully_algorithm_fg_mpi/bully.c:392-407 | a node below the highest rank is never in the state `lastSent` 0 with `lastReceived` ELECTION |
| ElectionClock.ChainsRaiseTime | bully_algorithm_fg_mpi/bully.c:236-305 | along every causal chain the time rises by at least the number of sends on it |
| ElectionClock.LamportCondition | bully_algorithm_fg_mpi/bully.c:236 | a send that happened after another event has the larger time |
| ElectionClock.TimeIsBounded | bully_algorithm_fg_mpi/bully.c:193-202 | no time exceeds the number of increments made so far in the whole run |
| ElectionClock.TimeNeverFalls | bully_algorithm_fg_mpi/bully.c:236 | no step takes a node's time back, and it covers all its events |
| ElectionQuiescence.ReplyWeighsLess | bully_algorithm_fg_mpi/bully.c:242-301 | what a message makes its receiver send weighs less than the message |
| ElectionQuiescence.Quiescence | bully_algorithm_fg_mpi/bully.c:242-301 | in a run without ticks, deliveries and losses together with the weight left never exceed the weight in flight at its start |
| ElectionQuiescence.ElectClosed | bully_algorithm_fg_mpi/bully.c:257-283 | an ELECT to rank i below the highest rank n weighs (n + 3) * 2^(n - 1 - i) |
| ElectionQuiescence.QuiescenceBound | bully_algorithm_fg_mpi/bully.c:242-301 | from any reachable state at most (n + 3) * 2^(n - 2) deliveries for each message in flight |
| ElectionQuiescence.StartQuiescence | bully_algorithm_fg_mpi/bully.c:193-202 | from the start at most (n + 3) * 2^(n - 2) - 2 deliveries |
| UdpElection.Process.StartAfterTimeout | bully_algorithm/node.c:260-286 | the start-up loop sends to every higher member and remembers only the last member |
| UdpElection.Process.HandleMsg | bully_algorithm/node.c:567-673 | the switch on a message does what the reaction function says |
| UdpElection.Process.HandleTimeout | bully_algorithm/node.c:299-424 | the switch on `lastSent` after a timeout likewise |
| UdpElection.JustifiedIff | bully_algorithm/node.c:260-286 | after a start-up by timeout every later announcement is justified, for all inputs, if and only if the node is highest or lowest or the group list ends with a higher member |
| UdpElection.ForgetsAnswer | bully_algorithm/node.c:391-416 | otherwise an ANSWER and one timeout are enough for an unjustified announcement |
| UdpElection.QuietStart | bully_algorithm/node.c:287-291 | a node that starts by handling a message never announces itself unjustified |
| UdpReactions.InputSends | bully_algorithm/node.c:567-673 | for every message, how many copies of it an input makes the node send: an ELECT is answered to its sender and passed on with its number to each higher member, or settled with a COORD to each lower one; an AYA is answered to its sender; a timeout that announces the node tells each lower member; nothing else is sent |
| UdpReactions.OwnSends | bully_algorithm/node.c:340-390 | a timeout that calls an election sends one ELECT to each higher member in list order with the next numbers |
| UdpReactions.InputLeaves | bully_algorithm/node.c:567-673 | what each input leaves of `lastSent`, `lastReceived` and the counter |
| UdpReactions.NumbersFromStart | bully_algorithm/node.c:802 | the numbers of a node's own elections are 1, 2, 3 and so on, over any run of inputs |
| CommandParser.RunKeeps | client_server/mtserver.c:198-315 | pending text is empty, a proper prefix of uptime or load, or digits, and then no invalid byte is counted |
| CommandParser.Rescan | client_server/mtserver.c:192-198 | scanning pending text and new chunk from the front is the same as continuing with the chunk |
| CommandParser.ChunkIndependence | client_server/mtserver.c:173-324 | two ways of cutting one stream into chunks give the same replies, the same pending text and the same closing |
| CommandParser.ClosesOnce | client_server/mtserver.c:238-250 | what follows the closing byte changes nothing |
| CommandParser.DigitSumIsTotal | client_server/mtserver.c:269-278 | what the loop over the digits adds up is each digit times how often it occurs |
| CommandParser.CommandsAnswered | client_server/mtserver.c:198-284 | any sequence of complete commands gets exactly its replies in order, sums by the occurrences of the digits, and leaves nothing pending |
| CommandParser.NoStart | client_server/mtserver.c:292-316 | a byte that cannot start a command is answered invalid on its own, and closes if it is the third in a row |
| CommandParser.BrokenOff | client_server/mtserver.c:252-316 | a byte that neither continues nor completes what is pending is answered invalid with it; a digit or space is then gone, any other byte is scanned as the first of a new command |
| CommandParser.ThreeStrikes | client_server/mtserver.c:292-316 | after any commands three bytes that cannot start one are answered invalid three times and close |
| CommandParser.FirstLetterExits | client_server/mtserver.c:238-250 | after any commands a single e is answered as exit and closes |
| CommandParser.RunEnding | client_server/mtserver.c:292-316 | the server hangs up only after the exit reply or three invalid replies in a row, and sends nothing after the exit reply |
| CommandServer.Connection.ManageBuffer | client_server/mtserver.c:165-171 | drops the first bytes of the buffer, through the second array |
| CommandServer.Connection.SumDigits | client_server/mtserver.c:269-278 | the 32-bit sum is the sum of the digits, each as often as it occurs |
| CommandServer.Connection.Scan | client_server/mtserver.c:198-316 | one turn of the scanning loop leaves the outcome of the whole scan unchanged |
| CommandServer.Connection.ScanAll | client_server/mtserver.c:192-316 | the scanning loop ends in the automaton's state after the buffer's text |
| CommandServer.Connection.HandleTCPClient | client_server/mtserver.c:173-324 | for any chunks that fit the buffer, buffer, counter, replies and closing are those of the automaton on the whole stream |
| Wire.WorkerThere | transaction_management/helper.c:121-191 | a worker message takes 96 bytes and reads back as itself |
| Wire.WorkerBack | transaction_management/helper.c:121-191 | any 96 bytes are written back unchanged |
| Wire.CommandThere | transaction_management/helper.c:99-161 | a command message with signed fields takes 84 bytes and reads back as itself |
| Wire.CommandBack | transaction_management/helper.c:99-161 | any 84 bytes are written back unchanged |
| Wire.ElectionThere | bully_algorithm/node.c:131-175 | an election message takes 80 bytes and reads back as itself |
| Wire.ElectionBack | bully_algorithm/node.c:131-175 | any 80 bytes are written back unchanged |
| Wire.WordIsBigEndian | transaction_management/helper.c:93-97 | the first of the four bytes weighs 2^24, the second 2^16, the third 2^8 and the last 1 |
| Wire.ValueIsBigEndian | transaction_management/helper.c:139-146 | and so they are read |
| Wire.TwosComplement | transaction_management/helper.c:87-91 | a signed field goes out modulo 2^32 and comes back with its sign |
| Wire.WorkerLayout | transaction_management/helper.c:112-127 | bytes 0 to 15 are msgID, tid, nodeId and crash flag, and entry i of the clock stands at 16 + 8 * i, its id before its time |
| Wire.CommandLayout | transaction_management/helper.c:99-110 | bytes 0 to 19 are msgID, tid, port, new value and delay, and the text follows |
| Wire.ElectionLayout | bully_algorithm/node.c:123-135 | bytes 0 to 7 are msgID and electionID, and entry i of the clock stands at 8 + 8 * i |
| Wire.SerializeUnsignedInt | transaction_management/helper.c:93-97 | writes exactly the four bytes of the field in network order |
| Wire.SerializeClock | transaction_management/helper.c:112-119 | writes the clock's entries one behind the other and nothing else |
| Wire.SerializeWorkerMsg | transaction_management/helper.c:121-127 | fills exactly the first 96 bytes, each field behind the one before |
| Wire.SerializeCommandMsg | transaction_management/helper.c:99-110 | fills exactly the first 84 bytes |
| Wire.SerializeElectionMsg | bully_algorithm/node.c:131-135 | fills exactly the first 80 bytes |
| Wire.DeserializeWorkerMsg | transaction_management/helper.c:183-191 | reads the message the 96 bytes stand for |
| Wire.DeserializeCommandMsg | transaction_management/helper.c:148-161 | reads the message the 84 bytes stand for |
| Wire.DeserializeElectionMsg | bully_algorithm/node.c:169-175 | reads the message the 80 bytes stand for |

## Left out

- AtomicCommit.TameAgreement: one way; a run in which a peculiarity takes effect may still agree.
- CommitOverruled.GoesThrough: not while the manager is restarting, deciding that transaction or down; a restart aborts every undecided live transaction.
- AtomicCommit.TableLog: about managers that are only killed between handlers; a kill right after DECIDE_COMMIT was logged leaves a live transaction with a decision (`CommitCounterexamples.CompareTears`).
- CommitStores.CommittedStore: one way only; a store that was written or undone may have been set back to what it was.
- ManagerProcess.Manager.SaveJoin: assumes that its scan stops at the transaction's slot or at a free one; with every slot taken by other transactions the source uses an index it never set.
- ManagerServes.HandleWorkerMsg: assumes a JOIN that finds its slot or a free one, as with every slot taken by other transactions the source uses an index it never set; that a worker joins a transaction once; and that a live transaction behind a free slot is not begun again, as the source then enters it a second time.
- CommandServer.Connection.HandleTCPClient: assumes chunks without NUL that fit behind the pending text; a longer chunk overruns the buffer in the source.
- UdpElection.JustifiedIff: one node against arbitrary inputs; the clock events of that program are in `VectorClock` and its asking thread is an atomic input, so that the data race between thread and main loop is not modelled.
- Sockets, poll, name lookup, memory mapping and MPI calls are abstract sends, receipts, ticks, appends and writes; a durable append or write is atomic.
- The manager's crash flags live in the slots of the source; here the flag of a transaction is a parameter of the handler.
- Times of the clocks are 32-bit in `VectorClock.Bump`; runs assume that no node counts 2^32 events. The election's time and the numbers of elections are unbounded.
- The COMMIT command of a restarted worker that has not joined again goes to an address that was never set; here it is sent to the manager, and the network may lose it.
- Record fields the worker never sets are modelled as empty; the program leaves what the last record held there.
- First start: nodes begin with properly initialised state, although the manager saves its clock before setting it.
- Liveness under real timing; a clock tick, a timeout and a return to life may come at any time.
- ShiViz logging, printing, the command program, `dumpObject.c`, thread counting and the values of uptime and load.
- TERMINATE in the MPI election, which only ends the loop.
