# Distributed lock service: a verified model

The repository is a replicated lock service built in layers: remote procedure calls, Paxos
with a log file, views agreed by Paxos, a replicated state machine over views, and lock
clients that cache locks. This project models the layers and proves what each one promises to
the one above it, for every run.

| files | part of the system |
|---|---|
| `Sequences`, `Paths` | facts about lists, and about sequences of states |
| `Names`, `Proposals`, `Acceptors`, `PaxosLog` | strings and numbers on disk, proposal order, acceptor, log file |
| `Proposers`, `PaxosSystem`, `PaxosInvariant`, `PaxosSafety` | proposer, the whole Paxos system, its invariant, agreement |
| `PaxosAnswers` | what each request is answered in every reachable state |
| `LateAccept` | a history without in-step delivery that breaks agreement |
| `Views`, `Config`, `ViewChain`, `Primaries` | member lists, who proposes which view, the chain of views, choice of primary |
| `Rsm`, `RsmSystem`, `Together`, `Newcomer` | view changes, primary/backup execution, two members at work, and what a node that joins later lacks |
| `RpcClient`, `RpcServer`, `RpcSystem`, `RpcPatience`, `RpcProgress` | acknowledgement window, reply window, at-most-once, when replies are lost, that calls can be completed |
| `LockServer`, `LockClient`, `LockSystem`, `LockProgress`, `LockHandover` | the caching lock protocol over the state machine: who is kept out, who is let on |
| `Wire`, `LockState`, `LockTransfer` | marshalling and the transfer of the lock server's state |
| `OldLocks`, `OldHandover` | the earlier caching lock protocol |

How the models are built:

- Objects of the source are classes. Each method is proved against a function of the old
  state; a system model that has the operation steps with the same function.
- A distributed system is a state with a `Step` type, `Enabled`, `Apply` and `IsHistory`. Messages
  are kept in a set for good, so any message may be lost, delayed, reordered or delivered again.
  Theorems are about every state of every history.
- Numbers are naturals. Node names are non-empty and free of white space.
- Results of remote calls, heartbeats and the contents of the log file are parameters.

In-step delivery. `acceptreq` does not look at the instance of a request and `preparereq` only
looks for older ones. `PaxosSystem.InStep` is therefore a hypothesis on which deliveries happen
and not part of a handler. It excludes only requests that are out of time and would be granted;
those that the handler turns down may come at any time.
`LateAccept.LateAcceptBreaksAgreement` gives a history of the configuration object, grown from any
first node, that is in step but for one accept request and ends with two majorities that chose two
values in one instance.

Where the code and its comments disagree, the code is modelled:

- The server trims `xid < xid_rep` although the comment says `<=`. Without the entry that stays, a
  request that was overtaken by a later one would be answered FORGOTTEN and never executed
  (`RetainedEntryAdmitsLate`).
- A reply is lost exactly if its handler ends after a request arrived that acknowledges more than
  its number (`LostExactly`). `GivenUpCallsLoseReply` is a history in which that happens.
- `acceptreq` does not raise `n_h`. `VotesFollowPromises` says why that is sound.
- A node that joins starts `set_primary` from the first node's name. It finds the right primary
  exactly when that node is not a member or heads the view (`JoinerFindsHead`);
  `JoinerCanPickAnother` is a chain of views where it does not. Still only the head of a view ever
  serves it (`OnlyHeadServes`).
- `last_myvs` is never advanced, so state transfer carries nothing (`TransferCarriesNothing`). A node
  that serves a later view has an acknowledged request exactly if it was a member of the view the
  request was acknowledged in (`AcknowledgedExactly`); `NewcomerServesWithout` is a history in
  which it was not.
- `retry_handler` overwrites any status. A retry that comes while nobody is busy with the lock shuts
  it on that client for good (`ShutForGood`).
- A client whose table of release numbers is empty is lost in a state transfer
  (`FreshRestores`, an if-and-only-if); no reachable server has one (`ReachableStateRestored`).

## Model

| member | source | states |
|---|---|---|
| Proposals.PropOrder | paxos.cc:18-28 | `>` and `>=` on proposals are the strict and the non-strict form of one total order |
| Proposals.PropTransitive | paxos.cc:18-28 | that order is transitive, in every mix of `>` and `>=` |
| Names.BelowIsStrictAndTotal | paxos.cc:18-28 | the order on node names that breaks ties is strict and total |
| Names.DecimalRoundTrip | log.cc:85-131 | a printed number reads back as itself |
| Names.ReadNumberBack | log.cc:17-58 | reading a number off the log consumes exactly the printed number |
| Names.GetLineBack | log.cc:17-58 | reading a value off the log stops exactly at its newline |
| Acceptors.Acceptor.constructor | paxos.cc:228-250 | a starting node has what its log replays to, if the log is whole records, and creates view 1 only if it is the first node and never had one |
| Acceptors.Acceptor.ReadLog | log.cc:17-58 | the read loop computes the replay of the whole text, and succeeds exactly on a sequence of whole, known records |
| Acceptors.Acceptor.PrepareReq | paxos.cc:254-282 | answer, new promise and appended log record for every request, old instances included |
| Acceptors.Acceptor.AcceptReq | paxos.cc:284-300 | votes exactly for numbers not below the promise, logs the vote, and ignores the instance |
| Acceptors.Acceptor.DecideReq | paxos.cc:303-318 | commits the next instance; aborts exactly where a VERIFY fails, changing nothing |
| Acceptors.Acceptor.Commit | paxos.cc:321-349 | a later instance is recorded and logged and votes are cleared; others change nothing |
| PaxosLog.RecordReadBack | log.cc:85-131 | every printed log record parses back to itself with the rest of the file intact |
| PaxosLog.PrintedLogReplays | log.cc:17-58 | parsing and replaying a printed log is replaying the records that were appended |
| PaxosLog.HandlersKeepLogComplete | paxos.cc:254-342 | every handler logs enough: replaying the longer log still gives its new state |
| PaxosLog.SameStatesStepAlike | paxos.cc:254-342 | states that differ only in names attached to the number 0 answer alike and stay alike |
| PaxosLog.SameStatesRunAlike | paxos.cc:254-342 | the same over any sequence of requests |
| PaxosLog.CrashReplayRefinesMemory | log.cc:17-131 | after any requests and a crash, the replayed node equals the one in memory up to such names, and all its later answers are the same |
| PaxosLog.ReplayForgetsVotes | log.cc:17-58 | once a log holds a decision, the votes it leaves do not depend on the state it is read over |
| PaxosLog.RestoreTakesOverPeer | paxos.cc:357-362 | restoring a peer's log gives the peer's instance and votes and overlays its values |
| Proposers.IsAMember | paxos.cc:43-50 | true exactly for names in the list |
| Proposers.ComputeMajority | paxos.cc:61-72 | true exactly if more than half of the first list is supported by the second |
| Proposers.MajoritiesMeet | paxos.cc:61-72 | two majorities of one member list share a member, repeated names included |
| Proposers.MajorityExactly | paxos.cc:61-72 | a majority is more than half of the places of the member list, both ways |
| Proposers.MoreThanHalfIsMajority | paxos.cc:61-72 | on a list without duplicates, any more than half of the names and nothing less |
| Proposers.TallyIgnoresLostNames | paxos.cc:148-185 | a whole prepare phase counts the same nodes and picks the same value if answers differ only in names attached to the number 0 |
| Proposers.CrashesDoNotChangeChoice | paxos.cc:148-185 | which of the nodes crashed and read their logs before being asked makes no difference to the value picked |
| Proposers.Prepare | paxos.cc:148-185 | the loop computes the tally that the system steps with, or stops at the first node that had decided |
| Proposers.TallyCountsPromises | paxos.cc:148-185 | exactly the nodes that promised are counted, in the order of the list |
| Proposers.TallyIsBest | paxos.cc:148-185 | the value of that tally is that of the highest-numbered vote reported, and empty exactly if there is none |
| Proposers.Accept | paxos.cc:188-207 | the loop collects the voters |
| Proposers.VotersSaidYes | paxos.cc:188-207 | the voters are exactly the nodes that answered yes, in the order of the list |
| Proposers.Proposer.Run | paxos.cc:90-146 | a run uses a number above all earlier ones and ends decided exactly if more than half of the member list promised and more than half answered yes, on the value of the best vote reported if there is one |
| PaxosInvariant.ValueWasProposed | paxos.cc:90-146 | validity: a value put to the vote was given to some run of the instance |
| PaxosInvariant.LaterRunSawChosen | paxos.cc:148-185 | a run with a larger number was told of a vote at or above any number already chosen |
| PaxosInvariant.LaterRunsFollow | paxos.cc:90-207 | after a choice, every run with a larger number asks for the same value |
| PaxosInvariant.DecisionIsUnique | paxos.cc:90-342 | an instance has one decided value in any state with the invariant |
| PaxosSafety.NewPromiseOk | paxos.cc:268-275 | a new promise is the first for its number and reports every vote its sender cast below it |
| PaxosSafety.NewVoteOk | paxos.cc:290-295 | a new vote lies above every earlier vote of its sender and is covered by every promise above it |
| PaxosSafety.CrashKeeps | log.cc:17-58 | a restart from the log keeps the invariant of the whole system |
| PaxosSafety.StepKeepsInv | paxos.cc:90-342 | every step of proposers, acceptors and network, restarts included, keeps the invariant |
| PaxosSafety.PaxosAgreement | paxos.cc:90-207 | agreement and validity: two runs of an instance with an accept majority carry one value, and some run was started with it |
| PaxosSafety.LogAgreement | paxos.cc:303-342 | two nodes hold equal values for every instance both decided, however they learned it |
| PaxosSafety.NoDecideAborts | paxos.cc:303-318 | the VERIFYs of the decide handler never fail |
| PaxosSafety.VotesFollowPromises | paxos.cc:284-300 | an in-step vote is cast exactly for the number promised last, so votes stay at or below the promise and only rise |
| PaxosSafety.NumbersOnlyRise | paxos.cc:254-342 | no step, restart or restore lowers a node's instance, or within it its promise or vote |
| PaxosSafety.NumberHasOneMajority | paxos.cc:84-88 | one number gains one promise majority per instance, even if a restarted proposer reuses it |
| PaxosAnswers.OldPrepareIsAnswered | paxos.cc:264-266 | a prepare for a decided instance is answered with the decided value |
| PaxosAnswers.PrepareIsAnswered | paxos.cc:254-282 | a prepare for the open instance is promised, with the vote reported, exactly if its number is larger; else nothing changes |
| PaxosAnswers.AcceptIsAnswered | paxos.cc:284-300 | an accept for the open instance is voted for exactly if it carries the number promised last; else nothing changes |
| PaxosAnswers.DecideIsTakenIn | paxos.cc:303-342 | a decide for the open instance brings the decided value and clears the votes |
| PaxosAnswers.OldReplyTeaches | paxos.cc:165-169 | a proposer told of an old instance has the decided value afterwards |
| PaxosAnswers.RestartHasLog | log.cc:17-58 | a restart leaves exactly what the log replays to, which is what was there but for names at the number 0 |
| LateAccept.LateAcceptBreaksAgreement | paxos.cc:284-300 | a history of joins from one first node, in step but for one accept request, in which two majorities choose two values in one instance |
| Views.MembersOfValue | config.cc:100-121 | reading a printed member list gives that list |
| Views.ValueIsLine | config.cc:112-121 | a printed view is one non-empty line, so it can be logged and is never taken for "no value" |
| Views.LegalNextProperties | config.cc:175-221 | a legal change keeps a view non-empty, duplicate-free and overlapping, and its new head was a member before |
| Config.ComputeMembers | config.cc:100-109 | the word loop computes the member list of a value |
| Config.ComputeValue | config.cc:112-121 | the print loop computes the printed list |
| Config.HeartbeatRound | config.cc:223-281 | the node with the smallest name picks the first other member that does not answer; every other node picks the smallest exactly if it does not answer |
| Config.Config.JoinReq | rsm.cc:510-540 | proposes exactly if the node is not in the committed view, this node is primary and that view is still current; the proposal is then a legal change of the current view |
| Config.Config.Remove | config.cc:201-221 | the proposal is the current view without that member |
| Config.Config.HeartbeatTurn | config.cc:223-281 | a proposal removes another member that did not answer from the view that is still current, a legal change; the node with the smallest name proposes exactly if somebody did not answer, every other node exactly if the smallest did not |
| Views.JoinIsLegal | config.cc:175-198 | what a join proposes reads back as the view with one new name appended |
| Views.RemovalIsLegal | config.cc:201-221 | what a failed heartbeat proposes reads back as the view without that member |
| ViewChain.DecidedViewsFollow | config.cc:175-221 | each decided view is a legal change of the one before |
| ViewChain.SanctionedIsLegal | rsm.cc:518-529 | every proposal of a join request or a heartbeat turn is a legal change of the view its run starts from |
| ViewChain.ViewsFormChain | config.cc:136-221 | in every state of every history whose runs are started by joins and heartbeats, each node's log is a chain of views from the first node alone |
| Primaries.ChainViewsAreGood | config.cc:175-221 | every view of a chain is non-empty, duplicate-free and shares a member with its predecessor |
| Primaries.SetPrimaryFindsHead | rsm.cc:563-584 | along a chain the final VERIFY is unreachable, and the choice is the head exactly if the old primary left or already was the head |
| Primaries.PrimaryIsHead | rsm.cc:563-584 | a node that applies views in order always has the head as its primary, a member of the view before |
| Primaries.JoinerFindsHead | rsm.cc:563-584 | a joining node finds the head exactly if the first node is not a member or heads the view |
| Primaries.JoinerCanPickAnother | rsm.cc:563-584 | a chain of five views where a joining node and the members name different primaries |
| Primaries.WrongPrimaryIsAhead | rsm.cc:563-584 | a node that does not follow the head follows the first node, which stands before it in the view |
| Primaries.HeadTakesItself | rsm.cc:563-584 | a node that heads a view takes itself for its primary, whatever it entered with |
| Rsm.RsmNode.ChoosePrimary | rsm.cc:563-584 | the loops compute the specified choice and fail exactly if no old member is left |
| Rsm.RsmNode.CommitChange | rsm.cc:357-370 | a later view starts a view change; an earlier one changes nothing |
| Rsm.RsmNode.OpenBackups | rsm.cc:208-222 | the gate opens with everybody else of the view outstanding |
| Rsm.RsmNode.EndSync | rsm.cc:178-185 | the view change ends only if no further view was committed meanwhile |
| Rsm.RsmNode.TransferReq | rsm.cc:460-477 | answered exactly while synchronising that view; the state is sent exactly to a node with another `last_myvs` |
| Rsm.RsmNode.TransferDoneReq | rsm.cc:483-505 | accepted exactly while synchronising that view; one backup is struck off |
| Rsm.RsmNode.ClientInvoke | rsm.cc:395-427 | executed here and acknowledged exactly by the primary outside a view change after every other member executed |
| Rsm.RsmNode.Invoke | rsm.cc:436-455 | executed exactly by a backup outside a view change that has the sender's stamp |
| RsmSystem.StepKeepsInv | rsm.cc:148-505 | every step of recovery, transfer, commit and request handling keeps the invariant |
| RsmSystem.OnlyHeadServes | rsm.cc:563-591 | whoever ever serves a view heads it, in every history, joining nodes included |
| RsmSystem.AcknowledgedSurvives | rsm.cc:395-455 | what was acknowledged in view v, every node that ever serves v+1 had executed before it began to; the only such node is the head of v+1, and it has executed it |
| RsmSystem.AcknowledgedExactly | rsm.cc:395-455 | for every later view: whoever serves it began with the request if and only if it was a member of the view the request was acknowledged in |
| RsmSystem.TransferCarriesNothing | rsm.cc:273-301 | in every history no transfer carries any state, and every node has exactly the effects of what it executed itself |
| Newcomer.NewcomerServesWithout | rsm.cc:460-477 | a history in which a node that joined later serves a view without a request acknowledged before |
| RsmSystem.ViewChangeGate | rsm.cc:148-228 | outside a view change the stamp is the committed view; a serving primary had every other member's transfer and its `transferdonereq` for that view |
| RsmSystem.BackupsExecute | rsm.cc:436-455 | in every history a backup that is idle, outside a view change and at the request's view can execute a forwarded request |
| RsmSystem.ErasedExactly | rsm.cc:495-501 | striking off a member leaves exactly the others |
| Together.TwoMembersServe | rsm.cc:148-455 | for any two nodes: a history in which the second joins, both go through the view change, both execute a request and it is acknowledged |
| RsmSystem.PrimariesAgree | rsm.cc:563-591 | two nodes at one view that entered with the right primary name the same one |
| RpcClient.FrontIsLargest | rpc/rpc.cc:385-408 | the front of the window is the largest f with 1..f all reported |
| RpcClient.PopKeeps | rpc/rpc.cc:396-404 | the compress loop never pops the element its iterator is on, and each pop keeps the window's meaning |
| RpcClient.UpdateReports | rpc/rpc.cc:385-408 | a report, repeated or not, adds exactly that number to what the window stands for |
| RpcClient.WindowAfterAnyReports | rpc/rpc.cc:385-408 | after any sequence of reports the window is sorted, its front is exact, and above it are exactly the reported numbers |
| RpcClient.RpcClient.Issue | rpc/rpc.cc:195-215 | numbers are issued once, and the acknowledged number is below the new one as long as only issued numbers were reported |
| RpcClient.RpcClient.UpdateXidRep | rpc/rpc.cc:385-408 | the insert and compress loops compute the specified window |
| RpcClient.RpcClient.GotReply | rpc/rpc.cc:348-382 | a reply is reported whether or not its caller still waits |
| RpcClient.RpcClient.EndCall | rpc/rpc.cc:286-298 | a call that ends, by reply or timeout, is reported and no longer pending |
| RpcServer.CheckAdmitsOnce | rpc/rpc.cc:659-711 | the condition of each verdict, both ways: NEW exactly for a number never let in that is not below the front, FORGOTTEN exactly below it; the window goes on holding exactly what was let in and is not below the largest acknowledgement |
| RpcServer.BelowTop | rpc/rpc.cc:659-686 | a request cannot trim the entry that its own number is compared with |
| RpcServer.RetainedEntryAdmitsLate | rpc/rpc.cc:665-686 | the entry kept at the acknowledged number lets an overtaken request in; without it that request is answered FORGOTTEN |
| RpcServer.RecordedMeaning | rpc/rpc.cc:718-742 | recording a reply changes that entry only |
| RpcServer.JudgeHeld | rpc/rpc.cc:687-700 | for a number the window holds the answer is what its entry says: DONE with its reply, or INPROGRESS |
| RpcServer.RpcServer.CheckDuplicateAndUpdate | rpc/rpc.cc:659-711 | the trim, search and insert loops compute the specified window and verdict for that client only |
| RpcServer.RpcServer.AddReply | rpc/rpc.cc:718-742 | the reply is stored in that request's entry; misses exactly if there is none |
| RpcSystem.AtMostOnce | rpc/rpc.cc:659-711 | in every history, timeouts included, no request number is let in twice |
| RpcSystem.EntryKeptExactly | rpc/rpc.cc:659-711 | in every history, timeouts included, an entry is in the window exactly until a request arrives that acknowledges a larger number |
| RpcSystem.LostExactly | rpc/rpc.cc:718-742 | `add_reply` has missed its entry if and only if a handler ended after a request arrived that acknowledges more than its number |
| RpcSystem.ReplyFidelity | rpc/rpc.cc:659-742 | in every history every reply carries the result of that request's only execution |
| RpcSystem.RepeatAnsweredExactly | rpc/rpc.cc:659-711 | in every history a request not acknowledged yet is answered DONE with its result exactly if its handler has finished, and INPROGRESS exactly if it is at work |
| RpcSystem.DeliveryAnswers | rpc/rpc.cc:582-640 | what a delivery leads to: the recorded reply again, a started handler, or the failure |
| RpcSystem.ForgottenExactly | rpc/rpc.cc:665-686 | the exact condition for FORGOTTEN, in terms of what was let in and acknowledged |
| RpcSystem.GivenUpCallsLoseReply | rpc/rpc.cc:286-298 | a history of eight steps that loses a reply |
| RpcPatience.PatientRepliesKept | rpc/rpc.cc:286-298 | with no call given up no reply is lost, and an unfinished request keeps its entry |
| RpcPatience.TrimmedFront | rpc/rpc.cc:665-686 | there the front after trimming is max(1, largest acknowledgement received) |
| RpcPatience.NoFalseForgotten | rpc/rpc.cc:198-215 | there only finished requests are answered FORGOTTEN |
| RpcProgress.CallCanComplete | rpc/rpc.cc:189-300 | from every state of such a history any outstanding call can be completed, and gets the result of its only execution |
| LockServer.LockServer.Acquire | lock_server_cache_rsm.cc:116-163 | answer and new state for every request, outdated and repeated ones included |
| LockServer.LockServer.Release | lock_server_cache_rsm.cc:166-191 | the head leaves only on its own fresh release; the release number is recorded |
| LockServer.NextIsTold | lock_server_cache_rsm.cc:166-191 | after the head's release the next in line is told to retry, and its retry is granted |
| LockServer.HeadIsNotified | lock_server_cache_rsm.cc:43-113 | of every reachable server: the head of a free lock's queue is told to retry, that of a taken one with waiters is asked to give it back, exactly one of the two |
| LockServer.LockServer.Notices | lock_server_cache_rsm.cc:43-113 | exactly the head of a taken queue with waiters is revoked, exactly the head of a free one is told to retry |
| LockServer.OldRequestsChangeNothing | lock_server_cache_rsm.cc:116-191 | a request at or below the recorded release changes no queue, no flag and no release number |
| LockServer.RepeatedAcquireKeepsQueue | lock_server_cache_rsm.cc:116-163 | executing a pending acquire again changes no queue or flag and answers the same |
| LockServer.GrantIsInTurn | lock_server_cache_rsm.cc:116-163 | an OK to a request that is not outdated goes to the client whose turn it is |
| LockServer.QueueDiscipline | lock_server_cache_rsm.cc:116-191 | for any requests: queues are duplicate-free, a taken lock was granted to the client at the head, and every grant went to the client of that turn after all earlier turns had left |
| LockClient.LockClient.AcquireProceed | lock_client_cache_rsm.cc:94-130 | a thread goes on exactly from FREE or NONE and asks the server exactly from NONE; at most one thread per lock is past the wait |
| LockClient.LockClient.AcquireReply | lock_client_cache_rsm.cc:130-170 | whatever the reply, the lock keeps at most one active thread and everybody else out |
| LockClient.LockClient.Release | lock_client_cache_rsm.cc:174-199 | after a release no thread is active on the lock, and the others are let on |
| LockClient.LockClient.ReleaserVisit | lock_client_cache_rsm.cc:50-91 | a release starts only for a cached lock, and then no thread has it |
| LockClient.LockClient.RetryHandler | lock_client_cache_rsm.cc:213-225 | a retry at any time keeps at most one active thread per lock and everybody else out |
| LockSystem.OkMeansHead | lock_server_cache_rsm.cc:116-163 | a current acquire is answered OK only to the head, and marks the lock taken |
| LockSystem.StepKeepsInv | lock_client_cache_rsm.cc:50-225 | every client step and every late or repeated execution of a request keeps the invariant |
| LockSystem.MutualExclusion | lock_client_cache_rsm.cc:50-225 | at most one client has the lock cached, in use or not yet taken back; it heads the queue with the lock marked taken; at most one thread owns it |
| LockProgress.WaiterGoesOnExactly | lock_client_cache_rsm.cc:94-130 | in every history a waiting thread can go on exactly if no thread of its client is busy with the lock, the releaser is not at work on it and no retry has overwritten the status |
| LockProgress.ShutForGood | lock_client_cache_rsm.cc:213-225 | a retry that nobody waits for shuts the lock on its client in every continuation |
| LockProgress.GrantIsStable | lock_server_cache_rsm.cc:116-163 | an acquire answered OK once is answered OK however often and late it is executed again |
| LockHandover.LockIsPassedOn | lock_client_cache_rsm.cc:50-225 | for any two clients: a history in which one owns the lock while the other waits, gives it back, and the other owns it |
| Wire.Back32 | rpc/rpc.cc:831-840 | a 32-bit number is read back, and nothing more is consumed |
| Wire.BackInt | rpc/rpc.cc:842-847 | a signed number is read back through its two's complement |
| Wire.Back64 | rpc/rpc.cc:857-863 | a 64-bit number is read back |
| Wire.BackString | rpc/rpc.cc:849-855 | a string is read back, whatever its bytes |
| Wire.BackVector | rpc/marshall.h:211-234 | a vector of strings is read back |
| Wire.StringReadExactly | rpc/rpc.cc:983-1004 | a string is read if and only if the input begins with the encoding of one |
| Wire.VectorReadExactly | rpc/marshall.h:221-234 | a vector is read if and only if the input begins with the encoding of one |
| Wire.HeaderBack | rpc/marshall.h:165-199 | unpacking a packet gives the header that was packed into it |
| Wire.Marshall.RawByte | rpc/rpc.cc:769-779 | one byte is added; the head never passes the capacity |
| Wire.Marshall.RawBytes | rpc/rpc.cc:781-792 | the bytes are added; both growth rules make enough room |
| Wire.Marshall.PackHeader | rpc/marshall.h:83-108 | header packing writes only its own bytes and never the content |
| Wire.Marshall.Vector | rpc/marshall.h:211-219 | the write loop adds the encoding of the vector |
| Wire.Unmarshall.RawByte | rpc/rpc.cc:904-913 | reading past the end clears `ok` for good and consumes nothing |
| Wire.Unmarshall.Text | rpc/rpc.cc:983-1004 | reads the length and then that many bytes, or fails |
| Wire.Unmarshall.Vector | rpc/marshall.h:221-234 | the read loop reads the vector |
| Wire.Unmarshall.UnpackHeader | rpc/marshall.h:174-199 | reads the header at its place, fails exactly if it is cut short, and leaves the cursor at the content |
| LockState.UnmarshalOverlays | lock_server_cache_rsm.cc:193-278 | into any server the sent state is laid over what is there, and the string is consumed exactly |
| LockState.FreshRestores | lock_server_cache_rsm.cc:193-278 | into a fresh server the state is restored exactly if and only if no client's table is empty |
| LockState.ReachableStateRestored | lock_server_cache_rsm.cc:116-278 | every server reached by well-sized requests is restored exactly, with nothing left unread |
| LockTransfer.MarshalState | lock_server_cache_rsm.cc:193-235 | the loops over the three maps, in key order, write the state's encoding |
| LockTransfer.UnmarshalTable | lock_server_cache_rsm.cc:262-275 | entries are laid over one client's table, which is created only by a first entry |
| LockTransfer.UnmarshalState | lock_server_cache_rsm.cc:237-278 | the loops decode the string onto the server, well-formed or not |
| Sequences.PositionMeaning | lock_server_cache.cc:108-118 | the search finds the first place of a client, or the end |
| OldLocks.OldServer.Acquire | lock_server_cache.cc:84-153 | who is revoked, granted or told to retry, and the list left behind |
| OldLocks.VerdictMeaning | lock_server_cache.cc:115-153 | the first in the list is granted, the second after a revoke of the first, all others told to retry |
| OldLocks.OldClient.AcquireTest | lock_client_cache.cc:29-96 | a thread goes on exactly from FREE or NONE, and asks the server exactly from NONE |
| OldLocks.OldClient.RevokeTest | lock_client_cache.cc:124-155 | a revoke goes on exactly from FREE or NONE and fails exactly from NONE |
| OldLocks.StepKeepsLine | lock_server_cache.cc:84-153 | every step keeps one line of clients, each waiting for the one before it, whose end is all the server's list holds |
| OldLocks.RetryIsUnreachable | lock_server_cache.cc:124-153 | the list never has two clients outside the mutex; RETRY and the retry call never happen |
| OldLocks.RevokeNeverFindsNone | lock_client_cache.cc:124-155 | no revoke finds status NONE or returns an error |
| OldLocks.OneTokenHolder | lock_client_cache.cc:29-155 | only the front of the line has the lock cached, in use or on its way back |
| OldLocks.OldMutualExclusion | lock_client_cache.cc:29-122 | at most one thread of all clients owns the lock |
| OldLocks.TokenFollowsArrivals | lock_server_cache.cc:84-153 | the lock is passed on in the order in which the server took up the calls |
| OldHandover.OldWaiterGoesOnExactly | lock_client_cache.cc:29-96 | in every history a waiting thread can go on exactly if no thread of its client is busy with the lock and it is not being revoked |
| OldHandover.RevokeGoesOnExactly | lock_client_cache.cc:124-155 | an outstanding revoke can go on exactly if its target has the lock cached and unused |
| OldHandover.OldLockIsPassedOn | lock_server_cache.cc:84-153 | for any two clients: a history in which one owns the lock and the other gets it by a revoke |

## Left out

- PaxosSafety.PaxosAgreement: assumes that no request out of time is granted, because the handlers do not check instances; `LateAccept` has the history that fails without it.
- Acceptors.Acceptor.ReadLog: a record that is cut short counts as a failure; the source goes on with what the failed stream leaves in its variables.
- PaxosSafety.StepKeepsInv: a peer's log is restored only into a node that has decided fewer instances than the peer, because `restore` replaces the node's own promises.
- RsmSystem.AcknowledgedSurvives: nodes enter with the view that adds them, apply views consecutively and do not restart; `NewcomerServesWithout` is about views after the next one.
- RpcPatience.NoFalseForgotten: histories in which no call is given up; `ForgottenExactly` has the condition in all others.
- RpcSystem.ReplyFidelity: after `add_reply` missed its entry the source writes through the end of its list; the model leaves the window as it is and sets `lost`, so it speaks of the source only up to the first miss.
- RpcSystem.AtMostOnce: one client and one server instance; `AddReply` and the window of other clients are separate by nonce.
- LockState.ReachableStateRestored: sizes must fit 32 bits and identifiers 64 bits; `size_t` is written as four bytes, as on the 32-bit platform the overloads of `<<` are made for.
- LockSystem.MutualExclusion: clients have different numbers at the server; the source draws them at random.
- OldLocks.OldMutualExclusion: one lock, and every remote call is carried out exactly once; locks do not share state.
- Request sequence numbers: the source never advances them.
- Liveness: that what can go on does go on, for threads, retries and view changes; the retry handler may run at any time in the model.
- Wrap-around of 32-bit counters, proposal numbers and request numbers.
- The lock server's tables inside `RsmSystem`, where a state is the set of requests whose effects it has; `LockState` treats the tables on their own.
- `nacquire`, which no other logic depends on.
- Atomicity and failure of file writes: each log record is appended as a whole.
- Sockets, threads, timers, the connection cache, the file system, and the test and breakpoint code.
