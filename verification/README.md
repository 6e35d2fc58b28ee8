# Verified models of the 6.5840 labs

This project models, in Dafny, the four systems of the repository that carry its hardest
guarantees, and proves those guarantees for every input, every run and every schedule.

**Raft** (`src/raft`). `RaftServer` holds the critical sections of `raft.go` as functions on one
server with a compacted log (`log[0]` is the snapshot's index and term); `RaftNode` has the same
sections as methods of an object with arrays and a persister, each proved equal to its function.
`RaftCluster` puts any number of servers, with the key/value service on top, into a network that
loses, delays, reorders and repeats packets, and lets servers time out, take and install snapshots,
crash and restart. `RaftFullLog` and `RaftFullSteps` are the same protocol on full logs with the
history of elections, leaders' logs and ballots written down; their invariant yields Log Matching
and Leader Completeness. `RaftRefinement` and `RaftSafety` show that every step of the cluster is a
step of that protocol, and state the five properties of Figure 3 of the extended Raft paper about
the code's own state, over whole runs. `RaftCompaction` compares the handlers of votes, log requests
and snapshots, the building of requests, the commit scan and the walk back after a rejection with
themselves on an uncompacted log. `RaftRepair` bounds log repair through the handlers, compares the
merge rule with Figure 2, and says exactly which actions break two tempting index properties;
`RaftRuns` carries the bound to runs, and `RaftExamples` holds runs in which those properties fail.
`RaftVotes` says exactly when a vote is granted, and that some member of any group of servers can get
the votes of all of them; `RaftCommits` says exactly what the commit scan commits, that no leader but a
lone server ever leaves a committable entry uncommitted, and what followers learn. `RaftProgress` puts these
together: from every reachable cluster, with the other servers silent, a majority can elect a leader,
repair its members' logs by entries or by snapshot, and commit and apply a new command.

**The replicated service** (`src/kvraft`). `KvState` and `KvServer` model the apply loop, the
duplicate table and snapshots; `Replication` joins them to Raft: one sequence of operations stands
behind every replica and every stored snapshot at every time of a run, as far as it was applied, and
no request takes effect in it twice. `ClientView` says by positions what a key holds after a sequence of
writes, the last value put followed by what was appended since; `KvReads` shows that this is what the
service stores and answers, in every run, and that its replies pass the checker's model.

**The linearizability checker** (`src/porcupine`, `src/models/kv.go`). `Bitset`, `LinkedEvents`,
`MemoTable` and `Checker` model the search with its in-place list, bit sets and memo table;
`LinearSearch` and `SearchState` say what it decides and why it ends. `Operations`, `KvModel` and
`OperationsCheck` carry the verdict from one key's event list to histories of timed operations on
the whole map, through the partitioning by key. `KvOrders` says what an accepted order is without the
model's step function, again by positions, so the verdict stands on that alone.

**MapReduce** (`src/mr`, `src/main/mrsequential.go`). `MrWorker` models both tasks and the
sequential program, `MrCoordinator` the job table and the object with its two views of the jobs,
`MrSystem` all schedules of workers, timers and reports. `MrReread` deals with a reduce task whose
file pattern also matches its own output file: it gives the exact condition under which every
schedule produces the sequential output, and a schedule and an input on which the code does not.
`MrProgress` shows that from every state of every run timers and one idle worker can finish the job.

Where several interleavings are possible the models allow all of them. Clocks, random intervals,
file listings and the order in which results arrive are inputs or free choices. Client commands are
the service's operations. Integers are unbounded, as none of the modelled code relies on wrap-around
except the checker's 64-bit words, whose width is explicit.

## Model

| member | source | states |
|---|---|---|
| RaftSafety.StateMachineSafety | src/raft/raft.go:481-497 | State Machine Safety: any two servers, at any two times of a run, hold the same entry at every index that both know to be committed |
| RaftSafety.ReplicasAgree | src/kvraft/server.go:169-217 | replicas that have applied equally much are in the same state at any times of a run, whether they applied entries, restarted from a snapshot or installed one |
| RaftSafety.SnapshotsAreReplicas | src/raft/raft.go:189-222 | a stored snapshot is the state of every replica that has applied exactly what the snapshot covers |
| RaftSafety.LeadersComplete | src/raft/raft.go:985-1007 | Leader Completeness: what a server knows to be committed is in the log of every leader of a later term, and of the same term from then on |
| RaftSafety.LeaderAppendsOnly | src/raft/raft.go:595-617 | Leader Append-Only: while a server leads one term its log only grows, apart from what moves into its snapshot |
| RaftSafety.LeaderHolds | src/raft/raft.go:1154-1160 | the same for full logs: a leader's log begins with the whole committed prefix of any server of an earlier term |
| RaftSafety.ElectionSafety | src/raft/raft.go:1072-1160 | Election Safety: over a whole run, crashes included, a term has at most one leader |
| RaftSafety.LogsMatch | src/raft/raft.go:438-486 | Log Matching: two servers at any two times whose entries at an index have one term hold the same entries at every lower index both still hold |
| RaftSafety.RequestsMatch | src/raft/raft.go:901-906 | Log Matching for a log and a request on its way, at any two times: one term at an index means the same entries below it, and the same term at the previous index |
| RaftSafety.LogTermsOrdered | src/raft/raft.go:595-617 | entries sit at their index, and terms ascend from the last entry of the snapshot on and never exceed the current term |
| RaftSafety.HandlersInRange | src/raft/raft.go:875-906 | in every reachable cluster all log accesses of handlers and senders are in range, and a leader can build a request for each peer that does not need the snapshot |
| RaftSafety.PersistedIsCurrent | src/raft/raft.go:148-183 | after every step of a run, what a crash would leave behind is the term, vote, log and snapshot in memory |
| RaftSafety.RunSimulated | src/raft/raft.go:410-500 | every run of the cluster is matched, state by state, by a run of the full-log protocol that satisfies its invariant |
| RaftSafety.StepSimulated | src/raft/raft.go:410-500 | every single action of the cluster is matched by steps of the full-log protocol |
| RaftSafety.CommittedLogsAgree | src/raft/raft.go:985-1007 | any two servers at any two times agree on the full log up to the smaller of their commit indices |
| RaftFullLog.LogMatching | src/raft/raft.go:438-486 | two logs, of servers, leaders or messages, that have one term at an index are equal up to it |
| RaftFullLog.TermsAscend | src/raft/raft.go:595-617 | terms ascend along every log that the protocol creates |
| RaftFullLog.UpToDateHolds | src/raft/raft.go:284-286 | a log that passes the vote's up-to-date check against a log holding a chosen entry holds that entry and everything below it |
| RaftFullLog.LeaderCompleteness | src/raft/raft.go:995-1005 | an entry of its leader's term that a quorum acknowledged is in the log with which every leader of a later term was elected |
| RaftFullLog.CommittedAgree | src/raft/raft.go:985-1007 | two committed prefixes agree on every entry they share |
| RaftFullLog.CommittedInMessage | src/raft/raft.go:905-906 | a leader's message agrees, as far as it reaches, with everything known to be committed in its term |
| RaftFullSteps.FirstLeader | src/raft/raft.go:1154-1160 | two vote quorums of one term share a voter, so a term that is being won has no leader yet |
| RaftFullSteps.GrantKeeps | src/raft/raft.go:224-291 | granting a vote keeps the protocol's invariant |
| RaftFullSteps.WinKeeps | src/raft/raft.go:1154-1160 | winning an election keeps the invariant |
| RaftFullSteps.AppendKeeps | src/raft/raft.go:595-617 | a leader's append keeps the invariant |
| RaftFullSteps.AdoptKeepsCommitted | src/raft/raft.go:481-486 | replacing a log by a leader's never removes a committed entry |
| RaftFullSteps.AdoptKeeps | src/raft/raft.go:481-486 | replacing a log by a leader's keeps the invariant |
| RaftFullSteps.LearnCommitKeeps | src/raft/raft.go:491-497 | following the leader's commit index keeps the invariant |
| RaftFullSteps.LeaderCommitKeeps | src/raft/raft.go:995-1005 | committing an entry of the own term that a majority stores keeps the invariant |
| RaftRefinement.MergeIsAdopt | src/raft/raft.go:481-486 | the code's merge leaves the log alone exactly when it already contains the leader's, and otherwise makes it the leader's log, compacted |
| RaftRefinement.LastMatches | src/raft/raft.go:482-483 | the test on the last entry alone decides whether the whole of the leader's log is already there |
| RaftRefinement.SharedPrefix | src/raft/raft.go:445-464 | sender and receiver agree on the receiver's snapshotted prefix |
| RaftRefinement.FollowStep | src/raft/raft.go:491-497 | the minimum with the local last index never limits the commit index: the server commits exactly what the leader has, all of it shared with the leader |
| RaftRefinement.SendInRange | src/raft/raft.go:875-906 | the request for a peer that does not need the snapshot can always be built |
| RaftRefinement.RequestCarries | src/raft/raft.go:901-906 | a request carries the leader's whole log above its previous entry |
| RaftRefinement.VoteReqStep | src/raft/raft.go:224-291 | a vote request is answered as the full-log protocol allows |
| RaftRefinement.LogReqStep | src/raft/raft.go:410-500 | a log request has the effect of full-log steps, and its reply is truthful |
| RaftRefinement.SnapReqStep | src/raft/raft.go:320-400 | a snapshot request has the effect of full-log steps, and its reply is truthful |
| RaftRefinement.LogRepStep | src/raft/raft.go:955-1044 | a log reply keeps every match index backed by an acknowledgement, and commits as the full-log protocol allows |
| RaftRefinement.SnapRepStep | src/raft/raft.go:718-780 | the same for a snapshot reply |
| RaftRefinement.InstallStep | src/raft/raft.go:352-397 | an installed snapshot is the adoption of the leader's committed prefix |
| RaftRefinement.DiscardStep | src/raft/raft.go:344-349 | a discarded snapshot is covered by the log already |
| RaftRefinement.CrashStep | src/raft/raft.go:1214-1253 | a restart from disk is a server that has lost its role and the part of its commit index above the snapshot, and nothing else |
| RaftRefinement.ScanFinds | src/raft/raft.go:985-1007 | the commit scan stops at the old commit index or at an entry of the leader's term that a majority has matched |
| RaftVotes.VoteIff | src/raft/raft.go:224-291 | a vote is granted exactly when it was given to the same candidate before, or the request's term is not below the server's, no vote of that term is given, and the candidate's full log is at least as up to date as the voter's |
| RaftVotes.VotesDecided | src/raft/raft.go:224-291 | the same for every vote request on its way in a run: the candidate's log is the one it asked with |
| RaftVotes.OneConvinces | src/raft/raft.go:284-286 | of any two servers at least one is granted the other's vote in every later term |
| RaftVotes.SomeoneWins | src/raft/raft.go:284-286 | in every reachable cluster, any group of servers has a member that is granted the votes of all of them in every later term |
| RaftVotes.StaleStepsDown | src/raft/raft.go:224-432 | a vote, log or snapshot request of an earlier term changes nothing but the disk, and its reply makes a sender that is still behind a follower, without a vote, in the receiver's term |
| RaftVotes.LogRequestRole | src/raft/raft.go:410-500 | exactly when a log request changes the receiver's role |
| RaftCommits.ScanIff | src/raft/raft.go:985-1007 | the scan moves the commit index to the last entry of the leader's term that a majority has matched, or leaves it when there is none above it, and to no other index |
| RaftCommits.LeadersCommit | src/raft/raft.go:974-1007 | in every run of every cluster but a lone server, a leader has at all times committed every entry of its term that a majority has matched, and counts itself up to its last entry |
| RaftCommits.LoneNeverCommits | src/raft/raft.go:936-1007 | a lone server never commits an entry: it scans only when a reply arrives |
| RaftCommits.CommitsAlwaysIff | src/raft/raft.go:974-1007 | no committable entry stays uncommitted in any run, if and only if the cluster is not a lone server |
| RaftCommits.FollowersLearn | src/raft/raft.go:491-497 | a follower that accepts a request knows from then on at least what the leader knew to be committed when it built the request |
| RaftProgress.GetLeader | src/raft/raft.go:1060-1160 | from every reachable cluster the members of a majority alone can get a leader that none of them is ahead of, a leader that was overtaken stepping down first, and no log changes |
| RaftProgress.Sync | src/raft/raft.go:690-1044 | such a leader can get its log accepted by every member, walking back term by term or sending its snapshot first; the member then knows what the leader knew to be committed, and everything sent is matched |
| RaftProgress.Replicate | src/raft/raft.go:595-1044 | a new command reaches every member and every member learns that it is committed |
| RaftProgress.CanServe | src/raft/raft.go:595-1160 | from every reachable cluster a majority alone, without a crash, can put any command at the next index of a leader's log and apply it on every member |
| RaftProgress.AlwaysServesIff | src/raft/raft.go:595-1160 | that is possible from every reachable cluster for every majority and command, if and only if the cluster is not a lone server |
| RaftNode.Persister.Save | src/raft/persister.go:53-58 | one atomic write of state and snapshot |
| RaftNode.Persister.Copy | src/raft/persister.go:30-37 | a copy with the same contents |
| RaftNode.Raft.constructor | src/raft/raft.go:1214-1253 | a server made from a persister is the one that resumes from what is on disk |
| RaftNode.Raft.ResetIndex | src/raft/raft.go:1173-1199 | refines the reset of the peers' indices |
| RaftNode.Raft.Persist | src/raft/raft.go:148-158 | the disk holds the current term, vote, log and snapshot |
| RaftNode.Raft.AddCurrentTerm | src/raft/raft.go:503-521 | refines the move to a later term |
| RaftNode.Raft.BeginElection | src/raft/raft.go:1072-1098 | refines the start of an election and its request |
| RaftNode.Raft.RequestVote | src/raft/raft.go:224-291 | refines the vote handler: new state and reply |
| RaftNode.Raft.BecomeLeader | src/raft/raft.go:1154-1160 | refines the change to leader |
| RaftNode.Raft.Start | src/raft/raft.go:595-617 | a leader, and only a leader, appends the command at the next index and says so |
| RaftNode.Raft.PrepareLog | src/raft/raft.go:882-912 | refines the building of a peer's request |
| RaftNode.Raft.RequestSendLog | src/raft/raft.go:410-500 | refines the log handler: new state and reply |
| RaftNode.Raft.ReceiveLog | src/raft/raft.go:438-500 | refines the handler inside the request's term |
| RaftNode.Raft.Trim | src/raft/raft.go:455-463 | the loop that drops snapshotted entries leaves exactly the entries above the snapshot |
| RaftNode.Raft.AcceptLog | src/raft/raft.go:475-499 | refines merging, persisting and following the commit index |
| RaftNode.Raft.MergeEntries | src/raft/raft.go:481-486 | refines the merge of the entries |
| RaftNode.Raft.FollowCommit | src/raft/raft.go:491-497 | refines the follower's commit index |
| RaftNode.Raft.TakeSnapshot | src/raft/raft.go:189-222 | refines the compaction of the log, for every index |
| RaftNode.Raft.InstallSnapshot | src/raft/raft.go:320-400 | refines the snapshot handler: new state and reply |
| RaftNode.Raft.ReceiveSnapshot | src/raft/raft.go:338-397 | refines the handler inside the request's term |
| RaftNode.Raft.CountMatches | src/raft/raft.go:989-993 | the loop counts exactly the peers matched up to an index |
| RaftNode.Raft.AdvanceCommit | src/raft/raft.go:985-1007 | the scanning loop refines the commit rule |
| RaftNode.Raft.BackOff | src/raft/raft.go:1013-1040 | the walk back over one term refines the next index to try |
| RaftNode.Raft.LogReplyReceived | src/raft/raft.go:955-1044 | refines the handling of a log reply |
| RaftNode.Raft.RecordMatch | src/raft/raft.go:974-983 | match and next index are raised, never lowered |
| RaftNode.Raft.SnapReplyReceived | src/raft/raft.go:718-780 | refines the handling of a snapshot reply |
| RaftCompaction.VoteCompacts | src/raft/raft.go:224-291 | the vote handler gives the same reply, term, vote and full log whether or not the log is compacted |
| RaftCompaction.ReceiveLogCompacts | src/raft/raft.go:438-500 | so does the log handler, with the same commit index, whenever sender and receiver agree on the snapshotted prefix |
| RaftCompaction.ReceiveLogRoles | src/raft/raft.go:445-478 | the roles afterwards differ exactly when a candidate gets a request that lies entirely below its snapshot |
| RaftCompaction.ScanCompacts | src/raft/raft.go:985-1007 | so does the commit scan |
| RaftCompaction.SnapshotStutters | src/raft/raft.go:189-222 | taking a snapshot at any index leaves the full log as it was |
| RaftCompaction.SnapshotCuts | src/raft/raft.go:189-222 | a snapshot at an index of the log puts that index and its term first, keeps every entry above it and is on disk with the log; at any other index nothing changes |
| RaftCompaction.DiscardCompacts | src/raft/raft.go:344-349 | whether a snapshot is discarded does not depend on compaction, whenever its log agrees on the snapshotted prefix |
| RaftCompaction.ReceiveSnapshotCompacts | src/raft/raft.go:344-397 | so the two servers accept or discard together, and after accepting they are the same |
| RaftCompaction.DiscardStutters | src/raft/raft.go:344-349 | discarding a snapshot leaves the full log as it was |
| RaftCompaction.PrepareCompacts | src/raft/raft.go:875-906 | the request a compacted leader builds is the one the uncompacted leader builds |
| RaftCompaction.StartCompacts | src/raft/raft.go:595-617 | appending a command gives the same full log |
| RaftCompaction.BackOffCompacts | src/raft/raft.go:1012-1040 | the walk back after a rejection is the same but for stopping at the snapshot |
| RaftRepair.TermStartIsRun | src/raft/raft.go:1034-1040 | a rejection moves the next index to the start of the run of equal terms below it |
| RaftRepair.RunsAreTerms | src/raft/raft.go:1034-1038 | with ascending terms the runs are the distinct terms |
| RaftRepair.BackOffCosts | src/raft/raft.go:1012-1040 | walking back strictly lowers the next index, keeps it in range and costs exactly one run of terms |
| RaftRepair.RejectionsCost | src/raft/raft.go:875-1044 | a rejected attempt (request, handler of the peer in any state, reply) changes only the next index, lowers it strictly and costs one run of terms |
| RaftRepair.RepairBound | src/raft/raft.go:875-1044 | whatever states of the term or below the peer is found in, and from any next index in range, one attempt more than the log has distinct terms ends with an accepted request or with the snapshot being due |
| RaftRepair.LastAttemptSucceeds | src/raft/raft.go:875-906 | at the first entry, where no snapshot is due, the request succeeds on every follower |
| RaftRuns.LeadersRepair | src/raft/raft.go:875-906 | in every run every leader is in a state from which it can repair every peer, and its log has ascending terms |
| RaftRuns.RepairEnds | src/raft/raft.go:875-1044 | the repair bound for every leader of every run |
| RaftRepair.NextAboveMatchIff | src/raft/raft.go:968-1044 | a next index above the match index is not kept by log replies: exactly which reply in which state breaks it |
| RaftRepair.NextAboveMatchSnapIff | src/raft/raft.go:726-736 | the same for snapshot replies |
| RaftRepair.NextMeetsMatchIff | src/raft/raft.go:595-622 | over all actions of the cluster: a step makes a next index meet its match index exactly when it is such a log reply, such a snapshot reply, or a command given to a leader whose own next index is not beyond its log |
| RaftRepair.StaleRejection | src/raft/raft.go:1012-1042 | instances that break it: a late rejection after everything sent was matched |
| RaftExamples.StaleRejectionInRun | src/raft/raft.go:1012-1042 | a run in which that happens: the rejection of a request arrives again after the peer was repaired |
| RaftExamples.OwnIndicesMeet | src/raft/raft.go:611-616 | a run in which a command makes a leader's own indices meet |
| RaftRepair.Figure2Outcome | src/raft/raft.go:481-486 | Figure 2's entry-by-entry rule, on logs that match, skips or replaces the whole tail |
| RaftRepair.RuleIsFigure2 | src/raft/raft.go:481-486 | the code's test of the last entry gives the same log as Figure 2's rule wherever log and request match |
| RaftRepair.MergeIsFigure2 | src/raft/raft.go:481-486 | hence on every log and request of the protocol |
| RaftRepair.ReceiveNeverLowers | src/raft/raft.go:491-497 | no packet lowers a commit index |
| RaftRepair.CommitIndexFalls | src/raft/raft.go:160-183 | a step lowers a server's commit index exactly when it restarts that server and the server knew more than its snapshot |
| RaftExamples.CommitIndexFallsInRun | src/raft/raft.go:160-183 | a run in which a committed entry is forgotten by a restart |
| KvServer.KVServer.constructor | src/kvraft/server.go:298-323 | a new server starts from the snapshot, or empty |
| KvServer.KVServer.RestoreSnapShot | src/kvraft/server.go:145-167 | a snapshot replaces store, table and replies; none leaves them alone |
| KvServer.KVServer.TakeSnapShot | src/kvraft/server.go:130-141 | Raft is given the whole state as the snapshot of the index, and the service keeps its state |
| KvServer.KVServer.ApplyToStateMachine | src/kvraft/server.go:219-265 | refines the effect of one operation on the store and its reply |
| KvServer.KVServer.ApplyCommand | src/kvraft/server.go:174-197 | a committed command is skipped if its index was seen, answered from the table if its request was, executed otherwise; the table then holds the reply given |
| KvServer.StoreIsExecuted | src/kvraft/server.go:178-197 | the store is the plain execution of the operations that took effect, for every log |
| KvServer.TableTracksLog | src/kvraft/server.go:190-197 | a client's table entry is its last operation that took effect, and the cached reply is the one that operation computed |
| KvServer.ExecutedIncreasing | src/kvraft/server.go:190-197 | at most once: each client's executed request numbers strictly increase |
| KvServer.ExactlyOnceIff | src/kvraft/server.go:190-197 | exactly the first occurrences of the requests take effect if and only if they are in order for each client, and then the store is the fold over them |
| KvServer.ReplaySplit | src/kvraft/server.go:169-217 | replaying a log in two parts is replaying it |
| KvReads.AnswerAfter | src/kvraft/server.go:249-265 | after a Put a Get answers the value put, after an Append the old answer followed by the value appended, and other operations and other keys change no answer |
| KvReads.StoreHolds | src/kvraft/server.go:249-265 | executed operations leave in the store exactly the keys written, each with the last value put followed by what was appended since |
| KvReads.CachedReplies | src/kvraft/server.go:190-197 | for every log, the reply kept for a client is the one its last operation that took effect must get by the positions of the writes before it, NoKey exactly for a key never written |
| KvReads.ClientsRead | src/kvraft/server.go:169-265 | over every run one history of operations explains, by positions, every key of every replica at any time and every reply kept for a client |
| KvReads.StepAccepts | src/models/kv.go:40-57 | the checker's model accepts every reply of the service and leaves in the key what the service leaves |
| KvReads.ServiceLinearizable | src/kvraft/server.go:190-265 | the replies computed for operations that took effect in an order that respects time form a history that is linearizable against the checker's model |
| Replication.ReplayCommands | src/kvraft/server.go:174-197 | applying the entries of a log is replaying its operations |
| Replication.CommandsPrefix | src/raft/raft.go:788-845 | a log that agrees with a longer one holds a beginning of its operations |
| Replication.CommandsCount | src/raft/raft.go:604-616 | every entry Raft creates above the dummy is an operation, so operations and log indices agree |
| Replication.OneHistory | src/kvraft/server.go:169-217 | for every run there is one sequence of operations such that every replica, at any time, is in the state after exactly the operations it has applied, its stored snapshot in the state after those it covers, and each request takes effect at most once |
| Replication.CutsDoNotMatter | src/kvraft/server.go:130-206 | snapshot cut independence over every run: wherever replicas snapshot, crash or install the snapshot of another, restoring the stored snapshot and replaying the operations after it gives the uninterrupted replay |
| Bitset.New | src/porcupine/bitset.go:10-17 | enough words for the bits, representing the empty set |
| Bitset.Clone | src/porcupine/bitset.go:19-23 | a fresh copy |
| Bitset.Set | src/porcupine/bitset.go:29-33 | the set gains exactly the position |
| Bitset.Clear | src/porcupine/bitset.go:35-39 | the set loses exactly the position |
| Bitset.MaskTests | src/porcupine/bitset.go:41-44 | a word and-ed with a one-bit mask is not zero exactly when that bit is on |
| Bitset.Get | src/porcupine/bitset.go:41-44 | the mask test is true exactly for members |
| Bitset.Popcnt | src/porcupine/bitset.go:46-52 | the cardinality of the set |
| Bitset.PopcountIsCardinality | src/porcupine/bitset.go:46-52 | one bits summed over words count the positions of the set |
| Bitset.Hash | src/porcupine/bitset.go:54-60 | the loop computes the hash of the words |
| Bitset.Equals | src/porcupine/bitset.go:62-72 | true exactly when length and set are the same |
| Bitset.SameBitsSameWords | src/porcupine/bitset.go:62-72 | sets of equal length with the same members have the same words |
| Bitset.EqualSetsShareBucket | src/porcupine/bitset.go:54-60 | equal sets share a hash |
| MemoTable.Contains | src/porcupine/checker.go:145-152 | looking into one bucket finds an entry with the same set and an equal state exactly when the table has one anywhere |
| MemoTable.Add | src/porcupine/checker.go:201-202 | the table gains the entry in its bucket and loses none |
| LinkedEvents.Lift | src/porcupine/checker.go:159-167 | the list is left with exactly the other positions, in order, and the two nodes keep their links |
| LinkedEvents.Unlift | src/porcupine/checker.go:169-177 | undoes the last lift, adjacent and last nodes included |
| Checker.LiftChoice | src/porcupine/checker.go:159-167 | after any stack of choices, lifting one more leaves the history minus the chosen pairs |
| Checker.UnliftChoice | src/porcupine/checker.go:169-177 | in every nesting, unlifting the last choice restores the list of the choices before it |
| Checker.InsertBefore | src/porcupine/checker.go:70-81 | the links after an insertion |
| Checker.MakeLinkedEntries | src/porcupine/checker.go:121-138 | the list holds the events in order and each call points to its return |
| Checker.Length | src/porcupine/checker.go:83-90 | the number of nodes |
| Checker.CheckSingle | src/porcupine/checker.go:179-253 | ends on every well-formed history; on true the stack of calls is a linearization of all operations; on false, if equality respects the step function, there is none |
| LinearSearch.ExtendableIffExplained | src/porcupine/checker.go:190-243 | the tree of minimal choices has a full branch exactly when some order respects time and the model |
| LinearSearch.EqualExtends | src/porcupine/checker.go:145-152 | states that the model calls equal can be completed alike |
| SearchState.MemoHitMeansDead | src/porcupine/checker.go:200-210 | a memo hit prunes only branches that cannot be completed |
| SearchState.ReturnMeansDead | src/porcupine/checker.go:214-242 | reaching a return with every earlier call refuted means the position cannot be completed |
| SearchState.FullPathExplains | src/porcupine/checker.go:244-252 | an empty list means the stack of calls is a linearization |
| SearchState.PushCosts | src/porcupine/checker.go:200-207 | pushing a call decreases the termination measure |
| SearchState.PopCosts | src/porcupine/checker.go:235-241 | backtracking decreases the termination measure |
| SearchState.AdvanceCosts | src/porcupine/checker.go:208-213 | moving on decreases the termination measure |
| Operations.MakeEntries | src/porcupine/checker.go:39-60 | two events for each operation; if none returns before it is called, the sorted entries are a well-formed history in which one operation is called before another returns exactly when its call time is not after the other's return time |
| Operations.HistoryDecides | src/porcupine/checker.go:48-60 | the history of events is linearizable exactly when the operations are |
| KvModel.MapAcceptsEachKey | src/models/kv.go:35-57 | an order the map accepts is, restricted to each key, one the single-key model accepts |
| KvModel.KeysAcceptMap | src/models/kv.go:35-57 | the converse |
| KvModel.Merge | src/porcupine/model.go:28-32 | orders for single keys, each respecting time, merge into one order that respects time |
| KvModel.Locality | src/models/kv.go:18-57 | a history is linearizable against the whole map if and only if every key's subhistory is linearizable against one string |
| KvModel.Partition | src/models/kv.go:18-34 | one part per key of the history, in key order, each the subhistory of its key |
| KvModel.PartsDecide | src/porcupine/model.go:28-32 | the contract of partition functions: the history is linearizable if and only if every part is |
| KvOrders.AcceptedIff | src/models/kv.go:35-57 | an order is accepted exactly when every operation that returns a value returns the last value put in its key before it followed by what was appended since |
| KvOrders.LinearizableIff | src/models/kv.go:35-57 | a history is linearizable against the whole map if and only if some such order of its operations respects time |
| OperationsCheck.MakeHistories | src/porcupine/checker.go:366-371 | every part gets its entries |
| OperationsCheck.CheckParallel | src/porcupine/checker.go:274-353 | whatever the order of the verdicts, and whether or not all are collected, Ok and Illegal are right, and Unknown needs the timer |
| OperationsCheck.CheckOperations | src/porcupine/checker.go:365-373 | Ok means that some order of the operations respects time and explains every value returned by the puts and appends before it, Illegal that none does |
| MapReduce.ReducedPermutes | src/mr/worker.go:186-214 | for an order-insensitive reduce function the output does not depend on the order in which pairs are gathered or sorted |
| MapReduce.ReducedUnique | src/mr/worker.go:196-214 | there is only one output |
| MapReduce.BucketValues | src/mr/worker.go:116-120 | a key's reduce task receives all of its values in the sequential order, and no other task receives any |
| MapReduce.UnionIsSequential | src/main/mrsequential.go:60-82 | right output files together hold exactly the lines of the sequential program, each key once |
| MrWorker.Split | src/mr/worker.go:115-120 | pairs are grouped by reduce task, and a task without pairs gets no group |
| MrWorker.MapTask | src/mr/worker.go:98-150 | one intermediate file for each reduce task that gets pairs, with exactly those pairs, and no other change |
| MrWorker.GroupReduce | src/mr/worker.go:196-214 | the index loops over sorted pairs give every key once, in order, reduced with all of its values |
| MrWorker.ReduceTask | src/mr/worker.go:153-219 | the output file becomes the reduction of the contents of all files found, sorted by key, and for an order-insensitive reduce function of the contents as found; it stays away when none is found |
| MrWorker.Sequential | src/main/mrsequential.go:38-84 | the sequential output is the reduction of everything emitted, sorted by key, and for an order-insensitive reduce function of everything emitted |
| MrCoordinator.AssignSafe | src/mr/coordinator.go:44-155 | a reduce job is handed out only when every map job is finished, the stop order exactly when the reduce phase is over, the order to wait exactly when no job of the phase is open, and finished jobs stay finished |
| MrCoordinator.ExpireSafe | src/mr/coordinator.go:74-89 | a timer, stale or not, undoes no finished job and keeps the phase flags exact |
| MrCoordinator.ExpireReopens | src/mr/coordinator.go:70-89 | the timer of a job in progress, map or reduce, opens it again and changes no other job; the next request is given it, or an earlier open job of the phase |
| MrCoordinator.ReportCounts | src/mr/coordinator.go:157-187 | a report counts exactly while its job is in progress, closes or reopens that job alone, and a report of failure acts as the timer does |
| MrCoordinator.ReportSafe | src/mr/coordinator.go:157-187 | so does every report, late, repeated or failed |
| MrCoordinator.Coordinator.constructor | src/mr/coordinator.go:250-288 | all jobs open, both views of the jobs the same arrays |
| MrCoordinator.Coordinator.GetJob | src/mr/coordinator.go:44-155 | refines the assignment and keeps the two views one |
| MrCoordinator.Coordinator.TimerFires | src/mr/coordinator.go:70-89 | refines the expiry of an assignment |
| MrCoordinator.Coordinator.ReportJobResult | src/mr/coordinator.go:157-187 | refines the report through the other view |
| MrCoordinator.Coordinator.CheckAllState | src/mr/coordinator.go:190-224 | a phase flag is set exactly when the phase's jobs are all finished |
| MrCoordinator.Coordinator.Done | src/mr/coordinator.go:242-245 | true exactly when the table's reduce phase is over |
| MrSystem.PhaseSafety | src/mr/coordinator.go:44-224 | over every run: finished stays finished, flags are exact, reduce jobs and stop orders come only after their phases, and every report names a job of the table |
| MrProgress.CanFinish | src/mr/coordinator.go:44-245 | from every state of every run, timers and any one worker without a task can bring the job to Done, whatever the other workers hold and never report |
| MrProgress.CanAlwaysFinishIff | src/mr/coordinator.go:44-245 | so it is for every state of every run, if and only if there is an input file |
| MrSystem.GatheredIsBucket | src/mr/worker.go:155-185 | once every map task has left its files, they hold the pairs of the reduce task, whatever the order of the listing |
| MrSystem.ReadRight | src/mr/worker.go:155-214 | a reduce attempt computes the right output even when an earlier attempt left an output file, if reading that file back changes nothing |
| MrSystem.StepKeeps | src/mr/worker.go:90-228 | every step of every worker, timer and report keeps the invariant of files and jobs |
| MrSystem.OutputIsSequential | src/mr/coordinator.go:242-245 | once Done holds, in every schedule, the output files together are the sequential output |
| MrReread.AlwaysSequentialIff | src/mr/worker.go:155-219 | all schedules give the sequential output if and only if feeding each reduce task's output back into it changes nothing |
| MrReread.NothingDecodesSuffices | src/mr/worker.go:171-184 | in particular when no output file of the job decodes to a pair |
| MrReread.SecondAttempt | src/mr/worker.go:155-219 | the schedule that ends with the wrong output otherwise: a reduce job times out, is done by another worker, and is then finished by the first |
| MrReread.NullWordFails | src/mr/worker.go:178-184 | an input that fails: the decoder takes the word null at the start of an output file for an empty pair |

## Left out

- Time: tickers, sleeps, election intervals and RPC timeouts are free choices of the next step. RaftProgress and MrProgress say that progress is possible from every reachable state, not that a schedule makes it.
- The heartbeat RPC (src/raft/raft.go:293-318, 642-686), which is never started.
- The two-lock apply goroutines (src/raft/raft.go:367-392, 788-845): committed entries reach the service in order and one at a time, and an installed snapshot reaches it together with the installation.
- The floating-point minimum in src/raft/raft.go:492 is the minimum of integers.
- The size test before a snapshot (src/kvraft/server.go:122-128): the service may snapshot whenever it has applied an entry, so the snapshot index never exceeds the commit index.
- Reply routing in src/kvraft/server.go:69-119 and 199-201: channels are keyed by log index alone and ignore the term, so that every reply belongs to the waiting request is not guaranteed.
- RaftCompaction.ReceiveLogCompacts: does not compare roles, because they can differ; RaftCompaction.ReceiveLogRoles says exactly when.
- RaftNode.Raft.RequestSendLog: needs entries numbered from the previous index on, as every request of a leader is; RaftSafety.HandlersInRange shows that no other request exists in a run.
- RaftNode.Raft.Trim: the request is a value here; the source changes the receiver's decoded copy in place.
- Bitset.Popcnt: the hardware population count is a loop over 64 bits; words are numbers below 2^64 with bit operations written out.
- Checker.CheckSingle: the kill flag and the collection of longest partial linearizations are not modelled; they do not affect a verdict that is delivered.
- Operations.MakeEntries: promises a history only for operations that return no earlier than they were called; for others the source builds a list in which a call has no return.
- OperationsCheck.CheckOperations: needs a non-empty history, because with no partitions the source waits for ever; the timer is a bound on the number of verdicts received before it fires.
- KvReads.ServiceLinearizable: which reply reaches which client is not part of it (see reply routing above), nor are operations of an unnamed kind, which clients never send.
- Event histories with foreign identifiers (src/porcupine/checker.go:92-119, 355-363): renumbering would only add easy members.
- Encoding and decoding (labgob, gob, JSON), files, sockets, plugins and the RPC simulator: messages are values and files are maps; what decoding an output file as pairs yields is a parameter.
- MrReread.NullWordFails: the decoder is given by its result on one file; how a JSON decoder reads text is not modelled.
- MrCoordinator.Coordinator.ReportJobResult: needs a job of the table; a report of the unknown job type, which a worker sends after a failed request, indexes an empty list in the source.
- MrWorker.MapTask: needs at least one reduce task; with none the source divides by zero.
- MrSystem.OutputIsSequential: runs start in a directory without intermediate and output files, as the test script arranges; input files do not change.
- Work left in temporary files by workers that stop half-way is not modelled; renames are atomic.
- The FNV hash body: any function to natural numbers will do.
- src/kvsrv, src/shardctrler, src/shardkv, test drivers, applications and visualization.
