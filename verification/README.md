# A replicated, sharded key-value store, and four data structures beside it

This project models the hard core of the repository in Dafny and proves what that core is for.

**Raft** (`6.824/src/kvRaft/raft.hpp`). `RaftNode` has the handlers as functions on a server's fields;
`RaftServer` has the same handlers as a class that changes those fields with the original's loops, each method
proved to compute its function. `RaftCluster` turns a cluster into a state machine whose steps are the original's
locked regions. `RaftHistory`, `RaftInvariant`, `RaftSteps` and `RaftReplication` carry a history of votes, reigns
and acknowledgements through every step; `RaftSafety` draws the theorems over whole runs from it. `RaftCommit` says
what gets committed and applied, `RaftValidity` that only what clients proposed does, `RaftVotes` who is elected, and
`RaftWitness` gives a run in which a command is applied. `RaftCompaction` proves log compaction invisible, `RaftRepair`
that log repair ends, and how fast, `RaftCodec` that entries survive their text form.

The theorems hold for every run of a cluster of fixed odd size (`6.824/src/Raft/raft.cpp:849`) whose servers do not
restart. What else the code relies on without enforcing it is a guard of a step: a locked region is one step, and so
are a heartbeat round and the start of an election; the answers of one election are all consumed before that
server's next election starts; AppendEntries from one server to another arrive in sending order, though any of them
may be lost, as may any vote call. What happens without them is proved too: `RaftRepair.LateAppendTakesBack` says what
is lost when two messages change places, `RaftStale.StaleGrantsElectIff` which late answers elect a leader without a
majority, `RaftStale.StaleGrantTwoLeaders` gives a run with two leaders of one term, and
`RaftMedian.MedianIsMajorityIffOdd` shows that the count must be odd.

**Shard master** (`shardMaster.hpp`). `ShardBalance` has the rebalancing loops over a work load, `ShardMaster` the
configuration history. Joins carry positive group ids and moves name existing groups (`6.824/src/shardKv/client.cpp:248-249`).

**Shard server** (`6.824/src/shardKv/server.cpp`). `ShardGroup` has what each log command does to a group, `ShardServer`
the class with the original's loops. `ShardSystem` puts all groups and the configuration history into one state
machine in which every command, pull and collection may be repeated and delayed at will; `ShardInvariant`,
`ShardMigration`, `ShardApply` and `ShardSafety` prove that each shard is served by one group at most and that its
contents are exactly the writes applied to it. `ShardValues` says what those writes leave under a key without carrying
them out, `ShardRequests` which requests a group carries out, `ShardOnce` that none is carried out twice however its
shard moves, and `ShardProgress` that migration can always go on.
`ShardSnapshot` treats the late snapshot index; `Codec`, `ShardCodec`
and `SnapshotCodec` the nested text forms. `KvServer` is the unsharded server's duplicate suppression.

**Dancing links** (`sudoku.cc`). `Rings` has circular lists, `Torus` the toroidal matrix and what covering a column
does to it, `ExactCover` what the linked nodes mean, `CoverSteps` and `RowSteps` the positions of the loops,
`SudokuGrid`, `SudokuMatrix`, `SudokuBuild` and `SudokuColumns` the board and the matrix built from it, and
`DancingLinks` the solver class. Nodes are numbered in the order in which they are created; the rings may be linked in
any order.

**Skip list** (`SkipLevels`, `SkipList`), **event loop and connection output** (`EventLoop`, `OutputBuffer`,
`TcpConnection`) and **calendar** (`Calendar`) stand alone. `Basics` holds what several modules share.

## Model

| member | source | states |
|---|---|---|
| RaftSafety.StateMachineSafety | 6.824/src/kvRaft/raft.hpp:337-346 | over every run of an odd cluster, no two servers ever hand different entries to their applications at one index |
| RaftSafety.CommittedInLaterLeaders | 6.824/src/kvRaft/raft.hpp:516-558 | whatever any server ever commits, every leader of a later term holds at the same indices, at any time of its reign |
| RaftSafety.LogMatching | 6.824/src/kvRaft/raft.hpp:922-982 | any two logs of a run, at any two times, that have the same term at an index agree on everything up to it |
| RaftSafety.AcceptingCopiesLeader | 6.824/src/kvRaft/raft.hpp:801-823 | an AppendEntries accepted at any later time leaves the receiver's log equal to the sender's log at sending time |
| RaftSafety.ElectionSafety | 6.824/src/kvRaft/raft.hpp:412-475 | no term of a run ever has two leaders |
| RaftSafety.AppliedOnlyGrows | 6.824/src/kvRaft/raft.hpp:337-346 | over a whole run what has been applied is never taken back, and is always the beginning of the server's own log up to its applied index |
| RaftSafety.AccessInRange | 6.824/src/kvRaft/raft.hpp:1202-1204 | in every reachable state applied <= committed <= last index, and a leader's next and match indices stay inside its log |
| RaftCommit.RunCommits | 6.824/src/kvRaft/raft.hpp:844-855 | over every run of an odd cluster, a success reply that a leader handles leaves committed every entry of its term that more than half of its match indices reach |
| RaftCommit.LeaderCommits | 6.824/src/kvRaft/raft.hpp:844-855 | for a leader with a log of rising terms, a success reply sets the two indices of that peer, commits up to every entry of its term that a majority is known to hold, and otherwise leaves the commit index or raises it to such an entry; the count is of holders, not the median |
| RaftCommit.LeadersRise | 6.824/src/kvRaft/raft.hpp:844-855 | in every run the log of every leader has rising terms, none above its own |
| RaftCommit.AcceptingLearnsCommit | 6.824/src/kvRaft/raft.hpp:968-976 | over every run, a follower that accepts a message, however late, has committed at least what its sender had committed when sending |
| RaftCommit.FollowerCommits | 6.824/src/kvRaft/raft.hpp:968-976 | an accepted message leaves the commit index at least at the smaller of the leader's and the last index, and changes it to nothing else |
| RaftCommit.ApplyCatchesUp | 6.824/src/kvRaft/raft.hpp:337-346 | over every run, one pass of the apply loop leaves applied exactly the committed prefix of the log |
| RaftValidity.LogsHoldProposals | 6.824/src/kvRaft/raft.hpp:1001-1023 | over every run, each entry of every log carries the command of an earlier proposal, made to a server while it led the entry's term |
| RaftValidity.AppliedWasProposed | 6.824/src/kvRaft/raft.hpp:1001-1023 | over every run, everything ever applied was so proposed before |
| RaftValidity.ProposalIsLogged | 6.824/src/kvRaft/raft.hpp:1001-1023 | over every run, a proposal at a leader becomes the last entry of its log, with its command and term, behind all the earlier ones |
| RaftWitness.CommandGetsApplied | 6.824/src/kvRaft/raft.hpp:427-465 | for any command there is a run of three servers that elects a leader, replicates and commits the command, and applies it at two of them |
| RaftVotes.VoteGrantedIff | 6.824/src/kvRaft/raft.hpp:527-558 | a vote is granted if and only if the voter is in no later term, has not voted for another in this one, and its log ends in no later term and, in the same term, at no later index; it then has voted in the candidate's term |
| RaftVotes.AsGoodOrder | 6.824/src/kvRaft/raft.hpp:516-525 | the comparison of logs is a total preorder |
| RaftVotes.LongerIsAsGood | 6.824/src/kvRaft/raft.hpp:516-525 | a log that continues another in terms that do not fall is as good |
| RaftVotes.SomeoneCanWin | 6.824/src/kvRaft/raft.hpp:427-465 | in any state of any cluster there is a server for which, once no other is in a later term, every server votes when it stands for election |
| RaftVotes.FirstMessageIsEmpty | 6.824/src/kvRaft/raft.hpp:801-823 | a new leader first asks each peer about the end of its own log and sends no entry |
| RaftVotes.LaterTermFollows | 6.824/src/kvRaft/raft.hpp:885-926 | a request or message of a later term makes any server a follower in that term; a message of an earlier term changes nothing and is refused |
| RaftVotes.StaleCandidateGivesUp | 6.824/src/kvRaft/raft.hpp:498-514 | a candidate of an earlier term is refused by an unchanged voter and, on the answer, follows in the voter's term with no vote cast |
| RaftVotes.StaleLeaderGivesUp | 6.824/src/kvRaft/raft.hpp:830-842 | a leader of an earlier term learns it from the refusal, follows in the later term and keeps its log |
| RaftSafety.StepKeeps | 6.824/src/kvRaft/raft.hpp:527-558 | every step of the cluster keeps the invariant and only extends the history |
| RaftSafety.RecordRun | 6.824/src/kvRaft/raft.hpp:272-303 | every run from the initial state has a history under which the invariant holds in each of its states |
| RaftHistory.LeaderCompleteness | 6.824/src/kvRaft/raft.hpp:516-525 | what a majority has held in a term, every later leader is elected with |
| RaftHistory.UpToDateHolds | 6.824/src/kvRaft/raft.hpp:516-525 | a log found up to date against another holds every prefix of an earlier leader's log that the other holds |
| RaftCluster.VoteThreadsReachEveryPeer | 6.824/src/kvRaft/raft.hpp:480-496 | for every cluster of two or more and every own id, the n-1 vote threads call each other peer exactly once and leave the shared cursor at 0 |
| RaftSteps.NoSecondLeader | 6.824/src/kvRaft/raft.hpp:498-514 | a candidate that has counted a majority meets no leader of its term |
| RaftReplication.AcceptedLog | 6.824/src/kvRaft/raft.hpp:928-967 | an accepted message makes the log a prefix of its leader's log, as long as that leader's log was when sending |
| RaftReplication.AcceptKeepsCommit | 6.824/src/kvRaft/raft.hpp:964-976 | the unconditional truncation never removes a committed entry |
| RaftMedian.MedianMajority | 6.824/src/kvRaft/raft.hpp:847-854 | with an odd count a majority of servers hold the median index or more |
| RaftMedian.MedianIsLargest | 6.824/src/kvRaft/raft.hpp:847-854 | for an odd count, more than half of the indices reach a value if and only if it is no larger than the median |
| RaftMedian.MedianIsMajorityIffOdd | 6.824/src/kvRaft/raft.hpp:847-854 | for every number of servers, the median of all match indices is always on a majority if and only if that number is odd |
| RaftServer.Raft.constructor | 6.824/src/kvRaft/raft.hpp:272-303 | a new server is in the initial state of the model |
| RaftServer.Raft.HandleRequestVote | 6.824/src/kvRaft/raft.hpp:527-558 | the vote handler computes the new server state and the reply of the model, at most one vote per term |
| RaftServer.Raft.BeginElection | 6.824/src/kvRaft/raft.hpp:427-446 | starts an election and builds its request |
| RaftServer.Raft.PickVoteTarget | 6.824/src/kvRaft/raft.hpp:480-496 | the peer a vote thread calls and the cursor it leaves behind |
| RaftServer.Raft.CountVote | 6.824/src/kvRaft/raft.hpp:498-514 | steps down for a higher term, counts a grant otherwise |
| RaftServer.Raft.EndElection | 6.824/src/kvRaft/raft.hpp:448-465 | a candidate with a majority becomes leader with fresh next and match indices |
| RaftServer.Raft.Submit | 6.824/src/kvRaft/raft.hpp:1001-1023 | a leader returns the index behind its last one, where the log now has the submitted command in its own term, and leaves all earlier entries alone; any other server returns -1 and changes nothing |
| RaftServer.Raft.BuildAppend | 6.824/src/kvRaft/raft.hpp:801-823 | sends everything after the previous index through the end of the log |
| RaftServer.Raft.HandleAppendEntries | 6.824/src/kvRaft/raft.hpp:885-982 | refusal with its conflict hint, or truncation, append and commit, as the model has it |
| RaftServer.Raft.ReplaceTail | 6.824/src/kvRaft/raft.hpp:964-971 | the pop and push loops leave the agreed prefix followed by the received entries |
| RaftServer.Raft.HandleAppendReply | 6.824/src/kvRaft/raft.hpp:830-880 | steps down for a higher term; on success moves the peer's indices and commits what `RaftCommit.LeaderCommits` says; on refusal backs off by the hint as `RaftRepair.RefusalSkipsTerm` says |
| RaftServer.Raft.TakeCommitted | 6.824/src/kvRaft/raft.hpp:337-346 | hands out exactly the entries between applied and committed, in order |
| RaftServer.Raft.ReceiveSnapshot | 6.824/src/kvRaft/raft.hpp:1172-1200 | drops the entries up to the index and records its term; an older index changes nothing and leaves the lock taken |
| RaftCompaction.CompactionInvisible | 6.824/src/kvRaft/raft.hpp:1172-1204 | however snapshots are interleaved with a server's events, as long as it backs off like its twin, its votes, accepts and refusals, sent arguments and applied entries are those of a server that never compacts, and the two end with the same logical log, commit index and other fields |
| RaftCompaction.BackOffSimIff | 6.824/src/kvRaft/raft.hpp:857-877 | a refusal that names a term keeps the two in step if and only if the term is found above the snapshot, or not below it either, or the refusal points where the search below would end |
| RaftCompaction.NewTermNotBelow | 6.824/src/kvRaft/raft.hpp:857-877 | in a log of rising terms, a term above the snapshot's is not found below it |
| RaftCompaction.EventSim | 6.824/src/kvRaft/raft.hpp:1283-1293 | one event shows the same to others at a compacted server and its uncompacted twin, and keeps them in step if and only if they back off alike |
| RaftCompaction.SnapshotSim | 6.824/src/kvRaft/raft.hpp:1172-1200 | a snapshot at an applied index changes nothing but the split between snapshot and log; the log then starts behind that index and the terms from it on are the same |
| RaftCompaction.FreshSim | 6.824/src/kvRaft/raft.hpp:272-303 | a new server is its own twin |
| RaftRepair.RefusalLowers | 6.824/src/kvRaft/raft.hpp:857-877 | each refusal strictly lowers the next index and keeps it at least 1, whatever the follower's log |
| RaftRepair.RepairEqualises | 6.824/src/kvRaft/raft.hpp:928-967 | for a stable leader repair ends within nextIndex rounds and makes the logs equal |
| RaftRepair.RepairIsFast | 6.824/src/kvRaft/raft.hpp:857-877 | for a follower's log of rising terms, repair takes at most two rounds more than that log has different terms, however many entries are wrong |
| RaftRepair.RepairWithin | 6.824/src/kvRaft/raft.hpp:928-962 | from inside the follower's log, one round for each of its terms up to there and one more are enough |
| RaftRepair.RefusalSkipsTerm | 6.824/src/kvRaft/raft.hpp:928-962 | a refusal inside the follower's log moves the next attempt to one that is accepted, or to where the follower has an earlier term |
| RaftRepair.AcceptedShortensIff | 6.824/src/kvRaft/raft.hpp:964-967 | an accepted message shortens the receiver's log if and only if it ends before the log does |
| RaftRepair.LateAppendTakesBack | 6.824/src/kvRaft/raft.hpp:964-967 | two messages of one leader for any previous indices, delivered the wrong way round, leave the follower with the leader's earlier log: it loses exactly what the leader added in between |
| RaftRepair.AppendsInOrder | 6.824/src/kvRaft/raft.hpp:928-967 | delivered in order they leave the later log, unless the later message starts beyond the earlier log and is refused |
| RaftStale.StaleGrantsElectIff | 6.824/src/kvRaft/raft.hpp:510-512 | whatever answers a candidate counts, it becomes leader if and only if the grants of all elections together are a majority; with answers of its own election alone, if and only if that election gave it one |
| RaftStale.StaleGrantTwoLeaders | 6.824/src/kvRaft/raft.hpp:427-465 | a run of three servers, without the wait for earlier answers, in which one term has two leaders |
| RaftCodec.LogRoundTrip | 6.824/src/kvRaft/raft.hpp:736-762 | log entries without the two delimiters arrive as they were sent |
| ShardBalance.BalanceWorkLoad | 6.824/src/shardKv/shardmaster/shardMaster.hpp:473-518 | for every tie-breaking: every shard ends at an existing group; loads are equal if the group count divides the shard count, else at most 1 apart; no group both loses a shard it had and gains one it had not; a complete and balanced vector comes back unchanged; a shard is taken from a present group only if its load falls and stays at no less than the even share |
| ShardBalance.EvenOut | 6.824/src/shardKv/shardmaster/shardMaster.hpp:495-511 | the move loop ends with loads even and every shard served once; in the moves it makes no group that gives a shard ever receives one or has just been filled; it moves nothing if the loads were even |
| ShardBalance.UnequalByTwo | 6.824/src/shardKv/shardmaster/shardMaster.hpp:497-503 | if the group count divides the shard count, unequal loads differ by at least 2, so each move lowers the imbalance |
| ShardBalance.MoveSides | 6.824/src/shardKv/shardmaster/shardMaster.hpp:497-511 | the group that receives has never given and the group that gives has never received, and one more move keeps givers and receivers apart |
| ShardBalance.Stable | 6.824/src/shardKv/shardmaster/shardMaster.hpp:484-517 | filling and moving together never make a group lose a shard and gain another, and take shards only from groups above the even share |
| ShardBalance.EvenShare | 6.824/src/shardKv/shardmaster/shardMaster.hpp:495-511 | when loads are even no group has less than the shard count divided by the group count |
| ShardBalance.Collect | 6.824/src/shardKv/shardmaster/shardMaster.hpp:475-483 | the work load lists for each group exactly the shards it serves |
| ShardBalance.Fill | 6.824/src/shardKv/shardmaster/shardMaster.hpp:484-493 | every free shard gets a group and the others stay; the groups that got one end at most 1 above the least load; without free shards nothing changes |
| ShardBalance.WriteBack | 6.824/src/shardKv/shardmaster/shardMaster.hpp:513-517 | the shard vector written back is the owner of every shard in the work load |
| ShardMaster.Master.Apply | 6.824/src/shardKv/shardmaster/shardMaster.hpp:319-368 | appends one configuration, numbered by its place and assigning every shard to one of its groups, or none if no group would be left; Join and Leave end balanced, and disturb the previous assignment no more than balance asks for: no group both loses and gains, nothing moves if all is assigned and balanced, and only groups above the even share lose shards; Move changes its one shard |
| ShardMaster.GroupsAfterIs | 6.824/src/shardKv/shardmaster/shardMaster.hpp:319-368 | a group is in the next configuration if and only if it joins or was there and does not leave; its servers are those it joined with last |
| ShardMaster.GentleFreed | 6.824/src/shardKv/shardmaster/shardMaster.hpp:341-352 | freeing the shards of groups that leave does not change what the balance promises the groups that stay |
| ShardMaster.Master.FreeShards | 6.824/src/shardKv/shardmaster/shardMaster.hpp:341-352 | exactly the shards of the groups that leave become free |
| ShardMaster.Master.Query | 6.824/src/shardKv/shardmaster/shardMaster.hpp:410-417 | the configuration of that number, or the latest for -1 and numbers beyond |
| ShardSafety.ShardServedOnce | 6.824/src/shardKv/server.cpp:601-657 | in every state of every run at most one group has a given shard available, though groups sit at different configurations |
| ShardSafety.HolderHasAllWrites | 6.824/src/shardKv/server.cpp:849-868 | the group serving a shard holds exactly the writes applied to it so far, wherever they were applied |
| ShardSafety.TransitKeepsAllWrites | 6.824/src/shardKv/server.cpp:632-651 | while a shard moves, its old owner's outgoing copy holds exactly those writes |
| ShardSafety.ShardIsSomewhereOnce | 6.824/src/shardKv/server.cpp:659-700 | once its first owner has taken it, a shard is served or in transit from one configuration, never both and never neither |
| ShardSafety.CollectedAfterInstall | 6.824/src/shardKv/server.cpp:482-592 | as soon as a copy is marked, asked or ordered to be collected, the new owner has installed the shard |
| ShardRequests.ServedValues | 6.824/src/shardKv/server.cpp:849-868 | over every run, the group that serves a shard has exactly the keys ever written there, each with the last value put, wherever that was, followed by everything appended since, in order |
| ShardRequests.CarriedOutIff | 6.824/src/shardKv/server.cpp:849-868 | over every run, while nothing was installed or collected for the client since its last command, a put or append is carried out at a group, and counted as written, if and only if the group serves the shard and the client is new or the id is above that of its previous command in the group's log; otherwise nothing changes |
| ShardRequests.RecordedInLog | 6.824/src/shardKv/server.cpp:849-885 | over every run, the id recorded for a client is that of its latest command in the log, unless a shard was installed or collected since, and there is none for a client the log does not know |
| ShardRequests.GetsChangeNothing | 6.824/src/shardKv/server.cpp:849-885 | a get changes no data and counts as no write |
| ShardOnce.AtMostOnce | 6.824/src/shardKv/server.cpp:932-943 | over every run and every move of the shard: as long as no command falls below the id its group has recorded for the client, the writes to a shard have strictly rising ids for each client, so none is made twice |
| ShardOnce.RepeatIsIgnored | 6.824/src/shardKv/server.cpp:849-868 | in such a run a request once written to a shard, or an earlier one of its client, changes nothing at whichever group it is applied to later |
| ShardOnce.OnceInOrder | 6.824/src/shardKv/server.cpp:932-943 | if each client's commands are applied in the order of their ids, over all groups together, two writes of a client to a shard have the same id if and only if they are the same write |
| ShardOnce.InOrderNeverFalls | 6.824/src/shardKv/server.cpp:932-943 | if each client's commands are applied in the order of their ids, over all groups together, no command falls below a recorded id |
| ShardOnce.FallingIdRepeats | 6.824/src/shardKv/server.cpp:932-943 | between two applications of a write at the group that serves its shard, another command of the client leads to a second write if and only if its id is lower |
| ShardOnce.StepOnce | 6.824/src/shardKv/server.cpp:659-700 | every step of the system that sets no recorded id back keeps this: the last group to have served a shard, and every reply carrying it on, knows all requests written to it |
| ShardValues.ReplayIs | 6.824/src/shardKv/server.cpp:859-867 | for every sequence of operations and every key: the key is there if and only if some put or append names it, and holds the last value put, if any, followed by the values appended since, in order |
| ShardProgress.MigrationCompletes | 6.824/src/shardKv/server.cpp:352-397 | in every state of every run with a shard in transit to a group that waits for it, three steps fetch and install it, and then it is served there with every write ever applied to it |
| ShardProgress.ConfigurationAdvances | 6.824/src/shardKv/server.cpp:292-320 | in every state of every run, a group that misses no shard can move to its next configuration in two steps, if there is one |
| ShardProgress.CollectionCompletes | 6.824/src/shardKv/server.cpp:482-592 | in every state of every run, a copy that its new owner has marked can be collected in three steps |
| ShardProgress.MergeIsMax | 6.824/src/shardKv/server.cpp:659-700 | merged request ids are known for the clients of either side, are no smaller than on either side, and are one of the two, or 0 for a client new to the group |
| ShardProgress.InstallDoes | 6.824/src/shardKv/server.cpp:659-700 | an installed shard is served, no longer awaited and marked for collection, its data is added, and no other data or mark is lost |
| ShardProgress.CollectDoes | 6.824/src/shardKv/server.cpp:582-592 | after a collection the one copy is gone; all other copies, the data and the shards served are as before, and the shard is recorded as the sender's id |
| ShardSafety.RunHolds | 6.824/src/shardKv/server.cpp:899-965 | in every state of every run the migration invariant holds, with the writes counted along the run |
| ShardSafety.StepKeeps | 6.824/src/shardKv/server.cpp:292-433 | every step of the system, delayed and repeated commands included, keeps the invariant |
| ShardServer.ShardKv.UpdateComeInAndOutShards | 6.824/src/shardKv/server.cpp:601-657 | a configuration takes effect only if its number is larger; shards are sorted into kept, wanted and leaving, and the data of leaving shards is set aside |
| ShardServer.ShardKv.UpdateDataBaseWithMigrateReply | 6.824/src/shardKv/server.cpp:659-700 | a shard is installed at most once and only in the configuration that asked for it; request ids are merged |
| ShardServer.ShardKv.ShardMigration | 6.824/src/shardKv/server.cpp:399-433 | answers only for configurations already passed, with the data set aside |
| ShardServer.ShardKv.ClearToOutData | 6.824/src/shardKv/server.cpp:582-592 | removes one outgoing copy and the configuration's entry once it is empty |
| ShardServer.ShardKv.ApplyOperation | 6.824/src/shardKv/server.cpp:849-885 | a client operation changes only an available shard's data, and only if its request is new; what it writes is said by `ShardRequests.CarriedOutIff` |
| ShardServer.ShardKv.TakeShard | 6.824/src/shardKv/server.cpp:632-651 | takes out of the database exactly the keys of one shard |
| ShardSnapshot.LateIndexHarmless | 6.824/src/shardKv/server.cpp:1181-1200 | at every moment of every run and for every group, restoring a snapshot and replaying the entries applied after its recorded index gives back the snapshotted state |
| ShardSnapshot.ReplayHarmlessIff | 6.824/src/shardKv/server.cpp:914-927 | replaying configuration and data commands changes nothing exactly if each of them is already spent |
| ShardSnapshot.PulledInOrder | 6.824/src/shardKv/server.cpp:352-397 | over every run a data command is applied only after its group has moved past the configuration it came from |
| ShardSnapshot.EarlyDataIsReplayed | 6.824/src/shardKv/server.cpp:662-689 | were data logged right before its configuration, replay would install it and change the state |
| Codec.SplitStr | 6.824/src/shardKv/server.cpp:76-91 | the accumulator loop computes the split by definition, dropping empty pieces |
| Codec.SplitClose | 6.824/src/shardKv/server.cpp:76-91 | splitting undoes closing each piece with the delimiter, for non-empty delimiter-free pieces |
| Codec.NumberRoundTrip | 6.824/src/shardKv/shardmaster/common.h:117-131 | every integer, negative ones included, is read back from its decimal text |
| Codec.PairsRoundTrip | 6.824/src/shardKv/server.cpp:115-165 | a map written pair by pair in any order is read back |
| Codec.WritePairs | 6.824/src/shardKv/server.cpp:94-112 | the writing loop over a map produces the pair text |
| Codec.WriteNumbers | 6.824/src/shardKv/shardmaster/common.h:208-214 | the writing loop over a list of numbers |
| ShardCodec.ConfigRoundTrip | 6.824/src/shardKv/shardmaster/common.h:207-251 | a configuration is read back from its text, in whatever order its groups are written, also with no group |
| ShardCodec.WriteConfig | 6.824/src/shardKv/shardmaster/common.h:207-223 | the writing loops produce the configuration text that is read back |
| ShardCodec.ReplyRoundTrip | 6.824/src/shardKv/server.cpp:115-165 | a migration reply is read back from its text, also with empty maps |
| ShardCodec.WriteReply | 6.824/src/shardKv/server.cpp:94-112 | the writing loops produce the reply text that is read back |
| SnapshotCodec.SnapshotRoundTripIff | 6.824/src/shardKv/server.cpp:967-1142 | for delimiter-free contents, recovery into a fresh server undoes the snapshot exactly if no inner map or set is empty |
| SnapshotCodec.Recovered | 6.824/src/shardKv/server.cpp:1029-1142 | what recovery yields for every layout with delimiter-free contents |
| SnapshotCodec.EmptyShardBreaksRecovery | 6.824/src/shardKv/server.cpp:1029-1142 | an outgoing shard without data makes recovery read past a vector |
| SnapshotCodec.LeavingShardEmptyIff | 6.824/src/shardKv/server.cpp:632-651 | the copy set aside for a shard taken away is empty if and only if no key of the shard had been written |
| SnapshotCodec.UnwrittenShardBreaksRecovery | 6.824/src/shardKv/server.cpp:601-657 | a group that gives up a shard nobody has written to cannot be recovered from its next snapshot |
| SnapshotCodec.WriteSnapshot | 6.824/src/shardKv/server.cpp:967-1027 | the nested writing loops produce the snapshot text that recovery reads |
| KvServer.ExactlyOnce | 6.824/src/kvRaft/server.cpp:346-390 | if each client's request ids never decrease, the final database is that of the log with all repeated requests removed |
| KvServer.ExactlyOnceIff | 6.824/src/kvRaft/server.cpp:360-368 | every request is carried out at its first entry and at no other, if and only if each entry rises above its client's previous id exactly when its own id is unused |
| KvServer.CarriedOutIff | 6.824/src/kvRaft/server.cpp:360-368 | an entry is carried out if and only if its client is new or it rises above the client's previous id |
| KvServer.DatabaseIs | 6.824/src/kvRaft/server.cpp:366-379 | for every log the database is that of the entries carried out, in order |
| KvServer.RecordedLast | 6.824/src/kvRaft/server.cpp:360-364 | the recorded id is that of the client's latest entry, whether it was carried out or not |
| KvServer.FallingIdRepeats | 6.824/src/kvRaft/server.cpp:364-368 | after any log, a request repeated after another of its client is carried out again if and only if the other's id is lower |
| KvServer.KVServer.ApplyLoop | 6.824/src/kvRaft/server.cpp:346-390 | for every log the loop ends with the recorded ids, with exactly the keys named by a put or append carried out, each holding the last value put followed by what was appended since; for never-decreasing ids the database is that of the log without repeats |
| DancingLinks.SudokuSolver.Cover | muduo/muduo/examples/sudoku/sudoku.cc:218-229 | takes the header and every other node of the column's rows out of their rings, whatever the order of the rings, keeping all of them whole and every size right |
| DancingLinks.SudokuSolver.Uncover | muduo/muduo/examples/sudoku/sudoku.cc:231-242 | on a matrix linked in any order restores every link and size to what it was before the cover |
| DancingLinks.SudokuSolver.GetMinColumn | muduo/muduo/examples/sudoku/sudoku.cc:201-216 | an uncovered column of size at most 1, or else one of least size |
| DancingLinks.SudokuSolver.Solve | muduo/muduo/examples/sudoku/sudoku.cc:95-133 | false exactly if the uncovered columns have no exact cover, and then links, sizes, stack and board are unchanged; true with an exact cover on the stack and written to the board |
| DancingLinks.SudokuSolver.TryRow | muduo/muduo/examples/sudoku/sudoku.cc:118-130 | one round of the search loop: succeeds with an exact cover that uses the row, or undoes everything |
| DancingLinks.SudokuSolver.CoverRow | muduo/muduo/examples/sudoku/sudoku.cc:120-122 | covers the other columns of a row, one after another |
| DancingLinks.SudokuSolver.UncoverRow | muduo/muduo/examples/sudoku/sudoku.cc:127-129 | undoes that link for link, in reverse |
| DancingLinks.SudokuSolver.WriteBoard | muduo/muduo/examples/sudoku/sudoku.cc:97-114 | every chosen row's value goes into its cell |
| DancingLinks.SudokuSolver.ReadRow | muduo/muduo/examples/sudoku/sudoku.cc:99-109 | the walk round a row ends and yields its cell and value |
| DancingLinks.SudokuSolver.constructor | muduo/muduo/examples/sudoku/sudoku.cc:33-93 | the matrix built has a header for each empty cell and each value a unit needs, four nodes for each candidate, whole rings, and fits the node array |
| DancingLinks.SudokuSolver.MarkUsed | muduo/muduo/examples/sudoku/sudoku.cc:43-56 | marks exactly the values each row, column and box has |
| DancingLinks.SudokuSolver.OpenColumns | muduo/muduo/examples/sudoku/sudoku.cc:58-73 | opens every needed column once |
| DancingLinks.SudokuSolver.AddRows | muduo/muduo/examples/sudoku/sudoku.cc:75-92 | adds every candidate once |
| DancingLinks.SudokuSolver.AppendColumn | muduo/muduo/examples/sudoku/sudoku.cc:158-165 | one more header at the end of the header ring |
| DancingLinks.SudokuSolver.NewRow | muduo/muduo/examples/sudoku/sudoku.cc:167-184 | one more node at the foot of its column |
| DancingLinks.SudokuSolver.PutLeft | muduo/muduo/examples/sudoku/sudoku.cc:244-250 | one more node at the end of a row |
| DancingLinks.SolveBoard | muduo/muduo/examples/sudoku/sudoku.cc:263-292 | solves exactly the boards whose clues extend to a valid grid, with such a grid, and leaves the others unchanged |
| DancingLinks.SolveSudoku | muduo/muduo/examples/sudoku/sudoku.cc:263-292 | answers a puzzle with a valid completion of its clues if there is one, and with the refusal otherwise, contradictory and unreadable puzzles included |
| Torus.RelinkUndoes | muduo/muduo/examples/sudoku/sudoku.cc:223-238 | putting a node back between its remembered neighbours restores the links of every well-formed toroidal matrix, whatever the order of its rings |
| Torus.CoverWalkMembers | muduo/muduo/examples/sudoku/sudoku.cc:222-228 | the cover loops meet exactly the row mates of the column's linked cells, each once |
| ExactCover.CoverKeeps | muduo/muduo/examples/sudoku/sudoku.cc:218-229 | after a cover exactly the rows that meet only uncovered columns are linked into uncovered columns |
| ExactCover.CoverStarts | muduo/muduo/examples/sudoku/sudoku.cc:116-119 | every exact cover contains a row linked into the column branched on, and the rest covers what that row leaves |
| ExactCover.CoverExtends | muduo/muduo/examples/sudoku/sudoku.cc:119-125 | a row and an exact cover of the columns it leaves make an exact cover |
| SudokuMatrix.SolvableIff | muduo/muduo/examples/sudoku/sudoku.cc:43-92 | the matrix of a board has an exact cover exactly if the clues extend to a valid grid |
| SudokuGrid.FillingSolves | muduo/muduo/examples/sudoku/sudoku.cc:75-92 | an exact filling completes the board validly, so contradictory clues have none |
| SudokuGrid.SolutionFills | muduo/muduo/examples/sudoku/sudoku.cc:75-92 | every valid completion is an exact filling by candidates |
| SudokuGrid.UnitComplete | muduo/muduo/examples/sudoku/sudoku.cc:64-73 | nine cells hold all nine values exactly if none occurs twice |
| SkipList.SkipList.SearchElement | 6.824/src/shardKv/Skiplist-CPP/skiplist.h:358-381 | finds a key exactly if it is in the map |
| SkipList.SkipList.InsertElement | 6.824/src/shardKv/Skiplist-CPP/skiplist.h:151-209 | adds a missing key with its value, never overwrites, and the count is the map's size, for every choice of level |
| SkipList.SkipList.DeleteElement | 6.824/src/shardKv/Skiplist-CPP/skiplist.h:298-336 | removes exactly the key |
| SkipList.SkipList.Find | 6.824/src/shardKv/Skiplist-CPP/skiplist.h:163-172 | the descent remembers, on every level, the last node below the key |
| SkipList.SkipList.SpliceIn | 6.824/src/shardKv/Skiplist-CPP/skiplist.h:199-203 | the splice loop links the new node into every level it reaches |
| SkipList.SkipList.SpliceOut | 6.824/src/shardKv/Skiplist-CPP/skiplist.h:317-324 | the loop with its early break unlinks the node from every level it reaches |
| SkipList.SkipList.LowerLevel | 6.824/src/shardKv/Skiplist-CPP/skiplist.h:327-329 | drops the levels without nodes and no others |
| SkipList.SkipList.RandomLevel | 6.824/src/shardKv/Skiplist-CPP/skiplist.h:410-418 | never above the greatest level |
| SkipList.Perform | 6.824/src/shardKv/Skiplist-CPP/skiplist.h:270-272 | any sequence of operations, with any levels, answers and ends like a finite map of the same size |
| SkipList.CountIs | 6.824/src/shardKv/Skiplist-CPP/skiplist.h:270-272 | in every valid list the element count is the size of the map |
| SkipList.FirstValueStays | 6.824/src/shardKv/Skiplist-CPP/skiplist.h:174-179 | a value stays until its key is deleted, whatever is inserted |
| SkipLevels.LevelIsSublist | 6.824/src/shardKv/Skiplist-CPP/skiplist.h:213-225 | each level is strictly sorted and is the level below without the nodes that do not reach it |
| SkipLevels.BottomIsAll | 6.824/src/shardKv/Skiplist-CPP/skiplist.h:213-225 | level 0 lists every node |
| EventLoop.NoLostFunctor | muduo/muduo_cpp11/EventLoop.cc:139-156 | in every interleaving, poll is never sat in with a functor pending unless the eventfd count is positive or a producer is about to raise it |
| EventLoop.RunsInQueueOrder | muduo/muduo_cpp11/EventLoop.cc:195-212 | each functor runs at most once, in queue order, and none is dropped |
| EventLoop.WakeupReachesPoll | muduo/muduo_cpp11/EventLoop.cc:158-178 | with a functor pending, poll can return at once or after one wakeup |
| EventLoop.OneRoundRunsAll | muduo/muduo_cpp11/EventLoop.cc:77-103 | in every state of every interleaving with poll waiting and a wakeup recorded, one round of the loop can run every functor queued so far, in order, and use the wakeup up |
| EventLoop.RunsAll | muduo/muduo_cpp11/EventLoop.cc:195-212 | from the swap on, exactly the functors swapped out run, one after another |
| EventLoop.StepKeeps | muduo/muduo_cpp11/EventLoop.cc:77-103 | every step keeps the order of functors, and the wakeup guarantee if the loop thread queues only inside loop() |
| EventLoop.EarlyPush | muduo/muduo_cpp11/EventLoop.cc:139-156 | after a functor is queued by the loop thread outside loop(), the next poll has a wakeup in sight exactly if one was in sight before |
| EventLoop.EarlyPushIsLost | muduo/muduo_cpp11/EventLoop.cc:139-156 | a functor queued by the loop thread before loop() leaves poll waiting with no wakeup coming |
| OutputBuffer.Buffer.Append | muduo/muduo_cpp11/Buffer.h:64-69 | the bytes go behind those already readable, whether the vector has room, is compacted or grows |
| OutputBuffer.Buffer.Retrieve | muduo/muduo_cpp11/Buffer.h:28-43 | drops the first bytes, or everything when asked for more |
| OutputBuffer.Buffer.EnsureWritableBytes | muduo/muduo_cpp11/Buffer.h:83-102 | makes the room asked for and keeps the readable bytes |
| OutputBuffer.Buffer.MoveToFront | muduo/muduo_cpp11/Buffer.h:93-101 | the overlapping copy keeps the readable bytes |
| TcpConnection.OutputInOrder | muduo/muduo_cpp11/TcpConnection.cc:77-139 | until a fatal write error the bytes taken by the kernel followed by those buffered are the bytes sent, in order |
| TcpConnection.InterestIffBuffered | muduo/muduo_cpp11/TcpConnection.cc:204-237 | until the connection is closed, write interest is on exactly while bytes wait |
| TcpConnection.ShutLeavesBytesIff | muduo/muduo_cpp11/TcpConnection.cc:151-157 | a step that shuts the write side leaves bytes waiting if and only if the connection had been closed with bytes waiting; otherwise every byte has been handed over |
| TcpConnection.ShutOnlyWhenDrained | muduo/muduo_cpp11/TcpConnection.cc:151-157 | an open connection's write side is shut only after every byte has been handed over |
| TcpConnection.DrainedIsShut | muduo/muduo_cpp11/TcpConnection.cc:204-237 | over every run, a connection asked to shut is shut by the step that drains its last byte, or by the queued shutdown if none waits |
| TcpConnection.ShutdownTakesEffect | muduo/muduo_cpp11/TcpConnection.cc:141-157 | over every run, after shutdown() on a connected connection and the queued call that follows, the write side is shut whenever nothing waits, unless the connection is closed meanwhile |
| TcpConnection.StatesOnlyAdvance | muduo/muduo_cpp11/TcpConnection.cc:141-179 | over every run the state never goes back, a write side once shut stays shut, and a closed connection is disconnected for good |
| TcpConnection.StepAccounts | muduo/muduo_cpp11/TcpConnection.cc:77-139 | over every run, each step adds to the bytes written what the kernel took, to the bytes given what was sent, and faults only on a fatal error of a direct write |
| TcpConnection.LateShutdown | muduo/muduo_cpp11/TcpConnection.cc:141-157 | for any bytes, a queued shutdown that runs after the connection was closed shuts it with them waiting |
| TcpConnection.TcpConnection.SendInLoop | muduo/muduo_cpp11/TcpConnection.cc:77-139 | writes directly only when nothing waits and buffers what the kernel does not take |
| TcpConnection.TcpConnection.HandleWrite | muduo/muduo_cpp11/TcpConnection.cc:204-237 | takes written bytes off the front of the buffer; when it is empty, drops write interest and half-closes if asked to |
| TcpConnection.TcpConnection.ShutdownInLoop | muduo/muduo_cpp11/TcpConnection.cc:151-157 | shuts the write side unless write interest is on |
| TcpConnection.TcpConnection.Shut | muduo/muduo_cpp11/TcpConnection.cc:141-149 | asks for the half-close once, and only of a connected connection |
| TcpConnection.TcpConnection.ConnectEstablished | muduo/muduo_cpp11/TcpConnection.cc:160-163 | the connection becomes connected |
| TcpConnection.TcpConnection.ConnectDestroyed | muduo/muduo_cpp11/TcpConnection.cc:170-179 | a connected connection is closed and loses its write interest |
| TcpConnection.TcpConnection.HandleClose | muduo/muduo_cpp11/TcpConnection.cc:239-243 | closes the connection and drops write interest, with whatever is buffered |
| Calendar.DateRoundTrip | muduo/muduo/muduo/base/Date.cc:21-43 | every valid Gregorian date from 1 March -4800 is recovered from its day number |
| Calendar.NumberRoundTrip | muduo/muduo/muduo/base/Date.cc:30-43 | every day number from -32044 is recovered from its date, which is valid |
| Calendar.NextDayNumber | muduo/muduo/muduo/base/Date.cc:21-28 | the next calendar day has the next number, over every month and leap-year boundary |
| Calendar.NumbersUnique | muduo/muduo/muduo/base/Date.cc:21-28 | two dates share a number only if they are the same date |

## Left out

- Raft files and restarts: saveRaftState, readRaftState and the reload inside vote counting are not modelled, so a server keeps its fields for ever.
- installSnapShot and sendInstallSnapShot: compaction is local to a server, and the cluster theorems are about uncompacted logs; `RaftCompaction` carries them over for messages that reach back no further than the snapshot.
- RaftCompaction.CompactionInvisible: does not compare the conflict hint of a follower's refusal, because a compacted follower may point below its snapshot where its twin points at an older entry; and a leader that has dropped the term a refusal names backs off differently from its twin except where `RaftCompaction.EventSim` says they agree; snapshots are taken at applied indices above the last one.
- RaftServer.Raft.ReceiveSnapshot: excludes an index equal to m_lastIncludedIndex, for which the original reads m_logs[-1].
- RaftServer.Raft.CountVote: does not reload the saved state after stepping down, since nothing is saved in this model.
- A vote request that is still delivered after its caller has given it up: a lost call is lost as a whole, or after the voter has answered.
- RaftRepair.RepairEqualises: states the logs equal for logs that satisfy log matching, which `RaftSafety.LogMatching` proves of every run; termination and the bounds need no such premise.
- Timers, threads, semaphores, pipes, sockets, epoll and remote calls: they are steps of a state machine, parameters of a method, or absent.
- Response contexts of client requests (m_requestMap, OpContext, wrong-leader and ignored flags) and the values that get returns.
- ShardServer.ShardKv.ApplyOperation: an operation on an unavailable shard changes nothing; the original also writes to the request's context there, which is a null pointer on servers that did not receive the request (6.824/src/shardKv/server.cpp:851-852).
- ShardOnce.AtMostOnce: a request is written at most once and may be lost, because the shard server records its id before it looks whether the shard is available; that it is written at all is stated for the unsharded server and by `ShardRequests.CarriedOutIff`.
- ShardRequests.CarriedOutIff: says nothing of a command whose client's recorded id was last set by an install or a collection; `ShardProgress.MergeIsMax` says what an install leaves there.
- ShardProgress.MigrationCompletes: says that the steps are there to be taken in every such state, not that the scheduler takes them.
- Snapshots of the unsharded server, which have no marker for empty sections.
- SnapshotCodec.Recovered: `None` stands for the original reading past the end of a vector.
- ShardMaster.Master.Apply: duplicate suppression of client commands and the reply contexts are not part of the model.
- ShardBalance.BalanceWorkLoad: the two priority queues are a choice of any group of least and any of greatest load, which covers every tie-breaking.
- Keys of the shard server are empty or begin at 'a' or above, as key2shard expects.
- Integers are unbounded; no counter of the original is large enough to wrap in the cases considered.
- Dancing links and skip list nodes are numbers and their pointers fields of sequences, so allocation, memory reuse and the destructors are not modelled; the solver's three tables of used values are one set of column names.
- SkipList.SkipList.InsertElement: keys are integers, and the coin throws of the random level are a parameter; deleted nodes are never reused.
- The dump, load and display functions of the skip list.
- EventLoop.NoLostFunctor: needs the loop thread to queue only inside loop(), and says that a wakeup is recorded or coming, not when poll returns.
- TcpConnection: the write-complete and high-water callbacks, the read side and the connection callbacks are not modelled.
- Calendar: years before 1 March -4800, where the C division of negative numbers truncates the other way.
- MapReduce, the partition and multiplexer code, the memory pool, the earlier Raft in `6.824/src/Raft/raft.cpp`, and all RPC, protobuf and third-party wrappers.
