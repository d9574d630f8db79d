# Verified core of cyclone

Cyclone replicates the operations of persistent data structures: a Raft library keeps
several quorums of replicas in step, a scheduler hands operations that commute to parallel
executor cores, and the data structures (a B+ tree, hash maps, priority queues, adjacency
lists) live in persistent memory. This project models the parts of that system whose
correctness is hardest to see, and proves what they are for.

- **Raft** (`LogModel`, `RaftTypes`, `RaftServer`, `RaftCluster`, `RaftInvariant`,
  `RaftSafety`, `RaftTheorems`, `ServerOrder`, `RaftMoves`, `RaftAck`, `RaftPast`,
  `RaftComplete`, `RaftStateMachine`, `RaftRuns`, `RaftCut`, `RaftOver`, `RaftExact`,
  `RaftAnswers`, `RaftStale`, `RaftElect`, `RaftCatchUp`, `RaftProgress`, `RaftLost`,
  `RaftService`, `RaftNode`). The handlers of `raft_server.c` are functions on a server value. A cluster is
  any number of such servers and a network that may lose, duplicate and reorder messages.
  Election Safety, Log Matching, truthful acknowledgements and the commit rule (sections 5.2
  to 5.4 of the Raft paper) hold in every run; State Machine Safety (section 5.4.3) holds in
  every run without two kinds of steps, and each kind alone breaks it; Leader Completeness
  holds in every run without the first kind. What the protocol is for is proved too: who can
  be elected, when a follower catches up, when a leader commits, and that from any state of a
  run without those steps a client can still be served (`RaftService.CanServe`).
  `RaftNode` is the same server as an object over the two log rings.
- **Log rings** (`RingMath`, `Rings`, `RaftLog`). The growable in-memory log and the
  persistent ring, over arrays, kept in lock step.
- **B+ tree** (`LeafModel`, `LeafCrash`, `LeafNode`, `TreeModel`, `TreeOrder`,
  `TreeSplit`, `TreeLeafSplit`, `TreePath`, `TreeKeys`, `BTree`, `TreeTheorems`, `TreeWalk`,
  `TreeIterator`). A leaf is a sequence of single stores, so a crash can fall between any two
  of them. The tree refines a map through splits of leaves, whole paths and the root, and
  its iterator walks the map exactly as long as no leaf but the last is empty.
- **Scheduler and executors** (`Scheduler`, `Serial`, `Executors`, `ExecutorsDrain`,
  `SchedulerMachine`, `SchedulerScan`, `HashmapServer`, `GraphServer`, `VoteServer`,
  `VoteClient`). The scheduler's linked list as a class; scheduler, executors and replication
  as a machine of small steps that is serializable and never gets stuck; the list as an
  implementation of the machine, call by call and, with executors finishing in between, cell
  by cell; the servers' commutativity tests, and what their clients are told.
- **Snapshot and barrier** (`Snapshot`, `SnapshotLate`, `Barrier`, `BarrierSafety`,
  `BarrierMeets`, `BarrierLate`). The double-read snapshot of all quorums and the multi-core rendezvous, one
  shared-memory access at a time.
- **Priority queue** (`PriorityQueue`, `HeapOrder`, `TopK`, `TopKLower`, `TopKSmall`,
  `TopKFew`). The two heaps and their key index as a class, and when the top heap really holds
  the greatest priorities.

`Common` holds what several modules share. Integers are unbounded unless a width is written
out. A call that stops the process (a failed C assert, a null entry, `exit`, an exception)
is a result of its own: `Abort`, `Stopped`, `false` or `Thrown`.

Some properties turn out to hold only under a condition. Each is stated with the condition
and with an input or a run without it:

- A follower keeps what it has acknowledged, as long as its term lasts, exactly until an
  empty message cuts it (`AcknowledgedUntilCut`, `CommittedThenCut`).
- No two servers deliver different entries at one index if no server drops entries of a term
  on an empty message of that term, and none commits, beyond what a message covers, an entry
  that is not of the message's term (`StateMachineSafety`). With either step alone two servers
  do (`RaftCut.TwoDeliveries`, `RaftOver.TwoDeliveries`), so that excluding both is exactly
  what makes every run safe (`SafeExactly`).
- A follower that exchanges messages with its leader ends up with the leader's log exactly when
  the leader finds its place in the follower's log and does not make it commit what it will
  not have (`CatchesUpExactly`). A follower that has lost a packet after its last
  acknowledgement, and got nothing since, never gets it again in that term (`NeverResent`). A single
  entry beyond the leader's log stays there.
- The entries of an accepted message land at their indices exactly when the message does not
  reach below the front of the compacted log (`LandsExactly`). A packet that arrives once more
  after compaction is delivered a second time in place of another entry (`DeliveredTwice`).
- A refusal names an index below the one asked for exactly when that one has not been compacted
  away (`RefusedExactly`).
- A walk from `begin()` reaches `end()` exactly when every leaf but the last holds an entry
  (`WalkEndsExactly`, `EndlessWalk`).
- A server whose word a snapshot returns still leads at the snapshot's moment exactly when no
  call since it last published has brought it a later term (`SnapshotIsOneMoment`,
  `NoCommonMoment`).
- The adjacency server's commutativity test is right exactly when the two requests agree on
  stopping the process (`CommuteExactly`, `ParallelStop`).
- The top heap holds the greatest priorities, as long as priorities are only inserted and
  raised, exactly when there is more than one partition (`TopExactly`, `TwelveInsertions`).
  Once they may be lowered, it does so only in a queue that can hold nothing
  (`LoweringExactly`, `LoweredOut`); with one to four top places it does so in every run that
  keeps the overflow heap to m elements exactly when m is at most four (`FewExactly`).

## Model

| member | source | states |
|---|---|---|
| RaftTheorems.ElectionSafety | raft/src/raft_server.c:176-197 | in every run, over all states of it, two servers that lead the same term are the same server |
| RaftTheorems.LogMatching | raft/src/raft_server.c:388-558 | over all states of every run, two logs with an entry of equal term at one index are equal up to that index |
| RaftTheorems.TruthfulAcknowledgement | raft/src/raft_server.c:488-550 | whenever a success reply for index c of term t is sent, also when it repeats an earlier one, the replier's first c entries are the first c entries of a log the leader of t had earlier in the run |
| RaftTheorems.OneVotePerTerm | raft/src/raft_server.c:593-628 | over all states of every run, the votes a server grants in one term name one candidate |
| RaftComplete.LeaderCompleteness | raft/src/raft_server.c:566-628 | what a majority has held in a term, up to an entry of that term, is in the log of every leader of every later term, if no server drops entries of a term on an empty message of that term |
| RaftComplete.UpToDateHolds | raft/src/raft_server.c:566-590 | a log at least as up to date as one that holds a prefix holds it too, when the leaders of the terms between do |
| RaftComplete.HeldUntilVote | raft/src/raft_server.c:463-550 | a server that held the prefix in its leader's term still holds it when it votes in a later term |
| RaftStateMachine.StateMachineSafety | raft/src/raft_server.c:822-852 | in every careful run, of what any two servers have delivered at any two times one is a prefix of the other |
| RaftStateMachine.LeaderSeals | raft/src/raft_server.c:350-373 | what a leader newly commits was held by a majority in its term, up to an entry of that term |
| RaftStateMachine.FollowerCommit | raft/src/raft_server.c:536-544 | a follower commits only what its leader had committed when it sent the message, unless it commits beyond the message an entry of another term |
| RaftStateMachine.SealedAgree | raft/src/raft_server.c:350-373 | two committed prefixes of one run agree as far as both go |
| RaftAck.AcknowledgedUntilCut | raft/src/raft_server.c:463-550 | from the acknowledgement on and while the term lasts, a follower holds the acknowledged prefix in every state of the run if and only if no empty message of the term, for an index below it, has found two entries or more behind that index |
| RaftCut.CommittedThenCut | raft/src/raft_server.c:478-486 | a run in which a follower acknowledges entries, the leader commits and delivers them, and a delayed empty message makes the follower drop them |
| RaftCut.TwoDeliveries | raft/src/raft_server.c:478-486 | that run goes on to two servers that deliver different entries at one index, without anyone committing beyond a message |
| RaftOver.TwoDeliveries | raft/src/raft_server.c:536-544 | a run in which nobody drops entries on an empty message and two servers deliver different entries at one index, because one commits its own stale entry |
| RaftExact.SafeExactly | raft/src/raft_server.c:478-544 | for each choice of the two kinds of steps: deliveries agree in every run that avoids the chosen kinds if and only if both are chosen |
| RaftElect.Electable | raft/src/raft_server.c:566-680 | from any state of any run, a candidate is made leader by some continuation if a majority with itself may still vote in its term and has logs not ahead of its own; no log changes on the way |
| RaftElect.CanLead | raft/src/raft_server.c:176-197 | from any state of any run, a server that does not lead can lead the next term if a majority with itself is in no later term and has logs not ahead of its own |
| RaftElect.Asked | raft/src/raft_server.c:790-808 | as long as a server is a candidate, its request with its present term and log is out to every other member |
| RaftCatchUp.CatchesUpExactly | raft/src/raft_server.c:296-337 | a leader and a follower that alternate, whatever is sent in each round: after a bounded number of rounds the follower has the leader's log (unless it has that and one entry more, or the leader has none: then its log stays), if and only if the leader takes up where the logs agree, or has no acknowledgement yet, or the logs agree beyond it, and the follower is not told to commit entries the leader lacks |
| RaftCatchUp.Settles | raft/src/raft_server.c:320-337 | the rounds never stop a process, lose no agreement, and end with the leader knowing that the follower has its whole log |
| RaftCatchUp.NeverFinds | raft/src/raft_server.c:297-300 | otherwise, when every answer is taken for an old one, no number of rounds brings the follower the leader's log |
| RaftCatchUp.FollowerAccepts | raft/src/raft_server.c:463-550 | up to where the logs agree the follower accepts: its log, commit index and answer, exactly |
| RaftCatchUp.FollowerRefuses | raft/src/raft_server.c:444-472 | beyond, it refuses, names its last index below the one asked for, and its log ends there |
| RaftLost.NeverResent | raft/src/raft_server.c:297-300 | a run of three servers in which one lost packet keeps a follower behind for as long as it and the leader alternate |
| RaftProgress.CatchesUpInRun | raft/src/raft_server.c:296-337 | the same exact condition for the leader of the latest term and any other server, in any state of a run without the two steps that break safety |
| RaftProgress.LeaderHasCommitted | raft/src/raft_server.c:350-373 | in such a run the leader of the latest term has in its log what any server has committed |
| RaftProgress.MajorityCommits | raft/src/raft_server.c:350-385 | in any run, when an acknowledgement of the leader's term arrives that is not old and the leader and the members behind that index, with an entry of the term there, are more than half, the index is committed and all that is committed is delivered |
| RaftProgress.MatchBelowAt | raft/src/raft_server.c:325-336 | in every run a leader's match index for a member stays below its next index, so that backing up never stops the process |
| RaftService.CanServe | raft/src/raft_server.c:227-911 | from any state of a run without the two steps that break safety, if the logs of a majority are not ahead of a server's, the run can go on so that all of them deliver that server's log and then whatever a client brings |
| RaftPast.ElectedWith | raft/src/raft_server.c:156-197 | a leader's log begins with the log it had when it became a candidate of the term |
| RaftPast.VoteStep | raft/src/raft_server.c:593-628 | a vote is cast by a new candidate for itself or in answer to a request whose log is at least as up to date, and leaves the log alone |
| RaftPast.RequestMade | raft/src/raft_server.c:790-808 | a vote request describes the log its sender had when it became a candidate |
| RaftPast.EmptySent | raft/src/raft_server.c:860-897 | an empty message was built for the very end of its leader's log |
| RaftMoves.StepMoves | raft/src/raft_server.c:227-788 | one step moves no term back, makes a leader only of a candidate with the same log, and changes a log only by a message or a leader's own entries |
| RaftTheorems.CommitNeedsMajority | raft/src/raft_server.c:282-386 | a leader that keeps its term raises its commit index only if a majority with itself has acknowledged at least that index, each counted peer with an entry of the leader's own term |
| RaftTheorems.OnlyRepliesCommit | raft/src/raft_server.c:350-373 | the only step that moves a leader's commit index is the delivery of a success reply of its term |
| RaftTheorems.NoShutdownMessage | raft/src/raft_server.c:876-892 | without compaction no message carries the mark of a compacted previous entry |
| RaftTheorems.LogOfTerm | raft/src/raft_server.c:738-788 | the log recorded for a term is one its leader really had in some state of the run |
| RaftInvariant.NoLeaderYet | raft/src/raft_server.c:630-680 | a candidate with a majority of votes finds no earlier leader of its term, because two majorities share a voter who votes once |
| RaftInvariant.WinningQuorum | raft/src/raft_server.c:985-1013 | the counted granters and the candidate are a majority of distinct members that voted for it in this term |
| RaftSafety.StepInv | raft/src/raft_server.c:227-788 | every step of every server keeps the whole cluster invariant and only extends the history |
| RaftSafety.AcceptedLog | raft/src/raft_server.c:463-550 | a follower that answers success ends with a log whose first entries, up to the index it names, are its leader's |
| RaftSafety.VoteRequestOk | raft/src/raft_server.c:593-628 | a granted vote is on record for that candidate and term, and the server's invariant is kept |
| RaftSafety.VoteReplyOk | raft/src/raft_server.c:638-680 | counting a vote, and becoming leader on a majority, keep the invariant |
| RaftSafety.AppendReplyOk | raft/src/raft_server.c:282-386 | noting an acknowledgement, committing and applying keep the leader's invariant |
| RaftSafety.ClientOk | raft/src/raft_server.c:738-788 | a leader's log only grows, by entries of its own term |
| RaftSafety.BuiltSlice | raft/src/raft_server.c:860-911 | a message for a peer is a slice of the leader's log with the term of the entry before it |
| RaftSafety.WireOk | core/cyclone.cpp:120-233 | each single-entry packet of a message is itself a slice of the leader's log |
| RaftSafety.MatchAfterReply | raft/src/raft_server.c:335-336 | a match index a leader holds was acknowledged to it by that peer in this term |
| RaftServer.Agreeing | raft/src/raft_server.c:488-516 | the first of the new entries that the log lacks or holds with another term |
| RaftServer.Outgoing | raft/src/raft_server.c:854-858 | exactly the log's entries from an index on, none if the log does not reach it |
| RaftAnswers.VoteExactly | raft/src/raft_server.c:566-628 | a vote is granted if and only if no vote was cast in the request's term, which is not behind, and the log's last term and index are not ahead of the candidate's; it goes to the candidate; the call stops the process exactly when a leader or candidate of the term could vote |
| RaftAnswers.ElectedExactly | raft/src/raft_server.c:638-680 | a candidate becomes leader if and only if a vote of its term completes a majority of distinct members; then nothing counts as acknowledged and each member is to get what comes after the leader's log |
| RaftAnswers.AnsweredExactly | raft/src/raft_server.c:388-558 | a message is accepted if and only if it is of no earlier term and the entry before its own is right; who does not lead the term follows it |
| RaftAnswers.RefusedExactly | raft/src/raft_server.c:434-556 | a refusal names the last index the replier then has; it is below the one asked for if and only if that one is not compacted away; a missing entry leaves the log alone, one of another term cuts it there |
| RaftAnswers.MergedExactly | raft/src/raft_server.c:488-531 | each new entry is at its index afterwards, an old one stays where the terms agreed up to it, and the log ends behind the new ones exactly if one was missing or differed |
| RaftAnswers.LandsExactly | raft/src/raft_server.c:442-516 | the entries of an accepted message land at their indices if and only if it does not reach below the front of the log; otherwise they are appended at the end |
| RaftStale.DeliveredTwice | raft/src/raft_server.c:442-516 | a run of one server in which a packet that arrives again after compaction is delivered a second time and hides the entry that belongs there |
| RaftAnswers.FollowerCommitsExactly | raft/src/raft_server.c:536-544 | an accepted message moves the commit index to the leader's as far as the log goes, and nothing else moves it |
| RaftAnswers.CommitsExactly | raft/src/raft_server.c:332-385 | an acknowledgement that is not old is noted, its index is committed if and only if it is new and the leader and the members behind it with an entry of its term are more than half, and all that is committed is applied |
| RaftAnswers.BacksUpExactly | raft/src/raft_server.c:320-330 | on a refusal the leader goes back to just behind the index it names, within its log; the process stops exactly when that is acknowledged already |
| RaftAnswers.OtherReplies | raft/src/raft_server.c:297-315 | only a reply of a later term that is not old makes a leader step down; any other reply that is old or of another term changes nothing |
| RaftAnswers.TakenExactly | raft/src/raft_server.c:738-788 | a leader's log gains exactly the client's items in order, stamped with its term; a leader on its own commits them; any other server refuses |
| RaftAnswers.SentExactly | raft/src/raft_server.c:860-897 | a message takes up exactly at the member's next index and carries the commit index and the term of the entry before, -1 exactly when that is compacted away |
| RaftAnswers.TickRoles | raft/src/raft_server.c:227-265 | a server on its own leads at once; another that does not lead stands for the next term exactly when its timeout has elapsed, with its own vote alone |
| RaftAnswers.CheckpointCovers | raft/src/raft_server.c:217-225 | once all committed entries are applied, the checkpoint base is the index covered by the application's last checkpoint, as far as applied then |
| RaftAnswers.TickCompacts | raft/src/raft_server.c:227-273 | a tick applies all that is committed and moves the front by one target if and only if the base is then more than two targets beyond it |
| RaftAnswers.TicksCompact | raft/src/raft_server.c:205-215 | enough ticks, with or without timeouts, leave at most two targets of the log below the base and compact no further |
| ServerOrder.RunOrdered | raft/src/raft_server.c:205-273 | in every run of one server, front = compacted <= applied <= commit <= back, and each index applied so far was delivered with the entry the log has there |
| ServerOrder.DeliveredForGood | raft/src/raft_server.c:822-852 | an index is delivered once and in order; what was delivered never changes and stays in the log until compacted |
| ServerOrder.CompactionLeavesTarget | raft/src/raft_server.c:205-215 | a compaction happens if and only if the base is more than two targets beyond the front; it removes exactly the target number of entries, all below the base, moves no other entry and leaves more than the target below the base |
| ServerOrder.ServeOrdered | raft/src/raft_server.c:227-852 | every call keeps the order of the four positions and never takes back a delivery |
| ServerOrder.VoteStands | raft/src/raft_server.c:593-628 | in every run of one server, terms only grow and a vote once cast stands while the term lasts |
| ServerOrder.AcceptBeyond | raft/src/raft_server.c:478-550 | an accepted message changes the log only beyond the commit index |
| RaftNode.RaftNode.BecomeCandidate | raft/src/raft_server.c:176-197 | the loop over the nodes clears every vote flag; term and own vote move as in the candidate function |
| RaftNode.RaftNode.BecomeLeader | raft/src/raft_server.c:156-174 | the loop resets next and match index of every other node and of no more |
| RaftNode.RaftNode.RecvRequestVote | raft/src/raft_server.c:566-628 | on the rings, the vote is granted if and only if the server may vote, and goes to the candidate; order and deliveries are kept, a vote cast in the term stands, and the process stops exactly when the handler function stops it |
| RaftNode.RaftNode.CountVotes | raft/src/raft_server.c:985-999 | the loop counts the distinct granting members and the server's own vote |
| RaftNode.RaftNode.RecvVoteResponse | raft/src/raft_server.c:638-680 | the candidate becomes leader if and only if the vote completes a majority of distinct members in its term; order, deliveries and vote are kept |
| RaftNode.RaftNode.AppendMissing | raft/src/raft_server.c:494-531 | both rings are cut at the first disagreement and take the rest in the same order; the call stops the process exactly when the cut would reach a committed entry or the persistent ring would fill up |
| RaftNode.RaftNode.FindMissing | raft/src/raft_server.c:494-512 | the loop over the ring finds the first of the new entries that the log lacks or holds with another term |
| RaftNode.RaftNode.RecvAppendEntries | raft/src/raft_server.c:388-558 | on every path both rings end with the same entries, order, deliveries and vote are kept; the message is accepted if and only if it is current and the entry before its own is right, a refusal names the last index; the process stops exactly when the handler function stops it or the resulting log does not fit the persistent ring |
| RaftNode.RaftNode.CountAcks | raft/src/raft_server.c:350-370 | the loop counts the server and the distinct peers that back the index with an entry of the current term |
| RaftNode.RaftNode.ApplyCommitted | raft/src/raft_server.c:1028-1038 | the loop delivers the committed entries one by one in index order |
| RaftNode.RaftNode.RecvAppendResponse | raft/src/raft_server.c:282-386 | an acknowledged index is committed if and only if it is new and backed by a majority in the leader's term, and all that is committed is applied; order, deliveries and vote are kept; the process stops exactly when the handler function stops it |
| RaftNode.RaftNode.RecvEntryBatch | raft/src/raft_server.c:738-788 | a leader appends every item in order, stamped with its term, to both rings and any other server refuses; the process stops exactly when the rings cannot take the batch |
| RaftNode.RaftNode.SendAppendentries | raft/src/raft_server.c:860-911 | the message holds what is contiguous in the ring from the peer's next index on and is one the cluster machine may send; order, deliveries and vote are kept |
| RaftNode.RaftNode.Periodic | raft/src/raft_server.c:227-273 | a tick of the server on its rings never stops the process: all that is committed is applied, the log is compacted by one target if and only if that is due, the same is dropped from both rings, and order, deliveries and vote are kept |
| RingMath.SlotIsRemainder | raft/src/raft_log.c:41 | going round the ring is the remainder of the position |
| RingMath.SlotDistinct | raft/src/raft_log.c:41 | positions less than one turn apart have different slots |
| Rings.CircularLog.Offer | core/circular_log.h:13-25 | one slot is written; the next tail, or -1 when that would fill the ring |
| Rings.CircularLog.PollBatch | core/circular_log.h:37-46 | the oldest entries leave, the others stay in order |
| Rings.CircularLog.Pop | core/circular_log.h:48-58 | the newest entry leaves, the others stay in order |
| Rings.CircularLog.OfferBatch | core/cyclone.cpp:390-516 | all entries follow the old ones in order if and only if they fit with one slot to spare |
| RaftLog.RaftLog.Grow | raft/src/raft_log.c:43-63 | doubling with new positions keeps every index's entry |
| RaftLog.RaftLog.EnsureCapacity | raft/src/raft_log.c:65-88 | there is room for the batch and every index keeps its entry |
| RaftLog.RaftLog.CopyBatch | raft/src/raft_log.c:160-176 | a copy that is split at the end of the array places the batch right behind the old entries; it goes wrong exactly for an empty batch in the middle of a turn |
| RaftLog.RaftLog.AppendBatch | raft/src/raft_log.c:147-180 | it succeeds if and only if the persistent ring has room and the batch is not an empty one in the middle of a turn; then both rings hold the old entries followed by the batch, in the same order |
| RaftLog.RaftLog.GetFromIdx | raft/src/raft_log.c:182-213 | the piece of the log from the index to the last entry or to the end of the array, none exactly when the index is absent |
| RaftLog.RaftLog.GetAtIdx | raft/src/raft_log.c:215-235 | the entry of that index, absent exactly when the log does not have it |
| RaftLog.RaftLog.Delete | raft/src/raft_log.c:242-257 | the loop pops both rings down to the index; both hold the same remaining entries |
| RaftLog.RaftLog.PollBatch | raft/src/raft_log.c:259-289 | both rings lose the same oldest entries and stay in step; it goes wrong exactly when nothing is to be dropped in the middle of a turn |
| RaftLog.RaftLog.PollParts | raft/src/raft_log.c:265-285 | two callback parts at the end of the array poll the same entries as one |
| RaftLog.RunEnd | raft/src/raft_log.c:169-176 | the test for a split is right for every run of slots but the empty one, for which it depends on where the turn begins |
| LeafModel.LowerBound | pmemds/include/tree/btree/persistent_b_tree.h:389-396 | everything before the position is smaller than the key, and the entry there is not |
| LeafCrash.BackgroundRun | pmemds/include/tree/btree/persistent_b_tree.h:364-378 | any stores to free slots, to the other index copy and to the volatile word leave what recovery sees as it was |
| LeafCrash.InsertedSlots | pmemds/include/tree/btree/persistent_b_tree.h:415-439 | after an insert the first free slot is live at the insert position and all other slots keep their order |
| LeafCrash.ErasedSlots | pmemds/include/tree/btree/persistent_b_tree.h:441-454 | after an erase the freed slot is the first free one and all other slots keep their order |
| LeafCrash.FreeSlotsExact | pmemds/include/tree/btree/persistent_b_tree.h:400-403 | the slots at positions from the size on, each read from the copy its parity selects, are exactly the free ones |
| LeafCrash.ValidForEver | pmemds/include/tree/btree/persistent_b_tree.h:389-488 | over any history of inserts and erases, completed or cut short, the leaf stays valid |
| LeafCrash.Completed | pmemds/include/tree/btree/persistent_b_tree.h:389-454 | a call that runs to its end yields exactly the sorted contents with the entry added or removed |
| LeafCrash.CrashBeforeSwitch | pmemds/include/tree/btree/persistent_b_tree.h:346-387 | whichever stores before the last reached memory, in any order and any number of times, recovery finds the old contents and a usable leaf |
| LeafCrash.CrashAtomic | pmemds/include/tree/btree/persistent_b_tree.h:346-454 | stopping after any store and recovering yields exactly the old or exactly the new contents, and a valid leaf |
| LeafCrash.BuiltValid | pmemds/include/tree/btree/persistent_b_tree.h:459-479 | a leaf built from sorted entries is valid and holds them |
| LeafNode.LeafNode.Exec | pmemds/include/tree/btree/persistent_b_tree.h:380-387 | one store changes the leaf by that store and no more |
| LeafNode.LeafNode.Search | pmemds/include/tree/btree/persistent_b_tree.h:234-243 | binary search over the index array finds the lower bound |
| LeafNode.LeafNode.Find | pmemds/include/tree/btree/persistent_b_tree.h:234-243 | found exactly when an entry has the key, at its position |
| LeafNode.LeafNode.PublishIdxs | pmemds/include/tree/btree/persistent_b_tree.h:380-387 | the stores appear in the order index array, size, volatile word, persistent word |
| LeafNode.LeafNode.Insert | pmemds/include/tree/btree/persistent_b_tree.h:389-439 | the contents gain the entry unless the key is present, by exactly the stores the crash theorems speak of |
| LeafNode.LeafNode.Erase | pmemds/include/tree/btree/persistent_b_tree.h:441-488 | the contents lose the key if present, by exactly the stores the crash theorems speak of |
| TreeModel.ChildPos | pmemds/include/tree/btree/persistent_b_tree.h:593-601 | the child between whose separators the key falls: above the one before it, not above the one after it |
| TreeOrder.ChainOrder | pmemds/include/tree/btree/persistent_b_tree.h:334-344 | along the chain the leaves' key intervals are disjoint and increasing |
| TreeOrder.OneLeaf | pmemds/include/tree/btree/persistent_b_tree.h:943-954 | two leaves responsible for one key are the same leaf |
| TreeSplit.SplitInnerOk | pmemds/include/tree/btree/persistent_b_tree.h:826-839 | splitting a full inner node below a parent with room keeps the whole tree invariant and the map |
| TreeSplit.ParentOk | pmemds/include/tree/btree/persistent_b_tree.h:559-591 | replacing a child by two around a separator keeps the parent's order, bounds and children |
| TreeLeafSplit.SplitLeafOk | pmemds/include/tree/btree/persistent_b_tree.h:1166-1203 | splitting a full leaf with a new entry keeps the tree invariant and adds exactly that entry to the map |
| TreeLeafSplit.SplitLeafChain | pmemds/include/tree/btree/persistent_b_tree.h:1206-1220 | after a leaf split the prev and next links list the leaves in tree order, each once |
| TreeLeafSplit.StepsAreSplit | pmemds/include/tree/btree/persistent_b_tree.h:1176-1197 | the stores of the split in program order add up to the split |
| TreeLeafSplit.GrowRootOk | pmemds/include/tree/btree/persistent_b_tree.h:1223-1229 | a new level above the root keeps the tree invariant and the map |
| TreePath.SplitHead | pmemds/include/tree/btree/persistent_b_tree.h:1269-1274 | after a split, descending again for the key reaches the half that is responsible for it, which has room and leads to the same grandchild |
| TreePath.SplitDescends | pmemds/include/tree/btree/persistent_b_tree.h:1269-1274 | the rest of the path is still the way to the leaf after a node on it was split |
| BTree.BTree.FindLeaf | pmemds/include/tree/btree/persistent_b_tree.h:958-969 | the loop walks from the root to the leaf whose box holds the key |
| BTree.BTree.Find | pmemds/include/tree/btree/persistent_b_tree.h:1085-1103 | found exactly when the abstract map has the key, with its value |
| BTree.BTree.Erase | pmemds/include/tree/btree/persistent_b_tree.h:1105-1110 | exactly that key leaves the map, also when its leaf becomes empty |
| BTree.BTree.FindFullNode | pmemds/include/tree/btree/persistent_b_tree.h:971-978 | the lowest node of the path with room, everything below it full |
| BTree.BTree.SplitInnerNode | pmemds/include/tree/btree/persistent_b_tree.h:826-839 | the tree stays well formed, the map the same, and the two halves hang below the parent |
| BTree.BTree.SplitLeafNode | pmemds/include/tree/btree/persistent_b_tree.h:1166-1203 | the tree stays well formed and the map gains exactly the entry |
| BTree.BTree.MakeRoom | pmemds/include/tree/btree/persistent_b_tree.h:1254-1274 | after splitting every full node of the path, the root included, the leaf's parent has room and the map is the same |
| BTree.BTree.InsertIntoLeaf | pmemds/include/tree/btree/persistent_b_tree.h:1280-1281 | a leaf with room takes the entry unless the key is present |
| BTree.BTree.InsertDescend | pmemds/include/tree/btree/persistent_b_tree.h:1232-1282 | the map gains exactly the entry, or the key is reported and nothing changes |
| BTree.BTree.Insert | pmemds/include/tree/btree/persistent_b_tree.h:1072-1083 | insert refines map insert and keeps order, bounds, capacities, levels and chain, from the empty tree on; from degree 4 on every inner node keeps a separator |
| TreeTheorems.EqualDepth | pmemds/include/tree/btree/persistent_b_tree.h:943-954 | every way down from a node to a leaf has the same length |
| TreeWalk.WalkEndsExactly | pmemds/include/tree/btree/persistent_b_tree.h:699-709 | incrementing from begin() reaches end() if and only if every leaf but the last holds an entry |
| TreeWalk.WalkYieldsMap | pmemds/include/tree/btree/persistent_b_tree.h:695-752 | then the walk points to the entries of the map, once each, in increasing key order, and to nothing else |
| TreeWalk.StuckInEmptyLeaf | pmemds/include/tree/btree/persistent_b_tree.h:699-709 | otherwise no number of increments reaches end(), and from the first empty leaf on the iterator points to no entry |
| BTree.BTree.LeftmostLeaf | pmemds/include/tree/btree/persistent_b_tree.h:980-991 | the loop down the first children ends at the first leaf of the chain |
| BTree.BTree.RightmostLeaf | pmemds/include/tree/btree/persistent_b_tree.h:994-1005 | the loop down the last children ends at the last leaf of the chain |
| TreeIterator.Cursor.Begin | pmemds/include/tree/btree/persistent_b_tree.h:1114-1116 | the iterator starts at the first position of the chain |
| TreeIterator.Cursor.End | pmemds/include/tree/btree/persistent_b_tree.h:1118-1121 | the end is behind the last entry of the last leaf |
| TreeIterator.Collect | pmemds/include/tree/btree/persistent_b_tree.h:695-752 | the loop from begin() to end() over the next fields returns exactly the map in key order |
| TreeIterator.EndlessWalk | pmemds/include/tree/btree/persistent_b_tree.h:1105-1110 | three insertions into a tree of degree 3 and the erasures of its first leaf leave a tree whose end() no walk from begin() reaches |
| TreeKeys.HalvesKeyed | pmemds/include/tree/btree/persistent_b_tree.h:826-839 | splitting a full inner node leaves halves of equal size or one apart, and a separator in both exactly from degree 4 on |
| BTree.SidesBalanced | pmemds/include/tree/btree/persistent_b_tree.h:1171-1183 | the two leaves of a split hold the old entries and the new one in order, each at least half as many as the full leaf |
| TreeTheorems.LeafFor | pmemds/include/tree/btree/persistent_b_tree.h:943-954 | for every key some leaf is responsible, and holds it if the map does |
| Scheduler.Splice | core/scheduler.hpp:115-120 | the new cell is linked both ways behind the first one and the chain stays intact |
| Scheduler.Detach | core/scheduler.hpp:170-175 | the cell is out, its neighbours are linked both ways and the chain stays intact |
| Scheduler.Scheduler.constructor | core/scheduler.hpp:43-77 | an empty list with nothing waiting, issued or sent |
| Scheduler.Scheduler.Add | core/scheduler.hpp:99-127 | refused exactly when the buffer is full; otherwise the operation is the newest waiting one and last in the accepted order |
| Scheduler.Scheduler.Ready | core/scheduler.hpp:137-144 | the scan says yes exactly when the operation commutes with every unfinished issued one |
| Scheduler.Scheduler.Enqueue | core/scheduler.hpp:145-157 | the oldest waiting operation goes to the executor whose turn it is, so that accepted operations are sent once each and in order |
| Scheduler.Scheduler.Schedule | core/scheduler.hpp:134-160 | it stops exactly at an operation that does not commute with an unfinished one; issued operations stay pairwise commuting where unfinished |
| Scheduler.Scheduler.Gc | core/scheduler.hpp:166-185 | exactly the marked issued operations are freed, the rest keep their order, and size is the length of the list |
| Scheduler.UnmarkedCompatible | core/scheduler.hpp:166-185 | freeing finished operations keeps the others pairwise commuting |
| Scheduler.UnmarkedMembers | core/scheduler.hpp:169-183 | an operation survives collection exactly when it is not marked |
| SchedulerMachine.Start | core/dispatcher.cpp:506-509 | a new list is in its run, at the machine's first world |
| SchedulerMachine.TestedCompatible | core/scheduler.hpp:137-144 | in a list that mirrors a world of the machine every issued operation commutes with the older unfinished ones, so that the next pass may start |
| SchedulerMachine.Schedule | core/scheduler.hpp:134-160 | a pass over a list that mirrors a world of a run of the executor machine leaves one that mirrors a later world of that run, reached by the machine's own tests and enqueuings; it reports success exactly when nothing waits any more |
| SchedulerMachine.Add | core/scheduler.hpp:99-127 | adding an operation with a log record of its own is the machine's step of the same name, or nothing when the buffer is full; the list stays in its run |
| SchedulerMachine.Gc | core/scheduler.hpp:166-185 | freeing finished operations is a sequence of the machine's steps that collect them; the list stays in its run |
| SchedulerMachine.Turn | core/cyclone_context.hpp:797-800 | a pass and a freeing, as in each turn of the main loop, compose and leave the list ready for the next turn |
| SchedulerMachine.Finish | core/dispatcher.cpp:329-334 | marking the record of an operation at hand is the machine's step that finishes it and touches no other operation; the list stays in its run |
| SchedulerMachine.OthersInRun | core/dispatcher.cpp:304-337 | through replication and the executors' other steps the list stays in its run |
| SchedulerMachine.ListLikeOneThread | core/dispatcher.cpp:304-337 | for every list reached from a new one by these calls and steps: once all has run, state and replies are those of one thread that takes the operations as the list accepted them |
| SchedulerScan.BeginScan | core/scheduler.hpp:135-136 | the scan starts at the newest issued cell, where the machine's scan of the oldest waiting operation starts |
| SchedulerScan.ScanOne | core/scheduler.hpp:137-144 | one comparison, with the mark read only now, passes exactly when the machine's test does, and leaves list and machine at the next cell |
| SchedulerScan.FinishDuringScan | core/dispatcher.cpp:329-334 | an executor that marks a record during a scan, of a cell before or behind the scan, leaves the list in its run and the scan at its cell |
| SchedulerScan.OthersDuringScan | core/dispatcher.cpp:304-337 | so do replication and the executors' other steps |
| SchedulerScan.EnqueueScanned | core/scheduler.hpp:145-157 | behind the last cell the enqueuing is the machine's step of the same name, also when executors finished operations during the scan |
| SchedulerScan.SweepOne | core/scheduler.hpp:166-185 | one turn of the freeing loop unlinks the cell exactly when it is marked by now, as the machine's step that collects it, and goes on to the cell behind it |
| Serial.SameAsArrival | core/scheduler.hpp:134-160 | if every overtaking pair was found to commute, running the operations as executed and in the order of arrival gives the same state and the same reply to each |
| Executors.StepInv | core/dispatcher.cpp:304-337 | every step of scheduler, executors and replication keeps: a newer operation is issued only when each older one is finished or commutes with it |
| Executors.StepOvertakes | core/scheduler.hpp:137-144 | an operation that executes now was overtaken only by operations it commutes with |
| Executors.Serializable | core/dispatcher.cpp:110-152 | at every moment of every interleaving, state and replies are those of the executed operations in the order of arrival |
| Executors.LikeOneThread | core/dispatcher.cpp:304-337 | once all have run, state and replies are those of one thread taking the operations as they came, failed replications without effect |
| Serial.ReplyOf | core/dispatcher.cpp:110-152 | an operation that ran was answered from the state that those before it had left; one whose replication failed was not answered and left no trace |
| ExecutorsDrain.Drains | core/dispatcher.cpp:304-337 | from every state of every run in which replication has decided about all operations, the run can go on until all of them have run |
| HashmapServer.CommuteSound | benchmarks/kvbench/hashmap/hashmap_server.cpp:34-52 | whenever the test says yes, both orders give the same map and the same two replies |
| HashmapServer.OrderMatters | benchmarks/kvbench/hashmap/hashmap_server.cpp:34-52 | of the reads and writes whose order shows in no state, the test misses exactly two reads of one key and the same write twice |
| HashmapServer.Serializable | benchmarks/kvbench/hashmap/hashmap_server.cpp:21-52 | a client cannot tell parallel execution of this server from one thread |
| HashmapServer.ReadsLastWrite | pmemds/src/hashmap/hashmap.cc:69-99 | however many threads there are, a read is answered with the first 15 characters of the last write to its key that arrived before it and took effect, not found if there is none; a write is confirmed |
| GraphServer.CommuteExactly | benchmarks/twitter/adjvector/adjvector_server.cpp:32-56 | where the test says yes, the two orders agree in every state if and only if the requests agree on stopping the process |
| GraphServer.OrderMatters | benchmarks/twitter/adjvector/adjvector_server.cpp:32-56 | of the requests whose order shows in no state, the test misses exactly those beside which nothing can be seen and the same edge twice |
| GraphServer.ParallelStop | pmemds/src/vector/adjvector.cc:85-89 | a degree request for a node beyond the last one passes the test beside a proper request and the order shows |
| GraphServer.CommuteSound | pmemds/src/vector/adjvector.cc:54-97 | for requests that do not stop the process, yes means the same edges and the same two replies in both orders |
| GraphServer.Link | pmemds/src/vector/adjvector.cc:61-77 | both nodes exist afterwards and only the source node's edges grew, by one at the end |
| GraphServer.Serializable | benchmarks/twitter/adjvector/adjvector_server.cpp:19-56 | as long as no request stops the process, parallel execution looks like one thread |
| GraphServer.DegreeCounts | pmemds/src/vector/adjvector.cc:54-97 | however many threads there are, the degree of a node is answered with the number of edges out of it, with both ends in range, that arrived before and took effect |
| VoteServer.CommuteSound | benchmarks/vote/pqueue/pqueue_server.cpp:26-76 | whatever the queues do, yes means the same shards and the same two replies in both orders |
| VoteServer.CommuteExactly | benchmarks/vote/pqueue/pqueue_server.cpp:55-76 | the test says yes if and only if both requests are known and neither changes a shard that the other touches |
| VoteServer.Footprint | pmemds/src/pmemds.cc:46-90 | a request leaves the shards it does not change alone, and what it answers and makes of the others depends only on the shards it touches |
| VoteServer.CutKeySameShard | pmemds/src/priority_queue/priority_queue.cc:60-83 | a key cut to 32 bits stays in its shard when the number of shards divides 2^32 |
| VoteServer.Serializable | benchmarks/vote/pqueue/pqueue_server.cpp:42-76 | a client cannot tell parallel execution of this server from one thread |
| VoteClient.CountsVotes | pmemds/src/priority_queue/priority_queue.cc:31-96 | however many threads there are, for any queue with one priority per key: each key ends with the priority it entered with plus the votes for it and minus those against it that took effect, modulo 2^64; a vote is confirmed exactly for a key that was entered before; a top list shows, shard by shard, the listed keys with the titles they were last given |
| VoteClient.TalliedAt | pmemds/src/priority_queue/priority_queue.cc:60-96 | the tally of votes holds at every place of the arrivals |
| VoteClient.PlainTallies | pmemds/include/priority_queue/volatile_priority_queue.hpp:93-205 | a map from keys to priorities is a queue with one priority per key |
| VoteClient.TopShown | pmemds/src/pmemds.cc:46-90 | the rows of a top list are the listed keys of all shards in order with their last titles, and there is no answer exactly when one has none |
| Snapshot.WordForward | core/cyclone_context.hpp:428-447 | no call into a raft server makes twice the term plus the leader bit smaller |
| Snapshot.StepInv | core/cyclone_context.hpp:348-364 | every step of quorums and reader keeps: a published word is not ahead of its server and never goes back, and the reader's copies are not ahead of the words |
| Snapshot.PublishedEarlier | core/cyclone_context.hpp:428-447 | a published word is the word its server had when the quorum last published |
| Snapshot.OvertakenExactly | raft/src/raft_server.c:282-680 | a call changes the word of a leading server if and only if it brings a later term and the handler does not drop it before the term is compared |
| Snapshot.SameWordExactly | core/cyclone_context.hpp:428-447 | over any stretch of a run, a server that leads at its start has the same word at its end if and only if no call of the stretch overtakes it |
| Snapshot.RepublishedLed | core/cyclone_context.hpp:428-447 | a quorum that publishes a leader's word before a moment and the same word after it led the word's term at that moment |
| Snapshot.SnapshotIsOneMoment | core/cyclone_context.hpp:348-364 | when the reader succeeds there was one earlier moment at which every published word was the returned one; each server led the word's term when it last published before that moment, and led it at the moment if and only if no call in between brought it a later term |
| Snapshot.SucceedsUndisturbed | core/cyclone_context.hpp:348-364 | if all words are those of leaders when the reader begins and none changes until it ends, it succeeds with exactly these words |
| SnapshotLate.NoCommonMoment | core/cyclone_context.hpp:348-364 | a run of two quorums in which the reader succeeds and there is no moment at which both servers lead |
| BarrierSafety.BarrierUnanimity | core/cyclone.hpp:130-221 | in every interleaving, if the leader returns 1 for a round then every other core of the mask joined that round itself and returned 1 from it |
| BarrierSafety.SuccessNotResetEarly | core/cyclone.hpp:171-186 | while the leader is idle or sets up a round no core is between joining and leaving, so the success word is not reset before all have read it |
| BarrierSafety.StepInv | core/cyclone.hpp:118-221 | every shared-memory access of leader and followers keeps the invariant of the rendezvous |
| BarrierSafety.FinishGone | core/cyclone.hpp:212-220 | when the leader finishes, each follower has returned or is beyond its term for good |
| BarrierMeets.FailsOnlyWhenLate | core/cyclone.hpp:130-221 | in every interleaving, if the leader or a follower returns 0 from a round then some core of the mask has executed a term beyond its bound |
| BarrierMeets.CanMeet | core/cyclone.hpp:118-221 | from every state of every run between rounds, if no core of the next round is late and its followers have not come yet, the run can go on so that the leader and all of them return 1 |
| BarrierLate.LateJoin | core/cyclone.hpp:130-168 | without the term check on entry there is a run in which the leader succeeds in a round that a core of the mask never joined |
| PriorityQueue.PriorityQueue.constructor | pmemds/include/priority_queue/volatile_priority_queue.hpp:332-340 | an empty coherent queue whose top heap has its share of places |
| PriorityQueue.PriorityQueue.Swap | pmemds/include/priority_queue/volatile_priority_queue.hpp:310-330 | two elements trade places and the index follows them and nothing else |
| PriorityQueue.PriorityQueue.SiftUp | pmemds/include/priority_queue/volatile_priority_queue.hpp:176-179 | the loop moves the element up past its half-index ancestors, loses no element and keeps the index true |
| PriorityQueue.PriorityQueue.Heapify | pmemds/include/priority_queue/volatile_priority_queue.hpp:260-297 | the recursion moves the element down, loses no element and keeps the index true |
| PriorityQueue.PriorityQueue.Insert | pmemds/include/priority_queue/volatile_priority_queue.hpp:207-258 | one element is added on each of the three paths, and the index stays coherent if and only if the key is new |
| PriorityQueue.PriorityQueue.IncreasePrio | pmemds/include/priority_queue/volatile_priority_queue.hpp:93-148 | exactly that key's priority grows, modulo 2^64, the queue stays coherent, and an unknown key changes nothing |
| PriorityQueue.PriorityQueue.DecreasePrio | pmemds/include/priority_queue/volatile_priority_queue.hpp:150-205 | exactly that key's priority shrinks, modulo 2^64; it throws exactly for a top element with an empty overflow heap, and the queue is coherent even then |
| PriorityQueue.KeyTwice | pmemds/include/priority_queue/volatile_priority_queue.hpp:55-69 | a queue that holds a key twice has no coherent index |
| PriorityQueue.RearrangeLow | pmemds/include/priority_queue/volatile_priority_queue.hpp:310-330 | rearranging the top heap with its index entries keeps the whole queue coherent |
| PriorityQueue.ReplaceRearranged | pmemds/include/priority_queue/volatile_priority_queue.hpp:235-257 | evicting the top root and seating a new key is coherent again once both heaps have settled |
| PriorityQueue.InsertedElems | pmemds/include/priority_queue/volatile_priority_queue.hpp:207-258 | an insertion adds one element and loses none |
| HeapOrder.UpOrders | pmemds/include/priority_queue/volatile_priority_queue.hpp:88-121 | moving up restores the order between each index and its half |
| HeapOrder.DownOrders | pmemds/include/priority_queue/volatile_priority_queue.hpp:260-297 | moving down restores the order between each index i and 2i+1, 2i+2 |
| HeapOrder.RootExtreme | pmemds/include/priority_queue/volatile_priority_queue.hpp:88-90 | in half-index order the root is the extreme element |
| TopK.SmallTopHolds | pmemds/include/priority_queue/volatile_priority_queue.hpp:93-258 | with at most four places the top heap holds the greatest priorities at every moment of every run of insertions and raises |
| TopK.TwelveInsertions | pmemds/include/priority_queue/volatile_priority_queue.hpp:207-258 | twelve insertions into a queue with eight top places leave a greater priority in the overflow heap than one in the top heap |
| TopK.TopExactly | pmemds/include/priority_queue/volatile_priority_queue.hpp:332-340 | the top heap holds the greatest priorities in every state reachable by insertions and raises if and only if there is more than one partition |
| TopK.AppendTop | pmemds/include/priority_queue/volatile_priority_queue.hpp:211-221 | up to the fourth place the half-index way up keeps the child order that moving down relies on |
| TopKLower.LoweredOut | pmemds/include/priority_queue/volatile_priority_queue.hpp:150-205 | with any number of top places, insertions and four lowerings leave a greater priority in the overflow heap than one in the top heap, and no call throws |
| TopKLower.LoweringExactly | pmemds/include/priority_queue/volatile_priority_queue.hpp:332-340 | with all three operations the top heap holds the greatest priorities in every reachable state if and only if there are more than eight partitions, and then the queue takes no element |
| TopKSmall.FewElementsHold | pmemds/include/priority_queue/volatile_priority_queue.hpp:93-258 | with at most four top places and never more than four elements beyond them, the top heap holds the greatest priorities at every moment of every run of insertions, raises and lowerings |
| TopKFew.FewExactly | pmemds/include/priority_queue/volatile_priority_queue.hpp:93-258 | with one to four top places: in all runs that keep the overflow heap to m elements the top heap holds the greatest priorities, if and only if m is at most four |
| TopKSmall.NewcomerPlaced | pmemds/include/priority_queue/volatile_priority_queue.hpp:207-258 | a newcomer enters the top heap if and only if there is room or it is not less than the least one there |
| TopKSmall.RaisedPlaced | pmemds/include/priority_queue/volatile_priority_queue.hpp:106-148 | while both heaps are small, a raised element enters the top heap if and only if it is then greater than the least one there |
| TopKSmall.LoweredPlaced | pmemds/include/priority_queue/volatile_priority_queue.hpp:150-205 | while both heaps are small, a lowered element of the top heap goes to the overflow heap if and only if it is then less than the greatest one there |

## Left out

- RaftStateMachine.StateMachineSafety: for a single run one way only, because a run with one of the two excluded steps may still be safe, as when the entry committed beyond a message is the leader's all the same; `RaftExact.SafeExactly` is the exact condition over all runs. Like Leader Completeness it is for the cluster machine, without restarts.
- RaftCatchUp.CatchesUpExactly: the follower has committed nothing that the leader lacks; `RaftProgress.CatchesUpInRun` shows that this holds in every run without the two steps that break safety.
- RaftService.CanServe: that the run can go on so, not that it must: timers and the network may prevent it for ever.
- Membership changes and non-voting nodes: every member votes and the configuration is fixed.
- Log Matching with checkpoints or compaction: the cluster machine takes no checkpoints; compaction is treated on one server (`ServerOrder`).
- Timeouts, elapsed counters and the preferred leader: a timer step may fire at any moment.
- C integer widths of terms and indices in the Raft library: they are unbounded here.
- Snapshot.SnapshotIsOneMoment: terms stay below 2^31 - 1, because the word of the last C int term is the unpublished word.
- BarrierSafety.BarrierUnanimity: a follower enters with an executed term within its bound, which the term check on acceptance (core/cyclone_context.hpp:553-566) and log order give; `BarrierLate` shows the run without it. The stable counter does not wrap around.
- RaftLog.RaftLog.AppendBatch and PollBatch: what memory holds after a copy beyond the batch is not modelled; the call then counts as one that stops the process.
- RaftNode.RaftNode.constructor: the compaction target is positive; sending, and what the network takes, is `SendAppendentries`.
- RaftLog.RaftLog.Delete: the index is one of the log or the one after it; the loop of the original does not end otherwise.
- Appending a single entry (raft/src/raft_log.c:118-145) is a batch of one.
- LeafNode.LeafNode.Insert: the leaf has room, as the caller has made sure; the tree splits full leaves.
- Decrementing a tree iterator: the original calls a member that leaf nodes do not have. Reverse iteration with it.
- TreeIterator.Collect: the tree has no empty leaf but the last; otherwise the loop does not end.
- Repair of tree splits that were interrupted by a crash; crash atomicity is proved for leaves.
- The two buffers of an inner node: its keys and children change in one step.
- The lazy consistency check by epoch on every leaf access: recovery is one step.
- SchedulerMachine.Schedule: the whole loop is one call, without marks set in between; `SchedulerScan` takes it one cell at a time, with any steps of the executors in between.
- SchedulerMachine.Gc: likewise; `SchedulerScan.SweepOne` is one turn of its loop.
- Scheduler.Scheduler.Enqueue: the rings to the executors are unbounded; the original exits when one is full.
- Executors.LikeOneThread: the callback of one operation is one step, each operation has its own log record, and multi-core operations, kicker and membership requests are not scheduled.
- VoteClient.CountsVotes: no key enters a queue twice, and a queue that throws is not one with one priority per key.
- VoteServer.CommuteSound: requests for a structure that does not exist and reads outside GET_TOPK are not modelled.
- GraphServer.Exec: the degree is not cut to a C int.
- TopK.SmallTopHolds: priorities are only inserted and raised, and a raise does not overflow 64 bits; `TopKLower` treats lowering.
- persistent_priority_queue.hpp and its transactions; the queue modelled is the volatile one.
- Weak memory: the snapshot, the barrier and the executors take one shared access after another, in program order.
- Cache-line flushes, the flash log, reply merging, the asynchronous client, mcs_lock, DPDK and all I/O.
