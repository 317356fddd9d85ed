# Verification of the Raft node, the bounded channels and the ext2 recovery tool

This project models the three stateful parts of the repository in Dafny and proves what they
promise. `dafny verify dfyconfig.toml` checks all of it.

**The Raft node and its bank** (`Ledger`, `RaftModel`, `RaftNodes`, `RaftCluster` and the modules
on top of them). `RaftNode` is the class of the source: every handler updates its fields in place,
and each is proved to do, field by field and message by message, what a function on values says,
panics included. On these functions stands a cluster of any number of fully connected nodes, with
one FIFO inbox each. A step is one handler run with all its sends, one timeout, or the arrival of a
client command; which sends of a handler run fail is chosen anew every time, because the network is
cut into partitions at any moment. All main results are about every state of every run of that cluster.
`RaftTraffic` says what every handler run changes and sends, field by field and peer by peer.

Votes are anonymous and merely counted, so election safety is a counting argument: beside the run
we keep the ballots that were really cast, and show that what a node has counted in the election it
started, plus the votes on their way to it, never exceeds its real voters. For Log Matching we keep
one reign per term that has a leader (the leader and its log), and show that every log is a
patchwork of reigns. `RaftUpToDate` compares logs: in every run a node votes for another exactly if its
own log is no newer than the other's was when it asked and its answer gets through, so whoever is
elected has a log no older than those of a majority when they voted.

One branch of the code departs from Raft: a node that sees a vote request of a higher term adopts
the term, but keeps its role unless it also grants the vote and gets the answer out. We keep the
code as it is, and say exactly what it costs. A leader that takes this branch is stranded in an
office it was not elected to: `LeadersElectedExactly` shows that in a run office is held by election
if and only if no leader ever takes it. Log Matching, one leader per term, logs that leaders only
append to, acknowledgements that mean what they say, commits with a majority behind them and freedom
from panics are proved for all runs in which no leader takes it, and for all runs of at most two
nodes, where a stranded leader has no rival. With three or more nodes each of them fails in some run,
which `RaftStranded`, `RaftPanic` and `RaftUnheld` build (step by step, with `RaftRuns` and
`RaftScenes`) for every number of nodes; so each holds in every run if and only if there are at most
two. A candidate that takes the branch keeps a count from an earlier term. `RaftCandidates` shows
that in a run all candidates' counts are covered by real voters if and only if no candidate ever
takes it, and that from two nodes on some run has one that does. Election safety about *winning*
needs no condition.

**The bounded channels** (`CachedMpsc*`, `CachedRing`, `Spsc*`, `Mpsc*`, `QueueRings`).
The cached channel with many producers is a transition system with one step per atomic operation,
lock acquisition or slot access. Its state carries the history that the theorems speak of: the
stream of all positions ever reserved, with owner, slice and what was written there, what each
producer has sent, and what the consumer has popped. One invariant ties the four indices, the
three counters, the set of filled slices, the local buffers and every slot to that history; every
step of every thread keeps it. `CachedRing.RingBuffer` is the same ring as its methods update it in
place; storing, applying and merging are proved to do just what the steps of the transition system
do when nobody interrupts them. `CachedMpscCalls` says what an uninterrupted send, flush, drop and
receive come to, and that in every run each receive hands out one of the values popped, reports a
disconnect or is still looking. `SpscCached` and `MpscBounded` are the transition systems of the
smaller channels, `QueueRings` has their calls as methods on an array, and `SpscCalls` and
`MpscCalls` show that a call that nobody interrupts has the outcome and the effect of its method.

**The ext2 recovery tool** (`IndirectBlocks`, `FreeBlocks`, `Carving`, `RecoveryRoundTrip`). The
closed-form test for pointer blocks is compared with the recursive layout of a file on disk, for
every fan-out; the bit-scan iterator is proved to yield exactly the free blocks, in order; and the
carving loop is proved to invert the layout. The test misses the pointer blocks inside the last
double subtree of the triple tree. We say so exactly: which blocks it misses, and which
files are recovered.

Machine integers are modelled where they matter: balances are 64-bit and additions wrap around.
A transfer or deposit conserves money exactly when no addition overflows, and none does as long as
all deposits together fit into a word. Account by account, a balance is what the commands carried out
brought in less what they took out, in a machine word.

## Model

| member | source | states |
|---|---|---|
| Ledger.ApplyConservesExactly | consensus/src/protocol.rs:465-545 | One committed command changes the sum of all balances by what it credits less what it debits if and only if none of its additions overflows; so a transfer, also one to oneself, leaves the sum unchanged. |
| Ledger.LedgerConservation | consensus/src/protocol.rs:465-545 | After any command sequence whose deposit amounts together fit a machine word, the balances sum to accepted deposits minus accepted withdrawals, and no addition on the way overflowed. |
| Ledger.ApplyPerAccount | consensus/src/protocol.rs:465-545 | One command, on every account: only opening adds an account, with balance 0; a rejected command changes none; an accepted one moves its amount into and out of the accounts it names, in a machine word, and leaves all others alone. |
| Ledger.AccountBalances | consensus/src/protocol.rs:465-545 | After any command sequence, an account exists if and only if it was opened, and holds, in a machine word, the deposits and transfers to it that were carried out less the withdrawals and transfers from it; what is carried out is told from the commands alone. |
| Ledger.AccountBalancesExact | consensus/src/protocol.rs:465-545 | As long as the deposit amounts together fit a machine word, these balances are exact. |
| RaftNodes.RaftNode.constructor | consensus/src/protocol.rs:378-394 | A new node is a follower in term 0 with empty log, book and pending commands. |
| RaftNodes.RaftNode.Encode | consensus/src/network.rs:171-180 | A send fails visibly if the peer is in another partition, and enqueues the message exactly once otherwise. |
| RaftNodes.RaftNode.PushLogEntry | consensus/src/protocol.rs:547-550 | Appends the entry and, in step, the set of acknowledgements holding the node itself. |
| RaftNodes.RaftNode.TruncateLog | consensus/src/protocol.rs:552-555 | Cuts log and acknowledgement sets to the same length. |
| RaftNodes.RaftNode.ApplyLog | consensus/src/protocol.rs:465-545 | Runs the command at the index on the book in place, as the ledger defines it. |
| RaftNodes.RaftNode.CommitLog | consensus/src/protocol.rs:128-137 | The commit loop applies the entries from the commit index up to the bound, in order. |
| RaftNodes.RaftNode.DrainPendingCmdsToLog | consensus/src/protocol.rs:432-442 | Every pending command becomes an entry of the current term, in order, and none stays pending. |
| RaftNodes.RaftNode.SendPendingCmdsToLeader | consensus/src/protocol.rs:444-463 | A prefix of the pending commands goes to the leader in order, and the rest stays pending in order. |
| RaftNodes.RaftNode.ExecuteAppendEntry | consensus/src/protocol.rs:61-107 | The append-entry handler reaches the specified state and sends the specified messages, or panics where specified. |
| RaftNodes.RaftNode.ExecuteAppendEntryResponse | consensus/src/protocol.rs:119-161 | The same for the acknowledgement handler, with its commit by counting and its choice of the next entry. |
| RaftNodes.RaftNode.ExecuteRequestVote | consensus/src/protocol.rs:172-192 | The same for the vote-request handler, with the branch that adopts the term and keeps the role. |
| RaftNodes.RaftNode.ExecuteVote | consensus/src/protocol.rs:201-229 | The same for the vote handler, with the step to leadership and its broadcast. |
| RaftNodes.RaftNode.ExecuteCommand | consensus/src/protocol.rs:252-274 | The same for the client-command handler: log and offer as leader, otherwise keep and forward. |
| RaftNodes.RaftNode.Timeout | consensus/src/protocol.rs:586-615 | The timeout branch sends a leader's heartbeats, or starts an election with a vote for oneself. |
| RaftNodes.RaftNode.Dispatch | consensus/src/protocol.rs:560-584 | One message of the main loop is handled as the handler of its kind specifies. |
| RaftTraffic.AppendEntryEffect | consensus/src/protocol.rs:61-107 | An append-entry of the node's term or a later one makes it a follower of the sender; the entry is taken if the log has its predecessor and the answer gets out, the answer says whether the log has it, and a prefix of the pending commands goes to the sender behind the answer. |
| RaftTraffic.AcknowledgementEffect | consensus/src/protocol.rs:119-161 | An acknowledgement of the current term is recorded for its index, if that is a success not yet committed, and the entry behind it, or before it after a failure, becomes pending for the sender and goes to it alone. |
| RaftTraffic.LeaderCommandEffect | consensus/src/protocol.rs:252-268 | A leader logs a command in its term with only itself to have it, and offers it to exactly the reachable peers that had nothing pending. |
| RaftTraffic.FollowerCommandEffect | consensus/src/protocol.rs:268-274 | Any other node keeps a command behind those pending and forwards, in order, what gets through to a leader it knows. |
| RaftTraffic.WinSends | consensus/src/protocol.rs:201-229 | The vote that completes a majority makes a candidate leader: its pending commands are logged in order in its term, and the entry that was last before is pending for every peer and goes to each reachable one. |
| RaftTraffic.VoteCounts | consensus/src/protocol.rs:201-229 | Any other vote of a candidate's term is counted, and nothing is sent. |
| RaftTraffic.VoteIgnored | consensus/src/protocol.rs:201-203 | A vote of another term, or to a node that is no candidate, changes nothing. |
| RaftTraffic.StaleAppendEntry | consensus/src/protocol.rs:61-73 | An append-entry of an earlier term changes nothing and is not answered. |
| RaftTraffic.StaleAcknowledgement | consensus/src/protocol.rs:119-124 | An acknowledgement of another term changes nothing. |
| RaftTraffic.TimeoutReachesPeers | consensus/src/protocol.rs:586-615 | In every run, a timeout sends each reachable peer exactly one message: from a leader the heartbeat of its term with commit index and pending entry, from any other node a vote request for the next term with the last term and length of its log. |
| RaftTraffic.WinReachesPeers | consensus/src/protocol.rs:201-229 | In every run, whoever completes a majority takes office and sends each reachable peer exactly one append-entry with its last entry from before. |
| RaftShape.LogShape | consensus/src/protocol.rs:404-421 | In every run, terms in every log never decrease and lie within 1 and the node's term, log and acknowledgement sets have equal length, and every entry in flight or pending is in the same bounds. |
| RaftShape.AcceptedEntryLandsInPlace | consensus/src/protocol.rs:74-91 | In every run, an accepted entry lands at exactly its index: no gap before it, nothing behind it. |
| RaftShape.PanicsExactlyBeyondLog | consensus/src/protocol.rs:128-147 | In every run, a node's handler panics if and only if it counts an acknowledgement that points past its log; in particular a failed response never has index 0. |
| RaftPanic.PanicHappens | consensus/src/protocol.rs:62-91 | For every cluster of three or more nodes, a run that ends with a node panicking: a stranded leader's log is cut while an acknowledgement is under way to it. |
| RaftPanic.NoPanicsExactly | consensus/src/protocol.rs:128-181 | No handler panics in any run if and only if there are at most two nodes. |
| RaftPanic.CutsLog | consensus/src/protocol.rs:62-91 | For every cluster of three or more nodes, a run in which a stranded leader's log is cut within the term it holds. |
| RaftPanic.AppendOnlyInEveryRunExactly | consensus/src/protocol.rs:171-193 | Leaders stay in office and only append to their logs as long as their term lasts, in every run, if and only if there are at most two nodes. |
| RaftElection.VotesNeverExceedVoters | consensus/src/protocol.rs:200-212 | In every run, the votes a node has counted in the election it started (it voted for itself in its current term), plus the votes in flight to it, never exceed the nodes that really voted for it in that term. |
| RaftCandidates.CoveredExactly | consensus/src/protocol.rs:171-212 | In every state of every run, a candidate's count plus the votes in flight to it is covered by nodes that really voted for it in its term if and only if it voted for itself in that term. |
| RaftCandidates.CandidatesCoveredExactly | consensus/src/protocol.rs:173-181 | In a run, every candidate's count is always covered by real voters if and only if no vote request of a higher term leaves a candidate in its role without its vote going out. |
| RaftCandidates.UncoveredCandidate | consensus/src/protocol.rs:173-181 | For every cluster of two or more nodes, a run that ends with a candidate whose count no voter covers. |
| RaftCandidates.CoveredInEveryRunExactly | consensus/src/protocol.rs:173-181 | Candidates' counts are covered in every run if and only if there is at most one node. |
| RaftElection.OneVotePerTerm | consensus/src/protocol.rs:171-193 | In every run, a node gives out at most one vote per term, to itself or to one other. |
| RaftElection.LeaderHasMajority | consensus/src/protocol.rs:204-206 | Whoever becomes leader was a candidate of that term and has a majority of real voters. |
| RaftElection.ElectionSafety | consensus/src/protocol.rs:200-229 | In every run, each term has at most one step from candidate to leader, by at most one node. |
| RaftUpToDate.VotesExactly | consensus/src/protocol.rs:172-192 | A vote goes out exactly to a request of a later term whose sender's log is not older, by last term and then length, and who can be reached; nothing else is sent. |
| RaftUpToDate.VoteGoesOutExactly | consensus/src/protocol.rs:172-192 | In every run, a delivered vote request puts a vote into the sender's inbox if and only if it is of a later term, the receiver's log is no newer than the sender's was when it asked, and the sender can be reached. |
| RaftUpToDate.VotedForNoNewer | consensus/src/protocol.rs:172-192 | In every run, a ballot for another node was cast by a voter whose log was no newer than the candidate's when it started that election. |
| RaftUpToDate.ElectedIsUpToDate | consensus/src/protocol.rs:200-212 | In every run, whoever is elected has the votes of a majority, each its own or cast with a log no newer than its log when it takes office. |
| RaftLogMatching.LogMatching | consensus/src/protocol.rs:74-91 | In every run in which leaders step down, and in every run of at most two nodes, two logs with the same term at an index have the same entries up to and including it. |
| RaftLogMatching.LeaderAppendOnly | consensus/src/protocol.rs:255-265 | In these runs a leader stays leader as long as its term lasts, and its log only grows at the end. |
| RaftLogMatching.AcksInsideLeadersLog | consensus/src/protocol.rs:118-160 | In these runs every counted acknowledgement reaches a leader and lies inside its log, and no node ever panics. |
| RaftLogMatching.RequestVoteLog | consensus/src/protocol.rs:171-193 | A vote request keeps the node's part of the Log Matching invariant if and only if it does not leave a leader in office with a term it was not elected in. |
| RaftLogMatching.LeadersElectedExactly | consensus/src/protocol.rs:173-181 | In a run, every node in office holds a term it was elected in if and only if no vote request strands a leader. |
| RaftLogMatching.OneLeaderPerTerm | consensus/src/protocol.rs:171-229 | In these runs no two nodes are ever in office in the same term. |
| RaftCommit.CountedHaveHeld | consensus/src/protocol.rs:84-90 | In these runs, whoever a node counts for an index has at some time held exactly the node's log up to that index. |
| RaftCommit.CommitQuorum | consensus/src/protocol.rs:128-137 | In these runs, when an acknowledgement moves a leader's commit index, more than half of the nodes have at some time held exactly the entries then committed. |
| RaftUnheld.CountedHeldInEveryRunExactly | consensus/src/protocol.rs:118-127 | That whoever is counted for an index has held the log up to it is true in every run if and only if there are at most two nodes. |
| RaftUnheld.UnheldAmongThree | consensus/src/protocol.rs:128-137 | With three nodes, a run in which acknowledgements commit entries that no majority has ever held. |
| RaftUnheld.UnheldAmongMany | consensus/src/protocol.rs:128-137 | The same for every cluster of four or more nodes. |
| RaftUnheld.QuorumInEveryRunExactly | consensus/src/protocol.rs:128-137 | Every commit by acknowledgement has a majority behind it that held what is committed, in every run, if and only if there are at most two nodes. |
| RaftStranded.StrandedLeaderBreaksMatching | consensus/src/protocol.rs:173-181 | For every cluster of three or more nodes, a run that ends with two leaders in term 2 whose logs have different entries of that term at index 0. |
| RaftStranded.MatchingInEveryRunExactly | consensus/src/protocol.rs:171-193 | Log Matching holds in every run if and only if there are at most two nodes. |
| RaftStranded.OneLeaderInEveryRunExactly | consensus/src/protocol.rs:171-229 | No two nodes are ever in office in the same term, in every run, if and only if there are at most two nodes. |
| RaftCommands.ForwardSplits | consensus/src/protocol.rs:444-463 | Forwarding splits the pending commands into a prefix that leaves in order and a rest that stays in order. |
| RaftCommands.CommandConservation | consensus/src/protocol.rs:251-275 | In every run, each command was injected as often as it occurs in flight, in pending commands, and among the entries leaders created. |
| RaftApplication.AppliedExactlyOnce | consensus/src/protocol.rs:465-545 | In every run, on every node, the commit index equals the number of applied commands, and the book is their replay from empty. |
| RaftApplication.HandleCommits | consensus/src/protocol.rs:92-100 | Every handler run commits exactly so far: on a heartbeat up to the leader's commit index or the end of the own log, on an acknowledgement that completes a majority through its index, else nowhere; and the book is the replay of exactly the entries passed. |
| RaftApplication.CommitsExactly | consensus/src/protocol.rs:128-138 | In every run, a node that handles a message has then committed exactly that far, and no other step moves a commit index or touches a book. |
| RaftApplication.AppliedInLogOrder | consensus/src/protocol.rs:92-100 | The k-th applied command is the one at log index k when it is applied. |
| RaftApplication.CommittedNeverFalls | consensus/src/protocol.rs:128-138 | The commit index never falls, and what was applied stays a prefix of what is applied. |
| RaftApplication.NodeLedgerBalances | consensus/src/protocol.rs:465-545 | In every run, every node's book balances against the commands it has applied. |
| RaftApplication.NodeAccountBalances | consensus/src/protocol.rs:465-545 | In every run, every node's book has exactly the accounts that the commands it applied opened, each with what they brought in less what they took out. |
| CachedMpscTheorems.Delivery | mpsc_bounded_cached/src/lib.rs:239-291 | Under every interleaving, what was received from a producer, padding left out, is a prefix of what it sent. |
| CachedMpscTheorems.NothingIsLost | mpsc_bounded_cached/src/lib.rs:201-211 | Once all producers have gone and no pop is under way, every value sent was received or lies, once and in order, in the slots from `head` to `readable_till`. |
| CachedMpscTheorems.TruthfulDisconnect | mpsc_bounded_cached/src/lib.rs:80-95 | A receiver is told of a disconnect only when every producer has gone and everything each of them sent was received. |
| CachedMpscTheorems.TruthfulRefusal | mpsc_bounded_cached/src/lib.rs:249-256 | A send is refused only once the consumer has gone. |
| CachedMpscTheorems.FallbackNeverNeeded | mpsc_bounded_cached/src/lib.rs:88-94 | With no producer left nothing is reserved and no slice waits, so the consumer never merges. |
| CachedMpscTheorems.SliceTiling | mpsc_bounded_cached/src/lib.rs:144-198 | In every reachable state, held and filled slices are pairwise disjoint and cover exactly the stretch from `readable_till` to `tail`. |
| CachedMpscTheorems.NoMergeLeftBehind | mpsc_bounded_cached/src/lib.rs:174-198 | When no producer is in the merge loop, the lowest filled slice starts behind `readable_till`. |
| CachedMpscTheorems.SlotSafety | mpsc_bounded_cached/src/lib.rs:51-78 | No store ever hits an unread value, no load an unwritten slot, and all positions in use have slots of their own. |
| CachedMpscTheorems.StoresIntoOwnSlot | mpsc_bounded_cached/src/lib.rs:266-291 | The slot a producer is about to write is empty, its own, and shared with no position that is unread, being read or in another slice. |
| CachedMpscTheorems.LoadsInOrder | mpsc_bounded_cached/src/lib.rs:97-101 | The consumer loads what was written for the next position, in stream order. |
| CachedMpscTheorems.CountersStayInRange | mpsc_bounded_cached/src/lib.rs:152-191 | In every reachable state no counter is negative, so no subtraction wraps around, and `len` and `free` never exceed the capacity. |
| CachedMpscTheorems.CounterConservation | mpsc_bounded_cached/src/lib.rs:97-191 | With the tail lock free, `free` never exceeds `cap - (tail - head)`; with the merge lock free, `len` counts every pop not finished; and the counters share out the capacity exactly when no pop is under way either. |
| CachedMpscConsumer.Always | mpsc_bounded_cached/src/lib.rs:80-198 | The invariant that ties indices, counters, slices, buffers and slots to the history holds in every state of every run. |
| CachedMpscConsumer.DrainedWhenAlone | mpsc_bounded_cached/src/lib.rs:304-310 | Once every producer is gone, no slice waits, nothing is reserved and nobody merges. |
| CachedMpscInvariant.ProducerKeepsInv | mpsc_bounded_cached/src/lib.rs:239-310 | Every step of a producer, in sending, flushing, merging, cloning or dropping, keeps that invariant. |
| CachedMpscConsumer.ConsumerKeepsInv | mpsc_bounded_cached/src/lib.rs:80-102 | Every step of the consumer keeps that invariant. |
| CachedMpscCalls.UninterruptedSend | mpsc_bounded_cached/src/lib.rs:239-262 | A send that nobody interrupts collects the value in the producer's slice, or reserves one of 32 positions or as many as are free; a slice it fills is stored and handed over. With nothing free it goes round while the consumer is there, and is refused once it has gone. |
| CachedMpscCalls.UninterruptedFlush | mpsc_bounded_cached/src/lib.rs:266-291 | A flush that nobody interrupts leaves everything the producer has sent written, its slice handed over and its buffer empty. |
| CachedMpscCalls.UninterruptedDrop | mpsc_bounded_cached/src/lib.rs:305-310 | A drop that nobody interrupts does the same, and then counts one producer less. |
| CachedMpscCalls.UninterruptedReceive | mpsc_bounded_cached/src/lib.rs:317-323 | A receive that nobody interrupts pops the padding up to the first value that `len` counts and ends with that value; with none it reports the disconnect once no producer is left, and goes round until then. |
| CachedMpscCalls.ReceivesAccounted | mpsc_bounded_cached/src/lib.rs:317-323 | In every run, the receives begun are as many as the values popped, the receives ended by a disconnect, and the one still looking, if there is one; so no value is popped and thrown away. |
| CachedMpscCalls.HandsOutLastPopped | mpsc_bounded_cached/src/lib.rs:80-102 | In every run, the value a receive is about to hand out is the last one popped. |
| CachedMpscCalls.HandlesCounted | mpsc_bounded_cached/src/lib.rs:293-330 | In every run, every clone has added a producer, and the consumer counts as there until it is dropped. |
| CachedRing.NextPowerOfTwo | mpsc_bounded_cached/src/lib.rs:29-30 | The capacity is a power of two, not below the one asked for and less than twice as large. |
| CachedRing.RingBuffer.Load | mpsc_bounded_cached/src/lib.rs:51-53 | Masking a position reads the slot at its remainder by the capacity. |
| CachedRing.RingBuffer.StoreVals | mpsc_bounded_cached/src/lib.rs:55-78 | The copy in two pieces that wraps round leaves the ring as writing the values one by one does. |
| CachedRing.WrittenInPlace | mpsc_bounded_cached/src/lib.rs:55-78 | Writing one by one puts value i into the slot of position `pos + i` and leaves the slots of no value alone. |
| CachedRing.UninterruptedStore | mpsc_bounded_cached/src/lib.rs:266-291 | The store steps of the transition system, taken in a row, leave the ring as the copy does, and hand exactly that slice to the merge loop. |
| CachedRing.UninterruptedApply | mpsc_bounded_cached/src/lib.rs:144-171 | The reservation steps of the transition system, taken in a row, move the indices as applying for 32 slots does, give the granted slice to the producer, and release the lock. |
| CachedRing.RingBuffer.Apply | mpsc_bounded_cached/src/lib.rs:144-171 | Reserves as much as asked for or as much as there is, starting at the tail, and moves all three counters by just that; refuses only when nothing is free. |
| CachedRing.RingBuffer.MergeWithFilledSlices | mpsc_bounded_cached/src/lib.rs:174-198 | The merge loop ends, merges from the frontier on while the lowest slice starts there, and moves `len` and `reserved` by what the frontier moved. |
| CachedRing.MergedTile | mpsc_bounded_cached/src/lib.rs:174-198 | The slices merged cover exactly the stretch the frontier passed over, and the lowest slice left does not start at the frontier. |
| CachedRing.UninterruptedMerge | mpsc_bounded_cached/src/lib.rs:174-198 | The steps of the transition system from handing over a filled slice on, taken in a row, insert the slice, merge just what the merge loop merges, move the counters as it does and release the lock. |
| CachedRing.RingBuffer.Drop | mpsc_bounded_cached/src/lib.rs:201-211 | Dropping the ring drops the slots from `head` to `readable_till`, in order. |
| SpscCached.Delivery | spsc_bounded_cached/src/lib.rs:97-160 | Under every interleaving, what was received is a prefix of what was sent, at most `cap` values are outstanding, no store hits an unread value and no load an empty slot. |
| SpscCached.CachesConservative | spsc_bounded_cached/src/lib.rs:97-160 | The cached counts never exceed the true ones, an operation midway allowed for, and refreshing them never goes below zero. |
| SpscCached.ErrorsAreTruthful | spsc_bounded_cached/src/lib.rs:135-152 | A receiver is told of a disconnect only after the producer has gone and everything sent was received; a send is refused only after the consumer has gone. |
| SpscCached.FlagExactly | spsc_bounded_cached/src/lib.rs:120-124 | In every run, the flag both sides look at is up if and only if neither side has gone. |
| SpscCached.NothingIsLost | spsc_bounded_cached/src/lib.rs:60-68 | When both sides have gone, the slots from `head` to `tail` hold exactly what was sent and not received, in order. |
| SpscCached.StepKeepsInv | spsc_bounded_cached/src/lib.rs:97-160 | Every step of either side keeps the invariant that ties indices, caches, flag and slots to the history. |
| MpscBounded.RefinesQueue | mpsc_bounded/src/lib.rs:42-82 | Every step of every run is a move of a bounded FIFO queue: the value that goes in at the back is the one the storing producer sends, and the value that comes out at the front is the one popped. |
| MpscBounded.PoppedInLockOrder | mpsc_bounded/src/lib.rs:42-82 | The k-th value popped is the k-th stored under the lock, and `len` stays within the capacity. |
| MpscBounded.NoOverwriteWhilePopping | mpsc_bounded/src/lib.rs:78-81 | From the bump of `head` until the drop of `len`, no producer stores into the slot being read. |
| MpscBounded.ErrorsAreTruthful | mpsc_bounded/src/lib.rs:65-76 | A receiver is told of a disconnect only when all producers have gone and everything stored was popped; a send is refused only when the consumer has gone. |
| MpscBounded.NothingIsLost | mpsc_bounded/src/lib.rs:113-121 | When all handles have gone, the `len` slots from `head` on hold exactly what was stored and not popped, in order. |
| QueueRings.SpscChannel.Send | spsc_bounded_cached/src/lib.rs:97-117 | A send appends to the queue if the cache or, the consumer there, a second look finds room; with the cache used up and the consumer gone it is refused, room or not. |
| QueueRings.SpscChannel.Recv | spsc_bounded_cached/src/lib.rs:135-160 | A receive takes the front of the queue, and gives up only when the queue is empty and a side has gone. |
| QueueRings.MpscChannel.PushBack | mpsc_bounded/src/lib.rs:42-63 | A push appends to the queue unless it holds `cap` values. |
| QueueRings.MpscChannel.PopFront | mpsc_bounded/src/lib.rs:65-82 | A pop takes the front of the queue, and gives up only when it is empty and no producer is left. |
| SpscCalls.UninterruptedSend | spsc_bounded_cached/src/lib.rs:97-117 | The steps of a send that nobody interrupts have the outcome of the method and its effect on the queue; where the method reports that it waits, they lead back to where the loop began. |
| SpscCalls.UninterruptedRecv | spsc_bounded_cached/src/lib.rs:135-160 | The same for a receive. |
| SpscCalls.DropsSeen | spsc_bounded_cached/src/lib.rs:120-166 | In every run, a side has gone exactly if it was dropped, and the flag is up until a side is. |
| SpscCalls.DropIsNoticed | spsc_bounded_cached/src/lib.rs:135-152 | In every run, once the producer was dropped and everything received, an uninterrupted receive ends with a disconnect. |
| SpscCalls.LeaveIsNoticed | spsc_bounded_cached/src/lib.rs:97-117 | In every run, once the consumer was dropped and the room counted on is used up, an uninterrupted send is refused. |
| MpscCalls.HandlesCounted | mpsc_bounded/src/lib.rs:148-178 | In every run, the count of producers is one more for every clone and one less for every drop, and the consumer counts as there until it is dropped. |
| MpscCalls.UninterruptedPush | mpsc_bounded/src/lib.rs:42-63 | The same for a push, which also gives up the lock. |
| MpscCalls.UninterruptedPop | mpsc_bounded/src/lib.rs:65-82 | The same for a pop. |
| QueueRings.HoldsMore | spsc_bounded_cached/src/lib.rs:35-37 | Storing into the slot of the tail position appends to what the ring holds. |
| QueueRings.HoldsLess | spsc_bounded_cached/src/lib.rs:31-33 | Loading from the slot of the head position takes the front of what the ring holds. |
| IndirectBlocks.BoundIsLayoutSize | recovery/src/ext2.rs:170-177 | The bound the test asserts is the size of the whole layout. |
| IndirectBlocks.AgreesExceptInLastSubtree | recovery/src/ext2.rs:167-218 | For every fan-out and every block of the layout, the closed-form test agrees with the recursive layout if and only if the block is not one of the missed ones; its assertion fails exactly beyond the layout. |
| IndirectBlocks.MissedIsPointer | recovery/src/ext2.rs:204-217 | Every block the test misses is a pointer block that it takes for data. |
| FreeBlocks.FreeFromIsFilter | recovery/src/ext2.rs:285-290 | The filter lists, strictly ascending, exactly the blocks with a zero bit in a readable bitmap and below the block count. |
| FreeBlocks.BlockIter.constructor | recovery/src/ext2.rs:153-165 | The iterator starts behind index 0 of group 0. |
| FreeBlocks.BlockIter.Scan | recovery/src/ext2.rs:256-283 | The scan ends, and stops at the next free position or passes over none; one that set out from the leftover of a failed read still moves on. |
| FreeBlocks.BlockIter.Next | recovery/src/ext2.rs:249-291 | Each call yields the head of the filtered list and moves on to its tail, or ends with it, for good if all bitmaps are readable; any call yields a block further on. |
| Carving.Find | recovery/src/main.rs:56-61 | The first position from an offset on at which the pattern occurs, or none if it occurs nowhere behind. |
| Carving.GatherImage | recovery/src/main.rs:29-43 | The inner loop reads the next blocks, on and on, and makes of them what the carving function does whatever follows: the image, a failure, or nothing when they end inside the image. On track, they are the next of those listed, and the iterator has the rest. |
| Carving.CarveBlock | recovery/src/main.rs:16-45 | The same for the body of the outer loop, with the block it begins with. |
| RecoveryRoundTrip.FileRecovered | recovery/src/main.rs:14-46 | A JPEG laid out over free blocks with its pointer blocks in between, within the range of the test, is rebuilt byte for byte, whatever follows, if it begins at the start of its first block or ends in another. |
| RecoveryRoundTrip.FileRecoveredExactly | recovery/src/main.rs:21-43 | Where pointer blocks hold no end marker, a file is recovered if and only if it does not reach behind the last block tested, and begins at the start of its first block or does not end in it. |
| RecoveryRoundTrip.VolumeRecovered | recovery/src/main.rs:14-46 | Carving a volume of deleted files and blocks without header returns exactly the files, in order. |
| RecoveryRoundTrip.CarveAll | recovery/src/main.rs:14-46 | The outer loop returns what is carved out of the blocks delivered, run by run, images first found first: all blocks listed, and behind a run that ended inside an image, whose beginning is dropped, those of the next run. There are no others unless a bitmap cannot be read, and no block is read twice. |
| RecoveryRoundTrip.RecoverFiles | recovery/src/main.rs:8-46 | A recovery run on a volume whose free blocks hold deleted files and blocks without header returns exactly the files, in order; on any volume, what is carved out of the listed blocks, and only with an unreadable bitmap behind a cut image also what is carved out of blocks further on; and an error if the first bitmap cannot be read. |
| RecoveryRoundTrip.FirstRunFirst | recovery/src/main.rs:28-43 | The images in the listed blocks come first in the result, and they are all of it unless these blocks end inside an image and others follow. |
| RecoveryRoundTrip.SingleBlockExactlyAtStart | recovery/src/main.rs:56-61 | The position of the end marker counts from the header: an image inside one block is extracted exactly if and only if its header is at the start of the block. |

## Left out

- Raft Leader Completeness and State Machine Safety (section 5.4 of the Raft paper, extended version): the leader commits entries of earlier terms by counting acknowledgements, and acknowledgement sets survive a change of leadership, so they do not follow from this code.
- RaftLogMatching.LogMatching: with three or more nodes only for runs in which leaders step down, because the code breaks it otherwise; `RaftStranded` has the runs. The same holds for what is proved of these runs in RaftLogMatching and RaftCommit.
- RaftElection.VotesNeverExceedVoters: about nodes that voted for themselves in their current term, because the code breaks it for all other candidates; `RaftCandidates.CoveredExactly` says so.
- RaftCommit.CommitQuorum: about commits by acknowledgement only; what followers commit on a heartbeat is what their own log holds, which need not be what the leader committed.
- Ledger.LedgerConservation: only while all deposit amounts together fit a machine word, because beyond that additions wrap around; what a build with overflow checks does then (it stops) is not modelled.
- Terms, vote counts, log lengths and ring positions are unbounded numbers; their wrap-around after 2^64 steps is not modelled, except that index 0 has no predecessor.
- Connection setup (the accept message), timers, random timeouts, liveness, tracing and the log file of a node. The network daemon is a free choice of which sends fail.
- A handler run enqueues all its sends at once, so a message that overtakes the rest of a broadcast is not modelled.
- A node whose handler panics takes no further steps; what its thread's end does to others beyond failing sends is not modelled.
- RaftNodes.RaftNode.ExecuteAppendEntry: after a panic the state of the node is left open, as the thread has ended; the same holds for the other handlers.
- Weak memory ordering, pointer validity and uninitialised vectors: atomic operations are sequentially consistent steps, and a slot says whether it is written.
- A value is moved out of its slot by a load; destructors of values are not modelled.
- The transition systems of the channels (`CachedMpsc`, `SpscCached`, `MpscBounded`) are step functions on values, because a method cannot be interrupted half-way; the update in place of the same rings is in `CachedRing` and `QueueRings`.
- CachedRing.RingBuffer.StoreVals: a slice has at most `cap` values, as every reserved slice has; the copy of a longer one would leave the ring.
- QueueRings.SpscChannel.Send: where the loop would go round until another thread acts, the call reports that it waits; the same for the other calls there.
- RingBuffer::pop_front of the cached channel as one method: its loop waits for other threads, so it is only part of the transition system.
- CachedMpscTheorems.CountersStayInRange: `reserved` is bounded by the capacity only while no merge is under way; within a merge it can exceed it, because `len` is raised first.
- RingBuffer::len of the cached single-producer channel (it subtracts the tail from the head; nothing calls it).
- The uncached single-producer channel: its `full` compares a masked tail with an unmasked head, so its bound fails once the head reaches the capacity.
- The group chat: sockets, event loops and async plumbing.
- Reading the disk: superblock, descriptor table and block contents are given; every group's descriptor is read from the same place, which is not part of this model.
- RecoveryRoundTrip.CarveAll: which blocks are read behind an unreadable bitmap is left open, because the failed read leaves unspecified bytes for a bitmap; the same holds for RecoveryRoundTrip.RecoverFiles.
- RecoveryRoundTrip.RecoverFiles: says of the blocks read behind an unreadable bitmap only that they lie further on, in ascending order.
- RecoveryRoundTrip.VolumeRecovered: files that begin at the first header of their first block, have every end marker within one block, and are among those that `FileRecoveredExactly` says are recovered.
- Writing the recovered images to files.
