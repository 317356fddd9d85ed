/** The Raft node as a value: its state, its messages, and for every message handler (and the
    timeout branch) the state it leaves and the messages it sends. `RaftNode.dfy` proves the
    imperative node against these functions; the cluster runs on them. */
module RaftModel {
  import opened Options
  import opened Ledger

  type NodeId = nat

  datatype LogEntry = LogEntry(term: nat, command: Command)

  datatype EntryData = EntryData(index: nat, prevTerm: nat, term: nat, command: Command)

  datatype LogInfo = LogInfo(latestTerm: nat, len: nat)

  datatype Role = Candidate | Follower | Leader

  datatype Message =
    | ClientCommand(cmd: Command)
    | AppendEntry(from: NodeId, term: nat, committed: nat, entry: Option<EntryData>)
    | AppendEntryResponse(from: NodeId, term: nat, index: nat, success: bool)
    | RequestVote(from: NodeId, term: nat, latestLogInfo: LogInfo)
    | Vote(term: nat)

  /** `peers` holds the connections: its keys are the nodes this one is connected to, its
      values the entry that is pending for each of them. */
  datatype NodeState = NodeState(
    id: NodeId,
    role: Role,
    peers: map<NodeId, Option<EntryData>>,
    leader: Option<NodeId>,
    term: nat,
    votes: nat,
    log: seq<LogEntry>,
    acks: seq<set<NodeId>>,
    pendingCmds: seq<Command>,
    committed: nat,
    book: Book)

  /** What the network does to the sends of one handler run. A protocol message reaches
      exactly the peers in `reach`; of the client commands forwarded to the leader, the first
      `forwards` get through and the next one fails. */
  datatype Net = Net(reach: set<NodeId>, forwards: nat)

  /** The messages a handler got out, per receiver and in sending order. */
  type Outbox = map<NodeId, seq<Message>>

  function Sent(out: Outbox, p: NodeId): seq<Message> {
    if p in out then out[p] else []
  }

  function Post(out: Outbox, p: NodeId, ms: seq<Message>): Outbox {
    if ms == [] then out else out[p := Sent(out, p) + ms]
  }

  /** A handler either finishes or panics, which ends the node's thread. */
  datatype Outcome = Panic | Done(node: NodeState, out: Outbox)

  // ------------------------------------------------------------------------ observers

  function Min(a: nat, b: nat): nat { if a < b then a else b }

  function Latest(log: seq<LogEntry>): LogInfo {
    LogInfo(if log == [] then 0 else log[|log| - 1].term, |log|)
  }

  /** The derived lexicographic order. */
  predicate InfoAtMost(a: LogInfo, b: LogInfo) {
    a.latestTerm < b.latestTerm || (a.latestTerm == b.latestTerm && a.len <= b.len)
  }

  /** Index 0 has no predecessor (the wrapped index hits no entry), nor has an index that is
      more than one past the end. */
  function PrevEntryTerm(log: seq<LogEntry>, index: nat): nat {
    if 1 <= index <= |log| then log[index - 1].term else 0
  }

  function NewEntryData(log: seq<LogEntry>, index: nat): Option<EntryData> {
    if index < |log| then
      Some(EntryData(index, PrevEntryTerm(log, index), log[index].term, log[index].command))
    else
      None
  }

  /** The latest entry, if there is one: for an empty log the wrapped index finds nothing. */
  function LatestEntryData(log: seq<LogEntry>): Option<EntryData> {
    if log == [] then None else NewEntryData(log, |log| - 1)
  }

  function AppendEntryMsg(s: NodeState, entry: Option<EntryData>): Message {
    AppendEntry(s.id, s.term, s.committed, entry)
  }

  /** More than half of the cluster, which is this node and its peers. */
  predicate Majority(s: NodeState, count: nat) {
    count > (|s.peers| + 1) / 2
  }

  // ------------------------------------------------------------------------ helpers

  function Take<T>(s: seq<T>, n: nat): seq<T> {
    if n < |s| then s[..n] else s
  }

  function Push(s: NodeState, entry: LogEntry): NodeState {
    s.(log := s.log + [entry], acks := s.acks + [{s.id}])
  }

  function Truncate(s: NodeState, len: nat): NodeState {
    s.(log := Take(s.log, len), acks := Take(s.acks, len))
  }

  /** Applies and commits the log entries from `committed` up to, not including, `upTo`. */
  function CommitUpTo(s: NodeState, upTo: nat): NodeState
    requires upTo <= |s.log|
    decreases upTo - s.committed
  {
    if upTo <= s.committed then s
    else CommitUpTo(s.(book := Apply(s.book, s.log[s.committed].command), committed := s.committed + 1), upTo)
  }

  function Entries(term: nat, cmds: seq<Command>): seq<LogEntry> {
    seq(|cmds|, i requires 0 <= i < |cmds| => LogEntry(term, cmds[i]))
  }

  function DrainPending(s: NodeState): NodeState {
    s.(log := s.log + Entries(s.term, s.pendingCmds),
       acks := s.acks + seq(|s.pendingCmds|, _ => {s.id}),
       pendingCmds := [])
  }

  function AsMessages(cmds: seq<Command>): seq<Message> {
    seq(|cmds|, i requires 0 <= i < |cmds| => ClientCommand(cmds[i]))
  }

  /** Forwards the pending commands to the leader; what does not get through stays, in order. */
  function ForwardPending(s: NodeState, net: Net, out: Outbox): Outcome {
    if s.leader.None? || s.leader.value !in s.peers then Panic
    else
      var k := Min(net.forwards, |s.pendingCmds|);
      Done(s.(pendingCmds := s.pendingCmds[k..]), Post(out, s.leader.value, AsMessages(s.pendingCmds[..k])))
  }

  /** Sends every reachable peer an append-entry with the entry pending for it. */
  function Broadcast(s: NodeState, net: Net): Outbox {
    map p | p in s.peers && p in net.reach :: [AppendEntryMsg(s, s.peers[p])]
  }

  // ------------------------------------------------------------------------ handlers

  function OnAppendEntry(s: NodeState, m: Message, net: Net): Outcome
    requires m.AppendEntry?
  {
    if m.term < s.term then Done(s, map[])
    else
      var s1 := s.(role := Follower, term := m.term, leader := Some(m.from));
      if m.entry.Some? && m.from !in s.peers then Panic
      else
        var r := if m.entry.Some? then ReceiveEntry(s1, m, net) else FollowCommit(s1, m);
        if r.node.pendingCmds == [] then r else ForwardPending(r.node, net, r.out)
  }

  function ReceiveEntry(s: NodeState, m: Message, net: Net): (r: Outcome)
    requires m.AppendEntry? && m.entry.Some?
    ensures r.Done?
  {
    var entry := m.entry.value;
    var success := entry.prevTerm == PrevEntryTerm(s.log, entry.index);
    if m.from in net.reach then
      Done(if success then Push(Truncate(s, entry.index), LogEntry(entry.term, entry.command)) else s,
           map[m.from := [AppendEntryResponse(s.id, m.term, entry.index, success)]])
    else
      Done(s, map[])
  }

  function FollowCommit(s: NodeState, m: Message): (r: Outcome)
    requires m.AppendEntry?
    ensures r.Done?
  {
    Done(if m.committed > s.committed then CommitUpTo(s, Min(m.committed, |s.log|)) else s, map[])
  }

  function OnAppendEntryResponse(s: NodeState, m: Message, net: Net): Outcome
    requires m.AppendEntryResponse?
  {
    if s.term != m.term then Done(s, map[])
    else if m.success && s.committed <= m.index && (m.index >= |s.acks| || m.index >= |s.log|) then Panic
    else if !m.success && m.index == 0 then Panic
    else
      var s1 := if m.success && s.committed <= m.index then CountAck(s, m.from, m.index) else s;
      if m.from !in s.peers then Panic
      else
        var entry := NewEntryData(s1.log, if m.success then m.index + 1 else m.index - 1);
        Done(s1.(peers := s1.peers[m.from := entry]),
             if entry.Some? && m.from in net.reach then map[m.from := [AppendEntryMsg(s1, entry)]] else map[])
  }

  /** Records one acknowledgement and, once a majority has it, commits through the index. */
  function CountAck(s: NodeState, from: NodeId, index: nat): NodeState
    requires index < |s.acks| && index < |s.log|
  {
    var s1 := s.(acks := s.acks[index := s.acks[index] + {from}]);
    if Majority(s1, |s1.acks[index]|) then CommitUpTo(s1, index + 1) else s1
  }

  function OnRequestVote(s: NodeState, m: Message, net: Net): Outcome
    requires m.RequestVote?
  {
    if m.term <= s.term then Done(s, map[])
    else
      var s1 := s.(term := m.term);
      if !InfoAtMost(Latest(s.log), m.latestLogInfo) then Done(s1, map[])
      else if m.from !in s.peers then Panic
      else if m.from in net.reach then
        Done(s1.(role := Follower, leader := None), map[m.from := [Vote(m.term)]])
      else
        Done(s1, map[])
  }

  /** Whether this run of the vote-request handler gives out a vote. */
  predicate GrantsVote(s: NodeState, m: Message, net: Net) {
    && m.RequestVote? && s.term < m.term
    && InfoAtMost(Latest(s.log), m.latestLogInfo)
    && m.from in s.peers && m.from in net.reach
  }

  /** Whether this run of the vote handler wins the election. */
  predicate WinsElection(s: NodeState, m: Message) {
    m.Vote? && s.role.Candidate? && s.term == m.term && Majority(s, s.votes + 1)
  }

  function OnVote(s: NodeState, m: Message, net: Net): Outcome
    requires m.Vote?
  {
    if !s.role.Candidate? || s.term != m.term then Done(s, map[])
    else if WinsElection(s, m) then
      var entry := LatestEntryData(s.log);
      var s1 := DrainPending(s.(votes := s.votes + 1, role := Leader, leader := None,
                                peers := map p | p in s.peers :: entry));
      Done(s1, Broadcast(s1, net))
    else
      Done(s.(votes := s.votes + 1), map[])
  }

  function OnCommand(s: NodeState, m: Message, net: Net): Outcome
    requires m.ClientCommand?
  {
    if s.role.Leader? then
      var s1 := Push(s, LogEntry(s.term, m.cmd));
      var entry := NewEntryData(s1.log, |s1.log| - 1);
      Done(s1.(peers := map p | p in s.peers :: if s.peers[p].None? then entry else s.peers[p]),
           map p | p in s.peers && p in net.reach && s.peers[p].None? :: [AppendEntryMsg(s1, entry)])
    else
      var s1 := s.(pendingCmds := s.pendingCmds + [m.cmd]);
      if s1.leader.Some? then ForwardPending(s1, net, map[]) else Done(s1, map[])
  }

  function OnTimeout(s: NodeState, net: Net): (r: Outcome)
    ensures r.Done?
  {
    if s.role.Leader? then Done(s, Broadcast(s, net))
    else
      var s1 := s.(term := s.term + 1, leader := None, votes := 1, role := Candidate);
      Done(s1, map p | p in s.peers && p in net.reach :: [RequestVote(s.id, s1.term, Latest(s.log))])
  }

  /** The dispatch of one received message. */
  function Handle(s: NodeState, m: Message, net: Net): Outcome {
    match m
    case ClientCommand(_) => OnCommand(s, m, net)
    case AppendEntry(_, _, _, _) => OnAppendEntry(s, m, net)
    case AppendEntryResponse(_, _, _, _) => OnAppendEntryResponse(s, m, net)
    case RequestVote(_, _, _) => OnRequestVote(s, m, net)
    case Vote(_) => OnVote(s, m, net)
  }

  function InitialNode(id: NodeId, others: set<NodeId>): NodeState {
    NodeState(id, Follower, map p | p in others :: None, None, 0, 0, [], [], [], 0, map[])
  }
}
