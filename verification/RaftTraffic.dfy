/** What every handler run, and the timeout branch, changes and sends, told field by field and peer by
    peer: heartbeats and vote requests, a new leader's offers, answers, and forwarded commands. */
module RaftTraffic {
  import opened Options
  import opened Ledger
  import opened RaftModel
  import opened RaftCluster
  import opened RaftShape

  function LastTerm(log: seq<LogEntry>): nat {
    if |log| == 0 then 0 else log[|log| - 1].term
  }

  /** The entry of an index, as it is offered to a peer, if the log has it. */
  function EntryAt(log: seq<LogEntry>, k: nat): Option<EntryData> {
    if k < |log| then Some(EntryData(k, if k == 0 then 0 else log[k - 1].term, log[k].term, log[k].command)) else None
  }

  function LastEntry(log: seq<LogEntry>): Option<EntryData> {
    if |log| == 0 then None else EntryAt(log, |log| - 1)
  }

  predicate Reaches(s: NodeState, net: Net, p: NodeId) {
    p in s.peers && p in net.reach
  }

  /** A leader's timeout changes nothing and sends every peer it reaches one append-entry of its term,
      with its commit index and the entry pending for that peer. */
  lemma LeaderTimeoutSends(s: NodeState, net: Net, p: NodeId)
    requires s.role.Leader?
    ensures var o := OnTimeout(s, net);
            && o.node == s
            && Sent(o.out, p) == if Reaches(s, net, p) then [AppendEntry(s.id, s.term, s.committed, s.peers[p])] else []
  {
  }

  /** Any other node's timeout starts an election in a new term, with one vote, its own, and asks every
      peer it reaches. */
  lemma CandidateTimeoutSends(s: NodeState, net: Net, p: NodeId)
    requires !s.role.Leader?
    ensures var o := OnTimeout(s, net);
            && o.node == s.(role := Candidate, leader := None, term := s.term + 1, votes := 1)
            && Sent(o.out, p) == if Reaches(s, net, p)
                                 then [RequestVote(s.id, s.term + 1, LogInfo(LastTerm(s.log), |s.log|))] else []
  {
  }

  /** The vote that completes a majority makes a leader of a candidate: what was pending is logged in its
      term, in order; the entry that was last before is pending for every peer, and goes to those it
      reaches. */
  lemma WinSends(s: NodeState, term: nat, net: Net, p: NodeId)
    requires s.role.Candidate? && s.term == term && 2 * (s.votes + 1) > |s.peers| + 1
    ensures var o := OnVote(s, Vote(term), net);
            && o.Done? && o.node.role.Leader? && o.node.term == term && o.node.pendingCmds == []
            && s.log <= o.node.log && |o.node.log| == |s.log| + |s.pendingCmds|
            && (forall k :: 0 <= k < |s.pendingCmds| ==> o.node.log[|s.log| + k] == LogEntry(term, s.pendingCmds[k]))
            && s.acks <= o.node.acks && |o.node.acks| == |s.acks| + |s.pendingCmds|
            && (forall k :: |s.acks| <= k < |o.node.acks| ==> o.node.acks[k] == {s.id})
            && o.node.peers.Keys == s.peers.Keys && (p in s.peers ==> o.node.peers[p] == LastEntry(s.log))
            && Sent(o.out, p) == if Reaches(s, net, p)
                                 then [AppendEntry(s.id, term, s.committed, LastEntry(s.log))] else []
  {
  }

  /** Any other vote of a candidate's term is counted, and nothing is sent. */
  lemma VoteCounts(s: NodeState, term: nat, net: Net)
    requires s.role.Candidate? && s.term == term && 2 * (s.votes + 1) <= |s.peers| + 1
    ensures OnVote(s, Vote(term), net) == Done(s.(votes := s.votes + 1), map[])
  {
  }

  /** A vote for another term, or to a node that is no candidate, changes nothing. */
  lemma VoteIgnored(s: NodeState, term: nat, net: Net)
    requires !s.role.Candidate? || s.term != term
    ensures OnVote(s, Vote(term), net) == Done(s, map[])
  {
  }

  // ------------------------------------------------------------- append-entry and command

  /** Whether the log has the predecessor that an entry on offer names; index 0 has none. */
  predicate HasPredecessor(log: seq<LogEntry>, e: EntryData) {
    if 1 <= e.index <= |log| then log[e.index - 1].term == e.prevTerm else e.prevTerm == 0
  }

  /** How many of the pending commands get out to the leader. */
  function Forwarded(s: NodeState, net: Net): nat {
    if net.forwards < |s.pendingCmds| then net.forwards else |s.pendingCmds|
  }

  lemma ForwardedMessages(s: NodeState, net: Net, out: Outbox, p: NodeId)
    requires s.leader.Some? && s.leader.value in s.peers
    ensures var o, k := ForwardPending(s, net, out), Forwarded(s, net);
            && o.Done? && o.node == s.(pendingCmds := s.pendingCmds[k..])
            && Sent(o.out, p) == Sent(out, p) + if p == s.leader.value then AsMessages(s.pendingCmds[..k]) else []
  {
  }

  /** A stale append-entry is ignored altogether. */
  lemma StaleAppendEntry(s: NodeState, m: Message, net: Net)
    requires m.AppendEntry? && m.term < s.term
    ensures OnAppendEntry(s, m, net) == Done(s, map[])
  {
  }

  /** The entry is accepted only if the log has its predecessor and the answer gets out. */
  function LogAfter(s: NodeState, m: Message, net: Net): seq<LogEntry>
    requires m.AppendEntry?
  {
    match m.entry
    case Some(e) =>
      if HasPredecessor(s.log, e) && m.from in net.reach then
        (if e.index < |s.log| then s.log[..e.index] else s.log) + [LogEntry(e.term, e.command)]
      else s.log
    case None => s.log
  }

  function AnswerTo(s: NodeState, m: Message, net: Net): seq<Message>
    requires m.AppendEntry?
  {
    match m.entry
    case Some(e) =>
      if m.from in net.reach then [AppendEntryResponse(s.id, m.term, e.index, HasPredecessor(s.log, e))] else []
    case None => []
  }

  lemma FollowCommitOnly(s: NodeState, m: Message)
    requires m.AppendEntry?
    ensures var r := FollowCommit(s, m);
            r.node == s.(book := r.node.book, committed := r.node.committed) && r.out == map[]
  {
    CommitFrame(s, Min(m.committed, |s.log|));
  }

  /** What is done before anything is forwarded. */
  lemma Received(s: NodeState, m: Message, net: Net, p: NodeId)
    requires m.AppendEntry?
    ensures var r := if m.entry.Some? then ReceiveEntry(s, m, net) else FollowCommit(s, m);
            && r.node == s.(log := LogAfter(s, m, net), acks := r.node.acks,
                            book := r.node.book, committed := r.node.committed)
            && Sent(r.out, p) == if p == m.from then AnswerTo(s, m, net) else []
  {
    if m.entry.None? { FollowCommitOnly(s, m); }
  }

  /** An append-entry of the node's term or a later one makes it a follower of the sender. It takes the
      entry, if it can, and says whether it could; and it passes on to the sender, in order, as many of its
      pending commands as get through, and keeps the rest. */
  lemma AppendEntryEffect(s: NodeState, m: Message, net: Net, p: NodeId)
    requires m.AppendEntry? && s.term <= m.term && m.from in s.peers
    ensures var o, k := OnAppendEntry(s, m, net), Forwarded(s, net);
            && o.Done? && o.node.role.Follower? && o.node.term == m.term && o.node.leader == Some(m.from)
            && o.node.log == LogAfter(s, m, net) && o.node.pendingCmds == s.pendingCmds[k..]
            && o.node.id == s.id && o.node.peers == s.peers && o.node.votes == s.votes
            && Sent(o.out, p) == if p == m.from then AnswerTo(s, m, net) + AsMessages(s.pendingCmds[..k]) else []
  {
    var s1 := s.(role := Follower, term := m.term, leader := Some(m.from));
    var r := if m.entry.Some? then ReceiveEntry(s1, m, net) else FollowCommit(s1, m);
    Received(s1, m, net, p);
    if r.node.pendingCmds == [] {
      assert AsMessages(s.pendingCmds[..Forwarded(s, net)]) == [];
    } else {
      ForwardedMessages(r.node, net, r.out, p);
    }
  }

  /** A leader logs a command in its term, with itself as the only one to have it, and offers it to those
      that had nothing pending. */
  lemma LeaderCommandEffect(s: NodeState, cmd: Command, net: Net, p: NodeId)
    requires s.role.Leader?
    ensures var o := OnCommand(s, ClientCommand(cmd), net);
            && o.Done?
            && o.node == s.(log := s.log + [LogEntry(s.term, cmd)], acks := s.acks + [{s.id}], peers := o.node.peers)
            && o.node.peers.Keys == s.peers.Keys
            && (p in s.peers ==>
                  o.node.peers[p] == if s.peers[p].None? then LastEntry(o.node.log) else s.peers[p])
            && Sent(o.out, p) == if Reaches(s, net, p) && s.peers[p].None?
                                 then [AppendEntry(s.id, s.term, s.committed, LastEntry(o.node.log))] else []
  {
  }

  /** Any other node keeps the command behind those pending, and passes on what gets through, if it knows
      a leader. */
  lemma FollowerCommandEffect(s: NodeState, cmd: Command, net: Net, p: NodeId)
    requires !s.role.Leader? && (s.leader.Some? ==> s.leader.value in s.peers)
    ensures var o, s1 := OnCommand(s, ClientCommand(cmd), net), s.(pendingCmds := s.pendingCmds + [cmd]);
            var k := if s.leader.Some? then Forwarded(s1, net) else 0;
            && o.Done? && o.node == s.(pendingCmds := s1.pendingCmds[k..])
            && Sent(o.out, p) == if s.leader == Some(p) then AsMessages(s1.pendingCmds[..k]) else []
  {
    var s1 := s.(pendingCmds := s.pendingCmds + [cmd]);
    if s.leader.Some? { ForwardedMessages(s1, net, map[], p); }
  }

  // ------------------------------------------------------------------- acknowledgements

  /** An acknowledgement of the current term records its sender for the index, if that is a success not
      yet committed; and the entry behind it, or before it if it failed, becomes pending for the sender
      and is offered to it, if there is one. */
  lemma AcknowledgementEffect(s: NodeState, from: NodeId, index: nat, success: bool, net: Net, p: NodeId)
    requires from in s.peers && |s.acks| == |s.log| && (success ==> index < |s.log|) && (!success ==> index > 0)
    ensures var m := AppendEntryResponse(from, s.term, index, success);
            var o, entry := OnAppendEntryResponse(s, m, net), EntryAt(s.log, if success then index + 1 else index - 1);
            && o.Done?
            && o.node == s.(acks := o.node.acks, book := o.node.book, committed := o.node.committed,
                            peers := s.peers[from := entry])
            && o.node.acks == (if success && s.committed <= index then s.acks[index := s.acks[index] + {from}]
                               else s.acks)
            && Sent(o.out, p) == if p == from && entry.Some? && from in net.reach
                                 then [AppendEntry(s.id, s.term, o.node.committed, entry)] else []
  {
    var m := AppendEntryResponse(from, s.term, index, success);
    AnswerPanics(s, m, net);
    AnswerEffect(s, m, net);
    if success && s.committed <= index { CommitFrame(s.(acks := s.acks[index := s.acks[index] + {from}]), index + 1); }
  }

  /** One of another term changes nothing. */
  lemma StaleAcknowledgement(s: NodeState, m: Message, net: Net)
    requires m.AppendEntryResponse? && m.term != s.term
    ensures OnAppendEntryResponse(s, m, net) == Done(s, map[])
  {
  }

  // ------------------------------------------------------------------------ every run

  /** What a step by another node adds to a node's inbox. */
  lemma InboxGrows(c: Cluster, a: Action, q: NodeId)
    requires ShapeInv(c) && Enabled(c, a) && q < |c.nodes| && q != a.n && RunAt(c, a).Done?
    ensures q < |Step(c, a).inbox| && Step(c, a).inbox[q] == c.inbox[q] + Sent(RunAt(c, a).out, q)
  {
  }

  /** In every run, a timeout sends each of the other nodes that it reaches exactly one message: a
      heartbeat with the entry pending for it, if the node is in office, else a vote request for the
      next term with the term and the length of its log. */
  lemma TimeoutReachesPeers(r: Run, count: nat, i: nat, q: NodeId)
    requires IsRun(r, count) && i < |r.actions| && r.actions[i].Timeout? && q < count && q != r.actions[i].n
    ensures var a := r.actions[i];
            && a.n < count == |r.states[i].nodes| == |r.states[i].inbox| == |r.states[i + 1].inbox|
            && var s := r.states[i].nodes[a.n];
               && q in s.peers
               && r.states[i + 1].inbox[q] == r.states[i].inbox[q]
                    + if q !in a.net.reach then []
                      else if s.role.Leader? then [AppendEntry(a.n, s.term, s.committed, s.peers[q])]
                      else [RequestVote(a.n, s.term + 1, LogInfo(LastTerm(s.log), |s.log|))]
  {
    LogShape(r, count, i);
    LogShape(r, count, i + 1);
    assert StepOf(r, i);
    var c, a := r.states[i], r.actions[i];
    InboxGrows(c, a, q);
    assert NodeOk(c.nodes[a.n], a.n, count);
    if c.nodes[a.n].role.Leader? {
      LeaderTimeoutSends(c.nodes[a.n], a.net, q);
    } else {
      CandidateTimeoutSends(c.nodes[a.n], a.net, q);
    }
  }

  /** In every run, whoever completes a majority takes office, and at once offers the last entry it had
      to every other node it reaches. */
  lemma WinReachesPeers(r: Run, count: nat, i: nat, q: NodeId)
    requires IsRun(r, count) && i < |r.actions| && r.actions[i].Deliver? && Enabled(r.states[i], r.actions[i])
    requires var s := r.states[i].nodes[r.actions[i].n];
             && s.role.Candidate? && Head(r.states[i], r.actions[i]) == Vote(s.term)
             && 2 * (s.votes + 1) > count
    requires q < count && q != r.actions[i].n
    ensures var a, s := r.actions[i], r.states[i].nodes[r.actions[i].n];
            && a.n < count == |r.states[i + 1].nodes| == |r.states[i].inbox| == |r.states[i + 1].inbox|
            && r.states[i + 1].nodes[a.n].role.Leader? && r.states[i + 1].nodes[a.n].term == s.term
            && r.states[i + 1].inbox[q] == r.states[i].inbox[q]
                 + if q in a.net.reach then [AppendEntry(a.n, s.term, s.committed, LastEntry(s.log))] else []
  {
    LogShape(r, count, i);
    LogShape(r, count, i + 1);
    assert StepOf(r, i);
    var c, a := r.states[i], r.actions[i];
    var s := c.nodes[a.n];
    assert NodeOk(s, a.n, count) && |s.peers| == |s.peers.Keys| == count - 1;
    WinSends(s, s.term, a.net, q);
    InboxGrows(c, a, q);
  }
}
