/** What holds of every node and every message in every run: the wiring of a full membership,
    the shape of the logs, and exactly when a handler can panic. */
module RaftShape {
  import opened Options
  import opened Ledger
  import opened RaftModel
  import opened RaftCluster

  /** An entry on offer: its term is real and no later than the offering term, and it claims a
      predecessor (a non-zero previous term) exactly when it is not the first entry. */
  predicate EntryOk(e: EntryData, term: nat) {
    && 1 <= e.term <= term
    && e.prevTerm <= e.term
    && (e.index == 0 <==> e.prevTerm == 0)
  }

  predicate LogOk(log: seq<LogEntry>, term: nat) {
    && (forall k :: 0 <= k < |log| ==> 1 <= log[k].term <= term)
    && (forall j, k :: 0 <= j < k < |log| ==> log[j].term <= log[k].term)
  }

  predicate NodeOk(s: NodeState, i: NodeId, count: nat) {
    && s.id == i
    && s.peers.Keys == Others(i, count)
    && (s.leader.Some? ==> s.leader.value in s.peers)
    && |s.acks| == |s.log|
    && LogOk(s.log, s.term)
    && (forall p :: p in s.peers && s.peers[p].Some? ==> EntryOk(s.peers[p].value, s.term))
    && (!s.role.Follower? ==> s.term >= 1)
  }

  /** A message waiting at node `q`. A failed response is never about index 0, so stepping back
      to the previous index cannot underflow. */
  predicate MessageOk(m: Message, q: NodeId, count: nat) {
    match m
    case ClientCommand(_) => true
    case AppendEntry(from, term, _, entry) =>
      from < count && from != q && (entry.Some? ==> EntryOk(entry.value, term))
    case AppendEntryResponse(from, _, index, success) =>
      from < count && from != q && (!success ==> index >= 1)
    case RequestVote(from, term, _) => from < count && from != q && term >= 1
    case Vote(_) => true
  }

  ghost predicate ShapeInv(c: Cluster) {
    && WellFormed(c)
    && (forall i :: 0 <= i < |c.nodes| ==> NodeOk(c.nodes[i], i, |c.nodes|))
    && (forall q, m :: 0 <= q < |c.nodes| && m in c.inbox[q] ==> MessageOk(m, q, |c.nodes|))
  }

  ghost predicate OutboxOk(out: Outbox, i: NodeId, count: nat) {
    && out.Keys <= Others(i, count)
    && forall q, m :: q in out && m in out[q] ==> MessageOk(m, q, count)
  }

  lemma SingleMessageOk(p: NodeId, m: Message, i: NodeId, count: nat)
    requires p in Others(i, count) && MessageOk(m, p, count)
    ensures OutboxOk(map[p := [m]], i, count)
  {
  }

  // ------------------------------------------------------------------ one handler run

  lemma NewEntryDataOk(log: seq<LogEntry>, index: nat, term: nat)
    requires LogOk(log, term) && index < |log|
    ensures EntryOk(NewEntryData(log, index).value, term)
  {
  }

  /** Committing touches the book and the commit index only. */
  lemma {:induction false} CommitFrame(s: NodeState, upTo: nat)
    requires upTo <= |s.log|
    ensures var s' := CommitUpTo(s, upTo);
            && s' == s.(book := s'.book, committed := s'.committed)
            && s'.committed == if upTo <= s.committed then s.committed else upTo
    decreases upTo - s.committed
  {
    if s.committed < upTo {
      CommitFrame(s.(book := Apply(s.book, s.log[s.committed].command), committed := s.committed + 1), upTo);
    }
  }

  lemma ForwardOk(s: NodeState, net: Net, out: Outbox, i: NodeId, count: nat)
    requires NodeOk(s, i, count) && s.leader.Some? && OutboxOk(out, i, count)
    ensures var o := ForwardPending(s, net, out);
            o.Done? && NodeOk(o.node, i, count) && OutboxOk(o.out, i, count)
  {
    var k := Min(net.forwards, |s.pendingCmds|);
    var ms := AsMessages(s.pendingCmds[..k]);
    forall q, m | q in Post(out, s.leader.value, ms) && m in Post(out, s.leader.value, ms)[q]
      ensures MessageOk(m, q, count)
    {
      if q == s.leader.value && ms != [] {
        assert m in Sent(out, q) || m in ms;
      }
    }
  }

  /** An entry that passes the consistency check follows on directly: it lands at its own
      index, behind the entry it names as its predecessor. */
  lemma AcceptedInPlace(s: NodeState, e: EntryData, term: nat)
    requires |s.acks| == |s.log| && LogOk(s.log, s.term) && EntryOk(e, term)
    requires e.prevTerm == PrevEntryTerm(s.log, e.index)
    ensures e.index <= |s.log|
    ensures var s' := Push(Truncate(s, e.index), LogEntry(e.term, e.command));
            && s'.log == s.log[..e.index] + [LogEntry(e.term, e.command)]
            && |s'.acks| == |s'.log|
  {
  }

  /** What the append-entry handler does before it forwards anything. */
  lemma ReceiveEntryOk(s: NodeState, m: Message, net: Net, i: NodeId, count: nat)
    requires NodeOk(s, i, count) && m.AppendEntry? && m.entry.Some? && MessageOk(m, i, count) && i < count
    requires s.term == m.term
    ensures NodeOk(ReceiveEntry(s, m, net).node, i, count) && OutboxOk(ReceiveEntry(s, m, net).out, i, count)
    ensures ReceiveEntry(s, m, net).node.leader == s.leader
  {
    var e := m.entry.value;
    var success := e.prevTerm == PrevEntryTerm(s.log, e.index);
    if success { AcceptedInPlace(s, e, m.term); }
    SingleMessageOk(m.from, AppendEntryResponse(i, m.term, e.index, success), i, count);
  }

  lemma FollowCommitOk(s: NodeState, m: Message, i: NodeId, count: nat)
    requires NodeOk(s, i, count) && m.AppendEntry?
    ensures NodeOk(FollowCommit(s, m).node, i, count) && FollowCommit(s, m).out == map[]
    ensures FollowCommit(s, m).node.leader == s.leader
  {
    CommitFrame(s, Min(m.committed, |s.log|));
  }

  lemma AppendEntryOk(s: NodeState, m: Message, net: Net, i: NodeId, count: nat)
    requires NodeOk(s, i, count) && m.AppendEntry? && MessageOk(m, i, count) && i < count
    ensures var o := OnAppendEntry(s, m, net);
            o.Done? && NodeOk(o.node, i, count) && OutboxOk(o.out, i, count)
  {
    if s.term <= m.term {
      var s1 := s.(role := Follower, term := m.term, leader := Some(m.from));
      assert NodeOk(s1, i, count);
      var r := if m.entry.Some? then ReceiveEntry(s1, m, net) else FollowCommit(s1, m);
      if m.entry.Some? { ReceiveEntryOk(s1, m, net, i, count); } else { FollowCommitOk(s1, m, i, count); }
      assert NodeOk(r.node, i, count) && OutboxOk(r.out, i, count);
      if r.node.pendingCmds != [] {
        ForwardOk(r.node, net, r.out, i, count);
      }
    }
  }

  lemma CountAckFrame(s: NodeState, from: NodeId, index: nat)
    requires index < |s.acks| && index < |s.log|
    ensures var s' := CountAck(s, from, index);
            && s' == s.(acks := s'.acks, book := s'.book, committed := s'.committed)
            && |s'.acks| == |s.acks|
  {
    var s1 := s.(acks := s.acks[index := s.acks[index] + {from}]);
    CommitFrame(s1, index + 1);
  }

  /** The one way a handler can panic. */
  predicate AckBeyondLog(s: NodeState, m: Message) {
    m.AppendEntryResponse? && m.term == s.term && m.success && s.committed <= m.index && |s.log| <= m.index
  }

  /** The index a counted acknowledgement makes the leader offer next. */
  function NextIndex(m: Message): nat
    requires m.AppendEntryResponse? && (m.success || m.index > 0)
  {
    if m.success then m.index + 1 else m.index - 1
  }

  /** What an acknowledgement of the current term does besides counting: the next entry becomes
      pending for its sender, and is offered if there is one. */
  lemma AnswerEffect(s: NodeState, m: Message, net: Net)
    requires m.AppendEntryResponse? && OnAppendEntryResponse(s, m, net).Done? && s.term == m.term
    ensures (m.success || m.index > 0) && m.from in s.peers
    ensures var o, entry := OnAppendEntryResponse(s, m, net), NewEntryData(s.log, NextIndex(m));
            && o.node == s.(acks := o.node.acks, book := o.node.book, committed := o.node.committed,
                            peers := s.peers[m.from := entry])
            && |o.node.acks| == |s.acks|
            && o.out == if entry.Some? && m.from in net.reach
                        then map[m.from := [AppendEntry(s.id, s.term, o.node.committed, entry)]] else map[]
  {
    if m.success && s.committed <= m.index { CountAckFrame(s, m.from, m.index); }
  }

  lemma AnswerPanics(s: NodeState, m: Message, net: Net)
    requires m.AppendEntryResponse? && m.from in s.peers && (!m.success ==> m.index >= 1) && |s.acks| == |s.log|
    ensures OnAppendEntryResponse(s, m, net).Panic? == AckBeyondLog(s, m)
  {
  }

  lemma AppendEntryResponseOk(s: NodeState, m: Message, net: Net, i: NodeId, count: nat)
    requires NodeOk(s, i, count) && m.AppendEntryResponse? && MessageOk(m, i, count) && i < count
    ensures var o := OnAppendEntryResponse(s, m, net);
            && o.Panic? == AckBeyondLog(s, m)
            && (o.Done? ==> NodeOk(o.node, i, count) && OutboxOk(o.out, i, count))
  {
    AnswerPanics(s, m, net);
    if s.term == m.term && !AckBeyondLog(s, m) {
      AnswerEffect(s, m, net);
      var o, next := OnAppendEntryResponse(s, m, net), NextIndex(m);
      if next < |s.log| {
        NewEntryDataOk(s.log, next, s.term);
        SingleMessageOk(m.from, AppendEntry(s.id, s.term, o.node.committed, NewEntryData(s.log, next)), i, count);
      }
      assert o.node.peers.Keys == s.peers.Keys;
    }
  }

  lemma BroadcastOk(s: NodeState, net: Net, i: NodeId, count: nat)
    requires NodeOk(s, i, count) && i < count
    ensures OutboxOk(Broadcast(s, net), i, count)
  {
  }

  lemma WinOk(s: NodeState, m: Message, net: Net, i: NodeId, count: nat)
    requires NodeOk(s, i, count) && m.Vote? && i < count && WinsElection(s, m)
    ensures NodeOk(OnVote(s, m, net).node, i, count)
  {
    if s.log != [] { NewEntryDataOk(s.log, |s.log| - 1, s.term); }
  }

  lemma VoteOk(s: NodeState, m: Message, net: Net, i: NodeId, count: nat)
    requires NodeOk(s, i, count) && m.Vote? && i < count
    ensures var o := OnVote(s, m, net);
            o.Done? && NodeOk(o.node, i, count) && OutboxOk(o.out, i, count)
  {
    if WinsElection(s, m) {
      WinOk(s, m, net, i, count);
      BroadcastOk(OnVote(s, m, net).node, net, i, count);
    }
  }

  lemma CommandOk(s: NodeState, m: Message, net: Net, i: NodeId, count: nat)
    requires NodeOk(s, i, count) && m.ClientCommand? && i < count
    ensures var o := OnCommand(s, m, net);
            o.Done? && NodeOk(o.node, i, count) && OutboxOk(o.out, i, count)
  {
    if s.role.Leader? {
      var s1 := Push(s, LogEntry(s.term, m.cmd));
      NewEntryDataOk(s1.log, |s1.log| - 1, s.term);
    } else if s.leader.Some? {
      ForwardOk(s.(pendingCmds := s.pendingCmds + [m.cmd]), net, map[], i, count);
    }
  }

  lemma RequestVoteOk(s: NodeState, m: Message, net: Net, i: NodeId, count: nat)
    requires NodeOk(s, i, count) && m.RequestVote? && MessageOk(m, i, count) && i < count
    ensures var o := OnRequestVote(s, m, net);
            o.Done? && NodeOk(o.node, i, count) && OutboxOk(o.out, i, count)
  {
    if s.term < m.term {
      LaterTermOk(s, m.term, i, count);
      SingleMessageOk(m.from, Vote(m.term), i, count);
    }
  }

  lemma LaterTermOk(s: NodeState, term: nat, i: NodeId, count: nat)
    requires NodeOk(s, i, count) && s.term <= term
    ensures NodeOk(s.(term := term), i, count)
  {
  }

  lemma HandleOk(s: NodeState, m: Message, net: Net, i: NodeId, count: nat)
    requires NodeOk(s, i, count) && MessageOk(m, i, count) && i < count
    ensures var o := Handle(s, m, net);
            && o.Panic? == AckBeyondLog(s, m)
            && (o.Done? ==> NodeOk(o.node, i, count) && OutboxOk(o.out, i, count))
  {
    match m
    case ClientCommand(_) => CommandOk(s, m, net, i, count);
    case AppendEntry(_, _, _, _) => AppendEntryOk(s, m, net, i, count);
    case AppendEntryResponse(_, _, _, _) => AppendEntryResponseOk(s, m, net, i, count);
    case RequestVote(_, _, _) => RequestVoteOk(s, m, net, i, count);
    case Vote(_) => VoteOk(s, m, net, i, count);
  }

  lemma RunAtOk(c: Cluster, a: Action)
    requires ShapeInv(c) && Enabled(c, a)
    ensures var o := RunAt(c, a);
            && o.Panic? == (a.Deliver? && AckBeyondLog(c.nodes[a.n], c.inbox[a.n][0]))
            && (o.Done? ==> NodeOk(o.node, a.n, |c.nodes|) && OutboxOk(o.out, a.n, |c.nodes|))
  {
    match a
    case Inject(n, _) =>
    case Deliver(n, net) => HandleOk(c.nodes[n], c.inbox[n][0], net, n, |c.nodes|);
    case Timeout(n, net) =>
      if c.nodes[n].role.Leader? { BroadcastOk(c.nodes[n], net, n, |c.nodes|); }
  }

  // ------------------------------------------------------------------------ every run

  lemma StepKeepsShape(c: Cluster, a: Action)
    requires ShapeInv(c) && Enabled(c, a)
    ensures ShapeInv(Step(c, a))
  {
    RunAtOk(c, a);
    StepFrame(c, a);
    var c' := Step(c, a);
    forall q, m | 0 <= q < |c'.nodes| && m in c'.inbox[q] ensures MessageOk(m, q, |c'.nodes|) {
      MessageOrigin(c, a, q, m);
    }
  }

  lemma InitShape(count: nat)
    ensures ShapeInv(Init(count)) && |Init(count).nodes| == count
  {
    var c := Init(count);
    forall i | 0 <= i < count ensures NodeOk(c.nodes[i], i, count) {
      assert c.nodes[i] == InitialNode(i, Others(i, count));
    }
  }

  /** In every run, terms in every log never decrease and lie between 1 and the node's term,
      log and acknowledgement sets run in parallel, and all entries on offer are in shape. */
  lemma {:induction false} LogShape(r: Run, count: nat, i: nat)
    requires IsRun(r, count) && i < |r.states|
    ensures ShapeInv(r.states[i]) && |r.states[i].nodes| == count
  {
    if i == 0 {
      InitShape(count);
    } else {
      LogShape(r, count, i - 1);
      assert StepOf(r, i - 1);
      StepFrame(r.states[i - 1], r.actions[i - 1]);
      StepKeepsShape(r.states[i - 1], r.actions[i - 1]);
    }
  }

  /** In every run, a node panics exactly when a counted acknowledgement points past its log. */
  lemma PanicsExactlyBeyondLog(r: Run, count: nat, i: nat)
    requires IsRun(r, count) && i < |r.actions|
    ensures WellFormed(r.states[i]) && Enabled(r.states[i], r.actions[i])
    ensures var c, a := r.states[i], r.actions[i];
            (a.n !in r.states[i + 1].alive) <==> (a.Deliver? && AckBeyondLog(c.nodes[a.n], Head(c, a)))
  {
    LogShape(r, count, i);
    assert StepOf(r, i);
    RunAtOk(r.states[i], r.actions[i]);
  }

  /** In every run, an entry a follower accepts lands at exactly its index, with no gap before
      it and nothing after it. */
  lemma AcceptedEntryLandsInPlace(r: Run, count: nat, i: nat)
    requires IsRun(r, count) && i < |r.actions| && r.actions[i].Deliver?
    requires Enabled(r.states[i], r.actions[i])
    requires var s, m := r.states[i].nodes[r.actions[i].n], Head(r.states[i], r.actions[i]);
             && m.AppendEntry? && m.entry.Some? && s.term <= m.term && m.from in r.actions[i].net.reach
             && m.entry.value.prevTerm == PrevEntryTerm(s.log, m.entry.value.index)
    ensures var s, e := r.states[i].nodes[r.actions[i].n], Head(r.states[i], r.actions[i]).entry.value;
            && r.actions[i].n < |r.states[i + 1].nodes|
            && e.index <= |s.log|
            && r.states[i + 1].nodes[r.actions[i].n].log == s.log[..e.index] + [LogEntry(e.term, e.command)]
  {
    LogShape(r, count, i);
    LogShape(r, count, i + 1);
    assert StepOf(r, i);
    var c, a := r.states[i], r.actions[i];
    var s, m := c.nodes[a.n], Head(c, a);
    HandleOk(s, m, a.net, a.n, count);
    var s1 := s.(role := Follower, term := m.term, leader := Some(m.from));
    AcceptedInPlace(s1, m.entry.value, m.term);
  }
}
