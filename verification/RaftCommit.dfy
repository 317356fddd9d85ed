/** What stands behind a leader's commit. Beside the run we keep who has ever held which prefix of
    a log. In orderly runs every acknowledgement a node counts comes from a node that has held the
    very prefix it stands for, so whatever a leader commits has been held by a majority. */
module RaftCommit {
  import opened Options
  import opened RaftModel
  import opened RaftCluster
  import opened RaftShape
  import opened RaftElection
  import opened RaftLogMatching

  /** Who has held which prefix. */
  type Holdings = set<(NodeId, seq<LogEntry>)>

  function Prefixes(n: NodeId, log: seq<LogEntry>): Holdings {
    set k: nat | k <= |log| :: (n, log[..k])
  }

  function Witness(h: Holdings, c: Cluster, a: Action): Holdings
    requires Enabled(c, a)
  {
    if RunAt(c, a).Done? then h + Prefixes(a.n, RunAt(c, a).node.log) else h
  }

  ghost function HeldAt(r: Run, count: nat, i: nat): Holdings
    requires IsRun(r, count) && i < |r.states|
  {
    if i == 0 then {}
    else
      assert StepOf(r, i - 1);
      Witness(HeldAt(r, count, i - 1), r.states[i - 1], r.actions[i - 1])
  }

  /** Node `n` has held `prefix` at some state up to the `i`-th: its log began with it. */
  ghost predicate EverHeld(r: Run, count: nat, i: nat, n: NodeId, prefix: seq<LogEntry>)
    requires IsRun(r, count) && i < |r.states|
  {
    exists j: nat :: j <= i && HoldsIn(r.states[j], n, prefix)
  }

  predicate HoldsIn(c: Cluster, n: NodeId, prefix: seq<LogEntry>) {
    n < |c.nodes| && prefix <= c.nodes[n].log
  }

  lemma {:induction false} HeldIsTrue(r: Run, count: nat, i: nat, n: NodeId, prefix: seq<LogEntry>)
    requires IsRun(r, count) && i < |r.states| && (n, prefix) in HeldAt(r, count, i)
    ensures EverHeld(r, count, i, n, prefix)
  {
    if (n, prefix) in HeldAt(r, count, i - 1) {
      HeldIsTrue(r, count, i - 1, n, prefix);
      var j: nat :| j <= i - 1 && HoldsIn(r.states[j], n, prefix);
      assert j <= i && HoldsIn(r.states[j], n, prefix);
    } else {
      assert StepOf(r, i - 1);
      assert HoldsIn(r.states[i], n, prefix);
    }
  }

  // --------------------------------------------------------------------- the invariant

  /** Whoever a node counts for an index has held its log up to it. */
  predicate AcksHeld(s: NodeState, h: Holdings) {
    && |s.acks| == |s.log|
    && forall k, p :: 0 <= k < |s.log| && p in s.acks[k] ==> (p, s.log[..k + 1]) in h
  }

  /** Whoever acknowledges an index has held the leader's log up to it. */
  predicate AnswerHeld(m: Message, g: Reigns, h: Holdings) {
    m.AppendEntryResponse? && m.success ==>
      m.term in g && m.index < |g[m.term].log| && (m.from, g[m.term].log[..m.index + 1]) in h
  }

  ghost predicate HeldInv(c: Cluster, g: Reigns, h: Holdings) {
    && (forall i :: 0 <= i < |c.nodes| ==> AcksHeld(c.nodes[i], h))
    && (forall q, m :: 0 <= q < |c.inbox| && m in c.inbox[q] ==> AnswerHeld(m, g, h))
  }

  lemma AnswerStable(m: Message, g: Reigns, g': Reigns, h: Holdings, h': Holdings)
    requires AnswerHeld(m, g, h) && Extends(g, g') && h <= h'
    ensures AnswerHeld(m, g', h')
  {
    if m.AppendEntryResponse? && m.success { PrefixCut(g[m.term].log, g'[m.term].log, m.index + 1); }
  }

  // ------------------------------------------------------------------ one handler run

  /** A log that keeps the old entries' acknowledgements, and adds entries counted for oneself. */
  lemma GrownHeld(s: NodeState, s': NodeState, keep: nat, h: Holdings)
    requires AcksHeld(s, h) && keep <= |s.log| && keep <= |s'.log| == |s'.acks|
    requires s'.log[..keep] == s.log[..keep] && s'.acks[..keep] == s.acks[..keep]
    requires forall k :: keep <= k < |s'.log| ==> s'.acks[k] == {s.id}
    ensures AcksHeld(s', h + Prefixes(s.id, s'.log))
  {
    forall k, p | 0 <= k < |s'.log| && p in s'.acks[k] ensures (p, s'.log[..k + 1]) in h + Prefixes(s.id, s'.log) {
      if k < keep {
        assert s'.acks[k] == s'.acks[..keep][k] == s.acks[k];
        assert s'.log[..k + 1] == s'.log[..keep][..k + 1] == s.log[..k + 1];
      }
    }
  }

  /** An accepted entry completes the very prefix that the offering leader has. */
  lemma AcceptedIsLeaders(log: seq<LogEntry>, e: EntryData, term: nat, g: Reigns)
    requires Chained(log, g) && Offered(e, term, g) && e.index <= |log|
    requires Chained(g[e.term].log, g) && Chained(g[term].log, g)
    requires e.prevTerm == PrevEntryTerm(log, e.index)
    ensures log[..e.index] + [LogEntry(e.term, e.command)] == g[term].log[..e.index + 1]
  {
    var log' := log[..e.index] + [LogEntry(e.term, e.command)];
    AcceptChained(log, e, term, g);
    assert log'[..e.index + 1] == log';
    ChainedLogsMatch(log', g[term].log, g, e.index);
  }

  lemma AppendEntryHeld(s: NodeState, m: Message, net: Net, i: NodeId, count: nat, g: Reigns, h: Holdings)
    requires NodeOk(s, i, count) && m.AppendEntry? && MessageOk(m, i, count) && i < count
    requires NodeLog(s, i, g) && MessageLog(m, i, g) && forall t :: t in g ==> Chained(g[t].log, g)
    requires AcksHeld(s, h) && OnAppendEntry(s, m, net).Done?
    ensures var o := OnAppendEntry(s, m, net);
            var h' := h + Prefixes(i, o.node.log);
            AcksHeld(o.node, h') && forall q, x :: q in o.out && x in o.out[q] ==> AnswerHeld(x, g, h')
  {
    var o := OnAppendEntry(s, m, net);
    var s1 := s.(role := Follower, term := m.term, leader := Some(m.from));
    if s.term > m.term {
      GrownHeld(s, o.node, |s.log|, h);
    } else if m.entry.Some? {
      ReceivedHeld(s1, m, net, i, g, h);
      ForwardedAnswers(ReceiveEntry(s1, m, net), net, g, h + Prefixes(i, ReceiveEntry(s1, m, net).node.log));
    } else {
      CommitFrame(s1, Min(m.committed, |s1.log|));
      GrownHeld(s, FollowCommit(s1, m).node, |s.log|, h);
      ForwardedAnswers(FollowCommit(s1, m), net, g, h + Prefixes(i, s.log));
    }
  }

  lemma ReceivedHeld(s: NodeState, m: Message, net: Net, i: NodeId, g: Reigns, h: Holdings)
    requires s.id == i && m.AppendEntry? && m.entry.Some? && LogOk(s.log, s.term) && EntryOk(m.entry.value, m.term)
    requires Chained(s.log, g) && Offered(m.entry.value, m.term, g) && forall t :: t in g ==> Chained(g[t].log, g)
    requires AcksHeld(s, h)
    ensures var r := ReceiveEntry(s, m, net);
            var h' := h + Prefixes(i, r.node.log);
            AcksHeld(r.node, h') && forall q, x :: q in r.out && x in r.out[q] ==> AnswerHeld(x, g, h')
  {
    var e, r := m.entry.value, ReceiveEntry(s, m, net);
    if e.prevTerm == PrevEntryTerm(s.log, e.index) && m.from in net.reach {
      AcceptedInPlace(s, e, m.term);
      AcceptedIsLeaders(s.log, e, m.term, g);
      assert r.node.log[..|r.node.log|] == r.node.log == g[m.term].log[..e.index + 1];
      GrownHeld(s, r.node, e.index, h);
    } else {
      GrownHeld(s, r.node, |s.log|, h);
    }
  }

  /** Forwarding commands changes no log and sends no answers. */
  lemma ForwardedAnswers(r: Outcome, net: Net, g: Reigns, h: Holdings)
    requires r.Done? && AcksHeld(r.node, h) && forall q, x :: q in r.out && x in r.out[q] ==> AnswerHeld(x, g, h)
    ensures var o := ForwardPending(r.node, net, r.out);
            o.Done? ==>
              && o.node.log == r.node.log && AcksHeld(o.node, h)
              && forall q, x :: q in o.out && x in o.out[q] ==> AnswerHeld(x, g, h)
  {
    var s := r.node;
    if s.leader.Some? && s.leader.value in s.peers {
      var l, ms := s.leader.value, AsMessages(s.pendingCmds[..Min(net.forwards, |s.pendingCmds|)]);
      forall q, x | q in Post(r.out, l, ms) && x in Post(r.out, l, ms)[q] ensures AnswerHeld(x, g, h) {
        if q == l && ms != [] { assert x in Sent(r.out, q) || x in ms; }
      }
    }
  }

  lemma AnswerCountedHeld(s: NodeState, m: Message, net: Net, i: NodeId, g: Reigns, h: Holdings)
    requires s.id == i && m.AppendEntryResponse? && OnAppendEntryResponse(s, m, net).Done?
    requires NodeLog(s, i, g) && MessageLog(m, i, g) && AcksHeld(s, h) && AnswerHeld(m, g, h)
    ensures var o := OnAppendEntryResponse(s, m, net);
            && o.node.log == s.log && AcksHeld(o.node, h)
            && forall q, x :: q in o.out && x in o.out[q] ==> AnswerHeld(x, g, h)
  {
    if s.term == m.term && m.success && s.committed <= m.index {
      CountAckFrame(s, m.from, m.index);
      var s1 := s.(acks := s.acks[m.index := s.acks[m.index] + {m.from}]);
      CommitFrame(s1, m.index + 1);
      assert CountAck(s, m.from, m.index).acks == s1.acks;
      assert AcksHeld(s1, h);
    }
  }

  /** The log and the acknowledgement sets grow, if at all, by entries counted for oneself. */
  predicate Grows(s: NodeState, s': NodeState) {
    && s.id == s'.id && s.log <= s'.log && s.acks <= s'.acks && |s'.acks| == |s'.log|
    && forall k :: |s.acks| <= k < |s'.acks| ==> s'.acks[k] == {s.id}
  }

  lemma CommandGrows(s: NodeState, m: Message, net: Net)
    requires m.ClientCommand? && OnCommand(s, m, net).Done? && |s.acks| == |s.log|
    ensures Grows(s, OnCommand(s, m, net).node)
    ensures forall q, x :: q in OnCommand(s, m, net).out && x in OnCommand(s, m, net).out[q] ==> !x.AppendEntryResponse?
  {
    if !s.role.Leader? { OnlyCommands(s.(pendingCmds := s.pendingCmds + [m.cmd]), net); }
  }

  lemma VoteGrows(s: NodeState, m: Message, net: Net)
    requires m.Vote? && |s.acks| == |s.log|
    ensures Grows(s, OnVote(s, m, net).node)
    ensures forall q, x :: q in OnVote(s, m, net).out && x in OnVote(s, m, net).out[q] ==> !x.AppendEntryResponse?
  {
  }

  lemma RequestVoteGrows(s: NodeState, m: Message, net: Net)
    requires m.RequestVote? && OnRequestVote(s, m, net).Done? && |s.acks| == |s.log|
    ensures Grows(s, OnRequestVote(s, m, net).node)
    ensures forall q, x :: q in OnRequestVote(s, m, net).out && x in OnRequestVote(s, m, net).out[q] ==>
              !x.AppendEntryResponse?
  {
  }

  lemma OwnEntriesHeld(s: NodeState, m: Message, net: Net, i: NodeId, h: Holdings)
    requires s.id == i && (m.ClientCommand? || m.Vote? || m.RequestVote?) && Handle(s, m, net).Done? && AcksHeld(s, h)
    ensures var o := Handle(s, m, net);
            && AcksHeld(o.node, h + Prefixes(i, o.node.log))
            && forall q, x :: q in o.out && x in o.out[q] ==> !x.AppendEntryResponse?
  {
    match m {
      case ClientCommand(_) => CommandGrows(s, m, net);
      case Vote(_) => VoteGrows(s, m, net);
      case RequestVote(_, _, _) => RequestVoteGrows(s, m, net);
      case _ =>
    }
    GrownHeld(s, Handle(s, m, net).node, |s.log|, h);
  }

  lemma OnlyCommands(s: NodeState, net: Net)
    ensures var o := ForwardPending(s, net, map[]);
            o.Done? ==> forall q, x :: q in o.out && x in o.out[q] ==> x.ClientCommand?
  {
  }

  lemma HandleHeld(s: NodeState, m: Message, net: Net, i: NodeId, count: nat, g: Reigns, h: Holdings)
    requires NodeOk(s, i, count) && MessageOk(m, i, count) && i < count && Handle(s, m, net).Done?
    requires NodeLog(s, i, g) && MessageLog(m, i, g) && forall t :: t in g ==> Chained(g[t].log, g)
    requires AcksHeld(s, h) && AnswerHeld(m, g, h)
    ensures var o := Handle(s, m, net);
            var h' := h + Prefixes(i, o.node.log);
            AcksHeld(o.node, h') && forall q, x :: q in o.out && x in o.out[q] ==> AnswerHeld(x, g, h')
  {
    match m
    case AppendEntry(_, _, _, _) => AppendEntryHeld(s, m, net, i, count, g, h);
    case AppendEntryResponse(_, _, _, _) => AnswerCountedHeld(s, m, net, i, g, h);
    case _ => OwnEntriesHeld(s, m, net, i, h);
  }

  // ------------------------------------------------------------------------ every run

  lemma RunAtHeld(c: Cluster, a: Action, b: Ballots, g: Reigns, h: Holdings)
    requires MatchingInv(c, b, g) && Enabled(c, a) && Tame(c, a) && HeldInv(c, g, h)
    ensures var o := RunAt(c, a);
            && o.Done?
            && AcksHeld(o.node, Witness(h, c, a))
            && forall q, x :: q in o.out && x in o.out[q] ==> AnswerHeld(x, g, Witness(h, c, a))
  {
    StepLog(c, a, b, g);
    var s := c.nodes[a.n];
    assert AcksHeld(s, h) && NodeLog(s, a.n, g) && NodeOk(s, a.n, |c.nodes|);
    if a.Deliver? {
      var m := Head(c, a);
      assert m in c.inbox[a.n];
      HandleHeld(s, m, a.net, a.n, |c.nodes|, g, h);
    } else {
      assert RunAt(c, a).node.log == s.log && RunAt(c, a).node.acks == s.acks;
    }
  }

  lemma StepKeepsHeld(c: Cluster, a: Action, b: Ballots, g: Reigns, h: Holdings)
    requires MatchingInv(c, b, g) && Enabled(c, a) && Tame(c, a) && HeldInv(c, g, h)
    ensures HeldInv(Step(c, a), Chronicle(g, c, a), Witness(h, c, a))
  {
    var c', g', h' := Step(c, a), Chronicle(g, c, a), Witness(h, c, a);
    StepFrame(c, a);
    StepLog(c, a, b, g);
    RunAtHeld(c, a, b, g, h);
    forall i | 0 <= i < |c'.nodes| ensures AcksHeld(c'.nodes[i], h') {
      if i != a.n { assert AcksHeld(c.nodes[i], h); }
    }
    forall q, m | 0 <= q < |c'.inbox| && m in c'.inbox[q] ensures AnswerHeld(m, g', h') {
      MessageOrigin(c, a, q, m);
      if m in c.inbox[q] {
        AnswerStable(m, g, g', h, h');
      } else if m in Sent(RunAt(c, a).out, q) {
        AnswerStable(m, g, g', h', h');
      }
    }
  }

  lemma InitHeld(count: nat, g: Reigns)
    ensures HeldInv(Init(count), g, {})
  {
  }

  lemma HeldNext(r: Run, count: nat, i: nat)
    requires IsRun(r, count) && Orderly(r, count) && i < |r.actions|
    requires HeldInv(r.states[i], ReignsAt(r, count, i), HeldAt(r, count, i))
    ensures HeldInv(r.states[i + 1], ReignsAt(r, count, i + 1), HeldAt(r, count, i + 1))
  {
    MatchingHolds(r, count, i);
    TameStep(r, count, i);
    StepKeepsHeld(r.states[i], r.actions[i], BallotsAt(r, count, i), ReignsAt(r, count, i), HeldAt(r, count, i));
  }

  lemma {:induction false} HeldAlways(r: Run, count: nat, i: nat)
    requires IsRun(r, count) && Orderly(r, count) && i < |r.states|
    ensures HeldInv(r.states[i], ReignsAt(r, count, i), HeldAt(r, count, i))
  {
    if i == 0 {
      InitHeld(count, ReignsAt(r, count, 0));
    } else {
      HeldAlways(r, count, i - 1);
      HeldNext(r, count, i - 1);
    }
  }

  // ---------------------------------------------------------------------- the theorems

  /** In every orderly run, whoever a node counts for an index has at some time held exactly the
      node's log up to that index. */
  lemma CountedHaveHeld(r: Run, count: nat, i: nat, n: NodeId, k: nat, p: NodeId)
    requires IsRun(r, count) && Orderly(r, count) && i < |r.states| && n < |r.states[i].nodes|
    requires k < |r.states[i].nodes[n].acks| && p in r.states[i].nodes[n].acks[k]
    ensures p < count && k < |r.states[i].nodes[n].log|
    ensures EverHeld(r, count, i, p, r.states[i].nodes[n].log[..k + 1])
  {
    HeldAlways(r, count, i);
    assert AcksHeld(r.states[i].nodes[n], HeldAt(r, count, i));
    HeldIsTrue(r, count, i, p, r.states[i].nodes[n].log[..k + 1]);
    var j: nat :| j <= i && HoldsIn(r.states[j], p, r.states[i].nodes[n].log[..k + 1]);
    RunWellFormed(r, count, j);
  }

  /** An acknowledgement moves the commit index only when a majority is counted, and then right
      behind the index acknowledged. */
  lemma CommitCountsMajority(s: NodeState, m: Message, net: Net)
    requires m.AppendEntryResponse? && OnAppendEntryResponse(s, m, net).Done?
    requires OnAppendEntryResponse(s, m, net).node.committed > s.committed
    ensures var s' := OnAppendEntryResponse(s, m, net).node;
            && s'.committed == m.index + 1 <= |s'.acks| && s'.peers.Keys == s.peers.Keys
            && |s'.acks[m.index]| > (|s.peers| + 1) / 2
  {
    var s1 := s.(acks := s.acks[m.index := s.acks[m.index] + {m.from}]);
    CommitFrame(s1, m.index + 1);
  }

  lemma CommitStep(c: Cluster, a: Action)
    requires ShapeInv(c) && Enabled(c, a) && a.Deliver? && Head(c, a).AppendEntryResponse?
    requires Step(c, a).nodes[a.n].committed > c.nodes[a.n].committed
    ensures var s' := Step(c, a).nodes[a.n];
            && 0 < s'.committed <= |s'.acks| == |s'.log|
            && 2 * |s'.acks[s'.committed - 1]| > |c.nodes|
  {
    var s := c.nodes[a.n];
    StepFrame(c, a);
    RunAtOk(c, a);
    CommitCountsMajority(s, Head(c, a), a.net);
    assert NodeOk(s, a.n, |c.nodes|) && |s.peers| == |s.peers.Keys| == |c.nodes| - 1;
  }

  /** In this step an acknowledgement moves the acting node's commit index. */
  ghost predicate CommitsAt(r: Run, count: nat, i: nat)
    requires IsRun(r, count) && i < |r.actions|
  {
    RunWellFormed(r, count, i);
    RunWellFormed(r, count, i + 1);
    assert StepOf(r, i);
    var c, a := r.states[i], r.actions[i];
    && a.Deliver? && Head(c, a).AppendEntryResponse?
    && c.nodes[a.n].committed < r.states[i + 1].nodes[a.n].committed
  }

  /** More than half of the nodes have at some time held exactly what the acting node has committed
      after the step. */
  ghost predicate QuorumBehind(r: Run, count: nat, i: nat)
    requires IsRun(r, count) && i < |r.actions|
  {
    RunWellFormed(r, count, i);
    RunWellFormed(r, count, i + 1);
    assert StepOf(r, i);
    var s' := r.states[i + 1].nodes[r.actions[i].n];
    && s'.committed <= |s'.log|
    && exists quorum: set<NodeId> ::
         IsQuorum(quorum, count) && AllHaveHeld(r, count, i + 1, quorum, s'.log[..s'.committed])
  }

  ghost predicate AllHaveHeld(r: Run, count: nat, i: nat, nodes: set<NodeId>, prefix: seq<LogEntry>)
    requires IsRun(r, count) && i < |r.states|
  {
    forall p :: p in nodes ==> EverHeld(r, count, i, p, prefix)
  }

  /** The commit quorum: in every orderly run, when an acknowledgement moves a leader's commit
      index, more than half of the nodes have at some time held exactly what is then committed. */
  lemma CommitQuorum(r: Run, count: nat, i: nat)
    requires IsRun(r, count) && Orderly(r, count) && i < |r.actions| && CommitsAt(r, count, i)
    ensures QuorumBehind(r, count, i)
  {
    LogShape(r, count, i);
    assert StepOf(r, i);
    CommitStep(r.states[i], r.actions[i]);
    var n := r.actions[i].n;
    var s' := r.states[i + 1].nodes[n];
    var quorum := s'.acks[s'.committed - 1];
    forall p | p in quorum ensures p < count && EverHeld(r, count, i + 1, p, s'.log[..s'.committed]) {
      CountedHaveHeld(r, count, i + 1, n, s'.committed - 1, p);
    }
    assert IsQuorum(quorum, count) && AllHaveHeld(r, count, i + 1, quorum, s'.log[..s'.committed]);
  }

  predicate IsQuorum(quorum: set<NodeId>, count: nat) {
    (forall p :: p in quorum ==> p < count) && 2 * |quorum| > count
  }
}
