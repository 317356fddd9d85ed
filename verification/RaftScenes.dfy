/** Scenes of runs that concern nodes 0, 1 and 2 only, and what the handlers do in them: logging a
    command, accepting an offered entry, counting an acknowledgement and offering the next entry. */
module RaftScenes {
  import opened Options
  import opened Ledger
  import opened RaftModel
  import opened RaftCluster
  import opened RaftRuns
  import RaftShape
  import opened RaftStranded

  // ------------------------------------------------------------- the first three nodes

  /** A state that some run reaches, as far as nodes 0, 1 and 2 are concerned. */
  ghost predicate Scene(c: Cluster, count: nat, nodes: seq<NodeState>, inbox: seq<seq<Message>>) {
    && Reachable(c, count) && Full(c, count) && count >= 3 && |nodes| == |inbox| == 3
    && forall i :: 0 <= i < 3 ==> c.nodes[i] == nodes[i] && c.inbox[i] == inbox[i]
  }

  lemma Gets(c: Cluster, count: nat, nodes: seq<NodeState>, inbox: seq<seq<Message>>, n: NodeId, cmd: Command)
    returns (c': Cluster)
    requires Scene(c, count, nodes, inbox) && n < 3
    ensures Scene(c', count, nodes, inbox[n := inbox[n] + [ClientCommand(cmd)]])
  {
    Arrives(c, n, cmd, count);
    c' := c.(inbox := c.inbox[n := c.inbox[n] + [ClientCommand(cmd)]]);
  }

  lemma Acts(c: Cluster, count: nat, nodes: seq<NodeState>, inbox: seq<seq<Message>>, n: NodeId, net: Net, p: NodeId,
             o: Outcome) returns (c': Cluster)
    requires Scene(c, count, nodes, inbox) && n < 3 && p < 3 && n != p && inbox[n] != []
    requires o == Handle(nodes[n], inbox[n][0], net) && o.Done? && o.out.Keys <= {p} && Spare(n, o.node.log)
    ensures Scene(c', count, nodes[n := o.node], inbox[n := inbox[n][1..]][p := inbox[p] + Sent(o.out, p)])
  {
    Delivers(c, n, net, p, count);
    c' := After(c, n, o.node, p, Sent(o.out, p));
  }

  // ---------------------------------------------------------------------- the handlers

  const ENTRY_X := EntryData(0, 0, 2, X)
  const ENTRY_Y := EntryData(0, 0, 2, Y)
  const ENTRY_Z := EntryData(1, 2, 2, Z)

  /** A leader of term 2 with empty log logs its first command and offers it to `p`. */
  lemma LogsFirst(s: NodeState, cmd: Command, p: NodeId)
    requires s.role.Leader? && s.term == 2 && s.log == [] && p in s.peers
    requires forall q :: q in s.peers ==> s.peers[q] == None
    ensures var o := OnCommand(s, ClientCommand(cmd), Reaching(p));
            && o.Done? && o.out == map[p := [AppendEntry(s.id, 2, s.committed, Some(EntryData(0, 0, 2, cmd)))]]
            && o.node.role.Leader? && o.node.term == 2 && o.node.log == [LogEntry(2, cmd)]
            && |o.node.acks| == |s.acks| + 1 && o.node.committed == s.committed
            && o.node.pendingCmds == s.pendingCmds && o.node.id == s.id && o.node.peers.Keys == s.peers.Keys
            && forall q :: q in o.node.peers ==> o.node.peers[q].Some?
  {
  }

  /** A second command is logged, but not offered: every peer has an entry pending. */
  lemma LogsSecond(s: NodeState, cmd: Command)
    requires s.role.Leader? && s.term == 2 && s.log == [LogEntry(2, X)]
    requires forall q :: q in s.peers ==> s.peers[q].Some?
    ensures var o := OnCommand(s, ClientCommand(cmd), NOWHERE);
            && o.Done? && o.out == map[]
            && o.node == s.(log := [LogEntry(2, X), LogEntry(2, cmd)], acks := s.acks + [{s.id}], peers := o.node.peers)
            && o.node.peers.Keys == s.peers.Keys
  {
  }

  /** A follower accepts an entry of term 2 behind what it has. */
  lemma Accepts(s: NodeState, from: NodeId, committed: nat, e: EntryData)
    requires s.term == 2 && from in s.peers && s.pendingCmds == [] && e.index <= |s.log|
    requires e.prevTerm == PrevEntryTerm(s.log, e.index)
    ensures var o := OnAppendEntry(s, AppendEntry(from, 2, committed, Some(e)), Reaching(from));
            && o.Done? && o.out == map[from := [AppendEntryResponse(s.id, 2, e.index, true)]]
            && o.node == Push(Truncate(s, e.index), LogEntry(e.term, e.command))
                         .(role := Follower, leader := Some(from))
  {
  }

  /** The leader counts the acknowledgement of index 0 and offers index 1. */
  lemma OffersNext(s: NodeState, p: NodeId)
    requires s.role.Leader? && s.term == 2 && s.log == [LogEntry(2, X), LogEntry(2, Z)] && |s.acks| == 2
    requires p in s.peers && s.committed == 0
    ensures var o := OnAppendEntryResponse(s, AppendEntryResponse(p, 2, 0, true), Reaching(p));
            && o.Done? && o.out == map[p := [AppendEntry(s.id, 2, o.node.committed, Some(ENTRY_Z))]]
            && o.node.role.Leader? && o.node.term == 2 && o.node.log == s.log && |o.node.acks| == 2
            && o.node.committed <= 1 && o.node.acks[1] == s.acks[1]
            && o.node.pendingCmds == s.pendingCmds && o.node.id == s.id && o.node.peers.Keys == s.peers.Keys
  {
    RaftShape.CountAckFrame(s, p, 0);
    RaftShape.CommitFrame(s.(acks := s.acks[0 := s.acks[0] + {p}]), 1);
  }

  lemma SplitScene(count: nat) returns (nodes: seq<NodeState>)
    requires count >= 3
    ensures |nodes| == 3 && Scene(Split(count), count, nodes, [[], [], []])
    ensures nodes == [First(count, 2), Second(count), Voter(2, count, 2)]
  {
    Splits(count);
    NothingUnderWay(count, [First(count, 2), Second(count)], 1, 2);
    nodes := [First(count, 2), Second(count), Voter(2, count, 2)];
  }

  // ------------------------------------------------------------- moves in a scene

  const OFFER_X := AppendEntry(0, 2, 0, Some(ENTRY_X))
  const OFFER_Y := AppendEntry(1, 2, 0, Some(ENTRY_Y))

  /** Node 1 logs Y and offers it to node 0. */
  lemma RivalLogs(c0: Cluster, count: nat, n0: NodeState, n2: NodeState, in0: seq<Message>, in2: seq<Message>)
    returns (c: Cluster, n1: NodeState)
    requires count >= 3 && Scene(c0, count, [n0, Second(count), n2], [in0, [], in2])
    ensures Scene(c, count, [n0, n1, n2], [in0 + [OFFER_Y], [], in2])
  {
    var s := Second(count);
    c := Gets(c0, count, [n0, s, n2], [in0, [], in2], 1, Y);
    Splits(count);
    LogsFirst(s, Y, 0);
    var o := OnCommand(s, ClientCommand(Y), Reaching(0));
    c := Acts(c, count, [n0, s, n2], [in0, [ClientCommand(Y)], in2], 1, Reaching(0), 0, o);
    n1 := o.node;
  }

  predicate CanTake(s: NodeState, from: NodeId, e: EntryData) {
    && s.term == 2 && from in s.peers && s.pendingCmds == [] && e.index <= |s.log|
    && e.prevTerm == PrevEntryTerm(s.log, e.index) && e.term == 2
  }

  function WithEntry(s: NodeState, from: NodeId, e: EntryData): NodeState
    requires e.index <= |s.log|
  {
    Push(Truncate(s, e.index), LogEntry(e.term, e.command)).(role := Follower, leader := Some(from))
  }

  /** Node 2 accepts what node 0 has offered it. */
  lemma FollowerTakes(c0: Cluster, count: nat, n0: NodeState, n1: NodeState, n2: NodeState, in0: seq<Message>,
                      committed: nat, e: EntryData) returns (c: Cluster)
    requires Scene(c0, count, [n0, n1, n2], [in0, [], [AppendEntry(0, 2, committed, Some(e))]])
    requires CanTake(n2, 0, e) && n2.id == 2 && Lacks(WithEntry(n2, 0, e).log, Y)
    ensures Scene(c, count, [n0, n1, WithEntry(n2, 0, e)], [in0 + [AppendEntryResponse(2, 2, e.index, true)], [], []])
  {
    var offer := AppendEntry(0, 2, committed, Some(e));
    Accepts(n2, 0, committed, e);
    c := Acts(c0, count, [n0, n1, n2], [in0, [], [offer]], 2, Reaching(0), 0, OnAppendEntry(n2, offer, Reaching(0)));
  }

  /** Node 0 accepts what node 1 has offered it. */
  lemma LeaderTakes(c0: Cluster, count: nat, n0: NodeState, n1: NodeState, n2: NodeState, late: Message, e: EntryData)
    returns (c: Cluster)
    requires Scene(c0, count, [n0, n1, n2], [[AppendEntry(1, 2, 0, Some(e)), late], [], []])
    requires CanTake(n0, 1, e) && n0.id == 0
    ensures Scene(c, count, [WithEntry(n0, 1, e), n1, n2], [[late], [AppendEntryResponse(0, 2, e.index, true)], []])
  {
    var offer := AppendEntry(1, 2, 0, Some(e));
    Accepts(n0, 1, 0, e);
    var o := OnAppendEntry(n0, offer, Reaching(1));
    c := Acts(c0, count, [n0, n1, n2], [[offer, late], [], []], 0, Reaching(1), 1, o);
  }

  // ------------------------------------------------------- node 0 replicates to node 2

  /** A leader of term 2 before it has logged anything. */
  predicate Fresh(s: NodeState, count: nat) {
    && s.role.Leader? && s.term == 2 && s.log == [] && s.acks == [] && s.committed == 0 && s.pendingCmds == []
    && s.id == 0 && s.peers.Keys == Others(0, count) && forall q :: q in s.peers ==> s.peers[q] == None
  }

  predicate OneLogged(s: NodeState, count: nat) {
    && s.role.Leader? && s.term == 2 && s.log == [LogEntry(2, X)] && |s.acks| == 1 && s.committed == 0
    && s.pendingCmds == [] && s.id == 0 && s.peers.Keys == Others(0, count)
    && forall q :: q in s.peers ==> s.peers[q].Some?
  }

  predicate TwoLogged(s: NodeState, count: nat) {
    && s.role.Leader? && s.term == 2 && s.log == [LogEntry(2, X), LogEntry(2, Z)] && |s.acks| == 2 && s.acks[1] == {0}
    && s.committed <= 1 && s.pendingCmds == [] && s.id == 0 && s.peers.Keys == Others(0, count)
  }

  lemma OneEntry(c0: Cluster, count: nat, first: NodeState, n1: NodeState) returns (c: Cluster, n0: NodeState)
    requires Scene(c0, count, [first, n1, Voter(2, count, 2)], [[], [], []]) && Fresh(first, count)
    ensures OneLogged(n0, count) && Scene(c, count, [n0, n1, Voter(2, count, 2)], [[], [], [OFFER_X]])
  {
    var nodes := [first, n1, Voter(2, count, 2)];
    c := Gets(c0, count, nodes, [[], [], []], 0, X);
    LogsFirst(first, X, 2);
    var o := OnCommand(first, ClientCommand(X), Reaching(2));
    c := Acts(c, count, nodes, [[ClientCommand(X)], [], []], 0, Reaching(2), 2, o);
    n0 := o.node;
  }

  lemma TwoEntries(c0: Cluster, count: nat, first: NodeState, n1: NodeState) returns (c: Cluster, n0: NodeState)
    requires Scene(c0, count, [first, n1, Voter(2, count, 2)], [[], [], []]) && Fresh(first, count)
    ensures TwoLogged(n0, count) && n0.committed == 0
    ensures Scene(c, count, [n0, n1, Voter(2, count, 2)], [[], [], [OFFER_X]])
  {
    c, n0 := OneEntry(c0, count, first, n1);
    var nodes := [n0, n1, Voter(2, count, 2)];
    c := Gets(c, count, nodes, [[], [], [OFFER_X]], 0, Z);
    LogsSecond(n0, Z);
    var o := OnCommand(n0, ClientCommand(Z), NOWHERE);
    c := Acts(c, count, nodes, [[ClientCommand(Z)], [], [OFFER_X]], 0, NOWHERE, 1, o);
    n0 := o.node;
  }

  /** Node 2 has accepted the first entry, and node 0 has offered it the second. */
  lemma FirstAcknowledged(c0: Cluster, count: nat, first: NodeState, n1: NodeState)
    returns (c: Cluster, n0: NodeState, n2: NodeState)
    requires Scene(c0, count, [first, n1, Voter(2, count, 2)], [[], [], []]) && Fresh(first, count)
    ensures TwoLogged(n0, count)
    ensures n2.term == 2 && n2.log == [LogEntry(2, X)] && n2.pendingCmds == [] && n2.id == 2 && 0 in n2.peers
    ensures Scene(c, count, [n0, n1, n2], [[], [], [AppendEntry(0, 2, n0.committed, Some(ENTRY_Z))]])
  {
    c, n0 := TwoEntries(c0, count, first, n1);
    var v := Voter(2, count, 2);
    c := FollowerTakes(c, count, n0, n1, v, [], 0, ENTRY_X);
    n2 := WithEntry(v, 0, ENTRY_X);
    var nodes, inbox := [n0, n1, n2], [[AppendEntryResponse(2, 2, 0, true)], [], []];
    assert Scene(c, count, nodes, inbox);
    OffersNext(n0, 2);
    var o := OnAppendEntryResponse(n0, AppendEntryResponse(2, 2, 0, true), Reaching(2));
    c := Acts(c, count, nodes, inbox, 0, Reaching(2), 2, o);
    n0 := o.node;
  }
}
