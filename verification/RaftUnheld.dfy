/** What can stand behind an acknowledgement, and behind a commit, when a leader has been stranded:
    nothing. From three nodes on, some run counts a node for an entry it never held, and some run
    commits, by acknowledgements, what no majority has ever held. */
module RaftUnheld {
  import opened Options
  import opened RaftModel
  import opened RaftCluster
  import opened RaftCommit
  import opened RaftRuns
  import opened RaftScenes
  import RaftShape
  import opened RaftStranded

  // -------------------------------------------------------------- who never held what

  lemma LacksPrefix(log: seq<LogEntry>, prefix: seq<LogEntry>, k: nat)
    requires k < |prefix| && Lacks(log, prefix[k].command)
    ensures !(prefix <= log)
  {
    if prefix <= log { PrefixAt(log, prefix, k); }
  }

  lemma PrefixAt(log: seq<LogEntry>, prefix: seq<LogEntry>, k: nat)
    requires prefix <= log && k < |prefix|
    ensures k < |log| && log[k] == prefix[k]
  {
  }

  lemma NeverHeldY(r: Run, count: nat, c: Cluster, i: nat, p: NodeId, prefix: seq<LogEntry>, k: nat)
    requires EndsIn(r, count, c) && i < |r.states| && p >= 2 && k < |prefix| && prefix[k].command == Y
    ensures !EverHeld(r, count, i, p, prefix)
  {
    forall j: nat | j <= i ensures !HoldsIn(r.states[j], p, prefix) {
      if p < |r.states[j].nodes| {
        assert Spared(r.states[j]);
        LacksPrefix(r.states[j].nodes[p].log, prefix, k);
      }
    }
  }

  lemma NeverHeldX(r: Run, count: nat, c: Cluster, i: nat, prefix: seq<LogEntry>, k: nat)
    requires EndsIn(r, count, c) && i < |r.states| && k < |prefix| && prefix[k].command == X
    ensures !EverHeld(r, count, i, 1, prefix)
  {
    forall j: nat | j <= i ensures !HoldsIn(r.states[j], 1, prefix) {
      if 1 < |r.states[j].nodes| {
        assert Spared(r.states[j]);
        LacksPrefix(r.states[j].nodes[1].log, prefix, k);
      }
    }
  }

  // ---------------------------------------------------------- counted, but never held

  ghost predicate CountedHeld(r: Run, count: nat, i: nat)
    requires IsRun(r, count) && i < |r.states|
  {
    forall n: nat, k: nat, p: NodeId :: CountedFor(r.states[i], n, k, p) ==> HeldUpTo(r, count, i, n, k, p)
  }

  /** Node `n` counts `p` among those that have its log up to index `k`. */
  predicate CountedFor(c: Cluster, n: NodeId, k: nat, p: NodeId) {
    n < |c.nodes| && k < |c.nodes[n].acks| && p in c.nodes[n].acks[k]
  }

  ghost predicate HeldUpTo(r: Run, count: nat, i: nat, n: NodeId, k: nat, p: NodeId)
    requires IsRun(r, count) && i < |r.states|
  {
    && n < |r.states[i].nodes| && k < |r.states[i].nodes[n].log|
    && EverHeld(r, count, i, p, r.states[i].nodes[n].log[..k + 1])
  }

  ghost predicate AlwaysCountedHeld(count: nat) {
    forall r: Run, i: nat :: IsRun(r, count) && i < |r.states| ==> CountedHeld(r, count, i)
  }

  const ANSWER := AppendEntryResponse(2, 2, 0, true)

  /** The acknowledgement of node 2 for X waits at node 0 behind the entry Y of node 1. */
  lemma AnswerWaits(count: nat) returns (c: Cluster, n0: NodeState, n1: NodeState, n2: NodeState)
    requires count >= 3
    ensures OneLogged(n0, count) && Scene(c, count, [n0, n1, n2], [[OFFER_Y, ANSWER], [], []])
  {
    var nodes := SplitScene(count);
    c, n0 := OneEntry(Split(count), count, nodes[0], nodes[1]);
    c, n1 := RivalLogs(c, count, n0, nodes[2], [], [OFFER_X]);
    c := FollowerTakes(c, count, n0, n1, nodes[2], [OFFER_Y], 0, ENTRY_X);
    n2 := WithEntry(nodes[2], 0, ENTRY_X);
  }

  /** Node 0 accepts Y first, and then counts node 2 for it. */
  lemma CountedForY(count: nat) returns (c: Cluster)
    requires count >= 3
    ensures Reachable(c, count) && |c.nodes| == count
    ensures c.nodes[0].log == [LogEntry(2, Y)] && |c.nodes[0].acks| == 1 && 2 in c.nodes[0].acks[0]
  {
    var n0, n1, n2;
    c, n0, n1, n2 := AnswerWaits(count);
    c := LeaderTakes(c, count, n0, n1, n2, ANSWER, ENTRY_Y);
    n0 := WithEntry(n0, 1, ENTRY_Y);
    CountsAnswer(n0, 2);
    var o := OnAppendEntryResponse(n0, ANSWER, NOWHERE);
    c := Acts(c, count, [n0, n1, n2], [[ANSWER], [AppendEntryResponse(0, 2, 0, true)], []], 0, NOWHERE, 1, o);
  }

  /** An acknowledgement of index 0 is counted for whatever is there. */
  lemma CountsAnswer(s: NodeState, p: NodeId)
    requires s.term == 2 && |s.log| == 1 && |s.acks| == 1 && s.committed == 0 && p in s.peers
    ensures var o := OnAppendEntryResponse(s, AppendEntryResponse(p, 2, 0, true), NOWHERE);
            && o.Done? && o.out == map[] && o.node.log == s.log && |o.node.acks| == 1
            && o.node.acks[0] == s.acks[0] + {p} && o.node.term == 2 && o.node.peers.Keys == s.peers.Keys
            && o.node.committed == if |s.acks[0] + {p}| > (|s.peers| + 1) / 2 then 1 else 0
  {
    var s1 := s.(acks := s.acks[0 := s.acks[0] + {p}]);
    RaftShape.CommitFrame(s1, 1);
  }

  /** Whoever is counted for an index has held the log up to it, in every run, if and only if there are
      at most two nodes. */
  lemma CountedHeldInEveryRunExactly(count: nat)
    ensures AlwaysCountedHeld(count) <==> count <= 2
  {
    if count <= 2 {
      forall r: Run, i: nat | IsRun(r, count) && i < |r.states| ensures CountedHeld(r, count, i) {
        forall n: nat, k: nat, p: NodeId | CountedFor(r.states[i], n, k, p) ensures HeldUpTo(r, count, i, n, k, p) {
          CountedHaveHeld(r, count, i, n, k, p);
        }
      }
    } else {
      var c := CountedForY(count);
      var r: Run :| EndsIn(r, count, c);
      var i, log := |r.states| - 1, c.nodes[0].log;
      assert log[..1] == log;
      NeverHeldY(r, count, c, i, 2, log[..1], 0);
      assert CountedFor(r.states[i], 0, 0, 2) && !HeldUpTo(r, count, i, 0, 0, 2);
      assert !CountedHeld(r, count, i);
    }
  }

  // ------------------------------------------------------ a commit without a quorum

  ghost predicate CommitsUnheld(r: Run, count: nat, i: nat) {
    IsRun(r, count) && i < |r.actions| && CommitsAt(r, count, i) && !QuorumBehind(r, count, i)
  }

  ghost predicate AlwaysQuorumBehind(count: nat) {
    forall r: Run, i: nat :: IsRun(r, count) && i < |r.actions| && CommitsAt(r, count, i) ==> QuorumBehind(r, count, i)
  }

  lemma OnlyHolders(r: Run, count: nat, c: Cluster, i: nat, prefix: seq<LogEntry>, holders: set<NodeId>, p: NodeId)
    requires EndsIn(r, count, c) && i < |r.states|
    requires prefix != [] && prefix[|prefix| - 1].command == Y
    requires 0 in holders && (1 !in holders ==> prefix[0].command == X)
    ensures EverHeld(r, count, i, p, prefix) ==> p in holders
  {
    if p >= 2 {
      NeverHeldY(r, count, c, i, p, prefix, |prefix| - 1);
    } else if p == 1 && 1 !in holders {
      NeverHeldX(r, count, c, i, prefix, 0);
    }
  }

  /** A run that can go on with a commit at node 0, of what too few can have held. */
  /** The acknowledgement that node 0 handles next commits exactly `prefix`. */
  predicate CommitsNext(c: Cluster, prefix: seq<LogEntry>) {
    && c.nodes != [] && c.inbox != [] && c.inbox[0] != [] && c.inbox[0][0].AppendEntryResponse?
    && var o := Handle(c.nodes[0], c.inbox[0][0], NOWHERE);
    && o.Done? && o.out == map[] && c.nodes[0].committed < o.node.committed == |prefix| <= |o.node.log|
    && o.node.log[..|prefix|] == prefix
  }

  lemma NoQuorum(r: Run, count: nat, c: Cluster, i: nat, prefix: seq<LogEntry>, holders: set<NodeId>)
    requires EndsIn(r, count, c) && i < |r.states| && 2 * |holders| <= count
    requires prefix != [] && prefix[|prefix| - 1].command == Y
    requires 0 in holders && (1 !in holders ==> prefix[0].command == X)
    ensures forall quorum: set<NodeId> :: IsQuorum(quorum, count) ==> !AllHaveHeld(r, count, i, quorum, prefix)
  {
    forall quorum: set<NodeId> | IsQuorum(quorum, count) ensures !AllHaveHeld(r, count, i, quorum, prefix) {
      if AllHaveHeld(r, count, i, quorum, prefix) {
        forall p | p in quorum ensures p in holders { OnlyHolders(r, count, c, i, prefix, holders, p); }
        FewHolders(quorum, holders);
      }
    }
  }

  /** The run goes on with that step. */
  lemma CommitsOn(c: Cluster, count: nat, prefix: seq<LogEntry>) returns (r: Run)
    requires Reachable(c, count) && Full(c, count) && count >= 3 && CommitsNext(c, prefix)
    ensures r.actions != [] && IsRun(r, count)
    ensures EndsIn(r, count, r.states[|r.actions|]) && CommitsAt(r, count, |r.actions| - 1)
    ensures var i := |r.actions| - 1;
            && r.actions[i].n == 0 && r.states[i + 1].nodes != []
            && var s := r.states[i + 1].nodes[0];
               s.committed == |prefix| <= |s.log| && s.log[..s.committed] == prefix
  {
    var a := Deliver(0, NOWHERE);
    assert RunAt(c, a) == Handle(c.nodes[0], c.inbox[0][0], NOWHERE);
    var r0: Run :| EndsIn(r0, count, c);
    assert Spared(r0.states[|r0.states| - 1]) && Spared(Step(c, a));
    ExtendedEnds(r0, c, a, count);
    r := Extended(r0, a);
    var i := |r0.actions|;
    assert StepOf(r, i) && r.states[i] == c && r.states[i + 1] == Step(c, a);
  }

  lemma UnheldCommit(c: Cluster, count: nat, prefix: seq<LogEntry>, holders: set<NodeId>)
    requires Reachable(c, count) && Full(c, count) && count >= 3
    requires CommitsNext(c, prefix)
    requires prefix != [] && prefix[|prefix| - 1].command == Y && 2 * |holders| <= count
    requires 0 in holders && (1 !in holders ==> prefix[0].command == X)
    ensures exists r: Run, i: nat :: CommitsUnheld(r, count, i)
  {
    var r := CommitsOn(c, count, prefix);
    var i := |r.actions| - 1;
    NoQuorum(r, count, r.states[i + 1], i + 1, prefix, holders);
    assert CommitsUnheld(r, count, i);
  }

  lemma {:induction false} FewHolders(quorum: set<NodeId>, holders: set<NodeId>)
    requires quorum <= holders
    ensures |quorum| <= |holders|
  {
    if quorum != {} {
      var p :| p in quorum;
      FewHolders(quorum - {p}, holders - {p});
    }
  }

  // ------------------------------------------------------------------ three nodes

  const ENTRY_YZ := EntryData(1, 2, 2, Y)

  /** Node 1, elected with Z pending, has logged it without offering it. */
  predicate Drained(s: NodeState, count: nat) {
    && s.role.Leader? && s.term == 2 && s.log == [LogEntry(2, Z)] && s.acks == [{1}] && s.committed == 0
    && s.pendingCmds == [] && s.id == 1 && s.peers.Keys == Others(1, count)
    && forall q :: q in s.peers ==> s.peers[q] == None
  }

  function Waiting(count: nat): NodeState {
    Voter(1, count, 1).(pendingCmds := [Z])
  }

  lemma FirstElected(c: Cluster)
    requires c == Counting(3, [First(3, 1)], 0, 1, 0)
    ensures Scene(c, 3, [First(3, 1), Voter(1, 3, 1), Voter(2, 3, 1)], [[], [], []])
  {
    FirstElection(3);
    NothingUnderWay(3, [First(3, 1)], 0, 1);
  }

  /** A command arrives at node 1 before it knows a leader. */
  lemma CommandWaits() returns (c: Cluster)
    ensures Scene(c, 3, [First(3, 1), Waiting(3), Voter(2, 3, 1)], [[], [], []])
  {
    c := Counting(3, [First(3, 1)], 0, 1, 0);
    FirstElected(c);
    var nodes := [First(3, 1), Voter(1, 3, 1), Voter(2, 3, 1)];
    c := Gets(c, 3, nodes, [[], [], []], 1, Z);
    var o := OnCommand(nodes[1], ClientCommand(Z), NOWHERE);
    assert o == Done(Waiting(3), map[]);
    c := Acts(c, 3, nodes, [[], [ClientCommand(Z)], []], 1, NOWHERE, 0, o);
  }

  function Asking(): NodeState {
    Waiting(3).(term := 2, votes := 1, role := Candidate)
  }

  lemma AsksForVotes(c: Cluster)
    requires Full(c, 3) && c.nodes[1] == Waiting(3)
    ensures RunAt(c, Timeout(1, Net({0, 2}, 0))) == Done(Asking(), map[0 := [Request(1, 2)], 2 := [Request(1, 2)]])
  {
  }

  /** Node 1 asks both others for their votes in term 2. */
  lemma AsksBoth(c: Cluster) returns (c': Cluster)
    requires Scene(c, 3, [First(3, 1), Waiting(3), Voter(2, 3, 1)], [[], [], []])
    ensures Scene(c', 3, [First(3, 1), Asking(), Voter(2, 3, 1)], [[Request(1, 2)], [], [Request(1, 2)]])
  {
    var a := Timeout(1, Net({0, 2}, 0));
    AsksForVotes(c);
    SparedSoFar(c, 3);
    Continues(c, a, 3);
    c' := Step(c, a);
    assert c'.inbox[0] == [] + [Request(1, 2)] && c'.inbox[1] == [] + [] && c'.inbox[2] == [] + [Request(1, 2)];
  }

  lemma WinsDrained(s: NodeState)
    requires s.role.Candidate? && s.term == 2 && s.votes == 1 && |s.peers| == 2 && s.log == [] && s.acks == []
    requires s.pendingCmds == [Z] && s.id == 1 && s.committed == 0 && s.peers.Keys == Others(1, 3)
    ensures var o := OnVote(s, Vote(2), NOWHERE); o.Done? && o.out == map[] && Drained(o.node, 3)
  {
    assert Majority(s, 2);
    assert Entries(2, [Z]) == [LogEntry(2, Z)];
  }

  /** Node 0 is stranded in term 2, and node 2 has voted for node 1. */
  lemma VoteWaits() returns (c: Cluster)
    ensures Scene(c, 3, [First(3, 2), Asking(), Voter(2, 3, 2)], [[], [Vote(2)], []])
  {
    c := CommandWaits();
    c := AsksBoth(c);
    TakesOver(First(3, 1));
    c := Acts(c, 3, [First(3, 1), Asking(), Voter(2, 3, 1)], [[Request(1, 2)], [], [Request(1, 2)]], 0, NOWHERE, 1,
              Done(First(3, 2), map[]));
    assert Scene(c, 3, [First(3, 2), Asking(), Voter(2, 3, 1)], [[], [], [Request(1, 2)]]);
    Grants(2, 3, 1, 2);
    c := Acts(c, 3, [First(3, 2), Asking(), Voter(2, 3, 1)], [[], [], [Request(1, 2)]], 2, Reaching(1), 1,
              Done(Voter(2, 3, 2), map[1 := [Vote(2)]]));
  }

  lemma AskingWins()
    ensures var o := OnVote(Asking(), Vote(2), NOWHERE); o.Done? && o.out == map[] && Drained(o.node, 3)
  {
    assert Asking().peers.Keys == Others(1, 3) && |Asking().peers| == |Asking().peers.Keys| == 2;
    WinsDrained(Asking());
  }

  /** Node 1 is elected in term 2, and logs what it had pending. */
  lemma SplitDrained() returns (c: Cluster, n1: NodeState)
    ensures Drained(n1, 3) && Scene(c, 3, [First(3, 2), n1, Voter(2, 3, 2)], [[], [], []])
  {
    c := VoteWaits();
    var s := Asking();
    AskingWins();
    var o := OnVote(s, Vote(2), NOWHERE);
    c := Acts(c, 3, [First(3, 2), s, Voter(2, 3, 2)], [[], [Vote(2)], []], 1, NOWHERE, 0, o);
    n1 := o.node;
  }

  /** A leader behind its drained entry logs Y and offers it. */
  lemma LogsBehind(s: NodeState, count: nat)
    requires Drained(s, count) && count >= 2
    ensures var o := OnCommand(s, ClientCommand(Y), Reaching(0));
            && o.Done? && o.out == map[0 := [AppendEntry(1, 2, 0, Some(ENTRY_YZ))]]
            && o.node.log == [LogEntry(2, Z), LogEntry(2, Y)]
  {
  }

  const SECOND_ANSWER := AppendEntryResponse(2, 2, 1, true)
  const OFFER_YZ := AppendEntry(1, 2, 0, Some(ENTRY_YZ))

  /** Both leaders have offered their second entries, node 0 to node 2 and node 1 to node 0. */
  lemma SecondEntriesOffered() returns (c: Cluster, n0: NodeState, n1: NodeState, n2: NodeState, offer: Message)
    ensures TwoLogged(n0, 3) && offer == AppendEntry(0, 2, n0.committed, Some(ENTRY_Z))
    ensures n2.term == 2 && n2.log == [LogEntry(2, X)] && n2.pendingCmds == [] && n2.id == 2 && 0 in n2.peers
    ensures Scene(c, 3, [n0, n1, n2], [[OFFER_YZ], [], [offer]])
  {
    c, n1 := SplitDrained();
    c, n0, n2 := FirstAcknowledged(c, 3, First(3, 2), n1);
    offer := AppendEntry(0, 2, n0.committed, Some(ENTRY_Z));
    c := Gets(c, 3, [n0, n1, n2], [[], [], [offer]], 1, Y);
    LogsBehind(n1, 3);
    var o := OnCommand(n1, ClientCommand(Y), Reaching(0));
    c := Acts(c, 3, [n0, n1, n2], [[], [ClientCommand(Y)], [offer]], 1, Reaching(0), 0, o);
    n1 := o.node;
  }

  /** Node 2's acknowledgement of node 0's second entry waits behind the second entry of node 1. */
  lemma SecondAnswerWaits() returns (c: Cluster, n0: NodeState, n1: NodeState, n2: NodeState)
    ensures TwoLogged(n0, 3) && Scene(c, 3, [n0, n1, n2], [[OFFER_YZ, SECOND_ANSWER], [], []])
  {
    var offer;
    c, n0, n1, n2, offer := SecondEntriesOffered();
    assert WithEntry(n2, 0, ENTRY_Z).log == [LogEntry(2, X), LogEntry(2, Z)];
    c := FollowerTakes(c, 3, n0, n1, n2, [OFFER_YZ], n0.committed, ENTRY_Z);
    n2 := WithEntry(n2, 0, ENTRY_Z);
  }

  lemma CommitsSecond(s: NodeState)
    requires s.term == 2 && s.log == [LogEntry(2, X), LogEntry(2, Y)] && |s.acks| == 2 && s.acks[1] == {0}
    requires s.committed <= 1 && |s.peers| == 2 && 2 in s.peers
    ensures var o := OnAppendEntryResponse(s, SECOND_ANSWER, NOWHERE);
            o.Done? && o.out == map[] && o.node.log == s.log && o.node.committed == 2
  {
    var s1 := s.(acks := s.acks[1 := s.acks[1] + {2}]);
    assert s1.acks[1] == {0, 2};
    RaftShape.CommitFrame(s1, 2);
  }

  /** With three nodes: node 0 commits X and Y, which nobody else ever held in this order. */
  lemma UnheldAmongThree()
    ensures exists r: Run, i: nat :: CommitsUnheld(r, 3, i)
  {
    var c, n0, n1, n2 := SecondAnswerWaits();
    c := LeaderTakes(c, 3, n0, n1, n2, SECOND_ANSWER, ENTRY_YZ);
    var s := WithEntry(n0, 1, ENTRY_YZ);
    assert s.log == [LogEntry(2, X), LogEntry(2, Y)];
    assert s.acks[1] == {0} && |s.peers| == |s.peers.Keys| == 2;
    CommitsSecond(s);
    assert c.inbox[0][0] == SECOND_ANSWER;
    UnheldCommit(c, 3, s.log, {0});
  }

  // --------------------------------------------------------------- four nodes or more

  /** A follower that has accepted X. */
  function Holder(i: NodeId, count: nat): NodeState {
    Voter(i, count, 2).(log := [LogEntry(2, X)], acks := [{i}], leader := Some(0))
  }

  function Answers(lo: nat, hi: nat): seq<Message>
    requires lo <= hi
  {
    seq(hi - lo, j requires 0 <= j => AppendEntryResponse(lo + j, 2, 0, true))
  }

  /** The followers before `k` have accepted X, the others have it on offer. */
  function Spreading(count: nat, n0: NodeState, n1: NodeState, inbox0: seq<Message>, k: nat): Cluster {
    Cluster(seq(count, i requires 0 <= i =>
              if i == 0 then n0 else if i == 1 then n1 else if i < k then Holder(i, count) else Voter(i, count, 2)),
            seq(count, i requires 0 <= i => if i == 0 then inbox0 else if i == 1 || i < k then [] else [OFFER_X]),
            Ids(count))
  }

  /** A fresh leader logs X and offers it to everybody but node 1. */
  lemma LogsWide(s: NodeState, count: nat)
    requires Fresh(s, count)
    ensures var o := OnCommand(s, ClientCommand(X), Net(Ids(count) - {0, 1}, 0));
            && o.Done? && o.out == (map p | p in Ids(count) - {0, 1} :: [OFFER_X])
            && OneLogged(o.node, count) && o.node.acks == [{0}]
  {
  }

  lemma CommandAtLeader(count: nat) returns (c: Cluster)
    requires count >= 3
    ensures Reachable(c, count) && Full(c, count) && c.nodes == Split(count).nodes
    ensures c.inbox[0] == [ClientCommand(X)] && forall i :: 1 <= i < count ==> c.inbox[i] == []
  {
    Splits(count);
    NothingUnderWay(count, [First(count, 2), Second(count)], 1, 2);
    c := Split(count);
    Arrives(c, 0, X, count);
    assert c.inbox[0] + [ClientCommand(X)] == [ClientCommand(X)];
    c := c.(inbox := c.inbox[0 := [ClientCommand(X)]]);
  }

  /** Node 0 offers X to all followers. */
  lemma Spreads(count: nat) returns (n0: NodeState)
    requires count >= 3
    ensures OneLogged(n0, count) && n0.acks == [{0}]
    ensures Reachable(Spreading(count, n0, Second(count), [], 2), count)
  {
    var c := CommandAtLeader(count);
    var a := Deliver(0, Net(Ids(count) - {0, 1}, 0));
    Splits(count);
    LogsWide(First(count, 2), count);
    var o := OnCommand(First(count, 2), ClientCommand(X), a.net);
    n0 := o.node;
    assert c.nodes[0] == First(count, 2) && RunAt(c, a) == o;
    Continues(c, a, count);
    SpreadsTo(c, a, n0, count);
  }

  lemma SentWide(count: nat, i: nat)
    requires i < count
    ensures Sent(map p | p in Ids(count) - {0, 1} :: [OFFER_X], i) == if i < 2 then [] else [OFFER_X]
  {
  }

  lemma SpreadsTo(c: Cluster, a: Action, n0: NodeState, count: nat)
    requires count >= 3 && Enabled(c, a) && a.Deliver? && a.n == 0
    requires c.nodes == Split(count).nodes && c.alive == Ids(count)
    requires |c.inbox| == count && |c.inbox[0]| == 1 && forall i :: 1 <= i < count ==> c.inbox[i] == []
    requires RunAt(c, a) == Done(n0, map p | p in Ids(count) - {0, 1} :: [OFFER_X])
    ensures Step(c, a) == Spreading(count, n0, Second(count), [], 2)
  {
    var c2 := Spreading(count, n0, Second(count), [], 2);
    forall i | 0 <= i < count ensures Step(c, a).inbox[i] == c2.inbox[i] {
      SentWide(count, i);
      assert Taken(c, a)[i] == [];
    }
    assert Step(c, a).inbox == c2.inbox;
    SpreadNodes(count, n0);
  }

  lemma SpreadNodes(count: nat, n0: NodeState)
    requires count >= 3
    ensures Split(count).nodes[0 := n0] == Spreading(count, n0, Second(count), [], 2).nodes
  {
  }

  /** Node 1's entry reaches node 0 before anything else. */
  lemma RivalOffers(count: nat) returns (n0: NodeState, n1: NodeState)
    requires count >= 3
    ensures OneLogged(n0, count) && n0.acks == [{0}]
    ensures Reachable(Spreading(count, n0, n1, [OFFER_Y], 2), count)
  {
    n0 := Spreads(count);
    Splits(count);
    var c, c1 := Spreading(count, n0, Second(count), [], 2), Spreading(count, n0, Second(count), [], 2);
    Arrives(c, 1, Y, count);
    assert c.inbox[1] + [ClientCommand(Y)] == [ClientCommand(Y)];
    c1 := c.(inbox := c.inbox[1 := [ClientCommand(Y)]]);
    LogsFirst(Second(count), Y, 0);
    var o := OnCommand(Second(count), ClientCommand(Y), Reaching(0));
    n1 := o.node;
    Delivers(c1, 1, Reaching(0), 0, count);
    var c2, c3 := After(c1, 1, n1, 0, [OFFER_Y]), Spreading(count, n0, n1, [OFFER_Y], 2);
    forall i | 0 <= i < count ensures c2.nodes[i] == c3.nodes[i] && c2.inbox[i] == c3.inbox[i] {}
    assert c2.nodes == c3.nodes && c2.inbox == c3.inbox;
  }

  /** All followers accept X and acknowledge it. */
  lemma {:induction false} AllAccept(count: nat, n0: NodeState, n1: NodeState, k: nat)
    requires 2 <= k <= count && Reachable(Spreading(count, n0, n1, [OFFER_Y] + Answers(2, k), k), count)
    ensures Reachable(Spreading(count, n0, n1, [OFFER_Y] + Answers(2, count), count), count)
    decreases count - k
  {
    if k < count {
      var in0, in0' := [OFFER_Y] + Answers(2, k), [OFFER_Y] + Answers(2, k + 1);
      var c, c' := Spreading(count, n0, n1, in0, k), Spreading(count, n0, n1, in0', k + 1);
      Accepts(Voter(k, count, 2), 0, 0, ENTRY_X);
      assert OnAppendEntry(Voter(k, count, 2), OFFER_X, Reaching(0)).node == Holder(k, count);
      Delivers(c, k, Reaching(0), 0, count);
      assert in0 + [AppendEntryResponse(k, 2, 0, true)] == in0';
      var c2 := After(c, k, Holder(k, count), 0, [AppendEntryResponse(k, 2, 0, true)]);
      assert c2.nodes == c'.nodes;
      SameInboxes(c2.inbox, c, c', k, 0);
      AllAccept(count, n0, n1, k + 1);
    }
  }

  /** Node 0 has Y, and counts the nodes from 2 to before `j` for it. */
  predicate Tallies(s: NodeState, count: nat, j: nat) {
    && s.term == 2 && s.log == [LogEntry(2, Y)] && s.acks == [Ids(j) - {1}] && s.committed == 0
    && s.peers.Keys == Others(0, count)
  }

  ghost predicate Tally(c: Cluster, count: nat, j: nat) {
    && Reachable(c, count) && Full(c, count) && 2 <= j <= count
    && Tallies(c.nodes[0], count, j) && c.inbox[0] == Answers(j, count)
  }

  lemma TallyStarts(count: nat) returns (c: Cluster)
    requires count >= 3
    ensures Tally(c, count, 2)
  {
    var n0, n1 := RivalOffers(count);
    assert Answers(2, 2) == [] && [OFFER_Y] + Answers(2, 2) == [OFFER_Y];
    AllAccept(count, n0, n1, 2);
    var c1 := Spreading(count, n0, n1, [OFFER_Y] + Answers(2, count), count);
    Accepts(n0, 1, 0, ENTRY_Y);
    var o := OnAppendEntry(n0, OFFER_Y, Reaching(1));
    Delivers(c1, 0, Reaching(1), 1, count);
    c := After(c1, 0, o.node, 1, Sent(o.out, 1));
    assert ([OFFER_Y] + Answers(2, count))[1..] == Answers(2, count);
    assert Ids(2) - {1} == {0};
  }

  /** How many are counted then. */
  lemma CountedSoFar(count: nat, j: nat, peers: map<NodeId, Option<EntryData>>)
    requires 2 <= j < count && peers.Keys == Others(0, count)
    ensures Ids(j) - {1} + {j} == Ids(j + 1) - {1} && |Ids(j) - {1} + {j}| == j && |peers| == count - 1
  {
    assert Ids(j) - {1} + {j} == Ids(j + 1) - {1};
    assert |Ids(j + 1) - {1}| == j;
    assert |peers| == |peers.Keys| == count - 1;
  }

  lemma FirstAnswer(j: nat, count: nat)
    requires j < count
    ensures Answers(j, count) != [] && Answers(j, count)[0] == AppendEntryResponse(j, 2, 0, true)
    ensures Answers(j, count)[1..] == Answers(j + 1, count)
  {
  }

  /** The next one counted: the tally goes on, or a majority is reached and Y is committed. */
  lemma CountsNext(s: NodeState, count: nat, j: nat)
    requires Tallies(s, count, j) && 2 <= j < count
    ensures var o := OnAppendEntryResponse(s, AppendEntryResponse(j, 2, 0, true), NOWHERE);
            && o.Done? && o.out == map[] && o.node.log == [LogEntry(2, Y)]
            && if j > count / 2 then o.node.committed == 1 else Tallies(o.node, count, j + 1)
  {
    CountsAnswer(s, j);
    CountedSoFar(count, j, s.peers);
  }

  lemma TallyDelivers(c: Cluster, count: nat, m: Message, rest: seq<Message>, o: Outcome) returns (c': Cluster)
    requires Reachable(c, count) && Full(c, count) && count >= 2
    requires c.inbox[0] != [] && c.inbox[0][0] == m && c.inbox[0][1..] == rest
    requires o == Handle(c.nodes[0], m, NOWHERE) && o.Done? && o.out == map[]
    ensures Reachable(c', count) && Full(c', count) && c'.nodes[0] == o.node && c'.inbox[0] == rest
  {
    Delivers(c, 0, NOWHERE, 1, count);
    c' := After(c, 0, o.node, 1, []);
  }

  lemma TallyGoesOn(c: Cluster, count: nat, j: nat) returns (c': Cluster)
    requires Tally(c, count, j) && j <= count / 2 && j < count
    ensures Tally(c', count, j + 1)
  {
    var m := AppendEntryResponse(j, 2, 0, true);
    FirstAnswer(j, count);
    CountsNext(c.nodes[0], count, j);
    c' := TallyDelivers(c, count, m, Answers(j + 1, count), OnAppendEntryResponse(c.nodes[0], m, NOWHERE));
  }

  ghost predicate TallyReached(count: nat, j: nat) {
    exists c: Cluster :: Tally(c, count, j)
  }

  lemma TallyReachesNext(count: nat, j: nat)
    requires TallyReached(count, j) && j <= count / 2 && j < count
    ensures TallyReached(count, j + 1)
  {
    var c: Cluster :| Tally(c, count, j);
    var c' := TallyGoesOn(c, count, j);
  }

  lemma TallyBegun(count: nat)
    requires count >= 3
    ensures TallyReached(count, 2)
  {
    var c := TallyStarts(count);
  }

  lemma TallyReaches(count: nat, j: nat)
    requires count >= 3 && 2 <= j <= count / 2 + 1
    ensures TallyReached(count, j)
  {
    if j == 2 {
      TallyBegun(count);
    } else {
      TallyReaches(count, j - 1);
      TallyReachesNext(count, j - 1);
    }
  }

  lemma TallyCommits(c: Cluster, count: nat, j: nat)
    requires Tally(c, count, j) && count / 2 < j < count
    ensures CommitsNext(c, [LogEntry(2, Y)])
  {
    FirstAnswer(j, count);
    CountsNext(c.nodes[0], count, j);
    assert [LogEntry(2, Y)][..1] == [LogEntry(2, Y)];
  }

  /** With four nodes or more: node 0 commits Y, which only it and node 1 ever held. */
  lemma UnheldAmongMany(count: nat)
    requires count >= 4
    ensures exists r: Run, i: nat :: CommitsUnheld(r, count, i)
  {
    var j := count / 2 + 1;
    TallyReaches(count, j);
    var c: Cluster :| Tally(c, count, j);
    TallyCommits(c, count, j);
    UnheldCommit(c, count, [LogEntry(2, Y)], {0, 1});
  }

  /** Every commit by acknowledgements has a quorum behind it, in every run, if and only if there are
      at most two nodes. */
  lemma QuorumInEveryRunExactly(count: nat)
    ensures AlwaysQuorumBehind(count) <==> count <= 2
  {
    if count <= 2 {
      forall r: Run, i: nat | IsRun(r, count) && i < |r.actions| && CommitsAt(r, count, i)
        ensures QuorumBehind(r, count, i)
      {
        CommitQuorum(r, count, i);
      }
    } else if count == 3 {
      UnheldAmongThree();
      var r: Run, i: nat :| CommitsUnheld(r, count, i);
    } else {
      UnheldAmongMany(count);
      var r: Run, i: nat :| CommitsUnheld(r, count, i);
    }
  }
}
