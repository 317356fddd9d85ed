/** Why Log Matching needs leaders to step down: for every cluster of at least three nodes, a run in
    which a leader adopts the term of a vote request that it cannot answer, and stays in office
    beside the leader elected in that term. With at most two nodes this cannot happen. */
module RaftStranded {
  import opened Options
  import opened Ledger
  import opened RaftModel
  import opened RaftCluster
  import opened RaftRuns
  import opened RaftLogMatching

  // -------------------------------------------------------------------- winning an election

  /** A follower that has reached `term` without an entry. */
  function Voter(i: NodeId, count: nat, term: nat): NodeState {
    InitialNode(i, Others(i, count)).(term := term)
  }

  /** A candidate of `term` that has counted `got` votes of others, until it had enough. */
  function Counted(i: NodeId, count: nat, term: nat, got: nat): NodeState {
    if 1 + got > count / 2 then Voter(i, count, term).(role := Leader, votes := count / 2 + 1)
    else Voter(i, count, term).(role := Candidate, votes := 1 + got)
  }

  function Request(from: NodeId, term: nat): Message {
    RequestVote(from, term, LogInfo(0, 0))
  }

  function Votes(term: nat, k: nat): seq<Message> { seq(k, _ => Vote(term)) }

  /** The nodes `front`, and behind them followers that have voted in `term` if before `k`. */
  function Nodes(count: nat, front: seq<NodeState>, term: nat, k: nat): seq<NodeState>
    requires term >= 1
  {
    seq(count, i requires 0 <= i =>
      if i < |front| then front[i] else Voter(i, count, if i < k then term else term - 1))
  }

  /** The requests of candidate `n` that are not answered yet, and the votes it got. */
  function Inboxes(count: nat, lo: nat, n: NodeId, term: nat, k: nat, votes: nat): seq<seq<Message>> {
    seq(count, i requires 0 <= i =>
      if i == n then Votes(term, votes) else if i < lo || i < k then [] else [Request(n, term)])
  }

  function Voting(count: nat, front: seq<NodeState>, n: NodeId, term: nat, k: nat): Cluster
    requires term >= 1 && |front| <= k
  {
    Cluster(Nodes(count, front, term, k), Inboxes(count, |front|, n, term, k, k - |front|), Ids(count))
  }

  /** All have voted, and `left` votes are not counted yet. */
  function Counting(count: nat, front: seq<NodeState>, n: NodeId, term: nat, left: nat): Cluster
    requires term >= 1
  {
    Cluster(Nodes(count, front, term, count), Inboxes(count, |front|, n, term, count, left), Ids(count))
  }

  lemma Grants(i: NodeId, count: nat, n: NodeId, term: nat)
    requires n != i && n < count && term >= 1
    ensures var o := OnRequestVote(Voter(i, count, term - 1), Request(n, term), Reaching(n));
            o == Done(Voter(i, count, term), map[n := [Vote(term)]])
  {
  }

  lemma SameInboxes(inbox: seq<seq<Message>>, c: Cluster, c': Cluster, k: nat, n: NodeId)
    requires |inbox| == |c.inbox| == |c'.inbox| && k < |inbox| && n < |inbox|
    requires forall q :: 0 <= q < |inbox| && q != k && q != n ==> inbox[q] == c.inbox[q] == c'.inbox[q]
    requires inbox[k] == c'.inbox[k] && inbox[n] == c'.inbox[n]
    ensures inbox == c'.inbox
  {
  }

  lemma {:induction false} AllVote(count: nat, front: seq<NodeState>, n: NodeId, term: nat, k: nat)
    requires term >= 1 && n < |front| <= k <= count && Reachable(Voting(count, front, n, term, k), count)
    ensures Reachable(Voting(count, front, n, term, count), count)
    decreases count - k
  {
    if k < count {
      var c, c' := Voting(count, front, n, term, k), Voting(count, front, n, term, k + 1);
      Grants(k, count, n, term);
      Delivers(c, k, Reaching(n), n, count);
      assert Votes(term, k - |front|) + [Vote(term)] == Votes(term, k + 1 - |front|);
      assert c.nodes[k := Voter(k, count, term)] == c'.nodes;
      SameInboxes(After(c, k, Voter(k, count, term), n, [Vote(term)]).inbox, c, c', k, n);
      AllVote(count, front, n, term, k + 1);
    }
  }

  lemma CountsOne(n: NodeId, count: nat, term: nat, got: nat)
    requires n < count
    ensures OnVote(Counted(n, count, term, got), Vote(term), NOWHERE) == Done(Counted(n, count, term, got + 1), map[])
  {
    var s := Counted(n, count, term, got);
    assert s.peers.Keys == Others(n, count) && |s.peers| == |s.peers.Keys| == count - 1;
    if s.role.Candidate? && Majority(s, s.votes + 1) { WinsNow(s, count); }
  }

  /** Winning with an empty log and nothing pending changes only the office. */
  lemma WinsNow(s: NodeState, count: nat)
    requires s.role.Candidate? && Majority(s, s.votes + 1) && s.log == [] && s.acks == [] && s.pendingCmds == []
    requires forall p :: p in s.peers ==> s.peers[p] == None
    ensures OnVote(s, Vote(s.term), NOWHERE) == Done(s.(role := Leader, votes := s.votes + 1, leader := None), map[])
  {
    assert Entries(s.term, []) == [];
    assert (map p | p in s.peers :: None) == s.peers;
    assert Broadcast(OnVote(s, Vote(s.term), NOWHERE).node, NOWHERE) == map[];
  }

  lemma CountNext(count: nat, front: seq<NodeState>, n: NodeId, term: nat, got: nat, left: nat)
    requires term >= 1 && n < |front| <= count && count >= 2 && left > 0
    requires front[n] == Counted(n, count, term, got) && Reachable(Counting(count, front, n, term, left), count)
    ensures Reachable(Counting(count, front[n := Counted(n, count, term, got + 1)], n, term, left - 1), count)
  {
    var front' := front[n := Counted(n, count, term, got + 1)];
    var c, c' := Counting(count, front, n, term, left), Counting(count, front', n, term, left - 1);
    var p := if n == 0 then 1 else 0;
    CountsOne(n, count, term, got);
    assert c.inbox[n] == Votes(term, left) && |c.inbox[n]| == left && c.inbox[n][0] == Vote(term);
    Delivers(c, n, NOWHERE, p, count);
    assert Votes(term, left)[1..] == Votes(term, left - 1);
    assert c.inbox[p] + [] == c.inbox[p];
    assert c.nodes[n := front'[n]] == c'.nodes;
    SameInboxes(After(c, n, front'[n], p, []).inbox, c, c', n, p);
  }

  lemma {:induction false} AllCounted(count: nat, front: seq<NodeState>, n: NodeId, term: nat, got: nat, left: nat)
    requires term >= 1 && n < |front| <= count && count >= 2
    requires front[n] == Counted(n, count, term, got) && Reachable(Counting(count, front, n, term, left), count)
    ensures Reachable(Counting(count, front[n := Counted(n, count, term, got + left)], n, term, 0), count)
    decreases left
  {
    var last := Counted(n, count, term, got + left);
    if left == 0 {
      assert front[n := last] == front;
    } else {
      var front' := front[n := Counted(n, count, term, got + 1)];
      CountNext(count, front, n, term, got, left);
      AllCounted(count, front', n, term, got + 1, left - 1);
      assert front'[n := last] == front[n := last];
    }
  }

  /** A candidate whose requests are out gets the votes of all behind the front. */
  lemma Wins(count: nat, front: seq<NodeState>, n: NodeId, term: nat)
    requires term >= 1 && count >= 2 && n < |front| <= count && front[n] == Counted(n, count, term, 0)
    requires Reachable(Voting(count, front, n, term, |front|), count)
    ensures Reachable(Counting(count, front[n := Counted(n, count, term, count - |front|)], n, term, 0), count)
  {
    AllVote(count, front, n, term, |front|);
    assert Voting(count, front, n, term, count) == Counting(count, front, n, term, count - |front|);
    AllCounted(count, front, n, term, 0, count - |front|);
  }

  // ------------------------------------------------------------------------ two leaders

  function First(count: nat, term: nat): NodeState
    requires count >= 1
  {
    Counted(0, count, 1, count - 1).(term := term)
  }

  function Second(count: nat): NodeState
    requires count >= 2
  {
    Counted(1, count, 2, count - 2)
  }

  /** Node 0 was elected in term 1 and stranded in term 2, in which node 1 was elected. */
  function Split(count: nat): Cluster
    requires count >= 2
  {
    Counting(count, [First(count, 2), Second(count)], 1, 2, 0)
  }

  function Asked(count: nat, n: NodeId, term: nat): seq<seq<Message>> {
    seq(count, q requires 0 <= q => if q == n then [] else [Request(n, term)])
  }

  lemma NothingUnderWay(count: nat, front: seq<NodeState>, n: NodeId, term: nat)
    requires term >= 1
    ensures forall q :: 0 <= q < count ==> Counting(count, front, n, term, 0).inbox[q] == []
  {
    assert Votes(term, 0) == [];
  }

  /** Where nothing is under way, a follower starts an election and asks everybody. */
  lemma Asks(c: Cluster, n: NodeId, term: nat, count: nat)
    requires Reachable(c, count) && Full(c, count) && n < count && count >= 2 && c.nodes[n] == Voter(n, count, term)
    requires forall q :: 0 <= q < count ==> c.inbox[q] == []
    ensures Reachable(Cluster(c.nodes[n := Counted(n, count, term + 1, 0)],
                              Asked(count, n, term + 1), c.alive), count)
  {
    var a := Timeout(n, Net(Others(n, count), 0));
    var o := RunAt(c, a);
    assert o.node == Counted(n, count, term + 1, 0);
    assert o.out == map q | q in Others(n, count) :: [Request(n, term + 1)];
    Continues(c, a, count);
    var inbox := Asked(count, n, term + 1);
    forall q | 0 <= q < count ensures Step(c, a).inbox[q] == inbox[q] {
      assert Step(c, a).inbox[q] == [] + Sent(o.out, q);
    }
    assert Step(c, a).inbox == inbox;
  }

  lemma FirstElection(count: nat)
    requires count >= 2
    ensures Reachable(Counting(count, [First(count, 1)], 0, 1, 0), count)
  {
    var c, front := Init(count), [Counted(0, count, 1, 0)];
    Starts(count);
    assert c.nodes[0] == Voter(0, count, 0);
    Asks(c, 0, 0, count);
    var c' := Voting(count, front, 0, 1, 1);
    forall i | 0 <= i < count ensures c.nodes[0 := front[0]][i] == c'.nodes[i] {
      if i > 0 { assert c'.nodes[i] == Voter(i, count, 0) == c.nodes[i]; }
    }
    assert c.nodes[0 := front[0]] == c'.nodes;
    assert Votes(1, 0) == [];
    forall i | 0 <= i < count ensures Asked(count, 0, 1)[i] == c'.inbox[i] {}
    assert Asked(count, 0, 1) == c'.inbox;
    Wins(count, front, 0, 1);
    assert front[0 := First(count, 1)] == [First(count, 1)];
  }

  /** Node 1 asks for votes in term 2. */
  lemma AsksAgain(count: nat)
    requires count >= 3
    ensures var c := Counting(count, [First(count, 1)], 0, 1, 0);
            Reachable(Cluster(c.nodes[1 := Counted(1, count, 2, 0)], Asked(count, 1, 2), c.alive), count)
  {
    var c := Counting(count, [First(count, 1)], 0, 1, 0);
    FirstElection(count);
    assert c.nodes[1] == Voter(1, count, 1);
    NothingUnderWay(count, [First(count, 1)], 0, 1);
    Asks(c, 1, 1, count);
  }

  /** Node 0 takes over the term, cannot answer, and stays in office. */
  lemma Strands(count: nat)
    requires count >= 3
    ensures Reachable(Voting(count, [First(count, 2), Counted(1, count, 2, 0)], 1, 2, 2), count)
  {
    AsksAgain(count);
    var c := Counting(count, [First(count, 1)], 0, 1, 0);
    var c' := Voting(count, [First(count, 2), Counted(1, count, 2, 0)], 1, 2, 2);
    var c1 := Cluster(c.nodes[1 := Counted(1, count, 2, 0)], Asked(count, 1, 2), c.alive);
    assert c1.nodes[0] == First(count, 1) && c1.inbox[0] == [Request(1, 2)];
    TakesOver(First(count, 1));
    Delivers(c1, 0, NOWHERE, 1, count);
    var c2 := After(c1, 0, First(count, 2), 1, []);
    assert [Request(1, 2)][1..] == [] && Votes(2, 0) == [];
    forall i | 0 <= i < count ensures c2.nodes[i] == c'.nodes[i] && c2.inbox[i] == c'.inbox[i] {}
    assert c2.nodes == c'.nodes && c2.inbox == c'.inbox;
  }

  lemma TakesOver(s: NodeState)
    requires s.term == 1 && s.log == [] && 1 in s.peers
    ensures Handle(s, Request(1, 2), NOWHERE) == Done(s.(term := 2), map[])
  {
  }

  lemma Splits(count: nat)
    requires count >= 3
    ensures Reachable(Split(count), count)
    ensures First(count, 2).role.Leader? && Second(count).role.Leader?
  {
    var front := [First(count, 2), Counted(1, count, 2, 0)];
    Strands(count);
    Wins(count, front, 1, 2);
    assert front[1 := Second(count)] == [First(count, 2), Second(count)];
  }

  // --------------------------------------------------------------------- matching breaks

  /** A leader without entry logs a command, and offers it to the peer it reaches. */
  lemma Logs(c: Cluster, n: NodeId, cmd: Command, p: NodeId, net: Net, count: nat)
    requires Reachable(c, count) && Full(c, count) && n < count && p < count && p != n
    requires c.nodes[n].role.Leader? && c.inbox[n] == [] && net.reach <= {p}
    requires Spare(n, c.nodes[n].log + [LogEntry(c.nodes[n].term, cmd)])
    ensures var o := OnCommand(c.nodes[n], ClientCommand(cmd), net);
            && o.Done? && o.out.Keys <= {p}
            && Reachable(Cluster(c.nodes[n := o.node], c.inbox[p := c.inbox[p] + Sent(o.out, p)], c.alive), count)
  {
    Arrives(c, n, cmd, count);
    var c1 := c.(inbox := c.inbox[n := [ClientCommand(cmd)]]);
    assert c.inbox[n] + [ClientCommand(cmd)] == [ClientCommand(cmd)];
    var o := OnCommand(c.nodes[n], ClientCommand(cmd), net);
    assert Handle(c1.nodes[n], c1.inbox[n][0], net) == o;
    Delivers(c1, n, net, p, count);
    assert [ClientCommand(cmd)][1..] == [];
    assert c1.inbox[n := c1.inbox[n][1..]] == c.inbox;
    assert c1.inbox[n := c1.inbox[n][1..]][p := c1.inbox[p] + Sent(o.out, p)]
           == c.inbox[p := c.inbox[p] + Sent(o.out, p)];
  }

  /** Two logs that agree on the term at an index have the same entries up to and including it. */
  predicate Agree(xs: seq<LogEntry>, ys: seq<LogEntry>, k: nat) {
    k < |xs| && k < |ys| && xs[k].term == ys[k].term ==> xs[..k + 1] == ys[..k + 1]
  }

  ghost predicate Matching(c: Cluster) {
    forall x, y, k: nat :: 0 <= x < |c.nodes| && 0 <= y < |c.nodes| ==> Agree(c.nodes[x].log, c.nodes[y].log, k)
  }

  /** Without the step-down condition Log Matching and "one node in office per term" both fail, for
      every number of nodes from three on: some run ends with nodes 0 and 1 in office in term 2,
      holding different entries of term 2 at index 0. */
  lemma StrandedLeaderBreaksMatching(count: nat)
    requires count >= 3
    ensures exists r, c :: EndsIn(r, count, c) && TwoLogs(c) && !Matching(c) && !LeadersStepDown(r, count)
  {
    var c := TwoLogsReached(count);
    TwoLogsDisagree(c);
    var r: Run :| EndsIn(r, count, c);
    RunWellFormed(r, count, |r.states| - 1);
    if LeadersStepDown(r, count) { LogMatching(r, count, |r.states| - 1, 0, 1, 0); }
    assert EndsIn(r, count, c) && TwoLogs(c) && !Matching(c) && !LeadersStepDown(r, count);
  }

  /** Each of the two leaders logs a command of its own. */
  lemma TwoLogsReached(count: nat) returns (c: Cluster)
    requires count >= 3
    ensures Reachable(c, count) && TwoLogs(c)
  {
    Splits(count);
    c := Split(count);
    NothingUnderWay(count, [First(count, 2), Second(count)], 1, 2);
    c := LogsAlone(c, 0, X, 1, count);
    c := LogsAlone(c, 1, Y, 0, count);
  }

  lemma LogsOnly(s: NodeState, cmd: Command)
    requires s.role.Leader? && s.log == []
    ensures var o := OnCommand(s, ClientCommand(cmd), NOWHERE);
            && o.Done? && o.out == map[]
            && o.node == s.(log := [LogEntry(s.term, cmd)], acks := o.node.acks, peers := o.node.peers)
  {
  }

  lemma LogsAlone(c: Cluster, n: NodeId, cmd: Command, p: NodeId, count: nat) returns (c': Cluster)
    requires Reachable(c, count) && Full(c, count) && n < count && p < count && p != n
    requires c.nodes[n].role.Leader? && c.inbox[n] == [] && c.nodes[n].log == []
    requires Spare(n, [LogEntry(c.nodes[n].term, cmd)])
    ensures Reachable(c', count) && Full(c', count) && c'.inbox == c.inbox
    ensures var s := c.nodes[n];
            c'.nodes
            == c.nodes[n := s.(log := [LogEntry(s.term, cmd)], acks := c'.nodes[n].acks, peers := c'.nodes[n].peers)]
  {
    Logs(c, n, cmd, p, NOWHERE, count);
    var o := OnCommand(c.nodes[n], ClientCommand(cmd), NOWHERE);
    LogsOnly(c.nodes[n], cmd);
    assert c.inbox[p] + [] == c.inbox[p];
    assert c.inbox[p := c.inbox[p] + []] == c.inbox;
    c' := Cluster(c.nodes[n := o.node], c.inbox, c.alive);
  }

  lemma TwoLogsDisagree(c: Cluster)
    requires TwoLogs(c)
    ensures c.nodes[0].log[..1] != c.nodes[1].log[..1] && !Matching(c)
  {
    assert c.nodes[0].log[..1][0] != c.nodes[1].log[..1][0];
    assert !Agree(c.nodes[0].log, c.nodes[1].log, 0);
  }

  predicate TwoLogs(c: Cluster) {
    && |c.nodes| >= 2
    && c.nodes[0].role.Leader? && c.nodes[1].role.Leader? && c.nodes[0].term == c.nodes[1].term == 2
    && c.nodes[0].log == [LogEntry(2, X)] && c.nodes[1].log == [LogEntry(2, Y)]
  }

  ghost predicate AlwaysMatching(count: nat) {
    forall r: Run, i: nat :: IsRun(r, count) && i < |r.states| ==> Matching(r.states[i])
  }

  /** Log Matching holds in every run if and only if there are at most two nodes. */
  lemma MatchingInEveryRunExactly(count: nat)
    ensures AlwaysMatching(count) <==> count <= 2
  {
    if count <= 2 {
      forall r: Run, i: nat | IsRun(r, count) && i < |r.states| ensures Matching(r.states[i]) {
        RunWellFormed(r, count, i);
        forall x, y, k: nat | 0 <= x < count && 0 <= y < count
          ensures Agree(r.states[i].nodes[x].log, r.states[i].nodes[y].log, k)
        {
          if Comparable(r.states[i], x, y, k) { LogMatching(r, count, i, x, y, k); }
        }
      }
    } else {
      StrandedLeaderBreaksMatching(count);
      var r, c :| EndsIn(r, count, c) && TwoLogs(c) && !Matching(c);
      assert !Matching(r.states[|r.states| - 1]);
    }
  }

  predicate Comparable(c: Cluster, x: NodeId, y: NodeId, k: nat)
    requires x < |c.nodes| && y < |c.nodes|
  {
    var xs, ys := c.nodes[x].log, c.nodes[y].log;
    k < |xs| && k < |ys| && xs[k].term == ys[k].term
  }

  predicate OneLeader(c: Cluster) {
    forall x, y :: 0 <= x < |c.nodes| && 0 <= y < |c.nodes| ==> !BothLead(c.nodes[x], c.nodes[y]) || x == y
  }

  predicate BothLead(s: NodeState, s': NodeState) {
    s.role.Leader? && s'.role.Leader? && s.term == s'.term
  }

  ghost predicate AlwaysOneLeader(count: nat) {
    forall r: Run, i: nat :: IsRun(r, count) && i < |r.states| ==> OneLeader(r.states[i])
  }

  /** At most one node is in office per term, in every state of every run, if and only if there are at
      most two nodes. */
  lemma OneLeaderInEveryRunExactly(count: nat)
    ensures AlwaysOneLeader(count) <==> count <= 2
  {
    if count <= 2 {
      forall r: Run, i: nat | IsRun(r, count) && i < |r.states| ensures OneLeader(r.states[i]) {
        RunWellFormed(r, count, i);
        forall x, y | 0 <= x < count && 0 <= y < count && BothLead(r.states[i].nodes[x], r.states[i].nodes[y])
          ensures x == y
        {
          OneLeaderPerTerm(r, count, i, x, y);
        }
      }
    } else {
      StrandedLeaderBreaksMatching(count);
      var r, c :| EndsIn(r, count, c) && TwoLogs(c) && !Matching(c);
      assert BothLead(c.nodes[0], c.nodes[1]);
      assert !OneLeader(r.states[|r.states| - 1]);
    }
  }
}
