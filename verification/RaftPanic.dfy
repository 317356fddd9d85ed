/** A run in which a node does panic, for every cluster of at least three nodes: the stranded leader
    has an acknowledgement for index 1 under way when the elected leader of its term cuts its log
    back to one entry. With at most two nodes no handler ever panics. */
module RaftPanic {
  import opened Options
  import opened RaftModel
  import opened RaftCluster
  import opened RaftLogMatching
  import opened RaftRuns
  import opened RaftScenes
  import opened RaftStranded

  lemma PanicsNow(s: NodeState, p: NodeId)
    requires s.term == 2 && |s.log| == 1 && |s.acks| == 1 && s.committed <= 1
    ensures Handle(s, AppendEntryResponse(p, 2, 1, true), NOWHERE).Panic?
  {
  }

  // --------------------------------------------------------------------------- the run

  /** Node 1's entry waits at node 0 ahead of node 2's second acknowledgement. */
  lemma BothWaiting(count: nat) returns (c: Cluster, n0: NodeState, n1: NodeState, n2: NodeState)
    requires count >= 3
    ensures TwoLogged(n0, count)
    ensures Scene(c, count, [n0, n1, n2], [[OFFER_Y, AppendEntryResponse(2, 2, 1, true)], [], []])
  {
    var nodes := SplitScene(count);
    c, n0, n2 := FirstAcknowledged(Split(count), count, nodes[0], nodes[1]);
    c, n1 := RivalLogs(c, count, n0, n2, [], [AppendEntry(0, 2, n0.committed, Some(ENTRY_Z))]);
    assert WithEntry(n2, 0, ENTRY_Z).log == [LogEntry(2, X), LogEntry(2, Z)];
    c := FollowerTakes(c, count, n0, n1, n2, [OFFER_Y], n0.committed, ENTRY_Z);
    n2 := WithEntry(n2, 0, ENTRY_Z);
  }

  /** For every number of nodes from three on, some run ends with node 0 panicking. */
  lemma PanicHappens(count: nat)
    requires count >= 3
    ensures exists r, c :: EndsIn(r, count, c) && c.alive == Ids(count) - {0}
  {
    var c, n0, n1, n2 := BothWaiting(count);
    var late := AppendEntryResponse(2, 2, 1, true);
    c := LeaderTakes(c, count, n0, n1, n2, late, ENTRY_Y);
    assert c.inbox[0] == [late] && c.nodes[0] == WithEntry(n0, 1, ENTRY_Y);
    PanicsNow(c.nodes[0], 2);
    Continues(c, Deliver(0, NOWHERE), count);
    var c' := Step(c, Deliver(0, NOWHERE));
    var r: Run :| EndsIn(r, count, c');
    assert c'.alive == Ids(count) - {0};
  }

  ghost predicate NeverPanicking(count: nat) {
    forall r: Run, i: nat :: IsRun(r, count) && i < |r.states| ==> r.states[i].alive == Ids(count)
  }

  /** No handler panics in any run if and only if there are at most two nodes. */
  lemma NoPanicsExactly(count: nat)
    ensures NeverPanicking(count) <==> count <= 2
  {
    if count <= 2 {
      forall r: Run, i: nat | IsRun(r, count) && i < |r.states| ensures r.states[i].alive == Ids(count) {
        MatchingHolds(r, count, i);
      }
    } else {
      PanicHappens(count);
      var r, c :| EndsIn(r, count, c) && c.alive == Ids(count) - {0};
      assert 0 in Ids(count) && r.states[|r.states| - 1].alive != Ids(count);
    }
  }

  // ---------------------------------------------------------------- a leader's log is cut

  /** A node that is in office in one state, and still in its term in a later one, is still in office,
      and its log has only grown. */
  ghost predicate AppendsOnly(r: Run, count: nat, i: nat, j: nat, n: NodeId)
    requires IsRun(r, count) && i <= j < |r.states|
  {
    RunWellFormed(r, count, i);
    RunWellFormed(r, count, j);
    n < count && r.states[i].nodes[n].role.Leader? && r.states[i].nodes[n].term == r.states[j].nodes[n].term ==>
      r.states[j].nodes[n].role.Leader? && r.states[i].nodes[n].log <= r.states[j].nodes[n].log
  }

  ghost predicate AlwaysAppendsOnly(count: nat) {
    forall r: Run, i: nat, j: nat, n: NodeId :: IsRun(r, count) && i <= j < |r.states| ==>
      AppendsOnly(r, count, i, j, n)
  }

  ghost predicate CutAt(r: Run, count: nat, i: nat) {
    IsRun(r, count) && i + 1 < |r.states| && !AppendsOnly(r, count, i, i + 1, 0)
  }

  /** The step in which the stranded leader's log is cut. */
  lemma CutsLog(count: nat)
    requires count >= 3
    ensures exists r: Run, i: nat :: CutAt(r, count, i)
  {
    var c, n0, n1, n2 := BothWaiting(count);
    var a := Deliver(0, Reaching(1));
    Accepts(n0, 1, 0, ENTRY_Y);
    var o := RunAt(c, a);
    assert o == OnAppendEntry(n0, AppendEntry(1, 2, 0, Some(ENTRY_Y)), Reaching(1));
    assert Enabled(c, a);
    var r: Run :| EndsIn(r, count, c);
    assert Spared(r.states[|r.states| - 1]) && Spared(Step(c, a));
    ExtendedEnds(r, c, a, count);
    var r', i := Extended(r, a), |r.states| - 1;
    assert r'.states[i] == c && r'.states[i + 1] == Step(c, a);
    assert Step(c, a).nodes[0] == o.node && o.node.role.Follower? && o.node.term == 2;
    assert CutAt(r', count, i);
  }

  /** Leaders stay in office and only append, as long as their term lasts, in every run if and only if
      there are at most two nodes. */
  lemma AppendOnlyInEveryRunExactly(count: nat)
    ensures AlwaysAppendsOnly(count) <==> count <= 2
  {
    if count <= 2 {
      forall r: Run, i: nat, j: nat, n: NodeId | IsRun(r, count) && i <= j < |r.states|
        ensures AppendsOnly(r, count, i, j, n)
      {
        RunWellFormed(r, count, i);
        RunWellFormed(r, count, j);
        if n < count && r.states[i].nodes[n].role.Leader? && r.states[i].nodes[n].term == r.states[j].nodes[n].term {
          LeaderAppendOnly(r, count, i, j, n);
        }
      }
    } else {
      CutsLog(count);
      var r: Run, i: nat :| CutAt(r, count, i);
      assert i <= i + 1 < |r.states|;
    }
  }
}
