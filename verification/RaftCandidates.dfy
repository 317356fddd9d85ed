/** When a candidate's count can be trusted. A candidate that adopts the term of a vote request
    without answering it stays candidate, and keeps its old count in a term in which it never stood:
    nobody has voted for it there, not even itself. A candidate's count is covered by real voters
    exactly as long as that does not happen. (It never gets a vote in such a term, so this does no
    harm to election safety.) */
module RaftCandidates {
  import opened Options
  import opened RaftModel
  import opened RaftCluster
  import opened RaftShape
  import opened RaftElection
  import opened RaftRuns

  /** The branch that leaves a candidate in a term it did not stand in. */
  predicate StrandsCandidate(c: Cluster, a: Action)
    requires Enabled(c, a)
  {
    var s := c.nodes[a.n];
    && a.Deliver? && s.role.Candidate?
    && Head(c, a).RequestVote? && s.term < Head(c, a).term
    && !GrantsVote(s, Head(c, a), a.net)
  }

  /** A node's count, and the votes on their way to it, do not exceed its real voters. */
  predicate Covered(c: Cluster, b: Ballots, n: NodeId)
    requires n < |c.nodes| == |c.inbox|
  {
    var s := c.nodes[n];
    s.votes + VotesIn(c.inbox[n], s.term) <= |Voters(b, |c.nodes|, n, s.term)|
  }

  /** Candidates have counted themselves, and whoever got a vote stood for election. */
  ghost predicate StandingInv(c: Cluster, b: Ballots) {
    && (forall n :: 0 <= n < |c.nodes| && c.nodes[n].role.Candidate? ==> c.nodes[n].votes >= 1)
    && (forall k :: k in b ==> VotedForSelf(b, b[k], k.1))
  }

  // --------------------------------------------------------------------------- one step

  lemma CandidateStays(s: NodeState, m: Message, net: Net)
    requires Handle(s, m, net).Done? && Handle(s, m, net).node.role.Candidate?
    ensures var s' := Handle(s, m, net).node;
            && s.role.Candidate? && s'.votes >= s.votes
            && (s'.term != s.term <==> m.RequestVote? && s.term < m.term)
            && (s'.term != s.term ==> s'.term == m.term && !GrantsVote(s, m, net))
  {
    HandlerTerms(s, m, net);
    if m.AppendEntry? && m.entry.None? {
      CommitFrame(s.(role := Follower, term := m.term, leader := Some(m.from)), Min(m.committed, |s.log|));
    }
    if m.AppendEntryResponse? && s.term == m.term { AnswerEffect(s, m, net); }
  }

  lemma StandingVotes(c: Cluster, a: Action, b: Ballots, n: NodeId)
    requires StandingInv(c, b) && Enabled(c, a) && n < |c.nodes|
    ensures n < |Step(c, a).nodes|
    ensures Step(c, a).nodes[n].role.Candidate? ==> Step(c, a).nodes[n].votes >= 1
  {
    StepFrame(c, a);
    if a.n == n && a.Deliver? && RunAt(c, a).Done? && RunAt(c, a).node.role.Candidate? {
      CandidateStays(c.nodes[n], Head(c, a), a.net);
    }
  }

  lemma StepKeepsStanding(c: Cluster, a: Action, b: Ballots)
    requires ShapeInv(c) && BallotsInv(c, b) && StandingInv(c, b) && Enabled(c, a)
    ensures StandingInv(Step(c, a), Record(b, c, a))
  {
    StepFrame(c, a);
    BallotsReached(c, a, b);
    var b' := Record(b, c, a);
    forall n | 0 <= n < |c.nodes| && Step(c, a).nodes[n].role.Candidate? ensures Step(c, a).nodes[n].votes >= 1 {
      StandingVotes(c, a, b, n);
    }
    forall k | k in b' ensures VotedForSelf(b', b'[k], k.1) {
      if k in b {
        assert VotedForSelf(b, b[k], k.1);
      } else if a.Deliver? {
        VoteIsBacked(c, a, b);
      }
    }
  }

  lemma StandingNext(r: Run, count: nat, i: nat)
    requires IsRun(r, count) && i < |r.actions| && StandingInv(r.states[i], BallotsAt(r, count, i))
    ensures StandingInv(r.states[i + 1], BallotsAt(r, count, i + 1))
  {
    VotesNeverExceedVoters(r, count, i);
    assert StepOf(r, i);
    StepKeepsStanding(r.states[i], r.actions[i], BallotsAt(r, count, i));
  }

  lemma {:induction false} StandingAlways(r: Run, count: nat, i: nat)
    requires IsRun(r, count) && i < |r.states|
    ensures StandingInv(r.states[i], BallotsAt(r, count, i))
  {
    if i > 0 {
      StandingAlways(r, count, i - 1);
      StandingNext(r, count, i - 1);
    }
  }

  // ------------------------------------------------------------------------- one state

  /** In every state of every run, a candidate's count is covered if and only if it voted for
      itself in its present term. */
  lemma CoveredExactly(r: Run, count: nat, i: nat, n: NodeId)
    requires IsRun(r, count) && i < |r.states| && n < |r.states[i].nodes| == |r.states[i].inbox|
    requires r.states[i].nodes[n].role.Candidate?
    ensures Covered(r.states[i], BallotsAt(r, count, i), n)
            <==> VotedForSelf(BallotsAt(r, count, i), n, r.states[i].nodes[n].term)
  {
    StandingAlways(r, count, i);
    VotesNeverExceedVoters(r, count, i);
    var c, b := r.states[i], BallotsAt(r, count, i);
    assert CountCovered(c, b, n);
    if Covered(c, b, n) {
      var v :| v in Voters(b, |c.nodes|, n, c.nodes[n].term);
      assert (v, c.nodes[n].term) in b;
    }
  }

  // -------------------------------------------------------------------------- whole runs

  ghost predicate CandidatesCovered(r: Run, count: nat, i: nat)
    requires IsRun(r, count) && i < |r.states|
  {
    RunWellFormed(r, count, i);
    forall n: nat :: n < count && r.states[i].nodes[n].role.Candidate? ==>
      Covered(r.states[i], BallotsAt(r, count, i), n)
  }

  ghost predicate NoneStranded(r: Run, i: nat)
    requires |r.states| == |r.actions| + 1 && i < |r.actions|
  {
    StepOf(r, i) && !StrandsCandidate(r.states[i], r.actions[i])
  }

  /** A candidate stands in its term: it has voted for itself there. */
  predicate Stands(c: Cluster, b: Ballots, n: NodeId)
    requires n < |c.nodes|
  {
    c.nodes[n].role.Candidate? ==> VotedForSelf(b, n, c.nodes[n].term)
  }

  /** Every candidate stands in its term. */
  ghost predicate AllStand(c: Cluster, b: Ballots) {
    forall n :: 0 <= n < |c.nodes| ==> Stands(c, b, n)
  }

  lemma StaysStanding(c: Cluster, a: Action, b: Ballots)
    requires ShapeInv(c) && BallotsInv(c, b) && Enabled(c, a) && a.Deliver? && Stands(c, b, a.n)
    requires !StrandsCandidate(c, a)
    ensures a.n < |Step(c, a).nodes| && Stands(Step(c, a), Record(b, c, a), a.n)
  {
    StepFrame(c, a);
    BallotsReached(c, a, b);
    if RunAt(c, a).Done? && RunAt(c, a).node.role.Candidate? { CandidateStays(c.nodes[a.n], Head(c, a), a.net); }
  }

  lemma BeginsStanding(c: Cluster, a: Action, b: Ballots)
    requires Enabled(c, a) && !a.Deliver? && Stands(c, b, a.n)
    ensures a.n < |Step(c, a).nodes| && Stands(Step(c, a), Record(b, c, a), a.n)
  {
    StepFrame(c, a);
  }

  lemma StepKeepsAllStanding(c: Cluster, a: Action, b: Ballots)
    requires ShapeInv(c) && BallotsInv(c, b) && AllStand(c, b) && Enabled(c, a) && !StrandsCandidate(c, a)
    ensures AllStand(Step(c, a), Record(b, c, a))
  {
    StepFrame(c, a);
    BallotsReached(c, a, b);
    assert Stands(c, b, a.n);
    if a.Deliver? { StaysStanding(c, a, b); } else { BeginsStanding(c, a, b); }
    forall n | 0 <= n < |c.nodes| ensures Stands(Step(c, a), Record(b, c, a), n) {
      assert n != a.n ==> Step(c, a).nodes[n] == c.nodes[n] && Stands(c, b, n);
    }
  }

  lemma AllStandNext(r: Run, count: nat, i: nat)
    requires IsRun(r, count) && i < |r.actions| && AllStand(r.states[i], BallotsAt(r, count, i)) && NoneStranded(r, i)
    ensures AllStand(r.states[i + 1], BallotsAt(r, count, i + 1))
  {
    VotesNeverExceedVoters(r, count, i);
    StepKeepsAllStanding(r.states[i], r.actions[i], BallotsAt(r, count, i));
  }

  lemma {:induction false} AllStandAlways(r: Run, count: nat, i: nat)
    requires IsRun(r, count) && i < |r.states| && forall j :: 0 <= j < |r.actions| ==> NoneStranded(r, j)
    ensures AllStand(r.states[i], BallotsAt(r, count, i))
  {
    if i > 0 {
      AllStandAlways(r, count, i - 1);
      AllStandNext(r, count, i - 1);
    }
  }

  /** A stranded candidate is not covered. */
  lemma StrandedUncovered(r: Run, count: nat, i: nat)
    requires IsRun(r, count) && i < |r.actions| && StepOf(r, i) && StrandsCandidate(r.states[i], r.actions[i])
    ensures !CandidatesCovered(r, count, i + 1)
  {
    VotesNeverExceedVoters(r, count, i);
    RunWellFormed(r, count, i);
    RunWellFormed(r, count, i + 1);
    var c, a, b := r.states[i], r.actions[i], BallotsAt(r, count, i);
    var s' := StrandedState(c, a);
    assert r.states[i + 1].nodes[a.n] == s' && BallotsAt(r, count, i + 1) == b;
    assert (a.n, s'.term) !in b;
    CoveredExactly(r, count, i + 1, a.n);
  }

  lemma StrandedState(c: Cluster, a: Action) returns (s': NodeState)
    requires ShapeInv(c) && Enabled(c, a) && StrandsCandidate(c, a)
    ensures |Step(c, a).nodes| == |c.nodes| && Step(c, a).nodes[a.n] == s'
    ensures s'.role.Candidate? && s'.term > c.nodes[a.n].term && BallotOf(c, a) == None
  {
    StepFrame(c, a);
    RunAtOk(c, a);
    s' := RunAt(c, a).node;
  }

  /** In a run, every candidate's count is always covered by its real voters if and only if no vote
      request ever strands a candidate. */
  lemma CandidatesCoveredExactly(r: Run, count: nat)
    requires IsRun(r, count)
    ensures (forall i :: 0 <= i < |r.states| ==> CandidatesCovered(r, count, i))
            <==> (forall i :: 0 <= i < |r.actions| ==> NoneStranded(r, i))
  {
    if forall i :: 0 <= i < |r.actions| ==> NoneStranded(r, i) {
      forall i | 0 <= i < |r.states| ensures CandidatesCovered(r, count, i) {
        AllStandAlways(r, count, i);
        RunWellFormed(r, count, i);
        forall n: nat | n < count && r.states[i].nodes[n].role.Candidate?
          ensures Covered(r.states[i], BallotsAt(r, count, i), n)
        {
          assert Stands(r.states[i], BallotsAt(r, count, i), n);
          CoveredExactly(r, count, i, n);
        }
      }
    } else {
      var i: nat :| i < |r.actions| && !NoneStranded(r, i);
      assert StepOf(r, i);
      StrandedUncovered(r, count, i);
    }
  }

  // ------------------------------------------------------------------------- every run

  ghost predicate AlwaysCovered(count: nat) {
    forall r: Run, i: nat :: IsRun(r, count) && i < |r.states| ==> CandidatesCovered(r, count, i)
  }

  function Standing(n: NodeId, count: nat, term: nat): NodeState {
    InitialNode(n, Others(n, count)).(role := Candidate, term := term, votes := 1)
  }

  /** Nodes 0 and 1 have both timed out, node 1 twice and with a request to node 0 that got out. */
  function Rivals(count: nat): Cluster
    requires count >= 2
  {
    Cluster(Init(count).nodes[0 := Standing(0, count, 1)][1 := Standing(1, count, 2)],
            Init(count).inbox[0 := [RequestVote(1, 2, LogInfo(0, 0))]], Ids(count))
  }

  lemma TimesOut(c: Cluster, n: NodeId, count: nat, p: NodeId)
    requires Reachable(c, count) && Full(c, count) && n < count && p < count && n != p
    requires !c.nodes[n].role.Leader? && c.nodes[n].log == [] && c.nodes[n].peers.Keys == Others(n, count)
    requires c.nodes[n].id == n
    ensures var s' := c.nodes[n].(term := c.nodes[n].term + 1, leader := None, votes := 1, role := Candidate);
            && Reachable(c.(nodes := c.nodes[n := s']), count)
            && Reachable(Cluster(c.nodes[n := s'],
                                 c.inbox[p := c.inbox[p] + [RequestVote(n, s'.term, LogInfo(0, 0))]], c.alive), count)
  {
    var lost, sent := Timeout(n, NOWHERE), Timeout(n, Reaching(p));
    assert RunAt(c, lost).out == map[];
    assert RunAt(c, sent).out == map[p := [RequestVote(n, c.nodes[n].term + 1, LogInfo(0, 0))]];
    RoutesTo(c.inbox, map[], p);
    assert c.inbox[p] + [] == c.inbox[p];
    RoutesTo(c.inbox, RunAt(c, sent).out, p);
    Continues(c, lost, count);
    Continues(c, sent, count);
    assert c.inbox[p := c.inbox[p]] == c.inbox;
    assert Step(c, lost) == c.(nodes := c.nodes[n := RunAt(c, lost).node]);
  }

  lemma RivalsReached(count: nat)
    requires count >= 2
    ensures Reachable(Rivals(count), count)
  {
    Starts(count);
    var c := Init(count);
    TimesOut(c, 0, count, 1);
    var c1 := c.(nodes := c.nodes[0 := Standing(0, count, 1)]);
    TimesOut(c1, 1, count, 0);
    var c2 := c1.(nodes := c1.nodes[1 := Standing(1, count, 1)]);
    TimesOut(c2, 1, count, 0);
    assert c2.nodes[1 := Standing(1, count, 2)] == Rivals(count).nodes;
    assert c2.inbox[0] + [RequestVote(1, 2, LogInfo(0, 0))] == [RequestVote(1, 2, LogInfo(0, 0))];
  }

  /** From two nodes on, some run leaves a candidate with a count that no voter covers. */
  lemma UncoveredCandidate(count: nat)
    requires count >= 2
    ensures exists r: Run, i: nat :: IsRun(r, count) && i < |r.states| && !CandidatesCovered(r, count, i)
  {
    RivalsReached(count);
    var c, a := Rivals(count), Deliver(0, NOWHERE);
    var r: Run :| EndsIn(r, count, c);
    assert RunAt(c, a) == Done(Standing(0, count, 2), map[]);
    assert StrandsCandidate(c, a);
    assert Spared(r.states[|r.states| - 1]) && Spared(Step(c, a));
    ExtendedEnds(r, c, a, count);
    var r' := Extended(r, a);
    assert StepOf(r', |r.actions|);
    StrandedUncovered(r', count, |r.actions|);
  }

  /** Every candidate's count is covered in every run if and only if there is at most one node. */
  lemma CoveredInEveryRunExactly(count: nat)
    ensures AlwaysCovered(count) <==> count <= 1
  {
    if count >= 2 {
      UncoveredCandidate(count);
    } else {
      forall r: Run, i: nat | IsRun(r, count) && i < |r.states| ensures CandidatesCovered(r, count, i) {
        forall j | 0 <= j < |r.actions| ensures NoneStranded(r, j) { AloneUnstranded(r, count, j); }
        CandidatesCoveredExactly(r, count);
      }
    }
  }

  lemma AloneUnstranded(r: Run, count: nat, j: nat)
    requires IsRun(r, count) && count <= 1 && j < |r.actions|
    ensures NoneStranded(r, j)
  {
    LogShape(r, count, j);
    assert StepOf(r, j);
    var c, a := r.states[j], r.actions[j];
    if a.Deliver? { assert Head(c, a) in c.inbox[a.n] && MessageOk(Head(c, a), a.n, count); }
  }
}
