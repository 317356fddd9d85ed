/** Who gets a vote: in every run a node votes for another only if its own log is no newer than the
    other's was when it asked, and always does so if it can answer; so whoever is elected has a log no
    older than those of a majority when they voted. */
module RaftUpToDate {
  import opened Options
  import opened RaftModel
  import opened RaftCluster
  import opened RaftShape
  import opened RaftElection
  import opened RaftCandidates
  import opened RaftTraffic

  /** Logs are compared by the terms of their last entries, and then by their lengths. */
  predicate NoNewer(log: seq<LogEntry>, other: seq<LogEntry>) {
    LastTerm(log) < LastTerm(other) || (LastTerm(log) == LastTerm(other) && |log| <= |other|)
  }

  /** In step `j` node `n` starts an election in `term`. */
  ghost predicate Asks(r: Run, count: nat, j: nat, n: NodeId, term: nat)
    requires IsRun(r, count)
  {
    && j < |r.actions| && r.actions[j].Timeout? && r.actions[j].n == n < |r.states[j].nodes|
    && !r.states[j].nodes[n].role.Leader? && r.states[j].nodes[n].term + 1 == term
  }

  /** The request `m` was sent in step `j`, and tells of the sender's log then. */
  ghost predicate SentIn(r: Run, count: nat, j: nat, m: Message)
    requires IsRun(r, count) && m.RequestVote?
  {
    && Asks(r, count, j, m.from, m.term)
    && m.latestLogInfo == LogInfo(LastTerm(r.states[j].nodes[m.from].log), |r.states[j].nodes[m.from].log|)
  }

  ghost predicate Asked(r: Run, count: nat, i: nat, m: Message)
    requires IsRun(r, count) && m.RequestVote?
  {
    exists j: nat :: j < i && SentIn(r, count, j, m)
  }

  // ------------------------------------------------------------------------- one request

  /** A vote goes out exactly to a request of a later term whose sender's log is not older, if the
      sender can be reached. Nothing else is sent, and the later term is taken over in any case. */
  lemma VotesExactly(s: NodeState, from: NodeId, term: nat, log: seq<LogEntry>, net: Net, p: NodeId)
    requires from in s.peers
    ensures var o := OnRequestVote(s, RequestVote(from, term, LogInfo(LastTerm(log), |log|)), net);
            var votes := s.term < term && NoNewer(s.log, log) && from in net.reach;
            && o.Done? && Sent(o.out, p) == (if votes && p == from then [Vote(term)] else [])
            && o.node == s.(term := if s.term < term then term else s.term,
                            role := if votes then Follower else s.role, leader := if votes then None else s.leader)
  {
  }

  // ------------------------------------------------------------------------- every request

  /** What a timeout puts into inboxes as vote requests. */
  lemma TimeoutRequest(s: NodeState, net: Net, q: NodeId, m: Message)
    requires m.RequestVote? && m in Sent(OnTimeout(s, net).out, q)
    ensures !s.role.Leader? && m == RequestVote(s.id, s.term + 1, LogInfo(LastTerm(s.log), |s.log|))
  {
    if s.role.Leader? { LeaderTimeoutSends(s, net, q); } else { CandidateTimeoutSends(s, net, q); }
  }

  lemma NotAmong(out: Outbox, q: NodeId, x: Message)
    requires x.RequestVote? && forall p, y :: p in out && y in out[p] ==> !y.RequestVote?
    ensures x !in Sent(out, q)
  {
  }

  lemma HandlerSendsNoRequest(s: NodeState, m: Message, net: Net, q: NodeId, x: Message)
    requires x.RequestVote?
    ensures var o := Handle(s, m, net); o.Done? ==> x !in Sent(o.out, q)
  {
    HandlerTraffic(s, m, net);
    var o := Handle(s, m, net);
    if o.Done? { NotAmong(o.out, q, x); }
  }

  /** Only a timeout that starts an election sends vote requests. */
  lemma RequestSent(c: Cluster, a: Action, q: NodeId, m: Message)
    requires Enabled(c, a) && m.RequestVote? && RunAt(c, a).Done? && m in Sent(RunAt(c, a).out, q)
    ensures a.Timeout? && !c.nodes[a.n].role.Leader?
    ensures var s := c.nodes[a.n];
            m == RequestVote(s.id, s.term + 1, LogInfo(LastTerm(s.log), |s.log|))
  {
    match a
    case Inject(_, _) =>
    case Deliver(_, net) => HandlerSendsNoRequest(c.nodes[a.n], Head(c, a), net, q, m);
    case Timeout(_, net) => TimeoutRequest(c.nodes[a.n], net, q, m);
  }

  /** A step that puts a vote request into an inbox is a timeout that starts an election. */
  lemma RequestOrigin(c: Cluster, a: Action, q: NodeId, m: Message)
    requires ShapeInv(c) && Enabled(c, a) && q < |c.nodes| && m.RequestVote?
    requires q < |Step(c, a).inbox| && m in Step(c, a).inbox[q] && m !in c.inbox[q]
    ensures a.Timeout? && a.n == m.from && !c.nodes[a.n].role.Leader? && c.nodes[a.n].term + 1 == m.term
    ensures m.latestLogInfo == LogInfo(LastTerm(c.nodes[a.n].log), |c.nodes[a.n].log|)
  {
    MessageOrigin(c, a, q, m);
    RequestSent(c, a, q, m);
    assert NodeOk(c.nodes[a.n], a.n, |c.nodes|);
  }

  /** Every vote request under way was sent by a node that started that election. */
  lemma {:induction false} RequestsAsked(r: Run, count: nat, i: nat, q: NodeId, m: Message)
    requires IsRun(r, count) && i < |r.states| && q < |r.states[i].inbox| && m in r.states[i].inbox[q] && m.RequestVote?
    ensures Asked(r, count, i, m)
    decreases i
  {
    LogShape(r, count, i);
    if i > 0 {
      LogShape(r, count, i - 1);
      assert StepOf(r, i - 1);
      if m in r.states[i - 1].inbox[q] {
        RequestsAsked(r, count, i - 1, q, m);
        var j: nat :| j < i - 1 && SentIn(r, count, j, m);
      } else {
        RequestOrigin(r.states[i - 1], r.actions[i - 1], q, m);
        assert SentIn(r, count, i - 1, m);
      }
    }
  }

  /** In every run, a vote request makes its receiver vote exactly if it is of a later term, the
      receiver's log is no newer than the sender's was when it asked, and the sender can be reached. */
  lemma VoteGoesOutExactly(r: Run, count: nat, i: nat) returns (j: nat)
    requires IsRun(r, count) && i < |r.actions| && Enabled(r.states[i], r.actions[i])
    requires r.actions[i].Deliver? && Head(r.states[i], r.actions[i]).RequestVote?
    ensures var a, m := r.actions[i], Head(r.states[i], r.actions[i]);
            && j < i && Asks(r, count, j, m.from, m.term)
            && a.n != m.from < |r.states[i].inbox| == |r.states[i + 1].inbox|
            && r.states[i + 1].inbox[m.from] == r.states[i].inbox[m.from]
                 + if r.states[i].nodes[a.n].term < m.term && m.from in a.net.reach
                      && NoNewer(r.states[i].nodes[a.n].log, r.states[j].nodes[m.from].log)
                   then [Vote(m.term)] else []
  {
    LogShape(r, count, i);
    LogShape(r, count, i + 1);
    assert StepOf(r, i);
    var c, a := r.states[i], r.actions[i];
    var m := Head(c, a);
    assert m in c.inbox[a.n] && MessageOk(m, a.n, count);
    RequestsAsked(r, count, i, a.n, m);
    j :| j < i && SentIn(r, count, j, m);
    assert NodeOk(c.nodes[a.n], a.n, count);
    VotesExactly(c.nodes[a.n], m.from, m.term, r.states[j].nodes[m.from].log, a.net, m.from);
    InboxGrows(c, a, m.from);
  }

  // ------------------------------------------------------------------------- every ballot

  /** In step `k` node `v` votes for node `n` in `term`. */
  ghost predicate VotesFor(r: Run, count: nat, k: nat, v: NodeId, n: NodeId, term: nat)
    requires IsRun(r, count)
  {
    && k < |r.actions| && StepOf(r, k) && r.actions[k].n == v
    && BallotOf(r.states[k], r.actions[k]) == Some(Ballot(term, n))
  }

  /** In every run, a ballot for another node was cast by a voter whose log was no newer than the
      candidate's when it asked. */
  lemma VotedForNoNewer(r: Run, count: nat, k: nat, v: NodeId, n: NodeId, term: nat) returns (j: nat)
    requires IsRun(r, count) && VotesFor(r, count, k, v, n, term) && v != n
    ensures j < k && Asks(r, count, j, n, term) && v < |r.states[k].nodes|
    ensures NoNewer(r.states[k].nodes[v].log, r.states[j].nodes[n].log)
  {
    LogShape(r, count, k);
    var c, a := r.states[k], r.actions[k];
    assert a.Deliver?;
    var m := Head(c, a);
    assert m in c.inbox[a.n];
    RequestsAsked(r, count, k, a.n, m);
    j :| j < k && SentIn(r, count, j, m);
  }

  lemma {:induction false} BallotWasCast(r: Run, count: nat, i: nat, v: NodeId, term: nat) returns (k: nat)
    requires IsRun(r, count) && i < |r.states| && (v, term) in BallotsAt(r, count, i)
    ensures k < i && VotesFor(r, count, k, v, BallotsAt(r, count, i)[(v, term)], term)
  {
    assert StepOf(r, i - 1);
    if BallotOf(r.states[i - 1], r.actions[i - 1]) == Some(Ballot(term, BallotsAt(r, count, i)[(v, term)]))
       && r.actions[i - 1].n == v {
      k := i - 1;
    } else {
      k := BallotWasCast(r, count, i - 1, v, term);
    }
  }

  // ----------------------------------------------------------------------- every election

  lemma CandidateKeepsLog(s: NodeState, m: Message, net: Net)
    requires Handle(s, m, net).Done? && Handle(s, m, net).node.role.Candidate?
    ensures Handle(s, m, net).node.log == s.log
  {
    if m.AppendEntry? && m.entry.None? {
      CommitFrame(s.(role := Follower, term := m.term, leader := Some(m.from)), Min(m.committed, |s.log|));
    }
    if m.AppendEntryResponse? && s.term == m.term { AnswerEffect(s, m, net); }
  }

  /** Node `n` has been a candidate in its term since it asked, with this very log. */
  ghost predicate StandsWithLog(r: Run, count: nat, i: nat, j: nat, n: NodeId)
    requires IsRun(r, count) && i < |r.states| && n < |r.states[i].nodes|
  {
    j < i && Asks(r, count, j, n, r.states[i].nodes[n].term) && r.states[j].nodes[n].log == r.states[i].nodes[n].log
  }

  /** One step by another node, or one that the candidate takes without leaving its election. */
  lemma StillStanding(r: Run, count: nat, i: nat, n: NodeId)
    requires IsRun(r, count) && i < |r.actions| && n < count
    requires n < |r.states[i + 1].nodes| && r.states[i + 1].nodes[n].role.Candidate?
    requires VotedForSelf(BallotsAt(r, count, i + 1), n, r.states[i + 1].nodes[n].term)
    requires !Asks(r, count, i, n, r.states[i + 1].nodes[n].term)
    ensures n < |r.states[i].nodes| && r.states[i].nodes[n].role.Candidate?
    ensures r.states[i].nodes[n].term == r.states[i + 1].nodes[n].term
    ensures r.states[i].nodes[n].log == r.states[i + 1].nodes[n].log
    ensures VotedForSelf(BallotsAt(r, count, i), n, r.states[i].nodes[n].term)
  {
    LogShape(r, count, i);
    VotesNeverExceedVoters(r, count, i);
    assert StepOf(r, i);
    var c, a, b := r.states[i], r.actions[i], BallotsAt(r, count, i);
    StepFrame(c, a);
    RunAtOk(c, a);
    if a.n == n && a.Deliver? && RunAt(c, a).Done? {
      CandidateStays(c.nodes[n], Head(c, a), a.net);
      CandidateKeepsLog(c.nodes[n], Head(c, a), a.net);
      HandlerTerms(c.nodes[n], Head(c, a), a.net);
    }
  }

  lemma {:induction false} CandidateSince(r: Run, count: nat, i: nat, n: NodeId) returns (j: nat)
    requires IsRun(r, count) && i < |r.states| && n < count && n < |r.states[i].nodes|
    requires r.states[i].nodes[n].role.Candidate? && VotedForSelf(BallotsAt(r, count, i), n, r.states[i].nodes[n].term)
    ensures StandsWithLog(r, count, i, j, n)
    decreases i
  {
    assert i > 0;
    var term := r.states[i].nodes[n].term;
    if Asks(r, count, i - 1, n, term) {
      assert StepOf(r, i - 1);
      j := i - 1;
    } else {
      StillStanding(r, count, i - 1, n);
      j := CandidateSince(r, count, i - 1, n);
    }
  }

  /** Node `v` has voted for `n` in `term`, with a log no newer than `log`. */
  ghost predicate VotedWithNoNewer(r: Run, count: nat, i: nat, v: NodeId, n: NodeId, term: nat, log: seq<LogEntry>)
    requires IsRun(r, count)
  {
    exists k: nat :: k < i && VotesFor(r, count, k, v, n, term) && v < |r.states[k].nodes|
                     && NoNewer(r.states[k].nodes[v].log, log)
  }

  lemma AskingOnce(r: Run, count: nat, i: nat, j: nat, n: NodeId, term: nat)
    requires IsRun(r, count) && Asks(r, count, i, n, term) && Asks(r, count, j, n, term)
    ensures i == j
  {
    assert StepOf(r, i) && StepOf(r, j);
    OneVotePerTerm(r, count, i, j, n, term);
  }

  lemma VoterHadNoNewer(r: Run, count: nat, i: nat, n: NodeId, term: nat, v: NodeId)
    requires IsRun(r, count) && i < |r.actions| && n < count && BecomesLeader(r, count, i, n, term)
    requires v in Voters(BallotsAt(r, count, i), count, n, term) && v != n
    ensures n < |r.states[i].nodes| && VotedWithNoNewer(r, count, i, v, n, term, r.states[i].nodes[n].log)
  {
    LeaderHasMajority(r, count, i, n, term);
    var j := CandidateSince(r, count, i, n);
    var k := BallotWasCast(r, count, i, v, term);
    var j' := VotedForNoNewer(r, count, k, v, n, term);
    AskingOnce(r, count, j, j', n, term);
  }

  /** In every run, whoever is elected has, besides its own, the votes of a majority whose logs were no
      newer than its own is when it takes office. */
  lemma ElectedIsUpToDate(r: Run, count: nat, i: nat, n: NodeId, term: nat)
    requires IsRun(r, count) && i < |r.actions| && n < count && BecomesLeader(r, count, i, n, term)
    ensures n < |r.states[i].nodes|
    ensures exists q: set<NodeId> ::
              && q <= Ids(count) && 2 * |q| > count
              && forall v :: v in q && v != n ==> VotedWithNoNewer(r, count, i, v, n, term, r.states[i].nodes[n].log)
  {
    LeaderHasMajority(r, count, i, n, term);
    var q := Voters(BallotsAt(r, count, i), count, n, term);
    forall v | v in q && v != n ensures VotedWithNoNewer(r, count, i, v, n, term, r.states[i].nodes[n].log) {
      VoterHadNoNewer(r, count, i, n, term, v);
    }
    assert q <= Ids(count) && 2 * |q| > count;
  }
}
