/** Election safety in every run. Vote messages are anonymous and merely counted, so the
    argument keeps, beside the run, the ballots that were really cast: who voted for whom in
    which term. The votes a node has counted in the election it started, plus those still on their
    way to it, never exceed its real voters, and two majorities of real voters would share a node. */
module RaftElection {
  import opened Options
  import opened RaftModel
  import opened RaftCluster
  import opened RaftShape

  /** The candidate each (voter, term) has voted for. */
  type Ballots = map<(NodeId, nat), NodeId>

  datatype Ballot = Ballot(term: nat, candidate: NodeId)

  /** The ballot the acting node casts in a step: for the requester whose vote it grants and
      gets out, or for itself when it starts an election. */
  function BallotOf(c: Cluster, a: Action): Option<Ballot>
    requires Enabled(c, a)
  {
    var s := c.nodes[a.n];
    if a.Deliver? && GrantsVote(s, Head(c, a), a.net) then Some(Ballot(Head(c, a).term, Head(c, a).from))
    else if a.Timeout? && !s.role.Leader? then Some(Ballot(s.term + 1, a.n))
    else None
  }

  function Record(b: Ballots, c: Cluster, a: Action): Ballots
    requires Enabled(c, a)
  {
    match BallotOf(c, a)
    case None => b
    case Some(ballot) => b[(a.n, ballot.term) := ballot.candidate]
  }

  ghost function BallotsAt(r: Run, count: nat, i: nat): Ballots
    requires IsRun(r, count) && i < |r.states|
  {
    if i == 0 then map[]
    else
      assert StepOf(r, i - 1);
      Record(BallotsAt(r, count, i - 1), r.states[i - 1], r.actions[i - 1])
  }

  function Voters(b: Ballots, count: nat, candidate: NodeId, term: nat): set<NodeId> {
    set v | v in Ids(count) && (v, term) in b && b[(v, term)] == candidate
  }

  predicate VotedForSelf(b: Ballots, i: NodeId, term: nat) {
    (i, term) in b && b[(i, term)] == i
  }

  /** The votes for `term` among some messages. */
  function VotesIn(ms: seq<Message>, term: nat): nat {
    if ms == [] then 0
    else VotesIn(ms[..|ms| - 1], term) + if ms[|ms| - 1] == Vote(term) then 1 else 0
  }

  lemma {:induction false} VotesInConcat(xs: seq<Message>, ys: seq<Message>, term: nat)
    ensures VotesIn(xs + ys, term) == VotesIn(xs, term) + VotesIn(ys, term)
  {
    if ys == [] {
      assert xs + ys == xs;
    } else {
      assert (xs + ys)[..|xs + ys| - 1] == xs + ys[..|ys| - 1];
      VotesInConcat(xs, ys[..|ys| - 1], term);
    }
  }

  lemma {:induction false} NoVotesIn(ms: seq<Message>, term: nat)
    requires Vote(term) !in ms
    ensures VotesIn(ms, term) == 0
  {
    if ms != [] { NoVotesIn(ms[..|ms| - 1], term); }
  }

  lemma VotesInTail(ms: seq<Message>, term: nat)
    requires ms != []
    ensures VotesIn(ms[1..], term) == VotesIn(ms, term) - if ms[0] == Vote(term) then 1 else 0
  {
    VotesInConcat(ms[..1], ms[1..], term);
    assert ms[..1] + ms[1..] == ms;
    assert ms[..1][..0] == [] && ms[..1][0] == ms[0];
    assert VotesIn(ms[..1][..0], term) == 0;
  }

  // ------------------------------------------------------------------ one handler run

  /** Vote requests are sent by the timeout branch only, votes by a granting handler only. */
  lemma HandlerTraffic(s: NodeState, m: Message, net: Net)
    ensures var o := Handle(s, m, net);
            o.Done? ==>
              && (forall q, x :: q in o.out && x in o.out[q] ==> !x.RequestVote? && (x.Vote? ==> GrantsVote(s, m, net)))
              && (GrantsVote(s, m, net) ==> o.out == map[m.from := [Vote(m.term)]])
  {
    match m
    case ClientCommand(_) => CommandTraffic(s, m, net);
    case AppendEntry(_, _, _, _) => AppendEntryTraffic(s, m, net);
    case AppendEntryResponse(_, _, _, _) => AnswerTraffic(s, m, net);
    case RequestVote(_, _, _) => RequestTraffic(s, m, net);
    case Vote(_) => WinTraffic(s, m, net);
  }

  lemma RequestTraffic(s: NodeState, m: Message, net: Net)
    requires m.RequestVote?
    ensures var o := OnRequestVote(s, m, net);
            o.Done? ==> o.out == if GrantsVote(s, m, net) then map[m.from := [Vote(m.term)]] else map[]
  {
  }

  lemma WinTraffic(s: NodeState, m: Message, net: Net)
    requires m.Vote?
    ensures var o := OnVote(s, m, net);
            o.Done? && forall q, x :: q in o.out && x in o.out[q] ==> x.AppendEntry?
  {
  }

  lemma AnswerTraffic(s: NodeState, m: Message, net: Net)
    requires m.AppendEntryResponse?
    ensures var o := OnAppendEntryResponse(s, m, net);
            o.Done? ==> forall q, x :: q in o.out && x in o.out[q] ==> !x.RequestVote? && !x.Vote?
  {
  }

  lemma CommandTraffic(s: NodeState, m: Message, net: Net)
    requires m.ClientCommand?
    ensures var o := OnCommand(s, m, net);
            o.Done? ==> forall q, x :: q in o.out && x in o.out[q] ==> !x.RequestVote? && !x.Vote?
  {
  }

  lemma AppendEntryTraffic(s: NodeState, m: Message, net: Net)
    requires m.AppendEntry?
    ensures var o := OnAppendEntry(s, m, net);
            o.Done? ==> forall q, x :: q in o.out && x in o.out[q] ==> !x.RequestVote? && !x.Vote?
  {
    if s.term <= m.term {
      var s1 := s.(role := Follower, term := m.term, leader := Some(m.from));
      var r := if m.entry.Some? then ReceiveEntry(s1, m, net) else FollowCommit(s1, m);
      assert forall q, x :: q in r.out && x in r.out[q] ==> x.AppendEntryResponse?;
    }
  }

  /** How a handler run moves term, votes and role. */
  lemma HandlerTerms(s: NodeState, m: Message, net: Net)
    ensures var o := Handle(s, m, net);
            o.Done? ==>
              && s.term <= o.node.term
              && (GrantsVote(s, m, net) ==> s.term < o.node.term == m.term && o.node.role.Follower?)
              && o.node.votes == s.votes + (if m == Vote(s.term) && s.role.Candidate? then 1 else 0)
              && (o.node.role.Candidate? ==> s.role.Candidate?)
              && (o.node.role.Leader? && !s.role.Leader? <==> WinsElection(s, m))
              && (WinsElection(s, m) ==> o.node.term == s.term)
  {
    if m.AppendEntry? && m.entry.None? {
      CommitFrame(s.(role := Follower, term := m.term, leader := Some(m.from)), Min(m.committed, |s.log|));
    }
    if m.AppendEntryResponse? && m.index < |s.acks| && m.index < |s.log| {
      CountAckFrame(s, m.from, m.index);
    }
  }

  // --------------------------------------------------------------------- the invariant

  ghost predicate BallotsInv(c: Cluster, b: Ballots)
    requires ShapeInv(c)
  {
    var count := |c.nodes|;
    // ballots are only ever cast for terms a node has reached
    && (forall k :: k in b ==> k.0 < count && k.1 <= c.nodes[k.0].term)
    // a request or a vote on its way concerns an election its candidate really started
    && (forall q, m :: 0 <= q < count && m in c.inbox[q] && m.RequestVote? ==> VotedForSelf(b, m.from, m.term))
    && (forall q, m :: 0 <= q < count && m in c.inbox[q] && m.Vote? ==> VotedForSelf(b, q, m.term))
    // counted votes and votes on their way are covered by real voters
    && (forall i :: 0 <= i < count ==> CountCovered(c, b, i))
  }

  ghost predicate CountCovered(c: Cluster, b: Ballots, i: nat)
    requires ShapeInv(c) && i < |c.nodes|
  {
    var s := c.nodes[i];
    VotedForSelf(b, i, s.term) ==> s.votes + VotesIn(c.inbox[i], s.term) <= |Voters(b, |c.nodes|, i, s.term)|
  }

  /** A ballot is never cast twice: the voter had not reached the term before. */
  lemma BallotIsFresh(c: Cluster, a: Action, b: Ballots)
    requires ShapeInv(c) && BallotsInv(c, b) && Enabled(c, a) && BallotOf(c, a).Some?
    ensures (a.n, BallotOf(c, a).value.term) !in b
    ensures RunAt(c, a).Done? && RunAt(c, a).node.term == BallotOf(c, a).value.term > c.nodes[a.n].term
  {
    RunAtOk(c, a);
    if a.Deliver? { HandlerTerms(c.nodes[a.n], Head(c, a), a.net); }
  }

  lemma VotersInsert(b: Ballots, count: nat, voter: NodeId, ballot: Ballot, i: NodeId, term: nat)
    requires voter < count && (voter, ballot.term) !in b
    ensures |Voters(b[(voter, ballot.term) := ballot.candidate], count, i, term)|
            == |Voters(b, count, i, term)| + if ballot == Ballot(term, i) then 1 else 0
  {
    var b' := b[(voter, ballot.term) := ballot.candidate];
    var before, after := Voters(b, count, i, term), Voters(b', count, i, term);
    forall v ensures v in after <==> v in before || (v == voter && ballot == Ballot(term, i)) {
      if v == voter { assert (v, ballot.term) !in b; }
    }
    assert voter !in before || ballot.term != term;
    assert after == if ballot == Ballot(term, i) then before + {voter} else before;
  }

  /** A fresh ballot adds its voter to exactly one constituency. */
  lemma VotersAfter(c: Cluster, a: Action, b: Ballots, i: NodeId, term: nat)
    requires ShapeInv(c) && BallotsInv(c, b) && Enabled(c, a) && i < |c.nodes|
    ensures |Voters(Record(b, c, a), |c.nodes|, i, term)|
            == |Voters(b, |c.nodes|, i, term)| + if BallotOf(c, a) == Some(Ballot(term, i)) then 1 else 0
  {
    if BallotOf(c, a).Some? {
      BallotIsFresh(c, a, b);
      VotersInsert(b, |c.nodes|, a.n, BallotOf(c, a).value, i, term);
    }
  }

  lemma OneVoteMessage(term: nat, asked: nat)
    ensures VotesIn([Vote(term)], asked) == if term == asked then 1 else 0
  {
    assert [Vote(term)][..0] == [];
    assert VotesIn([Vote(term)][..0], asked) == 0;
  }

  /** The votes a handler run sends to a node: the one it grants, if any. */
  lemma VotesHandled(s: NodeState, m: Message, net: Net, i: NodeId, term: nat)
    requires Handle(s, m, net).Done?
    ensures VotesIn(Sent(Handle(s, m, net).out, i), term)
            == if GrantsVote(s, m, net) && m.from == i && m.term == term then 1 else 0
  {
    HandlerTraffic(s, m, net);
    if GrantsVote(s, m, net) && m.from == i {
      OneVoteMessage(m.term, term);
    } else {
      NoVotesIn(Sent(Handle(s, m, net).out, i), term);
    }
  }

  /** The votes a step sends to another node: the one it grants, if any. */
  lemma VotesSent(c: Cluster, a: Action, i: NodeId, term: nat)
    requires Enabled(c, a) && RunAt(c, a).Done? && i != a.n
    ensures VotesIn(Sent(RunAt(c, a).out, i), term) == if BallotOf(c, a) == Some(Ballot(term, i)) then 1 else 0
  {
    if a.Deliver? {
      VotesHandled(c.nodes[a.n], Head(c, a), a.net, i, term);
    } else {
      assert Vote(term) !in Sent(RunAt(c, a).out, i);
      NoVotesIn(Sent(RunAt(c, a).out, i), term);
    }
  }

  /** The votes for `term` waiting at a node that did not act. */
  lemma VotesWaitingElsewhere(c: Cluster, a: Action, i: NodeId, term: nat)
    requires ShapeInv(c) && Enabled(c, a) && i < |c.nodes| && i != a.n
    ensures i < |Step(c, a).inbox|
    ensures VotesIn(Step(c, a).inbox[i], term)
            == VotesIn(c.inbox[i], term) + if BallotOf(c, a) == Some(Ballot(term, i)) then 1 else 0
  {
    RunAtOk(c, a);
    match RunAt(c, a)
    case Panic =>
    case Done(_, out) =>
      VotesInConcat(c.inbox[i], Sent(out, i), term);
      VotesSent(c, a, i, term);
  }

  lemma CountCoveredElsewhere(c: Cluster, a: Action, b: Ballots, i: NodeId)
    requires ShapeInv(c) && BallotsInv(c, b) && Enabled(c, a) && i < |c.nodes| && i != a.n
    requires ShapeInv(Step(c, a)) && |Step(c, a).nodes| == |c.nodes|
    ensures CountCovered(Step(c, a), Record(b, c, a), i)
  {
    StepFrame(c, a);
    assert CountCovered(c, b, i);
    VotersAfter(c, a, b, i, c.nodes[i].term);
    VotesWaitingElsewhere(c, a, i, c.nodes[i].term);
  }

  lemma ActorInbox(c: Cluster, a: Action)
    requires ShapeInv(c) && Enabled(c, a)
    ensures a.n < |Step(c, a).inbox| && Step(c, a).inbox[a.n] == Taken(c, a)[a.n]
  {
    RunAtOk(c, a);
  }

  lemma CountCoveredAtReceiver(c: Cluster, a: Action, b: Ballots)
    requires ShapeInv(c) && BallotsInv(c, b) && Enabled(c, a) && a.Deliver?
    requires ShapeInv(Step(c, a)) && |Step(c, a).nodes| == |c.nodes|
    ensures CountCovered(Step(c, a), Record(b, c, a), a.n)
  {
    var n, s, b' := a.n, c.nodes[a.n], Record(b, c, a);
    ActorInbox(c, a);
    HandlerTerms(s, Head(c, a), a.net);
    VotesInTail(c.inbox[n], s.term);
    assert CountCovered(c, b, n);
    var s' := Step(c, a).nodes[n];
    if BallotOf(c, a).Some? {
      BallotIsFresh(c, a, b);
      assert !VotedForSelf(b', n, s'.term);
    } else if s'.term > s.term {
      assert !VotedForSelf(b', n, s'.term);
    }
  }

  /** What a timeout does to the votes of the acting node. */
  lemma TimeoutVotes(c: Cluster, a: Action)
    requires ShapeInv(c) && Enabled(c, a) && a.Timeout?
    ensures var n, s, c' := a.n, c.nodes[a.n], Step(c, a);
            && |c'.nodes| == |c'.inbox| == |c.nodes| && c'.inbox[n] == c.inbox[n]
            && (s.role.Leader? ==> c'.nodes[n] == s && BallotOf(c, a) == None)
            && (!s.role.Leader? ==> c'.nodes[n].term == s.term + 1 && c'.nodes[n].votes == 1
                                    && BallotOf(c, a) == Some(Ballot(s.term + 1, n)))
  {
    ActorInbox(c, a);
  }

  lemma CountCoveredAtElection(c: Cluster, a: Action, b: Ballots)
    requires ShapeInv(c) && BallotsInv(c, b) && Enabled(c, a) && a.Timeout?
    requires ShapeInv(Step(c, a)) && |Step(c, a).nodes| == |c.nodes|
    ensures CountCovered(Step(c, a), Record(b, c, a), a.n)
  {
    var n, s, c', b' := a.n, c.nodes[a.n], Step(c, a), Record(b, c, a);
    TimeoutVotes(c, a);
    if s.role.Leader? {
      assert CountCovered(c, b, n);
    } else {
      VotersAfter(c, a, b, n, s.term + 1);
      assert VotesIn(c'.inbox[n], s.term + 1) == 0 by { NoVotesIn(c.inbox[n], s.term + 1); }
    }
  }

  lemma CountCoveredAtActor(c: Cluster, a: Action, b: Ballots)
    requires ShapeInv(c) && BallotsInv(c, b) && Enabled(c, a)
    requires ShapeInv(Step(c, a)) && |Step(c, a).nodes| == |c.nodes|
    ensures CountCovered(Step(c, a), Record(b, c, a), a.n)
  {
    match a
    case Inject(n, cmd) =>
      assert CountCovered(c, b, n);
      VotesInConcat(c.inbox[n], [ClientCommand(cmd)], c.nodes[n].term);
      NoVotesIn([ClientCommand(cmd)], c.nodes[n].term);
      ActorInbox(c, a);
    case Deliver(_, _) => CountCoveredAtReceiver(c, a, b);
    case Timeout(_, _) => CountCoveredAtElection(c, a, b);
  }

  lemma BallotsReached(c: Cluster, a: Action, b: Ballots)
    requires ShapeInv(c) && BallotsInv(c, b) && Enabled(c, a)
    ensures forall k :: k in b ==> k in Record(b, c, a) && Record(b, c, a)[k] == b[k]
    ensures forall k :: k in Record(b, c, a) ==> k.0 < |Step(c, a).nodes| && k.1 <= Step(c, a).nodes[k.0].term
  {
    StepFrame(c, a);
    RunAtOk(c, a);
    if BallotOf(c, a).Some? { BallotIsFresh(c, a, b); }
    if a.Deliver? { HandlerTerms(c.nodes[a.n], Head(c, a), a.net); }
  }

  predicate Backed(b: Ballots, q: NodeId, m: Message) {
    && (m.RequestVote? ==> VotedForSelf(b, m.from, m.term))
    && (m.Vote? ==> VotedForSelf(b, q, m.term))
  }

  lemma BackedPersists(c: Cluster, a: Action, b: Ballots, q: NodeId, m: Message)
    requires ShapeInv(c) && BallotsInv(c, b) && Enabled(c, a) && Backed(b, q, m)
    ensures Backed(Record(b, c, a), q, m)
  {
    BallotsReached(c, a, b);
  }

  /** A message sent in a step is backed by a ballot cast in it, or by the one that backed the
      request it answers. */
  lemma SentIsBacked(c: Cluster, a: Action, b: Ballots, q: NodeId, m: Message)
    requires ShapeInv(c) && BallotsInv(c, b) && Enabled(c, a)
    requires RunAt(c, a).Done? && m in Sent(RunAt(c, a).out, q)
    ensures Backed(Record(b, c, a), q, m)
  {
    if a.Deliver? {
      HandlerTraffic(c.nodes[a.n], Head(c, a), a.net);
      if m.Vote? { VoteIsBacked(c, a, b); }
    } else if a.Timeout? && m.RequestVote? {
      assert BallotOf(c, a) == Some(Ballot(m.term, a.n)) && m.from == a.n;
    }
  }

  /** A vote that is given out answers a request of a candidate that voted for itself. */
  lemma VoteIsBacked(c: Cluster, a: Action, b: Ballots)
    requires ShapeInv(c) && BallotsInv(c, b) && Enabled(c, a) && a.Deliver? && Head(c, a).RequestVote?
    ensures VotedForSelf(Record(b, c, a), Head(c, a).from, Head(c, a).term)
  {
    var head := Head(c, a);
    assert head in c.inbox[a.n];
    assert Backed(b, head.from, head);
    BackedPersists(c, a, b, head.from, head);
  }

  lemma MessagesBacked(c: Cluster, a: Action, b: Ballots, q: NodeId, m: Message)
    requires ShapeInv(c) && BallotsInv(c, b) && Enabled(c, a)
    requires q < |c.nodes| && |Step(c, a).inbox| == |c.nodes| && m in Step(c, a).inbox[q]
    ensures Backed(Record(b, c, a), q, m)
  {
    MessageOrigin(c, a, q, m);
    if m in c.inbox[q] {
      BackedPersists(c, a, b, q, m);
    } else if RunAt(c, a).Done? && m in Sent(RunAt(c, a).out, q) {
      SentIsBacked(c, a, b, q, m);
    }
  }

  lemma StepKeepsBallots(c: Cluster, a: Action, b: Ballots)
    requires ShapeInv(c) && BallotsInv(c, b) && Enabled(c, a)
    ensures ShapeInv(Step(c, a)) && BallotsInv(Step(c, a), Record(b, c, a))
  {
    StepKeepsShape(c, a);
    StepFrame(c, a);
    BallotsReached(c, a, b);
    var c', b' := Step(c, a), Record(b, c, a);
    forall q, m | 0 <= q < |c'.nodes| && m in c'.inbox[q]
      ensures m.RequestVote? ==> VotedForSelf(b', m.from, m.term)
      ensures m.Vote? ==> VotedForSelf(b', q, m.term)
    {
      MessagesBacked(c, a, b, q, m);
    }
    forall i | 0 <= i < |c'.nodes| ensures CountCovered(c', b', i) {
      if i == a.n { CountCoveredAtActor(c, a, b); } else { CountCoveredElsewhere(c, a, b, i); }
    }
  }

  /** In every run, the votes a node has counted in the election it started, plus those still
      on their way to it, never exceed the nodes that really voted for it. */
  lemma {:induction false} VotesNeverExceedVoters(r: Run, count: nat, i: nat)
    requires IsRun(r, count) && i < |r.states|
    ensures ShapeInv(r.states[i]) && BallotsInv(r.states[i], BallotsAt(r, count, i))
  {
    LogShape(r, count, i);
    if i > 0 {
      VotesNeverExceedVoters(r, count, i - 1);
      assert StepOf(r, i - 1);
      StepKeepsBallots(r.states[i - 1], r.actions[i - 1], BallotsAt(r, count, i - 1));
    }
  }

  // --------------------------------------------------------------------- the theorems

  lemma BallotsPersistOnce(r: Run, count: nat, i: nat)
    requires IsRun(r, count) && i < |r.actions|
    ensures forall k :: k in BallotsAt(r, count, i) ==>
              k in BallotsAt(r, count, i + 1) && BallotsAt(r, count, i + 1)[k] == BallotsAt(r, count, i)[k]
  {
    VotesNeverExceedVoters(r, count, i);
    assert StepOf(r, i);
    BallotsReached(r.states[i], r.actions[i], BallotsAt(r, count, i));
  }

  lemma {:induction false} BallotsPersist(r: Run, count: nat, i: nat, j: nat)
    requires IsRun(r, count) && i <= j < |r.states|
    ensures forall k :: k in BallotsAt(r, count, i) ==>
              k in BallotsAt(r, count, j) && BallotsAt(r, count, j)[k] == BallotsAt(r, count, i)[k]
    decreases j
  {
    if i < j {
      BallotsPersist(r, count, i, j - 1);
      BallotsPersistOnce(r, count, j - 1);
    }
  }

  ghost predicate CastsBallot(r: Run, count: nat, i: nat, voter: NodeId, term: nat)
    requires IsRun(r, count) && i < |r.actions|
  {
    assert StepOf(r, i);
    var ballot := BallotOf(r.states[i], r.actions[i]);
    r.actions[i].n == voter && ballot.Some? && ballot.value.term == term
  }

  /** In every run, a node votes at most once per term, be it for another or for itself. */
  lemma OneVotePerTerm(r: Run, count: nat, i: nat, j: nat, voter: NodeId, term: nat)
    requires IsRun(r, count) && i < |r.actions| && j < |r.actions|
    requires CastsBallot(r, count, i, voter, term) && CastsBallot(r, count, j, voter, term)
    ensures i == j
  {
    if i != j {
      var first, second := if i < j then i else j, if i < j then j else i;
      BallotsPersist(r, count, first + 1, second);
      VotesNeverExceedVoters(r, count, second);
      assert StepOf(r, first) && StepOf(r, second);
      assert (voter, term) in BallotsAt(r, count, first + 1);
      BallotIsFresh(r.states[second], r.actions[second], BallotsAt(r, count, second));
    }
  }

  /** Node `n` takes the step to leadership in `term`. */
  ghost predicate BecomesLeader(r: Run, count: nat, i: nat, n: NodeId, term: nat)
    requires IsRun(r, count) && i < |r.actions| && n < count
  {
    RunWellFormed(r, count, i);
    RunWellFormed(r, count, i + 1);
    var s, s' := r.states[i].nodes[n], r.states[i + 1].nodes[n];
    !s.role.Leader? && s'.role.Leader? && s'.term == term
  }

  /** A winning vote completes a majority of real voters. */
  lemma WinHasMajority(c: Cluster, a: Action, b: Ballots)
    requires ShapeInv(c) && BallotsInv(c, b) && Enabled(c, a) && a.Deliver?
    requires WinsElection(c.nodes[a.n], Head(c, a))
    ensures 2 * |Voters(b, |c.nodes|, a.n, c.nodes[a.n].term)| > |c.nodes|
    ensures VotedForSelf(b, a.n, c.nodes[a.n].term)
  {
    var n, s := a.n, c.nodes[a.n];
    assert Head(c, a) in c.inbox[n];
    assert CountCovered(c, b, n);
    VotesInTail(c.inbox[n], s.term);
    assert |s.peers| == |s.peers.Keys| == |c.nodes| - 1;
  }

  /** Whoever becomes leader was a candidate in its own election and holds a majority of real
      votes for it. */
  lemma LeaderHasMajority(r: Run, count: nat, i: nat, n: NodeId, term: nat)
    requires IsRun(r, count) && i < |r.actions| && n < count && BecomesLeader(r, count, i, n, term)
    ensures 2 * |Voters(BallotsAt(r, count, i), count, n, term)| > count
    ensures VotedForSelf(BallotsAt(r, count, i), n, term)
    ensures n < |r.states[i].nodes| && r.states[i].nodes[n].role.Candidate? && r.states[i].nodes[n].term == term
  {
    LogShape(r, count, i);
    assert StepOf(r, i);
    var c, a := r.states[i], r.actions[i];
    VotesNeverExceedVoters(r, count, i);
    StepFrame(c, a);
    RunAtOk(c, a);
    HandlerTerms(c.nodes[n], Head(c, a), a.net);
    WinHasMajority(c, a, BallotsAt(r, count, i));
  }

  lemma TwoMajoritiesMeet(b: Ballots, count: nat, x: NodeId, y: NodeId, term: nat)
    requires 2 * |Voters(b, count, x, term)| > count && 2 * |Voters(b, count, y, term)| > count
    ensures x == y
  {
    var xs, ys := Voters(b, count, x, term), Voters(b, count, y, term);
    if x != y {
      assert xs !! ys;
      SubsetSize(xs + ys, Ids(count));
    }
  }

  lemma {:induction false} SubsetSize(a: set<NodeId>, b: set<NodeId>)
    requires a <= b
    ensures |a| <= |b|
  {
    if a != {} {
      var x :| x in a;
      SubsetSize(a - {x}, b - {x});
    }
  }

  lemma VotersGrow(r: Run, count: nat, i: nat, j: nat, n: NodeId, term: nat)
    requires IsRun(r, count) && i <= j < |r.states|
    ensures |Voters(BallotsAt(r, count, i), count, n, term)| <= |Voters(BallotsAt(r, count, j), count, n, term)|
  {
    BallotsPersist(r, count, i, j);
    SubsetSize(Voters(BallotsAt(r, count, i), count, n, term), Voters(BallotsAt(r, count, j), count, n, term));
  }

  /** Once a node has been elected in a term it is never again a candidate in that term. */
  lemma {:induction false} NeverCandidateAgain(r: Run, count: nat, i: nat, j: nat, n: NodeId, term: nat)
    requires IsRun(r, count) && i < |r.actions| && n < count && BecomesLeader(r, count, i, n, term)
    requires i < j < |r.states|
    ensures n < |r.states[j].nodes| && term <= r.states[j].nodes[n].term
    ensures !(r.states[j].nodes[n].role.Candidate? && r.states[j].nodes[n].term == term)
    decreases j
  {
    RunWellFormed(r, count, i + 1);
    RunWellFormed(r, count, j);
    if j > i + 1 {
      NeverCandidateAgain(r, count, i, j - 1, n, term);
      assert StepOf(r, j - 1);
      StepFrame(r.states[j - 1], r.actions[j - 1]);
      var c, a := r.states[j - 1], r.actions[j - 1];
      if a.Deliver? && a.n == n { HandlerTerms(c.nodes[n], Head(c, a), a.net); }
    }
  }

  /** Election safety: in every run, each term has at most one step to leadership, so at most
      one node is ever elected in it. */
  lemma ElectionSafety(r: Run, count: nat, i: nat, j: nat, x: NodeId, y: NodeId, term: nat)
    requires IsRun(r, count) && i < |r.actions| && j < |r.actions| && x < count && y < count
    requires BecomesLeader(r, count, i, x, term) && BecomesLeader(r, count, j, y, term)
    ensures x == y && i == j
  {
    var last := if i < j then j else i;
    LeaderHasMajority(r, count, i, x, term);
    LeaderHasMajority(r, count, j, y, term);
    VotersGrow(r, count, i, last, x, term);
    VotersGrow(r, count, j, last, y, term);
    TwoMajoritiesMeet(BallotsAt(r, count, last), count, x, y, term);
    if i < j { NeverCandidateAgain(r, count, i, j, x, term); }
    if j < i { NeverCandidateAgain(r, count, j, i, y, term); }
  }
}
