/** Log Matching, for every run in which each vote request that raises a leader's term is
    granted and gets out, so that the leader steps down; and for every run of at most two nodes.
    The proof keeps, beside the run, one reign per term that has a leader: the leader and its log.
    Every log is then a patchwork of reigns, and two patchworks that agree on the term at an index
    agree up to it. With two nodes, a leader that is stranded in a new term reigns in it too: the
    other node could be elected only with the vote that the leader has not given. */
module RaftLogMatching {
  import opened Options
  import opened RaftModel
  import opened RaftCluster
  import opened RaftShape
  import opened RaftElection

  /** The branch that leaves a leader in office with a term it was not elected in: it adopts
      the term of a vote request that it does not answer with a vote. */
  predicate StrandsLeader(c: Cluster, a: Action)
    requires Enabled(c, a)
  {
    var s := c.nodes[a.n];
    && a.Deliver? && s.role.Leader?
    && Head(c, a).RequestVote? && s.term < Head(c, a).term
    && !GrantsVote(s, Head(c, a), a.net)
  }

  ghost predicate LeadersStepDown(r: Run, count: nat)
    requires IsRun(r, count)
  {
    forall i :: 0 <= i < |r.actions| ==> KeepsOffice(r, i)
  }

  ghost predicate KeepsOffice(r: Run, i: nat)
    requires |r.states| == |r.actions| + 1 && i < |r.actions|
  {
    StepOf(r, i) && !StrandsLeader(r.states[i], r.actions[i])
  }

  /** With at most two nodes, stranding a leader does no harm. */
  predicate Tame(c: Cluster, a: Action)
    requires Enabled(c, a)
  {
    |c.nodes| <= 2 || !StrandsLeader(c, a)
  }

  ghost predicate Orderly(r: Run, count: nat)
    requires IsRun(r, count)
  {
    count <= 2 || LeadersStepDown(r, count)
  }

  datatype Reign = Reign(leader: NodeId, log: seq<LogEntry>)

  type Reigns = map<nat, Reign>

  predicate Leads(g: Reigns, term: nat, i: NodeId) {
    term in g && g[term].leader == i
  }

  /** A step that wins an election starts a reign, and so does one that strands a leader in a new
      term; a leader's new entry extends its own. */
  function Chronicle(g: Reigns, c: Cluster, a: Action): Reigns
    requires Enabled(c, a)
  {
    if a.Deliver? && RunAt(c, a).Done? then Continue(g, c.nodes[a.n], Head(c, a), RunAt(c, a).node, a.n) else g
  }

  predicate Reigning(g: Reigns, s: NodeState, m: Message, s': NodeState, n: NodeId) {
    || WinsElection(s, m)
    || (m.ClientCommand? && s.role.Leader? && Leads(g, s.term, n))
    || (m.RequestVote? && s.role.Leader? && s'.role.Leader? && s.term < s'.term)
  }

  function Continue(g: Reigns, s: NodeState, m: Message, s': NodeState, n: NodeId): Reigns {
    if Reigning(g, s, m, s', n) then g[s'.term := Reign(n, s'.log)] else g
  }

  ghost function ReignsAt(r: Run, count: nat, i: nat): Reigns
    requires IsRun(r, count) && i < |r.states|
  {
    if i == 0 then map[]
    else
      assert StepOf(r, i - 1);
      Chronicle(ReignsAt(r, count, i - 1), r.states[i - 1], r.actions[i - 1])
  }

  // --------------------------------------------------------------------- the invariant

  /** Up to and including any of its entries, the log is the log of that entry's reign. */
  predicate Chained(log: seq<LogEntry>, g: Reigns) {
    forall k :: 0 <= k < |log| ==> ChainedAt(log, g, k)
  }

  predicate ChainedAt(log: seq<LogEntry>, g: Reigns, k: nat)
    requires k < |log|
  {
    && log[k].term in g
    && k < |g[log[k].term].log|
    && log[..k + 1] == g[log[k].term].log[..k + 1]
  }

  /** An entry offered in `term` comes from the reign it names, predecessor included, and has its
      place in the offering leader's log. */
  predicate Offered(e: EntryData, term: nat, g: Reigns) {
    && e.term in g && e.index < |g[e.term].log|
    && g[e.term].log[e.index] == LogEntry(e.term, e.command)
    && e.prevTerm == PrevEntryTerm(g[e.term].log, e.index)
    && term in g && e.index < |g[term].log| && g[term].log[e.index].term == e.term
  }

  ghost predicate NodeLog(s: NodeState, i: NodeId, g: Reigns) {
    && Chained(s.log, g)
    && (s.role.Leader? <==> Leads(g, s.term, i))
    && (s.role.Leader? ==> s.log == g[s.term].log)
    && (forall t: nat :: Leads(g, t, i) ==> t <= s.term)
    && (s.role.Leader? ==> forall p :: p in s.peers && s.peers[p].Some? ==> Offered(s.peers[p].value, s.term, g))
  }

  predicate MessageLog(m: Message, q: NodeId, g: Reigns) {
    match m
    case AppendEntry(from, term, _, entry) =>
      Leads(g, term, from) && (entry.Some? ==> Offered(entry.value, term, g))
    case AppendEntryResponse(_, term, index, _) =>
      Leads(g, term, q) && index < |g[term].log|
    case _ => true
  }

  /** A leader was elected by a majority; or, with at most two nodes, it never voted in its term. */
  predicate Rightful(g: Reigns, b: Ballots, count: nat, t: nat)
    requires t in g
  {
    var l := g[t].leader;
    l < count && (2 * |Voters(b, count, l, t)| > count || (count <= 2 && (l, t) !in b))
  }

  ghost predicate ReignsInv(g: Reigns, b: Ballots, count: nat) {
    forall t :: t in g ==> Rightful(g, b, count, t) && Chained(g[t].log, g)
  }

  ghost predicate MatchingInv(c: Cluster, b: Ballots, g: Reigns) {
    && ShapeInv(c) && BallotsInv(c, b) && ReignsInv(g, b, |c.nodes|)
    && (forall i :: 0 <= i < |c.nodes| ==> NodeLog(c.nodes[i], i, g))
    && (forall q, m :: 0 <= q < |c.nodes| && m in c.inbox[q] ==> MessageLog(m, q, g))
  }

  // ------------------------------------------------------------------------- stability

  predicate Extends(g: Reigns, g': Reigns) {
    forall t :: t in g ==> t in g' && g'[t].leader == g[t].leader && g[t].log <= g'[t].log
  }

  lemma PrefixCut(xs: seq<LogEntry>, ys: seq<LogEntry>, k: nat)
    requires xs <= ys && k <= |xs|
    ensures xs[..k] == ys[..k]
  {
  }

  lemma ChainedStable(log: seq<LogEntry>, g: Reigns, g': Reigns)
    requires Chained(log, g) && Extends(g, g')
    ensures Chained(log, g')
  {
    forall k | 0 <= k < |log| ensures ChainedAt(log, g', k) {
      assert ChainedAt(log, g, k);
      var t := log[k].term;
      PrefixCut(g[t].log, g'[t].log, k + 1);
    }
  }

  lemma OfferedStable(e: EntryData, term: nat, g: Reigns, g': Reigns)
    requires Offered(e, term, g) && Extends(g, g')
    ensures Offered(e, term, g')
  {
  }

  lemma MessageStable(m: Message, q: NodeId, g: Reigns, g': Reigns)
    requires MessageLog(m, q, g) && Extends(g, g')
    ensures MessageLog(m, q, g')
  {
    if m.AppendEntry? && m.entry.Some? { OfferedStable(m.entry.value, m.term, g, g'); }
  }

  // -------------------------------------------------------------- matching in one state

  /** Two patchworks that agree on the term at an index are the same up to it. */
  lemma ChainedLogsMatch(xs: seq<LogEntry>, ys: seq<LogEntry>, g: Reigns, k: nat)
    requires Chained(xs, g) && Chained(ys, g)
    requires k < |xs| && k < |ys| && xs[k].term == ys[k].term
    ensures xs[..k + 1] == ys[..k + 1]
  {
    assert ChainedAt(xs, g, k) && ChainedAt(ys, g, k);
  }

  /** An entry of a patchwork can be offered as it is. */
  lemma OwnEntryOffered(log: seq<LogEntry>, index: nat, term: nat, g: Reigns)
    requires Chained(log, g) && index < |log| && term in g && log <= g[term].log
    ensures Offered(NewEntryData(log, index).value, term, g)
  {
    assert ChainedAt(log, g, index);
    var other := g[log[index].term].log;
    assert log[..index + 1][index] == log[index] && other[..index + 1][index] == other[index];
    if index > 0 {
      assert log[..index + 1][index - 1] == log[index - 1] && other[..index + 1][index - 1] == other[index - 1];
    }
  }

  /** Accepting an offered entry behind a matching predecessor keeps the patchwork. */
  lemma AcceptChained(log: seq<LogEntry>, e: EntryData, term: nat, g: Reigns)
    requires Chained(log, g) && Offered(e, term, g) && Chained(g[e.term].log, g)
    requires e.prevTerm == PrevEntryTerm(log, e.index) && e.index <= |log|
    ensures Chained(log[..e.index] + [LogEntry(e.term, e.command)], g)
  {
    var theirs, log' := g[e.term].log, log[..e.index] + [LogEntry(e.term, e.command)];
    if e.index > 0 {
      ChainedLogsMatch(log, theirs, g, e.index - 1);
      assert log[..e.index] == theirs[..e.index];
    }
    assert theirs[..e.index + 1] == theirs[..e.index] + [theirs[e.index]];
    assert log' == theirs[..e.index + 1];
    forall k | 0 <= k < |log'| ensures ChainedAt(log', g, k) {
      assert ChainedAt(theirs, g, k);
      assert log'[..k + 1] == theirs[..k + 1];
      assert log'[k] == theirs[k];
    }
  }

  // ------------------------------------------------------------------ one handler run

  ghost predicate OutboxLog(out: Outbox, g: Reigns) {
    forall q, m :: q in out && m in out[q] ==> MessageLog(m, q, g)
  }

  lemma BroadcastLog(s: NodeState, net: Net, i: NodeId, g: Reigns)
    requires s.id == i && s.role.Leader? && Leads(g, s.term, i)
    requires forall p :: p in s.peers && s.peers[p].Some? ==> Offered(s.peers[p].value, s.term, g)
    ensures OutboxLog(Broadcast(s, net), g)
  {
  }

  lemma ForwardLog(s: NodeState, net: Net, out: Outbox, g: Reigns)
    requires OutboxLog(out, g)
    ensures var o := ForwardPending(s, net, out);
            o.Done? ==> o.node == s.(pendingCmds := o.node.pendingCmds) && OutboxLog(o.out, g)
  {
    if s.leader.Some? && s.leader.value in s.peers {
      var l, k := s.leader.value, Min(net.forwards, |s.pendingCmds|);
      var ms := AsMessages(s.pendingCmds[..k]);
      forall q, m | q in Post(out, l, ms) && m in Post(out, l, ms)[q] ensures MessageLog(m, q, g) {
        if q == l && ms != [] { assert m in Sent(out, q) || m in ms; }
      }
    }
  }

  lemma ReceiveEntryLog(s: NodeState, m: Message, net: Net, i: NodeId, g: Reigns)
    requires s.id == i && m.AppendEntry? && m.entry.Some? && LogOk(s.log, s.term) && EntryOk(m.entry.value, m.term)
    requires |s.acks| == |s.log| && s.role.Follower?
    requires NodeLog(s, i, g) && MessageLog(m, i, g) && forall t :: t in g ==> Chained(g[t].log, g)
    ensures NodeLog(ReceiveEntry(s, m, net).node, i, g) && OutboxLog(ReceiveEntry(s, m, net).out, g)
  {
    var e := m.entry.value;
    var success := e.prevTerm == PrevEntryTerm(s.log, e.index);
    if success {
      AcceptedInPlace(s, e, m.term);
      AcceptChained(s.log, e, m.term, g);
    }
    assert MessageLog(AppendEntryResponse(i, m.term, e.index, success), m.from, g);
  }

  lemma AppendEntryLog(s: NodeState, m: Message, net: Net, i: NodeId, count: nat, g: Reigns)
    requires NodeOk(s, i, count) && m.AppendEntry? && MessageOk(m, i, count) && i < count
    requires NodeLog(s, i, g) && MessageLog(m, i, g) && forall t :: t in g ==> Chained(g[t].log, g)
    ensures var o := OnAppendEntry(s, m, net);
            o.Done? && NodeLog(o.node, i, g) && OutboxLog(o.out, g)
  {
    AppendEntryOk(s, m, net, i, count);
    if s.term <= m.term {
      var s1 := s.(role := Follower, term := m.term, leader := Some(m.from));
      assert NodeLog(s1, i, g);
      var r := if m.entry.Some? then ReceiveEntry(s1, m, net) else FollowCommit(s1, m);
      if m.entry.Some? { ReceiveEntryLog(s1, m, net, i, g); } else { CommitFrame(s1, Min(m.committed, |s1.log|)); }
      assert NodeLog(r.node, i, g) && OutboxLog(r.out, g);
      if r.node.pendingCmds != [] { ForwardLog(r.node, net, r.out, g); }
    }
  }

  lemma AppendEntryResponseLog(s: NodeState, m: Message, net: Net, i: NodeId, count: nat, g: Reigns)
    requires NodeOk(s, i, count) && m.AppendEntryResponse? && MessageOk(m, i, count) && i < count
    requires NodeLog(s, i, g) && MessageLog(m, i, g)
    ensures var o := OnAppendEntryResponse(s, m, net);
            o.Done? && NodeLog(o.node, i, g) && OutboxLog(o.out, g)
  {
    if s.term == m.term {
      AnswerPanics(s, m, net);
      AnswerEffect(s, m, net);
      var o, next := OnAppendEntryResponse(s, m, net), NextIndex(m);
      if next < |s.log| {
        OwnEntryOffered(s.log, next, s.term, g);
        assert MessageLog(AppendEntry(s.id, s.term, o.node.committed, NewEntryData(s.log, next)), m.from, g);
      }
    }
  }

  lemma RequestVoteLog(s: NodeState, m: Message, net: Net, i: NodeId, count: nat, g: Reigns)
    requires NodeOk(s, i, count) && m.RequestVote? && MessageOk(m, i, count) && i < count
    requires NodeLog(s, i, g)
    ensures var o := OnRequestVote(s, m, net);
            && o.Done? && OutboxLog(o.out, g)
            && (NodeLog(o.node, i, g) <==> !(s.role.Leader? && s.term < m.term && !GrantsVote(s, m, net)))
  {
  }

  /** With the term still without a leader, a stranded leader's reign in it starts with its log. */
  lemma StrandLog(s: NodeState, m: Message, net: Net, i: NodeId, g: Reigns)
    requires m.RequestVote? && s.role.Leader? && s.term < m.term && !GrantsVote(s, m, net) && m.from in s.peers
    requires NodeLog(s, i, g) && m.term !in g
    ensures var o := OnRequestVote(s, m, net);
            && o.Done?
            && var g' := Continue(g, s, m, o.node, i);
               && Extends(g, g') && NodeLog(o.node, i, g') && OutboxLog(o.out, g')
  {
    var o := OnRequestVote(s, m, net);
    var g' := Continue(g, s, m, o.node, i);
    assert o.node == s.(term := m.term) && o.out == map[];
    assert g' == g[m.term := Reign(i, s.log)];
    ChainedStable(s.log, g, g');
    assert forall t: nat :: Leads(g', t, i) ==> t == m.term || Leads(g, t, i);
    forall p | p in s.peers && s.peers[p].Some? ensures Offered(s.peers[p].value, m.term, g') {
      assert Offered(s.peers[p].value, s.term, g);
    }
  }

  lemma WinLog(s: NodeState, m: Message, net: Net, i: NodeId, g: Reigns)
    requires s.id == i && m.Vote? && WinsElection(s, m) && NodeLog(s, i, g) && s.term !in g
    ensures var o := OnVote(s, m, net);
            && o.Done?
            && var g' := Continue(g, s, m, o.node, i);
               && Extends(g, g') && NodeLog(o.node, i, g') && OutboxLog(o.out, g')
  {
    var o := OnVote(s, m, net);
    var s', g' := o.node, Continue(g, s, m, o.node, i);
    assert s'.log == s.log + Entries(s.term, s.pendingCmds);
    ChainedStable(s.log, g, g');
    assert forall t: nat :: Leads(g', t, i) ==> t == s.term || Leads(g, t, i);
    forall k | 0 <= k < |s'.log| ensures ChainedAt(s'.log, g', k) {
      if k < |s.log| {
        assert ChainedAt(s.log, g', k);
        assert s'.log[..k + 1] == s.log[..k + 1];
      } else {
        assert s'.log[k].term == s.term;
      }
    }
    if s.log != [] {
      OwnEntryOffered(s.log, |s.log| - 1, s.term, g');
    }
    assert s'.role.Leader? && Leads(g', s'.term, i);
    BroadcastLog(s', net, i, g');
  }

  lemma LeaderCommandLog(s: NodeState, m: Message, net: Net, i: NodeId, g: Reigns)
    requires s.id == i && m.ClientCommand? && s.role.Leader? && NodeLog(s, i, g)
    ensures var o := OnCommand(s, m, net);
            && o.Done?
            && var g' := Continue(g, s, m, o.node, i);
               && Extends(g, g') && NodeLog(o.node, i, g') && OutboxLog(o.out, g')
  {
    var o := OnCommand(s, m, net);
    var s', g' := o.node, Continue(g, s, m, o.node, i);
    assert s'.log == s.log + [LogEntry(s.term, m.cmd)];
    ChainedStable(s.log, g, g');
    assert forall t: nat :: Leads(g', t, i) ==> t == s.term || Leads(g, t, i);
    forall k | 0 <= k < |s'.log| ensures ChainedAt(s'.log, g', k) {
      if k < |s.log| {
        assert ChainedAt(s.log, g', k);
        assert s'.log[..k + 1] == s.log[..k + 1];
      }
    }
    OwnEntryOffered(s'.log, |s'.log| - 1, s.term, g');
    forall p | p in s'.peers && s'.peers[p].Some? ensures Offered(s'.peers[p].value, s.term, g') {
      if s.peers[p].Some? { OfferedStable(s.peers[p].value, s.term, g, g'); }
    }
  }

  lemma HandleLog(s: NodeState, m: Message, net: Net, i: NodeId, count: nat, g: Reigns)
    requires NodeOk(s, i, count) && MessageOk(m, i, count) && i < count
    requires NodeLog(s, i, g) && MessageLog(m, i, g) && forall t :: t in g ==> Chained(g[t].log, g)
    requires WinsElection(s, m) ==> s.term !in g
    requires s.role.Leader? && m.RequestVote? && s.term < m.term && !GrantsVote(s, m, net) ==> m.term !in g
    ensures var o := Handle(s, m, net);
            && o.Done?
            && var g' := Continue(g, s, m, o.node, i);
               && Extends(g, g') && NodeLog(o.node, i, g') && OutboxLog(o.out, g')
  {
    match m
    case ClientCommand(_) =>
      if s.role.Leader? {
        LeaderCommandLog(s, m, net, i, g);
      } else {
        CommandOk(s, m, net, i, count);
        ForwardLog(s.(pendingCmds := s.pendingCmds + [m.cmd]), net, map[], g);
      }
    case AppendEntry(_, _, _, _) => AppendEntryLog(s, m, net, i, count, g);
    case AppendEntryResponse(_, _, _, _) => AppendEntryResponseLog(s, m, net, i, count, g);
    case RequestVote(_, _, _) =>
      RequestVoteLog(s, m, net, i, count, g);
      if s.role.Leader? && s.term < m.term && !GrantsVote(s, m, net) { StrandLog(s, m, net, i, g); }
    case Vote(_) => if WinsElection(s, m) { WinLog(s, m, net, i, g); }
  }

  lemma TimeoutLog(s: NodeState, net: Net, i: NodeId, count: nat, g: Reigns)
    requires NodeOk(s, i, count) && NodeLog(s, i, g)
    ensures var o := OnTimeout(s, net); NodeLog(o.node, i, g) && OutboxLog(o.out, g)
  {
    if s.role.Leader? { BroadcastLog(s, net, i, g); }
  }

  // ------------------------------------------------------------------------ every run

  /** A majority of at most two nodes is all of them. */
  lemma EverybodyVotes(b: Ballots, count: nat, x: NodeId, term: nat, v: NodeId)
    requires count <= 2 && v < count && 2 * |Voters(b, count, x, term)| > count
    ensures (v, term) in b && b[(v, term)] == x
  {
    var voters := Voters(b, count, x, term);
    assert |Ids(count) - {v}| == count - 1;
    if v !in voters { SubsetSize(voters, Ids(count) - {v}); }
  }

  lemma WonTermIsNew(c: Cluster, a: Action, b: Ballots, g: Reigns)
    requires MatchingInv(c, b, g) && Enabled(c, a) && a.Deliver? && WinsElection(c.nodes[a.n], Head(c, a))
    ensures c.nodes[a.n].term !in g
  {
    WinHasMajority(c, a, b);
    var t, count := c.nodes[a.n].term, |c.nodes|;
    assert NodeLog(c.nodes[a.n], a.n, g);
    if t in g {
      assert Rightful(g, b, count, t);
      if 2 * |Voters(b, count, g[t].leader, t)| > count {
        TwoMajoritiesMeet(b, count, g[t].leader, a.n, t);
      } else {
        EverybodyVotes(b, count, a.n, t, g[t].leader);
      }
    }
  }

  /** With at most two nodes, the term a leader is stranded in has no leader: it would be the
      requester, elected with the very vote that was not given. */
  lemma StrandedTermIsNew(c: Cluster, a: Action, b: Ballots, g: Reigns)
    requires MatchingInv(c, b, g) && Enabled(c, a) && StrandsLeader(c, a) && |c.nodes| <= 2
    ensures Head(c, a).term !in g
  {
    var m, count := Head(c, a), |c.nodes|;
    assert m in c.inbox[a.n] && NodeLog(c.nodes[a.n], a.n, g);
    assert VotedForSelf(b, m.from, m.term) && MessageOk(m, a.n, count);
    if m.term in g {
      assert !Leads(g, m.term, a.n);
      OnlyWithBothVotes(g, b, count, a.n, m.from, m.term);
    }
  }

  lemma OnlyWithBothVotes(g: Reigns, b: Ballots, count: nat, n: NodeId, other: NodeId, t: nat)
    requires count <= 2 && n < count && other < count && n != other && VotedForSelf(b, other, t)
    requires t in g && Rightful(g, b, count, t) && g[t].leader != n
    ensures (n, t) in b
  {
    assert g[t].leader == other;
    EverybodyVotes(b, count, other, t, n);
  }

  lemma StepLog(c: Cluster, a: Action, b: Ballots, g: Reigns)
    requires MatchingInv(c, b, g) && Enabled(c, a) && Tame(c, a)
    ensures var o, g' := RunAt(c, a), Chronicle(g, c, a);
            && o.Done?
            && Extends(g, g') && NodeLog(o.node, a.n, g') && OutboxLog(o.out, g')
  {
    var n := a.n;
    match a
    case Inject(_, _) =>
    case Deliver(_, net) =>
      if WinsElection(c.nodes[n], Head(c, a)) { WonTermIsNew(c, a, b, g); }
      if StrandsLeader(c, a) { StrandedTermIsNew(c, a, b, g); }
      assert Head(c, a) in c.inbox[n];
      HandleLog(c.nodes[n], Head(c, a), net, n, |c.nodes|, g);
    case Timeout(_, net) => TimeoutLog(c.nodes[n], net, n, |c.nodes|, g);
  }

  /** What a step adds to the chronicle: nothing, more of the acting leader's own reign, or a reign
      of the acting node in a term that had none. */
  lemma ChronicleGrows(c: Cluster, a: Action, b: Ballots, g: Reigns)
    requires MatchingInv(c, b, g) && Enabled(c, a) && Tame(c, a)
    ensures var g' := Chronicle(g, c, a);
            forall t :: t in g' && !(t in g && g'[t] == g[t]) ==>
              && g'[t].leader == a.n
              && (t in g ==> g[t].leader == a.n)
              && (t !in g ==>
                    || (a.Deliver? && WinsElection(c.nodes[a.n], Head(c, a)) && t == c.nodes[a.n].term)
                    || (StrandsLeader(c, a) && t == Head(c, a).term))
  {
    StepLog(c, a, b, g);
    if a.Deliver? && Reigning(g, c.nodes[a.n], Head(c, a), RunAt(c, a).node, a.n) {
      ReignAdded(g, c.nodes[a.n], Head(c, a), a.net, a.n);
    }
  }

  lemma ReignAdded(g: Reigns, s: NodeState, m: Message, net: Net, n: NodeId)
    requires Handle(s, m, net).Done? && Reigning(g, s, m, Handle(s, m, net).node, n)
    ensures var s' := Handle(s, m, net).node;
            || (WinsElection(s, m) && s'.term == s.term)
            || (Leads(g, s.term, n) && s'.term == s.term)
            || (m.RequestVote? && s.role.Leader? && s.term < m.term == s'.term && !GrantsVote(s, m, net))
  {
  }

  lemma ReignsStayRightful(c: Cluster, a: Action, b: Ballots, g: Reigns, t: nat)
    requires MatchingInv(c, b, g) && Enabled(c, a) && Tame(c, a) && t in Chronicle(g, c, a)
    ensures Rightful(Chronicle(g, c, a), Record(b, c, a), |c.nodes|, t)
  {
    var g', b', count := Chronicle(g, c, a), Record(b, c, a), |c.nodes|;
    StepLog(c, a, b, g);
    ChronicleGrows(c, a, b, g);
    BallotsReached(c, a, b);
    var l := g'[t].leader;
    SubsetSize(Voters(b, count, l, t), Voters(b', count, l, t));
    if t in g {
      assert Rightful(g, b, count, t);
      if (l, t) !in b { NoLateBallot(c, a, b, g, t); }
    } else if StrandsLeader(c, a) {
      NotVotedYet(c, a, b);
    } else {
      WinHasMajority(c, a, b);
    }
  }

  /** Nobody votes in a term it has reached before. */
  lemma NoLateBallot(c: Cluster, a: Action, b: Ballots, g: Reigns, t: nat)
    requires MatchingInv(c, b, g) && Enabled(c, a) && t in g && g[t].leader < |c.nodes| && (g[t].leader, t) !in b
    ensures (g[t].leader, t) !in Record(b, c, a)
  {
    assert NodeLog(c.nodes[g[t].leader], g[t].leader, g);
    assert Leads(g, t, g[t].leader);
    if BallotOf(c, a).Some? { BallotIsFresh(c, a, b); }
  }

  lemma NotVotedYet(c: Cluster, a: Action, b: Ballots)
    requires ShapeInv(c) && BallotsInv(c, b) && Enabled(c, a) && StrandsLeader(c, a)
    ensures (a.n, Head(c, a).term) !in Record(b, c, a)
  {
    assert Record(b, c, a) == b;
  }

  lemma ReignsStayBacked(c: Cluster, a: Action, b: Ballots, g: Reigns)
    requires MatchingInv(c, b, g) && Enabled(c, a) && Tame(c, a)
    ensures ReignsInv(Chronicle(g, c, a), Record(b, c, a), |c.nodes|)
  {
    var g', b', count := Chronicle(g, c, a), Record(b, c, a), |c.nodes|;
    StepLog(c, a, b, g);
    ChronicleGrows(c, a, b, g);
    forall t | t in g' ensures Rightful(g', b', count, t) && Chained(g'[t].log, g') {
      ReignsStayRightful(c, a, b, g, t);
      if t in g && g'[t] == g[t] { ChainedStable(g[t].log, g, g'); } else { OwnReignChained(c, a, b, g, t); }
    }
  }

  /** A reign that a step starts or extends has the acting node's new log. */
  lemma OwnReignChained(c: Cluster, a: Action, b: Ballots, g: Reigns, t: nat)
    requires MatchingInv(c, b, g) && Enabled(c, a) && Tame(c, a)
    requires t in Chronicle(g, c, a) && !(t in g && Chronicle(g, c, a)[t] == g[t])
    ensures Chained(Chronicle(g, c, a)[t].log, Chronicle(g, c, a))
  {
    StepLog(c, a, b, g);
    assert Chronicle(g, c, a)[t].log == RunAt(c, a).node.log;
  }

  lemma BystanderLog(c: Cluster, a: Action, b: Ballots, g: Reigns, i: NodeId)
    requires MatchingInv(c, b, g) && Enabled(c, a) && Tame(c, a) && i < |c.nodes| && i != a.n
    ensures NodeLog(c.nodes[i], i, Chronicle(g, c, a))
  {
    var g', s := Chronicle(g, c, a), c.nodes[i];
    StepLog(c, a, b, g);
    assert NodeLog(s, i, g);
    ChainedStable(s.log, g, g');
    ChronicleGrows(c, a, b, g);
    assert forall t: nat :: Leads(g', t, i) ==> Leads(g, t, i) && g'[t] == g[t];
    if s.role.Leader? {
      forall p | p in s.peers && s.peers[p].Some? ensures Offered(s.peers[p].value, s.term, g') {
        OfferedStable(s.peers[p].value, s.term, g, g');
      }
    }
  }

  /** One step keeps the patchwork, and no handler panics, unless it strands a leader of three or
      more nodes. */
  lemma StepKeepsMatching(c: Cluster, a: Action, b: Ballots, g: Reigns)
    requires MatchingInv(c, b, g) && Enabled(c, a) && Tame(c, a)
    ensures MatchingInv(Step(c, a), Record(b, c, a), Chronicle(g, c, a))
    ensures Step(c, a).alive == c.alive && Extends(g, Chronicle(g, c, a))
  {
    var c', g' := Step(c, a), Chronicle(g, c, a);
    StepKeepsBallots(c, a, b);
    StepFrame(c, a);
    StepLog(c, a, b, g);
    ReignsStayBacked(c, a, b, g);
    forall i | 0 <= i < |c'.nodes| ensures NodeLog(c'.nodes[i], i, g') {
      if i != a.n { BystanderLog(c, a, b, g, i); }
    }
    forall q, m | 0 <= q < |c'.nodes| && m in c'.inbox[q] ensures MessageLog(m, q, g') {
      MessageOrigin(c, a, q, m);
      if m in c.inbox[q] { MessageStable(m, q, g, g'); }
    }
  }

  lemma TameStep(r: Run, count: nat, i: nat)
    requires IsRun(r, count) && Orderly(r, count) && i < |r.actions| && |r.states[i].nodes| == count
    ensures StepOf(r, i) && Tame(r.states[i], r.actions[i])
  {
    assert StepOf(r, i);
    if count > 2 { assert KeepsOffice(r, i); }
  }

  lemma MatchingStarts(r: Run, count: nat)
    requires IsRun(r, count)
    ensures MatchingInv(r.states[0], BallotsAt(r, count, 0), ReignsAt(r, count, 0))
    ensures |r.states[0].nodes| == count && r.states[0].alive == Ids(count)
  {
    LogShape(r, count, 0);
    VotesNeverExceedVoters(r, count, 0);
  }

  lemma MatchingNext(r: Run, count: nat, i: nat)
    requires IsRun(r, count) && Orderly(r, count) && i < |r.actions|
    requires MatchingInv(r.states[i], BallotsAt(r, count, i), ReignsAt(r, count, i))
    requires |r.states[i].nodes| == count && r.states[i].alive == Ids(count)
    ensures MatchingInv(r.states[i + 1], BallotsAt(r, count, i + 1), ReignsAt(r, count, i + 1))
    ensures |r.states[i + 1].nodes| == count && r.states[i + 1].alive == Ids(count)
  {
    LogShape(r, count, i + 1);
    VotesNeverExceedVoters(r, count, i + 1);
    TameStep(r, count, i);
    StepKeepsMatching(r.states[i], r.actions[i], BallotsAt(r, count, i), ReignsAt(r, count, i));
  }

  lemma {:induction false} MatchingHolds(r: Run, count: nat, i: nat)
    requires IsRun(r, count) && Orderly(r, count) && i < |r.states|
    ensures MatchingInv(r.states[i], BallotsAt(r, count, i), ReignsAt(r, count, i))
    ensures |r.states[i].nodes| == count && r.states[i].alive == Ids(count)
  {
    if i == 0 {
      MatchingStarts(r, count);
    } else {
      MatchingHolds(r, count, i - 1);
      MatchingNext(r, count, i - 1);
    }
  }

  /** Log Matching: two logs that agree on the term at an index have the same entries up to
      and including it. */
  lemma LogMatching(r: Run, count: nat, i: nat, x: NodeId, y: NodeId, k: nat)
    requires IsRun(r, count) && Orderly(r, count) && i < |r.states| && x < count && y < count
    requires |r.states[i].nodes| == count
    requires k < |r.states[i].nodes[x].log| && k < |r.states[i].nodes[y].log|
    requires r.states[i].nodes[x].log[k].term == r.states[i].nodes[y].log[k].term
    ensures r.states[i].nodes[x].log[..k + 1] == r.states[i].nodes[y].log[..k + 1]
  {
    MatchingHolds(r, count, i);
    var c, g := r.states[i], ReignsAt(r, count, i);
    assert NodeLog(c.nodes[x], x, g) && NodeLog(c.nodes[y], y, g);
    ChainedLogsMatch(c.nodes[x].log, c.nodes[y].log, g, k);
  }

  lemma ExtendsTransitive(g: Reigns, g': Reigns, g'': Reigns)
    requires Extends(g, g') && Extends(g', g'')
    ensures Extends(g, g'')
  {
  }

  lemma ReignsExtendOnce(r: Run, count: nat, i: nat)
    requires IsRun(r, count) && Orderly(r, count) && i < |r.actions|
    ensures Extends(ReignsAt(r, count, i), ReignsAt(r, count, i + 1))
  {
    MatchingHolds(r, count, i);
    TameStep(r, count, i);
    StepKeepsMatching(r.states[i], r.actions[i], BallotsAt(r, count, i), ReignsAt(r, count, i));
  }

  lemma {:induction false} ReignsExtend(r: Run, count: nat, i: nat, j: nat)
    requires IsRun(r, count) && Orderly(r, count) && i <= j < |r.states|
    ensures Extends(ReignsAt(r, count, i), ReignsAt(r, count, j))
    decreases j
  {
    if i < j {
      ReignsExtend(r, count, i, j - 1);
      ReignsExtendOnce(r, count, j - 1);
      ExtendsTransitive(ReignsAt(r, count, i), ReignsAt(r, count, j - 1), ReignsAt(r, count, j));
    }
  }

  /** Leader append-only: as long as a leader's term lasts it stays leader, and its log only
      grows at the end. */
  lemma LeaderAppendOnly(r: Run, count: nat, i: nat, j: nat, n: NodeId)
    requires IsRun(r, count) && Orderly(r, count) && i <= j < |r.states| && n < count
    requires |r.states[i].nodes| == count && r.states[i].nodes[n].role.Leader?
    requires |r.states[j].nodes| == count && r.states[j].nodes[n].term == r.states[i].nodes[n].term
    ensures r.states[j].nodes[n].role.Leader?
    ensures r.states[i].nodes[n].log <= r.states[j].nodes[n].log
  {
    MatchingHolds(r, count, i);
    MatchingHolds(r, count, j);
    ReignsExtend(r, count, i, j);
    assert NodeLog(r.states[i].nodes[n], n, ReignsAt(r, count, i));
    assert NodeLog(r.states[j].nodes[n], n, ReignsAt(r, count, j));
  }

  lemma CountedAckInside(c: Cluster, a: Action, b: Ballots, g: Reigns)
    requires MatchingInv(c, b, g) && Enabled(c, a) && a.Deliver?
    requires Head(c, a).AppendEntryResponse? && Head(c, a).term == c.nodes[a.n].term
    ensures c.nodes[a.n].role.Leader? && Head(c, a).index < |c.nodes[a.n].log|
  {
    assert Head(c, a) in c.inbox[a.n];
    assert MessageLog(Head(c, a), a.n, g) && NodeLog(c.nodes[a.n], a.n, g);
  }

  /** Every acknowledgement that is counted reaches the leader it was meant for and lies inside
      its log, so no handler ever panics. */
  lemma AcksInsideLeadersLog(r: Run, count: nat, i: nat)
    requires IsRun(r, count) && Orderly(r, count) && i < |r.actions|
    ensures StepOf(r, i) && r.states[i + 1].alive == Ids(count)
    ensures var c, a := r.states[i], r.actions[i];
            a.Deliver? && Head(c, a).AppendEntryResponse? && Head(c, a).term == c.nodes[a.n].term ==>
              c.nodes[a.n].role.Leader? && Head(c, a).index < |c.nodes[a.n].log|
  {
    assert StepOf(r, i);
    MatchingHolds(r, count, i + 1);
    AckInsideAt(r, count, i);
  }

  lemma AckInsideAt(r: Run, count: nat, i: nat)
    requires IsRun(r, count) && Orderly(r, count) && i < |r.actions| && StepOf(r, i)
    ensures var c, a := r.states[i], r.actions[i];
            a.Deliver? && Head(c, a).AppendEntryResponse? && Head(c, a).term == c.nodes[a.n].term ==>
              c.nodes[a.n].role.Leader? && Head(c, a).index < |c.nodes[a.n].log|
  {
    MatchingHolds(r, count, i);
    var c, a := r.states[i], r.actions[i];
    if a.Deliver? && Head(c, a).AppendEntryResponse? && Head(c, a).term == c.nodes[a.n].term {
      CountedAckInside(c, a, BallotsAt(r, count, i), ReignsAt(r, count, i));
    }
  }

  // -------------------------------------------------------- when leaders are legitimate

  /** Every node in office holds a term it was elected in. */
  ghost predicate LeadersElected(r: Run, count: nat, i: nat)
    requires IsRun(r, count) && i < |r.states|
  {
    RunWellFormed(r, count, i);
    forall n: nat :: n < count && r.states[i].nodes[n].role.Leader? ==>
      WasElected(r, count, i, n, r.states[i].nodes[n].term)
  }

  ghost predicate WasElected(r: Run, count: nat, i: nat, n: NodeId, term: nat)
    requires IsRun(r, count) && i < |r.states| && n < count
  {
    exists j: nat :: j < i && BecomesLeader(r, count, j, n, term)
  }

  lemma ReignStarts(r: Run, count: nat, i: nat, n: NodeId, term: nat)
    requires IsRun(r, count) && LeadersStepDown(r, count) && i < |r.actions| && n < count
    requires Leads(ReignsAt(r, count, i + 1), term, n) && !Leads(ReignsAt(r, count, i), term, n)
    ensures BecomesLeader(r, count, i, n, term)
  {
    assert KeepsOffice(r, i);
    MatchingHolds(r, count, i);
    var c, a, g := r.states[i], r.actions[i], ReignsAt(r, count, i);
    ChronicleGrows(c, a, BallotsAt(r, count, i), g);
    assert ReignsAt(r, count, i + 1) == Chronicle(g, c, a);
    assert WinsElection(c.nodes[a.n], Head(c, a));
    WinningIsLeading(c, a);
  }

  lemma WinningIsLeading(c: Cluster, a: Action)
    requires ShapeInv(c) && Enabled(c, a) && a.Deliver? && WinsElection(c.nodes[a.n], Head(c, a))
    ensures var s' := Step(c, a).nodes[a.n];
            !c.nodes[a.n].role.Leader? && s'.role.Leader? && s'.term == c.nodes[a.n].term
  {
    RunAtOk(c, a);
    HandlerTerms(c.nodes[a.n], Head(c, a), a.net);
  }

  lemma {:induction false} LeadsWasElected(r: Run, count: nat, i: nat, n: NodeId, term: nat)
    requires IsRun(r, count) && LeadersStepDown(r, count) && i < |r.states| && n < count
    requires Leads(ReignsAt(r, count, i), term, n)
    ensures WasElected(r, count, i, n, term)
  {
    if Leads(ReignsAt(r, count, i - 1), term, n) {
      LeadsWasElected(r, count, i - 1, n, term);
      var j: nat :| j < i - 1 && BecomesLeader(r, count, j, n, term);
      assert j < i && BecomesLeader(r, count, j, n, term);
    } else {
      ReignStarts(r, count, i - 1, n, term);
    }
  }

  lemma {:induction false} TermsNeverFall(r: Run, count: nat, i: nat, j: nat, n: NodeId)
    requires IsRun(r, count) && i <= j < |r.states| && n < count
    ensures |r.states[i].nodes| == count && |r.states[j].nodes| == count
    ensures r.states[i].nodes[n].term <= r.states[j].nodes[n].term
    decreases j
  {
    RunWellFormed(r, count, i);
    RunWellFormed(r, count, j);
    if i < j {
      TermsNeverFall(r, count, i, j - 1, n);
      assert StepOf(r, j - 1);
      var c, a := r.states[j - 1], r.actions[j - 1];
      StepFrame(c, a);
      if a.Deliver? { HandlerTerms(c.nodes[a.n], Head(c, a), a.net); }
    }
  }

  /** In a run, office is always held by election if and only if no vote request ever strands
      a leader. */
  lemma LeadersElectedExactly(r: Run, count: nat)
    requires IsRun(r, count)
    ensures (forall i :: 0 <= i < |r.states| ==> LeadersElected(r, count, i)) <==> LeadersStepDown(r, count)
  {
    if LeadersStepDown(r, count) {
      forall i | 0 <= i < |r.states| ensures LeadersElected(r, count, i) {
        MatchingHolds(r, count, i);
        forall n: nat | n < count && r.states[i].nodes[n].role.Leader?
          ensures WasElected(r, count, i, n, r.states[i].nodes[n].term)
        {
          assert NodeLog(r.states[i].nodes[n], n, ReignsAt(r, count, i));
          LeadsWasElected(r, count, i, n, r.states[i].nodes[n].term);
        }
      }
    } else {
      var i: nat :| i < |r.actions| && !KeepsOffice(r, i);
      assert StepOf(r, i);
      StrandedLeaderNotElected(r, count, i);
    }
  }

  lemma StrandedLeaderNotElected(r: Run, count: nat, i: nat)
    requires IsRun(r, count) && i < |r.actions| && StepOf(r, i) && StrandsLeader(r.states[i], r.actions[i])
    ensures !LeadersElected(r, count, i + 1)
  {
    LogShape(r, count, i);
    LogShape(r, count, i + 1);
    var c, a := r.states[i], r.actions[i];
    var n, s := a.n, c.nodes[a.n];
    RunAtOk(c, a);
    var s' := r.states[i + 1].nodes[n];
    assert s'.role.Leader? && s'.term > s.term;
    forall j: nat | j < i + 1 ensures !BecomesLeader(r, count, j, n, s'.term) {
      if j < i { TermsNeverFall(r, count, j + 1, i, n); }
    }
    assert !WasElected(r, count, i + 1, n, s'.term);
  }

  /** While leaders step down, and with at most two nodes always, no two nodes are ever in office in the same term. */
  lemma OneLeaderPerTerm(r: Run, count: nat, i: nat, x: NodeId, y: NodeId)
    requires IsRun(r, count) && Orderly(r, count) && i < |r.states| && x < count && y < count
    requires |r.states[i].nodes| == count
    requires r.states[i].nodes[x].role.Leader? && r.states[i].nodes[y].role.Leader?
    requires r.states[i].nodes[x].term == r.states[i].nodes[y].term
    ensures x == y
  {
    MatchingHolds(r, count, i);
    var c, g := r.states[i], ReignsAt(r, count, i);
    assert NodeLog(c.nodes[x], x, g) && NodeLog(c.nodes[y], y, g);
  }
}
