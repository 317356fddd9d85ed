/** Exactly-once application, in every run: the number of commands a node has applied is its
    commit index, which never falls; each is the command at its own index of the log at the
    time; and the book is the replay of exactly those commands from the empty book. */
module RaftApplication {
  import opened Options
  import opened Ledger
  import opened RaftModel
  import opened RaftCluster
  import opened RaftShape
  import opened RaftCommands

  /** The commands a handler run applies: those the commit index moves over. */
  function AppliedIn(s: NodeState, s': NodeState): seq<Command> {
    if s.committed <= s'.committed <= |s'.log| then CommandsOf(s'.log[s.committed..s'.committed]) else []
  }

  /** Everything node `n` has applied so far in a run. */
  ghost function AppliedAt(r: Run, count: nat, i: nat, n: NodeId): seq<Command>
    requires IsRun(r, count) && i < |r.states| && n < count
  {
    if i == 0 then []
    else
      RunWellFormed(r, count, i - 1);
      RunWellFormed(r, count, i);
      AppliedAt(r, count, i - 1, n) + AppliedIn(r.states[i - 1].nodes[n], r.states[i].nodes[n])
  }

  function ReplayFrom(book: Book, cmds: seq<Command>): Book
    decreases |cmds|
  {
    if cmds == [] then book else ReplayFrom(Apply(book, cmds[0]), cmds[1..])
  }

  lemma {:induction false} ReplayConcat(xs: seq<Command>, ys: seq<Command>)
    ensures Replay(xs + ys) == ReplayFrom(Replay(xs), ys)
    decreases |ys|
  {
    if ys == [] {
      assert xs + ys == xs;
    } else {
      ReplayStep(xs, ys[0]);
      ReplayConcat(xs + [ys[0]], ys[1..]);
      assert xs + [ys[0]] + ys[1..] == xs + ys;
    }
  }

  lemma {:induction false} CommitReplays(s: NodeState, upTo: nat)
    requires upTo <= |s.log|
    ensures s.committed <= CommitUpTo(s, upTo).committed
    ensures CommitUpTo(s, upTo).book == ReplayFrom(s.book, AppliedIn(s, CommitUpTo(s, upTo)))
    decreases upTo - s.committed
  {
    CommitFrame(s, upTo);
    if s.committed < upTo {
      var s1 := s.(book := Apply(s.book, s.log[s.committed].command), committed := s.committed + 1);
      CommitReplays(s1, upTo);
      CommitFrame(s1, upTo);
      var all, rest := CommandsOf(s.log[s.committed..upTo]), CommandsOf(s.log[s.committed + 1..upTo]);
      assert all[0] == s.log[s.committed].command;
      assert all[1..] == rest;
    }
  }

  ghost predicate Applies(s: NodeState, s': NodeState) {
    && s.committed <= s'.committed
    && (s.committed == s'.committed || s'.committed <= |s'.log|)
    && s'.book == ReplayFrom(s.book, AppliedIn(s, s'))
  }

  lemma AppliesNothing(s: NodeState, s': NodeState)
    requires s'.committed == s.committed && s'.book == s.book
    ensures Applies(s, s')
  {
    if s.committed <= |s'.log| { assert s'.log[s.committed..s'.committed] == []; }
  }

  lemma AppendEntryApplies(s: NodeState, m: Message, net: Net)
    requires m.AppendEntry?
    ensures OnAppendEntry(s, m, net).Done? ==> Applies(s, OnAppendEntry(s, m, net).node)
  {
    var o, s1 := OnAppendEntry(s, m, net), s.(role := Follower, term := m.term, leader := Some(m.from));
    if o.Done? {
      if s.term <= m.term && m.entry.None? && m.committed > s.committed {
        var upTo := Min(m.committed, |s.log|);
        CommitReplays(s1, upTo);
        CommitFrame(s1, upTo);
        assert o.node.log == s.log && o.node.book == CommitUpTo(s1, upTo).book;
        assert o.node.committed == CommitUpTo(s1, upTo).committed;
        assert AppliedIn(s, o.node) == AppliedIn(s1, CommitUpTo(s1, upTo));
      } else {
        AppliesNothing(s, o.node);
      }
    }
  }

  lemma AppendEntryResponseApplies(s: NodeState, m: Message, net: Net)
    requires m.AppendEntryResponse?
    ensures OnAppendEntryResponse(s, m, net).Done? ==> Applies(s, OnAppendEntryResponse(s, m, net).node)
  {
    var o := OnAppendEntryResponse(s, m, net);
    if o.Done? {
      if s.term == m.term && m.success && s.committed <= m.index {
        var s1 := s.(acks := s.acks[m.index := s.acks[m.index] + {m.from}]);
        var s2 := CountAck(s, m.from, m.index);
        assert o.node == s2.(peers := o.node.peers);
        CommitReplays(s1, m.index + 1);
        CommitFrame(s1, m.index + 1);
        if s2 == s1 { AppliesNothing(s, o.node); } else { assert AppliedIn(s, o.node) == AppliedIn(s1, s2); }
      } else {
        AppliesNothing(s, o.node);
      }
    }
  }

  /** A handler run never lowers the commit index, and changes the book only by applying the
      log entries the index moves over, in order. */
  lemma HandleApplies(s: NodeState, m: Message, net: Net)
    ensures var o := Handle(s, m, net);
            o.Done? ==> Applies(s, o.node)
  {
    match m
    case AppendEntry(_, _, _, _) => AppendEntryApplies(s, m, net);
    case AppendEntryResponse(_, _, _, _) => AppendEntryResponseApplies(s, m, net);
    case _ =>
  }

  lemma StepApplies(c: Cluster, a: Action, n: NodeId)
    requires Enabled(c, a) && n < |c.nodes|
    ensures |Step(c, a).nodes| == |c.nodes|
    ensures Applies(c.nodes[n], Step(c, a).nodes[n])
  {
    if a.Deliver? && a.n == n { HandleApplies(c.nodes[n], Head(c, a), a.net); }
  }

  /** In every run: the commit index counts the applied commands, and the book is their replay. */
  lemma {:induction false} AppliedExactlyOnce(r: Run, count: nat, i: nat, n: NodeId)
    requires IsRun(r, count) && i < |r.states| && n < count
    ensures |r.states[i].nodes| == count
    ensures |AppliedAt(r, count, i, n)| == r.states[i].nodes[n].committed
    ensures r.states[i].nodes[n].book == Replay(AppliedAt(r, count, i, n))
  {
    RunWellFormed(r, count, i);
    if i > 0 {
      AppliedExactlyOnce(r, count, i - 1, n);
      assert StepOf(r, i - 1);
      StepApplies(r.states[i - 1], r.actions[i - 1], n);
      var before := AppliedAt(r, count, i - 1, n);
      ReplayConcat(before, AppliedIn(r.states[i - 1].nodes[n], r.states[i].nodes[n]));
    }
  }

  /** The commit index never falls, and what a step applies at position `k` is the command at
      log index `k` at that time. */
  lemma AppliedInLogOrder(r: Run, count: nat, i: nat, n: NodeId, k: nat)
    requires IsRun(r, count) && i < |r.actions| && n < count
    requires |r.states[i].nodes| == count && |r.states[i + 1].nodes| == count
    requires r.states[i].nodes[n].committed <= k < r.states[i + 1].nodes[n].committed
    ensures k < |r.states[i + 1].nodes[n].log| && k < |AppliedAt(r, count, i + 1, n)|
    ensures AppliedAt(r, count, i + 1, n)[k] == r.states[i + 1].nodes[n].log[k].command
    ensures AppliedAt(r, count, i, n) < AppliedAt(r, count, i + 1, n)
  {
    AppliedExactlyOnce(r, count, i, n);
    assert StepOf(r, i);
    var s, s', before := r.states[i].nodes[n], r.states[i + 1].nodes[n], AppliedAt(r, count, i, n);
    StepApplies(r.states[i], r.actions[i], n);
    assert AppliedAt(r, count, i + 1, n) == before + AppliedIn(s, s');
    AppliedHere(s, s', k);
    assert (before + AppliedIn(s, s'))[k] == AppliedIn(s, s')[k - |before|];
  }

  lemma AppliedHere(s: NodeState, s': NodeState, k: nat)
    requires Applies(s, s') && s.committed <= k < s'.committed
    ensures |AppliedIn(s, s')| == s'.committed - s.committed && k < |s'.log|
    ensures AppliedIn(s, s')[k - s.committed] == s'.log[k].command
  {
  }

  lemma {:induction false} CommittedNeverFalls(r: Run, count: nat, i: nat, j: nat, n: NodeId)
    requires IsRun(r, count) && i <= j < |r.states| && n < count
    ensures |r.states[i].nodes| == count && |r.states[j].nodes| == count
    ensures r.states[i].nodes[n].committed <= r.states[j].nodes[n].committed
    ensures AppliedAt(r, count, i, n) <= AppliedAt(r, count, j, n)
    decreases j
  {
    RunWellFormed(r, count, i);
    RunWellFormed(r, count, j);
    if i < j {
      CommittedNeverFalls(r, count, i, j - 1, n);
      assert StepOf(r, j - 1);
      StepApplies(r.states[j - 1], r.actions[j - 1], n);
    }
  }

  // ---------------------------------------------------------------- who commits, and when

  /** How far a node has committed once it has handled `m`: a follower as far as the leader's
      heartbeat says and its own log goes; a leader through the entry acknowledged, if that makes a
      majority. */
  function CommittedAfter(s: NodeState, m: Message): nat {
    if m.AppendEntry? && m.entry.None? && s.term <= m.term && s.committed < m.committed && s.committed < |s.log| then
      if m.committed < |s.log| then m.committed else |s.log|
    else if m.AppendEntryResponse? && m.term == s.term && m.success && s.committed <= m.index < |s.acks|
            && 2 * |s.acks[m.index] + {m.from}| > |s.peers| + 1 then
      m.index + 1
    else
      s.committed
  }

  predicate CommitsTo(s: NodeState, s': NodeState, committed: nat) {
    && s'.committed == committed
    && if committed == s.committed then s'.book == s.book
       else
         && s.committed < committed <= |s.log|
         && s'.book == ReplayFrom(s.book, CommandsOf(s.log[s.committed..committed]))
  }

  lemma CommitUpToCommits(s: NodeState, upTo: nat)
    requires upTo <= |s.log|
    ensures CommitsTo(s, CommitUpTo(s, upTo), if upTo <= s.committed then s.committed else upTo)
  {
    CommitFrame(s, upTo);
    CommitReplays(s, upTo);
  }

  lemma HeartbeatCommits(s: NodeState, m: Message, net: Net)
    requires m.AppendEntry? && OnAppendEntry(s, m, net).Done?
    ensures CommitsTo(s, OnAppendEntry(s, m, net).node, CommittedAfter(s, m))
  {
    if m.entry.None? && s.term <= m.term && m.committed > s.committed {
      CommitUpToCommits(s.(role := Follower, term := m.term, leader := Some(m.from)), Min(m.committed, |s.log|));
    }
  }

  lemma AnswerCommits(s: NodeState, m: Message, net: Net)
    requires m.AppendEntryResponse? && OnAppendEntryResponse(s, m, net).Done?
    ensures CommitsTo(s, OnAppendEntryResponse(s, m, net).node, CommittedAfter(s, m))
  {
    if s.term == m.term && m.success && s.committed <= m.index {
      CommitUpToCommits(s.(acks := s.acks[m.index := s.acks[m.index] + {m.from}]), m.index + 1);
    }
  }

  /** Every handler run commits exactly that far, and applies exactly the entries on the way. */
  lemma HandleCommits(s: NodeState, m: Message, net: Net)
    requires Handle(s, m, net).Done?
    ensures CommitsTo(s, Handle(s, m, net).node, CommittedAfter(s, m))
  {
    match m
    case AppendEntry(_, _, _, _) => HeartbeatCommits(s, m, net);
    case AppendEntryResponse(_, _, _, _) => AnswerCommits(s, m, net);
    case _ =>
  }

  /** In every run, a node that handles a message, and lives, then has committed exactly as far as the
      message says; no other step moves a commit index or touches a book. */
  lemma CommitsExactly(r: Run, count: nat, i: nat, n: NodeId)
    requires IsRun(r, count) && i < |r.actions| && n < count && Enabled(r.states[i], r.actions[i])
    ensures |r.states[i].nodes| == |r.states[i + 1].nodes| == count
    ensures var c, a := r.states[i], r.actions[i];
            CommitsTo(c.nodes[n], r.states[i + 1].nodes[n],
                      if a.Deliver? && a.n == n && n in r.states[i + 1].alive
                      then CommittedAfter(c.nodes[n], Head(c, a))
                      else c.nodes[n].committed)
  {
    RunWellFormed(r, count, i);
    RunWellFormed(r, count, i + 1);
    assert StepOf(r, i);
    var c, a := r.states[i], r.actions[i];
    StepFrame(c, a);
    if a.Deliver? && a.n == n && RunAt(c, a).Done? { HandleCommits(c.nodes[n], Head(c, a), a.net); }
  }

  /** The ledger of every node in every run balances against the commands it has applied. */
  lemma NodeLedgerBalances(r: Run, count: nat, i: nat, n: NodeId)
    requires IsRun(r, count) && i < |r.states| && n < count
    requires DepositSum(AppliedAt(r, count, i, n)) < USIZE_MODULUS
    ensures |r.states[i].nodes| == count
    ensures var applied := AppliedAt(r, count, i, n);
            Total(r.states[i].nodes[n].book) + AcceptedWithdrawals(applied) == AcceptedDeposits(applied)
  {
    AppliedExactlyOnce(r, count, i, n);
    LedgerConservation(AppliedAt(r, count, i, n));
  }

  /** Account by account: every node's book has exactly the accounts that the commands it applied
      opened, each with what they brought in less what they took out. */
  lemma NodeAccountBalances(r: Run, count: nat, i: nat, n: NodeId, a: string)
    requires IsRun(r, count) && i < |r.states| && n < count
    ensures |r.states[i].nodes| == count
    ensures var book, applied := r.states[i].nodes[n].book, AppliedAt(r, count, i, n);
            && (a in book <==> Opened(applied, a))
            && (a in book ==> book[a] == Balance(applied, a))
            && (a in book && DepositSum(applied) < USIZE_MODULUS ==>
                  book[a] == CameIn(applied, a) - WentOut(applied, a))
  {
    AppliedExactlyOnce(r, count, i, n);
    var applied := AppliedAt(r, count, i, n);
    AccountBalances(applied, a);
    if a in Replay(applied) && DepositSum(applied) < USIZE_MODULUS { AccountBalancesExact(applied, a); }
  }
}
