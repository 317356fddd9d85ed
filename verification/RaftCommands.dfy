/** What becomes of client commands, in every run: none is lost or duplicated on its way into a
    leader's log. */
module RaftCommands {
  import opened Options
  import opened Ledger
  import opened RaftModel
  import opened RaftCluster
  import opened RaftShape

  // ------------------------------------------------------------------- bookkeeping

  function CommandsOf(entries: seq<LogEntry>): seq<Command> {
    seq(|entries|, i requires 0 <= i < |entries| => entries[i].command)
  }

  /** How often a command occurs in a list of commands. */
  function Occurs(cmds: seq<Command>, x: Command): nat {
    multiset(cmds)[x]
  }

  /** How often a client command occurs among some messages. */
  function Cmds(ms: seq<Message>, x: Command): nat {
    if ms == [] then 0
    else Cmds(ms[..|ms| - 1], x) + if ms[|ms| - 1] == ClientCommand(x) then 1 else 0
  }

  function InFlight(inbox: seq<seq<Message>>, x: Command): nat {
    if inbox == [] then 0 else InFlight(inbox[..|inbox| - 1], x) + Cmds(inbox[|inbox| - 1], x)
  }

  function Pending(nodes: seq<NodeState>, x: Command): nat {
    if nodes == [] then 0 else Pending(nodes[..|nodes| - 1], x) + Occurs(nodes[|nodes| - 1].pendingCmds, x)
  }

  /** The commands of the entries a step creates: what the acting node's log grows by, unless
      it grows by replication. */
  function CreatedBy(c: Cluster, a: Action, c': Cluster): seq<Command>
    requires WellFormed(c) && a.n < |c.nodes| == |c'.nodes|
  {
    if a.Deliver? && c.inbox[a.n] != [] then CreatedIn(c.nodes[a.n], c.inbox[a.n][0], c'.nodes[a.n]) else []
  }

  function CreatedIn(s: NodeState, m: Message, s': NodeState): seq<Command> {
    if !m.AppendEntry? && |s.log| <= |s'.log| then CommandsOf(s'.log[|s.log|..]) else []
  }

  function InjectedBy(a: Action): seq<Command> {
    if a.Inject? then [a.cmd] else []
  }

  /** How often a command has been injected so far in a run. */
  ghost function InjectedAt(r: Run, count: nat, i: nat, x: Command): nat
    requires IsRun(r, count) && i < |r.states|
  {
    if i == 0 then 0 else InjectedAt(r, count, i - 1, x) + Occurs(InjectedBy(r.actions[i - 1]), x)
  }

  /** How often leaders have created an entry for a command so far in a run. */
  ghost function CreatedAt(r: Run, count: nat, i: nat, x: Command): nat
    requires IsRun(r, count) && i < |r.states|
  {
    if i == 0 then 0
    else
      RunWellFormed(r, count, i - 1);
      RunWellFormed(r, count, i);
      assert StepOf(r, i - 1);
      CreatedAt(r, count, i - 1, x) + Occurs(CreatedBy(r.states[i - 1], r.actions[i - 1], r.states[i]), x)
  }

  // --------------------------------------------------------------------- counting

  lemma {:induction false} CmdsConcat(xs: seq<Message>, ys: seq<Message>, x: Command)
    ensures Cmds(xs + ys, x) == Cmds(xs, x) + Cmds(ys, x)
  {
    if ys == [] {
      assert xs + ys == xs;
    } else {
      assert (xs + ys)[..|xs + ys| - 1] == xs + ys[..|ys| - 1];
      CmdsConcat(xs, ys[..|ys| - 1], x);
    }
  }

  lemma CmdsOne(m: Message, x: Command)
    ensures Cmds([m], x) == if m == ClientCommand(x) then 1 else 0
  {
    assert [m][..0] == [];
    assert Cmds([m][..0], x) == 0;
  }

  lemma {:induction false} CmdsNone(ms: seq<Message>, x: Command)
    requires ClientCommand(x) !in ms
    ensures Cmds(ms, x) == 0
  {
    if ms != [] { CmdsNone(ms[..|ms| - 1], x); }
  }

  lemma {:induction false} CmdsAsMessages(cmds: seq<Command>, x: Command)
    ensures Cmds(AsMessages(cmds), x) == Occurs(cmds, x)
  {
    if cmds != [] {
      var front := cmds[..|cmds| - 1];
      assert cmds == front + [cmds[|cmds| - 1]];
      assert AsMessages(cmds)[..|cmds| - 1] == AsMessages(front);
      CmdsAsMessages(front, x);
    }
  }

  lemma {:induction false} InFlightUpdate(inbox: seq<seq<Message>>, q: nat, ms: seq<Message>, x: Command)
    requires q < |inbox|
    ensures InFlight(inbox[q := ms], x) + Cmds(inbox[q], x) == InFlight(inbox, x) + Cmds(ms, x)
  {
    var last := |inbox| - 1;
    if q < last {
      assert inbox[q := ms][..last] == inbox[..last][q := ms];
      InFlightUpdate(inbox[..last], q, ms, x);
    } else {
      assert inbox[q := ms][..last] == inbox[..last];
    }
  }

  lemma {:induction false} PendingUpdate(nodes: seq<NodeState>, n: nat, s: NodeState, x: Command)
    requires n < |nodes|
    ensures Pending(nodes[n := s], x) + Occurs(nodes[n].pendingCmds, x) == Pending(nodes, x) + Occurs(s.pendingCmds, x)
  {
    var last := |nodes| - 1;
    if n < last {
      assert nodes[n := s][..last] == nodes[..last][n := s];
      PendingUpdate(nodes[..last], n, s, x);
    } else {
      assert nodes[n := s][..last] == nodes[..last];
    }
  }

  lemma {:induction false} InFlightSame(inbox: seq<seq<Message>>, inbox': seq<seq<Message>>, x: Command)
    requires |inbox| == |inbox'| && forall q :: 0 <= q < |inbox| ==> Cmds(inbox'[q], x) == Cmds(inbox[q], x)
    ensures InFlight(inbox', x) == InFlight(inbox, x)
  {
    if inbox != [] { InFlightSame(inbox[..|inbox| - 1], inbox'[..|inbox| - 1], x); }
  }

  lemma RouteQuiet(inbox: seq<seq<Message>>, out: Outbox, q: nat, x: Command)
    requires q < |inbox| && (q in out ==> Cmds(out[q], x) == 0)
    ensures Cmds(Route(inbox, out)[q], x) == Cmds(inbox[q], x)
  {
    CmdsConcat(inbox[q], Sent(out, q), x);
  }

  /** Routing an outbox that has commands for `l` only. */
  lemma InFlightRoute(inbox: seq<seq<Message>>, out: Outbox, l: NodeId, x: Command)
    requires forall q :: q in out && q != l ==> Cmds(out[q], x) == 0
    requires l >= |inbox| ==> Cmds(Sent(out, l), x) == 0
    ensures InFlight(Route(inbox, out), x) == InFlight(inbox, x) + Cmds(Sent(out, l), x)
  {
    if l < |inbox| {
      var mid := inbox[l := inbox[l] + Sent(out, l)];
      InFlightUpdate(inbox, l, mid[l], x);
      CmdsConcat(inbox[l], Sent(out, l), x);
      forall q | 0 <= q < |inbox| ensures Cmds(Route(inbox, out)[q], x) == Cmds(mid[q], x) {
        if q != l { RouteQuiet(inbox, out, q, x); }
      }
      InFlightSame(mid, Route(inbox, out), x);
    } else {
      forall q | 0 <= q < |inbox| ensures Cmds(Route(inbox, out)[q], x) == Cmds(inbox[q], x) {
        RouteQuiet(inbox, out, q, x);
      }
      InFlightSame(inbox, Route(inbox, out), x);
    }
  }

  /** Taking the first message out of an inbox. */
  lemma InFlightTake(inbox: seq<seq<Message>>, n: nat, x: Command)
    requires n < |inbox| && inbox[n] != []
    ensures InFlight(inbox[n := inbox[n][1..]], x) == InFlight(inbox, x) - Cmds(inbox[n][..1], x)
  {
    InFlightUpdate(inbox, n, inbox[n][1..], x);
    assert inbox[n] == inbox[n][..1] + inbox[n][1..];
    CmdsConcat(inbox[n][..1], inbox[n][1..], x);
  }

  // ------------------------------------------------------------------ one handler run

  /** The only node a handler may send client commands to. */
  function ForwardTarget(s: NodeState, m: Message): NodeId {
    if m.AppendEntry? then m.from else if s.leader.Some? then s.leader.value else s.id
  }

  predicate CommandsBalance(s: NodeState, m: Message, s': NodeState, out: Outbox, x: Command) {
    && (forall q :: q in out && q != ForwardTarget(s, m) ==> Cmds(out[q], x) == 0)
    && Cmds([m], x) + Occurs(s.pendingCmds, x)
       == Occurs(s'.pendingCmds, x) + Cmds(Sent(out, ForwardTarget(s, m)), x) + Occurs(CreatedIn(s, m, s'), x)
  }

  /** Forwarding splits the pending commands: a prefix leaves in order, the rest stays in order. */
  lemma ForwardSplits(s: NodeState, net: Net, out: Outbox)
    requires ForwardPending(s, net, out).Done?
    ensures var o, l, k := ForwardPending(s, net, out), s.leader.value, Min(net.forwards, |s.pendingCmds|);
            && o.node == s.(pendingCmds := s.pendingCmds[k..])
            && s.pendingCmds == s.pendingCmds[..k] + o.node.pendingCmds
            && Sent(o.out, l) == Sent(out, l) + AsMessages(s.pendingCmds[..k])
            && (forall q :: q != l ==> (q in o.out <==> q in out) && Sent(o.out, q) == Sent(out, q))
  {
    var k := Min(net.forwards, |s.pendingCmds|);
    if k == 0 { assert AsMessages(s.pendingCmds[..k]) == []; }
  }

  lemma ForwardBalance(s: NodeState, net: Net, out: Outbox, x: Command)
    requires ForwardPending(s, net, out).Done?
    ensures var o, l := ForwardPending(s, net, out), s.leader.value;
            Occurs(s.pendingCmds, x) + Cmds(Sent(out, l), x) == Occurs(o.node.pendingCmds, x) + Cmds(Sent(o.out, l), x)
  {
    var k, l := Min(net.forwards, |s.pendingCmds|), s.leader.value;
    ForwardSplits(s, net, out);
    CmdsAsMessages(s.pendingCmds[..k], x);
    CmdsConcat(Sent(out, l), AsMessages(s.pendingCmds[..k]), x);
  }

  lemma QuietOutbox(out: Outbox, x: Command)
    requires forall q, m :: q in out && m in out[q] ==> !m.ClientCommand?
    ensures forall q :: Cmds(Sent(out, q), x) == 0
  {
    forall q ensures Cmds(Sent(out, q), x) == 0 {
      if q in out {
        assert forall m :: m in out[q] ==> !m.ClientCommand?;
        CmdsNone(out[q], x);
      }
    }
  }

  lemma AppendEntryBalance(s: NodeState, m: Message, net: Net, x: Command)
    requires m.AppendEntry? && OnAppendEntry(s, m, net).Done?
    ensures CommandsBalance(s, m, OnAppendEntry(s, m, net).node, OnAppendEntry(s, m, net).out, x)
  {
    CmdsOne(m, x);
    if s.term <= m.term {
      var s1 := s.(role := Follower, term := m.term, leader := Some(m.from));
      var r := if m.entry.Some? then ReceiveEntry(s1, m, net) else FollowCommit(s1, m);
      AppendEntryQuiet(s1, m, net, x);
      if r.node.pendingCmds != [] {
        ForwardSplits(r.node, net, r.out);
        ForwardBalance(r.node, net, r.out, x);
      }
    }
  }

  /** Before it forwards anything, the append-entry handler leaves the pending commands alone. */
  lemma AppendEntryQuiet(s: NodeState, m: Message, net: Net, x: Command)
    requires m.AppendEntry?
    ensures var r := if m.entry.Some? then ReceiveEntry(s, m, net) else FollowCommit(s, m);
            && r.node == s.(log := r.node.log, acks := r.node.acks, book := r.node.book, committed := r.node.committed)
            && r.out.Keys <= {m.from} && Cmds(Sent(r.out, m.from), x) == 0
  {
    if m.entry.Some? {
      CmdsNone(Sent(ReceiveEntry(s, m, net).out, m.from), x);
    } else {
      CommitFrame(s, Min(m.committed, |s.log|));
    }
  }

  lemma LeaderCommandBalance(s: NodeState, m: Message, net: Net, x: Command)
    requires m.ClientCommand? && s.role.Leader?
    ensures var o := OnCommand(s, m, net);
            o.Done? && CommandsBalance(s, m, o.node, o.out, x)
  {
    CmdsOne(m, x);
    var o := OnCommand(s, m, net);
    assert o.node.pendingCmds == s.pendingCmds;
    assert o.node.log == s.log + [LogEntry(s.term, m.cmd)];
    assert o.node.log[|s.log|..] == [LogEntry(s.term, m.cmd)];
    assert CreatedIn(s, m, o.node) == [m.cmd];
    assert forall q, r :: q in o.out && r in o.out[q] ==> r.AppendEntry?;
    QuietOutbox(o.out, x);
    assert forall q :: q in o.out ==> Cmds(Sent(o.out, q), x) == 0;
  }

  lemma ForwardedCommandBalance(s: NodeState, m: Message, net: Net, x: Command)
    requires m.ClientCommand? && !s.role.Leader? && s.leader.Some? && OnCommand(s, m, net).Done?
    ensures CommandsBalance(s, m, OnCommand(s, m, net).node, OnCommand(s, m, net).out, x)
  {
    CmdsOne(m, x);
    var o, s1 := OnCommand(s, m, net), s.(pendingCmds := s.pendingCmds + [m.cmd]);
    ForwardSplits(s1, net, map[]);
    ForwardBalance(s1, net, map[], x);
    assert o == ForwardPending(s1, net, map[]);
    assert CreatedIn(s, m, o.node) == [];
    assert Occurs(s1.pendingCmds, x) == Occurs(s.pendingCmds, x) + Cmds([m], x);
  }

  lemma KeptCommandBalance(s: NodeState, m: Message, net: Net, x: Command)
    requires m.ClientCommand? && !s.role.Leader? && s.leader.None?
    ensures OnCommand(s, m, net).Done?
    ensures CommandsBalance(s, m, OnCommand(s, m, net).node, OnCommand(s, m, net).out, x)
  {
    CmdsOne(m, x);
    var o := OnCommand(s, m, net);
    assert o == Done(s.(pendingCmds := s.pendingCmds + [m.cmd]), map[]);
    assert CreatedIn(s, m, o.node) == [];
  }

  lemma CommandBalance(s: NodeState, m: Message, net: Net, x: Command)
    requires m.ClientCommand? && OnCommand(s, m, net).Done?
    ensures CommandsBalance(s, m, OnCommand(s, m, net).node, OnCommand(s, m, net).out, x)
  {
    if s.role.Leader? {
      LeaderCommandBalance(s, m, net, x);
    } else if s.leader.Some? {
      ForwardedCommandBalance(s, m, net, x);
    } else {
      KeptCommandBalance(s, m, net, x);
    }
  }

  lemma VoteBalance(s: NodeState, m: Message, net: Net, x: Command)
    requires m.Vote?
    ensures CommandsBalance(s, m, OnVote(s, m, net).node, OnVote(s, m, net).out, x)
  {
    CmdsOne(m, x);
    var o := OnVote(s, m, net);
    if WinsElection(s, m) {
      assert o.node.log[|s.log|..] == Entries(s.term, s.pendingCmds);
      assert CreatedIn(s, m, o.node) == s.pendingCmds;
    } else {
      assert CreatedIn(s, m, o.node) == [];
    }
    QuietOutbox(o.out, x);
    assert forall q :: q in o.out ==> Cmds(Sent(o.out, q), x) == 0;
  }

  lemma RequestVoteBalance(s: NodeState, m: Message, net: Net, x: Command)
    requires m.RequestVote? && OnRequestVote(s, m, net).Done?
    ensures CommandsBalance(s, m, OnRequestVote(s, m, net).node, OnRequestVote(s, m, net).out, x)
  {
    CmdsOne(m, x);
    var o := OnRequestVote(s, m, net);
    assert CreatedIn(s, m, o.node) == [];
    QuietOutbox(o.out, x);
    assert forall q :: q in o.out ==> Cmds(Sent(o.out, q), x) == 0;
  }

  lemma AppendEntryResponseBalance(s: NodeState, m: Message, net: Net, x: Command)
    requires m.AppendEntryResponse? && OnAppendEntryResponse(s, m, net).Done?
    ensures CommandsBalance(s, m, OnAppendEntryResponse(s, m, net).node, OnAppendEntryResponse(s, m, net).out, x)
  {
    CmdsOne(m, x);
    if m.index < |s.acks| && m.index < |s.log| { CountAckFrame(s, m.from, m.index); }
    var o := OnAppendEntryResponse(s, m, net);
    assert o.node.log == s.log && o.node.pendingCmds == s.pendingCmds;
    assert CreatedIn(s, m, o.node) == [];
    QuietOutbox(o.out, x);
    assert forall q :: q in o.out ==> Cmds(Sent(o.out, q), x) == 0;
  }

  lemma HandleBalance(s: NodeState, m: Message, net: Net, x: Command)
    requires Handle(s, m, net).Done?
    ensures CommandsBalance(s, m, Handle(s, m, net).node, Handle(s, m, net).out, x)
  {
    match m
    case ClientCommand(_) => CommandBalance(s, m, net, x);
    case AppendEntry(_, _, _, _) => AppendEntryBalance(s, m, net, x);
    case AppendEntryResponse(_, _, _, _) => AppendEntryResponseBalance(s, m, net, x);
    case RequestVote(_, _, _) => RequestVoteBalance(s, m, net, x);
    case Vote(_) => VoteBalance(s, m, net, x);
  }

  // ------------------------------------------------------------------- conservation

  /** Where a command is: on its way, or waiting at a node. */
  function Waiting(c: Cluster, x: Command): nat {
    InFlight(c.inbox, x) + Pending(c.nodes, x)
  }

  lemma PanicConserves(c: Cluster, a: Action, x: Command)
    requires ShapeInv(c) && Enabled(c, a) && RunAt(c, a).Panic?
    ensures Waiting(c, x) == Waiting(Step(c, a), x) + Occurs(CreatedBy(c, a, Step(c, a)), x)
  {
    RunAtOk(c, a);
    assert CreatedBy(c, a, Step(c, a)) == [];
    InFlightTake(c.inbox, a.n, x);
    assert c.inbox[a.n][..1] == [Head(c, a)];
    CmdsOne(Head(c, a), x);
  }

  lemma DeliverConserves(c: Cluster, a: Action, x: Command)
    requires ShapeInv(c) && Enabled(c, a) && a.Deliver? && RunAt(c, a).Done?
    ensures Waiting(c, x) == Waiting(Step(c, a), x) + Occurs(CreatedBy(c, a, Step(c, a)), x)
  {
    var n, s, m := a.n, c.nodes[a.n], Head(c, a);
    var s', out := RunAt(c, a).node, RunAt(c, a).out;
    InFlightTake(c.inbox, n, x);
    assert c.inbox[n][..1] == [m];
    HandleBalance(s, m, a.net, x);
    ForwardTargetExists(c, a);
    InFlightRoute(Taken(c, a), out, ForwardTarget(s, m), x);
    PendingUpdate(c.nodes, n, s', x);
  }

  lemma ForwardTargetExists(c: Cluster, a: Action)
    requires ShapeInv(c) && Enabled(c, a) && a.Deliver?
    ensures ForwardTarget(c.nodes[a.n], Head(c, a)) < |c.nodes|
  {
    assert Head(c, a) in c.inbox[a.n];
    assert NodeOk(c.nodes[a.n], a.n, |c.nodes|);
  }

  lemma InjectConserves(c: Cluster, a: Action, x: Command)
    requires ShapeInv(c) && Enabled(c, a) && a.Inject?
    ensures Waiting(Step(c, a), x) == Waiting(c, x) + Occurs([a.cmd], x)
  {
    var n := a.n;
    InFlightRoute(Taken(c, a), map[], n, x);
    CmdsConcat(c.inbox[n], [ClientCommand(a.cmd)], x);
    CmdsOne(ClientCommand(a.cmd), x);
    InFlightUpdate(c.inbox, n, c.inbox[n] + [ClientCommand(a.cmd)], x);
    PendingUpdate(c.nodes, n, c.nodes[n], x);
  }

  lemma TimeoutConserves(c: Cluster, a: Action, x: Command)
    requires ShapeInv(c) && Enabled(c, a) && a.Timeout?
    ensures Waiting(Step(c, a), x) == Waiting(c, x)
  {
    var n, o := a.n, RunAt(c, a);
    QuietOutbox(o.out, x);
    assert forall q :: q in o.out ==> Cmds(Sent(o.out, q), x) == 0;
    InFlightRoute(c.inbox, o.out, n, x);
    PendingUpdate(c.nodes, n, o.node, x);
  }

  lemma {:induction false} EmptyInboxes(inbox: seq<seq<Message>>, x: Command)
    requires forall q :: 0 <= q < |inbox| ==> inbox[q] == []
    ensures InFlight(inbox, x) == 0
  {
    if inbox != [] { EmptyInboxes(inbox[..|inbox| - 1], x); }
  }

  lemma {:induction false} EmptyPending(nodes: seq<NodeState>, x: Command)
    requires forall i :: 0 <= i < |nodes| ==> nodes[i].pendingCmds == []
    ensures Pending(nodes, x) == 0
  {
    if nodes != [] { EmptyPending(nodes[..|nodes| - 1], x); }
  }

  lemma InitWaiting(count: nat, x: Command)
    ensures Waiting(Init(count), x) == 0
  {
    EmptyInboxes(Init(count).inbox, x);
    EmptyPending(Init(count).nodes, x);
  }

  ghost predicate ConservedAt(r: Run, count: nat, i: nat, x: Command)
    requires IsRun(r, count) && i < |r.states|
  {
    InjectedAt(r, count, i, x) == Waiting(r.states[i], x) + CreatedAt(r, count, i, x)
  }

  lemma StepConserves(r: Run, count: nat, i: nat, x: Command)
    requires IsRun(r, count) && 0 < i < |r.states| && ConservedAt(r, count, i - 1, x)
    ensures ConservedAt(r, count, i, x)
  {
    LogShape(r, count, i - 1);
    assert StepOf(r, i - 1);
    var c, a := r.states[i - 1], r.actions[i - 1];
    match a
    case Inject(_, _) => InjectConserves(c, a, x);
    case Timeout(_, _) => TimeoutConserves(c, a, x);
    case Deliver(_, _) => if RunAt(c, a).Panic? { PanicConserves(c, a, x); } else { DeliverConserves(c, a, x); }
  }

  lemma {:induction false} ConservedAlways(r: Run, count: nat, i: nat, x: Command)
    requires IsRun(r, count) && i < |r.states|
    ensures ConservedAt(r, count, i, x)
  {
    if i == 0 {
      InitWaiting(count, x);
    } else {
      ConservedAlways(r, count, i - 1, x);
      StepConserves(r, count, i, x);
    }
  }

  /** In every run, for every command: its injections equal its occurrences in the inboxes, in
      the nodes' pending commands, and among the entries that leaders created. */
  lemma CommandConservation(r: Run, count: nat, i: nat, x: Command)
    requires IsRun(r, count) && i < |r.states|
    ensures InjectedAt(r, count, i, x)
            == InFlight(r.states[i].inbox, x) + Pending(r.states[i].nodes, x) + CreatedAt(r, count, i, x)
  {
    ConservedAlways(r, count, i, x);
  }
}
