/** The whole cluster: fully connected nodes with one FIFO inbox each, and its runs. A step
    lets a client command arrive, or lets one node run the handler of the message at the head
    of its inbox, or its timeout branch. The network decides anew for every handler run which
    sends fail. A node whose handler panics takes no further steps and can no longer be sent to. */
module RaftCluster {
  import opened Ledger
  import opened RaftModel

  datatype Cluster = Cluster(nodes: seq<NodeState>, inbox: seq<seq<Message>>, alive: set<NodeId>)

  datatype Action =
    | Inject(n: NodeId, cmd: Command)
    | Deliver(n: NodeId, net: Net)
    | Timeout(n: NodeId, net: Net)

  function Ids(count: nat): (ids: set<NodeId>)
    ensures forall i: nat :: i in ids <==> i < count
    ensures |ids| == count
  {
    if count == 0 then {} else Ids(count - 1) + {count - 1}
  }

  function Others(i: NodeId, count: nat): set<NodeId> {
    Ids(count) - {i}
  }

  function Init(count: nat): Cluster {
    Cluster(seq(count, i requires i >= 0 => InitialNode(i, Others(i, count))),
            seq(count, _ => []),
            Ids(count))
  }

  predicate WellFormed(c: Cluster) {
    |c.inbox| == |c.nodes| && forall i :: i in c.alive ==> i < |c.nodes|
  }

  /** The handler run that an action amounts to at its node. */
  function RunAt(c: Cluster, a: Action): Outcome
    requires WellFormed(c) && a.n < |c.nodes| && (a.Deliver? ==> c.inbox[a.n] != [])
  {
    match a
    case Inject(n, _) => Done(c.nodes[n], map[])
    case Deliver(n, net) => Handle(c.nodes[n], c.inbox[n][0], net)
    case Timeout(n, net) => OnTimeout(c.nodes[n], net)
  }

  /** A live node acts, and what it gets out goes to live nodes: sending to a node whose
      thread has ended fails. */
  predicate Enabled(c: Cluster, a: Action) {
    && WellFormed(c) && a.n in c.alive
    && (a.Deliver? ==> c.inbox[a.n] != [])
    && var o := RunAt(c, a);
       o.Done? ==> o.out.Keys <= c.alive
  }

  /** The inboxes once the acting node has taken its message (or the client's has arrived). */
  function Taken(c: Cluster, a: Action): seq<seq<Message>>
    requires Enabled(c, a)
  {
    match a
    case Inject(n, cmd) => c.inbox[n := c.inbox[n] + [ClientCommand(cmd)]]
    case Deliver(n, _) => c.inbox[n := c.inbox[n][1..]]
    case Timeout(_, _) => c.inbox
  }

  function Route(inbox: seq<seq<Message>>, out: Outbox): (r: seq<seq<Message>>)
    ensures |r| == |inbox|
  {
    seq(|inbox|, q requires 0 <= q < |inbox| => inbox[q] + Sent(out, q))
  }

  function Step(c: Cluster, a: Action): Cluster
    requires Enabled(c, a)
  {
    match RunAt(c, a)
    case Panic => Cluster(c.nodes, Taken(c, a), c.alive - {a.n})
    case Done(node, out) => Cluster(c.nodes[a.n := node], Route(Taken(c, a), out), c.alive)
  }

  /** A run: the states it goes through and the actions between them. */
  datatype Run = Run(states: seq<Cluster>, actions: seq<Action>)

  ghost predicate IsRun(r: Run, count: nat) {
    && |r.states| == |r.actions| + 1
    && r.states[0] == Init(count)
    && forall i :: 0 <= i < |r.actions| ==> StepOf(r, i)
  }

  ghost predicate StepOf(r: Run, i: nat)
    requires |r.states| == |r.actions| + 1 && i < |r.actions|
  {
    Enabled(r.states[i], r.actions[i]) && r.states[i + 1] == Step(r.states[i], r.actions[i])
  }

  /** The message a delivery handles. */
  function Head(c: Cluster, a: Action): Message
    requires Enabled(c, a) && a.Deliver?
  {
    c.inbox[a.n][0]
  }

  // --------------------------------------------------------------- what a step changes

  /** Every message in an inbox after a step was there before, or was sent by the acting node
      in that step, or came from the client. */
  lemma MessageOrigin(c: Cluster, a: Action, q: NodeId, m: Message)
    requires Enabled(c, a) && q < |c.nodes| && m in Step(c, a).inbox[q]
    ensures || m in c.inbox[q]
            || (a.Inject? && q == a.n && m == ClientCommand(a.cmd))
            || (RunAt(c, a).Done? && m in Sent(RunAt(c, a).out, q))
  {
  }

  lemma StepFrame(c: Cluster, a: Action)
    requires Enabled(c, a)
    ensures var c' := Step(c, a);
            && WellFormed(c') && |c'.nodes| == |c.nodes|
            && (forall i :: 0 <= i < |c.nodes| && i != a.n ==> c'.nodes[i] == c.nodes[i])
            && (RunAt(c, a).Panic? ==> c'.nodes == c.nodes)
  {
  }

  lemma {:induction false} RunWellFormed(r: Run, count: nat, i: nat)
    requires IsRun(r, count) && i < |r.states|
    ensures WellFormed(r.states[i]) && |r.states[i].nodes| == count
  {
    if i > 0 {
      RunWellFormed(r, count, i - 1);
      assert StepOf(r, i - 1);
      StepFrame(r.states[i - 1], r.actions[i - 1]);
    }
  }
}
