/** Building runs step by step. Beside where a run ends we keep one fact about its whole past: only
    nodes 0 and 1 have ever had the command Y in their logs, and node 1 has never had X. */
module RaftRuns {
  import opened Ledger
  import opened RaftModel
  import opened RaftCluster

  const X := Open("x")
  const Y := Open("y")
  const Z := Open("z")

  const NOWHERE := Net({}, 0)

  function Reaching(p: NodeId): Net { Net({p}, 0) }

  predicate Lacks(log: seq<LogEntry>, cmd: Command) {
    forall k :: 0 <= k < |log| ==> log[k].command != cmd
  }

  predicate Spare(n: NodeId, log: seq<LogEntry>) {
    && (n >= 2 ==> Lacks(log, Y))
    && (n == 1 ==> Lacks(log, X))
  }

  predicate Spared(c: Cluster) {
    forall n :: 0 <= n < |c.nodes| ==> Spare(n, c.nodes[n].log)
  }

  ghost predicate EndsIn(r: Run, count: nat, c: Cluster) {
    && IsRun(r, count) && r.states[|r.states| - 1] == c
    && forall j :: 0 <= j < |r.states| ==> Spared(r.states[j])
  }

  ghost predicate Reachable(c: Cluster, count: nat) {
    exists r: Run :: EndsIn(r, count, c)
  }

  lemma Starts(count: nat)
    ensures Reachable(Init(count), count)
  {
    assert EndsIn(Run([Init(count)], []), count, Init(count));
  }

  function Extended(r: Run, a: Action): Run
    requires |r.states| > 0 && Enabled(r.states[|r.states| - 1], a)
  {
    Run(r.states + [Step(r.states[|r.states| - 1], a)], r.actions + [a])
  }

  lemma ExtendedEnds(r: Run, c: Cluster, a: Action, count: nat)
    requires EndsIn(r, count, c) && Enabled(c, a) && Spared(Step(c, a))
    ensures EndsIn(Extended(r, a), count, Step(c, a))
  {
    var r' := Extended(r, a);
    forall i | 0 <= i < |r'.actions| ensures StepOf(r', i) {
      if i < |r.actions| { assert StepOf(r, i); }
    }
    forall j | 0 <= j < |r'.states| ensures Spared(r'.states[j]) {
      if j < |r.states| { assert r'.states[j] == r.states[j]; }
    }
  }

  lemma Continues(c: Cluster, a: Action, count: nat)
    requires Reachable(c, count) && Enabled(c, a)
    requires RunAt(c, a).Done? ==> Spare(a.n, RunAt(c, a).node.log)
    ensures Reachable(Step(c, a), count)
  {
    var r: Run :| EndsIn(r, count, c);
    assert Spared(r.states[|r.states| - 1]);
    assert Spared(Step(c, a));
    ExtendedEnds(r, c, a, count);
  }

  predicate Full(c: Cluster, count: nat) {
    |c.nodes| == |c.inbox| == count && c.alive == Ids(count)
  }

  /** Node `n` has handled its message, and `ms` are on their way to `p`. */
  function After(c: Cluster, n: NodeId, node: NodeState, p: NodeId, ms: seq<Message>): Cluster
    requires n < |c.nodes| == |c.inbox| && p < |c.inbox| && p != n && c.inbox[n] != []
  {
    Cluster(c.nodes[n := node], c.inbox[n := c.inbox[n][1..]][p := c.inbox[p] + ms], c.alive)
  }

  /** Routing an outbox that has messages for `p` only. */
  lemma RoutesTo(inbox: seq<seq<Message>>, out: Outbox, p: NodeId)
    requires p < |inbox| && out.Keys <= {p}
    ensures Route(inbox, out) == inbox[p := inbox[p] + Sent(out, p)]
  {
    forall q | 0 <= q < |inbox| ensures Route(inbox, out)[q] == inbox[p := inbox[p] + Sent(out, p)][q] {
      assert inbox[q] + [] == inbox[q];
    }
  }

  lemma Delivers(c: Cluster, n: NodeId, net: Net, p: NodeId, count: nat)
    requires Reachable(c, count) && Full(c, count) && n < count && p < count && p != n && c.inbox[n] != []
    requires var o := Handle(c.nodes[n], c.inbox[n][0], net);
             o.Done? && o.out.Keys <= {p} && Spare(n, o.node.log)
    ensures var o := Handle(c.nodes[n], c.inbox[n][0], net);
            Reachable(After(c, n, o.node, p, Sent(o.out, p)), count)
  {
    var a, o := Deliver(n, net), Handle(c.nodes[n], c.inbox[n][0], net);
    assert RunAt(c, a) == o;
    RoutesTo(c.inbox[n := c.inbox[n][1..]], o.out, p);
    Continues(c, a, count);
  }

  lemma Arrives(c: Cluster, n: NodeId, cmd: Command, count: nat)
    requires Reachable(c, count) && Full(c, count) && n < count
    ensures Reachable(c.(inbox := c.inbox[n := c.inbox[n] + [ClientCommand(cmd)]]), count)
  {
    var a := Inject(n, cmd);
    assert RunAt(c, a) == Done(c.nodes[n], map[]);
    SparedSoFar(c, count);
    RoutesTo(Taken(c, a), map[], n);
    assert Taken(c, a)[n] + [] == Taken(c, a)[n];
    assert c.nodes[n := c.nodes[n]] == c.nodes;
    assert Step(c, a) == c.(inbox := c.inbox[n := c.inbox[n] + [ClientCommand(cmd)]]);
    Continues(c, a, count);
  }

  lemma SparedSoFar(c: Cluster, count: nat)
    requires Reachable(c, count)
    ensures Spared(c)
  {
    var r: Run :| EndsIn(r, count, c);
    assert Spared(r.states[|r.states| - 1]);
  }
}
