/** The Raft node in its imperative form. The handlers update the fields in place; each is
    proved to leave exactly the state, and to send exactly the messages, that `RaftModel`
    says, and to panic exactly when `RaftModel` says so. */
module RaftNodes {
  import opened Options
  import opened Ledger
  import opened RaftModel

  lemma PostOneMore(out: Outbox, p: NodeId, cmds: seq<Command>, i: nat)
    requires i < |cmds|
    ensures Post(Post(out, p, AsMessages(cmds[..i])), p, [ClientCommand(cmds[i])])
            == Post(out, p, AsMessages(cmds[..i + 1]))
  {
    assert AsMessages(cmds[..i + 1]) == AsMessages(cmds[..i]) + [ClientCommand(cmds[i])];
    assert Sent(out, p) + (AsMessages(cmds[..i]) + [ClientCommand(cmds[i])])
        == Sent(out, p) + AsMessages(cmds[..i]) + [ClientCommand(cmds[i])];
    if i == 0 {
      assert AsMessages(cmds[..0]) == [];
      assert AsMessages(cmds[..1]) == [ClientCommand(cmds[0])];
    }
  }

  type Peers = map<NodeId, Option<EntryData>>

  /** The peers once those not in `todo` have been offered the entry. */
  ghost function OfferedPeers(peers: Peers, entry: Option<EntryData>, todo: set<NodeId>): Peers {
    map p | p in peers :: if peers[p].None? && p !in todo then entry else peers[p]
  }

  ghost function OfferedOut(peers: Peers, reach: set<NodeId>, m: Message, todo: set<NodeId>): Outbox {
    map p | p in peers && p in reach && peers[p].None? && p !in todo :: [m]
  }

  lemma OfferOne(peers: Peers, reach: set<NodeId>, entry: Option<EntryData>, m: Message, todo: set<NodeId>, p: NodeId)
    requires p in todo && p in peers
    ensures OfferedPeers(peers, entry, todo)[p] == peers[p]
    ensures OfferedPeers(peers, entry, todo - {p})
            == if peers[p].None? then OfferedPeers(peers, entry, todo)[p := entry] else OfferedPeers(peers, entry, todo)
    ensures p !in OfferedOut(peers, reach, m, todo)
    ensures OfferedOut(peers, reach, m, todo - {p})
            == if peers[p].None? && p in reach then OfferedOut(peers, reach, m, todo)[p := [m]]
               else OfferedOut(peers, reach, m, todo)
  {
  }

  class RaftNode {
    const id: NodeId
    var role: Role
    var peers: map<NodeId, Option<EntryData>>
    var leader: Option<NodeId>
    var term: nat
    var votes: nat
    var log: seq<LogEntry>
    var acks: seq<set<NodeId>>
    var pendingCmds: seq<Command>
    var committed: nat
    var book: Book

    // The network as this node sees it: how the sends of the running handler fare, and what
    // has been sent.
    var net: Net
    var out: Outbox

    ghost function State(): NodeState
      reads this
    {
      NodeState(id, role, peers, leader, term, votes, log, acks, pendingCmds, committed, book)
    }

    /** A new node with its connections accepted. */
    constructor (id: NodeId, others: set<NodeId>, net: Net)
      ensures State() == InitialNode(id, others) && this.net == net && out == map[]
    {
      this.id := id;
      role, leader, term, votes := Follower, None, 0, 0;
      peers := map p | p in others :: None;
      log, acks, pendingCmds, committed, book := [], [], [], 0, map[];
      this.net, out := net, map[];
    }

    /** Sends one protocol message; fails visibly when the peer is in another partition. */
    method Encode(p: NodeId, m: Message) returns (ok: bool)
      modifies this`out
      ensures ok == (p in net.reach)
      ensures out == if ok then Post(old(out), p, [m]) else old(out)
      ensures ok && p !in old(out) ==> out == old(out)[p := [m]]
    {
      ok := p in net.reach;
      if ok {
        out := Post(out, p, [m]);
        assert [] + [m] == [m];
      }
    }

    /** Forwards one client command; fails once the partition has cut in. */
    method EncodeForward(p: NodeId, cmd: Command) returns (ok: bool)
      modifies this`out, this`net
      ensures net.reach == old(net.reach)
      ensures ok == (old(net.forwards) > 0)
      ensures net.forwards == if ok then old(net.forwards) - 1 else 0
      ensures out == if ok then Post(old(out), p, [ClientCommand(cmd)]) else old(out)
    {
      ok := net.forwards > 0;
      if ok {
        out := Post(out, p, [ClientCommand(cmd)]);
        net := net.(forwards := net.forwards - 1);
      }
    }

    method PushLogEntry(entry: LogEntry)
      modifies this`log, this`acks
      ensures State() == Push(old(State()), entry)
    {
      log := log + [entry];
      acks := acks + [{id}];
    }

    method TruncateLog(len: nat)
      modifies this`log, this`acks
      ensures State() == Truncate(old(State()), len)
    {
      if len < |log| { log := log[..len]; }
      if len < |acks| { acks := acks[..len]; }
    }

    method ApplyLog(index: nat)
      requires index < |log|
      modifies this`book
      ensures book == Apply(old(book), log[index].command)
    {
      match log[index].command {
        case Open(account) =>
          if account !in book { book := book[account := 0]; }
        case Deposit(account, amount) =>
          if account in book { book := book[account := WrappingAdd(book[account], amount)]; }
        case Withdraw(account, amount) =>
          if account in book {
            if amount <= book[account] { book := book[account := book[account] - amount]; }
          }
        case Transfer(src, dst, amount) =>
          if src in book {
            if dst in book {
              var balance := book[src];
              if amount <= balance {
                book := book[src := balance - amount];
                book := book[dst := WrappingAdd(book[dst], amount)];
              }
            }
          }
      }
    }

    /** The commit loop shared by followers and leaders. */
    method CommitLog(upTo: nat)
      requires upTo <= |log|
      modifies this`book, this`committed
      ensures State() == CommitUpTo(old(State()), upTo)
    {
      while committed < upTo
        invariant CommitUpTo(State(), upTo) == CommitUpTo(old(State()), upTo)
        decreases upTo - committed
      {
        ApplyLog(committed);
        committed := committed + 1;
      }
    }

    method DrainPendingCmdsToLog()
      modifies this`log, this`acks, this`pendingCmds
      ensures State() == DrainPending(old(State()))
    {
      log := log + Entries(term, pendingCmds);
      acks := acks + seq(|pendingCmds|, _ => {id});
      pendingCmds := [];
    }

    method SendPendingCmdsToLeader() returns (panicked: bool)
      modifies this`pendingCmds, this`out, this`net
      ensures var spec := ForwardPending(old(State()), old(net), old(out));
              panicked == spec.Panic? && (!panicked ==> State() == spec.node && out == spec.out)
    {
      if leader.None? || leader.value !in peers { return true; }
      panicked := false;
      var cmds := pendingCmds;
      ghost var net0, out0 := net, out;
      pendingCmds := [];
      var i := 0;
      while i < |cmds|
        invariant i <= |cmds| && i <= net0.forwards
        invariant net == net0.(forwards := net0.forwards - i)
        invariant pendingCmds == []
        invariant out == Post(out0, leader.value, AsMessages(cmds[..i]))
      {
        var ok := EncodeForward(leader.value, cmds[i]);
        if !ok {
          pendingCmds := [cmds[i]];
          i := i + 1;
          break;
        }
        PostOneMore(out0, leader.value, cmds, i);
        i := i + 1;
      }
      pendingCmds := pendingCmds + cmds[i..];
    }

    /** Sends every peer the entry pending for it. */
    method BroadcastPending()
      requires out == map[]
      modifies this`out
      ensures out == Broadcast(State(), net)
    {
      var todo := peers.Keys;
      while todo != {}
        invariant todo <= peers.Keys
        invariant out == map p | p in peers && p in net.reach && p !in todo :: [AppendEntryMsg(State(), peers[p])]
        decreases |todo|
      {
        var p :| p in todo;
        var ok := Encode(p, AppendEntry(id, term, committed, peers[p]));
        todo := todo - {p};
      }
    }

    /** Checks an offered entry against the log, answers, and accepts it if the answer got out. */
    method Receive(m: Message)
      requires m.AppendEntry? && m.entry.Some? && out == map[]
      modifies this`log, this`acks, this`out
      ensures var spec := ReceiveEntry(old(State()), m, net); State() == spec.node && out == spec.out
    {
      var entry := m.entry.value;
      var success := entry.prevTerm == PrevEntryTerm(log, entry.index);
      var sent := Encode(m.from, AppendEntryResponse(id, m.term, entry.index, success));
      if sent && success {
        TruncateLog(entry.index);
        PushLogEntry(LogEntry(entry.term, entry.command));
      }
    }

    method ExecuteAppendEntry(m: Message) returns (panicked: bool)
      requires m.AppendEntry? && out == map[]
      modifies this
      ensures var spec := OnAppendEntry(old(State()), m, old(net));
              panicked == spec.Panic? && (!panicked ==> State() == spec.node && out == spec.out)
    {
      panicked := false;
      if term <= m.term {
        role := Follower;
        term := m.term;
        leader := Some(m.from);
      } else {
        return;
      }
      if m.entry.Some? {
        if m.from !in peers { return true; }
        Receive(m);
      } else if m.committed > committed {
        CommitLog(Min(m.committed, |log|));
      }
      if pendingCmds != [] {
        panicked := SendPendingCmdsToLeader();
      }
    }

    /** Records one acknowledgement, and commits once a majority has it. */
    method CountAckFrom(from: NodeId, index: nat)
      requires index < |acks| && index < |log|
      modifies this`acks, this`book, this`committed
      ensures State() == CountAck(old(State()), from, index)
    {
      acks := acks[index := acks[index] + {from}];
      if |acks[index]| > (|peers| + 1) / 2 {
        CommitLog(index + 1);
      }
    }

    method ExecuteAppendEntryResponse(m: Message) returns (panicked: bool)
      requires m.AppendEntryResponse? && out == map[]
      modifies this
      ensures var spec := OnAppendEntryResponse(old(State()), m, old(net));
              panicked == spec.Panic? && (!panicked ==> State() == spec.node && out == spec.out)
    {
      panicked := false;
      if term == m.term {
        if m.success && committed <= m.index {
          if m.index >= |acks| || m.index >= |log| { return true; }
          CountAckFrom(m.from, m.index);
        }
        if !m.success && m.index == 0 { return true; }
        var nextIndex := if m.success then m.index + 1 else m.index - 1;
        var entry := NewEntryData(log, nextIndex);
        if m.from !in peers { return true; }
        peers := peers[m.from := entry];
        if entry.Some? {
          var sent := Encode(m.from, AppendEntry(id, term, committed, entry));
        }
      }
    }

    method ExecuteRequestVote(m: Message) returns (panicked: bool)
      requires m.RequestVote? && out == map[]
      modifies this
      ensures var spec := OnRequestVote(old(State()), m, old(net));
              panicked == spec.Panic? && (!panicked ==> State() == spec.node && out == spec.out)
    {
      panicked := false;
      if term < m.term {
        term := m.term;
        if InfoAtMost(Latest(log), m.latestLogInfo) {
          if m.from !in peers { return true; }
          var sent := Encode(m.from, Vote(m.term));
          if sent {
            role := Follower;
            leader := None;
          }
        }
      }
    }

    method ExecuteVote(m: Message) returns (panicked: bool)
      requires m.Vote? && out == map[]
      modifies this
      ensures var spec := OnVote(old(State()), m, old(net));
              panicked == spec.Panic? && (!panicked ==> State() == spec.node && out == spec.out)
    {
      panicked := false;
      if role == Candidate && term == m.term {
        votes := votes + 1;
        if votes > (|peers| + 1) / 2 {
          role := Leader;
          leader := None;
          var entry := LatestEntryData(log);
          peers := map p | p in peers :: entry;
          DrainPendingCmdsToLog();
          BroadcastPending();
        }
      }
    }

    /** Makes a fresh entry pending for every peer that has none, and sends it there. */
    method OfferEntry(entry: Option<EntryData>)
      requires out == map[]
      modifies this`peers, this`out
      ensures peers == map p | p in old(peers) :: if old(peers)[p].None? then entry else old(peers)[p]
      ensures out == map p | p in old(peers) && p in net.reach && old(peers)[p].None? ::
                       [AppendEntry(id, term, committed, entry)]
    {
      ghost var peers0 := peers;
      var m := AppendEntry(id, term, committed, entry);
      var todo := peers.Keys;
      while todo != {}
        invariant todo <= peers0.Keys
        invariant peers == OfferedPeers(peers0, entry, todo)
        invariant out == OfferedOut(peers0, net.reach, m, todo)
        decreases |todo|
      {
        var p :| p in todo;
        OfferOne(peers0, net.reach, entry, m, todo, p);
        if peers[p].None? {
          peers := peers[p := entry];
          var sent := Encode(p, m);
        }
        todo := todo - {p};
      }
    }

    method ExecuteCommand(m: Message) returns (panicked: bool)
      requires m.ClientCommand? && out == map[]
      modifies this
      ensures var spec := OnCommand(old(State()), m, old(net));
              panicked == spec.Panic? && (!panicked ==> State() == spec.node && out == spec.out)
    {
      panicked := false;
      if role == Leader {
        PushLogEntry(LogEntry(term, m.cmd));
        var entry := NewEntryData(log, |log| - 1);
        OfferEntry(entry);
      } else {
        pendingCmds := pendingCmds + [m.cmd];
        if leader.Some? {
          panicked := SendPendingCmdsToLeader();
        }
      }
    }

    /** Asks every peer for its vote. */
    method RequestVotes()
      requires out == map[]
      modifies this`out
      ensures out == map p | p in peers && p in net.reach :: [RequestVote(id, term, Latest(log))]
    {
      var info := Latest(log);
      var todo := peers.Keys;
      while todo != {}
        invariant todo <= peers.Keys
        invariant out == map p | p in peers && p in net.reach && p !in todo :: [RequestVote(id, term, info)]
        decreases |todo|
      {
        var p :| p in todo;
        var sent := Encode(p, RequestVote(id, term, info));
        todo := todo - {p};
      }
    }

    /** One turn of the main loop after the timeout: a leader sends its heartbeats, any other
        node starts an election. */
    method Timeout()
      requires out == map[]
      modifies this
      ensures var spec := OnTimeout(old(State()), old(net)); State() == spec.node && out == spec.out
    {
      if role == Leader {
        BroadcastPending();
      } else {
        term := term + 1;
        leader := None;
        RequestVotes();
        votes := 1;
        role := Candidate;
      }
    }

    /** One turn of the main loop with a message: dispatch it. */
    method Dispatch(m: Message) returns (panicked: bool)
      requires out == map[]
      modifies this
      ensures var spec := Handle(old(State()), m, old(net));
              panicked == spec.Panic? && (!panicked ==> State() == spec.node && out == spec.out)
    {
      match m {
        case ClientCommand(_) => panicked := ExecuteCommand(m);
        case AppendEntry(_, _, _, _) => panicked := ExecuteAppendEntry(m);
        case AppendEntryResponse(_, _, _, _) => panicked := ExecuteAppendEntryResponse(m);
        case RequestVote(_, _, _) => panicked := ExecuteRequestVote(m);
        case Vote(_) => panicked := ExecuteVote(m);
      }
    }
  }
}
