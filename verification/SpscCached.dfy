/** The bounded single-producer channel whose two sides work from cached bounds, as a transition
    system: one step per access to what the sides share, in any interleaving. Each side refreshes
    its cache only when the cache is used up. */
module SpscCached {
  import opened Options
  import opened DivMod
  import opened Payload

  datatype ProducerPc =
    | Ready
    | CheckFree(v: Value)        // the loop condition, on the cached count
    | ReadAvailable(v: Value)
    | ReadHead(v: Value)
    | Store(v: Value)
    | Publish                    // stored, about to make the new tail visible
    | Dropped

  datatype ConsumerPc =
    | Waiting
    | LookAvailable
    | ReadTail(available: bool)  // has read the flag, about to read the tail
    | Load
    | Release                    // loaded, about to make the new head visible
    | Gone

  datatype State = State(
    slots: seq<Option<Value>>,
    head: nat,
    tail: nat,
    available: bool,
    producer: ProducerPc, producerTail: nat, free: int,
    consumer: ConsumerPc, consumerHead: nat, full: int,
    // History, which no step looks at: what was stored and what was loaded, whether a send was
    // refused or a receive told of a disconnect, and whether a store has ever hit an unread
    // value or a load an empty slot.
    sent: seq<Value>,
    received: seq<Value>,
    refused: bool,
    disconnected: bool,
    fault: bool)
  {
    function Cap(): nat { |slots| }
  }

  datatype Action = Send(v: Value) | DropProducer | ContinueProducer | Recv | DropConsumer | ContinueConsumer

  function Init(cap: nat): State
    requires cap > 0
  {
    State(seq(cap, _ => None), 0, 0, true, Ready, 0, cap, Waiting, 0, 0, [], [], false, false, false)
  }

  predicate Enabled(s: State, a: Action) {
    match a
    case Send(_) => s.producer.Ready?
    case DropProducer => s.producer.Ready?
    case ContinueProducer => !s.producer.Ready? && !s.producer.Dropped?
    case Recv => s.consumer.Waiting?
    case DropConsumer => s.consumer.Waiting?
    case ContinueConsumer => !s.consumer.Waiting? && !s.consumer.Gone?
  }

  function ProducerStep(s: State): State
    requires s.Cap() > 0
  {
    match s.producer
    case CheckFree(v) => s.(producer := if s.free == 0 then ReadAvailable(v) else Store(v))
    case ReadAvailable(v) => if s.available then s.(producer := ReadHead(v)) else s.(producer := Ready, refused := true)
    case ReadHead(v) => s.(producer := CheckFree(v), free := s.Cap() - (s.producerTail - s.head))
    case Store(v) =>
      var at := s.producerTail % s.Cap();
      s.(producer := Publish, slots := s.slots[at := Some(v)], fault := s.fault || s.slots[at].Some?,
         producerTail := s.producerTail + 1, sent := s.sent + [v])
    case Publish => s.(producer := Ready, tail := s.producerTail, free := s.free - 1)
    case _ => s
  }

  function ConsumerStep(s: State): State
    requires s.Cap() > 0
  {
    match s.consumer
    case LookAvailable => s.(consumer := ReadTail(s.available))
    case ReadTail(available) =>
      var count := s.tail - s.consumerHead;
      var s1 := s.(full := count);
      if count > 0 then s1.(consumer := Load)
      else if available then s1.(consumer := LookAvailable)
      else s1.(consumer := Waiting, disconnected := true)
    case Load =>
      var at := s.consumerHead % s.Cap();
      s.(consumer := Release, slots := s.slots[at := None], fault := s.fault || s.slots[at].None?,
         consumerHead := s.consumerHead + 1,
         received := if s.slots[at].Some? then s.received + [s.slots[at].value] else s.received)
    case Release => s.(consumer := Waiting, head := s.consumerHead, full := s.full - 1)
    case _ => s
  }

  function Step(s: State, a: Action): State
    requires s.Cap() > 0
  {
    match a
    case Send(v) => s.(producer := CheckFree(v))
    case DropProducer => s.(producer := Dropped, available := false)
    case ContinueProducer => ProducerStep(s)
    case Recv => s.(consumer := if s.full == 0 then LookAvailable else Load)
    case DropConsumer => s.(consumer := Gone, available := false)
    case ContinueConsumer => ConsumerStep(s)
  }

  ghost predicate IsRun(states: seq<State>, actions: seq<Action>, cap: nat) {
    && cap > 0 && |states| == |actions| + 1 && states[0] == Init(cap)
    && forall i :: 0 <= i < |actions| ==> StepOf(states, actions, i)
  }

  ghost predicate StepOf(states: seq<State>, actions: seq<Action>, i: nat)
    requires |states| == |actions| + 1 && i < |actions|
  {
    states[i].Cap() > 0 && Enabled(states[i], actions[i]) && states[i + 1] == Step(states[i], actions[i])
  }

  // ---------------------------------------------------------------------------- invariant

  function Pending(busy: bool): int { if busy then 1 else 0 }

  /** How many slots are really free, counted from the head the consumer has made visible. */
  function TrueFree(s: State): int { s.Cap() - (|s.sent| - s.head) }

  /** How many values there really are, counted from the tail the producer has made visible. */
  function TrueFull(s: State): int { s.tail - |s.received| }

  /** The indices say how far each side has got, up to a step that is not visible yet. */
  predicate IndicesOk(s: State) {
    && s.producerTail == |s.sent| && s.consumerHead == |s.received|
    && s.tail == |s.sent| - Pending(s.producer.Publish?)
    && s.head == |s.received| - Pending(s.consumer.Release?)
  }

  /** A cached bound may lag behind the truth, but never promises too much. */
  predicate CachesOk(s: State) {
    && 0 <= s.free - Pending(s.producer.Publish?) <= TrueFree(s)
    && 0 <= s.full - Pending(s.consumer.Release?) <= TrueFull(s)
    && (s.producer.Store? ==> s.free > 0)
    && (s.consumer.Load? ==> s.full > 0)
  }

  /** The flag is up exactly as long as both sides are there. */
  predicate FlagOk(s: State) {
    && (s.available <==> !s.producer.Dropped? && !s.consumer.Gone?)
    && (s.consumer == ReadTail(false) ==> s.producer.Dropped?)
    && (s.refused ==> s.consumer.Gone?)
    && (s.disconnected ==> s.producer.Dropped? && |s.received| == |s.sent|)
  }

  /** What the slot of a position holds: what was sent there and is still to be received. */
  function Expected(s: State, x: nat): Option<Value> {
    if x < |s.sent| then Some(s.sent[x]) else None
  }

  predicate SlotsOk(s: State) {
    && s.Cap() > 0 && !s.fault
    && forall x :: |s.received| <= x < |s.received| + s.Cap() ==> s.slots[x % s.Cap()] == Expected(s, x)
  }

  predicate Inv(s: State) {
    && IndicesOk(s) && CachesOk(s) && FlagOk(s) && SlotsOk(s) && s.received <= s.sent
  }

  lemma StoreKeepsInv(s: State)
    requires Inv(s) && s.producer.Store?
    ensures Inv(ProducerStep(s))
  {
    var s', x := ProducerStep(s), |s.sent|;
    assert s.slots[x % s.Cap()] == Expected(s, x);
    forall y | |s'.received| <= y < |s'.received| + s'.Cap() ensures s'.slots[y % s'.Cap()] == Expected(s', y) {
      assert s.slots[y % s.Cap()] == Expected(s, y);
      if x < y { DistinctSlots(x, y, s.Cap()); } else if y < x { DistinctSlots(y, x, s.Cap()); }
    }
  }

  lemma LoadKeepsInv(s: State)
    requires Inv(s) && s.consumer.Load?
    ensures Inv(ConsumerStep(s))
  {
    var s', k := ConsumerStep(s), |s.received|;
    assert s.slots[k % s.Cap()] == Expected(s, k) == Some(s.sent[k]);
    forall y | |s'.received| <= y < |s'.received| + s'.Cap() ensures s'.slots[y % s'.Cap()] == Expected(s', y) {
      if y == k + s.Cap() {
        FullTurn(k, s.Cap());
      } else {
        assert s.slots[y % s.Cap()] == Expected(s, y);
        DistinctSlots(k, y, s.Cap());
      }
    }
  }

  /** A step that neither stores nor loads. */
  lemma SlotsFrame(s: State, s': State)
    requires SlotsOk(s) && s'.slots == s.slots && s'.sent == s.sent && s'.received == s.received && s'.fault == s.fault
    ensures SlotsOk(s')
  {
    forall x | |s'.received| <= x < |s'.received| + s'.Cap() ensures s'.slots[x % s'.Cap()] == Expected(s', x) {
      assert s.slots[x % s.Cap()] == Expected(s, x);
    }
  }

  lemma ProducerKeepsInv(s: State)
    requires Inv(s) && Enabled(s, ContinueProducer)
    ensures Inv(ProducerStep(s))
  {
    if s.producer.Store? { StoreKeepsInv(s); } else { SlotsFrame(s, ProducerStep(s)); }
  }

  lemma ConsumerKeepsInv(s: State)
    requires Inv(s) && Enabled(s, ContinueConsumer)
    ensures Inv(ConsumerStep(s))
  {
    if s.consumer.Load? { LoadKeepsInv(s); } else { SlotsFrame(s, ConsumerStep(s)); }
  }

  lemma StepKeepsInv(s: State, a: Action)
    requires Inv(s) && Enabled(s, a)
    ensures Inv(Step(s, a))
  {
    match a
    case ContinueProducer => ProducerKeepsInv(s);
    case ContinueConsumer => ConsumerKeepsInv(s);
    case _ => SlotsFrame(s, Step(s, a));
  }

  lemma InitHasInv(cap: nat)
    requires cap > 0
    ensures Inv(Init(cap)) && Init(cap).Cap() == cap
  {
  }

  lemma KeepsCapacity(s: State, a: Action)
    requires s.Cap() > 0
    ensures Step(s, a).Cap() == s.Cap()
  {
  }

  lemma {:induction false} Always(states: seq<State>, actions: seq<Action>, cap: nat, i: nat)
    requires IsRun(states, actions, cap) && i < |states|
    ensures Inv(states[i]) && states[i].Cap() == cap
  {
    if i == 0 {
      InitHasInv(cap);
    } else {
      Always(states, actions, cap, i - 1);
      assert StepOf(states, actions, i - 1);
      StepKeepsInv(states[i - 1], actions[i - 1]);
      KeepsCapacity(states[i - 1], actions[i - 1]);
    }
  }

  // ----------------------------------------------------------------------------- theorems

  /** Under every interleaving what was received is a prefix of what was sent, at most `cap`
      values are outstanding, no store hits an unread value and no load an empty slot. */
  lemma Delivery(states: seq<State>, actions: seq<Action>, cap: nat, i: nat)
    requires IsRun(states, actions, cap) && i < |states|
    ensures states[i].received <= states[i].sent && |states[i].sent| <= |states[i].received| + cap
    ensures !states[i].fault
  {
    Always(states, actions, cap, i);
  }

  /** The caches are conservative: whatever the other side has done since, a side never counts on
      more than there is, an operation midway allowed for, and neither subtraction that
      refreshes a cache can go below zero. */
  lemma CachesConservative(states: seq<State>, actions: seq<Action>, cap: nat, i: nat)
    requires IsRun(states, actions, cap) && i < |states|
    ensures var s := states[i];
            && 0 <= s.free - Pending(s.producer.Publish?) <= cap - (|s.sent| - |s.received|)
            && 0 <= s.full - Pending(s.consumer.Release?) <= |s.sent| - |s.received|
            && 0 <= s.producerTail - s.head <= cap && (s.consumer.ReadTail? ==> 0 <= s.tail - s.consumerHead)
  {
    Always(states, actions, cap, i);
  }

  /** A receiver is told of a disconnect only after the producer has gone and everything it sent
      has been received; a send is refused only after the consumer has gone. */
  lemma ErrorsAreTruthful(states: seq<State>, actions: seq<Action>, cap: nat, i: nat)
    requires IsRun(states, actions, cap) && i < |states|
    ensures states[i].disconnected ==> states[i].producer.Dropped? && states[i].received == states[i].sent
    ensures states[i].refused ==> states[i].consumer.Gone?
  {
    Always(states, actions, cap, i);
  }

  /** In every state of every run, the flag both sides look at is up if and only if neither has gone. */
  lemma FlagExactly(states: seq<State>, actions: seq<Action>, cap: nat, i: nat)
    requires IsRun(states, actions, cap) && i < |states|
    ensures states[i].available <==> !states[i].producer.Dropped? && !states[i].consumer.Gone?
  {
    Always(states, actions, cap, i);
  }

  /** When both sides have gone, the slots from `head` to `tail` hold exactly what was sent and not
      received, in order. */
  lemma NothingIsLost(states: seq<State>, actions: seq<Action>, cap: nat, i: nat)
    requires IsRun(states, actions, cap) && i < |states| && states[i].producer.Dropped? && states[i].consumer.Gone?
    ensures var s := states[i];
            && s.Cap() == cap && s.head <= s.tail == |s.sent| && s.received == s.sent[..s.head]
            && forall x :: s.head <= x < s.tail ==> s.slots[x % cap] == Some(s.sent[x])
  {
    Always(states, actions, cap, i);
    var s := states[i];
    forall x | s.head <= x < s.tail ensures s.slots[x % cap] == Some(s.sent[x]) {
      assert s.slots[x % s.Cap()] == Expected(s, x);
    }
  }
}
