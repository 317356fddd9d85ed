/** The plain bounded channel with many producers, as a transition system: producers store under
    the tail lock, the one consumer works without it, and `len` is all they share besides. One
    step per atomic operation, lock acquisition or slot access, in any interleaving. */
module MpscBounded {
  import opened Options
  import opened DivMod
  import opened Payload

  datatype ProducerPc =
    | Idle
    | Locking(v: Value)        // about to take the tail lock
    | CheckFull(v: Value)      // holds it
    | CheckConsumer(v: Value)  // found the ring full; still holds the lock
    | Store(v: Value)          // found room
    | RaiseLen                 // stored and moved the tail, about to raise len and unlock
    | Dead

  datatype ConsumerPc =
    | AtRest
    | CheckLen                       // the loop condition
    | ReadProducers                  // len was 0
    | CheckLenAgain(producers: bool)
    | Bump                           // len was positive
    | Load(pos: nat)
    | LowerLen
    | Gone

  datatype State = State(
    slots: seq<Option<Value>>,
    head: nat,
    tail: nat,
    tailLock: Option<nat>,
    len: int,
    producerCount: int,
    consumerExists: bool,
    producers: seq<ProducerPc>,
    consumer: ConsumerPc,
    // History, which no step looks at: what was stored, in lock order, and what was loaded;
    // whether a send was refused or a receive told of a disconnect; and whether a store has ever
    // hit an unread value or a load an empty slot.
    sent: seq<Value>,
    popped: seq<Value>,
    refused: bool,
    disconnected: bool,
    fault: bool)
  {
    function Cap(): nat { |slots| }
  }

  datatype Call = Send(v: Value) | Clone | Drop | Recv | Continue

  datatype Action = ProducerActs(p: nat, call: Call) | ConsumerActs(call: Call)

  function Init(cap: nat): State
    requires cap > 0
  {
    State(seq(cap, _ => None), 0, 0, None, 0, 1, true, [Idle], AtRest, [], [], false, false, false)
  }

  function At(s: State, p: nat, pc: ProducerPc): State
    requires p < |s.producers|
  {
    s.(producers := s.producers[p := pc])
  }

  predicate ProducerEnabled(s: State, p: nat, call: Call) {
    && p < |s.producers| && s.Cap() > 0
    && match s.producers[p]
       case Idle => call.Send? || call.Clone? || call.Drop?
       case Locking(_) => call.Continue? && s.tailLock == None
       case Dead => false
       case _ => call.Continue?
  }

  function ProducerStep(s: State, p: nat, call: Call): State
    requires ProducerEnabled(s, p, call)
  {
    match s.producers[p]
    case Idle =>
      (match call
       case Send(v) => At(s, p, Locking(v))
       case Clone => s.(producers := s.producers + [Idle], producerCount := s.producerCount + 1)
       case _ => At(s, p, Dead).(producerCount := s.producerCount - 1))
    case Locking(v) => At(s, p, CheckFull(v)).(tailLock := Some(p))
    case CheckFull(v) => At(s, p, if s.len == s.Cap() then CheckConsumer(v) else Store(v))
    case CheckConsumer(v) =>
      if s.consumerExists then At(s, p, Locking(v)).(tailLock := None)
      else At(s, p, Idle).(tailLock := None, refused := true)
    case Store(v) =>
      var at := s.tail % s.Cap();
      At(s, p, RaiseLen).(slots := s.slots[at := Some(v)], fault := s.fault || s.slots[at].Some?,
                          tail := s.tail + 1, sent := s.sent + [v])
    case RaiseLen => At(s, p, Idle).(len := s.len + 1, tailLock := None)
    case Dead => s
  }

  predicate ConsumerEnabled(s: State, call: Call) {
    && s.Cap() > 0
    && match s.consumer
       case AtRest => call.Recv? || call.Drop?
       case Gone => false
       case _ => call.Continue?
  }

  function ConsumerStep(s: State, call: Call): State
    requires ConsumerEnabled(s, call)
  {
    match s.consumer
    case AtRest =>
      if call.Recv? then s.(consumer := CheckLen) else s.(consumer := Gone, consumerExists := false)
    case CheckLen => s.(consumer := if s.len == 0 then ReadProducers else Bump)
    case ReadProducers => s.(consumer := CheckLenAgain(s.producerCount > 0))
    case CheckLenAgain(producers) =>
      if s.len != 0 then s.(consumer := Bump)
      else if producers then s.(consumer := CheckLen)
      else s.(consumer := AtRest, disconnected := true)
    case Bump => s.(consumer := Load(s.head), head := s.head + 1)
    case Load(pos) =>
      var slot := s.slots[pos % s.Cap()];
      s.(consumer := LowerLen, slots := s.slots[pos % s.Cap() := None], fault := s.fault || slot.None?,
         popped := if slot.Some? then s.popped + [slot.value] else s.popped)
    case LowerLen => s.(consumer := AtRest, len := s.len - 1)
    case Gone => s
  }

  predicate Enabled(s: State, a: Action) {
    match a
    case ProducerActs(p, call) => ProducerEnabled(s, p, call)
    case ConsumerActs(call) => ConsumerEnabled(s, call)
  }

  function Step(s: State, a: Action): State
    requires Enabled(s, a)
  {
    match a
    case ProducerActs(p, call) => ProducerStep(s, p, call)
    case ConsumerActs(call) => ConsumerStep(s, call)
  }

  ghost predicate IsRun(states: seq<State>, actions: seq<Action>, cap: nat) {
    && cap > 0 && |states| == |actions| + 1 && states[0] == Init(cap)
    && forall i :: 0 <= i < |actions| ==> StepOf(states, actions, i)
  }

  ghost predicate StepOf(states: seq<State>, actions: seq<Action>, i: nat)
    requires |states| == |actions| + 1 && i < |actions|
  {
    Enabled(states[i], actions[i]) && states[i + 1] == Step(states[i], actions[i])
  }

  // ----------------------------------------------------------------------------- invariant

  predicate HoldsTail(pc: ProducerPc) { pc.CheckFull? || pc.CheckConsumer? || pc.Store? || pc.RaiseLen? }

  predicate ProducerOk(s: State, p: nat)
    requires p < |s.producers|
  {
    && (s.tailLock == Some(p) <==> HoldsTail(s.producers[p]))
    && (s.producers[p].Store? ==> s.len < s.Cap())
  }

  predicate Threads(s: State) {
    && (s.tailLock.Some? ==> s.tailLock.value < |s.producers|)
    && forall p :: 0 <= p < |s.producers| ==> ProducerOk(s, p)
  }

  /** A value that is stored but not counted in `len` yet. */
  function Uncounted(s: State): nat {
    match s.tailLock
    case Some(p) => if p < |s.producers| && s.producers[p].RaiseLen? then 1 else 0
    case None => 0
  }

  /** How many pops have given their slot back. */
  function Returned(s: State): int {
    |s.popped| - if s.consumer.LowerLen? then 1 else 0
  }

  predicate CountersOk(s: State) {
    && s.tail == |s.sent| && |s.popped| <= |s.sent|
    && s.head == |s.popped| + (if s.consumer.Load? then 1 else 0)
    && (s.consumer.Load? ==> s.consumer.pos == |s.popped|)
    && s.len == |s.sent| - Uncounted(s) - Returned(s)
    && 0 <= Returned(s) && |s.sent| - Returned(s) <= s.Cap()
    && s.len >= 0
    && (s.consumer.Bump? || s.consumer.Load? || s.consumer.LowerLen? ==> s.len > 0)
  }

  function Expected(s: State, x: nat): Option<Value> {
    if x < |s.sent| then Some(s.sent[x]) else None
  }

  predicate RingOk(s: State) {
    && s.Cap() > 0 && !s.fault && s.popped <= s.sent
    && forall x :: |s.popped| <= x < |s.popped| + s.Cap() ==> s.slots[x % s.Cap()] == Expected(s, x)
  }

  function Live(producers: seq<ProducerPc>): nat {
    if producers == [] then 0
    else Live(producers[..|producers| - 1]) + if producers[|producers| - 1].Dead? then 0 else 1
  }

  predicate HandlesOk(s: State) {
    && s.producerCount == Live(s.producers)
    && (s.consumer == CheckLenAgain(false) ==> s.producerCount == 0)
    && (s.disconnected ==> s.producerCount == 0 && |s.popped| == |s.sent|)
    && (s.consumerExists <==> !s.consumer.Gone?)
    && (s.refused ==> s.consumer.Gone?)
  }

  predicate Inv(s: State) {
    Threads(s) && CountersOk(s) && RingOk(s) && HandlesOk(s)
  }

  // -------------------------------------------------------------------------- preservation

  lemma {:induction false} LiveUpdate(producers: seq<ProducerPc>, p: nat, pc: ProducerPc)
    requires p < |producers|
    ensures Live(producers[p := pc]) + (if producers[p].Dead? then 0 else 1)
            == Live(producers) + (if pc.Dead? then 0 else 1)
  {
    var last := |producers| - 1;
    if p < last {
      assert producers[p := pc][..last] == producers[..last][p := pc];
      LiveUpdate(producers[..last], p, pc);
    } else {
      assert producers[p := pc][..last] == producers[..last];
    }
  }

  lemma {:induction false} LivePositive(producers: seq<ProducerPc>, p: nat)
    requires p < |producers| && !producers[p].Dead?
    ensures Live(producers) > 0
  {
    if p < |producers| - 1 { LivePositive(producers[..|producers| - 1], p); }
  }

  /** With no handle left, nobody holds the lock and nothing is left uncounted. */
  lemma AllDead(s: State)
    requires Threads(s) && Live(s.producers) == 0
    ensures forall p :: 0 <= p < |s.producers| ==> s.producers[p].Dead?
    ensures Uncounted(s) == 0
  {
    forall p | 0 <= p < |s.producers| ensures s.producers[p].Dead? {
      if !s.producers[p].Dead? { LivePositive(s.producers, p); }
    }
  }

  lemma RingFrame(s: State, s': State)
    requires RingOk(s) && s'.slots == s.slots && s'.sent == s.sent && s'.popped == s.popped && s'.fault == s.fault
    ensures RingOk(s')
  {
    forall x | |s'.popped| <= x < |s'.popped| + s'.Cap() ensures s'.slots[x % s'.Cap()] == Expected(s', x) {
      assert s.slots[x % s.Cap()] == Expected(s, x);
    }
  }

  lemma ProducerKeepsThreads(s: State, p: nat, call: Call)
    requires Threads(s) && CountersOk(s) && ProducerEnabled(s, p, call)
    ensures Threads(ProducerStep(s, p, call))
  {
    var s' := ProducerStep(s, p, call);
    assert ProducerOk(s, p);
    forall q | 0 <= q < |s'.producers| ensures ProducerOk(s', q) {
      if q < |s.producers| { assert ProducerOk(s, q); }
    }
  }

  lemma UncountedAfter(s: State, p: nat, call: Call)
    requires Threads(s) && ProducerEnabled(s, p, call)
    ensures Uncounted(s) == (if s.producers[p].RaiseLen? then 1 else if s.producers[p].Store? then 0 else Uncounted(s))
    ensures Uncounted(ProducerStep(s, p, call))
            == (if s.producers[p].RaiseLen? then 0 else if s.producers[p].Store? then 1 else Uncounted(s))
  {
    assert ProducerOk(s, p);
  }

  /** What a step of a producer does to what is counted: it stores, or counts what it stored, or
      neither. */
  lemma ProducerEffect(s: State, p: nat, call: Call)
    requires ProducerEnabled(s, p, call)
    ensures var s' := ProducerStep(s, p, call);
            var stored, counted := Pending(s.producers[p].Store?), Pending(s.producers[p].RaiseLen?);
            && s'.head == s.head && s'.popped == s.popped
            && s'.consumer == s.consumer && s'.Cap() == s.Cap()
            && s'.tail == s.tail + stored && |s'.sent| == |s.sent| + stored && s'.len == s.len + counted
  {
  }

  function Pending(busy: bool): nat { if busy then 1 else 0 }

  lemma ProducerKeepsCounters(s: State, p: nat, call: Call)
    requires Threads(s) && CountersOk(s) && ProducerEnabled(s, p, call)
    ensures CountersOk(ProducerStep(s, p, call))
  {
    assert ProducerOk(s, p);
    UncountedAfter(s, p, call);
    ProducerEffect(s, p, call);
    CountersAfter(s, ProducerStep(s, p, call), Pending(s.producers[p].Store?), Pending(s.producers[p].RaiseLen?));
  }

  lemma CountersAfter(s: State, s': State, stored: nat, counted: nat)
    requires CountersOk(s) && s'.head == s.head && s'.popped == s.popped
    requires s'.consumer == s.consumer && s'.Cap() == s.Cap()
    requires s'.tail == s.tail + stored && |s'.sent| == |s.sent| + stored && s'.len == s.len + counted
    requires Uncounted(s') == Uncounted(s) + stored - counted
    requires stored > 0 ==> Uncounted(s) == 0 && stored == 1 && s.len < s.Cap()
    ensures CountersOk(s')
  {
  }

  lemma ProducerKeepsHandles(s: State, p: nat, call: Call)
    requires HandlesOk(s) && ProducerEnabled(s, p, call)
    ensures HandlesOk(ProducerStep(s, p, call))
  {
    var s' := ProducerStep(s, p, call);
    LivePositive(s.producers, p);
    if |s'.producers| == |s.producers| {
      LiveUpdate(s.producers, p, s'.producers[p]);
    } else {
      assert s'.producers[..|s.producers|] == s.producers;
    }
  }

  /** The slot a producer stores into is empty. */
  lemma StoreKeepsRing(s: State, p: nat, call: Call)
    requires Inv(s) && ProducerEnabled(s, p, call) && s.producers[p].Store?
    ensures RingOk(ProducerStep(s, p, call)) && s.slots[s.tail % s.Cap()] == None
  {
    var s', x := ProducerStep(s, p, call), |s.sent|;
    assert ProducerOk(s, p);
    assert s.slots[x % s.Cap()] == Expected(s, x);
    forall y | |s'.popped| <= y < |s'.popped| + s'.Cap() ensures s'.slots[y % s'.Cap()] == Expected(s', y) {
      assert s.slots[y % s.Cap()] == Expected(s, y);
      if x < y { DistinctSlots(x, y, s.Cap()); } else if y < x { DistinctSlots(y, x, s.Cap()); }
    }
  }

  lemma ProducerKeepsInv(s: State, p: nat, call: Call)
    requires Inv(s) && ProducerEnabled(s, p, call)
    ensures Inv(ProducerStep(s, p, call))
  {
    ProducerKeepsThreads(s, p, call);
    ProducerKeepsCounters(s, p, call);
    ProducerKeepsHandles(s, p, call);
    if s.producers[p].Store? { StoreKeepsRing(s, p, call); } else { RingFrame(s, ProducerStep(s, p, call)); }
  }

  lemma LoadKeepsRing(s: State)
    requires Inv(s) && s.consumer.Load?
    ensures var s' := ConsumerStep(s, Continue);
            RingOk(s') && |s.popped| < |s.sent| && s'.popped == s.popped + [s.sent[|s.popped|]]
  {
    var s', k := ConsumerStep(s, Continue), |s.popped|;
    assert s.slots[k % s.Cap()] == Expected(s, k);
    assert |s'.popped| == k + 1 && s'.slots == s.slots[k % s.Cap() := None];
    forall y | |s'.popped| <= y < |s'.popped| + s'.Cap() ensures s'.slots[y % s'.Cap()] == Expected(s', y) {
      assert Expected(s', y) == Expected(s, y);
      if y == k + s.Cap() {
        FullTurn(k, s.Cap());
      } else {
        assert s.slots[y % s.Cap()] == Expected(s, y);
        DistinctSlots(k, y, s.Cap());
      }
    }
  }

  lemma ConsumerKeepsInv(s: State, call: Call)
    requires Inv(s) && ConsumerEnabled(s, call)
    ensures Inv(ConsumerStep(s, call))
  {
    var s' := ConsumerStep(s, call);
    forall p | 0 <= p < |s'.producers| ensures ProducerOk(s', p) { assert ProducerOk(s, p); }
    if s.consumer.Load? { LoadKeepsRing(s); } else { RingFrame(s, s'); }
    if s.producerCount == 0 { AllDead(s); }
  }

  lemma InitHasInv(cap: nat)
    requires cap > 0
    ensures Inv(Init(cap)) && Init(cap).Cap() == cap
  {
    assert Live([Idle][..0]) == 0;
  }

  lemma KeepsCapacity(s: State, a: Action)
    requires Enabled(s, a)
    ensures Step(s, a).Cap() == s.Cap()
  {
  }

  lemma {:induction false} Always(states: seq<State>, actions: seq<Action>, cap: nat, i: nat)
    requires IsRun(states, actions, cap) && i < |states|
    ensures Inv(states[i]) && states[i].Cap() == cap
  {
    if i == 0 {
      InitHasInv(cap);
    } else {
      Always(states, actions, cap, i - 1);
      assert StepOf(states, actions, i - 1);
      KeepsCapacity(states[i - 1], actions[i - 1]);
      match actions[i - 1]
      case ProducerActs(p, call) => ProducerKeepsInv(states[i - 1], p, call);
      case ConsumerActs(call) => ConsumerKeepsInv(states[i - 1], call);
    }
  }

  // ------------------------------------------------------------------------------ theorems

  /** The queue that the channel stands for: what is stored and not yet loaded. */
  function Queue(s: State): seq<Value>
    requires |s.popped| <= |s.sent|
  {
    s.sent[|s.popped|..]
  }

  /** The value that a step stores: the one the acting producer holds at that moment. */
  function Entering(s: State, a: Action): Option<Value> {
    if a.ProducerActs? && a.p < |s.producers| && s.producers[a.p].Store? then Some(s.producers[a.p].v) else None
  }

  /** One move of a bounded queue: the entering value goes in at the back, or without one either
      nothing happens or the front value comes out. */
  predicate QueueMove(before: seq<Value>, entering: Option<Value>, after: seq<Value>, out: seq<Value>, cap: nat) {
    match entering
    case Some(v) => |before| < cap && after == before + [v] && out == []
    case None =>
      || (after == before && out == [])
      || (before != [] && after == before[1..] && out == [before[0]])
  }

  /** Every step of every run is a move of the bounded queue: what goes in is what the producer
      sends, and what comes out is what the consumer pops. */
  lemma RefinesQueue(states: seq<State>, actions: seq<Action>, cap: nat, i: nat)
    requires IsRun(states, actions, cap) && i < |actions|
    ensures var s, s' := states[i], states[i + 1];
            && |s.popped| <= |s.sent| && |s'.popped| <= |s'.sent| && s.popped <= s'.popped
            && QueueMove(Queue(s), Entering(s, actions[i]), Queue(s'), s'.popped[|s.popped|..], cap)
  {
    var s, s', a := states[i], states[i + 1], actions[i];
    Always(states, actions, cap, i);
    Always(states, actions, cap, i + 1);
    assert StepOf(states, actions, i);
    match a
    case ConsumerActs(call) =>
      if s.consumer.Load? { LoadKeepsRing(s); }
      assert s'.popped[|s.popped|..] == if s.consumer.Load? then [s.sent[|s.popped|]] else [];
    case ProducerActs(p, call) =>
      StepMovesQueue(s, p, call);
  }

  lemma StepMovesQueue(s: State, p: nat, call: Call)
    requires Inv(s) && ProducerEnabled(s, p, call)
    ensures var s' := ProducerStep(s, p, call);
            && s'.popped == s.popped && |s'.popped| <= |s'.sent|
            && QueueMove(Queue(s), Entering(s, ProducerActs(p, call)), Queue(s'), s'.popped[|s.popped|..], s.Cap())
  {
    assert ProducerOk(s, p);
    var s' := ProducerStep(s, p, call);
    assert s'.popped[|s.popped|..] == [];
    if s.producers[p].Store? { assert Queue(s') == Queue(s) + [s.producers[p].v]; }
  }

  /** The k-th value popped is the k-th stored, at most `cap` values are outstanding, no store
      hits an unread value and no load an empty slot. */
  lemma PoppedInLockOrder(states: seq<State>, actions: seq<Action>, cap: nat, i: nat)
    requires IsRun(states, actions, cap) && i < |states|
    ensures states[i].popped <= states[i].sent && |states[i].sent| <= |states[i].popped| + cap
    ensures !states[i].fault && 0 <= states[i].len <= cap && states[i].producerCount >= 0
  {
    Always(states, actions, cap, i);
  }

  /** From the moment the consumer has bumped `head` until it has lowered `len`, no producer stores
      into the slot it is reading. */
  lemma NoOverwriteWhilePopping(states: seq<State>, actions: seq<Action>, cap: nat, i: nat, p: nat)
    requires IsRun(states, actions, cap) && i < |states| && p < |states[i].producers|
    requires states[i].producers[p].Store?
    requires states[i].consumer.Load? || states[i].consumer.LowerLen?
    ensures states[i].head > 0 && states[i].tail % cap != (states[i].head - 1) % cap
  {
    Always(states, actions, cap, i);
    var s := states[i];
    assert ProducerOk(s, p);
    DistinctSlots(s.head - 1, s.tail, cap);
  }

  /** A receiver is told of a disconnect only when every producer has gone and everything stored
      has been popped; a send is refused only when the consumer has gone. */
  lemma ErrorsAreTruthful(states: seq<State>, actions: seq<Action>, cap: nat, i: nat)
    requires IsRun(states, actions, cap) && i < |states|
    ensures states[i].disconnected ==>
              && (forall p :: 0 <= p < |states[i].producers| ==> states[i].producers[p].Dead?)
              && states[i].popped == states[i].sent
    ensures states[i].refused ==> states[i].consumer.Gone?
  {
    Always(states, actions, cap, i);
    if states[i].disconnected { AllDead(states[i]); }
  }

  /** When all handles have gone, the `len` slots from `head` on hold exactly what was stored and
      not popped, in order. */
  lemma NothingIsLost(states: seq<State>, actions: seq<Action>, cap: nat, i: nat)
    requires IsRun(states, actions, cap) && i < |states| && states[i].consumer.Gone?
    requires states[i].producerCount == 0
    ensures var s := states[i];
            && s.Cap() == cap && s.len >= 0 && s.head + s.len == |s.sent| && s.popped == s.sent[..s.head]
            && forall x :: s.head <= x < s.head + s.len ==> s.slots[x % cap] == Some(s.sent[x])
  {
    Always(states, actions, cap, i);
    var s := states[i];
    AllDead(s);
    forall x | s.head <= x < s.head + s.len ensures s.slots[x % cap] == Some(s.sent[x]) {
      assert s.slots[x % s.Cap()] == Expected(s, x);
    }
  }
}
