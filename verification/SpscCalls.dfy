/** The calls of the cached single-producer channel, taken without interruption: the steps of the
    transition system do to the queue just what the methods on the ring do. */
module SpscCalls {
  import opened Payload
  import opened QueueRings
  import opened Repetition
  import opened SpscCached

  function Queue(s: State): seq<Value>
    requires |s.received| <= |s.sent|
  {
    s.sent[|s.received|..]
  }

  /** Neither side is in the middle of a call. */
  predicate AtRest(s: State) {
    (s.producer.Ready? || s.producer.Dropped?) && (s.consumer.Waiting? || s.consumer.Gone?)
  }

  function ProducerNext(): State -> State {
    (s: State) => if s.Cap() > 0 then ProducerStep(s) else s
  }

  function ConsumerNext(): State -> State {
    (s: State) => if s.Cap() > 0 then ConsumerStep(s) else s
  }

  function ProducerGoes(s: State, n: nat): State {
    Repeated(ProducerNext(), s, n)
  }

  function ConsumerGoes(s: State, n: nat): State {
    Repeated(ConsumerNext(), s, n)
  }

  lemma ProducerGoesOn(s: State, n: nat)
    requires s.Cap() > 0 && n > 0
    ensures ProducerGoes(s, n) == ProducerGoes(ProducerStep(s), n - 1)
  {
    assert ProducerNext()(s) == ProducerStep(s);
  }

  lemma ConsumerGoesOn(s: State, n: nat)
    requires s.Cap() > 0 && n > 0
    ensures ConsumerGoes(s, n) == ConsumerGoes(ConsumerStep(s), n - 1)
  {
    assert ConsumerNext()(s) == ConsumerStep(s);
  }

  // ------------------------------------------------------------------------------- sending

  /** From where the cache says there is room: store, publish, done. */
  lemma StoresWithRoom(s: State, v: Value)
    requires s.Cap() > 0 && s.producer == CheckFree(v) && s.free > 0
    ensures var s' := ProducerGoes(s, 3);
            && s'.producer.Ready? && s'.sent == s.sent + [v] && s'.received == s.received && s'.consumer == s.consumer
            && s'.free == s.free - 1 && s'.available == s.available && s'.tail == s'.producerTail
  {
    var s1 := ProducerStep(s);
    var s2 := ProducerStep(s1);
    var s3 := ProducerStep(s2);
    ProducerGoesOn(s, 3);
    ProducerGoesOn(s1, 2);
    ProducerGoesOn(s2, 1);
    assert ProducerGoes(s3, 0) == s3;
  }

  /** With the cache used up and the consumer there, the cache is refreshed. */
  lemma LooksAgain(s: State, v: Value)
    requires s.Cap() > 0 && s.producer == CheckFree(v) && s.free == 0 && s.available
    ensures ProducerGoes(s, 3) == s.(free := s.Cap() - (s.producerTail - s.head))
  {
    var s1 := ProducerStep(s);
    var s2 := ProducerStep(s1);
    var s3 := ProducerStep(s2);
    ProducerGoesOn(s, 3);
    ProducerGoesOn(s1, 2);
    ProducerGoesOn(s2, 1);
    assert ProducerGoes(s3, 0) == s3;
  }

  lemma GivesUp(s: State, v: Value)
    requires s.Cap() > 0 && s.producer == CheckFree(v) && s.free == 0 && !s.available
    ensures ProducerGoes(s, 2) == s.(producer := Ready, refused := true)
  {
    ProducerGoesOn(s, 2);
    ProducerGoesOn(ProducerStep(s), 1);
    assert ProducerGoes(ProducerStep(ProducerStep(s)), 0) == ProducerStep(ProducerStep(s));
  }

  lemma ProducerGoesTwice(s: State, n: nat, m: nat)
    ensures ProducerGoes(s, n + m) == ProducerGoes(ProducerGoes(s, n), m)
  {
    RepeatedTwice(ProducerNext(), s, n, m);
  }

  function SendSteps(s: State): nat
    requires |s.received| <= |s.sent|
  {
    if s.free > 0 then 3 else if !s.available then 2 else if |Queue(s)| < s.Cap() then 6 else 3
  }

  /** A send that nobody interrupts has the outcome, and the effect on the queue, of the method; where
      the method reports that it waits, the loop comes round to where it was. */
  lemma UninterruptedSend(s: State, v: Value)
    requires Inv(s) && AtRest(s) && s.producer.Ready?
    ensures var r := SendOutcome(SeesRoom(s.free, s.available, Queue(s), s.Cap()), s.available);
            var begun := Step(s, Send(v));
            var s' := ProducerGoes(begun, SendSteps(s));
            && |s'.received| <= |s'.sent| && Queue(s') == AfterSend(Queue(s), v, r)
            && (r.Waits? ==> s' == begun)
            && (!r.Waits? ==> s'.producer.Ready? && (r.Refused? ==> s'.refused))
  {
    var begun := Step(s, Send(v));
    if s.free > 0 {
      StoresWithRoom(begun, v);
    } else if !s.available {
      GivesUp(begun, v);
    } else {
      LooksAgain(begun, v);
      var looked := begun.(free := s.Cap() - |Queue(s)|);
      assert ProducerGoes(begun, 3) == looked;
      if |Queue(s)| < s.Cap() {
        ProducerGoesTwice(begun, 3, 3);
        StoresWithRoom(looked, v);
      }
    }
    assert (s.sent + [v])[|s.received|..] == Queue(s) + [v];
  }

  // ----------------------------------------------------------------------------- receiving

  /** From where something is known to be there: load, release, done. */
  lemma LoadsFront(s: State)
    requires Inv(s) && s.consumer.Load?
    ensures var s' := ConsumerGoes(s, 2);
            && |s.received| < |s.sent| && s'.consumer.Waiting? && s'.sent == s.sent
            && s'.received == s.received + [s.sent[|s.received|]] && s'.head == s'.consumerHead
  {
    assert s.slots[|s.received| % s.Cap()] == Expected(s, |s.received|);
    var s1 := ConsumerStep(s);
    ConsumerGoesOn(s, 2);
    ConsumerGoesOn(s1, 1);
    assert ConsumerGoes(ConsumerStep(s1), 0) == ConsumerStep(s1);
  }

  /** With the cache used up, the tail is looked at. */
  lemma LooksAtTail(s: State)
    requires s.Cap() > 0 && s.consumer.LookAvailable? && s.tail >= s.consumerHead
    ensures var count := s.tail - s.consumerHead;
            ConsumerGoes(s, 2) == if count > 0 then s.(full := count, consumer := Load)
                                  else if s.available then s.(full := 0)
                                  else s.(full := 0, consumer := Waiting, disconnected := true)
  {
    ConsumerGoesOn(s, 2);
    ConsumerGoesOn(ConsumerStep(s), 1);
    assert ConsumerGoes(ConsumerStep(ConsumerStep(s)), 0) == ConsumerStep(ConsumerStep(s));
  }

  lemma ConsumerGoesTwice(s: State, n: nat, m: nat)
    ensures ConsumerGoes(s, n + m) == ConsumerGoes(ConsumerGoes(s, n), m)
  {
    RepeatedTwice(ConsumerNext(), s, n, m);
  }

  function RecvSteps(s: State): nat
    requires |s.received| <= |s.sent|
  {
    if s.full == 0 && Queue(s) != [] then 4 else 2
  }

  lemma LooksAndLoads(s: State)
    requires Inv(s) && AtRest(s.(consumer := Waiting)) && s.consumer.LookAvailable? && Queue(s) != []
    ensures var s' := ConsumerGoes(s, 4);
            && |s.received| < |s.sent| && s'.consumer.Waiting? && s'.sent == s.sent
            && s'.received == s.received + [s.sent[|s.received|]]
  {
    LooksAtTail(s);
    var looked := s.(full := |Queue(s)|, consumer := Load);
    assert ConsumerGoes(s, 2) == looked;
    SlotsFrame(s, looked);
    ConsumerGoesTwice(s, 2, 2);
    LoadsFront(looked);
  }

  /** A receive that nobody interrupts has the outcome, and the effect on the queue, of the method. */
  lemma UninterruptedRecv(s: State)
    requires Inv(s) && AtRest(s) && s.consumer.Waiting?
    ensures var r := RecvOutcome(Queue(s), s.available);
            var begun := Step(s, Recv);
            var s' := ConsumerGoes(begun, RecvSteps(s));
            && |s'.received| <= |s'.sent| && Queue(s') == AfterRecv(Queue(s))
            && (r.Received? ==> s'.received == s.received + [r.v])
            && (r.Waits? ==> s' == begun)
            && (!r.Waits? ==> s'.consumer.Waiting? && (r.Disconnected? ==> s'.disconnected))
  {
    var begun := Step(s, Recv);
    StepKeepsInv(s, Recv);
    if s.full > 0 {
      LoadsFront(begun);
    } else if Queue(s) != [] {
      LooksAndLoads(begun);
    } else {
      LooksAtTail(begun);
    }
    if Queue(s) != [] {
      assert s.sent[|s.received| + 1..] == Queue(s)[1..];
    }
  }

  // --------------------------------------------------------------------- when a side has gone

  lemma ProducerStaysThere(s: State)
    requires s.Cap() > 0 && !s.producer.Dropped?
    ensures !ProducerStep(s).producer.Dropped? && ProducerStep(s).consumer == s.consumer
  {
  }

  lemma ConsumerStaysThere(s: State)
    requires s.Cap() > 0 && !s.consumer.Gone?
    ensures !ConsumerStep(s).consumer.Gone? && ConsumerStep(s).producer == s.producer
  {
  }

  lemma StepDrops(s: State, a: Action)
    requires s.Cap() > 0 && Enabled(s, a)
    ensures Step(s, a).producer.Dropped? <==> s.producer.Dropped? || a.DropProducer?
    ensures Step(s, a).consumer.Gone? <==> s.consumer.Gone? || a.DropConsumer?
  {
    match a
    case ContinueProducer => ProducerStaysThere(s);
    case ContinueConsumer => ConsumerStaysThere(s);
    case _ =>
  }

  /** In every run, a side has gone if and only if it was dropped, and the flag is up until then. */
  lemma {:induction false} DropsSeen(states: seq<State>, actions: seq<Action>, cap: nat, i: nat)
    requires IsRun(states, actions, cap) && i < |states|
    ensures states[i].producer.Dropped? <==> DropProducer in actions[..i]
    ensures states[i].consumer.Gone? <==> DropConsumer in actions[..i]
    ensures states[i].available <==> DropProducer !in actions[..i] && DropConsumer !in actions[..i]
  {
    FlagExactly(states, actions, cap, i);
    if i > 0 {
      DropsSeen(states, actions, cap, i - 1);
      assert StepOf(states, actions, i - 1);
      StepDrops(states[i - 1], actions[i - 1]);
      assert actions[..i] == actions[..i - 1] + [actions[i - 1]];
    }
  }

  /** In every run: once the producer was dropped and everything was received, a receive that nobody
      interrupts ends, and reports the disconnect. */
  lemma DropIsNoticed(states: seq<State>, actions: seq<Action>, cap: nat, i: nat)
    requires IsRun(states, actions, cap) && i < |states|
    requires DropProducer in actions[..i] && states[i].consumer.Waiting? && states[i].received == states[i].sent
    ensures states[i].Cap() > 0
    ensures var s, s' := states[i], ConsumerGoes(Step(states[i], Recv), 2);
            s'.consumer.Waiting? && s'.disconnected && s'.received == s.received && s'.sent == s.sent
  {
    Always(states, actions, cap, i);
    DropsSeen(states, actions, cap, i);
    LooksAtTail(Step(states[i], Recv));
  }

  /** Once the consumer was dropped and the room counted on is used up, a send that nobody interrupts
      ends, and is refused. */
  lemma LeaveIsNoticed(states: seq<State>, actions: seq<Action>, cap: nat, i: nat, v: Value)
    requires IsRun(states, actions, cap) && i < |states|
    requires DropConsumer in actions[..i] && states[i].producer.Ready? && states[i].free == 0
    ensures states[i].Cap() > 0
    ensures var s, s' := states[i], ProducerGoes(Step(states[i], Send(v)), 2);
            s'.producer.Ready? && s'.refused && s'.received == s.received && s'.sent == s.sent
  {
    Always(states, actions, cap, i);
    DropsSeen(states, actions, cap, i);
    GivesUp(Step(states[i], Send(v)), v);
  }
}
