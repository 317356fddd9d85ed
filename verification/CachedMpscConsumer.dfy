/** Every step of the consumer keeps the invariant of the cached channel, the consumer never
    merges, and what it loads is what was written. */
module CachedMpscConsumer {
  import opened Options
  import opened DivMod
  import opened CachedMpsc
  import opened CachedMpscInvariant

  /** A step that leaves everything of the producers alone, but may give back free space. */
  predicate OnlyConsumer(s: State, s': State) {
    && s'.producers == s.producers && s'.tailLock == s.tailLock && s'.filledLock == s.filledLock
    && s'.stream == s.stream && s'.sent == s.sent && s'.filled == s.filled
    && s'.tail == s.tail && s'.readableTill == s.readableTill && s'.reserved == s.reserved
    && s'.producerCount == s.producerCount && s'.free >= s.free && s'.Cap() == s.Cap()
  }

  lemma ProducersFrame(s: State, s': State)
    requires Inv(s) && OnlyConsumer(s, s')
    ensures Threads(s') && StreamOk(s') && SentOk(s') && MergeOk(s')
    ensures LenDebt(s') == LenDebt(s) && ReservedDebt(s') == ReservedDebt(s) && FreeDebt(s') == FreeDebt(s)
  {
    forall p | 0 <= p < |s'.producers| ensures ProducerOk(s', p) && Owns(s', p) && SentBy(s', p) {
      assert ProducerOk(s, p) && Owns(s, p) && SentBy(s, p);
    }
    forall x | 0 <= x < |s'.stream| ensures PositionOk(s', x) {
      assert PositionOk(s, x);
    }
  }

  predicate AllDead(s: State) {
    forall p :: 0 <= p < |s.producers| ==> s.producers[p].pc.Dead?
  }

  lemma DeadHoldNothing(s: State)
    requires Threads(s) && AllDead(s)
    ensures s.filledLock == None && s.tailLock == None
    ensures forall p :: 0 <= p < |s.producers| ==> Held(s.producers[p]) == None && s.producers[p].local == []
  {
    forall p | 0 <= p < |s.producers|
      ensures Held(s.producers[p]) == None && s.producers[p].local == []
      ensures s.filledLock != Some(TheProducer(p)) && s.tailLock != Some(p)
    {
      assert ProducerOk(s, p);
    }
  }

  /** The first position that is not readable yet belongs to a slice that starts there, unless a
      producer still holds it. */
  lemma FrontierPosition(s: State)
    requires StreamOk(s) && s.readableTill < s.tail
    ensures s.stream[s.readableTill].owner < |s.producers|
    ensures var pos := s.stream[s.readableTill];
            || Held(s.producers[pos.owner]) == Some(pos.slice)
            || (pos.slice in s.filled && pos.slice.start == s.readableTill)
  {
    var x := s.readableTill;
    assert PositionOk(s, x);
    assert s.stream[x].slice in s.filled ==> FilledOk(s.stream, s.readableTill, s.stream[x].slice);
  }

  /** Once every producer is gone nothing is reserved, and nothing is left to merge. */
  lemma DrainedWhenAlone(s: State)
    requires Threads(s) && StreamOk(s) && MergeOk(s) && Live(s.producers) == 0
    ensures s.filled == {} && s.readableTill == s.tail && s.filledLock == None && AllDead(s)
  {
    LiveNonNegative(s.producers);
    DeadHoldNothing(s);
    if s.readableTill < s.tail { FrontierPosition(s); }
    assert forall slice :: slice in s.filled ==> FilledOk(s.stream, s.readableTill, slice);
  }

  /** A step of the consumer that touches neither the ring nor what has been popped. */
  lemma RestingStep(s: State, s': State)
    requires Inv(s) && OnlyConsumer(s, s')
    requires s'.slots == s.slots && s'.popped == s.popped && s'.fault == s.fault
    requires CountersOk(s') && ConsumerOk(s')
    ensures Inv(s')
  {
    ProducersFrame(s, s');
    RingFrame(s, s');
  }

  /** What the consumer loads has been written, and was written for that very position. */
  lemma LoadsWhatWasWritten(s: State)
    requires StreamOk(s) && CountersOk(s) && RingOk(s) && ConsumerOk(s) && s.consumer.Load?
    ensures |s.popped| < |s.stream| && s.stream[|s.popped|].written.Some?
    ensures s.consumer.pos == |s.popped|
    ensures s.slots[s.consumer.pos % s.Cap()] == Cell(s.stream[|s.popped|].written.value)
  {
    var x := |s.popped|;
    assert PositionOk(s, x);
    assert s.slots[x % s.Cap()] == Expected(s, x);
  }

  lemma LoadKeepsRing(s: State)
    requires StreamOk(s) && CountersOk(s) && RingOk(s) && ConsumerOk(s) && PoppedOk(s) && s.consumer.Load?
    ensures var s' := ConsumerStep(s, Continue);
            RingOk(s') && PoppedOk(s') && |s'.popped| == |s.popped| + 1
  {
    var s', k := ConsumerStep(s, Continue), |s.popped|;
    LoadsWhatWasWritten(s);
    FitsRing(s);
    forall x | |s'.popped| <= x < |s'.popped| + s'.Cap() ensures s'.slots[x % s'.Cap()] == Expected(s', x) {
      assert Expected(s', x) == Expected(s, x);
      if x == k + s.Cap() {
        FullTurn(k, s.Cap());
      } else {
        assert s.slots[x % s.Cap()] == Expected(s, x);
        DistinctSlots(k, x, s.Cap());
      }
    }
  }

  lemma LoadKeepsInv(s: State)
    requires Inv(s) && s.consumer.Load?
    ensures Inv(ConsumerStep(s, Continue))
  {
    var s' := ConsumerStep(s, Continue);
    LoadKeepsRing(s);
    ProducersFrame(s, s');
  }

  /** The disconnect the consumer reports is real. */
  lemma ReadReservedKeepsInv(s: State)
    requires Inv(s) && s.consumer.ReadReserved?
    ensures Inv(ConsumerStep(s, Continue)) && s.reserved == 0 && |s.popped| == s.tail
  {
    DrainedWhenAlone(s);
    RestingStep(s, ConsumerStep(s, Continue));
  }

  lemma LookingKeepsInv(s: State, call: Call)
    requires Inv(s) && ConsumerEnabled(s, call)
    requires s.consumer.AtRest? || s.consumer.CheckLen? || s.consumer.ReadProducers? || s.consumer.CheckLenAgain?
    ensures Inv(ConsumerStep(s, call))
  {
    var s' := ConsumerStep(s, call);
    assert CountersOk(s') && ConsumerOk(s') by {
      ProducersFrame(s, s');
    }
    RestingStep(s, s');
  }

  lemma PoppingKeepsInv(s: State, call: Call)
    requires Inv(s) && ConsumerEnabled(s, call)
    requires s.consumer.Bump? || s.consumer.LowerLen? || s.consumer.RaiseFree?
    ensures Inv(ConsumerStep(s, call))
  {
    var s' := ConsumerStep(s, call);
    assert CountersOk(s') && ConsumerOk(s') by {
      ProducersFrame(s, s');
    }
    RestingStep(s, s');
  }

  lemma ConsumerKeepsInv(s: State, call: Call)
    requires Inv(s) && ConsumerEnabled(s, call)
    ensures Inv(ConsumerStep(s, call))
  {
    match s.consumer
    case Load(_) => LoadKeepsInv(s);
    case ReadReserved => ReadReservedKeepsInv(s);
    case Bump => PoppingKeepsInv(s, call);
    case LowerLen(_) => PoppingKeepsInv(s, call);
    case RaiseFree(_) => PoppingKeepsInv(s, call);
    case _ => LookingKeepsInv(s, call);
  }

  lemma InitHasInv(cap: nat)
    requires cap > 0
    ensures Inv(Init(cap))
  {
    var s := Init(cap);
    assert s.producers[..0] == [];
    assert Live(s.producers[..0]) == 0;
  }

  lemma StepKeepsInv(s: State, a: Action)
    requires Inv(s) && Enabled(s, a)
    ensures Inv(Step(s, a))
  {
    match a.thread
    case TheProducer(p) => ProducerKeepsInv(s, p, a.call);
    case TheConsumer => ConsumerKeepsInv(s, a.call);
  }

  /** The invariant holds in every state of every run. */
  lemma {:induction false} Always(states: seq<State>, actions: seq<Action>, cap: nat, i: nat)
    requires IsRun(states, actions, cap) && i < |states|
    ensures Inv(states[i])
  {
    if i == 0 {
      InitHasInv(cap);
    } else {
      Always(states, actions, cap, i - 1);
      assert StepOf(states, actions, i - 1);
      StepKeepsInv(states[i - 1], actions[i - 1]);
    }
  }
}
