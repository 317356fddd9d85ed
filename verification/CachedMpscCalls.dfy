/** The calls of the cached channel, taken without interruption: what a send, a flush, the drop of a
    producer and a receive come to, and what receives have handed out in every run. */
module CachedMpscCalls {
  import opened Options
  import opened CachedMpsc
  import opened CachedMpscInvariant
  import opened CachedMpscConsumer
  import opened Payload
  import opened Repetition

  // --------------------------------------------------------------------- steps in a row

  /** The next step of a producer, if it can take one. */
  ghost function Next(p: nat): State -> State {
    (s: State) => if ProducerEnabled(s, p, Continue) then ProducerStep(s, p, Continue) else s
  }

  /** Up to `n` steps of a producer in a row, as long as it can go on. */
  ghost function Goes(s: State, p: nat, n: nat): State {
    Repeated(Next(p), s, n)
  }

  lemma OneStep(s: State, p: nat, m: nat)
    requires ProducerEnabled(s, p, Continue)
    ensures Goes(s, p, 1 + m) == Goes(ProducerStep(s, p, Continue), p, m)
  {
    assert Next(p)(s) == ProducerStep(s, p, Continue);
  }

  lemma GoesTwice(s: State, p: nat, n: nat, m: nat)
    ensures Goes(s, p, n + m) == Goes(Goes(s, p, n), p, m)
  {
    RepeatedTwice(Next(p), s, n, m);
  }

  lemma {:induction false} GoesKeepsInv(s: State, p: nat, n: nat)
    requires Inv(s)
    ensures Inv(Goes(s, p, n))
    decreases n
  {
    if n > 0 {
      if ProducerEnabled(s, p, Continue) { ProducerKeepsInv(s, p, Continue); }
      GoesKeepsInv(Next(p)(s), p, n - 1);
    }
  }

  lemma TwoSteps(s: State, p: nat)
    requires ProducerEnabled(s, p, Continue) && ProducerEnabled(ProducerStep(s, p, Continue), p, Continue)
    ensures Goes(s, p, 2) == ProducerStep(ProducerStep(s, p, Continue), p, Continue)
  {
    var s1 := ProducerStep(s, p, Continue);
    OneStep(s, p, 1);
    OneStep(s1, p, 0);
    assert Goes(ProducerStep(s1, p, Continue), p, 0) == ProducerStep(s1, p, Continue);
  }

  /** Nothing but producer `p`, and what it shares with the others, has moved. */
  predicate OnlyProducer(s: State, s': State, p: nat) {
    && |s'.producers| == |s.producers| && |s'.sent| == |s.sent| && s'.Cap() == s.Cap()
    && (forall q :: 0 <= q < |s.producers| && q != p ==> s'.producers[q] == s.producers[q])
    && (forall q :: 0 <= q < |s.sent| && q != p ==> s'.sent[q] == s.sent[q])
    && s'.consumer == s.consumer && s'.consumerExists == s.consumerExists && s'.head == s.head
    && s'.popped == s.popped && s'.disconnected == s.disconnected
  }

  /** What a step within a store or a merge leaves alone. */
  predicate WithinCall(s: State, s': State, p: nat) {
    && OnlyProducer(s, s', p) && s'.sent == s.sent && s'.refused == s.refused
    && s'.producerCount == s.producerCount && s'.tailLock == s.tailLock && s'.tail == s.tail
  }

  /** The slice is handed over and merged, and the producer is about to `rest`. */
  predicate HandedOver(s: State, s': State, p: nat, rest: ProducerPc) {
    && WithinCall(s, s', p) && p < |s'.producers| && s'.producers[p] == Producer(rest, [], None)
    && s'.filledLock == None
  }

  function Rest(dropping: bool): ProducerPc { if dropping then Closing else Idle }

  lemma HandedOverFrom(s: State, s1: State, s2: State, p: nat, rest: ProducerPc)
    requires WithinCall(s, s1, p) && HandedOver(s1, s2, p, rest)
    ensures HandedOver(s, s2, p, rest)
  {
  }

  // ----------------------------------------------------------------- storing and merging

  /** The frontier moved over the lowest slice, which is not accounted for yet. */
  ghost function MovedOver(s: State, p: nat, dropping: bool): State
    requires p < |s.producers| && s.filled != {}
  {
    var slice := Lowest(s.filled);
    At(s, p, Merging(Moved(slice.size), dropping)).(
      readableTill := slice.start + slice.size, filled := s.filled - {slice})
  }

  lemma MovesOver(s: State, p: nat, dropping: bool)
    requires p < |s.producers| == |s.sent| && s.Cap() > 0
    requires s.producers[p].pc == Merging(Locked, dropping) && s.filledLock == Some(TheProducer(p))
    requires s.filled != {} && Lowest(s.filled).start == s.readableTill
    ensures ProducerStep(s, p, Continue) == MovedOver(s, p, dropping)
  {
  }

  lemma Counts(s: State, p: nat, size: nat, dropping: bool)
    requires p < |s.producers| == |s.sent| && s.Cap() > 0 && s.producers[p].pc == Merging(Moved(size), dropping)
    ensures ProducerStep(s, p, Continue) == At(s, p, Merging(Counted(size), dropping)).(len := s.len + size)
  {
  }

  lemma Unlocks(s: State, p: nat, size: nat, dropping: bool)
    requires p < |s.producers| == |s.sent| && s.Cap() > 0 && s.producers[p].pc == Merging(Counted(size), dropping)
    ensures ProducerStep(s, p, Continue)
            == At(s, p, Merging(Enter(None), dropping)).(reserved := s.reserved - size, filledLock := None)
  {
  }

  lemma LocksAgain(s: State, p: nat, dropping: bool)
    requires p < |s.producers| == |s.sent| && s.Cap() > 0 && s.producers[p].pc == Merging(Enter(None), dropping)
    requires s.filledLock == None
    ensures ProducerStep(s, p, Continue)
            == At(s, p, Merging(Locked, dropping)).(filledLock := Some(TheProducer(p)))
  {
  }

  lemma ThreeSteps(s: State, s1: State, s2: State, s3: State, p: nat)
    requires ProducerEnabled(s, p, Continue) && s1 == ProducerStep(s, p, Continue)
    requires ProducerEnabled(s1, p, Continue) && s2 == ProducerStep(s1, p, Continue)
    requires ProducerEnabled(s2, p, Continue) && s3 == ProducerStep(s2, p, Continue)
    ensures Goes(s, p, 3) == s3
  {
    OneStep(s, p, 2);
    OneStep(s1, p, 1);
    OneStep(s2, p, 0);
    assert Goes(s3, p, 0) == s3;
  }

  /** Accounts for a slice merged, and takes the lock again. */
  lemma AccountsFor(s: State, p: nat, size: nat, dropping: bool)
    requires p < |s.producers| == |s.sent| && s.Cap() > 0
    requires s.producers[p].pc == Merging(Moved(size), dropping) && s.filledLock == Some(TheProducer(p))
    ensures Goes(s, p, 3) == At(s, p, Merging(Locked, dropping)).(len := s.len + size, reserved := s.reserved - size)
  {
    Counts(s, p, size, dropping);
    var s1 := ProducerStep(s, p, Continue);
    Unlocks(s1, p, size, dropping);
    var s2 := ProducerStep(s1, p, Continue);
    LocksAgain(s2, p, dropping);
    ThreeSteps(s, s1, s2, ProducerStep(s2, p, Continue), p);
  }

  /** One slice taken off the set of filled slices: the lock is held as before. */
  lemma MergesOne(s: State, p: nat, dropping: bool)
    requires p < |s.producers| == |s.sent| && s.Cap() > 0
    requires s.producers[p] == Producer(Merging(Locked, dropping), [], None) && s.filledLock == Some(TheProducer(p))
    requires s.filled != {} && Lowest(s.filled).start == s.readableTill
    ensures var slice := Lowest(s.filled);
            Goes(s, p, 4) == s.(readableTill := slice.start + slice.size, filled := s.filled - {slice},
                                len := s.len + slice.size, reserved := s.reserved - slice.size)
  {
    MovesOver(s, p, dropping);
    var s1 := MovedOver(s, p, dropping);
    AccountsFor(s1, p, Lowest(s.filled).size, dropping);
    OneStep(s, p, 3);
    assert Goes(s, p, 4).producers == s.producers;
  }

  /** Leaves the merge loop, for want of a slice at the frontier. */
  lemma MergesNoMore(s: State, p: nat, dropping: bool)
    requires p < |s.producers| == |s.sent| && s.Cap() > 0
    requires s.producers[p] == Producer(Merging(Locked, dropping), [], None) && s.filledLock == Some(TheProducer(p))
    requires s.filled == {} || Lowest(s.filled).start != s.readableTill
    ensures HandedOver(s, Goes(s, p, 1), p, Rest(dropping))
  {
    OneStep(s, p, 0);
    assert Goes(ProducerStep(s, p, Continue), p, 0) == ProducerStep(s, p, Continue);
  }

  lemma {:induction false} MergeFinishes(s: State, p: nat, dropping: bool) returns (n: nat)
    requires p < |s.producers| == |s.sent| && s.Cap() > 0
    requires s.producers[p] == Producer(Merging(Locked, dropping), [], None) && s.filledLock == Some(TheProducer(p))
    ensures HandedOver(s, Goes(s, p, n), p, Rest(dropping))
    decreases |s.filled|
  {
    if s.filled != {} && Lowest(s.filled).start == s.readableTill {
      MergesOne(s, p, dropping);
      var s' := Goes(s, p, 4);
      var m := MergeFinishes(s', p, dropping);
      GoesTwice(s, p, 4, m);
      n := 4 + m;
      HandedOverFrom(s, s', Goes(s', p, m), p, Rest(dropping));
    } else {
      MergesNoMore(s, p, dropping);
      n := 1;
    }
  }

  lemma EnterFinishes(s: State, p: nat, slice: Option<Slice>, dropping: bool) returns (n: nat)
    requires p < |s.producers| == |s.sent| && s.Cap() > 0 && s.filledLock == None
    requires s.producers[p] == Producer(Merging(Enter(slice), dropping), [], None)
    ensures HandedOver(s, Goes(s, p, n), p, Rest(dropping))
  {
    var s' := ProducerStep(s, p, Continue);
    var m := MergeFinishes(s', p, dropping);
    OneStep(s, p, m);
    n := 1 + m;
    HandedOverFrom(s, s', Goes(s', p, m), p, Rest(dropping));
  }

  lemma StoresOne(s: State, p: nat)
    requires p < |s.producers| == |s.sent| && s.Cap() > 0 && s.producers[p].pc.Storing?
    requires s.producers[p].pc.done < |s.producers[p].pc.items|
    ensures var pc, s' := s.producers[p].pc, ProducerStep(s, p, Continue);
            && WithinCall(s, s', p) && s'.filledLock == s.filledLock
            && s'.producers[p] == s.producers[p].(pc := pc.(done := pc.done + 1))
  {
    var pc := s.producers[p].pc;
    assert ProducerStep(s, p, Continue) == StoreStep(s, p, pc.items, pc.start, pc.done, pc.dropping);
  }

  lemma StoredAll(s: State, p: nat)
    requires p < |s.producers| == |s.sent| && s.Cap() > 0 && s.producers[p].pc.Storing?
    requires s.producers[p].pc.done >= |s.producers[p].pc.items|
    ensures var pc, s' := s.producers[p].pc, ProducerStep(s, p, Continue);
            && WithinCall(s, s', p) && s'.filledLock == s.filledLock
            && s'.producers[p] == Producer(Merging(Enter(Some(Slice(pc.start, |pc.items|))), pc.dropping), [], None)
  {
    var pc := s.producers[p].pc;
    assert ProducerStep(s, p, Continue) == StoreStep(s, p, pc.items, pc.start, pc.done, pc.dropping);
  }

  /** A slice being stored gets stored and handed over. */
  lemma {:induction false} StoreFinishes(s: State, p: nat) returns (n: nat)
    requires p < |s.producers| == |s.sent| && s.Cap() > 0 && s.filledLock == None
    requires s.producers[p].pc.Storing? && s.producers[p].local == []
    ensures HandedOver(s, Goes(s, p, n), p, Rest(s.producers[p].pc.dropping))
    decreases if |s.producers[p].pc.items| > s.producers[p].pc.done
              then |s.producers[p].pc.items| - s.producers[p].pc.done else 0
  {
    var pc, s' := s.producers[p].pc, ProducerStep(s, p, Continue);
    var m: nat;
    if pc.done < |pc.items| {
      StoresOne(s, p);
      m := StoreFinishes(s', p);
    } else {
      StoredAll(s, p);
      m := EnterFinishes(s', p, Some(Slice(pc.start, |pc.items|)), pc.dropping);
    }
    OneStep(s, p, m);
    n := 1 + m;
    HandedOverFrom(s, s', Goes(s', p, m), p, Rest(pc.dropping));
  }

  // ------------------------------------------------------------------------ flush and drop

  /** A flush, or the first part of a drop. */
  lemma FlushFinishes(s: State, p: nat, dropping: bool) returns (n: nat)
    requires p < |s.producers| == |s.sent| && s.Cap() > 0 && s.filledLock == None
    requires ProducerOk(s, p) && s.producers[p].pc.Idle?
    ensures HandedOver(s, Goes(StartFlush(s, p, dropping), p, n), p, Rest(dropping))
  {
    var s1 := StartFlush(s, p, dropping);
    if s.producers[p].slice.Some? {
      n := StoreFinishes(s1, p);
      HandedOverFrom(s, s1, Goes(s1, p, n), p, Rest(dropping));
    } else {
      n := 0;
    }
  }

  /** A call keeps the invariant, and if nothing is left unwritten, everything sent is written. */
  lemma CallKeepsInv(s: State, p: nat, call: Call, n: nat)
    requires Inv(s) && ProducerEnabled(s, p, call)
    ensures var s' := Goes(ProducerStep(s, p, call), p, n);
            && Inv(s')
            && (p < |s'.producers| && Unwritten(s'.producers[p]) == [] ==>
                  p < |s'.sent| && s'.sent[p] == From(s'.stream, p))
  {
    ProducerKeepsInv(s, p, call);
    GoesKeepsInv(ProducerStep(s, p, call), p, n);
    AllWritten(Goes(ProducerStep(s, p, call), p, n), p);
  }

  lemma AllWritten(s: State, p: nat)
    requires Inv(s)
    ensures p < |s.producers| && Unwritten(s.producers[p]) == [] ==> p < |s.sent| && s.sent[p] == From(s.stream, p)
  {
    if p < |s.producers| {
      assert SentBy(s, p);
      assert From(s.stream, p) + [] == From(s.stream, p);
    }
  }

  /** A flush that nobody interrupts: everything the producer has sent is written, its slice handed
      over and its buffer empty, and nobody else has moved. */
  lemma UninterruptedFlush(s: State, p: nat) returns (n: nat)
    requires Inv(s) && ProducerEnabled(s, p, Flush) && s.filledLock == None
    ensures var s' := Goes(ProducerStep(s, p, Flush), p, n);
            && Inv(s') && HandedOver(s, s', p, Idle) && s'.sent[p] == From(s'.stream, p)
  {
    assert ProducerOk(s, p);
    n := FlushFinishes(s, p, false);
    CallKeepsInv(s, p, Flush, n);
  }

  /** The producer is gone, with everything it sent handed over. */
  predicate Gone(s: State, s': State, p: nat) {
    && OnlyProducer(s, s', p) && p < |s'.producers| && s'.producers[p] == Producer(Dead, [], None)
    && s'.sent == s.sent && s'.producerCount == s.producerCount - 1
    && s'.filledLock == None && s'.tailLock == s.tailLock
  }

  lemma Closes(s: State, s1: State, p: nat)
    requires HandedOver(s, s1, p, Closing) && |s1.producers| == |s1.sent| && s1.Cap() > 0
    ensures Gone(s, Goes(s1, p, 1), p)
  {
    OneStep(s1, p, 0);
    assert Goes(ProducerStep(s1, p, Continue), p, 0) == ProducerStep(s1, p, Continue);
  }

  lemma DropFinishes(s: State, p: nat) returns (n: nat)
    requires p < |s.producers| == |s.sent| && s.Cap() > 0 && s.filledLock == None
    requires ProducerOk(s, p) && s.producers[p].pc.Idle?
    ensures Gone(s, Goes(StartFlush(s, p, true), p, n), p)
  {
    var m := FlushFinishes(s, p, true);
    Closes(s, Goes(StartFlush(s, p, true), p, m), p);
    GoesTwice(StartFlush(s, p, true), p, m, 1);
    n := m + 1;
  }

  /** A drop that nobody interrupts: a flush, and then there is one producer less. */
  lemma UninterruptedDrop(s: State, p: nat) returns (n: nat)
    requires Inv(s) && ProducerEnabled(s, p, Drop) && s.filledLock == None
    ensures var s' := Goes(ProducerStep(s, p, Drop), p, n);
            Inv(s') && Gone(s, s', p) && s'.sent[p] == From(s'.stream, p)
  {
    assert ProducerOk(s, p);
    n := DropFinishes(s, p);
    CallKeepsInv(s, p, Drop, n);
  }

  // ------------------------------------------------------------------------------- sending

  /** What a producer holds once a value is collected into a slice of `size`: the value with those
      before, or nothing, if that has filled the slice and it was handed over. */
  function Collected(local: seq<Option<Value>>, slice: Slice, v: Value): Producer {
    if |local| + 1 == slice.size then Producer(Idle, [], None) else Producer(Idle, local + [Some(v)], Some(slice))
  }

  /** The value is accepted: sent by `p`, and collected into `slice`, up to whose end positions are
      now reserved. */
  predicate Takes(s: State, s': State, p: nat, v: Value, slice: Slice, tail: nat) {
    && OnlyProducer(s, s', p) && p < |s.producers| == |s.sent|
    && s'.sent[p] == s.sent[p] + [v] && s'.producers[p] == Collected(s.producers[p].local, slice, v)
    && s'.refused == s.refused && s'.producerCount == s.producerCount
    && s'.filledLock == None && s'.tailLock == None && s'.tail == tail
  }

  lemma PushFinishes(s: State, p: nat, v: Value) returns (n: nat)
    requires p < |s.producers| == |s.sent| && s.Cap() > 0 && s.filledLock == None && s.tailLock == None
    requires s.producers[p].slice.Some?
    ensures Takes(s, Goes(Push(s, p, v), p, n), p, v, s.producers[p].slice.value, s.tail)
  {
    var s1 := Push(s, p, v);
    if s1.producers[p].pc.Storing? {
      n := StoreFinishes(s1, p);
    } else {
      n := 0;
    }
  }

  /** A producer without a slice that has just begun to send, with a new slice in hand. */
  function Supplied(s: State, p: nat): State
    requires p < |s.producers| && s.free > 0
  {
    var size := Least(APPLY_SIZE, s.free);
    var slice := Slice(s.tail, size);
    s.(tail := s.tail + size, reserved := s.reserved + size, free := s.free - size,
       stream := s.stream + ReservedPositions(p, slice),
       producers := s.producers[p := Producer(Idle, s.producers[p].local, Some(slice))])
  }

  /** Takes the tail lock and reads how much is free. */
  function LookedAtFree(s: State, p: nat, v: Value): State
    requires p < |s.producers|
  {
    At(s, p, ReadFree(v, s.free)).(tailLock := Some(p))
  }

  lemma LooksAtFree(s: State, p: nat, v: Value)
    requires p < |s.producers| == |s.sent| && s.Cap() > 0 && s.tailLock == None
    requires s.producers[p].pc == Applying(v)
    ensures Goes(s, p, 2) == LookedAtFree(s, p, v)
  {
    TwoSteps(s, p);
  }

  lemma ReservesSlice(s: State, p: nat, v: Value, slice: Slice)
    requires p < |s.producers| == |s.sent| && s.Cap() > 0 && s.producers[p].pc == ReadFree(v, s.free) && s.free > 0
    requires slice == Slice(s.tail, Least(APPLY_SIZE, s.free))
    ensures ProducerStep(s, p, Continue)
            == At(s, p, ProducerPc.Reserved(v, slice)).(
                 tail := s.tail + slice.size, reserved := s.reserved + slice.size,
                 stream := s.stream + ReservedPositions(p, slice))
  {
  }

  lemma ReservesNow(s: State, s1: State, p: nat, v: Value)
    requires p < |s.producers| == |s.sent| && s.Cap() > 0 && s.free > 0 && s.tailLock == None
    requires s1 == LookedAtFree(s, p, v)
    ensures Goes(s1, p, 2) == Push(Supplied(s, p), p, v)
  {
    var slice := Slice(s.tail, Least(APPLY_SIZE, s.free));
    ReservesSlice(s1, p, v, slice);
    var s2 := ProducerStep(s1, p, Continue);
    var pr := Producer(Idle, s.producers[p].local, Some(slice));
    assert s2.(free := s2.free - slice.size, tailLock := None, producers := s2.producers[p := pr]) == Supplied(s, p);
    TwoSteps(s1, p);
  }

  lemma Reserves(s: State, p: nat, v: Value)
    requires p < |s.producers| == |s.sent| && s.Cap() > 0 && s.tailLock == None && s.free > 0
    requires s.producers[p].pc == Applying(v)
    ensures Goes(s, p, 4) == Push(Supplied(s, p), p, v)
  {
    var s1 := LookedAtFree(s, p, v);
    LooksAtFree(s, p, v);
    ReservesNow(s, s1, p, v);
    GoesTwice(s, p, 2, 2);
  }

  /** With the ring full, the producer looks whether the consumer is there. */
  lemma FindsFull(s: State, p: nat, v: Value)
    requires p < |s.producers| == |s.sent| && s.Cap() > 0 && s.tailLock == None && s.free == 0
    requires s.producers[p].pc == Applying(v)
    ensures Goes(s, p, 4) == if s.consumerExists then s else At(s, p, Idle).(refused := true)
  {
    var s1 := LookedAtFree(s, p, v);
    LooksAtFree(s, p, v);
    TwoSteps(s1, p);
    GoesTwice(s, p, 2, 2);
    if s.consumerExists { assert Goes(s1, p, 2).producers == s.producers; }
  }

  /** What a send comes to. A producer with a slice collects the value in it; one without reserves a
      slice first, of 32 positions or as many as are free. With nothing free the send goes round, as
      long as the consumer is there, and is refused once it has gone. */
  predicate SendComesTo(s: State, begun: State, s': State, p: nat, v: Value)
    requires p < |s.producers|
  {
    var slice := s.producers[p].slice;
    if slice.Some? then Takes(s, s', p, v, slice.value, s.tail)
    else if s.free > 0 then Takes(s, s', p, v, Slice(s.tail, Least(32, s.free)), s.tail + Least(32, s.free))
    else if s.consumerExists then s' == begun
    else s' == s.(refused := true)
  }

  lemma SuppliedTakes(s: State, begun: State, s': State, p: nat, v: Value)
    requires p < |s.producers| == |s.sent| && s.free > 0 && begun == At(s, p, Applying(v))
    requires var slice := Slice(s.tail, Least(32, s.free));
             Takes(Supplied(begun, p), s', p, v, slice, s.tail + Least(32, s.free))
    ensures Takes(s, s', p, v, Slice(s.tail, Least(32, s.free)), s.tail + Least(32, s.free))
  {
  }

  lemma SendSupplied(s: State, begun: State, p: nat, v: Value) returns (n: nat)
    requires p < |s.producers| == |s.sent| && s.Cap() > 0
    requires s.filledLock == None && s.tailLock == None && s.free > 0 && begun == At(s, p, Applying(v))
    ensures Takes(s, Goes(begun, p, 4 + n), p, v, Slice(s.tail, Least(32, s.free)), s.tail + Least(32, s.free))
  {
    Reserves(begun, p, v);
    var supplied := Supplied(begun, p);
    n := PushFinishes(supplied, p, v);
    GoesTwice(begun, p, 4, n);
    assert supplied.producers[p].slice == Some(Slice(s.tail, Least(32, s.free)));
    SuppliedTakes(s, begun, Goes(begun, p, 4 + n), p, v);
  }

  lemma SendFinishes(s: State, begun: State, p: nat, v: Value) returns (n: nat)
    requires p < |s.producers| == |s.sent| && s.Cap() > 0 && s.filledLock == None && s.tailLock == None
    requires s.free >= 0 && s.producers[p].pc.Idle?
    requires begun == if s.producers[p].slice.Some? then Push(s, p, v) else At(s, p, Applying(v))
    ensures SendComesTo(s, begun, Goes(begun, p, n), p, v)
    ensures s.producers[p].slice.None? ==> n > 0
  {
    if s.producers[p].slice.Some? {
      n := PushFinishes(s, p, v);
    } else if s.free > 0 {
      var m := SendSupplied(s, begun, p, v);
      n := 4 + m;
    } else {
      FindsFull(begun, p, v);
      n := 4;
      assert At(begun, p, Idle).producers == s.producers;
    }
  }

  /** A send that nobody interrupts. */
  lemma UninterruptedSend(s: State, p: nat, v: Value) returns (n: nat)
    requires Inv(s) && ProducerEnabled(s, p, Send(v)) && s.filledLock == None && s.tailLock == None
    ensures var begun := ProducerStep(s, p, Send(v));
            Inv(Goes(begun, p, n)) && SendComesTo(s, begun, Goes(begun, p, n), p, v)
    ensures s.producers[p].slice.None? ==> n > 0
  {
    n := SendFinishes(s, ProducerStep(s, p, Send(v)), p, v);
    CallKeepsInv(s, p, Send(v), n);
  }

  // ----------------------------------------------------------------------------- receiving

  ghost function ConsumerNext(): State -> State {
    (s: State) => if ConsumerEnabled(s, Continue) then ConsumerStep(s, Continue) else s
  }

  /** Up to `n` steps of the consumer in a row, as long as it is within a call. */
  ghost function ConsumerGoes(s: State, n: nat): State {
    Repeated(ConsumerNext(), s, n)
  }

  lemma ConsumerGoesTwice(s: State, n: nat, m: nat)
    ensures ConsumerGoes(s, n + m) == ConsumerGoes(ConsumerGoes(s, n), m)
  {
    RepeatedTwice(ConsumerNext(), s, n, m);
  }

  lemma ConsumerTwoSteps(s: State)
    requires ConsumerEnabled(s, Continue) && ConsumerEnabled(ConsumerStep(s, Continue), Continue)
    ensures ConsumerGoes(s, 2) == ConsumerStep(ConsumerStep(s, Continue), Continue)
  {
    var s1 := ConsumerStep(s, Continue);
    assert ConsumerGoes(s, 2) == ConsumerGoes(s1, 1);
    assert ConsumerGoes(s1, 1) == ConsumerGoes(ConsumerStep(s1, Continue), 0);
  }

  lemma ConsumerOneStep(s: State)
    requires ConsumerEnabled(s, Continue)
    ensures ConsumerGoes(s, 1) == ConsumerStep(s, Continue)
  {
    assert ConsumerGoes(ConsumerStep(s, Continue), 0) == ConsumerStep(s, Continue);
  }

  lemma {:induction false} ConsumerGoesKeepsInv(s: State, n: nat)
    requires Inv(s)
    ensures Inv(ConsumerGoes(s, n))
    decreases n
  {
    if n > 0 {
      if ConsumerEnabled(s, Continue) { ConsumerKeepsInv(s, Continue); }
      ConsumerGoesKeepsInv(ConsumerNext()(s), n - 1);
    }
  }

  /** Nothing but the consumer, and what it gives back, has moved: it has popped these items. */
  predicate Popped(s: State, s': State, items: seq<Option<Value>>, consumer: ConsumerPc) {
    && s' == s.(consumer := consumer, head := s.head + |items|, len := s.len - |items|, free := s.free + |items|,
                popped := s.popped + items, slots := s'.slots)
    && |s'.slots| == |s.slots|
  }

  lemma PoppedOn(s: State, s1: State, s2: State, items: seq<Option<Value>>, more: seq<Option<Value>>,
                 consumer: ConsumerPc)
    requires Popped(s, s1, items, s1.consumer) && Popped(s1, s2, more, consumer)
    ensures Popped(s, s2, items + more, consumer)
  {
    assert s.popped + items + more == s.popped + (items + more);
  }

  lemma PaddingOn(s: State, s1: State, s2: State, n: nat, item: Option<Value>, consumer: ConsumerPc)
    requires Popped(s, s1, [None], CheckLen) && Popped(s1, s2, Padding(n) + [item], consumer)
    ensures Popped(s, s2, Padding(n + 1) + [item], consumer)
  {
    PoppedOn(s, s1, s2, [None], Padding(n) + [item], consumer);
    assert [None] + (Padding(n) + [item]) == Padding(n + 1) + [item];
  }

  /** What the next position holds, if it is readable. */
  function Front(s: State): Option<Value>
    requires |s.popped| < |s.stream| && s.stream[|s.popped|].written.Some?
  {
    s.stream[|s.popped|].written.value
  }

  /** What is counted is readable, and so written. */
  lemma CountedIsWritten(s: State, k: nat)
    requires Inv(s) && (s.consumer.AtRest? || s.consumer.CheckLen? || s.consumer.Bump?)
    requires |s.popped| <= k < |s.popped| + s.len
    ensures k < |s.stream| && s.stream[k].written.Some?
  {
    assert PositionOk(s, k);
  }

  /** The slot at the head holds what was written for the next position. */
  predicate FrontReady(s: State) {
    && s.Cap() > 0 && s.head == |s.popped| < |s.stream| && s.stream[|s.popped|].written.Some?
    && s.slots[s.head % s.Cap()] == Cell(Front(s))
  }

  lemma CountedIsReady(s: State)
    requires Inv(s) && s.consumer.CheckLen? && s.len > 0
    ensures FrontReady(s)
  {
    CountedIsWritten(s, |s.popped|);
    assert s.slots[|s.popped| % s.Cap()] == CachedMpscInvariant.Expected(s, |s.popped|);
  }

  /** From the loop condition to the loaded item. */
  lemma Loads(s: State)
    requires FrontReady(s) && s.consumer.CheckLen? && s.len > 0 && !s.fault
    ensures var s' := ConsumerGoes(s, 3);
            && s' == s.(consumer := LowerLen(Front(s)), head := s.head + 1, popped := s.popped + [Front(s)],
                        slots := s'.slots)
            && |s'.slots| == |s.slots|
  {
    ConsumerTwoSteps(s);
    var s2 := ConsumerGoes(s, 2);
    ConsumerOneStep(s2);
    ConsumerGoesTwice(s, 2, 1);
  }

  lemma GivesBack(s: State, item: Option<Value>)
    requires s.Cap() > 0 && s.consumer == LowerLen(item)
    ensures ConsumerGoes(s, 2)
            == s.(consumer := if item.Some? then AtRest else CheckLen, len := s.len - 1, free := s.free + 1)
  {
    ConsumerTwoSteps(s);
  }

  /** Once round the loop: the next position is popped. Padding sends the consumer round again, a value
      ends the call. */
  lemma RoundPops(s: State)
    requires FrontReady(s) && s.consumer.CheckLen? && s.len > 0 && !s.fault
    ensures Popped(s, ConsumerGoes(s, 5), [Front(s)], if Front(s).Some? then AtRest else CheckLen)
  {
    Loads(s);
    GivesBack(ConsumerGoes(s, 3), Front(s));
    ConsumerGoesTwice(s, 3, 2);
  }

  lemma PopsOne(s: State)
    requires Inv(s) && s.consumer.CheckLen? && s.len > 0
    ensures FrontReady(s) && Inv(ConsumerGoes(s, 5))
    ensures Popped(s, ConsumerGoes(s, 5), [Front(s)], if Front(s).Some? then AtRest else CheckLen)
  {
    CountedIsReady(s);
    RoundPops(s);
    ConsumerGoesKeepsInv(s, 5);
  }

  /** Only padding at the positions from the next one to before `k`, which is counted. */
  predicate PaddingBefore(s: State, k: nat) {
    && |s.popped| <= k < |s.popped| + s.len
    && forall x :: |s.popped| <= x < k && x < |s.stream| && s.stream[x].written.Some? ==>
         s.stream[x].written == Some(None)
  }

  lemma PaddingPopped(s: State, s1: State, k: nat)
    requires FrontReady(s) && PaddingBefore(s, k) && |s.popped| < k
    requires Popped(s, s1, [Front(s)], if Front(s).Some? then AtRest else CheckLen)
    ensures Popped(s, s1, [None], CheckLen) && s1.consumer.CheckLen? && PaddingBefore(s1, k)
  {
  }

  /** Paddings are popped up to position `k`, and then what is there. */
  predicate PopsTo(s: State, s': State, k: nat) {
    && |s.popped| <= k < |s.stream| && s.stream[k].written.Some?
    && var item := s.stream[k].written.value;
       Popped(s, s', Padding(k - |s.popped|) + [item], if item.Some? then AtRest else CheckLen)
  }

  lemma PopsHere(s: State)
    requires FrontReady(s) && Popped(s, ConsumerGoes(s, 5), [Front(s)], if Front(s).Some? then AtRest else CheckLen)
    ensures PopsTo(s, ConsumerGoes(s, 5), |s.popped|)
  {
    assert Padding(0) + [Front(s)] == [Front(s)];
  }

  lemma PopsBehind(s: State, s1: State, s2: State, k: nat)
    requires Popped(s, s1, [None], CheckLen) && |s.popped| < k && PopsTo(s1, s2, k)
    ensures PopsTo(s, s2, k)
  {
    var item := s.stream[k].written.value;
    PaddingOn(s, s1, s2, k - |s.popped| - 1, item, if item.Some? then AtRest else CheckLen);
  }

  lemma {:induction false} PopsUpTo(s: State, k: nat) returns (n: nat)
    requires Inv(s) && s.consumer.CheckLen? && PaddingBefore(s, k)
    ensures PopsTo(s, ConsumerGoes(s, n), k)
    decreases k - |s.popped|
  {
    PopsOne(s);
    if k == |s.popped| {
      PopsHere(s);
      n := 5;
    } else {
      var s1 := ConsumerGoes(s, 5);
      PaddingPopped(s, s1, k);
      var m := PopsUpTo(s1, k);
      n := 5 + m;
      ConsumerGoesTwice(s, 5, m);
      PopsBehind(s, s1, ConsumerGoes(s1, m), k);
    }
  }

  /** With nothing counted, the consumer looks whether producers are left. */
  lemma FindsEmpty(s: State)
    requires Inv(s) && s.consumer.CheckLen? && s.len == 0
    ensures s.producerCount > 0 ==> ConsumerGoes(s, 3) == s
    ensures s.producerCount <= 0 ==> ConsumerGoes(s, 4) == s.(consumer := AtRest, disconnected := true)
  {
    ConsumerTwoSteps(s);
    var s2 := ConsumerGoes(s, 2);
    assert s2 == s.(consumer := CheckLenAgain(s.producerCount > 0));
    ConsumerOneStep(s2);
    ConsumerGoesTwice(s, 2, 1);
    ConsumerGoesKeepsInv(s, 3);
    if s.producerCount <= 0 {
      ReadReservedKeepsInv(ConsumerGoes(s, 3));
      ConsumerTwoSteps(s2);
      ConsumerGoesTwice(s, 2, 2);
    }
  }

  /** The first position from `x` on, before `till`, that holds a value and not padding. */
  function NextValue(stream: seq<Position>, x: nat, till: nat): (k: nat)
    requires x <= till
    ensures x <= k <= till
    ensures forall y :: x <= y < k && y < |stream| && stream[y].written.Some? ==> stream[y].written == Some(None)
    ensures k < till && k < |stream| && stream[k].written.Some? ==> stream[k].written.value.Some?
    decreases till - x
  {
    if x < till && x < |stream| && (stream[x].written.None? || stream[x].written.value.None?) then
      NextValue(stream, x + 1, till)
    else x
  }

  /** All the padding that is counted, and no value among it. */
  lemma PopsPadding(s: State) returns (n: nat)
    requires Inv(s) && s.consumer.CheckLen?
    requires NextValue(s.stream, |s.popped|, |s.popped| + s.len) == |s.popped| + s.len
    ensures Inv(ConsumerGoes(s, n)) && Popped(s, ConsumerGoes(s, n), Padding(s.len), CheckLen)
  {
    if s.len == 0 {
      n := 0;
      assert s.popped + Padding(0) == s.popped;
    } else {
      var k := |s.popped| + s.len - 1;
      CountedIsWritten(s, k);
      n := PopsUpTo(s, k);
      assert Padding(s.len - 1) + [None] == Padding(s.len);
    }
    ConsumerGoesKeepsInv(s, n);
  }

  /** What a receive comes to: the first value that is counted, with all padding before it popped too;
      with none, the disconnect is reported once no producer is left, and until then the consumer goes
      round. */
  predicate ReceiveComesTo(s: State, s': State)
    requires s.len >= 0
  {
    var till := |s.popped| + s.len;
    var k := NextValue(s.stream, |s.popped|, till);
    if k < till then
      && k < |s.stream| && s.stream[k].written.Some? && s.stream[k].written.value.Some?
      && Popped(s, s', Padding(k - |s.popped|) + [s.stream[k].written.value], AtRest)
    else if s.producerCount > 0 then Popped(s, s', Padding(s.len), CheckLen)
    else s'.disconnected && Popped(s.(disconnected := true), s', Padding(s.len), AtRest)
  }

  lemma ReceivesValue(s: State) returns (n: nat)
    requires Inv(s) && s.consumer.CheckLen?
    requires NextValue(s.stream, |s.popped|, |s.popped| + s.len) < |s.popped| + s.len
    ensures Inv(ConsumerGoes(s, n)) && ReceiveComesTo(s, ConsumerGoes(s, n))
    ensures ConsumerGoes(s, n).consumer.AtRest?
  {
    var k := NextValue(s.stream, |s.popped|, |s.popped| + s.len);
    CountedIsWritten(s, k);
    n := PopsUpTo(s, k);
    ConsumerGoesKeepsInv(s, n);
  }

  lemma PaddingThenNothing(s: State, s1: State, s2: State)
    requires s.len >= 0 && NextValue(s.stream, |s.popped|, |s.popped| + s.len) == |s.popped| + s.len
    requires Popped(s, s1, Padding(s.len), CheckLen)
    requires s2 == if s.producerCount > 0 then s1 else s1.(consumer := AtRest, disconnected := true)
    ensures ReceiveComesTo(s, s2)
  {
  }

  lemma EndsWithNothing(s: State, m: nat)
    requires s.len >= 0 && Inv(ConsumerGoes(s, m)) && Popped(s, ConsumerGoes(s, m), Padding(s.len), CheckLen)
    ensures var s1 := ConsumerGoes(s, m);
            if s.producerCount > 0 then ConsumerGoes(s1, 3) == s1
            else ConsumerGoes(s, m + 4) == s1.(consumer := AtRest, disconnected := true)
  {
    FindsEmpty(ConsumerGoes(s, m));
    ConsumerGoesTwice(s, m, 4);
  }

  lemma ReceivesNothing(s: State) returns (n: nat)
    requires Inv(s) && s.consumer.CheckLen?
    requires NextValue(s.stream, |s.popped|, |s.popped| + s.len) == |s.popped| + s.len
    ensures Inv(ConsumerGoes(s, n)) && ReceiveComesTo(s, ConsumerGoes(s, n))
    ensures ConsumerGoes(s, n).consumer.CheckLen? ==> ConsumerGoes(ConsumerGoes(s, n), 3) == ConsumerGoes(s, n)
  {
    var m := PopsPadding(s);
    n := if s.producerCount > 0 then m else m + 4;
    EndsWithNothing(s, m);
    PaddingThenNothing(s, ConsumerGoes(s, m), ConsumerGoes(s, n));
    ConsumerGoesKeepsInv(s, n);
  }

  lemma ReceiveFinishes(s: State) returns (n: nat)
    requires Inv(s) && s.consumer.CheckLen?
    ensures Inv(ConsumerGoes(s, n)) && ReceiveComesTo(s, ConsumerGoes(s, n))
    ensures ConsumerGoes(s, n).consumer.CheckLen? ==> ConsumerGoes(ConsumerGoes(s, n), 3) == ConsumerGoes(s, n)
  {
    if NextValue(s.stream, |s.popped|, |s.popped| + s.len) < |s.popped| + s.len {
      n := ReceivesValue(s);
    } else {
      n := ReceivesNothing(s);
    }
  }

  /** A receive that nobody interrupts: from the loop condition on, it comes to what is said above, or
      goes round for ever. Unless a merge is under way, everything up to `readableTill` is counted. */
  lemma UninterruptedReceive(s: State) returns (n: nat)
    requires Inv(s) && ConsumerEnabled(s, Recv) && s.consumer.AtRest?
    ensures var begun := s.(consumer := CheckLen);
            var s' := ConsumerGoes(begun, n);
            && ConsumerStep(s, Recv) == begun && s.len >= 0
            && Inv(s') && ReceiveComesTo(begun, s')
            && (s'.consumer.CheckLen? ==> ConsumerGoes(s', 3) == s')
    ensures s.filledLock == None ==> |s.popped| + s.len == s.readableTill
  {
    ConsumerKeepsInv(s, Recv);
    n := ReceiveFinishes(ConsumerStep(s, Recv));
  }

  // ------------------------------------------------------------------------- every run

  /** The receives begun within the first `i` actions. */
  function ReceivesBegun(actions: seq<Action>, i: nat): nat
    requires i <= |actions|
  {
    if i == 0 then 0
    else ReceivesBegun(actions, i - 1) + if actions[i - 1] == Action(TheConsumer, Recv) then 1 else 0
  }

  /** In step `j` a receive ends without a value: it reports a disconnect. */
  predicate Disconnects(states: seq<State>, j: nat)
    requires j + 1 < |states|
  {
    states[j].consumer.ReadReserved? && states[j + 1].consumer.AtRest? && states[j + 1].disconnected
  }

  function DisconnectsBefore(states: seq<State>, i: nat): nat
    requires i < |states|
  {
    if i == 0 then 0 else DisconnectsBefore(states, i - 1) + if Disconnects(states, i - 1) then 1 else 0
  }

  /** What the consumer has popped and is about to end the call with, if it is a value. */
  function InHand(pc: ConsumerPc): Option<Value> {
    match pc
    case LowerLen(item) => item
    case RaiseFree(item) => item
    case _ => None
  }

  /** A receive is under way that has no value yet. */
  predicate StillLooking(pc: ConsumerPc) {
    !pc.AtRest? && !pc.Gone? && InHand(pc).None?
  }

  function AsCount(b: bool): nat { if b then 1 else 0 }

  /** One step of the consumer, in these terms. */
  lemma ConsumerStepCounts(s: State, call: Call)
    requires Inv(s) && ConsumerEnabled(s, call)
    ensures var s' := ConsumerStep(s, call);
            var told := s.consumer.ReadReserved? && s'.consumer.AtRest? && s'.disconnected;
            AsCount(s.consumer.AtRest? && call.Recv?) + |Somes(s.popped)| + AsCount(StillLooking(s.consumer))
            == |Somes(s'.popped)| + AsCount(told) + AsCount(StillLooking(s'.consumer))
  {
    if s.consumer.Load? {
      LoadsWhatWasWritten(s);
      var item := s.stream[|s.popped|].written.value;
      var s' := ConsumerStep(s, call);
      assert s'.popped[..|s.popped|] == s.popped && s'.popped == s.popped + [item];
    }
  }

  /** What a step of a producer leaves alone; only a clone adds a handle. */
  predicate ProducerFrame(s: State, s': State, call: Call) {
    && s'.popped == s.popped && s'.consumer == s.consumer && s'.consumerExists == s.consumerExists
    && |s'.producers| == |s.producers| + AsCount(call.Clone?)
  }

  lemma MergeFrameOf(s: State, p: nat, call: Call)
    requires ProducerEnabled(s, p, call) && s.producers[p].pc.Merging?
    ensures ProducerFrame(s, ProducerStep(s, p, call), call)
  {
    var pc := s.producers[p].pc;
    var (s1, next) := MergeStep(s, TheProducer(p), pc.m);
    assert s1.popped == s.popped && s1.consumer == s.consumer && s1.consumerExists == s.consumerExists;
    assert s1.producers == s.producers;
  }

  lemma IdleFrameOf(s: State, p: nat, call: Call)
    requires ProducerEnabled(s, p, call) && s.producers[p].pc.Idle?
    ensures ProducerFrame(s, ProducerStep(s, p, call), call)
  {
    assert ProducerStep(s, p, call) == IdleStep(s, p, call);
    match call
    case Send(v) => if s.producers[p].slice.Some? { PushFrameOf(s, p, v); }
    case Clone =>
    case _ => FlushFrameOf(s, p, call.Drop?);
  }

  lemma PushFrameOf(s: State, p: nat, v: Value)
    requires p < |s.producers| == |s.sent| && s.producers[p].slice.Some?
    ensures ProducerFrame(s, Push(s, p, v), Send(v))
  {
  }

  lemma FlushFrameOf(s: State, p: nat, dropping: bool)
    requires p < |s.producers|
    ensures ProducerFrame(s, StartFlush(s, p, dropping), Flush)
  {
  }

  lemma StoreFrameOf(s: State, p: nat, call: Call)
    requires ProducerEnabled(s, p, call) && s.producers[p].pc.Storing?
    ensures ProducerFrame(s, ProducerStep(s, p, call), call)
  {
  }

  lemma ReserveFrameOf(s: State, p: nat, call: Call)
    requires ProducerEnabled(s, p, call)
    requires var pc := s.producers[p].pc; pc.HasTail? || pc.ReadFree? || pc.Reserved?
    ensures ProducerFrame(s, ProducerStep(s, p, call), call)
  {
  }

  lemma OtherFrameOf(s: State, p: nat, call: Call)
    requires ProducerEnabled(s, p, call)
    requires var pc := s.producers[p].pc; pc.Applying? || pc.CheckConsumer? || pc.Closing?
    ensures ProducerFrame(s, ProducerStep(s, p, call), call)
  {
  }

  lemma ProducerStepFrame(s: State, p: nat, call: Call)
    requires ProducerEnabled(s, p, call)
    ensures ProducerFrame(s, ProducerStep(s, p, call), call)
  {
    match s.producers[p].pc
    case Idle => IdleFrameOf(s, p, call);
    case Storing(_, _, _, _) => StoreFrameOf(s, p, call);
    case Merging(_, _) => MergeFrameOf(s, p, call);
    case HasTail(_) => ReserveFrameOf(s, p, call);
    case ReadFree(_, _) => ReserveFrameOf(s, p, call);
    case Reserved(_, _) => ReserveFrameOf(s, p, call);
    case _ => OtherFrameOf(s, p, call);
  }

  /** In every run, every receive begun has handed out one of the values popped, or reported a
      disconnect, or is still looking for a value: no value is popped and thrown away. */
  lemma {:induction false} ReceivesAccounted(states: seq<State>, actions: seq<Action>, cap: nat, i: nat)
    requires IsRun(states, actions, cap) && i < |states|
    ensures ReceivesBegun(actions, i)
            == |Somes(states[i].popped)| + DisconnectsBefore(states, i) + AsCount(StillLooking(states[i].consumer))
  {
    if i > 0 {
      ReceivesAccounted(states, actions, cap, i - 1);
      Always(states, actions, cap, i - 1);
      assert StepOf(states, actions, i - 1);
      match actions[i - 1].thread
      case TheProducer(p) => ProducerStepFrame(states[i - 1], p, actions[i - 1].call);
      case TheConsumer => ConsumerStepCounts(states[i - 1], actions[i - 1].call);
    }
  }

  /** In every run, what a receive is about to hand out is the last item popped. */
  lemma {:induction false} HandsOutLastPopped(states: seq<State>, actions: seq<Action>, cap: nat, i: nat)
    requires IsRun(states, actions, cap) && i < |states| && InHand(states[i].consumer).Some?
    ensures states[i].popped != [] && states[i].popped[|states[i].popped| - 1] == InHand(states[i].consumer)
  {
    assert i > 0;
    assert StepOf(states, actions, i - 1);
    match actions[i - 1].thread
    case TheProducer(p) =>
      ProducerStepFrame(states[i - 1], p, actions[i - 1].call);
      HandsOutLastPopped(states, actions, cap, i - 1);
    case TheConsumer =>
      if states[i - 1].consumer.LowerLen? { HandsOutLastPopped(states, actions, cap, i - 1); }
  }

  /** How often producers were cloned within the first `i` actions, and whether the consumer was dropped. */
  function Clones(actions: seq<Action>, i: nat): nat
    requires i <= |actions|
  {
    if i == 0 then 0
    else Clones(actions, i - 1) + if actions[i - 1].thread.TheProducer? && actions[i - 1].call.Clone? then 1 else 0
  }

  predicate ConsumerDropped(actions: seq<Action>, i: nat)
    requires i <= |actions|
  {
    Action(TheConsumer, Drop) in actions[..i]
  }

  lemma ConsumerStepHandles(s: State, call: Call)
    requires ConsumerEnabled(s, call)
    ensures ConsumerStep(s, call).consumerExists == (s.consumerExists && !call.Drop?)
    ensures ConsumerStep(s, call).producers == s.producers
  {
    if s.consumer.FallbackMerge? {
      var s1 := MergeStep(s, TheConsumer, s.consumer.m).0;
      assert s1.consumerExists == s.consumerExists && s1.producers == s.producers;
    }
  }

  /** In every run, every clone has added a producer, and the consumer is there until it is dropped. */
  lemma {:induction false} HandlesCounted(states: seq<State>, actions: seq<Action>, cap: nat, i: nat)
    requires IsRun(states, actions, cap) && i < |states|
    ensures |states[i].producers| == 1 + Clones(actions, i)
    ensures states[i].consumerExists <==> !ConsumerDropped(actions, i)
  {
    if i > 0 {
      HandlesCounted(states, actions, cap, i - 1);
      assert StepOf(states, actions, i - 1);
      assert actions[..i] == actions[..i - 1] + [actions[i - 1]];
      match actions[i - 1].thread
      case TheProducer(p) => ProducerStepFrame(states[i - 1], p, actions[i - 1].call);
      case TheConsumer => ConsumerStepHandles(states[i - 1], actions[i - 1].call);
    }
  }
}
