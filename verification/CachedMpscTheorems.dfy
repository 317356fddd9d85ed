/** What every run of the cached channel guarantees, whatever the interleaving. */
module CachedMpscTheorems {
  import opened Options
  import opened DivMod
  import opened CachedMpsc
  import opened CachedMpscInvariant
  import opened CachedMpscConsumer
  import opened Payload

  // ---------------------------------------------------------------------------- delivery

  /** What the consumer has got out of the positions that producer `p` reserved, padding left
      out. */
  function ReceivedFrom(stream: seq<Position>, popped: seq<Option<Value>>, p: nat): seq<Value>
    requires |popped| <= |stream|
  {
    if popped == [] then []
    else
      var k := |popped| - 1;
      ReceivedFrom(stream, popped[..k], p)
      + if stream[k].owner == p && popped[k].Some? then [popped[k].value] else []
  }

  lemma {:induction false} ReceivedIsWritten(stream: seq<Position>, popped: seq<Option<Value>>, p: nat)
    requires |popped| <= |stream|
    requires forall k :: 0 <= k < |popped| ==> stream[k].written == Some(popped[k])
    ensures ReceivedFrom(stream, popped, p) == From(stream[..|popped|], p)
  {
    if popped != [] {
      var k := |popped| - 1;
      ReceivedIsWritten(stream, popped[..k], p);
      assert stream[..|popped|][..k] == stream[..k];
    }
  }

  /** What a producer has sent is what was received from it, what it has written that is still
      to be received, and what it still holds back, in this order. */
  lemma SentSplits(s: State, p: nat)
    requires Inv(s) && p < |s.producers|
    ensures s.sent[p] == ReceivedFrom(s.stream, s.popped, p) + From(s.stream[|s.popped|..], p)
                         + Somes(Unwritten(s.producers[p]))
  {
    assert SentBy(s, p);
    ReceivedIsWritten(s.stream, s.popped, p);
    var k := |s.popped|;
    assert s.stream == s.stream[..k] + s.stream[k..];
    FromSplit(s.stream[..k], s.stream[k..], p);
  }

  /** In every run, what has been received from a producer is a prefix of what it has sent. */
  lemma Delivery(states: seq<State>, actions: seq<Action>, cap: nat, i: nat, p: nat)
    requires IsRun(states, actions, cap) && i < |states| && p < |states[i].producers|
    ensures var s := states[i];
            && |s.sent| == |s.producers| && |s.popped| <= |s.stream|
            && ReceivedFrom(s.stream, s.popped, p) <= s.sent[p]
  {
    Always(states, actions, cap, i);
    SentSplits(states[i], p);
    var s := states[i];
    var received, waiting, back := ReceivedFrom(s.stream, s.popped, p), From(s.stream[|s.popped|..], p),
                                   Somes(Unwritten(s.producers[p]));
    assert received + waiting + back == received + (waiting + back);
  }

  /** Once all producers and the consumer are at rest or gone, every value sent has been received
      or lies, once, in the part of the ring from `head` to `readableTill`. */
  lemma NothingIsLost(states: seq<State>, actions: seq<Action>, cap: nat, i: nat, p: nat)
    requires IsRun(states, actions, cap) && i < |states| && p < |states[i].producers|
    requires AllDead(states[i]) && (states[i].consumer.AtRest? || states[i].consumer.Gone?)
    ensures var s := states[i];
            && s.Cap() > 0 && |s.sent| == |s.producers|
            && s.head == |s.popped| <= s.readableTill == |s.stream| <= s.head + s.Cap()
            && s.sent[p] == ReceivedFrom(s.stream, s.popped, p) + From(s.stream[s.head..s.readableTill], p)
            && forall x :: s.head <= x < s.readableTill ==>
                 s.stream[x].written.Some? && s.slots[x % s.Cap()] == Cell(s.stream[x].written.value)
  {
    Always(states, actions, cap, i);
    var s := states[i];
    NobodyLives(s.producers);
    DrainedWhenAlone(s);
    DeadHoldNothing(s);
    SentSplits(s, p);
    assert s.stream[s.head..] == s.stream[s.head..s.readableTill];
    forall x | s.head <= x < s.readableTill
      ensures s.stream[x].written.Some? && s.slots[x % s.Cap()] == Cell(s.stream[x].written.value)
    {
      assert PositionOk(s, x);
      assert s.slots[x % s.Cap()] == Expected(s, x);
    }
  }

  lemma {:induction false} NobodyLives(producers: seq<Producer>)
    requires forall p :: 0 <= p < |producers| ==> producers[p].pc.Dead?
    ensures Live(producers) == 0
  {
    if producers != [] { NobodyLives(producers[..|producers| - 1]); }
  }

  // ---------------------------------------------------------------------------- disconnect

  /** The consumer is told of a disconnect only when every producer is gone and everything each
      of them ever sent has been received. */
  lemma TruthfulDisconnect(states: seq<State>, actions: seq<Action>, cap: nat, i: nat)
    requires IsRun(states, actions, cap) && i < |states| && states[i].disconnected
    ensures AllDead(states[i])
    ensures var s := states[i];
            && |s.sent| == |s.producers| && |s.popped| == |s.stream|
            && forall p :: 0 <= p < |s.producers| ==> ReceivedFrom(s.stream, s.popped, p) == s.sent[p]
  {
    Always(states, actions, cap, i);
    var s := states[i];
    DrainedWhenAlone(s);
    DeadHoldNothing(s);
    forall p | 0 <= p < |s.producers| ensures ReceivedFrom(s.stream, s.popped, p) == s.sent[p] {
      SentSplits(s, p);
      assert s.stream[|s.popped|..] == [];
    }
  }

  /** A send is refused only once the consumer has gone. */
  lemma TruthfulRefusal(states: seq<State>, actions: seq<Action>, cap: nat, i: nat)
    requires IsRun(states, actions, cap) && i < |states| && states[i].refused
    ensures states[i].consumer.Gone? && !states[i].consumerExists
  {
    Always(states, actions, cap, i);
  }

  /** With no producer left nothing is reserved and no slice waits to be merged, so the consumer
      never has to merge. */
  lemma FallbackNeverNeeded(states: seq<State>, actions: seq<Action>, cap: nat, i: nat)
    requires IsRun(states, actions, cap) && i < |states|
    ensures !states[i].consumer.FallbackMerge?
    ensures states[i].producerCount == 0 ==> states[i].reserved == 0 && states[i].filled == {}
  {
    Always(states, actions, cap, i);
    if states[i].producerCount == 0 { DrainedWhenAlone(states[i]); }
  }

  // --------------------------------------------------------------------------------- slices

  /** Who answers for a slice: the set of filled slices, or a producer. */
  datatype Claim = Filled(slice: Slice) | HeldBy(p: nat, slice: Slice)

  predicate Stands(s: State, claim: Claim) {
    match claim
    case Filled(slice) => slice in s.filled
    case HeldBy(p, slice) => p < |s.producers| && Held(s.producers[p]) == Some(slice)
  }

  predicate Covers(s: State, claim: Claim, x: nat) {
    Stands(s, claim) && Inside(claim.slice, x)
  }

  ghost predicate Covered(s: State, x: nat) {
    exists claim :: Covers(s, claim, x)
  }

  /** What a claim covers is a part of the stream that its slice was reserved for. */
  lemma CoveredPosition(s: State, claim: Claim, x: nat)
    requires StreamOk(s) && Covers(s, claim, x)
    ensures s.readableTill <= x < s.tail && s.stream[x].slice == claim.slice
    ensures claim.HeldBy? ==> s.stream[x].owner == claim.p && claim.slice !in s.filled
  {
    match claim
    case Filled(slice) => assert FilledOk(s.stream, s.readableTill, slice);
    case HeldBy(p, slice) => assert Owns(s, p);
  }

  lemma Coverage(s: State, x: nat)
    requires StreamOk(s) && s.readableTill <= x < s.tail
    ensures Covered(s, x)
  {
    assert PositionOk(s, x);
    var pos := s.stream[x];
    var claim := if pos.slice in s.filled then Filled(pos.slice) else HeldBy(pos.owner, pos.slice);
    assert Covers(s, claim, x);
  }

  /** In every state of every run, the slices the producers hold and those waiting to be merged
      are pairwise disjoint and cover exactly the part between `readableTill` and `tail`. */
  lemma SliceTiling(states: seq<State>, actions: seq<Action>, cap: nat, i: nat)
    requires IsRun(states, actions, cap) && i < |states|
    ensures forall x: nat :: Covered(states[i], x) <==> states[i].readableTill <= x < states[i].tail
    ensures forall a, b, x: nat :: Covers(states[i], a, x) && Covers(states[i], b, x) ==> a == b
  {
    Always(states, actions, cap, i);
    var s := states[i];
    forall x: nat ensures Covered(s, x) <==> s.readableTill <= x < s.tail {
      if Covered(s, x) {
        var claim :| Covers(s, claim, x);
        CoveredPosition(s, claim, x);
      } else if s.readableTill <= x < s.tail {
        Coverage(s, x);
      }
    }
    forall a, b, x: nat | Covers(s, a, x) && Covers(s, b, x) ensures a == b {
      CoveredPosition(s, a, x);
      CoveredPosition(s, b, x);
    }
  }

  /** Whenever no thread is in the merge loop, the lowest slice cannot be merged yet. */
  lemma NoMergeLeftBehind(states: seq<State>, actions: seq<Action>, cap: nat, i: nat)
    requires IsRun(states, actions, cap) && i < |states|
    requires forall p :: 0 <= p < |states[i].producers| ==> !states[i].producers[p].pc.Merging?
    ensures states[i].filled != {} ==> Lowest(states[i].filled).start > states[i].readableTill
  {
    Always(states, actions, cap, i);
    var s := states[i];
    if s.filled != {} {
      assert FilledOk(s.stream, s.readableTill, Lowest(s.filled));
    }
  }

  // ------------------------------------------------------------------------------ the slots

  /** No store ever hits an unread value and no load an unwritten slot; all positions in use have
      slots of their own. */
  lemma SlotSafety(states: seq<State>, actions: seq<Action>, cap: nat, i: nat)
    requires IsRun(states, actions, cap) && i < |states|
    ensures var s := states[i];
            && !s.fault && s.Cap() > 0 && s.tail <= |s.popped| + s.Cap()
            && forall x, y :: |s.popped| <= x < y < s.tail ==> x % s.Cap() != y % s.Cap()
  {
    Always(states, actions, cap, i);
    var s := states[i];
    FitsRing(s);
    forall x, y | |s.popped| <= x < y < s.tail ensures x % s.Cap() != y % s.Cap() {
      DistinctSlots(x, y, s.Cap());
    }
  }

  /** A producer about to store owns the position; the slot is free, and no other position in
      use, whether unread, being read or in another slice, shares it. */
  lemma StoresIntoOwnSlot(states: seq<State>, actions: seq<Action>, cap: nat, i: nat, p: nat)
    requires IsRun(states, actions, cap) && i < |states| && p < |states[i].producers|
    requires var pc := states[i].producers[p].pc; pc.Storing? && pc.done < |pc.items|
    ensures var s, pc := states[i], states[i].producers[p].pc;
            var x := pc.start + pc.done;
            && s.Cap() > 0 && s.readableTill <= x < |s.stream| == s.tail && s.stream[x].owner == p
            && s.slots[x % s.Cap()] == Empty
            && forall y :: |s.popped| <= y < s.tail && y != x ==> y % s.Cap() != x % s.Cap()
  {
    Always(states, actions, cap, i);
    SlotSafety(states, actions, cap, i);
    var s, pc := states[i], states[i].producers[p].pc;
    assert Owns(s, p);
    NextToWrite(s, p, pc.start, pc.done);
    StoreKeepsRing(s, p, pc.items, pc.start, pc.done, pc.dropping);
  }

  /** A consumer about to load finds what was written for the very next position. */
  lemma LoadsInOrder(states: seq<State>, actions: seq<Action>, cap: nat, i: nat)
    requires IsRun(states, actions, cap) && i < |states| && states[i].consumer.Load?
    ensures var s := states[i];
            && s.consumer.pos == |s.popped| < s.readableTill && |s.popped| < |s.stream| && s.Cap() > 0
            && s.stream[|s.popped|].written.Some?
            && s.slots[s.consumer.pos % s.Cap()] == Cell(s.stream[|s.popped|].written.value)
  {
    Always(states, actions, cap, i);
    LoadsWhatWasWritten(states[i]);
  }

  // ----------------------------------------------------------------------------- the counters

  /** No counter ever goes below zero, so none of the subtractions wraps around, and `len` and
      `free` stay within the capacity. A merge lowers `reserved` after raising `len`, so only
      between merges does the bound hold for it too. */
  lemma CountersStayInRange(states: seq<State>, actions: seq<Action>, cap: nat, i: nat)
    requires IsRun(states, actions, cap) && i < |states|
    ensures 0 <= states[i].len <= cap && 0 <= states[i].free <= cap && 0 <= states[i].reserved
    ensures states[i].filledLock == None ==> states[i].reserved <= cap
    ensures states[i].producerCount >= 0
  {
    Always(states, actions, cap, i);
    CapacityStays(states, actions, cap, i);
    FreeDebtFits(states[i]);
  }

  lemma FreeDebtFits(s: State)
    requires StreamOk(s)
    ensures FreeDebt(s) <= s.tail - s.readableTill
  {
    if s.tailLock.Some? && s.tailLock.value < |s.producers| { assert Owns(s, s.tailLock.value); }
  }

  /** With no operation under way the three counters share out the capacity, and each is the
      distance between two of the indices. */
  lemma CounterConservation(states: seq<State>, actions: seq<Action>, cap: nat, i: nat)
    requires IsRun(states, actions, cap) && i < |states|
    ensures var s := states[i];
            && s.Cap() == cap
            && (s.tailLock == None ==> s.free <= cap - (s.tail - s.head))
            && (s.filledLock == None ==> s.len >= s.readableTill - s.head && s.reserved == s.tail - s.readableTill)
            && (s.tailLock == None && s.filledLock == None ==>
                  (s.free + s.reserved + s.len == cap && s.len == s.readableTill - s.head
                   <==> !(s.consumer.Load? || s.consumer.LowerLen? || s.consumer.RaiseFree?)))
  {
    Always(states, actions, cap, i);
    CapacityStays(states, actions, cap, i);
  }

  lemma MergeKeepsCapacity(s: State, t: Thread, m: MergePc)
    requires MergeEnabled(s, m)
    ensures MergeStep(s, t, m).0.slots == s.slots && MergeStep(s, t, m).0.producers == s.producers
  {
  }

  lemma ProducerKeepsCapacity(s: State, p: nat, call: Call)
    requires ProducerEnabled(s, p, call)
    ensures ProducerStep(s, p, call).Cap() == s.Cap()
  {
    if s.producers[p].pc.Merging? { MergeKeepsCapacity(s, TheProducer(p), s.producers[p].pc.m); }
  }

  lemma ConsumerKeepsCapacity(s: State, call: Call)
    requires ConsumerEnabled(s, call)
    ensures ConsumerStep(s, call).Cap() == s.Cap()
  {
    if s.consumer.FallbackMerge? { MergeKeepsCapacity(s, TheConsumer, s.consumer.m); }
  }

  lemma {:induction false} CapacityStays(states: seq<State>, actions: seq<Action>, cap: nat, i: nat)
    requires IsRun(states, actions, cap) && i < |states|
    ensures states[i].Cap() == cap
  {
    if i > 0 {
      CapacityStays(states, actions, cap, i - 1);
      assert StepOf(states, actions, i - 1);
      match actions[i - 1].thread
      case TheProducer(p) => ProducerKeepsCapacity(states[i - 1], p, actions[i - 1].call);
      case TheConsumer => ConsumerKeepsCapacity(states[i - 1], actions[i - 1].call);
    }
  }
}
