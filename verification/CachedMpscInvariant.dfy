/** The invariant of the cached channel, and that every step of every thread keeps it. The
    history `stream` records for every reserved position its owner, its slice and what was
    written: slices are disjoint because a position names one slice only, and they tile because
    every position of the unread part names a live one. */
module CachedMpscInvariant {
  import opened Options
  import opened DivMod
  import opened CachedMpsc
  import opened Payload

  // ------------------------------------------------------------------- threads and locks

  predicate HoldsTail(pc: ProducerPc) { pc.HasTail? || pc.ReadFree? || pc.Reserved? }

  predicate HoldsFilled(m: MergePc) { !m.Enter? }

  /** The slice a producer owns: reserved, being filled, being stored, or about to be merged. */
  function Held(pr: Producer): Option<Slice> {
    match pr.pc
    case Reserved(_, slice) => Some(slice)
    case Storing(items, start, _, _) => Some(Slice(start, |items|))
    case Merging(Enter(slice), _) => slice
    case _ => pr.slice
  }

  /** How many positions of the held slice are written. */
  function Done(pr: Producer): nat {
    match pr.pc
    case Storing(_, _, done, _) => done
    case Merging(Enter(Some(slice)), _) => slice.size
    case _ => 0
  }

  /** What a producer has accepted but not yet written. */
  function Unwritten(pr: Producer): seq<Option<Value>> {
    match pr.pc
    case Storing(items, _, done, _) => if done <= |items| then items[done..] else []
    case _ => pr.local
  }

  predicate ProducerOk(s: State, p: nat)
    requires p < |s.producers|
  {
    var pr := s.producers[p];
    && (s.tailLock == Some(p) <==> HoldsTail(pr.pc))
    && (s.filledLock == Some(TheProducer(p)) <==> pr.pc.Merging? && HoldsFilled(pr.pc.m))
    && match pr.pc
       case Idle => if pr.slice.Some? then |pr.local| < pr.slice.value.size else pr.local == []
       case Storing(items, start, done, _) =>
         pr.slice == Some(Slice(start, |items|)) && pr.local == [] && done <= |items|
       case ReadFree(_, f) => pr.slice == None && pr.local == [] && f <= s.free
       case Reserved(_, slice) => pr.slice == None && pr.local == [] && slice.size <= s.free
       case _ => pr.slice == None && pr.local == []
  }

  predicate LocksOk(s: State) {
    && (s.tailLock.Some? ==> s.tailLock.value < |s.producers|)
    && match s.filledLock
       case Some(TheProducer(p)) => p < |s.producers|
       case Some(TheConsumer) => false
       case None => true
  }

  predicate Threads(s: State) {
    LocksOk(s) && forall p :: 0 <= p < |s.producers| ==> ProducerOk(s, p)
  }

  // -------------------------------------------------------------------------- the stream

  function End(slice: Slice): nat { slice.start + slice.size }

  predicate Inside(slice: Slice, x: nat) { slice.start <= x < End(slice) }

  /** Everything a producer owns is written, but for the rest of the slice it holds, which is
      its latest. */
  predicate OwnsOk(
    stream: seq<Position>, filled: set<Slice>, readableTill: nat, p: nat, held: Option<Slice>, done: nat)
  {
    match held
    case None =>
      forall x :: 0 <= x < |stream| && stream[x].owner == p ==> stream[x].written.Some?
    case Some(slice) =>
      && slice.size > 0 && readableTill <= slice.start && End(slice) <= |stream| && done <= slice.size
      && slice !in filled
      && (forall x :: slice.start <= x < End(slice) ==>
            && stream[x].owner == p && stream[x].slice == slice
            && (stream[x].written.Some? <==> x < slice.start + done))
      && (forall x :: 0 <= x < |stream| && stream[x].owner == p && !Inside(slice, x) ==>
            x < slice.start && stream[x].written.Some?)
  }

  predicate FilledOk(stream: seq<Position>, readableTill: nat, slice: Slice) {
    && slice.size > 0 && readableTill <= slice.start && End(slice) <= |stream|
    && forall x :: slice.start <= x < End(slice) ==> stream[x].slice == slice && stream[x].written.Some?
  }

  predicate PositionOk(s: State, x: nat)
    requires x < |s.stream|
  {
    var pos := s.stream[x];
    && pos.owner < |s.producers| && Inside(pos.slice, x) && End(pos.slice) <= |s.stream|
    && (x < s.readableTill ==> pos.written.Some?)
    && (x >= s.readableTill ==> pos.slice in s.filled || Held(s.producers[pos.owner]) == Some(pos.slice))
  }

  predicate StreamOk(s: State) {
    && |s.stream| == s.tail && s.readableTill <= s.tail
    && (forall x :: 0 <= x < |s.stream| ==> PositionOk(s, x))
    && (forall slice :: slice in s.filled ==> FilledOk(s.stream, s.readableTill, slice))
    && (forall p :: 0 <= p < |s.producers| ==> Owns(s, p))
  }

  predicate Owns(s: State, p: nat)
    requires p < |s.producers|
  {
    OwnsOk(s.stream, s.filled, s.readableTill, p, Held(s.producers[p]), Done(s.producers[p]))
  }

  // ------------------------------------------------------------------------- the counters

  /** How much of a merge under way is missing from `len`, and from `reserved`. */
  function MergeOf(s: State): Option<MergePc> {
    match s.filledLock
    case Some(TheProducer(p)) =>
      if p < |s.producers| && s.producers[p].pc.Merging? then Some(s.producers[p].pc.m) else None
    case _ => None
  }

  function LenDebt(s: State): nat {
    match MergeOf(s) case Some(Moved(size)) => size case _ => 0
  }

  function ReservedDebt(s: State): nat {
    match MergeOf(s) case Some(Moved(size)) => size case Some(Counted(size)) => size case _ => 0
  }

  /** How much of a reservation under way is missing from `free`. */
  function FreeDebt(s: State): nat {
    match s.tailLock
    case Some(p) =>
      if p < |s.producers| && s.producers[p].pc.Reserved? then s.producers[p].pc.slice.size else 0
    case None => 0
  }

  predicate CountersOk(s: State) {
    var popped := |s.popped|;
    && popped <= s.readableTill
    && s.head == popped + (if s.consumer.Load? then 1 else 0)
    && (s.consumer.LowerLen? || s.consumer.RaiseFree? ==> popped > 0)
    && s.len == s.readableTill - (popped - if s.consumer.LowerLen? then 1 else 0) - LenDebt(s)
    && s.reserved == s.tail - s.readableTill + ReservedDebt(s)
    && s.free == FreeDebt(s)
                 + s.Cap() - (s.tail - (popped - if s.consumer.LowerLen? || s.consumer.RaiseFree? then 1 else 0))
    && s.free >= FreeDebt(s)
  }

  // ----------------------------------------------------------------------------- the ring

  /** What the slot of position `x` has to hold, for positions from the next one to pop on, one
      full turn ahead. */
  function Expected(s: State, x: nat): Slot {
    if x < |s.stream| && s.stream[x].written.Some? then Cell(s.stream[x].written.value) else Empty
  }

  predicate RingOk(s: State) {
    && s.Cap() > 0 && !s.fault
    && forall x :: |s.popped| <= x < |s.popped| + s.Cap() ==> s.slots[x % s.Cap()] == Expected(s, x)
  }

  // ---------------------------------------------------------------------------- the values

  function Somes(items: seq<Option<Value>>): seq<Value> {
    if items == [] then []
    else Somes(items[..|items| - 1]) + if items[|items| - 1].Some? then [items[|items| - 1].value] else []
  }

  /** The values a producer has written, in stream order, padding left out. */
  function From(stream: seq<Position>, p: nat): seq<Value> {
    if stream == [] then []
    else
      var last := stream[|stream| - 1];
      From(stream[..|stream| - 1], p)
      + if last.owner == p && last.written.Some? && last.written.value.Some? then [last.written.value.value] else []
  }

  predicate SentOk(s: State) {
    && |s.sent| == |s.producers|
    && forall p :: 0 <= p < |s.producers| ==> SentBy(s, p)
  }

  /** What a producer has sent is what it has written, then what it still holds back. */
  predicate SentBy(s: State, p: nat)
    requires p < |s.producers| == |s.sent|
  {
    s.sent[p] == From(s.stream, p) + Somes(Unwritten(s.producers[p]))
  }

  predicate PoppedOk(s: State) {
    && |s.popped| <= |s.stream|
    && forall k :: 0 <= k < |s.popped| ==> s.stream[k].written == Some(s.popped[k])
  }

  // ------------------------------------------------------------------- disconnect, merging

  function Live(producers: seq<Producer>): nat {
    if producers == [] then 0
    else Live(producers[..|producers| - 1]) + if producers[|producers| - 1].pc.Dead? then 0 else 1
  }

  /** In the merge loop, with nothing left to insert: such a thread has yet to look at the lowest
      slice. */
  predicate WillLook(pc: ProducerPc) {
    pc.Merging? && (pc.m.Enter? ==> pc.m.slice == None)
  }

  /** A slice that could be merged is never left behind. */
  ghost predicate MergeOk(s: State) {
    (exists slice :: slice in s.filled && slice.start == s.readableTill) ==>
      exists p :: 0 <= p < |s.producers| && WillLook(s.producers[p].pc)
  }

  predicate ConsumerOk(s: State) {
    && s.producerCount == Live(s.producers)
    && (s.consumerExists <==> !s.consumer.Gone?)
    && (s.refused ==> !s.consumerExists)
    && s.len >= 0
    && (s.consumer.Bump? || s.consumer.Load? || s.consumer.LowerLen? ==> s.len > 0)
    && (s.consumer.Load? ==> s.consumer.pos == |s.popped| && |s.popped| < s.readableTill)
    && (s.consumer == CheckLenAgain(false) || s.consumer.ReadReserved? ==> s.producerCount == 0)
    && (s.consumer.ReadReserved? ==> s.len == 0)
    && !s.consumer.FallbackMerge?
    && (s.disconnected ==> s.producerCount == 0 && |s.popped| == s.tail)
  }

  ghost predicate Inv(s: State) {
    && Threads(s) && StreamOk(s) && CountersOk(s) && RingOk(s) && SentOk(s) && PoppedOk(s)
    && MergeOk(s) && ConsumerOk(s)
  }

  // --------------------------------------------------------------------------- frames

  /** A step that leaves the stream and every thread's share of it alone. */
  predicate SameStream(s: State, s': State) {
    && s'.stream == s.stream && s'.filled == s.filled && s'.tail == s.tail && s'.readableTill == s.readableTill
    && |s'.producers| == |s.producers|
    && forall q :: 0 <= q < |s.producers| ==>
         Held(s'.producers[q]) == Held(s.producers[q]) && Done(s'.producers[q]) == Done(s.producers[q])
  }

  lemma StreamFrame(s: State, s': State)
    requires StreamOk(s) && SameStream(s, s')
    ensures StreamOk(s')
  {
    forall x | 0 <= x < |s'.stream| ensures PositionOk(s', x) {
      assert PositionOk(s, x);
    }
    forall q | 0 <= q < |s'.producers| ensures Owns(s', q) {
      assert Owns(s, q);
    }
  }

  /** How many producers are alive after one changed. */
  lemma {:induction false} LiveUpdate(producers: seq<Producer>, p: nat, pr: Producer)
    requires p < |producers|
    ensures Live(producers[p := pr]) + (if producers[p].pc.Dead? then 0 else 1)
            == Live(producers) + (if pr.pc.Dead? then 0 else 1)
  {
    var last := |producers| - 1;
    if p < last {
      assert producers[p := pr][..last] == producers[..last][p := pr];
      LiveUpdate(producers[..last], p, pr);
    } else {
      assert producers[p := pr][..last] == producers[..last];
    }
  }

  lemma {:induction false} LivePositive(producers: seq<Producer>, p: nat)
    requires p < |producers| && !producers[p].pc.Dead?
    ensures Live(producers) > 0
  {
    if p < |producers| - 1 { LivePositive(producers[..|producers| - 1], p); }
  }

  lemma {:induction false} LiveNonNegative(producers: seq<Producer>)
    ensures Live(producers) == 0 ==> forall p :: 0 <= p < |producers| ==> producers[p].pc.Dead?
  {
    forall p | 0 <= p < |producers| && !producers[p].pc.Dead? ensures Live(producers) > 0 {
      LivePositive(producers, p);
    }
  }

  /** Only producer `p` changes, and locks change hands only with it. */
  predicate OnlyMoves(s: State, s': State, p: nat) {
    && p < |s.producers| == |s'.producers|
    && (forall q :: 0 <= q < |s.producers| && q != p ==> s'.producers[q] == s.producers[q])
    && (s'.tailLock == s.tailLock
        || (s.tailLock == None && s'.tailLock == Some(p)) || (s.tailLock == Some(p) && s'.tailLock == None))
    && (s'.filledLock == s.filledLock
        || (s.filledLock == None && s'.filledLock == Some(TheProducer(p)))
        || (s.filledLock == Some(TheProducer(p)) && s'.filledLock == None))
    && (s'.free >= s.free || s.tailLock == Some(p))
  }

  lemma ThreadsFrame(s: State, s': State, p: nat)
    requires Threads(s) && OnlyMoves(s, s', p) && ProducerOk(s', p)
    ensures Threads(s')
  {
    assert ProducerOk(s, p);
    forall q | 0 <= q < |s'.producers| ensures ProducerOk(s', q) {
      assert ProducerOk(s, q);
    }
  }

  /** The counters only depend on these parts of the state. */
  lemma CountersFrame(s: State, s': State)
    requires CountersOk(s)
    requires s'.head == s.head && s'.tail == s.tail && s'.readableTill == s.readableTill && s'.Cap() == s.Cap()
    requires s'.len == s.len && s'.reserved == s.reserved && s'.free == s.free
    requires s'.popped == s.popped && s'.consumer == s.consumer
    requires LenDebt(s') == LenDebt(s) && ReservedDebt(s') == ReservedDebt(s) && FreeDebt(s') == FreeDebt(s)
    ensures CountersOk(s')
  {
  }

  lemma RingFrame(s: State, s': State)
    requires RingOk(s) && s'.slots == s.slots && s'.popped == s.popped && s'.fault == s.fault && s'.stream == s.stream
    ensures RingOk(s')
  {
    forall x | |s'.popped| <= x < |s'.popped| + s'.Cap() ensures s'.slots[x % s'.Cap()] == Expected(s', x) {
      assert Expected(s', x) == Expected(s, x);
    }
  }

  lemma SentFrame(s: State, s': State)
    requires SentOk(s) && s'.stream == s.stream && s'.sent == s.sent && |s'.producers| == |s.producers|
    requires forall q :: 0 <= q < |s.producers| ==>
               Somes(Unwritten(s'.producers[q])) == Somes(Unwritten(s.producers[q]))
    ensures SentOk(s')
  {
    forall q | 0 <= q < |s'.producers| ensures SentBy(s', q) {
      assert SentBy(s, q);
    }
  }

  lemma MergeFrame(s: State, s': State, p: nat)
    requires MergeOk(s) && OnlyMoves(s, s', p) && s'.filled == s.filled && s'.readableTill == s.readableTill
    requires WillLook(s.producers[p].pc) ==> WillLook(s'.producers[p].pc)
    ensures MergeOk(s')
  {
    if exists slice :: slice in s'.filled && slice.start == s'.readableTill {
      var q :| 0 <= q < |s.producers| && WillLook(s.producers[q].pc);
      assert WillLook(s'.producers[q].pc);
    }
  }

  lemma ConsumerFrame(s: State, s': State, p: nat)
    requires ConsumerOk(s) && OnlyMoves(s, s', p)
    requires s'.producerCount == s.producerCount && s.producers[p].pc.Dead? == s'.producers[p].pc.Dead? == false
    requires s'.consumer == s.consumer && s'.len >= s.len && s'.popped == s.popped
    requires s'.readableTill >= s.readableTill && s'.disconnected == s.disconnected
    requires s'.consumerExists == s.consumerExists && (s'.refused ==> s.refused || !s.consumerExists)
    ensures ConsumerOk(s')
  {
    LiveUpdate(s.producers, p, s'.producers[p]);
    assert s'.producers == s.producers[p := s'.producers[p]];
    LivePositive(s.producers, p);
  }

  // ------------------------------------------------------- steps that only move a producer

  /** A producer moves on, neither in nor out of a merge or its life, and leaves the ring, the
      stream and the consumer alone. */
  predicate Local(s: State, s': State, p: nat) {
    && OnlyMoves(s, s', p) && ProducerOk(s', p) && SameStream(s, s')
    && s'.slots == s.slots && s'.popped == s.popped && s'.fault == s.fault
    && s'.consumer == s.consumer && s'.len == s.len && s'.reserved == s.reserved && s'.head == s.head
    && s'.producerCount == s.producerCount && s'.disconnected == s.disconnected && s'.filledLock == s.filledLock
    && s'.consumerExists == s.consumerExists && (s'.refused ==> s.refused || !s.consumerExists)
    && var pr, pr' := s.producers[p], s'.producers[p];
    && !pr.pc.Merging? && !pr'.pc.Merging? && !pr.pc.Dead? && !pr'.pc.Dead?
  }

  lemma LocalKeepsMost(s: State, s': State, p: nat)
    requires Inv(s) && Local(s, s', p)
    ensures Threads(s') && StreamOk(s') && RingOk(s') && PoppedOk(s') && MergeOk(s') && ConsumerOk(s')
    ensures LenDebt(s') == LenDebt(s) && ReservedDebt(s') == ReservedDebt(s)
  {
    ThreadsFrame(s, s', p);
    StreamFrame(s, s');
    RingFrame(s, s');
    MergeFrame(s, s', p);
    ConsumerFrame(s, s', p);
    assert ProducerOk(s, p);
  }

  /** A local step that does not concern the counters or the values either. */
  predicate Quiet(s: State, s': State, p: nat) {
    && Local(s, s', p)
    && s'.sent == s.sent && Somes(Unwritten(s'.producers[p])) == Somes(Unwritten(s.producers[p]))
    && s'.free == s.free && !s.producers[p].pc.Reserved? && !s'.producers[p].pc.Reserved?
  }

  lemma QuietKeepsInv(s: State, s': State, p: nat)
    requires Inv(s) && Quiet(s, s', p)
    ensures Inv(s')
  {
    LocalKeepsMost(s, s', p);
    SentFrame(s, s');
    SameFreeDebt(s, s', p);
    CountersFrame(s, s');
  }

  lemma SameFreeDebt(s: State, s': State, p: nat)
    requires Threads(s) && Local(s, s', p) && !s.producers[p].pc.Reserved? && !s'.producers[p].pc.Reserved?
    ensures FreeDebt(s') == FreeDebt(s)
  {
    assert ProducerOk(s, p);
  }

  lemma {:induction false} SomesConcat(xs: seq<Option<Value>>, ys: seq<Option<Value>>)
    ensures Somes(xs + ys) == Somes(xs) + Somes(ys)
  {
    if ys == [] {
      assert xs + ys == xs;
    } else {
      assert (xs + ys)[..|xs + ys| - 1] == xs + ys[..|ys| - 1];
      SomesConcat(xs, ys[..|ys| - 1]);
    }
  }

  lemma {:induction false} SomesPadding(n: nat)
    ensures Somes(Padding(n)) == []
  {
    if n > 0 {
      assert Padding(n)[..n - 1] == Padding(n - 1);
      SomesPadding(n - 1);
    }
  }

  lemma SomesOne(item: Option<Value>)
    ensures Somes([item]) == if item.Some? then [item.value] else []
  {
    assert [item][..0] == [];
    assert Somes([item][..0]) == [];
  }

  /** Padding adds no values. */
  lemma PaddedValues(local: seq<Option<Value>>, n: nat)
    ensures Somes(local + Padding(n)) == Somes(local)
  {
    SomesConcat(local, Padding(n));
    SomesPadding(n);
  }

  lemma NoFlushIsQuiet(s: State, p: nat, dropping: bool)
    requires Inv(s) && p < |s.producers| && s.producers[p].pc.Idle? && s.producers[p].slice.None?
    ensures Quiet(s, StartFlush(s, p, dropping), p)
  {
    assert ProducerOk(s, p);
    assert StartFlush(s, p, dropping) == At(s, p, if dropping then Closing else Idle);
  }

  lemma FlushIsLocal(s: State, p: nat, dropping: bool)
    requires Inv(s) && p < |s.producers| && s.producers[p].pc.Idle? && s.producers[p].slice.Some?
    ensures Local(s, StartFlush(s, p, dropping), p)
  {
    assert ProducerOk(s, p);
  }

  lemma FlushIsQuiet(s: State, p: nat, dropping: bool)
    requires Inv(s) && p < |s.producers| && s.producers[p].pc.Idle?
    ensures Quiet(s, StartFlush(s, p, dropping), p)
  {
    var pr := s.producers[p];
    if pr.slice.None? {
      NoFlushIsQuiet(s, p, dropping);
    } else {
      assert ProducerOk(s, p);
      FlushIsLocal(s, p, dropping);
      PaddedValues(pr.local, pr.slice.value.size - |pr.local|);
      assert Unwritten(StartFlush(s, p, dropping).producers[p]) == pr.local + Padding(pr.slice.value.size - |pr.local|);
    }
  }

  lemma FlushKeepsInv(s: State, p: nat, dropping: bool)
    requires Inv(s) && p < |s.producers| && s.producers[p].pc.Idle?
    ensures Inv(StartFlush(s, p, dropping))
  {
    FlushIsQuiet(s, p, dropping);
    QuietKeepsInv(s, StartFlush(s, p, dropping), p);
  }

  lemma PushIsLocal(s: State, p: nat, v: Value)
    requires Inv(s) && p < |s.producers| && s.producers[p].pc.Idle? && s.producers[p].slice.Some?
    ensures Local(s, Push(s, p, v), p) && FreeDebt(Push(s, p, v)) == FreeDebt(s)
    ensures Unwritten(Push(s, p, v).producers[p]) == Unwritten(s.producers[p]) + [Some(v)]
  {
    assert ProducerOk(s, p);
    SameFreeDebt(s, Push(s, p, v), p);
  }

  lemma PushEffect(s: State, p: nat, v: Value)
    requires Threads(s) && p < |s.producers| == |s.sent| && s.producers[p].pc.Idle? && s.producers[p].slice.Some?
    ensures var s' := Push(s, p, v);
            && s'.stream == s.stream && s'.sent == s.sent[p := s.sent[p] + [v]]
            && s'.producers == s.producers[p := s'.producers[p]]
            && Unwritten(s'.producers[p]) == Unwritten(s.producers[p]) + [Some(v)]
  {
    assert ProducerOk(s, p);
  }

  lemma SendingExtends(written: seq<Value>, held: seq<Option<Value>>, v: Value)
    ensures written + Somes(held + [Some(v)]) == written + Somes(held) + [v]
  {
    SomesConcat(held, [Some(v)]);
    SomesOne(Some(v));
    assert written + (Somes(held) + [v]) == written + Somes(held) + [v];
  }

  lemma PushKeepsSent(s: State, p: nat, v: Value)
    requires Threads(s) && SentOk(s) && p < |s.producers| && s.producers[p].pc.Idle? && s.producers[p].slice.Some?
    ensures SentOk(Push(s, p, v))
  {
    var s' := Push(s, p, v);
    PushEffect(s, p, v);
    SendingExtends(From(s.stream, p), Unwritten(s.producers[p]), v);
    forall q | 0 <= q < |s'.producers| ensures SentBy(s', q) {
      assert SentBy(s, q);
    }
  }

  lemma PushKeepsInv(s: State, p: nat, v: Value)
    requires Inv(s) && p < |s.producers| && s.producers[p].pc.Idle? && s.producers[p].slice.Some?
    ensures Inv(Push(s, p, v))
  {
    var s' := Push(s, p, v);
    PushIsLocal(s, p, v);
    LocalKeepsMost(s, s', p);
    CountersFrame(s, s');
    PushKeepsSent(s, p, v);
  }

  // ------------------------------------------------------------------------- reservation

  /** Lowering `free` and releasing the tail lock settles the reservation's debt. */
  function Released(s: State, p: nat, slice: Slice): State
    requires p < |s.producers|
  {
    s.(free := s.free - slice.size, tailLock := None,
       producers := s.producers[p := Producer(Idle, s.producers[p].local, Some(slice))])
  }

  lemma ReleaseIsLocal(s: State, p: nat, v: Value, slice: Slice)
    requires Inv(s) && p < |s.producers| && s.producers[p].pc == Reserved(v, slice)
    ensures Local(s, Released(s, p, slice), p)
    ensures FreeDebt(s) == slice.size && FreeDebt(Released(s, p, slice)) == 0
  {
    assert ProducerOk(s, p);
    assert Owns(s, p);
  }

  lemma ReleaseKeepsInv(s: State, p: nat, v: Value, slice: Slice)
    requires Inv(s) && p < |s.producers| && s.producers[p].pc == Reserved(v, slice)
    ensures Inv(Released(s, p, slice))
  {
    var s' := Released(s, p, slice);
    ReleaseIsLocal(s, p, v, slice);
    LocalKeepsMost(s, s', p);
    SentFrame(s, s');
  }

  lemma {:induction false} FromExtend(stream: seq<Position>, more: seq<Position>, p: nat)
    requires forall x :: 0 <= x < |more| ==> more[x].written == None
    ensures From(stream + more, p) == From(stream, p)
    decreases |more|
  {
    if more == [] {
      assert stream + more == stream;
    } else {
      assert (stream + more)[..|stream + more| - 1] == stream + more[..|more| - 1];
      FromExtend(stream, more[..|more| - 1], p);
    }
  }

  /** Reserving: the stream grows by a slice that nothing is written to yet. */
  function Reserve(s: State, p: nat, v: Value, slice: Slice): State
    requires p < |s.producers|
  {
    At(s, p, ProducerPc.Reserved(v, slice)).(tail := s.tail + slice.size, reserved := s.reserved + slice.size,
                                             stream := s.stream + ReservedPositions(p, slice))
  }

  lemma ReserveKeepsStream(s: State, p: nat, v: Value, slice: Slice)
    requires Inv(s) && p < |s.producers| && s.producers[p].pc.ReadFree?
    requires slice.start == s.tail && slice.size > 0
    ensures StreamOk(Reserve(s, p, v, slice))
  {
    var s' := Reserve(s, p, v, slice);
    assert ProducerOk(s, p);
    forall x | 0 <= x < |s'.stream| ensures PositionOk(s', x) {
      if x < |s.stream| { assert PositionOk(s, x); assert s'.stream[x] == s.stream[x]; }
    }
    forall f | f in s'.filled ensures FilledOk(s'.stream, s'.readableTill, f) {
      assert FilledOk(s.stream, s.readableTill, f);
    }
    forall q | 0 <= q < |s'.producers| ensures Owns(s', q) {
      assert Owns(s, q);
    }
  }

  lemma ReserveKeepsThreads(s: State, p: nat, v: Value, slice: Slice)
    requires Inv(s) && p < |s.producers| && s.producers[p].pc.ReadFree?
    requires slice.start == s.tail && 0 < slice.size <= s.producers[p].pc.f
    ensures Threads(Reserve(s, p, v, slice)) && CountersOk(Reserve(s, p, v, slice)) && MergeOk(Reserve(s, p, v, slice))
  {
    var s' := Reserve(s, p, v, slice);
    assert ProducerOk(s, p);
    ThreadsFrame(s, s', p);
    MergeFrame(s, s', p);
  }

  lemma ReserveKeepsSent(s: State, p: nat, v: Value, slice: Slice)
    requires SentOk(s) && Threads(s) && p < |s.producers| && s.producers[p].pc.ReadFree?
    ensures SentOk(Reserve(s, p, v, slice))
  {
    var s' := Reserve(s, p, v, slice);
    forall q | 0 <= q < |s'.producers| ensures SentBy(s', q) {
      assert SentBy(s, q);
      FromExtend(s.stream, ReservedPositions(p, slice), q);
    }
  }

  lemma ReserveKeepsRing(s: State, p: nat, v: Value, slice: Slice)
    requires RingOk(s) && PoppedOk(s) && p < |s.producers|
    ensures PoppedOk(Reserve(s, p, v, slice)) && RingOk(Reserve(s, p, v, slice))
  {
    var s' := Reserve(s, p, v, slice);
    forall x | |s'.popped| <= x < |s'.popped| + s'.Cap() ensures s'.slots[x % s'.Cap()] == Expected(s', x) {
      assert Expected(s', x) == Expected(s, x);
    }
  }

  lemma ReserveKeepsInv(s: State, p: nat, v: Value, slice: Slice)
    requires Inv(s) && p < |s.producers| && s.producers[p].pc.ReadFree?
    requires slice.start == s.tail && 0 < slice.size <= s.producers[p].pc.f
    ensures Inv(Reserve(s, p, v, slice))
  {
    ReserveKeepsStream(s, p, v, slice);
    ReserveKeepsThreads(s, p, v, slice);
    ReserveKeepsSent(s, p, v, slice);
    ReserveKeepsRing(s, p, v, slice);
    ReserveKeepsConsumer(s, p, v, slice);
  }

  /** Nobody reserves after a disconnect: the reserving producer is alive. */
  lemma ReserveKeepsConsumer(s: State, p: nat, v: Value, slice: Slice)
    requires Inv(s) && p < |s.producers| && s.producers[p].pc.ReadFree?
    ensures ConsumerOk(Reserve(s, p, v, slice))
  {
    LivePositive(s.producers, p);
    LiveUpdate(s.producers, p, Reserve(s, p, v, slice).producers[p]);
  }

  // ---------------------------------------------------------------------------- cloning

  function Cloned(s: State): State {
    s.(producers := s.producers + [Producer(Idle, [], None)], sent := s.sent + [[]],
       producerCount := s.producerCount + 1)
  }

  lemma CloneKeepsInv(s: State, p: nat)
    requires Inv(s) && p < |s.producers| && s.producers[p].pc.Idle?
    ensures Inv(Cloned(s))
  {
    var s', n := Cloned(s), |s.producers|;
    LivePositive(s.producers, p);
    assert s'.producers[..n] == s.producers;
    forall q | 0 <= q < |s'.producers| ensures ProducerOk(s', q) {
      if q < n { assert ProducerOk(s, q); }
    }
    forall x | 0 <= x < |s'.stream| ensures PositionOk(s', x) {
      assert PositionOk(s, x);
    }
    forall q | 0 <= q < |s'.producers| ensures Owns(s', q) {
      if q < n {
        assert Owns(s, q);
      } else {
        forall x | 0 <= x < |s'.stream| ensures s'.stream[x].owner != q { assert PositionOk(s, x); }
      }
    }
    CloneKeepsSent(s);
    CountersFrame(s, s');
    RingFrame(s, s');
    if exists slice :: slice in s.filled && slice.start == s.readableTill {
      var q :| 0 <= q < |s.producers| && WillLook(s.producers[q].pc);
      assert WillLook(s'.producers[q].pc);
    }
  }

  lemma CloneKeepsSent(s: State)
    requires SentOk(s) && StreamOk(s)
    ensures SentOk(Cloned(s))
  {
    var s', n := Cloned(s), |s.producers|;
    forall x | 0 <= x < |s.stream| ensures s.stream[x].owner != n { assert PositionOk(s, x); }
    FromNobody(s.stream, n);
    forall q | 0 <= q < |s'.producers| ensures SentBy(s', q) {
      if q < n { assert SentBy(s, q); }
    }
  }

  lemma {:induction false} FromNobody(stream: seq<Position>, p: nat)
    requires forall x :: 0 <= x < |stream| ==> stream[x].owner != p
    ensures From(stream, p) == []
  {
    if stream != [] { FromNobody(stream[..|stream| - 1], p); }
  }

  // ---------------------------------------------------------------------------- storing

  function Stored(s: State, p: nat, items: seq<Option<Value>>, start: nat, done: nat, dropping: bool): State
    requires p < |s.producers| && s.Cap() > 0 && done < |items|
  {
    StoreStep(s, p, items, start, done, dropping)
  }

  lemma {:induction false} FromSplit(xs: seq<Position>, ys: seq<Position>, p: nat)
    ensures From(xs + ys, p) == From(xs, p) + From(ys, p)
    decreases |ys|
  {
    if ys == [] {
      assert xs + ys == xs;
    } else {
      assert (xs + ys)[..|xs + ys| - 1] == xs + ys[..|ys| - 1];
      FromSplit(xs, ys[..|ys| - 1], p);
    }
  }

  lemma {:induction false} FromUnwritten(stream: seq<Position>, p: nat)
    requires forall x :: 0 <= x < |stream| ==> stream[x].owner != p || stream[x].written.None?
    ensures From(stream, p) == []
  {
    if stream != [] { FromUnwritten(stream[..|stream| - 1], p); }
  }

  lemma FromOne(pos: Position, p: nat)
    ensures From([pos], p)
            == if pos.owner == p && pos.written.Some? && pos.written.value.Some? then [pos.written.value.value] else []
  {
    assert [pos][..0] == [];
    assert From([pos][..0], p) == [];
  }

  /** Writing the next item of a producer's latest slice appends to what it has written, and
      leaves what others have written alone. */
  lemma FromWrite(stream: seq<Position>, x: nat, item: Option<Value>, q: nat)
    requires x < |stream| && stream[x].written.None?
    requires forall y :: x < y < |stream| && stream[y].owner == stream[x].owner ==> stream[y].written.None?
    ensures From(stream[x := stream[x].(written := Some(item))], q)
            == From(stream, q) + (if q == stream[x].owner then Somes([item]) else [])
  {
    var pos := stream[x].(written := Some(item));
    var before, after := stream[..x], stream[x + 1..];
    FromAround(before, stream[x], after, q);
    FromAround(before, pos, after, q);
    assert stream == before + [stream[x]] + after;
    assert stream[x := pos] == before + [pos] + after;
    SomesOne(item);
    if q == stream[x].owner { FromUnwritten(after, q); }
    WrittenLast(From(before, q), From(after, q), if q == stream[x].owner then Somes([item]) else []);
  }

  lemma WrittenLast(before: seq<Value>, after: seq<Value>, one: seq<Value>)
    requires after == [] || one == []
    ensures before + one + after == (before + [] + after) + one
  {
  }

  lemma FromAround(before: seq<Position>, pos: Position, after: seq<Position>, q: nat)
    ensures From(before + [pos] + after, q)
            == From(before, q)
               + (if pos.owner == q && pos.written.Some? && pos.written.value.Some?
                  then [pos.written.value.value] else [])
               + From(after, q)
  {
    FromSplit(before + [pos], after, q);
    FromSplit(before, [pos], q);
    FromOne(pos, q);
  }

  lemma StoreKeepsStream(s: State, p: nat, items: seq<Option<Value>>, start: nat, done: nat, dropping: bool)
    requires StreamOk(s) && s.Cap() > 0 && p < |s.producers|
    requires s.producers[p].pc == Storing(items, start, done, dropping) && done < |items|
    ensures StreamOk(Stored(s, p, items, start, done, dropping))
  {
    var s', x := Stored(s, p, items, start, done, dropping), start + done;
    assert Owns(s, p);
    forall y | 0 <= y < |s'.stream| ensures PositionOk(s', y) {
      assert PositionOk(s, y);
    }
    forall f | f in s'.filled ensures FilledOk(s'.stream, s'.readableTill, f) {
      assert FilledOk(s.stream, s.readableTill, f);
    }
    forall q | 0 <= q < |s'.producers| ensures Owns(s', q) {
      assert Owns(s, q);
    }
  }

  lemma StoreKeepsSent(s: State, p: nat, items: seq<Option<Value>>, start: nat, done: nat, dropping: bool)
    requires StreamOk(s) && SentOk(s) && s.Cap() > 0 && p < |s.producers|
    requires s.producers[p].pc == Storing(items, start, done, dropping) && done < |items|
    ensures SentOk(Stored(s, p, items, start, done, dropping))
  {
    var s', x := Stored(s, p, items, start, done, dropping), start + done;
    assert Owns(s, p);
    NextToWrite(s, p, start, done);
    assert s'.stream == s.stream[x := s.stream[x].(written := Some(items[done]))];
    forall q | 0 <= q < |s'.producers| ensures SentBy(s', q) {
      assert SentBy(s, q);
      FromWrite(s.stream, x, items[done], q);
      if q == p { StoreMoves(From(s.stream, p), items, done); }
    }
  }

  /** Storing an item moves it from what the producer holds back to what it has written. */
  lemma StoreMoves(written: seq<Value>, items: seq<Option<Value>>, done: nat)
    requires done < |items|
    ensures written + Somes([items[done]]) + Somes(items[done + 1..]) == written + Somes(items[done..])
  {
    assert items[done..] == [items[done]] + items[done + 1..];
    SomesConcat([items[done]], items[done + 1..]);
    var one, rest := Somes([items[done]]), Somes(items[done + 1..]);
    assert written + one + rest == written + (one + rest);
  }

  /** The next position of a slice being stored is unwritten, and so is all the producer owns
      behind it. */
  lemma NextToWrite(s: State, p: nat, start: nat, done: nat)
    requires p < |s.producers| && Owns(s, p) && s.producers[p].pc.Storing?
    requires s.producers[p].pc.start == start && s.producers[p].pc.done == done < |s.producers[p].pc.items|
    ensures var x := start + done;
            && x < |s.stream| && s.stream[x].owner == p && s.stream[x].written.None?
            && forall y :: x < y < |s.stream| && s.stream[y].owner == p ==> s.stream[y].written.None?
  {
  }

  /** The unread part of the stream fits into the ring. */
  lemma FitsRing(s: State)
    requires CountersOk(s)
    ensures s.tail <= |s.popped| + s.Cap()
  {
  }

  lemma StoreKeepsRing(s: State, p: nat, items: seq<Option<Value>>, start: nat, done: nat, dropping: bool)
    requires StreamOk(s) && CountersOk(s) && RingOk(s) && PoppedOk(s) && p < |s.producers|
    requires s.producers[p].pc == Storing(items, start, done, dropping) && done < |items|
    ensures s.slots[(start + done) % s.Cap()] == Empty
    ensures RingOk(Stored(s, p, items, start, done, dropping)) && PoppedOk(Stored(s, p, items, start, done, dropping))
  {
    var s', x := Stored(s, p, items, start, done, dropping), start + done;
    assert Owns(s, p);
    FitsRing(s);
    assert s.slots[x % s.Cap()] == Expected(s, x) == Empty;
    forall y | |s'.popped| <= y < |s'.popped| + s'.Cap() ensures s'.slots[y % s'.Cap()] == Expected(s', y) {
      assert s.slots[y % s.Cap()] == Expected(s, y);
      if x < y { DistinctSlots(x, y, s.Cap()); } else if y < x { DistinctSlots(y, x, s.Cap()); }
    }
  }

  lemma StoreOnlyMoves(s: State, p: nat, items: seq<Option<Value>>, start: nat, done: nat, dropping: bool)
    requires Threads(s) && s.Cap() > 0 && p < |s.producers|
    requires s.producers[p].pc == Storing(items, start, done, dropping) && done < |items|
    ensures var s' := Stored(s, p, items, start, done, dropping);
            && OnlyMoves(s, s', p) && ProducerOk(s', p) && s'.Cap() == s.Cap()
            && s' == s.(producers := s'.producers, slots := s'.slots, fault := s'.fault, stream := s'.stream)
            && s'.producers[p].pc.Storing?
  {
    assert ProducerOk(s, p);
  }

  lemma StoreKeepsInv(s: State, p: nat, items: seq<Option<Value>>, start: nat, done: nat, dropping: bool)
    requires Inv(s) && p < |s.producers|
    requires s.producers[p].pc == Storing(items, start, done, dropping) && done < |items|
    ensures Inv(Stored(s, p, items, start, done, dropping))
  {
    var s' := Stored(s, p, items, start, done, dropping);
    StoreKeepsStream(s, p, items, start, done, dropping);
    StoreKeepsSent(s, p, items, start, done, dropping);
    StoreKeepsRing(s, p, items, start, done, dropping);
    StoreOnlyMoves(s, p, items, start, done, dropping);
    ThreadsFrame(s, s', p);
    CountersFrame(s, s');
    MergeFrame(s, s', p);
    ConsumerFrame(s, s', p);
  }

  /** A fully stored slice goes to the merge loop. */
  lemma HandOverKeepsInv(s: State, p: nat, items: seq<Option<Value>>, start: nat, done: nat, dropping: bool)
    requires Inv(s) && p < |s.producers|
    requires s.producers[p].pc == Storing(items, start, done, dropping) && done >= |items|
    ensures Inv(StoreStep(s, p, items, start, done, dropping))
  {
    var s' := StoreStep(s, p, items, start, done, dropping);
    assert ProducerOk(s, p);
    HandOverStream(s, p, items, start, done, dropping);
    CountersFrame(s, s');
    RingFrame(s, s');
    MergeFrame(s, s', p);
    ConsumerFrame(s, s', p);
  }

  lemma HandOverStream(s: State, p: nat, items: seq<Option<Value>>, start: nat, done: nat, dropping: bool)
    requires Threads(s) && StreamOk(s) && SentOk(s) && p < |s.producers| && s.Cap() > 0
    requires s.producers[p].pc == Storing(items, start, done, dropping) && done >= |items|
    ensures var s' := StoreStep(s, p, items, start, done, dropping);
            Threads(s') && StreamOk(s') && SentOk(s') && OnlyMoves(s, s', p)
  {
    var s' := StoreStep(s, p, items, start, done, dropping);
    assert ProducerOk(s, p);
    assert items[done..] == [];
    ThreadsFrame(s, s', p);
    StreamFrame(s, s');
    SentFrame(s, s');
  }

  // ---------------------------------------------------------------------------- merging

  /** The state after one merge step of producer `p`. */
  ghost function Merged(s: State, p: nat, m: MergePc, dropping: bool): State
    requires p < |s.producers| && MergeEnabled(s, m)
  {
    var (s1, next) := MergeStep(s, TheProducer(p), m);
    At(s1, p, if next.Some? then Merging(next.value, dropping) else if dropping then Closing else Idle)
  }

  lemma InsertKeepsStream(s: State, p: nat, slice: Option<Slice>, dropping: bool)
    requires StreamOk(s) && Threads(s) && p < |s.producers| && s.producers[p].pc == Merging(Enter(slice), dropping)
    requires s.filledLock == None
    ensures StreamOk(Merged(s, p, Enter(slice), dropping))
  {
    var s' := Merged(s, p, Enter(slice), dropping);
    assert Owns(s, p) && ProducerOk(s, p);
    forall x | 0 <= x < |s'.stream| ensures PositionOk(s', x) {
      assert PositionOk(s, x);
    }
    forall f | f in s'.filled ensures FilledOk(s'.stream, s'.readableTill, f) {
      if f in s.filled { assert FilledOk(s.stream, s.readableTill, f); }
    }
    forall q | 0 <= q < |s'.producers| ensures Owns(s', q) {
      assert Owns(s, q);
      if q != p && slice.Some? { HeldApart(s, p, q); }
    }
  }

  /** Different producers hold different slices. */
  lemma HeldApart(s: State, p: nat, q: nat)
    requires p < |s.producers| && q < |s.producers| && p != q && Owns(s, p) && Owns(s, q)
    requires Held(s.producers[p]).Some?
    ensures Held(s.producers[p]) != Held(s.producers[q])
  {
    var slice := Held(s.producers[p]).value;
    assert s.stream[slice.start].owner == p;
  }

  lemma InsertKeepsInv(s: State, p: nat, slice: Option<Slice>, dropping: bool)
    requires Inv(s) && p < |s.producers| && s.producers[p].pc == Merging(Enter(slice), dropping)
    requires s.filledLock == None
    ensures Inv(Merged(s, p, Enter(slice), dropping))
  {
    var s' := Merged(s, p, Enter(slice), dropping);
    InsertKeepsStream(s, p, slice, dropping);
    assert ProducerOk(s, p);
    ThreadsFrame(s, s', p);
    CountersFrame(s, s');
    RingFrame(s, s');
    SentFrame(s, s');
    assert WillLook(s'.producers[p].pc);
    ConsumerFrame(s, s', p);
  }

  lemma SliceAt(stream: seq<Position>, readableTill: nat, slice: Slice, x: nat)
    requires FilledOk(stream, readableTill, slice) && x < |stream|
    ensures Inside(slice, x) ==> stream[x].slice == slice
  {
  }

  /** Slices share no position: two that do are the same. */
  lemma FilledApart(stream: seq<Position>, readableTill: nat, a: Slice, b: Slice)
    requires FilledOk(stream, readableTill, a) && FilledOk(stream, readableTill, b)
    requires a.start == readableTill && a != b
    ensures b.start >= End(a)
  {
    SliceAt(stream, readableTill, a, b.start);
  }

  lemma HeldPastFilled(s: State, q: nat, slice: Slice)
    requires q < |s.producers| && Owns(s, q) && slice in s.filled && FilledOk(s.stream, s.readableTill, slice)
    requires slice.start == s.readableTill
    ensures Held(s.producers[q]).Some? ==> Held(s.producers[q]).value.start >= End(slice)
  {
    if Held(s.producers[q]).Some? {
      var held := Held(s.producers[q]).value;
      assert s.stream[held.start].slice == held;
      SliceAt(s.stream, s.readableTill, slice, held.start);
    }
  }

  lemma AdvanceKeepsStream(s: State, p: nat, dropping: bool)
    requires StreamOk(s) && p < |s.producers| && s.producers[p].pc == Merging(Locked, dropping)
    requires s.filled != {} && Lowest(s.filled).start == s.readableTill
    ensures StreamOk(Merged(s, p, Locked, dropping))
  {
    var s', slice := Merged(s, p, Locked, dropping), Lowest(s.filled);
    assert FilledOk(s.stream, s.readableTill, slice);
    forall x | 0 <= x < |s'.stream| ensures PositionOk(s', x) {
      assert PositionOk(s, x);
    }
    forall f | f in s'.filled ensures FilledOk(s'.stream, s'.readableTill, f) {
      assert FilledOk(s.stream, s.readableTill, f);
      FilledApart(s.stream, s.readableTill, slice, f);
    }
    forall q | 0 <= q < |s'.producers| ensures Owns(s', q) {
      assert Owns(s, q);
      HeldPastFilled(s, q, slice);
    }
  }

  lemma AdvanceKeepsInv(s: State, p: nat, dropping: bool)
    requires Inv(s) && p < |s.producers| && s.producers[p].pc == Merging(Locked, dropping)
    requires s.filled != {} && Lowest(s.filled).start == s.readableTill
    ensures Inv(Merged(s, p, Locked, dropping))
  {
    var s' := Merged(s, p, Locked, dropping);
    AdvanceKeepsStream(s, p, dropping);
    assert ProducerOk(s, p);
    ThreadsFrame(s, s', p);
    RingFrame(s, s');
    SentFrame(s, s');
    assert WillLook(s'.producers[p].pc);
    ConsumerFrame(s, s', p);
  }

  /** A thread only leaves the merge loop when no slice can be merged. */
  lemma NoneAtFrontier(s: State, slice: Slice)
    requires StreamOk(s) && slice in s.filled
    requires s.filled != {} && Lowest(s.filled).start != s.readableTill
    ensures slice.start != s.readableTill
  {
    assert FilledOk(s.stream, s.readableTill, Lowest(s.filled));
    assert Below(Lowest(s.filled), slice);
  }

  lemma LeaveKeepsInv(s: State, p: nat, dropping: bool)
    requires Inv(s) && p < |s.producers| && s.producers[p].pc == Merging(Locked, dropping)
    requires s.filled == {} || Lowest(s.filled).start != s.readableTill
    ensures Inv(Merged(s, p, Locked, dropping))
  {
    var s' := Merged(s, p, Locked, dropping);
    assert ProducerOk(s, p);
    ThreadsFrame(s, s', p);
    StreamFrame(s, s');
    CountersFrame(s, s');
    RingFrame(s, s');
    SentFrame(s, s');
    forall slice | slice in s'.filled ensures slice.start != s'.readableTill { NoneAtFrontier(s, slice); }
    ConsumerFrame(s, s', p);
  }

  lemma CountKeepsStream(s: State, p: nat, m: MergePc, dropping: bool)
    requires Inv(s) && p < |s.producers| && s.producers[p].pc == Merging(m, dropping)
    requires m.Moved? || m.Counted?
    ensures var s' := Merged(s, p, m, dropping);
            Threads(s') && StreamOk(s') && SentOk(s') && OnlyMoves(s, s', p) && MergeOk(s')
  {
    var s' := Merged(s, p, m, dropping);
    assert ProducerOk(s, p);
    ThreadsFrame(s, s', p);
    StreamFrame(s, s');
    SentFrame(s, s');
    MergeFrame(s, s', p);
  }

  lemma CountKeepsCounters(s: State, p: nat, m: MergePc, dropping: bool)
    requires Threads(s) && CountersOk(s) && p < |s.producers| && s.producers[p].pc == Merging(m, dropping)
    requires m.Moved? || m.Counted?
    ensures CountersOk(Merged(s, p, m, dropping))
  {
    assert ProducerOk(s, p);
  }

  lemma CountKeepsInv(s: State, p: nat, m: MergePc, dropping: bool)
    requires Inv(s) && p < |s.producers| && s.producers[p].pc == Merging(m, dropping)
    requires m.Moved? || m.Counted?
    ensures Inv(Merged(s, p, m, dropping))
  {
    var s' := Merged(s, p, m, dropping);
    CountKeepsStream(s, p, m, dropping);
    CountKeepsCounters(s, p, m, dropping);
    RingFrame(s, s');
    ConsumerFrame(s, s', p);
  }

  lemma CloseKeepsInv(s: State, p: nat)
    requires Inv(s) && p < |s.producers| && s.producers[p].pc.Closing?
    ensures Inv(At(s, p, Dead).(producerCount := s.producerCount - 1))
  {
    var s' := At(s, p, Dead).(producerCount := s.producerCount - 1);
    assert ProducerOk(s, p);
    LiveUpdate(s.producers, p, s'.producers[p]);
    LivePositive(s.producers, p);
    ThreadsFrame(s, s', p);
    StreamFrame(s, s');
    CountersFrame(s, s');
    RingFrame(s, s');
    SentFrame(s, s');
    MergeFrame(s, s', p);
  }

  // ------------------------------------------------------------------------ the producers

  lemma MergeKeepsInv(s: State, p: nat, m: MergePc, dropping: bool)
    requires Inv(s) && p < |s.producers| && s.producers[p].pc == Merging(m, dropping) && MergeEnabled(s, m)
    ensures Inv(Merged(s, p, m, dropping))
  {
    match m
    case Enter(slice) => InsertKeepsInv(s, p, slice, dropping);
    case Locked =>
      if s.filled != {} && Lowest(s.filled).start == s.readableTill {
        AdvanceKeepsInv(s, p, dropping);
      } else {
        LeaveKeepsInv(s, p, dropping);
      }
    case _ => CountKeepsInv(s, p, m, dropping);
  }

  lemma IdleKeepsInv(s: State, p: nat, call: Call)
    requires Inv(s) && ProducerEnabled(s, p, call) && s.producers[p].pc.Idle?
    ensures Inv(IdleStep(s, p, call))
  {
    match call
    case Send(v) =>
      if s.producers[p].slice.Some? {
        PushKeepsInv(s, p, v);
      } else {
        assert ProducerOk(s, p);
        QuietKeepsInv(s, At(s, p, Applying(v)), p);
      }
    case Flush => FlushKeepsInv(s, p, false);
    case Clone => CloneKeepsInv(s, p);
    case Drop => FlushKeepsInv(s, p, true);
    case _ =>
  }

  /** The steps of `apply` that only move the producer. */
  lemma ApplyKeepsInv(s: State, p: nat, call: Call)
    requires Inv(s) && ProducerEnabled(s, p, call)
    requires var pc := s.producers[p].pc;
             pc.Applying? || pc.HasTail? || pc.CheckConsumer? || (pc.ReadFree? && pc.f <= 0)
    ensures Inv(ProducerStep(s, p, call))
  {
    assert ProducerOk(s, p);
    QuietKeepsInv(s, ProducerStep(s, p, call), p);
  }

  lemma ReadFreeKeepsInv(s: State, p: nat, call: Call)
    requires Inv(s) && ProducerEnabled(s, p, call) && s.producers[p].pc.ReadFree?
    ensures Inv(ProducerStep(s, p, call))
  {
    var ReadFree(v, f) := s.producers[p].pc;
    if f > 0 {
      var slice := Slice(s.tail, Least(APPLY_SIZE, f));
      assert ProducerStep(s, p, call) == Reserve(s, p, v, slice);
      ReserveKeepsInv(s, p, v, slice);
    } else {
      ApplyKeepsInv(s, p, call);
    }
  }

  lemma ReservedKeepsInv(s: State, p: nat, call: Call)
    requires Inv(s) && ProducerEnabled(s, p, call) && s.producers[p].pc.Reserved?
    ensures Inv(ProducerStep(s, p, call))
  {
    var v, slice := s.producers[p].pc.v, s.producers[p].pc.slice;
    ReleaseKeepsInv(s, p, v, slice);
    assert ProducerStep(s, p, call) == Push(Released(s, p, slice), p, v);
    PushKeepsInv(Released(s, p, slice), p, v);
  }

  lemma StoringKeepsInv(s: State, p: nat, call: Call)
    requires Inv(s) && ProducerEnabled(s, p, call) && s.producers[p].pc.Storing?
    ensures Inv(ProducerStep(s, p, call))
  {
    var Storing(items, start, done, dropping) := s.producers[p].pc;
    if done < |items| {
      StoreKeepsInv(s, p, items, start, done, dropping);
    } else {
      HandOverKeepsInv(s, p, items, start, done, dropping);
    }
  }

  lemma MergingKeepsInv(s: State, p: nat, call: Call)
    requires Inv(s) && ProducerEnabled(s, p, call) && s.producers[p].pc.Merging?
    ensures Inv(ProducerStep(s, p, call))
  {
    var Merging(m, dropping) := s.producers[p].pc;
    MergeKeepsInv(s, p, m, dropping);
  }

  lemma ProducerKeepsInv(s: State, p: nat, call: Call)
    requires Inv(s) && ProducerEnabled(s, p, call)
    ensures Inv(ProducerStep(s, p, call))
  {
    match s.producers[p].pc
    case Idle => IdleKeepsInv(s, p, call);
    case ReadFree(_, _) => ReadFreeKeepsInv(s, p, call);
    case Reserved(_, _) => ReservedKeepsInv(s, p, call);
    case Storing(_, _, _, _) => StoringKeepsInv(s, p, call);
    case Merging(_, _) => MergingKeepsInv(s, p, call);
    case Closing => CloseKeepsInv(s, p);
    case Dead =>
    case _ => ApplyKeepsInv(s, p, call);
  }
}
