/** The bounded multi-producer channel with producer-side caches, as a transition system: one
    step per atomic operation, lock acquisition or slot access of any thread, in any
    interleaving. Producers reserve slices of the ring under the tail lock, collect values
    privately, write them into their slice, and hand the slice to a merge loop that advances
    the readable frontier. */
module CachedMpsc {
  import opened Options
  import opened Payload

  /** What producers apply for. */
  const APPLY_SIZE: nat := 32

  /** A slice of the ring: its start (an ever growing position) and its size. */
  datatype Slice = Slice(start: nat, size: nat)

  /** A slot holds nothing usable, or what a producer wrote: a value or padding. */
  datatype Slot = Empty | Cell(item: Option<Value>)

  datatype Thread = TheConsumer | TheProducer(p: nat)

  /** Where a thread is in the merge loop. */
  datatype MergePc =
    | Enter(slice: Option<Slice>)  // about to take the lock and insert the slice, if any
    | Locked                       // holds the lock, about to try the lowest slice
    | Moved(size: nat)             // moved the frontier, about to raise len
    | Counted(size: nat)           // raised len, about to lower reserved and release the lock

  datatype ProducerPc =
    | Idle
    | Applying(v: Value)                          // about to take the tail lock
    | HasTail(v: Value)                           // holds it, about to read free
    | ReadFree(v: Value, f: int)                  // has read free, about to reserve
    | Reserved(v: Value, slice: Slice)            // has reserved, about to lower free and unlock
    | CheckConsumer(v: Value)                     // found the ring full
    | Storing(items: seq<Option<Value>>, start: nat, done: nat, dropping: bool)
    | Merging(m: MergePc, dropping: bool)
    | Closing                                     // flushed, about to lower the producer count
    | Dead

  datatype Producer = Producer(pc: ProducerPc, local: seq<Option<Value>>, slice: Option<Slice>)

  datatype ConsumerPc =
    | AtRest
    | CheckLen                      // the loop condition
    | ReadProducers                 // len was 0
    | CheckLenAgain(producers: bool)
    | ReadReserved                  // no producers, and len still 0
    | FallbackMerge(m: MergePc)
    | Bump                          // len was positive
    | Load(pos: nat)
    | LowerLen(item: Option<Value>)
    | RaiseFree(item: Option<Value>)
    | Gone

  /** What position `x` of the stream was reserved for, and what was written there. */
  datatype Position = Position(owner: nat, slice: Slice, written: Option<Option<Value>>)

  datatype State = State(
    slots: seq<Slot>,
    head: nat,
    tail: nat,
    readableTill: nat,
    len: int,
    reserved: int,
    free: int,
    filled: set<Slice>,
    tailLock: Option<nat>,
    filledLock: Option<Thread>,
    producerCount: int,
    consumerExists: bool,
    producers: seq<Producer>,
    consumer: ConsumerPc,
    // History, which no step looks at: the stream of reserved positions, what each producer
    // has sent, what has been popped, whether a send was refused or the consumer told of a
    // disconnect, and whether a store has ever hit an unread value or a load an unwritten slot.
    stream: seq<Position>,
    sent: seq<seq<Value>>,
    popped: seq<Option<Value>>,
    refused: bool,
    disconnected: bool,
    fault: bool)
  {
    function Cap(): nat { |slots| }
  }

  /** What the owner of an idle producer or consumer handle does next. */
  datatype Call = Send(v: Value) | Flush | Clone | Drop | Recv | Continue

  datatype Action = Action(thread: Thread, call: Call)

  function Init(cap: nat): State
    requires cap > 0
  {
    State(seq(cap, _ => Empty), 0, 0, 0, 0, 0, cap, {}, None, None, 1, true,
          [Producer(Idle, [], None)], AtRest, [], [[]], [], false, false, false)
  }

  function At(s: State, p: nat, pc: ProducerPc): State
    requires p < |s.producers|
  {
    s.(producers := s.producers[p := s.producers[p].(pc := pc)])
  }

  // ------------------------------------------------------------------- the merge loop

  /** The order of the set: by start, then by size. */
  predicate Below(a: Slice, b: Slice) {
    a.start < b.start || (a.start == b.start && a.size <= b.size)
  }

  predicate IsLowest(filled: set<Slice>, slice: Slice) {
    slice in filled && forall t :: t in filled ==> Below(slice, t)
  }

  lemma {:induction false} LowestExists(filled: set<Slice>)
    requires filled != {}
    ensures exists slice :: IsLowest(filled, slice)
  {
    var x: Slice :| x in filled;
    var rest := filled - {x};
    if rest == {} {
      assert filled == {x};
      assert IsLowest(filled, x);
    } else {
      LowestExists(rest);
      var y :| IsLowest(rest, y);
      var low := if Below(x, y) then x else y;
      forall t | t in filled ensures Below(low, t) {
        assert t == x || t in rest;
      }
      assert IsLowest(filled, low);
    }
  }

  ghost function Lowest(filled: set<Slice>): (slice: Slice)
    requires filled != {}
    ensures IsLowest(filled, slice)
  {
    LowestExists(filled);
    var slice :| IsLowest(filled, slice);
    slice
  }

  predicate MergeEnabled(s: State, m: MergePc) {
    m.Enter? ==> s.filledLock == None
  }

  /** One step of the merge loop; the second component is where the thread is then, `None` if
      it has left the loop. */
  ghost function MergeStep(s: State, t: Thread, m: MergePc): (State, Option<MergePc>)
    requires MergeEnabled(s, m)
  {
    match m
    case Enter(slice) =>
      var filled := if slice.Some? then s.filled + {slice.value} else s.filled;
      (s.(filledLock := Some(t), filled := filled), Some(Locked))
    case Locked =>
      if s.filled != {} && Lowest(s.filled).start == s.readableTill then
        var slice := Lowest(s.filled);
        (s.(readableTill := slice.start + slice.size, filled := s.filled - {slice}), Some(Moved(slice.size)))
      else
        (s.(filledLock := None), None)
    case Moved(size) => (s.(len := s.len + size), Some(Counted(size)))
    case Counted(size) => (s.(reserved := s.reserved - size, filledLock := None), Some(Enter(None)))
  }

  // -------------------------------------------------------------------------- producers

  function Least(a: int, b: int): int { if a < b then a else b }

  /** Collects a value in the local buffer, and starts flushing once the slice is full. */
  function Push(s: State, p: nat, v: Value): State
    requires p < |s.producers| && p < |s.sent| && s.producers[p].slice.Some?
  {
    var pr := s.producers[p];
    var local, slice := pr.local + [Some(v)], pr.slice.value;
    var s1 := s.(sent := s.sent[p := s.sent[p] + [v]]);
    if |local| == slice.size then
      s1.(producers := s.producers[p := Producer(Storing(local, slice.start, 0, false), [], pr.slice)])
    else
      s1.(producers := s.producers[p := Producer(Idle, local, pr.slice)])
  }

  function Padding(n: nat): seq<Option<Value>> {
    seq(n, _ => None)
  }

  /** Flushing pads the local buffer to the size of the slice. */
  function StartFlush(s: State, p: nat, dropping: bool): State
    requires p < |s.producers|
  {
    var pr := s.producers[p];
    match pr.slice
    case None => At(s, p, if dropping then Closing else Idle)
    case Some(slice) =>
      var items := pr.local + Padding(if |pr.local| < slice.size then slice.size - |pr.local| else 0);
      s.(producers := s.producers[p := Producer(Storing(items, slice.start, 0, dropping), [], pr.slice)])
  }

  predicate ProducerEnabled(s: State, p: nat, call: Call) {
    && p < |s.producers| == |s.sent| && s.Cap() > 0
    && match s.producers[p].pc
       case Idle => call.Send? || call.Flush? || call.Clone? || call.Drop?
       case Applying(_) => call.Continue? && s.tailLock == None
       case Merging(m, _) => call.Continue? && MergeEnabled(s, m)
       case Dead => false
       case _ => call.Continue?
  }

  function ReservedPositions(p: nat, slice: Slice): seq<Position> {
    seq(slice.size, _ => Position(p, slice, None))
  }

  ghost function ProducerStep(s: State, p: nat, call: Call): State
    requires ProducerEnabled(s, p, call)
  {
    var pr := s.producers[p];
    match pr.pc
    case Idle => IdleStep(s, p, call)
    case Applying(v) => At(s, p, HasTail(v)).(tailLock := Some(p))
    case HasTail(v) => At(s, p, ReadFree(v, s.free))
    case ReadFree(v, f) =>
      if f > 0 then
        var size := Least(APPLY_SIZE, f);
        var slice := Slice(s.tail, size);
        At(s, p, Reserved(v, slice)).(tail := s.tail + size, reserved := s.reserved + size,
                                      stream := s.stream + ReservedPositions(p, slice))
      else
        At(s, p, CheckConsumer(v)).(tailLock := None)
    case Reserved(v, slice) =>
      var s1 := s.(free := s.free - slice.size, tailLock := None,
                   producers := s.producers[p := Producer(Idle, pr.local, Some(slice))]);
      Push(s1, p, v)
    case CheckConsumer(v) =>
      if s.consumerExists then At(s, p, Applying(v)) else At(s, p, Idle).(refused := true)
    case Storing(items, start, done, dropping) => StoreStep(s, p, items, start, done, dropping)
    case Merging(m, dropping) =>
      var (s1, next) := MergeStep(s, TheProducer(p), m);
      At(s1, p, if next.Some? then Merging(next.value, dropping) else if dropping then Closing else Idle)
    case Closing => At(s, p, Dead).(producerCount := s.producerCount - 1)
    case Dead => s
  }

  function IdleStep(s: State, p: nat, call: Call): State
    requires p < |s.producers| == |s.sent|
  {
    match call
    case Send(v) => if s.producers[p].slice.Some? then Push(s, p, v) else At(s, p, Applying(v))
    case Flush => StartFlush(s, p, false)
    case Clone =>
      s.(producers := s.producers + [Producer(Idle, [], None)], sent := s.sent + [[]],
         producerCount := s.producerCount + 1)
    case Drop => StartFlush(s, p, true)
    case _ => s
  }

  /** Writes one slot of the slice; when all are written the slice goes to the merge loop. */
  function StoreStep(s: State, p: nat, items: seq<Option<Value>>, start: nat, done: nat, dropping: bool): State
    requires p < |s.producers| && s.Cap() > 0
  {
    if done < |items| then
      var x := start + done;
      At(s, p, Storing(items, start, done + 1, dropping)).(
        slots := s.slots[x % s.Cap() := Cell(items[done])],
        fault := s.fault || s.slots[x % s.Cap()].Cell?,
        stream := if x < |s.stream| then s.stream[x := s.stream[x].(written := Some(items[done]))] else s.stream)
    else
      s.(producers := s.producers[p := Producer(Merging(Enter(Some(Slice(start, |items|))), dropping), [], None)])
  }

  // --------------------------------------------------------------------------- consumer

  predicate ConsumerEnabled(s: State, call: Call) {
    && s.Cap() > 0
    && match s.consumer
       case AtRest => call.Recv? || call.Drop?
       case FallbackMerge(m) => call.Continue? && MergeEnabled(s, m)
       case Gone => false
       case _ => call.Continue?
  }

  ghost function ConsumerStep(s: State, call: Call): State
    requires ConsumerEnabled(s, call)
  {
    match s.consumer
    case AtRest =>
      if call.Recv? then s.(consumer := CheckLen) else s.(consumer := Gone, consumerExists := false)
    case CheckLen => s.(consumer := if s.len == 0 then ReadProducers else Bump)
    case ReadProducers => s.(consumer := CheckLenAgain(s.producerCount > 0))
    case CheckLenAgain(producers) =>
      s.(consumer := if s.len != 0 then Bump else if producers then CheckLen else ReadReserved)
    case ReadReserved =>
      if s.reserved > 0 then s.(consumer := FallbackMerge(Enter(None)))
      else s.(consumer := AtRest, disconnected := true)
    case FallbackMerge(m) =>
      var (s1, next) := MergeStep(s, TheConsumer, m);
      s1.(consumer := if next.Some? then FallbackMerge(next.value) else CheckLen)
    case Bump => s.(consumer := Load(s.head), head := s.head + 1)
    case Load(pos) =>
      var slot := s.slots[pos % s.Cap()];
      var item := if slot.Cell? then slot.item else None;
      s.(consumer := LowerLen(item), slots := s.slots[pos % s.Cap() := Empty], popped := s.popped + [item],
         fault := s.fault || slot.Empty?)
    case LowerLen(item) => s.(consumer := RaiseFree(item), len := s.len - 1)
    case RaiseFree(item) => s.(consumer := if item.Some? then AtRest else CheckLen, free := s.free + 1)
    case Gone => s
  }

  // -------------------------------------------------------------------------------- runs

  predicate Enabled(s: State, a: Action) {
    match a.thread
    case TheProducer(p) => ProducerEnabled(s, p, a.call)
    case TheConsumer => ConsumerEnabled(s, a.call)
  }

  ghost function Step(s: State, a: Action): State
    requires Enabled(s, a)
  {
    match a.thread
    case TheProducer(p) => ProducerStep(s, p, a.call)
    case TheConsumer => ConsumerStep(s, a.call)
  }

  ghost predicate IsRun(states: seq<State>, actions: seq<Action>, cap: nat) {
    && cap > 0 && |states| == |actions| + 1 && states[0] == Init(cap)
    && forall i :: 0 <= i < |actions| ==> StepOf(states, actions, i)
  }

  ghost predicate StepOf(states: seq<State>, actions: seq<Action>, i: nat)
    requires |states| == |actions| + 1 && i < |actions|
  {
    Enabled(states[i], actions[i]) && states[i + 1] == Step(states[i], actions[i])
  }
}
