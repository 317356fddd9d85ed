/** The ring of the cached channel as its methods work on it: one thread's call, start to end,
    with nobody in between. What storing, applying and merging are proved to do is also what the
    steps of the transition system do when nobody interrupts them. */
module CachedRing {
  import opened Options
  import opened DivMod
  import opened CachedMpsc
  import opened Payload

  // ------------------------------------------------------------------------------- functions

  /** The smallest power of two that is not below `n`. */
  function NextPowerOfTwo(n: nat): (r: nat)
    ensures r >= n && r >= 1 && (r == 1 || r < 2 * n)
    ensures exists k: nat :: r == Power2(k)
  {
    if n <= 1 then assert Power2(0) == 1; 1
    else
      var half := NextPowerOfTwo((n + 1) / 2);
      assert exists k: nat :: 2 * half == Power2(k) by {
        var k: nat :| half == Power2(k);
        assert 2 * half == Power2(k + 1);
      }
      2 * half
  }

  /** Writes the values one by one, each into the slot of its position. */
  function Written(slots: seq<Slot>, pos: nat, vals: seq<Option<Value>>): (r: seq<Slot>)
    requires |slots| > 0
    ensures |r| == |slots|
  {
    if vals == [] then slots
    else
      var last := |vals| - 1;
      Written(slots, pos, vals[..last])[(pos + last) % |slots| := Cell(vals[last])]
  }

  /** How far slot `j` is ahead of slot `at`, going round. */
  function Ahead(at: nat, j: nat, cap: nat): nat
    requires at < cap && j < cap
  {
    if at <= j then j - at else j + cap - at
  }

  /** A position less than a turn behind another has the next slots, wrapping round once. */
  lemma SlotOf(pos: nat, i: nat, cap: nat)
    requires i < cap
    ensures (pos + i) % cap == if pos % cap + i < cap then pos % cap + i else pos % cap + i - cap
  {
    var q, r := pos / cap, pos % cap;
    if r + i < cap {
      assert pos + i == q * cap + (r + i);
      ModOf(q, cap, r + i);
    } else {
      assert pos + i == (q + 1) * cap + (r + i - cap);
      ModOf(q + 1, cap, r + i - cap);
    }
  }

  /** What writing one by one leaves in a slot. */
  lemma {:induction false} WrittenAt(slots: seq<Slot>, pos: nat, vals: seq<Option<Value>>, j: nat)
    requires j < |slots| && |vals| <= |slots|
    ensures var ahead := Ahead(pos % |slots|, j, |slots|);
            Written(slots, pos, vals)[j] == if ahead < |vals| then Cell(vals[ahead]) else slots[j]
  {
    if vals != [] {
      var last := |vals| - 1;
      WrittenAt(slots, pos, vals[..last], j);
      SlotOf(pos, last, |slots|);
    }
  }

  /** A value is in the slot of its position, and the slots of no value are as before. */
  lemma WrittenInPlace(slots: seq<Slot>, pos: nat, vals: seq<Option<Value>>, i: nat)
    requires i < |slots| && |vals| <= |slots|
    ensures Written(slots, pos, vals)[(pos + i) % |slots|]
            == if i < |vals| then Cell(vals[i]) else slots[(pos + i) % |slots|]
  {
    SlotOf(pos, i, |slots|);
    WrittenAt(slots, pos, vals, (pos + i) % |slots|);
  }

  lemma WrittenAsCopied(slots: seq<Slot>, pos: nat, vals: seq<Option<Value>>, r: seq<Slot>)
    requires 0 < |slots| == |r| && |vals| <= |slots|
    requires forall j :: 0 <= j < |slots| ==>
               var ahead := Ahead(pos % |slots|, j, |slots|);
               r[j] == if ahead < |vals| then Cell(vals[ahead]) else slots[j]
    ensures r == Written(slots, pos, vals)
  {
    forall j | 0 <= j < |slots| ensures r[j] == Written(slots, pos, vals)[j] {
      WrittenAt(slots, pos, vals, j);
    }
  }

  /** What the slots of a stretch of positions hold. */
  function Between(slots: seq<Slot>, lo: nat, hi: nat): seq<Slot>
    requires |slots| > 0
    decreases hi
  {
    if lo >= hi then [] else Between(slots, lo, hi - 1) + [slots[(hi - 1) % |slots|]]
  }

  /** Merges from the frontier on, for as long as the lowest slice starts there. */
  ghost function MergeAll(filled: set<Slice>, till: nat): (set<Slice>, nat)
    decreases |filled|
  {
    if filled != {} && Lowest(filled).start == till then
      MergeAll(filled - {Lowest(filled)}, till + Lowest(filled).size)
    else
      (filled, till)
  }

  predicate InOne(slices: set<Slice>, x: nat) {
    exists slice :: slice in slices && slice.start <= x < slice.start + slice.size
  }

  lemma InOneMore(slices: set<Slice>, slice: Slice, x: nat)
    ensures InOne(slices + {slice}, x) <==> InOne(slices, x) || slice.start <= x < slice.start + slice.size
  {
    if InOne(slices, x) {
      var other :| other in slices && other.start <= x < other.start + other.size;
      assert other in slices + {slice};
    }
  }

  /** What is merged is exactly the stretch the frontier passes over, and what is left cannot be
      merged. */
  lemma {:induction false} MergedTile(filled: set<Slice>, till: nat)
    ensures var (left, reached) := MergeAll(filled, till);
            && left <= filled && till <= reached
            && (left != {} ==> Lowest(left).start != reached)
            && forall x: nat :: till <= x < reached <==> InOne(filled - left, x)
    decreases |filled|
  {
    var (left, reached) := MergeAll(filled, till);
    if filled != {} && Lowest(filled).start == till {
      var slice := Lowest(filled);
      var rest := filled - {slice};
      MergedTile(rest, till + slice.size);
      assert filled - left == rest - left + {slice};
      forall x: nat ensures till <= x < reached <==> InOne(filled - left, x) { InOneMore(rest - left, slice, x); }
    }
  }

  // ---------------------------------------------------------------------- uninterrupted steps

  /** Once round the merge loop, with nobody in between. */
  ghost function MergeOne(s: State, t: Thread): (r: State)
    requires s.filledLock == Some(t) && s.filled != {} && Lowest(s.filled).start == s.readableTill
    ensures var slice := Lowest(s.filled);
            r == s.(filled := s.filled - {slice}, readableTill := slice.start + slice.size,
                    len := s.len + slice.size, reserved := s.reserved - slice.size)
  {
    var s1 := MergeStep(s, t, Locked).0;
    var size := Lowest(s.filled).size;
    MergeStep(MergeStep(MergeStep(s1, t, Moved(size)).0, t, Counted(size)).0, t, Enter(None)).0
  }

  /** A merge that nobody interrupts, from the point where the lock is held. */
  ghost function RunMerge(s: State, t: Thread): State
    requires s.filledLock == Some(t)
    decreases |s.filled|
  {
    if s.filled != {} && Lowest(s.filled).start == s.readableTill then RunMerge(MergeOne(s, t), t)
    else MergeStep(s, t, Locked).0
  }

  /** The lock released, and everything up to `reached` accounted for. */
  function Settled(s: State, left: set<Slice>, reached: nat): State {
    s.(filledLock := None, filled := left, readableTill := reached,
       len := s.len + (reached - s.readableTill), reserved := s.reserved - (reached - s.readableTill))
  }

  lemma SettledFrom(s: State, t: Thread, left: set<Slice>, reached: nat)
    requires s.filledLock == Some(t) && s.filled != {} && Lowest(s.filled).start == s.readableTill
    ensures Settled(MergeOne(s, t), left, reached) == Settled(s, left, reached)
  {
  }

  lemma SettledAtOnce(s: State, t: Thread)
    requires s.filledLock == Some(t) && (s.filled == {} || Lowest(s.filled).start != s.readableTill)
    ensures MergeStep(s, t, Locked).0 == Settled(s, s.filled, s.readableTill)
  {
  }

  lemma {:induction false} MergeFromLock(s: State, t: Thread)
    requires s.filledLock == Some(t)
    ensures var (left, reached) := MergeAll(s.filled, s.readableTill);
            RunMerge(s, t) == Settled(s, left, reached)
    decreases |s.filled|
  {
    if s.filled != {} && Lowest(s.filled).start == s.readableTill {
      var s' := MergeOne(s, t);
      var (left, reached) := MergeAll(s.filled, s.readableTill);
      MergeFromLock(s', t);
      assert (left, reached) == MergeAll(s'.filled, s'.readableTill);
      SettledFrom(s, t, left, reached);
    } else {
      SettledAtOnce(s, t);
    }
  }

  /** A merge that nobody interrupts, from the point where the slice (if any) is to be inserted. */
  ghost function RunWholeMerge(s: State, t: Thread, slice: Option<Slice>): State
    requires s.filledLock == None
  {
    RunMerge(MergeStep(s, t, Enter(slice)).0, t)
  }

  function Inserted(filled: set<Slice>, slice: Option<Slice>): set<Slice> {
    filled + if slice.Some? then {slice.value} else {}
  }

  /** The steps of the merge loop, taken in a row: the slice is inserted, everything that can be
      merged is, and the counters and the lock are left as `MergeWithFilledSlices` leaves them. */
  lemma UninterruptedMerge(s: State, t: Thread, slice: Option<Slice>)
    requires s.filledLock == None
    ensures var (left, reached) := MergeAll(Inserted(s.filled, slice), s.readableTill);
            RunWholeMerge(s, t, slice) == Settled(s, left, reached)
  {
    var s1 := MergeStep(s, t, Enter(slice)).0;
    assert s1.filled == Inserted(s.filled, slice);
    MergeFromLock(s1, t);
    var (left, reached) := MergeAll(s1.filled, s1.readableTill);
    assert Settled(s1, left, reached) == Settled(s, left, reached);
  }

  /** The store steps of a slice, taken in a row until the slice is handed to the merge loop. */
  ghost function RunStore(s: State, p: nat): State
    requires ProducerEnabled(s, p, Continue) && s.producers[p].pc.Storing?
    decreases |s.producers[p].pc.items| - s.producers[p].pc.done
  {
    var s' := ProducerStep(s, p, Continue);
    if s.producers[p].pc.done < |s.producers[p].pc.items| then RunStore(s', p) else s'
  }

  lemma StoreStepWrites(s: State, p: nat, items: seq<Option<Value>>, start: nat, done: nat,
                         dropping: bool, slots: seq<Slot>)
    requires p < |s.producers| && s.Cap() > 0 && done < |items| && |slots| == |s.slots|
    requires s.slots == Written(slots, start, items[..done])
    ensures StoreStep(s, p, items, start, done, dropping).slots == Written(slots, start, items[..done + 1])
  {
    assert items[..done + 1][..done] == items[..done];
  }

  lemma StoreOne(s: State, p: nat, slots: seq<Slot>)
    requires ProducerEnabled(s, p, Continue) && s.producers[p].pc.Storing? && |slots| == |s.slots|
    requires var pc := s.producers[p].pc;
             pc.done < |pc.items| && s.slots == Written(slots, pc.start, pc.items[..pc.done])
    ensures var pc, s' := s.producers[p].pc, ProducerStep(s, p, Continue);
            && |s'.slots| == |slots| && s'.slots == Written(slots, pc.start, pc.items[..pc.done + 1])
            && s'.sent == s.sent
            && s'.producers == s.producers[p := s.producers[p].(pc := pc.(done := pc.done + 1))]
  {
    var pc := s.producers[p].pc;
    StoreStepWrites(s, p, pc.items, pc.start, pc.done, pc.dropping, slots);
    assert ProducerStep(s, p, Continue) == StoreStep(s, p, pc.items, pc.start, pc.done, pc.dropping);
  }

  lemma StoreDone(s: State, p: nat)
    requires ProducerEnabled(s, p, Continue) && s.producers[p].pc.Storing?
    requires s.producers[p].pc.done >= |s.producers[p].pc.items|
    ensures var pc, s' := s.producers[p].pc, ProducerStep(s, p, Continue);
            && s'.slots == s.slots
            && s'.producers
               == s.producers[p := Producer(Merging(Enter(Some(Slice(pc.start, |pc.items|))), pc.dropping), [], None)]
  {
  }

  /** From any point of a store on, the rest of the items get written one by one. */
  lemma {:induction false} StoreTheRest(s: State, p: nat, slots: seq<Slot>)
    requires ProducerEnabled(s, p, Continue) && s.producers[p].pc.Storing? && |slots| == |s.slots|
    requires var pc := s.producers[p].pc;
             pc.done <= |pc.items| && s.slots == Written(slots, pc.start, pc.items[..pc.done])
    ensures var pc, s' := s.producers[p].pc, RunStore(s, p);
            && s'.slots == Written(slots, pc.start, pc.items)
            && s'.producers
               == s.producers[p := Producer(Merging(Enter(Some(Slice(pc.start, |pc.items|))), pc.dropping), [], None)]
    decreases |s.producers[p].pc.items| - s.producers[p].pc.done
  {
    var pc, s' := s.producers[p].pc, ProducerStep(s, p, Continue);
    if pc.done < |pc.items| {
      StoreOne(s, p, slots);
      StoreTheRest(s', p, slots);
      assert s'.producers[p := RunStore(s, p).producers[p]] == s.producers[p := RunStore(s, p).producers[p]];
    } else {
      StoreDone(s, p);
      assert pc.items[..pc.done] == pc.items;
    }
  }

  /** The store steps of a slice, taken in a row, leave the ring as `StoreVals` does, and hand
      the slice over. */
  lemma UninterruptedStore(s: State, p: nat)
    requires ProducerEnabled(s, p, Continue) && s.producers[p].pc.Storing? && s.producers[p].pc.done == 0
    ensures var pc, s' := s.producers[p].pc, RunStore(s, p);
            && s'.slots == Written(s.slots, pc.start, pc.items)
            && s'.producers
               == s.producers[p := Producer(Merging(Enter(Some(Slice(pc.start, |pc.items|))), pc.dropping), [], None)]
  {
    StoreTheRest(s, p, s.slots);
  }

  /** What applying for `size` slots amounts to: as many as there are, up to `size`, from the tail
      on; refused only when there are none. */
  predicate Grants(
    size: nat, tail: nat, reserved: int, free: int,
    tail': nat, reserved': int, free': int, slice: Option<Slice>)
  {
    var granted := Least(size, free);
    && (slice.None? <==> free == 0 && size > 0)
    && tail' - tail == reserved' - reserved == free - free' == (if slice.None? then 0 else granted)
    && (slice.Some? ==> granted >= 0 && slice.value == Slice(tail, granted))
  }

  /** The reservation steps, taken in a row from the point where the lock is held. */
  ghost function RunApply(s: State, p: nat): State
    requires ProducerEnabled(s, p, Continue) && s.producers[p].pc.HasTail?
  {
    var s1 := ProducerStep(s, p, Continue);
    var s2 := ProducerStep(s1, p, Continue);
    if s.free > 0 then ProducerStep(s2, p, Continue) else s2
  }

  lemma ReadsFree(s: State, p: nat)
    requires ProducerEnabled(s, p, Continue) && s.producers[p].pc.HasTail?
    ensures ProducerStep(s, p, Continue) == At(s, p, ReadFree(s.producers[p].pc.v, s.free))
  {
  }

  lemma AppliesFor(s: State, p: nat, v: Value)
    requires ProducerEnabled(s, p, Continue)
    requires s.producers[p] == Producer(ReadFree(v, s.free), s.producers[p].local, None)
    requires s.free > 0
    ensures var s1 := ProducerStep(s, p, Continue);
            var s' := ProducerStep(s1, p, Continue);
            && ProducerEnabled(s1, p, Continue) && p < |s'.producers| && s'.tailLock == None
            && Grants(APPLY_SIZE, s.tail, s.reserved, s.free, s'.tail, s'.reserved, s'.free, s'.producers[p].slice)
            && s'.producers[p].slice.Some?
  {
    var s1 := ProducerStep(s, p, Continue);
    assert s1.producers[p].pc == ProducerPc.Reserved(v, Slice(s.tail, Least(APPLY_SIZE, s.free)));
  }

  lemma AppliesInVain(s: State, p: nat, v: Value)
    requires ProducerEnabled(s, p, Continue)
    requires s.producers[p] == Producer(ReadFree(v, s.free), s.producers[p].local, None)
    requires s.free == 0
    ensures var s' := ProducerStep(s, p, Continue);
            && p < |s'.producers| && s'.tailLock == None
            && Grants(APPLY_SIZE, s.tail, s.reserved, s.free, s'.tail, s'.reserved, s'.free, s'.producers[p].slice)
            && s'.producers[p].slice == None && s'.producers[p].pc == CheckConsumer(v)
  {
  }

  /** The reservation steps, taken in a row, do what `Apply` does, and release the lock. The slice
      they grant is the producer's from then on. */
  lemma UninterruptedApply(s: State, p: nat)
    requires ProducerEnabled(s, p, Continue) && s.producers[p].pc.HasTail?
    requires s.free >= 0 && s.producers[p].slice == None
    ensures var s' := RunApply(s, p);
            && p < |s'.producers| && s'.tailLock == None
            && Grants(APPLY_SIZE, s.tail, s.reserved, s.free, s'.tail, s'.reserved, s'.free, s'.producers[p].slice)
            && (s'.producers[p].slice == None ==> s'.producers[p].pc == CheckConsumer(s.producers[p].pc.v))
  {
    var v, s1 := s.producers[p].pc.v, ProducerStep(s, p, Continue);
    ReadsFree(s, p);
    if s.free > 0 { AppliesFor(s1, p, v); } else { AppliesInVain(s1, p, v); }
  }

  lemma LowestUnique(filled: set<Slice>, a: Slice, b: Slice)
    requires IsLowest(filled, a) && IsLowest(filled, b)
    ensures a == b
  {
    assert Below(a, b) && Below(b, a);
  }

  class RingBuffer {
    const slots: array<Slot>
    var head: nat
    var tail: nat
    var readableTill: nat
    var len: int
    var reserved: int
    var free: nat
    var filled: set<Slice>

    /** The capacity is a power of two, which is what masking a position relies on. */
    ghost predicate Valid() {
      exists k: nat :: slots.Length == Power2(k)
    }

    constructor (cap: nat)
      ensures Valid() && fresh(slots) && slots.Length == NextPowerOfTwo(cap)
      ensures head == tail == readableTill == len == reserved == 0 && free == slots.Length && filled == {}
    {
      var n := NextPowerOfTwo(cap);
      slots := new Slot[n](_ => Empty);
      head, tail, readableTill, len, reserved, free, filled := 0, 0, 0, 0, 0, n, {};
    }

    method Mask(pos: nat) returns (at: nat)
      requires Valid()
      ensures slots.Length > 0 && at == pos % slots.Length < slots.Length
    {
      ghost var k: nat :| slots.Length == Power2(k);
      MaskIsMod(pos, k);
      at := BitAnd(pos, slots.Length - 1);
    }

    method Load(pos: nat) returns (slot: Slot)
      requires Valid()
      ensures slots.Length > 0 && slot == slots[pos % slots.Length]
    {
      var at := Mask(pos);
      slot := slots[at];
    }

    /** Copies a stretch of the values into neighbouring slots. */
    method CopySlots(vals: seq<Option<Value>>, src: nat, at: nat, n: nat)
      requires src + n <= |vals| && at + n <= slots.Length
      modifies slots
      ensures forall j :: 0 <= j < slots.Length ==>
                slots[j] == if at <= j < at + n then Cell(vals[src + (j - at)]) else old(slots[j])
    {
      for i := 0 to n
        invariant forall j :: 0 <= j < slots.Length ==>
                    slots[j] == if at <= j < at + i then Cell(vals[src + (j - at)]) else old(slots[j])
      {
        slots[at + i] := Cell(vals[src + i]);
      }
    }

    /** The copy, in two pieces where it wraps round, writes every value into the slot of its
        position. */
    method StoreVals(pos: nat, vals: seq<Option<Value>>)
      requires Valid() && |vals| <= slots.Length
      modifies slots
      ensures slots.Length > 0 && slots[..] == Written(old(slots[..]), pos, vals)
    {
      var at := Mask(pos);
      var left := slots.Length - at;
      ghost var was := slots[..];
      if |vals| > left {
        CopySlots(vals, 0, at, left);
        CopySlots(vals, left, 0, |vals| - left);
      } else {
        CopySlots(vals, 0, at, |vals|);
      }
      WrittenAsCopied(was, pos, vals, slots[..]);
    }

    /** Reserves as much as is asked for, or as much as there is. */
    method Apply(size: nat) returns (slice: Option<Slice>)
      modifies `tail, `reserved, `free
      ensures Grants(size, old(tail), old(reserved), old(free), tail, reserved, free, slice)
    {
      if free >= size {
        slice := Some(Slice(tail, size));
        tail, reserved, free := tail + size, reserved + size, free - size;
      } else if free > 0 {
        slice := Some(Slice(tail, free));
        tail, reserved, free := tail + free, reserved + free, free - free;
      } else {
        slice := None;
      }
    }

    /** Inserts the slice, then merges for as long as the lowest slice starts at the frontier. */
    method MergeWithFilledSlices(slice: Option<Slice>)
      modifies `readableTill, `len, `reserved, `filled
      ensures (filled, readableTill)
              == MergeAll(Inserted(old(filled), slice), old(readableTill))
      ensures readableTill - old(readableTill) == len - old(len) == old(reserved) - reserved
    {
      if slice.Some? { filled := filled + {slice.value}; }
      ghost var inserted := Inserted(old(filled), slice);
      while filled != {}
        invariant MergeAll(filled, readableTill) == MergeAll(inserted, old(readableTill))
        invariant readableTill - old(readableTill) == len - old(len) == old(reserved) - reserved
        decreases |filled|
      {
        LowestExists(filled);
        var lowest :| lowest in filled && forall t :: t in filled ==> Below(lowest, t);
        assert IsLowest(filled, lowest);
        LowestUnique(filled, lowest, Lowest(filled));
        if lowest.start != readableTill { break; }
        readableTill := lowest.start + lowest.size;
        filled := filled - {lowest};
        len := len + lowest.size;
        reserved := reserved - lowest.size;
      }
    }

    /** Dropping the ring drops what was not received: the slots from `head` to `readableTill`,
        in order. */
    method Drop() returns (dropped: seq<Slot>)
      requires Valid()
      ensures slots.Length > 0 && dropped == Between(slots[..], head, readableTill)
    {
      ghost var k: nat :| slots.Length == Power2(k);
      dropped := [];
      for i := head to if head <= readableTill then readableTill else head
        invariant dropped == Between(slots[..], head, i)
      {
        var slot := Load(i);
        dropped := dropped + [slot];
      }
    }
  }
}
