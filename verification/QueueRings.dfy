/** The calls of the plain and of the cached single-producer channel as methods on a ring they
    update in place: one thread's call, start to end, with nobody in between. Each does what it
    would do to a bounded queue. Where the code would go round its loop until another thread
    changes something, the call reports that it waits. */
module QueueRings {
  import opened Options
  import opened DivMod
  import opened Payload

  datatype Outcome = Sent | Refused | Received(v: Value) | Disconnected | Waits

  // ------------------------------------------------------------ what a call does to a queue

  /** A send goes through if there is room; otherwise it waits as long as that may change. */
  function SendOutcome(room: bool, hope: bool): Outcome {
    if room then Sent else if hope then Waits else Refused
  }

  /** The cached producer sees room if its cache says so; with the cache used up it looks again only
      while the consumer is there. */
  predicate SeesRoom(free: int, available: bool, queue: seq<Value>, cap: nat) {
    free > 0 || (available && |queue| < cap)
  }

  function AfterSend(queue: seq<Value>, v: Value, r: Outcome): seq<Value> {
    if r.Sent? then queue + [v] else queue
  }

  /** A receive takes the front value; from an empty queue it waits as long as that may change. */
  function RecvOutcome(queue: seq<Value>, hope: bool): Outcome {
    if queue != [] then Received(queue[0]) else if hope then Waits else Disconnected
  }

  function AfterRecv(queue: seq<Value>): seq<Value> {
    if queue != [] then queue[1..] else []
  }

  // ------------------------------------------------------------------ the slots as a queue

  /** The values in `n` slots from position `head` on. */
  ghost function Window(slots: seq<Option<Value>>, head: nat, n: nat): (r: seq<Option<Value>>)
    requires |slots| > 0
    ensures |r| == n
    decreases n
  {
    if n == 0 then [] else [slots[head % |slots|]] + Window(slots, head + 1, n - 1)
  }

  lemma {:induction false} WindowUntouched(slots: seq<Option<Value>>, head: nat, n: nat, x: nat, v: Option<Value>)
    requires |slots| > 0 && head + n <= x < head + |slots|
    ensures Window(slots[x % |slots| := v], head, n) == Window(slots, head, n)
    decreases n
  {
    if n > 0 {
      DistinctSlots(head, x, |slots|);
      WindowUntouched(slots, head + 1, n - 1, x, v);
    }
  }

  lemma {:induction false} WindowGrows(slots: seq<Option<Value>>, head: nat, n: nat)
    requires |slots| > 0
    ensures Window(slots, head, n + 1) == Window(slots, head, n) + [slots[(head + n) % |slots|]]
    decreases n
  {
    if n > 0 {
      WindowGrows(slots, head + 1, n - 1);
      assert Window(slots, head, n + 1) == [slots[head % |slots|]] + Window(slots, head + 1, n);
    }
  }

  /** Storing behind the window appends to it. */
  lemma StoreAppends(slots: seq<Option<Value>>, head: nat, n: nat, v: Value)
    requires n < |slots|
    ensures Window(slots[(head + n) % |slots| := Some(v)], head, n + 1) == Window(slots, head, n) + [Some(v)]
  {
    WindowUntouched(slots, head, n, head + n, Some(v));
    WindowGrows(slots[(head + n) % |slots| := Some(v)], head, n);
  }

  function Values(items: seq<Value>): (r: seq<Option<Value>>)
    ensures |r| == |items|
  {
    seq(|items|, i requires 0 <= i < |items| => Some(items[i]))
  }

  /** A full window of values, and the queue they are. */
  ghost predicate Holds(slots: seq<Option<Value>>, head: nat, tail: nat, queue: seq<Value>) {
    && |slots| > 0 && head <= tail <= head + |slots| && |queue| == tail - head
    && Window(slots, head, tail - head) == Values(queue)
  }

  lemma HoldsMore(slots: seq<Option<Value>>, head: nat, tail: nat, queue: seq<Value>, v: Value)
    requires Holds(slots, head, tail, queue) && tail < head + |slots|
    ensures Holds(slots[tail % |slots| := Some(v)], head, tail + 1, queue + [v])
  {
    StoreAppends(slots, head, tail - head, v);
    assert Values(queue + [v]) == Values(queue) + [Some(v)];
  }

  lemma HoldsLess(slots: seq<Option<Value>>, head: nat, tail: nat, queue: seq<Value>)
    requires Holds(slots, head, tail, queue) && head < tail
    ensures slots[head % |slots|] == Some(queue[0])
    ensures Holds(slots[head % |slots| := None], head + 1, tail, queue[1..])
  {
    var n, window, rest := tail - head, Window(slots, head, tail - head), Window(slots, head + 1, tail - head - 1);
    assert window[0] == Values(queue)[0];
    assert rest == window[1..] == Values(queue)[1..] == Values(queue[1..]);
    FullTurn(head, |slots|);
    WindowUntouched(slots, head + 1, n - 1, head + |slots|, None);
  }

  // ------------------------------------------------------------------------------- slots

  ghost predicate PowerOfTwo(n: nat) {
    exists k: nat :: n == Power2(k)
  }

  method Mask(pos: nat, cap: nat) returns (at: nat)
    requires PowerOfTwo(cap)
    ensures cap > 0 && at == pos % cap
  {
    ghost var k: nat :| cap == Power2(k);
    MaskIsMod(pos, k);
    at := BitAnd(pos, cap - 1);
  }

  method StoreSlot(slots: array<Option<Value>>, pos: nat, v: Value)
    requires PowerOfTwo(slots.Length)
    modifies slots
    ensures slots.Length > 0 && slots[..] == old(slots[..])[pos % slots.Length := Some(v)]
  {
    var at := Mask(pos, slots.Length);
    slots[at] := Some(v);
  }

  /** Reading a value moves it out of its slot. */
  method LoadSlot(slots: array<Option<Value>>, pos: nat) returns (v: Value)
    requires PowerOfTwo(slots.Length) && slots.Length > 0 && slots[pos % slots.Length].Some?
    modifies slots
    ensures Some(v) == old(slots[pos % slots.Length]) && slots[..] == old(slots[..])[pos % slots.Length := None]
  {
    var at := Mask(pos, slots.Length);
    v := slots[at].value;
    slots[at] := None;
  }

  // --------------------------------------------------------------------------- cached spsc

  class SpscChannel {
    const slots: array<Option<Value>>
    var head: nat
    var tail: nat
    var available: bool
    var producerTail: nat
    var free: nat
    var consumerHead: nat
    var full: nat
    ghost var queue: seq<Value>

    /** Between calls both sides agree on the indices, the caches promise no more than there is,
        and the slots from `head` to `tail` hold the queue. */
    ghost predicate Valid()
      reads this, slots
    {
      && PowerOfTwo(slots.Length) && Holds(slots[..], head, tail, queue)
      && producerTail == tail && consumerHead == head
      && free <= slots.Length - |queue| && full <= |queue|
    }

    constructor (k: nat)
      ensures Valid() && fresh(slots) && slots.Length == Power2(k) && queue == [] && available
    {
      slots := new Option<Value>[Power2(k)](_ => None);
      head, tail, available, producerTail, free, consumerHead, full := 0, 0, true, 0, Power2(k), 0, 0;
      queue := [];
    }

    /** Stores where the producer knows of room. */
    method Put(v: Value)
      requires Valid() && free > 0
      modifies this, slots
      ensures Valid() && available == old(available) && queue == old(queue) + [v]
    {
      HoldsMore(slots[..], head, tail, queue, v);
      StoreSlot(slots, producerTail, v);
      producerTail := producerTail + 1;
      tail := producerTail;
      free := free - 1;
      queue := queue + [v];
    }

    /** A value goes in at the back if the producer knows of room, or may still look and finds
        some. With the cache used up and the consumer gone the send is refused, room or not. */
    method Send(v: Value) returns (r: Outcome)
      requires Valid()
      modifies this, slots
      ensures Valid() && available == old(available)
      ensures r == SendOutcome(SeesRoom(old(free), available, old(queue), slots.Length), available)
      ensures queue == AfterSend(old(queue), v, r)
    {
      if free == 0 {
        if !available { return Refused; }
        free := slots.Length - (producerTail - head);
        if free == 0 { return Waits; }
      }
      Put(v);
      r := Sent;
    }

    /** The front value comes out; only an empty queue makes the receiver wait or give up. */
    method Recv() returns (r: Outcome)
      requires Valid()
      modifies this, slots
      ensures Valid() && available == old(available)
      ensures r == RecvOutcome(old(queue), available) && queue == AfterRecv(old(queue))
    {
      if full == 0 {
        full := tail - consumerHead;
        if full == 0 {
          return if available then Waits else Disconnected;
        }
      }
      HoldsLess(slots[..], head, tail, queue);
      var v := LoadSlot(slots, consumerHead);
      consumerHead := consumerHead + 1;
      head := consumerHead;
      full := full - 1;
      queue := queue[1..];
      r := Received(v);
    }

    /** Either side going away is all that `available` says. */
    method Drop()
      requires Valid()
      modifies `available
      ensures Valid() && !available
    {
      available := false;
    }
  }

  // ---------------------------------------------------------------------------- plain mpsc

  class MpscChannel {
    const slots: array<Option<Value>>
    var head: nat
    var tail: nat
    var len: nat
    var producerCount: nat
    var consumerExists: bool
    ghost var queue: seq<Value>

    ghost predicate Valid()
      reads this, slots
    {
      PowerOfTwo(slots.Length) && Holds(slots[..], head, tail, queue) && len == |queue|
    }

    constructor (k: nat)
      ensures Valid() && fresh(slots) && slots.Length == Power2(k) && queue == []
      ensures producerCount == 1 && consumerExists
    {
      slots := new Option<Value>[Power2(k)](_ => None);
      head, tail, len, producerCount, consumerExists := 0, 0, 0, 1, true;
      queue := [];
    }

    method PushBack(v: Value) returns (r: Outcome)
      requires Valid()
      modifies `tail, `len, `queue, slots
      ensures Valid()
      ensures r == SendOutcome(|old(queue)| < slots.Length, consumerExists)
      ensures queue == AfterSend(old(queue), v, r)
    {
      if len == slots.Length {
        return if consumerExists then Waits else Refused;
      }
      HoldsMore(slots[..], head, tail, queue, v);
      StoreSlot(slots, tail, v);
      tail := tail + 1;
      len := len + 1;
      queue := queue + [v];
      r := Sent;
    }

    method PopFront() returns (r: Outcome)
      requires Valid()
      modifies `head, `len, `queue, slots
      ensures Valid()
      ensures r == RecvOutcome(old(queue), producerCount > 0) && queue == AfterRecv(old(queue))
    {
      if len == 0 {
        return if producerCount > 0 then Waits else Disconnected;
      }
      HoldsLess(slots[..], head, tail, queue);
      var position := head;
      head := head + 1;
      var v := LoadSlot(slots, position);
      len := len - 1;
      queue := queue[1..];
      r := Received(v);
    }
  }
}
