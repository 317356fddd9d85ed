/** The calls of the plain channel with many producers, taken without interruption: the steps of the
    transition system do to the queue just what the methods on the ring do. */
module MpscCalls {
  import opened Options
  import opened Payload
  import opened QueueRings
  import opened Repetition
  import opened MpscBounded

  /** Nobody is in the middle of a call. */
  predicate Resting(s: State) {
    && s.tailLock == None && (s.consumer.AtRest? || s.consumer.Gone?)
    && forall q :: 0 <= q < |s.producers| ==> s.producers[q].Idle? || s.producers[q].Dead?
  }

  function ProducerNext(p: nat): State -> State {
    (s: State) => if ProducerEnabled(s, p, Continue) then ProducerStep(s, p, Continue) else s
  }

  function ConsumerNext(): State -> State {
    (s: State) => if ConsumerEnabled(s, Continue) then ConsumerStep(s, Continue) else s
  }

  function ProducerGoes(s: State, p: nat, n: nat): State {
    Repeated(ProducerNext(p), s, n)
  }

  function ConsumerGoes(s: State, n: nat): State {
    Repeated(ConsumerNext(), s, n)
  }

  lemma ProducerGoesOn(s: State, p: nat, n: nat)
    requires n > 0 && ProducerEnabled(s, p, Continue)
    ensures ProducerGoes(s, p, n) == ProducerGoes(ProducerStep(s, p, Continue), p, n - 1)
  {
    assert ProducerNext(p)(s) == ProducerStep(s, p, Continue);
  }

  lemma ConsumerGoesOn(s: State, n: nat)
    requires n > 0 && ConsumerEnabled(s, Continue)
    ensures ConsumerGoes(s, n) == ConsumerGoes(ConsumerStep(s, Continue), n - 1)
  {
    assert ConsumerNext()(s) == ConsumerStep(s, Continue);
  }

  // ------------------------------------------------------------------------------- sending

  /** Lock, look, store, count and unlock. */
  lemma StoresWithRoom(s: State, p: nat, v: Value)
    requires s.Cap() > 0 && p < |s.producers| && s.producers[p] == Locking(v) && s.tailLock == None && s.len != s.Cap()
    ensures var s' := ProducerGoes(s, p, 4);
            && s'.producers == s.producers[p := Idle] && s'.tailLock == None && s'.sent == s.sent + [v]
            && s'.popped == s.popped && s'.len == s.len + 1 && s'.refused == s.refused
  {
    var s1 := ProducerStep(s, p, Continue);
    var s2 := ProducerStep(s1, p, Continue);
    var s3 := ProducerStep(s2, p, Continue);
    ProducerGoesOn(s, p, 4);
    ProducerGoesOn(s1, p, 3);
    ProducerGoesOn(s2, p, 2);
    ProducerGoesOn(s3, p, 1);
    assert ProducerGoes(ProducerStep(s3, p, Continue), p, 0) == ProducerStep(s3, p, Continue);
  }

  /** Lock, find the ring full, look for the consumer, and unlock. */
  lemma FindsItFull(s: State, p: nat, v: Value)
    requires s.Cap() > 0 && p < |s.producers| && s.producers[p] == Locking(v) && s.tailLock == None && s.len == s.Cap()
    ensures ProducerGoes(s, p, 3)
            == if s.consumerExists then s else s.(producers := s.producers[p := Idle], refused := true)
  {
    var s1 := ProducerStep(s, p, Continue);
    var s2 := ProducerStep(s1, p, Continue);
    var s3 := ProducerStep(s2, p, Continue);
    ProducerGoesOn(s, p, 3);
    ProducerGoesOn(s1, p, 2);
    ProducerGoesOn(s2, p, 1);
    assert ProducerGoes(s3, p, 0) == s3;
    assert s.producers[p := s.producers[p]] == s.producers;
    assert s3.producers == if s.consumerExists then s.producers else s.producers[p := Idle];
  }

  /** A send that nobody interrupts has the outcome, and the effect on the queue, of `PushBack`; where
      that reports that it waits, the loop comes round to where it was. */
  lemma UninterruptedPush(s: State, p: nat, v: Value)
    requires Inv(s) && Resting(s) && ProducerEnabled(s, p, Send(v))
    ensures var r := SendOutcome(|Queue(s)| < s.Cap(), s.consumerExists);
            var begun := ProducerStep(s, p, Send(v));
            var s' := ProducerGoes(begun, p, if r.Sent? then 4 else 3);
            && |s'.popped| <= |s'.sent| && Queue(s') == AfterSend(Queue(s), v, r)
            && (r.Waits? ==> s' == begun)
            && (!r.Waits? ==> s'.producers == s.producers && s'.tailLock == None && (r.Refused? ==> s'.refused))
  {
    assert ProducerOk(s, p);
    var begun := ProducerStep(s, p, Send(v));
    assert begun == At(s, p, Locking(v));
    assert s.producers[p := Locking(v)][p := Idle] == s.producers;
    assert s.len == |Queue(s)|;
    if s.len == s.Cap() { FindsItFull(begun, p, v); } else { StoresWithRoom(begun, p, v); }
    assert (s.sent + [v])[|s.popped|..] == Queue(s) + [v];
  }

  // ----------------------------------------------------------------------------- receiving

  lemma PopsFront(s: State)
    requires Inv(s) && s.consumer.Bump?
    ensures var s' := ConsumerGoes(s, 3);
            && |s.popped| < |s.sent| && s'.consumer.AtRest? && s'.sent == s.sent && s'.len == s.len - 1
            && s'.popped == s.popped + [s.sent[|s.popped|]]
  {
    var s1 := ConsumerStep(s, Continue);
    ConsumerKeepsInv(s, Continue);
    LoadKeepsRing(s1);
    var s2 := ConsumerStep(s1, Continue);
    ConsumerGoesOn(s, 3);
    ConsumerGoesOn(s1, 2);
    ConsumerGoesOn(s2, 1);
    assert ConsumerGoes(ConsumerStep(s2, Continue), 0) == ConsumerStep(s2, Continue);
  }

  lemma FindsItEmpty(s: State)
    requires s.Cap() > 0 && s.consumer.CheckLen? && s.len == 0
    ensures ConsumerGoes(s, 3) == if s.producerCount > 0 then s else s.(consumer := AtRest, disconnected := true)
  {
    var s1 := ConsumerStep(s, Continue);
    var s2 := ConsumerStep(s1, Continue);
    ConsumerGoesOn(s, 3);
    ConsumerGoesOn(s1, 2);
    ConsumerGoesOn(s2, 1);
    assert ConsumerGoes(ConsumerStep(s2, Continue), 0) == ConsumerStep(s2, Continue);
  }

  /** A receive that nobody interrupts has the outcome, and the effect on the queue, of `PopFront`. */
  lemma UninterruptedPop(s: State)
    requires Inv(s) && Resting(s) && s.consumer.AtRest?
    ensures var r := RecvOutcome(Queue(s), s.producerCount > 0);
            var begun := ConsumerStep(s, Recv);
            var s' := ConsumerGoes(begun, if r.Received? then 4 else 3);
            && |s'.popped| <= |s'.sent| && Queue(s') == AfterRecv(Queue(s))
            && (r.Received? ==> s'.popped == s.popped + [r.v])
            && (r.Waits? ==> s' == begun)
            && (!r.Waits? ==> s'.consumer.AtRest? && (r.Disconnected? ==> s'.disconnected))
  {
    var begun := ConsumerStep(s, Recv);
    ConsumerKeepsInv(s, Recv);
    assert s.len == |Queue(s)|;
    if s.len == 0 {
      FindsItEmpty(begun);
    } else {
      var bump := ConsumerStep(begun, Continue);
      ConsumerKeepsInv(begun, Continue);
      ConsumerGoesOn(begun, 4);
      PopsFront(bump);
      assert s.sent[|s.popped| + 1..] == Queue(s)[1..];
    }
  }

  // ------------------------------------------------------------------------- every run

  /** The clones of producers within the first `i` actions, less the producers dropped. */
  function Handles(actions: seq<Action>, i: nat): int
    requires i <= |actions|
  {
    if i == 0 then 0
    else
      var a := actions[i - 1];
      Handles(actions, i - 1)
      + if a.ProducerActs? && a.call.Clone? then 1 else if a.ProducerActs? && a.call.Drop? then -1 else 0
  }

  lemma ProducerStepHandles(s: State, p: nat, call: Call)
    requires ProducerEnabled(s, p, call)
    ensures ProducerStep(s, p, call).producerCount
            == s.producerCount + if call.Clone? then 1 else if call.Drop? then -1 else 0
    ensures ProducerStep(s, p, call).consumerExists == s.consumerExists
  {
  }

  lemma ConsumerStepHandles(s: State, call: Call)
    requires ConsumerEnabled(s, call)
    ensures ConsumerStep(s, call).producerCount == s.producerCount
    ensures ConsumerStep(s, call).consumerExists == (s.consumerExists && !call.Drop?)
  {
  }

  /** In every run, the count of producers is one, and one more for every clone, and one less for every
      drop; and the consumer counts as there until it is dropped. */
  lemma {:induction false} HandlesCounted(states: seq<State>, actions: seq<Action>, cap: nat, i: nat)
    requires IsRun(states, actions, cap) && i < |states|
    ensures states[i].producerCount == 1 + Handles(actions, i)
    ensures states[i].consumerExists <==> ConsumerActs(Drop) !in actions[..i]
  {
    if i > 0 {
      HandlesCounted(states, actions, cap, i - 1);
      assert StepOf(states, actions, i - 1);
      assert actions[..i] == actions[..i - 1] + [actions[i - 1]];
      match actions[i - 1]
      case ProducerActs(p, call) => ProducerStepHandles(states[i - 1], p, call);
      case ConsumerActs(call) => ConsumerStepHandles(states[i - 1], call);
    }
  }
}
