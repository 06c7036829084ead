/** The lock-free keyboard ring, one load or store at a time: one sender (the interrupt handler),
    one receiver, 32-bit counters that wrap (src/keyboard_irq.go:18-61). */
module KeyboardRing {
  import opened SeqSpace

  const SIZE: nat := 64

  /** Where the sender is in keyboardIRQSend, with the values it has loaded. */
  datatype Sender = Idle | HasHead(event: u32, h: u32) | HasRoom(event: u32, h: u32) | HasStored(event: u32, h: u32)

  /** Where the receiver is in keyboardIRQRecv. */
  datatype Receiver = Waiting | HasTail(t: u32) | NotEmpty(t: u32) | HasEvent(t: u32, event: u32)

  /** Shared words, both program counters, and what has happened: events accepted (published by
      the store to head) and received (released by the store to tail), and the drop counter. */
  datatype State = State(ring: seq<u32>, head: u32, tail: u32, snd: Sender, rcv: Receiver,
    accepted: seq<u32>, received: seq<u32>, drops: u32)

  datatype Step = Call(event: u32) | LoadTail | StoreSlot | StoreHead | RecvCall | LoadHead | LoadSlot | StoreTail

  function Slot(x: u32): nat {
    x % SIZE
  }

  predicate Enabled(s: State, st: Step) {
    match st
    case Call(_) => s.snd.Idle?
    case LoadTail => s.snd.HasHead?
    case StoreSlot => s.snd.HasRoom? && |s.ring| == SIZE
    case StoreHead => s.snd.HasStored?
    case RecvCall => s.rcv.Waiting?
    case LoadHead => s.rcv.HasTail?
    case LoadSlot => s.rcv.NotEmpty? && |s.ring| == SIZE
    case StoreTail => s.rcv.HasEvent?
  }

  function Do(s: State, st: Step): State
    requires Enabled(s, st)
  {
    match st
    case Call(event) => s.(snd := HasHead(event, s.head))
    case LoadTail =>
      if Sub32(s.snd.h, s.tail) >= SIZE then s.(snd := Idle, drops := Add32(s.drops, 1))
      else s.(snd := HasRoom(s.snd.event, s.snd.h))
    case StoreSlot => s.(ring := s.ring[Slot(s.snd.h) := s.snd.event], snd := HasStored(s.snd.event, s.snd.h))
    case StoreHead => s.(head := Add32(s.snd.h, 1), snd := Idle, accepted := s.accepted + [s.snd.event])
    case RecvCall => s.(rcv := HasTail(s.tail))
    case LoadHead => if s.rcv.t == s.head then s.(rcv := Waiting) else s.(rcv := NotEmpty(s.rcv.t))
    case LoadSlot => s.(rcv := HasEvent(s.rcv.t, s.ring[Slot(s.rcv.t)]))
    case StoreTail => s.(tail := Add32(s.rcv.t, 1), rcv := Waiting, received := s.received + [s.rcv.event])
  }

  /** The slot of the k-th accepted event. */
  function SlotOf(k: nat): nat {
    k % SIZE
  }

  lemma SlotOfWrap(k: nat)
    ensures Slot(Wrap(k)) == SlotOf(k)
  {
    var q := k / MOD32;
    assert k == SIZE * (0x400_0000 * q) + Wrap(k);
    SizeShift(0x400_0000 * q, Wrap(k));
  }

  lemma SizeShift(a: nat, b: nat)
    ensures (SIZE * a + b) % SIZE == b % SIZE
  {
  }

  /** Numbers less than 64 apart have different slots. */
  lemma SlotsApart(j: nat, k: nat)
    requires j < k < j + SIZE
    ensures SlotOf(j) != SlotOf(k)
  {
  }

  ghost predicate SenderOk(s: State)
    requires |s.ring| == SIZE
  {
    match s.snd
    case Idle => true
    case HasHead(_, h) => h == s.head
    case HasRoom(_, h) => h == s.head && |s.accepted| - |s.received| < SIZE
    case HasStored(event, h) =>
      h == s.head && |s.accepted| - |s.received| < SIZE && s.ring[SlotOf(|s.accepted|)] == event
  }

  ghost predicate ReceiverOk(s: State) {
    match s.rcv
    case Waiting => true
    case HasTail(t) => t == s.tail
    case NotEmpty(t) => t == s.tail && |s.received| < |s.accepted|
    case HasEvent(t, event) => t == s.tail && |s.received| < |s.accepted| && event == s.accepted[|s.received|]
  }

  ghost predicate Counters(s: State) {
    && |s.ring| == SIZE
    && |s.received| <= |s.accepted| <= |s.received| + SIZE
    && s.head == Wrap(|s.accepted|) && s.tail == Wrap(|s.received|)
  }

  ghost predicate Kept(s: State, k: nat)
    requires |s.ring| == SIZE && k < |s.accepted|
  {
    s.ring[SlotOf(k)] == s.accepted[k]
  }

  ghost predicate Inv(s: State) {
    && Counters(s)
    && s.received <= s.accepted
    && (forall k :: |s.received| <= k < |s.accepted| ==> Kept(s, k))
    && SenderOk(s) && ReceiverOk(s)
  }

  lemma Distance(s: State)
    requires Counters(s)
    ensures Sub32(s.head, s.tail) == |s.accepted| - |s.received|
    ensures s.tail == s.head <==> |s.accepted| == |s.received|
  {
    WrapSub(|s.accepted|, |s.received|);
    WrapSmall(|s.accepted| - |s.received|);
    WrapInjective(|s.accepted|, |s.received|);
  }

  lemma StoreInv(s: State)
    requires Inv(s) && Enabled(s, StoreSlot)
    ensures Inv(Do(s, StoreSlot))
    ensures forall k :: |s.received| <= k < |s.accepted| ==> SlotOf(k) != Slot(s.snd.h)
  {
    var s' := Do(s, StoreSlot);
    SlotOfWrap(|s.accepted|);
    forall k | |s.received| <= k < |s.accepted|
      ensures Kept(s', k) && SlotOf(k) != Slot(s.snd.h)
    {
      assert Kept(s, k);
      SlotsApart(k, |s.accepted|);
    }
  }

  lemma PublishInv(s: State)
    requires Inv(s) && Enabled(s, StoreHead)
    ensures Inv(Do(s, StoreHead))
  {
    hide SlotOf, Wrap, Add32;
    var s' := Do(s, StoreHead);
    WrapAdd(|s.accepted|, 1);
    forall k | |s'.received| <= k < |s'.accepted|
      ensures Kept(s', k)
    {
      assert k < |s.accepted| ==> Kept(s, k);
    }
  }

  lemma ReleaseInv(s: State)
    requires Inv(s) && Enabled(s, StoreTail)
    ensures Inv(Do(s, StoreTail))
  {
    hide SlotOf, Wrap, Add32;
    var s' := Do(s, StoreTail);
    WrapAdd(|s.received|, 1);
    forall k | |s'.received| <= k < |s'.accepted|
      ensures Kept(s', k)
    {
      assert Kept(s, k);
    }
    assert s.accepted[..|s.received|] == s.received;
    assert s'.received == s.accepted[..|s.received| + 1];
  }

  lemma StepInv(s: State, st: Step)
    requires Inv(s) && Enabled(s, st)
    ensures Inv(Do(s, st))
  {
    assert Counters(s);
    Distance(s);
    hide Inv, Do;
    match st
    case StoreSlot => StoreInv(s);
    case StoreHead => PublishInv(s);
    case StoreTail => ReleaseInv(s);
    case LoadSlot => LoadInv(s);
    case _ => Others(s, st);
  }

  lemma LoadInv(s: State)
    requires Inv(s) && Enabled(s, LoadSlot)
    ensures Inv(Do(s, LoadSlot))
  {
    var s' := Do(s, LoadSlot);
    SlotOfWrap(|s.received|);
    assert Kept(s, |s.received|);
    hide SlotOf, Wrap;
    forall k | |s'.received| <= k < |s'.accepted|
      ensures Kept(s', k)
    {
      assert Kept(s, k);
    }
  }

  lemma Others(s: State, st: Step)
    requires Inv(s) && Enabled(s, st) && (st.Call? || st.LoadTail? || st.RecvCall? || st.LoadHead?)
    requires Sub32(s.head, s.tail) == |s.accepted| - |s.received|
    requires s.tail == s.head <==> |s.accepted| == |s.received|
    ensures Inv(Do(s, st))
  {
    hide SlotOf, Wrap, Sub32;
    var s' := Do(s, st);
    forall k | |s'.received| <= k < |s'.accepted|
      ensures Kept(s', k)
    {
      assert Kept(s, k);
    }
  }

  predicate Possible(s: State, steps: seq<Step>)
    decreases |steps|
  {
    steps == [] || (Enabled(s, steps[0]) && Possible(Do(s, steps[0]), steps[1..]))
  }

  function Run(s: State, steps: seq<Step>): State
    requires Possible(s, steps)
    decreases |steps|
  {
    if steps == [] then s else Run(Do(s, steps[0]), steps[1..])
  }

  lemma {:induction false} RunInv(s: State, steps: seq<Step>)
    requires Inv(s) && Possible(s, steps)
    ensures Inv(Run(s, steps))
    decreases |steps|
  {
    hide Inv, Do, Enabled;
    if steps != [] {
      StepInv(s, steps[0]);
      RunInv(Do(s, steps[0]), steps[1..]);
    }
  }

  function Start(ring: seq<u32>): State {
    State(ring, 0, 0, Idle, Waiting, [], [], 0)
  }

  /** For every interleaving of the loads and stores: the received events are a prefix of the
      accepted ones, the counters' 32-bit distance is the number waiting and never exceeds 64, and
      every event not yet received is still in its slot. */
  lemma RingSafety(ring: seq<u32>, steps: seq<Step>)
    requires |ring| == SIZE && Possible(Start(ring), steps)
    ensures var s := Run(Start(ring), steps);
            && s.received <= s.accepted
            && Sub32(s.head, s.tail) == |s.accepted| - |s.received| <= SIZE
            && |s.ring| == SIZE && (forall k :: |s.received| <= k < |s.accepted| ==> Kept(s, k))
            && Inv(s)
  {
    WrapSmall(0);
    RunInv(Start(ring), steps);
    Distance(Run(Start(ring), steps));
  }

  // ---- no event is lost silently ----

  /** A send gives up exactly if 64 events wait when it looks, and counts it; a receive comes back
      empty exactly if none waits. */
  lemma DropsExactlyFull(s: State)
    requires Inv(s)
    ensures s.snd.HasHead? ==>
              Do(s, LoadTail) == if |s.accepted| - |s.received| == 64 then s.(snd := Idle, drops := Add32(s.drops, 1))
                                 else s.(snd := HasRoom(s.snd.event, s.snd.h))
    ensures s.rcv.HasTail? ==> (Do(s, LoadHead).rcv.Waiting? <==> s.received == s.accepted)
  {
    Distance(s);
    hide SlotOf, Wrap, Sub32, Add32, Kept;
  }

  function CallOf(st: Step): seq<u32> {
    if st.Call? then [st.event] else []
  }

  /** The events keyboardIRQSend was called with. */
  function Calls(steps: seq<Step>): seq<u32> {
    if steps == [] then [] else CallOf(steps[0]) + Calls(steps[1..])
  }

  /** The send under way, if any. */
  function InHand(s: State): seq<u32> {
    if s.snd.Idle? then [] else [s.snd.event]
  }

  /** a is what is left of b after some of it is struck out. */
  ghost predicate Within(a: seq<u32>, b: seq<u32>)
    decreases |b|
  {
    || a == []
    || (b != [] && a[|a| - 1] == b[|b| - 1] && Within(a[..|a| - 1], b[..|b| - 1]))
    || (b != [] && Within(a, b[..|b| - 1]))
  }

  lemma {:induction false} WithinShorter(a: seq<u32>, b: seq<u32>)
    requires a != [] && Within(a, b)
    ensures Within(a[..|a| - 1], b)
    decreases |b|
  {
    var b' := b[..|b| - 1];
    if Within(a, b') {
      WithinShorter(a, b');
    }
    if a[..|a| - 1] != [] {
      assert Within(a[..|a| - 1], b');
    }
  }

  /** After the calls so far, k of them dropped. */
  ghost predicate Accounted(s: State, calls: seq<u32>, k: nat) {
    && |calls| == |s.accepted| + |InHand(s)| + k && s.drops == Wrap(k)
    && Within(s.accepted + InHand(s), calls)
  }

  lemma StepAccounted(s: State, st: Step, calls: seq<u32>, k: nat) returns (k': nat)
    requires Inv(s) && Enabled(s, st) && Accounted(s, calls, k)
    ensures Accounted(Do(s, st), calls + CallOf(st), k')
  {
    k' := k;
    var s' := Do(s, st);
    assert !st.Call? ==> calls + CallOf(st) == calls;
    var a := s.accepted + InHand(s);
    match st
    case Call(e) =>
      var a', b' := s'.accepted + InHand(s'), calls + [e];
      assert a'[..|a'| - 1] == a && b'[..|b'| - 1] == calls;
    case LoadTail =>
      DropsExactlyFull(s);
      hide Do;
      if s'.snd.Idle? {
        k' := k + 1;
        WrapAdd(k, 1);
        WithinShorter(a, calls);
        assert a[..|a| - 1] == s.accepted == s'.accepted + InHand(s');
      }
    case StoreHead => assert s'.accepted + InHand(s') == a;
    case _ =>
  }

  lemma {:induction false} RunAccounted(s: State, steps: seq<Step>, calls: seq<u32>, k: nat) returns (k': nat)
    requires Inv(s) && Possible(s, steps) && Accounted(s, calls, k)
    ensures Accounted(Run(s, steps), calls + Calls(steps), k')
    decreases |steps|
  {
    hide Inv, Do, Enabled, Accounted, CallOf;
    if steps == [] {
      k' := k;
      assert calls + [] == calls;
    } else {
      var st := steps[0];
      StepInv(s, st);
      var k1 := StepAccounted(s, st, calls, k);
      k' := RunAccounted(Do(s, st), steps[1..], calls + CallOf(st), k1);
      assert (calls + CallOf(st)) + Calls(steps[1..]) == calls + Calls(steps);
    }
  }

  /** Every call is accounted for, over every interleaving: accepted, still in hand, or one of the k
      counted drops; and what was accepted is in the order of the calls. */
  lemma SendsAccounted(ring: seq<u32>, steps: seq<Step>) returns (k: nat)
    requires |ring| == SIZE && Possible(Start(ring), steps)
    ensures var s := Run(Start(ring), steps);
            && |Calls(steps)| == |s.accepted| + |InHand(s)| + k && s.drops == Wrap(k)
            && Within(s.accepted + InHand(s), Calls(steps))
  {
    WrapSmall(0);
    k := RunAccounted(Start(ring), steps, [], 0);
    assert [] + Calls(steps) == Calls(steps);
  }

  // ---- the two routines, each run without interruption ----

  class Keyboard {
    const ring: array<u32>
    var head: u32
    var tail: u32
    var drops: u32

    ghost predicate Valid()
      reads this
    {
      ring.Length == SIZE
    }

    /** Shared words with nobody mid-routine. */
    ghost function Words(accepted: seq<u32>, received: seq<u32>): State
      reads this, ring
    {
      State(ring[..], head, tail, Idle, Waiting, accepted, received, drops)
    }

    constructor ()
      ensures Valid() && head == 0 && tail == 0 && fresh(ring)
    {
      ring := new u32[SIZE](_ => 0);
      head, tail, drops := 0, 0, 0;
    }

    /** Send is the sender's steps in order, for any history the words stand for. */
    method Send(event: u32, ghost accepted: seq<u32>, ghost received: seq<u32>) returns (ok: bool)
      requires Valid() && Inv(Words(accepted, received))
      modifies this, ring
      ensures Valid()
      ensures ok <==> |accepted| - |received| < SIZE
      ensures Inv(Words(if ok then accepted + [event] else accepted, received))
      ensures var s1 := Do(Do(old(Words(accepted, received)), Call(event)), LoadTail);
              if ok then s1.snd.HasRoom? && Words(accepted + [event], received) == Do(Do(s1, StoreSlot), StoreHead)
              else Words(accepted, received) == s1
    {
      ghost var s0 := Words(accepted, received);
      ghost var s1 := Do(Do(s0, Call(event)), LoadTail);
      Distance(s0);
      StepInv(s0, Call(event));
      StepInv(Do(s0, Call(event)), LoadTail);
      var h := head;
      if Sub32(h, tail) >= SIZE {
        drops := Add32(drops, 1);
        return false;
      }
      StepInv(s1, StoreSlot);
      StepInv(Do(s1, StoreSlot), StoreHead);
      ring[Slot(h)] := event;
      head := Add32(h, 1);
      ok := true;
    }

    method Receive(ghost accepted: seq<u32>, ghost received: seq<u32>) returns (event: u32, ok: bool)
      requires Valid() && Inv(Words(accepted, received))
      modifies this
      ensures Valid()
      ensures ok <==> |received| < |accepted|
      ensures ok ==> event == accepted[|received|]
      ensures Inv(Words(accepted, if ok then received + [event] else received))
    {
      ghost var s0 := Words(accepted, received);
      Distance(s0);
      var t := tail;
      if t == head {
        return 0, false;
      }
      ghost var s1 := Do(s0, RecvCall);
      StepInv(s0, RecvCall);
      ghost var s2 := Do(s1, LoadHead);
      StepInv(s1, LoadHead);
      ghost var s3 := Do(s2, LoadSlot);
      StepInv(s2, LoadSlot);
      StepInv(s3, StoreTail);
      event := ring[Slot(t)];
      tail := Add32(t, 1);
      ok := true;
      assert Words(accepted, received + [event]) == Do(s3, StoreTail);
    }
  }
}
