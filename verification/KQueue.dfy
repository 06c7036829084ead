/** The bounded queue between kernel threads: producers park when it is full, the single consumer
    parks when it is empty, and each side wakes the other (src/kthread_queue.go:39-139, 187-326).
    One step is one critical section together with the hand-off that ends it; the wake-up that
    follows the release of the lock is a step of its own. */
module KQueue {
  import opened KList

  /** Entries are only moved, never looked into; a number stands for one. */
  type Item = nat

  /** What the lock protects: the entries, the parked producers (a stack) and the parked consumer. */
  datatype Queue = Queue(items: seq<Item>, producers: seq<Tid>, consumer: Option<Tid>)

  /** One entry added: the parked consumer, if any, is taken off to be woken. */
  function Added(q: Queue, v: Item): Queue {
    Queue(q.items + [v], q.producers, None)
  }

  function ProducerParked(q: Queue, me: Tid): Queue {
    q.(producers := [me] + q.producers)
  }

  /** The oldest entry taken: one parked producer, if any, is taken off to be woken. */
  function Taken(q: Queue): Queue
    requires q.items != []
  {
    Queue(q.items[1..], if q.producers == [] then [] else q.producers[1..], q.consumer)
  }

  function TopProducer(q: Queue): Option<Tid> {
    if q.producers == [] then None else Some(q.producers[0])
  }

  /** A second consumer is put on the producers' stack. */
  function ConsumerParked(q: Queue, me: Tid): Queue {
    if q.consumer.Some? then ProducerParked(q, me) else q.(consumer := Some(me))
  }

  // ---- the ring ----

  function Wrapped(cap: nat, head: nat, i: nat): nat
    requires head < cap && i <= cap
  {
    if head + i < cap then head + i else head + i - cap
  }

  ghost function View(d: seq<Item>, head: nat, n: nat): (s: seq<Item>)
    requires head < |d| && n <= |d|
    ensures |s| == n
  {
    seq(n, i requires 0 <= i < n => d[Wrapped(|d|, head, i)])
  }

  lemma StoreExtends(d: seq<Item>, head: nat, n: nat, v: Item)
    requires head < |d| && n < |d|
    ensures View(d[Wrapped(|d|, head, n) := v], head, n + 1) == View(d, head, n) + [v]
  {
  }

  lemma DropFirst(d: seq<Item>, head: nat, n: nat, v: Item)
    requires head < |d| && 0 < n <= |d|
    ensures View(d[head := v], Wrapped(|d|, head, 1), n - 1) == View(d, head, n)[1..]
  {
  }

  lemma FirstOfView(d: seq<Item>, head: nat, n: nat)
    requires head < |d| && 0 < n <= |d|
    ensures View(d, head, n)[0] == d[head]
  {
  }

  lemma NextIndex(cap: nat, head: nat, n: nat)
    requires head < cap && n < cap
    ensures (Wrapped(cap, head, n) + 1) % cap == Wrapped(cap, head, n + 1)
  {
    var x := Wrapped(cap, head, n);
    if x + 1 < cap {
      assert (x + 1) % cap == x + 1;
    } else {
      assert cap % cap == 0;
    }
  }

  lemma SameTail(cap: nat, head: nat, n: nat)
    requires head < cap && 0 < n <= cap
    ensures Wrapped(cap, Wrapped(cap, head, 1), n - 1) == Wrapped(cap, head, n)
  {
  }

  class Ring {
    const ring: array<Item>
    const empty: Item
    const links: WakeLinks
    var head: nat
    var tail: nat
    var count: nat
    var producers: Option<Tid>
    var consumer: Option<Tid>
    ghost var stack: seq<Tid>

    /** The parked producers are a chain through the threads' link fields, and the parked consumer
        is not among them. */
    ghost predicate Valid()
      reads this, links
    {
      && ring.Length > 0 && head < ring.Length && count <= ring.Length
      && tail == Wrapped(ring.Length, head, count)
      && Chain(links.next, producers, stack) && Distinct(stack)
      && (forall p :: p in stack ==> consumer != Some(p))
    }

    ghost function Contents(): Queue
      requires Valid()
      reads this, ring, links
    {
      Queue(View(ring[..], head, count), stack, consumer)
    }

    /** me may park here: it is not parked on this queue already. */
    ghost predicate MayPark(me: Option<Tid>)
      reads this
    {
      me.Some? ==> me.value !in stack && consumer != me
    }

    constructor (cap: nat, zero: Item, l: WakeLinks)
      requires cap > 0
      ensures Valid() && fresh(ring) && ring.Length == cap && links == l && Contents() == Queue([], [], None)
    {
      ring := new Item[cap](_ => zero);
      empty := zero;
      links := l;
      head, tail, count := 0, 0, 0;
      producers, consumer := None, None;
      stack := [];
    }

    method Store(v: Item) returns (wake: Option<Tid>)
      requires Valid() && count < ring.Length
      modifies this, ring, links
      ensures Valid()
      ensures Contents() == Added(old(Contents()), v) && wake == old(consumer)
      ensures forall x: Tid :: wake != Some(x) ==> SameLink(old(links.next), links.next, x)
    {
      hide View, Chain, Distinct;
      StoreExtends(ring[..], head, count, v);
      NextIndex(ring.Length, head, count);
      ghost var after := ring[..][tail := v];
      ring[tail] := v;
      assert ring[..] == after;
      tail := (tail + 1) % ring.Length;
      count := count + 1;
      wake := consumer;
      consumer := None;
      if wake.Some? {
        ghost var l := links.next;
        links.Clear(wake.value);
        ChainFrame(l, links.next, producers, stack);
      }
    }

    method Fetch() returns (v: Item, wake: Option<Tid>)
      requires Valid() && count > 0
      modifies this, ring, links
      ensures Valid()
      ensures v == old(Contents()).items[0] && wake == TopProducer(old(Contents()))
      ensures Contents() == Taken(old(Contents()))
      ensures forall x: Tid :: wake != Some(x) ==> SameLink(old(links.next), links.next, x)
    {
      hide View, Distinct;
      DropFirst(ring[..], head, count, empty);
      FirstOfView(ring[..], head, count);
      NextIndex(ring.Length, head, 0);
      SameTail(ring.Length, head, count);
      v := ring[head];
      ghost var after := ring[..][head := empty];
      ring[head] := empty;
      assert ring[..] == after;
      head := (head + 1) % ring.Length;
      count := count - 1;
      wake := producers;
      if wake.Some? {
        DistinctTail(stack);
        producers := links.TakeTop(wake.value, stack);
        stack := stack[1..];
      }
    }

    /** One pass of Push's loop by thread me: done, or parked until the queue has room; a caller
        that is no kernel thread leaves everything as it is and comes back. */
    method PushOnce(me: Option<Tid>, v: Item) returns (done: bool, wake: Option<Tid>)
      requires Valid() && MayPark(me)
      modifies this, ring, links
      ensures Valid()
      ensures done == (|old(Contents()).items| < ring.Length)
      ensures Contents() == if done then Added(old(Contents()), v)
                            else if me.Some? then ProducerParked(old(Contents()), me.value) else old(Contents())
      ensures wake == if done then old(consumer) else None
      ensures forall x: Tid :: wake != Some(x) && me != Some(x) ==> SameLink(old(links.next), links.next, x)
    {
      if count < ring.Length {
        wake := Store(v);
        return true, wake;
      }
      if me.Some? {
        DistinctMore(stack, me.value);
        producers := links.PushTop(producers, me.value, stack);
        stack := [me.value] + stack;
      }
      return false, None;
    }

    method TryPush(v: Item) returns (done: bool, wake: Option<Tid>)
      requires Valid()
      modifies this, ring, links
      ensures Valid()
      ensures done == (|old(Contents()).items| < ring.Length)
      ensures Contents() == if done then Added(old(Contents()), v) else old(Contents())
      ensures wake == if done then old(consumer) else None
      ensures forall x: Tid :: wake != Some(x) ==> SameLink(old(links.next), links.next, x)
    {
      if count >= ring.Length {
        return false, None;
      }
      wake := Store(v);
      done := true;
    }

    /** One pass of Pop's loop by thread me; a caller that is no kernel thread spins. */
    method PopOnce(me: Option<Tid>) returns (got: Option<Item>, wake: Option<Tid>)
      requires Valid() && MayPark(me)
      modifies this, ring, links
      ensures Valid()
      ensures got.Some? <==> old(Contents()).items != []
      ensures got.Some? ==> got.value == old(Contents()).items[0] && Contents() == Taken(old(Contents()))
                            && wake == TopProducer(old(Contents()))
      ensures got.None? ==> wake == None
      ensures got.None? ==>
                Contents() == if me.Some? then ConsumerParked(old(Contents()), me.value) else old(Contents())
      ensures forall x: Tid :: wake != Some(x) && me != Some(x) ==> SameLink(old(links.next), links.next, x)
    {
      if count > 0 {
        var v;
        v, wake := Fetch();
        return Some(v), wake;
      }
      if me.Some? {
        if consumer.Some? {
          DistinctMore(stack, me.value);
          producers := links.PushTop(producers, me.value, stack);
          stack := [me.value] + stack;
        } else {
          ghost var l := links.next;
          links.Clear(me.value);
          ChainFrame(l, links.next, producers, stack);
          consumer := me;
        }
      }
      return None, None;
    }

    method TryPop() returns (got: Option<Item>, wake: Option<Tid>)
      requires Valid()
      modifies this, ring, links
      ensures Valid()
      ensures got.Some? <==> old(Contents()).items != []
      ensures got.Some? ==> got.value == old(Contents()).items[0] && Contents() == Taken(old(Contents()))
                            && wake == TopProducer(old(Contents()))
      ensures got.None? ==> Contents() == old(Contents()) && wake == None
      ensures forall x: Tid :: wake != Some(x) ==> SameLink(old(links.next), links.next, x)
    {
      if count == 0 {
        return None, None;
      }
      var v;
      v, wake := Fetch();
      got := Some(v);
    }
  }

  // ---- many producers, one consumer ----

  /** A producer: outside Push, at the top of its loop for the first time, on the waiter stack,
      taken off it but not woken yet, or back at the top of the loop. */
  datatype Producer = Idle | Entering(v: Item) | Parked(v: Item) | Claimed(v: Item) | Resumed(v: Item)

  datatype Consumer = Ready | Waiting | Due

  datatype Sys = Sys(cap: nat, me: Tid, q: Queue, threads: map<Tid, Producer>, cons: Consumer,
    pushed: seq<(Option<Tid>, Item)>, popped: seq<Item>, started: map<Tid, seq<Item>>)

  datatype Event =
    | Start(p: Tid, v: Item)
    | PushRun(p: Tid)
    | Wake(p: Tid)
    | PopRun
    | WakeConsumer
    | TryPushRun(v: Item)
    | TryPopRun

  predicate AtLoop(t: Producer) {
    t.Entering? || t.Resumed?
  }

  predicate Enabled(s: Sys, e: Event) {
    match e
    case Start(p, _) => p in s.threads && s.threads[p].Idle?
    case PushRun(p) => p in s.threads && AtLoop(s.threads[p])
    case Wake(p) => p in s.threads && s.threads[p].Claimed?
    case PopRun => s.cons == Ready
    case WakeConsumer => s.cons == Due
    case _ => true
  }

  function Put(s: Sys, who: Option<Tid>, v: Item): Sys {
    s.(q := Added(s.q, v), pushed := s.pushed + [(who, v)], cons := if s.q.consumer.Some? then Due else s.cons)
  }

  function Claim(threads: map<Tid, Producer>, p: Tid): map<Tid, Producer> {
    if p in threads && threads[p].Parked? then threads[p := Claimed(threads[p].v)] else threads
  }

  function Get(s: Sys): Sys
    requires s.q.items != []
  {
    s.(q := Taken(s.q), popped := s.popped + [s.q.items[0]],
       threads := if s.q.producers == [] then s.threads else Claim(s.threads, s.q.producers[0]))
  }

  function Step(s: Sys, e: Event): Sys
    requires Enabled(s, e)
  {
    match e
    case Start(p, v) =>
      s.(threads := s.threads[p := Entering(v)],
         started := s.started[p := (if p in s.started then s.started[p] else []) + [v]])
    case PushRun(p) =>
      var v := s.threads[p].v;
      if |s.q.items| < s.cap then Put(s, Some(p), v).(threads := s.threads[p := Idle])
      else s.(q := ProducerParked(s.q, p), threads := s.threads[p := Parked(v)])
    case Wake(p) => s.(threads := s.threads[p := Resumed(s.threads[p].v)])
    case PopRun =>
      if s.q.items != [] then Get(s) else s.(q := ConsumerParked(s.q, s.me), cons := Waiting)
    case WakeConsumer => s.(cons := Ready)
    case TryPushRun(v) => if |s.q.items| < s.cap then Put(s, None, v) else s
    case TryPopRun => if s.q.items != [] then Get(s) else s
  }

  // ---- the invariant ----

  function Values(log: seq<(Option<Tid>, Item)>): (s: seq<Item>)
    ensures |s| == |log|
    ensures forall i :: 0 <= i < |log| ==> s[i] == log[i].1
  {
    seq(|log|, i requires 0 <= i < |log| => log[i].1)
  }

  /** What thread p has put in, in order. */
  function By(log: seq<(Option<Tid>, Item)>, p: Tid): seq<Item> {
    if log == [] then []
    else By(log[..|log| - 1], p) + if log[|log| - 1].0 == Some(p) then [log[|log| - 1].1] else []
  }

  function Pending(t: Producer): seq<Item> {
    if t.Idle? then [] else [t.v]
  }

  /** Producers taken off the waiter stack that have not run since. */
  function Woken(threads: map<Tid, Producer>): set<Tid> {
    set p | p in threads && (threads[p].Claimed? || threads[p].Resumed?)
  }

  ghost predicate StackOk(s: Sys) {
    && Distinct(s.q.producers)
    && (forall p :: p in s.q.producers <==> p in s.threads && s.threads[p].Parked?)
  }

  ghost predicate WakeOk(s: Sys) {
    s.q.producers != [] ==> |s.q.items| + |Woken(s.threads)| >= s.cap
  }

  ghost predicate ConsumerOk(s: Sys) {
    && s.q.consumer == (if s.cons == Waiting then Some(s.me) else None)
    && (s.cons == Waiting ==> s.q.items == [])
  }

  ghost predicate Ledger(s: Sys) {
    && Values(s.pushed) == s.popped + s.q.items
    && (forall p :: p in s.threads ==>
          By(s.pushed, p) + Pending(s.threads[p]) == if p in s.started then s.started[p] else [])
  }

  ghost predicate Inv(s: Sys) {
    |s.q.items| <= s.cap && 0 < s.cap && StackOk(s) && WakeOk(s) && ConsumerOk(s) && Ledger(s)
  }

  function Init(cap: nat, me: Tid, ps: set<Tid>): Sys {
    Sys(cap, me, Queue([], [], None), map p | p in ps :: Idle, Ready, [], [], map[])
  }

  lemma InitInv(cap: nat, me: Tid, ps: set<Tid>)
    requires cap > 0
    ensures Inv(Init(cap, me, ps))
  {
  }

  lemma WokenUpdate(threads: map<Tid, Producer>, p: Tid, t: Producer)
    requires p in threads
    ensures var was := threads[p].Claimed? || threads[p].Resumed?;
            var now := t.Claimed? || t.Resumed?;
            |Woken(threads[p := t])| == |Woken(threads)| - (if was then 1 else 0) + (if now then 1 else 0)
  {
    var ws, ws' := Woken(threads), Woken(threads[p := t]);
    if p in ws && p !in ws' {
      assert ws == ws' + {p};
    } else if p !in ws && p in ws' {
      assert ws' == ws + {p};
    } else {
      assert ws == ws';
    }
  }

  lemma ByPut(log: seq<(Option<Tid>, Item)>, who: Option<Tid>, v: Item, p: Tid)
    ensures By(log + [(who, v)], p) == By(log, p) + if who == Some(p) then [v] else []
  {
    assert (log + [(who, v)])[..|log|] == log;
  }

  lemma PutLedger(s: Sys, who: Option<Tid>, v: Item, threads': map<Tid, Producer>)
    requires Ledger(s) && threads'.Keys == s.threads.Keys
    requires forall p :: p in s.threads ==>
               Pending(s.threads[p]) == (if who == Some(p) then [v] else []) + Pending(threads'[p])
    ensures Ledger(Put(s, who, v).(threads := threads'))
  {
    hide By, Pending, Values;
    var s' := Put(s, who, v).(threads := threads');
    ValuesPut(s.pushed, who, v);
    assert s'.popped + s'.q.items == (s.popped + s.q.items) + [v];
    forall p | p in s'.threads
      ensures By(s'.pushed, p) + Pending(s'.threads[p]) == if p in s.started then s.started[p] else []
    {
      ByPut(s.pushed, who, v, p);
      assert p in s.threads;
      var mine := if who == Some(p) then [v] else [];
      assert (By(s.pushed, p) + mine) + Pending(threads'[p]) == By(s.pushed, p) + (mine + Pending(threads'[p]));
    }
  }

  lemma ValuesPut(log: seq<(Option<Tid>, Item)>, who: Option<Tid>, v: Item)
    ensures Values(log + [(who, v)]) == Values(log) + [v]
  {
  }

  lemma GetLedger(s: Sys)
    requires Ledger(s) && s.q.items != []
    ensures Ledger(Get(s))
  {
    hide By, Values;
    assert Get(s).popped + Get(s).q.items == s.popped + s.q.items;
  }

  lemma StepLedger(s: Sys, e: Event)
    requires Ledger(s) && Enabled(s, e)
    ensures Ledger(Step(s, e))
  {
    hide Ledger, Put, Get;
    match e
    case Start(p, v) =>
      StartLedger(s, p, v);
    case PushRun(p) =>
      if |s.q.items| < s.cap {
        PutLedger(s, Some(p), s.threads[p].v, s.threads[p := Idle]);
      } else {
        SameLedger(s, Step(s, e));
      }
    case Wake(p) =>
      SameLedger(s, Step(s, e));
    case PopRun =>
      if s.q.items != [] {
        GetLedger(s);
      } else {
        SameLedger(s, Step(s, e));
      }
    case WakeConsumer =>
      SameLedger(s, Step(s, e));
    case TryPushRun(v) =>
      if |s.q.items| < s.cap {
        PutLedger(s, None, v, s.threads);
        PutThreads(s, v);
      }
    case TryPopRun =>
      if s.q.items != [] {
        GetLedger(s);
      }
  }

  lemma PutThreads(s: Sys, v: Item)
    ensures Put(s, None, v).(threads := s.threads) == Put(s, None, v)
  {
  }

  lemma StartLedger(s: Sys, p: Tid, v: Item)
    requires Ledger(s) && Enabled(s, Start(p, v))
    ensures Ledger(Step(s, Start(p, v)))
  {
    hide By, Values;
    assert By(s.pushed, p) + [] == By(s.pushed, p);
  }

  lemma SameLedger(s: Sys, s': Sys)
    requires Ledger(s) && s'.pushed == s.pushed && s'.popped == s.popped && s'.q.items == s.q.items
    requires s'.started == s.started && s'.threads.Keys == s.threads.Keys
    requires forall p :: p in s.threads ==> Pending(s'.threads[p]) == Pending(s.threads[p])
    ensures Ledger(s')
  {
    hide By, Values, Pending;
    forall p | p in s'.threads
      ensures By(s'.pushed, p) + Pending(s'.threads[p]) == if p in s'.started then s'.started[p] else []
    {
      assert p in s.threads;
    }
  }

  lemma GetStack(s: Sys)
    requires StackOk(s) && WakeOk(s) && s.q.items != []
    ensures StackOk(Get(s)) && WakeOk(Get(s))
  {
    hide Woken;
    var s' := Get(s);
    if s.q.producers != [] {
      var p := s.q.producers[0];
      assert p in s.threads && s.threads[p].Parked?;
      WokenUpdate(s.threads, p, Claimed(s.threads[p].v));
      forall x
        ensures x in s'.q.producers <==> x in s'.threads && s'.threads[x].Parked?
      {
        assert s.q.producers == [p] + s'.q.producers;
      }
    }
  }

  lemma PushStack(s: Sys, p: Tid)
    requires StackOk(s) && WakeOk(s) && |s.q.items| <= s.cap && Enabled(s, PushRun(p))
    ensures StackOk(Step(s, PushRun(p))) && WakeOk(Step(s, PushRun(p)))
  {
    hide Woken;
    var s' := Step(s, PushRun(p));
    var v := s.threads[p].v;
    WokenUpdate(s.threads, p, Idle);
    WokenUpdate(s.threads, p, Parked(v));
    if |s.q.items| == s.cap {
      forall x
        ensures x in s'.q.producers <==> x in s'.threads && s'.threads[x].Parked?
      {
        assert x in s'.q.producers <==> x == p || x in s.q.producers;
      }
    }
  }

  lemma StepStack(s: Sys, e: Event)
    requires StackOk(s) && WakeOk(s) && |s.q.items| <= s.cap && ConsumerOk(s) && Enabled(s, e)
    ensures StackOk(Step(s, e)) && WakeOk(Step(s, e))
  {
    hide Woken, Get;
    match e
    case Start(p, v) =>
      WokenUpdate(s.threads, p, Entering(v));
    case PushRun(p) =>
      PushStack(s, p);
    case Wake(p) =>
      WokenUpdate(s.threads, p, Resumed(s.threads[p].v));
    case PopRun =>
      if s.q.items != [] {
        GetStack(s);
      }
    case WakeConsumer =>
    case TryPushRun(v) =>
    case TryPopRun =>
      if s.q.items != [] {
        GetStack(s);
      }
  }

  lemma StepConsumer(s: Sys, e: Event)
    requires ConsumerOk(s) && Enabled(s, e) && |s.q.items| <= s.cap
    ensures ConsumerOk(Step(s, e)) && |Step(s, e).q.items| <= s.cap && Step(s, e).cap == s.cap
  {
  }

  lemma StepInv(s: Sys, e: Event)
    requires Inv(s) && Enabled(s, e)
    ensures Inv(Step(s, e))
  {
    hide StackOk, WakeOk, ConsumerOk, Ledger, Step, Enabled;
    StepLedger(s, e);
    StepStack(s, e);
    StepConsumer(s, e);
  }

  predicate Possible(s: Sys, es: seq<Event>)
    decreases |es|
  {
    es == [] || (Enabled(s, es[0]) && Possible(Step(s, es[0]), es[1..]))
  }

  function Run(s: Sys, es: seq<Event>): Sys
    requires Possible(s, es)
    decreases |es|
  {
    if es == [] then s else Run(Step(s, es[0]), es[1..])
  }

  lemma {:induction false} RunInv(s: Sys, es: seq<Event>)
    requires Inv(s) && Possible(s, es)
    ensures Inv(Run(s, es))
    decreases |es|
  {
    hide Inv, Step;
    if es != [] {
      StepInv(s, es[0]);
      RunInv(Step(s, es[0]), es[1..]);
    }
  }

  /** Over every run: what came out followed by what is inside is exactly what was put in, in
      order; each producer's values went in once each and in its own order; a parked consumer
      means an empty queue; parked producers mean that entries and woken producers fill it. */
  lemma QueueSafety(cap: nat, me: Tid, ps: set<Tid>, es: seq<Event>)
    requires cap > 0 && Possible(Init(cap, me, ps), es)
    ensures var s := Run(Init(cap, me, ps), es);
            && Values(s.pushed) == s.popped + s.q.items && |s.q.items| <= cap
            && (forall p :: p in s.threads ==>
                  By(s.pushed, p) + Pending(s.threads[p]) == if p in s.started then s.started[p] else [])
            && (s.q.consumer.Some? ==> s.q.items == [])
            && (s.q.producers != [] ==> |s.q.items| + |Woken(s.threads)| >= cap)
            && Inv(s)
  {
    InitInv(cap, me, ps);
    RunInv(Init(cap, me, ps), es);
    CapKept(Init(cap, me, ps), es);
  }

  lemma {:induction false} CapKept(s: Sys, es: seq<Event>)
    requires Possible(s, es)
    ensures Run(s, es).cap == s.cap
    decreases |es|
  {
    if es != [] {
      CapKept(Step(s, es[0]), es[1..]);
    }
  }

  predicate Moving(e: Event) {
    e.PushRun? || e.Wake? || e.PopRun? || e.WakeConsumer?
  }

  /** Consumer and producers are never all stuck: a consumer that waits while some producer is
      inside Push has a producer that can run or a wake-up still to be made. */
  lemma NeverAllStuck(s: Sys, p: Tid) returns (e: Event)
    requires Inv(s) && p in s.threads && !s.threads[p].Idle?
    ensures Moving(e) && Enabled(s, e)
  {
    if s.cons == Ready {
      e := PopRun;
    } else if s.cons == Due {
      e := WakeConsumer;
    } else if AtLoop(s.threads[p]) {
      e := PushRun(p);
    } else if s.threads[p].Claimed? {
      e := Wake(p);
    } else {
      assert p in s.q.producers;
      var x :| x in Woken(s.threads);
      e := if s.threads[x].Claimed? then Wake(x) else PushRun(x);
    }
  }

  // ---- the ring takes the steps ----

  /** The ring holds the queue of a reachable state, whose consumer is none of its producers. */
  ghost predicate Implements(r: Ring, s: Sys)
    reads r, r.ring, r.links
  {
    r.Valid() && Inv(s) && s.me !in s.threads && r.Contents() == s.q && r.ring.Length == s.cap
  }

  /** A producer at the top of its loop is parked on no list of the queue. */
  lemma EntrantMayPark(r: Ring, s: Sys, p: Tid)
    requires Implements(r, s) && p in s.threads && AtLoop(s.threads[p])
    ensures r.MayPark(Some(p))
  {
    assert p in s.q.producers <==> p in s.threads && s.threads[p].Parked?;
  }

  /** Nor is the consumer when it is ready to run. */
  lemma ConsumerMayPark(r: Ring, s: Sys)
    requires Implements(r, s) && s.cons == Ready
    ensures r.MayPark(Some(s.me))
  {
    assert forall p :: p in s.q.producers ==> p in s.threads;
  }

  /** A producer's pass through Push is its step. */
  method PushPass(r: Ring, p: Tid, v: Item, ghost s: Sys) returns (done: bool, wake: Option<Tid>, ghost s': Sys)
    requires Implements(r, s) && Enabled(s, PushRun(p)) && s.threads[p].v == v
    modifies r, r.ring, r.links
    ensures s' == Step(s, PushRun(p)) && Implements(r, s')
    ensures done == (|s.q.items| < s.cap)
    ensures wake == if done then s.q.consumer else None
  {
    hide Inv;
    EntrantMayPark(r, s, p);
    StepInv(s, PushRun(p));
    s' := Step(s, PushRun(p));
    done, wake := r.PushOnce(Some(p), v);
  }

  /** The consumer's pass through Pop is its step. */
  method PopPass(r: Ring, me: Tid, ghost s: Sys) returns (got: Option<Item>, wake: Option<Tid>, ghost s': Sys)
    requires Implements(r, s) && Enabled(s, PopRun) && me == s.me
    modifies r, r.ring, r.links
    ensures s' == Step(s, PopRun) && Implements(r, s')
    ensures got == if s.q.items == [] then None else Some(s.q.items[0])
    ensures wake == if s.q.items == [] then None else TopProducer(s.q)
  {
    hide Inv;
    ConsumerMayPark(r, s);
    StepInv(s, PopRun);
    s' := Step(s, PopRun);
    got, wake := r.PopOnce(Some(me));
  }

  method TryPushPass(r: Ring, v: Item, ghost s: Sys) returns (done: bool, wake: Option<Tid>, ghost s': Sys)
    requires Implements(r, s)
    modifies r, r.ring, r.links
    ensures s' == Step(s, TryPushRun(v)) && Implements(r, s')
    ensures wake == if done then s.q.consumer else None
  {
    hide Inv;
    StepInv(s, TryPushRun(v));
    s' := Step(s, TryPushRun(v));
    done, wake := r.TryPush(v);
  }

  method TryPopPass(r: Ring, ghost s: Sys) returns (got: Option<Item>, wake: Option<Tid>, ghost s': Sys)
    requires Implements(r, s)
    modifies r, r.ring, r.links
    ensures s' == Step(s, TryPopRun) && Implements(r, s')
    ensures got == if s.q.items == [] then None else Some(s.q.items[0])
  {
    hide Inv;
    StepInv(s, TryPopRun);
    s' := Step(s, TryPopRun);
    got, wake := r.TryPop();
  }
}
