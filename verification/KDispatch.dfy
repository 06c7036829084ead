/** The scheduler as the kernel runs it: queues, running slots, the thread pool and the events
    updated in place, each entry point proved to make the corresponding placement step
    (src/kthread_sched.go, src/kthread_lifecycle.go, src/kthread_ring3.go, src/kthread_event.go).
    The queues and waiter lists are chains through the threads' one link field; that a thread is
    on at most one list is what keeps an operation on one chain from breaking another. */
module KDispatch {
  import opened KList
  import opened KSched

  /** An event as the kernel holds it: the flag and the first waiter. */
  datatype EventHead = EventHead(flag: bool, waiters: Option<Tid>)

  /** Where the chains start. */
  datatype Heads = Heads(service: seq<List>, ring3: seq<List>, events: map<EventId, EventHead>)

  /** What they hold. */
  datatype Contents = Contents(service: seq<seq<Tid>>, ring3: seq<seq<Tid>>, events: map<EventId, KEvent>)

  ghost predicate QueueOk(l: Links, q: List, ts: seq<Tid>, on: Places, p: Place) {
    Represents(l, q, ts) && Lists(ts, on, p)
  }

  ghost predicate EventOk(l: Links, x: EventHead, ev: KEvent, on: Places, e: EventId) {
    x.flag == ev.flag && Chain(l, x.waiters, ev.waiters) && Lists(ev.waiters, on, Waiting(e))
  }

  ghost predicate Sized(h: Heads, a: Contents, cores: nat) {
    && 2 <= cores && |h.service| == |a.service| == cores && |h.ring3| == |a.ring3| == cores
    && h.events.Keys == a.events.Keys
  }

  /** Every chain but the one at p holds what it should, and each thread is on at most the one
      list that on names. */
  ghost predicate LinkedBut(l: Links, h: Heads, a: Contents, on: Places, cores: nat, p: Option<Place>) {
    && Sized(h, a, cores)
    && (forall c :: 0 <= c < cores && p != Some(InService(c)) ==> QueueOk(l, h.service[c], a.service[c], on,
        InService(c)))
    && (forall c :: 0 <= c < cores && p != Some(InRing3(c)) ==> QueueOk(l, h.ring3[c], a.ring3[c], on, InRing3(c)))
    && (forall e :: e in a.events && p != Some(Waiting(e)) ==> EventOk(l, h.events[e], a.events[e], on, e))
    && (forall t :: t in on ==> OnList(a, on[t], cores))
  }

  ghost predicate OnList(a: Contents, p: Place, cores: nat) {
    match p
    case InService(c) => c < cores
    case InRing3(c) => c < cores
    case Waiting(e) => e in a.events
    case OnCpu(_) => false
  }

  ghost predicate Linked(l: Links, h: Heads, a: Contents, on: Places, cores: nat) {
    LinkedBut(l, h, a, on, cores, None)
  }

  /** Of the threads on lists only those at p had their links changed, and only the list at p
      gained or lost threads. */
  ghost predicate OnlyAt(l: Links, l': Links, on: Places, on': Places, p: Place) {
    && (forall x :: x in on && on[x] != p ==> SameLink(l, l', x))
    && (forall x, q :: q != p ==> (At(on', x, q) <==> At(on, x, q)))
  }

  lemma QueueKept(l: Links, l': Links, q: List, ts: seq<Tid>, on: Places, on': Places, p: Place, at: Place)
    requires QueueOk(l, q, ts, on, at) && at != p && OnlyAt(l, l', on, on', p)
    ensures QueueOk(l', q, ts, on', at)
  {
    forall x | x in ts
      ensures SameLink(l, l', x)
    {
      assert At(on, x, at);
    }
    ChainFrame(l, l', q.head, ts);
    assert forall x: Tid :: x in ts <==> At(on', x, at);
  }

  lemma EventKept(l: Links, l': Links, x: EventHead, ev: KEvent, on: Places, on': Places, p: Place, e: EventId)
    requires EventOk(l, x, ev, on, e) && Waiting(e) != p && OnlyAt(l, l', on, on', p)
    ensures EventOk(l', x, ev, on', e)
  {
    forall y | y in ev.waiters
      ensures SameLink(l, l', y)
    {
      assert At(on, y, Waiting(e));
    }
    ChainFrame(l, l', x.waiters, ev.waiters);
    assert forall y: Tid :: y in ev.waiters <==> At(on', y, Waiting(e));
  }

  /** Whatever is done at one list, the other chains stand. */
  lemma OthersStand(l: Links, l': Links, h: Heads, a: Contents, on: Places, on': Places, cores: nat, p: Place)
    requires Linked(l, h, a, on, cores) && OnlyAt(l, l', on, on', p)
    requires forall x :: x in on' ==> OnList(a, on'[x], cores)
    ensures LinkedBut(l', h, a, on', cores, Some(p))
  {
    hide QueueOk, EventOk, OnlyAt, OnList;
    forall c | 0 <= c < cores && p != InService(c)
      ensures QueueOk(l', h.service[c], a.service[c], on', InService(c))
    {
      QueueKept(l, l', h.service[c], a.service[c], on, on', p, InService(c));
    }
    forall c | 0 <= c < cores && p != InRing3(c)
      ensures QueueOk(l', h.ring3[c], a.ring3[c], on', InRing3(c))
    {
      QueueKept(l, l', h.ring3[c], a.ring3[c], on, on', p, InRing3(c));
    }
    forall e | e in a.events && p != Waiting(e)
      ensures EventOk(l', h.events[e], a.events[e], on', e)
    {
      EventKept(l, l', h.events[e], a.events[e], on, on', p, e);
    }
  }

  lemma ListedDistinct(ts: seq<Tid>, on: Places, p: Place, t: Tid)
    requires Lists(ts, on, p) && t !in on
    ensures Distinct(ts) && t !in ts
  {
  }

  // ---- the four chain operations ----

  /** A thread on no list goes to the back of a queue. */
  lemma Joined(l: Links, l': Links, on: Places, ts: seq<Tid>, t: Tid, p: Place)
    requires Lists(ts, on, p) && t !in on
    requires forall x :: x != t && x !in ts ==> SameLink(l, l', x)
    ensures OnlyAt(l, l', on, on[t := p], p)
    ensures Lists(ts + [t], on[t := p], p) && Lists([t] + ts, on[t := p], p)
  {
    Appended(ts, on, p, t);
    forall x | x in on && on[x] != p
      ensures SameLink(l, l', x)
    {
      assert !At(on, x, p);
    }
  }

  lemma ServiceJoined(l: Links, l': Links, h: Heads, a: Contents, on: Places, cores: nat, c: Cpu, t: Tid, q: List)
    requires Linked(l, h, a, on, cores) && c < cores && t !in on
    requires Represents(l', q, a.service[c] + [t]) && forall x :: x != t && x !in a.service[c] ==> SameLink(l, l', x)
    ensures Linked(l', h.(service := h.service[c := q]), a.(service := a.service[c := a.service[c] + [t]]),
                   on[t := InService(c)], cores)
  {
    var on' := on[t := InService(c)];
    assert QueueOk(l, h.service[c], a.service[c], on, InService(c));
    hide OnlyAt, Represents, EventOk, Lists;
    Joined(l, l', on, a.service[c], t, InService(c));
    OthersStand(l, l', h, a, on, on', cores, InService(c));
    assert QueueOk(l', q, a.service[c] + [t], on', InService(c));
  }

  lemma Ring3Joined(l: Links, l': Links, h: Heads, a: Contents, on: Places, cores: nat, c: Cpu, t: Tid, q: List)
    requires Linked(l, h, a, on, cores) && c < cores && t !in on
    requires Represents(l', q, a.ring3[c] + [t]) && forall x :: x != t && x !in a.ring3[c] ==> SameLink(l, l', x)
    ensures Linked(l', h.(ring3 := h.ring3[c := q]), a.(ring3 := a.ring3[c := a.ring3[c] + [t]]),
                   on[t := InRing3(c)], cores)
  {
    var on' := on[t := InRing3(c)];
    assert QueueOk(l, h.ring3[c], a.ring3[c], on, InRing3(c));
    hide OnlyAt, Represents, EventOk, Lists;
    Joined(l, l', on, a.ring3[c], t, InRing3(c));
    OthersStand(l, l', h, a, on, on', cores, InRing3(c));
    assert QueueOk(l', q, a.ring3[c] + [t], on', InRing3(c));
  }

  lemma WaiterJoined(l: Links, l': Links, h: Heads, a: Contents, on: Places, cores: nat, e: EventId, t: Tid,
      p: Option<Tid>)
    requires Linked(l, h, a, on, cores) && e in a.events && t !in on
    requires Chain(l', p, [t] + a.events[e].waiters) && forall x :: x != t ==> SameLink(l, l', x)
    ensures Linked(l', h.(events := h.events[e := EventHead(h.events[e].flag, p)]),
                   a.(events := a.events[e := KEvent(a.events[e].flag, [t] + a.events[e].waiters)]),
                   on[t := Waiting(e)], cores)
  {
    var on' := on[t := Waiting(e)];
    assert EventOk(l, h.events[e], a.events[e], on, e);
    hide OnlyAt, Chain, QueueOk, Lists;
    Joined(l, l', on, a.events[e].waiters, t, Waiting(e));
    OthersStand(l, l', h, a, on, on', cores, Waiting(e));
    EventReplaced(l', h, a, on', cores, e, EventHead(h.events[e].flag, p),
                  KEvent(a.events[e].flag, [t] + a.events[e].waiters));
  }

  lemma EventReplaced(l: Links, h: Heads, a: Contents, on: Places, cores: nat, e: EventId, x: EventHead, ev: KEvent)
    requires LinkedBut(l, h, a, on, cores, Some(Waiting(e))) && e in a.events && EventOk(l, x, ev, on, e)
    ensures Linked(l, h.(events := h.events[e := x]), a.(events := a.events[e := ev]), on, cores)
  {
    hide QueueOk, EventOk;
  }

  /** The first thread of a queue leaves it. */
  lemma Left(l: Links, l': Links, on: Places, ts: seq<Tid>, p: Place)
    requires Lists(ts, on, p) && ts != []
    requires forall x: Tid :: x != ts[0] ==> SameLink(l, l', x)
    ensures OnlyAt(l, l', on, on - {ts[0]}, p)
    ensures Lists(ts[1..], on - {ts[0]}, p)
  {
    FirstGone(ts, on, p);
    assert At(on, ts[0], p);
  }

  lemma ServiceLeft(l: Links, l': Links, h: Heads, a: Contents, on: Places, cores: nat, c: Cpu, q: List)
    requires Linked(l, h, a, on, cores) && c < cores && a.service[c] != []
    requires Represents(l', q, a.service[c][1..]) && forall x: Tid :: x != a.service[c][0] ==> SameLink(l, l', x)
    ensures Linked(l', h.(service := h.service[c := q]), a.(service := a.service[c := a.service[c][1..]]),
                   on - {a.service[c][0]}, cores)
  {
    var on' := on - {a.service[c][0]};
    assert QueueOk(l, h.service[c], a.service[c], on, InService(c));
    hide OnlyAt, Represents, EventOk, Lists;
    Left(l, l', on, a.service[c], InService(c));
    OthersStand(l, l', h, a, on, on', cores, InService(c));
    assert QueueOk(l', q, a.service[c][1..], on', InService(c));
  }

  lemma Ring3Left(l: Links, l': Links, h: Heads, a: Contents, on: Places, cores: nat, c: Cpu, q: List)
    requires Linked(l, h, a, on, cores) && c < cores && a.ring3[c] != []
    requires Represents(l', q, a.ring3[c][1..]) && forall x: Tid :: x != a.ring3[c][0] ==> SameLink(l, l', x)
    ensures Linked(l', h.(ring3 := h.ring3[c := q]), a.(ring3 := a.ring3[c := a.ring3[c][1..]]),
                   on - {a.ring3[c][0]}, cores)
  {
    var on' := on - {a.ring3[c][0]};
    assert QueueOk(l, h.ring3[c], a.ring3[c], on, InRing3(c));
    hide OnlyAt, Represents, EventOk, Lists;
    Left(l, l', on, a.ring3[c], InRing3(c));
    OthersStand(l, l', h, a, on, on', cores, InRing3(c));
    assert QueueOk(l', q, a.ring3[c][1..], on', InRing3(c));
  }

  /** Signal takes a whole waiter list off its event. */
  lemma WaitersTaken(l: Links, h: Heads, a: Contents, on: Places, cores: nat, e: EventId)
    requires Linked(l, h, a, on, cores) && e in a.events
    ensures Linked(l, h.(events := h.events[e := EventHead(true, None)]),
                   a.(events := a.events[e := KEvent(true, [])]), Without(on, a.events[e].waiters), cores)
    ensures Distinct(a.events[e].waiters) && Chain(l, h.events[e].waiters, a.events[e].waiters)
    ensures h.events[e].flag == a.events[e].flag
  {
    var ts := a.events[e].waiters;
    var on' := Without(on, ts);
    assert EventOk(l, h.events[e], a.events[e], on, e);
    ListsDistinct(ts, on, Waiting(e));
    hide OnlyAt, QueueOk, Lists, Without, Distinct;
    TakenAway(l, on, ts, e);
    WithoutPlaces(on, ts);
    OthersStand(l, l, h, a, on, on', cores, Waiting(e));
    EventReplaced(l, h, a, on', cores, e, EventHead(true, None), KEvent(true, []));
  }

  lemma TakenAway(l: Links, on: Places, ts: seq<Tid>, e: EventId)
    requires Lists(ts, on, Waiting(e))
    ensures OnlyAt(l, l, on, Without(on, ts), Waiting(e)) && Lists([], Without(on, ts), Waiting(e))
  {
    assert forall t: Tid :: t in ts <==> At(on, t, Waiting(e));
  }

  lemma WithoutPlaces(on: Places, ts: seq<Tid>)
    ensures forall x :: x in Without(on, ts) ==> x in on && Without(on, ts)[x] == on[x] && x !in ts
  {
  }

  lemma FlagSet(l: Links, h: Heads, a: Contents, on: Places, cores: nat, e: EventId, flag: bool)
    requires Linked(l, h, a, on, cores) && e in a.events
    ensures Linked(l, h.(events := h.events[e := h.events[e].(flag := flag)]),
                   a.(events := a.events[e := KEvent(flag, a.events[e].waiters)]), on, cores)
  {
    hide QueueOk, Chain, Lists;
    EventReplaced(l, h, a, on, cores, e, h.events[e].(flag := flag), KEvent(flag, a.events[e].waiters));
  }

  // ---- threads on no list ----

  /** A thread placed on a CPU, or nowhere, is on no list. */
  lemma OffLists(s: Sched, pl: Places, l: Links, h: Heads, on: Places, t: Tid)
    requires Inv(s, pl) && Linked(l, h, Contents(s.service, s.ring3, s.events), on, s.cores)
    requires t !in pl || pl[t].OnCpu?
    ensures t !in on
  {
    if t in on {
      hide Lists, Represents, Chain, ThreadsOk;
      var p := on[t];
      if p.InService? {
        SameList(s.service[p.c], on, pl, p, t);
      } else if p.InRing3? {
        SameList(s.ring3[p.c], on, pl, p, t);
      } else if p.Waiting? {
        SameList(s.events[p.e].waiters, on, pl, p, t);
      }
    }
  }

  lemma SameList(ts: seq<Tid>, on: Places, pl: Places, p: Place, t: Tid)
    requires Lists(ts, on, p) && Lists(ts, pl, p) && At(on, t, p)
    ensures At(pl, t, p)
  {
    assert t in ts;
  }

  lemma RunningPlaced(s: Sched, pl: Places, c: Cpu)
    requires Inv(s, pl) && c < s.cores && s.running[c].Some?
    ensures At(pl, s.running[c].value, OnCpu(c))
  {
    assert Runs(s.running[c], pl, c);
  }

  class Scheduler {
    const cores: nat
    const links: WakeLinks
    var queues: seq<List>
    var queuesRing3: seq<List>
    var running: seq<Option<Tid>>
    var threads: map<Tid, Thread>
    var events: map<EventId, EventHead>
    var rr: nat
    ghost var held: Contents
    ghost var on: Places

    ghost function State(): Sched
      reads this
    {
      Sched(cores, held.service, held.ring3, running, threads, held.events, rr)
    }

    /** The chains hold what State says, each thread on at most one. */
    ghost predicate Valid()
      reads this, links
    {
      Linked(links.next, Heads(queues, queuesRing3, events), held, on, cores) && |running| == cores
    }

    /** The placement invariant of whole runs. */
    ghost predicate Placed()
      reads this
    {
      exists pl :: Inv(State(), pl)
    }

    constructor (n: nat, es: set<EventId>)
      requires n >= 2
      ensures Valid() && Placed() && Fresh(State()) && cores == n && held.events.Keys == es && fresh(links)
    {
      cores := n;
      links := new WakeLinks();
      queues := seq(n, _ => EMPTY);
      queuesRing3 := seq(n, _ => EMPTY);
      running := seq(n, _ => None);
      threads := map[];
      events := map e | e in es :: EventHead(false, None);
      rr := 0;
      held := Contents(seq(n, _ => []), seq(n, _ => []), map e | e in es :: KEvent(false, []));
      on := map[];
      new;
      hide Inv;
      FreshInv(State());
    }

    /** A step of the placement model keeps its invariant. */
    ghost method Stepped(s: Sched, st: Step)
      requires Shaped(s) && Enabled(s, st) && State() == Do(s, st) && exists pl :: Inv(s, pl)
      ensures Placed()
    {
      hide Do, Inv;
      var pl :| Inv(s, pl);
      var pl' := StepInv(s, pl, st);
    }

    // ---- queue operations ----

    method Push(t: Tid, cpu: Cpu)
      requires Valid() && cpu < cores && t in threads && t !in on
      modifies this`queues, this`threads, this`held, this`on, links
      ensures Valid() && State() == PushService(old(State()), t, cpu) && on == old(on)[t := InService(cpu)]
      ensures OffListsKept(old(links.next), links.next, old(on), t)
    {
      hide Represents, EventOk, Lists;
      ghost var l := links.next;
      assert QueueOk(l, queues[cpu], held.service[cpu], on, InService(cpu));
      ListedDistinct(held.service[cpu], on, InService(cpu), t);
      threads := threads[t := threads[t].(state := Runnable, owner := cpu)];
      var q := links.PushLocked(queues[cpu], t, held.service[cpu]);
      ServiceJoined(l, links.next, Heads(queues, queuesRing3, events), held, on, cores, cpu, t, q);
      OffListLinks(l, links.next, held.service[cpu], on, InService(cpu), t);
      queues := queues[cpu := q];
      held := held.(service := held.service[cpu := held.service[cpu] + [t]]);
      on := on[t := InService(cpu)];
    }

    method PushRing3(t: Tid, cpu: Cpu)
      requires Valid() && cpu < cores && t in threads && t !in on
      modifies this`queuesRing3, this`threads, this`held, this`on, links
      ensures Valid() && State() == KSched.PushRing3(old(State()), t, cpu) && on == old(on)[t := InRing3(cpu)]
      ensures OffListsKept(old(links.next), links.next, old(on), t)
    {
      hide Represents, EventOk, Lists;
      ghost var l := links.next;
      assert QueueOk(l, queuesRing3[cpu], held.ring3[cpu], on, InRing3(cpu));
      ListedDistinct(held.ring3[cpu], on, InRing3(cpu), t);
      threads := threads[t := threads[t].(state := Runnable, owner := cpu)];
      var q := links.PushLocked(queuesRing3[cpu], t, held.ring3[cpu]);
      Ring3Joined(l, links.next, Heads(queues, queuesRing3, events), held, on, cores, cpu, t, q);
      OffListLinks(l, links.next, held.ring3[cpu], on, InRing3(cpu), t);
      queuesRing3 := queuesRing3[cpu := q];
      held := held.(ring3 := held.ring3[cpu := held.ring3[cpu] + [t]]);
      on := on[t := InRing3(cpu)];
    }

    method Pop(cpu: Cpu) returns (t: Option<Tid>)
      requires Valid() && cpu < cores
      modifies this`queues, this`held, this`on, links
      ensures Valid()
      ensures t.None? <==> old(held).service[cpu] == []
      ensures t.None? ==> State() == old(State())
      ensures t.Some? ==>
                && t.value == old(held).service[cpu][0]
                && State() == old(State()).(service := old(held).service[cpu := old(held).service[cpu][1..]])
    {
      hide Represents, EventOk, Lists;
      ghost var l := links.next;
      assert QueueOk(l, queues[cpu], held.service[cpu], on, InService(cpu));
      ListsDistinct(held.service[cpu], on, InService(cpu));
      var q;
      t, q := links.PopLocked(queues[cpu], held.service[cpu]);
      if t.None? {
        EmptyKept(l, links.next, Heads(queues, queuesRing3, events), held, on, cores);
        return;
      }
      ServiceLeft(l, links.next, Heads(queues, queuesRing3, events), held, on, cores, cpu, q);
      queues := queues[cpu := q];
      on := on - {t.value};
      held := held.(service := held.service[cpu := held.service[cpu][1..]]);
    }

    method PopRing3(cpu: Cpu) returns (t: Option<Tid>)
      requires Valid() && cpu < cores
      modifies this`queuesRing3, this`held, this`on, links
      ensures Valid()
      ensures t.None? <==> old(held).ring3[cpu] == []
      ensures t.None? ==> State() == old(State())
      ensures t.Some? ==> t.value == old(held).ring3[cpu][0] && State() == KSched.PopRing3(old(State()), cpu)
    {
      hide Represents, EventOk, Lists;
      ghost var l := links.next;
      assert QueueOk(l, queuesRing3[cpu], held.ring3[cpu], on, InRing3(cpu));
      ListsDistinct(held.ring3[cpu], on, InRing3(cpu));
      var q;
      t, q := links.PopLocked(queuesRing3[cpu], held.ring3[cpu]);
      if t.None? {
        EmptyKept(l, links.next, Heads(queues, queuesRing3, events), held, on, cores);
        return;
      }
      Ring3Left(l, links.next, Heads(queues, queuesRing3, events), held, on, cores, cpu, q);
      queuesRing3 := queuesRing3[cpu := q];
      on := on - {t.value};
      held := held.(ring3 := held.ring3[cpu := held.ring3[cpu][1..]]);
    }

    /** CPU 0 is never a steal victim. */
    method StealRing3(from: Cpu, to: Cpu) returns (t: Option<Tid>)
      requires Valid()
      modifies this`queuesRing3, this`held, this`on, links
      ensures Valid()
      ensures t.Some? <==> 0 < from < cores && from != to && old(held).ring3[from] != []
      ensures t.None? ==> State() == old(State())
      ensures t.Some? ==> t.value == old(held).ring3[from][0] && State() == KSched.PopRing3(old(State()), from)
    {
      hide QueueOk, EventOk;
      if from >= cores || from == to || from == 0 {
        return None;
      }
      t := PopRing3(from);
    }

    // ---- spawning ----

    /** Both kschedSpawnAt and kschedSpawn end on CPU 0, whatever target was asked for. */
    method SpawnAt(t: Tid, targetCpu: Cpu)
      requires Valid() && Placed() && t !in threads
      modifies this, links
      ensures Valid() && Placed() && State() == Do(old(State()), SpawnService(t))
    {
      hide QueueOk, EventOk, Inv;
      NewOffLists(t);
      threads := threads[t := Thread(Runnable, 0, false, Service)];
      Push(t, 0);
      Stepped(old(State()), SpawnService(t));
    }

    method SpawnRing3Wrapper(t: Tid)
      requires Valid() && Placed() && t !in threads
      modifies this, links
      ensures Valid() && Placed() && State() == Do(old(State()), SpawnChild(t))
    {
      hide QueueOk, EventOk, Inv;
      NewOffLists(t);
      threads := threads[t := Thread(Runnable, 0, true, Child)];
      var target := 1 + rr % (cores - 1);
      rr := (rr + 1) % RR_MOD;
      PushRing3(t, target);
      Stepped(old(State()), SpawnChild(t));
    }

    method SpawnRing3WrapperOnBsp(t: Tid)
      requires Valid() && Placed() && t !in threads
      modifies this, links
      ensures Valid() && Placed() && State() == Do(old(State()), SpawnShell(t))
    {
      hide QueueOk, EventOk, Inv;
      NewOffLists(t);
      threads := threads[t := Thread(Runnable, 0, true, Shell)];
      PushRing3(t, 0);
      Stepped(old(State()), SpawnShell(t));
    }

    lemma NewOffLists(t: Tid)
      requires Valid() && Placed() && t !in threads
      ensures t !in on
    {
      hide Linked, Inv;
      var pl :| Inv(State(), pl);
      NotPlaced(State(), pl, t);
      OffLists(State(), pl, links.next, Heads(queues, queuesRing3, events), on, t);
    }

    lemma RunningOffLists(cpu: Cpu)
      requires Valid() && Placed() && cpu < cores && running[cpu].Some?
      ensures running[cpu].value !in on
    {
      hide Linked, Inv;
      var pl :| Inv(State(), pl);
      RunningPlaced(State(), pl, cpu);
      OffLists(State(), pl, links.next, Heads(queues, queuesRing3, events), on, running[cpu].value);
    }

    // ---- dispatching ----

    method SwitchTo(t: Tid, cpu: Cpu)
      requires Valid() && cpu < cores
      modifies this`threads, this`running
      ensures Valid() && State() == Dispatch(old(State()), t, cpu)
    {
      hide QueueOk, EventOk;
      if t !in threads {
        return;
      }
      if threads[t].state == Exiting {
        threads := threads - {t};
        return;
      }
      running := running[cpu := Some(t)];
      threads := threads[t := threads[t].(state := Running, owner := cpu)];
    }

    /** kschedLoopOnce on CPU 0, up to the switch. */
    method LoopOnce()
      requires Valid() && Placed() && running[0] == None
      modifies this, links
      ensures Valid() && Placed() && State() == Do(old(State()), PumpService)
    {
      hide QueueOk, EventOk, Inv;
      var t := Pop(0);
      if t.Some? {
        SwitchTo(t.value, 0);
      }
      Stepped(old(State()), PumpService);
    }

    /** kschedLoopRing3OnlyOnce(0), up to the switch. */
    method LoopRing3OnlyOnce()
      requires Valid() && Placed() && running[0] == None
      modifies this, links
      ensures Valid() && Placed() && State() == Do(old(State()), PumpRing3)
    {
      hide QueueOk, EventOk, Inv;
      var t := PopRing3(0);
      if t.Some? {
        SwitchTo(t.value, 0);
      }
      Stepped(old(State()), PumpRing3);
    }

    /** The stealing loop of an idle CPU. */
    method StealAny(cpu: Cpu) returns (t: Option<Tid>)
      requires Valid() && 1 <= cpu < cores
      modifies this`queuesRing3, this`held, this`on, links
      ensures Valid() && Shaped(old(State()))
      ensures var src := StealSource(old(State()), cpu, 1);
              if src.None? then t.None? && State() == old(State())
              else t == Some(old(held).ring3[src.value][0]) && State() == KSched.PopRing3(old(State()), src.value)
    {
      StillShaped();
      hide Linked;
      t := None;
      var i := 1;
      while i < cores
        modifies this`queuesRing3, this`held, this`on, links
        invariant 1 <= i <= cores && Valid() && State() == old(State())
        invariant StealSource(old(State()), cpu, 1) == StealSource(old(State()), cpu, i)
      {
        var src := (cpu + i) % cores;
        if src != 0 {
          t := StealRing3(src, cpu);
          if t.Some? {
            return;
          }
        }
        i := i + 1;
      }
      t := None;
    }

    /** One pass of kschedLoopRing3Only on another CPU: its own queue first, then the neighbours. */
    method LoopRing3Pass(cpu: Cpu)
      requires Valid() && Placed() && 1 <= cpu < cores && running[cpu] == None
      modifies this, links
      ensures Valid() && Placed() && State() == Do(old(State()), ApLoop(cpu))
    {
      StillShaped();
      hide Linked, Inv, StealSource;
      var t := PopRing3(cpu);
      if t.None? {
        t := StealAny(cpu);
      }
      if t.Some? {
        SwitchTo(t.value, cpu);
      }
      Stepped(old(State()), ApLoop(cpu));
    }

    // ---- the running thread's own steps ----

    method YieldCpu(cpu: Cpu)
      requires Valid() && Placed() && Enabled(State(), Yield(cpu))
      modifies this, links
      ensures Valid() && Placed() && State() == Do(old(State()), Yield(cpu))
    {
      hide QueueOk, EventOk, Inv;
      RunningOffLists(cpu);
      var t := running[cpu].value;
      if threads[t].hosted {
        PushRing3(t, cpu);
      } else {
        Push(t, cpu);
      }
      running := running[cpu := None];
      Stepped(old(State()), Yield(cpu));
    }

    /** A thread on no list goes on top of an event's waiters. */
    method LinkWaiter(t: Tid, e: EventId)
      requires Valid() && e in held.events && t !in on
      modifies this`events, this`held, this`on, links
      ensures Valid()
      ensures held == old(held).(events :=
                        old(held).events[e := KEvent(old(held).events[e].flag, [t] + old(held).events[e].waiters)])
    {
      ghost var l := links.next;
      EventPart(e);
      hide Linked, Chain, Lists;
      ListedDistinct(held.events[e].waiters, on, Waiting(e), t);
      var p := links.PushTop(events[e].waiters, t, held.events[e].waiters);
      WaiterJoined(l, links.next, Heads(queues, queuesRing3, events), held, on, cores, e, t, p);
      events := events[e := EventHead(events[e].flag, p)];
      held := held.(events := held.events[e := KEvent(held.events[e].flag, [t] + held.events[e].waiters)]);
      on := on[t := Waiting(e)];
    }

    lemma FlagIs(e: EventId)
      requires Valid() && e in held.events
      ensures e in events && events[e].flag == held.events[e].flag
    {
      EventPart(e);
    }

    /** The thread on cpu parks on an event that is not signalled. */
    method ParkOn(cpu: Cpu, e: EventId)
      requires Valid() && cpu < cores && running[cpu].Some? && running[cpu].value in threads && e in held.events
      requires running[cpu].value !in on
      modifies this`events, this`held, this`on, this`threads, this`running, links
      ensures Valid()
      ensures var s, t := old(State()), old(running)[cpu].value;
              State() == s.(running := s.running[cpu := None],
                            threads := s.threads[t := s.threads[t].(state := Parked)],
                            events := s.events[e := KEvent(s.events[e].flag, [t] + s.events[e].waiters)])
    {
      hide Linked;
      var t := running[cpu].value;
      LinkWaiter(t, e);
      threads := threads[t := threads[t].(state := Parked)];
      running := running[cpu := None];
    }

    /** One pass of KEvent.Wait by the thread on cpu; false when it parked. */
    method WaitPass(cpu: Cpu, e: EventId) returns (passed: bool)
      requires Valid() && Placed() && Enabled(State(), Wait(cpu, e))
      modifies this, links
      ensures Valid() && Placed() && State() == Do(old(State()), Wait(cpu, e)) && passed == old(held).events[e].flag
    {
      StillShaped();
      WaitIs(State(), cpu, e);
      FlagIs(e);
      hide Linked, Inv, Do, Enabled;
      passed := events[e].flag;
      if !passed {
        RunningOffLists(cpu);
        ParkOn(cpu, e);
      }
      Stepped(old(State()), Wait(cpu, e));
    }

    method WakeThread(t: Tid)
      requires Valid() && t !in on
      modifies this`queues, this`queuesRing3, this`threads, this`held, this`on, links
      ensures Valid() && State() == Wake(old(State()), t)
      ensures OffListsKept(old(links.next), links.next, old(on), t)
      ensures forall x :: x in on ==> x in old(on) || x == t
    {
      hide QueueOk, EventOk;
      if t !in threads || threads[t].state != Parked || threads[t].owner >= cores {
        return;
      }
      if threads[t].hosted {
        PushRing3(t, threads[t].owner);
      } else {
        Push(t, threads[t].owner);
      }
    }

    /** The wake-up loop of Signal over the list it took: each thread's link is read and cleared
        before the thread is pushed, so the walk survives the relinking. */
    method WakeChain(first: Option<Tid>, ghost ts: seq<Tid>)
      requires Valid() && Chain(links.next, first, ts) && Distinct(ts) && forall t :: t in ts ==> t !in on
      modifies this`queues, this`queuesRing3, this`threads, this`held, this`on, links
      ensures Valid() && State() == WakeAll(old(State()), ts)
    {
      hide Wake, Linked, Chain;
      StillShaped();
      var w := first;
      ghost var rest := ts;
      while w != None
        modifies this`queues, this`queuesRing3, this`threads, this`held, this`on, links
        invariant Valid() && Shaped(State()) && WakeAll(old(State()), ts) == WakeAll(State(), rest)
        invariant Chain(links.next, w, rest) && Distinct(rest) && forall t :: t in rest ==> t !in on
        decreases |rest|
      {
        ChainStart(links.next, w, rest);
        DistinctTail(rest);
        ghost var l := links.next;
        var next := links.TakeTop(w.value, rest);
        OffListChange(l, links.next, Heads(queues, queuesRing3, events), held, on, cores, w.value);
        ghost var l1, on1 := links.next, on;
        WakeThread(w.value);
        StillChained(l1, links.next, next, rest[1..], on1, w.value);
        StillShaped();
        w := next;
        rest := rest[1..];
      }
      ChainEnd(links.next, rest);
    }

    lemma EventPart(e: EventId)
      requires Valid() && e in held.events
      ensures e in events && EventOk(links.next, events[e], held.events[e], on, e)
    {
    }

    lemma StillShaped()
      requires Valid()
      ensures Shaped(State()) && events.Keys == held.events.Keys
    {
      hide QueueOk, EventOk;
    }

    /** Set the flag and take the whole waiter list. */
    method DetachWaiters(e: EventId) returns (w: Option<Tid>, ghost ts: seq<Tid>)
      requires Valid() && e in held.events
      modifies this`events, this`held, this`on
      ensures Valid() && ts == old(held).events[e].waiters
      ensures held == old(held).(events := old(held).events[e := KEvent(true, [])])
      ensures Chain(links.next, w, ts) && Distinct(ts) && forall t :: t in ts ==> t !in on
    {
      EventPart(e);
      hide Linked, Chain, Lists, Distinct;
      WaitersTaken(links.next, Heads(queues, queuesRing3, events), held, on, cores, e);
      WithoutPlaces(on, held.events[e].waiters);
      w := events[e].waiters;
      ts := held.events[e].waiters;
      events := events[e := EventHead(true, None)];
      held := held.(events := held.events[e := KEvent(true, [])]);
      on := Without(on, ts);
    }

    method SignalEvent(e: EventId)
      requires Valid() && Placed() && e in events
      modifies this, links
      ensures Valid() && Placed() && State() == Do(old(State()), Signal(e))
    {
      StillShaped();
      SignalIs(State(), e);
      hide Wake, WakeAll, Linked, Inv, Chain, Distinct, Do, Enabled;
      ghost var ts;
      var w;
      w, ts := DetachWaiters(e);
      WakeChain(w, ts);
      Stepped(old(State()), Signal(e));
    }

    method ResetEvent(e: EventId)
      requires Valid() && Placed() && e in events
      modifies this
      ensures Valid() && Placed() && State() == Do(old(State()), Reset(e))
    {
      hide QueueOk, EventOk, Inv;
      FlagSet(links.next, Heads(queues, queuesRing3, events), held, on, cores, e, false);
      events := events[e := events[e].(flag := false)];
      held := held.(events := held.events[e := KEvent(false, held.events[e].waiters)]);
      Stepped(old(State()), Reset(e));
    }

    /** processExit's last act and kschedExit: the side-table entry is cleared, the thread marked,
        and CPU 0's pump reclaims the slot when the switch returns. */
    method ExitThread(cpu: Cpu)
      requires Valid() && Placed() && Enabled(State(), Exit(cpu))
      modifies this
      ensures Valid() && Placed() && State() == Do(old(State()), Exit(cpu))
    {
      hide QueueOk, EventOk, Inv;
      var t := running[cpu].value;
      threads := threads[t := threads[t].(hosted := false, state := Exiting)];
      if cpu == 0 {
        threads := threads - {t};
      }
      running := running[cpu := None];
      Stepped(old(State()), Exit(cpu));
    }
  }

  lemma WaitIs(s: Sched, c: Cpu, e: EventId)
    requires Shaped(s) && Enabled(s, Wait(c, e))
    ensures c < s.cores && s.running[c].Some? && s.running[c].value in s.threads && e in s.events
    ensures var t := s.running[c].value;
            Do(s, Wait(c, e)) ==
            if s.events[e].flag then s
            else s.(running := s.running[c := None], threads := s.threads[t := s.threads[t].(state := Parked)],
                    events := s.events[e := KEvent(false, [t] + s.events[e].waiters)])
  {
  }

  lemma SignalIs(s: Sched, e: EventId)
    requires Shaped(s) && e in s.events
    ensures Enabled(s, Signal(e))
    ensures Do(s, Signal(e)) == WakeAll(s.(events := s.events[e := KEvent(true, [])]), s.events[e].waiters)
  {
    hide WakeAll;
  }

  /** The links of threads on no list are left alone. */
  ghost predicate OffListsKept(l: Links, l': Links, on: Places, t: Tid) {
    forall x: Tid :: x !in on && x != t ==> SameLink(l, l', x)
  }

  lemma OffListLinks(l: Links, l': Links, ts: seq<Tid>, on: Places, p: Place, t: Tid)
    requires Lists(ts, on, p) && forall x :: x != t && x !in ts ==> SameLink(l, l', x)
    ensures OffListsKept(l, l', on, t)
  {
    forall x: Tid | x !in on && x != t
      ensures SameLink(l, l', x)
    {
      assert !At(on, x, p);
    }
  }

  lemma ListsDistinct(ts: seq<Tid>, on: Places, p: Place)
    requires Lists(ts, on, p)
    ensures Distinct(ts)
  {
  }

  lemma NotPlaced(s: Sched, pl: Places, t: Tid)
    requires Inv(s, pl) && t !in s.threads
    ensures t !in pl
  {
    hide Consistent;
    assert t in pl ==> ThreadOk(s, t, pl[t]);
  }

  lemma EmptyKept(l: Links, l': Links, h: Heads, a: Contents, on: Places, cores: nat)
    requires Linked(l, h, a, on, cores) && forall x: Tid :: SameLink(l, l', x)
    ensures Linked(l', h, a, on, cores)
  {
    hide Lists;
    forall c | 0 <= c < cores
      ensures QueueOk(l', h.service[c], a.service[c], on, InService(c))
          && QueueOk(l', h.ring3[c], a.ring3[c], on, InRing3(c))
    {
      ChainFrame(l, l', h.service[c].head, a.service[c]);
      ChainFrame(l, l', h.ring3[c].head, a.ring3[c]);
    }
    forall e | e in a.events
      ensures EventOk(l', h.events[e], a.events[e], on, e)
    {
      ChainFrame(l, l', h.events[e].waiters, a.events[e].waiters);
    }
  }

  /** Changing the link of a thread that is on no list breaks no chain. */
  lemma OffListChange(l: Links, l': Links, h: Heads, a: Contents, on: Places, cores: nat, t: Tid)
    requires Linked(l, h, a, on, cores) && t !in on && forall x :: x != t ==> SameLink(l, l', x)
    ensures Linked(l', h, a, on, cores)
  {
    forall c | 0 <= c < cores
      ensures QueueOk(l', h.service[c], a.service[c], on, InService(c))
          && QueueOk(l', h.ring3[c], a.ring3[c], on, InRing3(c))
    {
      assert QueueOk(l, h.service[c], a.service[c], on, InService(c))
          && QueueOk(l, h.ring3[c], a.ring3[c], on, InRing3(c));
      ListedDistinct(a.service[c], on, InService(c), t);
      ListedDistinct(a.ring3[c], on, InRing3(c), t);
      hide Lists;
      ChainFrame(l, l', h.service[c].head, a.service[c]);
      ChainFrame(l, l', h.ring3[c].head, a.ring3[c]);
    }
    forall e | e in a.events
      ensures EventOk(l', h.events[e], a.events[e], on, e)
    {
      assert EventOk(l, h.events[e], a.events[e], on, e);
      ListedDistinct(a.events[e].waiters, on, Waiting(e), t);
      hide Lists;
      ChainFrame(l, l', h.events[e].waiters, a.events[e].waiters);
    }
  }

  lemma ChainStart(l: Links, p: Option<Tid>, ts: seq<Tid>)
    requires Chain(l, p, ts) && p != None
    ensures ts != [] && p == Some(ts[0])
  {
  }

  lemma ChainEnd(l: Links, ts: seq<Tid>)
    requires Chain(l, None, ts)
    ensures ts == []
  {
  }

  lemma StillChained(l: Links, l': Links, p: Option<Tid>, ts: seq<Tid>, on: Places, t: Tid)
    requires Chain(l, p, ts) && OffListsKept(l, l', on, t) && t !in ts && forall x :: x in ts ==> x !in on
    ensures Chain(l', p, ts)
  {
    ChainFrame(l, l', p, ts);
  }
}
