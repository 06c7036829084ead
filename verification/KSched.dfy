/** Thread placement over the service and Ring-3 tiers: spawn, dispatch, steal, yield, wait,
    signal and exit (src/kthread_sched.go:82-169, 258-501; src/kthread_lifecycle.go:24-34, 110-199;
    src/kthread_ring3.go:40-90; src/kthread_event.go:32-96). CPU 0 is the boot processor, which
    pumps both tiers; the others run Ring-3 hosts only. Linking oneself under a lock and switching
    away is one step. */
module KSched {
  import opened KList

  /** The round-robin counter is 32 bits wide. */
  const RR_MOD: nat := 0x1_0000_0000

  type Cpu = nat
  type EventId = nat

  datatype KState = Runnable | Running | Parked | Exiting

  /** How a thread was spawned: service thread, the boot shell's host, or an exec'd child's host. */
  datatype Kind = Service | Shell | Child

  /** hosted is whether the side table maps the thread's slot to a process. */
  datatype Thread = Thread(state: KState, owner: Cpu, hosted: bool, kind: Kind)

  datatype KEvent = KEvent(flag: bool, waiters: seq<Tid>)

  datatype Sched = Sched(
    cores: nat,
    service: seq<seq<Tid>>,
    ring3: seq<seq<Tid>>,
    running: seq<Option<Tid>>,
    threads: map<Tid, Thread>,
    events: map<EventId, KEvent>,
    rr: nat)

  predicate Shaped(s: Sched) {
    2 <= s.cores && |s.service| == s.cores && |s.ring3| == s.cores && |s.running| == s.cores
  }

  // ---- queues ----

  /** kschedPush: runnable, owned by the target, at the back of its service queue. */
  function PushService(s: Sched, t: Tid, c: Cpu): Sched
    requires Shaped(s) && c < s.cores && t in s.threads
  {
    s.(service := s.service[c := s.service[c] + [t]],
       threads := s.threads[t := s.threads[t].(state := Runnable, owner := c)])
  }

  /** kschedPushRing3: the same on the Ring-3 tier. */
  function PushRing3(s: Sched, t: Tid, c: Cpu): Sched
    requires Shaped(s) && c < s.cores && t in s.threads
  {
    s.(ring3 := s.ring3[c := s.ring3[c] + [t]],
       threads := s.threads[t := s.threads[t].(state := Runnable, owner := c)])
  }

  /** Back on the tier the thread belongs to. */
  function PushTier(s: Sched, t: Tid, c: Cpu): Sched
    requires Shaped(s) && c < s.cores && t in s.threads
  {
    if s.threads[t].hosted then PushRing3(s, t, c) else PushService(s, t, c)
  }

  function Run(s: Sched, t: Tid, c: Cpu): Sched
    requires Shaped(s) && c < s.cores && t in s.threads
  {
    s.(running := s.running[c := Some(t)],
       threads := s.threads[t := s.threads[t].(state := Running, owner := c)])
  }

  /** The first Ring-3 queue an idle CPU c >= 1 would steal from, looking at (c + i) mod cores
      for i = from, from + 1, ..., never at CPU 0. */
  function StealSource(s: Sched, c: Cpu, from: nat): (src: Option<Cpu>)
    requires Shaped(s) && c < s.cores
    ensures src.Some? ==> 0 < src.value < s.cores && src.value != c && s.ring3[src.value] != []
    decreases s.cores - from
  {
    if from >= s.cores then None
    else
      var src := (c + from) % s.cores;
      if src != 0 && src != c && s.ring3[src] != [] then Some(src) else StealSource(s, c, from + 1)
  }

  // ---- steps ----

  datatype Step =
    | SpawnService(t: Tid)
    | SpawnChild(t: Tid)
    | SpawnShell(t: Tid)
    | PumpService
    | PumpRing3
    | ApLoop(c: Cpu)
    | Yield(c: Cpu)
    | Wait(c: Cpu, e: EventId)
    | Signal(e: EventId)
    | Reset(e: EventId)
    | Exit(c: Cpu)

  /** A spawn takes an unused pool slot; a thread acts only while it runs; a CPU dispatches only
      while it runs nothing. */
  predicate Enabled(s: Sched, st: Step)
    requires Shaped(s)
  {
    match st
    case SpawnService(t) => t !in s.threads
    case SpawnChild(t) => t !in s.threads
    case SpawnShell(t) => t !in s.threads
    case PumpService => s.running[0] == None
    case PumpRing3 => s.running[0] == None
    case ApLoop(c) => 1 <= c < s.cores && s.running[c] == None
    case Yield(c) => c < s.cores && s.running[c].Some? && s.running[c].value in s.threads
    case Wait(c, e) => c < s.cores && s.running[c].Some? && s.running[c].value in s.threads && e in s.events
    case Signal(e) => e in s.events
    case Reset(e) => e in s.events
    case Exit(c) => c < s.cores && s.running[c].Some? && s.running[c].value in s.threads
  }

  function Spawned(s: Sched, t: Tid, hosted: bool, kind: Kind): Sched {
    s.(threads := s.threads[t := Thread(Runnable, 0, hosted, kind)])
  }

  function Wake(s: Sched, t: Tid): Sched
    requires Shaped(s)
  {
    if t in s.threads && s.threads[t].state == Parked && s.threads[t].owner < s.cores
    then PushTier(s, t, s.threads[t].owner) else s
  }

  function WakeAll(s: Sched, ts: seq<Tid>): Sched
    requires Shaped(s)
    decreases |ts|
  {
    if ts == [] then s else WakeAll(Wake(s, ts[0]), ts[1..])
  }

  function PopRing3(s: Sched, c: Cpu): Sched
    requires Shaped(s) && c < s.cores && s.ring3[c] != []
  {
    s.(ring3 := s.ring3[c := s.ring3[c][1..]])
  }

  /** A popped thread runs, unless it is exiting: then its slot is reclaimed. */
  function Dispatch(s: Sched, t: Tid, c: Cpu): Sched
    requires Shaped(s) && c < s.cores
  {
    if t !in s.threads then s
    else if s.threads[t].state == Exiting then s.(threads := s.threads - {t})
    else Run(s, t, c)
  }

  function DispatchRing3(s: Sched, from: Cpu, c: Cpu): Sched
    requires Shaped(s) && from < s.cores && c < s.cores && s.ring3[from] != []
  {
    Dispatch(PopRing3(s, from), s.ring3[from][0], c)
  }

  function Do(s: Sched, st: Step): Sched
    requires Shaped(s) && Enabled(s, st)
  {
    match st
    case SpawnService(t) => PushService(Spawned(s, t, false, Service), t, 0)
    case SpawnChild(t) =>
      PushRing3(Spawned(s, t, true, Child), t, 1 + s.rr % (s.cores - 1)).(rr := (s.rr + 1) % RR_MOD)
    case SpawnShell(t) => PushRing3(Spawned(s, t, true, Shell), t, 0)
    case PumpService =>
      if s.service[0] == [] then s
      else Dispatch(s.(service := s.service[0 := s.service[0][1..]]), s.service[0][0], 0)
    case PumpRing3 => if s.ring3[0] == [] then s else DispatchRing3(s, 0, 0)
    case ApLoop(c) =>
      if s.ring3[c] != [] then DispatchRing3(s, c, c)
      else (match StealSource(s, c, 1) case None => s case Some(src) => DispatchRing3(s, src, c))
    case Yield(c) => PushTier(s, s.running[c].value, c).(running := s.running[c := None])
    case Wait(c, e) =>
      var t := s.running[c].value;
      if s.events[e].flag then s
      else s.(running := s.running[c := None],
              threads := s.threads[t := s.threads[t].(state := Parked)],
              events := s.events[e := KEvent(false, [t] + s.events[e].waiters)])
    case Signal(e) => WakeAll(s.(events := s.events[e := KEvent(true, [])]), s.events[e].waiters)
    case Reset(e) => s.(events := s.events[e := KEvent(false, s.events[e].waiters)])
    case Exit(c) =>
      var t := s.running[c].value;
      var s1 := s.(running := s.running[c := None]);
      // the boot processor reclaims the slot; another CPU's loop leaves it marked Exiting
      if c == 0 then s1.(threads := s.threads - {t})
      else s1.(threads := s.threads[t := s.threads[t].(state := Exiting, hosted := false)])
  }

  // ---- where threads are ----

  datatype Place = InService(c: Cpu) | InRing3(c: Cpu) | OnCpu(c: Cpu) | Waiting(e: EventId)

  type Places = map<Tid, Place>

  ghost predicate At(pl: Places, t: Tid, p: Place) {
    t in pl && pl[t] == p
  }

  /** A list holds exactly the threads placed there, once each. */
  ghost predicate Lists(ts: seq<Tid>, pl: Places, p: Place) {
    Distinct(ts) && forall t :: t in ts <==> At(pl, t, p)
  }

  ghost predicate Runs(o: Option<Tid>, pl: Places, c: Cpu) {
    forall t: Tid :: o == Some(t) <==> At(pl, t, OnCpu(c))
  }

  /** The queues, CPUs and waiter lists agree with the places: every placed thread is in exactly
      the one list or CPU its place names. */
  ghost predicate Consistent(s: Sched, pl: Places) {
    && Shaped(s)
    && (forall c :: 0 <= c < s.cores ==> Lists(s.service[c], pl, InService(c)))
    && (forall c :: 0 <= c < s.cores ==> Lists(s.ring3[c], pl, InRing3(c)))
    && (forall c :: 0 <= c < s.cores ==> Runs(s.running[c], pl, c))
    && (forall e :: e in s.events ==> Lists(s.events[e].waiters, pl, Waiting(e)))
    && (forall t :: t in pl ==> Real(s, pl[t]))
  }

  ghost predicate Real(s: Sched, p: Place) {
    match p
    case InService(c) => c < s.cores
    case InRing3(c) => c < s.cores
    case OnCpu(c) => c < s.cores
    case Waiting(e) => e in s.events
  }

  /** The state a thread shows for its place. */
  function StateFor(p: Place): KState {
    match p
    case InService(_) => Runnable
    case InRing3(_) => Runnable
    case OnCpu(_) => Running
    case Waiting(_) => Parked
  }

  /** Where a thread of each kind may be and which CPU may own it. */
  ghost predicate HomeOk(k: Kind, owner: Cpu, cores: nat, p: Place) {
    match k
    case Service => owner == 0 && (p == InService(0) || p == OnCpu(0) || p.Waiting?)
    case Shell => owner == 0 && (p == InRing3(0) || p == OnCpu(0) || p.Waiting?)
    case Child => 1 <= owner < cores && (p == InRing3(owner) || p == OnCpu(owner) || p.Waiting?)
  }

  ghost predicate ThreadOk(s: Sched, t: Tid, p: Place) {
    && t in s.threads
    && s.threads[t].state == StateFor(p)
    && s.threads[t].hosted == (s.threads[t].kind != Service)
    && HomeOk(s.threads[t].kind, s.threads[t].owner, s.cores, p)
  }

  ghost predicate ThreadsOk(s: Sched, pl: Places) {
    && (forall t :: t in pl ==> ThreadOk(s, t, pl[t]))
    && (forall t :: t in s.threads && t !in pl ==> s.threads[t].state == Exiting)
  }

  ghost predicate Inv(s: Sched, pl: Places) {
    Consistent(s, pl) && ThreadsOk(s, pl)
  }

  // ---- taking a thread out of a place and putting it in one ----

  lemma Unplaced(ts: seq<Tid>, pl: Places, p: Place, t: Tid)
    requires Lists(ts, pl, p) && !At(pl, t, p)
    ensures Lists(ts, pl - {t}, p)
  {
    forall x: Tid
      ensures x in ts <==> At(pl - {t}, x, p)
    {
    }
  }

  lemma FirstGone(ts: seq<Tid>, pl: Places, p: Place)
    requires Lists(ts, pl, p) && ts != []
    ensures Lists(ts[1..], pl - {ts[0]}, p)
  {
    var t := ts[0];
    forall x: Tid
      ensures x in ts[1..] <==> At(pl - {t}, x, p)
    {
      assert x in ts <==> At(pl, x, p);
      assert x in [t] + ts[1..] <==> x == t || x in ts[1..];
      assert ts == [t] + ts[1..];
      if x in ts[1..] {
        var i :| 0 <= i < |ts[1..]| && ts[1..][i] == x;
        assert ts[i + 1] == x && ts[0] != ts[i + 1];
      }
    }
  }

  lemma Elsewhere(ts: seq<Tid>, pl: Places, p: Place, t: Tid, p': Place)
    requires Lists(ts, pl, p) && t !in pl && p' != p
    ensures Lists(ts, pl[t := p'], p)
  {
    forall x: Tid
      ensures x in ts <==> At(pl[t := p'], x, p)
    {
    }
  }

  lemma Appended(ts: seq<Tid>, pl: Places, p: Place, t: Tid)
    requires Lists(ts, pl, p) && t !in pl
    ensures Lists(ts + [t], pl[t := p], p) && Lists([t] + ts, pl[t := p], p)
  {
    assert t !in ts;
    forall x: Tid
      ensures x in ts + [t] <==> At(pl[t := p], x, p)
      ensures x in [t] + ts <==> At(pl[t := p], x, p)
    {
      assert x in ts + [t] <==> x in ts || x == t;
      assert x in [t] + ts <==> x in ts || x == t;
    }
  }

  /** A thread that is nowhere is put at the back of a service queue. */
  lemma PutService(s: Sched, pl: Places, t: Tid, c: Cpu)
    requires Consistent(s, pl) && t !in pl && c < s.cores
    ensures Consistent(s.(service := s.service[c := s.service[c] + [t]]), pl[t := InService(c)])
  {
    hide Lists;
    PutRest(s, pl, t, InService(c));
    Appended(s.service[c], pl, InService(c), t);
  }

  lemma PutRing3(s: Sched, pl: Places, t: Tid, c: Cpu)
    requires Consistent(s, pl) && t !in pl && c < s.cores
    ensures Consistent(s.(ring3 := s.ring3[c := s.ring3[c] + [t]]), pl[t := InRing3(c)])
  {
    hide Lists;
    PutRest(s, pl, t, InRing3(c));
    Appended(s.ring3[c], pl, InRing3(c), t);
  }

  lemma PutRunning(s: Sched, pl: Places, t: Tid, c: Cpu)
    requires Consistent(s, pl) && t !in pl && c < s.cores && s.running[c] == None
    ensures Consistent(s.(running := s.running[c := Some(t)]), pl[t := OnCpu(c)])
  {
    hide Lists;
    PutRest(s, pl, t, OnCpu(c));
    forall x: Tid
      ensures Some(t) == Some(x) <==> At(pl[t := OnCpu(c)], x, OnCpu(c))
    {
      assert s.running[c] == Some(x) <==> At(pl, x, OnCpu(c));
    }
  }

  lemma PutWaiter(s: Sched, pl: Places, t: Tid, e: EventId, flag: bool)
    requires Consistent(s, pl) && t !in pl && e in s.events
    ensures Consistent(s.(events := s.events[e := KEvent(flag, [t] + s.events[e].waiters)]), pl[t := Waiting(e)])
  {
    hide Lists;
    PutRest(s, pl, t, Waiting(e));
    Appended(s.events[e].waiters, pl, Waiting(e), t);
  }

  /** Everything but the place gained still agrees. */
  ghost predicate AgreesBut(s: Sched, pl: Places, p: Place) {
    && Shaped(s)
    && (forall c :: 0 <= c < s.cores && p != InService(c) ==> Lists(s.service[c], pl, InService(c)))
    && (forall c :: 0 <= c < s.cores && p != InRing3(c) ==> Lists(s.ring3[c], pl, InRing3(c)))
    && (forall c :: 0 <= c < s.cores && p != OnCpu(c) ==> Runs(s.running[c], pl, c))
    && (forall e :: e in s.events && p != Waiting(e) ==> Lists(s.events[e].waiters, pl, Waiting(e)))
    && (forall t :: t in pl ==> Real(s, pl[t]))
  }

  lemma PutRest(s: Sched, pl: Places, t: Tid, p: Place)
    requires Consistent(s, pl) && t !in pl && Real(s, p)
    ensures AgreesBut(s, pl[t := p], p)
  {
    hide Lists, Runs;
    forall c | 0 <= c < s.cores && p != InService(c)
      ensures Lists(s.service[c], pl[t := p], InService(c))
    {
      Elsewhere(s.service[c], pl, InService(c), t, p);
    }
    forall c | 0 <= c < s.cores && p != InRing3(c)
      ensures Lists(s.ring3[c], pl[t := p], InRing3(c))
    {
      Elsewhere(s.ring3[c], pl, InRing3(c), t, p);
    }
    forall c | 0 <= c < s.cores && p != OnCpu(c)
      ensures Runs(s.running[c], pl[t := p], c)
    {
      RunsElsewhere(s.running[c], pl, c, t, p);
    }
    forall e | e in s.events && p != Waiting(e)
      ensures Lists(s.events[e].waiters, pl[t := p], Waiting(e))
    {
      Elsewhere(s.events[e].waiters, pl, Waiting(e), t, p);
    }
  }

  lemma RunsElsewhere(o: Option<Tid>, pl: Places, c: Cpu, t: Tid, p: Place)
    requires Runs(o, pl, c) && t !in pl && p != OnCpu(c)
    ensures Runs(o, pl[t := p], c)
  {
    forall x: Tid
      ensures o == Some(x) <==> At(pl[t := p], x, OnCpu(c))
    {
      assert o == Some(x) <==> At(pl, x, OnCpu(c));
    }
  }

  lemma TakeRest(s: Sched, pl: Places, t: Tid)
    requires Consistent(s, pl) && t in pl
    ensures AgreesBut(s, pl - {t}, pl[t])
  {
    hide Lists, Runs;
    var p := pl[t];
    forall c | 0 <= c < s.cores && p != InService(c)
      ensures Lists(s.service[c], pl - {t}, InService(c))
    {
      Unplaced(s.service[c], pl, InService(c), t);
    }
    forall c | 0 <= c < s.cores && p != InRing3(c)
      ensures Lists(s.ring3[c], pl - {t}, InRing3(c))
    {
      Unplaced(s.ring3[c], pl, InRing3(c), t);
    }
    forall c | 0 <= c < s.cores && p != OnCpu(c)
      ensures Runs(s.running[c], pl - {t}, c)
    {
      RunsUnplaced(s.running[c], pl, c, t);
    }
    forall e | e in s.events && p != Waiting(e)
      ensures Lists(s.events[e].waiters, pl - {t}, Waiting(e))
    {
      Unplaced(s.events[e].waiters, pl, Waiting(e), t);
    }
  }

  lemma RunsUnplaced(o: Option<Tid>, pl: Places, c: Cpu, t: Tid)
    requires Runs(o, pl, c) && !At(pl, t, OnCpu(c))
    ensures Runs(o, pl - {t}, c)
  {
    forall x: Tid
      ensures o == Some(x) <==> At(pl - {t}, x, OnCpu(c))
    {
      assert o == Some(x) <==> At(pl, x, OnCpu(c));
    }
  }

  lemma TakeService(s: Sched, pl: Places, c: Cpu)
    requires Consistent(s, pl) && c < s.cores && s.service[c] != []
    ensures At(pl, s.service[c][0], InService(c))
    ensures Consistent(s.(service := s.service[c := s.service[c][1..]]), pl - {s.service[c][0]})
  {
    var t := s.service[c][0];
    assert Lists(s.service[c], pl, InService(c)) && t in s.service[c];
    hide Lists;
    TakeRest(s, pl, t);
    FirstGone(s.service[c], pl, InService(c));
  }

  lemma TakeRing3(s: Sched, pl: Places, c: Cpu)
    requires Consistent(s, pl) && c < s.cores && s.ring3[c] != []
    ensures At(pl, s.ring3[c][0], InRing3(c))
    ensures Consistent(PopRing3(s, c), pl - {s.ring3[c][0]})
  {
    var t := s.ring3[c][0];
    assert Lists(s.ring3[c], pl, InRing3(c)) && t in s.ring3[c];
    hide Lists;
    TakeRest(s, pl, t);
    FirstGone(s.ring3[c], pl, InRing3(c));
  }

  lemma TakeRunning(s: Sched, pl: Places, c: Cpu)
    requires Consistent(s, pl) && c < s.cores && s.running[c].Some?
    ensures At(pl, s.running[c].value, OnCpu(c))
    ensures Consistent(s.(running := s.running[c := None]), pl - {s.running[c].value})
  {
    var t := s.running[c].value;
    assert Runs(s.running[c], pl, c) && s.running[c] == Some(t) && At(pl, t, OnCpu(c));
    hide Lists;
    TakeRest(s, pl, t);
    forall x: Tid
      ensures None == Some(x) <==> At(pl - {t}, x, OnCpu(c))
    {
      assert s.running[c] == Some(x) <==> At(pl, x, OnCpu(c));
    }
  }

  lemma ThreadsFree(s: Sched, pl: Places, threads: map<Tid, Thread>, rr: nat)
    requires Consistent(s, pl)
    ensures Consistent(s.(threads := threads, rr := rr), pl)
  {
    hide Lists, Runs;
  }

  lemma ThreadsMoved(s: Sched, pl: Places, s': Sched, t: Tid, p: Place)
    requires ThreadsOk(s, pl) && s'.cores == s.cores && t in s'.threads && ThreadOk(s', t, p)
    requires s'.threads == s.threads[t := s'.threads[t]]
    ensures ThreadsOk(s', (pl - {t})[t := p])
  {
    hide HomeOk;
    var pl' := (pl - {t})[t := p];
    forall x | x in pl'
      ensures ThreadOk(s', x, pl'[x])
    {
      if x != t {
        assert ThreadOk(s, x, pl[x]);
      }
    }
  }

  // ---- every step keeps the placement ----

  lemma SpawnInv(s: Sched, pl: Places, st: Step) returns (pl': Places)
    requires Inv(s, pl) && Enabled(s, st) && (st.SpawnService? || st.SpawnChild? || st.SpawnShell?)
    ensures Inv(Do(s, st), pl')
  {
    hide Consistent, Real;
    var t := st.t;
    assert t !in pl;
    assert Shaped(s) by { ShapedOf(s, pl); }
    var s' := Do(s, st);
    if st.SpawnService? {
      pl' := pl[t := InService(0)];
      PutService(s, pl, t, 0);
      ThreadsFree(s.(service := s'.service), pl', s'.threads, s.rr);
      ThreadsMoved(s, pl, s', t, InService(0));
    } else {
      var c := if st.SpawnChild? then 1 + s.rr % (s.cores - 1) else 0;
      pl' := pl[t := InRing3(c)];
      PutRing3(s, pl, t, c);
      ThreadsFree(s.(ring3 := s'.ring3), pl', s'.threads, s'.rr);
      ThreadsMoved(s, pl, s', t, InRing3(c));
    }
    assert pl - {t} == pl;
  }

  lemma ShapedOf(s: Sched, pl: Places)
    requires Consistent(s, pl)
    ensures Shaped(s)
  {
  }

  /** Dispatching from one Ring-3 queue onto a CPU that may take its threads. */
  lemma DispatchInv(s: Sched, pl: Places, from: Cpu, c: Cpu) returns (pl': Places)
    requires Inv(s, pl) && from < s.cores && c < s.cores && s.ring3[from] != [] && s.running[c] == None
    requires from == 0 <==> c == 0
    ensures Inv(DispatchRing3(s, from, c), pl')
  {
    var t := s.ring3[from][0];
    TakeRing3(s, pl, from);
    var pl1 := pl - {t};
    pl' := pl1[t := OnCpu(c)];
    hide Consistent;
    assert ThreadOk(s, t, InRing3(from));
    var s1 := PopRing3(s, from);
    PutRunning(s1, pl1, t, c);
    var s' := DispatchRing3(s, from, c);
    ThreadsFree(s1.(running := s'.running), pl', s'.threads, s.rr);
    ThreadsMoved(s, pl, s', t, OnCpu(c));
  }

  lemma PumpInv(s: Sched, pl: Places) returns (pl': Places)
    requires Inv(s, pl) && s.running[0] == None && s.service[0] != []
    ensures Inv(Do(s, PumpService), pl')
  {
    var t := s.service[0][0];
    TakeService(s, pl, 0);
    var pl1 := pl - {t};
    pl' := pl1[t := OnCpu(0)];
    hide Consistent;
    assert ThreadOk(s, t, InService(0));
    var s1 := s.(service := s.service[0 := s.service[0][1..]]);
    PutRunning(s1, pl1, t, 0);
    var s' := Do(s, PumpService);
    ThreadsFree(s1.(running := s'.running), pl', s'.threads, s.rr);
    ThreadsMoved(s, pl, s', t, OnCpu(0));
  }

  lemma YieldInv(s: Sched, pl: Places, c: Cpu) returns (pl': Places)
    requires Inv(s, pl) && Enabled(s, Yield(c))
    ensures Inv(Do(s, Yield(c)), pl')
  {
    var t := s.running[c].value;
    TakeRunning(s, pl, c);
    var pl1 := pl - {t};
    hide Consistent;
    assert ThreadOk(s, t, OnCpu(c));
    var s1 := s.(running := s.running[c := None]);
    var s' := Do(s, Yield(c));
    if s.threads[t].hosted {
      pl' := pl1[t := InRing3(c)];
      PutRing3(s1, pl1, t, c);
      ThreadsFree(s1.(ring3 := s'.ring3), pl', s'.threads, s.rr);
      ThreadsMoved(s, pl, s', t, InRing3(c));
    } else {
      pl' := pl1[t := InService(c)];
      PutService(s1, pl1, t, c);
      ThreadsFree(s1.(service := s'.service), pl', s'.threads, s.rr);
      ThreadsMoved(s, pl, s', t, InService(c));
    }
  }

  lemma WaitInv(s: Sched, pl: Places, c: Cpu, e: EventId) returns (pl': Places)
    requires Inv(s, pl) && Enabled(s, Wait(c, e)) && !s.events[e].flag
    ensures Inv(Do(s, Wait(c, e)), pl')
  {
    var t := s.running[c].value;
    TakeRunning(s, pl, c);
    var pl1 := pl - {t};
    hide Consistent;
    assert ThreadOk(s, t, OnCpu(c));
    var s1 := s.(running := s.running[c := None]);
    var s' := Do(s, Wait(c, e));
    pl' := pl1[t := Waiting(e)];
    PutWaiter(s1, pl1, t, e, false);
    ThreadsFree(s1.(events := s'.events), pl', s'.threads, s.rr);
    ThreadsMoved(s, pl, s', t, Waiting(e));
  }

  lemma ExitInv(s: Sched, pl: Places, c: Cpu) returns (pl': Places)
    requires Inv(s, pl) && Enabled(s, Exit(c))
    ensures Inv(Do(s, Exit(c)), pl')
  {
    var t := s.running[c].value;
    TakeRunning(s, pl, c);
    pl' := pl - {t};
    hide Consistent, HomeOk;
    var s' := Do(s, Exit(c));
    ThreadsFree(s.(running := s.running[c := None]), pl', s'.threads, s.rr);
    forall x | x in pl'
      ensures ThreadOk(s', x, pl'[x])
    {
      assert ThreadOk(s, x, pl[x]);
    }
  }

  // ---- signalling ----

  /** A thread taken off a waiter list and not yet woken. */
  ghost predicate WakeDue(s: Sched, t: Tid) {
    && t in s.threads && s.threads[t].state == Parked
    && s.threads[t].hosted == (s.threads[t].kind != Service)
    && HomeOk(s.threads[t].kind, s.threads[t].owner, s.cores, Waiting(0))
  }

  ghost predicate InTransit(s: Sched, pl: Places, ts: seq<Tid>) {
    && Distinct(ts)
    && (forall t :: t in ts ==> t !in pl && WakeDue(s, t))
    && (forall t :: t in pl ==> ThreadOk(s, t, pl[t]))
    && (forall t :: t in s.threads && t !in pl && t !in ts ==> s.threads[t].state == Exiting)
  }

  ghost function Without(pl: Places, ts: seq<Tid>): Places {
    map t | t in pl && t !in ts :: pl[t]
  }

  lemma ListsWithout(l: seq<Tid>, pl: Places, p: Place, ts: seq<Tid>, e: EventId)
    requires Lists(ts, pl, Waiting(e)) && Lists(l, pl, p) && p != Waiting(e)
    ensures Lists(l, Without(pl, ts), p)
  {
    forall t: Tid
      ensures t in l <==> At(Without(pl, ts), t, p)
    {
      assert t in ts <==> At(pl, t, Waiting(e));
    }
  }

  lemma RunsWithout(o: Option<Tid>, pl: Places, c: Cpu, ts: seq<Tid>, e: EventId)
    requires Lists(ts, pl, Waiting(e)) && Runs(o, pl, c)
    ensures Runs(o, Without(pl, ts), c)
  {
    forall t: Tid
      ensures o == Some(t) <==> At(Without(pl, ts), t, OnCpu(c))
    {
      assert t in ts <==> At(pl, t, Waiting(e));
    }
  }

  lemma TakeLists(s: Sched, pl: Places, e: EventId)
    requires Consistent(s, pl) && e in s.events
    ensures Consistent(s.(events := s.events[e := KEvent(true, [])]), Without(pl, s.events[e].waiters))
  {
    var ts := s.events[e].waiters;
    var pl' := Without(pl, ts);
    assert Lists([], pl', Waiting(e)) by {
      forall t: Tid
        ensures !At(pl', t, Waiting(e))
      {
        assert t in ts <==> At(pl, t, Waiting(e));
      }
    }
    hide Lists, Runs;
    forall c | 0 <= c < s.cores
      ensures Lists(s.service[c], pl', InService(c)) && Lists(s.ring3[c], pl', InRing3(c)) && Runs(s.running[c], pl', c)
    {
      ListsWithout(s.service[c], pl, InService(c), ts, e);
      ListsWithout(s.ring3[c], pl, InRing3(c), ts, e);
      RunsWithout(s.running[c], pl, c, ts, e);
    }
    forall x | x in s.events && x != e
      ensures Lists(s.events[x].waiters, pl', Waiting(x))
    {
      ListsWithout(s.events[x].waiters, pl, Waiting(x), ts, e);
    }
  }

  lemma TakeWaiters(s: Sched, pl: Places, e: EventId) returns (pl': Places)
    requires Inv(s, pl) && e in s.events
    ensures var s1 := s.(events := s.events[e := KEvent(true, [])]);
            Consistent(s1, pl') && InTransit(s1, pl', s.events[e].waiters)
  {
    var ts := s.events[e].waiters;
    var s1 := s.(events := s.events[e := KEvent(true, [])]);
    pl' := Without(pl, ts);
    TakeLists(s, pl, e);
    assert Lists(ts, pl, Waiting(e));
    hide Consistent, HomeOk;
    forall t | t in ts
      ensures WakeDue(s1, t)
    {
      assert At(pl, t, Waiting(e)) && ThreadOk(s, t, Waiting(e));
      AnyWaiting(e);
    }
    forall t | t in pl'
      ensures ThreadOk(s1, t, pl'[t])
    {
      assert ThreadOk(s, t, pl[t]);
    }
  }

  lemma AnyWaiting(e: EventId)
    ensures forall k, o, n :: HomeOk(k, o, n, Waiting(e)) == HomeOk(k, o, n, Waiting(0))
  {
  }

  lemma WakeInv(s: Sched, pl: Places, ts: seq<Tid>) returns (pl': Places)
    requires Consistent(s, pl) && InTransit(s, pl, ts) && ts != []
    ensures Consistent(Wake(s, ts[0]), pl') && InTransit(Wake(s, ts[0]), pl', ts[1..])
  {
    ShapedOf(s, pl);
    hide Consistent;
    var t := ts[0];
    assert WakeDue(s, t);
    var c := s.threads[t].owner;
    var s' := Wake(s, t);
    var p := if s.threads[t].hosted then InRing3(c) else InService(c);
    pl' := pl[t := p];
    if s.threads[t].hosted {
      PutRing3(s, pl, t, c);
      ThreadsFree(s.(ring3 := s'.ring3), pl', s'.threads, s.rr);
    } else {
      PutService(s, pl, t, c);
      ThreadsFree(s.(service := s'.service), pl', s'.threads, s.rr);
    }
    WakeTransit(s, pl, ts, s', p);
  }

  lemma WakeTransit(s: Sched, pl: Places, ts: seq<Tid>, s': Sched, p: Place)
    requires InTransit(s, pl, ts) && ts != [] && s'.cores == s.cores && ts[0] in s'.threads
    requires s'.threads == s.threads[ts[0] := s'.threads[ts[0]]] && ThreadOk(s', ts[0], p)
    ensures InTransit(s', pl[ts[0] := p], ts[1..])
  {
    hide HomeOk;
    var t := ts[0];
    var pl' := pl[t := p];
    forall x | x in pl'
      ensures ThreadOk(s', x, pl'[x])
    {
      assert x != t ==> ThreadOk(s, x, pl[x]);
    }
    forall x | x in ts[1..]
      ensures x !in pl' && WakeDue(s', x)
    {
      assert x in ts && x != t;
      assert WakeDue(s, x);
    }
    assert ts == [t] + ts[1..];
  }

  lemma {:induction false} WakeAllInv(s: Sched, pl: Places, ts: seq<Tid>) returns (pl': Places)
    requires Consistent(s, pl) && InTransit(s, pl, ts)
    ensures Inv(WakeAll(s, ts), pl')
    decreases |ts|
  {
    ShapedOf(s, pl);
    hide Consistent, Wake;
    if ts == [] {
      pl' := pl;
    } else {
      var pl1 := WakeInv(s, pl, ts);
      pl' := WakeAllInv(Wake(s, ts[0]), pl1, ts[1..]);
    }
  }

  lemma ResetInv(s: Sched, pl: Places, e: EventId)
    requires Inv(s, pl) && e in s.events
    ensures Inv(Do(s, Reset(e)), pl)
  {
    hide Lists, Runs, ThreadOk;
    var s' := Do(s, Reset(e));
    assert forall t :: t in pl ==> ThreadOk(s', t, pl[t]) by { SameThreads(s, s', pl); }
  }

  lemma SameThreads(s: Sched, s': Sched, pl: Places)
    requires ThreadsOk(s, pl) && s'.threads == s.threads && s'.cores == s.cores
    ensures ThreadsOk(s', pl)
  {
    hide HomeOk;
    forall t | t in pl
      ensures ThreadOk(s', t, pl[t])
    {
      assert ThreadOk(s, t, pl[t]);
    }
  }

  lemma StepInv(s: Sched, pl: Places, st: Step) returns (pl': Places)
    requires Inv(s, pl) && Enabled(s, st)
    ensures Inv(Do(s, st), pl')
  {
    hide ThreadsOk, Lists, Runs, Real;
    pl' := pl;
    match st
    case SpawnService(_) => pl' := SpawnInv(s, pl, st);
    case SpawnChild(_) => pl' := SpawnInv(s, pl, st);
    case SpawnShell(_) => pl' := SpawnInv(s, pl, st);
    case PumpService =>
      if s.service[0] != [] {
        pl' := PumpInv(s, pl);
      }
    case PumpRing3 =>
      if s.ring3[0] != [] {
        pl' := DispatchInv(s, pl, 0, 0);
      }
    case ApLoop(c) =>
      if s.ring3[c] != [] {
        pl' := DispatchInv(s, pl, c, c);
      } else if StealSource(s, c, 1).Some? {
        pl' := DispatchInv(s, pl, StealSource(s, c, 1).value, c);
      }
    case Yield(c) => pl' := YieldInv(s, pl, c);
    case Wait(c, e) =>
      if !s.events[e].flag {
        pl' := WaitInv(s, pl, c, e);
      }
    case Signal(e) =>
      var pl1 := TakeWaiters(s, pl, e);
      pl' := WakeAllInv(s.(events := s.events[e := KEvent(true, [])]), pl1, s.events[e].waiters);
    case Reset(e) => ResetInv(s, pl, e);
    case Exit(c) => pl' := ExitInv(s, pl, c);
  }

  // ---- whole runs ----

  /** Before the first spawn: empty queues, idle CPUs, events nobody waits on. */
  predicate Fresh(s: Sched) {
    && Shaped(s) && s.threads == map[]
    && (forall c :: 0 <= c < s.cores ==> s.service[c] == [] && s.ring3[c] == [] && s.running[c] == None)
    && (forall e :: e in s.events ==> s.events[e].waiters == [])
  }

  ghost predicate Possible(s: Sched, steps: seq<Step>)
    decreases |steps|
  {
    steps == [] || (Shaped(s) && Enabled(s, steps[0]) && Possible(Do(s, steps[0]), steps[1..]))
  }

  ghost function DoAll(s: Sched, steps: seq<Step>): Sched
    requires Possible(s, steps)
    decreases |steps|
  {
    if steps == [] then s else DoAll(Do(s, steps[0]), steps[1..])
  }

  lemma {:induction false} RunInv(s: Sched, pl: Places, steps: seq<Step>) returns (pl': Places)
    requires Inv(s, pl) && Possible(s, steps)
    ensures Inv(DoAll(s, steps), pl')
    decreases |steps|
  {
    hide Inv, Do, Enabled;
    if steps == [] {
      pl' := pl;
    } else {
      var pl1 := StepInv(s, pl, steps[0]);
      pl' := RunInv(Do(s, steps[0]), pl1, steps[1..]);
    }
  }

  /** A list, CPU or waiter list that has the thread. */
  ghost predicate Occupies(s: Sched, t: Tid, p: Place)
    requires Shaped(s)
  {
    match p
    case InService(c) => c < s.cores && t in s.service[c]
    case InRing3(c) => c < s.cores && t in s.ring3[c]
    case OnCpu(c) => c < s.cores && s.running[c] == Some(t)
    case Waiting(e) => e in s.events && t in s.events[e].waiters
  }

  ghost predicate InExactlyOnePlace(s: Sched, t: Tid)
    requires Shaped(s)
  {
    exists p :: Occupies(s, t, p) && OnlyPlace(s, t, p)
  }

  ghost predicate OnlyPlace(s: Sched, t: Tid, p: Place)
    requires Shaped(s)
  {
    forall q :: Occupies(s, t, q) ==> q == p
  }

  /** Service threads and the shell stay on CPU 0, children off it, and hosts and service threads
      each on their own tier. */
  ghost predicate AtHome(s: Sched, t: Tid, p: Place)
    requires t in s.threads
  {
    match p
    case InService(c) => c == 0 && s.threads[t].kind == Service
    case InRing3(c) => s.threads[t].hosted && s.threads[t].kind == if c == 0 then Shell else Child
    case OnCpu(c) => s.threads[t].kind == Child <==> c != 0
    case Waiting(_) => true
  }

  lemma OnePlace(s: Sched, pl: Places, t: Tid)
    requires Inv(s, pl) && t in s.threads && s.threads[t].state != Exiting
    ensures InExactlyOnePlace(s, t)
    ensures forall p :: Occupies(s, t, p) ==> AtHome(s, t, p)
  {
    hide ThreadOk, HomeOk;
    assert t in pl;
    var p := pl[t];
    OccupiesIffAt(s, pl, t, p);
    forall q | Occupies(s, t, q)
      ensures q == p
    {
      OccupiesIffAt(s, pl, t, q);
    }
    HomeIsHome(s, pl, t);
  }

  lemma HomeIsHome(s: Sched, pl: Places, t: Tid)
    requires Inv(s, pl) && t in pl
    ensures t in s.threads && AtHome(s, t, pl[t])
  {
    hide Lists, Runs;
    assert ThreadOk(s, t, pl[t]);
  }

  lemma OccupiesIffAt(s: Sched, pl: Places, t: Tid, p: Place)
    requires Consistent(s, pl)
    ensures Occupies(s, t, p) <==> At(pl, t, p)
  {
    match p
    case InService(c) =>
      if c < s.cores {
        assert Lists(s.service[c], pl, p);
      }
    case InRing3(c) =>
      if c < s.cores {
        assert Lists(s.ring3[c], pl, p);
      }
    case OnCpu(c) =>
      if c < s.cores {
        assert Runs(s.running[c], pl, c);
      }
    case Waiting(e) =>
      if e in s.events {
        assert Lists(s.events[e].waiters, pl, p);
      }
  }

  /** In every state of every run on at least two cores: each live thread is in exactly one ready
      queue, waiter list or CPU, once; service queues other than CPU 0's are empty; Ring-3 queues
      hold hosts only; the shell is never on another CPU and a child never on CPU 0. */
  lemma PlacementSafety(s0: Sched, steps: seq<Step>)
    requires Fresh(s0) && Possible(s0, steps)
    ensures var s := DoAll(s0, steps);
            && Shaped(s)
            && (forall t :: t in s.threads && s.threads[t].state != Exiting ==>
                  InExactlyOnePlace(s, t) && forall p :: Occupies(s, t, p) ==> AtHome(s, t, p))
            && (forall p, t :: Occupies(s, t, p) ==> t in s.threads && s.threads[t].state == StateFor(p))
            && (forall c :: 0 <= c < s.cores ==> Distinct(s.service[c]) && Distinct(s.ring3[c]))
            && (forall e :: e in s.events ==> Distinct(s.events[e].waiters))
            && (forall c :: 0 < c < s.cores ==> s.service[c] == [])
  {
    var s := DoAll(s0, steps);
    FreshInv(s0);
    var pl := RunInv(s0, map[], steps);
    forall t | t in s.threads && s.threads[t].state != Exiting
      ensures InExactlyOnePlace(s, t) && forall p :: Occupies(s, t, p) ==> AtHome(s, t, p)
    {
      OnePlace(s, pl, t);
    }
    forall p, t | Occupies(s, t, p)
      ensures t in s.threads && s.threads[t].state == StateFor(p)
    {
      OccupiesIffAt(s, pl, t, p);
      assert ThreadOk(s, t, pl[t]);
    }
    forall c | 0 < c < s.cores
      ensures s.service[c] == []
    {
      NoForeignService(s, pl, c);
    }
  }

  lemma NoForeignService(s: Sched, pl: Places, c: Cpu)
    requires Inv(s, pl) && 0 < c < s.cores
    ensures s.service[c] == []
  {
    if s.service[c] != [] {
      var t := s.service[c][0];
      OccupiesIffAt(s, pl, t, InService(c));
      HomeIsHome(s, pl, t);
    }
  }

  lemma FreshInv(s: Sched)
    requires Fresh(s)
    ensures Inv(s, map[])
  {
  }

  // ---- what Signal moves ----

  /** The waiters that belong on one queue, in list order. */
  function Picked(s: Sched, ts: seq<Tid>, c: Cpu, hosted: bool): seq<Tid> {
    if ts == [] then []
    else (if ts[0] in s.threads && s.threads[ts[0]].owner == c && s.threads[ts[0]].hosted == hosted
          then [ts[0]] else []) + Picked(s, ts[1..], c, hosted)
  }

  lemma {:induction false} PickedSame(s: Sched, s': Sched, ts: seq<Tid>, c: Cpu, hosted: bool)
    requires forall t :: t in ts ==> t in s.threads && t in s'.threads && s'.threads[t] == s.threads[t]
    ensures Picked(s', ts, c, hosted) == Picked(s, ts, c, hosted)
    decreases |ts|
  {
    if ts != [] {
      PickedSame(s, s', ts[1..], c, hosted);
    }
  }

  /** The threads of ts went to the back of their owners' queues and became runnable. */
  ghost predicate Moved(s: Sched, s': Sched, ts: seq<Tid>) {
    && Shaped(s) && Shaped(s') && s'.cores == s.cores
    && s'.running == s.running && s'.events == s.events && s'.rr == s.rr
    && (forall c :: 0 <= c < s.cores ==> s'.service[c] == s.service[c] + Picked(s, ts, c, false))
    && (forall c :: 0 <= c < s.cores ==> s'.ring3[c] == s.ring3[c] + Picked(s, ts, c, true))
    && s'.threads.Keys == s.threads.Keys
    && (forall t :: t in s.threads ==>
          s'.threads[t] == if t in ts then s.threads[t].(state := Runnable) else s.threads[t])
  }

  lemma WakeOne(s: Sched, t: Tid)
    requires Shaped(s) && WakeDue(s, t)
    ensures Moved(s, Wake(s, t), [t])
  {
    OwnerInRange(s, t);
    hide HomeOk;
    forall c, hosted
      ensures Picked(s, [t], c, hosted) == if s.threads[t].owner == c && s.threads[t].hosted == hosted then [t] else []
    {
      assert [t][1..] == [];
      assert Picked(s, [t][1..], c, hosted) == [];
    }
  }

  lemma PickedCons(s: Sched, t: Tid, rest: seq<Tid>, c: Cpu, hosted: bool)
    ensures Picked(s, [t] + rest, c, hosted) == Picked(s, [t], c, hosted) + Picked(s, rest, c, hosted)
  {
    assert ([t] + rest)[1..] == rest && [t][1..] == [];
  }

  lemma MovedThen(s: Sched, s1: Sched, s2: Sched, t: Tid, rest: seq<Tid>)
    requires Moved(s, s1, [t]) && Moved(s1, s2, rest) && t !in rest && forall x :: x in rest ==> x in s.threads
    ensures Moved(s, s2, [t] + rest)
  {
    hide Picked;
    var ts := [t] + rest;
    forall c: Cpu, hosted
      ensures Picked(s, ts, c, hosted) == Picked(s, [t], c, hosted) + Picked(s1, rest, c, hosted)
    {
      PickedSame(s, s1, rest, c, hosted);
      PickedCons(s, t, rest, c, hosted);
    }
    forall c | 0 <= c < s.cores
      ensures s2.service[c] == s.service[c] + Picked(s, ts, c, false)
      ensures s2.ring3[c] == s.ring3[c] + Picked(s, ts, c, true)
    {
    }
  }

  lemma {:induction false} WakeAllMoves(s: Sched, ts: seq<Tid>)
    requires Shaped(s) && Distinct(ts) && forall t :: t in ts ==> WakeDue(s, t)
    ensures Moved(s, WakeAll(s, ts), ts)
    decreases |ts|
  {
    if ts != [] {
      var t := ts[0];
      var rest := ts[1..];
      assert WakeDue(s, t);
      WakeOne(s, t);
      var s1 := Wake(s, t);
      hide Wake, HomeOk;
      forall x | x in rest
        ensures x != t && x in s.threads && WakeDue(s1, x)
      {
        assert x in ts;
        assert WakeDue(s, x);
      }
      WakeAllMoves(s1, rest);
      hide Moved;
      MovedThen(s, s1, WakeAll(s1, rest), t, rest);
      assert ts == [t] + rest;
    }
  }

  lemma OwnerInRange(s: Sched, t: Tid)
    requires Shaped(s) && WakeDue(s, t)
    ensures s.threads[t].owner < s.cores
  {
  }

  /** Signal moves every waiter to the back of its owner's queue on its own tier, in list order,
      marks it runnable, and changes nothing else. */
  lemma SignalMoves(s: Sched, pl: Places, e: EventId)
    requires Inv(s, pl) && e in s.events
    ensures Moved(s.(events := s.events[e := KEvent(true, [])]), Do(s, Signal(e)), s.events[e].waiters)
  {
    var pl1 := TakeWaiters(s, pl, e);
    hide Consistent, ThreadOk, WakeDue;
    WakeAllMoves(s.(events := s.events[e := KEvent(true, [])]), s.events[e].waiters);
  }
}
