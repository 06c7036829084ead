/** What scheduling does, beyond where threads may be: idle CPUs run the thread at the front,
    stealing never misses work, yields go to the back, children are spread round robin, and a thread
    in a ready queue runs after at most as many passes of its CPU as it has places to the front
    (src/kthread_sched.go:258-501, src/kthread_lifecycle.go:110-199, src/kthread_ring3.go:40-90). */
module KSchedProgress {
  import opened KList
  import opened KSched

  // ---- dispatch ----

  /** The thread at the front of a ready queue is live and runnable. */
  lemma FrontIsReady(s: Sched, pl: Places, p: Place, ts: seq<Tid>)
    requires Inv(s, pl) && Lists(ts, pl, p) && ts != [] && (p.InService? || p.InRing3?)
    ensures ts[0] in s.threads && s.threads[ts[0]].state == Runnable
  {
    assert ts[0] in ts;
    assert ThreadOk(s, ts[0], pl[ts[0]]);
  }

  /** c runs the thread that was at the front of from's Ring-3 queue; no other queue, CPU or event
      changes. */
  ghost predicate Ran(s: Sched, s': Sched, from: Cpu, c: Cpu)
    requires Shaped(s) && from < s.cores && c < s.cores && s.ring3[from] != []
  {
    && s'.running == s.running[c := Some(s.ring3[from][0])] && s'.ring3 == s.ring3[from := s.ring3[from][1..]]
    && s'.service == s.service && s'.events == s.events && s'.cores == s.cores && s'.rr == s.rr
    && s'.threads.Keys == s.threads.Keys && s.ring3[from][0] in s'.threads
    && s'.threads[s.ring3[from][0]].state == Running && s'.threads[s.ring3[from][0]].owner == c
  }

  lemma FrontRuns(s: Sched, pl: Places, from: Cpu, c: Cpu)
    requires Inv(s, pl) && from < s.cores && c < s.cores && s.ring3[from] != []
    ensures Ran(s, DispatchRing3(s, from, c), from, c)
  {
    assert Lists(s.ring3[from], pl, InRing3(from));
    hide Lists, Runs, ThreadsOk, Real;
    FrontIsReady(s, pl, InRing3(from), s.ring3[from]);
  }

  /** An idle CPU runs the front of its own queue: CPU 0 of either tier, another CPU of the Ring-3
      tier. With nothing there CPU 0 changes nothing. */
  lemma OwnFirst(s: Sched, pl: Places, c: Cpu)
    requires Inv(s, pl) && c < s.cores && s.running[c] == None
    ensures c >= 1 && s.ring3[c] != [] ==> Ran(s, Do(s, ApLoop(c)), c, c)
    ensures c == 0 ==> if s.ring3[0] != [] then Ran(s, Do(s, PumpRing3), 0, 0) else Do(s, PumpRing3) == s
    ensures c == 0 ==>
              if s.service[0] == [] then Do(s, PumpService) == s
              else var t, s' := s.service[0][0], Do(s, PumpService);
                && s'.running == s.running[0 := Some(t)] && s'.service == s.service[0 := s.service[0][1..]]
                && s'.ring3 == s.ring3 && s'.events == s.events && t in s'.threads && s'.threads[t].state == Running
  {
    if s.ring3[c] != [] {
      FrontRuns(s, pl, c, c);
    }
    assert Lists(s.service[0], pl, InService(0));
    hide Lists, Runs, ThreadsOk, Real;
    if s.service[0] != [] {
      FrontIsReady(s, pl, InService(0), s.service[0]);
    }
  }

  // ---- stealing ----

  /** The distance from c round the ring of CPUs to x. */
  function Ahead(s: Sched, c: Cpu, x: Cpu): nat
    requires c < s.cores && x < s.cores
  {
    if x >= c then x - c else x + s.cores - c
  }

  lemma {:induction false} FirstSource(s: Sched, c: Cpu, from: nat)
    requires Shaped(s) && c < s.cores && 1 <= from <= s.cores
    ensures var src := StealSource(s, c, from);
            && (src.Some? ==> Ahead(s, c, src.value) >= from)
            && (forall x :: 0 < x < s.cores && from <= Ahead(s, c, x) && s.ring3[x] != [] ==>
                  src.Some? && Ahead(s, c, src.value) <= Ahead(s, c, x))
    decreases s.cores - from
  {
    if from < s.cores {
      FirstSource(s, c, from + 1);
      var y := (c + from) % s.cores;
      assert y == (if c + from < s.cores then c + from else c + from - s.cores) by { Around(c + from, s.cores); }
      assert Ahead(s, c, y) == from;
      forall x | 0 < x < s.cores && from <= Ahead(s, c, x) && s.ring3[x] != []
        ensures StealSource(s, c, from).Some? && Ahead(s, c, StealSource(s, c, from).value) <= Ahead(s, c, x)
      {
        if Ahead(s, c, x) == from {
          assert x == y;
        }
      }
    }
  }

  lemma Around(a: nat, n: nat)
    requires 0 < n && a < 2 * n
    ensures a % n == if a < n then a else a - n
  {
    if a >= n {
      assert a == n * 1 + (a - n);
    }
  }

  /** Of the CPUs other than 0 that have work, src is the first after c. */
  ghost predicate Nearest(s: Sched, c: Cpu, src: Cpu)
    requires Shaped(s) && c < s.cores
  {
    && 0 < src < s.cores && s.ring3[src] != []
    && (forall x :: 0 < x < s.cores && s.ring3[x] != [] ==> Ahead(s, c, src) <= Ahead(s, c, x))
  }

  /** An idle CPU with an empty queue takes the front of the nearest non-empty Ring-3 queue after it,
      never CPU 0's; it stays idle exactly if all of them are empty, and then nothing changes. */
  lemma StealsNearest(s: Sched, pl: Places, c: Cpu)
    requires Inv(s, pl) && Enabled(s, ApLoop(c)) && s.ring3[c] == []
    ensures var s' := Do(s, ApLoop(c));
            if forall x :: 0 < x < s.cores ==> s.ring3[x] == [] then s' == s
            else exists src :: Nearest(s, c, src) && Ran(s, s', src, c)
  {
    FirstSource(s, c, 1);
    var src := StealSource(s, c, 1);
    if src.Some? {
      FrontRuns(s, pl, src.value, c);
      assert Nearest(s, c, src.value);
    }
    hide Lists, Runs, ThreadsOk, Real, Ran, StealSource;
  }

  /** No CPU but 0 idles while any of their queues has work. */
  lemma WorkConserving(s: Sched, pl: Places, c: Cpu)
    requires Inv(s, pl) && Enabled(s, ApLoop(c))
    ensures Do(s, ApLoop(c)).running[c].Some? <==> exists x :: 0 < x < s.cores && s.ring3[x] != []
  {
    if s.ring3[c] != [] {
      OwnFirst(s, pl, c);
    } else {
      StealsNearest(s, pl, c);
    }
    hide Inv;
  }

  // ---- leaving a CPU ----

  /** A yielding thread goes to the back of its own CPU's queue of its own tier, runnable. */
  lemma YieldsToBack(s: Sched, pl: Places, c: Cpu)
    requires Inv(s, pl) && Enabled(s, Yield(c))
    ensures var t, s' := s.running[c].value, Do(s, Yield(c));
            && s'.running == s.running[c := None] && s'.events == s.events
            && s'.threads == s.threads[t := s.threads[t].(state := Runnable)]
            && (if s.threads[t].kind == Service
                then s'.service == s.service[c := s.service[c] + [t]] && s'.ring3 == s.ring3
                else s'.ring3 == s.ring3[c := s.ring3[c] + [t]] && s'.service == s.service)
  {
    RunningHere(s, pl, c);
    hide Inv;
  }

  lemma RunningHere(s: Sched, pl: Places, c: Cpu)
    requires Inv(s, pl) && c < s.cores && s.running[c].Some?
    ensures var t := s.running[c].value;
            && t in s.threads && s.threads[t].owner == c && s.threads[t].hosted == (s.threads[t].kind != Service)
  {
    var t := s.running[c].value;
    assert Runs(s.running[c], pl, c) && s.running[c] == Some(t);
    assert At(pl, t, OnCpu(c));
    assert ThreadOk(s, t, pl[t]);
  }

  /** Waiting on a set flag does nothing; on a clear one the thread parks on top of the event's
      waiters and its CPU is free. The queues do not change. */
  lemma WaitsOnlyIfClear(s: Sched, pl: Places, c: Cpu, e: EventId)
    requires Inv(s, pl) && Enabled(s, Wait(c, e))
    ensures var t, s' := s.running[c].value, Do(s, Wait(c, e));
            if s.events[e].flag then s' == s
            else && s'.running == s.running[c := None] && s'.service == s.service && s'.ring3 == s.ring3
                 && s'.events == s.events[e := KEvent(false, [t] + s.events[e].waiters)]
                 && s'.threads == s.threads[t := Thread(Parked, c, s.threads[t].hosted, s.threads[t].kind)]
  {
    RunningHere(s, pl, c);
    hide Inv;
  }

  /** An exiting thread leaves its CPU and is in no queue or waiter list again; CPU 0 frees its slot,
      another CPU leaves it marked. */
  lemma ExitsExactly(s: Sched, pl: Places, c: Cpu)
    requires Inv(s, pl) && Enabled(s, Exit(c))
    ensures var t, s' := s.running[c].value, Do(s, Exit(c));
            && s'.running == s.running[c := None] && s'.service == s.service && s'.ring3 == s.ring3
            && s'.events == s.events && s'.threads - {t} == s.threads - {t}
            && (if c == 0 then t !in s'.threads else t in s'.threads && s'.threads[t].state == Exiting)
            && forall p :: !Occupies(s', t, p)
  {
    var t, s' := s.running[c].value, Do(s, Exit(c));
    TakeRunning(s, pl, c);
    var pl1 := pl - {t};
    hide Inv, Consistent;
    ThreadsFree(s.(running := s.running[c := None]), pl1, s'.threads, s.rr);
    forall p
      ensures !Occupies(s', t, p)
    {
      OccupiesIffAt(s', pl1, t, p);
    }
  }

  /** No wake-up is lost: who waits before the signal is in a ready queue after it, whoever comes
      later passes. */
  lemma SignalledRuns(s: Sched, pl: Places, e: EventId, t: Tid)
    requires Inv(s, pl) && e in s.events && t in s.events[e].waiters
    ensures var s' := Do(s, Signal(e));
            && Shaped(s') && s'.cores == s.cores && s'.events == s.events[e := KEvent(true, [])]
            && t in s.threads && t in s'.threads && s'.threads[t].state == Runnable
            && s.threads[t].owner < s.cores
            && (if s.threads[t].kind == Service then t in s'.service[s.threads[t].owner]
                else t in s'.ring3[s.threads[t].owner])
  {
    SignalMoves(s, pl, e);
    WaiterIs(s, pl, e, t);
    var s0 := s.(events := s.events[e := KEvent(true, [])]);
    PickedHas(s0, s.events[e].waiters, t);
    hide Inv, Picked, Do;
  }

  lemma WaiterIs(s: Sched, pl: Places, e: EventId, t: Tid)
    requires Inv(s, pl) && e in s.events && t in s.events[e].waiters
    ensures t in s.threads && s.threads[t].owner < s.cores && s.threads[t].hosted == (s.threads[t].kind != Service)
  {
    assert Lists(s.events[e].waiters, pl, Waiting(e));
    assert At(pl, t, Waiting(e));
    assert ThreadOk(s, t, pl[t]);
  }

  lemma {:induction false} PickedHas(s: Sched, ts: seq<Tid>, t: Tid)
    requires t in ts && t in s.threads
    ensures t in Picked(s, ts, s.threads[t].owner, s.threads[t].hosted)
    decreases |ts|
  {
    if ts[0] != t {
      assert t in ts[1..];
      PickedHas(s, ts[1..], t);
    }
  }

  // ---- spawning ----

  /** A service thread goes to the back of CPU 0's service queue, the shell's host to the back of its
      Ring-3 queue, a child's host to the back of the queue of the CPU whose turn it is. */
  lemma SpawnsLand(s: Sched, t: Tid)
    requires Shaped(s) && t !in s.threads
    ensures var s' := Do(s, SpawnService(t));
            && s'.service == s.service[0 := s.service[0] + [t]] && s'.ring3 == s.ring3 && s'.rr == s.rr
            && s'.threads == s.threads[t := Thread(Runnable, 0, false, Service)]
    ensures var s' := Do(s, SpawnShell(t));
            && s'.ring3 == s.ring3[0 := s.ring3[0] + [t]] && s'.service == s.service && s'.rr == s.rr
            && s'.threads == s.threads[t := Thread(Runnable, 0, true, Shell)]
    ensures var s' := Do(s, SpawnChild(t));
            var c := 1 + s.rr % (s.cores - 1);
            && 1 <= c < s.cores && s'.ring3 == s.ring3[c := s.ring3[c] + [t]] && s'.service == s.service
            && s'.threads == s.threads[t := Thread(Runnable, c, true, Child)]
            && s'.rr == if s.rr == 0xFFFF_FFFF then 0 else (s.rr + 1) % 0x1_0000_0000
  {
    SetTwice(s.threads, t, Thread(Runnable, 0, false, Service), Thread(Runnable, 0, false, Service));
    SetTwice(s.threads, t, Thread(Runnable, 0, true, Shell), Thread(Runnable, 0, true, Shell));
    var c := 1 + s.rr % (s.cores - 1);
    SetTwice(s.threads, t, Thread(Runnable, 0, true, Child), Thread(Runnable, c, true, Child));
  }

  lemma SetTwice(m: map<Tid, Thread>, t: Tid, a: Thread, b: Thread)
    ensures m[t := a][t := b] == m[t := b]
  {
  }

  /** Where the next child goes. */
  function NextCpu(s: Sched): Cpu
    requires Shaped(s)
  {
    1 + s.rr % (s.cores - 1)
  }

  /** The child after next goes to the following CPU, back to 1 after the last, exactly if the 32-bit
      counter does not wrap between them or the number of those CPUs divides 2^32. */
  lemma RoundRobin(s: Sched, t: Tid)
    requires Shaped(s) && t !in s.threads && s.rr < 0x1_0000_0000
    ensures var c, c' := NextCpu(s), NextCpu(Do(s, SpawnChild(t)));
            c' == (if c == s.cores - 1 then 1 else c + 1) <==>
            s.rr + 1 < 0x1_0000_0000 || 0x1_0000_0000 % (s.cores - 1) == 0
  {
    SpawnsLand(s, t);
    NextInTurn(s.rr, s.cores - 1);
    hide Do;
    if s.rr + 1 == 0x1_0000_0000 {
      ZeroMod(s.cores - 1);
    } else {
      SmallMod(s.rr + 1, 0x1_0000_0000);
    }
  }

  lemma ZeroMod(n: nat)
    requires n > 0
    ensures 0 % n == 0
  {
  }

  lemma SmallMod(a: nat, n: nat)
    requires a < n
    ensures a % n == a
  {
  }

  lemma NextInTurn(a: nat, n: nat)
    requires n > 0
    ensures (a + 1) % n == if a % n == n - 1 then 0 else a % n + 1
  {
    var q, r := a / n, a % n;
    if r == n - 1 {
      assert a + 1 == n * (q + 1) + 0;
      Unique(a + 1, n, q + 1, 0);
    } else {
      Unique(a + 1, n, q, r + 1);
    }
  }

  lemma Unique(a: nat, n: nat, q: nat, r: nat)
    requires n > 0 && r < n && a == n * q + r
    ensures a % n == r
  {
    var d := a / n - q;
    assert a == n * (a / n) + a % n;
    assert n * d == r - a % n;
    Scaled(n, d);
  }

  lemma Scaled(n: int, d: int)
    requires n >= 0
    ensures d >= 1 ==> n * d >= n
    ensures d <= -1 ==> n * d <= -n
  {
  }

  // ---- every ready thread is served ----

  /** The ready queues: CPU 0's service queue and every CPU's Ring-3 queue. */
  predicate IsQueue(s: Sched, p: Place) {
    p == InService(0) || (p.InRing3? && p.c < s.cores)
  }

  function Ready(s: Sched, p: Place): seq<Tid>
    requires Shaped(s) && IsQueue(s, p)
  {
    if p.InService? then s.service[0] else s.ring3[p.c]
  }

  /** The pass of the scheduling loop that serves a queue. */
  function PassOf(p: Place): Step
    requires p.InService? || p.InRing3?
  {
    if p.InService? then PumpService else if p.c == 0 then PumpRing3 else ApLoop(p.c)
  }

  ghost predicate RunsSomewhere(s: Sched, t: Tid) {
    Some(t) in s.running
  }

  /** The queue keeps its threads in order, and at most loses the first, which then runs. */
  ghost predicate Advances(q: seq<Tid>, s': Sched, q': seq<Tid>) {
    q <= q' || (q != [] && q' == q[1..] && RunsSomewhere(s', q[0]))
  }

  lemma RanAdvances(s: Sched, s': Sched, from: Cpu, c: Cpu, p: Place)
    requires Shaped(s) && from < s.cores && c < s.cores && s.ring3[from] != [] && Ran(s, s', from, c) && IsQueue(s, p)
    ensures Shaped(s') && IsQueue(s', p) && Advances(Ready(s, p), s', Ready(s', p))
    ensures p == InRing3(from) ==> Ready(s', p) == Ready(s, p)[1..] && RunsSomewhere(s', Ready(s, p)[0])
  {
    assert s'.running[c] == Some(s.ring3[from][0]);
  }

  /** A step that dispatches. */
  lemma DispatchAdvances(s: Sched, pl: Places, st: Step, p: Place)
    requires Inv(s, pl) && Enabled(s, st) && IsQueue(s, p) && (st.PumpService? || st.PumpRing3? || st.ApLoop?)
    ensures var s' := Do(s, st);
            && Shaped(s') && IsQueue(s', p) && s'.cores == s.cores && Advances(Ready(s, p), s', Ready(s', p))
            && (st == PassOf(p) && Ready(s, p) != [] ==>
                  Ready(s', p) == Ready(s, p)[1..] && RunsSomewhere(s', Ready(s, p)[0]))
  {
    hide Lists, Runs, ThreadsOk, Real, StealSource;
    var s' := Do(s, st);
    match st
    case PumpService =>
      OwnFirst(s, pl, 0);
      if s.service[0] != [] {
        assert s'.running[0] == Some(s.service[0][0]);
      }
    case PumpRing3 =>
      OwnFirst(s, pl, 0);
      if s.ring3[0] != [] {
        RanAdvances(s, s', 0, 0, p);
      }
    case ApLoop(c) =>
      if s.ring3[c] != [] {
        OwnFirst(s, pl, c);
        RanAdvances(s, s', c, c, p);
      } else {
        StealsNearest(s, pl, c);
        if s' != s {
          var src :| Nearest(s, c, src) && Ran(s, s', src, c);
          RanAdvances(s, s', src, c, p);
        }
      }
  }

  lemma StepAdvances(s: Sched, pl: Places, st: Step, p: Place)
    requires Inv(s, pl) && Enabled(s, st) && IsQueue(s, p)
    ensures var s' := Do(s, st);
            && Shaped(s') && IsQueue(s', p) && s'.cores == s.cores && Advances(Ready(s, p), s', Ready(s', p))
            && (st == PassOf(p) && Ready(s, p) != [] ==>
                  Ready(s', p) == Ready(s, p)[1..] && RunsSomewhere(s', Ready(s, p)[0]))
  {
    hide Lists, Runs, ThreadsOk, Real;
    match st
    case PumpService => DispatchAdvances(s, pl, st, p);
    case PumpRing3 => DispatchAdvances(s, pl, st, p);
    case ApLoop(_) => DispatchAdvances(s, pl, st, p);
    case Signal(e) =>
      SignalMoves(s, pl, e);
      hide Picked, WakeAll;
    case _ =>
  }

  function Passes(steps: seq<Step>, st: Step): nat {
    if steps == [] then 0 else (if steps[0] == st then 1 else 0) + Passes(steps[1..], st)
  }

  /** A thread with i others before it in its ready queue has run, somewhere, by the time its CPU has
      made i + 1 dispatch passes, whatever else happens in between. */
  lemma {:induction false} Served(s: Sched, pl: Places, steps: seq<Step>, p: Place, i: nat) returns (j: nat)
    requires Inv(s, pl) && Possible(s, steps) && IsQueue(s, p)
    requires i < |Ready(s, p)| && Passes(steps, PassOf(p)) > i
    ensures 0 < j <= |steps| && Possible(s, steps[..j]) && RunsSomewhere(DoAll(s, steps[..j]), Ready(s, p)[i])
    decreases |steps|
  {
    hide Inv, Do, Enabled;
    var st, t, s' := steps[0], Ready(s, p)[i], Do(s, steps[0]);
    StepAdvances(s, pl, st, p);
    var pl' := StepInv(s, pl, st);
    if RunsSomewhere(s', t) {
      j := 1;
      OneStep(s, steps);
    } else {
      var i' := if Ready(s, p) <= Ready(s', p) then i else i - 1;
      assert Ready(s', p)[i'] == t;
      var k := Served(s', pl', steps[1..], p, i');
      j := k + 1;
      assert steps[..j][1..] == steps[1..][..k];
    }
  }

  lemma OneStep(s: Sched, steps: seq<Step>)
    requires Possible(s, steps) && steps != []
    ensures Possible(s, steps[..1]) && DoAll(s, steps[..1]) == Do(s, steps[0])
  {
    assert steps[..1][1..] == [];
  }

  /** From boot: in every state of every run each runnable thread is in such a queue, so it is
      served. */
  lemma RunnableIsQueued(s0: Sched, steps: seq<Step>, t: Tid) returns (p: Place, i: nat)
    requires Fresh(s0) && Possible(s0, steps)
    requires t in DoAll(s0, steps).threads && DoAll(s0, steps).threads[t].state == Runnable
    ensures var s := DoAll(s0, steps);
            Shaped(s) && IsQueue(s, p) && i < |Ready(s, p)| && Ready(s, p)[i] == t
  {
    var s := DoAll(s0, steps);
    FreshInv(s0);
    var pl := RunInv(s0, map[], steps);
    assert t in pl;
    assert ThreadOk(s, t, pl[t]);
    p := pl[t];
    assert Real(s, p);
    var q := if p.InService? then s.service[p.c] else s.ring3[p.c];
    assert Lists(q, pl, p) && t in q;
    i :| 0 <= i < |q| && q[i] == t;
  }
}
