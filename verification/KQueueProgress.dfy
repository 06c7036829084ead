/** The bounded queue always drains: without new pushes every schedule of the threads inside it is
    finite, and where it ends every value started has come out, in order, and every producer has
    left Push (src/kthread_queue.go:39-139, 187-326). */
module KQueueProgress {
  import opened KList
  import opened KQueue

  // ---- what each step does ----

  /** A pass through Push: with room the value goes to the back and the producer leaves; without, it
      parks on top of the stack and the entries stay. */
  lemma PushExactly(s: Sys, p: Tid)
    requires Inv(s) && Enabled(s, PushRun(p))
    ensures var s' := Step(s, PushRun(p));
            if |s.q.items| < s.cap
            then s'.q.items == s.q.items + [s.threads[p].v] && s'.threads == s.threads[p := Idle]
                 && s'.q.producers == s.q.producers && s'.pushed == s.pushed + [(Some(p), s.threads[p].v)]
                 && (s.cons == Waiting ==> s'.cons == Due)
            else s'.q.items == s.q.items && s'.threads == s.threads[p := Parked(s.threads[p].v)]
                 && s'.q.producers == [p] + s.q.producers && s'.cons == s.cons
  {
    hide StackOk, WakeOk, Ledger;
  }

  /** A pass through Pop: the oldest entry comes out and the producer parked last is taken off; of an
      empty queue nothing comes out and the consumer waits. */
  lemma PopExactly(s: Sys)
    requires Inv(s) && Enabled(s, PopRun)
    ensures var s' := Step(s, PopRun);
            if s.q.items != []
            then s.q.items == [s'.popped[|s.popped|]] + s'.q.items && |s'.popped| == |s.popped| + 1
                 && s.popped <= s'.popped
                 && (s.q.producers != [] ==> var p := s.q.producers[0];
                       s.q.producers == [p] + s'.q.producers && p in s'.threads && s'.threads[p].Claimed?)
            else s' == s.(q := s.q.(consumer := Some(s.me)), cons := Waiting)
  {
    hide WakeOk, Ledger;
    if s.q.producers != [] {
      assert s.q.producers[0] in s.q.producers;
    }
  }

  /** The calls that do not wait: TryPush adds exactly if there is room, TryPop takes exactly if there
      is an entry, and otherwise nothing changes. */
  lemma TryExactly(s: Sys, v: Item)
    requires Inv(s)
    ensures var s' := Step(s, TryPushRun(v));
            if |s.q.items| < s.cap
            then s'.q.items == s.q.items + [v] && s'.popped == s.popped && s'.threads == s.threads
                 && (s.cons == Waiting ==> s'.cons == Due)
            else s' == s
    ensures var s' := Step(s, TryPopRun);
            if s.q.items != []
            then s'.popped == s.popped + [s.q.items[0]] && s'.q.items == s.q.items[1..]
                 && (s.q.producers != [] ==> s.q.producers[0] in s'.threads && s'.threads[s.q.producers[0]].Claimed?)
            else s' == s
  {
    hide WakeOk, Ledger;
    if s.q.producers != [] {
      assert s.q.producers[0] in s.q.producers;
    }
  }

  /** The producer that parked last is the first to be taken off. */
  lemma LastParkedFirst(s: Sys, p: Tid)
    requires Inv(s) && Enabled(s, PushRun(p)) && |s.q.items| == s.cap && s.cons == Ready
    ensures var s1 := Step(s, PushRun(p));
            Enabled(s1, PopRun) && Step(s1, PopRun).q.producers == s.q.producers
            && Step(s1, PopRun).threads == s.threads[p := Claimed(s.threads[p].v)]
  {
    hide StackOk, WakeOk, ConsumerOk, Ledger;
    var v := s.threads[p].v;
    assert ([p] + s.q.producers)[1..] == s.q.producers;
    assert s.threads[p := Parked(v)][p := Claimed(v)] == s.threads[p := Claimed(v)];
  }

  // ---- a measure ----

  function Class(t: Producer): nat {
    match t
    case Idle => 0
    case Parked(_) => 1
    case Claimed(_) => 3
    case _ => 2
  }

  function Members(threads: map<Tid, Producer>, c: nat): set<Tid> {
    set p | p in threads && Class(threads[p]) == c
  }

  lemma MembersUpdate(threads: map<Tid, Producer>, p: Tid, t: Producer, c: nat)
    requires p in threads
    ensures |Members(threads[p := t], c)| ==
            |Members(threads, c)| - (if Class(threads[p]) == c then 1 else 0) + (if Class(t) == c then 1 else 0)
  {
    hide Class;
    var ws, ws' := Members(threads, c), Members(threads[p := t], c);
    forall x: Tid | x != p
      ensures x in ws <==> x in ws'
    {
    }
    if p in ws && p !in ws' {
      assert ws == ws' + {p};
    } else if p !in ws && p in ws' {
      assert ws' == ws + {p};
    } else {
      assert ws == ws';
    }
  }

  function Work(threads: map<Tid, Producer>): nat {
    10 * |Members(threads, 1)| + 13 * |Members(threads, 2)| + 16 * |Members(threads, 3)|
  }

  function Weight(t: Producer): nat {
    match Class(t)
    case 0 => 0
    case 1 => 10
    case 2 => 13
    case _ => 16
  }

  lemma WorkUpdate(threads: map<Tid, Producer>, p: Tid, t: Producer)
    requires p in threads
    ensures Work(threads[p := t]) == Work(threads) - Weight(threads[p]) + Weight(t)
  {
    hide Members;
    MembersUpdate(threads, p, t, 1);
    MembersUpdate(threads, p, t, 2);
    MembersUpdate(threads, p, t, 3);
  }

  /** How much there is left to do. */
  function Energy(s: Sys): nat {
    7 * |s.q.items| + Work(s.threads) + (match s.cons case Waiting => 0 case Ready => 1 case Due => 2)
  }

  lemma PushUses(s: Sys, p: Tid)
    requires Inv(s) && Enabled(s, PushRun(p))
    ensures Energy(Step(s, PushRun(p))) < Energy(s)
  {
    hide StackOk, WakeOk, Ledger, Work;
    WorkUpdate(s.threads, p, Idle);
    WorkUpdate(s.threads, p, Parked(s.threads[p].v));
  }

  lemma PopUses(s: Sys)
    requires Inv(s) && Enabled(s, PopRun)
    ensures Energy(Step(s, PopRun)) < Energy(s)
  {
    hide WakeOk, Ledger, Work;
    if s.q.items != [] && s.q.producers != [] {
      var p := s.q.producers[0];
      assert p in s.q.producers;
      WorkUpdate(s.threads, p, Claimed(s.threads[p].v));
    }
  }

  /** Every step of a thread inside the queue uses some of it up. */
  lemma MovingDecreases(s: Sys, e: Event)
    requires Inv(s) && Enabled(s, e) && Moving(e)
    ensures Energy(Step(s, e)) < Energy(s)
  {
    hide Inv, Work;
    match e
    case PushRun(p) => PushUses(s, p);
    case Wake(p) => WorkUpdate(s.threads, p, Resumed(s.threads[p].v));
    case PopRun => PopUses(s);
    case WakeConsumer =>
  }

  // ---- whole runs ----

  predicate AllMoving(es: seq<Event>) {
    forall i :: 0 <= i < |es| ==> Moving(es[i])
  }

  /** No thread inside the queue can run and no wake-up is still to be made. */
  ghost predicate Quiet(s: Sys) {
    forall e :: Moving(e) ==> !Enabled(s, e)
  }

  /** The schedule cannot be longer than the work there is, and starts nothing new. */
  lemma {:induction false} RunsOut(s: Sys, es: seq<Event>)
    requires Inv(s) && Possible(s, es) && AllMoving(es)
    ensures |es| <= Energy(s) && Inv(Run(s, es))
    ensures Run(s, es).started == s.started && Run(s, es).threads.Keys == s.threads.Keys
    decreases |es|
  {
    hide Inv, Energy;
    if es != [] {
      assert Moving(es[0]);
      StepInv(s, es[0]);
      MovingDecreases(s, es[0]);
      StartsNothing(s, es[0]);
      RunsOut(Step(s, es[0]), es[1..]);
    }
  }

  lemma StartsNothing(s: Sys, e: Event)
    requires Enabled(s, e) && Moving(e)
    ensures Step(s, e).started == s.started && Step(s, e).threads.Keys == s.threads.Keys
  {
  }

  /** Where nothing moves the queue is drained: everything put in has come out, every producer has
      put in all it started, and the consumer waits. */
  lemma QuietIsDrained(s: Sys)
    requires Inv(s) && Quiet(s)
    ensures s.q.items == [] && s.cons == Waiting && s.popped == Values(s.pushed)
    ensures forall p :: p in s.threads ==>
              s.threads[p].Idle? && By(s.pushed, p) == if p in s.started then s.started[p] else []
  {
    assert !Enabled(s, PopRun) && !Enabled(s, WakeConsumer);
    assert s.popped + [] == s.popped;
    forall p | p in s.threads
      ensures s.threads[p].Idle? && By(s.pushed, p) == if p in s.started then s.started[p] else []
    {
      if !s.threads[p].Idle? {
        var e := NeverAllStuck(s, p);
        assert false;
      }
      assert By(s.pushed, p) + [] == By(s.pushed, p);
    }
  }

  /** From every reachable state: however the threads inside are scheduled, after at most Energy steps
      none can move, and then every value any producer started has come out, each producer's in its
      own order. */
  lemma Drains(s: Sys, es: seq<Event>)
    requires Inv(s) && Possible(s, es) && AllMoving(es) && Quiet(Run(s, es))
    ensures var s' := Run(s, es);
            && |es| <= Energy(s) && s'.q.items == [] && s'.popped == Values(s'.pushed)
            && (forall p :: p in s.threads ==>
                  && p in s'.threads && s'.threads[p].Idle?
                  && By(s'.pushed, p) == if p in s.started then s.started[p] else [])
  {
    hide Inv, Energy, Quiet;
    RunsOut(s, es);
    QuietIsDrained(Run(s, es));
  }

  /** And there is such a schedule. */
  lemma {:induction false} SomeScheduleDrains(s: Sys) returns (es: seq<Event>)
    requires Inv(s)
    ensures Possible(s, es) && AllMoving(es) && Quiet(Run(s, es))
    decreases Energy(s)
  {
    hide Inv, Energy, Step, Enabled, Quiet;
    if Quiet(s) {
      es := [];
    } else {
      var e := SomeMove(s);
      StepInv(s, e);
      MovingDecreases(s, e);
      var rest := SomeScheduleDrains(Step(s, e));
      es := [e] + rest;
      assert es[1..] == rest;
    }
  }

  lemma SomeMove(s: Sys) returns (e: Event)
    requires !Quiet(s)
    ensures Moving(e) && Enabled(s, e)
  {
    e :| Moving(e) && Enabled(s, e);
  }
}
