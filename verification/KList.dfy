/** Intrusive lists of kernel threads: every thread has one link field, shared by whichever ready
    queue or waiter list it is on (src/kthread.go:63-65, src/kthread_sched.go:81-107,
    src/kthread_event.go:56-57, 86-95). */
module KList {

  type Tid = nat

  datatype Option<T> = None | Some(value: T)

  type Links = map<Tid, Option<Tid>>

  function LinkOf(l: Links, t: Tid): Option<Tid> {
    if t in l then l[t] else None
  }

  ghost predicate Distinct(ts: seq<Tid>) {
    forall i, j :: 0 <= i < j < |ts| ==> ts[i] != ts[j]
  }

  /** Following links from p visits exactly ts, in order, and then ends. */
  ghost predicate Chain(l: Links, p: Option<Tid>, ts: seq<Tid>)
    decreases |ts|
  {
    if ts == [] then p == None else p == Some(ts[0]) && Chain(l, LinkOf(l, ts[0]), ts[1..])
  }

  /** A ready queue: its first and last thread. */
  datatype List = List(head: Option<Tid>, tail: Option<Tid>)

  const EMPTY: List := List(None, None)

  ghost predicate Represents(l: Links, q: List, ts: seq<Tid>) {
    && Chain(l, q.head, ts)
    && q.tail == (if ts == [] then None else Some(ts[|ts| - 1]))
  }

  ghost predicate SameLink(l: Links, l': Links, t: Tid) {
    LinkOf(l', t) == LinkOf(l, t)
  }

  /** A chain depends only on the links of its own threads. */
  lemma {:induction false} ChainFrame(l: Links, l': Links, p: Option<Tid>, ts: seq<Tid>)
    requires Chain(l, p, ts) && forall t :: t in ts ==> SameLink(l, l', t)
    ensures Chain(l', p, ts)
    decreases |ts|
  {
    if ts != [] {
      assert SameLink(l, l', ts[0]);
      ChainFrame(l, l', LinkOf(l, ts[0]), ts[1..]);
    }
  }

  /** Linking a thread behind the last one. */
  lemma {:induction false} ChainAppend(l: Links, l': Links, p: Option<Tid>, ts: seq<Tid>, t: Tid)
    requires Chain(l, p, ts) && Distinct(ts + [t])
    requires LinkOf(l', t) == None
    requires ts != [] ==> LinkOf(l', ts[|ts| - 1]) == Some(t)
    requires forall i :: 0 <= i < |ts| - 1 ==> SameLink(l, l', ts[i])
    ensures Chain(l', if ts == [] then Some(t) else p, ts + [t])
    decreases |ts|
  {
    if ts == [] {
      assert ts + [t] == [t] && [t][1..] == [];
    } else {
      assert (ts + [t])[1..] == ts[1..] + [t];
      if |ts| == 1 {
        assert ts[1..] + [t] == [t] && [t][1..] == [];
      } else {
        assert SameLink(l, l', ts[0]);
        var u := ts[1..] + [t];
        forall i, j | 0 <= i < j < |u|
          ensures u[i] != u[j]
        {
          assert u[i] == (ts + [t])[i + 1] && u[j] == (ts + [t])[j + 1];
        }
        ChainAppend(l, l', LinkOf(l, ts[0]), ts[1..], t);
      }
    }
  }

  lemma DistinctTail(ts: seq<Tid>)
    requires Distinct(ts) && ts != []
    ensures Distinct(ts[1..]) && ts[0] !in ts[1..]
  {
  }

  lemma DistinctMore(ts: seq<Tid>, t: Tid)
    requires Distinct(ts) && t !in ts
    ensures Distinct(ts + [t]) && Distinct([t] + ts)
  {
  }

  /** The link field of every kernel thread. */
  class WakeLinks {
    var next: Links

    constructor ()
      ensures next == map[]
    {
      next := map[];
    }

    /** kschedPushLocked: t goes to the back of the queue that holds ts. */
    method PushLocked(q: List, t: Tid, ghost ts: seq<Tid>) returns (q': List)
      requires Represents(next, q, ts) && Distinct(ts) && t !in ts
      modifies this
      ensures Represents(next, q', ts + [t])
      ensures forall x :: x != t && x !in ts ==> SameLink(old(next), next, x)
    {
      ghost var l := next;
      DistinctMore(ts, t);
      next := next[t := None];
      if q.tail == None {
        q' := List(Some(t), Some(t));
      } else {
        next := next[q.tail.value := Some(t)];
        q' := List(q.head, Some(t));
      }
      ChainAppend(l, next, q.head, ts, t);
    }

    /** kschedPopLocked. */
    method PopLocked(q: List, ghost ts: seq<Tid>) returns (t: Option<Tid>, q': List)
      requires Represents(next, q, ts) && Distinct(ts)
      modifies this
      ensures t == if ts == [] then None else Some(ts[0])
      ensures Represents(next, q', if ts == [] then [] else ts[1..])
      ensures forall x: Tid :: t != Some(x) ==> SameLink(old(next), next, x)
    {
      t := q.head;
      if t == None {
        return t, q;
      }
      ghost var l := next;
      DistinctTail(ts);
      var head := LinkOf(next, t.value);
      q' := List(head, if head == None then None else q.tail);
      next := next[t.value := None];
      ChainFrame(l, next, head, ts[1..]);
    }

    /** Put t on top of a stack of waiters. */
    method PushTop(head: Option<Tid>, t: Tid, ghost ts: seq<Tid>) returns (head': Option<Tid>)
      requires Chain(next, head, ts) && t !in ts
      modifies this
      ensures Chain(next, head', [t] + ts)
      ensures forall x :: x != t ==> SameLink(old(next), next, x)
    {
      ghost var l := next;
      next := next[t := head];
      ChainFrame(l, next, head, ts);
      head' := Some(t);
      assert ([t] + ts)[1..] == ts;
    }

    /** Take the first thread off a chain: its link is read, then cleared. */
    method TakeTop(t: Tid, ghost ts: seq<Tid>) returns (head': Option<Tid>)
      requires ts != [] && ts[0] == t && Chain(next, Some(t), ts) && Distinct(ts)
      modifies this
      ensures Chain(next, head', ts[1..])
      ensures forall x :: x != t ==> SameLink(old(next), next, x)
    {
      ghost var l := next;
      head' := LinkOf(next, t);
      next := next[t := None];
      DistinctTail(ts);
      ChainFrame(l, next, head', ts[1..]);
    }

    method Clear(t: Tid)
      modifies this
      ensures forall x :: x != t ==> SameLink(old(next), next, x)
      ensures LinkOf(next, t) == None
    {
      next := next[t := None];
    }
  }
}
