/** The retransmission queue: a 64-entry ring of in-flight segment descriptors with 8-bit
    indices, and the pop loop an acknowledgement runs over it. */
module TcpRetx {
  import opened SeqSpace

  const RETX_MAX: nat := 64

  datatype Control = DataSegment | SynSegment | FinSegment

  /** One in-flight segment. xmitCount 0 means never retransmitted. */
  datatype Entry = Entry(first: u32, endSeq: u32, control: Control, sentTicks: nat, xmitCount: u8)

  /** How many descriptors at the front of the queue the acknowledgement covers. */
  function CoveredPrefix(q: seq<Entry>, ack: u32): (p: nat)
    ensures p <= |q|
    ensures forall i :: 0 <= i < p ==> SeqLE(q[i].endSeq, ack)
    ensures p < |q| ==> !SeqLE(q[p].endSeq, ack)
  {
    if q == [] || !SeqLE(q[0].endSeq, ack) then 0 else
      var rest := CoveredPrefix(q[1..], ack);
      assert forall i :: 0 <= i < rest ==> q[1..][i] == q[i + 1];
      1 + rest
  }

  /** The earliest send time among the given descriptors, 0 for none. */
  function OldestSent(q: seq<Entry>): nat {
    if q == [] then 0 else
      var before := OldestSent(q[..|q| - 1]);
      var last := q[|q| - 1].sentTicks;
      if |q| == 1 || last < before then last else before
  }

  predicate AnyPristine(q: seq<Entry>) {
    exists i :: 0 <= i < |q| && q[i].xmitCount == 0
  }

  /** The descriptors lie in the send window: their end positions increase strictly from
      una to nxt, and each stores the wrapped value of its position. */
  ghost predicate Tracks(q: seq<Entry>, ends: seq<int>, una: int, nxt: int) {
    && |ends| == |q|
    && (forall i :: 0 <= i < |q| ==> una < ends[i] <= nxt && q[i].endSeq == Wrap(ends[i]))
    && (forall i, j :: 0 <= i < j < |q| ==> ends[i] < ends[j])
  }

  /** The pop loop removes exactly the descriptors the acknowledgement covers. */
  lemma PopsExactlyCovered(q: seq<Entry>, ends: seq<int>, una: int, nxt: int, a: int)
    requires Tracks(q, ends, una, nxt) && nxt - una <= HALF32
    requires una < a <= nxt
    ensures var p := CoveredPrefix(q, Wrap(a));
            && (forall i :: 0 <= i < |q| ==> (i < p <==> ends[i] <= a))
            && Tracks(q[p..], ends[p..], a, nxt)
  {
    hide SeqLE, Wrap, CoveredPrefix;
    var p := CoveredPrefix(q, Wrap(a));
    forall i | 0 <= i < |q|
      ensures i < p <==> ends[i] <= a
    {
      if i < p {
        SeqOrder(ends[i], a);
      } else {
        SeqOrder(ends[p], a);
        assert ends[p] <= ends[i];
      }
    }
  }

  /** Pushing the descriptor that ends at the new nxt keeps the queue ordered. */
  lemma PushKeepsOrder(q: seq<Entry>, ends: seq<int>, una: int, nxt: int, e: Entry, nxt': int)
    requires Tracks(q, ends, una, nxt) && una <= nxt < nxt'
    requires e.endSeq == Wrap(nxt')
    ensures Tracks(q + [e], ends + [nxt'], una, nxt')
    ensures Tracks(q, ends, una, nxt')
  {
  }

  function At(base: nat, i: nat): (k: nat)
    ensures k < RETX_MAX
  {
    (base + i) % RETX_MAX
  }

  ghost function View(d: seq<Entry>, h: nat, n: nat): (s: seq<Entry>)
    requires |d| == RETX_MAX
    ensures |s| == n
  {
    seq(n, i requires 0 <= i < n => d[At(h, i)])
  }

  const EMPTY_ENTRY: Entry := Entry(0, 0, DataSegment, 0, 0)

  class RetxQueue {
    const ring: array<Entry>
    var head: u8
    var tail: u8
    var n: nat

    ghost predicate Valid()
      reads this
    {
      && ring.Length == RETX_MAX
      && n <= RETX_MAX
      && tail == (head + n) % 256
    }

    /** The queued descriptors, oldest first. */
    ghost function Contents(): (s: seq<Entry>)
      requires Valid()
      reads this, ring
      ensures |s| == n
    {
      View(ring[..], head, n)
    }

    constructor ()
      ensures Valid() && fresh(ring) && Contents() == []
    {
      ring := new Entry[RETX_MAX](_ => EMPTY_ENTRY);
      head, tail, n := 0, 0, 0;
    }

    /** The oldest descriptor. */
    function Front(): (e: Entry)
      requires Valid() && n > 0
      reads this, ring
      ensures e == Contents()[0]
    {
      assert head % RETX_MAX == At(head, 0);
      ring[head % RETX_MAX]
    }

    method Push(e: Entry) returns (ok: bool)
      requires Valid()
      modifies this, ring
      ensures Valid()
      ensures ok == (|old(Contents())| < RETX_MAX)
      ensures Contents() == if ok then old(Contents()) + [e] else old(Contents())
    {
      if n >= RETX_MAX {
        return false;
      }
      ghost var before := Contents();
      assert tail % RETX_MAX == At(head, n);
      forall i | 0 <= i < n
        ensures At(head, i) != At(head, n)
      {
      }
      ring[tail % RETX_MAX] := e;
      tail := (tail + 1) % 256;
      n := n + 1;
      assert Contents() == before + [e];
      return true;
    }

    method Flush()
      requires Valid()
      modifies this, ring
      ensures Valid() && Contents() == []
    {
      for i := 0 to RETX_MAX {
        ring[i] := EMPTY_ENTRY;
      }
      head, tail, n := 0, 0, 0;
    }

    /** Bumps the retransmission count of the oldest descriptor and restamps it. */
    method RestampHead(now: nat)
      requires Valid() && n > 0
      modifies ring
      ensures Valid()
      ensures var h := old(Contents())[0];
              Contents() == [h.(xmitCount := (h.xmitCount + 1) % 256, sentTicks := now)] + old(Contents())[1..]
    {
      ghost var before := Contents();
      var h := ring[head % RETX_MAX];
      assert head % RETX_MAX == At(head, 0);
      forall i | 0 < i < n
        ensures At(head, i) != At(head, 0)
      {
      }
      ring[head % RETX_MAX] := h.(xmitCount := (h.xmitCount + 1) % 256, sentTicks := now);
      assert Contents()[1..] == before[1..];
    }

    /** Pops every descriptor at the front that ends at or before ack. */
    method AckTo(ack: u32) returns (popped: nat, oldestSent: nat, anyPristine: bool)
      requires Valid()
      modifies this, ring
      ensures Valid()
      ensures popped == CoveredPrefix(old(Contents()), ack)
      ensures Contents() == old(Contents())[popped..]
      ensures oldestSent == OldestSent(old(Contents())[..popped])
      ensures anyPristine == AnyPristine(old(Contents())[..popped])
    {
      popped, oldestSent, anyPristine := 0, 0, false;
      ghost var before := Contents();
      while n > 0
        invariant Valid()
        invariant popped <= |before| && Contents() == before[popped..]
        invariant forall i :: 0 <= i < popped ==> SeqLE(before[i].endSeq, ack)
        invariant oldestSent == OldestSent(before[..popped])
        invariant anyPristine == AnyPristine(before[..popped])
        decreases n
      {
        var e := ring[head % RETX_MAX];
        assert e == Contents()[0] == before[popped];
        if !SeqLE(e.endSeq, ack) {
          break;
        }
        assert before[..popped + 1][..popped] == before[..popped];
        PristineStep(before, popped);
        if popped == 0 || e.sentTicks < oldestSent {
          oldestSent := e.sentTicks;
        }
        if e.xmitCount == 0 {
          anyPristine := true;
        }
        PopFront();
        popped := popped + 1;
      }
      PrefixUnique(before, ack, popped);
    }

    /** Clears the head slot and advances past it. */
    method PopFront()
      requires Valid() && n > 0
      modifies this, ring
      ensures Valid() && n == old(n) - 1
      ensures Contents() == old(Contents())[1..]
    {
      ghost var before := Contents();
      forall i | 0 < i < n
        ensures At(head, i) != head % RETX_MAX && At((head + 1) % 256, i - 1) == At(head, i)
      {
      }
      ring[head % RETX_MAX] := EMPTY_ENTRY;
      head := (head + 1) % 256;
      n := n - 1;
      assert Contents() == before[1..];
    }
  }

  lemma PristineStep(q: seq<Entry>, p: nat)
    requires p < |q|
    ensures AnyPristine(q[..p + 1]) <==> AnyPristine(q[..p]) || q[p].xmitCount == 0
  {
    if AnyPristine(q[..p]) {
      var i :| 0 <= i < p && q[..p][i].xmitCount == 0;
      assert q[..p + 1][i].xmitCount == 0;
    }
    if q[p].xmitCount == 0 {
      assert q[..p + 1][p].xmitCount == 0;
    }
  }

  lemma {:induction false} PrefixUnique(q: seq<Entry>, ack: u32, p: nat)
    requires p <= |q|
    requires forall i :: 0 <= i < p ==> SeqLE(q[i].endSeq, ack)
    requires p < |q| ==> !SeqLE(q[p].endSeq, ack)
    ensures p == CoveredPrefix(q, ack)
  {
    var c := CoveredPrefix(q, ack);
    if p < c {
      assert false;
    } else if c < p {
      assert false;
    }
  }
}
