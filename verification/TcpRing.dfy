/** The per-connection byte ring: 32-bit logical read and write counters, a count, and a
    masked physical index. Every method is proved against the byte sequence it holds. */
module TcpRing {
  import opened SeqSpace

  const RING_SIZE: nat := 8192

  /** The masked physical index of a logical counter value. */
  function Slot(counter: u32): nat {
    counter % RING_SIZE
  }

  /** The slot of the i-th byte after logical position base, base being unbounded. */
  function At(base: nat, i: nat): (k: nat)
    ensures k < RING_SIZE
  {
    (base + i) % RING_SIZE
  }

  /** The mask survives the 32-bit wrap, because the ring size divides 2^32. */
  lemma SlotOfSum(a: u32, b: u32)
    ensures Slot(Add32(a, b)) == At(a, b)
  {
    if a + b >= MOD32 {
      var m := a + b - MOD32;
      assert a + b == RING_SIZE * (m / RING_SIZE + 524288) + m % RING_SIZE;
    }
  }

  /** Moving the base by n is moving the index by n, wrap or no wrap. */
  lemma RebaseAt(a: u32, n: u32, i: nat)
    ensures At(Add32(a, n), i) == At(a, n + i)
  {
    if a + n >= MOD32 {
      var m := a + n - MOD32 + i;
      assert a + (n + i) == RING_SIZE * (m / RING_SIZE + 524288) + m % RING_SIZE;
    }
  }

  /** The bytes held by the n slots that follow logical position h. */
  ghost function View(d: seq<u8>, h: nat, n: nat): (s: seq<u8>)
    requires |d| == RING_SIZE
    ensures |s| == n
  {
    seq(n, i requires 0 <= i < n => d[At(h, i)])
  }

  /** Storing at the slot behind a not yet full view extends the view by that byte. */
  lemma StoreExtends(d: seq<u8>, h: nat, n: nat, b: u8)
    requires |d| == RING_SIZE && n < RING_SIZE
    ensures View(d[At(h, n) := b], h, n + 1) == View(d, h, n) + [b]
  {
    var d' := d[At(h, n) := b];
    forall i | 0 <= i < n
      ensures View(d', h, n + 1)[i] == View(d, h, n)[i]
    {
      assert At(h, i) != At(h, n);
    }
  }

  /** Dropping the first k bytes of a view is a view from a later head. */
  lemma DropView(d: seq<u8>, h: u32, n: nat, k: nat)
    requires |d| == RING_SIZE && k <= n <= RING_SIZE
    ensures View(d, Add32(h, k), n - k) == View(d, h, n)[k..]
  {
    forall i | 0 <= i < n - k
      ensures View(d, Add32(h, k), n - k)[i] == View(d, h, n)[k..][i]
    {
      RebaseAt(h, k, i);
    }
  }

  class RingBuf {
    const data: array<u8>
    var head: u32
    var tail: u32
    var count: nat

    ghost predicate Valid()
      reads this
    {
      && data.Length == RING_SIZE
      && count <= RING_SIZE
      && tail == Add32(head, count)
    }

    /** The buffered bytes, oldest first. */
    ghost function Contents(): (s: seq<u8>)
      requires Valid()
      reads this, data
      ensures |s| == count
    {
      View(data[..], head, count)
    }

    constructor ()
      ensures Valid() && fresh(data) && Contents() == []
    {
      data := new u8[RING_SIZE](_ => 0);
      head, tail, count := 0, 0, 0;
    }

    method Reset()
      requires Valid()
      modifies this
      ensures Valid() && Contents() == []
    {
      head, tail, count := 0, 0, 0;
    }

    /** Appends as much of src as fits and returns how much that was. */
    method Write(src: seq<u8>) returns (n: nat)
      requires Valid()
      modifies this, data
      ensures Valid()
      ensures n == if |src| <= RING_SIZE - |old(Contents())| then |src| else RING_SIZE - |old(Contents())|
      ensures Contents() == old(Contents()) + src[..n]
    {
      n := |src|;
      if n > RING_SIZE - count {
        n := RING_SIZE - count;
      }
      ghost var before := Contents();
      var i := 0;
      while i < n
        invariant 0 <= i <= n
        invariant View(data[..], head, count + i) == before + src[..i]
        modifies data
      {
        SlotOfSum(tail, i);
        RebaseAt(head, count, i);
        StoreExtends(data[..], head, count + i, src[i]);
        ghost var d := data[..];
        data[Slot(Add32(tail, i))] := src[i];
        assert data[..] == d[At(head, count + i) := src[i]];
        assert src[..i + 1] == src[..i] + [src[i]];
        i := i + 1;
      }
      tail := Add32(tail, n);
      count := count + n;
    }

    /** Removes and returns up to lim of the oldest bytes. */
    method Read(lim: nat) returns (dst: seq<u8>)
      requires Valid()
      modifies this
      ensures Valid()
      ensures |dst| == if lim <= |old(Contents())| then lim else |old(Contents())|
      ensures old(Contents()) == dst + Contents()
    {
      var n := lim;
      if n > count {
        n := count;
      }
      dst := [];
      ghost var before := Contents();
      var i := 0;
      while i < n
        invariant 0 <= i <= n
        invariant dst == before[..i]
        modifies {}
      {
        SlotOfSum(head, i);
        dst := dst + [data[Slot(Add32(head, i))]];
        i := i + 1;
      }
      DropView(data[..], head, count, n);
      head := Add32(head, n);
      count := count - n;
      assert before == before[..n] + before[n..];
    }
  }
}
