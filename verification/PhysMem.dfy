/** Physical memory as 64-bit words at word addresses, with byte access on top. Words that
    were never written read as 0; no proof relies on what an unwritten word holds. */
module PhysMem {

  const PAGE: nat := 4096

  type Mem = map<nat, nat>

  function Load(m: Mem, a: nat): nat {
    if a in m then m[a] else 0
  }

  /** The word address of entry i of the frame f. */
  function Word(f: nat, i: nat): nat {
    f + 8 * i
  }

  predicate Aligned(f: nat) {
    f % PAGE == 0
  }

  /** a is one of the 512 words of frame f. */
  predicate InFrame(a: nat, f: nat) {
    f <= a < f + PAGE
  }

  /** Words of different frames, and different words of one frame, are different addresses. */
  lemma WordsDistinct(f: nat, i: nat, g: nat, j: nat)
    requires Aligned(f) && Aligned(g) && i < 512 && j < 512
    ensures Word(f, i) == Word(g, j) <==> f == g && i == j
    ensures InFrame(Word(f, i), g) <==> f == g
  {
    if InFrame(Word(f, i), g) {
      FramesDisjoint(f, g, Word(f, i));
    }
  }

  lemma FramesDisjoint(f: nat, g: nat, a: nat)
    requires Aligned(f) && Aligned(g) && InFrame(a, f) && InFrame(a, g)
    ensures f == g
  {
    assert f == PAGE * (f / PAGE) && g == PAGE * (g / PAGE);
  }

  /** The first n words of the frame cleared, in order. */
  function Cleared(m: Mem, f: nat, n: nat): Mem {
    if n == 0 then m else Cleared(m, f, n - 1)[Word(f, n - 1) := 0]
  }

  /** The frame with all its words cleared. */
  function Zeroed(m: Mem, f: nat): Mem {
    Cleared(m, f, 512)
  }

  lemma {:induction false} ClearedWords(m: Mem, f: nat, n: nat, g: nat, i: nat)
    requires Aligned(f) && Aligned(g) && i < 512 && n <= 512
    ensures Load(Cleared(m, f, n), Word(g, i)) == if g == f && i < n then 0 else Load(m, Word(g, i))
  {
    if n > 0 {
      ClearedWords(m, f, n - 1, g, i);
      WordsDistinct(f, n - 1, g, i);
    }
  }

  /** Clearing a frame zeroes its entries and touches no other frame. */
  lemma ZeroedWords(m: Mem, f: nat, g: nat, i: nat)
    requires Aligned(f) && Aligned(g) && i < 512
    ensures Load(Zeroed(m, f), Word(g, i)) == if g == f then 0 else Load(m, Word(g, i))
  {
    ClearedWords(m, f, 512, g, i);
  }

  /** Storing a word changes that entry and no other. */
  lemma StoredWords(m: Mem, f: nat, i: nat, v: nat, g: nat, j: nat)
    requires Aligned(f) && Aligned(g) && i < 512 && j < 512
    ensures Load(m[Word(f, i) := v], Word(g, j)) == if f == g && i == j then v else Load(m, Word(g, j))
  {
    WordsDistinct(f, i, g, j);
  }

  // ---- bits ----

  /** Bitwise or, bit by bit from the lowest. */
  function Or(a: nat, b: nat): nat
    decreases a + b
  {
    if a == 0 && b == 0 then 0
    else 2 * Or(a / 2, b / 2) + if a % 2 == 1 || b % 2 == 1 then 1 else 0
  }

  lemma {:induction false} OrZero(a: nat)
    ensures Or(a, 0) == a
  {
    if a > 0 {
      OrZero(a / 2);
    }
  }

  function Pow2(k: nat): (p: nat)
    ensures p >= 1
  {
    if k == 0 then 1 else 2 * Pow2(k - 1)
  }

  /** Bits below position k and a multiple of 2^k do not meet, so or is addition. */
  lemma {:induction false} OrAdds(q: nat, low: nat, k: nat)
    requires low < Pow2(k)
    ensures Or(Pow2(k) * q, low) == Pow2(k) * q + low
    decreases k
  {
    if k == 0 {
      OrZero(q);
    } else {
      var a := Pow2(k - 1) * q;
      assert Pow2(k) * q == 2 * a;
      OrAdds(q, low / 2, k - 1);
      assert (2 * a) / 2 == a && (2 * a) % 2 == 0;
    }
  }

  /** Flags below the page size in the low bits of a frame address. */
  lemma OrFlags(f: nat, low: nat)
    requires Aligned(f) && low < PAGE
    ensures Or(f, low) == f + low
  {
    assert Pow2(4) == 16 && Pow2(8) == 256 && Pow2(12) == PAGE;
    OrAdds(f / PAGE, low, 12);
  }

  // ---- bytes ----

  /** The k-th byte of a word, least significant first: shift right 8 bits k times, mask. */
  function ByteOf(w: nat, k: nat): nat {
    if k == 0 then w % 256 else ByteOf(w / 256, k - 1)
  }

  /** The word with its k-th byte replaced. */
  function WithByte(w: nat, k: nat, b: nat): nat
    requires b < 256
  {
    if k == 0 then 256 * (w / 256) + b else 256 * WithByte(w / 256, k - 1, b) + w % 256
  }

  function LoadByte(m: Mem, a: nat): nat {
    ByteOf(Load(m, a - a % 8), a % 8)
  }

  function StoreByte(m: Mem, a: nat, b: nat): Mem
    requires b < 256
  {
    m[a - a % 8 := WithByte(Load(m, a - a % 8), a % 8, b)]
  }

  /** Replacing one byte of a word changes that byte and no other. */
  lemma {:induction false} WithByteBytes(w: nat, k: nat, b: nat, j: nat)
    requires b < 256
    ensures ByteOf(WithByte(w, k, b), j) == if j == k then b else ByteOf(w, j)
    decreases k
  {
    var w' := WithByte(w, k, b);
    if k > 0 {
      assert w' / 256 == WithByte(w / 256, k - 1, b) && w' % 256 == w % 256;
      if j > 0 {
        WithByteBytes(w / 256, k - 1, b, j - 1);
      }
    } else {
      assert w' / 256 == w / 256 && w' % 256 == b;
    }
  }

  /** A byte store changes that byte and no other. */
  lemma StoredBytes(m: Mem, a: nat, b: nat, a': nat)
    requires b < 256
    ensures LoadByte(StoreByte(m, a, b), a') == if a' == a then b else LoadByte(m, a')
  {
    WithByteBytes(Load(m, a - a % 8), a % 8, b, a' % 8);
  }

  /** A byte store inside frame f leaves every word of every other frame alone. */
  lemma StoreByteFrame(m: Mem, f: nat, off: nat, b: nat, g: nat, i: nat)
    requires b < 256 && Aligned(f) && Aligned(g) && off < PAGE && i < 512 && g != f
    ensures Load(StoreByte(m, f + off, b), Word(g, i)) == Load(m, Word(g, i))
  {
    WordOfByte(f, off);
    WordsDistinct(f, off / 8, g, i);
  }

  lemma WordOfByte(f: nat, off: nat)
    requires Aligned(f) && off < PAGE
    ensures off / 8 < 512 && (f + off) - (f + off) % 8 == Word(f, off / 8)
  {
    assert f % 8 == 0;
  }

  /** Memory whose frame f is unchanged shows the same bytes there. */
  lemma SameWordsSameBytes(m: Mem, m': Mem, f: nat, off: nat)
    requires Aligned(f) && off < PAGE
    requires forall i :: 0 <= i < 512 ==> Load(m', Word(f, i)) == Load(m, Word(f, i))
    ensures LoadByte(m', f + off) == LoadByte(m, f + off)
  {
    WordOfByte(f, off);
  }

  lemma ZeroFrameBytes(m: Mem, f: nat, off: nat)
    requires Aligned(f) && off < PAGE
    requires forall i :: 0 <= i < 512 ==> Load(m, Word(f, i)) == 0
    ensures LoadByte(m, f + off) == 0
  {
    WordOfByte(f, off);
    ZeroBytes((f + off) % 8);
  }

  lemma ZeroBytes(k: nat)
    ensures ByteOf(0, k) == 0
  {
  }

  // ---- eight bytes as one value ----

  /** The value of little-endian bytes. */
  function FromBytes(bytes: seq<nat>): nat {
    if bytes == [] then 0 else bytes[0] + 256 * FromBytes(bytes[1..])
  }

  function Pow256(n: nat): nat {
    if n == 0 then 1 else 256 * Pow256(n - 1)
  }

  /** n bytes are enough to carry a value below 256^n across. */
  lemma {:induction false} BytesRoundTrip(v: nat, bytes: seq<nat>)
    requires v < Pow256(|bytes|)
    requires forall k :: 0 <= k < |bytes| ==> bytes[k] == ByteOf(v, k)
    ensures FromBytes(bytes) == v
  {
    if bytes != [] {
      forall k | 0 <= k < |bytes[1..]|
        ensures bytes[1..][k] == ByteOf(v / 256, k)
      {
        assert bytes[1..][k] == bytes[k + 1];
      }
      BytesRoundTrip(v / 256, bytes[1..]);
    }
  }
}
