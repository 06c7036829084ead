/** The ones-complement checksum and the IPv4 header it protects (src/ipv4.go:46-150). */
module Checksum {
  import opened SeqSpace

  /** Two bytes as a big-endian word. */
  function Join(hi: u8, lo: u8): u16 {
    var h: int, l: int := hi, lo;
    256 * h + l
  }

  lemma JoinSplit(w: u16)
    ensures Join(w / 256, w % 256) == w
  {
  }

  /** The i-th aligned big-endian word; a missing low byte counts as 0. */
  function WordAt(d: seq<u8>, i: nat): nat
    requires 2 * i < |d|
  {
    Join(d[2 * i], if 2 * i + 1 < |d| then d[2 * i + 1] else 0)
  }

  function Sum(d: seq<u8>): nat {
    if d == [] then 0 else if |d| == 1 then Join(d[0], 0) else Join(d[0], d[1]) + Sum(d[2..])
  }

  /** Carries above 16 bits added back in until none is left. */
  function Fold(s: nat): nat {
    if s < 0x1_0000 then s else Fold(s % 0x1_0000 + s / 0x1_0000)
  }

  function Of(d: seq<u8>): u16 {
    FoldMeaning(Sum(d));
    0xFFFF - Fold(Sum(d))
  }

  /** Folding keeps the value modulo 65535 and only 0 folds to 0. */
  lemma {:induction false} FoldMeaning(s: nat)
    ensures Fold(s) <= 0xFFFF && Fold(s) % 0xFFFF == s % 0xFFFF && (Fold(s) == 0 <==> s == 0)
    decreases s
  {
    if s >= 0x1_0000 {
      var q, r := s / 0x1_0000, s % 0x1_0000;
      FoldMeaning(r + q);
      ModDrop(q, r + q);
      assert s == 0xFFFF * q + (r + q);
    }
  }

  lemma ModDrop(q: nat, x: nat)
    ensures (0xFFFF * q + x) % 0xFFFF == x % 0xFFFF
  {
  }

  /** A checksum of 0 means the words sum to a positive multiple of 65535. */
  lemma ZeroMeaning(d: seq<u8>)
    ensures Of(d) == 0 <==> Sum(d) > 0 && Sum(d) % 0xFFFF == 0
  {
    FoldMeaning(Sum(d));
  }

  function Put(d: seq<u8>, i: nat, w: u16): (d': seq<u8>)
    requires 2 * i + 1 < |d|
    ensures |d'| == |d|
  {
    d[2 * i := w / 256][2 * i + 1 := w % 256]
  }

  /** Replacing one aligned word changes the sum by the difference of the words. */
  lemma {:induction false} SumPut(d: seq<u8>, i: nat, w: u16)
    requires 2 * i + 1 < |d|
    ensures Sum(Put(d, i, w)) == Sum(d) - WordAt(d, i) + w
    decreases |d|
  {
    var d' := Put(d, i, w);
    if i == 0 {
      assert d'[2..] == d[2..];
    } else {
      SumPut(d[2..], i - 1, w);
      assert d'[2..] == Put(d[2..], i - 1, w);
      assert WordAt(d[2..], i - 1) == WordAt(d, i);
    }
  }

  /** Filling the zeroed checksum word with the checksum makes the whole check to 0. */
  lemma FilledIsZero(d: seq<u8>, i: nat)
    requires 2 * i + 1 < |d| && WordAt(d, i) == 0 && Sum(d) > 0
    ensures Of(Put(d, i, Of(d))) == 0
  {
    var c := Of(d);
    SumPut(d, i, c);
    FoldMeaning(Sum(d));
    ZeroMeaning(Put(d, i, c));
    var s, f := Sum(d), Fold(Sum(d));
    MultipleOf(s, f);
  }

  lemma MultipleOf(s: nat, f: nat)
    requires f <= 0xFFFF && f % 0xFFFF == s % 0xFFFF
    ensures (s + 0xFFFF - f) % 0xFFFF == 0
  {
    var a, b := s / 0xFFFF, f / 0xFFFF;
    assert s - f == 0xFFFF * (a - b);
    ModZero(a - b + 1);
  }

  lemma ModZero(k: int)
    ensures (0xFFFF * k) % 0xFFFF == 0
  {
  }

  /** A change of one aligned word of data that checks to 0 goes unnoticed exactly when the new
      word is congruent to the old one modulo 65535 (that is, equal, or 0 against 0xFFFF) and
      something non-zero is left. */
  lemma WordChangeDetected(d: seq<u8>, i: nat, w: u16)
    requires 2 * i + 1 < |d| && Of(d) == 0
    ensures Of(Put(d, i, w)) == 0 <==> w % 0xFFFF == WordAt(d, i) % 0xFFFF && Sum(Put(d, i, w)) > 0
  {
    ZeroMeaning(d);
    ZeroMeaning(Put(d, i, w));
    SumPut(d, i, w);
    SameResidue(Sum(d), WordAt(d, i), w);
  }

  lemma SameResidue(s: nat, a: nat, b: nat)
    requires s % 0xFFFF == 0 && a <= s
    ensures (s - a + b) % 0xFFFF == 0 <==> b % 0xFFFF == a % 0xFFFF
  {
    var k := s / 0xFFFF;
    var p, q := a / 0xFFFF, b / 0xFFFF;
    var x := b % 0xFFFF - a % 0xFFFF;
    assert s - a + b == 0xFFFF * (k - p + q) + x;
    if x < 0 {
      DropMultiple(k - p + q - 1, x + 0xFFFF);
    } else {
      DropMultiple(k - p + q, x);
    }
  }

  lemma DropMultiple(k: int, r: int)
    requires 0 <= r < 0xFFFF
    ensures (0xFFFF * k + r) % 0xFFFF == r
  {
  }

  lemma {:induction false} SumBound(d: seq<u8>)
    ensures Sum(d) <= 0xFFFF * ((|d| + 1) / 2)
    decreases |d|
  {
    if |d| > 1 {
      SumBound(d[2..]);
    }
  }

  /** The most words whose sum a 32-bit accumulator is sure to hold. */
  const EXACT_WORDS: nat := 65537

  /** The checksum with the sum taken in 32 bits. */
  function Of32(d: seq<u8>): u16 {
    FoldMeaning(Wrap(Sum(d)));
    0xFFFF - Fold(Wrap(Sum(d)))
  }

  lemma SumFits(d: seq<u8>, start: nat, words: nat)
    requires start <= 0xFFFF * words && words + (|d| + 1) / 2 <= EXACT_WORDS
    ensures Wrap(start + Sum(d)) == start + Sum(d)
  {
    SumBound(d);
    WrapSmall(start + Sum(d));
  }

  /** The accumulation loop over 32-bit additions. */
  method AddUp(start: u32, data: seq<u8>) returns (sum: u32)
    ensures sum == Wrap(start + Sum(data))
  {
    hide Wrap;
    WrapSmall(start);
    var i := 0;
    sum := start;
    ghost var exact: nat := start;
    while i + 1 < |data|
      invariant 0 <= i <= |data| && sum == Wrap(exact)
      invariant exact + Sum(data[i..]) == start + Sum(data)
    {
      assert data[i..][2..] == data[i + 2..];
      var w: u32 := Join(data[i], data[i + 1]);
      WrapAdd(exact, w);
      sum := Add32(sum, w);
      exact := exact + w;
      i := i + 2;
    }
    if i < |data| {
      var w: u32 := Join(data[i], 0);
      WrapAdd(exact, w);
      sum := Add32(sum, w);
    }
  }

  /** ipv4Checksum. */
  method Compute(data: seq<u8>) returns (c: u16)
    ensures c == Of32(data)
    ensures |data| <= 2 * EXACT_WORDS ==> c == Of(data)
  {
    var sum := AddUp(0, data);
    if |data| <= 2 * EXACT_WORDS {
      SumFits(data, 0, 0);
    }
    c := FoldAndInvert(sum);
  }

  method FoldAndInvert(total: u32) returns (c: u16)
    ensures c == 0xFFFF - Fold(total)
  {
    var sum := total;
    FoldMeaning(total);
    while sum >= 0x1_0000
      invariant Fold(sum) == Fold(total)
      decreases sum
    {
      sum := sum % 0x1_0000 + sum / 0x1_0000;
    }
    c := 0xFFFF - sum;
  }
}
