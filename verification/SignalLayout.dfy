/** The signal frame as the process sees it: which word lies where, in the processor's byte order,
    that nothing else is written, and exactly which frames sigreturn takes
    (src/user_signal.go:44-70, 77-167, 266-334). Offsets and the magic number are written out. */
module SignalLayout {
  import opened PhysMem
  import opened PageTable
  import opened AddressSpaces
  import opened SignalFrame

  // ---- the processor's view of a word ----

  /** An aligned 64-bit load by the process at v. */
  function CpuLoad(m: Mem, root: nat, v: u64): nat {
    Load(m, Resolve(m, root, PathOf(v)) + v % PAGE) % TWO64
  }

  lemma {:induction false} SameLowBytes(x: nat, w: nat, n: nat)
    requires forall k :: 0 <= k < n ==> ByteOf(x, k) == ByteOf(w, k)
    ensures Pow256(n) > 0 && x % Pow256(n) == w % Pow256(n)
  {
    if n > 0 {
      forall k | 0 <= k < n - 1
        ensures ByteOf(x / 256, k) == ByteOf(w / 256, k)
      {
        assert ByteOf(x, k + 1) == ByteOf(w, k + 1);
      }
      SameLowBytes(x / 256, w / 256, n - 1);
      assert ByteOf(x, 0) == ByteOf(w, 0);
      ModSplit(x, Pow256(n - 1));
      ModSplit(w, Pow256(n - 1));
    }
  }

  lemma ModSplit(x: nat, p: nat)
    requires p > 0
    ensures x % (256 * p) == 256 * (x / 256 % p) + x % 256
  {
    var y := x / 256;
    var q, r := y / p, y % p;
    assert y == p * q + r;
    assert x == 256 * y + x % 256;
    var low := 256 * r + x % 256;
    assert x == (256 * p) * q + low by {
      assert 256 * (p * q + r) == (256 * p) * q + 256 * r;
    }
    Remainder(256 * p, q, low);
  }

  lemma Remainder(d: int, q: int, r: int)
    requires 0 <= r < d
    ensures (d * q + r) % d == r
  {
    var x := d * q + r;
    assert x == d * (x / d) + x % d;
    assert d * (x / d - q) == r - x % d;
    NoMultiple(d, x / d - q);
  }

  lemma NoMultiple(d: int, k: int)
    requires 0 < d && -d < d * k < d
    ensures k == 0
  {
    Grows(d, k);
  }

  lemma Grows(d: int, k: int)
    requires 0 < d
    ensures k >= 1 ==> d * k >= d
    ensures k <= -1 ==> d * k <= -d
  {
  }

  /** Within an aligned word addresses do not wrap and stay on one page. */
  lemma AlignedWord(b: int, p: nat, i: nat)
    requires Va(b, p) % 8 == 0 && i < 8
    ensures var v := Va(b, p);
            && Va(b, p + i) == v + i && (v + i) % PAGE == v % PAGE + i
            && PathOf(v + i) == PathOf(v)
  {
    var v := Va(b, p);
    Shifted(b, p, i);
    NoWrap(v, i);
    OffsetMod(v);
    hide Va, PathOf;
    SamePage(v, i);
  }

  lemma NoWrap(v: u64, i: nat)
    requires v % 8 == 0 && i < 8
    ensures v + i < TWO64 && Va(v, i) == v + i
  {
  }

  lemma OffsetMod(v: nat)
    requires v % 8 == 0
    ensures v % PAGE % 8 == 0 && v % PAGE <= PAGE - 8
  {
  }

  lemma SamePage(v: nat, i: nat)
    requires v % PAGE + i < PAGE
    ensures (v + i) % PAGE == v % PAGE + i && PathOf(v + i) == PathOf(v)
  {
    var n := v / PAGE;
    var w := v + i;
    assert w / PAGE == n;
    assert v / 0x20_0000 == n / 512 && v / 0x4000_0000 == n / 512 / 512 && v / 0x80_0000_0000 == n / 512 / 512 / 512;
    assert w / 0x20_0000 == n / 512 && w / 0x4000_0000 == n / 512 / 512 && w / 0x80_0000_0000 == n / 512 / 512 / 512;
  }

  lemma WordByte(m: Mem, f: nat, off: nat, i: nat)
    requires Aligned(f) && off % 8 == 0 && i < 8
    ensures LoadByte(m, f + off + i) == ByteOf(Load(m, f + off), i)
  {
    assert f % 8 == 0;
    assert (f + off + i) % 8 == i;
  }

  /** Byte i of the window's word is byte i of the memory word behind it. */
  lemma StackedByte(m: Mem, root: nat, b: int, p: nat, w: u64, i: nat)
    requires HoldsByte(m, root, b, p, w, i) && i < 8
    requires Va(b, p) % 8 == 0 && Aligned(Resolve(m, root, PathOf(Va(b, p))))
    ensures ByteOf(Load(m, Resolve(m, root, PathOf(Va(b, p))) + Va(b, p) % PAGE), i) == ByteOf(w, i)
  {
    AlignedWord(b, p, i);
    OffsetMod(Va(b, p));
    hide Va, PathOf, Resolve, LoadByte, ByteOf, Aligned;
    var v := Va(b, p);
    WordByte(m, Resolve(m, root, PathOf(v)), v % PAGE, i);
  }

  /** Eight stacked bytes at an aligned address are the word itself to the processor. */
  lemma StackedWord(m: Mem, t: Tables, root: nat, b: int, p: nat, w: u64)
    requires Holds(m, root, b, p, w) && Va(b, p) % 8 == 0 && p + 8 <= FRAME_BYTES && StackOk(m, t, root, b)
    ensures CpuLoad(m, root, Va(b, p)) == w
  {
    hide Va, PathOf, Resolve, ByteOf, TablesOk, UserPath;
    var v := Va(b, p);
    var f, off := Resolve(m, root, PathOf(v)), v % PAGE;
    assert HoldsByte(m, root, b, p, w, 0);
    assert p + 0 == p;
    assert Trans(m, root, b, p) == f && Aligned(f);
    var x := Load(m, f + off);
    forall i | 0 <= i < 8
      ensures ByteOf(x, i) == ByteOf(w, i)
    {
      hide StackOk;
      assert HoldsByte(m, root, b, p, w, i);
      StackedByte(m, root, b, p, w, i);
    }
    PowEight();
    hide Pow256;
    SameLowBytes(x, w, 8);
  }

  // ---- the frame ----

  /** The word at the given offset of the frame that starts at the new stack pointer. */
  ghost predicate FrameHas(m: Mem, root: nat, rsp: u64, off: nat, w: u64) {
    && ReadWord(m, root, Va(rsp, off)) == (w, true)
    && (rsp % 8 == 0 ==> CpuLoad(m, root, Va(rsp, off)) == w)
  }

  /** A delivery moves RIP to the handler and RSP down by 104, touches no other register, and leaves
      the magic number on top of the stack, then R11, R10, R9, R8, RDI, RSI, RDX, RCX, RAX, RFLAGS,
      RSP and RIP, each eight bytes further up. */
  lemma DeliveredFrame(m: Mem, t: Tables, root: nat, s: Sig, r: Regs)
    requires StackOk(m, t, root, r.rsp - 104) && Deliver(m, root, s, r).3
    ensures var (m1, s1, r1, _) := Deliver(m, root, s, r);
            var top := Va(r.rsp, -104);
            && r1 == r.(rip := s.handler, rsp := top)
            && s1 == Sig(s.handler, false, true, top)
            && FrameHas(m1, root, top, 0, 0xDEADBEEF)
            && FrameHas(m1, root, top, 8, r.r11) && FrameHas(m1, root, top, 16, r.r10)
            && FrameHas(m1, root, top, 24, r.r9) && FrameHas(m1, root, top, 32, r.r8)
            && FrameHas(m1, root, top, 40, r.rdi) && FrameHas(m1, root, top, 48, r.rsi)
            && FrameHas(m1, root, top, 56, r.rdx) && FrameHas(m1, root, top, 64, r.rcx)
            && FrameHas(m1, root, top, 72, r.rax) && FrameHas(m1, root, top, 80, r.rflags)
            && FrameHas(m1, root, top, 88, r.rsp) && FrameHas(m1, root, top, 96, r.rip)
  {
    hide StackOk, At, Trans, Va, Push, ReadWord, Holds, CpuLoad;
    var b := r.rsp - FRAME_BYTES;
    var words := Saved(r);
    TopOfFrame(r.rsp);
    PushWrites(m, t, root, b, words);
    var (m1, rsp, ok) := Push(m, root, r.rsp, words);
    forall k | 0 <= k < 13
      ensures FrameHas(m1, root, rsp, Slot(13, k), words[k])
    {
      assert Holds(m1, root, b, Slot(13, k), words[k]);
      HeldWord(m1, t, root, b, Slot(13, k), words[k]);
    }
    assert Slot(13, 12) == 0 && Slot(13, 11) == 8 && Slot(13, 10) == 16 && Slot(13, 9) == 24 && Slot(13, 8) == 32
        && Slot(13, 7) == 40 && Slot(13, 6) == 48 && Slot(13, 5) == 56 && Slot(13, 4) == 64 && Slot(13, 3) == 72
        && Slot(13, 2) == 80 && Slot(13, 1) == 88 && Slot(13, 0) == 96;
  }

  lemma HeldWord(m: Mem, t: Tables, root: nat, b: int, p: nat, w: u64)
    requires Holds(m, root, b, p, w) && StackOk(m, t, root, b) && p + 8 <= FRAME_BYTES && p % 8 == 0
    ensures FrameHas(m, root, Va(b, 0), p, w)
  {
    hide StackOk, Holds, ReadWord, CpuLoad;
    ReadsBack(m, root, b, p, w);
    Shifted(b, 0, p);
    if Va(b, 0) % 8 == 0 {
      EightApart(b, p);
      StackedWord(m, t, root, b, p, w);
    }
  }

  lemma EightApart(b: int, p: nat)
    requires Va(b, 0) % 8 == 0 && p % 8 == 0
    ensures Va(b, p) % 8 == 0
  {
    var q := (b + p) / TWO64;
    var q0 := b / TWO64;
    assert b == TWO64 * q0 + Va(b, 0) && b + p == TWO64 * q + Va(b, p);
    assert Va(b, p) == 8 * (0x2000_0000_0000_0000 * (q0 - q)) + Va(b, 0) + p;
  }

  // ---- nothing else is written ----

  /** a is none of the physical bytes behind the window. */
  ghost predicate OffWindow(m: Mem, root: nat, b: int, a: nat) {
    forall p :: 0 <= p < FRAME_BYTES && Trans(m, root, b, p) != 0 ==> a != Trans(m, root, b, p) + Va(b, p) % PAGE
  }

  lemma OffStill(m: Mem, m': Mem, root: nat, b: int, a: nat)
    requires SameTrans(m, m', root, b) && OffWindow(m, root, b, a)
    ensures OffWindow(m', root, b, a)
  {
    hide Trans, Va;
  }

  lemma {:induction false} WordOnly(m: Mem, t: Tables, root: nat, b: int, p: nat, w: u64, i: nat, a: nat)
    requires StackOk(m, t, root, b) && p + 8 <= FRAME_BYTES && i <= 8 && OffWindow(m, root, b, a)
    ensures LoadByte(WriteFrom(m, root, Va(b, p), w, i).0, a) == LoadByte(m, a)
    decreases 8 - i
  {
    hide StackOk, Resolve, PathOf, StoreByte, LoadByte, Va, ByteOf;
    if i < 8 {
      Shifted(b, p, i);
      if Trans(m, root, b, p + i) != 0 {
        var at := Trans(m, root, b, p + i) + Va(b, p + i) % PAGE;
        var m1 := StoreByte(m, at, Low8(w, i));
        WriteOne(m, t, root, b, p + i, Low8(w, i));
        OffStill(m, m1, root, b, a);
        StoredBytes(m, at, Low8(w, i), a);
        WordOnly(m1, t, root, b, p, w, i + 1, a);
      }
    }
  }

  lemma {:induction false} PushOnly(m: Mem, t: Tables, root: nat, b: int, words: seq<u64>, a: nat)
    requires StackOk(m, t, root, b) && 8 * |words| <= FRAME_BYTES && OffWindow(m, root, b, a)
    ensures LoadByte(Push(m, root, Va(b, 8 * |words|), words).0, a) == LoadByte(m, a)
    decreases |words|
  {
    hide StackOk, Va, WriteFrom, Down8, LoadByte, OffWindow;
    if words != [] {
      var n := |words|;
      var p := 8 * (n - 1);
      Pushed(b, 8 * n);
      WriteWord(m, t, root, b, p, words[0], 0);
      WordOnly(m, t, root, b, p, words[0], 0, a);
      var (m1, ok1) := WriteFrom(m, root, Va(b, p), words[0], 0);
      if ok1 {
        OffStill(m, m1, root, b, a);
        PushOnly(m1, t, root, b, words[1..], a);
      }
    }
  }

  /** Delivered or not, no byte of memory changes but the 104 below the stack pointer. */
  lemma OnlyWindowWritten(m: Mem, t: Tables, root: nat, s: Sig, r: Regs, a: nat)
    requires StackOk(m, t, root, r.rsp - 104) && OffWindow(m, root, r.rsp - 104, a)
    ensures LoadByte(Deliver(m, root, s, r).0, a) == LoadByte(m, a)
  {
    hide StackOk, Va, Push, LoadByte, OffWindow;
    TopOfFrame(r.rsp);
    PushOnly(m, t, root, r.rsp - 104, Saved(r), a);
  }

  // ---- which frames sigreturn takes ----

  lemma WordsMapped(m: Mem, root: nat, rsp: u64)
    ensures (forall j :: 0 <= j < 13 ==> ReadWord(m, root, Va(rsp, 8 * j)).1)
            <==> forall p :: 0 <= p < 104 ==> Trans(m, root, rsp, p) != 0
  {
    hide Trans, Va, FromBytes;
    forall j, i | 0 <= j < 13 && 0 <= i < 8
      ensures Trans(m, root, Va(rsp, 8 * j), i) == Trans(m, root, rsp, 8 * j + i)
    {
      SameAddress(m, root, rsp, 8 * j, i);
    }
    if forall j :: 0 <= j < 13 ==> ReadWord(m, root, Va(rsp, 8 * j)).1 {
      forall p | 0 <= p < 104
        ensures Trans(m, root, rsp, p) != 0
      {
        var j, i := p / 8, p % 8;
        assert ReadWord(m, root, Va(rsp, 8 * j)).1;
        assert Trans(m, root, Va(rsp, 8 * j), i) == Trans(m, root, rsp, 8 * j + i);
      }
    }
    if forall p :: 0 <= p < 104 ==> Trans(m, root, rsp, p) != 0 {
      forall j | 0 <= j < 13
        ensures ReadWord(m, root, Va(rsp, 8 * j)).1
      {
        forall i | 0 <= i < 8
          ensures Trans(m, root, Va(rsp, 8 * j), i) != 0
        {
          assert Trans(m, root, Va(rsp, 8 * j), i) == Trans(m, root, rsp, 8 * j + i);
        }
      }
    }
  }

  /** The word of the frame that starts rsp, off bytes further up. */
  function FrameAt(m: Mem, root: nat, rsp: u64, off: nat): u64 {
    ReadWord(m, root, Va(rsp, off)).0 % TWO64
  }

  ghost predicate WholeFrame(m: Mem, root: nat, rsp: u64) {
    forall p :: 0 <= p < 104 ==> Trans(m, root, rsp, p) != 0
  }

  /** The registers as they lie in the frame. */
  function Restored(m: Mem, root: nat, rsp: u64): Regs {
    Regs(FrameAt(m, root, rsp, 96), FrameAt(m, root, rsp, 88), FrameAt(m, root, rsp, 80), FrameAt(m, root, rsp, 72),
         FrameAt(m, root, rsp, 64), FrameAt(m, root, rsp, 56), FrameAt(m, root, rsp, 48), FrameAt(m, root, rsp, 40),
         FrameAt(m, root, rsp, 32), FrameAt(m, root, rsp, 24), FrameAt(m, root, rsp, 16), FrameAt(m, root, rsp, 8))
  }

  /** sigreturn, exactly: with no frame on record it is refused; a frame with a byte unmapped or
      another magic number kills the process; any other is loaded from its thirteen places, RIP
      from the top one, and ends the handler. */
  lemma SigreturnExactly(m: Mem, root: nat, s: Sig, r: Regs)
    ensures s.savedRsp == 0 ==> Sigreturn(m, root, s, r) == Refused(r.(rax := 0xFFFF_FFFF_FFFF_FFFD))
    ensures s.savedRsp != 0 ==>
              Sigreturn(m, root, s, r) ==
              if !WholeFrame(m, root, s.savedRsp) || ReadWord(m, root, Va(s.savedRsp, 0)).0 != 0xDEADBEEF then Killed
              else Resumed(Restored(m, root, s.savedRsp), s.(inProgress := false))
  {
    ReadableIsWhole(m, root, s);
    RestoredWords(m, root, s);
    hide ReadWord, Trans, Va, WholeFrame, FrameReadable, Restored, Word64;
  }

  lemma ReadableIsWhole(m: Mem, root: nat, s: Sig)
    ensures FrameReadable(m, root, s) <==> WholeFrame(m, root, s.savedRsp)
  {
    hide ReadWord, Trans, Va;
    WordsMapped(m, root, s.savedRsp);
    if FrameReadable(m, root, s) {
      forall j | 0 <= j < 13
        ensures ReadWord(m, root, Va(s.savedRsp, 8 * j)).1
      {
        assert FrameWord(m, root, s, 12 - j).1;
      }
    }
    if WholeFrame(m, root, s.savedRsp) {
      forall k | 0 <= k < 13
        ensures FrameWord(m, root, s, k).1
      {
        assert ReadWord(m, root, Va(s.savedRsp, 8 * (12 - k))).1;
      }
    }
  }

  lemma RestoredWords(m: Mem, root: nat, s: Sig)
    ensures Regs(Word64(m, root, s, 0), Word64(m, root, s, 1), Word64(m, root, s, 2), Word64(m, root, s, 3),
                 Word64(m, root, s, 4), Word64(m, root, s, 5), Word64(m, root, s, 6), Word64(m, root, s, 7),
                 Word64(m, root, s, 8), Word64(m, root, s, 9), Word64(m, root, s, 10), Word64(m, root, s, 11))
            == Restored(m, root, s.savedRsp)
  {
    hide ReadWord, Va;
  }

  /** Registration, exactly: only signal 14 without flags, and it clears both marks. */
  lemma RegistersExactly(s: Sig, r: Regs)
    ensures SigAction(s, r) ==
            if r.rdi % 0x1_0000_0000 == 14 && r.rdx % 0x1_0000_0000 == 0
            then (Sig(r.rsi, false, false, s.savedRsp), r.(rax := 0))
            else (s, r.(rax := 0xFFFF_FFFF_FFFF_FFFD))
  {
  }
}
