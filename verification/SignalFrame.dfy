/** SIGALRM delivery and sigreturn: thirteen words pushed byte by byte through the process's page
    tables and read back (src/user_signal.go:76-209, 266-334). */
module SignalFrame {
  import opened PhysMem
  import opened PageTable
  import opened AddressSpaces
  import opened Vmm
  import ElfImage

  const TWO64: nat := 0x1_0000_0000_0000_0000
  const MAGIC: nat := 0xDEADBEEF
  const SIGALRM: nat := 14
  const FRAME_BYTES: nat := 104
  /** What sysFail(fdErrBad) puts in RAX. */
  const BAD_CALL: nat := TWO64 - 3

  type u64 = x: nat | x < TWO64

  function U64(x: int): u64 {
    x % TWO64
  }

  /** The address p bytes above b, with 64-bit wrap-around. */
  function Va(b: int, p: int): u64 {
    U64(b + p)
  }

  /** The stack pointer after a push. */
  function Down8(rsp: u64): u64 {
    if rsp >= 8 then rsp - 8 else rsp + (TWO64 - 8)
  }

  /** The registers a delivery saves. */
  datatype Regs = Regs(rip: u64, rsp: u64, rflags: u64, rax: u64, rcx: u64, rdx: u64, rsi: u64, rdi: u64,
    r8: u64, r9: u64, r10: u64, r11: u64)

  datatype Sig = Sig(handler: u64, pending: bool, inProgress: bool, savedRsp: u64)

  /** The words in the order they are pushed. */
  function Saved(r: Regs): (ws: seq<u64>)
    ensures |ws| == 13
  {
    [r.rip, r.rsp, r.rflags, r.rax, r.rcx, r.rdx, r.rsi, r.rdi, r.r8, r.r9, r.r10, r.r11, MAGIC]
  }

  // ---- one word through the page tables ----

  function Trans(m: Mem, root: nat, b: int, p: int): nat {
    Resolve(m, root, PathOf(Va(b, p)))
  }

  function At(m: Mem, root: nat, b: int, p: int): nat {
    LoadByte(m, Trans(m, root, b, p) + Va(b, p) % PAGE)
  }

  /** Write bytes i..7 of a word at v, stopping at the first byte that is not mapped. */
  function WriteFrom(m: Mem, root: nat, v: int, w: u64, i: nat): (Mem, bool)
    requires i <= 8
    decreases 8 - i
  {
    if i == 8 then (m, true)
    else if Trans(m, root, v, i) == 0 then (m, false)
    else WriteFrom(StoreByte(m, Trans(m, root, v, i) + Va(v, i) % PAGE, Low8(w, i)), root, v, w, i + 1)
  }

  function Low8(w: nat, i: nat): (b: nat)
    ensures b < 256
  {
    ByteBound(w, i);
    ByteOf(w, i)
  }

  lemma ByteBound(w: nat, i: nat)
    ensures ByteOf(w, i) < 256
  {
  }

  function Push(m: Mem, root: nat, rsp: u64, words: seq<u64>): (Mem, u64, bool)
    decreases |words|
  {
    if words == [] then (m, rsp, true)
    else
      var rsp1 := Down8(rsp);
      var (m1, ok) := WriteFrom(m, root, rsp1, words[0], 0);
      if ok then Push(m1, root, rsp1, words[1..]) else (m1, rsp1, false)
  }

  function BytesAt(m: Mem, root: nat, v: int, n: nat): (s: seq<nat>)
    ensures |s| == n
    ensures forall i :: 0 <= i < n ==> s[i] == At(m, root, v, i)
  {
    if n == 0 then [] else BytesAt(m, root, v, n - 1) + [At(m, root, v, n - 1)]
  }

  predicate AllMapped(m: Mem, root: nat, v: int, n: nat) {
    forall i :: 0 <= i < n ==> Trans(m, root, v, i) != 0
  }

  /** The word at v, or failure when one of its eight bytes is not mapped. */
  function ReadWord(m: Mem, root: nat, v: int): (nat, bool) {
    if AllMapped(m, root, v, 8) then (FromBytes(BytesAt(m, root, v, 8)), true) else (0, false)
  }

  // ---- delivery and return ----

  function Deliver(m: Mem, root: nat, s: Sig, r: Regs): (Mem, Sig, Regs, bool) {
    if s.handler == 0 || !s.pending || s.inProgress then (m, s, r, false)
    else
      var (m', rsp, ok) := Push(m, root, r.rsp, Saved(r));
      if ok then (m', Sig(s.handler, false, true, rsp), r.(rip := s.handler, rsp := rsp), true)
      else (m', s, r, false)
  }

  datatype Outcome = Resumed(regs: Regs, sig: Sig) | Refused(regs: Regs) | Killed

  /** The word k of the frame, counted in push order: the last one pushed is lowest. */
  function FrameWord(m: Mem, root: nat, s: Sig, k: nat): (nat, bool)
    requires k < 13
  {
    ReadWord(m, root, Va(s.savedRsp, 8 * (12 - k)))
  }

  predicate FrameReadable(m: Mem, root: nat, s: Sig) {
    && FrameWord(m, root, s, 0).1 && FrameWord(m, root, s, 1).1 && FrameWord(m, root, s, 2).1
    && FrameWord(m, root, s, 3).1 && FrameWord(m, root, s, 4).1 && FrameWord(m, root, s, 5).1
    && FrameWord(m, root, s, 6).1 && FrameWord(m, root, s, 7).1 && FrameWord(m, root, s, 8).1
    && FrameWord(m, root, s, 9).1 && FrameWord(m, root, s, 10).1 && FrameWord(m, root, s, 11).1
    && FrameWord(m, root, s, 12).1
  }

  function Word64(m: Mem, root: nat, s: Sig, k: nat): u64
    requires k < 13
  {
    U64(FrameWord(m, root, s, k).0)
  }

  function Sigreturn(m: Mem, root: nat, s: Sig, r: Regs): Outcome {
    if s.savedRsp == 0 then Refused(r.(rax := BAD_CALL))
    else if !FrameReadable(m, root, s) || FrameWord(m, root, s, 12).0 != MAGIC then Killed
    else Resumed(
      Regs(Word64(m, root, s, 0), Word64(m, root, s, 1), Word64(m, root, s, 2), Word64(m, root, s, 3),
           Word64(m, root, s, 4), Word64(m, root, s, 5), Word64(m, root, s, 6), Word64(m, root, s, 7),
           Word64(m, root, s, 8), Word64(m, root, s, 9), Word64(m, root, s, 10), Word64(m, root, s, 11)),
      s.(inProgress := false))
  }

  // ---- writes through the tables ----

  /** The 104 bytes from b up are user addresses whose mapped frames are no tables. */
  ghost predicate StackOk(m: Mem, t: Tables, root: nat, b: int) {
    && TablesOk(m, t) && IsRoot(t, root)
    && (forall f :: f in t ==> Aligned(f))
    && (forall p :: 0 <= p < FRAME_BYTES ==> UserPath(PathOf(Va(b, p))))
    && (forall p :: 0 <= p < FRAME_BYTES && Trans(m, root, b, p) != 0 ==> DataFrame(t, Trans(m, root, b, p)))
  }

  ghost predicate DataFrame(t: Tables, f: nat) {
    Aligned(f) && f !in t
  }

  ghost predicate SameTrans(m: Mem, m': Mem, root: nat, b: int) {
    forall p :: 0 <= p < FRAME_BYTES ==> Trans(m', root, b, p) == Trans(m, root, b, p)
  }

  lemma Shifted(b: int, p: int, i: int)
    ensures Va(Va(b, p), i) == Va(b, p + i)
  {
    var q := (b + p) / TWO64;
    ModShift(q, Va(b, p) + i);
    assert b + (p + i) == TWO64 * q + (Va(b, p) + i);
  }

  lemma ModShift(q: int, a: int)
    ensures (TWO64 * q + a) % TWO64 == a % TWO64
  {
  }

  lemma Pushed(b: int, p: int)
    ensures Down8(Va(b, p)) == Va(b, p - 8)
  {
    Shifted(b, p, -8);
    var r := Va(b, p);
    if r < 8 {
      ModShift(-1, r + (TWO64 - 8));
      assert r - 8 == TWO64 * (-1) + (r + (TWO64 - 8));
    }
  }

  lemma Offsets(b: int, p: int, q: int)
    requires 0 <= p < q < FRAME_BYTES
    ensures Va(b, p) % PAGE != Va(b, q) % PAGE
  {
    Low12(b + p);
    Low12(b + q);
    Apart(b + p, b + q);
  }

  lemma Apart(x: int, y: int)
    requires x < y < x + FRAME_BYTES
    ensures x % PAGE != y % PAGE
  {
    var d := y / PAGE - x / PAGE;
    assert y - x == PAGE * d + (y % PAGE - x % PAGE);
  }

  lemma Low12(x: int)
    ensures U64(x) % PAGE == x % PAGE
  {
    var q := x / TWO64;
    assert x == PAGE * (0x10_0000_0000_0000 * q) + U64(x);
    PageShift(0x10_0000_0000_0000 * q, U64(x));
  }

  lemma PageShift(k: int, a: int)
    ensures (PAGE * k + a) % PAGE == a % PAGE
  {
  }

  /** Writing one byte of the window changes that byte of the window only, even when pages of the
      window are mapped to unrelated frames or to one frame. */
  lemma WriteOne(m: Mem, t: Tables, root: nat, b: int, p: nat, v: nat)
    requires StackOk(m, t, root, b) && p < FRAME_BYTES && v < 256 && Trans(m, root, b, p) != 0
    ensures var m' := StoreByte(m, Trans(m, root, b, p) + Va(b, p) % PAGE, v);
            && StackOk(m', t, root, b) && SameTrans(m, m', root, b)
            && (forall q :: 0 <= q < FRAME_BYTES && Trans(m, root, b, q) != 0 ==>
                  At(m', root, b, q) == if q == p then v else At(m, root, b, q))
  {
    hide Resolve, PathOf, StoreByte, LoadByte, TablesOk, Va, Entry, SharedSlot, InRange, Aligned;
    var f, off := Trans(m, root, b, p), Va(b, p) % PAGE;
    var m' := StoreByte(m, f + off, v);
    forall g | g in t
      ensures SameFrame(m, m', g)
    {
      forall i | 0 <= i < 512
        ensures Entry(m', g, i) == Entry(m, g, i)
      {
        StoreEntrySame(m, f, off, v, g, i);
      }
    }
    TablesStay(m, m', t);
    forall q | 0 <= q < FRAME_BYTES
      ensures Trans(m', root, b, q) == Trans(m, root, b, q)
    {
      SameTreeSameWalk(m, m', t, root, PathOf(Va(b, q)));
    }
    forall q | 0 <= q < FRAME_BYTES && Trans(m, root, b, q) != 0
      ensures At(m', root, b, q) == if q == p then v else At(m, root, b, q)
    {
      var g, off' := Trans(m, root, b, q), Va(b, q) % PAGE;
      StoredBytes(m, f + off, v, g + off');
      if q < p {
        Offsets(b, q, p);
        OtherByte(f, off, g, off');
      } else if p < q {
        Offsets(b, p, q);
        OtherByte(f, off, g, off');
      }
    }
  }

  lemma StoreEntrySame(m: Mem, f: nat, off: nat, v: nat, g: nat, i: nat)
    requires v < 256 && Aligned(f) && Aligned(g) && off < PAGE && 0 <= i < 512 && g != f
    ensures Entry(StoreByte(m, f + off, v), g, i) == Entry(m, g, i)
  {
    StoreByteFrame(m, f, off, v, g, i);
  }

  lemma OtherByte(f: nat, off: nat, g: nat, off': nat)
    requires Aligned(f) && Aligned(g) && off < PAGE && off' < PAGE && off != off'
    ensures f + off != g + off'
  {
    if f + off == g + off' {
      FramesDisjoint(f, g, f + off);
      assert false;
    }
  }

  /** The eight bytes from p hold the bytes of w. */
  ghost predicate Holds(m: Mem, root: nat, b: int, p: nat, w: u64) {
    forall i :: 0 <= i < 8 ==> HoldsByte(m, root, b, p, w, i)
  }

  ghost predicate HoldsByte(m: Mem, root: nat, b: int, p: nat, w: u64, i: nat) {
    Trans(m, root, b, p + i) != 0 && At(m, root, b, p + i) == ByteOf(w, i)
  }

  /** Bytes of the window outside [p, p+8) keep their values. */
  ghost predicate OutsideKept(m: Mem, m': Mem, root: nat, b: int, p: nat) {
    forall q :: 0 <= q < FRAME_BYTES && Trans(m, root, b, q) != 0 && !(p <= q < p + 8) ==>
      At(m', root, b, q) == At(m, root, b, q)
  }

  lemma {:induction false} WriteWord(m: Mem, t: Tables, root: nat, b: int, p: nat, w: u64, i: nat)
    requires StackOk(m, t, root, b) && p + 8 <= FRAME_BYTES && i <= 8
    requires forall j :: 0 <= j < i ==> HoldsByte(m, root, b, p, w, j)
    ensures var (m', ok) := WriteFrom(m, root, Va(b, p), w, i);
            && StackOk(m', t, root, b) && SameTrans(m, m', root, b)
            && OutsideKept(m, m', root, b, p)
            && (ok ==> Holds(m', root, b, p, w))
            && (ok <==> forall q :: p + i <= q < p + 8 ==> Trans(m, root, b, q) != 0)
    decreases 8 - i
  {
    hide Resolve, PathOf, UserPath, StoreByte, LoadByte, TablesOk, Va, ByteOf;
    if i < 8 {
      Shifted(b, p, i);
      if Trans(m, root, b, p + i) != 0 {
        var m1 := StoreByte(m, Trans(m, root, b, p + i) + Va(b, p + i) % PAGE, Low8(w, i));
        WriteOne(m, t, root, b, p + i, Low8(w, i));
        forall j | 0 <= j < i + 1
          ensures HoldsByte(m1, root, b, p, w, j)
        {
          assert j < i ==> HoldsByte(m, root, b, p, w, j);
        }
        WriteWord(m1, t, root, b, p, w, i + 1);
      }
    }
  }

  // ---- the whole frame ----

  /** Where word k of n pushed words ends up, counted from the lowest address. */
  function Slot(n: nat, k: nat): nat
    requires k < n
  {
    8 * (n - 1 - k)
  }

  ghost predicate Below(m: Mem, m': Mem, root: nat, b: int, top: nat) {
    forall q :: top <= q < FRAME_BYTES && Trans(m, root, b, q) != 0 ==> At(m', root, b, q) == At(m, root, b, q)
  }

  ghost predicate WindowMapped(m: Mem, root: nat, b: int, top: nat) {
    forall q :: 0 <= q < top ==> Trans(m, root, b, q) != 0
  }

  /** Pushing n words below address b + 8n leaves each in its own slot. */
  lemma {:induction false} PushWrites(m: Mem, t: Tables, root: nat, b: int, words: seq<u64>)
    requires StackOk(m, t, root, b) && 8 * |words| <= FRAME_BYTES
    ensures var (m', rsp, ok) := Push(m, root, Va(b, 8 * |words|), words);
            && StackOk(m', t, root, b) && SameTrans(m, m', root, b)
            && Below(m, m', root, b, 8 * |words|)
            && (ok <==> WindowMapped(m, root, b, 8 * |words|))
            && (ok ==> rsp == Va(b, 0))
            && (ok ==> forall k :: 0 <= k < |words| ==> Holds(m', root, b, Slot(|words|, k), words[k]))
    decreases |words|
  {
    hide StackOk, At, Trans, Va, WriteFrom, Down8, Holds;
    if words != [] {
      var n := |words|;
      var p := 8 * (n - 1);
      Pushed(b, 8 * n);
      WriteWord(m, t, root, b, p, words[0], 0);
      var (m1, ok1) := WriteFrom(m, root, Va(b, p), words[0], 0);
      WindowSplit(m, m1, root, b, p);
      if ok1 {
        PushWrites(m1, t, root, b, words[1..]);
        var (m', rsp, ok) := Push(m1, root, Va(b, p), words[1..]);
        assert Below(m1, m', root, b, p);
        if ok {
          forall k | 0 <= k < n
            ensures Holds(m', root, b, Slot(n, k), words[k])
          {
            if k == 0 {
              HoldsKept(m1, m', root, b, p, words[0]);
            } else {
              assert words[1..][k - 1] == words[k];
            }
          }
        }
      }
    }
  }

  lemma WindowSplit(m: Mem, m1: Mem, root: nat, b: int, p: nat)
    requires SameTrans(m, m1, root, b) && p + 8 <= FRAME_BYTES
    ensures WindowMapped(m, root, b, p + 8) <==>
              WindowMapped(m1, root, b, p) && forall q :: p <= q < p + 8 ==> Trans(m, root, b, q) != 0
  {
    hide Trans;
    if WindowMapped(m1, root, b, p) {
      forall q | 0 <= q < p
        ensures Trans(m, root, b, q) != 0
      {
        assert Trans(m1, root, b, q) != 0;
      }
    } else if WindowMapped(m, root, b, p + 8) {
      forall q | 0 <= q < p
        ensures Trans(m1, root, b, q) != 0
      {
        assert Trans(m, root, b, q) != 0;
      }
    }
  }

  lemma HoldsKept(m: Mem, m': Mem, root: nat, b: int, p: nat, w: u64)
    requires SameTrans(m, m', root, b) && Below(m, m', root, b, p) && p + 8 <= FRAME_BYTES
    requires Holds(m, root, b, p, w)
    ensures Holds(m', root, b, p, w)
  {
    hide At, Trans;
    forall i | 0 <= i < 8
      ensures HoldsByte(m', root, b, p, w, i)
    {
      assert HoldsByte(m, root, b, p, w, i);
    }
  }

  /** Reading a word back: whatever holds the bytes of w reads as w. */
  lemma ReadsBack(m: Mem, root: nat, b: int, p: nat, w: u64)
    requires Holds(m, root, b, p, w)
    ensures ReadWord(m, root, Va(Va(b, 0), p)) == (w, true)
  {
    hide At, Trans, Va, U64;
    Shifted(b, 0, p);
    var v := Va(b, p);
    forall i | 0 <= i < 8
      ensures Trans(m, root, v, i) != 0 && At(m, root, v, i) == ByteOf(w, i)
    {
      assert HoldsByte(m, root, b, p, w, i);
      SameAddress(m, root, b, p, i);
    }
    PowEight();
    BytesRoundTrip(w, BytesAt(m, root, v, 8));
  }

  lemma SameAddress(m: Mem, root: nat, b: int, p: nat, i: nat)
    ensures Trans(m, root, Va(b, p), i) == Trans(m, root, b, p + i)
    ensures At(m, root, Va(b, p), i) == At(m, root, b, p + i)
  {
    hide Resolve, PathOf, LoadByte;
    Shifted(b, p, i);
  }

  lemma PowEight()
    ensures Pow256(8) == TWO64
  {
    assert Pow256(2) == 0x1_0000 && Pow256(4) == 0x1_0000_0000 && Pow256(6) == 0x1_0000_0000_0000;
  }

  /** The handler kept the stacked bytes: all still mapped and with the same values. */
  ghost predicate Intact(m: Mem, m': Mem, root: nat, b: int) {
    forall p :: 0 <= p < FRAME_BYTES ==> Trans(m', root, b, p) != 0 && At(m', root, b, p) == At(m, root, b, p)
  }

  /** Address 0, which sigreturn takes for no frame at all, is no user address. */
  lemma FrameNotAtZero(m: Mem, t: Tables, root: nat, b: int)
    requires StackOk(m, t, root, b)
    ensures Va(b, 0) != 0
  {
    assert UserPath(PathOf(Va(b, 0)));
  }

  /** After a successful delivery and any handler that leaves the stacked bytes intact, sigreturn
      resumes with every saved register as it was. */
  lemma RoundTrip(m: Mem, t: Tables, root: nat, s: Sig, r: Regs, m2: Mem, r2: Regs)
    requires StackOk(m, t, root, r.rsp - FRAME_BYTES)
    requires Deliver(m, root, s, r).3
    requires Intact(Deliver(m, root, s, r).0, m2, root, r.rsp - FRAME_BYTES)
    ensures var (m1, s1, r1, _) := Deliver(m, root, s, r);
            && s1.inProgress && s1.savedRsp == r1.rsp == Va(r.rsp, -104) && r1.rip == s.handler
            && Sigreturn(m2, root, s1, r2) == Resumed(r, s1.(inProgress := false))
  {
    hide StackOk, At, Trans, Va, Push, ReadWord, Holds;
    var b := r.rsp - FRAME_BYTES;
    var words := Saved(r);
    TopOfFrame(r.rsp);
    FrameNotAtZero(m, t, root, b);
    PushWrites(m, t, root, b, words);
    var (m1, rsp, ok) := Push(m, root, r.rsp, words);
    var s1 := Deliver(m, root, s, r).1;
    forall k | 0 <= k < 13
      ensures FrameWord(m2, root, s1, k) == (words[k], true)
    {
      assert Holds(m1, root, b, Slot(13, k), words[k]);
      IntactWord(m1, m2, root, b, Slot(13, k), words[k]);
      ReadsBack(m2, root, b, Slot(13, k), words[k]);
    }
    Resume(m2, root, s1, r, r2);
  }

  lemma IntactWord(m: Mem, m': Mem, root: nat, b: int, p: nat, w: u64)
    requires Intact(m, m', root, b) && Holds(m, root, b, p, w) && p + 8 <= FRAME_BYTES
    ensures Holds(m', root, b, p, w)
  {
    hide At, Trans;
    forall i | 0 <= i < 8
      ensures HoldsByte(m', root, b, p, w, i)
    {
      assert HoldsByte(m, root, b, p, w, i);
    }
  }

  lemma TopOfFrame(rsp: u64)
    ensures Va(rsp - FRAME_BYTES, 8 * 13) == rsp
    ensures Va(rsp - FRAME_BYTES, 0) == Va(rsp, -104)
  {
  }

  lemma Resume(m: Mem, root: nat, s: Sig, r: Regs, r2: Regs)
    requires s.savedRsp != 0
    requires forall k :: 0 <= k < 13 ==> FrameWord(m, root, s, k) == (Saved(r)[k], true)
    ensures Sigreturn(m, root, s, r2) == Resumed(r, s.(inProgress := false))
  {
    hide FrameWord;
    Small();
  }

  lemma Small()
    ensures forall y: u64 :: U64(y) == y
  {
  }

  /** A delivery goes through exactly when one is due and all 104 bytes below the stack pointer
      are mapped. Otherwise the trap frame and the process's signal state are as before; and in
      no case does a push change a translation of the window. */
  lemma DeliveredExactly(m: Mem, t: Tables, root: nat, s: Sig, r: Regs)
    requires StackOk(m, t, root, r.rsp - FRAME_BYTES)
    ensures var (m1, s1, r1, ok) := Deliver(m, root, s, r);
            && (ok <==> s.handler != 0 && s.pending && !s.inProgress
                        && WindowMapped(m, root, r.rsp - FRAME_BYTES, FRAME_BYTES))
            && (!ok ==> s1 == s && r1 == r)
            && StackOk(m1, t, root, r.rsp - FRAME_BYTES) && SameTrans(m, m1, root, r.rsp - FRAME_BYTES)
  {
    hide StackOk, Trans, Va, Push;
    TopOfFrame(r.rsp);
    PushWrites(m, t, root, r.rsp - FRAME_BYTES, Saved(r));
  }

  /** A process as the loader leaves it meets the frame's requirement wherever its stack pointer
      is, as long as the window lies in user pages. */
  lemma LoadedStack(vm: Vm, t: Tables, live: set<nat>, root: nat, pm: map<nat, nat>, img: map<nat, ElfImage.Byte>,
      b: int)
    requires ElfImage.Loaded(vm, t, live, root, pm, img)
    requires forall p :: 0 <= p < FRAME_BYTES ==> ElfImage.UserPage(Va(b, p) / PAGE)
    ensures StackOk(vm.mem, t, root, b)
    ensures forall p :: 0 <= p < FRAME_BYTES ==> (Trans(vm.mem, root, b, p) != 0 <==> Va(b, p) / PAGE in pm)
  {
    hide Resolve, PathOf, TablesOk, ElfImage.BytesOk, Va;
    LiveFrames(vm, live);
    forall p | 0 <= p < FRAME_BYTES
      ensures UserPath(PathOf(Va(b, p)))
      ensures Trans(vm.mem, root, b, p) != 0 ==> DataFrame(t, Trans(vm.mem, root, b, p))
      ensures Trans(vm.mem, root, b, p) != 0 <==> Va(b, p) / PAGE in pm
    {
      var n := Va(b, p) / PAGE;
      ElfImage.CanonicalPage(Va(b, p));
      ElfImage.PageTranslates(vm, t, live, root, pm, img, n);
    }
  }

  /** A spawned process can take a signal whenever its stack pointer is in its stack with room for
      the frame below it. */
  lemma SpawnedStack(vm: Vm, t: Tables, live: set<nat>, root: nat, pm: map<nat, nat>, img: map<nat, ElfImage.Byte>,
      rsp: u64)
    requires ElfImage.Loaded(vm, t, live, root, pm, img) && forall n :: ElfImage.StackPage(n) ==> n in pm
    requires PAGE * ElfImage.STACK_PAGE + FRAME_BYTES <= rsp <= PAGE * (ElfImage.STACK_PAGE + ElfImage.STACK_PAGES)
    ensures StackOk(vm.mem, t, root, rsp - FRAME_BYTES) && WindowMapped(vm.mem, root, rsp - FRAME_BYTES, FRAME_BYTES)
  {
    hide StackOk, ElfImage.Loaded, ElfImage.UserPage, Trans;
    var b := rsp - FRAME_BYTES;
    forall p | 0 <= p < FRAME_BYTES
      ensures ElfImage.StackPage(Va(b, p) / PAGE) && ElfImage.UserPage(Va(b, p) / PAGE)
    {
      ElfImage.FixedPages(Va(b, p) / PAGE);
    }
    LoadedStack(vm, t, live, root, pm, img, b);
  }

  // ---- runs of signal events ----

  datatype Event =
    | Tick
    | Arrive(mem: Mem, regs: Regs)
    | Return(mem: Mem, regs: Regs)
    | Action(regs: Regs)

  function U32(x: u64): nat {
    x % 0x1_0000_0000
  }

  predicate Accepted(r: Regs) {
    U32(r.rdi) == SIGALRM && U32(r.rdx) == 0
  }

  /** sigaction: also clears the in-progress mark and a pending signal. */
  function SigAction(s: Sig, r: Regs): (Sig, Regs) {
    if !Accepted(r) then (s, r.(rax := BAD_CALL))
    else (s.(handler := r.rsi, pending := false, inProgress := false), r.(rax := 0))
  }

  function Next(root: nat, s: Sig, e: Event): Sig {
    match e
    case Tick => if s.handler == 0 then s else s.(pending := true)
    case Arrive(m, r) => Deliver(m, root, s, r).1
    case Return(m, r) => (match Sigreturn(m, root, s, r) case Resumed(_, s') => s' case _ => s)
    case Action(r) => SigAction(s, r).0
  }

  predicate Delivers(root: nat, s: Sig, e: Event) {
    e.Arrive? && Deliver(e.mem, root, s, e.regs).3
  }

  predicate Resumes(root: nat, s: Sig, e: Event) {
    e.Return? && Sigreturn(e.mem, root, s, e.regs).Resumed?
  }

  predicate Registers(e: Event) {
    e.Action? && Accepted(e.regs)
  }

  /** A completed sigreturn, or a handler (not 0) registered while one runs. */
  predicate Reopens(root: nat, s: Sig, e: Event) {
    Resumes(root, s, e) || (Registers(e) && e.regs.rsi != 0)
  }

  function After(root: nat, s: Sig, es: seq<Event>, n: nat): Sig
    requires n <= |es|
  {
    if n == 0 then s else Next(root, After(root, s, es, n - 1), es[n - 1])
  }

  /** No signal can be delivered: a handler runs, or there is none. */
  predicate Shut(s: Sig) {
    s.inProgress || s.handler == 0
  }

  lemma {:induction false} StaysShut(root: nat, s: Sig, es: seq<Event>, i: nat, j: nat)
    requires i <= j <= |es| && Shut(After(root, s, es, i))
    requires forall k :: i <= k < j ==> !Reopens(root, After(root, s, es, k), es[k])
    ensures Shut(After(root, s, es, j))
    decreases j - i
  {
    hide Next, Reopens, Shut;
    if i < j {
      StaysShut(root, s, es, i, j - 1);
      AfterStep(root, s, es, j - 1);
      NotReopened(root, After(root, s, es, j - 1), es[j - 1]);
    }
  }

  lemma Marked(root: nat, s: Sig, e: Event)
    requires Delivers(root, s, e)
    ensures Next(root, s, e).inProgress && !Next(root, s, e).pending && !Shut(s)
  {
  }

  lemma AfterStep(root: nat, s: Sig, es: seq<Event>, i: nat)
    requires i < |es|
    ensures After(root, s, es, i + 1) == Next(root, After(root, s, es, i), es[i])
  {
  }

  lemma NotReopened(root: nat, s: Sig, e: Event)
    requires Shut(s) && !Reopens(root, s, e)
    ensures Shut(Next(root, s, e))
  {
  }

  /** Between two deliveries in any run lies a completed sigreturn or a handler registered anew. */
  lemma ReopenedBetween(root: nat, s: Sig, es: seq<Event>, i: nat, j: nat)
    requires i < j < |es|
    requires Delivers(root, After(root, s, es, i), es[i]) && Delivers(root, After(root, s, es, j), es[j])
    ensures exists k :: i < k < j && Reopens(root, After(root, s, es, k), es[k])
  {
    hide After, Next, Delivers, Reopens;
    if forall k :: i < k < j ==> !Reopens(root, After(root, s, es, k), es[k]) {
      AfterStep(root, s, es, i);
      Marked(root, After(root, s, es, i), es[i]);
      StaysShut(root, s, es, i + 1, j);
      Marked(root, After(root, s, es, j), es[j]);
    }
  }

  // ---- exactly when deliveries nest ----

  ghost predicate NoneRegistered(es: seq<Event>, i: nat, j: nat)
    requires j <= |es|
  {
    forall k :: i <= k < j ==> !Registers(es[k])
  }

  ghost predicate Ticked(es: seq<Event>, i: nat, j: nat)
    requires j <= |es|
  {
    exists l :: i <= l < j && es[l].Tick?
  }

  /** Nothing is delivered and no sigreturn completes. */
  ghost predicate Undisturbed(root: nat, s: Sig, es: seq<Event>, i: nat, j: nat)
    requires j <= |es|
  {
    forall k :: i <= k < j ==>
      !Delivers(root, After(root, s, es, k), es[k]) && !Resumes(root, After(root, s, es, k), es[k])
  }

  /** An event that neither delivers nor completes a sigreturn. */
  lemma QuietStep(root: nat, s: Sig, e: Event)
    requires !Delivers(root, s, e) && !Resumes(root, s, e)
    ensures Next(root, s, e) ==
            if Registers(e) then Sig(e.regs.rsi, false, false, s.savedRsp)
            else if e.Tick? && s.handler != 0 then s.(pending := true) else s
  {
    hide Push, FrameReadable, FrameWord, Word64;
  }

  /** Until something is registered the handler set before stays, and a tick makes its signal
      pending. */
  lemma {:induction false} SinceRegistration(root: nat, s: Sig, es: seq<Event>, i: nat, j: nat)
    requires i <= j <= |es| && Undisturbed(root, s, es, i, j) && NoneRegistered(es, i, j)
    ensures var was, now := After(root, s, es, i), After(root, s, es, j);
            now == was.(pending := was.pending || (was.handler != 0 && Ticked(es, i, j)))
    decreases j - i
  {
    hide After, Next, Delivers, Resumes, Registers;
    if i < j {
      var n := j - 1;
      SinceRegistration(root, s, es, i, n);
      AfterStep(root, s, es, n);
      QuietStep(root, After(root, s, es, n), es[n]);
      assert Ticked(es, i, j) <==> Ticked(es, i, n) || es[n].Tick?;
    }
  }

  /** A handler other than 0 was registered, as the last registration, and a tick followed. */
  ghost predicate Reregistered(es: seq<Event>, i: nat, j: nat)
    requires j <= |es|
  {
    exists k :: i <= k < j && Registers(es[k]) && es[k].regs.rsi != 0
                && NoneRegistered(es, k + 1, j) && Ticked(es, k + 1, j)
  }

  lemma LastRegistration(es: seq<Event>, i: nat, j: nat) returns (k: nat)
    requires i <= j <= |es|
    ensures if NoneRegistered(es, i, j) then k == j else
              i <= k < j && Registers(es[k]) && NoneRegistered(es, k + 1, j)
  {
    hide Registers;
    k := j;
    while k > i && !Registers(es[k - 1])
      invariant i <= k <= j && NoneRegistered(es, k, j)
    {
      k := k - 1;
    }
    k := if k == i then j else k - 1;
  }

  /** Nesting, exactly: after a delivery and before its sigreturn completes, a signal that finds
      its window mapped is delivered on top if and only if a handler other than 0 has been
      registered since, no other registration came after it, and a tick did. */
  lemma NestsExactly(root: nat, s: Sig, es: seq<Event>, i: nat, j: nat, t: Tables)
    requires i < j < |es| && Delivers(root, After(root, s, es, i), es[i])
    requires Undisturbed(root, s, es, i + 1, j)
    requires es[j].Arrive? && StackOk(es[j].mem, t, root, es[j].regs.rsp - FRAME_BYTES)
    requires WindowMapped(es[j].mem, root, es[j].regs.rsp - FRAME_BYTES, FRAME_BYTES)
    ensures Delivers(root, After(root, s, es, j), es[j]) <==> Reregistered(es, i + 1, j)
  {
    hide After, Next, Resumes, Registers, StackOk, WindowMapped, Push, Ticked, Undisturbed, NoneRegistered;
    AfterStep(root, s, es, i);
    Marked(root, After(root, s, es, i), es[i]);
    DeliveredExactly(es[j].mem, t, root, After(root, s, es, j), es[j].regs);
    var k := LastRegistration(es, i + 1, j);
    if NoneRegistered(es, i + 1, j) {
      SinceRegistration(root, s, es, i + 1, j);
      NotRegistered(es, i + 1, j);
    } else {
      Tail(root, s, es, i + 1, k, j);
      AfterStep(root, s, es, k);
      QuietStep(root, After(root, s, es, k), es[k]);
      SinceRegistration(root, s, es, k + 1, j);
      OnlyLast(es, i + 1, k, j);
    }
  }

  lemma Tail(root: nat, s: Sig, es: seq<Event>, i: nat, k: nat, j: nat)
    requires i <= k < j <= |es| && Undisturbed(root, s, es, i, j)
    ensures Undisturbed(root, s, es, k + 1, j)
    ensures !Delivers(root, After(root, s, es, k), es[k]) && !Resumes(root, After(root, s, es, k), es[k])
  {
    hide After, Delivers, Resumes;
  }

  lemma NotRegistered(es: seq<Event>, i: nat, j: nat)
    requires i <= j <= |es| && NoneRegistered(es, i, j)
    ensures !Reregistered(es, i, j)
  {
    hide Registers, Ticked;
  }

  lemma OnlyLast(es: seq<Event>, i: nat, k: nat, j: nat)
    requires i <= k < j <= |es| && Registers(es[k]) && NoneRegistered(es, k + 1, j)
    ensures Reregistered(es, i, j) <==> es[k].regs.rsi != 0 && Ticked(es, k + 1, j)
  {
    hide Ticked;
    forall x | i <= x < j && x != k && Registers(es[x])
      ensures x < k && !NoneRegistered(es, x + 1, j)
    {
    }
  }

  /** The shortest such run: a registration inside the handler, a tick, and a delivery that
      overwrites the saved frame pointer. */
  lemma RegistrationReopens(m: Mem, t: Tables, root: nat, s: Sig, a: Regs, r: Regs)
    requires s.inProgress && Accepted(a) && a.rsi != 0
    requires StackOk(m, t, root, r.rsp - FRAME_BYTES) && WindowMapped(m, root, r.rsp - FRAME_BYTES, FRAME_BYTES)
    ensures var s' := Next(root, Next(root, s, Action(a)), Tick);
            Delivers(root, s', Arrive(m, r)) && Next(root, s', Arrive(m, r)).savedRsp == Va(r.rsp, -104)
  {
    hide StackOk, Trans, Va, Push, Sigreturn, U32;
    var s' := Next(root, Next(root, s, Action(a)), Tick);
    DeliveredExactly(m, t, root, s', r);
    TopOfFrame(r.rsp);
    PushWrites(m, t, root, r.rsp - FRAME_BYTES, Saved(r));
  }

  // ---- the code ----

  class TrapFrame {
    var regs: Regs

    constructor (r: Regs)
      ensures regs == r
    {
      regs := r;
    }
  }

  class SigProcess {
    var sig: Sig

    constructor ()
      ensures sig == Sig(0, false, false, 0)
    {
      sig := Sig(0, false, false, 0);
    }
  }

  method WriteU64Through(m: Machine, root: nat, v: u64, w: u64) returns (ok: bool)
    requires root != 0
    modifies m`mem
    ensures (m.mem, ok) == WriteFrom(old(m.mem), root, v, w, 0)
  {
    hide Resolve, PathOf, StoreByte;
    var i := 0;
    while i < 8
      modifies m`mem
      invariant 0 <= i <= 8
      invariant WriteFrom(old(m.mem), root, v, w, 0) == WriteFrom(m.mem, root, v, w, i)
    {
      var paddr := m.WalkAndGetPaddrIn(root, Va(v, i));
      if paddr == 0 {
        return false;
      }
      m.mem := StoreByte(m.mem, paddr + Va(v, i) % PAGE, Low8(w, i));
      i := i + 1;
    }
    ok := true;
  }

  /** pushU64Through of word k of the list being pushed. */
  method PushU64Through(m: Machine, root: nat, rsp: u64, w: u64, ghost words: seq<u64>, ghost k: nat)
    returns (rsp': u64, ok: bool)
    requires root != 0 && k < |words| && words[k] == w
    modifies m`mem
    ensures Push(old(m.mem), root, rsp, words[k..]) ==
            if ok then Push(m.mem, root, rsp', words[k + 1..]) else (m.mem, rsp', false)
  {
    hide WriteFrom;
    rsp' := Down8(rsp);
    ok := WriteU64Through(m, root, rsp', w);
    assert words[k..][1..] == words[k + 1..];
  }

  method ReadU64Through(m: Machine, root: nat, v: u64) returns (w: nat, ok: bool)
    requires root != 0
    ensures (w, ok) == ReadWord(m.mem, root, v)
  {
    hide Resolve, PathOf, LoadByte;
    w := 0;
    var shift := 1;
    var i := 0;
    while i < 8
      invariant 0 <= i <= 8 && AllMapped(m.mem, root, v, i)
      invariant shift == Pow256(i) && w == FromBytes(BytesAt(m.mem, root, v, i))
    {
      var paddr := m.WalkAndGetPaddrIn(root, Va(v, i));
      if paddr == 0 {
        assert Trans(m.mem, root, v, i) == 0;
        return 0, false;
      }
      FromBytesSnoc(BytesAt(m.mem, root, v, i), At(m.mem, root, v, i));
      w := w + LoadByte(m.mem, paddr + Va(v, i) % PAGE) * shift;
      shift := 256 * shift;
      i := i + 1;
    }
    ok := true;
  }

  method PushFrameTop(m: Machine, root: nat, r: Regs, ghost ws: seq<u64>) returns (rsp': u64, ok: bool)
    requires root != 0 && ws == Saved(r)
    modifies m`mem
    ensures Push(old(m.mem), root, r.rsp, ws[0..]) ==
            if ok then Push(m.mem, root, rsp', ws[6..]) else (m.mem, rsp', false)
  {
    hide Push;
    rsp' := r.rsp;
    rsp', ok := PushU64Through(m, root, rsp', r.rip, ws, 0);
    if !ok { return; }
    rsp', ok := PushU64Through(m, root, rsp', r.rsp, ws, 1);
    if !ok { return; }
    rsp', ok := PushU64Through(m, root, rsp', r.rflags, ws, 2);
    if !ok { return; }
    rsp', ok := PushU64Through(m, root, rsp', r.rax, ws, 3);
    if !ok { return; }
    rsp', ok := PushU64Through(m, root, rsp', r.rcx, ws, 4);
    if !ok { return; }
    rsp', ok := PushU64Through(m, root, rsp', r.rdx, ws, 5);
  }

  method PushFrameRest(m: Machine, root: nat, rsp: u64, r: Regs, ghost ws: seq<u64>) returns (rsp': u64, ok: bool)
    requires root != 0 && ws == Saved(r)
    modifies m`mem
    ensures (m.mem, rsp', ok) == Push(old(m.mem), root, rsp, ws[6..])
  {
    hide Push;
    rsp' := rsp;
    rsp', ok := PushU64Through(m, root, rsp', r.rsi, ws, 6);
    if !ok { return; }
    rsp', ok := PushU64Through(m, root, rsp', r.rdi, ws, 7);
    if !ok { return; }
    rsp', ok := PushU64Through(m, root, rsp', r.r8, ws, 8);
    if !ok { return; }
    rsp', ok := PushU64Through(m, root, rsp', r.r9, ws, 9);
    if !ok { return; }
    rsp', ok := PushU64Through(m, root, rsp', r.r10, ws, 10);
    if !ok { return; }
    rsp', ok := PushU64Through(m, root, rsp', r.r11, ws, 11);
    if !ok { return; }
    rsp', ok := PushU64Through(m, root, rsp', MAGIC, ws, 12);
    if ok {
      PushNone(m.mem, root, rsp', ws[13..]);
    }
  }

  method MaybeDeliverSignal(m: Machine, root: nat, proc: SigProcess, frame: TrapFrame) returns (ok: bool)
    requires root != 0
    modifies m`mem, proc, frame
    ensures (m.mem, proc.sig, frame.regs, ok) == Deliver(old(m.mem), root, old(proc.sig), old(frame.regs))
  {
    hide Push, Saved;
    var s, r := proc.sig, frame.regs;
    if s.handler == 0 || !s.pending || s.inProgress {
      return false;
    }
    ghost var ws := Saved(r);
    assert ws[0..] == ws;
    var rsp;
    rsp, ok := PushFrameTop(m, root, r, ws);
    if !ok {
      return;
    }
    rsp, ok := PushFrameRest(m, root, rsp, r, ws);
    if !ok {
      return;
    }
    frame.regs := r.(rip := s.handler, rsp := rsp);
    proc.sig := Sig(s.handler, false, true, rsp);
  }

  lemma PushNone(m: Mem, root: nat, rsp: u64, words: seq<u64>)
    requires words == []
    ensures Push(m, root, rsp, words) == (m, rsp, true)
  {
  }

  method SysSigreturn(m: Machine, root: nat, proc: SigProcess, frame: TrapFrame) returns (killed: bool)
    requires root != 0
    modifies proc, frame
    ensures match Sigreturn(m.mem, root, old(proc.sig), old(frame.regs))
            case Resumed(r, s) => !killed && frame.regs == r && proc.sig == s
            case Refused(r) => !killed && frame.regs == r && proc.sig == old(proc.sig)
            case Killed => killed && frame.regs == old(frame.regs) && proc.sig == old(proc.sig)
  {
    hide ReadWord, Va, U64;
    var rsp := proc.sig.savedRsp;
    killed := false;
    if rsp == 0 {
      frame.regs := frame.regs.(rax := BAD_CALL);
      return;
    }
    var magic, ok1 := ReadU64Through(m, root, Va(rsp, 0));
    var r11, ok2 := ReadU64Through(m, root, Va(rsp, 8));
    var r10, ok3 := ReadU64Through(m, root, Va(rsp, 16));
    var r9, ok4 := ReadU64Through(m, root, Va(rsp, 24));
    var r8, ok5 := ReadU64Through(m, root, Va(rsp, 32));
    var rdi, ok6 := ReadU64Through(m, root, Va(rsp, 40));
    var rsi, ok7 := ReadU64Through(m, root, Va(rsp, 48));
    var rdx, ok8 := ReadU64Through(m, root, Va(rsp, 56));
    var rcx, ok9 := ReadU64Through(m, root, Va(rsp, 64));
    var rax, ok10 := ReadU64Through(m, root, Va(rsp, 72));
    var rflags, ok11 := ReadU64Through(m, root, Va(rsp, 80));
    var origRsp, ok12 := ReadU64Through(m, root, Va(rsp, 88));
    var origRip, ok13 := ReadU64Through(m, root, Va(rsp, 96));
    if !(ok1 && ok2 && ok3 && ok4 && ok5 && ok6 && ok7 && ok8 && ok9 && ok10 && ok11 && ok12 && ok13)
       || magic != MAGIC {
      return true;
    }
    frame.regs := Regs(U64(origRip), U64(origRsp), U64(rflags), U64(rax), U64(rcx), U64(rdx), U64(rsi), U64(rdi),
      U64(r8), U64(r9), U64(r10), U64(r11));
    proc.sig := proc.sig.(inProgress := false);
  }

  method SysSigaction(proc: SigProcess, frame: TrapFrame)
    modifies proc, frame
    ensures (proc.sig, frame.regs) == SigAction(old(proc.sig), old(frame.regs))
  {
    var r := frame.regs;
    if U32(r.rdi) != SIGALRM || U32(r.rdx) != 0 {
      frame.regs := r.(rax := BAD_CALL);
      return;
    }
    proc.sig := proc.sig.(handler := r.rsi, pending := false, inProgress := false);
    frame.regs := r.(rax := 0);
  }

  lemma {:induction false} FromBytesSnoc(s: seq<nat>, b: nat)
    ensures FromBytes(s + [b]) == FromBytes(s) + b * Pow256(|s|)
  {
    if s == [] {
      assert s + [b] == [b];
    } else {
      assert (s + [b])[1..] == s[1..] + [b];
      FromBytesSnoc(s[1..], b);
      var x, p := FromBytes(s[1..]), Pow256(|s| - 1);
      assert 256 * (x + b * p) == 256 * x + b * (256 * p);
    }
  }
}
