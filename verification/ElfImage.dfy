/** Populating a child's pages through physical addresses: the PT_LOAD segments, the argument page
    and the stack (src/process.go:179-182, 241-249, 376-430). */
module ElfImage {
  import opened PhysMem
  import opened PageTable
  import opened AddressSpaces
  import opened PageAccess
  import opened Vmm

  const MAX_USER_PAGES: nat := 512
  const USER_FLAGS: nat := PRESENT + WRITE + USER
  const ARG_PAGE: nat := 0x40300
  const STACK_PAGE: nat := 0x7FFF0
  const STACK_PAGES: nat := 4
  const MAX_ARGS: nat := 256

  datatype Segment = Segment(offset: nat, vaddr: nat, filesz: nat, memsz: nat)

  type Byte = b: nat | b < 256

  predicate UserPage(n: nat) {
    n < 0x10_0000_0000 && UserPath(PathOf(PAGE * n))
  }

  /** What the loader needs of a segment: its file bytes exist, the image fits the segment, and
      its pages are user pages below the canonical hole. */
  ghost predicate SegmentOk(s: Segment, data: seq<Byte>) {
    && s.offset + s.filesz <= |data| && s.filesz <= s.memsz
    && SegmentPages(s)
  }

  predicate SegmentPage(s: Segment, n: nat) {
    s.vaddr / PAGE <= n && PAGE * n < s.vaddr + s.memsz
  }

  ghost predicate SegmentPages(s: Segment) {
    forall n :: SegmentPage(s, n) ==> UserPage(n)
  }

  predicate StackPage(n: nat) {
    STACK_PAGE <= n < STACK_PAGE + STACK_PAGES
  }

  /** The page of the arguments or one of the stack's. */
  predicate FixedPage(n: nat) {
    n == ARG_PAGE || StackPage(n)
  }

  lemma FixedPages(n: nat)
    requires FixedPage(n)
    ensures UserPage(n)
  {
    assert PathOf(PAGE * n)[1] == 1;
  }

  /** The byte an image should hold at v: the last segment with a file byte there wins, and
      everything else is zero. */
  function Expected(segs: seq<Segment>, data: seq<Byte>, v: nat): Byte {
    if segs == [] then 0
    else
      var s := segs[|segs| - 1];
      if s.vaddr <= v < s.vaddr + s.filesz && s.offset + (v - s.vaddr) < |data| then data[s.offset + (v - s.vaddr)]
      else Expected(segs[..|segs| - 1], data, v)
  }

  /** Byte i of the argument page: the arguments, cut to 256 bytes, then zeros. */
  function ArgByte(args: seq<Byte>, i: nat): Byte {
    if i < |args| && i < MAX_ARGS then args[i] else 0
  }

  /** The byte a spawned child should see at v: the argument page and the stack replace whatever
      segments put there. */
  function Spawned(segs: seq<Segment>, data: seq<Byte>, args: seq<Byte>, v: nat): Byte {
    if v / PAGE == ARG_PAGE then ArgByte(args, v % PAGE)
    else if StackPage(v / PAGE) then 0
    else Expected(segs, data, v)
  }

  ghost predicate SpawnedPage(segs: seq<Segment>, n: nat) {
    FixedPage(n) || exists i :: 0 <= i < |segs| && SegmentPage(segs[i], n)
  }

  ghost predicate ByteDisjoint(segs: seq<Segment>) {
    forall j, k, v :: 0 <= j < k < |segs| && InSegment(segs[j], v) ==> !InSegment(segs[k], v)
  }

  ghost predicate InSegment(s: Segment, v: nat) {
    s.vaddr <= v < s.vaddr + s.memsz
  }

  /** For byte-disjoint segments the expected image is each segment's file bytes followed by
      zeros up to its memory size. */
  lemma {:induction false} DisjointImage(segs: seq<Segment>, data: seq<Byte>, k: nat, j: nat)
    requires forall i :: 0 <= i < |segs| ==> SegmentOk(segs[i], data)
    requires ByteDisjoint(segs) && k < |segs| && SegmentOk(segs[k], data) && j < segs[k].memsz
    ensures Expected(segs, data, segs[k].vaddr + j) == if j < segs[k].filesz then data[segs[k].offset + j] else 0
  {
    var n := |segs| - 1;
    var v := segs[k].vaddr + j;
    assert InSegment(segs[k], v);
    if k < n {
      assert !InSegment(segs[n], v);
      DisjointImage(segs[..n], data, k, j);
    } else if segs[k].filesz <= j {
      NoFileByte(segs[..n], data, v, segs[n], segs);
    }
  }

  lemma {:induction false} NoFileByte(part: seq<Segment>, data: seq<Byte>, v: nat, s: Segment, segs: seq<Segment>)
    requires part < segs && s == segs[|segs| - 1] && InSegment(s, v) && ByteDisjoint(segs)
    requires forall i :: 0 <= i < |segs| ==> SegmentOk(segs[i], data)
    ensures Expected(part, data, v) == 0
  {
    if part != [] {
      var last := part[|part| - 1];
      assert last == segs[|part| - 1] && SegmentOk(last, data);
      assert !InSegment(last, v);
      NoFileByte(part[..|part| - 1], data, v, s, segs);
    }
  }

  /** What a child finds where, written out: its arguments at 0x40300000, cut to 256 bytes and
      followed by zeros to the end of the page; four zero pages from 0x7FFF0000; and elsewhere, for
      byte-disjoint segments, file bytes and then zeros. */
  lemma SpawnedBytes(segs: seq<Segment>, data: seq<Byte>, args: seq<Byte>, v: nat)
    requires forall i :: 0 <= i < |segs| ==> SegmentOk(segs[i], data)
    ensures 0x4030_0000 <= v < 0x4030_1000 ==>
              Spawned(segs, data, args, v) ==
              if v - 0x4030_0000 < |args| && v - 0x4030_0000 < 256 then args[v - 0x4030_0000] else 0
    ensures 0x7FFF_0000 <= v < 0x7FFF_4000 ==> Spawned(segs, data, args, v) == 0
    ensures ByteDisjoint(segs) && v / PAGE != 0x40300 && !(0x7FFF0 <= v / PAGE < 0x7FFF4) ==>
              forall k :: 0 <= k < |segs| && SegmentOk(segs[k], data) && InSegment(segs[k], v) ==>
                Spawned(segs, data, args, v) ==
                if v - segs[k].vaddr < segs[k].filesz then data[segs[k].offset + (v - segs[k].vaddr)] else 0
  {
    hide Expected;
    if ByteDisjoint(segs) {
      forall k | 0 <= k < |segs| && SegmentOk(segs[k], data) && InSegment(segs[k], v)
        ensures Expected(segs, data, v) ==
                if v - segs[k].vaddr < segs[k].filesz then data[segs[k].offset + (v - segs[k].vaddr)] else 0
      {
        DisjointImage(segs, data, k, v - segs[k].vaddr);
      }
    }
  }

  // ---- the child's pages and their bytes ----

  function ByteAt(m: Mem, f: nat, off: nat): nat {
    LoadByte(m, f + off)
  }

  function ImageAt(img: map<nat, Byte>, v: nat): Byte {
    if v in img then img[v] else 0
  }

  /** The image holds, at every address, the byte the segments put there. */
  ghost predicate ShowsImage(img: map<nat, Byte>, segs: seq<Segment>, data: seq<Byte>) {
    forall v: nat :: ImageAt(img, v) == Expected(segs, data, v)
  }

  /** The child translates exactly the pages of pm, to distinct data frames. */
  ghost predicate PagesOk(m: Mem, t: Tables, live: set<nat>, root: nat, pm: map<nat, nat>) {
    && (forall n :: UserPage(n) ==> Resolve(m, root, PathOf(PAGE * n)) == if n in pm then pm[n] else 0)
    && (forall n :: n in pm ==> UserPage(n) && pm[n] in live && pm[n] !in t)
    && (forall n, k :: n in pm && k in pm && n != k ==> pm[n] != pm[k])
  }

  /** Its pages hold the bytes of img, and zero elsewhere. */
  ghost predicate BytesOk(m: Mem, pm: map<nat, nat>, img: map<nat, Byte>) {
    && (forall n, off :: n in pm && 0 <= off < PAGE ==> ByteAt(m, pm[n], off) == ImageAt(img, PAGE * n + off))
    && (forall v :: v in img ==> v / PAGE in pm)
  }

  /** Every page of pm has the leaf entry of a page Ring 3 may read and write, and the ways are
      open. */
  ghost predicate Usable(m: Mem, root: nat, pm: map<nat, nat>) {
    && Guarded(m, {root})
    && (forall n :: n in pm && UserPage(n) ==> LeafWord(m, root, PathOf(PAGE * n)) == Or(pm[n], 7))
  }

  ghost predicate Loaded(vm: Vm, t: Tables, live: set<nat>, root: nat, pm: map<nat, nat>, img: map<nat, Byte>) {
    && Inv(vm, t, live) && IsRoot(t, root)
    && PagesOk(vm.mem, t, live, root, pm)
    && BytesOk(vm.mem, pm, img)
    && Usable(vm.mem, root, pm)
  }

  /** A page of the child can be read and written by Ring 3. */
  lemma UsablePage(m: Mem, root: nat, pm: map<nat, nat>, n: nat)
    requires Usable(m, root, pm) && n in pm && UserPage(n) && Aligned(pm[n])
    ensures UserMay(m, root, PathOf(PAGE * n)) && WriteMay(m, root, PathOf(PAGE * n))
  {
    hide PathOf, PathGuarded, LeafWord, UserMay, WriteMay;
    LeafDecides(m, root, PathOf(PAGE * n));
    OrBits(pm[n], 7);
  }

  /** Where no table of the child changes, its pages stay usable. */
  lemma StaysUsable(m: Mem, m': Mem, t: Tables, root: nat, pm: map<nat, nat>)
    requires TablesOk(m, t) && IsRoot(t, root) && Usable(m, root, pm)
    requires forall g :: g in t ==> SameFrame(m, m', g)
    ensures Usable(m', root, pm)
  {
    hide TablesOk, SameFrame, PathOf, PathGuarded, LeafWord;
    forall r, q | r in {root} && UserPath(q)
      ensures PathGuarded(m', r, q) && LeafWord(m', r, q) == LeafWord(m, r, q)
    {
      SamePath(m, m', t, r, q);
    }
  }

  /** Mapping one more page with the loader's flags. */
  lemma MapsUsable(vm: Vm, t: Tables, live: set<nat>, root: nat, pm: map<nat, nat>, n: nat, f: nat)
    requires Inv(vm, t, live) && IsRoot(t, root) && Usable(vm.mem, root, pm) && UserPage(n) && Aligned(f)
    ensures Usable(MapPage(vm, root, PathOf(PAGE * n), f, USER_FLAGS).mem, root, pm[n := f])
  {
    hide Inv, PathOf, PathGuarded, LeafWord, MapPage, Or;
    var p := PathOf(PAGE * n);
    var m' := MapPage(vm, root, p, f, USER_FLAGS).mem;
    ModPage(f, f / PAGE, 0);
    forall r, q | r in {root} && UserPath(q)
      ensures PathGuarded(m', r, q) && LeafWord(m', r, q) == if q == p then Or(f, 7) else LeafWord(vm.mem, r, q)
    {
      MapOpens(vm, t, live, root, p, f, USER_FLAGS, r, q);
    }
    forall k | k in pm[n := f] && UserPage(k)
      ensures LeafWord(m', root, PathOf(PAGE * k)) == Or(pm[n := f][k], 7)
    {
      PagePaths(n, k);
    }
  }

  lemma PagePaths(n: nat, k: nat)
    requires UserPage(n) && UserPage(k)
    ensures PathOf(PAGE * n) == PathOf(PAGE * k) <==> n == k
  {
    PathOfPage(PAGE * n);
    PathOfPage(PAGE * k);
  }

  lemma BytesKept(m: Mem, m': Mem, f: nat)
    requires Aligned(f) && SameFrame(m, m', f)
    ensures forall off :: 0 <= off < PAGE ==> ByteAt(m', f, off) == ByteAt(m, f, off)
  {
    forall off | 0 <= off < PAGE
      ensures ByteAt(m', f, off) == ByteAt(m, f, off)
    {
      forall i | 0 <= i < 512
        ensures Load(m', Word(f, i)) == Load(m, Word(f, i))
      {
        assert Entry(m', f, i) == Entry(m, f, i);
      }
      SameWordsSameBytes(m, m', f, off);
    }
  }

  lemma ZeroBytesOf(m: Mem, f: nat)
    requires Aligned(f) && forall i :: 0 <= i < 512 ==> Entry(m, f, i) == 0
    ensures forall off :: 0 <= off < PAGE ==> ByteAt(m, f, off) == 0
  {
    forall off | 0 <= off < PAGE
      ensures ByteAt(m, f, off) == 0
    {
      forall i | 0 <= i < 512
        ensures Load(m, Word(f, i)) == 0
      {
        assert Entry(m, f, i) == 0;
      }
      ZeroFrameBytes(m, f, off);
    }
  }

  /** The image without the bytes of one page. */
  ghost function Without(img: map<nat, Byte>, n: nat): map<nat, Byte> {
    map v | v in img && v / PAGE != n :: img[v]
  }

  lemma WithoutAt(img: map<nat, Byte>, n: nat)
    ensures forall v: nat :: ImageAt(Without(img, n), v) == if v / PAGE == n then 0 else ImageAt(img, v)
  {
  }

  lemma WithoutMissing(m: Mem, pm: map<nat, nat>, img: map<nat, Byte>, n: nat)
    requires BytesOk(m, pm, img) && n !in pm
    ensures Without(img, n) == img
  {
  }

  /** Allocating a frame and mapping it at a page gives that page zeros, whatever it held. */
  lemma MapFresh(vm: Vm, t: Tables, live: set<nat>, root: nat, pm: map<nat, nat>, img: map<nat, Byte>, n: nat)
    returns (t': Tables, live': set<nat>)
    requires Loaded(vm, t, live, root, pm, img) && UserPage(n)
    ensures var f := TakenFrame(vm);
            var vm' := MapPage(Alloc(vm), root, PathOf(PAGE * n), f, USER_FLAGS);
            && Loaded(vm', t', live', root, pm[n := f], Without(img, n))
            && Grows(t, t', live, live', root)
            && OthersKept(vm.mem, vm'.mem, t, live, root)
            && f !in live
  {
    hide AllocatorOk, TablesOk, MapPage, Alloc, Resolve, SameFrame, IsPresent, FrameOf, PathOf, SharedKept, LinksKept,
      ByteAt, Target, Usable;
    var f := TakenFrame(vm);
    var vm1 := Alloc(vm);
    var vm' := MapPage(vm1, root, PathOf(PAGE * n), f, USER_FLAGS);
    AllocFresh(vm, live);
    LiveFrames(vm, live);
    TablesStay(vm.mem, vm1.mem, t);
    var live1 := live + {f};
    t', live' := MapRefines(vm1, t, live1, root, PathOf(PAGE * n), f, USER_FLAGS);
    UserTarget(f);
    SharedSame(vm.mem, vm1.mem, t, live);
    SameWalksAfter(vm.mem, vm1.mem, t);
    GrowsLive(t, live, live1, root);
    Chain(vm.mem, vm1.mem, vm'.mem, t, t, t', live, live1, live', root);
    forall k | UserPage(k)
      ensures Resolve(vm'.mem, root, PathOf(PAGE * k)) == if k in pm[n := f] then pm[n := f][k] else 0
    {
      PagePaths(n, k);
      assert Resolve(vm1.mem, root, PathOf(PAGE * k)) == Resolve(vm.mem, root, PathOf(PAGE * k));
    }
    FreshBytes(vm.mem, vm1.mem, vm'.mem, pm, img, n, f);
    StaysUsable(vm.mem, vm1.mem, t, root, pm);
    MapsUsable(vm1, t, live1, root, pm, n, f);
  }

  lemma UserTarget(f: nat)
    requires Aligned(f)
    ensures Target(f, USER_FLAGS) == f
  {
    PlainFlags(f, USER_FLAGS);
  }

  lemma GrowsLive(t: Tables, live: set<nat>, live1: set<nat>, root: nat)
    requires live <= live1
    ensures Grows(t, t, live, live1, root)
  {
  }

  lemma SharedSame(m: Mem, m': Mem, t: Tables, live: set<nat>)
    requires forall f :: f in t ==> f in live
    requires forall g :: g in live ==> SameFrame(m, m', g)
    ensures SharedKept(m, m', t) && LinksKept(m, m', t)
  {
    SameLinks(m, m', t);
  }

  lemma SameWalksAfter(m: Mem, m': Mem, t: Tables)
    requires TablesOk(m, t) && forall f :: f in t ==> SameFrame(m, m', f)
    ensures SameWalks(m, m', t)
  {
    forall r, q | IsRoot(t, r) && UserPath(q)
      ensures Resolve(m', r, q) == Resolve(m, r, q)
    {
      SameTreeSameWalk(m, m', t, r, q);
    }
  }

  lemma FreshBytes(m: Mem, m1: Mem, m': Mem, pm: map<nat, nat>, img: map<nat, Byte>, n: nat, f: nat)
    requires BytesOk(m, pm, img) && Aligned(f)
    requires forall k :: k in pm ==> Aligned(pm[k]) && SameFrame(m, m1, pm[k]) && SameFrame(m1, m', pm[k])
    requires forall i :: 0 <= i < 512 ==> Entry(m1, f, i) == 0
    requires SameFrame(m1, m', f)
    ensures BytesOk(m', pm[n := f], Without(img, n))
  {
    hide LoadByte, Entry;
    var pm' := pm[n := f];
    forall k, off | k in pm' && 0 <= off < PAGE
      ensures ByteAt(m', pm'[k], off) == ImageAt(Without(img, n), PAGE * k + off)
    {
      assert (PAGE * k + off) / PAGE == k;
      if k == n {
        BytesKept(m1, m', f);
        ZeroBytesOf(m1, f);
        assert ByteAt(m', f, off) == ByteAt(m1, f, off);
      } else {
        BytesKept(m, m1, pm[k]);
        BytesKept(m1, m', pm[k]);
        assert ByteAt(m', pm[k], off) == ByteAt(m1, pm[k], off) == ByteAt(m, pm[k], off);
      }
    }
  }

  /** Writing one byte through the child's translation changes that byte of the image; no table
      and no other frame is touched. */
  lemma PokeByte(vm: Vm, t: Tables, live: set<nat>, root: nat, pm: map<nat, nat>, img: map<nat, Byte>, v: nat, b: Byte)
    requires Loaded(vm, t, live, root, pm, img) && v / PAGE in pm
    ensures var f := pm[v / PAGE];
            var vm' := vm.(mem := StoreByte(vm.mem, f + v % PAGE, b));
            && Loaded(vm', t, live, root, pm, img[v := b])
            && (forall g :: g in live && g != f ==> SameFrame(vm.mem, vm'.mem, g))
  {
    hide AllocatorOk, TablesOk, Resolve, IsPresent, FrameOf, PathOf, StoreByte, LoadByte, Usable;
    var f, off := pm[v / PAGE], v % PAGE;
    var vm' := vm.(mem := StoreByte(vm.mem, f + off, b));
    LiveFrames(vm, live);
    forall g, i | g in live && g != f && 0 <= i < 512
      ensures Entry(vm'.mem, g, i) == Entry(vm.mem, g, i)
    {
      StoreByteFrame(vm.mem, f, off, b, g, i);
    }
    assert forall g :: g in live && g != f ==> SameFrame(vm.mem, vm'.mem, g);
    TablesStay(vm.mem, vm'.mem, t);
    SameWalksAfter(vm.mem, vm'.mem, t);
    SameAllocator(vm, vm', live);
    assert PagesOk(vm'.mem, t, live, root, pm) by {
      forall n | UserPage(n)
        ensures Resolve(vm'.mem, root, PathOf(PAGE * n)) == if n in pm then pm[n] else 0
      {
        assert Resolve(vm'.mem, root, PathOf(PAGE * n)) == Resolve(vm.mem, root, PathOf(PAGE * n));
      }
    }
    PokeBytes(vm.mem, pm, img, v, b, live);
    StaysUsable(vm.mem, vm'.mem, t, root, pm);
  }

  lemma PokeBytes(m: Mem, pm: map<nat, nat>, img: map<nat, Byte>, v: nat, b: Byte, live: set<nat>)
    requires BytesOk(m, pm, img) && v / PAGE in pm
    requires forall n :: n in pm ==> Aligned(pm[n])
    requires forall n, k :: n in pm && k in pm && n != k ==> pm[n] != pm[k]
    ensures BytesOk(StoreByte(m, pm[v / PAGE] + v % PAGE, b), pm, img[v := b])
  {
    hide LoadByte, StoreByte;
    var a := pm[v / PAGE] + v % PAGE;
    forall n, off | n in pm && 0 <= off < PAGE
      ensures ByteAt(StoreByte(m, a, b), pm[n], off) == ImageAt(img[v := b], PAGE * n + off)
    {
      StoredBytes(m, a, b, pm[n] + off);
      SameByte(pm[n], off, pm[v / PAGE], v % PAGE);
      assert v == PAGE * (v / PAGE) + v % PAGE;
      assert (PAGE * n + off) / PAGE == n;
      assert ByteAt(m, pm[n], off) == ImageAt(img, PAGE * n + off);
    }
  }

  lemma SameByte(f: nat, off: nat, g: nat, off': nat)
    requires Aligned(f) && Aligned(g) && off < PAGE && off' < PAGE
    ensures f + off == g + off' <==> f == g && off == off'
  {
    if f + off == g + off' {
      FramesDisjoint(f, g, f + off);
    }
  }

  // ---- the loader ----

  class Process {
    const userPages: array<nat>
    const userPaddrs: array<nat>
    var userPageCnt: nat

    ghost predicate Valid()
      reads this
    {
      && userPages.Length == MAX_USER_PAGES && userPaddrs.Length == MAX_USER_PAGES && userPages != userPaddrs
      && userPageCnt <= MAX_USER_PAGES
    }

    constructor ()
      ensures Valid() && userPageCnt == 0 && fresh(userPages) && fresh(userPaddrs)
    {
      userPages := new nat[MAX_USER_PAGES];
      userPaddrs := new nat[MAX_USER_PAGES];
      userPageCnt := 0;
    }

    method RecordPage(vaddr: nat, paddr: nat)
      requires Valid()
      modifies this`userPageCnt, userPages, userPaddrs
      ensures Valid()
      ensures old(userPageCnt) < MAX_USER_PAGES ==>
                && userPages[..userPageCnt] == old(userPages[..userPageCnt]) + [vaddr]
                && userPaddrs[..userPageCnt] == old(userPaddrs[..userPageCnt]) + [paddr]
      ensures old(userPageCnt) == MAX_USER_PAGES ==>
                && userPages[..userPageCnt] == old(userPages[..userPageCnt])
                && userPaddrs[..userPageCnt] == old(userPaddrs[..userPageCnt])
    {
      if userPageCnt < MAX_USER_PAGES {
        userPages[userPageCnt] := vaddr;
        userPaddrs[userPageCnt] := paddr;
        userPageCnt := userPageCnt + 1;
      }
    }

    ghost predicate Records(log: seq<(nat, nat)>)
      requires Valid()
      reads this, userPages, userPaddrs
    {
      Recorded(userPages[..userPageCnt], userPaddrs[..userPageCnt], log)
    }
  }

  /** The pages mapped so far with their frames, oldest first, as the child's page map: a page
      mapped twice has its newer frame. */
  ghost function Replay(log: seq<(nat, nat)>): map<nat, nat> {
    if log == [] then map[] else Replay(log[..|log| - 1])[log[|log| - 1].0 := log[|log| - 1].1]
  }

  lemma ReplayMore(log: seq<(nat, nat)>, n: nat, f: nat)
    ensures Replay(log + [(n, f)]) == Replay(log)[n := f]
  {
    assert (log + [(n, f)])[..|log|] == log;
  }

  /** The record lists the mappings made, in order, up to its capacity. */
  ghost predicate Recorded(pages: seq<nat>, frames: seq<nat>, log: seq<(nat, nat)>) {
    && |pages| == |frames| == (if |log| <= MAX_USER_PAGES then |log| else MAX_USER_PAGES)
    && (forall k :: 0 <= k < |pages| ==> pages[k] == PAGE * log[k].0 && frames[k] == log[k].1)
  }

  lemma RecordMore(pages: seq<nat>, frames: seq<nat>, log: seq<(nat, nat)>, n: nat, f: nat)
    requires Recorded(pages, frames, log)
    ensures if |pages| < MAX_USER_PAGES then Recorded(pages + [PAGE * n], frames + [f], log + [(n, f)])
            else Recorded(pages, frames, log + [(n, f)])
  {
  }

  ghost predicate Mapped(s: Segment, pm: map<nat, nat>) {
    forall n :: SegmentPage(s, n) ==> n in pm
  }

  /** Reading v through the tree at root gives b, from a frame that is no table. */
  ghost predicate Found(m: Mem, t: Tables, root: nat, v: nat, b: Byte) {
    var f := Resolve(m, root, PathOf(v));
    f != 0 && f !in t && LoadByte(m, f + v % PAGE) == b
  }

  lemma PageTranslates(vm: Vm, t: Tables, live: set<nat>, root: nat, pm: map<nat, nat>, img: map<nat, Byte>, n: nat)
    requires Loaded(vm, t, live, root, pm, img) && UserPage(n)
    ensures Resolve(vm.mem, root, PathOf(PAGE * n)) == if n in pm then pm[n] else 0
    ensures n in pm ==> pm[n] != 0
    ensures root != 0
  {
    hide Resolve, PathOf, TablesOk, BytesOk, Usable;
  }

  /** Memory as the loader sees it: the page tables and frames in use, the mappings it made and
      the bytes it put there. */
  datatype Child = Child(t: Tables, live: set<nat>, log: seq<(nat, nat)>, img: map<nat, Byte>)

  ghost predicate Populated(vm: Vm, root: nat, c: Child) {
    Loaded(vm, c.t, c.live, root, Replay(c.log), c.img)
  }

  /** From c to c' only the child's tree and frames that were free have been written. */
  ghost predicate Since(m: Mem, c: Child, m': Mem, c': Child, root: nat) {
    Grows(c.t, c'.t, c.live, c'.live, root) && OthersKept(m, m', c.t, c.live, root)
  }

  lemma SinceRefl(m: Mem, c: Child, root: nat)
    ensures Since(m, c, m, c, root)
  {
  }

  lemma SinceChain(m: Mem, c: Child, m1: Mem, c1: Child, m2: Mem, c2: Child, root: nat)
    requires Since(m, c, m1, c1, root) && Since(m1, c1, m2, c2, root)
    ensures Since(m, c, m2, c2, root) && c.live <= c1.live
  {
    hide OthersKept;
    Chain(m, m1, m2, c.t, c1.t, c2.t, c.live, c1.live, c2.live, root);
  }

  /** Mappings made earlier stay, and new ones use frames that were free. */
  ghost predicate Extends(c: Child, c': Child) {
    var pm, pm' := Replay(c.log), Replay(c'.log);
    && (forall n :: n in pm ==> n in pm' && pm'[n] == pm[n])
    && (forall n :: n in pm' && n !in pm ==> pm'[n] !in c.live)
  }

  lemma ExtendsChain(c: Child, c1: Child, c2: Child)
    requires Extends(c, c1) && Extends(c1, c2) && c.live <= c1.live
    ensures Extends(c, c2)
  {
    hide Replay;
  }

  /** Allocate a frame, map it at addr and record it. */
  method MapNewPage(m: Machine, root: nat, addr: nat, proc: Process, ghost c: Child)
    returns (paddr: nat, ghost c': Child)
    requires m.Valid() && Populated(m.State(), root, c)
    requires proc.Valid() && proc.Records(c.log)
    requires Aligned(addr) && UserPage(addr / PAGE)
    requires {m.freeStack} !! {proc.userPages, proc.userPaddrs}
    modifies m`mem, m`freeStackLen, m`nextFreePage, proc`userPageCnt, proc.userPages, proc.userPaddrs
    ensures m.Valid() && Populated(m.State(), root, c')
    ensures proc.Valid() && proc.Records(c'.log)
    ensures c'.log == c.log + [(addr / PAGE, paddr)] && Replay(c'.log) == Replay(c.log)[addr / PAGE := paddr]
    ensures c'.img == Without(c.img, addr / PAGE) && paddr !in c.live
    ensures Since(old(m.mem), c, m.mem, c', root)
  {
    hide Loaded, Resolve, Grows, OthersKept, PathOf, MapPage, Alloc, UserPath, Recorded, TakenFrame, Replay, Without;
    ghost var n := addr / PAGE;
    assert addr == PAGE * n;
    ghost var vm := m.State();
    paddr := m.AllocPage();
    m.MapPageInto(root, addr, paddr, USER_FLAGS);
    ghost var t', live' := MapFresh(vm, c.t, c.live, root, Replay(c.log), c.img, n);
    ReplayMore(c.log, n, paddr);
    RecordMore(proc.userPages[..proc.userPageCnt], proc.userPaddrs[..proc.userPageCnt], c.log, n, paddr);
    c' := Child(t', live', c.log + [(n, paddr)], Without(c.img, n));
    proc.RecordPage(addr, paddr);
  }

  /** One page of the mapping loop: a page already mapped is left alone. */
  method MapIfMissing(m: Machine, root: nat, addr: nat, proc: Process, ghost c: Child) returns (ghost c': Child)
    requires m.Valid() && Populated(m.State(), root, c)
    requires proc.Valid() && proc.Records(c.log)
    requires Aligned(addr) && UserPage(addr / PAGE)
    requires {m.freeStack} !! {proc.userPages, proc.userPaddrs}
    modifies m`mem, m`freeStackLen, m`nextFreePage, proc`userPageCnt, proc.userPages, proc.userPaddrs
    ensures m.Valid() && Populated(m.State(), root, c')
    ensures proc.Valid() && proc.Records(c'.log)
    ensures Replay(c'.log).Keys == Replay(c.log).Keys + {addr / PAGE}
    ensures c'.img == c.img && Extends(c, c')
    ensures Since(old(m.mem), c, m.mem, c', root)
  {
    hide Resolve, Since, PathOf, UserPath, Recorded, Replay, Without, Inv, BytesOk, PagesOk;
    c' := c;
    ghost var n := addr / PAGE;
    assert addr == PAGE * n;
    SinceRefl(m.mem, c, root);
    PageTranslates(m.State(), c.t, c.live, root, Replay(c.log), c.img, n);
    var frame := m.WalkAndGetPaddrIn(root, addr);
    if frame == 0 {
      WithoutMissing(m.mem, Replay(c.log), c.img, n);
      var paddr;
      paddr, c' := MapNewPage(m, root, addr, proc, c);
    }
  }

  /** Map the pages of one segment that no earlier segment mapped. */
  method MapSegment(m: Machine, root: nat, s: Segment, proc: Process, ghost c: Child) returns (ghost c': Child)
    requires m.Valid() && Populated(m.State(), root, c)
    requires proc.Valid() && proc.Records(c.log)
    requires SegmentPages(s)
    requires {m.freeStack} !! {proc.userPages, proc.userPaddrs}
    modifies m`mem, m`freeStackLen, m`nextFreePage, proc`userPageCnt, proc.userPages, proc.userPaddrs
    ensures m.Valid() && Populated(m.State(), root, c')
    ensures proc.Valid() && proc.Records(c'.log)
    ensures forall n :: n in Replay(c'.log) <==> n in Replay(c.log) || SegmentPage(s, n)
    ensures c'.img == c.img && Extends(c, c')
    ensures Since(old(m.mem), c, m.mem, c', root)
  {
    hide Populated, Since, UserPage, Recorded, Replay, Extends;
    c' := c;
    var addr := s.vaddr - s.vaddr % PAGE;
    var end := s.vaddr + s.memsz;
    SinceRefl(m.mem, c, root);
    ExtendsRefl(c);
    while addr < end
      invariant m.Valid() && Populated(m.State(), root, c')
      invariant proc.Valid() && proc.Records(c'.log)
      invariant Aligned(addr) && s.vaddr / PAGE <= addr / PAGE && addr < end + PAGE
      invariant forall n :: n in Replay(c'.log) <==> n in Replay(c.log) || s.vaddr / PAGE <= n < addr / PAGE
      invariant c'.img == c.img && Extends(c, c')
      invariant Since(old(m.mem), c, m.mem, c', root)
      decreases end + PAGE - addr
    {
      ghost var m1, c1 := m.mem, c';
      PageInSegment(s, addr);
      c' := MapIfMissing(m, root, addr, proc, c');
      SinceChain(old(m.mem), c, m1, c1, m.mem, c', root);
      ExtendsChain(c, c1, c');
      NextPage(addr);
      addr := addr + PAGE;
    }
    forall n: nat
      ensures s.vaddr / PAGE <= n < addr / PAGE <==> SegmentPage(s, n)
    {
      LastPage(s, addr, n);
    }
  }

  lemma ExtendsRefl(c: Child)
    ensures Extends(c, c)
  {
  }

  lemma PageInSegment(s: Segment, addr: nat)
    requires Aligned(addr) && s.vaddr / PAGE <= addr / PAGE && addr < s.vaddr + s.memsz
    ensures SegmentPage(s, addr / PAGE)
  {
  }

  lemma LastPage(s: Segment, addr: nat, n: nat)
    requires Aligned(addr) && s.vaddr + s.memsz <= addr && s.vaddr / PAGE <= addr / PAGE
    requires addr < s.vaddr + s.memsz + PAGE
    ensures s.vaddr / PAGE <= n < addr / PAGE <==> SegmentPage(s, n)
  {
    assert addr == PAGE * (addr / PAGE);
  }

  lemma NextPage(addr: nat)
    requires Aligned(addr)
    ensures Aligned(addr + PAGE) && (addr + PAGE) / PAGE == addr / PAGE + 1
  {
  }

  /** Copy the file bytes of one segment to where the child's translation puts them. */
  method CopySegment(m: Machine, root: nat, s: Segment, data: seq<Byte>, ghost done: seq<Segment>,
      ghost c: Child, ghost kept: set<nat>)
    returns (ghost c': Child)
    requires m.Valid() && Populated(m.State(), root, c)
    requires SegmentOk(s, data) && Mapped(s, Replay(c.log))
    requires ShowsImage(c.img, done, data)
    requires kept <= c.live && forall n :: n in Replay(c.log) ==> Replay(c.log)[n] !in kept
    modifies m`mem
    ensures m.Valid() && Populated(m.State(), root, c')
    ensures c' == c.(img := c'.img) && ShowsImage(c'.img, done + [s], data)
    ensures forall g :: g in kept ==> SameFrame(old(m.mem), m.mem, g)
  {
    hide Loaded, Resolve, PathOf, UserPath, StoreByte, SameFrame, ShowsImage, Replay, Walk;
    ghost var pm := Replay(c.log);
    c' := c;
    ExpectedNone(c.img, done, s, data);
    SameIsSame(m.mem);
    var j := 0;
    while j < s.filesz
      modifies m`mem
      invariant j <= s.filesz && m.Valid() && Loaded(m.State(), c.t, c.live, root, pm, c'.img)
          && c' == c.(img := c'.img)
      invariant ShowsImage(c'.img, done + [s.(filesz := j)], data)
      invariant forall g :: g in kept ==> SameFrame(old(m.mem), m.mem, g)
    {
      var vaddr := s.vaddr + j;
      ghost var n := vaddr / PAGE;
      assert SegmentPage(s, n);
      CanonicalPage(vaddr);
      PageTranslates(m.State(), c.t, c.live, root, pm, c'.img, n);
      var paddr := m.WalkAndGetPaddrIn(root, vaddr);
      PokeByte(m.State(), c.t, c.live, root, pm, c'.img, vaddr, data[s.offset + j]);
      KeptStill(old(m.mem), m.mem, StoreByte(m.mem, paddr + vaddr % PAGE, data[s.offset + j]), kept, c.live, paddr);
      m.mem := StoreByte(m.mem, paddr + vaddr % PAGE, data[s.offset + j]);
      OneMoreByte(c'.img, done, s, j, data);
      c' := c.(img := c'.img[vaddr := data[s.offset + j]]);
      j := j + 1;
    }
    assert s.(filesz := j) == s;
  }

  lemma CanonicalPage(v: nat)
    requires UserPage(v / PAGE)
    ensures PathOf(v) == PathOf(PAGE * (v / PAGE))
  {
    PathOfPage(v);
  }

  lemma KeptStill(m0: Mem, m1: Mem, m2: Mem, kept: set<nat>, live: set<nat>, f: nat)
    requires kept <= live && f !in kept
    requires forall g :: g in kept ==> SameFrame(m0, m1, g)
    requires forall g :: g in live && g != f ==> SameFrame(m1, m2, g)
    ensures forall g :: g in kept ==> SameFrame(m0, m2, g)
  {
  }

  lemma ExpectedNone(img: map<nat, Byte>, done: seq<Segment>, s: Segment, data: seq<Byte>)
    requires ShowsImage(img, done, data)
    ensures ShowsImage(img, done + [s.(filesz := 0)], data)
  {
    var more := done + [s.(filesz := 0)];
    assert more[..|done|] == done;
    forall v: nat
      ensures ImageAt(img, v) == Expected(more, data, v)
    {
      assert Expected(more, data, v) == Expected(done, data, v);
    }
  }

  lemma ExpectedEmpty(segs: seq<Segment>, data: seq<Byte>)
    requires segs == []
    ensures ShowsImage(map[], segs, data)
  {
  }

  lemma ExpectedMore(done: seq<Segment>, s: Segment, j: nat, data: seq<Byte>)
    requires SegmentOk(s, data) && j < s.filesz
    ensures forall v :: Expected(done + [s.(filesz := j + 1)], data, v) ==
              if v == s.vaddr + j then data[s.offset + j] else Expected(done + [s.(filesz := j)], data, v)
  {
    var before, after := done + [s.(filesz := j)], done + [s.(filesz := j + 1)];
    assert before[..|done|] == done && after[..|done|] == done;
    forall v
      ensures Expected(after, data, v) == if v == s.vaddr + j then data[s.offset + j] else Expected(before, data, v)
    {
    }
  }

  /** The image with byte j of the segment in place is the image expected of j + 1 bytes. */
  lemma OneMoreByte(img: map<nat, Byte>, done: seq<Segment>, s: Segment, j: nat, data: seq<Byte>)
    requires SegmentOk(s, data) && j < s.filesz && ShowsImage(img, done + [s.(filesz := j)], data)
    ensures ShowsImage(img[s.vaddr + j := data[s.offset + j]], done + [s.(filesz := j + 1)], data)
  {
    hide Expected;
    var img', after := img[s.vaddr + j := data[s.offset + j]], done + [s.(filesz := j + 1)];
    ExpectedMore(done, s, j, data);
    forall v: nat
      ensures ImageAt(img', v) == Expected(after, data, v)
    {
      assert ImageAt(img, v) == Expected(done + [s.(filesz := j)], data, v);
    }
  }

  lemma StartLoaded(vm: Vm, c: Child, root: nat)
    requires Inv(vm, c.t, c.live) && IsRoot(c.t, root) && c.log == [] && c.img == map[]
    requires forall q :: UserPath(q) ==> Resolve(vm.mem, root, q) == 0
    requires Guarded(vm.mem, {root})
    ensures Populated(vm, root, c) && Replay(c.log) == map[]
    ensures forall f :: f in c.t ==> f in c.live
  {
    hide Resolve, PathOf, PathGuarded;
  }

  lemma KeptAfterCopy(m0: Mem, m1: Mem, m2: Mem, t: Tables, live: set<nat>, root: nat)
    requires OthersKept(m0, m1, t, live, root)
    requires forall f :: f in t ==> f in live
    requires forall g :: g in live ==> SameFrame(m1, m2, g)
    ensures OthersKept(m0, m2, t, live, root)
  {
    forall g, i | g in t && SharedSlot(t[g].prefix, i)
      ensures Entry(m2, g, i) == Entry(m0, g, i)
    {
      assert SameFrame(m1, m2, g);
    }
    forall g | g in live && (g in t ==> t[g].root != root)
      ensures SameFrame(m0, m2, g)
    {
      assert SameFrame(m1, m2, g) && SameFrame(m0, m1, g);
    }
    SameLinks(m1, m2, t);
    LinksChain(m0, m1, m2, t, t);
  }

  /** Every byte of a mapped user page reads as the image says, and every other page not at all. */
  ghost predicate Shows(m: Mem, t: Tables, root: nat, v: nat, mapped: bool, b: Byte) {
    if mapped then Found(m, t, root, v, b) else Resolve(m, root, PathOf(v)) == 0
  }

  lemma ShowsBytes(vm: Vm, root: nat, c: Child, v: nat)
    requires Populated(vm, root, c) && UserPage(v / PAGE)
    ensures Shows(vm.mem, c.t, root, v, v / PAGE in Replay(c.log), ImageAt(c.img, v))
  {
    hide Resolve, PathOf, UserPath, Inv, LoadByte, Replay, Usable;
    var n, off := v / PAGE, v % PAGE;
    var pm := Replay(c.log);
    CanonicalPage(v);
    PageTranslates(vm, c.t, c.live, root, pm, c.img, n);
    if n in pm {
      assert ByteAt(vm.mem, pm[n], off) == ImageAt(c.img, PAGE * n + off);
    }
  }

  /** Since memory m0 with child c0, only the child's tree and frames that were free then have
      been written. */
  ghost predicate KeptSince(m0: Mem, c0: Child, m: Mem, c: Child, root: nat) {
    && (forall f :: f in c0.t ==> f in c0.live)
    && Since(m0, c0, m, c, root)
    && (forall n :: n in Replay(c.log) ==> Replay(c.log)[n] !in c0.live)
  }

  lemma KeptMore(m0: Mem, c0: Child, m1: Mem, c1: Child, m2: Mem, c2: Child, root: nat)
    requires KeptSince(m0, c0, m1, c1, root) && Since(m1, c1, m2, c2, root)
    requires forall n :: n in Replay(c2.log) ==>
               Replay(c2.log)[n] !in c1.live || (n in Replay(c1.log) && Replay(c2.log)[n] == Replay(c1.log)[n])
    ensures KeptSince(m0, c0, m2, c2, root)
  {
    hide Since, Replay;
    SinceChain(m0, c0, m1, c1, m2, c2, root);
  }

  lemma KeptPokes(m0: Mem, c0: Child, m1: Mem, c1: Child, m2: Mem, c2: Child, root: nat)
    requires KeptSince(m0, c0, m1, c1, root) && c2 == c1.(img := c2.img)
    requires forall g :: g in c0.live ==> SameFrame(m1, m2, g)
    ensures KeptSince(m0, c0, m2, c2, root)
  {
    hide Replay, OthersKept, SameFrame;
    KeptAfterCopy(m0, m1, m2, c0.t, c0.live, root);
  }

  /** One segment: map its pages, then copy its file bytes. */
  method LoadSegment(m: Machine, root: nat, s: Segment, data: seq<Byte>, proc: Process, ghost done: seq<Segment>,
      ghost c: Child, ghost m0: Mem, ghost c0: Child)
    returns (ghost c': Child)
    requires m.Valid() && Populated(m.State(), root, c)
    requires proc.Valid() && proc.Records(c.log)
    requires SegmentOk(s, data)
    requires ShowsImage(c.img, done, data)
    requires KeptSince(m0, c0, m.mem, c, root)
    requires {m.freeStack} !! {proc.userPages, proc.userPaddrs}
    modifies m`mem, m`freeStackLen, m`nextFreePage, proc`userPageCnt, proc.userPages, proc.userPaddrs
    ensures m.Valid() && Populated(m.State(), root, c')
    ensures proc.Valid() && proc.Records(c'.log)
    ensures ShowsImage(c'.img, done + [s], data)
    ensures forall n :: n in Replay(c'.log) <==> n in Replay(c.log) || SegmentPage(s, n)
    ensures KeptSince(m0, c0, m.mem, c', root)
  {
    hide SameFrame, ShowsImage, Populated, Recorded, SegmentPages, SegmentPage, Replay, KeptSince, Since;
    ghost var m1 := m.mem;
    c' := MapSegment(m, root, s, proc, c);
    ghost var m2, c2 := m.mem, c';
    KeptMore(m0, c0, m1, c, m2, c2, root);
    KeptFrames(m0, c0, m2, c2, root);
    c' := CopySegment(m, root, s, data, done, c2, c0.live);
    KeptPokes(m0, c0, m2, c2, m.mem, c', root);
  }

  lemma KeptFrames(m0: Mem, c0: Child, m: Mem, c: Child, root: nat)
    requires KeptSince(m0, c0, m, c, root)
    ensures c0.live <= c.live && forall n :: n in Replay(c.log) ==> Replay(c.log)[n] !in c0.live
    ensures Since(m0, c0, m, c, root)
  {
    hide Replay, OthersKept;
  }

  /** The segment loop on a child with no user page: its pages are exactly those of the segments
      and hold the expected bytes, the record lists its mappings, and no frame that was in use
      outside the child's tree was written. */
  method LoadImage(m: Machine, root: nat, segs: seq<Segment>, data: seq<Byte>, proc: Process, ghost c0: Child)
    returns (ghost c: Child)
    requires m.Valid() && Inv(m.State(), c0.t, c0.live) && IsRoot(c0.t, root) && c0.log == [] && c0.img == map[]
    requires forall q :: UserPath(q) ==> Resolve(m.mem, root, q) == 0
    requires Guarded(m.mem, {root})
    requires forall i :: 0 <= i < |segs| ==> SegmentOk(segs[i], data)
    requires proc.Valid() && proc.userPageCnt == 0
    requires {m.freeStack} !! {proc.userPages, proc.userPaddrs}
    modifies m`mem, m`freeStackLen, m`nextFreePage, proc`userPageCnt, proc.userPages, proc.userPaddrs
    ensures m.Valid() && Populated(m.State(), root, c)
    ensures proc.Valid() && proc.Records(c.log)
    ensures ShowsImage(c.img, segs, data)
    ensures forall n :: n in Replay(c.log) <==> exists i :: 0 <= i < |segs| && SegmentPage(segs[i], n)
    ensures KeptSince(old(m.mem), c0, m.mem, c, root)
  {
    hide Resolve, PathOf, UserPath, ShowsImage, Inv, Populated, Recorded, SegmentOk, SegmentPage, KeptSince, Replay,
      Guarded;
    c := c0;
    StartLoaded(m.State(), c0, root);
    ExpectedEmpty(segs[..0], data);
    RecordedNone(proc.userPages[..proc.userPageCnt], proc.userPaddrs[..proc.userPageCnt]);
    KeptStart(m.mem, c0, root);
    var i := 0;
    while i < |segs|
      invariant i <= |segs| && m.Valid() && Populated(m.State(), root, c)
      invariant ShowsImage(c.img, segs[..i], data)
      invariant forall n :: n in Replay(c.log) <==> exists k :: 0 <= k < i && SegmentPage(segs[k], n)
      invariant KeptSince(old(m.mem), c0, m.mem, c, root)
      invariant proc.Valid() && proc.Records(c.log)
    {
      c := LoadSegment(m, root, segs[i], data, proc, segs[..i], c, old(m.mem), c0);
      assert segs[..i] + [segs[i]] == segs[..i + 1];
      i := i + 1;
    }
    assert segs[..i] == segs;
  }

  lemma RecordedNone(pages: seq<nat>, frames: seq<nat>)
    requires pages == [] && frames == []
    ensures Recorded(pages, frames, [])
  {
  }

  lemma KeptStart(m: Mem, c: Child, root: nat)
    requires c.log == [] && forall f :: f in c.t ==> f in c.live
    ensures KeptSince(m, c, m, c, root)
  {
  }

  /** The argument page: a new frame, whatever was mapped there, with the arguments in it. */
  method LoadArguments(m: Machine, root: nat, args: seq<Byte>, proc: Process, ghost c: Child, ghost m0: Mem,
      ghost c0: Child)
    returns (ghost c': Child)
    requires m.Valid() && Populated(m.State(), root, c)
    requires proc.Valid() && proc.Records(c.log)
    requires KeptSince(m0, c0, m.mem, c, root)
    requires {m.freeStack} !! {proc.userPages, proc.userPaddrs}
    modifies m`mem, m`freeStackLen, m`nextFreePage, proc`userPageCnt, proc.userPages, proc.userPaddrs
    ensures m.Valid() && Populated(m.State(), root, c')
    ensures proc.Valid() && proc.Records(c'.log)
    ensures forall v: nat :: ImageAt(c'.img, v) ==
              if v / PAGE == ARG_PAGE then ArgByte(args, v % PAGE) else ImageAt(c.img, v)
    ensures Replay(c'.log).Keys == Replay(c.log).Keys + {ARG_PAGE}
    ensures KeptSince(m0, c0, m.mem, c', root)
  {
    hide SameFrame, Loaded, Recorded, Replay, KeptSince, Since, UserPage, StoreByte, Without, ImageAt;
    FixedPages(ARG_PAGE);
    ghost var m1 := m.mem;
    var argPaddr;
    argPaddr, c' := MapNewPage(m, root, PAGE * ARG_PAGE, proc, c);
    ghost var m2, c2 := m.mem, c';
    ghost var pm := Replay(c2.log);
    KeptMore(m0, c0, m1, c, m2, c2, root);
    KeptFrames(m0, c0, m2, c2, root);
    WithoutAt(c.img, ARG_PAGE);
    SameIsSame(m.mem);
    var argLen := if |args| > MAX_ARGS then MAX_ARGS else |args|;
    var i := 0;
    while i < argLen
      modifies m`mem
      invariant i <= argLen && m.Valid() && Loaded(m.State(), c2.t, c2.live, root, pm, c'.img)
          && c' == c2.(img := c'.img)
      invariant forall v: nat :: ImageAt(c'.img, v) == ArgsSoFar(args, i, v, ImageAt(c.img, v))
      invariant forall g :: g in c0.live ==> SameFrame(m2, m.mem, g)
    {
      ghost var v := PAGE * ARG_PAGE + i;
      PageByte(ARG_PAGE, i);
      PokeByte(m.State(), c2.t, c2.live, root, pm, c'.img, v, args[i]);
      KeptStill(m2, m.mem, StoreByte(m.mem, argPaddr + i, args[i]), c0.live, c2.live, argPaddr);
      m.mem := StoreByte(m.mem, argPaddr + i, args[i]);
      OneMoreArg(c'.img, c.img, args, i);
      c' := c2.(img := c'.img[v := args[i]]);
      i := i + 1;
    }
    KeptPokes(m0, c0, m2, c2, m.mem, c', root);
  }

  lemma PageByte(n: nat, i: nat)
    requires i < PAGE
    ensures (PAGE * n + i) / PAGE == n && (PAGE * n + i) % PAGE == i
  {
  }

  /** The byte at v once the first i argument bytes are in place. */
  function ArgsSoFar(args: seq<Byte>, i: nat, v: nat, other: Byte): Byte {
    if v / PAGE != ARG_PAGE then other else if v % PAGE < i && v % PAGE < |args| then args[v % PAGE] else 0
  }

  lemma OneMoreArg(img: map<nat, Byte>, base: map<nat, Byte>, args: seq<Byte>, i: nat)
    requires i < |args| && i < PAGE
    requires forall v: nat :: ImageAt(img, v) == ArgsSoFar(args, i, v, ImageAt(base, v))
    ensures forall v: nat ::
              ImageAt(img[PAGE * ARG_PAGE + i := args[i]], v) == ArgsSoFar(args, i + 1, v, ImageAt(base, v))
  {
    forall v: nat
      ensures ImageAt(img[PAGE * ARG_PAGE + i := args[i]], v) == ArgsSoFar(args, i + 1, v, ImageAt(base, v))
    {
      PageByte(ARG_PAGE, i);
      assert v == PAGE * (v / PAGE) + v % PAGE;
      assert ImageAt(img, v) == ArgsSoFar(args, i, v, ImageAt(base, v));
    }
  }

  /** The four stack pages, all zero. */
  method LoadStack(m: Machine, root: nat, proc: Process, ghost c: Child, ghost m0: Mem, ghost c0: Child)
    returns (ghost c': Child)
    requires m.Valid() && Populated(m.State(), root, c)
    requires proc.Valid() && proc.Records(c.log)
    requires KeptSince(m0, c0, m.mem, c, root)
    requires {m.freeStack} !! {proc.userPages, proc.userPaddrs}
    modifies m`mem, m`freeStackLen, m`nextFreePage, proc`userPageCnt, proc.userPages, proc.userPaddrs
    ensures m.Valid() && Populated(m.State(), root, c')
    ensures proc.Valid() && proc.Records(c'.log)
    ensures forall v: nat :: ImageAt(c'.img, v) == if StackPage(v / PAGE) then 0 else ImageAt(c.img, v)
    ensures forall n :: n in Replay(c'.log) <==> n in Replay(c.log) || StackPage(n)
    ensures KeptSince(m0, c0, m.mem, c', root)
  {
    hide SameFrame, Populated, Recorded, Replay, KeptSince, Since, UserPage, Without, ImageAt;
    c' := c;
    var i := 0;
    while i < STACK_PAGES
      invariant i <= STACK_PAGES && m.Valid() && Populated(m.State(), root, c')
      invariant proc.Valid() && proc.Records(c'.log)
      invariant forall v: nat ::
                  ImageAt(c'.img, v) == if STACK_PAGE <= v / PAGE < STACK_PAGE + i then 0 else ImageAt(c.img, v)
      invariant forall n :: n in Replay(c'.log) <==> n in Replay(c.log) || STACK_PAGE <= n < STACK_PAGE + i
      invariant KeptSince(m0, c0, m.mem, c', root)
    {
      ghost var m1, c1 := m.mem, c';
      FixedPages(STACK_PAGE + i);
      PageByte(STACK_PAGE + i, 0);
      var paddr;
      paddr, c' := MapNewPage(m, root, PAGE * STACK_PAGE + i * PAGE, proc, c');
      assert PAGE * STACK_PAGE + i * PAGE == PAGE * (STACK_PAGE + i);
      WithoutAt(c1.img, STACK_PAGE + i);
      KeptMore(m0, c0, m1, c1, m.mem, c', root);
      i := i + 1;
    }
  }

  /** The child's pages are those of its segments, its argument page and its stack. */
  ghost predicate PagesOfSpawn(c: Child, segs: seq<Segment>) {
    forall n :: n in Replay(c.log) <==> SpawnedPage(segs, n)
  }

  ghost predicate ShowsSpawn(m: Mem, c: Child, root: nat, segs: seq<Segment>, data: seq<Byte>, args: seq<Byte>) {
    forall v: nat :: UserPage(v / PAGE) ==>
      Shows(m, c.t, root, v, v / PAGE in Replay(c.log), Spawned(segs, data, args, v))
  }

  /** Ring 3 may read and write the page, at every level of the tree. */
  ghost predicate OpenPage(m: Mem, root: nat, n: nat) {
    UserMay(m, root, PathOf(PAGE * n)) && WriteMay(m, root, PathOf(PAGE * n))
  }

  lemma SpawnOpens(vm: Vm, root: nat, c: Child)
    requires Populated(vm, root, c)
    ensures forall n :: n in Replay(c.log) ==> OpenPage(vm.mem, root, n)
  {
    hide Replay, Usable, PathOf, UserMay, WriteMay, BytesOk, TablesOk;
    LiveFrames(vm, c.live);
    forall n | n in Replay(c.log)
      ensures OpenPage(vm.mem, root, n)
    {
      UsablePage(vm.mem, root, Replay(c.log), n);
    }
  }

  ghost predicate LiveKept(m: Mem, m': Mem, live: set<nat>) {
    forall g :: g in live ==> SameFrame(m, m', g)
  }

  /** elfSpawn's child: from any consistent memory a new tree is made and populated. Every user
      address reads through it as the segments, the argument page and the stack say, and is
      unmapped everywhere else; the record lists the mappings made; and no frame that was in use
      before, of the kernel or of any process, has been written. */
  method SpawnImage(m: Machine, cr3: nat, segs: seq<Segment>, data: seq<Byte>, args: seq<Byte>, proc: Process,
      ghost t: Tables, ghost live: set<nat>)
    returns (pml4: nat, stackTop: nat, ghost c: Child)
    requires m.Valid() && Inv(m.State(), t, live)
    requires forall i :: 0 <= i < |segs| ==> SegmentOk(segs[i], data)
    requires proc.Valid() && proc.userPageCnt == 0
    requires {m.freeStack} !! {proc.userPages, proc.userPaddrs}
    modifies m, proc`userPageCnt, proc.userPages, proc.userPaddrs
    ensures m.Valid() && Populated(m.State(), pml4, c) && pml4 !in live
    ensures proc.Valid() && proc.Records(c.log)
    ensures PagesOfSpawn(c, segs) && ShowsSpawn(m.mem, c, pml4, segs, data, args)
    ensures forall n :: n in Replay(c.log) ==> OpenPage(m.mem, pml4, n)
    ensures LiveKept(old(m.mem), m.mem, live)
    ensures stackTop == PAGE * STACK_PAGE + 3 * PAGE - 8
  {
    hide Resolve, PathOf, UserPath, ShowsImage, Inv, Populated, Recorded, SegmentOk, KeptSince, Replay, NewProc,
      SameFrame, UserPage, ShowsSpawn, SegmentPage, ArgByte, LiveKept, ImageAt, OpenPage, Guarded;
    ghost var vm0 := m.State();
    pml4 := m.NewProcPml4(cr3);
    ghost var t1, live1 := SpawnRefines(vm0, t, live, m.bootKernelPdp, m.sharedKernelPdp0);
    ghost var m1 := m.mem;
    SpawnGuarded(vm0, live, m.bootKernelPdp, m.sharedKernelPdp0, t);
    ghost var c0 := Child(t1, live1, [], map[]);
    ghost var c1 := LoadImage(m, pml4, segs, data, proc, c0);
    ghost var c2 := LoadArguments(m, pml4, args, proc, c1, m1, c0);
    c := LoadStack(m, pml4, proc, c2, m1, c0);
    stackTop := PAGE * STACK_PAGE + 3 * PAGE - 8;
    SpawnShows(m.State(), pml4, c, c1, c2, segs, data, args);
    SpawnOpens(m.State(), pml4, c);
    SpawnKeeps(vm0, t, live, t1, live1, m1, m.mem, c0, c, pml4);
  }

  lemma SpawnGuarded(vm: Vm, live: set<nat>, bootPdp: nat, shared0: nat, t: Tables)
    requires Inv(vm, t, live)
    ensures Guarded(NewProc(vm, bootPdp, shared0).0.mem, {NewProc(vm, bootPdp, shared0).1})
  {
    hide NewProc, AllocatorOk, PathGuarded, LeafWord;
    forall q | UserPath(q)
      ensures PathGuarded(NewProc(vm, bootPdp, shared0).0.mem, NewProc(vm, bootPdp, shared0).1, q)
    {
      SpawnGuards(vm, live, bootPdp, shared0, q);
    }
  }

  lemma SpawnShows(vm: Vm, root: nat, c: Child, c1: Child, c2: Child, segs: seq<Segment>, data: seq<Byte>,
      args: seq<Byte>)
    requires Populated(vm, root, c)
    requires ShowsImage(c1.img, segs, data)
    requires forall v: nat :: ImageAt(c2.img, v) ==
               if v / PAGE == ARG_PAGE then ArgByte(args, v % PAGE) else ImageAt(c1.img, v)
    requires forall v: nat :: ImageAt(c.img, v) == if StackPage(v / PAGE) then 0 else ImageAt(c2.img, v)
    ensures ShowsSpawn(vm.mem, c, root, segs, data, args)
  {
    hide Expected, Populated, Replay, UserPage, Shows, ArgByte, ImageAt;
    forall v: nat | UserPage(v / PAGE)
      ensures Shows(vm.mem, c.t, root, v, v / PAGE in Replay(c.log), Spawned(segs, data, args, v))
    {
      ShowsBytes(vm, root, c, v);
      assert ImageAt(c.img, v) == Spawned(segs, data, args, v);
    }
  }

  /** The new tree lies in frames that were free, so nothing in use before was written. */
  lemma SpawnKeeps(vm: Vm, t: Tables, live: set<nat>, t1: Tables, live1: set<nat>, m1: Mem, m2: Mem, c0: Child,
      c: Child, root: nat)
    requires Inv(vm, t, live) && root !in live && Grows(t, t1, live, live1, root)
    requires forall g :: g in live ==> SameFrame(vm.mem, m1, g)
    requires c0.t == t1 && c0.live == live1 && KeptSince(m1, c0, m2, c, root)
    ensures LiveKept(vm.mem, m2, live)
  {
    hide AllocatorOk, Replay, SharedKept, LinksKept;
    forall g | g in live
      ensures SameFrame(vm.mem, m2, g)
    {
      assert g in t ==> NodeOk(t, g);
      assert SameFrame(vm.mem, m1, g) && SameFrame(m1, m2, g);
    }
  }
}
