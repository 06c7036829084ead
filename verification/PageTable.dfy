/** The frame allocator and the four-level page tables over physical memory, as functions of
    the allocator and memory state, and what every map, unmap, spawn, allocation and release
    keeps (src/vm.go, src/proc_pml4.go). */
module PageTable {
  import opened PhysMem

  const FREE_STACK_CAP: nat := 4096
  const PRESENT: nat := 1
  const WRITE: nat := 2
  const USER: nat := 4

  datatype Vm = Vm(mem: Mem, free: seq<nat>, next: nat)

  // ---- the allocator ----

  function TakenFrame(vm: Vm): nat {
    if |vm.free| > 0 then vm.free[|vm.free| - 1] else vm.next
  }

  function Alloc(vm: Vm): Vm {
    var mem := Zeroed(vm.mem, TakenFrame(vm));
    if |vm.free| > 0 then Vm(mem, vm.free[..|vm.free| - 1], vm.next) else Vm(mem, vm.free, vm.next + PAGE)
  }

  function Free(vm: Vm, f: nat): Vm {
    if f == 0 then vm
    else Vm(Zeroed(vm.mem, f), if |vm.free| < FREE_STACK_CAP then vm.free + [f] else vm.free, vm.next)
  }

  // ---- entries and walks ----

  function Entry(m: Mem, f: nat, i: nat): nat {
    Load(m, Word(f, i))
  }

  predicate IsPresent(e: nat) {
    e % 2 == 1
  }

  predicate HasUser(e: nat) {
    e / 4 % 2 == 1
  }

  predicate HasWrite(e: nat) {
    e / 2 % 2 == 1
  }

  function WithUser(e: nat): nat {
    Or(e, USER)
  }

  lemma WithUserIs(e: nat)
    ensures WithUser(e) == if HasUser(e) then e else e + USER
  {
    var b := e / 4;
    assert e / 2 / 2 == b;
    OrZero(b / 2);
    assert Or(b, 1) == 2 * (b / 2) + 1;
    assert Or(e / 2, 2) == 2 * Or(b, 1) + e / 2 % 2;
    assert Or(e, 4) == 2 * Or(e / 2, 2) + e % 2;
  }

  /** The entry with its low twelve bits cleared. */
  function FrameOf(e: nat): nat {
    e - e % PAGE
  }

  function Next(m: Mem, f: nat, i: nat): nat {
    if IsPresent(Entry(m, f, i)) then FrameOf(Entry(m, f, i)) else 0
  }

  /** Follow a list of indices from a root; 0 as soon as an entry is not present. */
  function Resolve(m: Mem, root: nat, ix: seq<nat>): nat {
    if ix == [] then root
    else
      var t := Resolve(m, root, ix[..|ix| - 1]);
      if t == 0 then 0 else Next(m, t, ix[|ix| - 1])
  }

  /** The page table that an address's first three indices lead to, level by level; the root
      itself is not checked. */
  function WalkTable(m: Mem, root: nat, p: seq<nat>): nat
    requires IsPath(p)
  {
    var pdp := Next(m, root, p[0]);
    if pdp == 0 then 0 else
    var pd := Next(m, pdp, p[1]);
    if pd == 0 then 0 else Next(m, pd, p[2])
  }

  function Walk(m: Mem, root: nat, p: seq<nat>): nat
    requires IsPath(p)
  {
    var pt := WalkTable(m, root, p);
    if pt == 0 then 0 else Next(m, pt, p[3])
  }

  /** From a root that is not 0, walking level by level is resolving the path. */
  lemma WalkIsResolve(m: Mem, root: nat, p: seq<nat>)
    requires IsPath(p) && root != 0
    ensures WalkTable(m, root, p) == Resolve(m, root, p[..3])
    ensures Walk(m, root, p) == Resolve(m, root, p)
  {
    hide Next;
    assert p[..1][..0] == [] && p[..2][..1] == p[..1] && p[..3][..2] == p[..2] && p[..|p| - 1] == p[..3];
    assert Resolve(m, root, p[..1]) == Next(m, root, p[0]);
    assert Resolve(m, root, p[..2]) == if Next(m, root, p[0]) == 0 then 0 else Next(m, Next(m, root, p[0]), p[1]);
  }

  /** The four table indices of a virtual address. */
  function PathOf(v: nat): (p: seq<nat>)
    ensures IsPath(p)
  {
    [v / 0x80_0000_0000 % 512, v / 0x4000_0000 % 512, v / 0x20_0000 % 512, v / 0x1000 % 512]
  }

  /** The page number is what the indices hold, for every canonical lower-half address. */
  lemma PathOfPage(v: nat)
    requires v < 0x1_0000_0000_0000
    ensures var p := PathOf(v);
            && v / PAGE == ((p[0] * 512 + p[1]) * 512 + p[2]) * 512 + p[3]
            && PathOf(v) == PathOf(PAGE * (v / PAGE))
  {
    var n := v / PAGE;
    assert v / 0x20_0000 == n / 512 && v / 0x4000_0000 == n / 512 / 512 && v / 0x80_0000_0000 == n / 512 / 512 / 512;
    var w := PAGE * n;
    assert w / PAGE == n;
    assert w / 0x20_0000 == n / 512 && w / 0x4000_0000 == n / 512 / 512 && w / 0x80_0000_0000 == n / 512 / 512 / 512;
  }

  predicate IsPath(p: seq<nat>) {
    |p| == 4 && InRange(p)
  }

  predicate InRange(p: seq<nat>) {
    forall k :: 0 <= k < |p| ==> p[k] < 512
  }

  /** The entries every process shares with the kernel: entries 0 and 3 of the first PDP. */
  predicate SharedSlot(prefix: seq<nat>, i: nat) {
    prefix == [0] && (i == 0 || i == 3)
  }

  /** An index list that does not pass through a shared slot. */
  predicate Private(ix: seq<nat>) {
    InRange(ix) && (|ix| >= 2 ==> !SharedSlot(ix[..1], ix[1]))
  }

  predicate UserPath(p: seq<nat>) {
    IsPath(p) && Private(p)
  }

  // ---- operations ----

  function WalkOrCreate(vm: Vm, f: nat, i: nat, user: bool): (Vm, nat) {
    var e := Entry(vm.mem, f, i);
    if IsPresent(e) then
      (if user then vm.(mem := vm.mem[Word(f, i) := WithUser(e)]) else vm, FrameOf(e))
    else
      var page := TakenFrame(vm);
      var vm1 := Alloc(vm);
      (vm1.(mem := vm1.mem[Word(f, i) := Or(page, PRESENT + WRITE + if user then USER else 0)]), page)
  }

  function StoreEntry(vm: Vm, f: nat, i: nat, e: nat): Vm {
    vm.(mem := vm.mem[Word(f, i) := e])
  }

  function MapPage(vm: Vm, root: nat, p: seq<nat>, paddr: nat, flags: nat): Vm
    requires IsPath(p)
  {
    var user := HasUser(flags);
    var (vm1, pdp) := WalkOrCreate(vm, root, p[0], user);
    var (vm2, pd) := WalkOrCreate(vm1, pdp, p[1], user);
    var (vm3, pt) := WalkOrCreate(vm2, pd, p[2], user);
    StoreEntry(vm3, pt, p[3], Or(FrameOf(paddr), flags))
  }

  function UnmapPage(vm: Vm, root: nat, p: seq<nat>): Vm
    requires IsPath(p)
  {
    var pt := WalkTable(vm.mem, root, p);
    if pt == 0 then vm else StoreEntry(vm, pt, p[3], 0)
  }

  function NewProc(vm: Vm, bootPdp: nat, shared0: nat): (Vm, nat) {
    var pml4 := TakenFrame(vm);
    var vm1 := Alloc(vm);
    var pdp := TakenFrame(vm1);
    var vm2 := Alloc(vm1);
    var vm3 := StoreEntry(StoreEntry(vm2, pml4, 0, Or(pdp, PRESENT + WRITE + USER)), pdp, 0, shared0);
    var e := Entry(vm3.mem, bootPdp, 3);
    (if IsPresent(e) then StoreEntry(vm3, pdp, 3, e) else vm3, pml4)
  }

  // ---- the invariant ----

  /** Which table a frame is: the tree it belongs to and the indices that lead to it. */
  datatype Node = Node(root: nat, prefix: seq<nat>)

  type Tables = map<nat, Node>

  ghost predicate IsFrame(vm: Vm, f: nat) {
    Aligned(f) && 0 < f && f + PAGE <= vm.next
  }

  /** The free stack is duplicate-free and disjoint from every frame in use. */
  ghost predicate AllocatorOk(vm: Vm, live: set<nat>) {
    && Aligned(vm.next) && 0 < vm.next
    && |vm.free| <= FREE_STACK_CAP
    && (forall k :: 0 <= k < |vm.free| ==> IsFrame(vm, vm.free[k]) && vm.free[k] !in live)
    && (forall j, k :: 0 <= j < k < |vm.free| ==> vm.free[j] != vm.free[k])
    && (forall f :: f in live ==> IsFrame(vm, f))
  }

  ghost predicate NodeOk(t: Tables, f: nat) {
    && f in t && |t[f].prefix| <= 3 && Private(t[f].prefix) && (t[f].prefix == [] ==> t[f].root == f)
    && IsRoot(t, t[f].root)
  }

  /** A present private entry of a table leads to the table recorded for that slot. */
  ghost predicate LinkOk(m: Mem, t: Tables, f: nat, i: nat) {
    f in t && |t[f].prefix| < 3 && !SharedSlot(t[f].prefix, i) && IsPresent(Entry(m, f, i)) ==>
      FrameOf(Entry(m, f, i)) in t && t[FrameOf(Entry(m, f, i))] == Node(t[f].root, t[f].prefix + [i])
  }

  ghost predicate TablesOk(m: Mem, t: Tables) {
    && (forall f :: f in t ==> NodeOk(t, f))
    && (forall f, i :: f in t && i < 512 ==> LinkOk(m, t, f, i))
  }

  ghost predicate Inv(vm: Vm, t: Tables, live: set<nat>) {
    && AllocatorOk(vm, live)
    && TablesOk(vm.mem, t)
    && (forall f :: f in t ==> f in live)
  }

  ghost predicate IsRoot(t: Tables, r: nat) {
    r in t && t[r] == Node(r, [])
  }

  // ---- what may change ----

  ghost predicate SameFrame(m: Mem, m': Mem, g: nat) {
    forall i :: 0 <= i < 512 ==> Entry(m', g, i) == Entry(m, g, i)
  }

  /** Every frame in use that is not a table of the given tree keeps all its words; the shared
      kernel entries of every tree stay as they are, and its tables stay linked. */
  ghost predicate OthersKept(m: Mem, m': Mem, t: Tables, live: set<nat>, root: nat) {
    && (forall g :: g in live && (g in t ==> t[g].root != root) ==> SameFrame(m, m', g))
    && SharedKept(m, m', t) && LinksKept(m, m', t)
  }

  ghost predicate SharedKept(m: Mem, m': Mem, t: Tables) {
    forall g, i :: g in t && SharedSlot(t[g].prefix, i) ==> Entry(m', g, i) == Entry(m, g, i)
  }

  /** An entry that still leads to the same table and lets through whatever it did. */
  predicate LeadsOn(e: nat, e': nat) {
    && IsPresent(e') && FrameOf(e') == FrameOf(e)
    && (HasUser(e) ==> HasUser(e')) && (HasWrite(e) ==> HasWrite(e'))
  }

  /** A link between two tables, once made, leads to the same table and loses no permission. */
  ghost predicate LinkKept(m: Mem, m': Mem, t: Tables, f: nat, i: nat) {
    f in t && |t[f].prefix| < 3 && !SharedSlot(t[f].prefix, i) && IsPresent(Entry(m, f, i)) ==>
      LeadsOn(Entry(m, f, i), Entry(m', f, i))
  }

  ghost predicate LinksKept(m: Mem, m': Mem, t: Tables) {
    forall f, i :: f in t && i < 512 ==> LinkKept(m, m', t, f, i)
  }

  /** Tables are only added, in frames that were not in use, and only to one tree. */
  ghost predicate Grows(t: Tables, t': Tables, live: set<nat>, live': set<nat>, root: nat) {
    && (forall f :: f in t ==> f in t' && t'[f] == t[f])
    && (forall f :: f in t' && f !in t ==> f !in live && t'[f].root == root)
    && (forall f :: f in live ==> f in live')
  }

  ghost predicate SameWalks(m: Mem, m': Mem, t: Tables) {
    forall r, q :: IsRoot(t, r) && UserPath(q) ==> Resolve(m', r, q) == Resolve(m, r, q)
  }

  ghost predicate WalksUpdated(m: Mem, m': Mem, t: Tables, root: nat, p: seq<nat>, v: nat) {
    forall r, q :: IsRoot(t, r) && UserPath(q) ==>
      Resolve(m', r, q) == if r == root && q == p then v else Resolve(m, r, q)
  }

  // ---- the allocator's promises ----

  /** The frame handed out was not in use, is zeroed, and taking it disturbs no other frame. */
  lemma AllocFresh(vm: Vm, live: set<nat>)
    requires AllocatorOk(vm, live)
    ensures var f := TakenFrame(vm);
            var vm' := Alloc(vm);
            && f !in live && IsFrame(vm', f) && AllocatorOk(vm', live + {f})
            && (forall i :: 0 <= i < 512 ==> Entry(vm'.mem, f, i) == 0)
            && (forall g :: Aligned(g) && g != f ==> SameFrame(vm.mem, vm'.mem, g))
  {
    var f := TakenFrame(vm);
    var vm' := Alloc(vm);
    forall g, i | Aligned(g) && 0 <= i < 512
      ensures Entry(vm'.mem, g, i) == if g == f then 0 else Entry(vm.mem, g, i)
    {
      ZeroedWords(vm.mem, f, g, i);
    }
  }

  /** Releasing a frame in use puts it back at most once; other frames keep their words. */
  lemma FreeKeeps(vm: Vm, live: set<nat>, f: nat)
    requires AllocatorOk(vm, live) && f in live
    ensures AllocatorOk(Free(vm, f), live - {f})
    ensures forall g :: Aligned(g) && g != f ==> SameFrame(vm.mem, Free(vm, f).mem, g)
  {
    forall g, i | Aligned(g) && g != f && 0 <= i < 512
      ensures Entry(Free(vm, f).mem, g, i) == Entry(vm.mem, g, i)
    {
      ZeroedWords(vm.mem, f, g, i);
    }
  }

  /** What is released is what is handed out next, last in first out, and taking it again leaves the
      allocator as it was; with nothing released the next frame is the one behind the last. */
  lemma ReleasedIsReused(vm: Vm, f: nat)
    requires f != 0
    ensures |vm.free| < 4096 ==>
              && TakenFrame(Free(vm, f)) == f
              && Alloc(Free(vm, f)).free == vm.free && Alloc(Free(vm, f)).next == vm.next
    ensures vm.free == [] ==> TakenFrame(vm) == vm.next && Alloc(vm).next == vm.next + 4096
    ensures |vm.free| > 0 ==> Alloc(vm).next == vm.next && TakenFrame(vm) in vm.free
  {
    hide Zeroed;
  }

  // ---- walks stay inside a tree ----

  lemma PrivatePrefix(ix: seq<nat>)
    requires Private(ix) && ix != []
    ensures Private(ix[..|ix| - 1])
    ensures !SharedSlot(ix[..|ix| - 1], ix[|ix| - 1])
  {
    var s := ix[..|ix| - 1];
    if |s| >= 2 {
      assert s[..1] == ix[..1];
    }
  }

  lemma {:induction false} StaysInTree(m: Mem, t: Tables, r: nat, ix: seq<nat>)
    requires TablesOk(m, t) && IsRoot(t, r) && Private(ix) && |ix| <= 3
    ensures Resolve(m, r, ix) != 0 ==> Resolve(m, r, ix) in t && t[Resolve(m, r, ix)] == Node(r, ix)
  {
    hide IsPresent, FrameOf;
    if ix != [] {
      PrivatePrefix(ix);
      var s := ix[..|ix| - 1];
      StaysInTree(m, t, r, s);
      var f := Resolve(m, r, s);
      if f != 0 {
        assert LinkOk(m, t, f, ix[|ix| - 1]);
        assert s + [ix[|ix| - 1]] == ix;
      }
    }
  }

  /** Trees whose frames are unchanged resolve the same way. */
  lemma {:induction false} SameTreeSameWalk(m: Mem, m': Mem, t: Tables, r: nat, ix: seq<nat>)
    requires TablesOk(m, t) && IsRoot(t, r) && Private(ix) && |ix| <= 4
    requires forall g :: g in t && t[g].root == r ==> SameFrame(m, m', g)
    ensures Resolve(m', r, ix) == Resolve(m, r, ix)
  {
    if ix != [] {
      PrivatePrefix(ix);
      var s := ix[..|ix| - 1];
      SameTreeSameWalk(m, m', t, r, s);
      StaysInTree(m, t, r, s);
    }
  }

  // ---- one level of walkOrCreate ----

  ghost function TablesAfter(vm: Vm, t: Tables, f: nat, i: nat): Tables
    requires f in t
  {
    if IsPresent(Entry(vm.mem, f, i)) then t else t[TakenFrame(vm) := Node(t[f].root, t[f].prefix + [i])]
  }

  ghost function LiveAfter(vm: Vm, live: set<nat>, f: nat, i: nat): set<nat> {
    if IsPresent(Entry(vm.mem, f, i)) then live else live + {TakenFrame(vm)}
  }

  lemma WithUserFrame(e: nat)
    ensures FrameOf(WithUser(e)) == FrameOf(e) && IsPresent(WithUser(e)) == IsPresent(e)
    ensures HasUser(WithUser(e)) && HasWrite(WithUser(e)) == HasWrite(e)
  {
    WithUserIs(e);
    if !HasUser(e) {
      UserBitClear(e);
      SameParity(2, e);
      FourMore(e);
      var q, r := e / PAGE, e % PAGE;
      hide HasUser, HasWrite, IsPresent;
      ModPage(e + 4, q, r + 4);
    }
  }

  lemma FourMore(e: nat)
    requires !HasUser(e)
    ensures HasUser(e + 4) && HasWrite(e + 4) == HasWrite(e)
  {
    assert (e + 4) / 4 == e / 4 + 1 && (e + 4) / 2 == e / 2 + 2;
  }

  /** Or-ing bits into an aligned address sets exactly those bits. */
  lemma OrBits(f: nat, flags: nat)
    requires Aligned(f)
    ensures var e := Or(f, flags);
            IsPresent(e) == IsPresent(flags) && HasWrite(e) == HasWrite(flags) && HasUser(e) == HasUser(flags)
  {
    var q := f / PAGE;
    assert f == 2 * (2048 * q) && f / 2 == 2 * (1024 * q) && f / 4 == 2 * (512 * q) && f / 2 / 2 == f / 4;
    assert flags / 2 / 2 == flags / 4;
    OrHalves(f, flags);
    OrHalves(f / 2, flags / 2);
    OrHalves(f / 4, flags / 4);
    assert Or(f, flags) / 2 / 2 == Or(f, flags) / 4;
  }

  lemma OrHalves(a: nat, b: nat)
    ensures Or(a, b) % 2 == (if a % 2 == 1 || b % 2 == 1 then 1 else 0) && Or(a, b) / 2 == Or(a / 2, b / 2)
  {
  }

  lemma UserBitClear(e: nat)
    requires !HasUser(e)
    ensures e % PAGE + 4 < PAGE
  {
    var k := e / 8;
    assert e % 8 < 4;
    assert e % PAGE == 8 * (k % 512) + e % 8;
  }

  lemma ModPage(x: nat, q: nat, r: nat)
    requires x == PAGE * q + r && r < PAGE
    ensures x % PAGE == r
  {
  }

  /** An aligned frame and flag bits below it come apart again. */
  lemma LinkFrame(f: nat, low: nat)
    requires Aligned(f) && low < PAGE
    ensures Or(f, low) == f + low
    ensures FrameOf(f + low) == f && IsPresent(f + low) == IsPresent(low)
  {
    OrFlags(f, low);
    var q := f / PAGE;
    ModPage(f + low, q, low);
    SameParity(2048 * q, low);
  }

  lemma SameParity(a: nat, low: nat)
    ensures IsPresent(2 * a + low) == IsPresent(low)
  {
  }

  /** What one step of walkOrCreate does to the entries of every frame. */
  lemma CreateEntries(vm: Vm, live: set<nat>, f: nat, i: nat, user: bool)
    requires AllocatorOk(vm, live) && f in live && i < 512
    ensures var (vm', n) := WalkOrCreate(vm, f, i, user);
            && n == (if IsPresent(Entry(vm.mem, f, i)) then FrameOf(Entry(vm.mem, f, i)) else TakenFrame(vm))
            && IsPresent(Entry(vm'.mem, f, i)) && FrameOf(Entry(vm'.mem, f, i)) == n
            && (user ==> HasUser(Entry(vm'.mem, f, i)))
            && (if IsPresent(Entry(vm.mem, f, i)) then LeadsOn(Entry(vm.mem, f, i), Entry(vm'.mem, f, i))
                else HasWrite(Entry(vm'.mem, f, i)))
            && AllocatorOk(vm', LiveAfter(vm, live, f, i))
            && (forall g, j :: Aligned(g) && 0 <= j < 512 && (g != f || j != i) ==>
                  Entry(vm'.mem, g, j) ==
                  if g == TakenFrame(vm) && !IsPresent(Entry(vm.mem, f, i)) then 0 else Entry(vm.mem, g, j))
  {
    hide Or, WithUser, Zeroed;
    var (vm', n) := WalkOrCreate(vm, f, i, user);
    var e := Entry(vm.mem, f, i);
    AllocFresh(vm, live);
    forall g, j | Aligned(g) && 0 <= j < 512
      ensures Entry(vm'.mem, g, j) ==
              if g == f && j == i then Load(vm'.mem, Word(f, i))
              else if g == TakenFrame(vm) && !IsPresent(e) then 0 else Entry(vm.mem, g, j)
    {
      WordsDistinct(f, i, g, j);
      var m1 := if IsPresent(e) then vm.mem else Alloc(vm).mem;
      assert (g == f && j == i) || Entry(vm'.mem, g, j) == Entry(m1, g, j);
    }
    WithUserFrame(e);
    LinkFrame(TakenFrame(vm), 3);
    LinkFrame(TakenFrame(vm), 7);
    OrBits(TakenFrame(vm), 3);
    OrBits(TakenFrame(vm), 7);
  }

  /** walkOrCreate links a fresh empty table at most, so it changes no translation anywhere. */
  lemma CreateKeeps(vm: Vm, t: Tables, live: set<nat>, f: nat, i: nat, user: bool)
    requires Inv(vm, t, live) && f in t && |t[f].prefix| < 3 && i < 512 && !SharedSlot(t[f].prefix, i)
    ensures var (vm', n) := WalkOrCreate(vm, f, i, user);
            var t' := TablesAfter(vm, t, f, i);
            var live' := LiveAfter(vm, live, f, i);
            && Inv(vm', t', live')
            && n in t' && t'[n] == Node(t[f].root, t[f].prefix + [i])
            && Grows(t, t', live, live', t[f].root)
            && OthersKept(vm.mem, vm'.mem, t, live, t[f].root)
            && SameWalks(vm.mem, vm'.mem, t)
  {
    hide AllocatorOk, Resolve, WalkOrCreate, Alloc;
    var (vm', n) := WalkOrCreate(vm, f, i, user);
    var t' := TablesAfter(vm, t, f, i);
    var live' := LiveAfter(vm, live, f, i);
    CreateShape(vm, t, live, f, i, user);
    CreateEntries(vm, live, f, i, user);
    CreateTables(vm, t, live, f, i, user);
    LiveFrames(vm, live);
    forall g | g in live && (g in t ==> t[g].root != t[f].root)
      ensures SameFrame(vm.mem, vm'.mem, g)
    {
    }
    forall g, j | g in t && j < 512
      ensures LinkKept(vm.mem, vm'.mem, t, g, j)
    {
    }
    forall r, q | IsRoot(t, r) && UserPath(q)
      ensures Resolve(vm'.mem, r, q) == Resolve(vm.mem, r, q)
    {
      CreateWalk(vm, t, live, f, i, user, r, q);
    }
  }

  lemma LiveFrames(vm: Vm, live: set<nat>)
    requires AllocatorOk(vm, live)
    ensures forall f :: f in live ==> Aligned(f) && f != 0 && f != TakenFrame(vm)
    ensures Aligned(TakenFrame(vm)) && TakenFrame(vm) != 0
  {
  }

  lemma CreateShape(vm: Vm, t: Tables, live: set<nat>, f: nat, i: nat, user: bool)
    requires Inv(vm, t, live) && f in t && |t[f].prefix| < 3 && i < 512 && !SharedSlot(t[f].prefix, i)
    ensures var n := WalkOrCreate(vm, f, i, user).1;
            var t' := TablesAfter(vm, t, f, i);
            n in t' && t'[n] == Node(t[f].root, t[f].prefix + [i])
  {
    assert LinkOk(vm.mem, t, f, i);
  }

  lemma CreateTables(vm: Vm, t: Tables, live: set<nat>, f: nat, i: nat, user: bool)
    requires Inv(vm, t, live) && f in t && |t[f].prefix| < 3 && i < 512 && !SharedSlot(t[f].prefix, i)
    ensures TablesOk(WalkOrCreate(vm, f, i, user).0.mem, TablesAfter(vm, t, f, i))
  {
    hide WalkOrCreate, Alloc, AllocatorOk;
    var vm' := WalkOrCreate(vm, f, i, user).0;
    var t' := TablesAfter(vm, t, f, i);
    CreateShape(vm, t, live, f, i, user);
    CreateEntries(vm, live, f, i, user);
    LiveFrames(vm, live);
    forall g | g in t'
      ensures NodeOk(t', g)
    {
      if g in t {
        assert NodeOk(t, g);
      } else {
        ExtendPrivate(t[f].prefix, i);
      }
    }
    forall g, j | g in t' && j < 512
      ensures LinkOk(vm'.mem, t', g, j)
    {
      if g in t {
        assert LinkOk(vm.mem, t, g, j);
      }
    }
  }

  lemma ExtendPrivate(s: seq<nat>, i: nat)
    requires Private(s) && i < 512 && !SharedSlot(s, i)
    ensures Private(s + [i])
  {
    var ix := s + [i];
    if |ix| >= 2 {
      assert ix[..1] == if |s| == 1 then s else s[..1];
    }
  }

  /** Along any path, a step of walkOrCreate only turns a missing table into the new empty one. */
  lemma {:induction false} CreateResolve(vm: Vm, t: Tables, live: set<nat>, f: nat, i: nat, user: bool,
      r: nat, ix: seq<nat>)
    requires Inv(vm, t, live) && f in t && |t[f].prefix| < 3 && i < 512 && !SharedSlot(t[f].prefix, i)
    requires IsRoot(t, r) && Private(ix) && |ix| <= 4
    ensures var m' := WalkOrCreate(vm, f, i, user).0.mem;
            || Resolve(m', r, ix) == Resolve(vm.mem, r, ix)
            || (Resolve(vm.mem, r, ix) == 0 && Resolve(m', r, ix) == TakenFrame(vm) && |ix| <= 3
                && !IsPresent(Entry(vm.mem, f, i)))
  {
    hide WalkOrCreate, Alloc, AllocatorOk;
    if ix != [] {
      var s, last := ix[..|ix| - 1], ix[|ix| - 1];
      PrivatePrefix(ix);
      CreateResolve(vm, t, live, f, i, user, r, s);
      StaysInTree(vm.mem, t, r, s);
      CreateEntries(vm, live, f, i, user);
      CreateShape(vm, t, live, f, i, user);
      LiveFrames(vm, live);
      assert LinkOk(vm.mem, t, f, i);
    }
  }

  lemma CreateWalk(vm: Vm, t: Tables, live: set<nat>, f: nat, i: nat, user: bool, r: nat, q: seq<nat>)
    requires Inv(vm, t, live) && f in t && |t[f].prefix| < 3 && i < 512 && !SharedSlot(t[f].prefix, i)
    requires IsRoot(t, r) && UserPath(q)
    ensures Resolve(WalkOrCreate(vm, f, i, user).0.mem, r, q) == Resolve(vm.mem, r, q)
  {
    CreateResolve(vm, t, live, f, i, user, r, q);
  }
}
