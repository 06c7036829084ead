/** Many process trees over one memory: mapping, unmapping, spawning, allocating and releasing
    refine a plain page map per process, and no operation on one process reaches another
    (src/vm.go:283-351, src/proc_pml4.go:74-92). */
module AddressSpaces {
  import opened PhysMem
  import opened PageTable

  /** The table just linked is where the walk now leads. */
  lemma CreateReach(vm: Vm, t: Tables, live: set<nat>, f: nat, i: nat, user: bool, r: nat)
    requires Inv(vm, t, live) && f in t && |t[f].prefix| < 3 && i < 512 && !SharedSlot(t[f].prefix, i)
    requires IsRoot(t, r) && Resolve(vm.mem, r, t[f].prefix) == f
    ensures var (vm', n) := WalkOrCreate(vm, f, i, user);
            Resolve(vm'.mem, r, t[f].prefix + [i]) == n
  {
    hide WalkOrCreate, Alloc, AllocatorOk;
    var (vm', n) := WalkOrCreate(vm, f, i, user);
    var s := t[f].prefix;
    assert NodeOk(t, f);
    LiveFrames(vm, live);
    CreateResolve(vm, t, live, f, i, user, r, s);
    CreateEntries(vm, live, f, i, user);
    assert (s + [i])[..|s|] == s;
  }

  // ---- the leaf entry ----

  lemma {:induction false} LeafResolve(m: Mem, t: Tables, f: nat, i: nat, e: nat, r: nat, ix: seq<nat>)
    requires TablesOk(m, t) && f in t && |t[f].prefix| == 3 && i < 512
    requires forall g :: g in t ==> Aligned(g)
    requires IsRoot(t, r) && Private(ix) && |ix| <= 3
    ensures Resolve(m[Word(f, i) := e], r, ix) == Resolve(m, r, ix)
  {
    if ix != [] {
      var s, last := ix[..|ix| - 1], ix[|ix| - 1];
      PrivatePrefix(ix);
      LeafResolve(m, t, f, i, e, r, s);
      StaysInTree(m, t, r, s);
      var g := Resolve(m, r, s);
      if g != 0 {
        StoredWords(m, f, i, e, g, last);
      }
    }
  }

  /** Storing a leaf entry changes the translation of its page and of no other page of any tree. */
  lemma LeafStore(vm: Vm, t: Tables, live: set<nat>, f: nat, root: nat, p: seq<nat>, e: nat)
    requires Inv(vm, t, live) && IsRoot(t, root) && UserPath(p)
    requires f != 0 && Resolve(vm.mem, root, p[..3]) == f
    ensures var vm' := StoreEntry(vm, f, p[3], e);
            && Inv(vm', t, live)
            && OthersKept(vm.mem, vm'.mem, t, live, root)
            && WalksUpdated(vm.mem, vm'.mem, t, root, p, if IsPresent(e) then FrameOf(e) else 0)
  {
    var vm' := StoreEntry(vm, f, p[3], e);
    PrivatePrefix(p);
    StaysInTree(vm.mem, t, root, p[..3]);
    forall g, j | g in live && 0 <= j < 512 && (g != f || j != p[3])
      ensures Entry(vm'.mem, g, j) == Entry(vm.mem, g, j)
    {
      StoredWords(vm.mem, f, p[3], e, g, j);
    }
    forall g, j | g in t && j < 512
      ensures LinkOk(vm'.mem, t, g, j) && LinkKept(vm.mem, vm'.mem, t, g, j)
    {
      assert LinkOk(vm.mem, t, g, j);
    }
    forall r, q | IsRoot(t, r) && UserPath(q)
      ensures Resolve(vm'.mem, r, q) ==
              if r == root && q == p then (if IsPresent(e) then FrameOf(e) else 0) else Resolve(vm.mem, r, q)
    {
      PrivatePrefix(q);
      LeafResolve(vm.mem, t, f, p[3], e, r, q[..3]);
      StaysInTree(vm.mem, t, r, q[..3]);
      assert q == q[..3] + [q[3]] && p == p[..3] + [p[3]];
    }
  }

  // ---- mapPageInto and unmapPageFrom ----

  /** What a leaf entry made of an address and flags translates to. */
  function Target(paddr: nat, flags: nat): nat {
    if IsPresent(flags) then FrameOf(Or(FrameOf(paddr), flags)) else 0
  }

  lemma LeafEntry(paddr: nat, flags: nat)
    ensures IsPresent(Or(FrameOf(paddr), flags)) == IsPresent(flags)
  {
    hide Or, IsPresent, HasUser, HasWrite;
    ModPage(FrameOf(paddr), paddr / PAGE, 0);
    OrBits(FrameOf(paddr), flags);
  }

  /** With nothing but flag bits in the flags the translation is the frame itself. */
  lemma PlainFlags(paddr: nat, flags: nat)
    requires flags < PAGE
    ensures Target(paddr, flags) == if IsPresent(flags) then FrameOf(paddr) else 0
  {
    ModPage(FrameOf(paddr), paddr / PAGE, 0);
    LinkFrame(FrameOf(paddr), flags);
  }

  lemma ThreeLevels(vm: Vm, t: Tables, live: set<nat>, root: nat, p: seq<nat>, user: bool)
    returns (vm3: Vm, pt: nat, t': Tables, live': set<nat>)
    requires Inv(vm, t, live) && IsRoot(t, root) && UserPath(p)
    ensures var (vm1, pdp) := WalkOrCreate(vm, root, p[0], user);
            var (vm2, pd) := WalkOrCreate(vm1, pdp, p[1], user);
            (vm3, pt) == WalkOrCreate(vm2, pd, p[2], user)
    ensures Inv(vm3, t', live') && Grows(t, t', live, live', root)
    ensures OthersKept(vm.mem, vm3.mem, t, live, root) && SameWalks(vm.mem, vm3.mem, t)
    ensures pt != 0 && Resolve(vm3.mem, root, p[..3]) == pt
  {
    hide WalkOrCreate, Inv, Grows, OthersKept, SameWalks, TablesAfter, LiveAfter;
    assert p[..1] == [] + [p[0]] && p[..2] == p[..1] + [p[1]] && p[..3] == p[..2] + [p[2]];
    assert t[root].prefix == [];
    var (vm1, pdp) := WalkOrCreate(vm, root, p[0], user);
    var t1, live1 := TablesAfter(vm, t, root, p[0]), LiveAfter(vm, live, root, p[0]);
    CreateKeeps(vm, t, live, root, p[0], user);
    CreateReach(vm, t, live, root, p[0], user, root);
    GrowsRoot(t, t1, live, live1, root);
    var (vm2, pd) := WalkOrCreate(vm1, pdp, p[1], user);
    var t2, live2 := TablesAfter(vm1, t1, pdp, p[1]), LiveAfter(vm1, live1, pdp, p[1]);
    CreateKeeps(vm1, t1, live1, pdp, p[1], user);
    CreateReach(vm1, t1, live1, pdp, p[1], user, root);
    GrowsRoot(t1, t2, live1, live2, root);
    vm3, pt := WalkOrCreate(vm2, pd, p[2], user).0, WalkOrCreate(vm2, pd, p[2], user).1;
    t', live' := TablesAfter(vm2, t2, pd, p[2]), LiveAfter(vm2, live2, pd, p[2]);
    assert !SharedSlot(p[..2], p[2]);
    CreateKeeps(vm2, t2, live2, pd, p[2], user);
    CreateReach(vm2, t2, live2, pd, p[2], user, root);
    Chain(vm.mem, vm1.mem, vm2.mem, t, t1, t2, live, live1, live2, root);
    Chain(vm.mem, vm2.mem, vm3.mem, t, t2, t', live, live2, live', root);
    TableFrames(vm3, t', live');
  }

  lemma GrowsRoot(t: Tables, t': Tables, live: set<nat>, live': set<nat>, root: nat)
    requires Grows(t, t', live, live', root) && IsRoot(t, root)
    ensures IsRoot(t', root)
  {
  }

  lemma TableFrames(vm: Vm, t: Tables, live: set<nat>)
    requires Inv(vm, t, live)
    ensures forall f :: f in t ==> f != 0 && Aligned(f)
  {
  }

  lemma LinksChain(m: Mem, m1: Mem, m2: Mem, t: Tables, t1: Tables)
    requires LinksKept(m, m1, t) && LinksKept(m1, m2, t1)
    requires forall f :: f in t ==> f in t1 && t1[f] == t[f]
    ensures LinksKept(m, m2, t)
  {
    hide IsPresent, FrameOf, Entry;
    forall f, i | f in t && i < 512
      ensures LinkKept(m, m2, t, f, i)
    {
      assert LinkKept(m, m1, t, f, i) && LinkKept(m1, m2, t1, f, i);
    }
  }

  /** Two changes that each keep everything but one tree keep everything but that tree. */
  lemma Chain(m: Mem, m1: Mem, m2: Mem, t: Tables, t1: Tables, t2: Tables,
      live: set<nat>, live1: set<nat>, live2: set<nat>, root: nat)
    requires Grows(t, t1, live, live1, root) && Grows(t1, t2, live1, live2, root)
    requires OthersKept(m, m1, t, live, root) && OthersKept(m1, m2, t1, live1, root)
    ensures Grows(t, t2, live, live2, root) && OthersKept(m, m2, t, live, root)
    ensures SameWalks(m, m1, t) && SameWalks(m1, m2, t1) ==> SameWalks(m, m2, t)
  {
    forall g | g in live && (g in t ==> t[g].root != root)
      ensures SameFrame(m, m2, g)
    {
      assert SameFrame(m, m1, g) && SameFrame(m1, m2, g);
    }
    LinksChain(m, m1, m2, t, t1);
    if SameWalks(m, m1, t) && SameWalks(m1, m2, t1) {
      forall r, q | IsRoot(t, r) && UserPath(q)
        ensures Resolve(m2, r, q) == Resolve(m, r, q)
      {
        assert IsRoot(t1, r);
        assert Resolve(m1, r, q) == Resolve(m, r, q);
      }
    }
  }

  /** mapPageInto makes its page translate to exactly the given frame, or to nothing when the
      flags say not present, and changes no other page of any process, no frame of another process
      and no kernel or data frame. */
  lemma MapRefines(vm: Vm, t: Tables, live: set<nat>, root: nat, p: seq<nat>, paddr: nat, flags: nat)
    returns (t': Tables, live': set<nat>)
    requires Inv(vm, t, live) && IsRoot(t, root) && UserPath(p)
    ensures var vm' := MapPage(vm, root, p, paddr, flags);
            && Inv(vm', t', live') && Grows(t, t', live, live', root)
            && OthersKept(vm.mem, vm'.mem, t, live, root)
            && WalksUpdated(vm.mem, vm'.mem, t, root, p, Target(paddr, flags))
  {
    hide WalkOrCreate, Inv, Grows, OthersKept, SameWalks, WalksUpdated;
    var vm' := MapPage(vm, root, p, paddr, flags);
    var vm3, pt;
    vm3, pt, t', live' := ThreeLevels(vm, t, live, root, p, HasUser(flags));
    assert vm' == StoreEntry(vm3, pt, p[3], Or(FrameOf(paddr), flags));
    GrowsRoot(t, t', live, live', root);
    LeafStore(vm3, t', live', pt, root, p, Or(FrameOf(paddr), flags));
    LeafEntry(paddr, flags);
    GrowsRefl(t', live', root);
    Chain(vm.mem, vm3.mem, vm'.mem, t, t', t', live, live', live', root);
    UpdatedAfter(vm.mem, vm3.mem, vm'.mem, t, t', live, live', root, p, Target(paddr, flags));
  }

  lemma GrowsRefl(t: Tables, live: set<nat>, root: nat)
    ensures Grows(t, t, live, live, root)
  {
  }

  lemma UpdatedAfter(m: Mem, m1: Mem, m2: Mem, t: Tables, t1: Tables, live: set<nat>, live1: set<nat>,
      root: nat, p: seq<nat>, v: nat)
    requires Grows(t, t1, live, live1, root) && SameWalks(m, m1, t) && WalksUpdated(m1, m2, t1, root, p, v)
    ensures WalksUpdated(m, m2, t, root, p, v)
  {
    forall r, q | IsRoot(t, r) && UserPath(q)
      ensures Resolve(m2, r, q) == if r == root && q == p then v else Resolve(m, r, q)
    {
      assert IsRoot(t1, r);
      assert Resolve(m1, r, q) == Resolve(m, r, q);
    }
  }

  /** unmapPageFrom makes its page translate to 0 and changes nothing else. */
  lemma UnmapRefines(vm: Vm, t: Tables, live: set<nat>, root: nat, p: seq<nat>)
    requires Inv(vm, t, live) && IsRoot(t, root) && UserPath(p)
    ensures var vm' := UnmapPage(vm, root, p);
            && Inv(vm', t, live)
            && OthersKept(vm.mem, vm'.mem, t, live, root)
            && WalksUpdated(vm.mem, vm'.mem, t, root, p, 0)
  {
    TableFrames(vm, t, live);
    WalkIsResolve(vm.mem, root, p);
    var f := Resolve(vm.mem, root, p[..3]);
    assert p[..|p| - 1] == p[..3];
    if f != 0 {
      LeafStore(vm, t, live, f, root, p, 0);
    }
  }

  // ---- newProcPML4 ----

  /** The first PDP of a process holds the kernel's entry 0 and, for a boot PDP in use, its
      entry 3 if that is present. */
  ghost predicate KernelEntries(m: Mem, pdp: nat, shared0: nat, inUse: bool, entry3: nat) {
    && Entry(m, pdp, 0) == shared0
    && (inUse ==> Entry(m, pdp, 3) == if IsPresent(entry3) then entry3 else 0)
  }

  /** The two tables of a process just made: the root, and the PDP its entry 0 leads to. */
  ghost predicate NewProcess(vm: Vm, m: Mem, t: Tables) {
    var root, pdp := TakenFrame(vm), TakenFrame(Alloc(vm));
    && IsRoot(t, root) && pdp in t && t[pdp] == Node(root, [0])
    && IsPresent(Entry(m, root, 0)) && FrameOf(Entry(m, root, 0)) == pdp
  }

  /** A new process starts with the kernel's entries and no user page, in frames nobody used, and
      disturbs no other tree. */
  lemma SpawnRefines(vm: Vm, t: Tables, live: set<nat>, bootPdp: nat, shared0: nat)
    returns (t': Tables, live': set<nat>)
    requires Inv(vm, t, live)
    ensures var (vm', root) := NewProc(vm, bootPdp, shared0);
            && root !in live
            && Inv(vm', t', live') && Grows(t, t', live, live', root) && IsRoot(t', root)
            && (forall g :: g in live ==> SameFrame(vm.mem, vm'.mem, g))
            && (forall q :: UserPath(q) ==> Resolve(vm'.mem, root, q) == 0)
            && NewProcess(vm, vm'.mem, t')
            && KernelEntries(vm'.mem, TakenFrame(Alloc(vm)), shared0, bootPdp in live, Entry(vm.mem, bootPdp, 3))
  {
    hide AllocatorOk, NewProc, Alloc, TakenFrame, TablesOk, SameFrame, Resolve, IsPresent, FrameOf;
    var (vm', pml4) := NewProc(vm, bootPdp, shared0);
    var pdp := TakenFrame(Alloc(vm));
    SpawnFrames(vm, live, bootPdp, shared0);
    SpawnShares(vm, live, bootPdp, shared0);
    SpawnRoot(vm, bootPdp, shared0);
    live' := live + {pml4} + {pdp};
    t' := t[pml4 := Node(pml4, [])][pdp := Node(pml4, [0])];
    SpawnTables(vm', t, t', live, pml4, pdp, vm.mem);
    forall q | UserPath(q)
      ensures Resolve(vm'.mem, pml4, q) == 0
    {
      SpawnWalk(vm'.mem, pml4, pdp, q);
    }
  }

  lemma SameAllocator(vm: Vm, vm': Vm, live: set<nat>)
    requires AllocatorOk(vm, live) && vm'.free == vm.free && vm'.next == vm.next
    ensures AllocatorOk(vm', live)
  {
  }

  /** The entries of the two fresh tables, and of every other frame. */
  ghost predicate SpawnedEntries(m: Mem, m': Mem, live: set<nat>, pml4: nat, pdp: nat) {
    && pml4 !in live && pdp !in live && pml4 != pdp && pml4 != 0 && pdp != 0
    && (forall i :: 0 < i < 512 ==> Entry(m', pml4, i) == 0)
    && IsPresent(Entry(m', pml4, 0)) && FrameOf(Entry(m', pml4, 0)) == pdp
    && HasWrite(Entry(m', pml4, 0)) && HasUser(Entry(m', pml4, 0))
    && (forall i :: 0 <= i < 512 && i != 0 && i != 3 ==> Entry(m', pdp, i) == 0)
    && (forall g :: g in live ==> SameFrame(m, m', g))
  }

  lemma SpawnShares(vm: Vm, live: set<nat>, bootPdp: nat, shared0: nat)
    requires AllocatorOk(vm, live)
    ensures KernelEntries(NewProc(vm, bootPdp, shared0).0.mem, TakenFrame(Alloc(vm)), shared0,
                          bootPdp in live, Entry(vm.mem, bootPdp, 3))
  {
    hide AllocatorOk, Alloc, TakenFrame, Or;
    var vm1 := Alloc(vm);
    var pml4, pdp := TakenFrame(vm), TakenFrame(vm1);
    var vm2 := Alloc(vm1);
    AllocFresh(vm, live);
    LiveFrames(vm, live);
    AllocFresh(vm1, live + {pml4});
    LiveFrames(vm1, live + {pml4});
    StoredWords(vm2.mem, pml4, 0, Or(pdp, PRESENT + WRITE + USER), pdp, 3);
    var m3 := vm2.mem[Word(pml4, 0) := Or(pdp, PRESENT + WRITE + USER)];
    StoredWords(m3, pdp, 0, shared0, pdp, 3);
    var m4 := m3[Word(pdp, 0) := shared0];
    StoredWords(m4, pdp, 3, Entry(m4, bootPdp, 3), pdp, 0);
    if bootPdp in live {
      SameEntry(vm.mem, vm1.mem, bootPdp, 3);
      SameEntry(vm1.mem, vm2.mem, bootPdp, 3);
      StoredWords(vm2.mem, pml4, 0, Or(pdp, PRESENT + WRITE + USER), bootPdp, 3);
      StoredWords(m3, pdp, 0, shared0, bootPdp, 3);
      assert Entry(m4, bootPdp, 3) == Entry(vm.mem, bootPdp, 3);
    }
    assert Entry(vm2.mem, pdp, 3) == 0;
    var m5 := NewProc(vm, bootPdp, shared0).0.mem;
    assert m5 == if IsPresent(Entry(m4, bootPdp, 3)) then m4[Word(pdp, 3) := Entry(m4, bootPdp, 3)] else m4;
  }

  lemma SpawnFrames(vm: Vm, live: set<nat>, bootPdp: nat, shared0: nat)
    requires AllocatorOk(vm, live)
    ensures var (vm', pml4) := NewProc(vm, bootPdp, shared0);
            var pdp := TakenFrame(Alloc(vm));
            && SpawnedEntries(vm.mem, vm'.mem, live, pml4, pdp)
            && AllocatorOk(vm', live + {pml4} + {pdp})
  {
    hide AllocatorOk;
    var (vm', pml4) := NewProc(vm, bootPdp, shared0);
    var vm1 := Alloc(vm);
    var pdp := TakenFrame(vm1);
    var vm2 := Alloc(vm1);
    AllocFresh(vm, live);
    LiveFrames(vm, live);
    AllocFresh(vm1, live + {pml4});
    LiveFrames(vm1, live + {pml4});
    SameAllocator(vm2, vm', live + {pml4} + {pdp});
    LinkFrame(pdp, 7);
    OrBits(pdp, 7);
    forall g, i | Aligned(g) && 0 <= i < 512 && !(g == pml4 && i == 0) && !(g == pdp && (i == 0 || i == 3))
      ensures Entry(vm'.mem, g, i) == Entry(vm2.mem, g, i)
    {
      WordsDistinct(pml4, 0, g, i);
      WordsDistinct(pdp, 0, g, i);
      WordsDistinct(pdp, 3, g, i);
    }
    WordsDistinct(pdp, 0, pml4, 0);
    WordsDistinct(pdp, 3, pml4, 0);
    forall g | g in live
      ensures SameFrame(vm.mem, vm'.mem, g)
    {
      assert SameFrame(vm.mem, vm1.mem, g) && SameFrame(vm1.mem, vm2.mem, g);
    }
    assert SameFrame(vm1.mem, vm2.mem, pml4);
  }

  lemma SpawnTables(vm': Vm, t: Tables, t': Tables, live: set<nat>, pml4: nat, pdp: nat, m: Mem)
    requires TablesOk(m, t) && (forall f :: f in t ==> f in live)
    requires SpawnedEntries(m, vm'.mem, live, pml4, pdp)
    requires t' == t[pml4 := Node(pml4, [])][pdp := Node(pml4, [0])]
    ensures TablesOk(vm'.mem, t')
  {
    forall g | g in t'
      ensures NodeOk(t', g)
    {
      hide SpawnedEntries, LinkOk;
      SpawnNode(t, t', pml4, pdp, g);
    }
    forall g, i | g in t' && i < 512
      ensures LinkOk(vm'.mem, t', g, i)
    {
      if g in t {
        hide NodeOk;
        assert LinkOk(m, t, g, i);
        SpawnOldLink(m, vm'.mem, t, t', live, pml4, pdp, g, i);
      } else {
        hide NodeOk, LinkOk;
        SpawnNewLink(m, vm'.mem, t', live, pml4, pdp, g, i);
      }
    }
  }

  lemma SpawnNode(t: Tables, t': Tables, pml4: nat, pdp: nat, g: nat)
    requires t' == t[pml4 := Node(pml4, [])][pdp := Node(pml4, [0])] && pml4 != pdp && g in t'
    requires g in t ==> NodeOk(t, g)
    requires pml4 !in t && pdp !in t
    ensures NodeOk(t', g)
  {
  }

  lemma SpawnOldLink(m: Mem, m': Mem, t: Tables, t': Tables, live: set<nat>, pml4: nat, pdp: nat, g: nat, i: nat)
    requires SpawnedEntries(m, m', live, pml4, pdp) && t' == t[pml4 := Node(pml4, [])][pdp := Node(pml4, [0])]
    requires g in t && g in live && i < 512 && LinkOk(m, t, g, i)
    requires forall f :: f in t ==> f in live
    ensures LinkOk(m', t', g, i)
  {
    hide IsPresent, FrameOf, HasUser, HasWrite;
    SameEntry(m, m', g, i);
  }

  lemma SpawnNewLink(m: Mem, m': Mem, t': Tables, live: set<nat>, pml4: nat, pdp: nat, g: nat, i: nat)
    requires SpawnedEntries(m, m', live, pml4, pdp) && (g == pml4 || g == pdp) && i < 512
    requires pml4 in t' && t'[pml4] == Node(pml4, []) && pdp in t' && t'[pdp] == Node(pml4, [0])
    ensures LinkOk(m', t', g, i)
  {
    hide SameFrame;
    assert [] + [0] == [0];
  }

  lemma SpawnWalk(m: Mem, pml4: nat, pdp: nat, q: seq<nat>)
    requires UserPath(q) && pml4 != 0
    requires forall i :: 0 < i < 512 ==> Entry(m, pml4, i) == 0
    requires IsPresent(Entry(m, pml4, 0)) && FrameOf(Entry(m, pml4, 0)) == pdp
    requires forall i :: 0 <= i < 512 && i != 0 && i != 3 ==> Entry(m, pdp, i) == 0
    ensures Resolve(m, pml4, q) == 0
  {
    assert q[..4] == q && q[..3] == q[..4][..3] && q[..2] == q[..3][..2] && q[..1] == q[..2][..1] && q[..1][..0] == [];
    assert q[..1] == [q[0]];
    assert Resolve(m, pml4, q[..1]) == Next(m, pml4, q[0]);
    assert Resolve(m, pml4, q[..2]) == 0;
    assert Resolve(m, pml4, q[..3]) == 0;
  }

  // ---- whole runs ----

  datatype Op =
    | Spawn(bootPdp: nat, shared0: nat)
    | Map(root: nat, vaddr: nat, paddr: nat, flags: nat)
    | Unmap(root: nat, vaddr: nat)
    | AllocData
    | FreeData(frame: nat)

  /** The processes that exist and the data frames handed out and not yet released. */
  datatype Holdings = Holdings(roots: set<nat>, data: set<nat>)

  function Step(vm: Vm, op: Op): Vm {
    match op
    case Spawn(bootPdp, shared0) => NewProc(vm, bootPdp, shared0).0
    case Map(root, vaddr, paddr, flags) => MapPage(vm, root, PathOf(vaddr), paddr, flags)
    case Unmap(root, vaddr) => UnmapPage(vm, root, PathOf(vaddr))
    case AllocData => Alloc(vm)
    case FreeData(f) => Free(vm, f)
  }

  function Held(vm: Vm, h: Holdings, op: Op): Holdings {
    match op
    case Spawn(_, _) => h.(roots := h.roots + {TakenFrame(vm)})
    case AllocData => h.(data := h.data + {TakenFrame(vm)})
    case FreeData(f) => h.(data := h.data - {f})
    case _ => h
  }

  /** What callers owe: a live process and a user address, or a data frame still held. */
  predicate Allowed(h: Holdings, op: Op) {
    match op
    case Map(root, vaddr, _, _) => root in h.roots && UserPath(PathOf(vaddr))
    case Unmap(root, vaddr) => root in h.roots && UserPath(PathOf(vaddr))
    case FreeData(f) => f == 0 || f in h.data
    case _ => true
  }

  function Run(vm: Vm, ops: seq<Op>): Vm
    decreases |ops|
  {
    if ops == [] then vm else Run(Step(vm, ops[0]), ops[1..])
  }

  predicate AllAllowed(vm: Vm, h: Holdings, ops: seq<Op>)
    decreases |ops|
  {
    ops == [] || (Allowed(h, ops[0]) && AllAllowed(Step(vm, ops[0]), Held(vm, h, ops[0]), ops[1..]))
  }

  function HeldAfter(vm: Vm, h: Holdings, ops: seq<Op>): Holdings
    decreases |ops|
  {
    if ops == [] then h else HeldAfter(Step(vm, ops[0]), Held(vm, h, ops[0]), ops[1..])
  }

  /** The translation of one page of one process after one operation, read off the operation; a
      spawn gives the process whose root it takes no page. */
  function Written(vm: Vm, op: Op, r: nat, q: seq<nat>, v: nat): nat {
    match op
    case Spawn(_, _) => if r == TakenFrame(vm) then 0 else v
    case Map(root, vaddr, paddr, flags) =>
      if root == r && PathOf(vaddr) == q then Target(paddr, flags) else v
    case Unmap(root, vaddr) => if root == r && PathOf(vaddr) == q then 0 else v
    case _ => v
  }

  /** ... and after a run: the last map or unmap of that very page in that very process since it
      was spawned. */
  function LastWritten(vm: Vm, ops: seq<Op>, r: nat, q: seq<nat>, v: nat): nat
    decreases |ops|
  {
    if ops == [] then v else LastWritten(Step(vm, ops[0]), ops[1..], r, q, Written(vm, ops[0], r, q, v))
  }

  /** What a page of a process translates to; nothing for a process that does not exist. */
  function Translation(h: Holdings, m: Mem, r: nat, q: seq<nat>): nat {
    if r in h.roots then Resolve(m, r, q) else 0
  }

  ghost predicate Good(vm: Vm, h: Holdings, t: Tables, live: set<nat>) {
    && Inv(vm, t, live)
    && (forall r :: r in h.roots ==> IsRoot(t, r))
    && (forall f :: f in h.data ==> f in live && f !in t)
  }

  /** Frames in use that belong to no process and are no data frame: the kernel's own. */
  ghost predicate Kernel(h: Holdings, t: Tables, live: set<nat>, k: nat) {
    k in live && k !in t && k !in h.data
  }

  ghost predicate Effect(vm: Vm, m': Mem, h: Holdings, t: Tables, live: set<nat>, op: Op) {
    var m := vm.mem;
    && (forall r, q :: UserPath(q) ==>
          Translation(Held(vm, h, op), m', r, q) == Written(vm, op, r, q, Translation(h, m, r, q)))
    && (forall k :: Kernel(h, t, live, k) ==> SameFrame(m, m', k))
    && SharedKept(m, m', t) && LinksKept(m, m', t)
  }

  /** An operation that writes no table of an existing process; a spawn also makes one. */
  lemma UntouchedTrees(vm: Vm, m': Mem, h: Holdings, t: Tables, live: set<nat>, op: Op)
    requires TablesOk(vm.mem, t) && (forall r :: r in h.roots ==> IsRoot(t, r)) && (forall f :: f in t ==> f in live)
    requires forall g :: g in live && g !in h.data ==> SameFrame(vm.mem, m', g)
    requires forall f :: f in h.data ==> f !in t
    requires !op.Map? && !op.Unmap?
    requires op.Spawn? ==> TakenFrame(vm) !in h.roots && forall q :: UserPath(q) ==> Resolve(m', TakenFrame(vm), q) == 0
    ensures Effect(vm, m', h, t, live, op)
  {
    hide Resolve, SameFrame, TablesOk, TakenFrame;
    forall r, q | UserPath(q)
      ensures Translation(Held(vm, h, op), m', r, q) == Written(vm, op, r, q, Translation(h, vm.mem, r, q))
    {
      if r in h.roots {
        SameTreeSameWalk(vm.mem, m', t, r, q);
      }
    }
    forall g, i | g in t && SharedSlot(t[g].prefix, i)
      ensures Entry(m', g, i) == Entry(vm.mem, g, i)
    {
      SameEntry(vm.mem, m', g, i);
    }
    SameLinks(vm.mem, m', t);
  }

  lemma SameLinks(m: Mem, m': Mem, t: Tables)
    requires forall f :: f in t ==> SameFrame(m, m', f)
    ensures LinksKept(m, m', t)
  {
    forall f, i | f in t && i < 512
      ensures LinkKept(m, m', t, f, i)
    {
      SameEntry(m, m', f, i);
    }
  }

  lemma SameEntry(m: Mem, m': Mem, g: nat, i: nat)
    requires SameFrame(m, m', g) && i < 512
    ensures Entry(m', g, i) == Entry(m, g, i)
  {
  }

  /** A map or unmap reaches the page it names and no other. */
  lemma OnePage(vm: Vm, m': Mem, h: Holdings, t: Tables, live: set<nat>, op: Op)
    requires Allowed(h, op) && (op.Map? || op.Unmap?)
    requires (forall r :: r in h.roots ==> IsRoot(t, r)) && forall f :: f in h.data ==> f !in t
    requires WalksUpdated(vm.mem, m', t, op.root, PathOf(op.vaddr), if op.Map? then Target(op.paddr, op.flags) else 0)
    requires OthersKept(vm.mem, m', t, live, op.root)
    ensures Effect(vm, m', h, t, live, op)
  {
    hide Resolve, SameFrame, Target;
  }

  /** Tables whose words are unchanged stay well linked. */
  lemma TablesStay(m: Mem, m': Mem, t: Tables)
    requires TablesOk(m, t) && (forall f :: f in t ==> SameFrame(m, m', f))
    ensures TablesOk(m', t)
  {
    forall g, i | g in t && i < 512
      ensures LinkOk(m', t, g, i)
    {
      assert LinkOk(m, t, g, i);
    }
  }

  lemma StepGood(vm: Vm, h: Holdings, t: Tables, live: set<nat>, op: Op)
    returns (t': Tables, live': set<nat>)
    requires Good(vm, h, t, live) && Allowed(h, op)
    ensures Good(Step(vm, op), Held(vm, h, op), t', live')
    ensures Effect(vm, Step(vm, op).mem, h, t, live, op)
    ensures forall f :: f in t ==> f in t' && t'[f] == t[f]
    ensures forall k :: Kernel(h, t, live, k) ==> Kernel(Held(vm, h, op), t', live', k)
    ensures op.Spawn? ==>
              && NewProcess(vm, Step(vm, op).mem, t')
              && KernelEntries(Step(vm, op).mem, TakenFrame(Alloc(vm)), op.shared0, op.bootPdp in live,
                               Entry(vm.mem, op.bootPdp, 3))
  {
    hide AllocatorOk, TablesOk, MapPage, UnmapPage, NewProc, Resolve, SameFrame, IsPresent, FrameOf, Effect,
      OthersKept, WalksUpdated, Target, NewProcess, KernelEntries;
    var vm' := Step(vm, op);
    match op
    case Spawn(bootPdp, shared0) =>
      t', live' := SpawnRefines(vm, t, live, bootPdp, shared0);
      SpawnRoot(vm, bootPdp, shared0);
      UntouchedTrees(vm, vm'.mem, h, t, live, op);
    case Map(root, vaddr, paddr, flags) =>
      t', live' := MapRefines(vm, t, live, root, PathOf(vaddr), paddr, flags);
      OnePage(vm, vm'.mem, h, t, live, op);
    case Unmap(root, vaddr) =>
      t', live' := t, live;
      UnmapRefines(vm, t, live, root, PathOf(vaddr));
      OnePage(vm, vm'.mem, h, t, live, op);
    case AllocData =>
      t', live' := t, live + {TakenFrame(vm)};
      AllocFresh(vm, live);
      LiveFrames(vm, live);
      TablesStay(vm.mem, vm'.mem, t);
      UntouchedTrees(vm, vm'.mem, h, t, live, op);
    case FreeData(f) =>
      if f == 0 {
        t', live' := t, live;
        LiveFrames(vm, live);
        SameIsSame(vm.mem);
      } else {
        t', live' := t, live - {f};
        FreeKeeps(vm, live, f);
        LiveFrames(vm, live);
        TablesStay(vm.mem, vm'.mem, t);
      }
      UntouchedTrees(vm, vm'.mem, h, t, live, op);
  }

  lemma SameIsSame(m: Mem)
    ensures forall g :: SameFrame(m, m, g)
  {
  }

  lemma SpawnRoot(vm: Vm, bootPdp: nat, shared0: nat)
    ensures NewProc(vm, bootPdp, shared0).1 == TakenFrame(vm)
  {
  }

  /** Over every run of spawns, maps, unmaps, allocations and releases: in every process that
      exists at the end, whenever it was spawned, a page translates to what the last map or unmap
      of that page in that process said, whatever was done to other pages and other processes;
      kernel frames and the shared kernel entries of the processes there were at the start are
      never written, nor their tables unlinked. */
  lemma {:induction false} TranslationIsLastWrite(vm: Vm, h: Holdings, t: Tables, live: set<nat>, ops: seq<Op>)
    returns (t': Tables, live': set<nat>)
    requires Good(vm, h, t, live) && AllAllowed(vm, h, ops)
    ensures Good(Run(vm, ops), HeldAfter(vm, h, ops), t', live')
    ensures forall r, q :: UserPath(q) ==>
              Translation(HeldAfter(vm, h, ops), Run(vm, ops).mem, r, q)
              == LastWritten(vm, ops, r, q, Translation(h, vm.mem, r, q))
    ensures forall k :: Kernel(h, t, live, k) ==> SameFrame(vm.mem, Run(vm, ops).mem, k)
    ensures SharedKept(vm.mem, Run(vm, ops).mem, t) && LinksKept(vm.mem, Run(vm, ops).mem, t)
    decreases |ops|
  {
    hide Good, Step, Translation, Entry, Written, Held, Allowed, NewProcess, KernelEntries, LinksKept;
    LinksRefl(vm.mem, t);
    if ops == [] {
      t', live' := t, live;
    } else {
      var op := ops[0];
      var vm1, h1 := Step(vm, op), Held(vm, h, op);
      var t1, live1 := StepGood(vm, h, t, live, op);
      t', live' := TranslationIsLastWrite(vm1, h1, t1, live1, ops[1..]);
      assert forall k :: Kernel(h, t, live, k) ==> Kernel(h1, t1, live1, k);
      LinksChain(vm.mem, vm1.mem, Run(vm, ops).mem, t, t1);
    }
  }

  lemma LinksRefl(m: Mem, t: Tables)
    ensures LinksKept(m, m, t)
  {
  }

  // ---- what every process shares with the kernel ----

  /** At the end m of a run from vm, the process spawned at step i still goes through the PDP it
      was given, and that still holds the kernel's entries. */
  ghost predicate SharesKernel(vm: Vm, ops: seq<Op>, i: nat, m: Mem, inUse: bool)
    requires i < |ops| && ops[i].Spawn?
  {
    var at := Run(vm, ops[..i]);
    var pdp := TakenFrame(Alloc(at));
    && Resolve(m, TakenFrame(at), [0]) == pdp
    && KernelEntries(m, pdp, ops[i].shared0, inUse, Entry(vm.mem, ops[i].bootPdp, 3))
  }

  /** Over every run, for every process spawned in it: its first PDP holds the kernel's entries 0
      and 3 to the end, and its root leads there. */
  lemma {:induction false} SharedToTheEnd(vm: Vm, h: Holdings, t: Tables, live: set<nat>, ops: seq<Op>, i: nat)
    requires Good(vm, h, t, live) && AllAllowed(vm, h, ops) && i < |ops| && ops[i].Spawn?
    ensures SharesKernel(vm, ops, i, Run(vm, ops).mem, Kernel(h, t, live, ops[i].bootPdp))
    decreases |ops|
  {
    hide Good, Step, Held, Allowed, SharesKernel, Effect, NewProcess, KernelEntries, SharedKept, LinksKept, Kernel;
    var op, boot := ops[0], ops[i].bootPdp;
    var vm1, h1 := Step(vm, op), Held(vm, h, op);
    var t1, live1 := StepGood(vm, h, t, live, op);
    if i == 0 {
      var t', live' := TranslationIsLastWrite(vm1, h1, t1, live1, ops[1..]);
      GoodFrames(vm, h, t, live, boot);
      SharesFirst(vm, ops, vm1.mem, Run(vm, ops).mem, t1, live, Kernel(h, t, live, boot));
    } else {
      SharedToTheEnd(vm1, h1, t1, live1, ops[1..], i - 1);
      KernelSame(vm, vm1.mem, h, t, live, op, boot);
      SharesLater(vm, ops, i, Run(vm, ops).mem, Kernel(h, t, live, boot), Kernel(h1, t1, live1, boot));
    }
  }

  lemma GoodFrames(vm: Vm, h: Holdings, t: Tables, live: set<nat>, k: nat)
    requires Good(vm, h, t, live)
    ensures TakenFrame(vm) != 0 && (Kernel(h, t, live, k) ==> k in live)
  {
    LiveFrames(vm, live);
  }

  lemma KernelSame(vm: Vm, m': Mem, h: Holdings, t: Tables, live: set<nat>, op: Op, k: nat)
    requires Effect(vm, m', h, t, live, op)
    ensures Kernel(h, t, live, k) ==> Entry(m', k, 3) == Entry(vm.mem, k, 3)
  {
    hide Kernel, Translation, SharedKept, LinksKept;
    if Kernel(h, t, live, k) {
      SameEntry(vm.mem, m', k, 3);
    }
  }

  /** The tables of a new process, as long as shared entries and links are kept. */
  lemma SharesFirst(vm: Vm, ops: seq<Op>, m1: Mem, m2: Mem, t1: Tables, live: set<nat>, inUse: bool)
    requires ops != [] && ops[0].Spawn? && TakenFrame(vm) != 0 && (inUse ==> ops[0].bootPdp in live)
    requires NewProcess(vm, m1, t1)
    requires KernelEntries(m1, TakenFrame(Alloc(vm)), ops[0].shared0, ops[0].bootPdp in live,
                           Entry(vm.mem, ops[0].bootPdp, 3))
    requires SharedKept(m1, m2, t1) && LinksKept(m1, m2, t1)
    ensures SharesKernel(vm, ops, 0, m2, inUse)
  {
    hide TakenFrame, Alloc, IsPresent, FrameOf;
    assert ops[..0] == [];
    var root, pdp := TakenFrame(vm), TakenFrame(Alloc(vm));
    assert LinkKept(m1, m2, t1, root, 0);
    assert SharedSlot(t1[pdp].prefix, 0) && SharedSlot(t1[pdp].prefix, 3);
    assert [0][..0] == [];
    assert Resolve(m2, root, [0]) == Next(m2, root, 0);
  }

  lemma SharesLater(vm: Vm, ops: seq<Op>, i: nat, m: Mem, inUse: bool, inUse1: bool)
    requires 0 < i < |ops| && ops[i].Spawn?
    requires SharesKernel(Step(vm, ops[0]), ops[1..], i - 1, m, inUse1)
    requires inUse ==> inUse1 && Entry(Step(vm, ops[0]).mem, ops[i].bootPdp, 3) == Entry(vm.mem, ops[i].bootPdp, 3)
    ensures SharesKernel(vm, ops, i, m, inUse)
  {
    hide Step, Entry, Resolve, TakenFrame, Alloc, IsPresent;
    assert ops[1..][..i - 1] == ops[..i][1..] && ops[..i][0] == ops[0];
  }

  /** Right after boot there is no process, no data frame and nothing on the free stack; live are
      the kernel's own frames. */
  lemma BootGood(vm: Vm, live: set<nat>)
    requires vm.free == [] && Aligned(vm.next) && 0 < vm.next && forall f :: f in live ==> IsFrame(vm, f)
    ensures Good(vm, Holdings({}, {}), map[], live)
  {
  }

  /** The same from boot, with nothing left to assume: every page of every process is unmapped
      unless a map since its spawn says otherwise, no kernel frame is ever written, and every
      process spawned shares the kernel's entries to the end. */
  lemma TranslationFromBoot(vm: Vm, live: set<nat>, ops: seq<Op>)
    requires vm.free == [] && Aligned(vm.next) && 0 < vm.next && forall f :: f in live ==> IsFrame(vm, f)
    requires AllAllowed(vm, Holdings({}, {}), ops)
    ensures forall r, q :: r in HeldAfter(vm, Holdings({}, {}), ops).roots && UserPath(q) ==>
              Resolve(Run(vm, ops).mem, r, q) == LastWritten(vm, ops, r, q, 0)
    ensures forall k :: k in live ==> SameFrame(vm.mem, Run(vm, ops).mem, k)
    ensures forall i :: 0 <= i < |ops| && ops[i].Spawn? ==>
              SharesKernel(vm, ops, i, Run(vm, ops).mem, ops[i].bootPdp in live)
  {
    hide SharesKernel, LinksKept, SharedKept;
    hide Good, Run, LastWritten, HeldAfter, AllAllowed, Resolve, SameFrame;
    var h := Holdings({}, {});
    BootGood(vm, live);
    var t', live' := TranslationIsLastWrite(vm, h, map[], live, ops);
    forall r, q | r in HeldAfter(vm, h, ops).roots && UserPath(q)
      ensures Resolve(Run(vm, ops).mem, r, q) == LastWritten(vm, ops, r, q, 0)
    {
      assert Translation(HeldAfter(vm, h, ops), Run(vm, ops).mem, r, q)
             == LastWritten(vm, ops, r, q, Translation(h, vm.mem, r, q));
    }
    forall k | k in live
      ensures SameFrame(vm.mem, Run(vm, ops).mem, k)
    {
      assert Kernel(h, map[], live, k);
    }
    forall i | 0 <= i < |ops| && ops[i].Spawn?
      ensures SharesKernel(vm, ops, i, Run(vm, ops).mem, ops[i].bootPdp in live)
    {
      SharedToTheEnd(vm, h, map[], live, ops, i);
      assert Kernel(h, map[], live, ops[i].bootPdp) == (ops[i].bootPdp in live);
    }
  }
}
