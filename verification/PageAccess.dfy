/** Permissions: the processor lets Ring 3 read or write a page only if every entry on the way says
    so. Over any run of spawns, maps and unmaps that is exactly what the last map of the page asked
    for (src/vm.go:204-229, 283-321). */
module PageAccess {
  import opened PhysMem
  import opened PageTable
  import opened AddressSpaces

  // ---- the processor's view ----

  /** The entry met at level k on the way to a page, or 0 when the way ends before it. */
  function EntryOn(m: Mem, r: nat, q: seq<nat>, k: nat): nat
    requires k < |q|
  {
    var t := Resolve(m, r, q[..k]);
    if t == 0 then 0 else Entry(m, t, q[k])
  }

  predicate UserMay(m: Mem, r: nat, q: seq<nat>) {
    |q| == 4 && forall k :: 0 <= k < 4 ==> IsPresent(EntryOn(m, r, q, k)) && HasUser(EntryOn(m, r, q, k))
  }

  predicate WriteMay(m: Mem, r: nat, q: seq<nat>) {
    |q| == 4 && forall k :: 0 <= k < 4 ==> IsPresent(EntryOn(m, r, q, k)) && HasWrite(EntryOn(m, r, q, k))
  }

  /** The leaf entry of a page. */
  function LeafWord(m: Mem, r: nat, q: seq<nat>): nat
    requires IsPath(q)
  {
    EntryOn(m, r, q, 3)
  }

  /** Links let writes through; and a page open to Ring 3 has links open to Ring 3. */
  ghost predicate PathGuarded(m: Mem, r: nat, q: seq<nat>)
    requires IsPath(q)
  {
    && (forall k :: 0 <= k < 3 && IsPresent(EntryOn(m, r, q, k)) ==> HasWrite(EntryOn(m, r, q, k)))
    && (IsPresent(LeafWord(m, r, q)) && HasUser(LeafWord(m, r, q)) ==> LinksOpen(m, r, q))
  }

  ghost predicate LinksOpen(m: Mem, r: nat, q: seq<nat>)
    requires IsPath(q)
  {
    forall k :: 0 <= k < 3 ==> HasUser(EntryOn(m, r, q, k))
  }

  ghost predicate Guarded(m: Mem, roots: set<nat>) {
    forall r, q :: r in roots && UserPath(q) ==> PathGuarded(m, r, q)
  }

  /** Reaching the leaf means every link on the way is present. */
  lemma ReachedMeansPresent(m: Mem, r: nat, q: seq<nat>, k: nat)
    requires IsPath(q) && k < 3 && IsPresent(LeafWord(m, r, q))
    ensures IsPresent(EntryOn(m, r, q, k))
  {
    hide Entry, FrameOf;
    StepOn(m, r, q, 0);
    StepOn(m, r, q, 1);
    StepOn(m, r, q, 2);
  }

  lemma StepOn(m: Mem, r: nat, q: seq<nat>, k: nat)
    requires k < |q|
    ensures Resolve(m, r, q[..k + 1]) == if IsPresent(EntryOn(m, r, q, k)) then FrameOf(EntryOn(m, r, q, k)) else 0
  {
    assert q[..k + 1][..k] == q[..k];
  }

  /** On a guarded path the processor's verdict is the leaf's alone. */
  lemma LeafDecides(m: Mem, r: nat, q: seq<nat>)
    requires IsPath(q) && PathGuarded(m, r, q)
    ensures UserMay(m, r, q) <==> IsPresent(LeafWord(m, r, q)) && HasUser(LeafWord(m, r, q))
    ensures WriteMay(m, r, q) <==> IsPresent(LeafWord(m, r, q)) && HasWrite(LeafWord(m, r, q))
  {
    hide EntryOn, IsPresent, HasUser, HasWrite;
    if IsPresent(LeafWord(m, r, q)) {
      ReachedMeansPresent(m, r, q, 0);
      ReachedMeansPresent(m, r, q, 1);
      ReachedMeansPresent(m, r, q, 2);
    } else {
      assert !IsPresent(EntryOn(m, r, q, 3));
    }
  }

  // ---- prefixes of user paths ----

  lemma PathPrefix(q: seq<nat>, k: nat)
    requires UserPath(q) && k <= 3
    ensures Private(q[..k]) && |q[..k]| == k && !SharedSlot(q[..k], q[k])
  {
    if k >= 2 {
      assert q[..k][..1] == q[..1];
    }
  }

  /** Trees whose frames are unchanged show the same entries. */
  lemma SameEntries(m: Mem, m': Mem, t: Tables, r: nat, q: seq<nat>, k: nat)
    requires TablesOk(m, t) && IsRoot(t, r) && UserPath(q) && k < 4
    requires forall g :: g in t && t[g].root == r ==> SameFrame(m, m', g)
    ensures EntryOn(m', r, q, k) == EntryOn(m, r, q, k)
  {
    hide TablesOk, SameFrame;
    PathPrefix(q, k);
    SameTreeSameWalk(m, m', t, r, q[..k]);
    StaysInTree(m, t, r, q[..k]);
    if Resolve(m, r, q[..k]) != 0 {
      SameEntry(m, m', Resolve(m, r, q[..k]), q[k]);
    }
  }

  lemma SamePath(m: Mem, m': Mem, t: Tables, r: nat, q: seq<nat>)
    requires TablesOk(m, t) && IsRoot(t, r) && UserPath(q)
    requires forall g :: g in t && t[g].root == r ==> SameFrame(m, m', g)
    ensures LeafWord(m', r, q) == LeafWord(m, r, q)
    ensures PathGuarded(m', r, q) <==> PathGuarded(m, r, q)
  {
    hide TablesOk, SameFrame, EntryOn, IsPresent, HasUser, HasWrite;
    SameEntries(m, m', t, r, q, 0);
    SameEntries(m, m', t, r, q, 1);
    SameEntries(m, m', t, r, q, 2);
    SameEntries(m, m', t, r, q, 3);
  }

  // ---- one level of walkOrCreate ----

  /** What linking one table does to an entry on any path: the link itself gains, everything else
      stays, and a new table starts out empty. */
  lemma CreateEntryOn(vm: Vm, t: Tables, live: set<nat>, f: nat, i: nat, user: bool, r: nat, q: seq<nat>, k: nat)
    requires Inv(vm, t, live) && f in t && |t[f].prefix| < 3 && i < 512 && !SharedSlot(t[f].prefix, i)
    requires IsRoot(t, r) && UserPath(q) && k < 4
    ensures var m' := WalkOrCreate(vm, f, i, user).0.mem;
            var e, e' := EntryOn(vm.mem, r, q, k), EntryOn(m', r, q, k);
            || e' == e
            || (k < 3 && (if IsPresent(e) then LeadsOn(e, e') else HasWrite(e')))
            || (!IsPresent(e) && !IsPresent(e') && k < 3)
            || (e == 0 && e' == 0)
    ensures k < 3 && user && Resolve(vm.mem, r, q[..k]) == f && q[k] == i ==>
              HasUser(EntryOn(WalkOrCreate(vm, f, i, user).0.mem, r, q, k))
  {
    hide WalkOrCreate, Alloc, AllocatorOk;
    var m' := WalkOrCreate(vm, f, i, user).0.mem;
    PathPrefix(q, k);
    CreateResolve(vm, t, live, f, i, user, r, q[..k]);
    StaysInTree(vm.mem, t, r, q[..k]);
    CreateEntries(vm, live, f, i, user);
    LiveFrames(vm, live);
    var g := Resolve(vm.mem, r, q[..k]);
    if g != 0 {
      assert g in t && t[g].prefix == q[..k];
    }
  }

  lemma CreatePath(vm: Vm, t: Tables, live: set<nat>, f: nat, i: nat, user: bool, r: nat, q: seq<nat>)
    requires Inv(vm, t, live) && f in t && |t[f].prefix| < 3 && i < 512 && !SharedSlot(t[f].prefix, i)
    requires IsRoot(t, r) && UserPath(q)
    ensures var m' := WalkOrCreate(vm, f, i, user).0.mem;
            && LeafWord(m', r, q) == LeafWord(vm.mem, r, q)
            && (PathGuarded(vm.mem, r, q) ==> PathGuarded(m', r, q))
  {
    var m' := WalkOrCreate(vm, f, i, user).0.mem;
    hide WalkOrCreate, Inv, EntryOn, IsPresent, HasUser, HasWrite, FrameOf;
    CreateEntryOn(vm, t, live, f, i, user, r, q, 0);
    CreateEntryOn(vm, t, live, f, i, user, r, q, 1);
    CreateEntryOn(vm, t, live, f, i, user, r, q, 2);
    CreateEntryOn(vm, t, live, f, i, user, r, q, 3);
    if PathGuarded(vm.mem, r, q) && IsPresent(LeafWord(vm.mem, r, q)) {
      ReachedMeansPresent(vm.mem, r, q, 0);
      ReachedMeansPresent(vm.mem, r, q, 1);
      ReachedMeansPresent(vm.mem, r, q, 2);
    }
  }

  // ---- mapPageInto ----

  /** Every path of every tree keeps its leaf and its guards. */
  ghost predicate PathsKept(m: Mem, m': Mem, t: Tables) {
    forall r, q :: IsRoot(t, r) && UserPath(q) ==>
      LeafWord(m', r, q) == LeafWord(m, r, q) && (PathGuarded(m, r, q) ==> PathGuarded(m', r, q))
  }

  lemma CreatePaths(vm: Vm, t: Tables, live: set<nat>, f: nat, i: nat, user: bool)
    requires Inv(vm, t, live) && f in t && |t[f].prefix| < 3 && i < 512 && !SharedSlot(t[f].prefix, i)
    ensures PathsKept(vm.mem, WalkOrCreate(vm, f, i, user).0.mem, t)
  {
    hide WalkOrCreate, Inv, PathGuarded, LeafWord;
    forall r, q | IsRoot(t, r) && UserPath(q)
      ensures var m' := WalkOrCreate(vm, f, i, user).0.mem;
              LeafWord(m', r, q) == LeafWord(vm.mem, r, q) && (PathGuarded(vm.mem, r, q) ==> PathGuarded(m', r, q))
    {
      CreatePath(vm, t, live, f, i, user, r, q);
    }
  }

  lemma PathsChain(m: Mem, m1: Mem, m2: Mem, t: Tables, t1: Tables, live: set<nat>, live1: set<nat>, root: nat)
    requires PathsKept(m, m1, t) && PathsKept(m1, m2, t1) && Grows(t, t1, live, live1, root)
    ensures PathsKept(m, m2, t)
  {
    hide PathGuarded, LeafWord;
    forall r, q | IsRoot(t, r) && UserPath(q)
      ensures LeafWord(m2, r, q) == LeafWord(m, r, q) && (PathGuarded(m, r, q) ==> PathGuarded(m2, r, q))
    {
      assert IsRoot(t1, r);
    }
  }

  /** The way down to the leaf is there after the three levels, open to Ring 3 if asked for. */
  ghost predicate WayOpen(m: Mem, r: nat, q: seq<nat>, n: nat, user: bool)
    requires IsPath(q)
  {
    forall k :: 0 <= k < n && k < 4 ==> IsPresent(EntryOn(m, r, q, k)) && (user ==> HasUser(EntryOn(m, r, q, k)))
  }

  /** One more level: the links made before stay open, and the new one is. */
  lemma LevelOpens(vm: Vm, t: Tables, live: set<nat>, f: nat, user: bool, root: nat, p: seq<nat>, n: nat)
    requires Inv(vm, t, live) && IsRoot(t, root) && UserPath(p) && n < 3
    requires f in t && t[f] == Node(root, p[..n]) && Resolve(vm.mem, root, p[..n]) == f
    requires WayOpen(vm.mem, root, p, n, user)
    ensures WayOpen(WalkOrCreate(vm, f, p[n], user).0.mem, root, p, n + 1, user)
  {
    PathPrefix(p, n);
    var (vm', next) := WalkOrCreate(vm, f, p[n], user);
    CreateReach(vm, t, live, f, p[n], user, root);
    NextNotZero(vm, t, live, f, p[n], user);
    assert p[..n] + [p[n]] == p[..n + 1];
    StepOn(vm'.mem, root, p, n);
    hide WalkOrCreate, Inv, Resolve, FrameOf;
    forall k | 0 <= k < n + 1
      ensures IsPresent(EntryOn(vm'.mem, root, p, k)) && (user ==> HasUser(EntryOn(vm'.mem, root, p, k)))
    {
      CreateEntryOn(vm, t, live, f, p[n], user, root, p, k);
    }
  }

  lemma NextNotZero(vm: Vm, t: Tables, live: set<nat>, f: nat, i: nat, user: bool)
    requires Inv(vm, t, live) && f in t && |t[f].prefix| < 3 && i < 512 && !SharedSlot(t[f].prefix, i)
    ensures WalkOrCreate(vm, f, i, user).1 != 0
  {
    hide WalkOrCreate, AllocatorOk, TablesOk;
    CreateKeeps(vm, t, live, f, i, user);
    TableFrames(WalkOrCreate(vm, f, i, user).0, TablesAfter(vm, t, f, i), LiveAfter(vm, live, f, i));
  }

  lemma ThreeLevelsOpen(vm: Vm, t: Tables, live: set<nat>, root: nat, p: seq<nat>, user: bool)
    returns (vm3: Vm, pt: nat, t': Tables, live': set<nat>)
    requires Inv(vm, t, live) && IsRoot(t, root) && UserPath(p)
    ensures var (vm1, pdp) := WalkOrCreate(vm, root, p[0], user);
            var (vm2, pd) := WalkOrCreate(vm1, pdp, p[1], user);
            (vm3, pt) == WalkOrCreate(vm2, pd, p[2], user)
    ensures Inv(vm3, t', live') && Grows(t, t', live, live', root)
    ensures PathsKept(vm.mem, vm3.mem, t)
    ensures pt != 0 && Resolve(vm3.mem, root, p[..3]) == pt && WayOpen(vm3.mem, root, p, 3, user)
  {
    hide WalkOrCreate, Inv, Grows, OthersKept, SameWalks, TablesAfter, LiveAfter, PathsKept, EntryOn;
    PathPrefix(p, 0);
    PathPrefix(p, 1);
    PathPrefix(p, 2);
    assert p[..0] == [] && p[..1] == [] + [p[0]] && p[..2] == p[..1] + [p[1]] && p[..3] == p[..2] + [p[2]];
    var (vm1, pdp) := WalkOrCreate(vm, root, p[0], user);
    var t1, live1 := TablesAfter(vm, t, root, p[0]), LiveAfter(vm, live, root, p[0]);
    CreateKeeps(vm, t, live, root, p[0], user);
    CreateReach(vm, t, live, root, p[0], user, root);
    CreatePaths(vm, t, live, root, p[0], user);
    LevelOpens(vm, t, live, root, user, root, p, 0);
    GrowsRoot(t, t1, live, live1, root);
    var (vm2, pd) := WalkOrCreate(vm1, pdp, p[1], user);
    var t2, live2 := TablesAfter(vm1, t1, pdp, p[1]), LiveAfter(vm1, live1, pdp, p[1]);
    CreateKeeps(vm1, t1, live1, pdp, p[1], user);
    CreateReach(vm1, t1, live1, pdp, p[1], user, root);
    CreatePaths(vm1, t1, live1, pdp, p[1], user);
    LevelOpens(vm1, t1, live1, pdp, user, root, p, 1);
    GrowsRoot(t1, t2, live1, live2, root);
    vm3, pt := WalkOrCreate(vm2, pd, p[2], user).0, WalkOrCreate(vm2, pd, p[2], user).1;
    t', live' := TablesAfter(vm2, t2, pd, p[2]), LiveAfter(vm2, live2, pd, p[2]);
    CreateKeeps(vm2, t2, live2, pd, p[2], user);
    CreateReach(vm2, t2, live2, pd, p[2], user, root);
    CreatePaths(vm2, t2, live2, pd, p[2], user);
    LevelOpens(vm2, t2, live2, pd, user, root, p, 2);
    GrowsChain(t, t1, t2, live, live1, live2, root);
    GrowsChain(t, t2, t', live, live2, live', root);
    PathsChain(vm.mem, vm1.mem, vm2.mem, t, t1, live, live1, root);
    PathsChain(vm.mem, vm2.mem, vm3.mem, t, t2, live, live2, root);
    TableFrames(vm3, t', live');
  }

  lemma GrowsChain(t: Tables, t1: Tables, t2: Tables, live: set<nat>, live1: set<nat>, live2: set<nat>, root: nat)
    requires Grows(t, t1, live, live1, root) && Grows(t1, t2, live1, live2, root)
    ensures Grows(t, t2, live, live2, root)
  {
  }

  /** Storing a leaf entry changes that leaf and no other entry on any path. */
  lemma LeafEntryOn(m: Mem, t: Tables, f: nat, root: nat, p: seq<nat>, e: nat, r: nat, q: seq<nat>, k: nat)
    requires TablesOk(m, t) && IsRoot(t, root) && UserPath(p) && f != 0 && Resolve(m, root, p[..3]) == f
    requires forall g :: g in t ==> Aligned(g)
    requires IsRoot(t, r) && UserPath(q) && k < 4
    ensures EntryOn(m[Word(f, p[3]) := e], r, q, k) == if r == root && q == p && k == 3 then e else EntryOn(m, r, q, k)
  {
    hide TablesOk;
    PathPrefix(p, 3);
    PathPrefix(q, k);
    StaysInTree(m, t, root, p[..3]);
    StaysInTree(m, t, r, q[..k]);
    LeafResolve(m, t, f, p[3], e, r, q[..k]);
    var g := Resolve(m, r, q[..k]);
    if g != 0 {
      StoredWords(m, f, p[3], e, g, q[k]);
      assert p == p[..3] + [p[3]];
      assert k == 3 ==> q == q[..3] + [q[3]];
    }
  }

  /** After a leaf store that either takes Ring 3's access away or finds the way open, everything is
      guarded as before. */
  lemma LeafGuards(m: Mem, t: Tables, f: nat, root: nat, p: seq<nat>, e: nat, r: nat, q: seq<nat>)
    requires TablesOk(m, t) && IsRoot(t, root) && UserPath(p) && f != 0 && Resolve(m, root, p[..3]) == f
    requires forall g :: g in t ==> Aligned(g)
    requires IsRoot(t, r) && UserPath(q) && PathGuarded(m, r, q)
    requires IsPresent(e) && HasUser(e) ==> WayOpen(m, root, p, 3, true)
    ensures var m' := m[Word(f, p[3]) := e];
            && LeafWord(m', r, q) == (if r == root && q == p then e else LeafWord(m, r, q))
            && PathGuarded(m', r, q)
  {
    var m' := m[Word(f, p[3]) := e];
    LeafEntryOn(m, t, f, root, p, e, r, q, 0);
    LeafEntryOn(m, t, f, root, p, e, r, q, 1);
    LeafEntryOn(m, t, f, root, p, e, r, q, 2);
    LeafEntryOn(m, t, f, root, p, e, r, q, 3);
    hide TablesOk, EntryOn, IsPresent, HasUser, HasWrite, Resolve;
  }

  /** mapPageInto stores address and flags in the page's leaf, opens the way to it as far as the
      flags ask, and takes no permission from any other page. */
  lemma MapOpens(vm: Vm, t: Tables, live: set<nat>, root: nat, p: seq<nat>, paddr: nat, flags: nat, r: nat, q: seq<nat>)
    requires Inv(vm, t, live) && IsRoot(t, root) && UserPath(p)
    requires IsRoot(t, r) && UserPath(q) && PathGuarded(vm.mem, r, q)
    ensures var m' := MapPage(vm, root, p, paddr, flags).mem;
            && LeafWord(m', r, q) == (if r == root && q == p then Or(FrameOf(paddr), flags) else LeafWord(vm.mem, r, q))
            && PathGuarded(m', r, q)
  {
    hide WalkOrCreate, Grows, PathGuarded, LeafWord, WayOpen, AllocatorOk, TablesOk;
    var e := Or(FrameOf(paddr), flags);
    var vm3, pt, t', live' := ThreeLevelsOpen(vm, t, live, root, p, HasUser(flags));
    assert MapPage(vm, root, p, paddr, flags).mem == vm3.mem[Word(pt, p[3]) := e];
    GrowsRoot(t, t', live, live', root);
    OtherRoots(t, t', live, live', root, r);
    TableFrames(vm3, t', live');
    ModPage(FrameOf(paddr), paddr / PAGE, 0);
    OrBits(FrameOf(paddr), flags);
    LeafGuards(vm3.mem, t', pt, root, p, e, r, q);
  }

  /** A page mapped with the user flag is open to Ring 3 at all four levels, and its three links let
      writes through; it may be written exactly if its own flags say so. */
  lemma MapLetsIn(vm: Vm, t: Tables, live: set<nat>, root: nat, p: seq<nat>, paddr: nat, flags: nat)
    requires Inv(vm, t, live) && IsRoot(t, root) && UserPath(p) && PathGuarded(vm.mem, root, p) && IsPresent(flags)
    ensures var m' := MapPage(vm, root, p, paddr, flags).mem;
            && (forall k :: 0 <= k < 4 ==> IsPresent(EntryOn(m', root, p, k)))
            && (forall k :: 0 <= k < 3 ==> HasWrite(EntryOn(m', root, p, k)))
            && (HasUser(flags) <==> forall k :: 0 <= k < 4 ==> HasUser(EntryOn(m', root, p, k)))
            && (HasWrite(flags) <==> forall k :: 0 <= k < 4 ==> HasWrite(EntryOn(m', root, p, k)))
  {
    var m' := MapPage(vm, root, p, paddr, flags).mem;
    MapOpens(vm, t, live, root, p, paddr, flags, root, p);
    ModPage(FrameOf(paddr), paddr / PAGE, 0);
    OrBits(FrameOf(paddr), flags);
    hide MapPage, EntryOn, IsPresent, HasUser, HasWrite, Inv, Or;
    assert LeafWord(m', root, p) == EntryOn(m', root, p, 3);
    ReachedMeansPresent(m', root, p, 0);
    ReachedMeansPresent(m', root, p, 1);
    ReachedMeansPresent(m', root, p, 2);
  }

  lemma OtherRoots(t: Tables, t': Tables, live: set<nat>, live': set<nat>, root: nat, r: nat)
    requires Grows(t, t', live, live', root) && IsRoot(t, r)
    ensures IsRoot(t', r)
  {
  }

  /** unmapPageFrom clears the page's leaf and nothing else. */
  lemma UnmapClears(vm: Vm, t: Tables, live: set<nat>, root: nat, p: seq<nat>, r: nat, q: seq<nat>)
    requires Inv(vm, t, live) && IsRoot(t, root) && UserPath(p)
    requires IsRoot(t, r) && UserPath(q) && PathGuarded(vm.mem, r, q)
    ensures var m' := UnmapPage(vm, root, p).mem;
            && LeafWord(m', r, q) == (if r == root && q == p then 0 else LeafWord(vm.mem, r, q))
            && PathGuarded(m', r, q)
  {
    hide AllocatorOk, TablesOk, PathGuarded;
    TableFrames(vm, t, live);
    WalkIsResolve(vm.mem, root, p);
    var f := Resolve(vm.mem, root, p[..3]);
    if f != 0 {
      LeafGuards(vm.mem, t, f, root, p, 0, r, q);
    }
  }

  // ---- a new process ----

  lemma SpawnGuards(vm: Vm, live: set<nat>, bootPdp: nat, shared0: nat, q: seq<nat>)
    requires AllocatorOk(vm, live) && UserPath(q)
    ensures var (vm', root) := NewProc(vm, bootPdp, shared0);
            PathGuarded(vm'.mem, root, q) && LeafWord(vm'.mem, root, q) == 0
  {
    hide NewProc, Alloc, TakenFrame, AllocatorOk;
    var (vm', root) := NewProc(vm, bootPdp, shared0);
    var pdp := TakenFrame(Alloc(vm));
    SpawnFrames(vm, live, bootPdp, shared0);
    SpawnRoot(vm, bootPdp, shared0);
    var m := vm'.mem;
    assert q[..0] == [];
    StepOn(m, root, q, 0);
    StepOn(m, root, q, 1);
    StepOn(m, root, q, 2);
    assert q[..1] == [q[0]];
    assert !IsPresent(EntryOn(m, root, q, 1));
    assert !IsPresent(EntryOn(m, root, q, 2)) && EntryOn(m, root, q, 3) == 0;
  }

  // ---- whole runs ----

  /** The leaf word of one page of one process after one operation, read off the operation. */
  function WordWritten(vm: Vm, op: Op, r: nat, q: seq<nat>, v: nat): nat {
    match op
    case Spawn(_, _) => if r == TakenFrame(vm) then 0 else v
    case Map(root, vaddr, paddr, flags) => if root == r && PathOf(vaddr) == q then Or(FrameOf(paddr), flags) else v
    case Unmap(root, vaddr) => if root == r && PathOf(vaddr) == q then 0 else v
    case _ => v
  }

  function LastWord(vm: Vm, ops: seq<Op>, r: nat, q: seq<nat>, v: nat): nat
    decreases |ops|
  {
    if ops == [] then v else LastWord(Step(vm, ops[0]), ops[1..], r, q, WordWritten(vm, ops[0], r, q, v))
  }

  function LeafOf(h: Holdings, m: Mem, r: nat, q: seq<nat>): nat
    requires IsPath(q)
  {
    if r in h.roots then LeafWord(m, r, q) else 0
  }

  lemma StepOpens(vm: Vm, h: Holdings, t: Tables, live: set<nat>, op: Op, r: nat, q: seq<nat>)
    requires Good(vm, h, t, live) && Allowed(h, op) && Guarded(vm.mem, h.roots)
    requires r in Held(vm, h, op).roots && UserPath(q)
    ensures var m' := Step(vm, op).mem;
            && PathGuarded(m', r, q)
            && LeafOf(Held(vm, h, op), m', r, q) == WordWritten(vm, op, r, q, LeafOf(h, vm.mem, r, q))
  {
    hide AllocatorOk, TablesOk, MapPage, UnmapPage, NewProc, Resolve, SameFrame, PathGuarded, LeafWord, Alloc, Free,
      PathOf;
    match op
    case Map(root, vaddr, paddr, flags) => MapOpens(vm, t, live, root, PathOf(vaddr), paddr, flags, r, q);
    case Unmap(root, vaddr) => UnmapClears(vm, t, live, root, PathOf(vaddr), r, q);
    case Spawn(bootPdp, shared0) =>
      SpawnRoot(vm, bootPdp, shared0);
      if r == TakenFrame(vm) {
        SpawnGuards(vm, live, bootPdp, shared0, q);
      } else {
        var t', live' := SpawnRefines(vm, t, live, bootPdp, shared0);
        SamePath(vm.mem, Step(vm, op).mem, t, r, q);
      }
    case AllocData =>
      AllocFresh(vm, live);
      LiveFrames(vm, live);
      SamePath(vm.mem, Step(vm, op).mem, t, r, q);
    case FreeData(f) =>
      LiveFrames(vm, live);
      if f != 0 {
        FreeKeeps(vm, live, f);
        SamePath(vm.mem, Step(vm, op).mem, t, r, q);
      } else {
        FreeNothing(vm);
      }
  }

  lemma FreeNothing(vm: Vm)
    ensures Free(vm, 0) == vm
  {
  }

  lemma StepGuarded(vm: Vm, h: Holdings, t: Tables, live: set<nat>, op: Op)
    requires Good(vm, h, t, live) && Allowed(h, op) && Guarded(vm.mem, h.roots)
    ensures Guarded(Step(vm, op).mem, Held(vm, h, op).roots)
  {
    hide Good, Step, PathGuarded, Held, Allowed;
    forall r, q | r in Held(vm, h, op).roots && UserPath(q)
      ensures PathGuarded(Step(vm, op).mem, r, q)
    {
      StepOpens(vm, h, t, live, op, r, q);
    }
  }

  /** Over every run of spawns, maps, unmaps, allocations and releases, in every process there is at
      the end: the leaf of a page is the word the last map or unmap of it stored; Ring 3 can reach
      the page, through all four levels, exactly if that word is present and has the user bit, and
      can write it exactly if that word is present and has the write bit. No operation on another
      page or process adds or takes a permission. */
  lemma {:induction false} AccessIsLastWrite(vm: Vm, h: Holdings, t: Tables, live: set<nat>, ops: seq<Op>,
      r: nat, q: seq<nat>)
    requires Good(vm, h, t, live) && AllAllowed(vm, h, ops) && Guarded(vm.mem, h.roots)
    requires r in HeldAfter(vm, h, ops).roots && UserPath(q)
    ensures var m', w := Run(vm, ops).mem, LastWord(vm, ops, r, q, LeafOf(h, vm.mem, r, q));
            && LeafWord(m', r, q) == w
            && (UserMay(m', r, q) <==> IsPresent(w) && HasUser(w))
            && (WriteMay(m', r, q) <==> IsPresent(w) && HasWrite(w))
    decreases |ops|
  {
    hide Good, Step, Held, Allowed, LeafWord, PathGuarded, UserMay, WriteMay, WordWritten, IsPresent, HasUser, HasWrite;
    if ops == [] {
      LeafDecides(vm.mem, r, q);
    } else {
      var op := ops[0];
      var t1, live1 := StepGood(vm, h, t, live, op);
      StepGuarded(vm, h, t, live, op);
      var vm1, h1 := Step(vm, op), Held(vm, h, op);
      AccessIsLastWrite(vm1, h1, t1, live1, ops[1..], r, q);
      LeafStep(vm, h, t, live, op, r, q);
    }
  }

  /** Whether or not the process exists yet. */
  lemma LeafStep(vm: Vm, h: Holdings, t: Tables, live: set<nat>, op: Op, r: nat, q: seq<nat>)
    requires Good(vm, h, t, live) && Allowed(h, op) && Guarded(vm.mem, h.roots) && UserPath(q)
    ensures LeafOf(Held(vm, h, op), Step(vm, op).mem, r, q) == WordWritten(vm, op, r, q, LeafOf(h, vm.mem, r, q))
  {
    hide Good, Step, LeafWord, Guarded;
    if r in Held(vm, h, op).roots {
      StepOpens(vm, h, t, live, op, r, q);
    }
  }

  /** The same from boot, with nothing to assume of the memory. */
  lemma AccessFromBoot(vm: Vm, live: set<nat>, ops: seq<Op>, r: nat, q: seq<nat>)
    requires vm.free == [] && Aligned(vm.next) && 0 < vm.next && forall f :: f in live ==> IsFrame(vm, f)
    requires AllAllowed(vm, Holdings({}, {}), ops)
    requires r in HeldAfter(vm, Holdings({}, {}), ops).roots && UserPath(q)
    ensures var m', w := Run(vm, ops).mem, LastWord(vm, ops, r, q, 0);
            && LeafWord(m', r, q) == w
            && (UserMay(m', r, q) <==> IsPresent(w) && HasUser(w))
            && (WriteMay(m', r, q) <==> IsPresent(w) && HasWrite(w))
  {
    hide Good, Run, LastWord, HeldAfter, AllAllowed, LeafWord, UserMay, WriteMay, IsPresent, HasUser, HasWrite;
    BootGood(vm, live);
    AccessIsLastWrite(vm, Holdings({}, {}), map[], live, ops, r, q);
  }
}
