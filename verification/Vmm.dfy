/** The virtual-memory code as the kernel runs it: words of memory, the free stack and the bump
    pointer updated in place (src/vm.go:64-149, 212-351; src/proc_pml4.go:52-92). */
module Vmm {
  import opened PhysMem
  import opened PageTable

  class Machine {
    var mem: Mem
    const freeStack: array<nat>
    var freeStackLen: nat
    var nextFreePage: nat
    var bootKernelPdp: nat
    var sharedKernelPdp0: nat

    ghost predicate Valid()
      reads this
    {
      freeStack.Length == FREE_STACK_CAP && freeStackLen <= FREE_STACK_CAP
    }

    ghost function State(): Vm
      requires Valid()
      reads this, freeStack
    {
      Vm(mem, freeStack[..freeStackLen], nextFreePage)
    }

    /** vmInit: an empty free stack and the first page boundary at or after the kernel's end. */
    constructor (contents: Mem, allocStart: nat)
      ensures Valid()
      ensures State().mem == contents && State().free == []
      ensures Aligned(State().next) && allocStart <= State().next < allocStart + PAGE
      ensures sharedKernelPdp0 == 0
    {
      mem := contents;
      freeStack := new nat[FREE_STACK_CAP];
      freeStackLen := 0;
      nextFreePage := FrameOf(allocStart + PAGE - 1);
      bootKernelPdp, sharedKernelPdp0 := 0, 0;
    }

    /** Clear a page word by word. */
    method ZeroPage(page: nat)
      modifies this`mem
      ensures mem == Zeroed(old(mem), page)
    {
      var i := 0;
      while i < PAGE
        modifies this`mem
        invariant i <= PAGE && i % 8 == 0
        invariant mem == Cleared(old(mem), page, i / 8)
      {
        assert page + i == Word(page, i / 8);
        mem := mem[page + i := 0];
        i := i + 8;
      }
    }

    method AllocPage() returns (page: nat)
      requires Valid()
      modifies this`mem, this`freeStackLen, this`nextFreePage
      ensures Valid()
      ensures page == TakenFrame(old(State())) && State() == Alloc(old(State()))
    {
      hide Zeroed;
      if freeStackLen > 0 {
        freeStackLen := freeStackLen - 1;
        page := freeStack[freeStackLen];
      } else {
        page := nextFreePage;
        nextFreePage := nextFreePage + PAGE;
      }
      ZeroPage(page);
      assert old(freeStackLen) > 0 ==> freeStack[..freeStackLen] == old(freeStack[..freeStackLen])[..freeStackLen];
    }

    method FreePage(paddr: nat)
      requires Valid()
      modifies this`mem, this`freeStackLen, freeStack
      ensures Valid()
      ensures State() == Free(old(State()), paddr)
    {
      hide Zeroed;
      if paddr == 0 {
        return;
      }
      ZeroPage(paddr);
      if freeStackLen < FREE_STACK_CAP {
        freeStack[freeStackLen] := paddr;
        freeStackLen := freeStackLen + 1;
      }
    }

    method WalkOrCreate(table: nat, index: nat, flags: nat) returns (next: nat)
      requires Valid()
      modifies this`mem, this`freeStackLen, this`nextFreePage
      ensures Valid()
      ensures (State(), next) == PageTable.WalkOrCreate(old(State()), table, index, HasUser(flags))
    {
      hide Zeroed;
      var entry := Load(mem, Word(table, index));
      if IsPresent(entry) {
        WithUserFrame(entry);
        if HasUser(flags) {
          entry := WithUser(entry);
          mem := mem[Word(table, index) := entry];
        }
        return FrameOf(entry);
      }
      next := AllocPage();
      var intermediate := PRESENT + WRITE;
      if HasUser(flags) {
        intermediate := intermediate + USER;
      }
      mem := mem[Word(table, index) := Or(next, intermediate)];
    }

    /** walkExisting only reads. */
    function WalkExisting(table: nat, index: nat): (next: nat)
      reads this`mem
      ensures next == Next(mem, table, index)
    {
      var entry := Load(mem, Word(table, index));
      if !IsPresent(entry) then 0 else FrameOf(entry)
    }

    method MapPageInto(pml4: nat, vaddr: nat, paddr: nat, flags: nat)
      requires Valid()
      modifies this`mem, this`freeStackLen, this`nextFreePage
      ensures Valid()
      ensures State() == MapPage(old(State()), pml4, PathOf(vaddr), paddr, flags)
    {
      hide PageTable.WalkOrCreate;
      var path := PathOf(vaddr);
      var pdp := WalkOrCreate(pml4, path[0], flags);
      var pd := WalkOrCreate(pdp, path[1], flags);
      var pt := WalkOrCreate(pd, path[2], flags);
      mem := mem[Word(pt, path[3]) := Or(FrameOf(paddr), flags)];
    }

    method UnmapPageFrom(pml4: nat, vaddr: nat)
      requires Valid()
      modifies this`mem
      ensures Valid()
      ensures State() == UnmapPage(old(State()), pml4, PathOf(vaddr))
    {
      hide IsPresent, FrameOf;
      var path := PathOf(vaddr);
      var pdp := WalkExisting(pml4, path[0]);
      if pdp == 0 {
        return;
      }
      var pd := WalkExisting(pdp, path[1]);
      if pd == 0 {
        return;
      }
      var pt := WalkExisting(pd, path[2]);
      if pt == 0 {
        return;
      }
      mem := mem[Word(pt, path[3]) := 0];
    }

    method WalkAndGetPaddrIn(pml4: nat, vaddr: nat) returns (paddr: nat)
      ensures paddr == Walk(mem, pml4, PathOf(vaddr))
      ensures pml4 != 0 ==> paddr == Resolve(mem, pml4, PathOf(vaddr))
    {
      hide IsPresent, FrameOf;
      var path := PathOf(vaddr);
      if pml4 != 0 {
        WalkIsResolve(mem, pml4, path);
      }
      var pdp := WalkExisting(pml4, path[0]);
      if pdp == 0 {
        return 0;
      }
      var pd := WalkExisting(pdp, path[1]);
      if pd == 0 {
        return 0;
      }
      var pt := WalkExisting(pd, path[2]);
      if pt == 0 {
        return 0;
      }
      paddr := WalkExisting(pt, path[3]);
    }

    /** Remember the boot PDP and its entry 0 once; cr3 is the boot PML4. */
    method CaptureKernelPdp0(cr3: nat)
      modifies this`bootKernelPdp, this`sharedKernelPdp0
      ensures old(sharedKernelPdp0) != 0 ==>
                sharedKernelPdp0 == old(sharedKernelPdp0) && bootKernelPdp == old(bootKernelPdp)
      ensures old(sharedKernelPdp0) == 0 && IsPresent(Entry(mem, FrameOf(cr3), 0)) ==>
                && bootKernelPdp == Next(mem, FrameOf(cr3), 0)
                && sharedKernelPdp0 == Entry(mem, bootKernelPdp, 0)
      ensures old(sharedKernelPdp0) == 0 && !IsPresent(Entry(mem, FrameOf(cr3), 0)) ==>
                sharedKernelPdp0 == 0 && bootKernelPdp == old(bootKernelPdp)
    {
      if sharedKernelPdp0 != 0 {
        return;
      }
      var bootP := FrameOf(cr3);
      var entry := Load(mem, Word(bootP, 0));
      if !IsPresent(entry) {
        return;
      }
      bootKernelPdp := FrameOf(entry);
      sharedKernelPdp0 := Load(mem, Word(bootKernelPdp, 0));
    }

    method NewProcPml4(cr3: nat) returns (pml4: nat)
      requires Valid()
      modifies this
      ensures Valid()
      ensures (State(), pml4) == NewProc(old(State()), bootKernelPdp, sharedKernelPdp0)
    {
      hide Zeroed, Alloc, TakenFrame;
      CaptureKernelPdp0(cr3);
      pml4 := AllocPage();
      var pdp := AllocPage();
      mem := mem[Word(pml4, 0) := Or(pdp, PRESENT + WRITE + USER)];
      mem := mem[Word(pdp, 0) := sharedKernelPdp0];
      var pdp3 := Load(mem, Word(bootKernelPdp, 3));
      if IsPresent(pdp3) {
        mem := mem[Word(pdp, 3) := pdp3];
      }
    }
  }
}
