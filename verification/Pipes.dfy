/** Pipe ends in file-descriptor tables: reference counts, the one close of the channel, and end
    of file (src/fd.go:262-348, src/pipe.go:24-139, src/process.go:363-371,
    src/userspace.go:724-748). */
module Pipes {

  const MAX_FDS: nat := 16
  const PIPE_BYTES: nat := 4096

  type Pid = nat
  type PipeId = nat
  type Byte = b: nat | b < 256

  /** A slot: empty, an end of a pipe, a socket (never inherited), or any other descriptor. */
  datatype Desc = Nil | Reader(p: PipeId) | Writer(p: PipeId) | Socket | Other

  type Table = t: seq<Desc> | |t| == MAX_FDS witness seq(MAX_FDS, _ => Nil)

  /** A pipe; chanClosed, closes, written and consumed record what happened to its channel. */
  datatype Pipe = Pipe(rdClosed: bool, wrClosed: bool, rdRefs: int, wrRefs: int,
    buf: seq<Byte>, chanClosed: bool, closes: nat, written: seq<Byte>, consumed: seq<Byte>)

  /** Tables of all processes ever started, by pid; lost are pipes whose creation failed. */
  datatype Sys = Sys(procs: seq<Table>, pipes: map<PipeId, Pipe>, lost: set<PipeId>)

  // ---- reference counting ----

  function AddRef(s: Sys, d: Desc): Sys {
    match d
    case Reader(p) =>
      if p in s.pipes then s.(pipes := s.pipes[p := s.pipes[p].(rdRefs := s.pipes[p].rdRefs + 1)]) else s
    case Writer(p) =>
      if p in s.pipes then s.(pipes := s.pipes[p := s.pipes[p].(wrRefs := s.pipes[p].wrRefs + 1)]) else s
    case _ => s
  }

  function CloseReader(x: Pipe): Pipe {
    if x.rdClosed then x
    else
      var refs := if x.rdRefs > 0 then x.rdRefs - 1 else x.rdRefs;
      x.(rdRefs := refs, rdClosed := refs == 0)
  }

  function CloseWriter(x: Pipe): Pipe {
    if x.wrClosed then x
    else
      var refs := if x.wrRefs > 0 then x.wrRefs - 1 else x.wrRefs;
      if refs == 0 then x.(wrRefs := 0, wrClosed := true, chanClosed := true, closes := x.closes + 1)
      else x.(wrRefs := refs)
  }

  function CloseDesc(s: Sys, d: Desc): Sys {
    match d
    case Reader(p) => if p in s.pipes then s.(pipes := s.pipes[p := CloseReader(s.pipes[p])]) else s
    case Writer(p) => if p in s.pipes then s.(pipes := s.pipes[p := CloseWriter(s.pipes[p])]) else s
    case _ => s
  }

  function SetSlot(s: Sys, pid: Pid, fd: nat, d: Desc): Sys
    requires pid < |s.procs| && fd < MAX_FDS
  {
    s.(procs := s.procs[pid := s.procs[pid][fd := d]])
  }

  // ---- operations ----

  /** The lowest empty slot at or after i, or MAX_FDS. */
  function FreeSlot(t: Table, i: nat): (fd: nat)
    requires i <= MAX_FDS
    ensures i <= fd <= MAX_FDS
    ensures fd < MAX_FDS ==> t[fd] == Nil
    ensures forall j :: i <= j < fd ==> t[j] != Nil
    decreases MAX_FDS - i
  {
    if i == MAX_FDS || t[i] == Nil then i else FreeSlot(t, i + 1)
  }

  function Close(s: Sys, pid: Pid, fd: nat): Sys
    requires pid < |s.procs| && fd < MAX_FDS
  {
    var d := s.procs[pid][fd];
    if d == Nil then s else CloseDesc(SetSlot(s, pid, fd, Nil), d)
  }

  /** dup2, whose first act on a used target is to close what it holds. */
  function Dup2(s: Sys, pid: Pid, oldFd: nat, newFd: nat): Sys
    requires pid < |s.procs| && oldFd < MAX_FDS && newFd < MAX_FDS
  {
    var d := s.procs[pid][oldFd];
    if d == Nil || oldFd == newFd then s
    else AddRef(SetSlot(CloseDesc(s, s.procs[pid][newFd]), pid, newFd, d), d)
  }

  function FreshPipe(): Pipe {
    Pipe(false, false, 1, 1, [], false, 0, [], [])
  }

  /** sys_pipe: on failure the pipe is lost, and a read end already installed is closed again. */
  function MakePipe(s: Sys, pid: Pid, p: PipeId): Sys
    requires pid < |s.procs|
  {
    var s0 := s.(pipes := s.pipes[p := FreshPipe()]);
    var rd := FreeSlot(s.procs[pid], 0);
    if rd == MAX_FDS then s0.(lost := s.lost + {p})
    else
      var s1 := SetSlot(s0, pid, rd, Reader(p));
      var wr := FreeSlot(s1.procs[pid], 0);
      if wr == MAX_FDS then Close(s1, pid, rd).(lost := s.lost + {p})
      else SetSlot(s1, pid, wr, Writer(p))
  }

  /** Slots i.. of the parent copied to the child, sockets left out. */
  function Inherit(s: Sys, parent: Pid, child: Pid, i: nat): Sys
    requires parent < |s.procs| && child < |s.procs| && i <= MAX_FDS
    decreases MAX_FDS - i
  {
    if i == MAX_FDS then s
    else
      var d := s.procs[parent][i];
      if d == Socket then Inherit(SetSlot(s, child, i, Nil), parent, child, i + 1)
      else Inherit(AddRef(SetSlot(s, child, i, d), d), parent, child, i + 1)
  }

  function EmptyTable(): Table {
    seq(MAX_FDS, _ => Nil)
  }

  function Stdio(): Table {
    EmptyTable()[0 := Other][1 := Other][2 := Other]
  }

  function Spawn(s: Sys, parent: Pid): Sys
    requires parent < |s.procs|
  {
    Inherit(s.(procs := s.procs + [EmptyTable()]), parent, |s.procs|, 0)
  }

  /** Slots i.. closed one by one, as on exit. */
  function CloseAll(s: Sys, pid: Pid, i: nat): Sys
    requires pid < |s.procs| && i <= MAX_FDS
    decreases MAX_FDS - i
  {
    if i == MAX_FDS then s
    else if s.procs[pid][i] == Nil then CloseAll(s, pid, i + 1)
    else CloseAll(SetSlot(CloseDesc(s, s.procs[pid][i]), pid, i, Nil), pid, i + 1)
  }

  datatype Sent = Ok | BrokenPipe | Bad | WouldBlock

  /** One byte of a Write. */
  function SendByte(s: Sys, p: PipeId, b: Byte): (Sys, Sent) {
    if p !in s.pipes || s.pipes[p].wrClosed then (s, Bad)
    else if s.pipes[p].rdClosed then (s, BrokenPipe)
    else if |s.pipes[p].buf| >= PIPE_BYTES then (s, WouldBlock)
    else (s.(pipes := s.pipes[p := s.pipes[p].(buf := s.pipes[p].buf + [b], written := s.pipes[p].written + [b])]), Ok)
  }

  /** The byte of a send that parked on a full channel goes in as soon as there is room, whatever
      has become of the reader. The channel is open: its process still holds the write end. */
  function SendParked(s: Sys, p: PipeId, b: Byte): (Sys, Sent) {
    if p !in s.pipes || s.pipes[p].chanClosed then (s, Bad)
    else if |s.pipes[p].buf| >= PIPE_BYTES then (s, WouldBlock)
    else (s.(pipes := s.pipes[p := s.pipes[p].(buf := s.pipes[p].buf + [b], written := s.pipes[p].written + [b])]), Ok)
  }

  datatype Received = Got(b: Byte) | Eof | Empty

  /** One byte of a Read. */
  function ReceiveByte(s: Sys, p: PipeId): (Sys, Received) {
    if p !in s.pipes then (s, Empty)
    else
      var x := s.pipes[p];
      if x.buf != [] then
        (s.(pipes := s.pipes[p := x.(buf := x.buf[1..], consumed := x.consumed + [x.buf[0]])]), Got(x.buf[0]))
      else if x.chanClosed then (s, Eof)
      else (s, Empty)
  }

  // ---- counting slots ----

  function Held(procs: seq<Table>, d: Desc): nat {
    if procs == [] then 0 else Held(procs[..|procs| - 1], d) + multiset(procs[|procs| - 1])[d]
  }

  lemma {:induction false} HeldUpdate(procs: seq<Table>, pid: Pid, t: Table, d: Desc)
    requires pid < |procs|
    ensures Held(procs[pid := t], d) == Held(procs, d) - multiset(procs[pid])[d] + multiset(t)[d]
    decreases |procs|
  {
    var n := |procs| - 1;
    if pid == n {
      assert procs[pid := t][..n] == procs[..n];
    } else {
      HeldUpdate(procs[..n], pid, t, d);
      assert procs[pid := t][..n] == procs[..n][pid := t];
    }
  }

  lemma {:induction false} HeldSome(procs: seq<Table>, pid: Pid, fd: nat)
    requires pid < |procs| && fd < MAX_FDS
    ensures Held(procs, procs[pid][fd]) >= 1
    decreases |procs|
  {
    var n := |procs| - 1;
    var d := procs[pid][fd];
    assert d in multiset(procs[pid]);
    if pid < n {
      HeldSome(procs[..n], pid, fd);
    }
  }

  lemma SlotCount(t: Table, fd: nat, d: Desc, x: Desc)
    requires fd < MAX_FDS
    ensures multiset(t[fd := d])[x] ==
            multiset(t)[x] - (if t[fd] == x then 1 else 0) + (if d == x then 1 else 0)
  {
    assert t == t[..fd] + [t[fd]] + t[fd + 1..];
    assert t[fd := d] == t[..fd] + [d] + t[fd + 1..];
  }

  lemma SetSlotHeld(s: Sys, pid: Pid, fd: nat, d: Desc, x: Desc)
    requires pid < |s.procs| && fd < MAX_FDS
    ensures Held(SetSlot(s, pid, fd, d).procs, x) ==
            Held(s.procs, x) - (if s.procs[pid][fd] == x then 1 else 0) + (if d == x then 1 else 0)
  {
    HeldUpdate(s.procs, pid, s.procs[pid][fd := d], x);
    SlotCount(s.procs[pid], fd, d, x);
  }

  // ---- the invariant ----

  /** References in hand: descriptors counted but not (yet, or any more) in a slot. */
  type Hand = multiset<Desc>

  ghost predicate CountsOk(s: Sys, h: Hand, p: PipeId)
    requires p in s.pipes
  {
    var x := s.pipes[p];
    var r, w := Held(s.procs, Reader(p)) + h[Reader(p)], Held(s.procs, Writer(p)) + h[Writer(p)];
    if p in s.lost then
      && r == 0 && w == 0
      && x.wrRefs == 1 && !x.wrClosed && !x.chanClosed && x.closes == 0
      && x.rdRefs == (if x.rdClosed then 0 else 1)
    else
      && x.rdRefs == r && x.wrRefs == w && (x.rdClosed <==> r == 0) && (x.wrClosed <==> w == 0)
      && (x.chanClosed <==> w == 0) && x.closes == (if w == 0 then 1 else 0)
  }

  ghost predicate StreamOk(x: Pipe) {
    x.written == x.consumed + x.buf && |x.buf| <= PIPE_BYTES
  }

  ghost predicate NoStray(s: Sys, h: Hand) {
    forall p :: p !in s.pipes ==>
      Held(s.procs, Reader(p)) == 0 && Held(s.procs, Writer(p)) == 0 && h[Reader(p)] == 0 && h[Writer(p)] == 0
  }

  ghost predicate Balanced(s: Sys, h: Hand) {
    && (forall p :: p in s.pipes ==> CountsOk(s, h, p) && StreamOk(s.pipes[p]))
    && NoStray(s, h)
  }

  ghost predicate Inv(s: Sys) {
    Balanced(s, multiset{})
  }

  predicate IsEnd(d: Desc) {
    d.Reader? || d.Writer?
  }

  /** Two states whose pipes agree and whose slots plus hand count every end alike. */
  lemma Rebalance(s: Sys, h: Hand, s': Sys, h': Hand)
    requires Balanced(s, h) && s'.pipes == s.pipes && s'.lost == s.lost
    requires forall d :: IsEnd(d) ==> Held(s'.procs, d) + h'[d] == Held(s.procs, d) + h[d]
    ensures Balanced(s', h')
  {
    forall p | p in s'.pipes
      ensures CountsOk(s', h', p) && StreamOk(s'.pipes[p])
    {
      assert CountsOk(s, h, p);
    }
    forall p: PipeId | p !in s'.pipes
      ensures Held(s'.procs, Reader(p)) == 0 && Held(s'.procs, Writer(p)) == 0
      ensures h'[Reader(p)] == 0 && h'[Writer(p)] == 0
    {
      assert IsEnd(Reader(p)) && IsEnd(Writer(p));
    }
  }

  /** Emptying a slot takes its descriptor in hand; filling an empty one puts it down. */
  lemma PickUp(s: Sys, h: Hand, pid: Pid, fd: nat)
    requires Balanced(s, h) && pid < |s.procs| && fd < MAX_FDS
    ensures Balanced(SetSlot(s, pid, fd, Nil), h + multiset{s.procs[pid][fd]})
  {
    hide Balanced, SetSlot;
    var s', h' := SetSlot(s, pid, fd, Nil), h + multiset{s.procs[pid][fd]};
    forall d | IsEnd(d)
      ensures Held(s'.procs, d) + h'[d] == Held(s.procs, d) + h[d]
    {
      SetSlotHeld(s, pid, fd, Nil, d);
    }
    SlotOnly(s, pid, fd, Nil);
    Rebalance(s, h, s', h');
  }

  lemma SlotOnly(s: Sys, pid: Pid, fd: nat, d: Desc)
    requires pid < |s.procs| && fd < MAX_FDS
    ensures SetSlot(s, pid, fd, d).pipes == s.pipes && SetSlot(s, pid, fd, d).lost == s.lost
  {
  }

  lemma PutDown(s: Sys, h: Hand, pid: Pid, fd: nat, d: Desc)
    requires Balanced(s, h) && pid < |s.procs| && fd < MAX_FDS
    requires !IsEnd(s.procs[pid][fd]) && (IsEnd(d) ==> h[d] > 0)
    ensures Balanced(SetSlot(s, pid, fd, d), h - multiset{d})
  {
    hide Balanced, SetSlot;
    var s', h' := SetSlot(s, pid, fd, d), h - multiset{d};
    forall x | IsEnd(x)
      ensures Held(s'.procs, x) + h'[x] == Held(s.procs, x) + h[x]
    {
      SetSlotHeld(s, pid, fd, d, x);
    }
    SlotOnly(s, pid, fd, d);
    Rebalance(s, h, s', h');
  }

  /** Changing one pipe and the references to it in hand leaves the others balanced. */
  lemma OnePipe(s: Sys, h: Hand, s': Sys, h': Hand, q: PipeId)
    requires Balanced(s, h) && q in s.pipes && q in s'.pipes
    requires s'.procs == s.procs && s'.lost == s.lost && s'.pipes == s.pipes[q := s'.pipes[q]]
    requires forall d :: IsEnd(d) && d.p != q ==> h'[d] == h[d]
    requires CountsOk(s', h', q) && StreamOk(s'.pipes[q])
    ensures Balanced(s', h')
  {
    forall p | p in s'.pipes
      ensures CountsOk(s', h', p) && StreamOk(s'.pipes[p])
    {
      assert p != q ==> CountsOk(s, h, p) && IsEnd(Reader(p)) && IsEnd(Writer(p));
    }
    forall p: PipeId | p !in s'.pipes
      ensures h'[Reader(p)] == 0 && h'[Writer(p)] == 0
    {
      assert IsEnd(Reader(p)) && IsEnd(Writer(p));
    }
  }

  lemma KnownEnd(s: Sys, h: Hand, d: Desc)
    requires Balanced(s, h) && IsEnd(d) && Held(s.procs, d) + h[d] > 0
    ensures d.p in s.pipes && d.p !in s.lost && CountsOk(s, h, d.p) && StreamOk(s.pipes[d.p])
  {
    assert d == Reader(d.p) || d == Writer(d.p);
    if d.p in s.pipes {
      assert CountsOk(s, h, d.p);
    }
  }

  /** Closing a descriptor in hand spends it. */
  lemma Spend(s: Sys, h: Hand, d: Desc)
    requires Balanced(s, h) && (IsEnd(d) ==> h[d] > 0)
    ensures Balanced(CloseDesc(s, d), h - multiset{d})
  {
    hide Balanced, Held;
    var s', h' := CloseDesc(s, d), h - multiset{d};
    if IsEnd(d) {
      KnownEnd(s, h, d);
      OnePipe(s, h, s', h', d.p);
    } else {
      Rebalance(s, h, s', h');
    }
  }

  /** A reference to an end that some slot holds can be added. */
  lemma Gain(s: Sys, h: Hand, d: Desc)
    requires Balanced(s, h) && (IsEnd(d) ==> Held(s.procs, d) > 0)
    ensures Balanced(AddRef(s, d), h + multiset{d})
  {
    hide Balanced, Held;
    var s', h' := AddRef(s, d), h + multiset{d};
    if IsEnd(d) {
      KnownEnd(s, h, d);
      OnePipe(s, h, s', h', d.p);
    } else {
      Rebalance(s, h, s', h');
    }
  }

  // ---- every operation keeps the balance ----

  lemma Drop(s: Sys, h: Hand, d: Desc)
    requires Balanced(s, h + multiset{d} - multiset{d})
    ensures Balanced(s, h)
  {
    assert h + multiset{d} - multiset{d} == h;
  }

  lemma CloseKeeps(s: Sys, h: Hand, pid: Pid, fd: nat)
    requires Balanced(s, h) && pid < |s.procs| && fd < MAX_FDS
    ensures Balanced(Close(s, pid, fd), h)
  {
    hide Balanced, SetSlot, CloseDesc;
    var d := s.procs[pid][fd];
    if d != Nil {
      PickUp(s, h, pid, fd);
      Spend(SetSlot(s, pid, fd, Nil), h + multiset{d}, d);
      Drop(CloseDesc(SetSlot(s, pid, fd, Nil), d), h, d);
    }
  }

  /** Closing and clearing a slot, in either order. */
  lemma CloseThenClear(s: Sys, pid: Pid, fd: nat, d: Desc)
    requires pid < |s.procs| && fd < MAX_FDS
    ensures CloseDesc(s, d).procs == s.procs
    ensures SetSlot(CloseDesc(s, d), pid, fd, Nil) == CloseDesc(SetSlot(s, pid, fd, Nil), d)
  {
  }

  lemma AddThenSet(s: Sys, pid: Pid, fd: nat, d: Desc)
    requires pid < |s.procs| && fd < MAX_FDS
    ensures AddRef(s, d).procs == s.procs
    ensures AddRef(SetSlot(s, pid, fd, d), d) == SetSlot(AddRef(s, d), pid, fd, d)
  {
  }

  /** Copying a held descriptor into an empty slot. */
  lemma CopyKeeps(s: Sys, h: Hand, pid: Pid, fd: nat, d: Desc)
    requires Balanced(s, h) && pid < |s.procs| && fd < MAX_FDS && !IsEnd(s.procs[pid][fd])
    requires IsEnd(d) ==> Held(s.procs, d) > 0
    ensures Balanced(AddRef(SetSlot(s, pid, fd, d), d), h)
  {
    hide Balanced, SetSlot, AddRef, Held;
    AddThenSet(s, pid, fd, d);
    Gain(s, h, d);
    PutDown(AddRef(s, d), h + multiset{d}, pid, fd, d);
    Drop(SetSlot(AddRef(s, d), pid, fd, d), h, d);
  }

  lemma Dup2Keeps(s: Sys, h: Hand, pid: Pid, oldFd: nat, newFd: nat)
    requires Balanced(s, h) && pid < |s.procs| && oldFd < MAX_FDS && newFd < MAX_FDS
    ensures Balanced(Dup2(s, pid, oldFd, newFd), h)
  {
    hide Balanced, CloseDesc, AddRef, Held;
    var d, e := s.procs[pid][oldFd], s.procs[pid][newFd];
    if d != Nil && oldFd != newFd {
      CloseKeeps(s, h, pid, newFd);
      CloseThenClear(s, pid, newFd, e);
      var s1 := SetSlot(CloseDesc(s, e), pid, newFd, Nil);
      NothingToClose(s, pid, newFd);
      assert Balanced(s1, h);
      HeldSome(s1.procs, pid, oldFd);
      assert s1.procs[pid][oldFd] == d;
      CopyKeeps(s1, h, pid, newFd, d);
      SetTwice(CloseDesc(s, e), pid, newFd, Nil, d);
    }
  }

  lemma SetTwice(s: Sys, pid: Pid, fd: nat, d: Desc, e: Desc)
    requires pid < |s.procs| && fd < MAX_FDS
    ensures SetSlot(SetSlot(s, pid, fd, d), pid, fd, e) == SetSlot(s, pid, fd, e)
  {
    var t := s.procs[pid];
    assert t[fd := d][fd := e] == t[fd := e];
    assert s.procs[pid := t[fd := d]][pid := t[fd := e]] == s.procs[pid := t[fd := e]];
  }

  lemma NothingToClose(s: Sys, pid: Pid, fd: nat)
    requires pid < |s.procs| && fd < MAX_FDS
    ensures s.procs[pid][fd] == Nil ==>
              SetSlot(CloseDesc(s, Nil), pid, fd, Nil) == s && Close(s, pid, fd) == s
  {
    if s.procs[pid][fd] == Nil {
      assert s.procs[pid][fd := Nil] == s.procs[pid];
      assert s.procs[pid := s.procs[pid]] == s.procs;
    }
  }

  lemma {:induction false} CloseAllKeeps(s: Sys, h: Hand, pid: Pid, i: nat)
    requires Balanced(s, h) && pid < |s.procs| && i <= MAX_FDS
    ensures Balanced(CloseAll(s, pid, i), h) && |CloseAll(s, pid, i).procs| == |s.procs|
    ensures forall j :: 0 <= j < MAX_FDS ==>
              CloseAll(s, pid, i).procs[pid][j] == if j < i then s.procs[pid][j] else Nil
    decreases MAX_FDS - i
  {
    hide Balanced, CloseDesc;
    if i < MAX_FDS {
      if s.procs[pid][i] == Nil {
        CloseAllKeeps(s, h, pid, i + 1);
      } else {
        CloseKeeps(s, h, pid, i);
        CloseThenClear(s, pid, i, s.procs[pid][i]);
        var s1 := SetSlot(CloseDesc(s, s.procs[pid][i]), pid, i, Nil);
        CloseAllKeeps(s1, h, pid, i + 1);
      }
    }
  }

  lemma {:induction false} InheritKeeps(s: Sys, h: Hand, parent: Pid, child: Pid, i: nat)
    requires Balanced(s, h) && parent < |s.procs| && child < |s.procs| && parent != child && i <= MAX_FDS
    requires forall j :: i <= j < MAX_FDS ==> s.procs[child][j] == Nil
    ensures Balanced(Inherit(s, parent, child, i), h)
    decreases MAX_FDS - i
  {
    hide Balanced, AddRef, Held;
    if i < MAX_FDS {
      var d := s.procs[parent][i];
      if d == Socket {
        assert s.procs[child][i := Nil] == s.procs[child];
        assert s.procs[child := s.procs[child]] == s.procs;
        InheritKeeps(SetSlot(s, child, i, Nil), h, parent, child, i + 1);
      } else {
        HeldSome(s.procs, parent, i);
        CopyKeeps(s, h, child, i, d);
        AddThenSet(s, child, i, d);
        InheritKeeps(AddRef(SetSlot(s, child, i, d), d), h, parent, child, i + 1);
      }
    }
  }

  lemma NewTable(s: Sys, h: Hand, t: Table)
    requires Balanced(s, h) && forall i :: 0 <= i < MAX_FDS ==> !IsEnd(t[i])
    ensures Balanced(s.(procs := s.procs + [t]), h)
  {
    hide Balanced;
    var s' := s.(procs := s.procs + [t]);
    forall d | IsEnd(d)
      ensures Held(s'.procs, d) == Held(s.procs, d)
    {
      assert s'.procs[..|s.procs|] == s.procs;
      assert d !in multiset(t);
    }
    Rebalance(s, h, s', h);
  }

  lemma SpawnKeeps(s: Sys, parent: Pid)
    requires Inv(s) && parent < |s.procs|
    ensures Inv(Spawn(s, parent))
  {
    hide Balanced, Inherit;
    NewTable(s, multiset{}, EmptyTable());
    InheritKeeps(s.(procs := s.procs + [EmptyTable()]), multiset{}, parent, |s.procs|, 0);
  }

  /** A pipe just made is held by its two ends in hand. */
  lemma FreshKeeps(s: Sys, p: PipeId)
    requires Inv(s) && p !in s.pipes && p !in s.lost
    ensures Balanced(s.(pipes := s.pipes[p := FreshPipe()]), multiset{Reader(p), Writer(p)})
  {
    hide Held;
    var s', h' := s.(pipes := s.pipes[p := FreshPipe()]), multiset{Reader(p), Writer(p)};
    forall q | q in s'.pipes
      ensures CountsOk(s', h', q) && StreamOk(s'.pipes[q])
    {
      assert q != p ==> CountsOk(s, multiset{}, q);
    }
  }

  /** A pipe that no slot holds may be given up with its ends still in hand. */
  lemma LoseKeeps(s: Sys, h: Hand, p: PipeId)
    requires Balanced(s, h) && p in s.pipes && p !in s.lost
    requires Held(s.procs, Reader(p)) == 0 && Held(s.procs, Writer(p)) == 0
    requires h[Writer(p)] == 1 && h[Reader(p)] <= 1
    requires forall d :: IsEnd(d) && d.p != p ==> h[d] == 0
    ensures Inv(s.(lost := s.lost + {p}))
  {
    hide Held;
    var s' := s.(lost := s.lost + {p});
    forall q | q in s'.pipes
      ensures CountsOk(s', multiset{}, q) && StreamOk(s'.pipes[q])
    {
      assert CountsOk(s, h, q) && IsEnd(Reader(q)) && IsEnd(Writer(q));
    }
  }

  lemma Unseen(s: Sys, p: PipeId)
    requires Inv(s) && p !in s.pipes
    ensures Held(s.procs, Reader(p)) == 0 && Held(s.procs, Writer(p)) == 0
  {
  }

  lemma PipeKeeps(s: Sys, pid: Pid, p: PipeId)
    requires Inv(s) && pid < |s.procs| && p !in s.pipes && p !in s.lost
    ensures Inv(MakePipe(s, pid, p))
  {
    hide Balanced, Held;
    var s0 := s.(pipes := s.pipes[p := FreshPipe()]);
    var both := multiset{Reader(p), Writer(p)};
    FreshKeeps(s, p);
    Unseen(s, p);
    var rd := FreeSlot(s.procs[pid], 0);
    if rd == MAX_FDS {
      LoseKeeps(s0, both, p);
    } else {
      var s1 := SetSlot(s0, pid, rd, Reader(p));
      PutDown(s0, both, pid, rd, Reader(p));
      assert both - multiset{Reader(p)} == multiset{Writer(p)};
      var wr := FreeSlot(s1.procs[pid], 0);
      if wr == MAX_FDS {
        CloseKeeps(s1, multiset{Writer(p)}, pid, rd);
        var s2 := Close(s1, pid, rd);
        SetSlotHeld(s0, pid, rd, Reader(p), Reader(p));
        SetSlotHeld(s0, pid, rd, Reader(p), Writer(p));
        SetSlotHeld(s1, pid, rd, Nil, Reader(p));
        SetSlotHeld(s1, pid, rd, Nil, Writer(p));
        CloseThenClear(s1, pid, rd, Reader(p));
        LoseKeeps(s2, multiset{Writer(p)}, p);
      } else {
        PutDown(s1, multiset{Writer(p)}, pid, wr, Writer(p));
        assert multiset{Writer(p)} - multiset{Writer(p)} == multiset{};
      }
    }
  }

  lemma {:induction false} FreeSlotNone(t: Table, i: nat)
    requires i <= MAX_FDS
    ensures FreeSlot(t, i) == MAX_FDS <==> multiset(t[i..])[Nil] == 0
    decreases MAX_FDS - i
  {
    if i < MAX_FDS {
      assert t[i..] == [t[i]] + t[i + 1..];
      FreeSlotNone(t, i + 1);
    }
  }

  lemma TwoFree(t: Table, d: Desc)
    requires d != Nil
    ensures FreeSlot(t, 0) < MAX_FDS && FreeSlot(t[FreeSlot(t, 0) := d], 0) < MAX_FDS
            <==> multiset(t)[Nil] >= 2
  {
    assert t[0..] == t;
    FreeSlotNone(t, 0);
    var rd := FreeSlot(t, 0);
    if rd < MAX_FDS {
      var u := t[rd := d];
      SlotCount(t, rd, d, Nil);
      assert u[0..] == u;
      FreeSlotNone(u, 0);
    }
  }

  /** Creation fails, and loses the pipe, exactly when fewer than two slots are free. */
  lemma LosesIff(s: Sys, pid: Pid, p: PipeId)
    requires pid < |s.procs| && p !in s.lost
    ensures p in MakePipe(s, pid, p).lost <==> multiset(s.procs[pid])[Nil] < 2
  {
    hide Close;
    TwoFree(s.procs[pid], Reader(p));
    var rd := FreeSlot(s.procs[pid], 0);
    if rd < MAX_FDS {
      CloseLosesNone(SetSlot(s.(pipes := s.pipes[p := FreshPipe()]), pid, rd, Reader(p)), pid, rd);
    }
  }

  lemma CloseLosesNone(s: Sys, pid: Pid, fd: nat)
    requires pid < |s.procs| && fd < MAX_FDS
    ensures Close(s, pid, fd).lost == s.lost
  {
  }

  // ---- bytes ----

  lemma SendKeeps(s: Sys, p: PipeId, b: Byte)
    requires Inv(s)
    ensures Inv(SendByte(s, p, b).0)
  {
    hide Balanced, Held;
    if SendByte(s, p, b).1.Ok? {
      PipeOk(s, p);
      OnePipe(s, multiset{}, SendByte(s, p, b).0, multiset{}, p);
    }
  }

  lemma ResumeKeeps(s: Sys, p: PipeId, b: Byte)
    requires Inv(s)
    ensures Inv(SendParked(s, p, b).0)
  {
    hide Balanced, Held;
    if SendParked(s, p, b).1.Ok? {
      PipeOk(s, p);
      OnePipe(s, multiset{}, SendParked(s, p, b).0, multiset{}, p);
    }
  }

  lemma PipeOk(s: Sys, p: PipeId)
    requires Inv(s) && p in s.pipes
    ensures CountsOk(s, multiset{}, p) && StreamOk(s.pipes[p])
  {
  }

  lemma ReceiveKeeps(s: Sys, p: PipeId)
    requires Inv(s)
    ensures Inv(ReceiveByte(s, p).0)
  {
    hide Balanced, Held;
    if ReceiveByte(s, p).1.Got? {
      PipeOk(s, p);
      var x := s.pipes[p];
      assert x.consumed + x.buf == (x.consumed + [x.buf[0]]) + x.buf[1..];
      OnePipe(s, multiset{}, ReceiveByte(s, p).0, multiset{}, p);
    }
  }

  // ---- whole runs ----

  datatype Op =
    | PipeOp(pid: Pid, p: PipeId)
    | Dup2Op(pid: Pid, oldFd: nat, newFd: nat)
    | CloseOp(pid: Pid, fd: nat)
    | SpawnOp(pid: Pid)
    | BootOp
    | ExitOp(pid: Pid)
    | SetOp(pid: Pid, fd: nat, d: Desc)
    | WriteOp(pid: Pid, fd: nat, b: Byte)
    | ResumeOp(pid: Pid, fd: nat, b: Byte)
    | ReadOp(pid: Pid, fd: nat)

  /** Processes name their own slots; reads and writes of a pipe go through a slot that holds the
      end; a new pipe is a new object; a file, console or socket may be put into an empty slot. */
  predicate Allowed(s: Sys, op: Op) {
    op.BootOp? || (op.pid < |s.procs| &&
    match op
    case PipeOp(_, p) => p !in s.pipes && p !in s.lost
    case Dup2Op(_, oldFd, newFd) => oldFd < MAX_FDS && newFd < MAX_FDS
    case CloseOp(_, fd) => fd < MAX_FDS
    case SpawnOp(_) => true
    case ExitOp(_) => true
    case SetOp(pid, fd, d) => fd < MAX_FDS && s.procs[pid][fd] == Nil && !IsEnd(d)
    case WriteOp(pid, fd, _) => fd < MAX_FDS && s.procs[pid][fd].Writer?
    case ResumeOp(pid, fd, _) => fd < MAX_FDS && s.procs[pid][fd].Writer?
    case ReadOp(pid, fd) => fd < MAX_FDS && s.procs[pid][fd].Reader?)
  }

  function Do(s: Sys, op: Op): Sys
    requires Allowed(s, op)
  {
    match op
    case PipeOp(pid, p) => MakePipe(s, pid, p)
    case Dup2Op(pid, oldFd, newFd) => Dup2(s, pid, oldFd, newFd)
    case CloseOp(pid, fd) => Close(s, pid, fd)
    case SpawnOp(pid) => Spawn(s, pid)
    case BootOp => s.(procs := s.procs + [Stdio()])
    case ExitOp(pid) => CloseAll(s, pid, 0)
    case SetOp(pid, fd, d) => SetSlot(s, pid, fd, d)
    case WriteOp(pid, fd, b) => SendByte(s, s.procs[pid][fd].p, b).0
    case ResumeOp(pid, fd, b) => SendParked(s, s.procs[pid][fd].p, b).0
    case ReadOp(pid, fd) => ReceiveByte(s, s.procs[pid][fd].p).0
  }

  lemma StepKeeps(s: Sys, op: Op)
    requires Inv(s) && Allowed(s, op)
    ensures Inv(Do(s, op))
  {
    hide Balanced, SetSlot, CloseDesc, AddRef, Close, Dup2, MakePipe, Spawn, CloseAll, SendByte, SendParked,
        ReceiveByte;
    match op
    case PipeOp(pid, p) => PipeKeeps(s, pid, p);
    case Dup2Op(pid, oldFd, newFd) => Dup2Keeps(s, multiset{}, pid, oldFd, newFd);
    case CloseOp(pid, fd) => CloseKeeps(s, multiset{}, pid, fd);
    case SpawnOp(pid) => SpawnKeeps(s, pid);
    case BootOp => NewTable(s, multiset{}, Stdio());
    case ExitOp(pid) => CloseAllKeeps(s, multiset{}, pid, 0);
    case SetOp(pid, fd, d) =>
      PutDown(s, multiset{}, pid, fd, d);
      assert multiset{} - multiset{d} == multiset{};
    case WriteOp(pid, fd, b) => SendKeeps(s, s.procs[pid][fd].p, b);
    case ResumeOp(pid, fd, b) => ResumeKeeps(s, s.procs[pid][fd].p, b);
    case ReadOp(pid, fd) => ReceiveKeeps(s, s.procs[pid][fd].p);
  }

  predicate Possible(s: Sys, ops: seq<Op>)
    decreases |ops|
  {
    ops == [] || (Allowed(s, ops[0]) && Possible(Do(s, ops[0]), ops[1..]))
  }

  function Run(s: Sys, ops: seq<Op>): Sys
    requires Possible(s, ops)
    decreases |ops|
  {
    if ops == [] then s else Run(Do(s, ops[0]), ops[1..])
  }

  lemma {:induction false} RunKeeps(s: Sys, ops: seq<Op>)
    requires Inv(s) && Possible(s, ops)
    ensures Inv(Run(s, ops))
    decreases |ops|
  {
    hide Inv, Do, Allowed;
    if ops != [] {
      StepKeeps(s, ops[0]);
      RunKeeps(Do(s, ops[0]), ops[1..]);
    }
  }

  function Start(): Sys {
    Sys([], map[], {})
  }

  /** Over any mix of pipe, dup2, close, spawn, exit, reads and writes, for every pipe whose
      creation succeeded: each reference count is the number of slots, in all processes, that
      hold that end; the channel has been closed exactly once if no slot holds the write end and
      not at all otherwise; and what was read followed by what is buffered is what was written. A
      pipe whose creation failed keeps a write reference that no slot holds, so its channel is
      never closed: the write count is right exactly for the pipes that were not lost. */
  lemma PipeLifetime(ops: seq<Op>, p: PipeId)
    requires Possible(Start(), ops) && p in Run(Start(), ops).pipes
    ensures var s := Run(Start(), ops);
            var x := s.pipes[p];
            && x.written == x.consumed + x.buf && |x.buf| <= PIPE_BYTES
            && (p !in s.lost ==>
                  && x.rdRefs == Held(s.procs, Reader(p))
                  && x.closes == (if Held(s.procs, Writer(p)) == 0 then 1 else 0)
                  && (x.chanClosed <==> Held(s.procs, Writer(p)) == 0)
                  && (x.rdClosed <==> Held(s.procs, Reader(p)) == 0))
            && (p in s.lost ==>
                  && Held(s.procs, Reader(p)) == 0 && Held(s.procs, Writer(p)) == 0
                  && x.wrRefs == 1 && x.closes == 0 && !x.chanClosed)
            && (x.wrRefs == Held(s.procs, Writer(p)) <==> p !in s.lost)
  {
    RunKeeps(Start(), ops);
    PipeOk(Run(Start(), ops), p);
  }

  /** A process that holds the write end never sends on a closed channel. */
  lemma HeldWriterOpen(s: Sys, pid: Pid, fd: nat, b: Byte)
    requires Inv(s) && pid < |s.procs| && fd < MAX_FDS && s.procs[pid][fd].Writer?
    ensures var p := s.procs[pid][fd].p;
            p in s.pipes && !s.pipes[p].chanClosed && SendByte(s, p, b).1 != Bad && SendParked(s, p, b).1 != Bad
  {
    HeldSome(s.procs, pid, fd);
    KnownEnd(s, multiset{}, s.procs[pid][fd]);
  }

  /** End of file is reported exactly when every byte written has been read and no slot holds the
      write end. */
  lemma EofExactly(s: Sys, pid: Pid, fd: nat)
    requires Inv(s) && pid < |s.procs| && fd < MAX_FDS && s.procs[pid][fd].Reader?
    ensures var p := s.procs[pid][fd].p;
            && p in s.pipes
            && (ReceiveByte(s, p).1 == Eof <==>
                s.pipes[p].consumed == s.pipes[p].written && Held(s.procs, Writer(p)) == 0)
  {
    HeldSome(s.procs, pid, fd);
    KnownEnd(s, multiset{}, s.procs[pid][fd]);
    var x := s.pipes[s.procs[pid][fd].p];
    if x.consumed == x.written {
      assert |x.consumed| + |x.buf| == |x.written|;
    }
  }

  // ---- a closed channel stays closed ----

  /** Pipe p once closed stays closed with nothing more written, and is not lost later. */
  ghost predicate Settled(s: Sys, s': Sys, p: PipeId)
    requires p in s.pipes
  {
    && p in s'.pipes && (p in s'.lost <==> p in s.lost)
    && (s.pipes[p].chanClosed ==> s'.pipes[p].chanClosed)
    && s'.pipes[p].written == s.pipes[p].written
  }

  lemma PrimitivesSettle(s: Sys, d: Desc, p: PipeId)
    requires p in s.pipes
    ensures Settled(s, CloseDesc(s, d), p) && Settled(s, AddRef(s, d), p)
    ensures CloseDesc(s, d).procs == s.procs && AddRef(s, d).procs == s.procs
  {
  }

  lemma {:induction false} CloseAllSettles(s: Sys, pid: Pid, i: nat, p: PipeId)
    requires p in s.pipes && pid < |s.procs| && i <= MAX_FDS
    ensures Settled(s, CloseAll(s, pid, i), p)
    decreases MAX_FDS - i
  {
    hide CloseDesc;
    if i < MAX_FDS {
      if s.procs[pid][i] == Nil {
        CloseAllSettles(s, pid, i + 1, p);
      } else {
        PrimitivesSettle(s, s.procs[pid][i], p);
        CloseAllSettles(SetSlot(CloseDesc(s, s.procs[pid][i]), pid, i, Nil), pid, i + 1, p);
      }
    }
  }

  lemma {:induction false} InheritSettles(s: Sys, parent: Pid, child: Pid, i: nat, p: PipeId)
    requires p in s.pipes && parent < |s.procs| && child < |s.procs| && i <= MAX_FDS
    ensures Settled(s, Inherit(s, parent, child, i), p)
    decreases MAX_FDS - i
  {
    hide AddRef;
    if i < MAX_FDS {
      var d := s.procs[parent][i];
      if d == Socket {
        InheritSettles(SetSlot(s, child, i, Nil), parent, child, i + 1, p);
      } else {
        PrimitivesSettle(SetSlot(s, child, i, d), d, p);
        InheritSettles(AddRef(SetSlot(s, child, i, d), d), parent, child, i + 1, p);
      }
    }
  }

  lemma MakeSettles(s: Sys, pid: Pid, q: PipeId, p: PipeId)
    requires p in s.pipes && p != q && pid < |s.procs|
    ensures Settled(s, MakePipe(s, pid, q), p)
  {
    var s0 := s.(pipes := s.pipes[q := FreshPipe()]);
    var rd := FreeSlot(s.procs[pid], 0);
    if rd < MAX_FDS {
      var s1 := SetSlot(s0, pid, rd, Reader(q));
      PrimitivesSettle(SetSlot(s1, pid, rd, Nil), s1.procs[pid][rd], p);
    }
  }

  lemma StepSettles(s: Sys, op: Op, p: PipeId)
    requires Inv(s) && Allowed(s, op) && p in s.pipes && p !in s.lost && s.pipes[p].chanClosed
    ensures Settled(s, Do(s, op), p)
  {
    PipeOk(s, p);
    hide Balanced, Held, CloseDesc, AddRef, CloseAll, Inherit, MakePipe;
    match op
    case PipeOp(pid, q) => MakeSettles(s, pid, q, p);
    case Dup2Op(pid, oldFd, newFd) =>
      var d := s.procs[pid][oldFd];
      PrimitivesSettle(s, s.procs[pid][newFd], p);
      if d != Nil && oldFd != newFd {
        PrimitivesSettle(SetSlot(CloseDesc(s, s.procs[pid][newFd]), pid, newFd, d), d, p);
      }
    case CloseOp(pid, fd) => PrimitivesSettle(SetSlot(s, pid, fd, Nil), s.procs[pid][fd], p);
    case SpawnOp(pid) => InheritSettles(s.(procs := s.procs + [EmptyTable()]), pid, |s.procs|, 0, p);
    case ExitOp(pid) => CloseAllSettles(s, pid, 0, p);
    case WriteOp(pid, fd, b) => HeldWriterOpen(s, pid, fd, b);
    case ResumeOp(pid, fd, b) => HeldWriterOpen(s, pid, fd, b);
    case _ =>
  }

  /** End of file is final: from then on, in every continuation, nothing more is written, the
      channel is not closed again and no slot ever holds the write end. */
  lemma {:induction false} EofIsFinal(s: Sys, ops: seq<Op>, p: PipeId)
    requires Inv(s) && Possible(s, ops) && p in s.pipes && p !in s.lost && s.pipes[p].chanClosed
    ensures var s' := Run(s, ops);
            && p in s'.pipes && s'.pipes[p].written == s.pipes[p].written
            && s'.pipes[p].chanClosed && s'.pipes[p].closes == 1 && Held(s'.procs, Writer(p)) == 0
    decreases |ops|
  {
    if ops == [] {
      PipeOk(s, p);
    } else {
      hide Inv, Do, Allowed, Held;
      StepKeeps(s, ops[0]);
      StepSettles(s, ops[0], p);
      EofIsFinal(Do(s, ops[0]), ops[1..], p);
    }
  }

  // ---- the code ----

  class Kernel {
    var procs: seq<Table>
    var pipes: map<PipeId, Pipe>
    ghost var lost: set<PipeId>

    ghost function State(): Sys
      reads this
    {
      Sys(procs, pipes, lost)
    }

    constructor ()
      ensures State() == Start()
    {
      procs, pipes, lost := [], map[], {};
    }

    method CloseEnd(d: Desc)
      modifies this`pipes
      ensures State() == CloseDesc(old(State()), d)
    {
      match d
      case Reader(p) =>
        if p in pipes && !pipes[p].rdClosed {
          var refs := pipes[p].rdRefs;
          if refs > 0 {
            refs := refs - 1;
          }
          pipes := pipes[p := pipes[p].(rdRefs := refs)];
          if refs == 0 {
            pipes := pipes[p := pipes[p].(rdClosed := true)];
          }
        } else if p in pipes {
          assert pipes[p := pipes[p]] == pipes;
        }
      case Writer(p) =>
        if p in pipes && !pipes[p].wrClosed {
          var refs := pipes[p].wrRefs;
          if refs > 0 {
            refs := refs - 1;
          }
          pipes := pipes[p := pipes[p].(wrRefs := refs)];
          if refs == 0 {
            pipes := pipes[p := pipes[p].(wrClosed := true)];
            pipes := pipes[p := pipes[p].(chanClosed := true, closes := pipes[p].closes + 1)];
          }
        } else if p in pipes {
          assert pipes[p := pipes[p]] == pipes;
        }
      case _ =>
    }

    method BumpRef(d: Desc)
      modifies this`pipes
      ensures State() == AddRef(old(State()), d)
    {
      match d
      case Reader(p) =>
        if p in pipes {
          pipes := pipes[p := pipes[p].(rdRefs := pipes[p].rdRefs + 1)];
        }
      case Writer(p) =>
        if p in pipes {
          pipes := pipes[p := pipes[p].(wrRefs := pipes[p].wrRefs + 1)];
        }
      case _ =>
    }

    /** The lowest free slot takes the descriptor; MAX_FDS when the table is full. */
    method ProcAllocFd(pid: Pid, d: Desc) returns (fd: nat)
      requires pid < |procs|
      modifies this`procs
      ensures fd == FreeSlot(old(procs)[pid], 0)
      ensures State() == if fd < MAX_FDS then SetSlot(old(State()), pid, fd, d) else old(State())
    {
      fd := 0;
      while fd < MAX_FDS
        modifies this`procs
        invariant fd <= MAX_FDS && procs == old(procs)
        invariant FreeSlot(procs[pid], 0) == FreeSlot(procs[pid], fd)
      {
        if procs[pid][fd] == Nil {
          procs := procs[pid := procs[pid][fd := d]];
          return;
        }
        fd := fd + 1;
      }
    }

    method ProcClose(pid: Pid, fd: nat)
      requires pid < |procs| && fd < MAX_FDS
      modifies this`procs, this`pipes
      ensures State() == Close(old(State()), pid, fd)
    {
      var d := procs[pid][fd];
      if d == Nil {
        return;
      }
      procs := procs[pid := procs[pid][fd := Nil]];
      CloseEnd(d);
    }

    method ProcDup2(pid: Pid, oldFd: nat, newFd: nat) returns (ok: bool)
      requires pid < |procs|
      modifies this`procs, this`pipes
      ensures ok <==> oldFd < MAX_FDS && newFd < MAX_FDS && old(procs)[pid][oldFd] != Nil
      ensures State() == if ok then Dup2(old(State()), pid, oldFd, newFd) else old(State())
    {
      hide CloseDesc, AddRef;
      if oldFd >= MAX_FDS || newFd >= MAX_FDS || procs[pid][oldFd] == Nil {
        return false;
      }
      var d := procs[pid][oldFd];
      ok := true;
      if oldFd == newFd {
        return;
      }
      CloseThenClear(State(), pid, newFd, procs[pid][newFd]);
      NilCloses(State());
      if procs[pid][newFd] != Nil {
        CloseEnd(procs[pid][newFd]);
      }
      procs := procs[pid := procs[pid][newFd := d]];
      BumpRef(d);
    }

    method ProcCloseAll(pid: Pid)
      requires pid < |procs|
      modifies this`procs, this`pipes
      ensures State() == CloseAll(old(State()), pid, 0)
    {
      hide CloseDesc;
      var i := 0;
      while i < MAX_FDS
        modifies this`procs, this`pipes
        invariant i <= MAX_FDS && |procs| == |old(procs)|
        invariant CloseAll(old(State()), pid, 0) == CloseAll(State(), pid, i)
      {
        if procs[pid][i] != Nil {
          CloseThenClear(State(), pid, i, procs[pid][i]);
          CloseEnd(procs[pid][i]);
          procs := procs[pid := procs[pid][i := Nil]];
        }
        i := i + 1;
      }
    }

    /** The inheritance loop of elfSpawn for a child just created. */
    method SpawnChild(parent: Pid) returns (child: Pid)
      requires parent < |procs|
      modifies this`procs, this`pipes
      ensures child == |old(procs)| && State() == Spawn(old(State()), parent)
    {
      hide AddRef;
      child := |procs|;
      procs := procs + [EmptyTable()];
      ghost var start := State();
      var i := 0;
      while i < MAX_FDS
        modifies this`procs, this`pipes
        invariant i <= MAX_FDS && |procs| == child + 1
        invariant Inherit(start, parent, child, 0) == Inherit(State(), parent, child, i)
      {
        var d := procs[parent][i];
        if d == Socket {
          procs := procs[child := procs[child][i := Nil]];
        } else {
          AddThenSet(State(), child, i, d);
          procs := procs[child := procs[child][i := d]];
          BumpRef(d);
        }
        i := i + 1;
      }
    }

    method SysPipe(pid: Pid, p: PipeId) returns (ok: bool, rdFd: nat, wrFd: nat)
      requires pid < |procs|
      modifies this
      ensures State() == MakePipe(old(State()), pid, p)
      ensures ok ==> rdFd < MAX_FDS && wrFd < MAX_FDS && procs[pid][rdFd] == Reader(p) && procs[pid][wrFd] == Writer(p)
      ensures ok <==> multiset(old(procs)[pid])[Nil] >= 2
    {
      TwoFree(procs[pid], Reader(p));
      ok, rdFd, wrFd := false, 0, 0;
      pipes := pipes[p := FreshPipe()];
      rdFd := ProcAllocFd(pid, Reader(p));
      if rdFd == MAX_FDS {
        lost := lost + {p};
        return;
      }
      wrFd := ProcAllocFd(pid, Writer(p));
      if wrFd == MAX_FDS {
        ProcClose(pid, rdFd);
        lost := lost + {p};
        return;
      }
      ok := true;
    }

    /** Write until done, refused, or about to park on a full channel. A write that had parked
        goes on with the byte it parked on, which is not checked against the reader again. */
    method PipeWrite(p: PipeId, data: seq<Byte>, parked: bool) returns (n: nat, res: Sent)
      requires p in pipes && StreamOk(pipes[p]) && (parked ==> !pipes[p].wrClosed)
      modifies this`pipes
      ensures n == Min(|data|, Limit(old(pipes[p]), parked)) && p in pipes && StreamOk(pipes[p])
      ensures pipes[p].buf == old(pipes[p].buf) + data[..n] && pipes[p].written == old(pipes[p].written) + data[..n]
      ensures pipes == old(pipes)[p := pipes[p]]
      ensures res == Bad <==> old(pipes[p].wrClosed)
      ensures res == Ok <==> n == |data| && !old(pipes[p].wrClosed)
      ensures res == WouldBlock <==>
              n < |data| && !old(pipes[p].wrClosed) && |pipes[p].buf| == PIPE_BYTES
              && (!old(pipes[p].rdClosed) || (parked && n == 0))
    {
      n, res := 0, Ok;
      assert pipes[p := pipes[p]] == pipes;
      if pipes[p].wrClosed {
        return 0, Bad;
      }
      while n < |data|
        modifies this`pipes
        invariant n <= |data| && p in pipes && StreamOk(pipes[p]) && pipes == old(pipes)[p := pipes[p]]
        invariant pipes[p].buf == old(pipes[p].buf) + data[..n] && pipes[p].written == old(pipes[p].written) + data[..n]
        invariant pipes[p].rdClosed == old(pipes[p].rdClosed)
        invariant n <= Limit(old(pipes[p]), parked)
      {
        if !(parked && n == 0) && pipes[p].rdClosed {
          return n, BrokenPipe;
        }
        if |pipes[p].buf| >= PIPE_BYTES {
          return n, WouldBlock;
        }
        pipes := pipes[p := pipes[p].(buf := pipes[p].buf + [data[n]], written := pipes[p].written + [data[n]])];
        assert data[..n] + [data[n]] == data[..n + 1];
        n := n + 1;
      }
    }

    /** Read until the buffer is full, the channel is drained and closed, or about to park. */
    method PipeRead(p: PipeId, into: array<Byte>) returns (n: nat, eof: bool, parked: bool)
      requires p in pipes && StreamOk(pipes[p])
      modifies this`pipes, into
      ensures n <= into.Length && p in pipes && StreamOk(pipes[p])
      ensures into[..n] + pipes[p].buf == old(pipes[p].buf) && pipes[p].consumed == old(pipes[p].consumed) + into[..n]
      ensures pipes == old(pipes)[p := pipes[p]]
      ensures eof <==> n == 0 && into.Length > 0 && old(pipes[p].buf) == [] && old(pipes[p].chanClosed)
      ensures parked ==> n < into.Length && pipes[p].buf == [] && !old(pipes[p].chanClosed)
      ensures !eof && !parked ==> n == into.Length || (pipes[p].buf == [] && old(pipes[p].chanClosed))
    {
      n, eof, parked := 0, false, false;
      assert pipes[p := pipes[p]] == pipes;
      while n < into.Length
        modifies this`pipes, into
        invariant n <= into.Length && p in pipes && StreamOk(pipes[p]) && pipes == old(pipes)[p := pipes[p]]
        invariant into[..n] + pipes[p].buf == old(pipes[p].buf)
            && pipes[p].consumed == old(pipes[p].consumed) + into[..n]
        invariant pipes[p].chanClosed == old(pipes[p].chanClosed)
      {
        var x := pipes[p];
        if x.buf == [] {
          eof := x.chanClosed && n == 0;
          parked := !x.chanClosed;
          return;
        }
        ghost var was := into[..n];
        into[n] := x.buf[0];
        assert into[..n + 1] == was + [x.buf[0]];
        MoveOne(was, x.buf);
        MoveOne(x.consumed, x.buf);
        assert old(pipes[p].consumed) + (was + [x.buf[0]]) == (old(pipes[p].consumed) + was) + [x.buf[0]];
        pipes := pipes[p := x.(buf := x.buf[1..], consumed := x.consumed + [x.buf[0]])];
        n := n + 1;
      }
    }
  }

  function Min(a: nat, b: nat): nat {
    if a < b then a else b
  }

  /** How many bytes a write can put in before it stops: none once the reader is gone, save the
      one it was parked on. */
  function Limit(x: Pipe, parked: bool): nat
    requires |x.buf| <= PIPE_BYTES
  {
    var room := PIPE_BYTES - |x.buf|;
    if x.wrClosed then 0
    else if x.rdClosed then (if parked && room > 0 then 1 else 0)
    else room
  }

  lemma MoveOne(a: seq<Byte>, b: seq<Byte>)
    requires b != []
    ensures (a + [b[0]]) + b[1..] == a + b
  {
  }

  lemma NilCloses(s: Sys)
    ensures CloseDesc(s, Nil) == s
  {
  }
}
