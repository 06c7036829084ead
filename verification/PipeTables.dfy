/** What the descriptor operations leave in the tables and on the channel: dup2 installs, close
    clears, spawn copies, exit empties, pipe takes the two lowest free slots, and reads and writes
    move exactly the bytes they should (src/fd.go:262-348, src/pipe.go:50-106,
    src/process.go:363-371, src/userspace.go:724-748). */
module PipeTables {
  import opened Pipes

  /** One slot of one process has changed from was to d, and nothing else in any table. */
  ghost predicate OneSlot(s: Sys, s': Sys, pid: Pid, fd: nat, d: Desc)
    requires pid < |s.procs| && fd < MAX_FDS
  {
    && s'.procs == s.procs[pid := s.procs[pid][fd := d]]
    && (forall x :: Held(s'.procs, x) == Held(s.procs, x) - (if s.procs[pid][fd] == x then 1 else 0)
                                         + (if d == x then 1 else 0))
  }

  lemma SlotChanges(s: Sys, s': Sys, pid: Pid, fd: nat, d: Desc)
    requires pid < |s.procs| && fd < MAX_FDS && s'.procs == SetSlot(s, pid, fd, d).procs
    ensures OneSlot(s, s', pid, fd, d)
  {
    hide Held;
    forall x
      ensures Held(s'.procs, x) ==
              Held(s.procs, x) - (if s.procs[pid][fd] == x then 1 else 0) + (if d == x then 1 else 0)
    {
      SetSlotHeld(s, pid, fd, d, x);
    }
  }

  lemma CountingKeepsTables(s: Sys, d: Desc)
    ensures CloseDesc(s, d).procs == s.procs && AddRef(s, d).procs == s.procs
  {
  }

  /** The reference counts after an operation are the slots there are after it. */
  ghost predicate CountsFollow(s': Sys, p: PipeId)
    requires p in s'.pipes
  {
    p !in s'.lost ==>
      && s'.pipes[p].rdRefs == Held(s'.procs, Reader(p)) && s'.pipes[p].wrRefs == Held(s'.procs, Writer(p))
      && (s'.pipes[p].chanClosed <==> Held(s'.procs, Writer(p)) == 0)
      && (s'.pipes[p].rdClosed <==> Held(s'.procs, Reader(p)) == 0)
  }

  /** dup2: afterwards both slots hold what the old one held; the new one's former descriptor has
      one slot less and that one slot more, no other slot of any process is touched, and every
      count follows. From an empty slot, or onto itself, nothing happens. */
  lemma Dup2Installs(s: Sys, pid: Pid, oldFd: nat, newFd: nat, p: PipeId)
    requires Inv(s) && pid < |s.procs| && oldFd < MAX_FDS && newFd < MAX_FDS && p in s.pipes
    ensures var s' := Do(s, Dup2Op(pid, oldFd, newFd));
            var d := s.procs[pid][oldFd];
            && (d == Nil || oldFd == newFd ==> s' == s)
            && (d != Nil && oldFd != newFd ==>
                  && s'.procs[pid][newFd] == d && s'.procs[pid][oldFd] == d && OneSlot(s, s', pid, newFd, d))
            && p in s'.pipes && CountsFollow(s', p)
  {
    var s' := Do(s, Dup2Op(pid, oldFd, newFd));
    var d := s.procs[pid][oldFd];
    StepKeeps(s, Dup2Op(pid, oldFd, newFd));
    if d != Nil && oldFd != newFd {
      CountingKeepsTables(s, s.procs[pid][newFd]);
      CountingKeepsTables(SetSlot(CloseDesc(s, s.procs[pid][newFd]), pid, newFd, d), d);
      SlotChanges(s, s', pid, newFd, d);
      SamePipes(s, s.procs[pid][newFd], pid, newFd, d, p);
    }
    hide Inv, Held, OneSlot;
    Follows(s', p);
  }

  lemma SamePipes(s: Sys, was: Desc, pid: Pid, fd: nat, d: Desc, p: PipeId)
    requires p in s.pipes && pid < |s.procs| && fd < MAX_FDS
    ensures p in CloseDesc(s, was).pipes && pid < |CloseDesc(s, was).procs|
    ensures p in AddRef(SetSlot(CloseDesc(s, was), pid, fd, d), d).pipes
  {
  }

  lemma Follows(s: Sys, p: PipeId)
    requires Inv(s) && p in s.pipes
    ensures CountsFollow(s, p)
  {
    PipeOk(s, p);
  }

  /** close: the slot is empty, every other slot of every process is as before, and the counts
      follow; so the write end's last slot closes the channel, and no other does. */
  lemma CloseClears(s: Sys, pid: Pid, fd: nat, p: PipeId)
    requires Inv(s) && pid < |s.procs| && fd < MAX_FDS && p in s.pipes
    ensures var s' := Do(s, CloseOp(pid, fd));
            && s'.procs[pid][fd] == Nil && OneSlot(s, s', pid, fd, Nil)
            && p in s'.pipes && CountsFollow(s', p)
            && s'.pipes[p].buf == s.pipes[p].buf
  {
    var s' := Do(s, CloseOp(pid, fd));
    CloseSlots(s, pid, fd, p);
    hide Inv, Held, Close;
    SlotChanges(s, s', pid, fd, Nil);
    StepKeeps(s, CloseOp(pid, fd));
    Follows(s', p);
  }

  lemma CloseSlots(s: Sys, pid: Pid, fd: nat, p: PipeId)
    requires pid < |s.procs| && fd < MAX_FDS && p in s.pipes
    ensures var s' := Close(s, pid, fd);
            && s'.procs == SetSlot(s, pid, fd, Nil).procs
            && p in s'.pipes && s'.pipes[p].buf == s.pipes[p].buf
  {
    var d := s.procs[pid][fd];
    CountingKeepsTables(SetSlot(s, pid, fd, Nil), d);
    if d == Nil {
      assert s.procs[pid][fd := Nil] == s.procs[pid];
      assert s.procs[pid := s.procs[pid]] == s.procs;
    }
  }

  /** The table a child gets. */
  function Copied(t: Table, i: nat, child: Table): Table
    requires i <= MAX_FDS
  {
    seq(MAX_FDS, j requires 0 <= j < MAX_FDS => if j < i then child[j] else if t[j] == Socket then Nil else t[j])
  }

  lemma {:induction false} InheritCopies(s: Sys, parent: Pid, child: Pid, i: nat)
    requires parent < |s.procs| && child < |s.procs| && parent != child && i <= MAX_FDS
    ensures Inherit(s, parent, child, i).procs == s.procs[child := Copied(s.procs[parent], i, s.procs[child])]
    decreases MAX_FDS - i
  {
    hide AddRef;
    if i == MAX_FDS {
      assert Copied(s.procs[parent], i, s.procs[child]) == s.procs[child];
    } else {
      var d := s.procs[parent][i];
      var x := if d == Socket then Nil else d;
      var s1 := if d == Socket then SetSlot(s, child, i, Nil) else AddRef(SetSlot(s, child, i, d), d);
      CountingKeepsTables(SetSlot(s, child, i, d), d);
      assert s1.procs == s.procs[child := s.procs[child][i := x]];
      InheritCopies(s1, parent, child, i + 1);
      assert Copied(s.procs[parent], i + 1, s.procs[child][i := x]) == Copied(s.procs[parent], i, s.procs[child]);
    }
  }

  /** spawn: one more process, whose slots are the parent's with the sockets left out; every table
      there was stays as it was. */
  lemma SpawnInherits(s: Sys, parent: Pid, i: nat)
    requires parent < |s.procs| && i < 16
    ensures var s' := Do(s, SpawnOp(parent));
            && |s'.procs| == |s.procs| + 1 && s'.procs[..|s.procs|] == s.procs
            && s'.procs[|s.procs|][i] == if s.procs[parent][i] == Socket then Nil else s.procs[parent][i]
  {
    var s0 := s.(procs := s.procs + [EmptyTable()]);
    InheritCopies(s0, parent, |s.procs|, 0);
  }

  lemma {:induction false} CloseAllEmpties(s: Sys, pid: Pid, i: nat)
    requires pid < |s.procs| && i <= MAX_FDS
    ensures var s' := CloseAll(s, pid, i);
            && |s'.procs| == |s.procs|
            && (forall k :: 0 <= k < |s.procs| && k != pid ==> s'.procs[k] == s.procs[k])
            && (forall j :: 0 <= j < i ==> s'.procs[pid][j] == s.procs[pid][j])
            && (forall j :: i <= j < MAX_FDS ==> s'.procs[pid][j] == Nil)
    decreases MAX_FDS - i
  {
    hide CloseDesc;
    if i < MAX_FDS {
      CountingKeepsTables(s, s.procs[pid][i]);
      var s1 := if s.procs[pid][i] == Nil then s else SetSlot(CloseDesc(s, s.procs[pid][i]), pid, i, Nil);
      CloseAllEmpties(s1, pid, i + 1);
    }
  }

  /** exit: the process holds nothing any more, and no other process lost anything. */
  lemma ExitEmpties(s: Sys, pid: Pid, k: Pid, fd: nat)
    requires pid < |s.procs| && k < |s.procs| && fd < 16
    ensures var s' := Do(s, ExitOp(pid));
            |s'.procs| == |s.procs| && s'.procs[k][fd] == if k == pid then Nil else s.procs[k][fd]
  {
    CloseAllEmpties(s, pid, 0);
  }

  /** Slot fd is the lowest free one of a table. */
  ghost predicate LowestFree(t: Table, fd: nat) {
    fd < 16 && t[fd] == Nil && forall j :: 0 <= j < fd ==> t[j] != Nil
  }

  /** pipe: the lowest free slot gets the read end and the next one the write end of a new, empty,
      open pipe. */
  lemma PipeTakesLowest(s: Sys, pid: Pid, p: PipeId, rd: nat, wr: nat)
    requires pid < |s.procs| && p !in s.pipes && p !in s.lost
    requires LowestFree(s.procs[pid], rd) && LowestFree(s.procs[pid][rd := Reader(p)], wr)
    ensures var s' := Do(s, PipeOp(pid, p));
            && s'.procs == s.procs[pid := s.procs[pid][rd := Reader(p)][wr := Writer(p)]] && rd < wr
            && p in s'.pipes && s'.pipes[p].buf == [] && !s'.pipes[p].chanClosed && !s'.pipes[p].rdClosed
            && s'.lost == s.lost
  {
    assert FreeSlot(s.procs[pid], 0) == rd;
    var s0 := s.(pipes := s.pipes[p := FreshPipe()]);
    var s1 := SetSlot(s0, pid, rd, Reader(p));
    assert FreeSlot(s1.procs[pid], 0) == wr;
  }

  /** Without two free slots every table stays as it is. */
  lemma PipeFailsCleanly(s: Sys, pid: Pid, p: PipeId)
    requires pid < |s.procs| && p !in s.pipes && p !in s.lost && multiset(s.procs[pid])[Nil] < 2
    ensures Do(s, PipeOp(pid, p)).procs == s.procs
  {
    LosesIff(s, pid, p);
    var s0 := s.(pipes := s.pipes[p := FreshPipe()]);
    var rd := FreeSlot(s.procs[pid], 0);
    if rd < MAX_FDS {
      var s1 := SetSlot(s0, pid, rd, Reader(p));
      CountingKeepsTables(SetSlot(s1, pid, rd, Nil), Reader(p));
      assert s.procs[pid][rd := Reader(p)][rd := Nil] == s.procs[pid];
      assert s.procs[pid := s.procs[pid]] == s.procs;
    }
  }

  /** A byte written through a held write end: it goes to the back of the channel; with no slot
      holding the read end the pipe is broken, with 4096 bytes waiting the write parks, and in
      neither case is anything changed. */
  lemma WritesExactly(s: Sys, pid: Pid, fd: nat, b: Byte)
    requires Inv(s) && pid < |s.procs| && fd < MAX_FDS && s.procs[pid][fd].Writer?
    ensures var p := s.procs[pid][fd].p;
            var (s', r) := SendByte(s, p, b);
            && p in s.pipes && s' == Do(s, WriteOp(pid, fd, b))
            && r == (if Held(s.procs, Reader(p)) == 0 then BrokenPipe
                     else if |s.pipes[p].buf| == 4096 then WouldBlock else Ok)
            && s'.procs == s.procs && p in s'.pipes
            && s'.pipes[p].buf == (if r == Ok then s.pipes[p].buf + [b] else s.pipes[p].buf)
            && (r != Ok ==> s' == s)
            && (forall x :: x in s.pipes && x != p ==> x in s'.pipes && s'.pipes[x] == s.pipes[x])
  {
    var p := s.procs[pid][fd].p;
    HeldSome(s.procs, pid, fd);
    KnownEnd(s, multiset{}, s.procs[pid][fd]);
    HeldWriterOpen(s, pid, fd, b);
    PipeOk(s, p);
    NotLost(s, p, pid, fd);
  }

  /** A pipe with an end in a slot was not lost. */
  lemma NotLost(s: Sys, p: PipeId, pid: Pid, fd: nat)
    requires Inv(s) && pid < |s.procs| && fd < MAX_FDS && p in s.pipes
    requires s.procs[pid][fd] == Writer(p) || s.procs[pid][fd] == Reader(p)
    ensures p !in s.lost
  {
    PipeOk(s, p);
    HeldSome(s.procs, pid, fd);
  }

  /** A byte read through a held read end is the oldest one waiting; with none waiting the read
      parks while a write end is held and reports end of file otherwise. */
  lemma ReadsExactly(s: Sys, pid: Pid, fd: nat)
    requires Inv(s) && pid < |s.procs| && fd < MAX_FDS && s.procs[pid][fd].Reader?
    ensures var p := s.procs[pid][fd].p;
            var (s', r) := ReceiveByte(s, p);
            && p in s.pipes && s' == Do(s, ReadOp(pid, fd)) && s'.procs == s.procs && p in s'.pipes
            && (if s.pipes[p].buf != [] then
                  && r == Got(s.pipes[p].buf[0]) && s'.pipes[p].buf == s.pipes[p].buf[1..]
                  && s'.pipes[p].consumed == s.pipes[p].consumed + [s.pipes[p].buf[0]]
                else s' == s && r == if Held(s.procs, Writer(p)) == 0 then Eof else Empty)
  {
    var p := s.procs[pid][fd].p;
    HeldSome(s.procs, pid, fd);
    KnownEnd(s, multiset{}, s.procs[pid][fd]);
    PipeOk(s, p);
    NotLost(s, p, pid, fd);
  }

  /** A shell's redirection end to end: pipe, dup2 of the write end onto slot 1, a byte written to
      slot 1, and the read end hands out that very byte. */
  lemma Redirected(s: Sys, pid: Pid, p: PipeId, rd: nat, wr: nat, b: Byte) returns (s1: Sys, s2: Sys, s3: Sys)
    requires Inv(s) && pid < |s.procs| && p !in s.pipes && p !in s.lost
    requires LowestFree(s.procs[pid], rd) && LowestFree(s.procs[pid][rd := Reader(p)], wr) && rd != 1 && wr != 1
    ensures Allowed(s, PipeOp(pid, p)) && s1 == Do(s, PipeOp(pid, p))
    ensures Allowed(s1, Dup2Op(pid, wr, 1)) && s2 == Do(s1, Dup2Op(pid, wr, 1))
    ensures Allowed(s2, WriteOp(pid, 1, b)) && s3 == Do(s2, WriteOp(pid, 1, b))
    ensures Allowed(s3, ReadOp(pid, rd)) && s3.procs[pid][rd] == Reader(p) && ReceiveByte(s3, p).1 == Got(b)
  {
    hide Inv, Do, LowestFree, SendByte, ReceiveByte;
    s1 := PipePhase(s, pid, p, rd, wr);
    s2 := Dup2Phase(s1, pid, p, rd, wr);
    s3 := WrittenIsRead(s2, pid, p, rd, b);
  }

  /** Slot fd of the process holds the read end, slot wr the write end, and nothing was written. */
  ghost predicate Ready(s: Sys, pid: Pid, p: PipeId, rd: nat, wr: nat) {
    && Inv(s) && pid < |s.procs| && rd < MAX_FDS && wr < MAX_FDS
    && s.procs[pid][rd] == Reader(p) && s.procs[pid][wr] == Writer(p)
    && p in s.pipes && s.pipes[p].buf == []
  }

  lemma PipePhase(s: Sys, pid: Pid, p: PipeId, rd: nat, wr: nat) returns (s': Sys)
    requires Inv(s) && pid < |s.procs| && p !in s.pipes && p !in s.lost
    requires LowestFree(s.procs[pid], rd) && LowestFree(s.procs[pid][rd := Reader(p)], wr)
    ensures Allowed(s, PipeOp(pid, p)) && s' == Do(s, PipeOp(pid, p)) && Ready(s', pid, p, rd, wr)
  {
    hide Inv, Do;
    s' := Do(s, PipeOp(pid, p));
    PipeTakesLowest(s, pid, p, rd, wr);
    StepKeeps(s, PipeOp(pid, p));
  }

  lemma Dup2Phase(s: Sys, pid: Pid, p: PipeId, rd: nat, wr: nat) returns (s': Sys)
    requires Ready(s, pid, p, rd, wr) && rd != 1 && wr != 1
    ensures Allowed(s, Dup2Op(pid, wr, 1)) && s' == Do(s, Dup2Op(pid, wr, 1)) && Ready(s', pid, p, rd, 1)
  {
    hide Inv, Do;
    s' := Do(s, Dup2Op(pid, wr, 1));
    StepKeeps(s, Dup2Op(pid, wr, 1));
    Dup2Slots(s, pid, wr, 1, p);
  }

  lemma WrittenIsRead(s: Sys, pid: Pid, p: PipeId, rd: nat, b: Byte) returns (s': Sys)
    requires Ready(s, pid, p, rd, 1)
    ensures Allowed(s, WriteOp(pid, 1, b)) && s' == Do(s, WriteOp(pid, 1, b)) && s'.procs == s.procs
    ensures ReceiveByte(s', p).1 == Got(b)
  {
    hide Inv, Held, Do, SendByte;
    HeldSome(s.procs, pid, rd);
    WritesExactly(s, pid, 1, b);
    s' := Do(s, WriteOp(pid, 1, b));
  }

  lemma Dup2Slots(s: Sys, pid: Pid, oldFd: nat, newFd: nat, p: PipeId)
    requires pid < |s.procs| && oldFd < MAX_FDS && newFd < MAX_FDS && oldFd != newFd && s.procs[pid][oldFd] != Nil
    requires p in s.pipes
    ensures var s' := Do(s, Dup2Op(pid, oldFd, newFd));
            && |s'.procs| == |s.procs| && s'.procs[pid][newFd] == s.procs[pid][oldFd]
            && (forall j :: 0 <= j < MAX_FDS && j != newFd ==> s'.procs[pid][j] == s.procs[pid][j])
            && p in s'.pipes && s'.pipes[p].buf == s.pipes[p].buf
  {
    var d, was := s.procs[pid][oldFd], s.procs[pid][newFd];
    var s1 := SetSlot(CloseDesc(s, was), pid, newFd, d);
    CountingKeepsTables(s, was);
    CountingKeepsBytes(s, was, p);
    CountingKeepsTables(s1, d);
    CountingKeepsBytes(s1, d, p);
    hide CloseDesc, AddRef;
  }

  lemma CountingKeepsBytes(s: Sys, d: Desc, p: PipeId)
    requires p in s.pipes
    ensures p in CloseDesc(s, d).pipes && CloseDesc(s, d).pipes[p].buf == s.pipes[p].buf
    ensures p in AddRef(s, d).pipes && AddRef(s, d).pipes[p].buf == s.pipes[p].buf
  {
  }
}
