/** The transmission control block: the mutable record the kernel updates field by field.
    Every method is proved to do to the record what the connection model says. */
module TcpTcb {
  import opened SeqSpace
  import TcpRing
  import TcpRetx
  import TcpCongestion
  import TcpRtt
  import C = TcpConnection

  /** The record's fields, grouped by what they describe. */
  datatype RecvPointers = RecvPointers(nxt: u32, wnd: u32, irs: u32, lastAdvWin: u32)
  datatype SendPointers = SendPointers(una: u32, nxt: u32, wnd: u32, wl1: u32, wl2: u32, iss: u32)
  datatype RtoTimer = RtoTimer(deadline: nat, xmitCountHead: nat, fastRetx: bool)

  lemma SubNonZero(a: u32, b: u32)
    requires a != b
    ensures Sub32(a, b) != 0
  {
  }

  lemma PopKeepsCc(s: C.SendVars, ackNo: u32, now: nat)
    ensures C.PopAcked(s, ackNo, now).cc == s.cc
  {
  }

  class Tcb {
    var active: bool
    var state: C.TcpState
    var mssLocal: u16
    var mssEff: u16
    var timeWaitDeadline: nat

    var rcv: RecvPointers
    const rxBuf: TcpRing.RingBuf

    var snd: SendPointers
    const retxQ: TcpRetx.RetxQueue
    var timer: RtoTimer
    var rtt: TcpRtt.Estimator
    var cc: TcpCongestion.Congestion

    ghost predicate Valid()
      reads rxBuf, retxQ
    {
      rxBuf.Valid() && retxQ.Valid()
    }

    ghost function Repr(): set<object>
    {
      {this, rxBuf, rxBuf.data, retxQ, retxQ.ring}
    }

    ghost function Rcv(): C.RecvVars
      requires Valid()
      reads `rcv, rxBuf, rxBuf.data, retxQ
    {
      C.RecvVars(rcv.nxt, rcv.wnd, rcv.irs, rcv.lastAdvWin, rxBuf.Contents())
    }

    ghost function Snd(): C.SendVars
      requires Valid()
      reads `snd, `timer, `rtt, `cc, rxBuf, retxQ, retxQ.ring
    {
      C.SendVars(snd.una, snd.nxt, snd.wnd, snd.wl1, snd.wl2, snd.iss, retxQ.Contents(),
                 timer.deadline, timer.xmitCountHead, timer.fastRetx, rtt, cc)
    }

    ghost function Abs(): C.Conn
      requires Valid()
      reads this, rxBuf, rxBuf.data, retxQ, retxQ.ring
    {
      C.Conn(active, state, mssLocal, mssEff, timeWaitDeadline, Rcv(), Snd())
    }

    constructor ()
      ensures Valid() && fresh(Repr()) && Abs() == C.FRESH
    {
      active, state, mssLocal, mssEff, timeWaitDeadline := false, C.Closed, 0, 0, 0;
      rcv := RecvPointers(0, 0, 0, 0);
      rxBuf := new TcpRing.RingBuf();
      snd := SendPointers(0, 0, 0, 0, 0, 0);
      retxQ := new TcpRetx.RetxQueue();
      timer := RtoTimer(0, 0, false);
      rtt := TcpRtt.FRESH;
      cc := TcpCongestion.Congestion(0, 0, 0, 0);
    }

    method Free()
      requires Valid()
      modifies `active, `state
      ensures Valid() && Abs() == C.Free(old(Abs()))
    {
      active, state := false, C.Closed;
    }

    // ---- congestion control ----

    method CcInit()
      modifies `mssEff, `cc
      ensures mssEff == TcpCongestion.EffectiveMss(old(mssEff))
      ensures cc == TcpCongestion.Init(old(mssEff))
    {
      if mssEff == 0 {
        mssEff := TcpCongestion.DEFAULT_MSS;
      }
      cc := TcpCongestion.Congestion(TcpCongestion.InitialWindow(mssEff), TcpCongestion.SSTHRESH_INIT, 0, 0);
    }

    method CcOnAck(newlyAcked: u32)
      modifies `mssEff, `cc
      ensures cc == TcpCongestion.OnAck(old(cc), old(mssEff), newlyAcked)
      ensures mssEff == if newlyAcked != 0 && old(cc).cwnd == 0
                        then TcpCongestion.EffectiveMss(old(mssEff)) else old(mssEff)
    {
      if newlyAcked == 0 {
        return;
      }
      if cc.cwnd == 0 {
        CcInit();
      }
      var mss := mssEff;
      if mss == 0 {
        mss := TcpCongestion.DEFAULT_MSS;
      }
      if cc.cwnd < cc.ssthresh {
        var inc := newlyAcked;
        if inc > mss {
          inc := mss;
        }
        cc := cc.(cwnd := Add32(cc.cwnd, inc));
        return;
      }
      cc := cc.(accum := Add32(cc.accum, TcpCongestion.Increment(mss, cc.cwnd)));
      if cc.accum >= mss {
        cc := cc.(cwnd := Add32(cc.cwnd, mss), accum := cc.accum - mss);
      }
    }

    method CcOnDupAck() returns (fast: bool)
      modifies `cc
      ensures fast == TcpCongestion.FastRetransmits(old(cc))
      ensures cc == TcpCongestion.OnDupAck(old(cc), mssEff, Sub32(snd.nxt, snd.una))
    {
      cc := cc.(dupAcks := (cc.dupAcks + 1) % 256);
      if cc.dupAcks != 3 {
        return false;
      }
      var mss := mssEff;
      if mss == 0 {
        mss := TcpCongestion.DEFAULT_MSS;
      }
      var half := Sub32(snd.nxt, snd.una) / 2;
      cc := cc.(ssthresh := if half < 2 * mss then 2 * mss else half);
      cc := cc.(cwnd := Add32(cc.ssthresh, Wrap(3 * mss)), accum := 0);
      return true;
    }

    method CcOnRto()
      modifies `cc
      ensures cc == TcpCongestion.OnRto(old(cc), mssEff, Sub32(snd.nxt, snd.una))
    {
      var mss := mssEff;
      if mss == 0 {
        mss := TcpCongestion.DEFAULT_MSS;
      }
      var half := Sub32(snd.nxt, snd.una) / 2;
      cc := TcpCongestion.Congestion(mss, if half < 2 * mss then 2 * mss else half, 0, 0);
    }

    // ---- round-trip estimation and the timer ----

    method RttInit(r0: u32)
      modifies `rtt
      ensures rtt == TcpRtt.Init(r0)
    {
      var r: int := r0;
      if r == 0 {
        r := 1;
      }
      var srtt := Wrap(r * 8);
      var rttvar := Wrap((r / 2) * 4);
      if rttvar == 0 {
        rttvar := 4;
      }
      rtt := TcpRtt.Estimator(srtt, rttvar, true, TcpRtt.ClampRto(TcpRtt.RawRto(srtt, rttvar)));
    }

    method RttUpdate(r0: u32)
      modifies `rtt
      ensures rtt == TcpRtt.Update(old(rtt), r0)
    {
      if !rtt.ready {
        RttInit(r0);
        return;
      }
      var r: int := r0;
      if r == 0 {
        r := 1;
      }
      var srtt: u32 := rtt.srtt / 8;
      var delta: u32 := if srtt > r then srtt - r else r - srtt;
      var rttvar' := Add32(Wrap(3 * (rtt.rttvar / 4)), delta);
      var srtt' := Add32(Wrap(7 * (rtt.srtt / 8)), r);
      rtt := TcpRtt.Estimator(srtt', rttvar', true, TcpRtt.ClampRto(TcpRtt.RawRto(srtt', rttvar')));
    }

    method RttSample(now: nat, oldestSent: nat, anyPristine: bool)
      modifies `rtt
      ensures rtt == TcpRtt.Sample(old(rtt), now, oldestSent, anyPristine)
    {
      if !anyPristine || now <= oldestSent {
        return;
      }
      RttUpdate(Wrap(now - oldestSent));
    }

    method ArmRto(now: nat)
      requires Valid()
      modifies `rtt, `timer
      ensures Valid() && Abs() == old(Abs()).(snd := C.ArmRto(old(Snd()), now))
    {
      if rtt.rto == 0 {
        rtt := rtt.(rto := TcpRtt.RTO_INIT);
      }
      timer := timer.(deadline := now + rtt.rto, xmitCountHead := 0);
    }

    method Rearm(now: nat)
      requires Valid()
      modifies `rtt, `timer
      ensures Valid() && Abs() == old(Abs()).(snd := C.Rearm(old(Snd()), now))
    {
      if retxQ.n == 0 {
        timer := timer.(deadline := 0);
      } else {
        ArmRto(now);
      }
    }

    method PopAcked(ackNo: u32, now: nat)
      requires Valid()
      modifies retxQ, retxQ.ring, `rtt
      ensures Valid() && Abs() == old(Abs()).(snd := C.PopAcked(old(Snd()), ackNo, now))
    {
      hide TcpRetx.View, TcpRing.View, TcpRetx.CoveredPrefix, TcpRetx.OldestSent, TcpRetx.AnyPristine, TcpRtt.Sample;
      ghost var q := retxQ.Contents();
      var popped, oldestSent, anyPristine := retxQ.AckTo(ackNo);
      assert retxQ.Contents() == q[popped..];
      RttSample(now, oldestSent, anyPristine);
    }

    // ---- sending ----

    /** Composing a segment: the window it carries, and the record of having offered it. */
    method AdvertiseWin() returns (w: u16)
      requires Valid()
      modifies `rcv
      ensures Valid() && Abs() == C.Announce(old(Abs()))
      ensures w == C.AdvertisedWindow(old(Rcv()), mssEff)
    {
      var free, last := rcv.wnd, rcv.lastAdvWin;
      var threshold := C.RX_SIZE / 2;
      if mssEff != 0 && mssEff < threshold {
        threshold := mssEff;
      }
      if free > last {
        if free - last < threshold {
          return if last > 0xFFFF then 0xFFFF else last;
        }
      }
      if free > 0xFFFF {
        rcv := rcv.(lastAdvWin := 0xFFFF);
        return 0xFFFF;
      }
      rcv := rcv.(lastAdvWin := free);
      return free;
    }

    method Transmit(n: u32, control: TcpRetx.Control, now: nat)
      requires Valid()
      modifies retxQ, retxQ.ring, `snd, `rtt, `timer
      ensures Valid() && Abs() == old(Abs()).(snd := C.Transmit(old(Snd()), n, control, now))
    {
      var first := snd.nxt;
      snd := snd.(nxt := Add32(snd.nxt, n));
      var _ := retxQ.Push(TcpRetx.Entry(first, Add32(first, n), control, now, 0));
      ArmRto(now);
    }

    // ---- acknowledgements ----

    method AckUpdate(h: C.Header, now: nat) returns (all: bool)
      requires Valid()
      modifies this, retxQ, retxQ.ring
      ensures Valid() && Abs() == C.AckUpdate(old(Abs()), h, now)
      ensures all == C.AcksEverything(old(Snd()), h)
    {
      if !h.ack {
        return false;
      }
      if !SeqLE(snd.una, h.ackNo) || !SeqLE(h.ackNo, snd.nxt) {
        return false;
      }
      if snd.una != h.ackNo {
        AdvanceUna(h.ackNo, now);
      }
      UpdateSendWindow(h);
      return h.ackNo == snd.nxt;
    }

    method AdvanceUna(ackNo: u32, now: nat)
      requires Valid() && ackNo != snd.una
      modifies this, retxQ, retxQ.ring
      ensures Valid()
      ensures Abs() == old(Abs()).(snd := C.AdvanceUna(old(Snd()), old(mssEff), ackNo, now),
                                   mssEff := if old(cc).cwnd == 0
                                              then TcpCongestion.EffectiveMss(old(mssEff)) else old(mssEff))
    {
      hide TcpRetx.View, TcpRing.View, TcpRetx.CoveredPrefix, TcpRetx.OldestSent, TcpRetx.AnyPristine, TcpRtt.Sample,
          TcpCongestion.OnAck, C.Rearm, C.PopAcked, Sub32;
      var newlyAcked := Sub32(ackNo, snd.una);
      SubNonZero(ackNo, snd.una);
      snd := snd.(una := ackNo);
      PopAcked(ackNo, now);
      ghost var s1 := Snd();
      assert s1 == C.PopAcked(old(Snd()).(una := ackNo), ackNo, now);
      PopKeepsCc(old(Snd()).(una := ackNo), ackNo, now);
      CcOnAck(newlyAcked);
      cc := cc.(dupAcks := 0);
      assert Snd() == s1.(cc := TcpCongestion.OnAck(s1.cc, old(mssEff), newlyAcked).(dupAcks := 0));
      Rearm(now);
    }

    method UpdateSendWindow(h: C.Header)
      requires Valid()
      modifies `snd
      ensures Valid() && Abs() == old(Abs()).(snd := C.UpdateSendWindow(old(Snd()), h))
    {
      if SeqLT(snd.wl1, h.seqNo) || (snd.wl1 == h.seqNo && SeqLE(snd.wl2, h.ackNo)) {
        snd := snd.(wnd := h.window, wl1 := h.seqNo, wl2 := h.ackNo);
      }
    }

    // ---- in-order data ----

    /** Buffers what fits and shrinks the window by it. */
    method Receive(payload: C.Payload)
      requires Valid()
      modifies rxBuf, rxBuf.data, `rcv
      ensures Valid() && Abs() == old(Abs()).(rcv := C.Receive(old(Rcv()), payload))
    {
      if |payload| > 0 {
        var n := rxBuf.Write(payload);
        rcv := rcv.(nxt := Add32(rcv.nxt, n));
        if rcv.wnd > n {
          rcv := rcv.(wnd := rcv.wnd - n);
        } else {
          rcv := rcv.(wnd := 0);
        }
      }
    }

    /** Hands out up to lim buffered bytes and reopens the window. */
    method Drain(lim: nat) returns (bytes: seq<u8>)
      requires Valid()
      modifies rxBuf, `rcv
      ensures Valid()
      ensures |bytes| == if lim <= |old(Rcv()).rx| then lim else |old(Rcv()).rx|
      ensures bytes == old(Rcv()).rx[..|bytes|]
      ensures Abs() == old(Abs()).(rcv := C.Drain(old(Rcv()), |bytes|))
    {
      bytes := rxBuf.Read(lim);
      rcv := rcv.(wnd := if rcv.wnd + |bytes| > C.RX_SIZE then C.RX_SIZE else rcv.wnd + |bytes|);
    }

    // ---- state handlers ----

    method HandleEstablished(h: C.Header, payload: C.Payload, now: nat)
      requires Valid()
      modifies Repr()
      ensures Valid() && Abs() == C.HandleEstablished(old(Abs()), h, payload, now)
    {
      hide C.EstablishedAck, C.Receive, C.AnnounceWindow, Add32;
      if h.seqNo != rcv.nxt {
        var _ := AdvertiseWin();
        return;
      }
      EstablishedAck(h, payload, now);
      Receive(payload);
      if h.fin {
        rcv := rcv.(nxt := Add32(rcv.nxt, 1));
        state := C.CloseWait;
      }
      var _ := AdvertiseWin();
    }

    method EstablishedAck(h: C.Header, payload: C.Payload, now: nat)
      requires Valid()
      modifies this, retxQ, retxQ.ring
      ensures Valid() && Abs() == C.EstablishedAck(old(Abs()), h, payload, now)
    {
      if h.ack && !h.syn && !h.fin && !h.rst && |payload| == 0 && h.ackNo == snd.una && h.window == snd.wnd &&
         snd.una != snd.nxt {
        var fast := CcOnDupAck();
        if fast {
          timer := RtoTimer(1, 0, true);
        }
      } else {
        var _ := AckUpdate(h, now);
      }
    }

    /** The peer's FIN is consumed only if it is the next thing due. */
    method TakePeerFin(h: C.Header, payload: C.Payload) returns (peerFin: bool)
      requires Valid()
      modifies `rcv
      ensures Valid() && peerFin == C.FinDue(old(Rcv()), h, payload)
      ensures Abs() == old(Abs()).(rcv := if peerFin then C.TakeFin(old(Rcv())) else old(Rcv()))
    {
      peerFin := h.fin && Add32(h.seqNo, |payload|) == rcv.nxt;
      if peerFin {
        rcv := rcv.(nxt := Add32(rcv.nxt, 1));
      }
    }

    method HandleFinWait1(h: C.Header, payload: C.Payload, now: nat)
      requires Valid()
      modifies Repr()
      ensures Valid() && Abs() == C.HandleFinWait1(old(Abs()), h, payload, now)
    {
      hide TcpRetx.View, TcpRing.View, C.AckSend, C.Receive, C.AcksEverything, C.AnnounceWindow, C.AckAcceptable,
          C.FinDue, C.TakeFin;
      if h.seqNo == rcv.nxt {
        Receive(payload);
      }
      var ackOfOurFin := AckUpdate(h, now);
      var peerFin := TakePeerFin(h, payload);
      if ackOfOurFin && peerFin {
        state, timeWaitDeadline := C.TimeWait, now + C.TIME_WAIT_TICKS;
      } else if ackOfOurFin {
        state := C.FinWait2;
      } else if peerFin {
        state := C.Closing;
      }
      var _ := AdvertiseWin();
    }

    method HandleFinWait2(h: C.Header, payload: C.Payload, now: nat)
      requires Valid()
      modifies Repr()
      ensures Valid() && Abs() == C.HandleFinWait2(old(Abs()), h, payload, now)
    {
      hide TcpRetx.View, TcpRing.View, C.AckSend, C.Receive, C.AcksEverything, C.AnnounceWindow, C.AckAcceptable,
          C.FinDue, C.TakeFin;
      var _ := AckUpdate(h, now);
      if h.seqNo == rcv.nxt {
        Receive(payload);
      }
      var peerFin := TakePeerFin(h, payload);
      if peerFin {
        state, timeWaitDeadline := C.TimeWait, now + C.TIME_WAIT_TICKS;
      }
      var _ := AdvertiseWin();
    }

    method HandleClosing(h: C.Header, now: nat)
      requires Valid()
      modifies this, retxQ, retxQ.ring
      ensures Valid() && Abs() == C.HandleClosing(old(Abs()), h, now)
    {
      var ackOfOurFin := AckUpdate(h, now);
      if ackOfOurFin {
        state, timeWaitDeadline := C.TimeWait, now + C.TIME_WAIT_TICKS;
      }
    }

    method HandleTimeWait(h: C.Header, now: nat)
      requires Valid()
      modifies `timeWaitDeadline, `rcv
      ensures Valid() && Abs() == C.HandleTimeWait(old(Abs()), h, now)
    {
      if h.fin {
        timeWaitDeadline := now + C.TIME_WAIT_TICKS;
        var _ := AdvertiseWin();
      }
    }

    method HandleCloseWait(h: C.Header)
      requires Valid()
      modifies `rcv
      ensures Valid() && Abs() == C.HandleCloseWait(old(Abs()), h)
    {
      if h.fin {
        var _ := AdvertiseWin();
      }
    }

    method HandleLastAck(h: C.Header)
      requires Valid()
      modifies `active, `state
      ensures Valid() && Abs() == C.HandleLastAck(old(Abs()), h)
    {
      if h.ack && h.ackNo == snd.nxt {
        Free();
      }
    }

    method Establish(h: C.Header, now: nat)
      requires Valid()
      modifies this, retxQ, retxQ.ring
      ensures Valid() && Abs() == C.Establish(old(Abs()), h, now)
    {
      hide C.PopAcked, C.Rearm, TcpCongestion.Init;
      state := C.Established;
      snd := snd.(una := h.ackNo, wnd := h.window, wl1 := h.seqNo, wl2 := h.ackNo);
      CcInit();
      PopAcked(h.ackNo, now);
      Rearm(now);
    }

    method HandleSynReceived(h: C.Header, payload: C.Payload, now: nat)
      requires Valid()
      modifies Repr()
      ensures Valid() && Abs() == C.HandleSynReceived(old(Abs()), h, payload, now)
    {
      hide C.EstablishSend, C.HandleEstablished;
      if !h.ack {
        return;
      }
      if h.ackNo != snd.nxt {
        return;
      }
      Establish(h, now);
      if |payload| > 0 || h.fin {
        HandleEstablished(h, payload, now);
      }
    }

    method HandleSynSent(h: C.Header, payload: C.Payload, now: nat)
      requires Valid()
      modifies Repr()
      ensures Valid() && Abs() == C.HandleSynSent(old(Abs()), h, payload, now)
    {
      hide C.EstablishSend, C.HandleEstablished, C.AnnounceWindow, SeqLE, Add32;
      if h.ack {
        if !(SeqLE(Add32(snd.una, 1), h.ackNo) && SeqLE(h.ackNo, snd.nxt)) {
          return;
        }
      }
      if h.rst {
        Free();
        return;
      }
      if h.syn && !h.ack {
        Free();
        return;
      }
      if !(h.syn && h.ack) {
        return;
      }
      rcv := rcv.(irs := h.seqNo, nxt := Add32(h.seqNo, 1));
      mssEff := if h.mss < mssLocal then h.mss else mssLocal;
      Establish(h, now);
      var _ := AdvertiseWin();
      if |payload| > 0 || h.fin {
        HandleEstablished(h, payload, now);
      }
    }

    method Dispatch(h: C.Header, payload: C.Payload, now: nat)
      requires Valid()
      modifies Repr()
      ensures Valid() && Abs() == C.Dispatch(old(Abs()), h, payload, now)
    {
      if h.rst && state != C.SynSent {
        if ResetInWindow(rcv.nxt, rcv.wnd, h.seqNo) {
          Free();
        }
        return;
      }
      match state
      case SynSent => HandleSynSent(h, payload, now);
      case SynReceived => HandleSynReceived(h, payload, now);
      case Established => HandleEstablished(h, payload, now);
      case CloseWait => HandleCloseWait(h);
      case LastAck => HandleLastAck(h);
      case FinWait1 => HandleFinWait1(h, payload, now);
      case FinWait2 => HandleFinWait2(h, payload, now);
      case Closing => HandleClosing(h, now);
      case TimeWait => HandleTimeWait(h, now);
      case Closed =>
    }

    // ---- opening, closing, reading, timers ----

    method PassiveOpen(h: C.Header, iss0: u32, now: nat, sent: bool)
      requires Valid()
      modifies Repr()
      ensures Valid() && Abs() == C.PassiveOpen(old(Abs()), h, iss0, now, sent)
    {
      hide TcpRetx.View, TcpRing.View, C.SendSyn, Add32;
      active, state := true, C.SynReceived;
      rcv := rcv.(irs := h.seqNo, nxt := Add32(h.seqNo, 1), wnd := C.RX_SIZE);
      snd := SendPointers(iss0, iss0, h.window, h.seqNo, 0, iss0);
      mssLocal := TcpCongestion.DEFAULT_MSS;
      mssEff := if h.mss < TcpCongestion.DEFAULT_MSS then h.mss else TcpCongestion.DEFAULT_MSS;
      SendSyn(now, sent);
    }

    method ActiveOpen(iss0: u32, now: nat, sent: bool)
      requires Valid()
      modifies Repr()
      ensures Valid() && Abs() == C.ActiveOpen(old(Abs()), iss0, now, sent)
    {
      hide TcpRetx.View, TcpRing.View, C.SendSyn;
      active, state := true, C.SynSent;
      snd := snd.(iss := iss0, una := iss0, nxt := iss0);
      rcv := rcv.(wnd := C.RX_SIZE);
      mssLocal, mssEff := TcpCongestion.DEFAULT_MSS, TcpCongestion.DEFAULT_MSS;
      SendSyn(now, sent);
    }

    method SendSyn(now: nat, sent: bool)
      requires Valid()
      modifies this, retxQ, retxQ.ring
      ensures Valid() && Abs() == C.SendSyn(old(Abs()), now, sent)
    {
      var _ := AdvertiseWin();
      if sent {
        Transmit(1, TcpRetx.SynSegment, now);
      } else {
        snd := snd.(nxt := Add32(snd.nxt, 1));
        Free();
      }
    }

    method Close(now: nat, sent: bool) returns (ok: bool)
      requires Valid()
      modifies this, retxQ, retxQ.ring
      ensures Valid() && Abs() == C.Close(old(Abs()), now, sent)
      ensures ok == ((old(state) == C.Established || old(state) == C.CloseWait) && sent)
    {
      if state == C.Established {
        state := C.FinWait1;
      } else if state == C.CloseWait {
        state := C.LastAck;
      } else {
        return false;
      }
      var _ := AdvertiseWin();
      if !sent {
        return false;
      }
      Transmit(1, TcpRetx.FinSegment, now);
      return true;
    }

    /** The read loop's one successful pass: bytes for the caller, and the window reopened. */
    method Recv(bufMax: nat) returns (bytes: seq<u8>)
      requires Valid()
      modifies rxBuf, `rcv
      ensures Valid()
      ensures bytes == old(Rcv()).rx[..C.ReadLength(old(Rcv()), bufMax)]
      ensures Abs() == old(Abs()).(rcv := C.Drain(old(Rcv()), |bytes|))
    {
      var n := rxBuf.count;
      if n > bufMax {
        n := bufMax;
      }
      if n > C.RECV_SCRATCH {
        n := C.RECV_SCRATCH;
      }
      bytes := Drain(n);
    }

    /** One data segment of n bytes from the send call; one that did not go out is not recorded. */
    method SendData(n: u32, now: nat, sent: bool)
      requires Valid()
      modifies this, retxQ, retxQ.ring
      ensures Valid() && Abs() == C.SendData(old(Abs()), n, now, sent)
    {
      hide TcpRetx.View, TcpRing.View;
      var _ := AdvertiseWin();
      if !sent {
        return;
      }
      Transmit(n, TcpRetx.DataSegment, now);
    }

    /** The echo service's pass; sent is whether its segment went out. */
    method Echo(sent: bool)
      requires Valid()
      modifies this, rxBuf
      ensures Valid() && Abs() == C.Echo(old(Abs()), sent)
    {
      hide TcpRetx.View, TcpRing.View;
      if state == C.Established && rxBuf.count > 0 {
        var limit := if mssEff == 0 || mssEff > C.ECHO_SCRATCH then C.ECHO_SCRATCH else mssEff;
        var n := if rxBuf.count < limit then rxBuf.count else limit;
        var _ := Drain(n);
        var _ := AdvertiseWin();
        if sent {
          snd := snd.(nxt := Add32(snd.nxt, n));
        }
      } else if state == C.CloseWait && rxBuf.count == 0 {
        var _ := AdvertiseWin();
        if sent {
          snd := snd.(nxt := Add32(snd.nxt, 1));
          state := C.LastAck;
        }
      }
    }

    method RtoFire(now: nat)
      requires Valid()
      modifies Repr()
      ensures Valid() && Abs() == C.RtoFire(old(Abs()), now)
    {
      if !active || timer.deadline == 0 {
        return;
      }
      if now < timer.deadline {
        return;
      }
      if timer.xmitCountHead >= C.MAX_RETRANSMITS {
        timer := timer.(deadline := 0);
        retxQ.Flush();
        Free();
        return;
      }
      if retxQ.n == 0 {
        timer := timer.(deadline := 0);
        return;
      }
      var control := retxQ.Front().control;
      Retransmit(now);
      if control != TcpRetx.DataSegment {
        var _ := AdvertiseWin();
      }
    }

    method Retransmit(now: nat)
      requires Valid() && retxQ.n > 0
      modifies this, retxQ.ring
      ensures Valid() && Abs() == old(Abs()).(snd := C.Retransmit(old(Snd()), mssEff, now))
      ensures mssEff == old(mssEff)
    {
      hide TcpRetx.View, TcpRing.View, TcpCongestion.OnRto, Sub32;
      retxQ.RestampHead(now);
      timer := timer.(xmitCountHead := timer.xmitCountHead + 1);
      if timer.fastRetx {
        timer := timer.(fastRetx := false);
      } else {
        CcOnRto();
      }
      rtt := rtt.(rto := Wrap(rtt.rto * 2));
      if rtt.rto > TcpRtt.RTO_MAX {
        rtt := rtt.(rto := TcpRtt.RTO_MAX);
      }
      timer := timer.(deadline := now + rtt.rto);
    }

    method Scan(now: nat)
      requires Valid()
      modifies Repr()
      ensures Valid() && Abs() == C.Scan(old(Abs()), now)
    {
      var over := active && state == C.TimeWait && timeWaitDeadline != 0 && now >= timeWaitDeadline;
      RtoFire(now);
      if over {
        Free();
      }
    }
  }
}
