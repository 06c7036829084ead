/** What acknowledgements, closes, sends and timeouts do to the send side over every run:
    the two send pointers as unbounded positions, the ordered retransmission queue, the
    timeout, and the congestion window. */
module TcpAck {
  import opened SeqSpace
  import opened TcpConnection
  import TcpRetx
  import TcpCongestion
  import TcpRtt

  /** The largest flight the socket send path can build: a full 16-bit window and a FIN. The echo
      service looks at no window, so lemmas take the bound on the flight as a parameter m. */
  const MAX_FLIGHT: int := 0x1_0000

  ghost predicate Ordered(q: seq<TcpRetx.Entry>, una: int, nxt: int) {
    exists ends: seq<int> :: TcpRetx.Tracks(q, ends, una, nxt)
  }

  /** una and nxt are the unbounded positions behind the two send pointers. */
  ghost predicate Pointers(s: SendVars, una: int, nxt: int, m: int) {
    s.una == Wrap(una) && s.nxt == Wrap(nxt) && una <= nxt <= una + m && m <= HALF32
  }

  ghost predicate SendInv(s: SendVars, una: int, nxt: int, m: int) {
    && Pointers(s, una, nxt, m)
    && s.wnd < 0x1_0000
    && Ordered(s.retx, una, nxt)
    && TcpRtt.RTO_MIN <= s.est.rto <= TcpRtt.RTO_MAX
  }

  /** The flight a state allows for: only the SYN before the handshake completes, and room
      for a FIN as long as none was sent. */
  predicate FlightFits(state: TcpState, flight: int, m: int) {
    && (state == SynSent || state == SynReceived ==> flight == 1)
    && (state == Established || state == CloseWait ==> flight < m)
  }

  ghost predicate Inv(c: Conn, una: int, nxt: int, m: int) {
    c.active ==> SendInv(c.snd, una, nxt, m) && FlightFits(c.state, nxt - una, m)
  }

  /** The acknowledgement number half a turn beyond sndNxt, the one value the signed tests
      let through although nothing there was ever sent. */
  predicate HalfTurn(s: SendVars, h: Header) {
    h.ack && h.ackNo == Add32(s.nxt, HALF32)
  }

  /** That number with nothing in flight, where the tests do let it through. */
  predicate Stray(s: SendVars, h: Header) {
    Flight(s) == 0 && HalfTurn(s, h)
  }

  lemma FlightIs(s: SendVars, una: int, nxt: int, m: int)
    requires Pointers(s, una, nxt, m)
    ensures Flight(s) == nxt - una
  {
    WrapSub(nxt, una);
    WrapSmall(nxt - una);
  }

  /** An accepted acknowledgement is a position between una and nxt. */
  lemma AcceptedPosition(s: SendVars, una: int, nxt: int, m: int, h: Header)
    requires Pointers(s, una, nxt, m)
    requires AckAcceptable(s, h) && !Stray(s, h)
    ensures h.ackNo == Wrap(una + Sub32(h.ackNo, s.una)) && Sub32(h.ackNo, s.una) <= nxt - una
  {
    FlightIs(s, una, nxt, m);
    AckTestIsArc(s.una, h.ackNo, s.nxt);
    WrapAdd(una, Sub32(h.ackNo, s.una));
  }

  lemma AdvanceShape(s: SendVars, mss: u16, h: Header, now: nat)
    requires AckAcceptable(s, h) && h.ackNo != s.una
    ensures var s', p := AckSend(s, mss, h, now), TcpRetx.CoveredPrefix(s.retx, h.ackNo);
            && s'.una == h.ackNo && s'.nxt == s.nxt && s'.retx == s.retx[p..]
            && (s'.rtoDeadline == 0 <==> s'.retx == []) && s'.cc.dupAcks == 0
            && (TcpRtt.RTO_MIN <= s.est.rto <= TcpRtt.RTO_MAX ==>
                  TcpRtt.RTO_MIN <= s'.est.rto <= TcpRtt.RTO_MAX)
            && (s.wnd < 0x1_0000 ==> s'.wnd < 0x1_0000)
  {
    hide AckInWindow, SeqLE, SeqLT, TcpCongestion.OnAck, TcpRtt.RawRto, TcpRetx.OldestSent, TcpRetx.CoveredPrefix;
  }

  /** Acknowledgement processing, for every flight up to half the sequence space: una moves to
      the acknowledged position and not beyond nxt, the queue loses exactly the descriptors that
      end there or before, and the timer is disarmed exactly when none is left. */
  lemma AckAdvances(s: SendVars, mss: u16, una: int, nxt: int, m: int, ends: seq<int>, h: Header, now: nat)
    requires Pointers(s, una, nxt, m) && TcpRetx.Tracks(s.retx, ends, una, nxt)
    requires AckAcceptable(s, h) && !Stray(s, h) && h.ackNo != s.una
    ensures var s' := AckSend(s, mss, h, now);
            var a := una + Sub32(h.ackNo, s.una);
            var p := |s.retx| - |s'.retx|;
            && una < a <= nxt
            && Pointers(s', a, nxt, m)
            && p >= 0 && s'.retx == s.retx[p..]
            && (forall i :: 0 <= i < |s.retx| ==> (i < p <==> ends[i] <= a))
            && TcpRetx.Tracks(s'.retx, ends[p..], a, nxt)
            && (s'.rtoDeadline == 0 <==> s'.retx == [])
            && s'.cc.dupAcks == 0
  {
    hide AckSend, Wrap, SeqLE, AckAcceptable, Stray, Sub32;
    AdvanceShape(s, mss, h, now);
    AcceptedPosition(s, una, nxt, m, h);
    TcpRetx.PopsExactlyCovered(s.retx, ends, una, nxt, una + Sub32(h.ackNo, s.una));
  }

  /** With nothing in flight, the acknowledgement half a turn away is accepted and drags
      sndUna past sndNxt: the flight is no longer empty but half the sequence space. For any
      flight up to half the sequence space, this is the only way an acknowledgement can make the
      flight grow. */
  lemma FlightShrinksIff(s: SendVars, mss: u16, h: Header, now: nat)
    requires Flight(s) <= HALF32
    ensures Flight(AckSend(s, mss, h, now)) <= Flight(s) <==> !Stray(s, h)
    ensures Stray(s, h) ==> Flight(AckSend(s, mss, h, now)) == HALF32
  {
    AckTestIsArc(s.una, h.ackNo, s.nxt);
    if AckAcceptable(s, h) && h.ackNo != s.una {
      hide AckSend;
      AdvanceShape(s, mss, h, now);
    }
  }

  // ---- steps ----

  lemma AckMoves(s: SendVars, mss: u16, una: int, nxt: int, m: int, h: Header, now: nat) returns (una': int)
    requires SendInv(s, una, nxt, m) && !Stray(s, h)
    ensures SendInv(AckSend(s, mss, h, now), una', nxt, m) && una <= una'
  {
    hide Stray, AckAcceptable;
    if AckAcceptable(s, h) && h.ackNo != s.una {
      una' := AdvanceMoves(s, mss, una, nxt, m, h, now);
    } else {
      una' := una;
    }
  }

  lemma AdvanceMoves(s: SendVars, mss: u16, una: int, nxt: int, m: int, h: Header, now: nat) returns (una': int)
    requires SendInv(s, una, nxt, m) && !Stray(s, h) && AckAcceptable(s, h) && h.ackNo != s.una
    ensures SendInv(AckSend(s, mss, h, now), una', nxt, m) && una <= una'
  {
    hide AckAcceptable, Stray, AckSend, Sub32, Wrap;
    var ends :| TcpRetx.Tracks(s.retx, ends, una, nxt);
    AckAdvances(s, mss, una, nxt, m, ends, h, now);
    AdvanceShape(s, mss, h, now);
    una' := una + Sub32(h.ackNo, s.una);
    var s' := AckSend(s, mss, h, now);
    assert TcpRetx.Tracks(s'.retx, ends[|s.retx| - |s'.retx|..], una', nxt);
  }

  /** The segments whose acknowledgement a synchronized connection processes. */
  predicate TakesAck(c: Conn, h: Header, payload: Payload) {
    && !h.rst
    && (|| (c.state == Established && h.seqNo == c.rcv.nxt && !IsDuplicateAck(c.snd, h, payload))
        || c.state == FinWait1 || c.state == FinWait2 || c.state == Closing)
  }

  /** Every handler treats the send variables in one of three ways. */
  lemma HandlerSend(c: Conn, h: Header, payload: Payload, now: nat)
    requires c.active && c.state != SynSent && c.state != SynReceived
    ensures var c' := Dispatch(c, h, payload, now);
            && (c'.active ==>
                  && (c'.state == Established ==> c.state == Established)
                  && (c'.state == CloseWait ==> c.state == Established || c.state == CloseWait)
                  && c'.state != SynSent && c'.state != SynReceived)
            && (TakesAck(c, h, payload) ==> c'.active && c'.snd == AckSend(c.snd, c.mssEff, h, now))
            && (!TakesAck(c, h, payload) ==> c'.snd == c.snd || c'.snd == OnDuplicateAck(c.snd, c.mssEff))
  {
    hide AckSend, OnDuplicateAck, IsDuplicateAck, AcksEverything, ResetInWindow, AnnounceWindow, Receive, Add32,
        MssAfterAck;
  }

  lemma DupAckMoves(s: SendVars, mss: u16, una: int, nxt: int, m: int)
    requires SendInv(s, una, nxt, m)
    ensures SendInv(OnDuplicateAck(s, mss), una, nxt, m)
  {
    hide Wrap, TcpCongestion.OnDupAck;
  }

  lemma SynchronizedMoves(c: Conn, una: int, nxt: int, m: int, h: Header, payload: Payload, now: nat)
    returns (una': int)
    requires c.active && c.state != SynSent && c.state != SynReceived
    requires Inv(c, una, nxt, m) && !(TakesAck(c, h, payload) && Stray(c.snd, h))
    ensures Inv(Dispatch(c, h, payload, now), una', nxt, m) && una <= una'
  {
    hide Dispatch, SendInv, AckSend, OnDuplicateAck, Stray, TakesAck;
    HandlerSend(c, h, payload, now);
    var c' := Dispatch(c, h, payload, now);
    una' := una;
    if TakesAck(c, h, payload) {
      una' := AckMoves(c.snd, c.mssEff, una, nxt, m, h, now);
    } else {
      DupAckMoves(c.snd, c.mssEff, una, nxt, m);
    }
    PointersOrdered(c.snd, una, nxt, m);
    if c'.active {
      PointersOrdered(c'.snd, una', nxt, m);
    }
  }

  lemma PointersOrdered(s: SendVars, una: int, nxt: int, m: int)
    requires SendInv(s, una, nxt, m)
    ensures una <= nxt <= una + m <= una + HALF32
  {
  }

  /** Entering ESTABLISHED acknowledges the SYN, the only thing in flight. */
  lemma EstablishMoves(s: SendVars, mss: u16, una: int, nxt: int, m: int, h: Header, now: nat)
    requires SendInv(s, una, nxt, m) && nxt == una + 1 && h.ackNo == s.nxt
    ensures SendInv(EstablishSend(s, mss, h, now), nxt, nxt, m)
    ensures EstablishSend(s, mss, h, now).nxt == s.nxt
  {
    hide TcpCongestion.Init, Wrap, TcpRtt.RawRto, TcpRetx.OldestSent;
    var ends :| TcpRetx.Tracks(s.retx, ends, una, nxt);
    TcpRetx.PopsExactlyCovered(s.retx, ends, una, nxt, nxt);
    var p := TcpRetx.CoveredPrefix(s.retx, h.ackNo);
    assert TcpRetx.Tracks(s.retx[p..], ends[p..], nxt, nxt);
  }

  /** In SYN-SENT the acceptable acknowledgements are the one of our SYN and the one half a turn
      beyond it. */
  lemma SynSentAck(s: SendVars, una: int, nxt: int, m: int, ackNo: u32)
    requires Pointers(s, una, nxt, m) && nxt == una + 1
    ensures SynAckAcceptable(s, ackNo) <==> ackNo == s.nxt || ackNo == Add32(s.nxt, HALF32)
  {
    WrapAdd(una, 1);
    AckTestIsArc(s.nxt, ackNo, s.nxt);
  }

  /** The nested ESTABLISHED handler runs on an empty flight. */
  lemma NestedMoves(c: Conn, nxt: int, m: int, h: Header, payload: Payload, now: nat) returns (una': int)
    requires c.active && c.state == Established && !h.rst
    requires Inv(c, nxt, nxt, m) && !HalfTurn(c.snd, h)
    ensures Inv(HandleEstablished(c, h, payload, now), una', nxt, m) && nxt <= una'
  {
    hide HandleEstablished, SendInv, HalfTurn, TakesAck;
    una' := SynchronizedMoves(c, nxt, nxt, m, h, payload, now);
  }

  lemma SynReceivedMoves(c: Conn, una: int, nxt: int, m: int, h: Header, payload: Payload, now: nat) returns (una': int)
    requires c.active && c.state == SynReceived && Inv(c, una, nxt, m) && 1 <= m && !h.rst
    ensures Inv(HandleSynReceived(c, h, payload, now), una', nxt, m) && una <= una'
  {
    hide EstablishSend, HandleEstablished, SendInv;
    una' := una;
    if h.ack && h.ackNo == c.snd.nxt {
      EstablishMoves(c.snd, c.mssEff, una, nxt, m, h, now);
      una' := nxt;
      if payload != [] || h.fin {
        una' := NestedMoves(Establish(c, h, now), nxt, m, h, payload, now);
      }
    }
  }

  lemma SynSentMoves(c: Conn, una: int, nxt: int, m: int, h: Header, payload: Payload, now: nat) returns (una': int)
    requires c.active && c.state == SynSent && Inv(c, una, nxt, m) && 1 <= m
    requires h.syn && h.ack && !h.rst ==> !HalfTurn(c.snd, h)
    ensures Inv(HandleSynSent(c, h, payload, now), una', nxt, m) && una <= una'
  {
    hide EstablishSend, HandleEstablished, AnnounceWindow, SynAckAcceptable, Wrap, Ordered;
    una' := una;
    if h.syn && h.ack && !h.rst && SynAckAcceptable(c.snd, h.ackNo) {
      SynSentAck(c.snd, una, nxt, m, h.ackNo);
      var c1 := Synchronize(c, h);
      EstablishMoves(c1.snd, c1.mssEff, una, nxt, m, h, now);
      una' := nxt;
      if payload != [] || h.fin {
        una' := NestedMoves(Announce(Establish(c1, h, now)), nxt, m, h, payload, now);
      }
    }
  }

  /** A segment that makes the connection take the number half a turn away for an acknowledgement
      of something sent: what to test before handing a segment over. */
  predicate StrayTaken(c: Conn, h: Header, payload: Payload) {
    && c.active
    && (if c.state == SynSent then h.syn && h.ack && !h.rst && HalfTurn(c.snd, h)
        else c.state != SynReceived && TakesAck(c, h, payload) && Stray(c.snd, h))
  }

  lemma DispatchMoves(c: Conn, una: int, nxt: int, m: int, h: Header, payload: Payload, now: nat) returns (una': int)
    requires c.active && Inv(c, una, nxt, m) && 1 <= m && !StrayTaken(c, h, payload)
    ensures Inv(Dispatch(c, h, payload, now), una', nxt, m) && una <= una'
  {
    hide HandleSynSent, HandleSynReceived, HandleEstablished, HandleFinWait1, HandleFinWait2,
      HandleClosing, ResetInWindow, HalfTurn, Stray, TakesAck, SendInv, AnnounceWindow;
    una' := una;
    if c.state == SynSent {
      una' := SynSentMoves(c, una, nxt, m, h, payload, now);
    } else if c.state == SynReceived {
      if !h.rst {
        una' := SynReceivedMoves(c, una, nxt, m, h, payload, now);
      }
    } else {
      una' := SynchronizedMoves(c, una, nxt, m, h, payload, now);
    }
  }

  /** Anything sent extends the positions and, space permitting, the queue. */
  lemma TransmitMoves(s: SendVars, una: int, nxt: int, m: int, n: u32, control: TcpRetx.Control, now: nat)
    requires SendInv(s, una, nxt, m) && 1 <= n && nxt + n <= una + m
    ensures SendInv(Transmit(s, n, control, now), una, nxt + n, m)
    ensures Transmit(s, n, control, now).rtoDeadline > now
  {
    hide Wrap;
    WrapAdd(nxt, n);
    var ends :| TcpRetx.Tracks(s.retx, ends, una, nxt);
    var e := TcpRetx.Entry(s.nxt, Add32(s.nxt, n), control, now, 0);
    TcpRetx.PushKeepsOrder(s.retx, ends, una, nxt, e, nxt + n);
  }

  lemma CloseMoves(c: Conn, una: int, nxt: int, m: int, now: nat, sent: bool) returns (nxt': int)
    requires c.active && Inv(c, una, nxt, m)
    ensures Inv(Close(c, now, sent), una, nxt', m) && nxt <= nxt'
  {
    hide SendInv, Transmit, AnnounceWindow;
    nxt' := nxt;
    if (c.state == Established || c.state == CloseWait) && sent {
      nxt' := nxt + 1;
      TransmitMoves(c.snd, una, nxt, m, 1, TcpRetx.FinSegment, now);
    }
  }

  lemma SendMoves(c: Conn, una: int, nxt: int, m: int, n: u32, now: nat, sent: bool)
    requires c.active && Inv(c, una, nxt, m) && CanSend(c, n) && MAX_FLIGHT <= m
    ensures Inv(SendData(c, n, now, sent), una, if sent then nxt + n else nxt, m)
  {
    hide Transmit, AnnounceWindow, Wrap, Ordered;
    FlightIs(c.snd, una, nxt, m);
    TransmitMoves(c.snd, una, nxt, m, n, TcpRetx.DataSegment, now);
  }

  /** The echo service sends without recording anything for retransmission. */
  lemma BlindSend(s: SendVars, una: int, nxt: int, m: int, n: u32)
    requires SendInv(s, una, nxt, m) && nxt + n <= una + m
    ensures SendInv(s.(nxt := Add32(s.nxt, n)), una, nxt + n, m)
  {
    hide Wrap;
    WrapAdd(nxt, n);
    var ends :| TcpRetx.Tracks(s.retx, ends, una, nxt);
    assert TcpRetx.Tracks(s.retx, ends, una, nxt + n);
  }

  /** The echo pass leaves room for a FIN within m: what bounds its window-blind sends. */
  predicate EchoFits(c: Conn, e: Event, m: int) {
    c.active && e.EchoPass? && e.sent && c.state == Established ==> Flight(c.snd) + EchoLength(c.rcv, c.mssEff) < m
  }

  lemma EchoMoves(c: Conn, una: int, nxt: int, m: int, sent: bool) returns (nxt': int)
    requires c.active && Inv(c, una, nxt, m) && EchoFits(c, EchoPass(sent), m)
    ensures Inv(Echo(c, sent), una, nxt', m) && nxt <= nxt'
  {
    FlightOf(c.snd, una, nxt, m);
    hide SendInv, AnnounceWindow, Flight;
    nxt' := nxt;
    if sent {
      if c.state == Established && c.rcv.rx != [] {
        var n := EchoLength(c.rcv, c.mssEff);
        nxt' := nxt + n;
        BlindSend(c.snd, una, nxt, m, n);
      } else if c.state == CloseWait && c.rcv.rx == [] {
        nxt' := nxt + 1;
        BlindSend(c.snd, una, nxt, m, 1);
      }
    }
  }

  lemma FlightOf(s: SendVars, una: int, nxt: int, m: int)
    requires SendInv(s, una, nxt, m)
    ensures Flight(s) == nxt - una <= m
  {
    FlightIs(s, una, nxt, m);
  }

  lemma BackOffRange(rto: u32)
    requires TcpRtt.RTO_MIN <= rto <= TcpRtt.RTO_MAX
    ensures TcpRtt.RTO_MIN <= TcpRtt.BackOff(rto) <= TcpRtt.RTO_MAX
  {
    WrapSmall(rto * 2);
  }

  lemma RtoMoves(c: Conn, una: int, nxt: int, m: int, now: nat)
    requires Inv(c, una, nxt, m)
    ensures Inv(RtoFire(c, now), una, nxt, m)
  {
    hide Wrap, AnnounceWindow, TcpCongestion.OnRto, TcpRtt.BackOff;
    if c.active && RtoExpired(c.snd, now) && c.snd.xmitCountHead < MAX_RETRANSMITS && c.snd.retx != [] {
      var ends :| TcpRetx.Tracks(c.snd.retx, ends, una, nxt);
      assert TcpRetx.Tracks(Retransmit(c.snd, c.mssEff, now).retx, ends, una, nxt);
      BackOffRange(c.snd.est.rto);
    }
  }

  /** Every event keeps the send side in order within m, and neither position ever moves back,
      unless it is the stray acknowledgement number or an echo pass that does not fit. */
  lemma StepMoves(c: Conn, una: int, nxt: int, m: int, e: Event, now: nat) returns (una': int, nxt': int)
    requires Inv(c, una, nxt, m) && MAX_FLIGHT <= m && EchoFits(c, e, m)
    requires e.Arrive? ==> !StrayTaken(c, e.h, e.payload)
    ensures Inv(Step(c, e, now), una', nxt', m) && una <= una' && nxt <= nxt'
  {
    hide Dispatch, Close, SendData, RtoFire, SendInv, StrayTaken, CanSend, EchoFits, Echo;
    una', nxt' := una, nxt;
    if c.active {
      match e
      case Arrive(h, payload, _) => una' := DispatchMoves(c, una, nxt, m, h, payload, now);
      case Read(bufMax) =>
      case EchoPass(sent) => nxt' := EchoMoves(c, una, nxt, m, sent);
      case CloseCall(sent) => nxt' := CloseMoves(c, una, nxt, m, now, sent);
      case DataSend(n, sent) =>
        if CanSend(c, n) {
          SendMoves(c, una, nxt, m, n, now, sent);
          nxt' := if sent then nxt + n else nxt;
        }
      case TimerScan => RtoMoves(c, una, nxt, m, now);
    }
  }

  /** Taking the stray number leaves half the sequence space in flight. */
  lemma StrayBreaks(c: Conn, una: int, nxt: int, m: int, h: Header, payload: Payload, now: nat)
    requires c.active && Inv(c, una, nxt, m) && 1 <= m && StrayTaken(c, h, payload)
    ensures var c' := Dispatch(c, h, payload, now); c'.active && Flight(c'.snd) == HALF32
  {
    if c.state == SynSent {
      SynSentAck(c.snd, una, nxt, m, h.ackNo);
      SynStray(c, h, payload, now);
    } else {
      hide AckSend, Dispatch, TakesAck;
      HandlerSend(c, h, payload, now);
      FlightShrinksIff(c.snd, c.mssEff, h, now);
    }
  }

  lemma SynStray(c: Conn, h: Header, payload: Payload, now: nat)
    requires c.active && c.state == SynSent && h.syn && h.ack && !h.rst && HalfTurn(c.snd, h)
    requires SynAckAcceptable(c.snd, h.ackNo)
    ensures var c' := Dispatch(c, h, payload, now); c'.active && Flight(c'.snd) == HALF32
  {
    hide EstablishSend, SynAckAcceptable, EstablishedAck, Receive;
    var c1 := Announce(Establish(Synchronize(c, h), h, now));
    EstablishPointers(c.snd, Synchronize(c, h).mssEff, h, now);
    assert HandleEstablished(c1, h, payload, now) == Announce(c1);
    assert Flight(c1.snd) == HALF32;
  }

  lemma EstablishPointers(s: SendVars, mss: u16, h: Header, now: nat)
    ensures EstablishSend(s, mss, h, now).una == h.ackNo && EstablishSend(s, mss, h, now).nxt == s.nxt
    ensures EstablishSend(s, mss, h, now).cc == TcpCongestion.Init(mss)
  {
  }

  /** The flight stays within a bound below half the sequence space exactly when the stray number
      is not taken. */
  lemma StepFlightIff(c: Conn, una: int, nxt: int, m: int, e: Event, now: nat)
    requires c.active && Inv(c, una, nxt, m) && MAX_FLIGHT <= m < HALF32 && EchoFits(c, e, m)
    ensures (Step(c, e, now).active ==> Flight(Step(c, e, now).snd) <= m)
            <==> !(e.Arrive? && StrayTaken(c, e.h, e.payload))
  {
    hide StrayTaken, EchoFits, Dispatch, SendInv, Flight;
    if e.Arrive? && StrayTaken(c, e.h, e.payload) {
      StrayBreaks(c, una, nxt, m, e.h, e.payload, now);
    } else {
      var una', nxt' := StepMoves(c, una, nxt, m, e, now);
      hide Step;
      if Step(c, e, now).active {
        FlightOf(Step(c, e, now).snd, una', nxt', m);
      }
    }
  }

  // ---- runs ----

  ghost predicate SendRun(c0: Conn, es: seq<(Event, nat)>, m: int) {
    forall k :: 0 <= k < |es| ==> Sendable(Run(c0, es[..k]), es[k].0, m)
  }

  ghost predicate Sendable(c: Conn, e: Event, m: int) {
    EchoFits(c, e, m) && (e.Arrive? ==> !StrayTaken(c, e.h, e.payload))
  }

  /** A witness of the positions after each event of a run. */
  ghost predicate Positions(c0: Conn, es: seq<(Event, nat)>, unas: seq<int>, nxts: seq<int>, m: int) {
    && |unas| == |nxts| == |es| + 1
    && (forall k :: 0 <= k <= |es| ==> Inv(Run(c0, es[..k]), unas[k], nxts[k], m))
    && (forall j, k :: 0 <= j <= k <= |es| ==> unas[j] <= unas[k] && nxts[j] <= nxts[k])
  }

  lemma SynInv(c: Conn, now: nat, sent: bool, m: int)
    requires c.snd.una == c.snd.iss == c.snd.nxt && c.snd.retx == [] && c.snd.wnd < 0x1_0000 && 1 <= m <= HALF32
    requires (c.state == SynSent || c.state == SynReceived) && c.snd.est.rto == 0
    ensures Inv(SendSyn(c, now, sent), c.snd.iss, c.snd.iss + 1, m)
    ensures SendSyn(c, now, sent).snd.iss == c.snd.iss
  {
    hide AnnounceWindow;
    WrapSmall(c.snd.iss);
    WrapAdd(c.snd.iss, 1);
    if sent {
      assert TcpRetx.Tracks(SendSyn(c, now, sent).snd.retx, [c.snd.iss + 1], c.snd.iss, c.snd.iss + 1);
    }
  }

  lemma OpenedInv(c: Conn, isn: u32, m: int)
    requires Opened(c, isn) && 1 <= m <= HALF32
    ensures Inv(c, c.snd.iss, c.snd.iss + 1, m)
  {
    hide SendSyn, Inv;
    if h: Header, iss: u32, now: nat, sent: bool :|
      h.seqNo == isn && c == PassiveOpen(FRESH, h, iss, now, sent) {
      var mss := if h.mss < TcpCongestion.DEFAULT_MSS then h.mss else TcpCongestion.DEFAULT_MSS;
      SynInv(FRESH.(active := true, state := SynReceived, mssLocal := TcpCongestion.DEFAULT_MSS, mssEff := mss,
                    rcv := FRESH.rcv.(irs := h.seqNo, nxt := Add32(h.seqNo, 1), wnd := RX_SIZE),
                    snd := FRESH.snd.(iss := iss, una := iss, nxt := iss, wnd := h.window, wl1 := h.seqNo, wl2 := 0)),
             now, sent, m);
    } else {
      var iss: u32, now: nat, sent: bool :| c == ActiveOpen(FRESH, iss, now, sent);
      SynInv(FRESH.(active := true, state := SynSent, mssLocal := TcpCongestion.DEFAULT_MSS,
                    mssEff := TcpCongestion.DEFAULT_MSS,
                    rcv := FRESH.rcv.(wnd := RX_SIZE), snd := FRESH.snd.(iss := iss, una := iss, nxt := iss)),
             now, sent, m);
    }
  }

  /** The send side over every run from a fresh slot, for any bound m of 2^16..2^31 that the echo
      passes of the run keep to: sndUna and sndNxt are wrapped positions that never move back, at
      most m apart and in order; the retransmission queue is ordered between them; the timeout
      stays in 100..6000. */
  lemma {:induction false} SendSafety(c0: Conn, isn: u32, es: seq<(Event, nat)>, m: int)
    returns (unas: seq<int>, nxts: seq<int>)
    requires Opened(c0, isn) && MAX_FLIGHT <= m <= HALF32 && SendRun(c0, es, m)
    ensures Positions(c0, es, unas, nxts, m)
  {
    hide Inv, Sendable, Step, Opened;
    if es == [] {
      OpenedInv(c0, isn, m);
      unas, nxts := [c0.snd.iss], [c0.snd.iss + 1];
      assert es[..0] == [];
    } else {
      var n := |es| - 1;
      var pre := es[..n];
      assert forall k :: 0 <= k <= n ==> pre[..k] == es[..k];
      unas, nxts := SendSafety(c0, isn, pre, m);
      assert pre[..n] == pre;
      assert Inv(Run(c0, pre), unas[n], nxts[n], m);
      assert Sendable(Run(c0, es[..n]), es[n].0, m);
      var una', nxt' := SendableMoves(Run(c0, pre), unas[n], nxts[n], m, es[n].0, es[n].1);
      ExtendPositions(c0, es, unas, nxts, una', nxt', m);
      unas, nxts := unas + [una'], nxts + [nxt'];
    }
  }

  /** The flight is within m, with room for a FIN where one may still be sent. */
  predicate FlightWithin(c: Conn, m: int) {
    c.active ==> Flight(c.snd) <= m && (c.state == Established || c.state == CloseWait ==> Flight(c.snd) < m)
  }

  predicate WithinAt(c0: Conn, es: seq<(Event, nat)>, k: nat, m: int)
    requires k <= |es|
  {
    FlightWithin(Run(c0, es[..k]), m)
  }

  ghost predicate AlwaysWithin(c0: Conn, es: seq<(Event, nat)>, m: int) {
    forall k :: 0 <= k <= |es| ==> WithinAt(c0, es, k, m)
  }

  /** Exactly when: over every run, for a bound below 2^31, the flight stays within the bound
      throughout if and only if every echo pass fits and no segment with the stray number is
      taken. */
  lemma {:induction false} SendSafetyIff(c0: Conn, isn: u32, es: seq<(Event, nat)>, m: int)
    requires Opened(c0, isn) && MAX_FLIGHT <= m < HALF32
    ensures AlwaysWithin(c0, es, m) <==> SendRun(c0, es, m)
    decreases |es|
  {
    hide Inv, Step, Opened, Sendable, SendRun, AlwaysWithin, FlightWithin;
    if es == [] {
      OpenedInv(c0, isn, m);
      WithinOf(c0, c0.snd.iss, c0.snd.iss + 1, m);
      NoEvents(c0, m);
    } else {
      var n := |es| - 1;
      var pre := es[..n];
      OneMoreEvent(c0, es, m);
      SendSafetyIff(c0, isn, pre, m);
      if SendRun(c0, pre, m) {
        var unas, nxts := SendSafety(c0, isn, pre, m);
        assert pre[..n] == pre;
        LastStep(Run(c0, pre), unas[n], nxts[n], m, es[n].0, es[n].1);
      }
    }
  }

  lemma NoEvents(c0: Conn, m: int)
    ensures AlwaysWithin(c0, [], m) <==> FlightWithin(c0, m)
    ensures SendRun(c0, [], m)
  {
    hide FlightWithin;
    var none: seq<(Event, nat)> := [];
    assert none[..0] == none;
    assert WithinAt(c0, none, 0, m) <==> FlightWithin(c0, m);
  }

  lemma OneMoreEvent(c0: Conn, es: seq<(Event, nat)>, m: int)
    requires es != []
    ensures var n := |es| - 1;
            && (AlwaysWithin(c0, es, m) <==> AlwaysWithin(c0, es[..n], m) && FlightWithin(Run(c0, es), m))
            && (SendRun(c0, es, m) <==> SendRun(c0, es[..n], m) && Sendable(Run(c0, es[..n]), es[n].0, m))
  {
    hide AlwaysWithin, SendRun, FlightWithin, Sendable, Run;
    OneMoreWithin(c0, es, m);
    OneMoreSendable(c0, es, m);
  }

  lemma OneMoreWithin(c0: Conn, es: seq<(Event, nat)>, m: int)
    requires es != []
    ensures AlwaysWithin(c0, es, m) <==> AlwaysWithin(c0, es[..|es| - 1], m) && FlightWithin(Run(c0, es), m)
  {
    hide WithinAt, FlightWithin, Run;
    var n := |es| - 1;
    WithinPrefix(c0, es, |es|, |es|, m);
    forall k | 0 <= k <= n
      ensures WithinAt(c0, es[..n], k, m) <==> WithinAt(c0, es, k, m)
    {
      WithinPrefix(c0, es, n, k, m);
    }
  }

  lemma WithinPrefix(c0: Conn, es: seq<(Event, nat)>, n: nat, k: nat, m: int)
    requires k <= n <= |es|
    ensures WithinAt(c0, es[..n], k, m) <==> WithinAt(c0, es, k, m)
    ensures k == |es| ==> (WithinAt(c0, es, k, m) <==> FlightWithin(Run(c0, es), m))
  {
    hide FlightWithin, Run;
    assert es[..n][..k] == es[..k] && es[..|es|] == es;
  }

  lemma OneMoreSendable(c0: Conn, es: seq<(Event, nat)>, m: int)
    requires es != []
    ensures SendRun(c0, es, m)
            <==> SendRun(c0, es[..|es| - 1], m) && Sendable(Run(c0, es[..|es| - 1]), es[|es| - 1].0, m)
  {
    hide Sendable, Run;
    var n := |es| - 1;
    forall k | 0 <= k < n
      ensures Sendable(Run(c0, es[..n][..k]), es[..n][k].0, m) <==> Sendable(Run(c0, es[..k]), es[k].0, m)
    {
      assert es[..n][..k] == es[..k];
    }
  }

  lemma WithinOf(c: Conn, una: int, nxt: int, m: int)
    requires Inv(c, una, nxt, m)
    ensures FlightWithin(c, m)
  {
    if c.active {
      FlightOf(c.snd, una, nxt, m);
    }
  }

  lemma LastStep(c: Conn, una: int, nxt: int, m: int, e: Event, now: nat)
    requires Inv(c, una, nxt, m) && MAX_FLIGHT <= m < HALF32
    ensures FlightWithin(Step(c, e, now), m) <==> Sendable(c, e, m)
  {
    hide Inv, EchoFits, StrayTaken, Dispatch, Echo, FlightWithin;
    if !EchoFits(c, e, m) {
      EchoOverruns(c, una, nxt, m, e, now);
    } else if e.Arrive? && StrayTaken(c, e.h, e.payload) {
      StrayOverruns(c, una, nxt, m, e, now);
    } else {
      var una', nxt' := StepMoves(c, una, nxt, m, e, now);
      WithinOf(Step(c, e, now), una', nxt', m);
    }
  }

  lemma StrayOverruns(c: Conn, una: int, nxt: int, m: int, e: Event, now: nat)
    requires Inv(c, una, nxt, m) && 1 <= m < HALF32 && e.Arrive? && StrayTaken(c, e.h, e.payload)
    ensures !FlightWithin(Step(c, e, now), m)
  {
    hide Inv, Dispatch, Flight;
    StrayBreaks(c, una, nxt, m, e.h, e.payload, now);
  }

  lemma EchoOverruns(c: Conn, una: int, nxt: int, m: int, e: Event, now: nat)
    requires Inv(c, una, nxt, m) && m < HALF32 && !EchoFits(c, e, m)
    ensures !FlightWithin(Step(c, e, now), m)
  {
    hide AnnounceWindow;
    FlightOf(c.snd, una, nxt, m);
    var n := EchoLength(c.rcv, c.mssEff);
    FlightAfter(c.snd, n);
  }

  lemma FlightAfter(s: SendVars, n: u32)
    requires Flight(s) < HALF32 && n < 0x1_0000
    ensures Flight(s.(nxt := Add32(s.nxt, n))) == Flight(s) + n
  {
  }

  lemma SendableMoves(c: Conn, una: int, nxt: int, m: int, e: Event, now: nat) returns (una': int, nxt': int)
    requires Inv(c, una, nxt, m) && MAX_FLIGHT <= m && Sendable(c, e, m)
    ensures Inv(Step(c, e, now), una', nxt', m) && una <= una' && nxt <= nxt'
  {
    hide Inv, EchoFits, StrayTaken;
    una', nxt' := StepMoves(c, una, nxt, m, e, now);
  }

  lemma ExtendPositions(c0: Conn, es: seq<(Event, nat)>, unas: seq<int>, nxts: seq<int>, una': int, nxt': int, m: int)
    requires es != [] && Positions(c0, es[..|es| - 1], unas, nxts, m)
    requires Inv(Run(c0, es), una', nxt', m)
    requires unas[|es| - 1] <= una' && nxts[|es| - 1] <= nxt'
    ensures Positions(c0, es, unas + [una'], nxts + [nxt'], m)
  {
    hide Run, Inv;
    var n := |es| - 1;
    forall k | 0 <= k <= |es|
      ensures Inv(Run(c0, es[..k]), (unas + [una'])[k], (nxts + [nxt'])[k], m)
    {
      if k <= n {
        assert es[..n][..k] == es[..k];
      } else {
        assert es[..k] == es;
      }
    }
  }

  // ---- a silent peer ----

  /** Nothing arrives and nothing is sent: timer passes at any times, and reads. */
  predicate Quiet(es: seq<(Event, nat)>) {
    forall k :: 0 <= k < |es| ==> es[k].0.TimerScan? || es[k].0.Read?
  }

  /** How many of the events were passes that found the timer expired. */
  function Expiries(c: Conn, es: seq<(Event, nat)>): nat {
    if es == [] then 0 else
    var n := |es| - 1;
    var p := Run(c, es[..n]);
    Expiries(c, es[..n]) + if es[n].0.TimerScan? && p.active && RtoExpired(p.snd, es[n].1) then 1 else 0
  }

  ghost predicate Armed(c: Conn) {
    && c.active && c.state != TimeWait && c.snd.retx != [] && c.snd.rtoDeadline != 0
    && TcpRtt.RTO_MIN <= c.snd.est.rto <= TcpRtt.RTO_MAX
  }

  lemma OneExpiry(c: Conn, now: nat)
    requires Armed(c) && now >= c.snd.rtoDeadline
    ensures var d := RtoFire(c, now);
            if c.snd.xmitCountHead < MAX_RETRANSMITS then
              && Armed(d) && d.snd.xmitCountHead == c.snd.xmitCountHead + 1
              && d.snd.est.rto == TcpRtt.BackOff(c.snd.est.rto)
              && d.snd.rtoDeadline == now + d.snd.est.rto
            else !d.active && d.state == Closed && d.snd.retx == []
  {
    hide TcpRtt.BackOff, AnnounceWindow, TcpCongestion.OnRto;
    BackOffRange(c.snd.est.rto);
  }

  /** A pass before the deadline, or a read, leaves the send side alone. */
  lemma EarlyPass(c: Conn, e: Event, now: nat)
    requires Armed(c) && (e.Read? || (e.TimerScan? && !RtoExpired(c.snd, now)))
    ensures Step(c, e, now).snd == c.snd && Armed(Step(c, e, now))
  {
  }

  /** From any armed state that has retransmitted at most eight times, however the scanner's
      passes fall: after k more expiries the timeout is the first one times 2^k up to the cap of
      6000; the expiries up to the eighth retransmit, the ninth gives the slot up, and there is
      no tenth. */
  lemma {:induction false} SilentPeer(c: Conn, es: seq<(Event, nat)>)
    requires Armed(c) && c.snd.xmitCountHead <= MAX_RETRANSMITS && Quiet(es)
    ensures var d, k := Run(c, es), Expiries(c, es);
            var count := c.snd.xmitCountHead + k;
            && count <= 9
            && (count <= 8 ==> Armed(d) && d.snd.xmitCountHead == count
                               && d.snd.est.rto == TcpRtt.BackOffs(c.snd.est.rto, k))
            && (count == 9 ==> !d.active && d.state == Closed && d.snd.retx == [])
    decreases |es|
  {
    hide TcpRtt.BackOff, Scan;
    if es != [] {
      var n := |es| - 1;
      SilentPeer(c, es[..n]);
      var p := Run(c, es[..n]);
      var e, now := es[n].0, es[n].1;
      if p.active {
        if e.TimerScan? && RtoExpired(p.snd, now) {
          OneExpiry(p, now);
          ScanIsFire(p, now);
        } else {
          EarlyPass(p, e, now);
        }
      }
    }
  }

  lemma ScanIsFire(c: Conn, now: nat)
    requires Armed(c)
    ensures Scan(c, now) == RtoFire(c, now)
  {
  }

  /** The timeout after k expiries, in closed form. */
  lemma SilentPeerTimeout(c: Conn, es: seq<(Event, nat)>)
    requires Armed(c) && Quiet(es) && c.snd.xmitCountHead + Expiries(c, es) <= MAX_RETRANSMITS
    ensures var raw := TcpRtt.Pow2(Expiries(c, es)) * c.snd.est.rto;
            Run(c, es).snd.est.rto == if raw > TcpRtt.RTO_MAX then TcpRtt.RTO_MAX else raw
  {
    hide TcpRtt.BackOffs, TcpRtt.Pow2, Run, Expiries;
    SilentPeer(c, es);
    TcpRtt.BackOffIsPower(c.snd.est.rto, Expiries(c, es));
  }

  // ---- the timer in every reachable state ----

  /** Whatever waits for an acknowledgement has a running timer and a timeout in range, and has
      been retransmitted at most eight times. */
  predicate TimerOk(s: SendVars) {
    && s.xmitCountHead <= MAX_RETRANSMITS
    && (s.est.rto == 0 || TcpRtt.RTO_MIN <= s.est.rto <= TcpRtt.RTO_MAX)
    && (s.retx != [] ==> s.rtoDeadline != 0 && s.est.rto != 0)
  }

  lemma TransmitTimed(s: SendVars, n: u32, control: TcpRetx.Control, now: nat)
    requires TimerOk(s)
    ensures TimerOk(Transmit(s, n, control, now))
  {
    hide Add32;
  }

  lemma PopTimed(s: SendVars, ackNo: u32, now: nat)
    requires TimerOk(s)
    ensures TimerOk(Rearm(PopAcked(s, ackNo, now), now))
  {
    hide TcpRtt.RawRto, TcpRetx.OldestSent, TcpRetx.AnyPristine, TcpRetx.CoveredPrefix, Wrap;
  }

  lemma AckTimed(s: SendVars, mss: u16, h: Header, now: nat)
    requires TimerOk(s)
    ensures TimerOk(AckSend(s, mss, h, now))
  {
    hide TcpRtt.Sample, TcpRetx.OldestSent, TcpRetx.AnyPristine, TcpRetx.CoveredPrefix, TcpCongestion.OnAck,
      AckInWindow, SeqLE, SeqLT;
    if AckAcceptable(s, h) && s.una != h.ackNo {
      var acked := Sub32(h.ackNo, s.una);
      PopTimed(s.(una := h.ackNo), h.ackNo, now);
    }
  }

  lemma EstablishTimed(s: SendVars, mss: u16, h: Header, now: nat)
    requires TimerOk(s)
    ensures TimerOk(EstablishSend(s, mss, h, now))
  {
    hide PopAcked, Rearm, TcpCongestion.Init;
    PopTimed(s.(una := h.ackNo, wnd := h.window, wl1 := h.seqNo, wl2 := h.ackNo, cc := TcpCongestion.Init(mss)),
             h.ackNo, now);
  }

  lemma HandlerTimed(c: Conn, h: Header, payload: Payload, now: nat)
    requires c.active && c.state != SynSent && c.state != SynReceived && TimerOk(c.snd)
    ensures TimerOk(Dispatch(c, h, payload, now).snd)
  {
    hide Dispatch, AckSend, TakesAck, TcpCongestion.OnDupAck;
    HandlerSend(c, h, payload, now);
    AckTimed(c.snd, c.mssEff, h, now);
  }

  lemma DispatchTimed(c: Conn, h: Header, payload: Payload, now: nat)
    requires c.active && TimerOk(c.snd)
    ensures TimerOk(Dispatch(c, h, payload, now).snd)
  {
    if c.state != SynSent && c.state != SynReceived {
      HandlerTimed(c, h, payload, now);
    } else {
      hide HandleEstablished, EstablishSend, AnnounceWindow, SynAckAcceptable, ResetInWindow, TimerOk;
      var c1 := if c.state == SynSent then Synchronize(c, h) else c;
      EstablishTimed(c1.snd, c1.mssEff, h, now);
      var c2 := Establish(c1, h, now);
      if !h.rst {
        HandlerTimed(c2, h, payload, now);
        HandlerTimed(Announce(c2), h, payload, now);
      }
    }
  }

  lemma FireTimed(c: Conn, now: nat)
    requires c.active && TimerOk(c.snd)
    ensures TimerOk(RtoFire(c, now).snd)
  {
    hide AnnounceWindow, TcpCongestion.OnRto, TcpRtt.BackOff;
    if TcpRtt.RTO_MIN <= c.snd.est.rto <= TcpRtt.RTO_MAX {
      BackOffRange(c.snd.est.rto);
    }
  }

  lemma StepTimed(c: Conn, e: Event, now: nat)
    requires c.active && TimerOk(c.snd)
    ensures TimerOk(Step(c, e, now).snd)
  {
    hide Dispatch, RtoFire, Transmit, AnnounceWindow, CanSend;
    match e
    case Arrive(h, payload, _) => DispatchTimed(c, h, payload, now);
    case CloseCall(_) => TransmitTimed(c.snd, 1, TcpRetx.FinSegment, now);
    case DataSend(n, _) => TransmitTimed(c.snd, n, TcpRetx.DataSegment, now);
    case TimerScan => FireTimed(c, now);
    case _ =>
  }

  lemma OpenedTimed(c: Conn, isn: u32)
    requires Opened(c, isn)
    ensures TimerOk(c.snd)
  {
    hide AnnounceWindow;
  }

  /** In every reachable state of a connection in use. */
  lemma {:induction false} RunTimed(c0: Conn, isn: u32, es: seq<(Event, nat)>)
    requires Opened(c0, isn)
    ensures Run(c0, es).active ==> TimerOk(Run(c0, es).snd)
    decreases |es|
  {
    hide Opened, TimerOk, Step;
    OpenedTimed(c0, isn);
    if es != [] {
      var n := |es| - 1;
      RunTimed(c0, isn, es[..n]);
      StaysInactive(Run(c0, es[..n]), es[n].0, es[n].1);
      if Run(c0, es[..n]).active {
        StepTimed(Run(c0, es[..n]), es[n].0, es[n].1);
      }
    }
  }

  lemma StaysInactive(c: Conn, e: Event, now: nat)
    ensures !c.active ==> Step(c, e, now) == c
  {
  }

  /** From every reachable state with something unacknowledged, outside TIME_WAIT, a peer that
      falls silent costs the retransmissions left of eight, backed off each time, and then the
      slot; the timer needs nothing assumed. */
  lemma SilentFromReachable(c0: Conn, isn: u32, es: seq<(Event, nat)>, quiet: seq<(Event, nat)>)
    requires Opened(c0, isn) && Quiet(quiet)
    requires var c := Run(c0, es); c.active && c.state != TimeWait && c.snd.retx != []
    ensures var c := Run(c0, es);
            var d, k := Run(c, quiet), Expiries(c, quiet);
            var count := c.snd.xmitCountHead + k;
            && count <= 9
            && (count <= 8 ==> Armed(d) && d.snd.xmitCountHead == count
                               && d.snd.est.rto == TcpRtt.BackOffs(c.snd.est.rto, k))
            && (count == 9 ==> !d.active && d.state == Closed && d.snd.retx == [])
  {
    hide Run, Expiries, Opened;
    RunTimed(c0, isn, es);
    SilentPeer(Run(c0, es), quiet);
  }

  // ---- the congestion window inside a connection ----

  function AckEvents(s: SendVars, h: Header): seq<TcpCongestion.Event> {
    if !AckAcceptable(s, h) || h.ackNo == s.una then []
    else [TcpCongestion.Acked(Sub32(h.ackNo, s.una)), TcpCongestion.NewAckSeen]
  }

  /** The congestion events an arriving segment amounts to. */
  function ArrivalEvents(c: Conn, h: Header, payload: Payload): seq<TcpCongestion.Event> {
    if h.rst then []
    else match c.state
      case Established =>
        if h.seqNo != c.rcv.nxt then []
        else if IsDuplicateAck(c.snd, h, payload) then [TcpCongestion.DupAck(Flight(c.snd))]
        else AckEvents(c.snd, h)
      case FinWait1 => AckEvents(c.snd, h)
      case FinWait2 => AckEvents(c.snd, h)
      case Closing => AckEvents(c.snd, h)
      case _ => []
  }

  function CongestionEvents(c: Conn, e: Event, now: nat): seq<TcpCongestion.Event> {
    match e
    case Arrive(h, payload, _) => ArrivalEvents(c, h, payload)
    case TimerScan =>
      if !RtoExpired(c.snd, now) || c.snd.xmitCountHead >= MAX_RETRANSMITS || c.snd.retx == [] || c.snd.fastRetx then []
      else [TcpCongestion.Timeout(Flight(c.snd))]
    case _ => []
  }

  lemma RunShort(k: TcpCongestion.Congestion, mss: u16, a: TcpCongestion.Event, b: TcpCongestion.Event)
    ensures TcpCongestion.Run(k, mss, []) == k
    ensures TcpCongestion.Run(k, mss, [a]) == TcpCongestion.Step(k, mss, a)
    ensures TcpCongestion.Run(k, mss, [a, b]) == TcpCongestion.Step(TcpCongestion.Step(k, mss, a), mss, b)
  {
    assert [a, b][..1] == [a] && [a][..0] == [];
    assert TcpCongestion.Run(k, mss, [a]) == TcpCongestion.Step(k, mss, a);
  }

  lemma AckRunsCongestion(c: Conn, h: Header, now: nat)
    requires c.mssEff != 0
    ensures AckSend(c.snd, c.mssEff, h, now).cc == TcpCongestion.Run(c.snd.cc, c.mssEff, AckEvents(c.snd, h))
    ensures MssAfterAck(c, h) == c.mssEff
  {
    hide TcpCongestion.OnAck, TcpRtt.Sample, TcpRetx.CoveredPrefix, AckInWindow, SeqLE, SeqLT, TcpCongestion.Run;
    RunShort(c.snd.cc, c.mssEff, TcpCongestion.Acked(Sub32(h.ackNo, c.snd.una)), TcpCongestion.NewAckSeen);
  }

  lemma ArrivalRunsCongestion(c: Conn, h: Header, payload: Payload, now: nat)
    requires c.state != SynSent && c.state != SynReceived && c.mssEff != 0
    ensures var c' := Dispatch(c, h, payload, now);
            && c'.snd.cc == TcpCongestion.Run(c.snd.cc, c.mssEff, ArrivalEvents(c, h, payload))
            && c'.mssEff == c.mssEff
  {
    hide AckSend, MssAfterAck, AckEvents, IsDuplicateAck, TcpCongestion.OnDupAck, AnnounceWindow, Receive,
      ResetInWindow, AcksEverything, FinDue, TcpCongestion.Run;
    AckRunsCongestion(c, h, now);
    RunShort(c.snd.cc, c.mssEff, TcpCongestion.DupAck(Flight(c.snd)), TcpCongestion.NewAckSeen);
  }

  predicate Handshaking(c: Conn) {
    c.state == SynSent || c.state == SynReceived
  }

  /** Past the handshake, each event of the connection runs the congestion machine by exactly
      these events. */
  lemma StepRunsCongestion(c: Conn, e: Event, now: nat)
    requires c.active && !Handshaking(c) && c.mssEff != 0
    ensures Step(c, e, now).snd.cc == TcpCongestion.Run(c.snd.cc, c.mssEff, CongestionEvents(c, e, now))
    ensures Step(c, e, now).mssEff == c.mssEff
    ensures Step(c, e, now).active ==> !Handshaking(Step(c, e, now))
  {
    hide Dispatch, ArrivalEvents, TcpCongestion.OnRto, AnnounceWindow, TcpCongestion.Run;
    RunShort(c.snd.cc, c.mssEff, TcpCongestion.Timeout(Flight(c.snd)), TcpCongestion.NewAckSeen);
    if e.Arrive? {
      ArrivalRunsCongestion(c, e.h, e.payload, now);
      HandlerSend(c, e.h, e.payload, now);
    }
  }

  /** The segment that completes the handshake is no congestion event, even when it carries data
      or a FIN for the ESTABLISHED handler. */
  lemma NestedQuiet(c: Conn, h: Header, payload: Payload, now: nat)
    requires c.state == Established && c.snd.una == h.ackNo && (payload != [] || h.fin)
    ensures var c' := HandleEstablished(c, h, payload, now);
            c'.snd.cc == c.snd.cc && c'.mssEff == c.mssEff
  {
    hide AnnounceWindow, Receive, AckInWindow, SeqLT, SeqLE;
  }

  /** Completing the handshake starts the congestion machine afresh. */
  lemma EstablishesFresh(c: Conn, e: Event, now: nat)
    requires c.active && Handshaking(c)
    ensures var c' := Step(c, e, now);
            c'.active && !Handshaking(c') ==> c'.mssEff != 0 && c'.snd.cc == TcpCongestion.Init(c'.mssEff)
  {
    hide HandleEstablished, EstablishSend, AnnounceWindow, SynAckAcceptable, ResetInWindow, TcpCongestion.InitialWindow,
      TcpCongestion.OnRto;
    if e.Arrive? {
      var c1 := if c.state == SynSent then Synchronize(c, e.h) else c;
      EstablishPointers(c1.snd, c1.mssEff, e.h, now);
      var c2 := Establish(c1, e.h, now);
      if e.payload != [] || e.h.fin {
        NestedQuiet(c2, e.h, e.payload, now);
        NestedQuiet(Announce(c2), e.h, e.payload, now);
      }
    }
  }

  /** The congestion events of a run since its handshake ended. */
  function History(c0: Conn, es: seq<(Event, nat)>): seq<TcpCongestion.Event>
    decreases |es|
  {
    if es == [] then [] else
    var n := |es| - 1;
    var p := Run(c0, es[..n]);
    if p.active && Handshaking(p) then []
    else if !p.active then History(c0, es[..n])
    else History(c0, es[..n]) + CongestionEvents(p, es[n].0, es[n].1)
  }

  lemma {:induction false} RunAppend(k: TcpCongestion.Congestion, mss: u16, xs: seq<TcpCongestion.Event>,
      ys: seq<TcpCongestion.Event>)
    ensures TcpCongestion.Run(k, mss, xs + ys) == TcpCongestion.Run(TcpCongestion.Run(k, mss, xs), mss, ys)
    decreases |ys|
  {
    hide TcpCongestion.Step;
    if ys == [] {
      assert xs + ys == xs;
    } else {
      RunAppend(k, mss, xs, ys[..|ys| - 1]);
      assert (xs + ys)[..|xs + ys| - 1] == xs + ys[..|ys| - 1];
    }
  }

  ghost predicate CongestionTracks(c: Conn, es: seq<TcpCongestion.Event>) {
    c.active && !Handshaking(c) ==>
      c.mssEff != 0 && c.snd.cc == TcpCongestion.Run(TcpCongestion.Init(c.mssEff), c.mssEff, es)
  }

  /** Over every run of a connection: past the handshake its congestion window is that of the
      congestion machine run on the history, and so it is never below one segment, the
      accumulator below one segment and the threshold at least two, whenever (and at every
      earlier moment, exactly when) the first slow start stays below 2^32. */
  lemma {:induction false} CongestionOverRuns(c0: Conn, es: seq<(Event, nat)>)
    requires c0.active ==> Handshaking(c0)
    ensures CongestionTracks(Run(c0, es), History(c0, es))
    ensures var d := Run(c0, es);
            d.active && !Handshaking(d) ==>
              && (TcpCongestion.AlwaysBounded(TcpCongestion.Init(d.mssEff), d.mssEff, History(c0, es))
                  <==> TcpCongestion.Grown(d.mssEff, History(c0, es)) < MOD32)
              && (TcpCongestion.Grown(d.mssEff, History(c0, es)) < MOD32 ==> TcpCongestion.Bounded(d.snd.cc, d.mssEff))
    decreases |es|
  {
    hide Step, Handshaking, TcpCongestion.Run, TcpCongestion.Bounded, TcpCongestion.Grown, CongestionEvents,
      TcpCongestion.AlwaysBounded, TcpCongestion.Init, TcpCongestion.Tracked;
    if es != [] {
      var n := |es| - 1;
      CongestionOverRuns(c0, es[..n]);
      CongestionStep(c0, es);
    }
    var d := Run(c0, es);
    if d.active && !Handshaking(d) {
      TcpCongestion.RunBoundedIff(d.mssEff, History(c0, es));
      if TcpCongestion.Grown(d.mssEff, History(c0, es)) < MOD32 {
        TcpCongestion.TrackedBounded(d.snd.cc, d.mssEff, History(c0, es));
      }
    }
  }

  lemma CongestionStep(c0: Conn, es: seq<(Event, nat)>)
    requires es != [] && CongestionTracks(Run(c0, es[..|es| - 1]), History(c0, es[..|es| - 1]))
    ensures CongestionTracks(Run(c0, es), History(c0, es))
  {
    hide Handshaking, CongestionEvents, TcpCongestion.Run, TcpCongestion.Init;
    var n := |es| - 1;
    var p := Run(c0, es[..n]);
    if p.active {
      if Handshaking(p) {
        hide Step;
        EstablishesFresh(p, es[n].0, es[n].1);
        EmptyRun(Step(p, es[n].0, es[n].1));
      } else {
        hide Step;
        StepRunsCongestion(p, es[n].0, es[n].1);
        RunAppend(TcpCongestion.Init(p.mssEff), p.mssEff, History(c0, es[..n]), CongestionEvents(p, es[n].0, es[n].1));
      }
    }
  }

  lemma EmptyRun(c: Conn)
    ensures TcpCongestion.Run(TcpCongestion.Init(c.mssEff), c.mssEff, []) == TcpCongestion.Init(c.mssEff)
  {
  }
}
