/** The connection state as a summary of what the two directions have been through, over whole
    runs, and exactly what ends a connection (figure 6 of RFC 793; src/tcp.go:676-1038,
    src/tcp_retx.go:161-222). */
module TcpLifecycle {
  import opened SeqSpace
  import opened TcpConnection
  import TcpCongestion

  /** Since the handshake: whether we closed, whether the peer's FIN had come before that, whether
      it has come at all, and whether our close has been acknowledged. */
  datatype Life = Life(closed: bool, finFirst: bool, finSeen: bool, acked: bool)

  function StateOf(l: Life): TcpState {
    if !l.closed then (if l.finSeen then CloseWait else Established)
    else if l.finFirst then LastAck
    else if l.finSeen then (if l.acked then TimeWait else Closing)
    else if l.acked then FinWait2 else FinWait1
  }

  predicate LifeOk(l: Life) {
    && (l.finFirst ==> l.closed && l.finSeen)
    && (l.acked ==> l.closed && !l.finFirst)
  }

  /** The segment brings the peer's FIN: it starts at rcvNxt (and, once we closed, fits whole), or,
      once we closed, the bytes in front of the FIN end at rcvNxt. */
  predicate BringsFin(l: Life, r: RecvVars, h: Header, payload: Payload) {
    h.fin && !l.finSeen
    && (if h.seqNo == r.nxt then !l.closed || |r.rx| + |payload| <= 8192
        else l.closed && Add32(h.seqNo, |payload|) == r.nxt)
  }

  /** The segment acknowledges everything sent, our FIN included. */
  predicate AcksClose(s: SendVars, h: Header) {
    h.ack && h.ackNo == s.nxt && Flight(s) <= HALF32
  }

  /** What an event adds, read off the event and the sequence numbers; the state is not looked at. */
  function Told(l: Life, c: Conn, e: Event): Life {
    match e
    case CloseCall(_) => if l.closed then l else l.(closed := true, finFirst := l.finSeen)
    case EchoPass(sent) =>
      if sent && l.finSeen && !l.closed && c.rcv.rx == [] then l.(closed := true, finFirst := true) else l
    case Arrive(h, payload, _) =>
      if h.rst then l
      else l.(finSeen := l.finSeen || BringsFin(l, c.rcv, h, payload),
              acked := l.acked || (l.closed && !l.finFirst && AcksClose(c.snd, h)))
    case _ => l
  }

  lemma CloseTest(s: SendVars, h: Header)
    ensures AcksEverything(s, h) <==> AcksClose(s, h)
  {
    AckTestIsArc(s.una, h.ackNo, s.nxt);
    AckTestMeaning(s.una, h.ackNo, s.nxt);
  }

  lemma DueTest(r: RecvVars, h: Header, payload: Payload)
    requires |r.rx| <= RX_SIZE
    ensures FinDue(FinWaitReceive(r, h, payload), h, payload) <==>
            h.fin && (if h.seqNo == r.nxt then |r.rx| + |payload| <= 8192 else Add32(h.seqNo, |payload|) == r.nxt)
    ensures |FinWaitReceive(r, h, payload).rx| <= RX_SIZE && |Receive(r, payload).rx| <= RX_SIZE
  {
  }

  lemma ArrivalLife(c: Conn, l: Life, h: Header, payload: Payload, at: int, now: nat)
    requires c.active && LifeOk(l) && c.state == StateOf(l) && |c.rcv.rx| <= RX_SIZE
    ensures var c' := Dispatch(c, h, payload, now);
            c'.active ==>
              c'.state == StateOf(Told(l, c, Arrive(h, payload, at))) && LifeOk(Told(l, c, Arrive(h, payload, at)))
              && |c'.rcv.rx| <= RX_SIZE
  {
    hide EstablishedAck, AckSend, MssAfterAck, AcksEverything, AcksClose, Withheld, AdvertisedWindow, FinDue,
      ResetInWindow, Receive, FinWaitReceive;
    CloseTest(c.snd, h);
    DueTest(c.rcv, h, payload);
    AckKeepsRest(c, h, payload, now);
  }

  lemma AckKeepsRest(c: Conn, h: Header, payload: Payload, now: nat)
    ensures var c1 := EstablishedAck(c, h, payload, now);
            c1.rcv == c.rcv && c1.active == c.active && c1.state == c.state
  {
  }

  lemma StepLife(c: Conn, l: Life, e: Event, now: nat)
    requires c.active && LifeOk(l) && c.state == StateOf(l) && |c.rcv.rx| <= RX_SIZE
    ensures var c' := Step(c, e, now);
            c'.active ==> c'.state == StateOf(Told(l, c, e)) && LifeOk(Told(l, c, e)) && |c'.rcv.rx| <= RX_SIZE
  {
    hide Dispatch, Withheld, AdvertisedWindow, Retransmit, Transmit, CanSend, BringsFin, AcksClose;
    if e.Arrive? {
      ArrivalLife(c, l, e.h, e.payload, e.at, now);
    }
  }

  function LifeOver(c: Conn, es: seq<(Event, nat)>): Life
    decreases |es|
  {
    if es == [] then Life(false, false, false, false)
    else Told(LifeOver(c, es[..|es| - 1]), Run(c, es[..|es| - 1]), es[|es| - 1].0)
  }

  /** From an established connection on, in every run, the state is exactly what the closes, FINs
      and acknowledgements so far say: ESTABLISHED, CLOSE-WAIT, the two FIN-WAITs, CLOSING,
      LAST-ACK and TIME-WAIT each stand for one history of the two directions. */
  lemma {:induction false} StateIsHistory(c: Conn, es: seq<(Event, nat)>)
    requires c.active && c.state == Established && |c.rcv.rx| <= RX_SIZE
    ensures var c' := Run(c, es);
            c'.active ==> c'.state == StateOf(LifeOver(c, es)) && LifeOk(LifeOver(c, es)) && |c'.rcv.rx| <= RX_SIZE
    decreases |es|
  {
    hide Step, Told, StateOf;
    if es == [] {
      FirstState();
    } else {
      var n := |es| - 1;
      StateIsHistory(c, es[..n]);
      var p := Run(c, es[..n]);
      if p.active {
        StepLife(p, LifeOver(c, es[..n]), es[n].0, es[n].1);
      } else {
        Gone(p, es[n].0, es[n].1);
      }
    }
  }

  lemma FirstState()
    ensures StateOf(Life(false, false, false, false)) == Established
  {
  }

  lemma Gone(c: Conn, e: Event, now: nat)
    requires !c.active
    ensures Step(c, e, now) == c
  {
  }

  /** What ends a connection past the handshake, exactly: a reset inside the window, the
      acknowledgement of our FIN in LAST-ACK, the ninth expiry, or the end of TIME-WAIT. */
  lemma FreedExactly(c: Conn, e: Event, now: nat)
    requires c.active && c.state != SynSent && c.rcv.wnd < HALF32
    ensures !Step(c, e, now).active <==>
            || (e.Arrive? && e.h.rst && Sub32(e.h.seqNo, c.rcv.nxt) <= c.rcv.wnd)
            || (e.Arrive? && !e.h.rst && c.state == LastAck && e.h.ack && e.h.ackNo == c.snd.nxt)
            || (e.TimerScan? && c.snd.rtoDeadline != 0 && now >= c.snd.rtoDeadline && c.snd.xmitCountHead >= 8)
            || (e.TimerScan? && c.state == TimeWait && c.timeWaitDeadline != 0 && now >= c.timeWaitDeadline)
    ensures e.Arrive? && e.h.rst && Sub32(e.h.seqNo, c.rcv.nxt) > c.rcv.wnd ==> Step(c, e, now) == c
  {
    hide EstablishedAck, AckSend, MssAfterAck, AcksEverything, Withheld, AdvertisedWindow, FinDue, Receive,
      ResetInWindow, PopAcked, Retransmit, Transmit, TcpCongestion.Init, CanSend;
    if e.Arrive? {
      ResetTestIsWindow(c.rcv.nxt, c.rcv.wnd, e.h.seqNo);
      AckKeepsRest(c, e.h, e.payload, now);
      if c.state == SynReceived {
        AckKeepsRest(Establish(c, e.h, now), e.h, e.payload, now);
      }
    }
  }

  /** TIME-WAIT lasts 6000 ticks from its beginning or from the last repeated FIN. */
  lemma TimeWaitLasts(c: Conn, e: Event, now: nat)
    requires c.active && c.state != SynSent && Step(c, e, now).active && Step(c, e, now).state == TimeWait
    ensures Step(c, e, now).timeWaitDeadline ==
            if c.state != TimeWait || (e.Arrive? && !e.h.rst && e.h.fin) then now + 6000 else c.timeWaitDeadline
  {
    hide EstablishedAck, AckSend, MssAfterAck, AcksEverything, Withheld, AdvertisedWindow, FinDue, Receive,
      ResetInWindow, PopAcked, Retransmit, Transmit, TcpCongestion.Init, CanSend;
    if e.Arrive? {
      AckKeepsRest(c, e.h, e.payload, now);
      if c.state == SynReceived {
        AckKeepsRest(Establish(c, e.h, now), e.h, e.payload, now);
      }
    }
  }
}
