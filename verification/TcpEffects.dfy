/** What the events of a connection bring about, beyond what they keep: bytes are taken and handed
    out, handshakes complete, acknowledgements and windows count, losses are answered, and the
    state is what the two directions have been through (src/tcp.go:670-1119, src/tcp_flow.go:97-189,
    src/tcp_retx.go:161-292, src/netsock.go:742-916). The conditions are written out on sequence
    numbers, flags and times; no handler is named. */
module TcpEffects {
  import opened SeqSpace
  import opened TcpConnection
  import TcpReceive
  import TcpAck
  import TcpRetx
  import TcpCongestion
  import TcpRtt

  function Min(a: int, b: int): int {
    if a < b then a else b
  }

  function Max(a: int, b: int): int {
    if a < b then b else a
  }

  // ---- arriving bytes ----

  predicate Receiving(s: TcpState) {
    s == Established || s == FinWait1 || s == FinWait2
  }

  /** What is free but not offered to the peer: less than one segment, and less than half the
      buffer. */
  predicate Offered(c: Conn) {
    c.rcv.wnd - c.rcv.lastAdvWin < if 0 < c.mssEff < 4096 then c.mssEff else 4096
  }

  lemma AnnounceOffers(c: Conn)
    requires c.rcv.wnd <= 0xFFFF
    ensures Offered(Announce(c))
  {
  }

  /** A segment is taken exactly when it starts at rcvNxt: then all its bytes are buffered behind
      the others and its FIN counted. Otherwise no byte is buffered; a FIN alone is still taken
      after our close when the bytes in front of it are the last ones received. */
  lemma StepTakes(c: Conn, peer: TcpReceive.Peer, got: seq<u8>, h: Header, payload: Payload, at: int, now: nat)
    requires c.active && Receiving(c.state) && !h.rst
    requires TcpReceive.Inv(c, peer, got) && TcpReceive.FromPeer(c.rcv, false, peer, got, h, payload, at)
    ensures var c' := Step(c, Arrive(h, payload, at), now);
            var before := TcpReceive.Progress(c.rcv, false, got);
            && c'.active && Synchronized(c'.state)
            && TcpReceive.Progress(c'.rcv, TcpReceive.FinTaken(c'.state), got)
               == before + |c'.rcv.rx| - |c.rcv.rx| + (if TcpReceive.FinTaken(c'.state) then 1 else 0)
            && (h.seqNo == c.rcv.nxt ==>
                  c'.rcv.rx == c.rcv.rx + payload && (TcpReceive.FinTaken(c'.state) <==> h.fin))
            && (h.seqNo != c.rcv.nxt ==>
                  && c'.rcv.rx == c.rcv.rx
                  && (TcpReceive.FinTaken(c'.state) <==> c.state != Established && h.fin && at + |payload| == before))
            && Offered(c')
  {
    hide EstablishedAck, AckSend, MssAfterAck, AcksEverything, Withheld, AdvertisedWindow, Wrap, Offered;
    EstablishedAckOnly(c, h, payload, now);
    var r := c.rcv;
    assert r.wnd <= RX_SIZE;
    if h.seqNo == r.nxt {
      TcpReceive.FitsWhole(r, peer, got, h, payload, at);
      assert payload[..|payload|] == payload;
    } else if h.fin && c.state != Established {
      var before := TcpReceive.Progress(r, false, got);
      WrapAdd(peer.isn + 1 + at, |payload|);
      TcpReceive.PositionIsCurrent(r, false, peer, got, at + |payload|);
    }
    SameOffer(c, h, payload, now);
  }

  lemma EstablishedAckOnly(c: Conn, h: Header, payload: Payload, now: nat)
    ensures var c1 := EstablishedAck(c, h, payload, now);
            c1.rcv == c.rcv && c1.active == c.active && c1.state == c.state
  {
  }

  lemma SameOffer(c: Conn, h: Header, payload: Payload, now: nat)
    requires c.active && Receiving(c.state) && !h.rst && c.rcv.wnd <= RX_SIZE
    ensures Offered(Dispatch(c, h, payload, now))
  {
    hide EstablishedAck, AckSend, MssAfterAck, AcksEverything, Withheld, AdvertisedWindow, Offered, FinDue, Receive;
    var d := Dispatch(c, h, payload, now);
    EstablishedAckOnly(c, h, payload, now);
    ReceiveShrinks(c.rcv, payload);
    if c.state == Established {
      var c1 := EstablishedAck(c, h, payload, now);
      var r := Receive(c1.rcv, payload);
      AnnounceOffers(c);
      AnnounceOffers(if h.fin then c1.(rcv := TakeFin(r), state := CloseWait) else c1.(rcv := r));
    } else if c.state == FinWait1 {
      var r := FinWaitReceive(c.rcv, h, payload);
      var finAcked, peerFin := AcksEverything(c.snd, h), FinDue(r, h, payload);
      var c1 := AckUpdate(c, h, now).(rcv := if peerFin then TakeFin(r) else r);
      AnnounceOffers(if finAcked && peerFin then EnterTimeWait(c1, now)
                     else if finAcked then c1.(state := FinWait2)
                     else if peerFin then c1.(state := Closing)
                     else c1);
    } else {
      var r := FinWaitReceive(c.rcv, h, payload);
      var c1 := AckUpdate(c, h, now);
      AnnounceOffers(if FinDue(r, h, payload) then EnterTimeWait(c1.(rcv := TakeFin(r)), now) else c1.(rcv := r));
    }
  }

  lemma ReceiveShrinks(r: RecvVars, payload: Payload)
    ensures Receive(r, payload).wnd <= r.wnd
  {
  }

  /** The same in every reachable state, whatever segments of the peer's stream came before. */
  lemma ArrivalTakes(c0: Conn, peer: TcpReceive.Peer, es: seq<(Event, nat)>, h: Header, payload: Payload, at: int,
      now: nat)
    requires Opened(c0, peer.isn) && TcpReceive.PlausibleRun(c0, peer, es + [(Arrive(h, payload, at), now)])
    requires Run(c0, es).active && Receiving(Run(c0, es).state) && !h.rst
    ensures var c, got := Run(c0, es), TcpReceive.GotOver(c0, es);
            var c' := Run(c0, es + [(Arrive(h, payload, at), now)]);
            var before := TcpReceive.Progress(c.rcv, false, got);
            && c'.active
            && (h.seqNo == c.rcv.nxt ==>
                  && c'.rcv.rx == c.rcv.rx + payload
                  && c'.rcv.nxt == Wrap(peer.isn + 1 + before + |payload| + (if h.fin then 1 else 0))
                  && (TcpReceive.FinTaken(c'.state) <==> h.fin))
            && (h.seqNo != c.rcv.nxt ==>
                  && c'.rcv.rx == c.rcv.rx
                  && (TcpReceive.FinTaken(c'.state) <==> c.state != Established && h.fin && at + |payload| == before))
            && Offered(c')
  {
    hide Step, Opened, TcpReceive.FromPeer, Wrap, Offered;
    var all := es + [(Arrive(h, payload, at), now)];
    assert all[..|all| - 1] == es;
    TcpReceive.ReceiveSafety(c0, peer, es);
    TcpReceive.ReceiveSafety(c0, peer, all);
    StepTakes(Run(c0, es), peer, TcpReceive.GotOver(c0, es), h, payload, at, now);
    var c', got := Run(c0, all), TcpReceive.GotOver(c0, es);
    assert TcpReceive.GotOver(c0, all) == got;
    assert c'.rcv.nxt == Wrap(peer.isn + 1 + TcpReceive.Progress(c'.rcv, TcpReceive.FinTaken(c'.state), got)) by {
      Claimed(c', peer, got);
    }
  }

  lemma Claimed(c: Conn, peer: TcpReceive.Peer, got: seq<u8>)
    requires c.active && Synchronized(c.state) && TcpReceive.Inv(c, peer, got)
    ensures c.rcv.nxt == Wrap(peer.isn + 1 + TcpReceive.Progress(c.rcv, TcpReceive.FinTaken(c.state), got))
  {
  }

  predicate Synchronized(s: TcpState) {
    s != Closed && s != SynSent
  }

  /** A read hands out the oldest bytes, as many as were asked for, are there and fit the 1500-byte
      scratch buffer, and touches nothing but the ring and the window. */
  lemma ReadDelivers(c: Conn, got: seq<u8>, bufMax: nat, now: nat)
    requires c.active
    ensures var c' := Step(c, Read(bufMax), now);
            var n := Min(|c.rcv.rx|, Min(bufMax, 1500));
            && c'.rcv.rx == c.rcv.rx[n..]
            && TcpReceive.GotAfter(c, got, Read(bufMax)) == got + c.rcv.rx[..n]
            && c' == c.(rcv := c.rcv.(rx := c'.rcv.rx, wnd := c'.rcv.wnd))
            && c'.rcv.wnd == Min(c.rcv.wnd + n, 8192)
  {
  }

  /** The bytes the arrivals of a run carry, in order. */
  function Carried(es: seq<(Event, nat)>): seq<u8> {
    if es == [] then []
    else Carried(es[..|es| - 1]) + if es[|es| - 1].0.Arrive? then es[|es| - 1].0.payload else []
  }

  /** Event k of the continuation is a read, or a segment without RST and FIN that starts where
      the connection stands. */
  ghost predicate InOrder(c0: Conn, es: seq<(Event, nat)>, more: seq<(Event, nat)>, k: nat)
    requires k < |more|
  {
    var e := more[k].0;
    e.Read? || (e.Arrive? && !e.h.rst && !e.h.fin && e.h.seqNo == Run(c0, es + more[..k]).rcv.nxt)
  }

  /** Delivery: from every reachable state that receives, whatever is sent in order arrives: after
      any number of in-order segments and reads, what the application has read followed by what is
      buffered has grown by exactly the bytes sent. */
  lemma {:induction false} InOrderDelivers(c0: Conn, peer: TcpReceive.Peer, es: seq<(Event, nat)>,
      more: seq<(Event, nat)>)
    requires Opened(c0, peer.isn) && TcpReceive.PlausibleRun(c0, peer, es + more)
    requires Run(c0, es).active && Receiving(Run(c0, es).state)
    requires forall k :: 0 <= k < |more| ==> InOrder(c0, es, more, k)
    ensures var c, c' := Run(c0, es), Run(c0, es + more);
            && c'.active && Receiving(c'.state)
            && TcpReceive.GotOver(c0, es + more) + c'.rcv.rx == TcpReceive.GotOver(c0, es) + c.rcv.rx + Carried(more)
    decreases |more|
  {
    hide Opened, Receiving, Run, TcpReceive.GotOver, TcpReceive.PlausibleRun, InOrder;
    if more == [] {
      assert es + more == es;
    } else {
      var n := |more| - 1;
      var pre, e, now := more[..n], more[n].0, more[n].1;
      PrefixInOrder(c0, es, more);
      assert es + more == (es + pre) + [(e, now)];
      LastEvent(c0, peer, es + pre, e, now);
      InOrderDelivers(c0, peer, es, pre);
      assert InOrder(c0, es, more, n);
      LastIs(c0, es, more);
      OneMoreInOrder(c0, peer, es + pre, e, now);
      var got, rest := TcpReceive.GotOver(c0, es) + Run(c0, es).rcv.rx, Carried(more)[|Carried(pre)|..];
      assert got + Carried(more) == got + Carried(pre) + rest;
    }
  }

  lemma PrefixInOrder(c0: Conn, es: seq<(Event, nat)>, more: seq<(Event, nat)>)
    requires more != [] && forall k :: 0 <= k < |more| ==> InOrder(c0, es, more, k)
    ensures var pre := more[..|more| - 1]; forall k :: 0 <= k < |pre| ==> InOrder(c0, es, pre, k)
  {
    hide Run;
    var pre := more[..|more| - 1];
    forall k | 0 <= k < |pre|
      ensures InOrder(c0, es, pre, k)
    {
      assert pre[..k] == more[..k];
      assert InOrder(c0, es, more, k);
    }
  }

  lemma LastIs(c0: Conn, es: seq<(Event, nat)>, more: seq<(Event, nat)>)
    requires more != [] && InOrder(c0, es, more, |more| - 1)
    ensures var e, pre := more[|more| - 1].0, more[..|more| - 1];
            e.Read? || (e.Arrive? && !e.h.rst && !e.h.fin && e.h.seqNo == Run(c0, es + pre).rcv.nxt)
  {
    hide Run;
  }

  lemma LastEvent(c0: Conn, peer: TcpReceive.Peer, es: seq<(Event, nat)>, e: Event, now: nat)
    requires TcpReceive.PlausibleRun(c0, peer, es + [(e, now)])
    ensures TcpReceive.PlausibleRun(c0, peer, es)
    ensures Run(c0, es + [(e, now)]) == Step(Run(c0, es), e, now)
    ensures TcpReceive.GotOver(c0, es + [(e, now)])
            == TcpReceive.GotAfter(Run(c0, es), TcpReceive.GotOver(c0, es), e)
  {
    hide Step, TcpReceive.GotAfter, TcpReceive.Plausible;
    var all := es + [(e, now)];
    assert all[..|all| - 1] == es && all[|all| - 1] == (e, now);
  }

  lemma OneMoreInOrder(c0: Conn, peer: TcpReceive.Peer, es: seq<(Event, nat)>, e: Event, now: nat)
    requires Opened(c0, peer.isn) && TcpReceive.PlausibleRun(c0, peer, es + [(e, now)])
    requires Run(c0, es).active && Receiving(Run(c0, es).state)
    requires e.Read? || (e.Arrive? && !e.h.rst && !e.h.fin && e.h.seqNo == Run(c0, es).rcv.nxt)
    ensures var c, c' := Run(c0, es), Step(Run(c0, es), e, now);
            var got := TcpReceive.GotOver(c0, es);
            var got' := TcpReceive.GotAfter(Run(c0, es), got, e);
            && c'.active && Receiving(c'.state)
            && got' + c'.rcv.rx == got + c.rcv.rx + (if e.Arrive? then e.payload else [])
  {
    hide Opened, Step, Run, Receiving, TcpReceive.GotOver, TcpReceive.GotAfter, TcpReceive.PlausibleRun;
    var c, got := Run(c0, es), TcpReceive.GotOver(c0, es);
    if e.Read? {
      ReadConserves(c, got, e.bufMax, now);
      assert got + c.rcv.rx + [] == got + c.rcv.rx;
    } else {
      ArriveDelivers(c0, peer, es, e.h, e.payload, e.at, now);
      assert got + (c.rcv.rx + e.payload) == got + c.rcv.rx + e.payload;
    }
  }

  lemma ReadConserves(c: Conn, got: seq<u8>, bufMax: nat, now: nat)
    requires c.active && Receiving(c.state)
    ensures var c' := Step(c, Read(bufMax), now);
            && c'.active && Receiving(c'.state)
            && TcpReceive.GotAfter(c, got, Read(bufMax)) + c'.rcv.rx == got + c.rcv.rx
  {
    hide Step, TcpReceive.GotAfter;
    ReadDelivers(c, got, bufMax, now);
    ReadStays(c, bufMax, now);
    var n := Min(|c.rcv.rx|, Min(bufMax, 1500));
    assert got + c.rcv.rx[..n] + c.rcv.rx[n..] == got + c.rcv.rx;
  }

  lemma ArriveDelivers(c0: Conn, peer: TcpReceive.Peer, es: seq<(Event, nat)>, h: Header, payload: Payload, at: int,
      now: nat)
    requires Opened(c0, peer.isn) && TcpReceive.PlausibleRun(c0, peer, es + [(Arrive(h, payload, at), now)])
    requires Run(c0, es).active && Receiving(Run(c0, es).state)
    requires !h.rst && !h.fin && h.seqNo == Run(c0, es).rcv.nxt
    ensures var c, e := Run(c0, es), Arrive(h, payload, at);
            var c' := Step(c, e, now);
            && c'.active && Receiving(c'.state) && c'.rcv.rx == c.rcv.rx + payload
            && TcpReceive.GotAfter(c, TcpReceive.GotOver(c0, es), e) == TcpReceive.GotOver(c0, es)
  {
    hide Opened, Run, Step, TcpReceive.GotOver, TcpReceive.PlausibleRun, TcpReceive.FinTaken;
    var e := Arrive(h, payload, at);
    LastEvent(c0, peer, es, e, now);
    ArrivalTakes(c0, peer, es, h, payload, at, now);
    ArrivalState(Run(c0, es), h, payload, at, now);
  }

  lemma ArrivalState(c: Conn, h: Header, payload: Payload, at: int, now: nat)
    requires c.active && Receiving(c.state) && !h.rst && !h.fin
    ensures Receiving(Step(c, Arrive(h, payload, at), now).state)
  {
    hide Dispatch;
    StaysReceiving(c, h, payload, now);
  }

  lemma ReadStays(c: Conn, bufMax: nat, now: nat)
    requires c.active
    ensures Step(c, Read(bufMax), now).state == c.state && Step(c, Read(bufMax), now).active
  {
  }

  lemma StaysReceiving(c: Conn, h: Header, payload: Payload, now: nat)
    requires c.active && Receiving(c.state) && !h.rst && !h.fin
    ensures Receiving(Dispatch(c, h, payload, now).state)
  {
    hide AckSend, MssAfterAck, AcksEverything, Withheld, AdvertisedWindow, Receive, IsDuplicateAck, OnDuplicateAck;
  }

  // ---- the advertised window ----

  /** Silly-window avoidance: the value sent is the free space or the last offer; it grows only by
      at least one segment or half the buffer, less than that is ever held back, and it is never
      more than is free. */
  lemma SillyWindowAvoided(r: RecvVars, mss: u16)
    requires r.wnd <= 0xFFFF
    ensures var w := AdvertisedWindow(r, mss);
            var step := if 0 < mss < 4096 then mss else 4096;
            && (w == r.wnd || w == r.lastAdvWin) && w <= r.wnd
            && (w > r.lastAdvWin ==> w - r.lastAdvWin >= step)
            && r.wnd - w < step
            && AnnounceWindow(r, mss) == r.(lastAdvWin := w)
  {
  }

  // ---- the handshake ----

  /** Our SYN alone is in flight, as in every state before the handshake ends. */
  ghost predicate SynInFlight(c: Conn, nxt: int) {
    c.active && TcpAck.SendInv(c.snd, nxt - 1, nxt, HALF32)
  }

  /** SYN-RECEIVED: exactly the acknowledgement of our SYN completes the handshake; nothing stays
      unacknowledged, the peer's window is on record, and a FIN on the same segment is taken. */
  lemma AcceptsHandshake(c: Conn, nxt: int, h: Header, payload: Payload, at: int, now: nat)
    requires SynInFlight(c, nxt) && c.state == SynReceived && !h.rst
    ensures var c' := Step(c, Arrive(h, payload, at), now);
            if h.ack && h.ackNo == c.snd.nxt then
              && c'.active && c'.state == (if h.fin && h.seqNo == c.rcv.nxt then CloseWait else Established)
              && c'.snd.una == c'.snd.nxt == c.snd.nxt && c'.snd.retx == [] && c'.snd.rtoDeadline == 0
              && c'.snd.wnd == h.window
              && (h.seqNo == c.rcv.nxt && |c.rcv.rx| + |payload| <= 8192 ==> c'.rcv.rx == c.rcv.rx + payload)
            else c' == c
  {
    hide TcpRtt.Sample, TcpCongestion.Init, Withheld, AdvertisedWindow, TcpRetx.OldestSent, TcpRetx.AnyPristine, Wrap;
    if h.ack && h.ackNo == c.snd.nxt {
      NothingLeft(c.snd, nxt, h.ackNo);
      assert payload[..|payload|] == payload;
    }
  }

  /** The acknowledgement of the only thing in flight covers every descriptor. */
  lemma NothingLeft(s: SendVars, nxt: int, ackNo: u32)
    requires TcpAck.SendInv(s, nxt - 1, nxt, HALF32) && ackNo == s.nxt
    ensures TcpRetx.CoveredPrefix(s.retx, ackNo) == |s.retx|
  {
    var ends :| TcpRetx.Tracks(s.retx, ends, nxt - 1, nxt);
    TcpRetx.PopsExactlyCovered(s.retx, ends, nxt - 1, nxt, nxt);
    assert forall i :: 0 <= i < |s.retx| ==> ends[i] <= nxt;
  }

  /** SYN-SENT: a SYN that acknowledges ours establishes, fixes the peer's numbering one past its
      SYN and the segment size at the smaller of the two; a reset or a bare SYN frees the slot;
      anything else, and any other acknowledgement number, is ignored. The number half a turn
      away is taken for ours. */
  lemma CompletesHandshake(c: Conn, nxt: int, h: Header, payload: Payload, at: int, now: nat)
    requires SynInFlight(c, nxt) && c.state == SynSent && c.mssLocal == 536
    ensures var c' := Step(c, Arrive(h, payload, at), now);
            var ours := h.ackNo == c.snd.nxt || h.ackNo == Add32(c.snd.nxt, HALF32);
            if h.ack && !ours then c' == c
            else if h.rst || (h.syn && !h.ack) then !c'.active
            else if !h.syn then c' == c
            else
              && c'.active && c'.state == Established
              && c'.rcv.irs == h.seqNo && c'.rcv.nxt == Add32(h.seqNo, 1) && c'.rcv.rx == c.rcv.rx
              && c'.snd.una == h.ackNo && c'.snd.nxt == c.snd.nxt && c'.snd.wnd == h.window
              && (h.ackNo == c.snd.nxt ==> c'.snd.retx == [] && c'.snd.rtoDeadline == 0)
              && c'.mssEff == (if h.mss == 0 then 536 else Min(h.mss, 536))
  {
    hide TcpRtt.Sample, TcpCongestion.Init, Withheld, AdvertisedWindow, TcpRetx.OldestSent, TcpRetx.AnyPristine, Wrap,
      TcpRetx.CoveredPrefix, SeqLE;
    TcpAck.SynSentAck(c.snd, nxt - 1, nxt, HALF32, h.ackNo);
    if h.ackNo == c.snd.nxt {
      NothingLeft(c.snd, nxt, h.ackNo);
    }
  }

  /** How both kinds of connection open: our SYN takes one number, is queued and timed; a passive
      open numbers the peer from its SYN and takes the smaller segment size. */
  lemma OpensWith(h: Header, iss: u32, now: nat)
    ensures var c := PassiveOpen(FRESH, h, iss, now, true);
            && c.active && c.state == SynReceived && c.rcv.nxt == Add32(h.seqNo, 1) && c.rcv.wnd == 8192
            && c.snd.una == iss && c.snd.nxt == Add32(iss, 1) && c.snd.wnd == h.window
            && c.mssEff == Min(h.mss, 536)
            && |c.snd.retx| == 1 && c.snd.retx[0].control == TcpRetx.SynSegment
            && c.snd.retx[0].endSeq == Add32(iss, 1) && c.snd.rtoDeadline == now + 100
    ensures var c := ActiveOpen(FRESH, iss, now, true);
            && c.active && c.state == SynSent && c.rcv.wnd == 8192 && c.mssLocal == 536
            && c.snd.una == iss && c.snd.nxt == Add32(iss, 1)
            && |c.snd.retx| == 1 && c.snd.retx[0].control == TcpRetx.SynSegment
            && c.snd.retx[0].endSeq == Add32(iss, 1) && c.snd.rtoDeadline == now + 100
    ensures !PassiveOpen(FRESH, h, iss, now, false).active && !ActiveOpen(FRESH, iss, now, false).active
  {
    hide Withheld, AdvertisedWindow;
  }

  // ---- acknowledgements ----

  /** The segments whose acknowledgement counts: in order and no duplicate in ESTABLISHED, any
      after our close while something of ours may be outstanding. */
  predicate CountsAck(c: Conn, h: Header, payload: Payload) {
    && c.active && !h.rst
    && (|| c.state == FinWait1 || c.state == FinWait2 || c.state == Closing
        || (c.state == Established && h.seqNo == c.rcv.nxt && !Duplicate(c.snd, h, payload)))
  }

  /** An empty segment that repeats the last acknowledgement and window while data is out. */
  predicate Duplicate(s: SendVars, h: Header, payload: Payload) {
    h.ack && !h.syn && !h.fin && !h.rst && payload == [] && h.ackNo == s.una && h.window == s.wnd && s.una != s.nxt
  }

  /** Acknowledgements count: a number standing for a position a from una to nxt moves una exactly
      there and drops exactly the descriptors that end at a or before, and the timer runs exactly
      if one is left; a segment with any other number, or without ACK, changes neither. */
  lemma AckTaken(c: Conn, una: int, nxt: int, ends: seq<int>, h: Header, payload: Payload, at: int, a: int, now: nat)
    requires CountsAck(c, h, payload)
    requires TcpAck.Pointers(c.snd, una, nxt, HALF32) && TcpRetx.Tracks(c.snd.retx, ends, una, nxt)
    requires h.ackNo == Wrap(a) && una <= a < una + MOD32 && !(una == nxt && a == nxt + HALF32)
    ensures var s' := Step(c, Arrive(h, payload, at), now).snd;
            var p := |c.snd.retx| - |s'.retx|;
            && s'.nxt == c.snd.nxt
            && (h.ack && a <= nxt ==>
                  && s'.una == Wrap(a) && p >= 0 && s'.retx == c.snd.retx[p..]
                  && (forall i :: 0 <= i < |ends| ==> (i < p <==> ends[i] <= a))
                  && (a > una ==> (s'.rtoDeadline == 0 <==> s'.retx == [])))
            && (!(h.ack && a <= nxt) ==> s' == c.snd)
  {
    hide Dispatch, Wrap, AckSend, TcpAck.TakesAck, SeqLE;
    AckStep(c, h, payload, now);
    TcpAck.FlightIs(c.snd, una, nxt, HALF32);
    AckPosition(c.snd, una, nxt, h, a);
    if AckAcceptable(c.snd, h) && h.ackNo != c.snd.una {
      TcpAck.AckAdvances(c.snd, c.mssEff, una, nxt, HALF32, ends, h, now);
    } else {
      AckIdle(c.snd, c.mssEff, h, now);
    }
  }

  lemma AckStep(c: Conn, h: Header, payload: Payload, now: nat)
    requires CountsAck(c, h, payload)
    ensures Dispatch(c, h, payload, now).snd == AckSend(c.snd, c.mssEff, h, now)
  {
    hide AckSend;
    TcpAck.HandlerSend(c, h, payload, now);
  }

  /** The two signed tests accept exactly the positions of the flight. */
  lemma AckPosition(s: SendVars, una: int, nxt: int, h: Header, a: int)
    requires TcpAck.Pointers(s, una, nxt, HALF32) && h.ackNo == Wrap(a) && una <= a < una + MOD32
    requires !(una == nxt && a == nxt + HALF32)
    ensures AckAcceptable(s, h) <==> h.ack && a <= nxt
    ensures Sub32(h.ackNo, s.una) == a - una
    ensures AckAcceptable(s, h) ==> !TcpAck.Stray(s, h)
  {
    hide AckInWindow;
    WrapSub(a, una);
    WrapSmall(a - una);
    TcpAck.FlightIs(s, una, nxt, HALF32);
    AckTestIsArc(s.una, h.ackNo, s.nxt);
    if una == nxt {
      WrapAdd(nxt, HALF32);
      WrapInjective(a, nxt + HALF32);
    }
  }

  lemma AckIdle(s: SendVars, mss: u16, h: Header, now: nat)
    requires !AckAcceptable(s, h) || h.ackNo == s.una
    ensures var s' := AckSend(s, mss, h, now);
            && s'.una == s.una && s'.nxt == s.nxt && s'.retx == s.retx && s'.rtoDeadline == s.rtoDeadline
            && (!AckAcceptable(s, h) ==> s' == s)
  {
    hide AckInWindow, SeqLE, SeqLT;
  }

  /** The send window on record is always that of the newest segment: of two segments within half
      the sequence space, the one with the later sequence number wins, and of two with the same
      number the one with the later acknowledgement (section 3.9 of RFC 793). */
  lemma NewestWindow(c: Conn, h: Header, payload: Payload, at: int, now: nat, p: int, p': int, q: int, q': int)
    requires CountsAck(c, h, payload) && AckAcceptable(c.snd, h)
    requires c.snd.wl1 == Wrap(p) && h.seqNo == Wrap(p') && -HALF32 < p - p' < HALF32
    requires c.snd.wl2 == Wrap(q) && h.ackNo == Wrap(q') && -HALF32 < q - q' < HALF32
    ensures var s' := Step(c, Arrive(h, payload, at), now).snd;
            if p < p' || (p == p' && q <= q') then s'.wnd == h.window && s'.wl1 == h.seqNo && s'.wl2 == h.ackNo
            else s'.wnd == c.snd.wnd && s'.wl1 == c.snd.wl1 && s'.wl2 == c.snd.wl2
  {
    hide Dispatch, Wrap, AckAcceptable, SeqLE, SeqLT, TcpRtt.Sample, TcpRetx.CoveredPrefix, TcpCongestion.OnAck;
    AckStep(c, h, payload, now);
    SeqOrder(q, q');
    StrictOrder(p, p');
    WrapInjective(p, p');
  }

  lemma StrictOrder(x: int, y: int)
    requires -HALF32 < x - y < HALF32
    ensures SeqLT(Wrap(x), Wrap(y)) <==> x < y
  {
    SeqOrder(x, y);
    WrapInjective(x, y);
  }

  // ---- sending ----

  /** The send path never has more out than the smaller of the two windows, and sends whenever
      there is room: in ESTABLISHED a segment of n bytes goes out exactly if flight plus n fits. */
  lemma SendsWithinWindows(c: Conn, n: u32, now: nat)
    requires c.active && |c.snd.retx| < 64
    ensures var c' := Step(c, DataSend(n, true), now);
            if c.state == Established && 1 <= n && Flight(c.snd) + n <= Min(c.snd.cc.cwnd, c.snd.wnd) then
              && c'.snd.nxt == Add32(c.snd.nxt, n) && c'.snd.una == c.snd.una
              && |c'.snd.retx| == |c.snd.retx| + 1 && c'.snd.retx[..|c.snd.retx|] == c.snd.retx
              && c'.snd.retx[|c.snd.retx|].first == c.snd.nxt && c'.snd.retx[|c.snd.retx|].endSeq == c'.snd.nxt
              && c'.snd.retx[|c.snd.retx|].xmitCount == 0 && c'.snd.retx[|c.snd.retx|].sentTicks == now
              && c'.snd.rtoDeadline == now + c'.snd.est.rto
            else c' == c
    ensures Step(c, DataSend(n, false), now).snd == c.snd
  {
    hide Withheld, AdvertisedWindow, Flight;
  }

  /** Closing sends one FIN, behind everything sent so far, and only from the two states that may. */
  lemma CloseSendsFin(c: Conn, now: nat)
    requires c.active && |c.snd.retx| < 64
    ensures var c' := Step(c, CloseCall(true), now);
            if c.state == Established || c.state == CloseWait then
              && c'.state == (if c.state == Established then FinWait1 else LastAck)
              && c'.snd.nxt == Add32(c.snd.nxt, 1) && c'.snd.una == c.snd.una
              && |c'.snd.retx| == |c.snd.retx| + 1 && c'.snd.retx[..|c.snd.retx|] == c.snd.retx
              && c'.snd.retx[|c.snd.retx|].control == TcpRetx.FinSegment
              && c'.snd.retx[|c.snd.retx|].endSeq == c'.snd.nxt
            else c' == c
  {
    hide Withheld, AdvertisedWindow;
  }

  /** The echo service sends back exactly the bytes it takes out: at most a segment of them. */
  lemma EchoReturns(c: Conn, got: seq<u8>, now: nat)
    requires c.active && c.state == Established && c.rcv.rx != []
    ensures var c' := Step(c, EchoPass(true), now);
            var n := Min(|c.rcv.rx|, if 0 < c.mssEff <= 1540 then c.mssEff else 1540);
            && c'.snd.nxt == Add32(c.snd.nxt, n)
            && c'.rcv.rx == c.rcv.rx[n..]
            && TcpReceive.GotAfter(c, got, EchoPass(true)) == got + c.rcv.rx[..n]
            && c'.state == Established
  {
    hide Withheld, AdvertisedWindow;
  }

  // ---- growth and losses ----

  /** Slow start: an acknowledgement of new data opens the window by the bytes acknowledged, at
      most one segment; past the threshold each opens it by mss*mss/cwnd, carried over until it
      makes a segment. */
  lemma WindowGrows(c: Conn, una: int, nxt: int, h: Header, payload: Payload, at: int, a: int, now: nat)
    requires CountsAck(c, h, payload) && c.mssEff != 0 && h.ack
    requires TcpAck.Pointers(c.snd, una, nxt, HALF32) && h.ackNo == Wrap(a) && una < a <= nxt
    requires TcpCongestion.Bounded(c.snd.cc, c.mssEff)
    ensures var cc, cc' := c.snd.cc, Step(c, Arrive(h, payload, at), now).snd.cc;
            && cc'.ssthresh == cc.ssthresh && cc'.dupAcks == 0
            && (cc.cwnd < cc.ssthresh && cc.cwnd + c.mssEff < MOD32 ==>
                  cc'.cwnd == cc.cwnd + Min(a - una, c.mssEff) && cc'.accum == cc.accum)
            && (cc.cwnd >= cc.ssthresh ==>
                  && cc'.cwnd + cc'.accum == cc.cwnd + cc.accum + c.mssEff * c.mssEff / cc.cwnd
                  && (cc'.cwnd == cc.cwnd || cc'.cwnd == cc.cwnd + c.mssEff) && cc'.accum < c.mssEff)
  {
    hide Dispatch, Wrap, TcpRtt.Sample, TcpRetx.CoveredPrefix, SeqLE, SeqLT, AckInWindow, TcpCongestion.Increment;
    AckStep(c, h, payload, now);
    AckPosition(c.snd, una, nxt, h, a);
    WrapInjective(una, a);
    if c.snd.cc.cwnd >= c.snd.cc.ssthresh {
      TcpCongestion.AvoidanceIncrement(c.snd.cc, c.mssEff, a - una);
    }
  }

  /** Half the flight, at least two segments (equation 4 of RFC 5681). */
  function Threshold(c: Conn): int {
    Max(Flight(c.snd) / 2, 2 * c.mssEff)
  }

  /** A timeout that is no fast retransmission: the oldest descriptor goes out again and is
      restamped, the window collapses to one segment, and the timeout doubles up to 6000. */
  lemma TimeoutCollapses(c: Conn, now: nat)
    requires c.active && c.state != TimeWait && c.mssEff != 0 && c.snd.retx != []
    requires c.snd.rtoDeadline != 0 && now >= c.snd.rtoDeadline && c.snd.xmitCountHead < 8 && !c.snd.fastRetx
    requires c.snd.est.rto <= 6000
    ensures var c' := Step(c, TimerScan, now);
            && c'.snd.cc.cwnd == c.mssEff && c'.snd.cc.ssthresh == Threshold(c)
            && c'.snd.cc.accum == 0 && c'.snd.cc.dupAcks == 0
            && c'.snd.retx[1..] == c.snd.retx[1..] && c'.snd.retx != []
            && c'.snd.retx[0] == c.snd.retx[0].(xmitCount := c'.snd.retx[0].xmitCount, sentTicks := now)
            && (c.snd.retx[0].xmitCount < 255 ==> c'.snd.retx[0].xmitCount == c.snd.retx[0].xmitCount + 1)
            && c'.snd.est.rto == Min(2 * c.snd.est.rto, 6000) && c'.snd.rtoDeadline == now + c'.snd.est.rto
            && c'.snd.una == c.snd.una && c'.snd.nxt == c.snd.nxt
  {
    hide Withheld, AdvertisedWindow;
    WrapSmall(c.snd.est.rto * 2);
    var r := c.snd.retx;
    assert Retransmit(c.snd, c.mssEff, now).retx[1..] == r[1..];
  }

  /** Fast retransmit: of three duplicates in a row the first two only count; the third halves the
      flight into the threshold, sets the window three segments above it and makes the next
      scanner pass send the oldest descriptor again, without the collapse of a timeout. */
  lemma ThreeDuplicates(c: Conn, h: Header, at: int, t1: nat, t2: nat, t3: nat, now: nat)
    requires c.active && c.state == Established && c.mssEff != 0 && h.seqNo == c.rcv.nxt
    requires Duplicate(c.snd, h, []) && c.snd.cc.dupAcks == 0 && c.snd.retx != [] && now >= 1
    ensures var c1 := Step(c, Arrive(h, [], at), t1);
            var c2 := Step(c1, Arrive(h, [], at), t2);
            var c3 := Step(c2, Arrive(h, [], at), t3);
            var c4 := Step(c3, TimerScan, now);
            && c2.snd == c.snd.(cc := c.snd.cc.(dupAcks := 2))
            && c3.snd.cc.ssthresh == Threshold(c)
            && c3.snd.cc.cwnd == Add32(Threshold(c), 3 * c.mssEff) && c3.snd.cc.accum == 0
            && c3.snd.una == c.snd.una && c3.snd.nxt == c.snd.nxt && c3.snd.retx == c.snd.retx
            && c4.snd.cc == c3.snd.cc && |c4.snd.retx| == |c.snd.retx|
            && c4.snd.retx[0].sentTicks == now && c4.snd.retx[0].endSeq == c.snd.retx[0].endSeq
  {
    hide Withheld, AdvertisedWindow, Flight, Receive, TcpRtt.BackOff;
    WrapSmall(3 * c.mssEff);
    var c1 := Step(c, Arrive(h, [], at), t1);
    OneDuplicate(c, h, at, t1);
    OneDuplicate(c1, h, at, t2);
    var c2 := Step(c1, Arrive(h, [], at), t2);
    OneDuplicate(c2, h, at, t3);
    var c3 := Step(c2, Arrive(h, [], at), t3);
    hide Step, Duplicate;
    assert c1.snd == c.snd.(cc := c.snd.cc.(dupAcks := 1));
    assert c2.snd == c.snd.(cc := c.snd.cc.(dupAcks := 2));
    FlightSame(c2.snd, c.snd);
    assert TcpCongestion.Halved(c.mssEff, Flight(c.snd)) == Threshold(c);
    FastPass(c3, now);
  }

  lemma FlightSame(s: SendVars, s': SendVars)
    requires s.nxt == s'.nxt && s.una == s'.una
    ensures Flight(s) == Flight(s')
  {
  }

  lemma OneDuplicate(c: Conn, h: Header, at: int, now: nat)
    requires c.active && c.state == Established && h.seqNo == c.rcv.nxt && Duplicate(c.snd, h, [])
    ensures var c' := Step(c, Arrive(h, [], at), now);
            && c'.active && c'.state == Established && c'.rcv.nxt == c.rcv.nxt && c'.mssEff == c.mssEff
            && c'.snd == OnDuplicateAck(c.snd, c.mssEff)
  {
    hide Withheld, AdvertisedWindow, OnDuplicateAck;
  }

  lemma FastPass(c: Conn, now: nat)
    requires c.active && c.state == Established && c.snd.fastRetx && c.snd.rtoDeadline == 1 && now >= 1
    requires c.snd.xmitCountHead == 0 && c.snd.retx != []
    ensures var s' := Step(c, TimerScan, now).snd;
            && s'.cc == c.snd.cc && |s'.retx| == |c.snd.retx|
            && s'.retx[0].sentTicks == now && s'.retx[0].endSeq == c.snd.retx[0].endSeq
  {
    hide Withheld, AdvertisedWindow, TcpRtt.BackOff;
  }

  /** Round-trip samples follow Karn's rule: acknowledged descriptors feed the estimator exactly if
      one of them was never sent again and a tick has passed since the oldest, and the sample is
      the time since then. */
  lemma SampledByKarn(s: SendVars, ackNo: u32, now: nat, oldest: nat)
    requires var p := TcpRetx.CoveredPrefix(s.retx, ackNo);
             && (exists i :: 0 <= i < p && s.retx[i].sentTicks == oldest)
             && (forall i :: 0 <= i < p ==> oldest <= s.retx[i].sentTicks)
    requires now - oldest < MOD32
    ensures var p := TcpRetx.CoveredPrefix(s.retx, ackNo);
            var s' := PopAcked(s, ackNo, now);
            && s'.retx == s.retx[p..]
            && s'.est == if (exists i :: 0 <= i < p && s.retx[i].xmitCount == 0) && now > oldest
                         then TcpRtt.Update(s.est, now - oldest) else s.est
  {
    hide TcpRtt.Update;
    var p := TcpRetx.CoveredPrefix(s.retx, ackNo);
    var q := s.retx[..p];
    assert forall i :: 0 <= i < p ==> q[i] == s.retx[i];
    var i :| 0 <= i < p && s.retx[i].sentTicks == oldest;
    assert q[i].sentTicks == oldest;
    OldestIsLeast(q, oldest);
    if now > oldest {
      WrapSmall(now - oldest);
    }
    assert TcpRetx.AnyPristine(q) <==> exists i :: 0 <= i < p && s.retx[i].xmitCount == 0;
  }

  lemma {:induction false} OldestIsLeast(q: seq<TcpRetx.Entry>, t: nat)
    requires (exists i :: 0 <= i < |q| && q[i].sentTicks == t) && forall i :: 0 <= i < |q| ==> t <= q[i].sentTicks
    ensures TcpRetx.OldestSent(q) == t
    decreases |q|
  {
    var n := |q| - 1;
    if n > 0 {
      var pre := q[..n];
      if exists i :: 0 <= i < n && q[i].sentTicks == t {
        var i :| 0 <= i < n && q[i].sentTicks == t;
        assert pre[i].sentTicks == t;
        OldestIsLeast(pre, t);
      } else {
        OldestAbove(pre, t);
      }
    }
  }

  lemma {:induction false} OldestAbove(q: seq<TcpRetx.Entry>, t: nat)
    requires q != [] && forall i :: 0 <= i < |q| ==> t <= q[i].sentTicks
    ensures TcpRetx.OldestSent(q) >= t
    decreases |q|
  {
    if |q| > 1 {
      OldestAbove(q[..|q| - 1], t);
    }
  }
}
