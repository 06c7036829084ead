/** What the receive side of a connection guarantees over every run: the application gets
    exactly the peer's stream, in order, and the window it is offered never shrinks. */
module TcpReceive {
  import opened SeqSpace
  import opened TcpConnection

  /** The remote side: its initial sequence number and every byte it will ever send. Its
      FIN, if it sends one, sits right behind the last byte. */
  datatype Peer = Peer(isn: u32, stream: seq<u8>)

  /** The peer's FIN has been consumed exactly in these states. */
  predicate FinTaken(s: TcpState) {
    s == CloseWait || s == LastAck || s == Closing || s == TimeWait
  }

  /** The position, past the peer's SYN, up to which everything has been received: payload
      bytes handed over or buffered, plus the FIN. */
  function Progress(r: RecvVars, fin: bool, got: seq<u8>): nat {
    |got| + |r.rx| + (if fin then 1 else 0)
  }

  /** The advertised right edge, as an unbounded position. */
  function RightEdge(r: RecvVars, fin: bool, got: seq<u8>): nat {
    Progress(r, fin, got) + r.lastAdvWin
  }

  /** The receive variables describe the prefix of the stream that was read (got) or is
      buffered, and account for every byte of buffer space. */
  ghost predicate Prefix(r: RecvVars, fin: bool, peer: Peer, got: seq<u8>) {
    && r.wnd + |r.rx| == RX_SIZE
    && r.nxt == Wrap(peer.isn + 1 + Progress(r, fin, got))
    && got + r.rx <= peer.stream
    && (fin ==> got + r.rx == peer.stream)
  }

  /** In between buffering and acknowledging, the offer on record may exceed the free space;
      the edge that was really offered is still covered. */
  ghost predicate Covers(r: RecvVars, fin: bool, got: seq<u8>, edge: nat) {
    && edge <= Progress(r, fin, got) + r.wnd
    && edge <= Progress(r, fin, got) + r.lastAdvWin
    && r.lastAdvWin <= RX_SIZE
  }

  /** got is what the application has read so far. */
  ghost predicate Inv(c: Conn, peer: Peer, got: seq<u8>) {
    c.active ==>
      && c.state != Closed
      && c.rcv.lastAdvWin <= c.rcv.wnd
      && (if c.state == SynSent then got == [] && c.rcv.rx == [] && c.rcv.wnd == RX_SIZE
          else Prefix(c.rcv, FinTaken(c.state), peer, got))
  }

  /** The edge of a connection. */
  function Edge(c: Conn, got: seq<u8>): nat {
    RightEdge(c.rcv, FinTaken(c.state), got)
  }

  /** The arriving segment carries bytes of the peer's stream at its own position, less than
      one full turn of sequence numbers behind, and inside the advertised edge. Segments
      that carry neither bytes nor SYN nor FIN are unconstrained. */
  ghost predicate FromPeer(r: RecvVars, fin: bool, peer: Peer, got: seq<u8>, h: Header, payload: Payload, at: int) {
    && (h.syn ==> at == -1 && h.seqNo == peer.isn && !h.fin)
    && (!h.syn && (h.fin || payload != []) ==>
          && 0 <= at && at + |payload| <= |peer.stream|
          && h.seqNo == Wrap(peer.isn + 1 + at)
          && payload == peer.stream[at..at + |payload|]
          && (h.fin ==> at + |payload| == |peer.stream|)
          && at + |payload| <= RightEdge(r, fin, got))
    && Progress(r, fin, got) - at < MOD32
  }

  ghost predicate Plausible(c: Conn, peer: Peer, got: seq<u8>, e: Event) {
    e.Arrive? ==> FromPeer(c.rcv, FinTaken(c.state), peer, got, e.h, e.payload, e.at)
  }

  // ---- the advertised window ----

  /** Announcing never offers more than there is, and never withdraws an offer. */
  lemma AnnounceCovers(r: RecvVars, mss: u16, fin: bool, peer: Peer, got: seq<u8>, edge: nat)
    requires Prefix(r, fin, peer, got) && Covers(r, fin, got, edge)
    ensures var r' := AnnounceWindow(r, mss);
            && Prefix(r', fin, peer, got) && r'.lastAdvWin <= r'.wnd
            && RightEdge(r', fin, got) >= edge
            && AdvertisedWindow(r, mss) <= r.wnd && AdvertisedWindow(r, mss) == r'.lastAdvWin
  {
  }

  lemma InvCovers(c: Conn, peer: Peer, got: seq<u8>)
    requires c.active && c.state != SynSent && Inv(c, peer, got)
    ensures Covers(c.rcv, FinTaken(c.state), got, Edge(c, got))
  {
  }

  // ---- in-order payload and FIN ----

  /** A sequence number equal to rcvNxt is the current position, never another one. */
  lemma PositionIsCurrent(r: RecvVars, fin: bool, peer: Peer, got: seq<u8>, at: int)
    requires Prefix(r, fin, peer, got)
    requires at <= Progress(r, fin, got) + RX_SIZE && Progress(r, fin, got) - at < MOD32
    ensures Wrap(peer.isn + 1 + at) == r.nxt <==> at == Progress(r, fin, got)
  {
    WrapInjective(peer.isn + 1 + at, peer.isn + 1 + Progress(r, fin, got));
  }

  /** An in-order payload inside the edge is buffered whole, and extends the prefix. */
  lemma ReceiveExtends(r: RecvVars, peer: Peer, got: seq<u8>, payload: Payload)
    requires Prefix(r, false, peer, got) && r.lastAdvWin <= r.wnd
    requires var at := Progress(r, false, got);
             && at + |payload| <= |peer.stream| && payload == peer.stream[at..at + |payload|]
             && |payload| <= r.lastAdvWin
    ensures Accepted(r, payload) == |payload|
    ensures var r' := Receive(r, payload);
            && Prefix(r', false, peer, got)
            && Covers(r', false, got, RightEdge(r, false, got))
            && Progress(r', false, got) == Progress(r, false, got) + |payload|
  {
    var at := Progress(r, false, got);
    assert payload[..|payload|] == payload;
    WrapAdd(peer.isn + 1 + at, |payload|);
    assert got + (r.rx + payload) == (got + r.rx) + payload;
    assert got + r.rx == peer.stream[..at];
    assert peer.stream[..at] + payload == peer.stream[..at + |payload|];
  }

  /** Consuming the FIN at the end of the stream. */
  lemma TakeFinCompletes(r: RecvVars, peer: Peer, got: seq<u8>, edge: nat)
    requires Prefix(r, false, peer, got) && Covers(r, false, got, edge)
    requires Progress(r, false, got) == |peer.stream|
    ensures Prefix(TakeFin(r), true, peer, got) && Covers(TakeFin(r), true, got, edge)
  {
    WrapAdd(peer.isn + 1 + Progress(r, false, got), 1);
  }

  // ---- handlers ----

  /** The handler kept the invariant, or freed the slot, and the edge did not move left. */
  ghost predicate Kept(c: Conn, c': Conn, peer: Peer, got: seq<u8>) {
    Inv(c', peer, got) && (c'.active ==> Edge(c', got) >= Edge(c, got))
  }

  /** The common end of the handlers: the receive variables r, the state, and an announcement. */
  lemma AnnounceKeeps(c: Conn, c1: Conn, peer: Peer, got: seq<u8>)
    requires c1.active && c1.state != SynSent && c1.state != Closed
    requires Prefix(c1.rcv, FinTaken(c1.state), peer, got)
    requires Covers(c1.rcv, FinTaken(c1.state), got, Edge(c, got))
    ensures Kept(c, Announce(c1), peer, got)
  {
    AnnounceCovers(c1.rcv, c1.mssEff, FinTaken(c1.state), peer, got, Edge(c, got));
  }

  lemma EstablishedKeeps(c: Conn, peer: Peer, got: seq<u8>, h: Header, payload: Payload, at: int, now: nat)
    requires c.active && c.state == Established && Inv(c, peer, got)
    requires FromPeer(c.rcv, false, peer, got, h, payload, at)
    ensures Kept(c, HandleEstablished(c, h, payload, now), peer, got)
  {
    hide EstablishedAck, AnnounceWindow, Wrap, Receive, Prefix, Covers;
    InvCovers(c, peer, got);
    EstablishedAckKeeps(c, h, payload, now);
    var c1 := EstablishedAck(c, h, payload, now);
    if h.seqNo != c.rcv.nxt {
      AnnounceKeeps(c, c, peer, got);
    } else if h.fin || payload != [] {
      DueFromPeer(c.rcv, peer, got, h, payload, at);
      ReceiveExtends(c.rcv, peer, got, payload);
      var r := Receive(c.rcv, payload);
      if h.fin {
        TakeFinCompletes(r, peer, got, Edge(c, got));
        AnnounceKeeps(c, c1.(rcv := TakeFin(r), state := CloseWait), peer, got);
      } else {
        AnnounceKeeps(c, c1.(rcv := r), peer, got);
      }
    } else {
      ReceiveNothing(c.rcv);
      AnnounceKeeps(c, c1.(rcv := c.rcv), peer, got);
    }
  }

  lemma EstablishedAckKeeps(c: Conn, h: Header, payload: Payload, now: nat)
    ensures var c1 := EstablishedAck(c, h, payload, now);
            c1.rcv == c.rcv && c1.active == c.active && c1.state == c.state
  {
  }

  lemma ReceiveNothing(r: RecvVars)
    ensures Receive(r, []) == r
  {
  }

  /** A segment that carries something and whose number equals rcvNxt starts exactly at the
      current position. */
  lemma DueFromPeer(r: RecvVars, peer: Peer, got: seq<u8>, h: Header, payload: Payload, at: int)
    requires Prefix(r, false, peer, got) && r.lastAdvWin <= r.wnd
    requires FromPeer(r, false, peer, got, h, payload, at) && h.seqNo == r.nxt && (h.fin || payload != [])
    ensures at == Progress(r, false, got) && !h.syn && |payload| <= r.lastAdvWin
  {
    if h.syn {
      WrapSmall(peer.isn);
      PositionIsCurrent(r, false, peer, got, -1);
    } else {
      PositionIsCurrent(r, false, peer, got, at);
    }
  }

  /** The receive half of the FIN-WAIT handlers: the payload if it is due, and then the FIN
      is recognised only at the very end of the stream. */
  lemma FinWaitReceiveKeeps(r: RecvVars, peer: Peer, got: seq<u8>, h: Header, payload: Payload, at: int)
    requires Prefix(r, false, peer, got) && r.lastAdvWin <= r.wnd
    requires FromPeer(r, false, peer, got, h, payload, at)
    ensures var r' := FinWaitReceive(r, h, payload);
            && Prefix(r', false, peer, got)
            && Covers(r', false, got, RightEdge(r, false, got))
            && (FinDue(r', h, payload) ==> Progress(r', false, got) == |peer.stream|)
  {
    hide Prefix, Receive;
    assert Covers(r, false, got, RightEdge(r, false, got)) by { EdgeCovered(r, peer, got); }
    if h.seqNo == r.nxt && (h.fin || payload != []) {
      DueFromPeer(r, peer, got, h, payload, at);
      ReceiveExtends(r, peer, got, payload);
    } else {
      ReceiveNothing(r);
      if h.fin {
        EdgeCovered(r, peer, got);
        WrapAdd(peer.isn + 1 + at, |payload|);
        PositionIsCurrent(r, false, peer, got, at + |payload|);
      }
    }
  }

  lemma EdgeCovered(r: RecvVars, peer: Peer, got: seq<u8>)
    requires Prefix(r, false, peer, got) && r.lastAdvWin <= r.wnd
    ensures Covers(r, false, got, RightEdge(r, false, got)) && r.lastAdvWin <= RX_SIZE
  {
  }

  lemma FinWaitKeeps(c: Conn, c1: Conn, peer: Peer, got: seq<u8>, h: Header, payload: Payload, at: int)
    requires c.active && (c.state == FinWait1 || c.state == FinWait2) && Inv(c, peer, got)
    requires FromPeer(c.rcv, false, peer, got, h, payload, at)
    requires c1.active && c1.state != SynSent && c1.state != Closed
    requires var r := FinWaitReceive(c.rcv, h, payload);
             if FinDue(r, h, payload) then FinTaken(c1.state) && c1.rcv == TakeFin(r)
             else !FinTaken(c1.state) && c1.rcv == r
    ensures Kept(c, Announce(c1), peer, got)
  {
    hide Prefix, Receive, FinDue, Covers, FinWaitReceive, FromPeer, Announce;
    FinWaitReceiveKeeps(c.rcv, peer, got, h, payload, at);
    var r := FinWaitReceive(c.rcv, h, payload);
    if FinDue(r, h, payload) {
      TakeFinCompletes(r, peer, got, Edge(c, got));
    }
    AnnounceKeeps(c, c1, peer, got);
  }

  lemma FinWait1Keeps(c: Conn, peer: Peer, got: seq<u8>, h: Header, payload: Payload, at: int, now: nat)
    requires c.active && c.state == FinWait1 && Inv(c, peer, got)
    requires FromPeer(c.rcv, false, peer, got, h, payload, at)
    ensures Kept(c, HandleFinWait1(c, h, payload, now), peer, got)
  {
    hide Inv, FinDue, FinWaitReceive, FromPeer, Announce, AckSend, AcksEverything, MssAfterAck, Kept;
    var r := FinWaitReceive(c.rcv, h, payload);
    var finAcked, peerFin := AcksEverything(c.snd, h), FinDue(r, h, payload);
    var c1 := AckUpdate(c, h, now).(rcv := if peerFin then TakeFin(r) else r);
    var c2 := if finAcked && peerFin then EnterTimeWait(c1, now)
              else if finAcked then c1.(state := FinWait2)
              else if peerFin then c1.(state := Closing)
              else c1;
    FinWaitKeeps(c, c2, peer, got, h, payload, at);
  }

  lemma FinWait2Keeps(c: Conn, peer: Peer, got: seq<u8>, h: Header, payload: Payload, at: int, now: nat)
    requires c.active && c.state == FinWait2 && Inv(c, peer, got)
    requires FromPeer(c.rcv, false, peer, got, h, payload, at)
    ensures Kept(c, HandleFinWait2(c, h, payload, now), peer, got)
  {
    hide Inv, FinDue, FinWaitReceive, FromPeer, Announce, AckSend, MssAfterAck, Kept;
    var r := FinWaitReceive(c.rcv, h, payload);
    var c1 := AckUpdate(c, h, now);
    var c2 := if FinDue(r, h, payload) then EnterTimeWait(c1.(rcv := TakeFin(r)), now) else c1.(rcv := r);
    FinWaitKeeps(c, c2, peer, got, h, payload, at);
  }

  lemma SynReceivedKeeps(c: Conn, peer: Peer, got: seq<u8>, h: Header, payload: Payload, at: int, now: nat)
    requires c.active && c.state == SynReceived && Inv(c, peer, got)
    requires FromPeer(c.rcv, false, peer, got, h, payload, at)
    ensures Kept(c, HandleSynReceived(c, h, payload, now), peer, got)
  {
    hide EstablishSend, HandleEstablished, Prefix, FromPeer;
    if h.ack && h.ackNo == c.snd.nxt {
      var c1 := Establish(c, h, now);
      if payload != [] || h.fin {
        EstablishedKeeps(c1, peer, got, h, payload, at, now);
      }
    }
  }

  /** The SYN|ACK fixes the peer's numbering. Bytes riding on it are not accepted: its own
      number is one short of rcvNxt, so the nested handler sees it as out of order. */
  lemma SynSentKeeps(c: Conn, peer: Peer, got: seq<u8>, h: Header, payload: Payload, at: int, now: nat)
    requires c.active && c.state == SynSent && Inv(c, peer, got)
    requires FromPeer(c.rcv, false, peer, got, h, payload, at)
    ensures Kept(c, HandleSynSent(c, h, payload, now), peer, got)
    ensures HandleSynSent(c, h, payload, now).rcv.rx == []
  {
    hide EstablishSend, Wrap, SwsThreshold, SynAckAcceptable;
    if h.syn && h.ack && !h.rst && SynAckAcceptable(c.snd, h.ackNo) {
      var c1 := Establish(Synchronize(c, h), h, now);
      WrapSmall(h.seqNo);
      WrapAdd(peer.isn, 1);
      AnnounceKeeps(c, c1, peer, got);
      var c2 := Announce(c1);
      InvCovers(c2, peer, got);
      AnnounceKeeps(c, c2, peer, got);
      assert h.seqNo != c2.rcv.nxt;
    }
  }

  lemma DispatchKeeps(c: Conn, peer: Peer, got: seq<u8>, h: Header, payload: Payload, at: int, now: nat)
    requires c.active && Inv(c, peer, got)
    requires FromPeer(c.rcv, FinTaken(c.state), peer, got, h, payload, at)
    ensures Kept(c, Dispatch(c, h, payload, now), peer, got)
  {
    hide HandleSynSent, HandleSynReceived, HandleEstablished, HandleFinWait1, HandleFinWait2,
      Prefix, FromPeer, Covers, ResetInWindow, AcksEverything, AckSend;
    if h.rst && c.state != SynSent {
    } else {
      match c.state
      case SynSent => SynSentKeeps(c, peer, got, h, payload, at, now);
      case SynReceived => SynReceivedKeeps(c, peer, got, h, payload, at, now);
      case Established => EstablishedKeeps(c, peer, got, h, payload, at, now);
      case FinWait1 => FinWait1Keeps(c, peer, got, h, payload, at, now);
      case FinWait2 => FinWait2Keeps(c, peer, got, h, payload, at, now);
      case CloseWait =>
        InvCovers(c, peer, got);
        AnnounceKeeps(c, c, peer, got);
      case TimeWait =>
        InvCovers(c, peer, got);
        AnnounceKeeps(c, c.(timeWaitDeadline := now + TIME_WAIT_TICKS), peer, got);
      case Closing =>
      case LastAck =>
      case Closed =>
    }
  }

  // ---- the other events ----

  lemma DrainKeeps(r: RecvVars, fin: bool, peer: Peer, got: seq<u8>, n: nat)
    requires Prefix(r, fin, peer, got) && r.lastAdvWin <= r.wnd && n <= |r.rx|
    ensures var r', got' := Drain(r, n), got + r.rx[..n];
            && Prefix(r', fin, peer, got') && r'.lastAdvWin <= r'.wnd
            && RightEdge(r', fin, got') == RightEdge(r, fin, got)
  {
    assert got + r.rx[..n] + r.rx[n..] == got + r.rx;
  }

  lemma ReadKeeps(c: Conn, peer: Peer, got: seq<u8>, n: nat)
    requires c.active && Inv(c, peer, got) && n <= |c.rcv.rx|
    ensures var c', got' := c.(rcv := Drain(c.rcv, n)), got + c.rcv.rx[..n];
            Inv(c', peer, got') && Edge(c', got') == Edge(c, got)
  {
    if c.state == SynSent {
      assert c.rcv.rx[..n] == [];
    } else {
      DrainKeeps(c.rcv, FinTaken(c.state), peer, got, n);
    }
  }

  /** An announcement while the state moves between states that agree on the FIN. */
  lemma SendingKeeps(c: Conn, c1: Conn, peer: Peer, got: seq<u8>)
    requires c.active && Inv(c, peer, got)
    requires c1.active && c1.rcv == c.rcv && FinTaken(c1.state) == FinTaken(c.state)
    requires c1.state != Closed && (c1.state == SynSent <==> c.state == SynSent)
    ensures Kept(c, Announce(c1), peer, got)
  {
    if c.state != SynSent {
      InvCovers(c, peer, got);
      AnnounceKeeps(c, c1, peer, got);
    }
  }

  lemma CloseKeeps(c: Conn, peer: Peer, got: seq<u8>, now: nat, sent: bool)
    requires c.active && Inv(c, peer, got)
    ensures Kept(c, Close(c, now, sent), peer, got)
  {
    hide Prefix, Transmit, AnnounceWindow;
    if c.state == Established || c.state == CloseWait {
      SendingKeeps(c, c.(state := if c.state == Established then FinWait1 else LastAck), peer, got);
    }
  }

  lemma EchoKeeps(c: Conn, peer: Peer, got: seq<u8>, sent: bool)
    requires c.active && Inv(c, peer, got)
    ensures var got' := GotAfter(c, got, EchoPass(sent));
            Inv(Echo(c, sent), peer, got') && Edge(Echo(c, sent), got') >= Edge(c, got)
  {
    hide Drain, Prefix, EchoLength, AnnounceWindow;
    if c.state == Established && c.rcv.rx != [] {
      var n := EchoLength(c.rcv, c.mssEff);
      ReadKeeps(c, peer, got, n);
      var c1 := c.(rcv := Drain(c.rcv, n));
      SendingKeeps(c1, c1, peer, got + c.rcv.rx[..n]);
    } else if c.state == CloseWait && c.rcv.rx == [] {
      SendingKeeps(c, c, peer, got);
    }
  }

  lemma RtoFireKeeps(c: Conn, peer: Peer, got: seq<u8>, now: nat)
    requires Inv(c, peer, got)
    ensures Kept(c, RtoFire(c, now), peer, got)
  {
    hide Prefix, Retransmit, AnnounceWindow;
    if c.active && RtoExpired(c.snd, now) && c.snd.xmitCountHead < MAX_RETRANSMITS && c.snd.retx != [] {
      SendingKeeps(c, c.(snd := Retransmit(c.snd, c.mssEff, now)), peer, got);
    }
  }

  /** What the application holds after the event. The echo service counts as a reader. */
  function GotAfter(c: Conn, got: seq<u8>, e: Event): seq<u8> {
    if !c.active then got
    else if e.Read? then got + c.rcv.rx[..ReadLength(c.rcv, e.bufMax)]
    else if e.EchoPass? && c.state == Established && c.rcv.rx != [] then
      got + c.rcv.rx[..EchoLength(c.rcv, c.mssEff)]
    else got
  }

  /** Every event keeps the invariant, and the advertised edge never moves left. */
  lemma StepKeeps(c: Conn, peer: Peer, got: seq<u8>, e: Event, now: nat)
    requires Inv(c, peer, got) && Plausible(c, peer, got, e)
    ensures var c', got' := Step(c, e, now), GotAfter(c, got, e);
            && Inv(c', peer, got')
            && (c'.active ==> Edge(c', got') >= Edge(c, got))
  {
    hide Dispatch, Drain, Echo, Close, RtoFire, Prefix, FromPeer, CanSend, Transmit, ReadLength, AnnounceWindow;
    if c.active {
      match e
      case Arrive(h, payload, at) => DispatchKeeps(c, peer, got, h, payload, at, now);
      case Read(bufMax) => ReadKeeps(c, peer, got, ReadLength(c.rcv, bufMax));
      case EchoPass(sent) => EchoKeeps(c, peer, got, sent);
      case CloseCall(sent) => CloseKeeps(c, peer, got, now, sent);
      case DataSend(n, sent) => SendingKeeps(c, c, peer, got);
      case TimerScan => RtoFireKeeps(c, peer, got, now);
    }
  }

  // ---- runs ----

  /** Everything the application read during a run. */
  function GotOver(c: Conn, es: seq<(Event, nat)>): seq<u8> {
    if es == [] then [] else
    GotAfter(Run(c, es[..|es| - 1]), GotOver(c, es[..|es| - 1]), es[|es| - 1].0)
  }

  ghost predicate PlausibleRun(c: Conn, peer: Peer, es: seq<(Event, nat)>) {
    es == [] ||
    (var pre := es[..|es| - 1];
     PlausibleRun(c, peer, pre) && Plausible(Run(c, pre), peer, GotOver(c, pre), es[|es| - 1].0))
  }

  lemma OpenedInv(c: Conn, peer: Peer)
    requires Opened(c, peer.isn)
    ensures Inv(c, peer, [])
  {
    hide Transmit, Wrap, SwsThreshold;
    WrapSmall(peer.isn);
    WrapAdd(peer.isn, 1);
  }

  /** Receive safety: in every run from a fresh slot, whatever segments of the peer's stream
      are lost, repeated or reordered, what was read plus what is buffered is the prefix of
      the stream that rcvNxt claims; the window and the buffer always add up to 8192. */
  lemma {:induction false} ReceiveSafety(c0: Conn, peer: Peer, es: seq<(Event, nat)>)
    requires Opened(c0, peer.isn) && PlausibleRun(c0, peer, es)
    ensures Inv(Run(c0, es), peer, GotOver(c0, es))
  {
    hide Step, GotAfter, Inv, Opened, Plausible;
    if es == [] {
      OpenedInv(c0, peer);
    } else {
      var pre := es[..|es| - 1];
      ReceiveSafety(c0, peer, pre);
      StepKeeps(Run(c0, pre), peer, GotOver(c0, pre), es[|es| - 1].0, es[|es| - 1].1);
    }
  }

  /** The advertised right edge at any later point of a run is at or beyond the edge at any
      earlier point. */
  lemma {:induction false} EdgeNeverMovesLeft(c0: Conn, peer: Peer, es: seq<(Event, nat)>, k: nat)
    requires Opened(c0, peer.isn) && PlausibleRun(c0, peer, es) && k <= |es|
    requires Run(c0, es).active
    ensures Run(c0, es[..k]).active
    ensures Edge(Run(c0, es), GotOver(c0, es)) >= Edge(Run(c0, es[..k]), GotOver(c0, es[..k]))
  {
    hide GotAfter, Inv, Opened, Plausible, Edge, Dispatch, Echo, Close, Scan;
    if k == |es| {
      assert es[..k] == es;
    } else {
      var pre := es[..|es| - 1];
      assert pre[..k] == es[..k];
      EdgeNeverMovesLeft(c0, peer, pre, k);
      ReceiveSafety(c0, peer, pre);
      StepKeeps(Run(c0, pre), peer, GotOver(c0, pre), es[|es| - 1].0, es[|es| - 1].1);
    }
  }

  /** Nothing a well-behaved peer sends is ever cut short: an in-order payload inside the
      edge is accepted to its last byte. */
  lemma NeverTruncated(c0: Conn, peer: Peer, es: seq<(Event, nat)>, h: Header, payload: Payload, at: int)
    requires Opened(c0, peer.isn) && PlausibleRun(c0, peer, es)
    requires var c := Run(c0, es);
             && c.active && c.state != SynSent && !FinTaken(c.state)
             && FromPeer(c.rcv, false, peer, GotOver(c0, es), h, payload, at)
             && h.seqNo == c.rcv.nxt
    ensures Accepted(Run(c0, es).rcv, payload) == |payload|
  {
    hide Run, GotOver, PlausibleRun, Opened;
    ReceiveSafety(c0, peer, es);
    FitsWhole(Run(c0, es).rcv, peer, GotOver(c0, es), h, payload, at);
  }

  lemma FitsWhole(r: RecvVars, peer: Peer, got: seq<u8>, h: Header, payload: Payload, at: int)
    requires Prefix(r, false, peer, got) && r.lastAdvWin <= r.wnd
    requires FromPeer(r, false, peer, got, h, payload, at) && h.seqNo == r.nxt
    ensures Accepted(r, payload) == |payload|
  {
    hide Wrap;
    if payload != [] {
      DueFromPeer(r, peer, got, h, payload, at);
    }
  }

  /** A read that reports end of stream has delivered the peer's whole stream. */
  lemma EofMeansWholeStream(c0: Conn, peer: Peer, es: seq<(Event, nat)>)
    requires Opened(c0, peer.isn) && PlausibleRun(c0, peer, es) && ReportsEof(Run(c0, es))
    ensures GotOver(c0, es) == peer.stream
  {
    hide Run, GotOver, PlausibleRun, Opened;
    ReceiveSafety(c0, peer, es);
  }

  // ---- where the conditions bite ----

  /** Shutting down both directions empties the buffer without giving the window back. */
  function ShutdownBoth(c: Conn, now: nat, sent: bool): Conn {
    var c1 := Close(c, now, sent);
    c1.(rcv := c1.rcv.(rx := []))
  }

  /** The window equation survives that exactly when there was nothing buffered. */
  lemma ShutdownWindow(c: Conn, peer: Peer, got: seq<u8>, now: nat, sent: bool)
    requires c.active && Inv(c, peer, got)
    ensures var r := ShutdownBoth(c, now, sent).rcv; r.wnd + |r.rx| == RX_SIZE <==> c.rcv.rx == []
  {
    hide Transmit, SwsThreshold, Wrap;
  }

  /** ESTABLISHED consumes a FIN right behind whatever it buffered: at the FIN's own position
      exactly when the payload in front of it was accepted whole. */
  lemma FinPosition(c: Conn, h: Header, payload: Payload, now: nat)
    requires c.state == Established && h.seqNo == c.rcv.nxt && h.fin && |c.rcv.rx| <= RX_SIZE
    ensures var c' := HandleEstablished(c, h, payload, now);
            && c'.state == CloseWait
            && (c'.rcv.nxt == Add32(Add32(h.seqNo, |payload|), 1) <==> |payload| <= RX_SIZE - |c.rcv.rx|)
  {
    hide EstablishedAck, SwsThreshold;
    EstablishedAckKeeps(c, h, payload, now);
  }
}
