/** One TCP connection as a value, and what every handler of the state machine does to it.
    The clock and the outcome of a transmission are parameters. */
module TcpConnection {
  import opened SeqSpace
  import TcpRetx
  import TcpCongestion
  import TcpRtt

  const RX_SIZE: nat := 8192
  const RECV_SCRATCH: nat := 1500
  const ECHO_SCRATCH: nat := 1540
  const MAX_RETRANSMITS: nat := 8
  const TIME_WAIT_TICKS: nat := 6000

  datatype TcpState =
    | Closed | SynSent | SynReceived | Established
    | FinWait1 | FinWait2 | CloseWait | Closing | LastAck | TimeWait

  type Payload = s: seq<u8> | |s| < 0x1_0000

  /** A parsed segment header. mss is the size announced in the options, or the default. */
  datatype Header = Header(seqNo: u32, ackNo: u32, fin: bool, syn: bool, rst: bool, ack: bool,
                           window: u16, mss: u16)

  /** The receive variables; rx is the content of the receive ring. */
  datatype RecvVars = RecvVars(nxt: u32, wnd: u32, irs: u32, lastAdvWin: u32, rx: seq<u8>)

  /** The send variables, with the retransmission queue, its timer, and the estimators. */
  datatype SendVars = SendVars(una: u32, nxt: u32, wnd: u32, wl1: u32, wl2: u32, iss: u32,
                               retx: seq<TcpRetx.Entry>, rtoDeadline: nat, xmitCountHead: nat, fastRetx: bool,
                               est: TcpRtt.Estimator, cc: TcpCongestion.Congestion)

  datatype Conn = Conn(active: bool, state: TcpState, mssLocal: u16, mssEff: u16, timeWaitDeadline: nat,
                       rcv: RecvVars, snd: SendVars)

  /** A slot that was never used. */
  const FRESH: Conn :=
    Conn(false, Closed, 0, 0, 0, RecvVars(0, 0, 0, 0, []),
         SendVars(0, 0, 0, 0, 0, 0, [], 0, 0, false, TcpRtt.FRESH, TcpCongestion.Congestion(0, 0, 0, 0)))

  function Free(c: Conn): Conn {
    c.(active := false, state := Closed)
  }

  // ---- the advertised window ----

  function SwsThreshold(mss: u16): u32 {
    if mss != 0 && mss < RX_SIZE / 2 then mss else RX_SIZE / 2
  }

  /** Growth of the window below the threshold is not announced yet. */
  predicate Withheld(r: RecvVars, mss: u16) {
    r.wnd > r.lastAdvWin && r.wnd - r.lastAdvWin < SwsThreshold(mss)
  }

  /** The window put on the next outgoing segment. */
  function AdvertisedWindow(r: RecvVars, mss: u16): u16 {
    var w := if Withheld(r, mss) then r.lastAdvWin else r.wnd;
    if w > 0xFFFF then 0xFFFF else w
  }

  function AnnounceWindow(r: RecvVars, mss: u16): RecvVars {
    if Withheld(r, mss) then r else r.(lastAdvWin := AdvertisedWindow(r, mss))
  }

  /** What composing an outgoing segment does to the connection. */
  function Announce(c: Conn): Conn {
    c.(rcv := AnnounceWindow(c.rcv, c.mssEff))
  }

  // ---- acknowledgements and the retransmission timer ----

  function Flight(s: SendVars): u32 {
    Sub32(s.nxt, s.una)
  }

  function ArmRto(s: SendVars, now: nat): SendVars {
    var rto := if s.est.rto == 0 then TcpRtt.RTO_INIT else s.est.rto;
    s.(est := s.est.(rto := rto), rtoDeadline := now + rto, xmitCountHead := 0)
  }

  function Push(s: SendVars, e: TcpRetx.Entry): SendVars {
    if |s.retx| < TcpRetx.RETX_MAX then s.(retx := s.retx + [e]) else s
  }

  /** n sequence numbers leave and are queued for retransmission. */
  function Transmit(s: SendVars, n: u32, control: TcpRetx.Control, now: nat): SendVars {
    var e := TcpRetx.Entry(s.nxt, Add32(s.nxt, n), control, now, 0);
    ArmRto(Push(s.(nxt := Add32(s.nxt, n)), e), now)
  }

  /** Pops the covered descriptors and feeds the round-trip estimator. */
  function PopAcked(s: SendVars, ackNo: u32, now: nat): SendVars {
    var p := TcpRetx.CoveredPrefix(s.retx, ackNo);
    s.(retx := s.retx[p..],
       est := TcpRtt.Sample(s.est, now, TcpRetx.OldestSent(s.retx[..p]), TcpRetx.AnyPristine(s.retx[..p])))
  }

  function Rearm(s: SendVars, now: nat): SendVars {
    if s.retx == [] then s.(rtoDeadline := 0) else ArmRto(s, now)
  }

  predicate AckAcceptable(s: SendVars, h: Header) {
    h.ack && AckInWindow(s.una, h.ackNo, s.nxt)
  }

  function AdvanceUna(s: SendVars, mss: u16, ackNo: u32, now: nat): SendVars {
    var acked := Sub32(ackNo, s.una);
    var s1 := PopAcked(s.(una := ackNo), ackNo, now);
    Rearm(s1.(cc := TcpCongestion.OnAck(s1.cc, mss, acked).(dupAcks := 0)), now)
  }

  function UpdateSendWindow(s: SendVars, h: Header): SendVars {
    if SeqLT(s.wl1, h.seqNo) || (s.wl1 == h.seqNo && SeqLE(s.wl2, h.ackNo))
    then s.(wnd := h.window, wl1 := h.seqNo, wl2 := h.ackNo)
    else s
  }

  function AckSend(s: SendVars, mss: u16, h: Header, now: nat): SendVars {
    if !AckAcceptable(s, h) then s
    else UpdateSendWindow(if s.una != h.ackNo then AdvanceUna(s, mss, h.ackNo, now) else s, h)
  }

  /** An advancing acknowledgement that finds no congestion window yet also fixes the segment size. */
  function MssAfterAck(c: Conn, h: Header): u16 {
    if AckAcceptable(c.snd, h) && c.snd.una != h.ackNo && c.snd.cc.cwnd == 0
    then TcpCongestion.EffectiveMss(c.mssEff) else c.mssEff
  }

  function AckUpdate(c: Conn, h: Header, now: nat): Conn {
    c.(snd := AckSend(c.snd, c.mssEff, h, now), mssEff := MssAfterAck(c, h))
  }

  /** The acknowledgement reaches everything sent, our FIN included if one was. */
  predicate AcksEverything(s: SendVars, h: Header) {
    AckAcceptable(s, h) && h.ackNo == s.nxt
  }

  predicate IsDuplicateAck(s: SendVars, h: Header, payload: Payload) {
    && h.ack && !h.syn && !h.fin && !h.rst
    && payload == [] && h.ackNo == s.una && h.window == s.wnd && s.una != s.nxt
  }

  function OnDuplicateAck(s: SendVars, mss: u16): SendVars {
    var s1 := s.(cc := TcpCongestion.OnDupAck(s.cc, mss, Flight(s)));
    if TcpCongestion.FastRetransmits(s.cc) then s1.(rtoDeadline := 1, xmitCountHead := 0, fastRetx := true)
    else s1
  }

  // ---- in-order data ----

  function Accepted(r: RecvVars, payload: Payload): (n: nat)
    ensures n <= |payload|
  {
    if |r.rx| > RX_SIZE then 0
    else if |payload| <= RX_SIZE - |r.rx| then |payload| else RX_SIZE - |r.rx|
  }

  /** Buffers what fits of an in-order payload and shrinks the window by it. */
  function Receive(r: RecvVars, payload: Payload): RecvVars {
    if payload == [] then r else
    var n := Accepted(r, payload);
    r.(rx := r.rx + payload[..n], nxt := Add32(r.nxt, n), wnd := if r.wnd > n then r.wnd - n else 0)
  }

  function TakeFin(r: RecvVars): RecvVars {
    r.(nxt := Add32(r.nxt, 1))
  }

  /** Dropping n buffered bytes reopens the window by n, up to the buffer size. */
  function Drain(r: RecvVars, n: nat): RecvVars
    requires n <= |r.rx|
  {
    r.(rx := r.rx[n..], wnd := if r.wnd + n > RX_SIZE then RX_SIZE else r.wnd + n)
  }

  // ---- state handlers ----

  /** The acknowledgement half of the ESTABLISHED handler. */
  function EstablishedAck(c: Conn, h: Header, payload: Payload, now: nat): Conn {
    if IsDuplicateAck(c.snd, h, payload) then c.(snd := OnDuplicateAck(c.snd, c.mssEff)) else AckUpdate(c, h, now)
  }

  function HandleEstablished(c: Conn, h: Header, payload: Payload, now: nat): Conn {
    if h.seqNo != c.rcv.nxt then Announce(c) else
    var c1 := EstablishedAck(c, h, payload, now);
    var r := Receive(c1.rcv, payload);
    Announce(if h.fin then c1.(rcv := TakeFin(r), state := CloseWait) else c1.(rcv := r))
  }

  predicate FinDue(r: RecvVars, h: Header, payload: Payload) {
    h.fin && Add32(h.seqNo, |payload|) == r.nxt
  }

  /** The receive half of the FIN-WAIT handlers. */
  function FinWaitReceive(r: RecvVars, h: Header, payload: Payload): RecvVars {
    if h.seqNo == r.nxt then Receive(r, payload) else r
  }

  function EnterTimeWait(c: Conn, now: nat): Conn {
    c.(state := TimeWait, timeWaitDeadline := now + TIME_WAIT_TICKS)
  }

  function HandleFinWait1(c: Conn, h: Header, payload: Payload, now: nat): Conn {
    var r := FinWaitReceive(c.rcv, h, payload);
    var finAcked := AcksEverything(c.snd, h);
    var peerFin := FinDue(r, h, payload);
    var c1 := AckUpdate(c, h, now).(rcv := if peerFin then TakeFin(r) else r);
    Announce(
      if finAcked && peerFin then EnterTimeWait(c1, now)
      else if finAcked then c1.(state := FinWait2)
      else if peerFin then c1.(state := Closing)
      else c1)
  }

  function HandleFinWait2(c: Conn, h: Header, payload: Payload, now: nat): Conn {
    var r := FinWaitReceive(c.rcv, h, payload);
    var c1 := AckUpdate(c, h, now);
    Announce(if FinDue(r, h, payload) then EnterTimeWait(c1.(rcv := TakeFin(r)), now) else c1.(rcv := r))
  }

  function HandleClosing(c: Conn, h: Header, now: nat): Conn {
    var c1 := AckUpdate(c, h, now);
    if AcksEverything(c.snd, h) then EnterTimeWait(c1, now) else c1
  }

  function HandleTimeWait(c: Conn, h: Header, now: nat): Conn {
    if h.fin then Announce(c.(timeWaitDeadline := now + TIME_WAIT_TICKS)) else c
  }

  function HandleCloseWait(c: Conn, h: Header): Conn {
    if h.fin then Announce(c) else c
  }

  function HandleLastAck(c: Conn, h: Header): Conn {
    if h.ack && h.ackNo == c.snd.nxt then Free(c) else c
  }

  /** Send variables on entering ESTABLISHED. */
  function EstablishSend(s: SendVars, mss: u16, h: Header, now: nat): SendVars {
    var s1 := s.(una := h.ackNo, wnd := h.window, wl1 := h.seqNo, wl2 := h.ackNo, cc := TcpCongestion.Init(mss));
    Rearm(PopAcked(s1, h.ackNo, now), now)
  }

  function Establish(c: Conn, h: Header, now: nat): Conn {
    c.(state := Established, mssEff := TcpCongestion.EffectiveMss(c.mssEff),
       snd := EstablishSend(c.snd, c.mssEff, h, now))
  }

  function HandleSynReceived(c: Conn, h: Header, payload: Payload, now: nat): Conn {
    if !h.ack || h.ackNo != c.snd.nxt then c else
    var c1 := Establish(c, h, now);
    if payload != [] || h.fin then HandleEstablished(c1, h, payload, now) else c1
  }

  /** The peer's SYN fixes its numbering and the segment size. */
  function Synchronize(c: Conn, h: Header): Conn {
    c.(rcv := c.rcv.(irs := h.seqNo, nxt := Add32(h.seqNo, 1)),
       mssEff := if h.mss < c.mssLocal then h.mss else c.mssLocal)
  }

  predicate SynAckAcceptable(s: SendVars, ackNo: u32) {
    SeqLE(Add32(s.una, 1), ackNo) && SeqLE(ackNo, s.nxt)
  }

  function HandleSynSent(c: Conn, h: Header, payload: Payload, now: nat): Conn {
    if h.ack && !SynAckAcceptable(c.snd, h.ackNo) then c
    else if h.rst then Free(c)
    else if h.syn && !h.ack then Free(c)
    else if !(h.syn && h.ack) then c
    else
      var c1 := Announce(Establish(Synchronize(c, h), h, now));
      if payload != [] || h.fin then HandleEstablished(c1, h, payload, now) else c1
  }

  /** The per-state dispatcher, with the reset check in front. */
  function Dispatch(c: Conn, h: Header, payload: Payload, now: nat): Conn {
    if h.rst && c.state != SynSent then
      if ResetInWindow(c.rcv.nxt, c.rcv.wnd, h.seqNo) then Free(c) else c
    else
      match c.state
      case SynSent => HandleSynSent(c, h, payload, now)
      case SynReceived => HandleSynReceived(c, h, payload, now)
      case Established => HandleEstablished(c, h, payload, now)
      case CloseWait => HandleCloseWait(c, h)
      case LastAck => HandleLastAck(c, h)
      case FinWait1 => HandleFinWait1(c, h, payload, now)
      case FinWait2 => HandleFinWait2(c, h, payload, now)
      case Closing => HandleClosing(c, h, now)
      case TimeWait => HandleTimeWait(c, h, now)
      case Closed => c
  }

  // ---- opening, closing, sending, reading, timers ----

  /** Our SYN, alone or with an acknowledgement, is sent and queued, or the slot given up. */
  function SendSyn(c: Conn, now: nat, sent: bool): Conn {
    var c1 := Announce(c);
    if sent then c1.(snd := Transmit(c1.snd, 1, TcpRetx.SynSegment, now))
    else Free(c1.(snd := c1.snd.(nxt := Add32(c1.snd.nxt, 1))))
  }

  function PassiveOpen(c: Conn, h: Header, iss: u32, now: nat, sent: bool): Conn {
    var mss := if h.mss < TcpCongestion.DEFAULT_MSS then h.mss else TcpCongestion.DEFAULT_MSS;
    SendSyn(c.(active := true, state := SynReceived, mssLocal := TcpCongestion.DEFAULT_MSS, mssEff := mss,
               rcv := c.rcv.(irs := h.seqNo, nxt := Add32(h.seqNo, 1), wnd := RX_SIZE),
               snd := c.snd.(iss := iss, una := iss, nxt := iss, wnd := h.window, wl1 := h.seqNo, wl2 := 0)), now, sent)
  }

  function ActiveOpen(c: Conn, iss: u32, now: nat, sent: bool): Conn {
    SendSyn(c.(active := true, state := SynSent, mssLocal := TcpCongestion.DEFAULT_MSS,
               mssEff := TcpCongestion.DEFAULT_MSS,
               rcv := c.rcv.(wnd := RX_SIZE), snd := c.snd.(iss := iss, una := iss, nxt := iss)), now, sent)
  }

  function Close(c: Conn, now: nat, sent: bool): Conn {
    if c.state != Established && c.state != CloseWait then c else
    var c1 := Announce(c.(state := if c.state == Established then FinWait1 else LastAck));
    if sent then c1.(snd := Transmit(c1.snd, 1, TcpRetx.FinSegment, now)) else c1
  }

  /** How far the send path may go: the smaller of the peer's window and ours. */
  function SendLimit(s: SendVars): u32 {
    if s.cc.cwnd < s.wnd then s.cc.cwnd else s.wnd
  }

  /** A send is possible while the flight is below the limit, and stays within it. */
  predicate CanSend(c: Conn, n: u32) {
    c.state == Established && Flight(c.snd) < SendLimit(c.snd) && 1 <= n <= SendLimit(c.snd) - Flight(c.snd)
  }

  function SendData(c: Conn, n: u32, now: nat, sent: bool): Conn {
    var c1 := Announce(c);
    if sent then c1.(snd := Transmit(c1.snd, n, TcpRetx.DataSegment, now)) else c1
  }

  function ReadLength(r: RecvVars, bufMax: nat): (n: nat)
    ensures n <= |r.rx|
  {
    var n := if |r.rx| > bufMax then bufMax else |r.rx|;
    if n > RECV_SCRATCH then RECV_SCRATCH else n
  }

  /** A read that finds no bytes reports end of stream in these states. */
  predicate ReportsEof(c: Conn) {
    c.active && c.rcv.rx == [] && (c.state == CloseWait || c.state == LastAck || c.state == Closed)
  }

  function EchoLength(r: RecvVars, mss: u16): (n: nat)
    ensures n <= |r.rx| && n < 0x1_0000
  {
    var limit := if mss == 0 || mss > ECHO_SCRATCH then ECHO_SCRATCH else mss;
    if |r.rx| < limit then |r.rx| else limit
  }

  /** The echo service's pass over one connection. */
  function Echo(c: Conn, sent: bool): Conn {
    if c.state == Established && c.rcv.rx != [] then
      var n := EchoLength(c.rcv, c.mssEff);
      var c1 := Announce(c.(rcv := Drain(c.rcv, n)));
      if sent then c1.(snd := c1.snd.(nxt := Add32(c1.snd.nxt, n))) else c1
    else if c.state == CloseWait && c.rcv.rx == [] then
      var c1 := Announce(c);
      if sent then c1.(snd := c1.snd.(nxt := Add32(c1.snd.nxt, 1)), state := LastAck) else c1
    else c
  }

  predicate RtoExpired(s: SendVars, now: nat) {
    s.rtoDeadline != 0 && now >= s.rtoDeadline
  }

  /** Bookkeeping of one retransmission of the oldest descriptor. */
  function Retransmit(s: SendVars, mss: u16, now: nat): SendVars
    requires s.retx != []
  {
    var h := s.retx[0];
    var rto := TcpRtt.BackOff(s.est.rto);
    s.(retx := [h.(xmitCount := (h.xmitCount + 1) % 256, sentTicks := now)] + s.retx[1..],
       xmitCountHead := s.xmitCountHead + 1,
       cc := if s.fastRetx then s.cc else TcpCongestion.OnRto(s.cc, mss, Flight(s)),
       fastRetx := false, est := s.est.(rto := rto), rtoDeadline := now + rto)
  }

  function RtoFire(c: Conn, now: nat): Conn {
    if !c.active || !RtoExpired(c.snd, now) then c
    else if c.snd.xmitCountHead >= MAX_RETRANSMITS then Free(c.(snd := c.snd.(rtoDeadline := 0, retx := [])))
    else if c.snd.retx == [] then c.(snd := c.snd.(rtoDeadline := 0))
    else
      var c1 := c.(snd := Retransmit(c.snd, c.mssEff, now));
      if c.snd.retx[0].control == TcpRetx.DataSegment then c1 else Announce(c1)
  }

  predicate TimeWaitOver(c: Conn, now: nat) {
    c.active && c.state == TimeWait && c.timeWaitDeadline != 0 && now >= c.timeWaitDeadline
  }

  /** One pass of the timer scanner over this connection. */
  function Scan(c: Conn, now: nat): Conn {
    if TimeWaitOver(c, now) then Free(RtoFire(c, now)) else RtoFire(c, now)
  }

  // ---- events ----

  /** `at` is the unbounded stream position the arriving segment was sent from: the first
      payload byte is byte number at of the peer's stream, and a SYN sits at -1. */
  datatype Event =
    | Arrive(h: Header, payload: Payload, at: int)
    | Read(bufMax: nat)
    | EchoPass(sent: bool)
    | CloseCall(sent: bool)
    | DataSend(n: u32, sent: bool)
    | TimerScan

  function Step(c: Conn, e: Event, now: nat): Conn {
    if !c.active then c else
    match e
    case Arrive(h, payload, _) => Dispatch(c, h, payload, now)
    case Read(bufMax) => c.(rcv := Drain(c.rcv, ReadLength(c.rcv, bufMax)))
    case EchoPass(sent) => Echo(c, sent)
    case CloseCall(sent) => Close(c, now, sent)
    case DataSend(n, sent) => if CanSend(c, n) then SendData(c, n, now, sent) else c
    case TimerScan => Scan(c, now)
  }

  /** A timed event sequence applied to a connection. */
  function Run(c: Conn, es: seq<(Event, nat)>): Conn {
    if es == [] then c else Step(Run(c, es[..|es| - 1]), es[|es| - 1].0, es[|es| - 1].1)
  }

  /** How a connection starts: on a slot never used before, passively or actively. */
  ghost predicate Opened(c: Conn, isn: u32) {
    || (exists h: Header, iss: u32, now: nat, sent: bool ::
          h.seqNo == isn && c == PassiveOpen(FRESH, h, iss, now, sent))
    || (exists iss: u32, now: nat, sent: bool :: c == ActiveOpen(FRESH, iss, now, sent))
  }
}
