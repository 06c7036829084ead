/** RFC 5681 congestion control in 32-bit arithmetic: slow start, congestion avoidance with a
    fractional accumulator, fast retransmit and the collapse on a timeout. */
module TcpCongestion {
  import opened SeqSpace

  const DEFAULT_MSS: u16 := 536
  const SSTHRESH_INIT: u32 := 0xFFFF_FFFF

  datatype Congestion = Congestion(cwnd: u32, ssthresh: u32, accum: u32, dupAcks: u8)

  function InitialWindow(mss: u16): u32 {
    if mss > 2190 then 2 * mss
    else if mss > 1095 then 3 * mss
    else 4 * mss
  }

  /** The segment size in force once a connection is established: never 0. */
  function EffectiveMss(mss: u16): u16 {
    if mss == 0 then DEFAULT_MSS else mss
  }

  function Init(mss: u16): Congestion {
    Congestion(InitialWindow(EffectiveMss(mss)), SSTHRESH_INIT, 0, 0)
  }

  /** Word multiplication and the avoidance increment. */
  function Increment(mss: u16, cwnd: u32): u32
    requires cwnd != 0
  {
    Wrap(mss * mss) / cwnd
  }

  function OnAck(c: Congestion, mss: u16, acked: u32): Congestion {
    if acked == 0 then c else
    var c1 := if c.cwnd == 0 then Init(mss) else c;
    var m := EffectiveMss(mss);
    assert c1.cwnd != 0;
    if c1.cwnd < c1.ssthresh then
      c1.(cwnd := Add32(c1.cwnd, if acked > m then m else acked))
    else
      var a := Add32(c1.accum, Increment(m, c1.cwnd));
      if a >= m then c1.(cwnd := Add32(c1.cwnd, m), accum := a - m)
      else c1.(accum := a)
  }

  /** Half the flight, but at least two segments. */
  function Halved(mss: u16, flight: u32): u32 {
    if flight / 2 < 2 * EffectiveMss(mss) then 2 * EffectiveMss(mss) else flight / 2
  }

  function OnDupAck(c: Congestion, mss: u16, flight: u32): Congestion {
    var d := (c.dupAcks + 1) % 256;
    if d != 3 then c.(dupAcks := d) else
    var s := Halved(mss, flight);
    Congestion(Add32(s, Wrap(3 * EffectiveMss(mss))), s, 0, d)
  }

  predicate FastRetransmits(c: Congestion) {
    (c.dupAcks + 1) % 256 == 3
  }

  function OnRto(c: Congestion, mss: u16, flight: u32): Congestion {
    Congestion(EffectiveMss(mss), Halved(mss, flight), 0, 0)
  }

  // ---- runs ----

  datatype Event = Acked(bytes: u32) | DupAck(flight: u32) | Timeout(flight: u32) | NewAckSeen

  function Step(c: Congestion, mss: u16, e: Event): Congestion {
    match e
    case Acked(b) => OnAck(c, mss, b)
    case DupAck(f) => OnDupAck(c, mss, f)
    case Timeout(f) => OnRto(c, mss, f)
    case NewAckSeen => c.(dupAcks := 0)
  }

  function Run(c: Congestion, mss: u16, es: seq<Event>): Congestion {
    if es == [] then c else Step(Run(c, mss, es[..|es| - 1]), mss, es[|es| - 1])
  }

  /** A loss event replaces the initial threshold. */
  predicate IsLoss(c: Congestion, e: Event) {
    e.Timeout? || (e.DupAck? && FastRetransmits(c))
  }

  predicate LossSeen(c: Congestion, mss: u16, es: seq<Event>) {
    es != [] && (LossSeen(c, mss, es[..|es| - 1]) || IsLoss(Run(c, mss, es[..|es| - 1]), es[|es| - 1]))
  }

  /** Bytes acknowledged before the first loss event. */
  function AckedBeforeLoss(c: Congestion, mss: u16, es: seq<Event>): nat {
    if es == [] then 0 else
    var before := AckedBeforeLoss(c, mss, es[..|es| - 1]);
    if LossSeen(c, mss, es[..|es| - 1]) || !es[|es| - 1].Acked? then before
    else before + es[|es| - 1].bytes
  }

  /** The bounds every reachable state keeps. */
  predicate Bounded(c: Congestion, mss: u16) {
    c.cwnd >= mss && c.accum < mss && c.ssthresh >= 2 * mss
  }

  /** No addition in this step passes 2^32. */
  predicate NoWrap(c: Congestion, mss: u16, e: Event) {
    match e
    case Acked(b) =>
      b == 0 || (if c.cwnd < c.ssthresh then c.cwnd + (if b > mss then mss else b) < MOD32
                 else c.cwnd != 0 && c.accum + mss * mss / c.cwnd < MOD32 &&
                      (c.accum + mss * mss / c.cwnd >= mss ==> c.cwnd + mss < MOD32))
    case DupAck(f) => Halved(mss, f) + 3 * mss < MOD32
    case Timeout(_) => true
    case NewAckSeen => true
  }

  lemma SquareBound(m: nat)
    requires 1 <= m < 0x1_0000
    ensures m * m + m < MOD32
  {
    calc {
      m * m;
      <= { MulMono(m, 0xFFFF, m); }
      0xFFFF * m;
    }
  }

  lemma MulMono(a: nat, b: nat, m: nat)
    requires a <= b
    ensures a * m <= b * m
  {
  }

  /** One avoidance increment: at most one segment, and none at all once the window has
      passed the square of the segment size. */
  lemma IncrementBound(m: u16, w: u32)
    requires 1 <= m <= w
    ensures Increment(m, w) == m * m / w <= m
    ensures Increment(m, w) > 0 ==> w <= m * m
    ensures w + m < MOD32 || Increment(m, w) == 0
  {
    SquareBound(m);
    WrapSmall(m * m);
    var q := m * m / w;
    QuotientBound(m * m, w);
    if q > m {
      MulMono(m + 1, q, w);
      MulMono(m, w, m + 1);
    }
    if q > 0 {
      MulMono(1, q, w);
    }
  }

  lemma QuotientBound(a: nat, w: nat)
    requires w > 0
    ensures (a / w) * w <= a
  {
    assert a == w * (a / w) + a % w;
  }

  /** Congestion avoidance: each acknowledgement raises window plus accumulator by exactly
      the truncated quotient, and nothing wraps, for every 16-bit segment size. */
  lemma AvoidanceIncrement(c: Congestion, mss: u16, acked: u32)
    requires 1 <= mss && Bounded(c, mss) && c.cwnd >= c.ssthresh && acked > 0
    ensures var c' := OnAck(c, mss, acked);
            && c'.cwnd + c'.accum == c.cwnd + c.accum + mss * mss / c.cwnd
            && c'.ssthresh == c.ssthresh && c'.dupAcks == c.dupAcks
            && Bounded(c', mss) && NoWrap(c, mss, Acked(acked))
            && c'.cwnd >= c.cwnd
  {
    IncrementBound(mss, c.cwnd);
  }

  /** A step from a bounded state, given that the first slow start has room left. */
  lemma StepBounded(c: Congestion, mss: u16, e: Event)
    requires 1 <= mss && Bounded(c, mss)
    requires c.ssthresh == SSTHRESH_INIT || c.ssthresh < HALF32
    requires c.ssthresh == SSTHRESH_INIT && e.Acked? ==> c.cwnd + e.bytes < MOD32
    ensures Bounded(Step(c, mss, e), mss) && NoWrap(c, mss, e)
    ensures IsLoss(c, e) ==> Step(c, mss, e).ssthresh < HALF32
    ensures !IsLoss(c, e) ==> Step(c, mss, e).ssthresh == c.ssthresh
    ensures !IsLoss(c, e) && c.ssthresh == SSTHRESH_INIT ==>
              Step(c, mss, e).cwnd <= c.cwnd + (if e.Acked? then e.bytes else 0)
  {
    if e.Acked? && e.bytes > 0 && c.cwnd >= c.ssthresh {
      AvoidanceIncrement(c, mss, e.bytes);
    }
  }

  /** In every run from a fresh window in which fewer than 2^32 - 2^17 bytes are acknowledged
      before the first loss, the bounds hold and no addition ever wraps. */
  lemma {:induction false} RunBounded(mss0: u16, es: seq<Event>, e: Event)
    requires AckedBeforeLoss(Init(mss0), EffectiveMss(mss0), es + [e]) < MOD32 - 0x2_0000
    ensures var m := EffectiveMss(mss0); var c := Run(Init(mss0), m, es);
            && Bounded(c, m)
            && NoWrap(c, m, e)
            && (if LossSeen(Init(mss0), m, es) then c.ssthresh < HALF32 else
                c.ssthresh == SSTHRESH_INIT &&
                c.cwnd <= InitialWindow(m) + AckedBeforeLoss(Init(mss0), m, es))
    decreases |es|
  {
    hide OnAck, OnDupAck, OnRto, NoWrap;
    var m := EffectiveMss(mss0);
    var c0 := Init(mss0);
    assert (es + [e])[..|es|] == es;
    if es == [] {
      StepBounded(c0, m, e);
    } else {
      var pre, last := es[..|es| - 1], es[|es| - 1];
      assert es == pre + [last];
      AckedMonotone(c0, m, es, e);
      RunBounded(mss0, pre, last);
      var c1 := Run(c0, m, pre);
      StepBounded(c1, m, last);
      StepBounded(Run(c0, m, es), m, e);
    }
  }

  lemma AckedMonotone(c: Congestion, mss: u16, es: seq<Event>, e: Event)
    ensures AckedBeforeLoss(c, mss, es) <= AckedBeforeLoss(c, mss, es + [e])
  {
    assert (es + [e])[..|es|] == es;
  }

  // ---- exactly when the bounds hold ----

  /** The one addition that can pass 2^32: a slow-start increment. */
  predicate SlowStartOverflows(c: Congestion, mss: u16, e: Event) {
    e.Acked? && c.cwnd < c.ssthresh && c.cwnd + Credit(mss, e.bytes) >= MOD32
  }

  function Credit(mss: u16, acked: u32): u16 {
    if acked > mss then mss else acked
  }

  /** From a bounded state a step leads to a bounded state exactly when nothing wraps, and
      that fails only where slow start overflows. */
  lemma StepBoundedIff(c: Congestion, mss: u16, e: Event)
    requires 1 <= mss && Bounded(c, mss)
    ensures Bounded(Step(c, mss, e), mss) <==> !SlowStartOverflows(c, mss, e)
    ensures NoWrap(c, mss, e) <==> !SlowStartOverflows(c, mss, e)
  {
    if e.Acked? && e.bytes > 0 && c.cwnd >= c.ssthresh {
      AvoidanceIncrement(c, mss, e.bytes);
    }
  }

  predicate AlwaysBounded(c: Congestion, mss: u16, es: seq<Event>) {
    forall k :: 0 <= k <= |es| ==> Bounded(Run(c, mss, es[..k]), mss)
  }

  predicate NeverWraps(c: Congestion, mss: u16, es: seq<Event>) {
    forall k :: 0 <= k < |es| ==> NoWrap(Run(c, mss, es[..k]), mss, es[k])
  }

  /** Over runs from any bounded state: the bounds hold throughout exactly when no step wraps. */
  lemma {:induction false} BoundedIffNoWrap(c: Congestion, mss: u16, es: seq<Event>)
    requires 1 <= mss && Bounded(c, mss)
    ensures AlwaysBounded(c, mss, es) <==> NeverWraps(c, mss, es)
    decreases |es|
  {
    hide Step, Bounded, NoWrap;
    if es != [] {
      var n := |es| - 1;
      var pre := es[..n];
      assert forall k :: 0 <= k <= n ==> pre[..k] == es[..k];
      BoundedIffNoWrap(c, mss, pre);
      assert pre[..n] == pre && es[..n + 1] == es;
      if AlwaysBounded(c, mss, pre) {
        StepBoundedIff(Run(c, mss, pre), mss, es[n]);
      }
    }
  }

  /** The window the first slow start reaches, in unbounded integers: each acknowledgement before
      the first loss adds its bytes, at most one segment, until the initial threshold is met. */
  function Grown(mss: u16, es: seq<Event>): nat {
    if es == [] then InitialWindow(mss) else
    var w := Grown(mss, es[..|es| - 1]);
    var e := es[|es| - 1];
    if LossSeen(Init(mss), mss, es[..|es| - 1]) || !e.Acked? || w >= SSTHRESH_INIT then w
    else w + Credit(mss, e.bytes)
  }

  /** While the first slow start lasts the window is that number; a loss ends it for good. */
  ghost predicate Tracked(c: Congestion, mss: u16, es: seq<Event>) {
    && Bounded(c, mss)
    && (if LossSeen(Init(mss), mss, es) then c.ssthresh < HALF32
        else c.ssthresh == SSTHRESH_INIT && c.cwnd == Grown(mss, es))
  }

  /** At the initial threshold the avoidance increment is 0. */
  lemma ParkedAtThreshold(c: Congestion, mss: u16, e: Event)
    requires 1 <= mss && Bounded(c, mss) && c.cwnd == c.ssthresh == SSTHRESH_INIT
    requires e.Acked?
    ensures Step(c, mss, e) == c
  {
    IncrementBound(mss, c.cwnd);
  }

  lemma TrackedStep(mss: u16, es: seq<Event>)
    requires 1 <= mss && es != [] && Grown(mss, es) < MOD32
    requires Tracked(Run(Init(mss), mss, es[..|es| - 1]), mss, es[..|es| - 1])
    ensures Tracked(Run(Init(mss), mss, es), mss, es)
  {
    hide LossSeen, AckedBeforeLoss;
    var pre, e := es[..|es| - 1], es[|es| - 1];
    var c := Run(Init(mss), mss, pre);
    assert LossSeen(Init(mss), mss, es) <==> LossSeen(Init(mss), mss, pre) || IsLoss(c, e) by {
      LossStep(Init(mss), mss, es);
    }
    StepBoundedIff(c, mss, e);
    if e.Acked? && c.cwnd == c.ssthresh == SSTHRESH_INIT {
      ParkedAtThreshold(c, mss, e);
    }
  }

  lemma LossStep(c: Congestion, mss: u16, es: seq<Event>)
    requires es != []
    ensures LossSeen(c, mss, es)
            <==> LossSeen(c, mss, es[..|es| - 1]) || IsLoss(Run(c, mss, es[..|es| - 1]), es[|es| - 1])
  {
  }

  /** Exactly when the bounds hold over a run from a fresh window: the first slow start, added up
      in unbounded integers, stays below 2^32. The sum is over the events alone. */
  lemma {:induction false} RunBoundedIff(mss: u16, es: seq<Event>)
    requires 1 <= mss
    ensures AlwaysBounded(Init(mss), mss, es) <==> Grown(mss, es) < MOD32
    ensures Grown(mss, es) < MOD32 ==> Tracked(Run(Init(mss), mss, es), mss, es)
    decreases |es|
  {
    hide Step, Bounded, Tracked, LossSeen;
    if es == [] {
      FreshTracked(mss);
      assert es[..0] == [];
    } else {
      var n := |es| - 1;
      var pre := es[..n];
      RunBoundedIff(mss, pre);
      assert forall k :: 0 <= k <= n ==> pre[..k] == es[..k];
      assert es[..n + 1] == es;
      if Grown(mss, es) < MOD32 {
        TrackedStep(mss, es);
        TrackedBounded(Run(Init(mss), mss, es), mss, es);
      } else if Grown(mss, pre) < MOD32 {
        Overflows(mss, es);
      }
    }
  }

  lemma FreshTracked(mss: u16)
    requires 1 <= mss
    ensures Tracked(Init(mss), mss, []) && Bounded(Init(mss), mss) && Grown(mss, []) < MOD32
  {
  }

  lemma TrackedBounded(c: Congestion, mss: u16, es: seq<Event>)
    requires Tracked(c, mss, es)
    ensures Bounded(c, mss)
  {
  }

  lemma Overflows(mss: u16, es: seq<Event>)
    requires 1 <= mss && es != [] && Grown(mss, es[..|es| - 1]) < MOD32 <= Grown(mss, es)
    requires Tracked(Run(Init(mss), mss, es[..|es| - 1]), mss, es[..|es| - 1])
    ensures !Bounded(Run(Init(mss), mss, es), mss)
  {
    hide LossSeen;
    StepBoundedIff(Run(Init(mss), mss, es[..|es| - 1]), mss, es[|es| - 1]);
  }

  /** A loss-free run of full-segment acknowledgements at the default segment size. */
  function FullAcks(n: nat): seq<Event> {
    seq(n, _ => Acked(536))
  }

  lemma {:induction false} SlowStartRun(n: nat)
    requires 2144 + 536 * n < MOD32 - 1
    ensures Run(Init(536), 536, FullAcks(n)) == Congestion(2144 + 536 * n, SSTHRESH_INIT, 0, 0)
  {
    if n > 0 {
      SlowStartRun(n - 1);
      assert FullAcks(n)[..n - 1] == FullAcks(n - 1);
    }
  }

  /** Without that proviso slow start does wrap: one acknowledgement more and the window falls
      below one segment. */
  lemma SlowStartWraps()
    ensures var es := FullAcks(8_012_995);
            Run(Init(536), 536, es).cwnd == 168 && !Bounded(Run(Init(536), 536, es), 536)
  {
    SlowStartRun(8_012_994);
    assert FullAcks(8_012_995)[..8_012_994] == FullAcks(8_012_994);
  }
}
