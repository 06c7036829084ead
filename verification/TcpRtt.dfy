/** The RFC 6298 round-trip estimator in scaled 32-bit integers, and the retransmission
    back-off. Samples and timeouts are in clock ticks. */
module TcpRtt {
  import opened SeqSpace

  const RTO_MIN: u32 := 100
  const RTO_MAX: u32 := 6000
  const RTO_INIT: u32 := 100
  const SAMPLE_LIMIT: int := 0x1000_0000

  /** srtt is the smoothed time scaled by 8, rttvar the variation scaled by 4. */
  datatype Estimator = Estimator(srtt: u32, rttvar: u32, ready: bool, rto: u32)

  const FRESH: Estimator := Estimator(0, 0, false, 0)

  function ClampRto(v: u32): u32 {
    if v < RTO_MIN then RTO_MIN else if v > RTO_MAX then RTO_MAX else v
  }

  function RawRto(srtt: u32, rttvar: u32): u32 {
    Add32(srtt / 8, if rttvar < 1 then 1 else rttvar)
  }

  /** A round trip counts as at least one tick. */
  function AtLeastOne(r: u32): u32 {
    if r == 0 then 1 else r
  }

  function Init(r0: u32): Estimator {
    var r := AtLeastOne(r0);
    var srtt := Wrap(r * 8);
    var v := Wrap((r / 2) * 4);
    var rttvar := if v == 0 then 4 else v;
    Estimator(srtt, rttvar, true, ClampRto(RawRto(srtt, rttvar)))
  }

  function Update(e: Estimator, r0: u32): Estimator {
    if !e.ready then Init(r0) else
    var r := AtLeastOne(r0);
    var s := e.srtt / 8;
    var delta := if s > r then s - r else r - s;
    var rttvar := Add32(Wrap(3 * (e.rttvar / 4)), delta);
    var srtt := Add32(Wrap(7 * (e.srtt / 8)), r);
    Estimator(srtt, rttvar, true, ClampRto(RawRto(srtt, rttvar)))
  }

  /** The glue to the acknowledgement path: Karn's rule, and no sample within one tick. */
  function Sample(e: Estimator, now: nat, oldestSent: nat, anyPristine: bool): Estimator {
    if !anyPristine || now <= oldestSent then e else Update(e, Wrap(now - oldestSent))
  }

  // ---- runs of samples ----

  function Run(samples: seq<u32>): Estimator {
    if samples == [] then FRESH else Update(Run(samples[..|samples| - 1]), samples[|samples| - 1])
  }

  predicate AllWithin(samples: seq<u32>, lo: nat, hi: nat) {
    forall i :: 0 <= i < |samples| ==> lo <= AtLeastOne(samples[i]) <= hi
  }

  /** The same recurrences over unbounded integers. */
  ghost predicate ExactUpdate(e: Estimator, r0: u32, e': Estimator) {
    var r := AtLeastOne(r0);
    if !e.ready then
      && e'.srtt == 8 * r
      && e'.rttvar == (if (r / 2) * 4 == 0 then 4 else (r / 2) * 4)
    else
      && e'.srtt == 7 * (e.srtt / 8) + r
      && e'.rttvar == 3 * (e.rttvar / 4) + (if e.srtt / 8 > r then e.srtt / 8 - r else r - e.srtt / 8)
  }

  /** The clamped timeout, its sum in unbounded integers. */
  ghost predicate ExactRto(e: Estimator) {
    var raw := e.srtt / 8 + (if e.rttvar < 1 then 1 else e.rttvar);
    e.rto == if raw < RTO_MIN then RTO_MIN else if raw > RTO_MAX then RTO_MAX else raw
  }

  /** Below the sample limit no 32-bit operation of an update overflows, the timeout's sum
      included. */
  lemma UpdateExact(e: Estimator, r: u32)
    requires r < SAMPLE_LIMIT
    requires e.ready ==> e.srtt / 8 < SAMPLE_LIMIT && e.rttvar <= 4 * SAMPLE_LIMIT
    ensures ExactUpdate(e, r, Update(e, r))
    ensures Update(e, r).ready && Update(e, r).rttvar <= 4 * SAMPLE_LIMIT
    ensures ExactRto(Update(e, r))
  {
    var m: int := AtLeastOne(r);
    if !e.ready {
      WrapSmall(m * 8);
      WrapSmall((m / 2) * 4);
    } else {
      WrapSmall(7 * (e.srtt / 8));
      WrapSmall(3 * (e.rttvar / 4));
    }
  }

  lemma WeightedMean(s: int, r: int, lo: int, hi: int)
    requires lo <= s <= hi && lo <= r <= hi
    ensures lo <= (7 * s + r) / 8 <= hi
  {
  }

  ghost predicate Sound(e: Estimator, lo: nat, hi: nat) {
    && e.ready
    && lo <= e.srtt / 8 <= hi
    && e.rttvar <= 4 * SAMPLE_LIMIT
    && RTO_MIN <= e.rto <= RTO_MAX
    && ExactRto(e)
  }

  /** For every sequence of samples below 2^28: the smoothed time lies between the smallest
      and the largest sample, the timeout lies in 100..6000, and the last step computed
      exactly what unbounded integers would. */
  lemma {:induction false} RunBounded(samples: seq<u32>, lo: nat, hi: nat)
    requires samples != [] && AllWithin(samples, lo, hi) && hi < SAMPLE_LIMIT
    ensures Sound(Run(samples), lo, hi)
    ensures ExactUpdate(Run(samples[..|samples| - 1]), samples[|samples| - 1], Run(samples))
  {
    hide Update;
    var pre, r := samples[..|samples| - 1], samples[|samples| - 1];
    if pre == [] {
      UpdateExact(FRESH, r);
    } else {
      RunBounded(pre, lo, hi);
      UpdateExact(Run(pre), r);
      WeightedMean(Run(pre).srtt / 8, AtLeastOne(r), lo, hi);
    }
  }

  /** Repeated application of one constant sample. */
  function Repeat(e: Estimator, r: u32, n: nat): Estimator {
    if n == 0 then e else Update(Repeat(e, r, n - 1), r)
  }

  function Distance(s: int, r: int): nat {
    if s < r then r - s else s - r
  }

  /** One constant-sample step on the smoothed time alone. */
  lemma ConstantStep(s: int, r: int)
    ensures var s' := (7 * s + r) / 8;
            && (s > r ==> r <= s' < s)
            && (r - 7 <= s <= r ==> s' == s)
            && (s < r - 7 ==> s < s' <= r)
  {
  }

  /** Under a constant sample r the smoothed time reaches [r - 7, r] within as many steps as
      its distance from r, and never leaves it again. */
  lemma {:induction false} Converges(e: Estimator, r: u32, n: nat)
    requires 1 <= r < SAMPLE_LIMIT
    requires e.ready && e.srtt / 8 < SAMPLE_LIMIT && e.rttvar <= 4 * SAMPLE_LIMIT
    ensures var f := Repeat(e, r, n); var s := f.srtt / 8;
            && f.ready && s < SAMPLE_LIMIT && f.rttvar <= 4 * SAMPLE_LIMIT
            && (r - 7 <= s <= r || Distance(s, r) + n <= Distance(e.srtt / 8, r))
    ensures n >= Distance(e.srtt / 8, r) ==> r - 7 <= Repeat(e, r, n).srtt / 8 <= r
  {
    if n > 0 {
      Converges(e, r, n - 1);
      var p := Repeat(e, r, n - 1);
      UpdateExact(p, r);
      ConstantStep(p.srtt / 8, r);
    }
  }

  /** Inside the band nothing moves any more, so the band cannot be narrowed: every value in
      it is where some run comes to rest. */
  lemma {:induction false} RestsInBand(e: Estimator, r: u32, n: nat)
    requires 1 <= r < SAMPLE_LIMIT
    requires e.ready && e.rttvar <= 4 * SAMPLE_LIMIT && r - 7 <= e.srtt / 8 <= r
    ensures var f := Repeat(e, r, n);
            f.ready && f.rttvar <= 4 * SAMPLE_LIMIT && f.srtt / 8 == e.srtt / 8
  {
    if n > 0 {
      RestsInBand(e, r, n - 1);
      var p := Repeat(e, r, n - 1);
      UpdateExact(p, r);
      ConstantStep(p.srtt / 8, r);
    }
  }

  // ---- back-off ----

  /** The timeout after an expiry: doubled and capped. */
  function BackOff(rto: u32): u32 {
    var d := Wrap(rto * 2);
    if d > RTO_MAX then RTO_MAX else d
  }

  function BackOffs(rto: u32, k: nat): u32 {
    if k == 0 then rto else BackOff(BackOffs(rto, k - 1))
  }

  function Pow2(k: nat): (p: nat)
    ensures p >= 1
  {
    if k == 0 then 1 else 2 * Pow2(k - 1)
  }

  /** The k-th back-off is the capped power-of-two multiple of the starting timeout. */
  lemma {:induction false} BackOffIsPower(rto: u32, k: nat)
    requires 1 <= rto <= RTO_MAX
    ensures BackOffs(rto, k) == if Pow2(k) * rto > RTO_MAX then RTO_MAX else Pow2(k) * rto
  {
    if k > 0 {
      hide BackOff;
      BackOffIsPower(rto, k - 1);
      Doubling(Pow2(k - 1), rto);
      BackOffDoubles(BackOffs(rto, k - 1));
    }
  }

  lemma Doubling(p: nat, r: nat)
    ensures (2 * p) * r == 2 * (p * r)
    ensures p >= 1 ==> p * r >= r
  {
  }

  lemma BackOffDoubles(rto: u32)
    requires rto <= RTO_MAX
    ensures BackOff(rto) == if 2 * rto > RTO_MAX then RTO_MAX else 2 * rto
  {
    WrapSmall(rto * 2);
  }
}
