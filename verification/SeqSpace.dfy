/** 32-bit sequence numbers and the two signed-subtraction tests used by the TCP engine.
    The circle tests are related to unbounded stream positions, so that every later
    proof can speak about positions and never about wrap-around. */
module SeqSpace {

  const MOD32: int := 0x1_0000_0000
  const HALF32: int := 0x8000_0000

  type u32 = x: int | 0 <= x < 0x1_0000_0000
  type u16 = x: int | 0 <= x < 0x1_0000
  type u8 = x: int | 0 <= x < 0x100

  /** Unsigned addition and subtraction of two 32-bit words. */
  function Add32(a: u32, b: u32): u32 {
    if a + b < MOD32 then a + b else a + b - MOD32
  }

  function Sub32(a: u32, b: u32): u32 {
    if b <= a then a - b else a - b + MOD32
  }

  /** The two's-complement reading of a 32-bit word. */
  function AsInt32(x: u32): int {
    if x < HALF32 then x else x - MOD32
  }

  predicate SeqLT(a: u32, b: u32) {
    AsInt32(Sub32(a, b)) < 0
  }

  predicate SeqLE(a: u32, b: u32) {
    AsInt32(Sub32(a, b)) <= 0
  }

  /** The pair of tests guarding an acknowledgement number. */
  predicate AckInWindow(una: u32, ack: u32, nxt: u32) {
    SeqLE(una, ack) && SeqLE(ack, nxt)
  }

  /** The pair of tests guarding a reset. */
  predicate ResetInWindow(rcvNxt: u32, rcvWnd: u32, s: u32) {
    SeqLE(rcvNxt, s) && SeqLT(s, Add32(Add32(rcvNxt, rcvWnd), 1))
  }

  /** What the acknowledgement tests accept, for every flight size, as distances from una. */
  lemma AckTestMeaning(una: u32, ack: u32, nxt: u32)
    ensures var d, f := Sub32(ack, una), Sub32(nxt, una);
            AckInWindow(una, ack, nxt) <==> d <= HALF32 && (d == f || Sub32(d, f) >= HALF32)
  {
  }

  /** For a flight of 1..2^31 bytes the tests accept exactly the arc from una to nxt. With
      nothing in flight they accept una itself and the one value half a turn away. */
  lemma AckTestIsArc(una: u32, ack: u32, nxt: u32)
    ensures var d, f := Sub32(ack, una), Sub32(nxt, una);
            && (1 <= f <= HALF32 ==> (AckInWindow(una, ack, nxt) <==> d <= f))
            && (f == 0 ==> (AckInWindow(una, ack, nxt) <==> d == 0 || d == HALF32))
  {
    AckTestMeaning(una, ack, nxt);
  }

  /** The flight sizes 1..2^31 are the only ones for which the tests are the arc. */
  lemma AckTestIsArcExactly(una: u32, nxt: u32)
    ensures (forall ack: u32 :: AckInWindow(una, ack, nxt) <==> Sub32(ack, una) <= Sub32(nxt, una))
            <==> 1 <= Sub32(nxt, una) <= HALF32
  {
    var f := Sub32(nxt, una);
    if 1 <= f <= HALF32 {
      forall ack: u32
        ensures AckInWindow(una, ack, nxt) <==> Sub32(ack, una) <= f
      {
        AckTestIsArc(una, ack, nxt);
      }
    } else if f == 0 {
      var far := Add32(una, HALF32);
      assert AckInWindow(una, far, nxt) && Sub32(far, una) == HALF32;
    } else {
      assert !AckInWindow(una, una, nxt) && Sub32(una, una) == 0;
    }
  }

  /** A reset is accepted exactly at the rcvWnd + 1 positions starting at rcvNxt. */
  lemma ResetTestIsWindow(rcvNxt: u32, rcvWnd: u32, s: u32)
    requires rcvWnd < HALF32
    ensures ResetInWindow(rcvNxt, rcvWnd, s) <==> Sub32(s, rcvNxt) <= rcvWnd
  {
  }

  // ---- unbounded positions ----

  /** The low 32 bits of an unbounded position. */
  function Wrap(x: int): u32 {
    x % MOD32
  }

  lemma WrapSmall(x: int)
    requires 0 <= x < MOD32
    ensures Wrap(x) == x
  {
  }

  /** Two positions less than one full turn apart share a wrapped value only when equal. */
  lemma WrapInjective(x: int, y: int)
    requires -MOD32 < x - y < MOD32
    ensures Wrap(x) == Wrap(y) <==> x == y
  {
  }

  /** Word arithmetic on wrapped positions is arithmetic on the positions. */
  lemma WrapAdd(x: int, y: u32)
    ensures Add32(Wrap(x), y) == Wrap(x + y)
  {
  }

  lemma WrapSub(x: int, y: int)
    ensures Sub32(Wrap(x), Wrap(y)) == Wrap(x - y)
  {
    var q, r := x / MOD32, y / MOD32;
    assert x - y == MOD32 * (q - r) + (Wrap(x) - Wrap(y));
    WrapShift(Wrap(x) - Wrap(y), q - r);
  }

  lemma WrapShift(x: int, k: int)
    ensures Wrap(x + MOD32 * k) == Wrap(x)
  {
    assert x + MOD32 * k == MOD32 * (x / MOD32 + k) + Wrap(x);
  }

  /** The signed test on wrapped positions is the comparison of the positions, as long as
      they are less than half a turn apart; at exactly half a turn "<" claims both. */
  lemma SeqOrder(x: int, y: int)
    requires -HALF32 <= x - y <= HALF32
    ensures SeqLE(Wrap(x), Wrap(y)) <==> x <= y || x - y == HALF32
    ensures SeqLT(Wrap(x), Wrap(y)) <==> x < y || x - y == HALF32
  {
    WrapSub(x, y);
  }
}
