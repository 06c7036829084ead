/** What Tiny C programs compute: the operators as laws over the integers, scopes, elements and
    printing, and whole programs with loops, branches, calls and returns proved against what they
    should return, for all inputs (user/cmd/tinyc/eval.go:118-358). No operator function of the
    evaluator is named in a statement. */
module TinyCLaws {
  import opened TinyCAst
  import opened TinyCEval
  import opened TinyCSemantics

  predicate InRange(x: int) {
    -0x8000_0000_0000_0000 <= x < 0x8000_0000_0000_0000
  }

  /** v is what a 64-bit register holds of x. */
  predicate Low64(v: int, x: int) {
    InRange(v) && (x - v) % 0x1_0000_0000_0000_0000 == 0
  }

  // ---- operators ----

  /** The operands give x and then y, in that order. */
  ghost predicate Operands(fs: Funcs, a: Expr, b: Expr, w: World, depth: int, fuel: nat, x: int, y: int, w2: World) {
    && fuel > 0 && Evaluate(fs, a, w, depth, fuel - 1).Value? && Evaluate(fs, a, w, depth, fuel - 1).v == x
    && Evaluate(fs, b, Evaluate(fs, a, w, depth, fuel - 1).w, depth, fuel - 1) == Value(y, w2)
  }

  lemma BinStep(fs: Funcs, op: Op, a: Expr, b: Expr, w: World, depth: int, fuel: nat, x: int, y: int, w2: World)
    requires Operands(fs, a, b, w, depth, fuel, x, y, w2)
    ensures Evaluate(fs, Bin(op, a, b), w, depth, fuel) ==
            if Binary(op, x, y).Some? then Value(Binary(op, x, y).value, w2)
            else Ended(Complain(w2, ZeroMessage(op)))
  {
    hide Binary;
  }

  /** Comparisons are 0 or 1 and mean what the integers say: x < y exactly if y - x is positive,
      and so on. */
  lemma ComparisonLaws(fs: Funcs, a: Expr, b: Expr, w: World, depth: int, fuel: nat, x: int, y: int, w2: World)
    requires Operands(fs, a, b, w, depth, fuel, x, y, w2)
    ensures Evaluate(fs, Bin(Lt, a, b), w, depth, fuel) == Value(if y - x > 0 then 1 else 0, w2)
    ensures Evaluate(fs, Bin(Gt, a, b), w, depth, fuel) == Value(if x - y > 0 then 1 else 0, w2)
    ensures Evaluate(fs, Bin(EqEq, a, b), w, depth, fuel) == Value(if x - y == 0 then 1 else 0, w2)
    ensures Evaluate(fs, Bin(Le, a, b), w, depth, fuel) == Value(if x - y > 0 then 0 else 1, w2)
    ensures Evaluate(fs, Bin(Ge, a, b), w, depth, fuel) == Value(if y - x > 0 then 0 else 1, w2)
    ensures Evaluate(fs, Bin(Neq, a, b), w, depth, fuel) == Value(if x - y == 0 then 0 else 1, w2)
  {
    hide Evaluate, Operands;
    BinStep(fs, Lt, a, b, w, depth, fuel, x, y, w2);
    BinStep(fs, Gt, a, b, w, depth, fuel, x, y, w2);
    BinStep(fs, EqEq, a, b, w, depth, fuel, x, y, w2);
    BinStep(fs, Le, a, b, w, depth, fuel, x, y, w2);
    BinStep(fs, Ge, a, b, w, depth, fuel, x, y, w2);
    BinStep(fs, Neq, a, b, w, depth, fuel, x, y, w2);
  }

  /** Sums, differences, products and negation are the integer results in 64 bits. */
  lemma ArithmeticLaws(fs: Funcs, a: Expr, b: Expr, w: World, depth: int, fuel: nat, x: int, y: int, w2: World)
    requires Operands(fs, a, b, w, depth, fuel, x, y, w2)
    ensures var r := Evaluate(fs, Bin(Plus, a, b), w, depth, fuel); r.Value? && r.w == w2 && Low64(r.v, x + y)
    ensures var r := Evaluate(fs, Bin(Minus, a, b), w, depth, fuel); r.Value? && r.w == w2 && Low64(r.v, x - y)
    ensures var r := Evaluate(fs, Bin(Star, a, b), w, depth, fuel); r.Value? && r.w == w2 && Low64(r.v, x * y)
    ensures var r := Evaluate(fs, Neg(a), w, depth, fuel); r.Value? && Low64(r.v, -x)
  {
    NegStep(fs, a, w, depth, fuel, x);
    hide Evaluate, Operands, Wrap64;
    BinStep(fs, Plus, a, b, w, depth, fuel, x, y, w2);
    BinStep(fs, Minus, a, b, w, depth, fuel, x, y, w2);
    BinStep(fs, Star, a, b, w, depth, fuel, x, y, w2);
    WrapMeaning(x + y);
    WrapMeaning(x - y);
    WrapMeaning(x * y);
    WrapMeaning(-x);
  }

  lemma NegStep(fs: Funcs, a: Expr, w: World, depth: int, fuel: nat, x: int)
    requires fuel > 0 && Evaluate(fs, a, w, depth, fuel - 1).Value? && Evaluate(fs, a, w, depth, fuel - 1).v == x
    ensures var r := Evaluate(fs, Neg(a), w, depth, fuel); r.Value? && r.v == Wrap64(-x)
  {
  }

  /** Division truncates: quotient and remainder recompose the dividend, the remainder is smaller
      than the divisor and has the dividend's sign. The one quotient that does not fit, -2^63 by
      -1, wraps to the dividend. By zero the program ends with its message. */
  lemma DivisionLaws(fs: Funcs, a: Expr, b: Expr, w: World, depth: int, fuel: nat, x: int, y: int, w2: World)
    requires Operands(fs, a, b, w, depth, fuel, x, y, w2) && InRange(x) && InRange(y)
    ensures y != 0 ==>
              var q := Evaluate(fs, Bin(Slash, a, b), w, depth, fuel);
              var r := Evaluate(fs, Bin(Percent, a, b), w, depth, fuel);
              && q.Value? && r.Value? && q.w == w2 && r.w == w2
              && (if x == -0x8000_0000_0000_0000 && y == -1 then q.v == x && r.v == 0
                  else x == y * q.v + r.v)
              && (y > 0 ==> -y < r.v < y) && (y < 0 ==> y < r.v < -y) && (x >= 0 ==> r.v >= 0) && (x <= 0 ==> r.v <= 0)
    ensures y == 0 ==>
              && Evaluate(fs, Bin(Slash, a, b), w, depth, fuel)
                 == Ended(w2.(out := w2.out + "tinyc: error: " + "division by zero" + "\n"))
              && Evaluate(fs, Bin(Percent, a, b), w, depth, fuel)
                 == Ended(w2.(out := w2.out + "tinyc: error: " + "modulo by zero" + "\n"))
  {
    hide Evaluate, Operands, Quotient, Remainder, Wrap64;
    BinStep(fs, Slash, a, b, w, depth, fuel, x, y, w2);
    BinStep(fs, Percent, a, b, w, depth, fuel, x, y, w2);
    if y != 0 {
      DivisionTruncates(x, y);
      QuotientRange(x, y);
      WrapMeaning(Quotient(x, y));
      WrapMeaning(Remainder(x, y));
    } else {
      ErrorLine(w2, "division by zero");
      ErrorLine(w2, "modulo by zero");
    }
  }

  lemma ErrorLine(w: World, msg: string)
    ensures Complain(w, msg) == w.(out := w.out + "tinyc: error: " + msg + "\n")
  {
    assert w.out + ("tinyc: error: " + msg + "\n") == w.out + "tinyc: error: " + msg + "\n";
  }

  /** Only -2^63 / -1 leaves the range. */
  lemma QuotientRange(x: int, y: int)
    requires InRange(x) && InRange(y) && y != 0
    ensures if x == -0x8000_0000_0000_0000 && y == -1
            then Quotient(x, y) == 0x8000_0000_0000_0000 && Remainder(x, y) == 0
            else InRange(Quotient(x, y))
    ensures InRange(Remainder(x, y))
    ensures Wrap64(0x8000_0000_0000_0000) == -0x8000_0000_0000_0000
  {
    DivisionTruncates(x, y);
    ShrinksBy(Abs(x), Abs(y));
  }

  lemma ShrinksBy(n: nat, d: nat)
    requires d > 0
    ensures n / d <= n && (d >= 2 && n >= 1 ==> n / d < n) && (d == 1 ==> n / d == n)
  {
    var q := n / d;
    assert n == d * q + n % d;
    if d >= 2 && q >= 1 {
      assert d * q >= 2 * q;
    }
  }

  // ---- scopes and elements ----

  /** A declaration hides the global of that name and no other; an assignment to a name no scope
      knows makes it in the current one. */
  lemma DeclareThenLookup(w: World, x: Name, v: int, y: Name)
    ensures var w' := DeclareVar(w, x, v);
            && LookupVar(w', x) == Some(v) && (y != x ==> LookupVar(w', y) == LookupVar(w, y))
            && (w.local.Some? ==> w'.globals == w.globals)
            && w'.store == w.store && w'.out == w.out && LookupArray(w', y) == LookupArray(w, y)
  {
  }

  /** Elements: a store inside the bounds changes that element alone and gives the value stored, a
      load gives the element, and outside the bounds both end the program. */
  lemma ElementLaws(w: World, a: Name, id: nat, k: int, v: int)
    requires LookupArray(w, a) == Some(id) && id < |w.store|
    ensures 0 <= k < |w.store[id]| ==>
              && Update(w, a, k, v) == Value(v, w.(store := w.store[id := w.store[id][k := v]]))
              && Select(w, a, id, k) == Value(w.store[id][k], w)
    ensures !(0 <= k < |w.store[id]|) ==> Update(w, a, k, v).Ended? && Select(w, a, id, k).Ended?
  {
  }

  // ---- printing ----

  /** A decimal number: digits only, no leading zero. */
  predicate Decimal(s: string) {
    && s != "" && (forall i :: 0 <= i < |s| ==> '0' <= s[i] <= '9') && (|s| > 1 ==> s[0] != '0')
  }

  lemma {:induction false} DigitsDecimal(n: nat)
    ensures Decimal(Digits(n)) && (n > 0 ==> Digits(n)[0] != '0')
    decreases n
  {
    if n >= 10 {
      DigitsDecimal(n / 10);
    }
  }

  /** println("%d", e) writes e's value in decimal, with a minus sign if negative, and a newline. */
  lemma PrintsDecimal(fs: Funcs, e: Expr, w: World, depth: int, fuel: nat, v: int, w1: World) returns (digits: string)
    requires fuel >= 3 && Evaluate(fs, e, w, depth, fuel - 2) == Value(v, w1)
    ensures Decimal(digits) && ValueOf(digits) == (if v < 0 then -v else v)
    ensures Execute(fs, PrintStmt("%d", [e]), w, depth, fuel) ==
            Normal(w1.(out := w1.out + ((if v < 0 then "-" else "") + digits + "\n")))
  {
    digits := Digits(Abs(v));
    DigitsDecimal(Abs(v));
    DigitsValue(Abs(v));
    hide Evaluate, Digits, ValueOf, Decimal;
    var f := "%d";
    assert Two(f, 0, '%', 'd');
    assert Format(fs, f, [e], 2, 1, "" + Itoa(v), w1, depth, fuel - 2) == Value(0, Print(w1, "" + Itoa(v) + "\n"));
    assert "" + Itoa(v) + "\n" == (if v < 0 then "-" else "") + digits + "\n";
  }

  // ---- programs ----

  lemma VarValue(fs: Funcs, x: Name, v: int, w: World, depth: int, fuel: nat)
    requires fuel > 0 && LookupVar(w, x) == Some(v)
    ensures Evaluate(fs, Var(x), w, depth, fuel) == Value(v, w)
  {
  }

  lemma NumValue(fs: Funcs, n: int, w: World, depth: int, fuel: nat)
    requires fuel > 0
    ensures Evaluate(fs, Num(n), w, depth, fuel) == Value(n, w)
  {
  }

  /** x < n. */
  lemma LessValue(fs: Funcs, x: Name, b: Expr, u: int, v: int, w: World, depth: int, fuel: nat)
    requires fuel > 1 && LookupVar(w, x) == Some(u) && Evaluate(fs, b, w, depth, fuel - 1) == Value(v, w)
    ensures Evaluate(fs, Bin(Lt, Var(x), b), w, depth, fuel) == Value(if u < v then 1 else 0, w)
  {
    hide Evaluate;
    VarValue(fs, x, u, w, depth, fuel - 1);
    ComparisonLaws(fs, Var(x), b, w, depth, fuel, u, v, w);
  }

  /** x = x + 1, where the sum fits. */
  lemma Bumps(fs: Funcs, x: Name, v: int, w: World, depth: int, fuel: nat)
    requires fuel > 3 && LookupVar(w, x) == Some(v) && InRange(v) && InRange(v + 1)
    ensures Execute(fs, ExprStmt(Assign(x, Bin(Plus, Var(x), Num(1)))), w, depth, fuel) == Normal(SetVar(w, x, v + 1))
  {
    SumFits(fs, Var(x), Num(1), w, depth, fuel - 2, v, 1, w) by {
      VarValue(fs, x, v, w, depth, fuel - 3);
      NumValue(fs, 1, w, depth, fuel - 3);
    }
    hide Evaluate;
    AssignValue(fs, x, Bin(Plus, Var(x), Num(1)), v + 1, w, depth, fuel - 1, w);
  }

  lemma AssignValue(fs: Funcs, x: Name, e: Expr, v: int, w: World, depth: int, fuel: nat, w1: World)
    requires fuel > 0 && Evaluate(fs, e, w, depth, fuel - 1) == Value(v, w1)
    ensures Evaluate(fs, Assign(x, e), w, depth, fuel) == Value(v, SetVar(w1, x, v))
  {
  }

  /** A sum or difference that fits is exact. */
  lemma SumFits(fs: Funcs, a: Expr, b: Expr, w: World, depth: int, fuel: nat, x: int, y: int, w2: World)
    requires Operands(fs, a, b, w, depth, fuel, x, y, w2)
    ensures InRange(x + y) ==> Evaluate(fs, Bin(Plus, a, b), w, depth, fuel) == Value(x + y, w2)
    ensures InRange(x - y) ==> Evaluate(fs, Bin(Minus, a, b), w, depth, fuel) == Value(x - y, w2)
  {
    hide Evaluate, Operands;
    ArithmeticLaws(fs, a, b, w, depth, fuel, x, y, w2);
  }

  /** while (i < n) i = i + 1; */
  function CountUp(i: Name, n: Name): Stmt {
    While(Bin(Lt, Var(i), Var(n)), ExprStmt(Assign(i, Bin(Plus, Var(i), Num(1)))))
  }

  lemma {:induction false} Counts(fs: Funcs, i: Name, n: Name, a: int, b: int, w: World, depth: int, fuel: nat)
    requires i != n && LookupVar(w, i) == Some(a) && LookupVar(w, n) == Some(b)
    requires InRange(a) && InRange(b) && a <= b && fuel >= b - a + 5
    ensures Repeat(fs, CountUp(i, n).cond, CountUp(i, n).body, None, w, depth, fuel) == Normal(SetVar(w, i, b))
    decreases b - a
  {
    hide Evaluate, Execute, Repeat, Onward, Eval, Exec, Loop, NextRound, SetVar;
    var s := CountUp(i, n);
    LessValue(fs, i, Var(n), a, b, w, depth, fuel - 1) by { VarValue(fs, n, b, w, depth, fuel - 2); }
    if a < b {
      Bumps(fs, i, a, w, depth, fuel - 1);
      SetThenLookup(w, i, a + 1, n);
      Counts(fs, i, n, a + 1, b, SetVar(w, i, a + 1), depth, fuel - 1);
      assert SetVar(SetVar(w, i, a + 1), i, b) == SetVar(w, i, b) by { SetTwice(w, i, a + 1, b); }
    } else {
      SetSame(w, i, a);
    }
    var m := Machine(w, depth, false, 0);
    OneRound(fs, s.cond, s.body, None, m, fuel);
    if a < b {
      NextNone(fs, s.cond, s.body, m.(w := SetVar(w, i, a + 1)), fuel - 1);
    }
  }

  lemma SetTwice(w: World, x: Name, u: int, v: int)
    ensures SetVar(SetVar(w, x, u), x, v) == SetVar(w, x, v)
  {
    if w.local.Some? && (x in w.local.value.vars || x !in w.globals.vars) {
      var vs := w.local.value.vars;
      assert vs[x := u][x := v] == vs[x := v];
    } else {
      var vs := w.globals.vars;
      assert vs[x := u][x := v] == vs[x := v];
    }
  }

  lemma SetSame(w: World, x: Name, v: int)
    requires LookupVar(w, x) == Some(v)
    ensures SetVar(w, x, v) == w
  {
    if w.local.Some? && x in w.local.value.vars {
      var vs := w.local.value.vars;
      assert vs[x := v] == vs;
    } else {
      var vs := w.globals.vars;
      assert vs[x := v] == vs;
    }
  }

  /** From i <= n the loop ends with i == n, whatever the two values, and changes nothing else: no
      other variable, array or output. The flags stay down. */
  lemma CountEnds(fs: Funcs, i: Name, n: Name, a: int, b: int, m: Machine, fuel: nat, y: Name)
    requires !m.returned && m.retVal == 0
    requires i != n && LookupVar(m.w, i) == Some(a) && LookupVar(m.w, n) == Some(b)
    requires InRange(a) && InRange(b) && a <= b && fuel >= b - a + 6
    ensures var r := Exec(fs, CountUp(i, n), m, fuel);
            && r.Val? && !r.m.returned && r.m.depth == m.depth
            && LookupVar(r.m.w, i) == Some(b) && LookupVar(r.m.w, n) == Some(b)
            && (y != i ==> LookupVar(r.m.w, y) == LookupVar(m.w, y))
            && r.m.w.store == m.w.store && r.m.w.out == m.w.out
  {
    Counts(fs, i, n, a, b, m.w, m.depth, fuel - 1);
    assert Execute(fs, CountUp(i, n), m.w, m.depth, fuel) == Normal(SetVar(m.w, i, b)) by { hide Repeat; }
    hide Execute, Exec;
    StmtAgrees(fs, CountUp(i, n), m, fuel);
    SetThenLookup(m.w, i, b, n);
    SetThenLookup(m.w, i, b, y);
  }
}
