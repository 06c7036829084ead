/** Tiny C programs run to their results, for all inputs: a recursive function up to exactly the
    call-depth limit, a search that returns out of a loop over an array passed by reference, and an
    if with both branches (user/cmd/tinyc/eval.go:35-105, 266-358). */
module TinyCPrograms {
  import opened TinyCAst
  import opened TinyCEval
  import opened TinyCSemantics
  import opened TinyCLaws

  // ---- statements, one rule each ----

  lemma ReturnRule(fs: Funcs, e: Expr, v: int, w: World, depth: int, fuel: nat, w1: World)
    requires fuel > 0 && Evaluate(fs, e, w, depth, fuel - 1) == Value(v, w1)
    ensures Execute(fs, Return(Some(e)), w, depth, fuel) == Returned(v, w1)
  {
    hide Evaluate;
  }

  lemma SeqRule(fs: Funcs, s: Stmt, rest: seq<Stmt>, w: World, depth: int, fuel: nat)
    requires fuel > 0
    ensures var r := Execute(fs, s, w, depth, fuel - 1);
            Sequence(fs, [s] + rest, w, depth, fuel) ==
            if r.Normal? then Sequence(fs, rest, r.w, depth, fuel - 1) else r
  {
    hide Execute;
    assert ([s] + rest)[1..] == rest;
  }

  lemma IfRule(fs: Funcs, c: Expr, t: Stmt, e: Option<Stmt>, v: int, w: World, depth: int, fuel: nat)
    requires fuel > 0 && Evaluate(fs, c, w, depth, fuel - 1) == Value(v, w)
    ensures Execute(fs, If(c, t, e), w, depth, fuel) ==
            if v != 0 then Execute(fs, t, w, depth, fuel - 1)
            else if e.Some? then Execute(fs, e.value, w, depth, fuel - 1)
            else Normal(w)
  {
    hide Evaluate;
  }

  // ---- max: if (x < y) return y; else return x; ----

  /** The larger of the two comes back. */
  lemma MaxReturns(fs: Funcs, x: Name, y: Name, u: int, v: int, m: Machine, fuel: nat)
    requires fuel >= 4 && !m.returned && m.retVal == 0
    requires LookupVar(m.w, x) == Some(u) && LookupVar(m.w, y) == Some(v)
    ensures var s := If(Bin(Lt, Var(x), Var(y)), Return(Some(Var(y))), Some(Return(Some(Var(x)))));
            Exec(fs, s, m, fuel) == Val(0, m.(returned := true, retVal := if u <= v then v else u))
  {
    hide Evaluate, Exec, Execute;
    var w, d := m.w, m.depth;
    var c := Bin(Lt, Var(x), Var(y));
    VarValue(fs, y, v, w, d, fuel - 2);
    VarValue(fs, x, u, w, d, fuel - 2);
    LessValue(fs, x, Var(y), u, v, w, d, fuel - 1);
    var s := If(c, Return(Some(Var(y))), Some(Return(Some(Var(x)))));
    IfRule(fs, c, s.then_, s.else_, if u < v then 1 else 0, w, d, fuel);
    ReturnRule(fs, Var(y), v, w, d, fuel - 1, w);
    ReturnRule(fs, Var(x), u, w, d, fuel - 1, w);
    StmtAgrees(fs, s, m, fuel);
  }

  // ---- sum(n) { if (n < 1) return 0; return n + sum(n - 1); } ----

  function Guard(n: Name): Stmt {
    If(Bin(Lt, Var(n), Num(1)), Return(Some(Num(0))), None)
  }

  function SelfCall(f: Name, n: Name): Expr {
    Call(f, [Bin(Minus, Var(n), Num(1))])
  }

  function Recur(f: Name, n: Name): Stmt {
    Return(Some(Bin(Plus, Var(n), SelfCall(f, n))))
  }

  function SumFunc(f: Name, n: Name): Func {
    Func([n], [Guard(n), Recur(f, n)])
  }

  /** A call with one argument that is not a bare name. */
  lemma CallRule(fs: Funcs, f: Name, n: Name, body: seq<Stmt>, arg: Expr, v: int, w: World, depth: int, fuel: nat)
    requires f in fs && fs[f] == Func([n], body) && !arg.Var? && fuel >= 4 && depth < 256
    requires Evaluate(fs, arg, Deeper(w, depth + 1), depth + 1, fuel - 3) == Value(v, Deeper(w, depth + 1))
    ensures var w1 := Deeper(w, depth + 1);
            Evaluate(fs, Call(f, [arg]), w, depth, fuel) ==
            match Sequence(fs, body, w1.(local := Some(Scope(map[n := v], map[]))), depth + 1, fuel - 2)
            case Normal(w2) => Value(0, w2.(local := w.local))
            case Returned(x, w2) => Value(x, w2.(local := w.local))
            case Stopped(w2) => Ended(w2)
            case NoTime => OutOfTime
  {
    var w1 := Deeper(w, depth + 1);
    assert Params(fs, [n], [arg], 0, Scope(map[], map[]), w1, depth + 1, fuel - 2)
        == Scoped(Scope(map[n := v], map[]), w1) by {
      hide Evaluate, Sequence, LookupArray;
      assert Params(fs, [n], [arg], 1, Scope(map[n := v], map[]), w1, depth + 1, fuel - 3)
          == Scoped(Scope(map[n := v], map[]), w1);
    }
    hide Params, Sequence;
  }

  lemma DeepRule(fs: Funcs, f: Name, args: seq<Expr>, w: World, depth: int, fuel: nat)
    requires f in fs && fuel >= 2 && depth >= 256
    ensures Evaluate(fs, Call(f, args), w, depth, fuel)
            == Ended(w.(out := w.out + "tinyc: error: " + "call depth exceeded (max 256)" + "\n"))
  {
    var msg := "call depth exceeded (max 256)";
    assert w.out + ("tinyc: error: " + msg + "\n") == w.out + "tinyc: error: " + msg + "\n";
    hide Params, Sequence;
  }

  function Gauss(n: int): int {
    n * (n + 1) / 2
  }

  /** What the body does with n == k at call depth d: the sum if the calls still fit, else the
      message and the end. */
  ghost predicate SumOutcome(r: StmtResult, k: int, w: World, d: int) {
    var below := if k < 0 then 0 else k;
    if d + below <= 256 then r == Returned(Gauss(below), Deeper(w, d + below))
    else r.Stopped? && r.w.out == w.out + "tinyc: error: " + "call depth exceeded (max 256)" + "\n"
  }

  lemma GuardRule(fs: Funcs, n: Name, k: int, w: World, d: int, fuel: nat)
    requires LookupVar(w, n) == Some(k) && fuel >= 4
    ensures Execute(fs, Guard(n), w, d, fuel) == if k < 1 then Returned(0, w) else Normal(w)
  {
    hide Evaluate, Execute;
    NumValue(fs, 1, w, d, fuel - 2);
    LessValue(fs, n, Num(1), k, 1, w, d, fuel - 1);
    IfRule(fs, Guard(n).cond, Guard(n).then_, None, if k < 1 then 1 else 0, w, d, fuel);
    NumValue(fs, 0, w, d, fuel - 2);
    ReturnRule(fs, Num(0), 0, w, d, fuel - 1, w);
  }

  lemma {:induction false} SumBody(fs: Funcs, f: Name, n: Name, k: int, w: World, d: int, fuel: nat)
    requires f in fs && fs[f] == SumFunc(f, n) && InRange(k) && 0 <= d <= w.peak && d <= 256
    requires w.local == Some(Scope(map[n := k], map[])) && fuel >= 6 * (if k < 0 then 0 else k) + 10
    ensures SumOutcome(Sequence(fs, SumFunc(f, n).body, w, d, fuel), k, w, d)
    decreases if k < 0 then 0 else k
  {
    hide Evaluate, Execute, Sequence;
    var body := SumFunc(f, n).body;
    assert body == [Guard(n)] + [Recur(f, n)];
    SeqRule(fs, Guard(n), [Recur(f, n)], w, d, fuel);
    GuardRule(fs, n, k, w, d, fuel - 1);
    if k >= 1 {
      assert [Recur(f, n)] == [Recur(f, n)] + [];
      SeqRule(fs, Recur(f, n), [], w, d, fuel - 1);
      if d < 256 {
        var w2 := Deeper(w, d + 1).(local := Some(Scope(map[n := k - 1], map[])));
        SumBody(fs, f, n, k - 1, w2, d + 1, fuel - 6);
        Recurses(fs, f, n, k, w, d, fuel - 2);
      } else {
        DeepRule(fs, f, SelfCall(f, n).args, w, d, fuel - 4);
        RecurRule(fs, f, n, k, w, d, fuel - 2);
      }
    }
  }

  /** From what the body does with k - 1 one call down, what it returns with k. */
  lemma Recurses(fs: Funcs, f: Name, n: Name, k: int, w: World, d: int, fuel: nat)
    requires f in fs && fs[f] == SumFunc(f, n) && 1 <= k && InRange(k) && 0 <= d <= w.peak && d < 256 && fuel >= 8
    requires w.local == Some(Scope(map[n := k], map[]))
    requires var w2 := Deeper(w, d + 1).(local := Some(Scope(map[n := k - 1], map[])));
             SumOutcome(Sequence(fs, SumFunc(f, n).body, w2, d + 1, fuel - 4), k - 1, w2, d + 1)
    ensures SumOutcome(Execute(fs, Recur(f, n), w, d, fuel), k, w, d)
  {
    hide Evaluate, Execute, Sequence, Binary, Gauss;
    var w1 := Deeper(w, d + 1);
    SelfArgument(fs, n, k, w1, d + 1, fuel - 5);
    CallRule(fs, f, n, SumFunc(f, n).body, SelfCall(f, n).args[0], k - 1, w, d, fuel - 2);
    RecurRule(fs, f, n, k, w, d, fuel);
    if d + k <= 256 {
      Triangle(k);
    }
  }

  lemma Triangle(k: int)
    requires 1 <= k <= 1000
    ensures Binary(Plus, k, Gauss(k - 1)) == Some(Gauss(k))
  {
    assert k * (k + 1) == (k - 1) * (k - 1 + 1) + 2 * k;
    assert 0 <= k * (k + 1) <= 1000 * 1001;
    WrapMeaning(k * (k + 1) / 2);
  }

  lemma SelfArgument(fs: Funcs, n: Name, k: int, w: World, d: int, fuel: nat)
    requires k >= 1 && InRange(k) && LookupVar(w, n) == Some(k) && fuel >= 2
    ensures Evaluate(fs, Bin(Minus, Var(n), Num(1)), w, d, fuel) == Value(k - 1, w)
  {
    VarValue(fs, n, k, w, d, fuel - 1);
    NumValue(fs, 1, w, d, fuel - 1);
    assert Operands(fs, Var(n), Num(1), w, d, fuel, k, 1, w);
    hide Evaluate, Operands;
    SumFits(fs, Var(n), Num(1), w, d, fuel, k, 1, w);
  }

  /** return n + f(n - 1), from what the call gave. */
  lemma RecurRule(fs: Funcs, f: Name, n: Name, k: int, w: World, d: int, fuel: nat)
    requires LookupVar(w, n) == Some(k) && fuel >= 3 && 1 <= k && InRange(k)
    ensures var r := Evaluate(fs, SelfCall(f, n), w, d, fuel - 2);
            Execute(fs, Recur(f, n), w, d, fuel) ==
            match r
            case Value(v, w1) => Returned(Binary(Plus, k, v).value, w1)
            case Ended(w1) => Stopped(w1)
            case OutOfTime => NoTime
  {
    VarValue(fs, n, k, w, d, fuel - 2);
    hide Wrap64, SelfCall;
  }

  /** sum(k) is k(k+1)/2, and 0 for k below 1, exactly if its calls stay within 256 levels; one level
      more and the program ends with its message. The caller's scope, the arrays and the output are
      untouched. */
  lemma SumExactly(fs: Funcs, f: Name, n: Name, k: int, m: Machine, fuel: nat)
    requires f in fs && fs[f] == SumFunc(f, n) && InRange(k) && 0 <= m.depth <= 256
    requires fuel >= 6 * (if k < 0 then 0 else k) + 20
    ensures var r := Eval(fs, Call(f, [Num(k)]), m, fuel);
            var below := if k < 0 then 0 else k;
            if m.depth + below < 256
            then r.Val? && r.v == below * (below + 1) / 2 && r.m == m.(w := Deeper(m.w, m.depth + 1 + below))
            else r.Exited? && r.w.out == m.w.out + "tinyc: error: " + "call depth exceeded (max 256)" + "\n"
  {
    hide Evaluate, Eval, Sequence;
    EvalAgrees(fs, Call(f, [Num(k)]), m, fuel);
    if m.depth < 256 {
      var w1 := Deeper(m.w, m.depth + 1);
      NumValue(fs, k, w1, m.depth + 1, fuel - 3);
      CallRule(fs, f, n, SumFunc(f, n).body, Num(k), k, m.w, m.depth, fuel);
      SumBody(fs, f, n, k, w1.(local := Some(Scope(map[n := k], map[]))), m.depth + 1, fuel - 2);
    } else {
      DeepRule(fs, f, [Num(k)], m.w, m.depth, fuel);
    }
  }

  // ---- find(a, n, x) { int i; for (i = 0; i < n; i = i + 1) { if (a[i] == x) return i; } return -1; } ----

  const Test: Stmt := If(Bin(EqEq, Index("a", Var("i")), Var("x")), Return(Some(Var("i"))), None)

  const Bump: Stmt := ExprStmt(Assign("i", Bin(Plus, Var("i"), Num(1))))

  const More: Expr := Bin(Lt, Var("i"), Var("n"))

  const Search: Stmt := For(ExprStmt(Assign("i", Num(0))), More, Bump, Block([Test]))

  const FindFunc: Func :=
    Func(["a", "n", "x"], [VarDecl("i", None), Search, Return(Some(Neg(Num(1))))])

  /** Inside find, with i == v. */
  function At(w: World, id: nat, n: int, x: int, v: int): World {
    w.(local := Some(Scope(map["n" := n, "x" := x, "i" := v], map["a" := id])))
  }

  lemma AtLooks(w: World, id: nat, n: int, x: int, v: int, u: int)
    ensures var w' := At(w, id, n, x, v);
            && LookupVar(w', "i") == Some(v) && LookupVar(w', "n") == Some(n) && LookupVar(w', "x") == Some(x)
            && LookupArray(w', "a") == Some(id) && SetVar(w', "i", u) == At(w, id, n, x, u)
            && w'.store == w.store && w'.out == w.out
  {
    var vs := map["n" := n, "x" := x, "i" := v];
    assert vs["i" := u] == map["n" := n, "x" := x, "i" := u];
  }

  /** One look: return i if a[i] == x, go on if not, end if i is past the array. */
  lemma Looks(fs: Funcs, w: World, id: nat, n: int, x: int, v: int, d: int, fuel: nat)
    requires id < |w.store| && v >= 0 && fuel >= 7
    ensures var w' := At(w, id, n, x, v);
            var r := Execute(fs, Block([Test]), w', d, fuel);
            if v < |w.store[id]|
            then r == if w.store[id][v] == x then Returned(v, w') else Normal(w')
            else r == Stopped(Complain(w', "index out of bounds for 'a'"))
  {
    var w' := At(w, id, n, x, v);
    AtLooks(w, id, n, x, v, 0);
    Compares(fs, w', id, v, x, d, fuel - 3);
    assert Execute(fs, Test, w', d, fuel - 2) ==
           if v < |w.store[id]|
           then (if w.store[id][v] == x then Returned(v, w') else Normal(w'))
           else Stopped(Complain(w', "index out of bounds for 'a'")) by {
      hide Evaluate, Complain, Execute;
      if v < |w.store[id]| {
        IfRule(fs, Test.cond, Test.then_, None, if w.store[id][v] == x then 1 else 0, w', d, fuel - 2);
        VarValue(fs, "i", v, w', d, fuel - 4);
        ReturnRule(fs, Var("i"), v, w', d, fuel - 3, w');
      } else {
        EndsIn(fs, Test.cond, Test.then_, w', d, fuel - 2);
      }
    }
    hide Execute, Complain;
    assert [Test] == [Test] + [];
    SeqRule(fs, Test, [], w', d, fuel - 1);
    BlockRule(fs, [Test], w', d, fuel);
  }

  lemma EndsIn(fs: Funcs, c: Expr, t: Stmt, w: World, d: int, fuel: nat)
    requires fuel > 0 && Evaluate(fs, c, w, d, fuel - 1).Ended?
    ensures Execute(fs, If(c, t, None), w, d, fuel) == Stopped(Evaluate(fs, c, w, d, fuel - 1).w)
  {
    hide Evaluate;
  }

  lemma BlockRule(fs: Funcs, ss: seq<Stmt>, w: World, d: int, fuel: nat)
    requires fuel > 1
    ensures Execute(fs, Block(ss), w, d, fuel) == Sequence(fs, ss, w, d, fuel - 1)
    ensures Sequence(fs, [], w, d, fuel) == Sequence(fs, [], w, d, fuel - 1) == Normal(w)
  {
  }

  /** a[i] == x. */
  lemma Compares(fs: Funcs, w: World, id: nat, v: int, x: int, d: int, fuel: nat)
    requires id < |w.store| && v >= 0 && fuel >= 3
    requires LookupVar(w, "i") == Some(v) && LookupVar(w, "x") == Some(x) && LookupArray(w, "a") == Some(id)
    ensures Evaluate(fs, Test.cond, w, d, fuel) ==
            if v < |w.store[id]| then Value(if w.store[id][v] == x then 1 else 0, w)
            else Ended(Complain(w, "index out of bounds for 'a'"))
  {
    var e := Index("a", Var("i"));
    VarValue(fs, "i", v, w, d, fuel - 2);
    VarValue(fs, "x", x, w, d, fuel - 1);
    ElementLaws(w, "a", id, v, 0);
    assert "index out of bounds for '" + "a" + "'" == "index out of bounds for 'a'";
    hide Complain, LookupArray, LookupVar;
    assert Evaluate(fs, e, w, d, fuel - 1) == Select(w, "a", id, v);
    if v < |w.store[id]| {
      ComparisonLaws(fs, e, Var("x"), w, d, fuel, w.store[id][v], x, w);
    }
  }

  /** Where the loop goes from i == v: the first match at or after v, or past the bound, or past the
      array. */
  ghost predicate Searched(r: StmtResult, w: World, id: nat, n: int, x: int, v: int)
    requires id < |w.store| && v >= 0
  {
    var s := w.store[id];
    match r
    case Returned(k, w') => v <= k < n && k < |s| && s[k] == x && Unmatched(s, x, v, k) && w' == At(w, id, n, x, k)
    case Normal(w') => n <= |s| && Unmatched(s, x, v, n) && w'.(local := w.local) == w
    case Stopped(w') =>
      |s| < n && Unmatched(s, x, v, |s|) && w'.out == w.out + "tinyc: error: index out of bounds for 'a'\n"
    case NoTime => false
  }

  predicate Unmatched(s: seq<int>, x: int, from: int, to: int)
    requires 0 <= from && to <= |s|
  {
    forall j :: from <= j < to ==> s[j] != x
  }

  lemma {:induction false} Finds(fs: Funcs, w: World, id: nat, n: int, x: int, v: int, d: int, fuel: nat)
    requires id < |w.store| && 0 <= v <= |w.store[id]| && InRange(n) && fuel >= |w.store[id]| - v + 10
    ensures Searched(Repeat(fs, More, Block([Test]), Some(Bump), At(w, id, n, x, v), d, fuel), w, id, n, x, v)
    decreases |w.store[id]| - v
  {
    hide Evaluate, Execute, Repeat, Onward, Exec, Eval, Loop, NextRound;
    var w' := At(w, id, n, x, v);
    var m := Machine(w', d, false, 0);
    AtLooks(w, id, n, x, v, v + 1);
    OneRound(fs, More, Block([Test]), Some(Bump), m, fuel);
    VarValue(fs, "n", n, w', d, fuel - 2);
    LessValue(fs, "i", Var("n"), v, n, w', d, fuel - 1);
    if v < n {
      Looks(fs, w, id, n, x, v, d, fuel - 1);
      if v == |w.store[id]| {
        Message(w');
      } else if w.store[id][v] != x {
        NextSome(fs, More, Block([Test]), Bump, m, fuel - 1);
        Bumps(fs, "i", v, w', d, fuel - 1);
        Finds(fs, w, id, n, x, v + 1, d, fuel - 1);
      }
    }
  }

  lemma Message(w: World)
    ensures Complain(w, "index out of bounds for 'a'").out == w.out + "tinyc: error: index out of bounds for 'a'\n"
  {
    assert "tinyc: error: " + "index out of bounds for 'a'" + "\n" == "tinyc: error: index out of bounds for 'a'\n";
  }

  /** The body of find, from its parameters: the first index below n that holds x, else -1, else the
      end of the program at the first index past the array. */
  lemma FindBody(fs: Funcs, w: World, id: nat, n: int, x: int, d: int, fuel: nat)
    requires id < |w.store| && InRange(n) && fuel >= |w.store[id]| + 20
    ensures var w0 := w.(local := Some(Scope(map["n" := n, "x" := x], map["a" := id])));
            var r := Sequence(fs, FindFunc.body, w0, d, fuel);
            && (r.Returned? ==> r.w.(local := w.local) == w)
            && FoundOrNot(r, w, id, n, x)
  {
    hide Evaluate, Execute, Repeat, Sequence;
    var w0 := w.(local := Some(Scope(map["n" := n, "x" := x], map["a" := id])));
    var last := Return(Some(Neg(Num(1))));
    assert FindFunc.body == [VarDecl("i", None)] + [Search, last];
    SeqRule(fs, VarDecl("i", None), [Search, last], w0, d, fuel);
    Declares(fs, w, id, n, x, d, fuel - 1);
    var w1 := At(w, id, n, x, 0);
    assert [Search, last] == [Search] + [last];
    SeqRule(fs, Search, [last], w1, d, fuel - 1);
    Enters(fs, w, id, n, x, d, fuel - 2);
    Finds(fs, w, id, n, x, 0, d, fuel - 3);
    var r := Repeat(fs, More, Block([Test]), Some(Bump), w1, d, fuel - 3);
    if r.Normal? {
      assert [last] == [last] + [];
      SeqRule(fs, last, [], r.w, d, fuel - 2);
      MinusOne(fs, r.w, d, fuel - 3);
    }
  }

  ghost predicate FoundOrNot(r: StmtResult, w: World, id: nat, n: int, x: int)
    requires id < |w.store|
  {
    var s := w.store[id];
    match r
    case Returned(k, _) =>
      if k == -1 then n <= |s| && Unmatched(s, x, 0, n)
      else 0 <= k < n && k < |s| && s[k] == x && Unmatched(s, x, 0, k)
    case Stopped(w') => |s| < n && x !in s && w'.out == w.out + "tinyc: error: index out of bounds for 'a'\n"
    case _ => false
  }

  lemma MinusOne(fs: Funcs, w: World, d: int, fuel: nat)
    requires fuel >= 3
    ensures Execute(fs, Return(Some(Neg(Num(1)))), w, d, fuel) == Returned(-1, w)
  {
    NumValue(fs, 1, w, d, fuel - 2);
    assert Evaluate(fs, Neg(Num(1)), w, d, fuel - 1) == Value(-1, w) by { WrapMeaning(-1); }
    hide Evaluate;
    ReturnRule(fs, Neg(Num(1)), -1, w, d, fuel, w);
  }

  lemma Declares(fs: Funcs, w: World, id: nat, n: int, x: int, d: int, fuel: nat)
    requires fuel > 0
    ensures Execute(fs, VarDecl("i", None), w.(local := Some(Scope(map["n" := n, "x" := x], map["a" := id]))), d, fuel)
            == Normal(At(w, id, n, x, 0))
  {
    var vs := map["n" := n, "x" := x];
    assert vs["i" := 0] == map["n" := n, "x" := x, "i" := 0];
  }

  /** The for begins with i = 0. */
  lemma Enters(fs: Funcs, w: World, id: nat, n: int, x: int, d: int, fuel: nat)
    requires fuel >= 4
    ensures var w1 := At(w, id, n, x, 0);
            Execute(fs, Search, w1, d, fuel) == Repeat(fs, More, Block([Test]), Some(Bump), w1, d, fuel - 1)
  {
    var w1 := At(w, id, n, x, 0);
    AtLooks(w, id, n, x, 0, 0);
    NumValue(fs, 0, w1, d, fuel - 3);
    AssignValue(fs, "i", Num(0), 0, w1, d, fuel - 2, w1);
    assert Execute(fs, ExprStmt(Assign("i", Num(0))), w1, d, fuel - 1) == Normal(w1) by { hide Evaluate; }
    hide Evaluate, Repeat;
  }

  /** find over an array in the caller's scope, passed by name: the first index below n that holds x;
      -1 if there is none and n is within the array; else the program ends with its message. The
      caller's scope, the array and the output are as before. */
  lemma FindsFirst(fs: Funcs, arr: Name, id: nat, n: int, x: int, m: Machine, fuel: nat)
    requires "find" in fs && fs["find"] == FindFunc && m.depth < 256 && InRange(n)
    requires LookupArray(m.w, arr) == Some(id) && id < |m.w.store| && fuel >= |m.w.store[id]| + 30
    ensures var s := m.w.store[id];
            match Eval(fs, Call("find", [Var(arr), Num(n), Num(x)]), m, fuel)
            case Val(k, m') =>
              && m' == m.(w := Deeper(m.w, m.depth + 1))
              && (if k == -1 then n <= |s| && Unmatched(s, x, 0, n)
                  else 0 <= k < n && k < |s| && s[k] == x && Unmatched(s, x, 0, k))
            case Exited(w') => |s| < n && x !in s && w'.out == m.w.out + "tinyc: error: index out of bounds for 'a'\n"
            case Timeout => false
  {
    hide Evaluate, Eval, Sequence;
    var e := Call("find", [Var(arr), Num(n), Num(x)]);
    EvalAgrees(fs, e, m, fuel);
    var w1 := Deeper(m.w, m.depth + 1);
    FindBody(fs, w1, id, n, x, m.depth + 1, fuel - 2);
    CallFind(fs, arr, id, n, x, m.w, m.depth, fuel);
  }

  lemma CallFind(fs: Funcs, arr: Name, id: nat, n: int, x: int, w: World, depth: int, fuel: nat)
    requires "find" in fs && fs["find"] == FindFunc && depth < 256 && LookupArray(w, arr) == Some(id) && fuel >= 10
    ensures var w1 := Deeper(w, depth + 1);
            var w2 := w1.(local := Some(Scope(map["n" := n, "x" := x], map["a" := id])));
            Evaluate(fs, Call("find", [Var(arr), Num(n), Num(x)]), w, depth, fuel) ==
            match Sequence(fs, FindFunc.body, w2, depth + 1, fuel - 2)
            case Normal(w3) => Value(0, w3.(local := w.local))
            case Returned(v, w3) => Value(v, w3.(local := w.local))
            case Stopped(w3) => Ended(w3)
            case NoTime => OutOfTime
  {
    var w1, d := Deeper(w, depth + 1), depth + 1;
    var ps, args := FindFunc.params, [Var(arr), Num(n), Num(x)];
    assert Params(fs, ps, args, 0, Scope(map[], map[]), w1, d, fuel - 2)
        == Scoped(Scope(map["n" := n, "x" := x], map["a" := id]), w1) by {
      NumValue(fs, n, w1, d, fuel - 4);
      NumValue(fs, x, w1, d, fuel - 5);
      hide Evaluate, Sequence, LookupArray;
      assert LookupArray(w1, arr) == LookupArray(w, arr) by { SameArrays(w, depth + 1, arr); }
      assert Params(fs, ps, args, 3, Scope(map["n" := n, "x" := x], map["a" := id]), w1, d, fuel - 5)
          == Scoped(Scope(map["n" := n, "x" := x], map["a" := id]), w1);
      assert Params(fs, ps, args, 2, Scope(map["n" := n], map["a" := id]), w1, d, fuel - 4)
          == Scoped(Scope(map["n" := n, "x" := x], map["a" := id]), w1);
      assert Params(fs, ps, args, 1, Scope(map[], map["a" := id]), w1, d, fuel - 3)
          == Scoped(Scope(map["n" := n, "x" := x], map["a" := id]), w1);
    }
    hide Params, Sequence;
  }

  lemma SameArrays(w: World, depth: int, a: Name)
    ensures LookupArray(Deeper(w, depth), a) == LookupArray(w, a)
  {
  }
}
