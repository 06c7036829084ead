/** A structured big-step semantics of Tiny C, without flags: a statement ends normally or returns
    a value, and a call takes the value its body returned, or 0. */
module TinyCSemantics {
  import opened TinyCAst
  import opened TinyCEval

  datatype ExprResult = Value(v: int, w: World) | Ended(w: World) | OutOfTime

  datatype StmtResult = Normal(w: World) | Returned(v: int, w: World) | Stopped(w: World) | NoTime

  datatype ParamResult = Scoped(scope: Scope, w: World) | Unbound(w: World) | NoMore

  /** No call so far, and not this one, is deeper than the limit. */
  predicate Shallow(w: World, depth: int) {
    w.peak <= MAX_DEPTH && depth <= MAX_DEPTH
  }

  function Evaluate(fs: Funcs, e: Expr, w: World, depth: int, fuel: nat): (r: ExprResult)
    ensures Shallow(w, depth) ==> r.OutOfTime? || r.w.peak <= MAX_DEPTH
    decreases fuel, 1
  {
    if fuel == 0 then OutOfTime
    else
      match e
      case Num(n) => Value(n, w)
      case Str(_) => Ended(Complain(w, "unexpected expression kind"))
      case Var(x) =>
        var v := LookupVar(w, x);
        if v.Some? then Value(v.value, w) else Ended(Complain(w, "undefined variable '" + x + "'"))
      case Neg(a) =>
        var r := Evaluate(fs, a, w, depth, fuel - 1);
        if r.Value? then Value(Wrap64(-r.v), r.w) else r
      case Bin(op, a, b) =>
        var r1 := Evaluate(fs, a, w, depth, fuel - 1);
        if !r1.Value? then r1
        else
          var r2 := Evaluate(fs, b, r1.w, depth, fuel - 1);
          if !r2.Value? then r2
          else
            var v := Binary(op, r1.v, r2.v);
            if v.Some? then Value(v.value, r2.w) else Ended(Complain(r2.w, ZeroMessage(op)))
      case Assign(x, a) =>
        var r := Evaluate(fs, a, w, depth, fuel - 1);
        if r.Value? then Value(r.v, SetVar(r.w, x, r.v)) else r
      case AssignIndex(a, i, b) =>
        var r1 := Evaluate(fs, b, w, depth, fuel - 1);
        if !r1.Value? then r1
        else
          var r2 := Evaluate(fs, i, r1.w, depth, fuel - 1);
          if r2.Value? then Update(r2.w, a, r2.v, r1.v) else r2
      case Index(a, i) =>
        var id := LookupArray(w, a);
        if id.None? then Ended(Complain(w, "undefined array '" + a + "'"))
        else
          var r := Evaluate(fs, i, w, depth, fuel - 1);
          if r.Value? then Select(r.w, a, id.value, r.v) else r
      case Call(f, args) =>
        if f in fs then Apply(fs, fs[f], args, w, depth, fuel - 1)
        else Ended(Complain(w, "undefined function '" + f + "'"))
      case Println(format, args) => Format(fs, format, args, 0, 0, "", w, depth, fuel - 1)
  }

  function Update(w: World, a: Name, k: int, v: int): ExprResult {
    var id := LookupArray(w, a);
    if id.None? then Ended(Complain(w, "undefined array '" + a + "'"))
    else if id.value < |w.store| && 0 <= k < |w.store[id.value]|
    then Value(v, w.(store := w.store[id.value := w.store[id.value][k := v]]))
    else Ended(Complain(w, "index out of bounds for '" + a + "'"))
  }

  function Select(w: World, a: Name, id: nat, k: int): ExprResult {
    if id < |w.store| && 0 <= k < |w.store[id]| then Value(w.store[id][k], w)
    else Ended(Complain(w, "index out of bounds for '" + a + "'"))
  }

  function Apply(fs: Funcs, fn: Func, args: seq<Expr>, w: World, depth: int, fuel: nat): (r: ExprResult)
    ensures Shallow(w, depth) ==> r.OutOfTime? || r.w.peak <= MAX_DEPTH
    decreases fuel, 0
  {
    if fuel == 0 then OutOfTime
    else if depth >= MAX_DEPTH then Ended(Complain(w, "call depth exceeded (max 256)"))
    else
      match Params(fs, fn.params, args, 0, Scope(map[], map[]), Deeper(w, depth + 1), depth + 1, fuel - 1)
      case Unbound(w1) => Ended(w1)
      case NoMore => OutOfTime
      case Scoped(scope, w1) =>
        (match Sequence(fs, fn.body, w1.(local := Some(scope)), depth + 1, fuel - 1)
         case Normal(w2) => Value(0, w2.(local := w1.local))
         case Returned(v, w2) => Value(v, w2.(local := w1.local))
         case Stopped(w2) => Ended(w2)
         case NoTime => OutOfTime)
  }

  function Params(fs: Funcs, ps: seq<Name>, args: seq<Expr>, i: nat, scope: Scope, w: World, depth: int,
      fuel: nat): (r: ParamResult)
    ensures Shallow(w, depth) ==> r.NoMore? || r.w.peak <= MAX_DEPTH
    decreases fuel, 0
  {
    if fuel == 0 then NoMore
    else if i >= |ps| || i >= |args| then Scoped(scope, w)
    else if args[i].Var? && LookupArray(w, args[i].x).Some? then
      Params(fs, ps, args, i + 1, scope.(arrays := scope.arrays[ps[i] := LookupArray(w, args[i].x).value]), w, depth,
          fuel - 1)
    else
      match Evaluate(fs, args[i], w, depth, fuel - 1)
      case Value(v, w1) => Params(fs, ps, args, i + 1, scope.(vars := scope.vars[ps[i] := v]), w1, depth, fuel - 1)
      case Ended(w1) => Unbound(w1)
      case OutOfTime => NoMore
  }

  /** A statement that evaluates an expression and goes on. */
  function Then(r: ExprResult): StmtResult {
    match r
    case Value(_, w) => Normal(w)
    case Ended(w) => Stopped(w)
    case OutOfTime => NoTime
  }

  /** Statements in order, up to the first that does not end normally. */
  function Sequence(fs: Funcs, ss: seq<Stmt>, w: World, depth: int, fuel: nat): (r: StmtResult)
    ensures Shallow(w, depth) ==> r.NoTime? || r.w.peak <= MAX_DEPTH
    decreases fuel, 0
  {
    if fuel == 0 then NoTime
    else if ss == [] then Normal(w)
    else
      var r := Execute(fs, ss[0], w, depth, fuel - 1);
      if r.Normal? then Sequence(fs, ss[1..], r.w, depth, fuel - 1) else r
  }

  function Execute(fs: Funcs, s: Stmt, w: World, depth: int, fuel: nat): (r: StmtResult)
    ensures Shallow(w, depth) ==> r.NoTime? || r.w.peak <= MAX_DEPTH
    decreases fuel, 1
  {
    if fuel == 0 then NoTime
    else
      match s
      case Block(ss) => Sequence(fs, ss, w, depth, fuel - 1)
      case VarDecl(x, None) => Normal(DeclareVar(w, x, 0))
      case VarDecl(x, Some(e)) =>
        var r := Evaluate(fs, e, w, depth, fuel - 1);
        if r.Value? then Normal(DeclareVar(r.w, x, r.v)) else Then(r)
      case ExprStmt(e) => Then(Evaluate(fs, e, w, depth, fuel - 1))
      case If(c, t, e) =>
        var r := Evaluate(fs, c, w, depth, fuel - 1);
        if !r.Value? then Then(r)
        else if r.v != 0 then Execute(fs, t, r.w, depth, fuel - 1)
        else if e.Some? then Execute(fs, e.value, r.w, depth, fuel - 1)
        else Normal(r.w)
      case While(c, b) => Repeat(fs, c, b, None, w, depth, fuel - 1)
      case For(i, c, st, b) =>
        var r := Execute(fs, i, w, depth, fuel - 1);
        if r.Normal? then Repeat(fs, c, b, Some(st), r.w, depth, fuel - 1) else r
      case Return(None) => Returned(0, w)
      case Return(Some(e)) =>
        var r := Evaluate(fs, e, w, depth, fuel - 1);
        if r.Value? then Returned(r.v, r.w) else Then(r)
      case PrintStmt(format, args) => Then(Format(fs, format, args, 0, 0, "", w, depth, fuel - 1))
      case Unexpected => Stopped(Complain(w, "unexpected statement kind"))
  }

  function Repeat(fs: Funcs, c: Expr, b: Stmt, step: Option<Stmt>, w: World, depth: int, fuel: nat): (r: StmtResult)
    ensures Shallow(w, depth) ==> r.NoTime? || r.w.peak <= MAX_DEPTH
    decreases fuel, 0
  {
    if fuel == 0 then NoTime
    else
      var r := Evaluate(fs, c, w, depth, fuel - 1);
      if !r.Value? then Then(r)
      else if r.v == 0 then Normal(r.w)
      else
        var r1 := Execute(fs, b, r.w, depth, fuel - 1);
        if r1.Normal? then Onward(fs, c, b, step, r1.w, depth, fuel - 1) else r1
  }

  function Onward(fs: Funcs, c: Expr, b: Stmt, step: Option<Stmt>, w: World, depth: int, fuel: nat): (r: StmtResult)
    ensures Shallow(w, depth) ==> r.NoTime? || r.w.peak <= MAX_DEPTH
    decreases fuel, 2
  {
    if step.None? then Repeat(fs, c, b, step, w, depth, fuel)
    else
      var r := Execute(fs, step.value, w, depth, fuel);
      if r.Normal? then Repeat(fs, c, b, step, r.w, depth, fuel) else r
  }

  function Format(fs: Funcs, format: string, args: seq<Expr>, i: nat, k: nat, acc: string, w: World, depth: int,
      fuel: nat): (r: ExprResult)
    ensures Shallow(w, depth) ==> r.OutOfTime? || r.w.peak <= MAX_DEPTH
    decreases fuel, 0
  {
    if fuel == 0 then OutOfTime
    else if i >= |format| then Value(0, Print(w, acc + "\n"))
    else if Two(format, i, '%', 'd') then
      if k < |args| then
        var r := Evaluate(fs, args[k], w, depth, fuel - 1);
        if r.Value? then Format(fs, format, args, i + 2, k + 1, acc + Itoa(r.v), r.w, depth, fuel - 1) else r
      else Format(fs, format, args, i + 2, k, acc, w, depth, fuel - 1)
    else if Two(format, i, '\\', 'n') then Format(fs, format, args, i + 2, k, acc + "\n", w, depth, fuel - 1)
    else Format(fs, format, args, i + 1, k, acc + [format[i]], w, depth, fuel - 1)
  }

  // ---- the flags compute the same ----

  function LiftExpr(r: ExprResult, m: Machine): Result {
    match r
    case Value(v, w) => Val(v, m.(w := w))
    case Ended(w) => Exited(w)
    case OutOfTime => Timeout
  }

  /** A returned value shows up as the flag and the value register. */
  function LiftStmt(r: StmtResult, m: Machine): Result {
    match r
    case Normal(w) => Val(0, m.(w := w))
    case Returned(v, w) => Val(0, m.(w := w, returned := true, retVal := v))
    case Stopped(w) => Exited(w)
    case NoTime => Timeout
  }

  function LiftParams(r: ParamResult, m: Machine): BindResult {
    match r
    case Scoped(scope, w) => Bound(scope, m.(w := w))
    case Unbound(w) => BindExited(w)
    case NoMore => BindTimeout
  }

  /** evalExpr computes what the structured semantics says, and leaves the flags and the call
      depth exactly as it found them. */
  lemma {:induction false} EvalAgrees(fs: Funcs, e: Expr, m: Machine, fuel: nat)
    ensures Eval(fs, e, m, fuel) == LiftExpr(Evaluate(fs, e, m.w, m.depth, fuel), m)
    decreases fuel, 3
  {
    hide CallFunc, Apply, PrintFrom, Format, Wrap64, Binary, LookupVar, SetVar, LookupArray, Complain;
    if fuel > 0 {
      match e
      case Neg(a) => EvalAgrees(fs, a, m, fuel - 1);
      case Bin(op, a, b) => BinAgrees(fs, op, a, b, m, fuel);
      case Assign(_, a) => EvalAgrees(fs, a, m, fuel - 1);
      case AssignIndex(a, i, b) => StoreAgrees(fs, a, i, b, m, fuel);
      case Index(_, i) => EvalAgrees(fs, i, m, fuel - 1);
      case Call(f, args) =>
        if f in fs {
          CallAgrees(fs, fs[f], args, m, fuel - 1);
        }
      case Println(format, args) => PrintAgrees(fs, format, args, 0, 0, "", m, fuel - 1);
      case _ =>
    }
  }

  lemma {:induction false} BinAgrees(fs: Funcs, op: Op, a: Expr, b: Expr, m: Machine, fuel: nat)
    requires fuel > 0
    ensures Eval(fs, Bin(op, a, b), m, fuel) == LiftExpr(Evaluate(fs, Bin(op, a, b), m.w, m.depth, fuel), m)
    decreases fuel, 2
  {
    hide CallFunc, Apply, PrintFrom, Format, Wrap64, Binary, LookupVar, SetVar, LookupArray, Complain;
    TwoAgree(fs, a, b, m, fuel - 1);
  }

  lemma {:induction false} StoreAgrees(fs: Funcs, a: Name, i: Expr, b: Expr, m: Machine, fuel: nat)
    requires fuel > 0
    ensures Eval(fs, AssignIndex(a, i, b), m, fuel)
            == LiftExpr(Evaluate(fs, AssignIndex(a, i, b), m.w, m.depth, fuel), m)
    decreases fuel, 2
  {
    hide CallFunc, Apply, PrintFrom, Format, Wrap64, Binary, LookupVar, SetVar, LookupArray, Complain;
    TwoAgree(fs, b, i, m, fuel - 1);
  }

  lemma {:induction false} TwoAgree(fs: Funcs, a: Expr, b: Expr, m: Machine, fuel: nat)
    ensures Eval(fs, a, m, fuel) == LiftExpr(Evaluate(fs, a, m.w, m.depth, fuel), m)
    ensures var r := Evaluate(fs, a, m.w, m.depth, fuel);
            r.Value? ==> Eval(fs, b, m.(w := r.w), fuel) == LiftExpr(Evaluate(fs, b, r.w, m.depth, fuel), m)
    decreases fuel, 4
  {
    hide Eval, Evaluate;
    EvalAgrees(fs, a, m, fuel);
    var r := Evaluate(fs, a, m.w, m.depth, fuel);
    if r.Value? {
      EvalAgrees(fs, b, m.(w := r.w), fuel);
    }
  }

  lemma {:induction false} CallAgrees(fs: Funcs, fn: Func, args: seq<Expr>, m: Machine, fuel: nat)
    ensures CallFunc(fs, fn, args, m, fuel) == LiftExpr(Apply(fs, fn, args, m.w, m.depth, fuel), m)
    decreases fuel, 0
  {
    hide Bind, Params, ExecBlock, Sequence, Complain;
    if fuel > 0 && m.depth < MAX_DEPTH {
      var m0 := m.(depth := m.depth + 1, w := Deeper(m.w, m.depth + 1));
      BindAgrees(fs, fn.params, args, 0, Scope(map[], map[]), m0, fuel - 1);
      var p := Params(fs, fn.params, args, 0, Scope(map[], map[]), m0.w, m0.depth, fuel - 1);
      if p.Scoped? {
        BlockAgrees(fs, fn.body, Machine(p.w.(local := Some(p.scope)), m0.depth, false, 0), fuel - 1);
      }
    }
  }

  lemma {:induction false} BindAgrees(fs: Funcs, ps: seq<Name>, args: seq<Expr>, i: nat, scope: Scope, m: Machine,
      fuel: nat)
    ensures Bind(fs, ps, args, i, scope, m, fuel) == LiftParams(Params(fs, ps, args, i, scope, m.w, m.depth, fuel), m)
    decreases fuel, 0
  {
    hide Eval, Evaluate, LookupArray;
    if fuel > 0 && i < |ps| && i < |args| {
      if args[i].Var? && LookupArray(m.w, args[i].x).Some? {
        BindAgrees(fs, ps, args, i + 1, scope.(arrays := scope.arrays[ps[i] := LookupArray(m.w, args[i].x).value]),
            m, fuel - 1);
      } else {
        EvalAgrees(fs, args[i], m, fuel - 1);
        var r := Evaluate(fs, args[i], m.w, m.depth, fuel - 1);
        if r.Value? {
          BindAgrees(fs, ps, args, i + 1, scope.(vars := scope.vars[ps[i] := r.v]), m.(w := r.w), fuel - 1);
        }
      }
    }
  }

  lemma {:induction false} BlockAgrees(fs: Funcs, ss: seq<Stmt>, m: Machine, fuel: nat)
    requires !m.returned && m.retVal == 0
    ensures ExecBlock(fs, ss, m, fuel) == LiftStmt(Sequence(fs, ss, m.w, m.depth, fuel), m)
    decreases fuel, 0
  {
    if fuel > 0 && ss != [] {
      StmtAgrees(fs, ss[0], m, fuel - 1);
      TimeNeeded(fs, ss[0], m, fuel - 1);
      hide Exec, Execute;
      var r := Execute(fs, ss[0], m.w, m.depth, fuel - 1);
      if r.Normal? {
        BlockAgrees(fs, ss[1..], m.(w := r.w), fuel - 1);
      }
    }
  }

  lemma TimeNeeded(fs: Funcs, s: Stmt, m: Machine, fuel: nat)
    ensures Execute(fs, s, m.w, m.depth, fuel).Returned? ==> fuel > 0
  {
  }

  lemma {:induction false} StmtAgrees(fs: Funcs, s: Stmt, m: Machine, fuel: nat)
    requires !m.returned && m.retVal == 0
    ensures Exec(fs, s, m, fuel) == LiftStmt(Execute(fs, s, m.w, m.depth, fuel), m)
    decreases fuel, 1
  {
    hide Eval, Evaluate, ExecBlock, Sequence, Loop, Repeat, PrintFrom, Format, DeclareVar, Complain;
    if fuel > 0 {
      match s
      case Block(ss) => BlockAgrees(fs, ss, m, fuel - 1);
      case VarDecl(_, Some(e)) => EvalAgrees(fs, e, m, fuel - 1);
      case ExprStmt(e) => EvalAgrees(fs, e, m, fuel - 1);
      case If(c, t, e) =>
        EvalAgrees(fs, c, m, fuel - 1);
        var r := Evaluate(fs, c, m.w, m.depth, fuel - 1);
        if r.Value? {
          if r.v != 0 {
            StmtAgrees(fs, t, m.(w := r.w), fuel - 1);
          } else if e.Some? {
            StmtAgrees(fs, e.value, m.(w := r.w), fuel - 1);
          }
        }
      case While(c, b) => LoopAgrees(fs, c, b, None, m, fuel - 1);
      case For(i, c, st, b) =>
        StmtAgrees(fs, i, m, fuel - 1);
        TimeNeeded(fs, i, m, fuel - 1);
        var r := Execute(fs, i, m.w, m.depth, fuel - 1);
        if r.Normal? {
          LoopAgrees(fs, c, b, Some(st), m.(w := r.w), fuel - 1);
        } else if r.Returned? {
          AfterReturn(fs, c, b, Some(st), m.(w := r.w, returned := true, retVal := r.v), fuel - 1);
        }
      case Return(Some(e)) => EvalAgrees(fs, e, m, fuel - 1);
      case PrintStmt(format, args) => PrintAgrees(fs, format, args, 0, 0, "", m, fuel - 1);
      case _ =>
    }
  }

  /** Once the flag is up, statements and loops do nothing. */
  lemma AfterReturn(fs: Funcs, c: Expr, b: Stmt, step: Option<Stmt>, m: Machine, fuel: nat)
    requires m.returned && fuel > 0
    ensures Loop(fs, c, b, step, m, fuel) == Val(0, m)
    ensures NextRound(fs, c, b, step, m, fuel) == Val(0, m)
  {
  }

  /** One round of a loop, both ways. */
  lemma OneRound(fs: Funcs, c: Expr, b: Stmt, step: Option<Stmt>, m: Machine, fuel: nat)
    requires !m.returned && fuel > 0
    ensures Loop(fs, c, b, step, m, fuel) ==
            (match Eval(fs, c, m, fuel - 1)
             case Val(v, m1) =>
               if v == 0 then Val(0, m1)
               else (match Exec(fs, b, m1, fuel - 1)
                     case Val(_, m2) => NextRound(fs, c, b, step, m2, fuel - 1)
                     case r => r)
             case r => r)
    ensures Repeat(fs, c, b, step, m.w, m.depth, fuel) ==
            (var r := Evaluate(fs, c, m.w, m.depth, fuel - 1);
             if !r.Value? then Then(r)
             else if r.v == 0 then Normal(r.w)
             else
               var r1 := Execute(fs, b, r.w, m.depth, fuel - 1);
               if r1.Normal? then Onward(fs, c, b, step, r1.w, m.depth, fuel - 1) else r1)
  {
    hide Eval, Evaluate, Exec, Execute, NextRound, Onward;
  }

  lemma {:induction false} LoopAgrees(fs: Funcs, c: Expr, b: Stmt, step: Option<Stmt>, m: Machine, fuel: nat)
    requires !m.returned && m.retVal == 0
    ensures Loop(fs, c, b, step, m, fuel) == LiftStmt(Repeat(fs, c, b, step, m.w, m.depth, fuel), m)
    decreases fuel, 0
  {
    hide Loop, Repeat, Eval, Evaluate, Exec, Execute, NextRound, Onward;
    if fuel > 0 {
      OneRound(fs, c, b, step, m, fuel);
      EvalAgrees(fs, c, m, fuel - 1);
      var r := Evaluate(fs, c, m.w, m.depth, fuel - 1);
      if r.Value? && r.v != 0 {
        StmtAgrees(fs, b, m.(w := r.w), fuel - 1);
        TimeNeeded(fs, b, m.(w := r.w), fuel - 1);
        var r1 := Execute(fs, b, r.w, m.depth, fuel - 1);
        if r1.Returned? {
          AfterReturn(fs, c, b, step, m.(w := r1.w, returned := true, retVal := r1.v), fuel - 1);
        } else if r1.Normal? {
          StepAgrees(fs, c, b, step, m.(w := r1.w), fuel - 1);
        }
      }
    } else {
      NoRound(fs, c, b, step, m);
    }
  }

  lemma NoRound(fs: Funcs, c: Expr, b: Stmt, step: Option<Stmt>, m: Machine)
    ensures Loop(fs, c, b, step, m, 0) == Timeout && Repeat(fs, c, b, step, m.w, m.depth, 0) == NoTime
  {
  }

  lemma {:induction false} StepAgrees(fs: Funcs, c: Expr, b: Stmt, step: Option<Stmt>, m: Machine, fuel: nat)
    requires !m.returned && m.retVal == 0
    ensures NextRound(fs, c, b, step, m, fuel) == LiftStmt(Onward(fs, c, b, step, m.w, m.depth, fuel), m)
    decreases fuel, 2
  {
    hide Exec, Execute, Loop, Repeat, NextRound, Onward;
    if step.None? {
      NextNone(fs, c, b, m, fuel);
      LoopAgrees(fs, c, b, step, m, fuel);
    } else {
      NextSome(fs, c, b, step.value, m, fuel);
      StmtAgrees(fs, step.value, m, fuel);
      TimeNeeded(fs, step.value, m, fuel);
      var r := Execute(fs, step.value, m.w, m.depth, fuel);
      if r.Normal? {
        LoopAgrees(fs, c, b, step, m.(w := r.w), fuel);
      } else if r.Returned? {
        AfterReturn(fs, c, b, step, m.(w := r.w, returned := true, retVal := r.v), fuel);
      }
    }
  }

  /** The step and then the loop again, both ways. */
  lemma NextSome(fs: Funcs, c: Expr, b: Stmt, st: Stmt, m: Machine, fuel: nat)
    ensures var r := Exec(fs, st, m, fuel);
            NextRound(fs, c, b, Some(st), m, fuel) == if r.Val? then Loop(fs, c, b, Some(st), r.m, fuel) else r
    ensures var r := Execute(fs, st, m.w, m.depth, fuel);
            Onward(fs, c, b, Some(st), m.w, m.depth, fuel) ==
            if r.Normal? then Repeat(fs, c, b, Some(st), r.w, m.depth, fuel) else r
  {
    hide Exec, Execute, Loop, Repeat;
  }

  lemma NextNone(fs: Funcs, c: Expr, b: Stmt, m: Machine, fuel: nat)
    ensures NextRound(fs, c, b, None, m, fuel) == Loop(fs, c, b, None, m, fuel)
    ensures Onward(fs, c, b, None, m.w, m.depth, fuel) == Repeat(fs, c, b, None, m.w, m.depth, fuel)
  {
    hide Exec, Execute, Loop, Repeat;
  }

  lemma {:induction false} PrintAgrees(fs: Funcs, format: string, args: seq<Expr>, i: nat, k: nat, acc: string,
      m: Machine, fuel: nat)
    ensures PrintFrom(fs, format, args, i, k, acc, m, fuel)
            == LiftExpr(Format(fs, format, args, i, k, acc, m.w, m.depth, fuel), m)
    ensures Format(fs, format, args, i, k, acc, m.w, m.depth, fuel).Value? ==>
              Format(fs, format, args, i, k, acc, m.w, m.depth, fuel).v == 0
    decreases fuel, 0
  {
    hide Eval, Evaluate, Itoa, Print;
    if fuel > 0 && i < |format| {
      if Two(format, i, '%', 'd') {
        if k < |args| {
          EvalAgrees(fs, args[k], m, fuel - 1);
          var r := Evaluate(fs, args[k], m.w, m.depth, fuel - 1);
          if r.Value? {
            PrintAgrees(fs, format, args, i + 2, k + 1, acc + Itoa(r.v), m.(w := r.w), fuel - 1);
          }
        } else {
          PrintAgrees(fs, format, args, i + 2, k, acc, m, fuel - 1);
        }
      } else if Two(format, i, '\\', 'n') {
        PrintAgrees(fs, format, args, i + 2, k, acc + "\n", m, fuel - 1);
      } else {
        PrintAgrees(fs, format, args, i + 1, k, acc + [format[i]], m, fuel - 1);
      }
    }
  }

  // ---- the budget does not matter, and the depth is bounded ----

  lemma {:induction false} MoreTimeExpr(fs: Funcs, e: Expr, w: World, depth: int, fuel: nat)
    requires Evaluate(fs, e, w, depth, fuel) != OutOfTime
    ensures Evaluate(fs, e, w, depth, fuel + 1) == Evaluate(fs, e, w, depth, fuel)
    decreases fuel, 3
  {
    hide Apply, Format, Wrap64, Binary, LookupVar, SetVar, LookupArray, Complain, Update, Select;
    match e
    case Neg(a) => MoreTimeExpr(fs, a, w, depth, fuel - 1);
    case Bin(op, a, b) => MoreTimeBin(fs, op, a, b, w, depth, fuel);
    case Assign(_, a) => MoreTimeExpr(fs, a, w, depth, fuel - 1);
    case AssignIndex(a, i, b) => MoreTimeStore(fs, a, i, b, w, depth, fuel);
    case Index(a, i) =>
      if LookupArray(w, a).Some? {
        MoreTimeExpr(fs, i, w, depth, fuel - 1);
      }
    case Call(f, args) =>
      if f in fs {
        MoreTimeCall(fs, fs[f], args, w, depth, fuel - 1);
      }
    case Println(format, args) => MoreTimePrint(fs, format, args, 0, 0, "", w, depth, fuel - 1);
    case _ =>
  }

  lemma {:induction false} MoreTimeBin(fs: Funcs, op: Op, a: Expr, b: Expr, w: World, depth: int, fuel: nat)
    requires Evaluate(fs, Bin(op, a, b), w, depth, fuel) != OutOfTime
    ensures Evaluate(fs, Bin(op, a, b), w, depth, fuel + 1) == Evaluate(fs, Bin(op, a, b), w, depth, fuel)
    decreases fuel, 2
  {
    hide Apply, Format, Wrap64, Binary, LookupVar, SetVar, LookupArray, Complain, Update, Select;
    MoreTimeTwo(fs, a, b, w, depth, fuel - 1);
  }

  lemma {:induction false} MoreTimeStore(fs: Funcs, a: Name, i: Expr, b: Expr, w: World, depth: int, fuel: nat)
    requires Evaluate(fs, AssignIndex(a, i, b), w, depth, fuel) != OutOfTime
    ensures Evaluate(fs, AssignIndex(a, i, b), w, depth, fuel + 1) == Evaluate(fs, AssignIndex(a, i, b), w, depth, fuel)
    decreases fuel, 2
  {
    hide Apply, Format, Wrap64, Binary, LookupVar, SetVar, LookupArray, Complain, Update, Select;
    MoreTimeTwo(fs, b, i, w, depth, fuel - 1);
  }

  lemma {:induction false} MoreTimeTwo(fs: Funcs, a: Expr, b: Expr, w: World, depth: int, fuel: nat)
    requires Evaluate(fs, a, w, depth, fuel) != OutOfTime
    requires var r := Evaluate(fs, a, w, depth, fuel);
             r.Value? ==> Evaluate(fs, b, r.w, depth, fuel) != OutOfTime
    ensures Evaluate(fs, a, w, depth, fuel + 1) == Evaluate(fs, a, w, depth, fuel)
    ensures var r := Evaluate(fs, a, w, depth, fuel);
            r.Value? ==> Evaluate(fs, b, r.w, depth, fuel + 1) == Evaluate(fs, b, r.w, depth, fuel)
    decreases fuel, 4
  {
    hide Evaluate;
    MoreTimeExpr(fs, a, w, depth, fuel);
    var r := Evaluate(fs, a, w, depth, fuel);
    if r.Value? {
      MoreTimeExpr(fs, b, r.w, depth, fuel);
    }
  }

  lemma {:induction false} MoreTimeCall(fs: Funcs, fn: Func, args: seq<Expr>, w: World, depth: int, fuel: nat)
    requires Apply(fs, fn, args, w, depth, fuel) != OutOfTime
    ensures Apply(fs, fn, args, w, depth, fuel + 1) == Apply(fs, fn, args, w, depth, fuel)
    decreases fuel, 0
  {
    hide Params, Sequence, Complain;
    if depth < MAX_DEPTH {
      var w0 := Deeper(w, depth + 1);
      MoreTimeParams(fs, fn.params, args, 0, Scope(map[], map[]), w0, depth + 1, fuel - 1);
      var p := Params(fs, fn.params, args, 0, Scope(map[], map[]), w0, depth + 1, fuel - 1);
      if p.Scoped? {
        MoreTimeBlock(fs, fn.body, p.w.(local := Some(p.scope)), depth + 1, fuel - 1);
      }
    }
  }

  lemma {:induction false} MoreTimeParams(fs: Funcs, ps: seq<Name>, args: seq<Expr>, i: nat, scope: Scope, w: World,
      depth: int, fuel: nat)
    requires Params(fs, ps, args, i, scope, w, depth, fuel) != NoMore
    ensures Params(fs, ps, args, i, scope, w, depth, fuel + 1) == Params(fs, ps, args, i, scope, w, depth, fuel)
    decreases fuel, 0
  {
    hide Evaluate, LookupArray;
    if i < |ps| && i < |args| {
      if args[i].Var? && LookupArray(w, args[i].x).Some? {
        MoreTimeParams(fs, ps, args, i + 1, scope.(arrays := scope.arrays[ps[i] := LookupArray(w, args[i].x).value]),
            w, depth, fuel - 1);
      } else {
        MoreTimeExpr(fs, args[i], w, depth, fuel - 1);
        var r := Evaluate(fs, args[i], w, depth, fuel - 1);
        if r.Value? {
          MoreTimeParams(fs, ps, args, i + 1, scope.(vars := scope.vars[ps[i] := r.v]), r.w, depth, fuel - 1);
        }
      }
    }
  }

  lemma {:induction false} MoreTimeBlock(fs: Funcs, ss: seq<Stmt>, w: World, depth: int, fuel: nat)
    requires Sequence(fs, ss, w, depth, fuel) != NoTime
    ensures Sequence(fs, ss, w, depth, fuel + 1) == Sequence(fs, ss, w, depth, fuel)
    decreases fuel, 0
  {
    hide Execute;
    if ss != [] {
      MoreTimeStmt(fs, ss[0], w, depth, fuel - 1);
      var r := Execute(fs, ss[0], w, depth, fuel - 1);
      if r.Normal? {
        MoreTimeBlock(fs, ss[1..], r.w, depth, fuel - 1);
      }
    }
  }

  lemma {:induction false} MoreTimeStmt(fs: Funcs, s: Stmt, w: World, depth: int, fuel: nat)
    requires Execute(fs, s, w, depth, fuel) != NoTime
    ensures Execute(fs, s, w, depth, fuel + 1) == Execute(fs, s, w, depth, fuel)
    decreases fuel, 1
  {
    hide Evaluate, Sequence, Repeat, Format, DeclareVar, Complain;
    match s
    case Block(ss) => MoreTimeBlock(fs, ss, w, depth, fuel - 1);
    case VarDecl(_, Some(e)) => MoreTimeExpr(fs, e, w, depth, fuel - 1);
    case ExprStmt(e) => MoreTimeExpr(fs, e, w, depth, fuel - 1);
    case If(c, t, e) =>
      MoreTimeExpr(fs, c, w, depth, fuel - 1);
      var r := Evaluate(fs, c, w, depth, fuel - 1);
      if r.Value? {
        if r.v != 0 {
          MoreTimeStmt(fs, t, r.w, depth, fuel - 1);
        } else if e.Some? {
          MoreTimeStmt(fs, e.value, r.w, depth, fuel - 1);
        }
      }
    case While(c, b) => MoreTimeLoop(fs, c, b, None, w, depth, fuel - 1);
    case For(i, c, st, b) =>
      MoreTimeStmt(fs, i, w, depth, fuel - 1);
      var r := Execute(fs, i, w, depth, fuel - 1);
      if r.Normal? {
        MoreTimeLoop(fs, c, b, Some(st), r.w, depth, fuel - 1);
      }
    case Return(Some(e)) => MoreTimeExpr(fs, e, w, depth, fuel - 1);
    case PrintStmt(format, args) => MoreTimePrint(fs, format, args, 0, 0, "", w, depth, fuel - 1);
    case _ =>
  }

  lemma {:induction false} MoreTimeLoop(fs: Funcs, c: Expr, b: Stmt, step: Option<Stmt>, w: World, depth: int,
      fuel: nat)
    requires Repeat(fs, c, b, step, w, depth, fuel) != NoTime
    ensures Repeat(fs, c, b, step, w, depth, fuel + 1) == Repeat(fs, c, b, step, w, depth, fuel)
    decreases fuel, 0
  {
    var m := Machine(w, depth, false, 0);
    NoRound(fs, c, b, step, m);
    hide Repeat, Evaluate, Execute, Onward, Loop, Eval, Exec, NextRound;
    OneRound(fs, c, b, step, m, fuel);
    OneRound(fs, c, b, step, m, fuel + 1);
    MoreTimeExpr(fs, c, w, depth, fuel - 1);
    var r := Evaluate(fs, c, w, depth, fuel - 1);
    if r.Value? && r.v != 0 {
      MoreTimeStmt(fs, b, r.w, depth, fuel - 1);
      var r1 := Execute(fs, b, r.w, depth, fuel - 1);
      if r1.Normal? {
        MoreTimeNext(fs, c, b, step, r1.w, depth, fuel - 1);
      }
    }
  }

  lemma {:induction false} MoreTimeNext(fs: Funcs, c: Expr, b: Stmt, step: Option<Stmt>, w: World, depth: int,
      fuel: nat)
    requires Onward(fs, c, b, step, w, depth, fuel) != NoTime
    ensures Onward(fs, c, b, step, w, depth, fuel + 1) == Onward(fs, c, b, step, w, depth, fuel)
    decreases fuel, 2
  {
    hide Execute, Repeat;
    if step.None? {
      MoreTimeLoop(fs, c, b, step, w, depth, fuel);
    } else {
      MoreTimeStmt(fs, step.value, w, depth, fuel);
      var r := Execute(fs, step.value, w, depth, fuel);
      if r.Normal? {
        MoreTimeLoop(fs, c, b, step, r.w, depth, fuel);
      }
    }
  }

  lemma {:induction false} MoreTimePrint(fs: Funcs, format: string, args: seq<Expr>, i: nat, k: nat, acc: string,
      w: World, depth: int, fuel: nat)
    requires Format(fs, format, args, i, k, acc, w, depth, fuel) != OutOfTime
    ensures Format(fs, format, args, i, k, acc, w, depth, fuel + 1)
            == Format(fs, format, args, i, k, acc, w, depth, fuel)
    decreases fuel, 0
  {
    hide Evaluate, Itoa, Print;
    if i < |format| {
      if Two(format, i, '%', 'd') {
        if k < |args| {
          MoreTimeExpr(fs, args[k], w, depth, fuel - 1);
          var r := Evaluate(fs, args[k], w, depth, fuel - 1);
          if r.Value? {
            MoreTimePrint(fs, format, args, i + 2, k + 1, acc + Itoa(r.v), r.w, depth, fuel - 1);
          }
        } else {
          MoreTimePrint(fs, format, args, i + 2, k, acc, w, depth, fuel - 1);
        }
      } else if Two(format, i, '\\', 'n') {
        MoreTimePrint(fs, format, args, i + 2, k, acc + "\n", w, depth, fuel - 1);
      } else {
        MoreTimePrint(fs, format, args, i + 1, k, acc + [format[i]], w, depth, fuel - 1);
      }
    }
  }

  // ---- what follows for the evaluator ----

  /** Every evaluation that completes leaves returned, retVal and the call depth as it found them,
      and no call is ever deeper than 256. */
  lemma EvalKeepsFlags(fs: Funcs, e: Expr, m: Machine, fuel: nat)
    requires Eval(fs, e, m, fuel).Val?
    ensures var m' := Eval(fs, e, m, fuel).m;
            && m'.returned == m.returned && m'.retVal == m.retVal && m'.depth == m.depth
            && (m.w.peak <= MAX_DEPTH && m.depth <= MAX_DEPTH ==> m'.w.peak <= MAX_DEPTH)
  {
    hide Eval, Evaluate;
    EvalAgrees(fs, e, m, fuel);
  }

  lemma {:induction false} MoreTime(fs: Funcs, e: Expr, w: World, depth: int, fuel: nat, more: nat)
    requires Evaluate(fs, e, w, depth, fuel) != OutOfTime && fuel <= more
    ensures Evaluate(fs, e, w, depth, more) == Evaluate(fs, e, w, depth, fuel)
    decreases more - fuel
  {
    hide Evaluate;
    if fuel < more {
      MoreTimeExpr(fs, e, w, depth, fuel);
      MoreTime(fs, e, w, depth, fuel + 1, more);
    }
  }

  /** Two budgets that both suffice give the same value, scopes, arrays and output. */
  lemma BudgetIrrelevant(fs: Funcs, e: Expr, m: Machine, fuel: nat, fuel': nat)
    requires Eval(fs, e, m, fuel) != Timeout && Eval(fs, e, m, fuel') != Timeout
    ensures Eval(fs, e, m, fuel) == Eval(fs, e, m, fuel')
  {
    hide Eval, Evaluate;
    EvalAgrees(fs, e, m, fuel);
    EvalAgrees(fs, e, m, fuel');
    if fuel <= fuel' {
      MoreTime(fs, e, m.w, m.depth, fuel, fuel');
    } else {
      MoreTime(fs, e, m.w, m.depth, fuel', fuel);
    }
  }
}
