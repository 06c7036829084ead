/** The evaluator as the interpreter runs it: scopes, arrays, output and flags changed in place
    (user/cmd/tinyc/eval.go:9-358). The ghost budget says only that the program being run ends;
    exited stands for the process having called Exit(1). */
module TinyCMachine {
  import opened TinyCAst
  import opened TinyCEval

  class Env {
    var vars: map<Name, int>
    var arrays: map<Name, nat>
    const parent: Env?

    constructor (p: Env?)
      ensures vars == map[] && arrays == map[] && parent == p
    {
      vars, arrays, parent := map[], map[], p;
    }
  }

  class Evaluator {
    const globals: Env
    const funcs: Funcs
    var store: seq<seq<int>>
    var out: string
    var callDepth: int
    var returned: bool
    var retVal: int
    ghost var peak: int

    constructor (fs: Funcs)
      ensures fresh(globals) && globals.parent == null && funcs == fs
      ensures callDepth == 0 && !returned && retVal == 0 && out == "" && store == [] && peak == 0
    {
      globals := new Env(null);
      funcs := fs;
      store, out, callDepth, returned, retVal := [], "", 0, false, 0;
      peak := 0;
    }

    ghost predicate Scoped(env: Env) {
      env == globals || env.parent == globals
    }

    ghost function WorldOf(env: Env): World
      reads this, globals, env
    {
      World(Scope(globals.vars, globals.arrays),
            if env == globals then None else Some(Scope(env.vars, env.arrays)), store, out, peak)
    }

    ghost function State(env: Env): Machine
      reads this, globals, env
    {
      Machine(WorldOf(env), callDepth, returned, retVal)
    }

    /** What a run to result r leaves behind. */
    ghost predicate Reached(env: Env, r: Result, v: int, exited: bool)
      reads this, globals, env
    {
      match r
      case Val(x, m) => !exited && v == x && State(env) == m
      case Exited(w) => exited && out == w.out
      case Timeout => false
    }

    function Var(env: Env, x: Name): (v: Option<int>)
      reads this, globals, env
      requires Scoped(env)
      ensures v == LookupVar(WorldOf(env), x)
    {
      if x in env.vars then Some(env.vars[x])
      else if env != globals && x in globals.vars then Some(globals.vars[x])
      else None
    }

    function Arr(env: Env, a: Name): (id: Option<nat>)
      reads this, globals, env
      requires Scoped(env)
      ensures id == LookupArray(WorldOf(env), a)
    {
      if a in env.arrays then Some(env.arrays[a])
      else if env != globals && a in globals.arrays then Some(globals.arrays[a])
      else None
    }

    method Set(env: Env, x: Name, v: int)
      requires Scoped(env)
      modifies globals, env
      ensures State(env) == old(State(env)).(w := SetVar(old(WorldOf(env)), x, v))
    {
      if x in env.vars {
        env.vars := env.vars[x := v];
      } else if env != globals && x in globals.vars {
        globals.vars := globals.vars[x := v];
      } else {
        env.vars := env.vars[x := v];
      }
    }

    method Fail(msg: string)
      modifies this`out
      ensures out == old(out) + ("tinyc: error: " + msg + "\n")
    {
      out := out + ("tinyc: error: " + msg + "\n");
    }

    method EvalExpr(e: Expr, env: Env, ghost fuel: nat) returns (v: int, exited: bool)
      requires Scoped(env) && Eval(funcs, e, State(env), fuel) != Timeout
      modifies this, globals, env
      ensures Reached(env, Eval(funcs, e, old(State(env)), fuel), v, exited)
      decreases fuel, 1
    {
      hide CallFunc, PrintFrom, Wrap64, Binary, LookupVar, LookupArray, SetVar;
      v, exited := 0, false;
      match e
      case Num(n) => v := n;
      case Str(_) =>
        Fail("unexpected expression kind");
        exited := true;
      case Var(x) =>
        var found := Var(env, x);
        if found.None? {
          Fail("undefined variable '" + x + "'");
          exited := true;
        } else {
          v := found.value;
        }
      case Neg(a) =>
        v, exited := EvalExpr(a, env, fuel - 1);
        v := Wrap64(-v);
      case Bin(op, a, b) => v, exited := EvalBin(op, a, b, env, fuel);
      case Assign(x, a) =>
        v, exited := EvalExpr(a, env, fuel - 1);
        if !exited {
          Set(env, x, v);
        }
      case AssignIndex(a, i, b) => v, exited := EvalStore(a, i, b, env, fuel);
      case Index(a, i) => v, exited := EvalIndex(a, i, env, fuel);
      case Call(f, args) =>
        if f !in funcs {
          Fail("undefined function '" + f + "'");
          exited := true;
        } else {
          v, exited := Invoke(funcs[f], args, env, fuel - 1);
        }
      case Println(format, args) =>
        exited := ExecPrintln(format, args, env, fuel - 1);
    }

    method EvalBin(op: Op, a: Expr, b: Expr, env: Env, ghost fuel: nat) returns (v: int, exited: bool)
      requires Scoped(env) && fuel > 0 && Eval(funcs, Bin(op, a, b), State(env), fuel) != Timeout
      modifies this, globals, env
      ensures Reached(env, Eval(funcs, Bin(op, a, b), old(State(env)), fuel), v, exited)
      decreases fuel, 0
    {
      hide CallFunc, PrintFrom, Wrap64, Binary, LookupVar, LookupArray, SetVar;
      var x, y;
      x, exited := EvalExpr(a, env, fuel - 1);
      if exited {
        return 0, true;
      }
      y, exited := EvalExpr(b, env, fuel - 1);
      if exited {
        return 0, true;
      }
      var z := Binary(op, x, y);
      if z.None? {
        Fail(ZeroMessage(op));
        return 0, true;
      }
      v := z.value;
    }

    method EvalStore(a: Name, i: Expr, b: Expr, env: Env, ghost fuel: nat) returns (v: int, exited: bool)
      requires Scoped(env) && fuel > 0 && Eval(funcs, AssignIndex(a, i, b), State(env), fuel) != Timeout
      modifies this, globals, env
      ensures Reached(env, Eval(funcs, AssignIndex(a, i, b), old(State(env)), fuel), v, exited)
      decreases fuel, 0
    {
      hide CallFunc, PrintFrom, Wrap64, Binary, LookupVar, LookupArray, SetVar;
      var k;
      v, exited := EvalExpr(b, env, fuel - 1);
      if exited {
        return;
      }
      k, exited := EvalExpr(i, env, fuel - 1);
      if exited {
        return;
      }
      var id := Arr(env, a);
      if id.None? {
        Fail("undefined array '" + a + "'");
        exited := true;
      } else if id.value < |store| && 0 <= k < |store[id.value]| {
        store := store[id.value := store[id.value][k := v]];
      } else {
        Fail("index out of bounds for '" + a + "'");
        exited := true;
      }
    }

    method EvalIndex(a: Name, i: Expr, env: Env, ghost fuel: nat) returns (v: int, exited: bool)
      requires Scoped(env) && fuel > 0 && Eval(funcs, Index(a, i), State(env), fuel) != Timeout
      modifies this, globals, env
      ensures Reached(env, Eval(funcs, Index(a, i), old(State(env)), fuel), v, exited)
      decreases fuel, 0
    {
      hide CallFunc, PrintFrom, Wrap64, Binary, LookupVar, LookupArray, SetVar;
      v := 0;
      var id := Arr(env, a);
      if id.None? {
        Fail("undefined array '" + a + "'");
        return 0, true;
      }
      var k;
      k, exited := EvalExpr(i, env, fuel - 1);
      if exited {
        return 0, true;
      }
      if id.value < |store| && 0 <= k < |store[id.value]| {
        v := store[id.value][k];
      } else {
        Fail("index out of bounds for '" + a + "'");
        exited := true;
      }
    }

    /** The parameter loop of callFunc, into a scope just made. */
    method BindParams(fn: Func, args: seq<Expr>, env: Env, local: Env, ghost fuel: nat) returns (exited: bool)
      requires Scoped(env) && local != env && local != globals && local.vars == map[] && local.arrays == map[]
      requires Bind(funcs, fn.params, args, 0, Scope(map[], map[]), State(env), fuel) != BindTimeout
      modifies this, globals, env, local
      ensures match Bind(funcs, fn.params, args, 0, Scope(map[], map[]), old(State(env)), fuel)
              case Bound(scope, m) => !exited && State(env) == m && scope == Scope(local.vars, local.arrays)
              case BindExited(w) => exited && out == w.out
              case BindTimeout => false
      decreases fuel, 0
    {
      hide Eval, LookupArray, LookupVar;
      exited := false;
      ghost var all := Bind(funcs, fn.params, args, 0, Scope(map[], map[]), State(env), fuel);
      ghost var f: nat := fuel;
      var i := 0;
      while i < |fn.params|
        invariant 0 <= i <= |fn.params| && 0 <= f <= fuel
        invariant Bind(funcs, fn.params, args, i, Scope(local.vars, local.arrays), State(env), f) == all
      {
        if i < |args| {
          var isArray := args[i].Var? && Arr(env, args[i].x).Some?;
          if isArray {
            local.arrays := local.arrays[fn.params[i] := Arr(env, args[i].x).value];
          } else {
            var v;
            v, exited := EvalExpr(args[i], env, f - 1);
            if exited {
              return;
            }
            local.vars := local.vars[fn.params[i] := v];
          }
          f := f - 1;
        }
        i := i + 1;
      }
    }

    /** callFunc. */
    method Invoke(fn: Func, args: seq<Expr>, env: Env, ghost fuel: nat) returns (v: int, exited: bool)
      requires Scoped(env) && CallFunc(funcs, fn, args, State(env), fuel) != Timeout
      modifies this, globals, env
      ensures Reached(env, CallFunc(funcs, fn, args, old(State(env)), fuel), v, exited)
      decreases fuel, 0
    {
      hide Bind, TinyCEval.ExecBlock;
      if callDepth >= MAX_DEPTH {
        Fail("call depth exceeded (max 256)");
        return 0, true;
      }
      callDepth := callDepth + 1;
      peak := if peak < callDepth then callDepth else peak;
      var local := new Env(globals);
      exited := BindParams(fn, args, env, local, fuel - 1);
      if exited {
        return 0, true;
      }
      v, exited := RunBody(fn.body, local, fuel - 1);
      if exited {
        return 0, true;
      }
      callDepth := callDepth - 1;
    }

    /** The body of a call: flags saved, cleared for the body, and restored. */
    method RunBody(body: seq<Stmt>, local: Env, ghost fuel: nat) returns (v: int, exited: bool)
      requires Scoped(local)
      requires TinyCEval.ExecBlock(funcs, body, State(local).(returned := false, retVal := 0), fuel) != Timeout
      modifies this, globals, local
      ensures var r := TinyCEval.ExecBlock(funcs, body, old(State(local)).(returned := false, retVal := 0), fuel);
              match r
              case Val(_, m) =>
                !exited && v == m.retVal && State(local) == m.(returned := old(returned), retVal := old(retVal))
              case Exited(w) => exited && out == w.out
              case Timeout => false
      decreases fuel, 1
    {
      hide TinyCEval.ExecBlock;
      var oldReturned, oldRetVal := returned, retVal;
      returned, retVal := false, 0;
      exited := ExecBlock(body, local, fuel);
      v := retVal;
      returned, retVal := oldReturned, oldRetVal;
    }

    method ExecBlock(ss: seq<Stmt>, env: Env, ghost fuel: nat) returns (exited: bool)
      requires Scoped(env) && TinyCEval.ExecBlock(funcs, ss, State(env), fuel) != Timeout
      modifies this, globals, env
      ensures Reached(env, TinyCEval.ExecBlock(funcs, ss, old(State(env)), fuel), 0, exited)
      decreases fuel, 0
    {
      hide Exec;
      exited := false;
      ghost var all := TinyCEval.ExecBlock(funcs, ss, State(env), fuel);
      ghost var f: nat := fuel;
      var i := 0;
      assert ss[0..] == ss;
      while i < |ss|
        invariant 0 <= i <= |ss| && 0 <= f <= fuel
        invariant TinyCEval.ExecBlock(funcs, ss[i..], State(env), f) == all
      {
        if returned {
          return;
        }
        assert ss[i..][1..] == ss[i + 1..];
        exited := ExecStmt(ss[i], env, f - 1);
        if exited {
          return;
        }
        f := f - 1;
        i := i + 1;
      }
    }

    method ExecStmt(s: Stmt, env: Env, ghost fuel: nat) returns (exited: bool)
      requires Scoped(env) && Exec(funcs, s, State(env), fuel) != Timeout
      modifies this, globals, env
      ensures Reached(env, Exec(funcs, s, old(State(env)), fuel), 0, exited)
      decreases fuel, 1
    {
      hide Eval, TinyCEval.ExecBlock, Loop, PrintFrom;
      exited := false;
      if returned {
        return;
      }
      var v;
      match s
      case Block(ss) => exited := ExecBlock(ss, env, fuel - 1);
      case VarDecl(x, init) =>
        v := 0;
        if init.Some? {
          v, exited := EvalExpr(init.value, env, fuel - 1);
          if exited {
            return;
          }
        }
        env.vars := env.vars[x := v];
      case ExprStmt(e) => v, exited := EvalExpr(e, env, fuel - 1);
      case If(c, t, e) =>
        v, exited := EvalExpr(c, env, fuel - 1);
        if exited {
          return;
        }
        if v != 0 {
          exited := ExecStmt(t, env, fuel - 1);
        } else if e.Some? {
          exited := ExecStmt(e.value, env, fuel - 1);
        }
      case While(c, b) => exited := ExecLoop(c, b, None, env, fuel - 1);
      case For(i, c, st, b) =>
        exited := ExecStmt(i, env, fuel - 1);
        if exited {
          return;
        }
        exited := ExecLoop(c, b, Some(st), env, fuel - 1);
      case Return(e) =>
        if e.Some? {
          v, exited := EvalExpr(e.value, env, fuel - 1);
          if exited {
            return;
          }
          retVal := v;
        }
        returned := true;
      case PrintStmt(format, args) => exited := ExecPrintln(format, args, env, fuel - 1);
      case Unexpected =>
        Fail("unexpected statement kind");
        exited := true;
    }

    /** The loops of while and for. */
    method ExecLoop(c: Expr, b: Stmt, step: Option<Stmt>, env: Env, ghost fuel: nat) returns (exited: bool)
      requires Scoped(env) && Loop(funcs, c, b, step, State(env), fuel) != Timeout
      modifies this, globals, env
      ensures Reached(env, Loop(funcs, c, b, step, old(State(env)), fuel), 0, exited)
      decreases fuel, 2
    {
      hide Loop;
      exited := false;
      ghost var f: nat := fuel;
      while !returned
        invariant 0 <= f <= fuel && !exited
        invariant Loop(funcs, c, b, step, State(env), f) == Loop(funcs, c, b, step, old(State(env)), fuel)
        decreases f
      {
        var over;
        over, exited := ExecRound(c, b, step, env, f);
        if over {
          return;
        }
        f := f - 1;
      }
      LoopEnds(c, b, step, State(env), f);
    }

    /** One round; over when the condition failed or the program exited. */
    method ExecRound(c: Expr, b: Stmt, step: Option<Stmt>, env: Env, ghost fuel: nat) returns (over: bool, exited: bool)
      requires Scoped(env) && !returned && Loop(funcs, c, b, step, State(env), fuel) != Timeout
      modifies this, globals, env
      ensures fuel > 0
      ensures over ==> Reached(env, Loop(funcs, c, b, step, old(State(env)), fuel), 0, exited)
      ensures !over ==> !exited
      ensures !over ==>
                Loop(funcs, c, b, step, State(env), fuel - 1) == Loop(funcs, c, b, step, old(State(env)), fuel)
      decreases fuel, 1
    {
      hide Eval, Exec, Loop, NextRound;
      over, exited := true, false;
      RoundIs(funcs, c, b, step, State(env), fuel);
      var v;
      v, exited := EvalExpr(c, env, fuel - 1);
      if exited || v == 0 {
        return;
      }
      exited := ExecStmt(b, env, fuel - 1);
      if exited {
        return;
      }
      exited := ExecStep(c, b, step, env, fuel - 1);
      over := exited;
    }

    /** What a for loop does between its body and its next condition. */
    method ExecStep(c: Expr, b: Stmt, step: Option<Stmt>, env: Env, ghost fuel: nat) returns (exited: bool)
      requires Scoped(env) && NextRound(funcs, c, b, step, State(env), fuel) != Timeout
      modifies this, globals, env
      ensures exited ==> Reached(env, NextRound(funcs, c, b, step, old(State(env)), fuel), 0, exited)
      ensures !exited ==>
                Loop(funcs, c, b, step, State(env), fuel) == NextRound(funcs, c, b, step, old(State(env)), fuel)
      decreases fuel, 2
    {
      hide Eval, Exec, Loop, NextRound;
      NextIs(funcs, c, b, step, State(env), fuel);
      exited := false;
      if step.Some? {
        exited := ExecStmt(step.value, env, fuel);
      }
    }

    lemma LoopEnds(c: Expr, b: Stmt, step: Option<Stmt>, m: Machine, fuel: nat)
      requires m.returned && Loop(funcs, c, b, step, m, fuel) != Timeout
      ensures Loop(funcs, c, b, step, m, fuel) == Val(0, m)
    {
    }

    method ExecPrintln(format: string, args: seq<Expr>, env: Env, ghost fuel: nat) returns (exited: bool)
      requires Scoped(env) && PrintFrom(funcs, format, args, 0, 0, "", State(env), fuel) != Timeout
      modifies this, globals, env
      ensures Reached(env, PrintFrom(funcs, format, args, 0, 0, "", old(State(env)), fuel), 0, exited)
      decreases fuel, 0
    {
      hide Eval, Itoa;
      exited := false;
      ghost var all := PrintFrom(funcs, format, args, 0, 0, "", State(env), fuel);
      ghost var f: nat := fuel;
      var i, argIdx, line := 0, 0, "";
      while i < |format|
        invariant 0 <= i && 0 <= argIdx && 0 <= f <= fuel
        invariant PrintFrom(funcs, format, args, i, argIdx, line, State(env), f) == all
        decreases |format| - i
      {
        if i + 1 < |format| && format[i] == '%' && format[i + 1] == 'd' {
          if argIdx < |args| {
            var v;
            v, exited := EvalExpr(args[argIdx], env, f - 1);
            if exited {
              return;
            }
            line := line + Itoa(v);
            argIdx := argIdx + 1;
          }
          i := i + 2;
        } else if i + 1 < |format| && format[i] == '\\' && format[i + 1] == 'n' {
          line := line + "\n";
          i := i + 2;
        } else {
          line := line + [format[i]];
          i := i + 1;
        }
        f := f - 1;
      }
      out := out + (line + "\n");
    }
  }

  /** One round of the flag-driven loop. */
  lemma RoundIs(fs: Funcs, c: Expr, b: Stmt, step: Option<Stmt>, m: Machine, fuel: nat)
    requires !m.returned && Loop(fs, c, b, step, m, fuel) != Timeout
    ensures fuel > 0
    ensures var r := Eval(fs, c, m, fuel - 1);
            Loop(fs, c, b, step, m, fuel) ==
            if !r.Val? then r else if r.v == 0 then Val(0, r.m) else AfterBody(fs, c, b, step, r.m, fuel - 1)
  {
    hide Eval, Exec, NextRound;
  }

  ghost function AfterBody(fs: Funcs, c: Expr, b: Stmt, step: Option<Stmt>, m: Machine, fuel: nat): Result {
    var r := Exec(fs, b, m, fuel);
    if r.Val? then NextRound(fs, c, b, step, r.m, fuel) else r
  }

  lemma NextIs(fs: Funcs, c: Expr, b: Stmt, step: Option<Stmt>, m: Machine, fuel: nat)
    ensures step.None? ==> NextRound(fs, c, b, step, m, fuel) == Loop(fs, c, b, step, m, fuel)
    ensures step.Some? ==>
              NextRound(fs, c, b, step, m, fuel) == ThenLoop(fs, c, b, step, Exec(fs, step.value, m, fuel), fuel)
  {
    hide Exec, Loop;
  }

  ghost function ThenLoop(fs: Funcs, c: Expr, b: Stmt, step: Option<Stmt>, r: Result, fuel: nat): Result {
    if r.Val? then Loop(fs, c, b, step, r.m, fuel) else r
  }
}
