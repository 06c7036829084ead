/** The Tiny C evaluator: return unwound with the flags `returned` and `retVal`, against a
    structured semantics in which a statement ends normally or returns a value
    (user/cmd/tinyc/eval.go:24-358). Both take a step budget so that looping programs are covered
    too: a result other than Timeout does not depend on the budget. */
module TinyCEval {
  import opened TinyCAst

  const MAX_DEPTH: nat := 256

  type Funcs = map<Name, Func>

  /** One scope; array names stand for positions in the array store, so that an array passed to a
      function is shared, not copied. */
  datatype Scope = Scope(vars: map<Name, int>, arrays: map<Name, nat>)

  /** Everything but the control flags. local is None while global initialisers run; peak is the
      deepest call so far. */
  datatype World = World(globals: Scope, local: Option<Scope>, store: seq<seq<int>>, out: string, peak: int)

  // ---- scopes ----

  function LookupVar(w: World, x: Name): Option<int> {
    if w.local.Some? && x in w.local.value.vars then Some(w.local.value.vars[x])
    else if x in w.globals.vars then Some(w.globals.vars[x])
    else None
  }

  /** Set where the name already lives, else in the current scope. */
  function SetVar(w: World, x: Name, v: int): World {
    if w.local.Some? && (x in w.local.value.vars || x !in w.globals.vars)
    then w.(local := Some(w.local.value.(vars := w.local.value.vars[x := v])))
    else w.(globals := w.globals.(vars := w.globals.vars[x := v]))
  }

  /** A declaration always makes the name in the current scope. */
  function DeclareVar(w: World, x: Name, v: int): World {
    if w.local.Some? then w.(local := Some(w.local.value.(vars := w.local.value.vars[x := v])))
    else w.(globals := w.globals.(vars := w.globals.vars[x := v]))
  }

  function LookupArray(w: World, a: Name): Option<nat> {
    if w.local.Some? && a in w.local.value.arrays then Some(w.local.value.arrays[a])
    else if a in w.globals.arrays then Some(w.globals.arrays[a])
    else None
  }

  function Print(w: World, s: string): World {
    w.(out := w.out + s)
  }

  function Complain(w: World, msg: string): World {
    Print(w, "tinyc: error: " + msg + "\n")
  }

  // ---- arithmetic ----

  const TWO63: int := 0x8000_0000_0000_0000

  function Wrap64(x: int): int {
    (x + TWO63) % (2 * TWO63) - TWO63
  }

  function Abs(x: int): nat {
    if x < 0 then -x else x
  }

  /** Division truncates toward zero. */
  function Quotient(a: int, b: int): int
    requires b != 0
  {
    if (a < 0) == (b < 0) then Abs(a) / Abs(b) else -(Abs(a) / Abs(b))
  }

  function Remainder(a: int, b: int): int
    requires b != 0
  {
    a - b * Quotient(a, b)
  }

  function Truth(b: bool): int {
    if b then 1 else 0
  }

  /** None is a division or remainder by zero. */
  function Binary(op: Op, a: int, b: int): Option<int> {
    match op
    case Plus => Some(Wrap64(a + b))
    case Minus => Some(Wrap64(a - b))
    case Star => Some(Wrap64(a * b))
    case Slash => if b == 0 then None else Some(Wrap64(Quotient(a, b)))
    case Percent => if b == 0 then None else Some(Wrap64(Remainder(a, b)))
    case Lt => Some(Truth(a < b))
    case Gt => Some(Truth(a > b))
    case Le => Some(Truth(a <= b))
    case Ge => Some(Truth(a >= b))
    case EqEq => Some(Truth(a == b))
    case Neq => Some(Truth(a != b))
  }

  function ZeroMessage(op: Op): string {
    if op == Slash then "division by zero" else "modulo by zero"
  }

  function Digits(n: nat): string {
    if n < 10 then [(n as char) + '0'] else Digits(n / 10) + [((n % 10) as char) + '0']
  }

  function Itoa(v: int): string {
    if v < 0 then "-" + Digits(-v) else Digits(v)
  }

  /** Signed 64-bit wrap-around: in range, and congruent modulo 2^64. */
  lemma WrapMeaning(x: int)
    ensures -TWO63 <= Wrap64(x) < TWO63
    ensures (x - Wrap64(x)) % (2 * TWO63) == 0
    ensures -TWO63 <= x < TWO63 ==> Wrap64(x) == x
  {
    var q := (x + TWO63) / (2 * TWO63);
    assert x - Wrap64(x) == 2 * TWO63 * q;
    Multiple(q);
  }

  lemma Multiple(q: int)
    ensures (2 * TWO63 * q) % (2 * TWO63) == 0
  {
  }

  /** Quotient and remainder recompose the dividend; the remainder is smaller than the divisor and
      takes the dividend's sign. */
  lemma DivisionTruncates(a: int, b: int)
    requires b != 0
    ensures a == b * Quotient(a, b) + Remainder(a, b)
    ensures Abs(Remainder(a, b)) < Abs(b)
    ensures a >= 0 ==> Remainder(a, b) >= 0
    ensures a <= 0 ==> Remainder(a, b) <= 0
  {
    var q, d: nat := Abs(a) / Abs(b), Abs(b);
    assert Abs(a) == d * q + Abs(a) % d;
    if (a < 0) == (b < 0) {
      assert b * q == (if b < 0 then -(d * q) else d * q);
    } else {
      assert b * -q == (if b < 0 then d * q else -(d * q));
    }
  }

  function ValueOf(s: string): int {
    if s == "" then 0 else 10 * ValueOf(s[..|s| - 1]) + (s[|s| - 1] as int - '0' as int)
  }

  /** What println writes for a number reads back as that number. */
  lemma {:induction false} DigitsValue(n: nat)
    ensures ValueOf(Digits(n)) == n
    decreases n
  {
    if n >= 10 {
      DigitsValue(n / 10);
      var s := Digits(n);
      assert s[..|s| - 1] == Digits(n / 10);
    } else {
      assert Digits(n)[..0] == "";
    }
  }

  /** An assignment is what the next lookup sees; it lands in the scope that owns the name, or in
      the current one; no other name and no array changes. */
  lemma SetThenLookup(w: World, x: Name, v: int, y: Name)
    ensures var w' := SetVar(w, x, v);
            && LookupVar(w', x) == Some(v)
            && (y != x ==> LookupVar(w', y) == LookupVar(w, y))
            && LookupArray(w', y) == LookupArray(w, y) && w'.store == w.store && w'.out == w.out
            && (w.local.Some? && x !in w.local.value.vars && x in w.globals.vars ==>
                  w'.local == w.local && w'.globals.vars == w.globals.vars[x := v])
            && (w.local.Some? && x !in w.globals.vars ==> w'.globals == w.globals)
  {
  }

  // ---- the flag-driven evaluator ----

  datatype Machine = Machine(w: World, depth: int, returned: bool, retVal: int)

  /** Exit(1) ends the program with what was printed so far. */
  datatype Result = Val(v: int, m: Machine) | Exited(w: World) | Timeout

  datatype BindResult = Bound(scope: Scope, m: Machine) | BindExited(w: World) | BindTimeout

  function Stop(m: Machine, msg: string): Result {
    Exited(Complain(m.w, msg))
  }

  function Eval(fs: Funcs, e: Expr, m: Machine, fuel: nat): Result
    decreases fuel, 1
  {
    if fuel == 0 then Timeout
    else
      match e
      case Num(n) => Val(n, m)
      case Str(_) => Stop(m, "unexpected expression kind")
      case Var(x) =>
        (match LookupVar(m.w, x)
         case Some(v) => Val(v, m)
         case None => Stop(m, "undefined variable '" + x + "'"))
      case Neg(a) =>
        (match Eval(fs, a, m, fuel - 1)
         case Val(v, m1) => Val(Wrap64(-v), m1)
         case r => r)
      case Bin(op, a, b) =>
        (match Eval(fs, a, m, fuel - 1)
         case Val(x, m1) =>
           (match Eval(fs, b, m1, fuel - 1)
            case Val(y, m2) =>
              (match Binary(op, x, y)
               case Some(v) => Val(v, m2)
               case None => Stop(m2, ZeroMessage(op)))
            case r => r)
         case r => r)
      case Assign(x, a) =>
        (match Eval(fs, a, m, fuel - 1)
         case Val(v, m1) => Val(v, m1.(w := SetVar(m1.w, x, v)))
         case r => r)
      case AssignIndex(a, i, b) =>
        (match Eval(fs, b, m, fuel - 1)
         case Val(v, m1) =>
           (match Eval(fs, i, m1, fuel - 1)
            case Val(k, m2) => StoreElement(m2, a, k, v)
            case r => r)
         case r => r)
      case Index(a, i) =>
        (match LookupArray(m.w, a)
         case None => Stop(m, "undefined array '" + a + "'")
         case Some(id) =>
           (match Eval(fs, i, m, fuel - 1)
            case Val(k, m1) => LoadElement(m1, a, id, k)
            case r => r))
      case Call(f, args) =>
        if f in fs then CallFunc(fs, fs[f], args, m, fuel - 1)
        else Stop(m, "undefined function '" + f + "'")
      case Println(format, args) => PrintFrom(fs, format, args, 0, 0, "", m, fuel - 1)
  }

  function StoreElement(m: Machine, a: Name, k: int, v: int): Result {
    match LookupArray(m.w, a)
    case None => Stop(m, "undefined array '" + a + "'")
    case Some(id) =>
      if id < |m.w.store| && 0 <= k < |m.w.store[id]|
      then Val(v, m.(w := m.w.(store := m.w.store[id := m.w.store[id][k := v]])))
      else Stop(m, "index out of bounds for '" + a + "'")
  }

  function LoadElement(m: Machine, a: Name, id: nat, k: int): Result {
    if id < |m.w.store| && 0 <= k < |m.w.store[id]| then Val(m.w.store[id][k], m)
    else Stop(m, "index out of bounds for '" + a + "'")
  }

  /** Two names for one array: what is stored through one is read through the other. */
  lemma SharedElement(m: Machine, a: Name, b: Name, k: int, v: int)
    requires LookupArray(m.w, a).Some? && LookupArray(m.w, a) == LookupArray(m.w, b)
    requires StoreElement(m, a, k, v).Val?
    ensures var m' := StoreElement(m, a, k, v).m;
            LookupArray(m'.w, b) == LookupArray(m.w, b)
            && LoadElement(m', b, LookupArray(m.w, b).value, k) == Val(v, m')
  {
  }

  function Deeper(w: World, depth: int): World {
    w.(peak := if w.peak < depth then depth else w.peak)
  }

  /** The depth counts the evaluation of the arguments too; the flags are saved after it. */
  function CallFunc(fs: Funcs, fn: Func, args: seq<Expr>, m: Machine, fuel: nat): Result
    decreases fuel, 0
  {
    if fuel == 0 then Timeout
    else if m.depth >= MAX_DEPTH then Stop(m, "call depth exceeded (max 256)")
    else
      match Bind(fs, fn.params, args, 0, Scope(map[], map[]),
                 m.(depth := m.depth + 1, w := Deeper(m.w, m.depth + 1)), fuel - 1)
      case BindExited(w) => Exited(w)
      case BindTimeout => Timeout
      case Bound(scope, m1) =>
        (match ExecBlock(fs, fn.body, m1.(w := m1.w.(local := Some(scope)), returned := false, retVal := 0), fuel - 1)
         case Val(_, m2) =>
           Val(m2.retVal, Machine(m2.w.(local := m1.w.local), m2.depth - 1, m1.returned, m1.retVal))
         case r => r)
  }

  /** Parameters i.. bound left to right: an array name is passed as the array, anything else as
      its value; parameters without an argument stay unbound. */
  function Bind(fs: Funcs, ps: seq<Name>, args: seq<Expr>, i: nat, scope: Scope, m: Machine, fuel: nat): BindResult
    decreases fuel, 0
  {
    if fuel == 0 then BindTimeout
    else if i >= |ps| || i >= |args| then Bound(scope, m)
    else if args[i].Var? && LookupArray(m.w, args[i].x).Some? then
      Bind(fs, ps, args, i + 1, scope.(arrays := scope.arrays[ps[i] := LookupArray(m.w, args[i].x).value]), m, fuel - 1)
    else
      match Eval(fs, args[i], m, fuel - 1)
      case Val(v, m1) => Bind(fs, ps, args, i + 1, scope.(vars := scope.vars[ps[i] := v]), m1, fuel - 1)
      case Exited(w) => BindExited(w)
      case Timeout => BindTimeout
  }

  function ExecBlock(fs: Funcs, ss: seq<Stmt>, m: Machine, fuel: nat): Result
    decreases fuel, 0
  {
    if fuel == 0 then Timeout
    else if ss == [] || m.returned then Val(0, m)
    else
      match Exec(fs, ss[0], m, fuel - 1)
      case Val(_, m1) => ExecBlock(fs, ss[1..], m1, fuel - 1)
      case r => r
  }

  function Exec(fs: Funcs, s: Stmt, m: Machine, fuel: nat): Result
    decreases fuel, 1
  {
    if fuel == 0 then Timeout
    else if m.returned then Val(0, m)
    else
      match s
      case Block(ss) => ExecBlock(fs, ss, m, fuel - 1)
      case VarDecl(x, None) => Val(0, m.(w := DeclareVar(m.w, x, 0)))
      case VarDecl(x, Some(e)) =>
        (match Eval(fs, e, m, fuel - 1)
         case Val(v, m1) => Val(0, m1.(w := DeclareVar(m1.w, x, v)))
         case r => r)
      case ExprStmt(e) =>
        (match Eval(fs, e, m, fuel - 1)
         case Val(_, m1) => Val(0, m1)
         case r => r)
      case If(c, t, e) =>
        (match Eval(fs, c, m, fuel - 1)
         case Val(v, m1) =>
           if v != 0 then Exec(fs, t, m1, fuel - 1)
           else if e.Some? then Exec(fs, e.value, m1, fuel - 1)
           else Val(0, m1)
         case r => r)
      case While(c, b) => Loop(fs, c, b, None, m, fuel - 1)
      case For(i, c, st, b) =>
        (match Exec(fs, i, m, fuel - 1)
         case Val(_, m1) => Loop(fs, c, b, Some(st), m1, fuel - 1)
         case r => r)
      case Return(None) => Val(0, m.(returned := true))
      case Return(Some(e)) =>
        (match Eval(fs, e, m, fuel - 1)
         case Val(v, m1) => Val(0, m1.(retVal := v, returned := true))
         case r => r)
      case PrintStmt(format, args) => PrintFrom(fs, format, args, 0, 0, "", m, fuel - 1)
      case Unexpected => Stop(m, "unexpected statement kind")
  }

  /** while, and the rest of a for: the step runs after the body and is skipped by a return. */
  function Loop(fs: Funcs, c: Expr, b: Stmt, step: Option<Stmt>, m: Machine, fuel: nat): Result
    decreases fuel, 0
  {
    if fuel == 0 then Timeout
    else if m.returned then Val(0, m)
    else
      match Eval(fs, c, m, fuel - 1)
      case Val(v, m1) =>
        if v == 0 then Val(0, m1)
        else
          (match Exec(fs, b, m1, fuel - 1)
           case Val(_, m2) => NextRound(fs, c, b, step, m2, fuel - 1)
           case r => r)
      case r => r
  }

  function NextRound(fs: Funcs, c: Expr, b: Stmt, step: Option<Stmt>, m: Machine, fuel: nat): Result
    decreases fuel, 2
  {
    if step.None? then Loop(fs, c, b, step, m, fuel)
    else
      match Exec(fs, step.value, m, fuel)
      case Val(_, m1) => Loop(fs, c, b, step, m1, fuel)
      case r => r
  }

  predicate Two(format: string, i: nat, a: char, b: char) {
    i + 1 < |format| && format[i] == a && format[i + 1] == b
  }

  /** The format from position i on, with acc the line so far and k arguments used. */
  function PrintFrom(fs: Funcs, format: string, args: seq<Expr>, i: nat, k: nat, acc: string, m: Machine,
      fuel: nat): Result
    decreases fuel, 0
  {
    if fuel == 0 then Timeout
    else if i >= |format| then Val(0, m.(w := Print(m.w, acc + "\n")))
    else if Two(format, i, '%', 'd') then
      if k < |args| then
        (match Eval(fs, args[k], m, fuel - 1)
         case Val(v, m1) => PrintFrom(fs, format, args, i + 2, k + 1, acc + Itoa(v), m1, fuel - 1)
         case r => r)
      else PrintFrom(fs, format, args, i + 2, k, acc, m, fuel - 1)
    else if Two(format, i, '\\', 'n') then PrintFrom(fs, format, args, i + 2, k, acc + "\n", m, fuel - 1)
    else PrintFrom(fs, format, args, i + 1, k, acc + [format[i]], m, fuel - 1)
  }
}
