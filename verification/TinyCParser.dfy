/** The Tiny C expression parser as a function of the remaining tokens, and the round trip from a
    tree through its tokens with only the parentheses its precedence levels need
    (user/cmd/tinyc/parser.go:184-321). */
module TinyCParser {
  import opened TinyCAst

  /** Tokens an expression may contain; Other is any token that cannot, such as a semicolon. The
      end of the input is the end of the list. */
  datatype Token =
    | TNum(n: int)
    | TStr(s: string)
    | TIdent(x: Name)
    | TPrintln
    | TOp(op: Op)
    | TAssign
    | TLParen
    | TRParen
    | TLBracket
    | TRBracket
    | TComma
    | TOther(kind: nat)

  datatype Parsed = Ok(e: Expr, rest: seq<Token>) | Err

  datatype ParsedArgs = ArgsOk(es: seq<Expr>, rest: seq<Token>) | ArgsErr

  /** Binary precedence: 1 comparisons, 2 sums, 3 products. */
  function LevelOf(op: Op): (k: nat)
    ensures 1 <= k <= 3
  {
    match op
    case Plus => 2
    case Minus => 2
    case Star => 3
    case Slash => 3
    case Percent => 3
    case _ => 1
  }

  predicate At(ts: seq<Token>, t: Token) {
    ts != [] && ts[0] == t
  }

  predicate AtOp(ts: seq<Token>, k: nat) {
    ts != [] && ts[0].TOp? && LevelOf(ts[0].op) == k
  }

  // ---- the parser ----

  function ParseExpr(ts: seq<Token>): (r: Parsed)
    ensures r.Ok? ==> |r.rest| < |ts|
    decreases |ts|, 7
  {
    var r := ParseLevel(1, ts);
    if r.Err? || !At(r.rest, TAssign) then r
    else
      var v := ParseExpr(r.rest[1..]);
      if v.Err? then Err
      else if r.e.Var? then Ok(Assign(r.e.x, v.e), v.rest)
      else if r.e.Index? then Ok(AssignIndex(r.e.a, r.e.i, v.e), v.rest)
      else Err
  }

  /** parseCmp, parseAdd and parseMul: operands of the next level joined left to right. */
  function ParseLevel(k: nat, ts: seq<Token>): (r: Parsed)
    requires 1 <= k <= 4
    ensures r.Ok? ==> |r.rest| < |ts|
    decreases |ts|, 6 - k
  {
    if k == 4 then ParseUnary(ts)
    else
      var r := ParseLevel(k + 1, ts);
      if r.Err? then Err else ParseMore(k, r.e, r.rest)
  }

  function ParseMore(k: nat, left: Expr, ts: seq<Token>): (r: Parsed)
    requires 1 <= k <= 3
    ensures r.Ok? ==> |r.rest| <= |ts|
    decreases |ts|, 6
  {
    if !AtOp(ts, k) then Ok(left, ts)
    else
      var r := ParseLevel(k + 1, ts[1..]);
      if r.Err? then Err else ParseMore(k, Bin(ts[0].op, left, r.e), r.rest)
  }

  function ParseUnary(ts: seq<Token>): (r: Parsed)
    ensures r.Ok? ==> |r.rest| < |ts|
    decreases |ts|, 1
  {
    if At(ts, TOp(Minus)) then
      var r := ParsePrimary(ts[1..]);
      if r.Err? then Err else Ok(Neg(r.e), r.rest)
    else ParsePrimary(ts)
  }

  /** Skip an expected token. */
  function Expect(r: Parsed, t: Token): Parsed {
    if r.Ok? && At(r.rest, t) then Ok(r.e, r.rest[1..]) else Err
  }

  function ParsePrimary(ts: seq<Token>): (r: Parsed)
    ensures r.Ok? ==> |r.rest| < |ts|
    decreases |ts|, 0
  {
    if ts == [] then Err
    else
      match ts[0]
      case TNum(n) => Ok(Num(n), ts[1..])
      case TStr(s) => Ok(Str(s), ts[1..])
      case TLParen => Expect(ParseExpr(ts[1..]), TRParen)
      case TPrintln => if At(ts[1..], TLParen) then ParsePrintln(ts[2..]) else Err
      case TIdent(x) =>
        if At(ts[1..], TLParen) then
          (match ParseArgs(ts[2..])
           case ArgsOk(es, rest) => Ok(Call(x, es), rest)
           case ArgsErr => Err)
        else if At(ts[1..], TLBracket) then
          var r := Expect(ParseExpr(ts[2..]), TRBracket);
          if r.Err? then Err else Ok(Index(x, r.e), r.rest)
        else Ok(Var(x), ts[1..])
      case _ => Err
  }

  /** Call arguments up to and including the closing parenthesis. */
  function ParseArgs(ts: seq<Token>): (r: ParsedArgs)
    ensures r.ArgsOk? ==> |r.rest| < |ts|
    decreases |ts|, 8
  {
    if At(ts, TRParen) then ArgsOk([], ts[1..])
    else
      var r := ParseExpr(ts);
      if r.Err? then ArgsErr else ParseTail([r.e], r.rest)
  }

  /** The rest of an argument list, after its first expression. */
  function ParseTail(es: seq<Expr>, ts: seq<Token>): (r: ParsedArgs)
    ensures r.ArgsOk? ==> |r.rest| < |ts|
    decreases |ts|, 8
  {
    if At(ts, TComma) then
      var r := ParseExpr(ts[1..]);
      if r.Err? then ArgsErr else ParseTail(es + [r.e], r.rest)
    else if At(ts, TRParen) then ArgsOk(es, ts[1..])
    else ArgsErr
  }

  /** After "println(": a leading string is the format; anything else prints as "%d". */
  function ParsePrintln(ts: seq<Token>): (r: Parsed)
    ensures r.Ok? ==> |r.rest| < |ts|
    decreases |ts|, 8
  {
    var r := ParseExpr(ts);
    if r.Err? then Err
    else if r.e.Str? then
      (match ParseTail([], r.rest)
       case ArgsOk(es, rest) => Ok(Println(r.e.s, es), rest)
       case ArgsErr => Err)
    else if At(r.rest, TRParen) then Ok(Println("%d", [r.e]), r.rest[1..])
    else Err
  }

  // ---- rendering ----

  function Level(e: Expr): nat {
    match e
    case Assign(_, _) => 0
    case AssignIndex(_, _, _) => 0
    case Bin(op, _, _) => LevelOf(op)
    case Neg(_) => 4
    case _ => 5
  }

  /** The tokens of e where an expression of level k or tighter is wanted. */
  function Show(e: Expr, k: nat): seq<Token>
    decreases e, 1
  {
    if Level(e) < k then [TLParen] + Bare(e) + [TRParen] else Bare(e)
  }

  function Bare(e: Expr): seq<Token>
    decreases e, 0
  {
    match e
    case Num(n) => [TNum(n)]
    case Str(s) => [TStr(s)]
    case Var(x) => [TIdent(x)]
    case Neg(a) => [TOp(Minus)] + Show(a, 5)
    case Bin(op, l, r) => Show(l, LevelOf(op)) + [TOp(op)] + Show(r, LevelOf(op) + 1)
    case Assign(x, r) => [TIdent(x), TAssign] + Show(r, 0)
    case AssignIndex(a, i, r) => [TIdent(a), TLBracket] + Show(i, 0) + [TRBracket, TAssign] + Show(r, 0)
    case Index(a, i) => [TIdent(a), TLBracket] + Show(i, 0) + [TRBracket]
    case Call(f, args) => [TIdent(f), TLParen] + ShowArgs(args) + [TRParen]
    case Println(format, args) => [TPrintln, TLParen, TStr(format)] + ShowTail(args) + [TRParen]
  }

  /** Arguments separated by commas. */
  function ShowArgs(args: seq<Expr>): seq<Token>
    decreases args, 1
  {
    if args == [] then [] else Show(args[0], 0) + ShowTail(args[1..])
  }

  /** Arguments each after a comma. */
  function ShowTail(args: seq<Expr>): seq<Token>
    decreases args, 0
  {
    if args == [] then [] else [TComma] + Show(args[0], 0) + ShowTail(args[1..])
  }

  // ---- what may follow an expression ----

  /** The token after an expression of level k must not be one the parser would go on with. */
  predicate Stops(k: nat, ts: seq<Token>) {
    ts == [] ||
    (&& ts[0] != TLParen && ts[0] != TLBracket
     && (k == 0 ==> ts[0] != TAssign)
     && !(ts[0].TOp? && LevelOf(ts[0].op) >= k))
  }

  function ParseAt(k: nat, ts: seq<Token>): Parsed
    requires k <= 5
  {
    if k == 0 then ParseExpr(ts) else if k == 5 then ParsePrimary(ts) else ParseLevel(k, ts)
  }

  /** What parses at a tight level parses at a looser one, if nothing that follows belongs to it. */
  lemma {:induction false} Up(ts: seq<Token>, e: Expr, rest: seq<Token>, j: nat, k: nat)
    requires k <= j <= 4 && 1 <= j && ParseLevel(j, ts) == Ok(e, rest) && Stops(k, rest)
    ensures ParseAt(k, ts) == Ok(e, rest)
    decreases j
  {
    hide ParseUnary;
    if k < j {
      if j == 1 {
        assert ParseExpr(ts) == Ok(e, rest);
      } else {
        assert ParseLevel(j - 1, ts) == ParseMore(j - 1, e, rest) == Ok(e, rest);
        Up(ts, e, rest, j - 1, k);
      }
    }
  }

  lemma FromPrimary(ts: seq<Token>, e: Expr, rest: seq<Token>, k: nat)
    requires ParsePrimary(ts) == Ok(e, rest) && !At(ts, TOp(Minus)) && k <= 5 && Stops(k, rest)
    ensures ParseAt(k, ts) == Ok(e, rest)
  {
    if k < 5 {
      assert ParseLevel(4, ts) == Ok(e, rest);
      Up(ts, e, rest, 4, k);
    }
  }

  predicate StartsExpr(t: Token) {
    t.TNum? || t.TStr? || t.TIdent? || t.TPrintln? || t == TOp(Minus) || t == TLParen
  }

  lemma {:induction false} Starts(e: Expr)
    ensures Bare(e) != [] && StartsExpr(Bare(e)[0])
    decreases e
  {
    match e
    case Bin(op, l, r) =>
      Starts(l);
      assert Show(l, LevelOf(op)) != [];
      assert Bare(e)[0] == Show(l, LevelOf(op))[0];
    case _ =>
  }

  lemma ShowStarts(e: Expr, k: nat)
    ensures Show(e, k) != [] && StartsExpr(Show(e, k)[0])
  {
    Starts(e);
  }

  // ---- the round trip ----

  /** Tokens of e at its own level, at any looser level k. */
  lemma {:induction false} Plain(e: Expr, k: nat, rest: seq<Token>)
    requires k <= Level(e) && k <= 5 && Stops(k, rest)
    ensures ParseAt(k, Bare(e) + rest) == Ok(e, rest)
    decreases e, 1
  {
    hide ParseLevel, ParseExpr, ParsePrimary, ParseMore;
    match e
    case Neg(a) =>
      Wrapped(a, 5, rest);
      UnaryMinus(a, rest);
      Up(Bare(e) + rest, e, rest, 4, k);
    case Bin(op, l, r) =>
      var j := LevelOf(op);
      ChainBin(op, l, r, rest);
      NoMore(j, e, rest);
      Up(Bare(e) + rest, e, rest, j, k);
    case Assign(x, r) =>
      Wrapped(r, 0, rest);
      AssignVar(x, r, rest);
    case AssignIndex(a, i, r) =>
      Wrapped(i, 0, [TRBracket, TAssign] + Show(r, 0) + rest);
      Wrapped(r, 0, rest);
      AssignElement(a, i, r, rest);
    case _ =>
      Primary(e, rest);
      Starts(e);
      PrimaryNotMinus(e, rest);
      FromPrimary(Bare(e) + rest, e, rest, k);
  }

  lemma PrimaryNotMinus(e: Expr, rest: seq<Token>)
    requires Level(e) == 5
    ensures !At(Bare(e) + rest, TOp(Minus))
  {
  }

  /** With parentheses where they are needed, at any level. */
  lemma {:induction false} Wrapped(e: Expr, k: nat, rest: seq<Token>)
    requires k <= 5 && Stops(k, rest)
    ensures ParseAt(k, Show(e, k) + rest) == Ok(e, rest)
    decreases e, 2
  {
    hide ParseLevel, ParseExpr;
    if Level(e) >= k {
      Plain(e, k, rest);
    } else {
      var inner := [TRParen] + rest;
      Plain(e, 0, inner);
      var ts := Show(e, k) + rest;
      assert ts == [TLParen] + (Bare(e) + inner);
      assert ts[1..] == Bare(e) + inner && inner[1..] == rest;
      assert ParsePrimary(ts) == Ok(e, rest);
      FromPrimary(ts, e, rest, k);
    }
  }

  lemma UnaryMinus(a: Expr, rest: seq<Token>)
    requires ParsePrimary(Show(a, 5) + rest) == Ok(a, rest)
    ensures ParseLevel(4, Bare(Neg(a)) + rest) == Ok(Neg(a), rest)
  {
    var ts := Bare(Neg(a)) + rest;
    assert ts[1..] == Show(a, 5) + rest;
    hide Show, ParsePrimary;
  }

  lemma NoMore(k: nat, e: Expr, rest: seq<Token>)
    requires 1 <= k <= 3 && Stops(k, rest)
    ensures ParseMore(k, e, rest) == Ok(e, rest)
  {
  }

  /** Left to right: after the tokens of e at level k the loop holds e and looks at what follows. */
  lemma {:induction false} ChainFrom(e: Expr, k: nat, rest: seq<Token>)
    requires 1 <= k <= 3 && Stops(k + 1, rest)
    ensures ParseLevel(k, Show(e, k) + rest) == ParseMore(k, e, rest)
    decreases e, 3
  {
    hide ParseUnary, ParseMore;
    if Level(e) == k {
      ChainBin(e.op, e.l, e.r, rest);
    } else {
      Wrapped(e, k + 1, rest);
      assert Show(e, k) == Show(e, k + 1);
    }
  }

  lemma {:induction false} ChainBin(op: Op, l: Expr, r: Expr, rest: seq<Token>)
    requires Stops(LevelOf(op) + 1, rest)
    ensures ParseLevel(LevelOf(op), Bare(Bin(op, l, r)) + rest) == ParseMore(LevelOf(op), Bin(op, l, r), rest)
    decreases Bin(op, l, r), 0
  {
    hide ParseLevel;
    var k := LevelOf(op);
    var more := [TOp(op)] + Show(r, k + 1) + rest;
    assert Bare(Bin(op, l, r)) + rest == Show(l, k) + more;
    ChainFrom(l, k, more);
    assert more[1..] == Show(r, k + 1) + rest;
    Wrapped(r, k + 1, rest);
  }

  lemma AssignVar(x: Name, r: Expr, rest: seq<Token>)
    requires ParseExpr(Show(r, 0) + rest) == Ok(r, rest)
    ensures ParseExpr(Bare(Assign(x, r)) + rest) == Ok(Assign(x, r), rest)
  {
    var more := [TAssign] + Show(r, 0) + rest;
    assert Bare(Assign(x, r)) + rest == [TIdent(x)] + more;
    hide ParseLevel, Show, Bare;
    VarTokens(x, more);
    FromPrimary([TIdent(x)] + more, Var(x), more, 1);
    assert more[1..] == Show(r, 0) + rest;
  }

  lemma VarTokens(x: Name, more: seq<Token>)
    requires Stops(1, more)
    ensures ParsePrimary([TIdent(x)] + more) == Ok(Var(x), more)
  {
    assert ([TIdent(x)] + more)[1..] == more;
  }

  lemma AssignElement(a: Name, i: Expr, r: Expr, rest: seq<Token>)
    requires ParseExpr(Show(i, 0) + ([TRBracket, TAssign] + Show(r, 0) + rest))
             == Ok(i, [TRBracket, TAssign] + Show(r, 0) + rest)
    requires ParseExpr(Show(r, 0) + rest) == Ok(r, rest)
    ensures ParseExpr(Bare(AssignIndex(a, i, r)) + rest) == Ok(AssignIndex(a, i, r), rest)
  {
    var ts := Bare(AssignIndex(a, i, r)) + rest;
    var more := [TAssign] + Show(r, 0) + rest;
    var back := [TRBracket, TAssign] + Show(r, 0) + rest;
    ElementTokens(a, i, r, rest);
    hide ParseLevel, ParsePrimary, Show, Bare;
    IndexTokens(ts, a, i, back);
    FromPrimary(ts, Index(a, i), more, 1);
    ElementStep(ts, a, i, r, more, rest);
  }

  lemma ElementTokens(a: Name, i: Expr, r: Expr, rest: seq<Token>)
    ensures var ts := Bare(AssignIndex(a, i, r)) + rest;
            var more := [TAssign] + Show(r, 0) + rest;
            var back := [TRBracket, TAssign] + Show(r, 0) + rest;
            && |ts| >= 2 && ts[0] == TIdent(a) && ts[1] == TLBracket && ts[2..] == Show(i, 0) + back
            && back[1..] == more && more[1..] == Show(r, 0) + rest
  {
    hide Show;
  }

  lemma ElementStep(ts: seq<Token>, a: Name, i: Expr, r: Expr, more: seq<Token>, rest: seq<Token>)
    requires ParseLevel(1, ts) == Ok(Index(a, i), more) && At(more, TAssign) && ParseExpr(more[1..]) == Ok(r, rest)
    ensures ParseExpr(ts) == Ok(AssignIndex(a, i, r), rest)
  {
    hide ParseLevel;
  }

  lemma IndexTokens(ts: seq<Token>, a: Name, i: Expr, back: seq<Token>)
    requires |ts| >= 2 && ts[0] == TIdent(a) && ts[1] == TLBracket
    requires At(back, TRBracket) && ParseExpr(ts[2..]) == Ok(i, back)
    ensures ParsePrimary(ts) == Ok(Index(a, i), back[1..])
  {
    hide ParseExpr;
    assert ts[1..][0] == TLBracket;
  }

  lemma {:induction false} Primary(e: Expr, rest: seq<Token>)
    requires Level(e) == 5 && Stops(5, rest)
    ensures ParsePrimary(Bare(e) + rest) == Ok(e, rest)
    decreases e, 0
  {
    hide ParseExpr, ParseArgs, ParsePrintln, Show;
    var ts := Bare(e) + rest;
    match e
    case Num(_) => assert ts[1..] == rest;
    case Str(_) => assert ts[1..] == rest;
    case Var(_) => assert ts[1..] == rest;
    case Index(a, i) =>
      var back := [TRBracket] + rest;
      assert ts[2..] == Show(i, 0) + back && back[1..] == rest;
      Wrapped(i, 0, back);
      IndexTokens(ts, a, i, back);
    case Call(f, args) =>
      ArgsBack(args, rest);
      CallTokens(f, args, rest);
    case Println(format, args) =>
      TailBack([], args, rest);
      PrintlnBack(format, args, rest);
      PrintlnTokens(format, args, rest);
  }

  lemma CallTokens(f: Name, args: seq<Expr>, rest: seq<Token>)
    requires ParseArgs(ShowArgs(args) + ([TRParen] + rest)) == ArgsOk(args, rest)
    ensures ParsePrimary(Bare(Call(f, args)) + rest) == Ok(Call(f, args), rest)
  {
    hide ParseExpr, ParseArgs, ParsePrintln, ShowArgs;
    var ts := Bare(Call(f, args)) + rest;
    assert ts[2..] == ShowArgs(args) + ([TRParen] + rest);
    assert ts[1..][0] == TLParen;
  }

  lemma PrintlnTokens(format: string, args: seq<Expr>, rest: seq<Token>)
    requires ParsePrintln([TStr(format)] + (ShowTail(args) + ([TRParen] + rest))) == Ok(Println(format, args), rest)
    ensures ParsePrimary(Bare(Println(format, args)) + rest) == Ok(Println(format, args), rest)
  {
    hide ParseExpr, ParseArgs, ParsePrintln, ShowTail;
    var ts := Bare(Println(format, args)) + rest;
    assert ts[2..] == [TStr(format)] + (ShowTail(args) + ([TRParen] + rest));
    assert ts[1..][0] == TLParen;
  }

  lemma {:induction false} ArgsBack(args: seq<Expr>, rest: seq<Token>)
    ensures ParseArgs(ShowArgs(args) + ([TRParen] + rest)) == ArgsOk(args, rest)
    decreases args, 3
  {
    hide ParseExpr, ParseTail, Show;
    var ts := ShowArgs(args) + ([TRParen] + rest);
    if args == [] {
      assert ts[1..] == rest;
    } else {
      var more := ShowTail(args[1..]) + ([TRParen] + rest);
      assert ts == Show(args[0], 0) + more;
      ShowStarts(args[0], 0);
      TailStops(args[1..], rest);
      Wrapped(args[0], 0, more);
      TailBack([args[0]], args[1..], rest);
      assert [args[0]] + args[1..] == args;
    }
  }

  lemma TailStops(args: seq<Expr>, rest: seq<Token>)
    ensures Stops(0, ShowTail(args) + ([TRParen] + rest))
  {
    var ts := ShowTail(args) + ([TRParen] + rest);
    assert ts[0] == if args == [] then TRParen else TComma;
  }

  lemma {:induction false} TailBack(es: seq<Expr>, args: seq<Expr>, rest: seq<Token>)
    ensures ParseTail(es, ShowTail(args) + ([TRParen] + rest)) == ArgsOk(es + args, rest)
    decreases args, 2
  {
    hide ParseExpr, Show;
    var ts := ShowTail(args) + ([TRParen] + rest);
    if args == [] {
      assert ts == [TRParen] + rest && ts[1..] == rest;
      assert es + args == es;
    } else {
      var more := ShowTail(args[1..]) + ([TRParen] + rest);
      assert ts[1..] == Show(args[0], 0) + more;
      TailStops(args[1..], rest);
      Wrapped(args[0], 0, more);
      TailBack(es + [args[0]], args[1..], rest);
      assert es + [args[0]] + args[1..] == es + args;
    }
  }

  lemma PrintlnBack(format: string, args: seq<Expr>, rest: seq<Token>)
    requires ParseTail([], ShowTail(args) + ([TRParen] + rest)) == ArgsOk([] + args, rest)
    ensures ParsePrintln([TStr(format)] + (ShowTail(args) + ([TRParen] + rest))) == Ok(Println(format, args), rest)
  {
    var more := ShowTail(args) + ([TRParen] + rest);
    var ts := [TStr(format)] + more;
    assert ts[1..] == more && ParsePrimary(ts) == Ok(Str(format), more);
    TailStops(args, rest);
    hide ParseTail, ParsePrimary, ParseLevel;
    FromPrimary(ts, Str(format), more, 0);
    assert [] + args == args;
  }

  /** Every expression tree, written with only the parentheses its precedence levels need and
      followed by a token that cannot continue an expression, parses back to itself, and the
      parser stops at that token. */
  lemma ParserRoundTrip(e: Expr, rest: seq<Token>)
    requires Stops(0, rest)
    ensures ParseExpr(Show(e, 0) + rest) == Ok(e, rest)
  {
    hide ParseExpr, ParseLevel;
    Wrapped(e, 0, rest);
  }

  /** Every pair of parentheses shown is needed: where an expression is looser than the level
      wanted, its bare tokens do not parse to it; the parser fails or stops short. */
  lemma {:induction false} ParenthesesNeeded(e: Expr, k: nat, rest: seq<Token>)
    requires Level(e) < k <= 5
    ensures var r := ParseAt(k, Bare(e) + rest); r.Ok? ==> |r.rest| > |rest|
    decreases e
  {
    hide ParseLevel, ParseExpr, ParsePrimary, ParseMore;
    match e
    case Neg(a) => MinusIsNoPrimary(a, rest);
    case Bin(op, l, r) =>
      var j := LevelOf(op);
      var more := [TOp(op)] + Show(r, j + 1) + rest;
      assert Bare(e) + rest == Show(l, j) + more;
      if j <= Level(l) < k {
        ParenthesesNeeded(l, k, more);
      } else {
        assert Show(l, j) == Show(l, k);
        Wrapped(l, k, more);
      }
    case Assign(x, r) =>
      var more := [TAssign] + Show(r, 0) + rest;
      assert Bare(e) + rest == [TIdent(x)] + more;
      VarTokens(x, more);
      FromPrimary([TIdent(x)] + more, Var(x), more, k);
    case AssignIndex(a, i, r) =>
      var back := [TRBracket, TAssign] + Show(r, 0) + rest;
      Wrapped(i, 0, back);
      ElementTokens(a, i, r, rest);
      IndexTokens(Bare(e) + rest, a, i, back);
      FromPrimary(Bare(e) + rest, Index(a, i), [TAssign] + Show(r, 0) + rest, k);
  }

  lemma MinusIsNoPrimary(a: Expr, rest: seq<Token>)
    ensures ParsePrimary(Bare(Neg(a)) + rest).Err?
  {
    hide Show;
  }

  /** println of a bare expression other than a string is println("%d", ...) of it. */
  lemma BarePrintln(e: Expr, rest: seq<Token>)
    requires !e.Str? && Stops(0, rest)
    ensures ParseExpr([TPrintln, TLParen] + Show(e, 0) + [TRParen] + rest) == Ok(Println("%d", [e]), rest)
  {
    var ts := [TPrintln, TLParen] + Show(e, 0) + [TRParen] + rest;
    var back := [TRParen] + rest;
    Wrapped(e, 0, back);
    assert ts[2..] == Show(e, 0) + back && ts[1..][0] == TLParen && back[1..] == rest;
    assert ParsePrintln(ts[2..]) == Ok(Println("%d", [e]), rest) by {
      hide ParseExpr, Show;
    }
    hide ParseExpr, ParsePrintln, Show, ParseLevel;
    FromPrimary(ts, Println("%d", [e]), rest, 0);
  }

  // ---- the code ----

  /** The parser over a token stream, moving forward as it reads; failed stands for Exit(1). */
  class Parser {
    const toks: seq<Token>
    var pos: nat

    ghost predicate Valid()
      reads this
    {
      pos <= |toks|
    }

    ghost function Rest(): seq<Token>
      requires Valid()
      reads this
    {
      toks[pos..]
    }

    constructor (ts: seq<Token>)
      ensures Valid() && Rest() == ts
    {
      toks := ts;
      pos := 0;
    }

    predicate Cur(t: Token)
      requires Valid()
      reads this
      ensures Cur(t) == At(Rest(), t)
    {
      pos < |toks| && toks[pos] == t
    }

    predicate CurOp(k: nat)
      requires Valid()
      reads this
      ensures CurOp(k) == AtOp(Rest(), k)
    {
      pos < |toks| && toks[pos].TOp? && LevelOf(toks[pos].op) == k
    }

    method Advance()
      requires Valid() && pos < |toks|
      modifies this
      ensures Valid() && pos == old(pos) + 1 && Rest() == old(Rest())[1..]
    {
      pos := pos + 1;
    }

    /** Outcome of a method that parses an expression from ts. */
    ghost predicate Read(r: Parsed, e: Expr, ok: bool)
      requires Valid()
      reads this
    {
      if ok then r == Ok(e, Rest()) else r.Err?
    }

    method ParseExpression() returns (e: Expr, ok: bool)
      requires Valid()
      modifies this
      ensures Valid() && pos >= old(pos) && Read(ParseExpr(old(Rest())), e, ok)
      ensures ok ==> pos > old(pos)
      decreases |toks| - pos, 7
    {
      hide ParseLevel;
      e, ok := ParseLevelAt(1);
      if ok && Cur(TAssign) {
        var left := e;
        Advance();
        e, ok := ParseExpression();
        if ok {
          if left.Var? {
            e := Assign(left.x, e);
          } else if left.Index? {
            e := AssignIndex(left.a, left.i, e);
          } else {
            ok := false;
          }
        }
      }
    }

    /** parseCmp (1), parseAdd (2) and parseMul (3): one loop each over the operators of the level. */
    method ParseLevelAt(k: nat) returns (e: Expr, ok: bool)
      requires Valid() && 1 <= k <= 4
      modifies this
      ensures Valid() && pos >= old(pos) && Read(ParseLevel(k, old(Rest())), e, ok)
      ensures ok ==> pos > old(pos)
      decreases |toks| - pos, 7 - k
    {
      if k == 4 {
        e, ok := ParseUnaryExpr();
        return;
      }
      hide ParseUnary;
      e, ok := ParseLevelAt(k + 1);
      if !ok {
        return;
      }
      while ok && CurOp(k)
        invariant Valid() && pos > old(pos)
        invariant ok ==> ParseMore(k, e, Rest()) == ParseLevel(k, old(Rest()))
        invariant !ok ==> ParseLevel(k, old(Rest())).Err?
        decreases |toks| - pos, ok
      {
        var op := toks[pos].op;
        Advance();
        var right;
        right, ok := ParseLevelAt(k + 1);
        e := Bin(op, e, right);
      }
    }

    method ParseUnaryExpr() returns (e: Expr, ok: bool)
      requires Valid()
      modifies this
      ensures Valid() && pos >= old(pos) && Read(ParseUnary(old(Rest())), e, ok)
      ensures ok ==> pos > old(pos)
      decreases |toks| - pos, 2
    {
      hide ParsePrimary;
      if Cur(TOp(Minus)) {
        Advance();
        e, ok := ParsePrimaryExpr();
        e := Neg(e);
      } else {
        e, ok := ParsePrimaryExpr();
      }
    }

    method ParsePrimaryExpr() returns (e: Expr, ok: bool)
      requires Valid()
      modifies this
      ensures Valid() && pos >= old(pos) && Read(ParsePrimary(old(Rest())), e, ok)
      ensures ok ==> pos > old(pos)
      decreases |toks| - pos, 1
    {
      hide ParseExpr, ParseArgs, ParsePrintln;
      e, ok := Num(0), false;
      if pos == |toks| {
        return;
      }
      match toks[pos]
      case TNum(n) =>
        Advance();
        e, ok := Num(n), true;
      case TStr(s) =>
        Advance();
        e, ok := Str(s), true;
      case TLParen =>
        Advance();
        e, ok := ParseExpression();
        if ok {
          ok := Cur(TRParen);
          if ok {
            Advance();
          }
        }
      case TPrintln =>
        Advance();
        if Cur(TLParen) {
          Advance();
          e, ok := ParsePrintlnRest();
        }
      case TIdent(x) =>
        e, ok := ParseName(x);
      case _ =>
    }

    /** A name: a call, an array element or a variable. */
    method ParseName(x: Name) returns (e: Expr, ok: bool)
      requires Valid() && Cur(TIdent(x))
      modifies this
      ensures Valid() && pos >= old(pos) && Read(ParsePrimary(old(Rest())), e, ok)
      ensures ok ==> pos > old(pos)
      decreases |toks| - pos, 0
    {
      hide ParseExpr, ParseArgs, ParsePrintln;
      Advance();
      if Cur(TLParen) {
        Advance();
        var es;
        es, ok := ParseArguments();
        e := Call(x, es);
      } else if Cur(TLBracket) {
        Advance();
        e, ok := ParseExpression();
        if ok {
          ok := Cur(TRBracket);
          if ok {
            Advance();
            e := Index(x, e);
          }
        }
      } else {
        e, ok := Var(x), true;
      }
    }

    ghost predicate ParsedList(r: ParsedArgs, es: seq<Expr>, ok: bool)
      requires Valid()
      reads this
    {
      if ok then r == ArgsOk(es, Rest()) else r.ArgsErr?
    }

    method ParseArguments() returns (es: seq<Expr>, ok: bool)
      requires Valid()
      modifies this
      ensures Valid() && pos >= old(pos) && ParsedList(ParseArgs(old(Rest())), es, ok)
      decreases |toks| - pos, 9
    {
      hide ParseExpr, ParseTail;
      es, ok := [], true;
      if Cur(TRParen) {
        Advance();
        return;
      }
      var e;
      e, ok := ParseExpression();
      if ok {
        es, ok := ParseTailFrom([e]);
      }
    }

    /** Further arguments, each after a comma, and the closing parenthesis. */
    method ParseTailFrom(first: seq<Expr>) returns (es: seq<Expr>, ok: bool)
      requires Valid()
      modifies this
      ensures Valid() && pos >= old(pos) && ParsedList(ParseTail(first, old(Rest())), es, ok)
      decreases |toks| - pos, 8
    {
      hide ParseExpr;
      es, ok := first, true;
      while ok && Cur(TComma)
        invariant Valid() && pos >= old(pos)
        invariant ok ==> ParseTail(es, Rest()) == ParseTail(first, old(Rest()))
        invariant !ok ==> ParseTail(first, old(Rest())).ArgsErr?
        decreases |toks| - pos, ok
      {
        Advance();
        var e;
        e, ok := ParseExpression();
        es := es + [e];
      }
      if ok {
        ok := Cur(TRParen);
        if ok {
          Advance();
        }
      }
    }

    method ParsePrintlnRest() returns (e: Expr, ok: bool)
      requires Valid()
      modifies this
      ensures Valid() && pos >= old(pos) && Read(ParsePrintln(old(Rest())), e, ok)
      decreases |toks| - pos, 9
    {
      hide ParseExpr, ParseTail;
      e, ok := ParseExpression();
      if !ok {
        return;
      }
      if e.Str? {
        var es;
        es, ok := ParseTailFrom([]);
        e := Println(e.s, es);
      } else {
        ok := Cur(TRParen);
        if ok {
          Advance();
          e := Println("%d", [e]);
        }
      }
    }
  }
}
