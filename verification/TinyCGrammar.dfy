/** The grammar of Tiny C expressions as a derivation relation with the operators of each level
    written out (user/cmd/tinyc/parser.go:184-321), and the parser as its exact decision: it accepts
    what is derivable, returns the tree derived, and nothing else. */
module TinyCGrammar {
  import opened TinyCAst
  import opened TinyCParser

  /** The operators each of the three loops goes on with. */
  function OpsAt(k: nat): set<Op> {
    if k == 1 then {Lt, Gt, Le, Ge, EqEq, Neq} else if k == 2 then {Plus, Minus} else {Star, Slash, Percent}
  }

  /** The tokens ts derive the tree e at level k: 0 assignment, 1 comparison, 2 sum, 3 product,
      4 unary, 5 primary. Binary operators group to the left, assignments to the right. */
  ghost predicate Derives(k: nat, ts: seq<Token>, e: Expr)
    decreases |ts|, 10 - k
  {
    if k == 0 then Derives(1, ts, e) || exists i :: 0 <= i < |ts| && AssignAt(ts, i, e)
    else if k <= 3 then Derives(k + 1, ts, e) || exists i :: 0 <= i < |ts| && JoinAt(k, ts, i, e)
    else if k == 4 then
      Derives(5, ts, e) || (e.Neg? && ts != [] && ts[0] == TOp(Minus) && Derives(5, ts[1..], e.e))
    else if k == 5 then DerivesPrimary(ts, e)
    else false
  }

  /** A target, an equals sign at i, and a value. */
  ghost predicate AssignAt(ts: seq<Token>, i: nat, e: Expr)
    requires i < |ts|
    decreases |ts|, 0
  {
    && ts[i] == TAssign
    && (|| (e.Assign? && Derives(1, ts[..i], Var(e.x)) && Derives(0, ts[i + 1..], e.r))
        || (e.AssignIndex? && Derives(1, ts[..i], Index(e.a, e.i)) && Derives(0, ts[i + 1..], e.r)))
  }

  /** The last operator of the chain at i, with everything before it on its left. */
  ghost predicate JoinAt(k: nat, ts: seq<Token>, i: nat, e: Expr)
    requires i < |ts|
    decreases |ts|, 0
  {
    && e.Bin? && e.op in OpsAt(k) && ts[i] == TOp(e.op)
    && Derives(k, ts[..i], e.l) && Derives(k + 1, ts[i + 1..], e.r)
  }

  ghost predicate DerivesPrimary(ts: seq<Token>, e: Expr)
    decreases |ts|, 1
  {
    || (e.Num? && ts == [TNum(e.n)])
    || (e.Str? && ts == [TStr(e.s)])
    || (e.Var? && ts == [TIdent(e.x)])
    || (Wraps(ts, 1, TLParen, TRParen) && Derives(0, Inside(ts, 1), e))
    || (e.Index? && Wraps(ts, 2, TLBracket, TRBracket) && ts[0] == TIdent(e.a) && Derives(0, Inside(ts, 2), e.i))
    || (e.Call? && Wraps(ts, 2, TLParen, TRParen) && ts[0] == TIdent(e.f) && DerivesArgs(Inside(ts, 2), e.args))
    || (e.Println? && Wraps(ts, 2, TLParen, TRParen) && ts[0] == TPrintln
        && DerivesPrint(Inside(ts, 2), e.format, e.args))
  }

  /** The n-th token opens and the last one closes. */
  predicate Wraps(ts: seq<Token>, n: nat, open: Token, close: Token) {
    1 <= n < |ts| && ts[n - 1] == open && ts[|ts| - 1] == close
  }

  function Inside(ts: seq<Token>, n: nat): seq<Token>
    requires n < |ts|
  {
    ts[n..|ts| - 1]
  }

  ghost predicate DerivesArgs(ts: seq<Token>, es: seq<Expr>)
    decreases |ts|, 12
  {
    if es == [] then ts == []
    else exists i :: 0 <= i <= |ts| && FirstThen(ts, i, es[0], es[1..])
  }

  ghost predicate FirstThen(ts: seq<Token>, i: nat, e: Expr, es: seq<Expr>)
    requires i <= |ts|
    decreases |ts|, 11
  {
    Derives(0, ts[..i], e) && DerivesTail(ts[i..], es)
  }

  /** Expressions each after a comma. */
  ghost predicate DerivesTail(ts: seq<Token>, es: seq<Expr>)
    decreases |ts|, 10
  {
    if es == [] then ts == []
    else ts != [] && ts[0] == TComma && exists i :: 1 <= i <= |ts| && NextThen(ts, i, es[0], es[1..])
  }

  ghost predicate NextThen(ts: seq<Token>, i: nat, e: Expr, es: seq<Expr>)
    requires 1 <= i <= |ts|
    decreases |ts|, 0
  {
    Derives(0, ts[1..i], e) && DerivesTail(ts[i..], es)
  }

  /** A string is the format of what follows; anything else is printed as a number. */
  ghost predicate DerivesPrint(ts: seq<Token>, format: string, es: seq<Expr>)
    decreases |ts|, 12
  {
    || (exists i :: 0 <= i <= |ts| && FirstThen(ts, i, Str(format), es))
    || (format == "%d" && |es| == 1 && !es[0].Str? && Derives(0, ts, es[0]))
  }

  // ---- what the parser returns is derivable ----

  /** The parser went from ts to rest; the tokens in between. */
  predicate Suffix(rest: seq<Token>, ts: seq<Token>) {
    |rest| <= |ts| && ts[|ts| - |rest|..] == rest
  }

  function Used(ts: seq<Token>, rest: seq<Token>): seq<Token>
    requires |rest| <= |ts|
  {
    ts[..|ts| - |rest|]
  }

  ghost predicate Sound(k: nat, ts: seq<Token>, r: Parsed) {
    r.Ok? ==> Suffix(r.rest, ts) && Derives(k, Used(ts, r.rest), r.e)
  }

  ghost predicate SoundTail(ts: seq<Token>, es: seq<Expr>, r: ParsedArgs) {
    r.ArgsOk? ==>
      && Suffix(r.rest, ts) && |es| <= |r.es| && r.es[..|es|] == es
      && var u := Used(ts, r.rest); u != [] && u[|u| - 1] == TRParen && DerivesTail(u[..|u| - 1], r.es[|es|..])
  }

  ghost predicate SoundArgs(ts: seq<Token>, r: ParsedArgs) {
    r.ArgsOk? ==>
      && Suffix(r.rest, ts)
      && var u := Used(ts, r.rest); u != [] && u[|u| - 1] == TRParen && DerivesArgs(u[..|u| - 1], r.es)
  }

  lemma Looser(k: nat, ts: seq<Token>, e: Expr)
    requires k <= 4 && Derives(k + 1, ts, e)
    ensures Derives(k, ts, e)
  {
  }

  lemma {:induction false} ExprSound(ts: seq<Token>)
    ensures Sound(0, ts, ParseExpr(ts))
    decreases |ts|, 7
  {
    hide Derives, ParseLevel;
    LevelSound(1, ts);
    var l := ParseLevel(1, ts);
    if l.Ok? {
      var u := Used(ts, l.rest);
      if At(l.rest, TAssign) {
        ExprSound(l.rest[1..]);
        var v := ParseExpr(l.rest[1..]);
        if v.Ok? && (l.e.Var? || l.e.Index?) {
          AssignSound(ts, l, v);
        }
      } else {
        Looser(0, u, l.e);
      }
    }
  }

  lemma AssignSound(ts: seq<Token>, l: Parsed, v: Parsed)
    requires l.Ok? && v.Ok? && Sound(1, ts, l) && At(l.rest, TAssign) && Sound(0, l.rest[1..], v)
    requires l.e.Var? || l.e.Index?
    ensures Suffix(v.rest, ts)
    ensures l.e.Var? ==> Derives(0, Used(ts, v.rest), Assign(l.e.x, v.e))
    ensures l.e.Index? ==> Derives(0, Used(ts, v.rest), AssignIndex(l.e.a, l.e.i, v.e))
  {
    var i := |ts| - |l.rest|;
    var u := Used(ts, v.rest);
    Cut(ts, l.rest, v.rest);
    hide Derives;
    assert l.e.Var? ==> AssignAt(u, i, Assign(l.e.x, v.e));
    assert l.e.Index? ==> AssignAt(u, i, AssignIndex(l.e.a, l.e.i, v.e));
    AssignIntro(u, i, if l.e.Var? then Assign(l.e.x, v.e) else AssignIndex(l.e.a, l.e.i, v.e));
  }

  lemma AssignIntro(ts: seq<Token>, i: nat, e: Expr)
    requires i < |ts| && AssignAt(ts, i, e)
    ensures Derives(0, ts, e)
  {
    hide AssignAt;
  }

  lemma JoinIntro(k: nat, ts: seq<Token>, i: nat, e: Expr)
    requires 1 <= k <= 3 && i < |ts| && JoinAt(k, ts, i, e)
    ensures Derives(k, ts, e)
  {
    hide JoinAt;
  }

  /** One token and then more, cut out of ts. */
  lemma Cut(ts: seq<Token>, mid: seq<Token>, rest: seq<Token>)
    requires Suffix(mid, ts) && mid != [] && Suffix(rest, mid[1..])
    ensures Suffix(rest, ts)
    ensures var u, i := Used(ts, rest), |ts| - |mid|;
            i < |u| && u[i] == mid[0] && u[..i] == Used(ts, mid) && u[i + 1..] == Used(mid[1..], rest)
  {
    var i := |ts| - |mid|;
    assert mid == ts[i..];
  }

  lemma {:induction false} LevelSound(k: nat, ts: seq<Token>)
    requires 1 <= k <= 4
    ensures Sound(k, ts, ParseLevel(k, ts))
    decreases |ts|, 6 - k
  {
    hide Derives, ParseUnary, ParseMore;
    if k == 4 {
      UnarySound(ts);
    } else {
      LevelSound(k + 1, ts);
      var l := ParseLevel(k + 1, ts);
      if l.Ok? {
        var u := Used(ts, l.rest);
        Looser(k, u, l.e);
        MoreSound(k, u, l.e, l.rest);
        assert u + l.rest == ts;
        Extend(k, u, l.rest, ts, ParseMore(k, l.e, l.rest));
      }
    }
  }

  lemma Extend(k: nat, pre: seq<Token>, ts: seq<Token>, all: seq<Token>, r: Parsed)
    requires r.Ok? ==> Suffix(r.rest, ts) && Derives(k, pre + Used(ts, r.rest), r.e)
    requires all == pre + ts
    ensures Sound(k, all, r)
  {
    hide Derives;
    if r.Ok? {
      assert Used(all, r.rest) == pre + Used(ts, r.rest);
    }
  }

  lemma {:induction false} MoreSound(k: nat, pre: seq<Token>, left: Expr, ts: seq<Token>)
    requires 1 <= k <= 3 && Derives(k, pre, left)
    ensures var r := ParseMore(k, left, ts);
            r.Ok? ==> Suffix(r.rest, ts) && Derives(k, pre + Used(ts, r.rest), r.e)
    decreases |ts|, 6
  {
    hide Derives, ParseLevel, LevelOf;
    if AtOp(ts, k) {
      var op := ts[0].op;
      LevelSound(k + 1, ts[1..]);
      var r := ParseLevel(k + 1, ts[1..]);
      if r.Ok? {
        JoinSound(k, pre, left, ts, r);
        var pre' := pre + [ts[0]] + Used(ts[1..], r.rest);
        MoreSound(k, pre', Bin(op, left, r.e), r.rest);
        hide ParseMore;
        var q := ParseMore(k, Bin(op, left, r.e), r.rest);
        if q.Ok? {
          Onward(ts, r.rest, q.rest, pre);
        }
      }
    } else {
      assert pre + Used(ts, ts) == pre;
    }
  }

  /** One more operand of the chain. */
  lemma JoinSound(k: nat, pre: seq<Token>, left: Expr, ts: seq<Token>, r: Parsed)
    requires 1 <= k <= 3 && Derives(k, pre, left) && AtOp(ts, k) && r.Ok? && Sound(k + 1, ts[1..], r)
    ensures Derives(k, pre + [ts[0]] + Used(ts[1..], r.rest), Bin(ts[0].op, left, r.e))
  {
    hide Derives;
    var op := ts[0].op;
    var u := Used(ts[1..], r.rest);
    var pre' := pre + [ts[0]] + u;
    assert pre'[..|pre|] == pre && pre'[|pre| + 1..] == u;
    LevelOps(k, op);
    assert JoinAt(k, pre', |pre|, Bin(op, left, r.e));
    JoinIntro(k, pre', |pre|, Bin(op, left, r.e));
  }

  lemma Onward(ts: seq<Token>, mid: seq<Token>, rest: seq<Token>, pre: seq<Token>)
    requires ts != [] && Suffix(mid, ts[1..]) && Suffix(rest, mid)
    ensures Suffix(rest, ts)
    ensures pre + [ts[0]] + Used(ts[1..], mid) + Used(mid, rest) == pre + Used(ts, rest)
  {
    var u := Used(ts[1..], mid);
    assert ts == [ts[0]] + u + mid;
    assert Used(ts, rest) == [ts[0]] + u + Used(mid, rest);
  }

  lemma LevelOps(k: nat, op: Op)
    requires 1 <= k <= 3
    ensures LevelOf(op) == k <==> op in OpsAt(k)
  {
  }

  lemma {:induction false} UnarySound(ts: seq<Token>)
    ensures Sound(4, ts, ParseUnary(ts))
    decreases |ts|, 1
  {
    hide ParsePrimary, DerivesPrimary;
    if At(ts, TOp(Minus)) {
      PrimarySound(ts[1..]);
      var r := ParsePrimary(ts[1..]);
      if r.Ok? {
        var u := Used(ts, r.rest);
        assert u[1..] == Used(ts[1..], r.rest);
      }
    } else {
      PrimarySound(ts);
      var r := ParsePrimary(ts);
      if r.Ok? {
        Looser(4, Used(ts, r.rest), r.e);
      }
    }
  }

  /** An opening token at n - 1, what derives e, and a closing token. */
  lemma Enclosed(ts: seq<Token>, n: nat, r: Parsed, close: Token)
    requires 1 <= n <= |ts| && Sound(0, ts[n..], r) && r.Ok? && At(r.rest, close)
    ensures var u := Used(ts, r.rest[1..]);
            && Suffix(r.rest[1..], ts) && Wraps(u, n, ts[n - 1], close) && Derives(0, Inside(u, n), r.e)
            && u[..n] == ts[..n]
  {
    hide Derives;
    var u := Used(ts, r.rest[1..]);
    var v := Used(ts[n..], r.rest);
    assert ts == ts[..n] + v + r.rest;
    assert u == ts[..n] + v + [close];
    assert Inside(u, n) == v;
  }

  lemma {:induction false} PrimarySound(ts: seq<Token>)
    ensures Sound(5, ts, ParsePrimary(ts))
    decreases |ts|, 0
  {
    hide Derives, ParseExpr, ParseArgs, ParsePrintln, Sound, SoundArgs, DerivesPrimary;
    if ts != [] {
      match ts[0]
      case TNum(n) => TokenSound(ts, Num(n));
      case TStr(s) => TokenSound(ts, Str(s));
      case TLParen =>
        ExprSound(ts[1..]);
        ParenSound(ts);
      case TPrintln =>
        if At(ts[1..], TLParen) {
          PrintSound(ts[2..], ts);
        } else {
          NoResult(5, ts);
        }
      case TIdent(x) =>
        if At(ts[1..], TLParen) {
          ArgsSound(ts[2..]);
          CallSound(ts, x);
        } else if At(ts[1..], TLBracket) {
          ExprSound(ts[2..]);
          IndexSound(ts, x);
        } else {
          TokenSound(ts, Var(x));
        }
      case _ => NoResult(5, ts);
    } else {
      NoResult(5, ts);
    }
  }

  lemma NoResult(k: nat, ts: seq<Token>)
    ensures Sound(k, ts, Err)
  {
  }

  lemma PrimaryIntro(ts: seq<Token>, e: Expr)
    requires DerivesPrimary(ts, e)
    ensures Derives(5, ts, e)
  {
    hide DerivesPrimary;
  }

  lemma TokenSound(ts: seq<Token>, e: Expr)
    requires ts != [] && (e == Num(0) || e.Num? || e.Str? || e.Var?)
    requires e.Num? ==> ts[0] == TNum(e.n)
    requires e.Str? ==> ts[0] == TStr(e.s)
    requires e.Var? ==> ts[0] == TIdent(e.x)
    ensures Sound(5, ts, Ok(e, ts[1..]))
  {
    hide Derives;
    var u := Used(ts, ts[1..]);
    assert u == [ts[0]];
    PrimaryIntro(u, e);
  }

  lemma ParenSound(ts: seq<Token>)
    requires ts != [] && ts[0] == TLParen && Sound(0, ts[1..], ParseExpr(ts[1..]))
    ensures Sound(5, ts, Expect(ParseExpr(ts[1..]), TRParen))
  {
    hide Derives, ParseExpr;
    var r := ParseExpr(ts[1..]);
    if r.Ok? && At(r.rest, TRParen) {
      Enclosed(ts, 1, r, TRParen);
      PrimaryIntro(Used(ts, r.rest[1..]), r.e);
    }
  }

  lemma IndexSound(ts: seq<Token>, x: Name)
    requires |ts| >= 2 && ts[0] == TIdent(x) && ts[1] == TLBracket && Sound(0, ts[2..], ParseExpr(ts[2..]))
    ensures var r := Expect(ParseExpr(ts[2..]), TRBracket);
            Sound(5, ts, if r.Err? then Err else Ok(Index(x, r.e), r.rest))
  {
    hide Derives, ParseExpr;
    var r := ParseExpr(ts[2..]);
    if r.Ok? && At(r.rest, TRBracket) {
      Enclosed(ts, 2, r, TRBracket);
      var u := Used(ts, r.rest[1..]);
      assert u[0] == u[..2][0];
      PrimaryIntro(u, Index(x, r.e));
    }
  }

  lemma CallSound(ts: seq<Token>, x: Name)
    requires |ts| >= 2 && ts[0] == TIdent(x) && ts[1] == TLParen && SoundArgs(ts[2..], ParseArgs(ts[2..]))
    ensures var r := ParseArgs(ts[2..]);
            Sound(5, ts, if r.ArgsErr? then Err else Ok(Call(x, r.es), r.rest))
  {
    hide Derives, ParseArgs, DerivesArgs;
    var r := ParseArgs(ts[2..]);
    if r.ArgsOk? {
      var v := Used(ts[2..], r.rest);
      var u := Used(ts, r.rest);
      assert u == ts[..2] + v;
      assert Inside(u, 2) == v[..|v| - 1];
      PrimaryIntro(u, Call(x, r.es));
    }
  }

  lemma {:induction false} ArgsSound(ts: seq<Token>)
    ensures SoundArgs(ts, ParseArgs(ts))
    decreases |ts|, 8
  {
    hide Derives, ParseExpr, ParseTail, DerivesTail;
    if At(ts, TRParen) {
      assert Used(ts, ts[1..]) == [TRParen];
    } else {
      ExprSound(ts);
      var r := ParseExpr(ts);
      if r.Ok? {
        TailSound([r.e], r.rest);
        FirstTail(ts, r, ParseTail([r.e], r.rest));
      }
    }
  }

  /** The first expression and the tail parsed after it. */
  lemma FirstTail(ts: seq<Token>, r: Parsed, q: ParsedArgs)
    requires r.Ok? && Sound(0, ts, r) && |r.rest| < |ts| && SoundTail(r.rest, [r.e], q)
    ensures SoundArgs(ts, q)
  {
    hide Derives, DerivesTail;
    if q.ArgsOk? {
      var i := |ts| - |r.rest|;
      Whole(ts, r.rest, q.rest);
      var u := Used(ts, q.rest);
      var body := u[..|u| - 1];
      assert q.es[0] == q.es[..1][0] == r.e;
      assert FirstThen(body, i, q.es[0], q.es[1..]);
    }
  }

  /** What was used in two goes. */
  lemma Whole(ts: seq<Token>, mid: seq<Token>, rest: seq<Token>)
    requires Suffix(mid, ts) && Suffix(rest, mid) && |rest| < |mid|
    ensures Suffix(rest, ts)
    ensures var u, v, i := Used(ts, rest), Used(mid, rest), |ts| - |mid|;
            && u == Used(ts, mid) + v && u != [] && v != [] && u[|u| - 1] == v[|v| - 1]
            && i <= |u| - 1 && u[..|u| - 1][..i] == Used(ts, mid) && u[..|u| - 1][i..] == v[..|v| - 1]
  {
    var i := |ts| - |mid|;
    assert ts == ts[..i] + mid;
    var u, v := Used(ts, rest), Used(mid, rest);
    assert u == ts[..i] + v;
    assert u[..|u| - 1] == ts[..i] + v[..|v| - 1];
  }

  lemma {:induction false} TailSound(es: seq<Expr>, ts: seq<Token>)
    ensures SoundTail(ts, es, ParseTail(es, ts))
    decreases |ts|, 8
  {
    hide Derives, ParseExpr;
    if At(ts, TComma) {
      ExprSound(ts[1..]);
      var r := ParseExpr(ts[1..]);
      if r.Ok? {
        TailSound(es + [r.e], r.rest);
        NextTail(ts, es, r, ParseTail(es + [r.e], r.rest));
      }
    } else if At(ts, TRParen) {
      assert Used(ts, ts[1..]) == [TRParen];
      assert es[|es|..] == [];
    }
  }

  lemma NextTail(ts: seq<Token>, es: seq<Expr>, r: Parsed, q: ParsedArgs)
    requires At(ts, TComma) && r.Ok? && Sound(0, ts[1..], r) && |r.rest| < |ts| - 1
    requires SoundTail(r.rest, es + [r.e], q)
    ensures SoundTail(ts, es, q)
  {
    hide Derives, DerivesTail;
    if q.ArgsOk? {
      var i := |ts| - |r.rest|;
      assert r.rest == ts[1..][i - 1..] == ts[i..];
      Whole(ts, r.rest, q.rest);
      var u := Used(ts, q.rest);
      var body := u[..|u| - 1];
      assert body[..i] == ts[..i];
      assert body[1..i] == Used(ts[1..], r.rest);
      var more := q.es[|es|..];
      MoreElements(es, r.e, q.es);
      assert NextThen(body, i, more[0], more[1..]);
      TailIntro(body, i, more);
    }
  }

  lemma MoreElements(es: seq<Expr>, e: Expr, all: seq<Expr>)
    requires |es| < |all| && all[..|es| + 1] == es + [e]
    ensures all[..|es|] == es && all[|es|..] != [] && all[|es|..][0] == e && all[|es|..][1..] == all[|es| + 1..]
  {
    assert all[..|es|] == all[..|es| + 1][..|es|];
    assert all[|es|] == all[..|es| + 1][|es|];
  }

  lemma TailIntro(ts: seq<Token>, i: nat, es: seq<Expr>)
    requires 1 <= i <= |ts| && ts[0] == TComma && es != [] && NextThen(ts, i, es[0], es[1..])
    ensures DerivesTail(ts, es)
  {
    hide NextThen;
  }

  lemma {:induction false} PrintSound(ts: seq<Token>, all: seq<Token>)
    requires |all| >= 2 && all[0] == TPrintln && all[1] == TLParen && ts == all[2..]
    ensures Sound(5, all, ParsePrintln(ts))
    decreases |ts|, 8
  {
    hide Derives, ParseExpr, ParseTail, DerivesTail, DerivesPrimary;
    ExprSound(ts);
    var r := ParseExpr(ts);
    if r.Ok? {
      if r.e.Str? {
        TailSound([], r.rest);
        FormatSound(ts, all, r, ParseTail([], r.rest));
      } else if At(r.rest, TRParen) {
        NumberSound(ts, all, r);
      }
    }
  }

  lemma FormatSound(ts: seq<Token>, all: seq<Token>, r: Parsed, q: ParsedArgs)
    requires |all| >= 2 && all[0] == TPrintln && all[1] == TLParen && ts == all[2..]
    requires r.Ok? && r.e.Str? && Sound(0, ts, r) && |r.rest| < |ts| && SoundTail(r.rest, [], q)
    ensures q.ArgsOk? ==> Sound(5, all, Ok(Println(r.e.s, q.es), q.rest))
  {
    hide Derives, DerivesTail;
    if q.ArgsOk? {
      var i := |ts| - |r.rest|;
      Whole(ts, r.rest, q.rest);
      var v := Used(ts, q.rest);
      var body := v[..|v| - 1];
      assert q.es[0..] == q.es;
      assert FirstThen(body, i, Str(r.e.s), q.es);
      var u := Used(all, q.rest);
      assert u == all[..2] + v;
      assert Inside(u, 2) == body;
      PrimaryIntro(u, Println(r.e.s, q.es));
    }
  }

  lemma NumberSound(ts: seq<Token>, all: seq<Token>, r: Parsed)
    requires |all| >= 2 && all[0] == TPrintln && all[1] == TLParen && ts == all[2..]
    requires r.Ok? && !r.e.Str? && Sound(0, ts, r) && At(r.rest, TRParen)
    ensures Sound(5, all, Ok(Println("%d", [r.e]), r.rest[1..]))
  {
    hide Derives, FirstThen;
    Enclosed(all, 2, r, TRParen);
    var u := Used(all, r.rest[1..]);
    assert u[0] == u[..2][0];
    assert DerivesPrint(Inside(u, 2), "%d", [r.e]);
    PrimaryIntro(u, Println("%d", [r.e]));
  }

  // ---- what is derivable is parsed ----

  /** The parser's loop at level k holds the tree of ts and looks at what follows. */
  lemma {:induction false} LevelComplete(k: nat, ts: seq<Token>, e: Expr, rest: seq<Token>)
    requires 1 <= k <= 3 && Derives(k, ts, e) && Stops(k + 1, rest)
    ensures ParseLevel(k, ts + rest) == ParseMore(k, e, rest)
    decreases |ts|, 29 - 4 * k
  {
    if Derives(k + 1, ts, e) {
      hide Derives, ParseUnary, ParseMore;
      Complete(k + 1, ts, e, rest);
    } else {
      var i :| 0 <= i < |ts| && JoinAt(k, ts, i, e);
      hide Derives, ParseUnary, ParseLevel;
      var more := [ts[i]] + ts[i + 1..] + rest;
      assert ts + rest == ts[..i] + more;
      LevelOps(k, e.op);
      LevelComplete(k, ts[..i], e.l, more);
      Complete(k + 1, ts[i + 1..], e.r, rest);
      assert more[1..] == ts[i + 1..] + rest;
    }
  }

  /** Every derivation is found: tokens that derive a tree at a level, followed by a token the
      level does not go on with, parse to that tree and stop there. */
  lemma {:induction false} Complete(k: nat, ts: seq<Token>, e: Expr, rest: seq<Token>)
    requires k <= 5 && Derives(k, ts, e) && Stops(k, rest)
    ensures ParseAt(k, ts + rest) == Ok(e, rest)
    decreases |ts|, 30 - 4 * k
  {
    if k == 0 {
      AssignComplete(ts, e, rest);
    } else if k <= 3 {
      hide Derives, ParseLevel, ParseMore;
      LevelComplete(k, ts, e, rest);
      NoMore(k, e, rest);
    } else if k == 4 {
      UnaryComplete(ts, e, rest);
    } else {
      PrimaryComplete(ts, e, rest);
    }
  }

  lemma {:induction false} AssignComplete(ts: seq<Token>, e: Expr, rest: seq<Token>)
    requires Derives(0, ts, e) && Stops(0, rest)
    ensures ParseExpr(ts + rest) == Ok(e, rest)
    decreases |ts|, 29
  {
    if Derives(1, ts, e) {
      hide Derives, ParseLevel;
      Complete(1, ts, e, rest);
    } else {
      var i :| 0 <= i < |ts| && AssignAt(ts, i, e);
      hide Derives, ParseLevel;
      var more := [TAssign] + ts[i + 1..] + rest;
      assert ts + rest == ts[..i] + more;
      assert more[1..] == ts[i + 1..] + rest;
      Complete(1, ts[..i], if e.Assign? then Var(e.x) else Index(e.a, e.i), more);
      Complete(0, ts[i + 1..], e.r, rest);
    }
  }

  lemma {:induction false} UnaryComplete(ts: seq<Token>, e: Expr, rest: seq<Token>)
    requires Derives(4, ts, e) && Stops(4, rest)
    ensures ParseUnary(ts + rest) == Ok(e, rest)
    decreases |ts|, 13
  {
    if Derives(5, ts, e) {
      PrimaryStarts(ts, e);
      Complete(5, ts, e, rest);
    } else {
      assert (ts + rest)[1..] == ts[1..] + rest;
      Complete(5, ts[1..], e.e, rest);
    }
  }

  lemma PrimaryStarts(ts: seq<Token>, e: Expr)
    requires Derives(5, ts, e)
    ensures ts != [] && ts[0] != TOp(Minus)
  {
  }

  lemma {:induction false} PrimaryComplete(ts: seq<Token>, e: Expr, rest: seq<Token>)
    requires Derives(5, ts, e) && Stops(5, rest)
    ensures ParsePrimary(ts + rest) == Ok(e, rest)
    decreases |ts|, 9
  {
    hide Derives, ParseExpr, ParseArgs, ParsePrintln;
    assert DerivesPrimary(ts, e) by { PrimaryCases(ts, e); }
    if Wraps(ts, 1, TLParen, TRParen) && Derives(0, Inside(ts, 1), e) {
      Complete(0, Inside(ts, 1), e, [TRParen] + rest);
      ClosedBy(ts, 1, TRParen, rest);
    } else if e.Num? || e.Str? || e.Var? {
      assert (ts + rest)[1..] == rest;
    } else if e.Index? {
      Complete(0, Inside(ts, 2), e.i, [TRBracket] + rest);
      ClosedBy(ts, 2, TRBracket, rest);
      IndexTokens(ts + rest, e.a, e.i, [TRBracket] + rest);
      assert ([TRBracket] + rest)[1..] == rest;
    } else if e.Call? {
      ArgsComplete(Inside(ts, 2), e.args, rest);
      ClosedBy(ts, 2, TRParen, rest);
      assert (ts + rest)[1..][0] == TLParen;
    } else {
      PrintComplete(Inside(ts, 2), e.format, e.args, rest);
      ClosedBy(ts, 2, TRParen, rest);
      assert (ts + rest)[1..][0] == TLParen;
    }
  }

  lemma PrimaryCases(ts: seq<Token>, e: Expr)
    requires Derives(5, ts, e)
    ensures DerivesPrimary(ts, e)
  {
    hide DerivesPrimary;
  }

  lemma ClosedBy(ts: seq<Token>, n: nat, close: Token, rest: seq<Token>)
    requires 1 <= n < |ts| && ts[|ts| - 1] == close
    ensures (ts + rest)[n..] == Inside(ts, n) + ([close] + rest) && ([close] + rest)[1..] == rest
  {
  }

  lemma {:induction false} ArgsComplete(ts: seq<Token>, es: seq<Expr>, rest: seq<Token>)
    requires DerivesArgs(ts, es)
    ensures ParseArgs(ts + ([TRParen] + rest)) == ArgsOk(es, rest)
    decreases |ts|, 40
  {
    hide Derives, ParseExpr, ParseTail, DerivesTail;
    var all := ts + ([TRParen] + rest);
    if es == [] {
      assert all[1..] == rest;
    } else {
      var i :| 0 <= i <= |ts| && FirstThen(ts, i, es[0], es[1..]);
      var more := ts[i..] + ([TRParen] + rest);
      assert all == ts[..i] + more;
      DerivedStarts(0, ts[..i], es[0]);
      TailGoesOn(ts[i..], es[1..], rest);
      Complete(0, ts[..i], es[0], more);
      TailComplete([es[0]], ts[i..], es[1..], rest);
      assert [es[0]] + es[1..] == es;
    }
  }

  /** A derivation starts with a token that can start an expression. */
  lemma {:induction false} DerivedStarts(k: nat, ts: seq<Token>, e: Expr)
    requires k <= 5 && Derives(k, ts, e)
    ensures ts != [] && StartsExpr(ts[0])
    decreases |ts|, 10 - k
  {
    if k == 0 {
      if Derives(1, ts, e) {
        DerivedStarts(1, ts, e);
      } else {
        var i :| 0 <= i < |ts| && AssignAt(ts, i, e);
        DerivedStarts(1, ts[..i], if e.Assign? then Var(e.x) else Index(e.a, e.i));
      }
    } else if k <= 3 {
      if Derives(k + 1, ts, e) {
        DerivedStarts(k + 1, ts, e);
      } else {
        var i :| 0 <= i < |ts| && JoinAt(k, ts, i, e);
        DerivedStarts(k, ts[..i], e.l);
      }
    } else if k == 4 && Derives(5, ts, e) {
      DerivedStarts(5, ts, e);
    }
  }

  lemma TailGoesOn(ts: seq<Token>, es: seq<Expr>, rest: seq<Token>)
    requires DerivesTail(ts, es)
    ensures Stops(0, ts + ([TRParen] + rest))
  {
    hide Derives;
    assert (ts + ([TRParen] + rest))[0] == if es == [] then TRParen else TComma;
  }

  lemma {:induction false} TailComplete(pre: seq<Expr>, ts: seq<Token>, es: seq<Expr>, rest: seq<Token>)
    requires DerivesTail(ts, es)
    ensures ParseTail(pre, ts + ([TRParen] + rest)) == ArgsOk(pre + es, rest)
    decreases |ts|, 35
  {
    hide Derives, ParseExpr;
    var all := ts + ([TRParen] + rest);
    if es == [] {
      assert all[1..] == rest && pre + es == pre;
    } else {
      var i :| 1 <= i <= |ts| && NextThen(ts, i, es[0], es[1..]);
      var more := ts[i..] + ([TRParen] + rest);
      assert all[1..] == ts[1..i] + more;
      TailGoesOn(ts[i..], es[1..], rest);
      Complete(0, ts[1..i], es[0], more);
      TailComplete(pre + [es[0]], ts[i..], es[1..], rest);
      assert pre + [es[0]] + es[1..] == pre + es;
    }
  }

  lemma {:induction false} PrintComplete(ts: seq<Token>, format: string, es: seq<Expr>, rest: seq<Token>)
    requires DerivesPrint(ts, format, es)
    ensures ParsePrintln(ts + ([TRParen] + rest)) == Ok(Println(format, es), rest)
    decreases |ts|, 40
  {
    hide Derives, ParseExpr, ParseTail, DerivesTail;
    var all := ts + ([TRParen] + rest);
    if i :| 0 <= i <= |ts| && FirstThen(ts, i, Str(format), es) {
      var more := ts[i..] + ([TRParen] + rest);
      assert all == ts[..i] + more;
      TailGoesOn(ts[i..], es, rest);
      Complete(0, ts[..i], Str(format), more);
      TailComplete([], ts[i..], es, rest);
      assert [] + es == es;
    } else {
      Complete(0, ts, es[0], [TRParen] + rest);
      assert ([TRParen] + rest)[1..] == rest;
      assert [es[0]] == es;
    }
  }

  /** The parser decides the grammar: followed by a token that cannot continue an expression, tokens
      parse to a tree, up to that token, if and only if they derive it. */
  lemma ParsesExactly(ts: seq<Token>, e: Expr, rest: seq<Token>)
    requires Stops(0, rest)
    ensures ParseExpr(ts + rest) == Ok(e, rest) <==> Derives(0, ts, e)
  {
    hide Derives, ParseExpr;
    if Derives(0, ts, e) {
      Complete(0, ts, e, rest);
    }
    if ParseExpr(ts + rest) == Ok(e, rest) {
      ExprSound(ts + rest);
      assert Used(ts + rest, rest) == ts;
    }
  }

  /** The grammar is unambiguous. */
  lemma Unambiguous(ts: seq<Token>, e: Expr, e': Expr)
    requires Derives(0, ts, e) && Derives(0, ts, e')
    ensures e == e'
  {
    hide Derives, ParseExpr;
    ParsesExactly(ts, e, []);
    ParsesExactly(ts, e', []);
  }

  // ---- precedence, operator by operator ----

  predicate IsPrimary(e: Expr) {
    e.Num? || e.Str? || e.Var? || e.Index? || e.Call? || e.Println?
  }

  predicate Sums(op: Op) {
    op == Plus || op == Minus
  }

  predicate Products(op: Op) {
    op == Star || op == Slash || op == Percent
  }

  predicate Compares(op: Op) {
    op == Lt || op == Gt || op == Le || op == Ge || op == EqEq || op == Neq
  }

  /** first binds tighter than second. */
  predicate Tighter(first: Op, second: Op) {
    (Products(first) && !Products(second)) || (Sums(first) && Compares(second))
  }

  predicate SameTier(first: Op, second: Op) {
    (Products(first) && Products(second)) || (Sums(first) && Sums(second)) || (Compares(first) && Compares(second))
  }

  /** For all primaries a, b, c: in a p b q c the tighter operator takes b, and of two operators of
      one tier the left one does. */
  lemma Precedence(a: Expr, p: Op, b: Expr, q: Op, c: Expr, rest: seq<Token>)
    requires IsPrimary(a) && IsPrimary(b) && IsPrimary(c) && Stops(0, rest)
    ensures ParseExpr(Bare(a) + [TOp(p)] + Bare(b) + [TOp(q)] + Bare(c) + rest) ==
            Ok(if Tighter(q, p) then Bin(p, a, Bin(q, b, c)) else Bin(q, Bin(p, a, b), c), rest)
    ensures Tighter(p, q) || Tighter(q, p) || SameTier(p, q)
  {
    hide Bare, ParseExpr;
    var e := if Tighter(q, p) then Bin(p, a, Bin(q, b, c)) else Bin(q, Bin(p, a, b), c);
    ParserRoundTrip(e, rest);
    ShownFlat(a, p, b, q, c);
    assert Show(e, 0) + rest == Bare(a) + [TOp(p)] + Bare(b) + [TOp(q)] + Bare(c) + rest;
  }

  lemma ShownFlat(a: Expr, p: Op, b: Expr, q: Op, c: Expr)
    requires IsPrimary(a) && IsPrimary(b) && IsPrimary(c)
    ensures Tighter(q, p) ==>
              Show(Bin(p, a, Bin(q, b, c)), 0) == Bare(a) + [TOp(p)] + Bare(b) + [TOp(q)] + Bare(c)
    ensures !Tighter(q, p) ==>
              Show(Bin(q, Bin(p, a, b), c), 0) == Bare(a) + [TOp(p)] + Bare(b) + [TOp(q)] + Bare(c)
  {
    hide Bare, Tighter, LevelOf, Show;
    TierOrder(q, p);
    LevelRange(q, p);
    if Tighter(q, p) {
      BareJoin(q, b, c);
      BareJoin(p, a, Bin(q, b, c));
      Regroup(Bare(a), [TOp(p)], Bare(b), [TOp(q)], Bare(c));
    } else {
      BareJoin(p, a, b);
      BareJoin(q, Bin(p, a, b), c);
    }
  }

  lemma Regroup(a: seq<Token>, p: seq<Token>, b: seq<Token>, q: seq<Token>, c: seq<Token>)
    ensures a + p + (b + q + c) == a + p + b + q + c
  {
  }

  lemma LevelRange(q: Op, p: Op)
    ensures 1 <= LevelOf(q) <= 3 && 1 <= LevelOf(p) <= 3
  {
  }

  lemma TierOrder(q: Op, p: Op)
    ensures Tighter(q, p) <==> LevelOf(q) > LevelOf(p)
  {
  }

  /** Operands tight enough stand without parentheses. */
  lemma BareJoin(op: Op, l: Expr, r: Expr)
    requires Level(l) >= LevelOf(op) && Level(r) > LevelOf(op)
    ensures Show(Bin(op, l, r), 0) == Bare(Bin(op, l, r)) == Bare(l) + [TOp(op)] + Bare(r)
  {
  }
}
