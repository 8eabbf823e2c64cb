/**
 Operator precedence. An expression is read back from its tokens exactly when it fits, in
 one way only, and followed by a token that can neither continue it nor be a postfix.
 */
module Pratt {
  import opened Tokens
  import opened Symbols
  import opened Engine
  import opened Productions
  import opened Expressions

  // ---------- reading a derivation as an expression ----------

  const Nonsense := Atom(Token(0, 0, Unknown))

  function ReadExpr(t: Tree): Exp
    decreases t
  {
    if t.Node? && |t.kids| == 2 then ReadTail(ReadPrimary(t.kids[0]), t.kids[1]) else Nonsense
  }

  function ReadTail(left: Exp, t: Tree): Exp
    decreases t
  {
    if t.Node? && |t.kids| == 2 && t.kids[0].Node? && |t.kids[0].kids| == 2 && t.kids[0].kids[0].Leaf? then
      ReadTail(Binary(left, t.kids[0].kids[0].tok, ReadExpr(t.kids[0].kids[1])), t.kids[1])
    else left
  }

  function ReadPrimary(t: Tree): Exp
    decreases t
  {
    if t.Node? && |t.kids| == 2 then ReadPostfixes(ReadOperand(t.kids[0]), t.kids[1]) else Nonsense
  }

  function ReadPostfixes(left: Exp, t: Tree): Exp
    decreases t
  {
    if t.Node? && |t.kids| == 2 then ReadPostfixes(ReadStep(left, t.kids[0]), t.kids[1]) else left
  }

  function ReadOperand(t: Tree): Exp
    decreases t
  {
    if t.Leaf? || t.kids == [] || t.kids[0].Node? then Nonsense
    else if |t.kids| == 1 then Atom(t.kids[0].tok)
    else if |t.kids| == 2 then Prefix(t.kids[0].tok, ReadPrimary(t.kids[1]))
    else if |t.kids| == 3 && t.kids[2].Leaf? then Paren(t.kids[0].tok, ReadExpr(t.kids[1]), t.kids[2].tok)
    else Nonsense
  }

  function ReadStep(left: Exp, t: Tree): Exp
    decreases t
  {
    if t.Leaf? || t.kids == [] || t.kids[0].Node? then Nonsense
    else if |t.kids| == 1 then Bump(left, t.kids[0].tok)
    else if |t.kids| == 2 && t.kids[1].Leaf? then Member(left, t.kids[0].tok, t.kids[1].tok)
    else if |t.kids| == 3 && t.kids[2].Leaf? then
      if t.kids[0].tok.kind.SqLeft? then Index(left, t.kids[0].tok, ReadExpr(t.kids[1]), t.kids[2].tok)
      else Call(left, t.kids[0].tok, ReadArgs(t.kids[1]), t.kids[2].tok)
    else Nonsense
  }

  function ReadArgs(t: Tree): Args
    decreases t
  {
    if t.Node? && |t.kids| == 2 then Given(ReadExpr(t.kids[0]), ReadMore(t.kids[1])) else NoArgs
  }

  function ReadMore(t: Tree): More
    decreases t
  {
    if t.Node? && |t.kids| == 3 && t.kids[0].Leaf? then
      Another(t.kids[0].tok, ReadExpr(t.kids[1]), ReadMore(t.kids[2]))
    else NoMore
  }

  // ---------- productions by shape ----------

  /** What the reference parser does with a production, symbol by symbol. */
  function Run(i: Input, rhs: seq<Sym>, p: nat): (r: Reses)
    requires p <= |i.toks|
    ensures r.Oks? ==> p <= r.next <= |i.toks|
  {
    LgcValid();
    TopGuards(Lgc, rhs);
    ParseAll(Lgc, i, rhs, p, Lgc.top)
  }

  function Read(i: Input, n: NT, p: nat): (r: Res)
    requires p <= |i.toks|
    ensures r.Ok? ==> p <= r.next <= |i.toks| && (IsEager(n) ==> p < r.next)
  {
    LgcValid();
    Parse(Lgc, i, n, p)
  }

  lemma {:induction false} BoundFree(i: Input, rhs: seq<Sym>, p: nat, b: nat, c: nat)
    requires p <= |i.toks| && Lgc.Valid() && Lgc.Guarded(rhs, b) && Lgc.Guarded(rhs, c)
    ensures ParseAll(Lgc, i, rhs, p, b) == ParseAll(Lgc, i, rhs, p, c)
    decreases |rhs|
  {
    hide Rhs, Rank, IsEager;
    if rhs != [] {
      var r := ParseSym(Lgc, i, rhs[0], p, b);
      if r.Ok? {
        TopGuards(Lgc, rhs[1..]);
        BoundFree(i, rhs[1..], r.next, Lgc.After(rhs[0], b), Lgc.After(rhs[0], c));
      }
    }
  }

  function Close(i: Input, n: NT, p: nat, r: Reses): Res {
    if r.Errs? then Err(r.at) else Ok(Node(n, i.At(p), i.At(p + 1), i.At(r.next), r.trees), r.next)
  }

  lemma Opens(i: Input, n: NT, p: nat, rhs: seq<Sym>)
    requires p <= |i.toks| && Rhs(i.source, n, i.At(p), i.At(p + 1)) == Some(rhs)
    ensures Read(i, n, p) == Close(i, n, p, Run(i, rhs, p))
  {
    hide Rhs, Rank, IsEager, ParseAll;
    LgcValid();
    TopGuards(Lgc, rhs);
    BoundFree(i, rhs, p, Rank(n), Lgc.top);
  }

  function Put(t: Tree, r: Reses): Reses {
    if r.Errs? then r else Oks([t] + r.trees, r.next)
  }

  lemma Puts(t: Tree, u: Tree, v: Tree, q: nat)
    ensures Put(t, Oks([], q)) == Oks([t], q)
    ensures Put(t, Oks([u], q)) == Oks([t, u], q)
    ensures Put(t, Oks([u, v], q)) == Oks([t, u, v], q)
    ensures forall a: Token :: Put(t, Errs(a)) == Errs(a)
  {
    assert [t] + [] == [t] && [t] + [u] == [t, u] && [t] + [u, v] == [t, u, v];
  }

  lemma RunToken(i: Input, k: TokenType, rest: seq<Sym>, p: nat)
    requires p <= |i.toks|
    ensures Run(i, [T(k)] + rest, p) ==
      if p < |i.toks| && i.Kind(p) == k then Put(Leaf(i.At(p)), Run(i, rest, p + 1)) else Errs(i.At(p))
  {
    hide Rhs, Rank, IsEager;
    var rhs := [T(k)] + rest;
    assert rhs[1..] == rest;
    LgcValid();
    TopGuards(Lgc, rhs);
    TopGuards(Lgc, rest);
    TopGuards(Lgc, [rhs[0]]);
    assert ParseAll(Lgc, i, rhs, p, Lgc.top) ==
      match ParseSym(Lgc, i, rhs[0], p, Lgc.top)
      case Err(e) => Errs(e)
      case Ok(t, q) => Put(t, ParseAll(Lgc, i, rest, q, Lgc.After(rhs[0], Lgc.top)));
  }

  lemma RunPart(i: Input, n: NT, rest: seq<Sym>, p: nat)
    requires p <= |i.toks|
    ensures Run(i, [N(n)] + rest, p) ==
      var r := Read(i, n, p); if r.Err? then Errs(r.at) else Put(r.tree, Run(i, rest, r.next))
  {
    hide Rhs;
    var rhs := [N(n)] + rest;
    assert rhs[1..] == rest;
    LgcValid();
    TopGuards(Lgc, rhs);
    TopGuards(Lgc, rest);
    TopGuards(Lgc, [rhs[0]]);
    var r := Read(i, n, p);
    assert ParseAll(Lgc, i, rhs, p, Lgc.top) ==
      if r.Err? then Errs(r.at) else Put(r.tree, ParseAll(Lgc, i, rest, r.next, Lgc.After(rhs[0], Lgc.top)));
    if r.Ok? { BoundFree(i, rest, r.next, Lgc.After(rhs[0], Lgc.top), Lgc.top); }
  }

  lemma RunEnd(i: Input, p: nat)
    requires p <= |i.toks|
    ensures Run(i, [], p) == Oks([], p)
  {}

  function Whole(i: Input, n: NT, p: nat, kids: seq<Tree>, q: nat): Res {
    Ok(Node(n, i.At(p), i.At(p + 1), i.At(q), kids), q)
  }

  lemma Zero(i: Input, n: NT, p: nat)
    requires p <= |i.toks| && Rhs(i.source, n, i.At(p), i.At(p + 1)) == Some([])
    ensures Read(i, n, p) == Whole(i, n, p, [], p)
  {
    hide Rhs, Run, Read;
    Opens(i, n, p, []);
    RunEnd(i, p);
  }

  lemma One(i: Input, n: NT, k: TokenType, p: nat)
    requires p < |i.toks| && i.Kind(p) == k && Rhs(i.source, n, i.At(p), i.At(p + 1)) == Some([T(k)])
    ensures Read(i, n, p) == Whole(i, n, p, [Leaf(i.At(p))], p + 1)
  {
    hide Rhs, Run, Read;
    Opens(i, n, p, [T(k)]);
    assert [T(k)] + [] == [T(k)];
    RunToken(i, k, [], p);
    RunEnd(i, p + 1);
    Puts(Leaf(i.At(p)), Leaf(i.At(p)), Leaf(i.At(p)), p + 1);
  }

  lemma TwoTokens(i: Input, n: NT, k: TokenType, l: TokenType, p: nat)
    requires p < |i.toks| && i.Kind(p) == k && l != Eof && Rhs(i.source, n, i.At(p), i.At(p + 1)) == Some([T(k), T(l)])
    ensures Read(i, n, p) ==
      if i.Kind(p + 1) == l then Whole(i, n, p, [Leaf(i.At(p)), Leaf(i.At(p + 1))], p + 2) else Err(i.At(p + 1))
  {
    hide Rhs, Run, Read;
    Opens(i, n, p, [T(k), T(l)]);
    assert [T(k)] + [T(l)] == [T(k), T(l)] && [T(l)] + [] == [T(l)];
    RunToken(i, k, [T(l)], p);
    RunToken(i, l, [], p + 1);
    if p + 2 <= |i.toks| {
      RunEnd(i, p + 2);
      Puts(Leaf(i.At(p + 1)), Leaf(i.At(p + 1)), Leaf(i.At(p + 1)), p + 2);
      Puts(Leaf(i.At(p)), Leaf(i.At(p + 1)), Leaf(i.At(p + 1)), p + 2);
    }
  }

  lemma TokenPart(i: Input, n: NT, k: TokenType, a: NT, p: nat)
    requires p < |i.toks| && i.Kind(p) == k && Rhs(i.source, n, i.At(p), i.At(p + 1)) == Some([T(k), N(a)])
    ensures var x := Read(i, a, p + 1);
      Read(i, n, p) == if x.Err? then x else Whole(i, n, p, [Leaf(i.At(p)), x.tree], x.next)
  {
    hide Rhs, Run, Read;
    Opens(i, n, p, [T(k), N(a)]);
    assert [T(k)] + [N(a)] == [T(k), N(a)] && [N(a)] + [] == [N(a)];
    RunToken(i, k, [N(a)], p);
    RunPart(i, a, [], p + 1);
    var x := Read(i, a, p + 1);
    if x.Ok? {
      RunEnd(i, x.next);
      Puts(x.tree, x.tree, x.tree, x.next);
      Puts(Leaf(i.At(p)), x.tree, x.tree, x.next);
    }
  }

  /** A part and the token after it. */
  lemma RunLastTwo(i: Input, a: NT, l: TokenType, p: nat)
    requires p <= |i.toks| && l != Eof
    ensures var x := Read(i, a, p);
      Run(i, [N(a), T(l)], p) ==
        if x.Err? then Errs(x.at)
        else if !i.Has(x.next, l) then Errs(i.At(x.next))
        else Oks([x.tree, Leaf(i.At(x.next))], x.next + 1)
  {
    hide Run, Read;
    assert [N(a)] + [T(l)] == [N(a), T(l)] && [T(l)] + [] == [T(l)];
    RunPart(i, a, [T(l)], p);
    var x := Read(i, a, p);
    if x.Ok? {
      RunToken(i, l, [], x.next);
      if i.Has(x.next, l) {
        var last := Leaf(i.At(x.next));
        RunEnd(i, x.next + 1);
        Puts(last, last, last, x.next + 1);
        Puts(x.tree, last, last, x.next + 1);
      }
    }
  }

  lemma Enclosed(i: Input, n: NT, k: TokenType, a: NT, l: TokenType, p: nat)
    requires p < |i.toks| && i.Has(p, k) && l != Eof
    requires Rhs(i.source, n, i.At(p), i.At(p + 1)) == Some([T(k), N(a), T(l)])
    ensures var x := Read(i, a, p + 1);
      Read(i, n, p) ==
        if x.Err? then x
        else if !i.Has(x.next, l) then Err(i.At(x.next))
        else Whole(i, n, p, [Leaf(i.At(p)), x.tree, Leaf(i.At(x.next))], x.next + 1)
  {
    hide Rhs, Run, Read;
    Opens(i, n, p, [T(k), N(a), T(l)]);
    assert [T(k)] + [N(a), T(l)] == [T(k), N(a), T(l)];
    RunToken(i, k, [N(a), T(l)], p);
    RunLastTwo(i, a, l, p + 1);
    var x := Read(i, a, p + 1);
    if x.Ok? { Puts(Leaf(i.At(p)), x.tree, Leaf(i.At(x.next)), x.next + 1); }
  }

  lemma Pair(i: Input, n: NT, a: NT, b: NT, p: nat)
    requires p <= |i.toks| && Rhs(i.source, n, i.At(p), i.At(p + 1)) == Some([N(a), N(b)])
    ensures var x := Read(i, a, p);
      Read(i, n, p) ==
        if x.Err? then x
        else
          var y := Read(i, b, x.next);
          if y.Err? then y else Whole(i, n, p, [x.tree, y.tree], y.next)
  {
    hide Rhs, Run, Read;
    Opens(i, n, p, [N(a), N(b)]);
    assert [N(a)] + [N(b)] == [N(a), N(b)] && [N(b)] + [] == [N(b)];
    RunPart(i, a, [N(b)], p);
    var x := Read(i, a, p);
    if x.Ok? {
      RunPart(i, b, [], x.next);
      var y := Read(i, b, x.next);
      if y.Ok? {
        RunEnd(i, y.next);
        Puts(y.tree, y.tree, y.tree, y.next);
        Puts(x.tree, y.tree, y.tree, y.next);
      }
    }
  }

  lemma TokenPair(i: Input, n: NT, k: TokenType, a: NT, b: NT, p: nat)
    requires p < |i.toks| && i.Kind(p) == k && Rhs(i.source, n, i.At(p), i.At(p + 1)) == Some([T(k), N(a), N(b)])
    ensures var x := Read(i, a, p + 1);
      Read(i, n, p) ==
        if x.Err? then x
        else
          var y := Read(i, b, x.next);
          if y.Err? then y else Whole(i, n, p, [Leaf(i.At(p)), x.tree, y.tree], y.next)
  {
    hide Rhs, Run, Read;
    Opens(i, n, p, [T(k), N(a), N(b)]);
    assert [T(k)] + [N(a), N(b)] == [T(k), N(a), N(b)] && [N(a)] + [N(b)] == [N(a), N(b)] && [N(b)] + [] == [N(b)];
    RunToken(i, k, [N(a), N(b)], p);
    RunPart(i, a, [N(b)], p + 1);
    var x := Read(i, a, p + 1);
    if x.Ok? {
      RunPart(i, b, [], x.next);
      var y := Read(i, b, x.next);
      if y.Ok? {
        RunEnd(i, y.next);
        Puts(y.tree, y.tree, y.tree, y.next);
        Puts(x.tree, y.tree, y.tree, y.next);
        Puts(Leaf(i.At(p)), x.tree, y.tree, y.next);
      }
    }
  }

  // ---------- the productions of expressions ----------

  lemma ExprRead(i: Input, min: nat, p: nat)
    requires p <= |i.toks|
    ensures var x := Read(i, Primary, p);
      Read(i, Expr(min), p) ==
        if x.Err? then x
        else
          var y := Read(i, Tail(min), x.next);
          if y.Err? then y else Whole(i, Expr(min), p, [x.tree, y.tree], y.next)
  {
    hide Read, Whole;
    Pair(i, Expr(min), Primary, Tail(min), p);
  }

  lemma PrimaryRead(i: Input, p: nat)
    requires p <= |i.toks|
    ensures var x := Read(i, Operand, p);
      Read(i, Primary, p) ==
        if x.Err? then x
        else
          var y := Read(i, Postfixes, x.next);
          if y.Err? then y else Whole(i, Primary, p, [x.tree, y.tree], y.next)
  {
    hide Read, Whole;
    Pair(i, Primary, Operand, Postfixes, p);
  }

  lemma AtomRead(i: Input, p: nat)
    requires p < |i.toks| && (IsLiteral(i.Kind(p)) || IsName(i.Kind(p)))
    ensures Read(i, Operand, p) == Whole(i, Operand, p, [Leaf(i.At(p))], p + 1)
  {
    hide Read, Whole;
    One(i, Operand, i.Kind(p), p);
  }

  lemma PrefixRead(i: Input, p: nat)
    requires p < |i.toks| && IsPrefixOp(i.Kind(p))
    ensures var x := Read(i, Primary, p + 1);
      Read(i, Operand, p) == if x.Err? then x else Whole(i, Operand, p, [Leaf(i.At(p)), x.tree], x.next)
  {
    hide Read, Whole;
    TokenPart(i, Operand, i.Kind(p), Primary, p);
  }

  lemma ParenRead(i: Input, p: nat)
    requires p < |i.toks| && i.Kind(p).Left? && !i.Kind(p + 1).KwDelete?
    ensures var x := Read(i, Expr(0), p + 1);
      Read(i, Operand, p) ==
        if x.Err? then x
        else if !i.Kind(x.next).Right? then Err(i.At(x.next))
        else Whole(i, Operand, p, [Leaf(i.At(p)), x.tree, Leaf(i.At(x.next))], x.next + 1)
  {
    hide Read, Whole;
    Enclosed(i, Operand, Left, Expr(0), Right, p);
  }

  lemma MemberRead(i: Input, p: nat)
    requires p < |i.toks| && (i.Kind(p).Dot? || i.Kind(p).Arrow?)
    ensures Read(i, PostfixStep, p) ==
      if i.Kind(p + 1).Ident? then Whole(i, PostfixStep, p, [Leaf(i.At(p)), Leaf(i.At(p + 1))], p + 2) else Err(i.At(p + 1))
  {
    hide Read, Whole;
    TwoTokens(i, PostfixStep, i.Kind(p), Ident, p);
  }

  lemma BumpRead(i: Input, p: nat)
    requires p < |i.toks| && (i.Kind(p).PPlus? || i.Kind(p).MMinus?)
    ensures Read(i, PostfixStep, p) == Whole(i, PostfixStep, p, [Leaf(i.At(p))], p + 1)
  {
    hide Read, Whole;
    One(i, PostfixStep, i.Kind(p), p);
  }

  lemma IndexRead(i: Input, p: nat)
    requires p < |i.toks| && i.Kind(p).SqLeft?
    ensures var x := Read(i, Expr(0), p + 1);
      Read(i, PostfixStep, p) ==
        if x.Err? then x
        else if !i.Kind(x.next).SqRight? then Err(i.At(x.next))
        else Whole(i, PostfixStep, p, [Leaf(i.At(p)), x.tree, Leaf(i.At(x.next))], x.next + 1)
  {
    hide Read, Whole;
    Enclosed(i, PostfixStep, SqLeft, Expr(0), SqRight, p);
  }

  lemma CallRead(i: Input, p: nat)
    requires p < |i.toks| && i.Kind(p).Left?
    ensures var x := Read(i, NT.Args, p + 1);
      Read(i, PostfixStep, p) ==
        if x.Err? then x
        else if !i.Kind(x.next).Right? then Err(i.At(x.next))
        else Whole(i, PostfixStep, p, [Leaf(i.At(p)), x.tree, Leaf(i.At(x.next))], x.next + 1)
  {
    hide Read, Whole;
    Enclosed(i, PostfixStep, Left, NT.Args, Right, p);
  }

  lemma ArgsRead(i: Input, p: nat)
    requires p <= |i.toks| && !i.Kind(p).Right?
    ensures var x := Read(i, Expr(0), p);
      Read(i, NT.Args, p) ==
        if x.Err? then x
        else
          var y := Read(i, MoreArgs, x.next);
          if y.Err? then y else Whole(i, NT.Args, p, [x.tree, y.tree], y.next)
  {
    hide Read, Whole;
    Pair(i, NT.Args, Expr(0), MoreArgs, p);
  }

  lemma MoreArgsRead(i: Input, p: nat)
    requires p < |i.toks| && i.Kind(p).Comma?
    ensures var x := Read(i, Expr(0), p + 1);
      Read(i, MoreArgs, p) ==
        if x.Err? then x
        else
          var y := Read(i, MoreArgs, x.next);
          if y.Err? then y else Whole(i, MoreArgs, p, [Leaf(i.At(p)), x.tree, y.tree], y.next)
  {
    hide Read, Whole;
    TokenPair(i, MoreArgs, Comma, Expr(0), MoreArgs, p);
  }

  // ---------- every fitting expression is read back ----------

  lemma Split(i: Input, p: nat, a: seq<Token>, b: seq<Token>, q: nat) returns (m: nat)
    requires Reads(i, p, a + b, q)
    ensures m == p + |a| && p <= m <= q <= |i.toks| && Reads(i, p, a, m) && Reads(i, m, b, q)
  {
    m := p + |a|;
    ReadSplit(i, p, a, b, q);
  }

  lemma Single(i: Input, p: nat, t: Token, q: nat)
    requires Reads(i, p, [t], q)
    ensures q == p + 1 && p < |i.toks| && i.At(p) == t
  {
    assert i.toks[p..q][0] == i.toks[p];
  }

  /** The operator of `e` does not let `k`, seen after `e`, bind first. */
  predicate Yielding(e: Exp, k: TokenType) {
    !IsPostfixStart(k) && (e.Binary? ==> Precedence(k) <= Precedence(e.op.kind))
  }



  lemma {:induction false} FirstToken(e: Exp, min: nat)
    requires Fits(e, min)
    ensures Spell(e) != [] && Spell(e)[0].kind != KwDelete && Spell(e)[0].kind != Right
  {
    match e
    case Binary(l, op, r) => FirstToken(l, Precedence(op.kind));
    case Member(b, _, _) => FirstToken(b, POSTFIX);
    case Bump(b, _) => FirstToken(b, POSTFIX);
    case Index(b, _, _, _) => FirstToken(b, POSTFIX);
    case Call(b, _, _, _) => FirstToken(b, POSTFIX);
    case _ =>
  }

  lemma Stopped(i: Input, n: NT, q: nat)
    requires q <= |i.toks|
    requires match n
             case Tail(min) => Precedence(i.Kind(q)) < min || Precedence(i.Kind(q)) == 0
             case Postfixes => !IsPostfixStart(i.Kind(q))
             case Args => i.Kind(q).Right?
             case MoreArgs => !i.Kind(q).Comma?
             case _ => false
    ensures Read(i, n, q) == Whole(i, n, q, [], q)
  {
    hide Read;
    Zero(i, n, q);
  }

  /** One more postfix in front of those already read. */
  lemma MorePostfix(i: Input, step: Res, m: nat, tail: Res)
    requires m <= |i.toks| && IsPostfixStart(i.Kind(m)) && step.Ok? && Read(i, PostfixStep, m) == step
    requires tail.Ok? && Read(i, Postfixes, step.next) == tail
    ensures Read(i, Postfixes, m) == Whole(i, Postfixes, m, [step.tree, tail.tree], tail.next)
  {
    hide Read;
    Pair(i, Postfixes, PostfixStep, Postfixes, m);
  }

  lemma MoreTail(i: Input, min: nat, op: TokenType, m: nat, rhs: Res, tail: Res)
    requires m < |i.toks| && i.Kind(m) == op && Precedence(op) >= min && Precedence(op) != 0
    requires rhs.Ok? && Read(i, Expr(Precedence(op) + 1), m + 1) == rhs
    requires tail.Ok? && Read(i, Tail(min), rhs.next) == tail
    ensures var step := Node(BinStep, i.At(m), i.At(m + 1), i.At(rhs.next), [Leaf(i.At(m)), rhs.tree]);
      Read(i, Tail(min), m) == Whole(i, Tail(min), m, [step, tail.tree], tail.next)
  {
    hide Read, Precedence;
    TokenPart(i, BinStep, op, Expr(Precedence(op) + 1), m);
    Pair(i, Tail(min), BinStep, Tail(min), m);
  }

  predicate IsPostfix(e: Exp) { e.Member? || e.Bump? || e.Index? || e.Call? }

  /** The tokens of the last postfix. */
  function LastSpelled(e: Exp): seq<Token>
    requires IsPostfix(e)
  {
    match e
    case Member(_, op, n) => [op, n]
    case Bump(_, op) => [op]
    case Index(_, o, x, c) => [o] + Spell(x) + [c]
    case Call(_, o, args, c) => [o] + SpellArgs(args) + [c]
  }

  lemma HeadAt(i: Input, p: nat, ys: seq<Token>, q: nat)
    requires Reads(i, p, ys, q) && ys != []
    ensures p < q <= |i.toks| && i.At(p) == ys[0]
  {
    assert i.toks[p..q][0] == i.toks[p];
  }

  lemma Within(i: Input, p: nat, ys: seq<Token>, q: nat)
    requires Reads(i, p, ys, q)
    ensures p <= q <= |i.toks| && (p == q <==> ys == [])
  {}

  /** Tokens between two others. */
  lemma Inside(i: Input, p: nat, o: Token, ys: seq<Token>, c: Token, q: nat)
    requires Reads(i, p, [o] + ys + [c], q)
    ensures p + 2 <= q && i.At(p) == o && i.At(q - 1) == c && Reads(i, p + 1, ys, q - 1)
  {
    var m := Split(i, p, [o] + ys, [c], q);
    Single(i, m, c, q);
    m := Split(i, p, [o], ys, q - 1);
    Single(i, p, o, m);
  }

  lemma Tight(e: Exp)
    requires Fits(e, POSTFIX)
    ensures !e.Binary? && !e.Prefix?
  {
    if e.Binary? { PrecedenceBound(e.op.kind); }
  }

  lemma BackAtom(i: Input, e: Exp, p: nat, q: nat)
    requires e.Atom? && Fits(e, POSTFIX) && Reads(i, p, Spell(e), q)
    ensures var r := Read(i, Operand, p); r.Ok? && r.next == q && ReadOperand(r.tree) == e
  {
    hide Rhs, Reads, Read, IsLiteral, IsName;
    Single(i, p, e.tok, q);
    AtomRead(i, p);
  }

  lemma ParenParts(e: Exp)
    requires e.Paren? && Fits(e, POSTFIX)
    ensures Fits(e.inner, 0) && e.open.kind.Left? && e.close.kind.Right?
    ensures Spell(e) == [e.open] + Spell(e.inner) + [e.close]
  {}

  lemma Grouped(t: Tree, o: Token, x: Tree, c: Token)
    requires t.Node? && t.kids == [Leaf(o), x, Leaf(c)]
    ensures ReadOperand(t) == Paren(o, ReadExpr(x), c)
  {}

  lemma {:induction false} BackParen(i: Input, e: Exp, p: nat, q: nat)
    requires e.Paren? && Fits(e, POSTFIX) && Reads(i, p, Spell(e), q)
    ensures var r := Read(i, Operand, p); r.Ok? && r.next == q && ReadOperand(r.tree) == e
    decreases e, 3
  {
    hide Rhs, Reads, Read, ReadExpr, ReadOperand, Spell, Fits;
    ParenParts(e);
    Inside(i, p, e.open, Spell(e.inner), e.close, q);
    FirstToken(e.inner, 0);
    HeadAt(i, p + 1, Spell(e.inner), q - 1);
    BackWhole(i, e.inner, p + 1, q - 1);
    ParenRead(i, p);
    Grouped(Read(i, Operand, p).tree, e.open, Read(i, Expr(0), p + 1).tree, e.close);
  }

  lemma {:induction false} BackStep(i: Input, e: Exp, m: nat, q: nat)
    requires IsPostfix(e) && Fits(e, POSTFIX) && Reads(i, m, LastSpelled(e), q)
    ensures m < q && IsPostfixStart(i.Kind(m))
    ensures var r := Read(i, PostfixStep, m); r.Ok? && r.next == q && ReadStep(e.base, r.tree) == e
    decreases e, 3
  {
    hide Rhs, Reads, Read, ReadStep, Spell;
    if e.Member? { BackMember(i, e, m, q); }
    else if e.Bump? { BackBump(i, e, m, q); }
    else if e.Index? { BackIndex(i, e, m, q); }
    else { BackCall(i, e, m, q); }
  }

  lemma BackMember(i: Input, e: Exp, m: nat, q: nat)
    requires e.Member? && Fits(e, POSTFIX) && Reads(i, m, LastSpelled(e), q)
    ensures m < q && IsPostfixStart(i.Kind(m))
    ensures var r := Read(i, PostfixStep, m); r.Ok? && r.next == q && ReadStep(e.base, r.tree) == e
  {
    hide Rhs, Reads, Read, ReadExpr, ReadArgs, Spell;
    assert [e.op, e.name] == [e.op] + [e.name];
    var k := Split(i, m, [e.op], [e.name], q);
    Single(i, m, e.op, k);
    Single(i, k, e.name, q);
    MemberRead(i, m);
  }

  lemma BackBump(i: Input, e: Exp, m: nat, q: nat)
    requires e.Bump? && Fits(e, POSTFIX) && Reads(i, m, LastSpelled(e), q)
    ensures m < q && IsPostfixStart(i.Kind(m))
    ensures var r := Read(i, PostfixStep, m); r.Ok? && r.next == q && ReadStep(e.base, r.tree) == e
  {
    hide Rhs, Reads, Read, ReadExpr, ReadArgs, Spell;
    Single(i, m, e.op, q);
    BumpRead(i, m);
  }

  lemma {:induction false} BackIndex(i: Input, e: Exp, m: nat, q: nat)
    requires e.Index? && Fits(e, POSTFIX) && Reads(i, m, LastSpelled(e), q)
    ensures m < q && IsPostfixStart(i.Kind(m))
    ensures var r := Read(i, PostfixStep, m); r.Ok? && r.next == q && ReadStep(e.base, r.tree) == e
    decreases e, 2
  {
    hide Rhs, Reads, Read, ReadExpr, ReadArgs, Spell;
    Inside(i, m, e.open, Spell(e.index), e.close, q);
    BackWhole(i, e.index, m + 1, q - 1);
    IndexRead(i, m);
  }

  lemma {:induction false} BackCall(i: Input, e: Exp, m: nat, q: nat)
    requires e.Call? && Fits(e, POSTFIX) && Reads(i, m, LastSpelled(e), q)
    ensures m < q && IsPostfixStart(i.Kind(m))
    ensures var r := Read(i, PostfixStep, m); r.Ok? && r.next == q && ReadStep(e.base, r.tree) == e
    decreases e, 2
  {
    hide Rhs, Reads, Read, ReadExpr, ReadArgs, Spell, SpellArgs, FitsArgs;
    Inside(i, m, e.open, SpellArgs(e.args), e.close, q);
    BackArgs(i, e.args, m + 1, q - 1);
    CallRead(i, m);
  }

  /** An operand to which postfixes may be attached is read with whatever postfixes follow. */
  lemma {:induction false} BackPostfix(i: Input, e: Exp, p: nat, q: nat, tail: Tree, z: nat)
    requires Fits(e, POSTFIX) && Reads(i, p, Spell(e), q) && Read(i, Postfixes, q) == Ok(tail, z)
    ensures var r := Read(i, Primary, p); r.Ok? && r.next == z && ReadPrimary(r.tree) == ReadPostfixes(e, tail)
    decreases e, 4
  {
    hide Rhs, Reads, Read, ReadExpr, ReadArgs, ReadOperand, ReadStep, SpellArgs, FitsArgs, Precedence, IsPostfixStart;
    Tight(e);
    if e.Atom? {
      BackAtom(i, e, p, q);
      PrimaryRead(i, p);
    } else if e.Paren? {
      BackParen(i, e, p, q);
      PrimaryRead(i, p);
    } else {
      var m := Split(i, p, Spell(e.base), LastSpelled(e), q);
      BackStep(i, e, m, q);
      MorePostfix(i, Read(i, PostfixStep, m), m, Ok(tail, z));
      BackPostfix(i, e.base, p, m, Read(i, Postfixes, m).tree, z);
    }
  }

  lemma {:induction false} BackPrimary(i: Input, e: Exp, p: nat, q: nat)
    requires Fits(e, PREFIX) && Reads(i, p, Spell(e), q) && !IsPostfixStart(i.Kind(q))
    ensures var r := Read(i, Primary, p); r.Ok? && r.next == q && ReadPrimary(r.tree) == e
    decreases e, 5
  {
    hide Rhs, Reads, Read, IsPostfixStart, Precedence, ReadExpr, ReadArgs, ReadStep, SpellArgs, FitsArgs, IsLiteral, IsName;
    Within(i, p, Spell(e), q);
    Stopped(i, Postfixes, q);
    if e.Prefix? {
      var m := Split(i, p, [e.op], Spell(e.arg), q);
      Single(i, p, e.op, m);
      BackPrimary(i, e.arg, m, q);
      PrefixRead(i, p);
      PrimaryRead(i, p);
    } else {
      LevelTop(e);
      BackPostfix(i, e, p, q, Read(i, Postfixes, q).tree, q);
    }
  }

  lemma LevelTop(e: Exp)
    requires Fits(e, PREFIX) && !e.Prefix?
    ensures Fits(e, POSTFIX)
  {
    if e.Binary? { PrecedenceBound(e.op.kind); }
  }

  /** An expression is read with whatever operators follow, if they do not bind too tightly. */
  lemma {:induction false} BackExpr(i: Input, e: Exp, min: nat, p: nat, q: nat, tail: Tree, z: nat)
    requires Fits(e, min) && Reads(i, p, Spell(e), q) && Yielding(e, i.Kind(q)) && Read(i, Tail(min), q) == Ok(tail, z)
    ensures var r := Read(i, Expr(min), p); r.Ok? && r.next == z && ReadExpr(r.tree) == ReadTail(e, tail)
    decreases e, 6
  {
    hide Rhs, Reads, Read, Precedence, IsPostfixStart, ReadPrimary;
    if e.Binary? {
      BackBinary(i, e, min, p, q, tail, z);
    } else {
      BackPrimary(i, e, p, q);
      ExprRead(i, min, p);
    }
  }

  lemma {:induction false} BackBinary(i: Input, e: Exp, min: nat, p: nat, q: nat, tail: Tree, z: nat)
    requires e.Binary? && Fits(e, min) && Reads(i, p, Spell(e), q) && Yielding(e, i.Kind(q)) && Read(i, Tail(min), q) == Ok(tail, z)
    ensures var r := Read(i, Expr(min), p); r.Ok? && r.next == z && ReadExpr(r.tree) == ReadTail(e, tail)
    decreases e, 5
  {
    hide Rhs, Reads, Read, Precedence, IsPostfixStart, ReadPrimary;
    var prec := Precedence(e.op.kind);
    var m := Split(i, p, Spell(e.lhs), [e.op] + Spell(e.rhs), q);
    var m' := Split(i, m, [e.op], Spell(e.rhs), q);
    Single(i, m, e.op, m');
    PrecedenceBound(e.op.kind);
    Stopped(i, Tail(prec + 1), q);
    BackExpr(i, e.rhs, prec + 1, m', q, Read(i, Tail(prec + 1), q).tree, q);
    MoreTail(i, min, e.op.kind, m, Read(i, Expr(prec + 1), m'), Ok(tail, z));
    BackExpr(i, e.lhs, min, p, m, Read(i, Tail(min), m).tree, z);
  }

  lemma {:induction false} BackArgs(i: Input, a: Args, p: nat, q: nat)
    requires FitsArgs(a) && Reads(i, p, SpellArgs(a), q) && i.Kind(q).Right?
    ensures var r := Read(i, NT.Args, p); r.Ok? && r.next == q && ReadArgs(r.tree) == a
    decreases a, 6
  {
    hide Rhs, Reads, Read, ReadExpr, Spell, Fits, ReadMore, SpellMore;
    Within(i, p, SpellArgs(a), q);
    if a.NoArgs? {
      Stopped(i, NT.Args, p);
    } else {
      var m := Split(i, p, Spell(a.first), SpellMore(a.more), q);
      BackMore(i, a.more, m, q);
      AfterArg(i, a.more, m, q);
      BackWhole(i, a.first, p, m);
      FirstToken(a.first, 0);
      HeadAt(i, p, Spell(a.first), m);
      ArgsRead(i, p);
    }
  }

  lemma {:induction false} BackMore(i: Input, a: More, p: nat, q: nat)
    requires FitsMore(a) && Reads(i, p, SpellMore(a), q) && i.Kind(q).Right?
    ensures var r := Read(i, MoreArgs, p); r.Ok? && r.next == q && ReadMore(r.tree) == a
    decreases a, 6
  {
    hide Rhs, Reads, Read, ReadExpr, Spell, Fits;
    Within(i, p, SpellMore(a), q);
    if a.NoMore? {
      Stopped(i, MoreArgs, p);
    } else {
      var m := Split(i, p, [a.comma], Spell(a.arg) + SpellMore(a.more), q);
      Single(i, p, a.comma, m);
      var m' := Split(i, m, Spell(a.arg), SpellMore(a.more), q);
      BackMore(i, a.more, m', q);
      AfterArg(i, a.more, m', q);
      BackWhole(i, a.arg, m, m');
      MoreArgsRead(i, p);
    }
  }

  lemma AfterArg(i: Input, a: More, p: nat, q: nat)
    requires FitsMore(a) && Reads(i, p, SpellMore(a), q) && i.Kind(q).Right?
    ensures i.Kind(p).Right? || i.Kind(p).Comma?
  {
    if a.Another? {
      var m := Split(i, p, [a.comma], Spell(a.arg) + SpellMore(a.more), q);
      Single(i, p, a.comma, m);
    }
  }

  lemma {:induction false} BackWhole(i: Input, e: Exp, p: nat, q: nat)
    requires Fits(e, 0) && Reads(i, p, Spell(e), q) && i.Kind(q) in {Right, Comma, SqRight}
    ensures var r := Read(i, Expr(0), p); r.Ok? && r.next == q && ReadExpr(r.tree) == e
    decreases e, 7
  {
    hide Rhs, Reads, Read;
    Stopped(i, Tail(0), q);
    BackExpr(i, e, 0, p, q, Read(i, Tail(0), q).tree, q);
  }

  // ---------- everything that is read fits ----------

  /** Only tokens of operator expressions: no block, no `eval` and no `delete`. */
  ghost predicate OperatorsOnly(i: Input, p: nat, q: nat) {
    forall k :: p <= k < q ==> !i.Kind(k).KwEval? && !i.Kind(k).BrLeft? && !i.Kind(k).KwDelete?
  }

  lemma OperatorsPart(i: Input, p: nat, q: nat, p': nat, q': nat)
    requires OperatorsOnly(i, p, q) && p <= p' && q' <= q
    ensures OperatorsOnly(i, p', q')
  {}

  lemma Adjoin(i: Input, p: nat, a: seq<Token>, m: nat, b: seq<Token>, q: nat)
    requires Reads(i, p, a, m) && Reads(i, m, b, q)
    ensures Reads(i, p, a + b, q)
  {
    ReadJoin(i, p, a, m, b, q);
  }

  lemma TakeOne(i: Input, p: nat)
    requires p < |i.toks|
    ensures Reads(i, p, [i.At(p)], p + 1)
  {}

  lemma Surround(i: Input, p: nat, ys: seq<Token>, q: nat)
    requires Reads(i, p + 1, ys, q) && q < |i.toks|
    ensures Reads(i, p, [i.At(p)] + ys + [i.At(q)], q + 1)
  {
    TakeOne(i, p);
    TakeOne(i, q);
    ReadJoin(i, p, [i.At(p)], p + 1, ys, q);
    ReadJoin(i, p, [i.At(p)] + ys, q, [i.At(q)], q + 1);
  }

  lemma Advancing(i: Input, n: NT, p: nat)
    requires p <= |i.toks| && Read(i, n, p).Ok? && (n.Primary? || n.Expr? || n.Operand? || n.PostfixStep?)
    ensures p < Read(i, n, p).next
  {
    hide Read;
  }

  lemma PrimaryFits(e: Exp, min: nat, k: TokenType)
    requires Fits(e, PREFIX) && !IsPostfixStart(k) && min <= PREFIX
    ensures Fits(e, min) && Yielding(e, k)
  {
    if e.Binary? { PrecedenceBound(e.op.kind); }
  }

  lemma {:induction false} ForthExpr(i: Input, min: nat, p: nat, q: nat)
    requires p <= |i.toks| && Read(i, Expr(min), p).Ok? && Read(i, Expr(min), p).next == q && OperatorsOnly(i, p, q)
    requires min <= PREFIX
    ensures var e := ReadExpr(Read(i, Expr(min), p).tree);
      Fits(e, min) && Reads(i, p, Spell(e), q) && Stops(min, i.Kind(q))
    decreases |i.toks| - p, 5
  {
    hide Rhs, Reads, Read, ReadPrimary, ReadTail, Fits, Spell, OperatorsOnly, IsPostfixStart, Precedence;
    ExprRead(i, min, p);
    var x := Read(i, Primary, p);
    OperatorsPart(i, p, q, p, x.next);
    OperatorsPart(i, p, q, x.next, q);
    ForthPrimary(i, p, x.next);
    Advancing(i, Primary, p);
    var e := ReadPrimary(x.tree);
    PrimaryFits(e, min, i.Kind(x.next));
    ForthTail(i, min, p, e, x.next, q);
  }

  /** `left` may be the left operand of an operator that it yields to. */
  lemma Joined(left: Exp, op: Token, right: Exp, min: nat, k: TokenType)
    requires Precedence(op.kind) != 0 && Precedence(op.kind) >= min
    requires Fits(left, min) && Yielding(left, op.kind)
    requires Fits(right, Precedence(op.kind) + 1) && Stops(Precedence(op.kind) + 1, k)
    ensures var e := Binary(left, op, right); Fits(e, min) && Yielding(e, k)
  {
    hide Precedence, IsPostfixStart;
    PrecedenceBound(op.kind);
  }

  lemma {:induction false} ForthTail(i: Input, min: nat, p0: nat, left: Exp, p: nat, q: nat)
    requires p <= |i.toks| && Read(i, Tail(min), p).Ok? && Read(i, Tail(min), p).next == q && OperatorsOnly(i, p, q)
    requires min <= PREFIX && Fits(left, min) && Reads(i, p0, Spell(left), p) && Yielding(left, i.Kind(p))
    ensures var e := ReadTail(left, Read(i, Tail(min), p).tree);
      Fits(e, min) && Reads(i, p0, Spell(e), q) && Stops(min, i.Kind(q))
    decreases |i.toks| - p, 1
  {
    hide Rhs, Reads, Read, ReadExpr, Fits, OperatorsOnly, IsPostfixStart, Precedence;
    var prec := Precedence(i.Kind(p));
    if prec < min || prec == 0 {
      Stopped(i, Tail(min), p);
    } else {
      PrecedenceBound(i.Kind(p));
      Unended(i, p);
      TailRead(i, min, p);
      var r := Read(i, Expr(prec + 1), p + 1);
      var m := r.next;
      OperatorsPart(i, p, q, p + 1, m);
      OperatorsPart(i, p, q, m, q);
      ForthExpr(i, prec + 1, p + 1, m);
      var right := ReadExpr(r.tree);
      Joined(left, i.At(p), right, min, i.Kind(m));
      TakeOne(i, p);
      Adjoin(i, p, [i.At(p)], p + 1, Spell(right), m);
      Adjoin(i, p0, Spell(left), p, [i.At(p)] + Spell(right), m);
      ForthTail(i, min, p0, Binary(left, i.At(p), right), m, q);
    }
  }

  lemma Unended(i: Input, p: nat)
    requires Precedence(i.Kind(p)) != 0 || IsPostfixStart(i.Kind(p))
    ensures p < |i.toks|
  {}

  lemma TailRead(i: Input, min: nat, p: nat)
    requires p < |i.toks| && Precedence(i.Kind(p)) >= min && Precedence(i.Kind(p)) != 0
    ensures var x := Read(i, Expr(Precedence(i.Kind(p)) + 1), p + 1);
      Read(i, Tail(min), p) ==
        if x.Err? then x
        else
          var y := Read(i, Tail(min), x.next);
          var step := Node(BinStep, i.At(p), i.At(p + 1), i.At(x.next), [Leaf(i.At(p)), x.tree]);
          if y.Err? then y else Whole(i, Tail(min), p, [step, y.tree], y.next)
  {
    hide Read, Precedence;
    var op := i.Kind(p);
    TokenPart(i, BinStep, op, Expr(Precedence(op) + 1), p);
    Pair(i, Tail(min), BinStep, Tail(min), p);
  }

  lemma {:induction false} ForthPrimary(i: Input, p: nat, q: nat)
    requires p <= |i.toks| && Read(i, Primary, p).Ok? && Read(i, Primary, p).next == q && OperatorsOnly(i, p, q)
    ensures var e := ReadPrimary(Read(i, Primary, p).tree);
      Fits(e, PREFIX) && Reads(i, p, Spell(e), q) && !IsPostfixStart(i.Kind(q))
    decreases |i.toks| - p, 4
  {
    hide Rhs, Reads, Read, ReadOperand, ReadPostfixes, Fits, Spell, OperatorsOnly, IsPostfixStart;
    PrimaryRead(i, p);
    var x := Read(i, Operand, p);
    OperatorsPart(i, p, q, p, x.next);
    OperatorsPart(i, p, q, x.next, q);
    ForthOperand(i, p, x.next);
    Advancing(i, Operand, p);
    ForthPostfixes(i, p, ReadOperand(x.tree), x.next, q);
  }

  lemma {:induction false} ForthOperand(i: Input, p: nat, q: nat)
    requires p <= |i.toks| && Read(i, Operand, p).Ok? && Read(i, Operand, p).next == q && OperatorsOnly(i, p, q)
    ensures var e := ReadOperand(Read(i, Operand, p).tree);
      Fits(e, PREFIX) && Reads(i, p, Spell(e), q) && (e.Prefix? ==> !IsPostfixStart(i.Kind(q)))
    decreases |i.toks| - p, 3
  {
    hide Rhs, Reads, Read, ReadExpr, ReadPrimary, OperatorsOnly, IsPostfixStart, IsPrefixOp, IsLiteral, IsName;
    Advancing(i, Operand, p);
    PlainOperand(i, p, q);
    TakeOne(i, p);
    if IsPrefixOp(i.Kind(p)) {
      PrefixRead(i, p);
      OperatorsPart(i, p, q, p + 1, q);
      ForthPrimary(i, p + 1, q);
      var x := ReadPrimary(Read(i, Primary, p + 1).tree);
      Adjoin(i, p, [i.At(p)], p + 1, Spell(x), q);
    } else if IsLiteral(i.Kind(p)) || IsName(i.Kind(p)) {
      AtomRead(i, p);
    } else {
      ParenRead(i, p);
      OperatorsPart(i, p, q, p + 1, q - 1);
      ForthExpr(i, 0, p + 1, q - 1);
      Surround(i, p, Spell(ReadExpr(Read(i, Expr(0), p + 1).tree)), q - 1);
    }
  }

  lemma Accepted(i: Input, p: nat)
    requires p <= |i.toks| && Read(i, Operand, p).Ok?
    ensures OperandRhs(i.Kind(p), i.Kind(p + 1)).Some?
  {}

  lemma OperandStarts(k: TokenType, k1: TokenType)
    requires OperandRhs(k, k1).Some?
    ensures IsPrefixOp(k) || IsLiteral(k) || IsName(k) || k.KwEval? || k.BrLeft? || k.Left?
  {}

  /** Which operands there are when blocks, `eval` and `delete` are left out. */
  lemma PlainOperand(i: Input, p: nat, q: nat)
    requires p < |i.toks| && Read(i, Operand, p).Ok? && Read(i, Operand, p).next == q && p < q && OperatorsOnly(i, p, q)
    ensures IsPrefixOp(i.Kind(p)) || IsLiteral(i.Kind(p)) || IsName(i.Kind(p)) ||
      (i.Kind(p).Left? && !i.Kind(p + 1).KwDelete?)
  {
    hide Read, OperandRhs, IsPrefixOp, IsLiteral, IsName;
    Accepted(i, p);
    OperandStarts(i.Kind(p), i.Kind(p + 1));
    if i.Kind(p).Left? && i.Kind(p + 1).KwDelete? { CastRead(i, p); }
  }

  lemma CastRead(i: Input, p: nat)
    requires p < |i.toks| && i.Kind(p).Left? && i.Kind(p + 1).KwDelete? && Read(i, Operand, p).Ok?
    ensures p + 1 < Read(i, Operand, p).next
  {
    hide Read;
    Enclosed(i, Operand, Left, NT.Delete, Right, p);
  }

  lemma {:induction false} ForthPostfixes(i: Input, p0: nat, left: Exp, p: nat, q: nat)
    requires p <= |i.toks| && Read(i, Postfixes, p).Ok? && Read(i, Postfixes, p).next == q && OperatorsOnly(i, p, q)
    requires Fits(left, PREFIX) && Reads(i, p0, Spell(left), p) && (left.Prefix? ==> !IsPostfixStart(i.Kind(p)))
    ensures var e := ReadPostfixes(left, Read(i, Postfixes, p).tree);
      Fits(e, PREFIX) && Reads(i, p0, Spell(e), q) && !IsPostfixStart(i.Kind(q))
    decreases |i.toks| - p, 2
  {
    hide Rhs, Reads, Read, ReadStep, Fits, Spell, OperatorsOnly, IsPostfixStart;
    if !IsPostfixStart(i.Kind(p)) {
      Stopped(i, Postfixes, p);
    } else {
      PostfixesRead(i, p);
      var x := Read(i, PostfixStep, p);
      OperatorsPart(i, p, q, p, x.next);
      OperatorsPart(i, p, q, x.next, q);
      Advancing(i, PostfixStep, p);
      LevelTop(left);
      ForthStep(i, p0, left, p, x.next);
      LevelDown(ReadStep(left, x.tree));
      ForthPostfixes(i, p0, ReadStep(left, x.tree), x.next, q);
    }
  }

  lemma LevelDown(e: Exp)
    requires Fits(e, POSTFIX)
    ensures Fits(e, PREFIX)
  {}

  lemma PostfixesRead(i: Input, p: nat)
    requires p <= |i.toks| && IsPostfixStart(i.Kind(p))
    ensures var x := Read(i, PostfixStep, p);
      Read(i, Postfixes, p) ==
        if x.Err? then x
        else
          var y := Read(i, Postfixes, x.next);
          if y.Err? then y else Whole(i, Postfixes, p, [x.tree, y.tree], y.next)
  {
    hide Read, IsPostfixStart;
    Pair(i, Postfixes, PostfixStep, Postfixes, p);
  }

  lemma {:induction false} ForthStep(i: Input, p0: nat, left: Exp, p: nat, q: nat)
    requires p <= |i.toks| && Read(i, PostfixStep, p).Ok? && Read(i, PostfixStep, p).next == q && OperatorsOnly(i, p, q)
    requires IsPostfixStart(i.Kind(p)) && Fits(left, POSTFIX) && Reads(i, p0, Spell(left), p)
    ensures var e := ReadStep(left, Read(i, PostfixStep, p).tree);
      Fits(e, POSTFIX) && !e.Prefix? && Reads(i, p0, Spell(e), q)
    decreases |i.toks| - p, 1
  {
    hide Reads, Read, ReadStep, OperatorsOnly, Fits, Spell;
    var k := i.Kind(p);
    if k.SqLeft? { ForthIndex(i, p0, left, p, q); }
    else if k.Left? { ForthCall(i, p0, left, p, q); }
    else { ForthShort(i, p0, left, p, q); }
  }

  lemma ForthShort(i: Input, p0: nat, left: Exp, p: nat, q: nat)
    requires p <= |i.toks| && Read(i, PostfixStep, p).Ok? && Read(i, PostfixStep, p).next == q && OperatorsOnly(i, p, q)
    requires i.Kind(p) in {Dot, Arrow, PPlus, MMinus} && Fits(left, POSTFIX) && Reads(i, p0, Spell(left), p)
    ensures var e := ReadStep(left, Read(i, PostfixStep, p).tree);
      Fits(e, POSTFIX) && !e.Prefix? && Reads(i, p0, Spell(e), q)
  {
    hide Rhs, Reads, Read, ReadExpr, ReadArgs, OperatorsOnly;
    TakeOne(i, p);
    if i.Kind(p).Dot? || i.Kind(p).Arrow? {
      MemberRead(i, p);
      TakeOne(i, p + 1);
      assert [i.At(p)] + [i.At(p + 1)] == [i.At(p), i.At(p + 1)];
      Adjoin(i, p, [i.At(p)], p + 1, [i.At(p + 1)], q);
      Adjoin(i, p0, Spell(left), p, [i.At(p), i.At(p + 1)], q);
    } else {
      BumpRead(i, p);
      Adjoin(i, p0, Spell(left), p, [i.At(p)], q);
    }
  }

  lemma Bracketed(left: Exp, t: Tree, o: Token, x: Tree, c: Token)
    requires t.Node? && t.kids == [Leaf(o), x, Leaf(c)]
    ensures ReadStep(left, t) == if o.kind.SqLeft? then Index(left, o, ReadExpr(x), c) else Call(left, o, ReadArgs(x), c)
  {}

  lemma Called(left: Exp, o: Token, x: Args, c: Token)
    requires Fits(left, POSTFIX) && o.kind.Left? && FitsArgs(x) && c.kind.Right?
    ensures var e := Call(left, o, x, c); Fits(e, POSTFIX) && Spell(e) == Spell(left) + ([o] + SpellArgs(x) + [c])
  {}

  lemma Indexed(left: Exp, o: Token, x: Exp, c: Token)
    requires Fits(left, POSTFIX) && o.kind.SqLeft? && Fits(x, 0) && c.kind.SqRight?
    ensures var e := Index(left, o, x, c); Fits(e, POSTFIX) && Spell(e) == Spell(left) + ([o] + Spell(x) + [c])
  {}

  lemma IndexShape(i: Input, p: nat, q: nat)
    requires p < |i.toks| && i.Kind(p).SqLeft? && Read(i, PostfixStep, p).Ok? && Read(i, PostfixStep, p).next == q
    ensures p + 1 < q <= |i.toks| && i.Kind(q - 1).SqRight? && Read(i, Expr(0), p + 1).Ok? && Read(i, Expr(0), p + 1).next == q - 1
    ensures var t := Read(i, PostfixStep, p).tree;
      t.Node? && t.kids == [Leaf(i.At(p)), Read(i, Expr(0), p + 1).tree, Leaf(i.At(q - 1))]
  {
    hide Rhs, Read;
    IndexRead(i, p);
  }

  lemma CallShape(i: Input, p: nat, q: nat)
    requires p < |i.toks| && i.Kind(p).Left? && Read(i, PostfixStep, p).Ok? && Read(i, PostfixStep, p).next == q
    ensures p + 1 < q <= |i.toks| && i.Kind(q - 1).Right? && Read(i, NT.Args, p + 1).Ok? && Read(i, NT.Args, p + 1).next == q - 1
    ensures var t := Read(i, PostfixStep, p).tree;
      t.Node? && t.kids == [Leaf(i.At(p)), Read(i, NT.Args, p + 1).tree, Leaf(i.At(q - 1))]
  {
    hide Rhs, Read;
    CallRead(i, p);
  }

  lemma IndexEnds(i: Input, p0: nat, left: Exp, p: nat, x: Exp, q: nat)
    requires p + 1 < q <= |i.toks| && i.Kind(p).SqLeft? && i.Kind(q - 1).SqRight?
    requires Fits(left, POSTFIX) && Reads(i, p0, Spell(left), p) && Fits(x, 0) && Reads(i, p + 1, Spell(x), q - 1)
    ensures var e := Index(left, i.At(p), x, i.At(q - 1)); Fits(e, POSTFIX) && Reads(i, p0, Spell(e), q)
  {
    hide Reads, Spell, Fits;
    Indexed(left, i.At(p), x, i.At(q - 1));
    Surround(i, p, Spell(x), q - 1);
    Adjoin(i, p0, Spell(left), p, [i.At(p)] + Spell(x) + [i.At(q - 1)], q);
  }

  lemma {:induction false} ForthIndex(i: Input, p0: nat, left: Exp, p: nat, q: nat)
    requires p <= |i.toks| && Read(i, PostfixStep, p).Ok? && Read(i, PostfixStep, p).next == q && OperatorsOnly(i, p, q)
    requires i.Kind(p).SqLeft? && Fits(left, POSTFIX) && Reads(i, p0, Spell(left), p)
    ensures var e := ReadStep(left, Read(i, PostfixStep, p).tree);
      Fits(e, POSTFIX) && !e.Prefix? && Reads(i, p0, Spell(e), q)
    decreases |i.toks| - p, 0
  {
    hide Rhs, Whole, Reads, Read, ReadExpr, ReadArgs, ReadStep, OperatorsOnly, Spell, Fits;
    IndexShape(i, p, q);
    OperatorsPart(i, p, q, p + 1, q - 1);
    ForthExpr(i, 0, p + 1, q - 1);
    var x := ReadExpr(Read(i, Expr(0), p + 1).tree);
    Bracketed(left, Read(i, PostfixStep, p).tree, i.At(p), Read(i, Expr(0), p + 1).tree, i.At(q - 1));
    IndexEnds(i, p0, left, p, x, q);
  }

  lemma {:induction false} ForthCall(i: Input, p0: nat, left: Exp, p: nat, q: nat)
    requires p <= |i.toks| && Read(i, PostfixStep, p).Ok? && Read(i, PostfixStep, p).next == q && OperatorsOnly(i, p, q)
    requires i.Kind(p).Left? && Fits(left, POSTFIX) && Reads(i, p0, Spell(left), p)
    ensures var e := ReadStep(left, Read(i, PostfixStep, p).tree);
      Fits(e, POSTFIX) && !e.Prefix? && Reads(i, p0, Spell(e), q)
    decreases |i.toks| - p, 0
  {
    hide Rhs, Whole, Reads, Read, ReadExpr, ReadArgs, ReadStep, OperatorsOnly, Spell, SpellArgs, Fits, FitsArgs;
    CallShape(i, p, q);
    OperatorsPart(i, p, q, p + 1, q - 1);
    ForthArgs(i, p + 1, q - 1);
    var x := ReadArgs(Read(i, NT.Args, p + 1).tree);
    Bracketed(left, Read(i, PostfixStep, p).tree, i.At(p), Read(i, NT.Args, p + 1).tree, i.At(q - 1));
    Called(left, i.At(p), x, i.At(q - 1));
    Surround(i, p, SpellArgs(x), q - 1);
    Adjoin(i, p0, Spell(left), p, [i.At(p)] + SpellArgs(x) + [i.At(q - 1)], q);
  }

  lemma {:induction false} ForthArgs(i: Input, p: nat, q: nat)
    requires p <= |i.toks| && Read(i, NT.Args, p).Ok? && Read(i, NT.Args, p).next == q && OperatorsOnly(i, p, q)
    ensures var a := ReadArgs(Read(i, NT.Args, p).tree); FitsArgs(a) && Reads(i, p, SpellArgs(a), q)
    decreases |i.toks| - p, 6
  {
    hide Rhs, Reads, Read, ReadExpr, ReadMore, OperatorsOnly, Spell, Fits, SpellMore, FitsMore;
    if i.Kind(p).Right? {
      Stopped(i, NT.Args, p);
      Nil(i, p);
    } else {
      ArgsRead(i, p);
      var x := Read(i, Expr(0), p);
      OperatorsPart(i, p, q, p, x.next);
      OperatorsPart(i, p, q, x.next, q);
      ForthExpr(i, 0, p, x.next);
      Advancing(i, Expr(0), p);
      ForthMore(i, x.next, q);
      Adjoin(i, p, Spell(ReadExpr(x.tree)), x.next, SpellMore(ReadMore(Read(i, MoreArgs, x.next).tree)), q);
    }
  }

  lemma Nil(i: Input, p: nat)
    requires p <= |i.toks|
    ensures Reads(i, p, [], p)
  {}

  lemma NoMoreRead(t: Tree)
    requires t.Node? && t.kids == []
    ensures ReadMore(t) == NoMore && FitsMore(NoMore) && SpellMore(NoMore) == []
  {}

  lemma MoreParts(t: Tree, o: Token, x: Tree, y: Tree)
    requires t.Node? && t.kids == [Leaf(o), x, y]
    ensures ReadMore(t) == Another(o, ReadExpr(x), ReadMore(y))
  {}

  lemma Listed(o: Token, e: Exp, more: More)
    requires o.kind.Comma? && Fits(e, 0) && FitsMore(more)
    ensures var m := Another(o, e, more); FitsMore(m) && SpellMore(m) == [o] + (Spell(e) + SpellMore(more))
  {}

  lemma {:induction false} ForthMore(i: Input, p: nat, q: nat)
    requires p <= |i.toks| && Read(i, MoreArgs, p).Ok? && Read(i, MoreArgs, p).next == q && OperatorsOnly(i, p, q)
    ensures var a := ReadMore(Read(i, MoreArgs, p).tree); FitsMore(a) && Reads(i, p, SpellMore(a), q)
    decreases |i.toks| - p, 6
  {
    hide Rhs, Reads, Read, ReadExpr, ReadMore, OperatorsOnly, Spell, Fits, SpellMore, FitsMore;
    if !i.Kind(p).Comma? {
      Stopped(i, MoreArgs, p);
      NoMoreRead(Read(i, MoreArgs, p).tree);
      Nil(i, p);
    } else {
      MoreArgsRead(i, p);
      var x := Read(i, Expr(0), p + 1);
      OperatorsPart(i, p, q, p + 1, x.next);
      OperatorsPart(i, p, q, x.next, q);
      ForthExpr(i, 0, p + 1, x.next);
      ForthMore(i, x.next, q);
      var e, more := ReadExpr(x.tree), ReadMore(Read(i, MoreArgs, x.next).tree);
      MoreParts(Read(i, MoreArgs, p).tree, i.At(p), x.tree, Read(i, MoreArgs, x.next).tree);
      Listed(i.At(p), e, more);
      TakeOne(i, p);
      Adjoin(i, p + 1, Spell(e), x.next, SpellMore(more), q);
      Adjoin(i, p, [i.At(p)], p + 1, Spell(e) + SpellMore(more), q);
    }
  }

  // ---------- what the parser reads, exactly ----------

  predicate PlainKind(k: TokenType) { k != KwEval && k != BrLeft && k != KwDelete }

  predicate AllPlain(ys: seq<Token>) { forall k :: 0 <= k < |ys| ==> PlainKind(ys[k].kind) }

  lemma PlainKinds(k: TokenType)
    ensures IsLiteral(k) || IsName(k) || IsPrefixOp(k) || Precedence(k) != 0 ==> PlainKind(k)
  {}

  lemma {:induction false} SpellPlain(e: Exp, min: nat)
    requires Fits(e, min)
    ensures AllPlain(Spell(e))
    decreases e
  {
    hide IsLiteral, IsName, IsPrefixOp, Precedence;
    match e
    case Atom(t) => PlainKinds(t.kind);
    case Paren(_, x, _) => SpellPlain(x, 0);
    case Prefix(op, x) => PlainKinds(op.kind); SpellPlain(x, PREFIX);
    case Binary(l, op, r) =>
      PlainKinds(op.kind);
      SpellPlain(l, Precedence(op.kind));
      SpellPlain(r, Precedence(op.kind) + 1);
    case Member(b, _, _) => SpellPlain(b, POSTFIX);
    case Bump(b, _) => SpellPlain(b, POSTFIX);
    case Index(b, _, x, _) => SpellPlain(b, POSTFIX); SpellPlain(x, 0);
    case Call(b, _, args, _) => SpellPlain(b, POSTFIX); ArgsPlain(args);
  }

  lemma {:induction false} ArgsPlain(a: Args)
    requires FitsArgs(a)
    ensures AllPlain(SpellArgs(a))
    decreases a
  {
    if a.Given? { SpellPlain(a.first, 0); MorePlain(a.more); }
  }

  lemma {:induction false} MorePlain(a: More)
    requires FitsMore(a)
    ensures AllPlain(SpellMore(a))
    decreases a
  {
    if a.Another? { SpellPlain(a.arg, 0); MorePlain(a.more); }
  }

  lemma ReadsPlain(i: Input, p: nat, ys: seq<Token>, q: nat)
    requires Reads(i, p, ys, q) && AllPlain(ys)
    ensures OperatorsOnly(i, p, q)
  {
    forall k | p <= k < q ensures PlainKind(i.Kind(k)) { assert i.toks[p..q][k - p] == i.toks[k]; }
  }

  lemma StopsYields(e: Exp, min: nat, k: TokenType)
    requires Fits(e, min) && Stops(min, k)
    ensures Yielding(e, k)
  {}

  /**
   Reading at level `min` ends at `q` with `e` exactly when the tokens there spell `e`, `e`
   fits the level, and the next token can neither continue it nor be a postfix of it.
   */
  lemma Exact(i: Input, min: nat, p: nat, e: Exp, q: nat)
    requires p <= |i.toks| && min <= PREFIX
    ensures (var r := Read(i, Expr(min), p); r.Ok? && r.next == q && ReadExpr(r.tree) == e && OperatorsOnly(i, p, q)) <==>
      (Reads(i, p, Spell(e), q) && Fits(e, min) && Stops(min, i.Kind(q)))
  {
    hide Reads, Read, ReadExpr, Fits, Spell, OperatorsOnly, IsPostfixStart;
    var r := Read(i, Expr(min), p);
    if r.Ok? && r.next == q && ReadExpr(r.tree) == e && OperatorsOnly(i, p, q) { ForthExpr(i, min, p, q); }
    if Reads(i, p, Spell(e), q) && Fits(e, min) && Stops(min, i.Kind(q)) {
      SpellPlain(e, min);
      ReadsPlain(i, p, Spell(e), q);
      Within(i, p, Spell(e), q);
      StopsYields(e, min, i.Kind(q));
      Stopped(i, Tail(min), q);
      BackExpr(i, e, min, p, q, Read(i, Tail(min), q).tree, q);
    }
  }

  /** Tokens have at most one reading as an expression of a given level. */
  lemma Unique(i: Input, min: nat, p: nat, e: Exp, q: nat, e': Exp, q': nat)
    requires min <= PREFIX
    requires Reads(i, p, Spell(e), q) && Fits(e, min) && Stops(min, i.Kind(q))
    requires Reads(i, p, Spell(e'), q') && Fits(e', min) && Stops(min, i.Kind(q'))
    ensures e == e' && q == q'
  {
    hide Read, ReadExpr, Fits, Spell, OperatorsOnly, Stops;
    Exact(i, min, p, e, q);
    Exact(i, min, p, e', q');
  }

  /** Writing an expression with these parentheses and reading it gives it back. */
  lemma RoundTrip(i: Input, e: Exp, min: nat, o: Token, c: Token, p: nat, q: nat)
    requires Formed(e) && o.kind.Left? && c.kind.Right? && min <= PREFIX
    requires Reads(i, p, Spell(Parens(e, min, o, c)), q) && Stops(min, i.Kind(q))
    ensures var r := Read(i, Expr(min), p); r.Ok? && r.next == q && Bare(ReadExpr(r.tree)) == Bare(e)
  {
    hide Reads, Read, ReadExpr, Fits, Spell, Parens, Bare, Stops, OperatorsOnly;
    ParensFit(e, min, o, c);
    ParensMean(e, min, o, c);
    Within(i, p, Spell(Parens(e, min, o, c)), q);
    Exact(i, min, p, Parens(e, min, o, c), q);
  }
}
