/**
 A statement written down is read as itself: the parser takes exactly its tokens and leaves
 nodes that stand for it.
 */
module StatementsRead {
  import opened Tokens
  import opened Symbols
  import opened Engine
  import opened Productions
  import opened Arena
  import opened Emission
  import opened Translation
  import opened Equations
  import opened Expressions
  import opened PrattArena
  import opened Grouping
  import opened Statements
  import Pratt

  // ---------- tokens ----------

  lemma Next(i: Input, p: nat, t: Token, rest: seq<Token>, q: nat)
    requires Reads(i, p, [t] + rest, q)
    ensures p + 1 <= q <= |i.toks| && i.At(p) == t && Reads(i, p + 1, rest, q)
  {
    hide Reads;
    var m := Pratt.Split(i, p, [t], rest, q);
    Pratt.Single(i, p, t, m);
  }

  lemma Last(i: Input, p: nat, t: Token, q: nat)
    requires Reads(i, p, [t], q)
    ensures q == p + 1 && p < |i.toks| && i.At(p) == t
  {
    Pratt.Single(i, p, t, q);
  }

  lemma Cut(i: Input, p: nat, a: seq<Token>, b: seq<Token>, q: nat) returns (m: nat)
    requires Reads(i, p, a + b, q)
    ensures m == p + |a| && p <= m <= q <= |i.toks| && Reads(i, p, a, m) && Reads(i, m, b, q)
  {
    m := Pratt.Split(i, p, a, b, q);
  }

  /** The token at `p` is the first of what is written there, or the one after that. */
  lemma Ahead(i: Input, p: nat, ts: seq<Token>, q: nat)
    requires Reads(i, p, ts, q)
    ensures p <= q <= |i.toks| && i.At(p) == FirstOf(ts, i.At(q)) && (ts == [] ==> p == q)
  {
    if ts != [] { assert i.toks[p..q][0] == i.toks[p]; }
  }

  // ---------- expressions ----------

  ghost predicate MadeExp(nodes: seq<AstNode>, r: Final, q: nat, e: Exp) {
    r.Done? && r.next == q && nodes <= r.nodes && Denotes(r.nodes, r.id, e)
  }

  lemma ExprMade(i: Input, e: Exp, p: nat, q: nat, nodes: seq<AstNode>)
    requires Fits(e, 0) && Reads(i, p, Spell(e), q) && Idle(i.Kind(q))
    ensures MadeExp(nodes, Result(i, Expr(0), p, nodes, NullNode), q, e)
  {
    hide Fits, Spell, Idle, Denotes, Result, Pratt.Read;
    Pratt.Within(i, p, Spell(e), q);
    Whole(i, p, q, nodes, e);
  }

  lemma PrimaryMade(i: Input, e: Exp, p: nat, q: nat, nodes: seq<AstNode>)
    requires Fits(e, PREFIX) && Reads(i, p, Spell(e), q) && i.Kind(q) !in POSTFIXES
    ensures MadeExp(nodes, Result(i, Primary, p, nodes, NullNode), q, e)
  {
    hide Fits, Spell, Denotes, Result, Pratt.Read, Pratt.ReadPrimary, Pratt.OperatorsOnly, Pratt.AllPlain, IsPostfixStart, Reads, POSTFIXES;
    Kinds(i.Kind(q));
    Pratt.Within(i, p, Spell(e), q);
    Pratt.BackPrimary(i, e, p, q);
    Pratt.SpellPlain(e, PREFIX);
    Pratt.ReadsPlain(i, p, Spell(e), q);
    DenotePrimary(i, p, q, nodes);
    Follows(i, Primary, p, nodes, NullNode);
  }

  /** An expression and the token after it. */
  lemma UpToMade(i: Input, e: Exp, close: TokenType, p: nat, q: nat, nodes: seq<AstNode>)
    requires Fits(e, 0) && Reads(i, p, Spell(e), q) && q < |i.toks| && i.Kind(q) == close && Idle(close)
    ensures MadeExp(nodes, UpTo(i, Expr(0), close, p, nodes), q + 1, e)
  {
    hide Fits, Spell, Idle, Denotes, Result, Reads;
    ExprMade(i, e, p, q, nodes);
    UpToEq(i, Expr(0), close, p, nodes);
  }

  lemma Closers()
    ensures Idle(Right) && Idle(Semi) && Idle(Comma) && Idle(BrLeft) && Idle(BrRight) && Idle(Eof) && Idle(Colon)
  {}

  ghost predicate MadeOpt(nodes: seq<AstNode>, r: Final, q: nat, e: Option<Exp>) {
    r.Done? && r.next == q && nodes <= r.nodes && StandsOpt(r.nodes, r.id, e)
  }

  /** How an expression begins. */
  predicate Opens(k: TokenType) { IsPrefixOp(k) || IsLiteral(k) || IsName(k) || k.Left? }

  lemma {:induction false} ExpOpens(e: Exp, min: nat)
    requires Fits(e, min)
    ensures Spell(e) != [] && Opens(Spell(e)[0].kind)
    decreases e
  {
    hide IsLiteral, IsName, IsPrefixOp, Precedence;
    match e
    case Binary(l, op, _) => ExpOpens(l, Precedence(op.kind));
    case Member(b, _, _) => ExpOpens(b, POSTFIX);
    case Bump(b, _) => ExpOpens(b, POSTFIX);
    case Index(b, _, _, _) => ExpOpens(b, POSTFIX);
    case Call(b, _, _, _) => ExpOpens(b, POSTFIX);
    case _ =>
  }

  lemma OpensWhat(k: TokenType)
    requires Opens(k)
    ensures Undispatched(k) && !k.Eof? && !k.Semi? && !k.BrRight? && !k.Right? && !k.KwElse?
  {}

  lemma OptUpTo(i: Input, e: Option<Exp>, close: TokenType, p: nat, q: nat, nodes: seq<AstNode>)
    requires OptFits(e) && Reads(i, p, OptExp(e), q) && q < |i.toks| && i.Kind(q) == close && close in {Semi, Right}
    ensures MadeOpt(nodes, UpTo(i, OptExpr(close), close, p, nodes), q + 1, e)
  {
    hide Fits, Spell, Idle, Denotes, Result, Reads, Undispatched, Opens;
    Closers();
    Ahead(i, p, OptExp(e), q);
    UpToEq(i, OptExpr(close), close, p, nodes);
    OptExprEq(i, p, nodes, close);
    if e.Some? {
      ExpOpens(e.value, 0);
      OpensWhat(Spell(e.value)[0].kind);
      ExprMade(i, e.value, p, q, nodes);
    }
  }

  ghost predicate MadeInit(nodes: seq<AstNode>, r: Final, q: nat, e: Init) {
    r.Done? && r.next == q && nodes <= r.nodes && StandsInit(r.nodes, r.id, e)
  }

  lemma InitMade(i: Input, e: Init, p: nat, q: nat, nodes: seq<AstNode>)
    requires ProperInit(e) && Reads(i, p, InitSpelling(e), q) && i.Kind(q) in {Semi, Comma, Right}
    ensures MadeInit(nodes, Result(i, InitPart, p, nodes, NullNode), q, e)
  {
    hide Fits, Spell, Idle, Denotes, Result, Reads;
    Closers();
    Ahead(i, p, InitSpelling(e), q);
    InitEq(i, p, nodes);
    if e.Init? {
      Next(i, p, e.sign, Spell(e.value), q);
      ExprMade(i, e.value, p + 1, q, nodes);
    }
  }

  // ---------- qualifiers ----------

  /** `q` and the flags of `ts`. */
  function Plus(q: Qualifiers, ts: seq<Token>): Qualifiers {
    Qualifiers(q.isConstexpr || Among(KwConstexpr, ts), q.isConst || Among(KwConst, ts), q.isStatic || Among(KwStatic, ts),
      q.isInline || Among(KwInline, ts), q.isAuto || Among(KwAuto, ts))
  }

  lemma AmongFirst(k: TokenType, ts: seq<Token>)
    requires ts != []
    ensures Among(k, ts) <==> ts[0].kind == k || Among(k, ts[1..])
  {
    if Among(k, ts) {
      var t :| t in ts && t.kind == k;
      assert t == ts[0] || t in ts[1..];
    }
  }

  lemma FlagSet(q: Qualifiers, k: TokenType)
    ensures var r := WithQualifier(q, k);
      && r.isConstexpr == (q.isConstexpr || k.KwConstexpr?) && r.isConst == (q.isConst || k.KwConst?)
      && r.isStatic == (q.isStatic || k.KwStatic?) && r.isInline == (q.isInline || k.KwInline?)
      && r.isAuto == (q.isAuto || k.KwAuto?)
  {}

  lemma PlusFirst(q: Qualifiers, ts: seq<Token>)
    requires ts != [] && AllQualifiers(ts)
    ensures IsQualifier(ts[0].kind) && AllQualifiers(ts[1..]) && Plus(q, ts) == Plus(WithQualifier(q, ts[0].kind), ts[1..])
  {
    hide Among, WithQualifier, IsQualifier, QUALIFIERS;
    FlagSet(q, ts[0].kind);
    AmongFirst(KwConstexpr, ts);
    AmongFirst(KwConst, ts);
    AmongFirst(KwStatic, ts);
    AmongFirst(KwInline, ts);
    AmongFirst(KwAuto, ts);
    QualifierKinds(ts[0].kind);
    assert ts[0] in ts;
  }

  /** A run of qualifiers before a statement or a parameter. */
  lemma {:induction false} Qualified(i: Input, p: nat, ts: seq<Token>, rest: seq<Token>, q: nat, quals: Qualifiers, nodes: seq<AstNode>)
    requires AllQualifiers(ts) && Reads(i, p, ts + rest, q)
    ensures p + |ts| <= q <= |i.toks| && Reads(i, p + |ts|, rest, q)
    ensures Result(i, Stmt(quals), p, nodes, NullNode) == Result(i, Stmt(Plus(quals, ts)), p + |ts|, nodes, NullNode)
    ensures Result(i, NT.Param(quals), p, nodes, NullNode) == Result(i, NT.Param(Plus(quals, ts)), p + |ts|, nodes, NullNode)
    decreases |ts|
  {
    hide Reads, Result, Plus, IsQualifier, WithQualifier, AllQualifiers;
    if ts == [] {
      assert ts + rest == rest;
      Pratt.Within(i, p, rest, q);
      PlusNone(quals);
    } else {
      assert ts + rest == [ts[0]] + (ts[1..] + rest);
      Next(i, p, ts[0], ts[1..] + rest, q);
      PlusFirst(quals, ts);
      QualifierEq(i, p, nodes, quals);
      Qualified(i, p + 1, ts[1..], rest, q, WithQualifier(quals, ts[0].kind), nodes);
    }
  }

  lemma PlusNone(q: Qualifiers)
    ensures Plus(q, []) == q
  {}

  lemma PlusFlags(ts: seq<Token>)
    ensures Plus(NoQuals, ts) == Flags(ts) && Flags(ts).isAuto == Among(KwAuto, ts)
  {}

  // ---------- the first token of a statement ----------

  /** No statement starts with what ends a list of them. */
  predicate Begins(k: TokenType) { !k.Eof? && !k.BrRight? && !k.Semi? }

  lemma QualifierBegins(ts: seq<Token>)
    requires ts != [] && AllQualifiers(ts)
    ensures Begins(ts[0].kind)
  {
    assert ts[0] in ts;
  }

  lemma StmBegins(src: string, s: Stm)
    requires Proper(src, s)
    ensures Spelling(s) != [] && Begins(Spelling(s)[0].kind)
  {
    hide AllQualifiers, ProperCore, CoreSpelling, Begins, Among;
    if s.quals != [] { QualifierBegins(s.quals); } else { CoreBegins(src, s.core, Among(KwAuto, s.quals)); }
  }

  lemma CoreBegins(src: string, c: Core, auto: bool)
    requires ProperCore(src, c, auto)
    ensures CoreSpelling(c) != [] && Begins(CoreSpelling(c)[0].kind)
  {
    hide Fits, Spell, Proper, ProperAll, ProperFirst, ProperBody, ProperDef, ProperBase, ProperParams, ProperInit,
      Spelling, AllSpelling, ElseSpelling, FirstSpelling, BodySpelling, BaseSpelling, ParamsSpelling, DefSpelling, InitSpelling, Opens, MayPrecede;
    if c.Run? {
      ExpOpens(c.value, 0);
      OpensWhat(Spell(c.value)[0].kind);
    }
  }

  // ---------- statements ----------

  /** Nodes were added, and with them `id` stands for the statement, if ids stay below the absent one. */
  ghost predicate Made(nodes: seq<AstNode>, r: Final, q: nat, s: Stm) {
    r.Done? && r.next == q && nodes <= r.nodes && (|r.nodes| <= NullNode ==> Stands(r.nodes, r.id, s))
  }

  ghost predicate MadeCore(nodes: seq<AstNode>, r: Final, q: nat, c: Core, quals: Qualifiers) {
    r.Done? && r.next == q && nodes <= r.nodes && (|r.nodes| <= NullNode ==> CoreStands(r.nodes, r.id, c, quals))
  }

  /** The tokens from `p` to `q` are those of `c`, and it may stand there. */
  ghost predicate Given(i: Input, c: Core, quals: Qualifiers, p: nat, q: nat) {
    ProperCore(i.source, c, quals.isAuto) && CoreMayPrecede(i.source, c, i.At(q)) && Reads(i, p, CoreSpelling(c), q)
  }

  lemma {:induction false} ReadStm(i: Input, s: Stm, p: nat, q: nat, nodes: seq<AstNode>)
    requires Proper(i.source, s) && MayPrecede(i.source, s, i.At(q)) && Reads(i, p, Spelling(s), q)
    ensures Made(nodes, Result(i, Stmt(NoQuals), p, nodes, NullNode), q, s)
    decreases s
  {
    hide Reads, Result, ProperCore, CoreMayPrecede, CoreSpelling, CoreStands, Flags, AllQualifiers, Among, Plus;
    Qualified(i, p, s.quals, CoreSpelling(s.core), q, NoQuals, nodes);
    PlusFlags(s.quals);
    ReadCore(i, s.core, Flags(s.quals), p + |s.quals|, q, nodes);
  }

  lemma {:induction false} ReadCore(i: Input, c: Core, quals: Qualifiers, p: nat, q: nat, nodes: seq<AstNode>)
    requires Given(i, c, quals, p, q)
    ensures MadeCore(nodes, Result(i, Stmt(quals), p, nodes, NullNode), q, c, quals)
    decreases c, 1
  {
    hide Given, Result, MadeCore;
    match c
    case Run(_, _) => ReadRun(i, c, quals, p, q, nodes);
    case Block(_, _, _) => ReadBlock(i, c, quals, p, q, nodes);
    case If(_, _, _, _, _, _) => ReadIf(i, c, quals, p, q, nodes);
    case While(_, _, _, _, _) => ReadWhile(i, c, quals, p, q, nodes);
    case For(_, _, _, _, _, _, _, _) => ReadFor(i, c, quals, p, q, nodes);
    case Return(_, _, _) => ReadReturn(i, c, quals, p, q, nodes);
    case Jump(_, _) => ReadJump(i, c, quals, p, q, nodes);
    case Struct(_, _, _, _) => ReadStruct(i, c, quals, p, q, nodes);
    case Namespace(_, _, _) => ReadNamespace(i, c, quals, p, q, nodes);
    case Delete(_, _, _, _) => ReadDelete(i, c, quals, p, q, nodes);
    case Requires(_, _, _, _) => ReadRequires(i, c, quals, p, q, nodes);
    case TypeDecl(_, _, _, _, _) => ReadType(i, c, quals, p, q, nodes);
    case Var(_, _, _, _) => ReadVar(i, c, quals, p, q, nodes);
    case Func(_, _, _, _, _, _) => ReadFunc(i, c, quals, p, q, nodes);
  }

  lemma SemiMade(i: Input, end: Option<Token>, p: nat, q: nat, nodes: seq<AstNode>)
    requires OptKind(end, Semi) && Reads(i, p, Opt(end), q) && Closed(end, i.At(q))
    ensures Result(i, OptSemi, p, nodes, NullNode) == Done(NullNode, q, nodes)
  {
    hide Reads, Result;
    Ahead(i, p, Opt(end), q);
    OptSemiEq(i, p, nodes);
    if end.Some? { Last(i, p, end.value, q); }
  }

  /** The token after the one at `p`. */
  lemma SecondToken(i: Input, p: nat, ts: seq<Token>, q: nat)
    requires Reads(i, p, ts, q) && ts != []
    ensures i.At(p) == (ts + [i.At(q)])[0] && i.At(p + 1) == (ts + [i.At(q)])[1]
  {
    assert i.toks[p..q][0] == i.toks[p];
    if |ts| > 1 { assert i.toks[p..q][1] == i.toks[p + 1]; }
  }

  lemma NoDeclaration(i: Input, e: Exp, end: Option<Token>, p: nat, q: nat)
    requires Fits(e, 0) && Reads(i, p, Spell(e) + Opt(end), q)
    requires var ts := Spell(e) + (Opt(end) + [i.At(q)]); |ts| > 1 && !Declares(ts[0], ts[1])
    ensures Undispatched(i.Kind(p)) && !StartsDecl(i.Kind(p), i.Kind(p + 1))
  {
    hide Fits, Spell, Reads, Undispatched, Opens;
    ExpOpens(e, 0);
    OpensWhat(Spell(e)[0].kind);
    SecondToken(i, p, Spell(e) + Opt(end), q);
    assert Spell(e) + (Opt(end) + [i.At(q)]) == (Spell(e) + Opt(end)) + [i.At(q)];
  }

  /** An expression and its semicolon, or something that ends it. */
  lemma EndedMade(i: Input, e: Exp, end: Option<Token>, p: nat, q: nat, nodes: seq<AstNode>)
    requires Fits(e, 0) && OptKind(end, Semi) && Reads(i, p, Spell(e) + Opt(end), q)
    requires Closed(end, i.At(q)) && Idle(FirstOf(Opt(end), i.At(q)).kind)
    ensures MadeExp(nodes, Ended(i, Expr(0), p, nodes), q, e)
  {
    hide Fits, Spell, Reads, Result, Denotes, Idle;
    var m := Cut(i, p, Spell(e), Opt(end), q);
    Ahead(i, m, Opt(end), q);
    ExprMade(i, e, p, m, nodes);
    EndedEq(i, Expr(0), p, nodes);
    SemiMade(i, end, m, q, Result(i, Expr(0), p, nodes, NullNode).nodes);
  }

  lemma ReadRun(i: Input, c: Core, quals: Qualifiers, p: nat, q: nat, nodes: seq<AstNode>)
    requires c.Run?
    requires Given(i, c, quals, p, q)
    ensures MadeCore(nodes, Result(i, Stmt(quals), p, nodes, NullNode), q, c, quals)
  {
    hide Fits, Spell, Reads, Result, Denotes, Idle, Undispatched, StartsDecl;
    Pratt.Within(i, p, CoreSpelling(c), q);
    NoDeclaration(i, c.value, c.end, p, q);
    StmtExpr(i, p, nodes, quals);
    EndedMade(i, c.value, c.end, p, q, nodes);
  }

  lemma ReadRequires(i: Input, c: Core, quals: Qualifiers, p: nat, q: nat, nodes: seq<AstNode>)
    requires c.Requires?
    requires Given(i, c, quals, p, q)
    ensures MadeCore(nodes, Result(i, Stmt(quals), p, nodes, NullNode), q, c, quals)
  {
    hide Fits, Spell, Reads, Result, Denotes, Idle;
    Next(i, p, c.kw, [c.colon] + (Spell(c.value) + Opt(c.end)), q);
    Next(i, p + 1, c.colon, Spell(c.value) + Opt(c.end), q);
    StmtRequires(i, p, nodes, quals);
    EndedMade(i, c.value, c.end, p + 2, q, nodes);
  }

  lemma ReadJump(i: Input, c: Core, quals: Qualifiers, p: nat, q: nat, nodes: seq<AstNode>)
    requires c.Jump?
    requires Given(i, c, quals, p, q)
    ensures MadeCore(nodes, Result(i, Stmt(quals), p, nodes, NullNode), q, c, quals)
  {
    hide Reads, Result;
    Next(i, p, c.kw, [c.semi], q);
    Last(i, p + 1, c.semi, q);
    StmtJump(i, p, nodes, quals);
  }

  lemma ReturnGiven(i: Input, c: Core, quals: Qualifiers, p: nat, q: nat)
    requires c.Return? && Given(i, c, quals, p, q)
    ensures Reads(i, p, [c.kw] + (OptExp(c.result) + [c.semi]), q)
    ensures c.kw.kind.KwReturn? && OptFits(c.result) && c.semi.kind.Semi?
  {
    hide Reads, OptExp, OptFits;
  }

  lemma ReturnStands(nodes: seq<AstNode>, r: Final, q: nat, c: Core, quals: Qualifiers, e: Final)
    requires c.Return? && MadeOpt(nodes, e, q, c.result)
    requires r == Done(|e.nodes|, q, e.nodes + [AstNode(UnaryExpr, NoQuals, c.kw.offset, 0, UnaryData(KwReturn, e.id))])
    ensures MadeCore(nodes, r, q, c, quals)
  {
    hide StandsOpt;
    StillOpt(e.nodes, r.nodes, e.id, c.result);
  }

  lemma ReadReturn(i: Input, c: Core, quals: Qualifiers, p: nat, q: nat, nodes: seq<AstNode>)
    requires c.Return? && Given(i, c, quals, p, q)
    ensures MadeCore(nodes, Result(i, Stmt(quals), p, nodes, NullNode), q, c, quals)
  {
    hide Given, MadeCore, Reads, Result, StandsOpt, UpTo, OptExp, OptFits;
    ReturnGiven(i, c, quals, p, q);
    Next(i, p, c.kw, OptExp(c.result) + [c.semi], q);
    var m := Cut(i, p + 1, OptExp(c.result), [c.semi], q);
    Last(i, m, c.semi, q);
    Dispatch(i, p, nodes, quals);
    ReturnEq(i, p, nodes);
    OptUpTo(i, c.result, Semi, p + 1, m, nodes);
    ReturnStands(nodes, Result(i, NT.Return, p, nodes, NullNode), q, c, quals, UpTo(i, OptExpr(Semi), Semi, p + 1, nodes));
  }

  lemma DeleteGiven(i: Input, c: Core, quals: Qualifiers, p: nat, q: nat) returns (k: nat, m: nat)
    requires c.Delete? && Given(i, c, quals, p, q)
    ensures c.kw.kind.KwDelete? && OptKind(c.auto, KwAuto) && Fits(c.target, PREFIX) && OptKind(c.end, Semi)
    ensures Closed(c.end, i.At(q)) && FirstOf(Opt(c.end), i.At(q)).kind !in POSTFIXES
    ensures p + 1 <= k <= m <= q <= |i.toks| && i.At(p) == c.kw
    ensures Reads(i, p + 1, Opt(c.auto), k) && Reads(i, k, Spell(c.target), m) && Reads(i, m, Opt(c.end), q)
  {
    hide Reads, Spell, Opt, Fits, POSTFIXES, OptKind, Closed, FirstOf;
    Next(i, p, c.kw, Opt(c.auto) + (Spell(c.target) + Opt(c.end)), q);
    k := Cut(i, p + 1, Opt(c.auto), Spell(c.target) + Opt(c.end), q);
    m := Cut(i, k, Spell(c.target), Opt(c.end), q);
  }

  lemma ReadDelete(i: Input, c: Core, quals: Qualifiers, p: nat, q: nat, nodes: seq<AstNode>)
    requires c.Delete? && Given(i, c, quals, p, q)
    ensures MadeCore(nodes, Result(i, Stmt(quals), p, nodes, NullNode), q, c, quals)
  {
    hide Given, Fits, Spell, Reads, Result, Denotes, POSTFIXES;
    var k, m := DeleteGiven(i, c, quals, p, q);
    Ahead(i, m, Opt(c.end), q);
    AutoTaken(i, c, p, k, m);
    PrimaryMade(i, c.target, k, m, nodes);
    DeleteMade(i, c, p, k, m, nodes);
    StmtDelete(i, p, nodes, quals);
    EndedEq(i, NT.Delete, p, nodes);
    SemiMade(i, c.end, m, q, Result(i, NT.Delete, p, nodes, NullNode).nodes);
  }

  lemma DeleteMade(i: Input, c: Core, p: nat, k: nat, m: nat, nodes: seq<AstNode>)
    requires c.Delete? && p < |i.toks| && i.At(p) == c.kw && c.kw.kind.KwDelete? && i.Has(p + 1, KwAuto) == c.auto.Some? && k == p + 1 + |Opt(c.auto)|
    requires MadeExp(nodes, Result(i, Primary, k, nodes, NullNode), m, c.target)
    ensures var r := Result(i, NT.Delete, p, nodes, NullNode);
      && r.Done? && r.next == m && nodes <= r.nodes && r.id < |r.nodes| && var n := r.nodes[r.id];
      && n.data.TargetData? && n == AstNode(DeleteExpr, NoQuals.(isAuto := c.auto.Some?), c.kw.offset, 0, n.data)
      && Denotes(r.nodes, n.data.target, c.target)
  {
    hide Result, Denotes;
    DeleteEq(i, p, nodes);
    OptAutoEq(i, p + 1, nodes);
    var e, r := Result(i, Primary, k, nodes, NullNode), Result(i, NT.Delete, p, nodes, NullNode);
    StillDenotes(e.nodes, r.nodes, e.id, c.target);
  }

  lemma AutoTaken(i: Input, c: Core, p: nat, k: nat, m: nat)
    requires c.Delete? && OptKind(c.auto, KwAuto) && Fits(c.target, PREFIX)
    requires Reads(i, p + 1, Opt(c.auto), k) && Reads(i, k, Spell(c.target), m)
    ensures i.Has(p + 1, KwAuto) == c.auto.Some? && k == p + 1 + |Opt(c.auto)|
  {
    hide Reads, Fits, Spell, Opens;
    Ahead(i, k, Spell(c.target), m);
    ExpOpens(c.target, PREFIX);
    NotAuto(Spell(c.target)[0].kind);
    Ahead(i, p + 1, Opt(c.auto), k);
    if c.auto.Some? { Last(i, p + 1, c.auto.value, k); }
  }

  lemma NotAuto(k: TokenType)
    requires Opens(k)
    ensures !k.KwAuto?
  {}

  // ---------- blocks, branches and loops ----------

  ghost predicate MadeAll(nodes: seq<AstNode>, r: Final, q: nat, ss: Stms) {
    r.Done? && r.next == q && nodes <= r.nodes && (|r.nodes| <= NullNode ==> AllStand(r.nodes, ss))
  }

  lemma {:induction false} ReadAll(i: Input, ss: Stms, n: NT, p: nat, q: nat, nodes: seq<AstNode>)
    requires (n.Stmts? && i.Kind(q).BrRight?) || (n.TopStmts? && i.Kind(q).Eof?)
    requires ProperAll(i.source, ss, i.At(q)) && Reads(i, p, AllSpelling(ss), q)
    ensures MadeAll(nodes, Result(i, n, p, nodes, NullNode), q, ss)
    decreases ss
  {
    hide Reads, Result, Proper, MayPrecede, Spelling, Stands;
    Ahead(i, p, AllSpelling(ss), q);
    StmtsEq(i, n, p, nodes);
    if ss.Stms? {
      StmBegins(i.source, ss.head);
      var m := Cut(i, p, Spelling(ss.head), AllSpelling(ss.tail), q);
      Ahead(i, m, AllSpelling(ss.tail), q);
      ReadStm(i, ss.head, p, m, nodes);
      var r := Result(i, Stmt(NoQuals), p, nodes, NullNode);
      ReadAll(i, ss.tail, n, m, q, r.nodes);
      var z := Result(i, n, m, r.nodes, NullNode);
      if |z.nodes| <= NullNode { StillStands(r.nodes, z.nodes, r.id, ss.head); }
    }
  }

  lemma BlockGiven(i: Input, c: Core, quals: Qualifiers, p: nat, q: nat)
    requires c.Block? && Given(i, c, quals, p, q)
    ensures p + 1 < q <= |i.toks| && i.Has(p, BrLeft) && i.Has(q - 1, BrRight) && i.At(q - 1) == c.close
    ensures Reads(i, p + 1, AllSpelling(c.contents), q - 1) && ProperAll(i.source, c.contents, c.close)
    ensures i.At(p + 1) == FirstOf(AllSpelling(c.contents), c.close)
  {
    hide Reads, AllSpelling, ProperAll;
    Next(i, p, c.open, AllSpelling(c.contents) + [c.close], q);
    var m := Cut(i, p + 1, AllSpelling(c.contents), [c.close], q);
    Last(i, m, c.close, q);
    Ahead(i, p + 1, AllSpelling(c.contents), m);
  }

  lemma BlockStands(nodes: seq<AstNode>, r: Final, q: nat, c: Core, quals: Qualifiers, b: Final)
    requires c.Block? && b.Done? && r == Done(|nodes|, q, b.nodes)
    requires MadeAll(Begun(nodes, FirstOf(AllSpelling(c.contents), c.close)), b, NextOf(b), c.contents)
    ensures MadeCore(nodes, r, q, c, quals)
  {
    hide AllSpelling, AllStand;
  }

  function Begun(nodes: seq<AstNode>, first: Token): seq<AstNode> {
    nodes + [AstNode(TranslationUnitKind, NoQuals, first.offset, 0, NoData)]
  }

  lemma BegunIs(nodes: seq<AstNode>, first: Token)
    ensures Begun(nodes, first) == nodes + [Plain(TranslationUnitKind, first.offset, NoData)]
  {}

  lemma BlockResult(i: Input, quals: Qualifiers, p: nat, q: nat, nodes: seq<AstNode>)
    requires p + 1 < q <= |i.toks| && i.Has(p, BrLeft) && i.Has(q - 1, BrRight)
    requires var r := Result(i, NT.Stmts, p + 1, Begun(nodes, i.At(p + 1)), NullNode); r.Done? && r.next == q - 1
    ensures Result(i, Stmt(quals), p, nodes, NullNode) ==
      Done(|nodes|, q, Result(i, NT.Stmts, p + 1, Begun(nodes, i.At(p + 1)), NullNode).nodes)
  {
    hide *;
    BegunIs(nodes, i.At(p + 1));
    Dispatch(i, p, nodes, quals);
    BlockEq(i, p, nodes);
    ContentsEq(i, p + 1, Begun(nodes, i.At(p + 1)));
  }

  lemma {:induction false} ReadBlock(i: Input, c: Core, quals: Qualifiers, p: nat, q: nat, nodes: seq<AstNode>)
    requires c.Block? && Given(i, c, quals, p, q)
    ensures MadeCore(nodes, Result(i, Stmt(quals), p, nodes, NullNode), q, c, quals)
    decreases c, 0
  {
    hide Given, MadeCore, Reads, Result, ProperAll, AllSpelling, AllStand;
    BlockGiven(i, c, quals, p, q);
    ReadAll(i, c.contents, NT.Stmts, p + 1, q - 1, Begun(nodes, i.At(p + 1)));
    BlockResult(i, quals, p, q, nodes);
    BlockStands(nodes, Result(i, Stmt(quals), p, nodes, NullNode), q, c, quals,
      Result(i, NT.Stmts, p + 1, Begun(nodes, i.At(p + 1)), NullNode));
  }

  /** The keyword and the condition in parentheses. */
  lemma HeadMade(i: Input, kw: Token, o: Token, e: Exp, z: Token, rest: seq<Token>, p: nat, q: nat, nodes: seq<AstNode>) returns (m: nat)
    requires Reads(i, p, [kw] + ([o] + (Spell(e) + ([z] + rest))), q) && o.kind.Left? && Fits(e, 0) && z.kind.Right?
    ensures p + 2 <= m <= q <= |i.toks| && Reads(i, m, rest, q) && i.At(p) == kw
    ensures MadeExp(nodes, Condition(i, kw.kind, p, nodes), m, e)
  {
    hide Reads, Result, Fits, Spell, Denotes, Idle, UpTo, Condition;
    Next(i, p, kw, [o] + (Spell(e) + ([z] + rest)), q);
    Next(i, p + 1, o, Spell(e) + ([z] + rest), q);
    var k := Cut(i, p + 2, Spell(e), [z] + rest, q);
    Next(i, k, z, rest, q);
    Closers();
    UpToMade(i, e, Right, p + 2, k, nodes);
    ConditionEq(i, kw.kind, p, nodes);
    m := k + 1;
  }

  ghost predicate MadeElse(nodes: seq<AstNode>, r: Final, q: nat, no: Else) {
    && r.Done? && r.next == q && nodes <= r.nodes
    && (|r.nodes| <= NullNode ==> if no.NoElse? then r.id == NullNode else Stands(r.nodes, r.id, no.stm))
  }

  lemma {:induction false} ReadElse(i: Input, no: Else, p: nat, q: nat, nodes: seq<AstNode>)
    requires Reads(i, p, ElseSpelling(no), q)
    requires if no.NoElse? then !i.Kind(q).KwElse?
             else no.kw.kind.KwElse? && Proper(i.source, no.stm) && MayPrecede(i.source, no.stm, i.At(q))
    ensures MadeElse(nodes, Result(i, ElsePart, p, nodes, NullNode), q, no)
    decreases no, 0
  {
    hide Reads, Result, Proper, MayPrecede, Spelling, Stands;
    Ahead(i, p, ElseSpelling(no), q);
    ElseEq(i, p, nodes);
    if no.Else? {
      Next(i, p, no.kw, Spelling(no.stm), q);
      ReadStm(i, no.stm, p + 1, q, nodes);
    }
  }

  lemma IfGiven(i: Input, c: Core, quals: Qualifiers, p: nat, q: nat)
    requires c.If? && Given(i, c, quals, p, q)
    ensures Reads(i, p, [c.kw] + ([c.open] + (Spell(c.cond) + ([c.close] + (Spelling(c.yes) + ElseSpelling(c.no))))), q)
    ensures c.kw.kind.KwIf? && c.open.kind.Left? && Fits(c.cond, 0) && c.close.kind.Right? && Proper(i.source, c.yes)
    ensures MayPrecede(i.source, c.yes, if c.no.Else? then c.no.kw else i.At(q))
    ensures if c.no.NoElse? then !i.Kind(q).KwElse?
            else c.no.kw.kind.KwElse? && Proper(i.source, c.no.stm) && MayPrecede(i.source, c.no.stm, i.At(q))
  {
    hide Reads, Fits, Spell, Proper, MayPrecede, Spelling, ElseSpelling;
  }

  lemma IfStands(nodes: seq<AstNode>, r: Final, q: nat, c: Core, quals: Qualifiers, e: Final, s: Final, n: Final)
    requires c.If? && MadeExp(nodes, e, NextOf(e), c.cond) && Made(e.nodes, s, NextOf(s), c.yes) && MadeElse(s.nodes, n, q, c.no)
    requires r == Done(|n.nodes|, q, n.nodes + [AstNode(EvalExpr, NoQuals, c.kw.offset, 0, EvalData(e.id, s.id, n.id))])
    ensures MadeCore(nodes, r, q, c, quals)
  {
    hide Denotes, Stands;
    if |r.nodes| <= NullNode {
      StillDenotes(e.nodes, r.nodes, e.id, c.cond);
      StillStands(s.nodes, r.nodes, s.id, c.yes);
      if c.no.Else? { StillStands(n.nodes, r.nodes, n.id, c.no.stm); }
    }
  }

  lemma {:induction false} ReadIf(i: Input, c: Core, quals: Qualifiers, p: nat, q: nat, nodes: seq<AstNode>)
    requires c.If? && Given(i, c, quals, p, q)
    ensures MadeCore(nodes, Result(i, Stmt(quals), p, nodes, NullNode), q, c, quals)
    decreases c, 0
  {
    hide Given, MadeCore, Reads, Result, Fits, Spell, Denotes, Condition, Proper, MayPrecede, Spelling, ElseSpelling, Stands;
    IfGiven(i, c, quals, p, q);
    var m := HeadMade(i, c.kw, c.open, c.cond, c.close, Spelling(c.yes) + ElseSpelling(c.no), p, q, nodes);
    var t := Cut(i, m, Spelling(c.yes), ElseSpelling(c.no), q);
    ElseNext(i, c.no, t, q);
    Dispatch(i, p, nodes, quals);
    BranchEq(i, p, nodes, KwIf);
    var e := Condition(i, KwIf, p, nodes);
    ReadStm(i, c.yes, m, t, e.nodes);
    var s := Result(i, Stmt(NoQuals), m, e.nodes, NullNode);
    ReadElse(i, c.no, t, q, s.nodes);
    var n := Result(i, ElsePart, t, s.nodes, NullNode);
    IfStands(nodes, Result(i, Branch(KwIf), p, nodes, NullNode), q, c, quals, e, s, n);
  }

  lemma ElseNext(i: Input, no: Else, p: nat, q: nat)
    requires Reads(i, p, ElseSpelling(no), q)
    ensures i.At(p) == if no.Else? then no.kw else i.At(q)
  {
    hide Spelling;
    Ahead(i, p, ElseSpelling(no), q);
  }

  lemma WhileGiven(i: Input, c: Core, quals: Qualifiers, p: nat, q: nat)
    requires c.While? && Given(i, c, quals, p, q)
    ensures Reads(i, p, [c.kw] + ([c.open] + (Spell(c.cond) + ([c.close] + Spelling(c.body)))), q)
    ensures c.kw.kind.KwWhile? && c.open.kind.Left? && Fits(c.cond, 0) && c.close.kind.Right?
    ensures Proper(i.source, c.body) && MayPrecede(i.source, c.body, i.At(q))
  {
    hide Reads, Fits, Spell, Proper, MayPrecede, Spelling;
  }

  lemma WhileStands(nodes: seq<AstNode>, r: Final, q: nat, c: Core, quals: Qualifiers, e: Final, s: Final)
    requires c.While? && MadeExp(nodes, e, NextOf(e), c.cond) && Made(e.nodes, s, q, c.body)
    requires r == Done(|s.nodes|, q, s.nodes + [AstNode(CompileTimeJump, NoQuals, c.kw.offset, 0, EvalData(e.id, s.id, NullNode))])
    ensures MadeCore(nodes, r, q, c, quals)
  {
    hide Denotes, Stands;
    if |r.nodes| <= NullNode {
      StillDenotes(e.nodes, r.nodes, e.id, c.cond);
      StillStands(s.nodes, r.nodes, s.id, c.body);
    }
  }

  lemma {:induction false} ReadWhile(i: Input, c: Core, quals: Qualifiers, p: nat, q: nat, nodes: seq<AstNode>)
    requires c.While? && Given(i, c, quals, p, q)
    ensures MadeCore(nodes, Result(i, Stmt(quals), p, nodes, NullNode), q, c, quals)
    decreases c, 0
  {
    hide Given, MadeCore, Reads, Result, Fits, Spell, Denotes, Condition, Proper, MayPrecede, Spelling, Stands;
    WhileGiven(i, c, quals, p, q);
    var m := HeadMade(i, c.kw, c.open, c.cond, c.close, Spelling(c.body), p, q, nodes);
    Dispatch(i, p, nodes, quals);
    WhileEq(i, p, nodes);
    var e := Condition(i, KwWhile, p, nodes);
    ReadStm(i, c.body, m, q, e.nodes);
    WhileStands(nodes, Result(i, NT.While, p, nodes, NullNode), q, c, quals, e, Result(i, Stmt(NoQuals), m, e.nodes, NullNode));
  }

  ghost predicate MadeFirst(nodes: seq<AstNode>, r: Final, q: nat, f: First) {
    && r.Done? && r.next == q && nodes <= r.nodes
    && (|r.nodes| <= NullNode ==> if f.NoFirst? then r.id == NullNode else Stands(r.nodes, r.id, f.stm))
  }

  lemma {:induction false} ReadFirst(i: Input, f: First, p: nat, q: nat, nodes: seq<AstNode>)
    requires Reads(i, p, FirstSpelling(f), q) && ProperFirst(i.source, f, i.At(q))
    ensures MadeFirst(nodes, Result(i, ForInit, p, nodes, NullNode), q, f)
    decreases f, 0
  {
    hide Reads, Result, Proper, MayPrecede, Spelling, Stands;
    Pratt.Within(i, p, FirstSpelling(f), q);
    ForInitEq(i, p, nodes);
    match f
    case NoFirst(semi) => Last(i, p, semi, q);
    case First(s) =>
      StmBegins(i.source, s);
      Ahead(i, p, Spelling(s), q);
      ReadStm(i, s, p, q, nodes);
  }

  /** The parts of a `for` between its parentheses. */
  ghost predicate MadeHeader(nodes: seq<AstNode>, h: Header, q: nat, c: Core)
    requires c.For?
  {
    && h.Header? && h.next == q && nodes <= h.nodes
    && (|h.nodes| <= NullNode ==>
      && (if c.first.NoFirst? then h.init == NullNode else Stands(h.nodes, h.init, c.first.stm))
      && StandsOpt(h.nodes, h.cond, c.test) && StandsOpt(h.nodes, h.step, c.step))
  }

  lemma {:induction false} ReadHeader(i: Input, c: Core, p: nat, q: nat, nodes: seq<AstNode>) returns (m: nat)
    requires c.For? && ProperCore(i.source, c, false) && Reads(i, p, CoreSpelling(c), q)
    ensures p <= m <= q <= |i.toks| && Reads(i, m, Spelling(c.body), q) && i.At(p) == c.kw
    ensures MadeHeader(nodes, ForHeader(i, p, nodes), m, c)
    decreases c.first, 1
  {
    hide Reads, Result, ForClauses, Proper, ProperFirst, Spelling, FirstSpelling, OptExp, Stands, StandsOpt, Fits, Spell;
    var rest := OptExp(c.test) + ([c.semi] + (OptExp(c.step) + ([c.close] + Spelling(c.body))));
    Next(i, p, c.kw, [c.open] + (FirstSpelling(c.first) + rest), q);
    Next(i, p + 1, c.open, FirstSpelling(c.first) + rest, q);
    var k := Cut(i, p + 2, FirstSpelling(c.first), rest, q);
    Ahead(i, k, rest, q);
    RestFirst(c, rest, i.At(q));
    ReadFirst(i, c.first, p + 2, k, nodes);
    ForHeaderEq(i, p, nodes);
    var a := Result(i, ForInit, p + 2, nodes, NullNode);
    m := ReadClauses(i, c, a.id, k, q, a.nodes);
    var h := ForHeader(i, p, nodes);
    if |h.nodes| <= NullNode && c.first.First? { StillStands(a.nodes, h.nodes, a.id, c.first.stm); }
  }

  lemma RestFirst(c: Core, rest: seq<Token>, next: Token)
    requires c.For? && rest == OptExp(c.test) + ([c.semi] + (OptExp(c.step) + ([c.close] + Spelling(c.body))))
    ensures FirstOf(rest, next) == FirstOf(OptExp(c.test), c.semi)
  {
    hide Spelling;
  }

  lemma ReadClauses(i: Input, c: Core, init: NodeId, p: nat, q: nat, nodes: seq<AstNode>) returns (m: nat)
    requires c.For? && ProperCore(i.source, c, false)
    requires Reads(i, p, OptExp(c.test) + ([c.semi] + (OptExp(c.step) + ([c.close] + Spelling(c.body)))), q)
    ensures p <= m <= q <= |i.toks| && Reads(i, m, Spelling(c.body), q)
    ensures var h := ForClauses(i, init, p, nodes);
      && h.Header? && h.init == init && h.next == m && nodes <= h.nodes
      && StandsOpt(h.nodes, h.cond, c.test) && StandsOpt(h.nodes, h.step, c.step)
  {
    hide Reads, Result, UpTo, ForClauses, Proper, ProperFirst, Spelling, OptExp, StandsOpt, OptFits;
    var k := Cut(i, p, OptExp(c.test), [c.semi] + (OptExp(c.step) + ([c.close] + Spelling(c.body))), q);
    Next(i, k, c.semi, OptExp(c.step) + ([c.close] + Spelling(c.body)), q);
    var l := Cut(i, k + 1, OptExp(c.step), [c.close] + Spelling(c.body), q);
    Next(i, l, c.close, Spelling(c.body), q);
    OptUpTo(i, c.test, Semi, p, k, nodes);
    var t := UpTo(i, OptExpr(Semi), Semi, p, nodes);
    OptUpTo(i, c.step, Right, k + 1, l, t.nodes);
    var s := UpTo(i, OptExpr(Right), Right, k + 1, t.nodes);
    ForClausesEq(i, init, p, nodes);
    StillOpt(t.nodes, s.nodes, t.id, c.test);
    m := l + 1;
  }

  lemma ForGiven(i: Input, c: Core, quals: Qualifiers, p: nat, q: nat)
    requires c.For? && Given(i, c, quals, p, q)
    ensures ProperCore(i.source, c, false) && Reads(i, p, CoreSpelling(c), q) && c.kw.kind.KwFor?
    ensures Proper(i.source, c.body) && MayPrecede(i.source, c.body, i.At(q))
  {
    hide Reads, Fits, Spell, Proper, ProperFirst, MayPrecede, Spelling, FirstSpelling, OptFits;
  }

  lemma ForStands(nodes: seq<AstNode>, r: Final, q: nat, c: Core, quals: Qualifiers, h: Header, s: Final)
    requires c.For? && h.Header? && MadeHeader(nodes, h, h.next, c) && Made(h.nodes, s, q, c.body)
    requires r == Done(|s.nodes|, q, s.nodes + [AstNode(CompileTimeJump, NoQuals, c.kw.offset, 0, EvalData(h.cond, s.id, h.init))])
    ensures MadeCore(nodes, r, q, c, quals)
  {
    hide Denotes, Stands, StandsOpt;
    if |r.nodes| <= NullNode {
      StillOpt(h.nodes, r.nodes, h.cond, c.test);
      StillOpt(h.nodes, r.nodes, h.step, c.step);
      StillStands(s.nodes, r.nodes, s.id, c.body);
      if c.first.First? { StillStands(h.nodes, r.nodes, h.init, c.first.stm); }
    }
  }

  lemma {:induction false} ReadFor(i: Input, c: Core, quals: Qualifiers, p: nat, q: nat, nodes: seq<AstNode>)
    requires c.For? && Given(i, c, quals, p, q)
    ensures MadeCore(nodes, Result(i, Stmt(quals), p, nodes, NullNode), q, c, quals)
    decreases c, 0
  {
    hide Given, MadeCore, Reads, Result, ForHeader, ProperCore, Proper, MayPrecede, CoreSpelling, Spelling, Stands, StandsOpt;
    ForGiven(i, c, quals, p, q);
    var m := ReadHeader(i, c, p, q, nodes);
    Dispatch(i, p, nodes, quals);
    ForEq(i, p, nodes);
    var h := ForHeader(i, p, nodes);
    ReadStm(i, c.body, m, q, h.nodes);
    ForStands(nodes, Result(i, NT.For, p, nodes, NullNode), q, c, quals, h, Result(i, Stmt(NoQuals), m, h.nodes, NullNode));
  }

  // ---------- declarations ----------

  ghost predicate MadeBody(nodes: seq<AstNode>, r: Final, q: nat, b: Body) {
    && r.Done? && r.next == q && nodes <= r.nodes
    && (|r.nodes| <= NullNode ==> if b.NoBody? then r.id == NullNode else r.id < NullNode && Stands(r.nodes, r.id, b.stm))
  }

  lemma BlockOpens(src: string, s: Stm, next: Token)
    requires IsBlock(s) && Proper(src, s)
    ensures Spelling(s) != [] && Spelling(s)[0].kind.BrLeft? && MayPrecede(src, s, next)
  {
    hide AllSpelling, ProperAll;
  }

  lemma BlockStandsInside(nodes: seq<AstNode>, id: NodeId, s: Stm)
    requires IsBlock(s) && Stands(nodes, id, s)
    ensures id < |nodes|
  {}

  lemma {:induction false} ReadBody(i: Input, b: Body, p: nat, q: nat, nodes: seq<AstNode>)
    requires Reads(i, p, BodySpelling(b), q) && ProperBody(i.source, b) && (b.NoBody? ==> !i.Has(q, BrLeft))
    ensures MadeBody(nodes, Result(i, OptBody, p, nodes, NullNode), q, b)
    decreases b, 0
  {
    hide Reads, Result, Proper, MayPrecede, Spelling, Stands, IsBlock;
    Ahead(i, p, BodySpelling(b), q);
    OptBodyEq(i, p, nodes);
    if b.Body? {
      BlockOpens(i.source, b.stm, i.At(q));
      ReadStm(i, b.stm, p, q, nodes);
      var r := Result(i, Stmt(NoQuals), p, nodes, NullNode);
      if |r.nodes| <= NullNode { BlockStandsInside(r.nodes, r.id, b.stm); }
    }
  }

  ghost predicate MadeDef(nodes: seq<AstNode>, r: Final, q: nat, d: Def) {
    && r.Done? && r.next == q && nodes <= r.nodes
    && (|r.nodes| <= NullNode ==> if d.Declared? then r.id == NullNode else Stands(r.nodes, r.id, d.stm))
  }

  lemma {:induction false} ReadDef(i: Input, d: Def, p: nat, q: nat, nodes: seq<AstNode>)
    requires Reads(i, p, DefSpelling(d), q) && ProperDef(i.source, d)
    ensures MadeDef(nodes, Result(i, FuncBody, p, nodes, NullNode), q, d)
    decreases d, 0
  {
    hide Reads, Result, Proper, MayPrecede, Spelling, Stands, IsBlock;
    Ahead(i, p, DefSpelling(d), q);
    FuncBodyEq(i, p, nodes);
    match d
    case Declared(semi) => Last(i, p, semi, q);
    case Defined(s) =>
      BlockOpens(i.source, s, i.At(q));
      ReadStm(i, s, p, q, nodes);
  }

  ghost predicate MadeBase(nodes: seq<AstNode>, r: Final, q: nat, b: Base) {
    r.Done? && r.next == q && nodes <= r.nodes && if b.NoBase? then r.id == NullNode else Denotes(r.nodes, r.id, b.value)
  }

  lemma ReadBase(i: Input, b: Base, p: nat, q: nat, nodes: seq<AstNode>)
    requires Reads(i, p, BaseSpelling(b), q) && ProperBase(i.source, b) && BaseMayPrecede(i.source, b, i.At(q))
    ensures MadeBase(nodes, Result(i, NT.Base, p, nodes, NullNode), q, b)
  {
    hide Reads, Result, Fits, Spell, Denotes, TextAt, Idle, POSTFIXES;
    Ahead(i, p, BaseSpelling(b), q);
    BaseEq(i, p, nodes);
    if b.Base? {
      Next(i, p, b.sign, Spell(b.value), q);
      if b.sign.kind.Equals? { ExprMade(i, b.value, p + 1, q, nodes); } else { PrimaryMade(i, b.value, p + 1, q, nodes); }
    }
  }

  lemma BaseDone(nodes: seq<AstNode>, r: Final, q: nat, b: Base)
    requires MadeBase(nodes, r, q, b)
    ensures r.Done? && r.next == q && nodes <= r.nodes && MadeBase(nodes, r, NextOf(r), b)
  {
    hide Denotes;
  }

  lemma StructGiven(i: Input, c: Core, quals: Qualifiers, p: nat, q: nat) returns (m: nat)
    requires c.Struct? && Given(i, c, quals, p, q)
    ensures p + 2 <= m <= q <= |i.toks| && i.At(p) == c.kw && i.At(p + 1) == c.name && i.Has(p, KwStruct) && i.Has(p + 1, Ident)
    ensures Reads(i, p + 2, BodySpelling(c.members), m) && Reads(i, m, Opt(c.end), q)
    ensures ProperBody(i.source, c.members) && OptKind(c.end, Semi) && Closed(c.end, i.At(q))
    ensures c.members.NoBody? ==> !i.Has(m, BrLeft)
  {
    hide Reads, BodySpelling, ProperBody;
    Next(i, p, c.kw, [c.name] + (BodySpelling(c.members) + Opt(c.end)), q);
    Next(i, p + 1, c.name, BodySpelling(c.members) + Opt(c.end), q);
    m := Cut(i, p + 2, BodySpelling(c.members), Opt(c.end), q);
    Ahead(i, m, Opt(c.end), q);
  }

  lemma BodyDone(nodes: seq<AstNode>, r: Final, q: nat, b: Body)
    requires MadeBody(nodes, r, q, b)
    ensures r.Done? && r.next == q && nodes <= r.nodes && MadeBody(nodes, r, NextOf(r), b)
  {
    hide Stands;
  }

  lemma StructStands(nodes: seq<AstNode>, r: Final, q: nat, c: Core, quals: Qualifiers, b: Final)
    requires c.Struct? && MadeBody(nodes, b, NextOf(b), c.members)
    requires r == Done(|b.nodes|, q, b.nodes + [AstNode(StructDeclKind, NoQuals, c.kw.offset, 0, NamedData(c.name.offset, b.id))])
    ensures MadeCore(nodes, r, q, c, quals)
  {
    hide Stands;
    if |r.nodes| <= NullNode && c.members.Body? { StillStands(b.nodes, r.nodes, b.id, c.members.stm); }
  }

  lemma {:induction false} ReadStruct(i: Input, c: Core, quals: Qualifiers, p: nat, q: nat, nodes: seq<AstNode>)
    requires c.Struct? && Given(i, c, quals, p, q)
    ensures MadeCore(nodes, Result(i, Stmt(quals), p, nodes, NullNode), q, c, quals)
    decreases c, 0
  {
    hide *;
    var m := StructGiven(i, c, quals, p, q);
    Dispatch(i, p, nodes, quals);
    StructEq(i, p, nodes);
    ReadBody(i, c.members, p + 2, m, nodes);
    var b := Result(i, OptBody, p + 2, nodes, NullNode);
    BodyDone(nodes, b, m, c.members);
    SemiMade(i, c.end, m, q, b.nodes);
    StructStands(nodes, Result(i, NT.Struct, p, nodes, NullNode), q, c, quals, b);
  }

  lemma NamespaceGiven(i: Input, c: Core, quals: Qualifiers, p: nat, q: nat)
    requires c.Namespace? && Given(i, c, quals, p, q)
    ensures p + 2 <= q <= |i.toks| && i.At(p) == c.kw && i.At(p + 1) == c.name && i.Has(p, KwNamespace) && i.Has(p + 1, Ident)
    ensures Reads(i, p + 2, Spelling(c.body), q) && Proper(i.source, c.body) && MayPrecede(i.source, c.body, i.At(q))
  {
    hide Reads, Spelling, Proper, MayPrecede;
    Next(i, p, c.kw, [c.name] + Spelling(c.body), q);
    Next(i, p + 1, c.name, Spelling(c.body), q);
  }

  lemma NamespaceStands(nodes: seq<AstNode>, r: Final, q: nat, c: Core, quals: Qualifiers, b: Final)
    requires c.Namespace? && Made(nodes, b, q, c.body)
    requires r == Done(|b.nodes|, q, b.nodes + [AstNode(NamespaceDeclKind, NoQuals, c.kw.offset, 0, NamedData(c.name.offset, b.id))])
    ensures MadeCore(nodes, r, q, c, quals)
  {
    hide Stands;
    if |r.nodes| <= NullNode { StillStands(b.nodes, r.nodes, b.id, c.body); }
  }

  lemma {:induction false} ReadNamespace(i: Input, c: Core, quals: Qualifiers, p: nat, q: nat, nodes: seq<AstNode>)
    requires c.Namespace? && Given(i, c, quals, p, q)
    ensures MadeCore(nodes, Result(i, Stmt(quals), p, nodes, NullNode), q, c, quals)
    decreases c, 0
  {
    hide Given, MadeCore, Reads, Result, Spelling, Proper, MayPrecede, Stands;
    NamespaceGiven(i, c, quals, p, q);
    Dispatch(i, p, nodes, quals);
    NamespaceEq(i, p, nodes);
    ReadStm(i, c.body, p + 2, q, nodes);
    NamespaceStands(nodes, Result(i, NT.Namespace, p, nodes, NullNode), q, c, quals, Result(i, Stmt(NoQuals), p + 2, nodes, NullNode));
  }

  lemma TypeGiven(i: Input, c: Core, quals: Qualifiers, p: nat, q: nat) returns (k: nat, m: nat)
    requires c.TypeDecl? && Given(i, c, quals, p, q)
    ensures p + 2 <= k <= m <= q <= |i.toks| && i.At(p) == c.kw && i.At(p + 1) == c.name && i.Has(p, KwType) && i.Has(p + 1, Ident)
    ensures Reads(i, p + 2, BaseSpelling(c.base), k) && Reads(i, k, BodySpelling(c.members), m) && Reads(i, m, Opt(c.end), q)
    ensures ProperBase(i.source, c.base) && BaseMayPrecede(i.source, c.base, i.At(k))
    ensures ProperBody(i.source, c.members) && OptKind(c.end, Semi) && Closed(c.end, i.At(q))
    ensures c.members.NoBody? ==> !i.Has(m, BrLeft)
  {
    hide Reads, BaseSpelling, ProperBody, ProperBase, BaseMayPrecede, Spelling, IsBlock, Proper;
    var rest := BodySpelling(c.members) + Opt(c.end);
    Next(i, p, c.kw, [c.name] + (BaseSpelling(c.base) + rest), q);
    Next(i, p + 1, c.name, BaseSpelling(c.base) + rest, q);
    k := Cut(i, p + 2, BaseSpelling(c.base), rest, q);
    Ahead(i, k, rest, q);
    m := Cut(i, k, BodySpelling(c.members), Opt(c.end), q);
    Ahead(i, m, Opt(c.end), q);
  }

  lemma TypeStands(nodes: seq<AstNode>, r: Final, q: nat, c: Core, quals: Qualifiers, a: Final, b: Final)
    requires c.TypeDecl? && MadeBase(nodes, a, NextOf(a), c.base) && MadeBody(a.nodes, b, NextOf(b), c.members)
    requires var init := if b.id != NullNode then b.id else a.id;
      r == Done(|b.nodes|, q, b.nodes + Decl(TypeDeclKind, quals, c.kw, c.name, init, |b.nodes|))
    ensures MadeCore(nodes, r, q, c, quals)
  {
    hide Denotes, Stands;
    if |r.nodes| <= NullNode {
      if c.members.Body? { StillStands(b.nodes, r.nodes, b.id, c.members.stm); }
      if c.base.Base? { StillDenotes(a.nodes, r.nodes, a.id, c.base.value); }
    }
  }

  lemma {:induction false} ReadType(i: Input, c: Core, quals: Qualifiers, p: nat, q: nat, nodes: seq<AstNode>)
    requires c.TypeDecl? && Given(i, c, quals, p, q)
    ensures MadeCore(nodes, Result(i, Stmt(quals), p, nodes, NullNode), q, c, quals)
    decreases c, 0
  {
    hide *;
    var k, m := TypeGiven(i, c, quals, p, q);
    Dispatch(i, p, nodes, quals);
    TypeDeclEq(i, p, nodes, quals);
    ReadBase(i, c.base, p + 2, k, nodes);
    var a := Result(i, NT.Base, p + 2, nodes, NullNode);
    BaseDone(nodes, a, k, c.base);
    ReadBody(i, c.members, k, m, a.nodes);
    var b := Result(i, OptBody, k, a.nodes, NullNode);
    BodyDone(a.nodes, b, m, c.members);
    SemiMade(i, c.end, m, q, b.nodes);
    TypeStands(nodes, Result(i, NT.TypeDecl(quals), p, nodes, NullNode), q, c, quals, a, b);
  }

  /** The type, or `auto` among the qualifiers, and the name. */
  lemma NamesMade(i: Input, typ: Option<Token>, name: Token, quals: Qualifiers, rest: seq<Token>, p: nat, q: nat, nodes: seq<AstNode>) returns (m: nat)
    requires ProperNames(typ, name, quals.isAuto) && Reads(i, p, Opt(typ) + ([name] + rest), q)
    ensures p < m <= q <= |i.toks| && Reads(i, m, rest, q)
    ensures Result(i, Stmt(quals), p, nodes, NullNode) == Result(i, DeclRest(quals, Or(typ, AUTO), name), m, nodes, NullNode)
  {
    hide Reads, Result, Undispatched;
    var k := Cut(i, p, Opt(typ), [name] + rest, q);
    Next(i, k, name, rest, q);
    m := k + 1;
    if typ.Some? { Last(i, p, typ.value, k); }
    NamesKinds(i.Kind(p));
    if quals.isAuto { StmtAutoDecl(i, p, nodes, quals); } else { StmtTypedDecl(i, p, nodes, quals); }
  }

  lemma NamesKinds(k: TokenType)
    requires k.KwByte? || k.Ident?
    ensures Undispatched(k)
  {}

  lemma VarGiven(i: Input, c: Core, quals: Qualifiers, p: nat, q: nat)
    requires c.Var? && Given(i, c, quals, p, q)
    ensures Reads(i, p, Opt(c.typ) + ([c.name] + (InitSpelling(c.init) + [c.semi])), q)
    ensures ProperNames(c.typ, c.name, quals.isAuto) && ProperInit(c.init) && c.semi.kind.Semi?
  {
    hide Reads, Opt, InitSpelling, ProperNames, ProperInit;
  }

  lemma VarStands(nodes: seq<AstNode>, r: Final, q: nat, c: Core, quals: Qualifiers, e: Final)
    requires c.Var? && MadeInit(nodes, e, NextOf(e), c.init)
    requires r == Done(|e.nodes|, q, e.nodes + Decl(VarDeclKind, quals, Or(c.typ, AUTO), c.name, e.id, |e.nodes|))
    ensures MadeCore(nodes, r, q, c, quals)
  {
    hide StandsInit;
    StillInit(e.nodes, r.nodes, e.id, c.init);
  }

  lemma ReadVar(i: Input, c: Core, quals: Qualifiers, p: nat, q: nat, nodes: seq<AstNode>)
    requires c.Var? && Given(i, c, quals, p, q)
    ensures MadeCore(nodes, Result(i, Stmt(quals), p, nodes, NullNode), q, c, quals)
  {
    hide Given, MadeCore, Reads, Result, Opt, Or, StandsInit, ProperNames, ProperInit, UpTo, Decl, Fits, Spell;
    VarGiven(i, c, quals, p, q);
    var m := NamesMade(i, c.typ, c.name, quals, InitSpelling(c.init) + [c.semi], p, q, nodes);
    Ahead(i, m, InitSpelling(c.init) + [c.semi], q);
    var k := Cut(i, m, InitSpelling(c.init), [c.semi], q);
    Last(i, k, c.semi, q);
    NotCalled(c.init, c.semi);
    DeclRestVar(i, m, nodes, quals, Or(c.typ, AUTO), c.name);
    InitMade(i, c.init, m, k, nodes);
    UpToEq(i, InitPart, Semi, m, nodes);
    VarStands(nodes, Result(i, Stmt(quals), p, nodes, NullNode), q, c, quals, Result(i, InitPart, m, nodes, NullNode));
  }

  lemma NotCalled(e: Init, semi: Token)
    requires ProperInit(e) && semi.kind.Semi?
    ensures InitSpelling(e) + [semi] != [] && !(InitSpelling(e) + [semi])[0].kind.Left?
  {
    hide Fits, Spell;
  }

  // ---------- parameters and functions ----------

  ghost predicate MadeParam(nodes: seq<AstNode>, r: Final, q: nat, p: Param) {
    r.Done? && r.next == q && nodes <= r.nodes && ParamStands(r.nodes, r.id, p)
  }

  lemma ParamPlaces(i: Input, a: Param, quals: Qualifiers, p: nat, q: nat) returns (m: nat)
    requires ProperParam(a) && quals.isAuto == Among(KwAuto, a.quals)
    requires Reads(i, p, Opt(a.typ) + (Opt(a.name) + InitSpelling(a.init)), q) && i.Kind(q) in {Comma, Right}
    ensures p <= m <= q <= |i.toks| && Reads(i, m, InitSpelling(a.init), q) && m == AfterNames(i, p, quals)
    ensures ParamType(i, p, quals) == Or(a.typ, AUTO) && ParamName(i, p, quals) == Or(a.name, UNNAMED)
    ensures !i.Has(p, Eof) && (quals.isAuto ==> i.Has(p, Ident)) && i.Kind(p) !in QUALIFIERS
  {
    hide Reads, Among, AllQualifiers, Fits, Spell, QUALIFIERS;
    var k := Cut(i, p, Opt(a.typ), Opt(a.name) + InitSpelling(a.init), q);
    m := Cut(i, k, Opt(a.name), InitSpelling(a.init), q);
    Ahead(i, m, InitSpelling(a.init), q);
    if a.typ.Some? { Last(i, p, a.typ.value, k); }
    if a.name.Some? { Last(i, k, a.name.value, m); } else { Ahead(i, k, Opt(a.name), m); }
    NameIsNoQualifier();
    NamesEq(i, p, quals);
  }

  lemma NameIsNoQualifier()
    ensures Ident !in QUALIFIERS
  {}

  lemma QualifierKinds(k: TokenType)
    ensures IsQualifier(k) <==> k in QUALIFIERS
  {}

  lemma ParamStandsHere(nodes: seq<AstNode>, r: Final, q: nat, a: Param, e: Final)
    requires MadeInit(nodes, e, q, a.init)
    requires r == Done(|e.nodes|, q, e.nodes + Decl(VarDeclKind, Flags(a.quals), Or(a.typ, AUTO), Or(a.name, UNNAMED), e.id, |e.nodes|))
    ensures MadeParam(nodes, r, q, a)
  {
    hide StandsInit, Flags;
    StillInit(e.nodes, r.nodes, e.id, a.init);
  }

  lemma ReadParam(i: Input, a: Param, p: nat, q: nat, nodes: seq<AstNode>)
    requires ProperParam(a) && Reads(i, p, ParamSpelling(a), q) && i.Kind(q) in {Comma, Right}
    ensures MadeParam(nodes, Result(i, NT.Param(NoQuals), p, nodes, NullNode), q, a)
  {
    hide Reads, Result, MadeParam, Opt, Or, InitSpelling, Initialised, ParamType, ParamName, AfterNames, Decl, Fits, Flags, Plus, AllQualifiers, Among, StandsInit, QUALIFIERS;
    var quals := Flags(a.quals);
    Qualified(i, p, a.quals, Opt(a.typ) + (Opt(a.name) + InitSpelling(a.init)), q, NoQuals, nodes);
    PlusFlags(a.quals);
    var k := p + |a.quals|;
    var m := ParamPlaces(i, a, quals, k, q);
    QualifierKinds(i.Kind(k));
    ParamEq(i, k, nodes, quals);
    InitialisedEq(i, quals, Or(a.typ, AUTO), Or(a.name, UNNAMED), m, nodes);
    InitMade(i, a.init, m, q, nodes);
    ParamStandsHere(nodes, Result(i, NT.Param(NoQuals), p, nodes, NullNode), q, a, Result(i, InitPart, m, nodes, NullNode));
  }

  ghost predicate MadeMore(nodes: seq<AstNode>, r: Final, q: nat, ps: MoreParams) {
    r.Done? && r.next == q && nodes <= r.nodes && MoreStand(r.nodes, ps)
  }

  lemma MoreAhead(i: Input, ps: MoreParams, p: nat, q: nat)
    requires Reads(i, p, MoreSpelling(ps), q) && ProperMore(ps) && i.Kind(q).Right?
    ensures if ps.More? then i.Has(p, Comma) else p == q && i.Has(p, Right)
  {
    hide Reads, ParamSpelling, ProperParam;
    Ahead(i, p, MoreSpelling(ps), q);
  }

  lemma {:induction false} ReadMore(i: Input, ps: MoreParams, p: nat, q: nat, nodes: seq<AstNode>)
    requires Reads(i, p, MoreSpelling(ps), q) && ProperMore(ps) && i.Kind(q).Right?
    ensures MadeMore(nodes, Result(i, NT.MoreParams, p, nodes, NullNode), q, ps)
    decreases ps
  {
    hide Reads, Result, ParamSpelling, ProperParam, ParamStands;
    MoreAhead(i, ps, p, q);
    Pratt.Within(i, p, MoreSpelling(ps), q);
    MoreParamsEq(i, p, nodes);
    if ps.More? {
      Next(i, p, ps.comma, ParamSpelling(ps.head) + MoreSpelling(ps.more), q);
      var m := Cut(i, p + 1, ParamSpelling(ps.head), MoreSpelling(ps.more), q);
      MoreAhead(i, ps.more, m, q);
      ReadParam(i, ps.head, p + 1, m, nodes);
      var a := Result(i, NT.Param(NoQuals), p + 1, nodes, NullNode);
      ReadMore(i, ps.more, m, q, a.nodes);
      StillParam(a.nodes, Result(i, NT.MoreParams, m, a.nodes, NullNode).nodes, a.id, ps.head);
    }
  }

  ghost predicate MadeParams(nodes: seq<AstNode>, r: Final, q: nat, ps: Params) {
    r.Done? && r.next == q && nodes <= r.nodes && ParamsStand(r.nodes, ps)
  }

  lemma FirstParam(i: Input, a: Param, more: seq<Token>, p: nat, q: nat)
    requires Reads(i, p, ParamSpelling(a) + more, q) && ProperParam(a) && !ParamSpelling(a)[0].kind.Right?
    ensures !i.Has(p, Right)
  {
    Ahead(i, p, ParamSpelling(a) + more, q);
  }

  lemma ReadParams(i: Input, ps: Params, p: nat, q: nat, nodes: seq<AstNode>)
    requires Reads(i, p, ParamsSpelling(ps), q) && ProperParams(ps) && i.Kind(q).Right?
    ensures MadeParams(nodes, Result(i, NT.Params, p, nodes, NullNode), q, ps)
  {
    hide Reads, Result, ParamSpelling, ProperParam, ParamStands, MoreSpelling, ProperMore, MoreStand;
    Pratt.Within(i, p, ParamsSpelling(ps), q);
    if ps.NoParams? {
      EmptyList(i, p, nodes);
    } else {
      FirstParam(i, ps.head, MoreSpelling(ps.more), p, q);
      var m := Cut(i, p, ParamSpelling(ps.head), MoreSpelling(ps.more), q);
      MoreAhead(i, ps.more, m, q);
      ReadParam(i, ps.head, p, m, nodes);
      var a := Result(i, NT.Param(NoQuals), p, nodes, NullNode);
      ReadMore(i, ps.more, m, q, a.nodes);
      StillParam(a.nodes, Result(i, NT.MoreParams, m, a.nodes, NullNode).nodes, a.id, ps.head);
      ParamsSome(i, p, nodes);
      ListedEq(i, NT.Param(NoQuals), NT.MoreParams, p, nodes);
    }
  }

  lemma FuncGiven(i: Input, c: Core, quals: Qualifiers, p: nat, q: nat)
    requires c.Func? && Given(i, c, quals, p, q)
    ensures Reads(i, p, Opt(c.typ) + ([c.name] + ([c.open] + (ParamsSpelling(c.params) + ([c.close] + DefSpelling(c.def))))), q)
    ensures ProperNames(c.typ, c.name, quals.isAuto) && c.open.kind.Left? && ProperParams(c.params) && c.close.kind.Right?
    ensures ProperDef(i.source, c.def)
  {
    hide Reads, Opt, ParamsSpelling, DefSpelling, ProperNames, ProperParams, ProperDef;
  }

  lemma FuncStands(nodes: seq<AstNode>, r: Final, q: nat, c: Core, quals: Qualifiers, a: Final, b: Final)
    requires c.Func? && MadeParams(nodes, a, NextOf(a), c.params) && MadeDef(a.nodes, b, q, c.def)
    requires r == Done(|b.nodes| + 2, q, b.nodes + Definition(quals, Or(c.typ, AUTO), c.name, b.id, |b.nodes|))
    ensures MadeCore(nodes, r, q, c, quals)
  {
    hide ParamsStand, Stands;
    if |r.nodes| <= NullNode {
      StillParams(a.nodes, r.nodes, c.params);
      if c.def.Defined? { StillStands(b.nodes, r.nodes, b.id, c.def.stm); }
    }
  }

  lemma {:induction false} ReadFunc(i: Input, c: Core, quals: Qualifiers, p: nat, q: nat, nodes: seq<AstNode>)
    requires c.Func? && Given(i, c, quals, p, q)
    ensures MadeCore(nodes, Result(i, Stmt(quals), p, nodes, NullNode), q, c, quals)
    decreases c, 0
  {
    hide Given, MadeCore, Reads, Result, Opt, Or, ParamsSpelling, DefSpelling, ProperNames, ProperParams, ProperDef, ParamsStand, Stands, UpTo, ParamList, Definition;
    FuncGiven(i, c, quals, p, q);
    var rest := ParamsSpelling(c.params) + ([c.close] + DefSpelling(c.def));
    var m := NamesMade(i, c.typ, c.name, quals, [c.open] + rest, p, q, nodes);
    Next(i, m, c.open, rest, q);
    var k := Cut(i, m + 1, ParamsSpelling(c.params), [c.close] + DefSpelling(c.def), q);
    Next(i, k, c.close, DefSpelling(c.def), q);
    FuncRestEq(i, m, nodes, quals, Or(c.typ, AUTO), c.name);
    FuncEq(i, m, nodes, quals, Or(c.typ, AUTO), c.name);
    ReadParams(i, c.params, m + 1, k, nodes);
    var a := Result(i, NT.Params, m + 1, nodes, NullNode);
    ParamListEq(i, m, nodes);
    UpToEq(i, NT.Params, Right, m + 1, nodes);
    ReadDef(i, c.def, k + 1, q, a.nodes);
    FuncStands(nodes, Result(i, Stmt(quals), p, nodes, NullNode), q, c, quals, a, Result(i, FuncBody, k + 1, a.nodes, NullNode));
  }

  // ---------- whole programs ----------

  /** The nodes of a program: the unit's own, and for each statement some that stand for it. */
  ghost predicate ProgramStands(nodes: seq<AstNode>, root: NodeId, ss: Stms) {
    root < |nodes| && nodes[root] == AstNode(TranslationUnitKind, UNQUALIFIED, 0, 0, NoData) && AllStand(nodes, ss)
  }

  /** A token list that spells a program is read to its end, and the nodes stand for the program. */
  lemma ReadProgram(i: Input, ss: Stms)
    requires i.toks == AllSpelling(ss) && ProperAll(i.source, ss, i.End())
    ensures var r := Result(i, Program, 0, [], NullNode);
      r.Done? && r.next == |i.toks| && (|r.nodes| <= NullNode ==> ProgramStands(r.nodes, r.id, ss))
  {
    hide Result, AllSpelling, ProperAll, AllStand;
    var unit := [AstNode(TranslationUnitKind, NoQuals, 0, 0, NoData)];
    assert [] + [Plain(TranslationUnitKind, 0, NoData)] == unit;
    assert i.toks[0..|i.toks|] == i.toks;
    ProgramEq(i, 0, []);
    ReadAll(i, ss, TopStmts, 0, |i.toks|, unit);
  }
}
