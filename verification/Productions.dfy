/** The productions of the language, one per parser routine or optional part. */
module Productions {
  import opened Tokens
  import opened Symbols
  import opened Engine

  const NoQuals := Qualifiers(false, false, false, false, false)

  function Precedence(k: TokenType): nat {
    match k
    case Equals | PlusEquals | MinusEquals | StarEquals | SlashEquals | PercEquals
       | AmpEquals | BarEquals | UpEquals => 1
    case BBar => 2
    case AAmp => 3
    case Bar => 4
    case Up => 5
    case Amp => 6
    case EEquals | NEquals => 7
    case Lesser | Greater | LeEquals | GrEquals => 8
    case LLesser | GGreater => 9
    case Plus | Minus => 10
    case Star | Slash | Perc => 11
    case _ => 0
  }

  predicate IsPrefixOp(k: TokenType) {
    k.PPlus? || k.MMinus? || k.Excl? || k.Tilde? || k.Minus? || k.Amp? || k.Star?
  }

  predicate IsLiteral(k: TokenType) {
    k.LInt? || k.LFloat? || k.LString? || k.LChar? || k.KwTrue? || k.KwFalse?
  }

  predicate IsName(k: TokenType) { k.Ident? || k.KwVoid? || k.KwByte? }

  predicate IsPostfixStart(k: TokenType) {
    k.Left? || k.Dot? || k.Arrow? || k.SqLeft? || k.PPlus? || k.MMinus?
  }

  predicate IsQualifier(k: TokenType) {
    k.KwConstexpr? || k.KwConst? || k.KwStatic? || k.KwInline? || k.KwAuto?
  }

  function WithQualifier(q: Qualifiers, k: TokenType): Qualifiers {
    match k
    case KwConstexpr => q.(isConstexpr := true)
    case KwConst => q.(isConst := true)
    case KwStatic => q.(isStatic := true)
    case KwInline => q.(isInline := true)
    case KwAuto => q.(isAuto := true)
    case _ => q
  }

  /** Stands for the type of a declaration made with `auto`. */
  const AutoType := Token(0, 0, KwAuto)

  function TextAt(source: string, tok: Token): string {
    if tok.offset > |source| then ""
    else if tok.offset + tok.size > |source| then source[tok.offset..]
    else source[tok.offset..tok.offset + tok.size]
  }

  predicate IsUsing(source: string, tok: Token) {
    tok.kind.Ident? && TextAt(source, tok) == "using"
  }

  function Rhs(src: string, n: NT, t0: Token, t1: Token): Option<seq<Sym>> {
    var k := t0.kind;
    match n
    case Program => Some([N(OpenUnit), N(TopStmts)])
    case OpenUnit => Some([])
    case TopStmts => Some(if k.Eof? then [] else [N(Stmt(NoQuals)), N(TopStmts)])
    case Stmts => Some(if k.BrRight? || k.Eof? then [] else [N(Stmt(NoQuals)), N(Stmts)])
    case Stmt(q) => Some(StmtRhs(q, t0, t1))
    case Block => Some([T(BrLeft), N(OpenBlock), N(Stmts), T(BrRight)])
    case OpenBlock => Some([])
    case Branch(kw) => Some([T(kw), T(Left), N(Expr(0)), T(Right), N(Stmt(NoQuals)), N(ElsePart)])
    case ElsePart => Some(if k.KwElse? then [T(KwElse), N(Stmt(NoQuals))] else [])
    case While => Some([T(KwWhile), T(Left), N(Expr(0)), T(Right), N(Stmt(NoQuals))])
    case For => Some([T(KwFor), T(Left), N(ForInit), N(OptExpr(Semi)), T(Semi), N(OptExpr(Right)), T(Right), N(Stmt(NoQuals))])
    case ForInit => Some(if k.Semi? then [T(Semi)] else [N(Stmt(NoQuals))])
    case OptExpr(stop) => Some(if k == stop then [] else [N(Expr(0))])
    case Return => Some([T(KwReturn), N(OptExpr(Semi)), T(Semi)])
    case Struct => Some([T(KwStruct), T(Ident), N(OptBody), N(OptSemi)])
    case Namespace => Some([T(KwNamespace), T(Ident), N(Stmt(NoQuals))])
    case OptBody => Some(if k.BrLeft? then [N(Stmt(NoQuals))] else [])
    case OptSemi => Some(if k.Semi? then [T(Semi)] else [])
    case Delete => Some([T(KwDelete), N(OptAuto), N(Primary)])
    case OptAuto => Some(if k.KwAuto? then [T(KwAuto)] else [])
    case TypeDecl(_) => Some([T(KwType), T(Ident), N(Base), N(OptBody), N(OptSemi)])
    case Base =>
      Some(if k.Equals? then [T(Equals), N(Expr(0))]
           else if k.Colon? then [T(Colon), N(Primary)]
           else if IsUsing(src, t0) then [T(Ident), N(Primary)]
           else [])
    case DeclRest(q, typ, name) => Some(if k.Left? then [N(Func(q, typ, name))] else [N(InitPart), T(Semi)])
    case InitPart => Some(if k.Equals? then [T(Equals), N(Expr(0))] else [])
    case Func(_, _, _) => Some([T(Left), N(Params), T(Right), N(FuncBody)])
    case FuncBody => Some(if k.BrLeft? then [N(Stmt(NoQuals))] else [T(Semi)])
    case Params => Some(if k.Right? then [] else [N(Param(NoQuals)), N(MoreParams)])
    case MoreParams => Some(if k.Comma? then [T(Comma), N(Param(NoQuals)), N(MoreParams)] else [])
    case Param(q) =>
      if k.Eof? then None
      else if IsQualifier(k) then Some([T(k), N(Param(WithQualifier(q, k)))])
      else if q.isAuto then Some([T(Ident), N(InitPart)])
      else if t1.kind.Ident? then Some([T(k), T(Ident), N(InitPart)])
      else Some([T(k), N(InitPart)])
    case _ => ExprRhs(n, k, t1.kind)
  }

  /** Declarations are recognised by two tokens: `type`, `byte`, or two names in a row. */
  predicate StartsDecl(k: TokenType, k1: TokenType) {
    k.KwByte? || (k.Ident? && k1.Ident?)
  }

  function StmtRhs(q: Qualifiers, t0: Token, t1: Token): seq<Sym> {
    var k := t0.kind;
    if IsQualifier(k) then [T(k), N(Stmt(WithQualifier(q, k)))]
    else if k.BrLeft? then [N(Block)]
    else if k.KwIf? then [N(Branch(KwIf))]
    else if k.KwWhile? then [N(While)]
    else if k.KwFor? then [N(For)]
    else if k.KwReturn? then [N(Return)]
    else if k.KwBreak? || k.KwContinue? then [T(k), T(Semi)]
    else if k.KwStruct? then [N(Struct)]
    else if k.KwNamespace? then [N(Namespace)]
    else if k.KwDelete? then [N(Delete), N(OptSemi)]
    else if k.KwRequires? then [T(KwRequires), T(Colon), N(Expr(0)), N(OptSemi)]
    else if k.KwType? then [N(TypeDecl(q))]
    else if q.isAuto then [T(Ident), N(DeclRest(q, AutoType, t0))]
    else if StartsDecl(k, t1.kind) then [T(k), T(Ident), N(DeclRest(q, t0, t1))]
    else [N(Expr(0)), N(OptSemi)]
  }

  function ExprRhs(n: NT, k: TokenType, k1: TokenType): Option<seq<Sym>> {
    match n
    case Expr(min) => Some([N(Primary), N(Tail(min))])
    case Tail(min) =>
      Some(if Precedence(k) < min || Precedence(k) == 0 then [] else [N(BinStep), N(Tail(min))])
    case BinStep => BinStepRhs(k, Precedence(k))
    case Primary => Some([N(Operand), N(Postfixes)])
    case Operand => OperandRhs(k, k1)
    case Postfixes => Some(if IsPostfixStart(k) then [N(PostfixStep), N(Postfixes)] else [])
    case PostfixStep => PostfixStepRhs(k)
    case Args => Some(if k.Right? then [] else [N(Expr(0)), N(MoreArgs)])
    case MoreArgs => Some(if k.Comma? then [T(Comma), N(Expr(0)), N(MoreArgs)] else [])
    case _ => None
  }

  /** The operand on the right must bind strictly tighter: every operator groups to the left. */
  function BinStepRhs(k: TokenType, prec: nat): Option<seq<Sym>> {
    if prec == 0 then None else Some([T(k), N(Expr(prec + 1))])
  }

  function PostfixStepRhs(k: TokenType): Option<seq<Sym>> {
    if k.Left? then Some([T(Left), N(Args), T(Right)])
    else if k.Dot? || k.Arrow? then Some([T(k), T(Ident)])
    else if k.SqLeft? then Some([T(SqLeft), N(Expr(0)), T(SqRight)])
    else if k.PPlus? || k.MMinus? then Some([T(k)])
    else None
  }

  function OperandRhs(k: TokenType, k1: TokenType): Option<seq<Sym>> {
    if IsPrefixOp(k) then Some([T(k), N(Primary)])
    else if IsLiteral(k) || IsName(k) then Some([T(k)])
    else if k.KwEval? then Some([N(Branch(KwEval))])
    else if k.Left? && k1.KwDelete? then Some([T(Left), N(Delete), T(Right)])
    else if k.BrLeft? then Some([N(Block)])
    else if k.Left? then Some([T(Left), N(Expr(0)), T(Right)])
    else None
  }

  /** Order in which non-terminals may be entered without taking a token. */
  function Rank(n: NT): nat {
    match n
    case Operand | Postfixes | Tail(_) | Params | DeclRest(_, _, _) => 1
    case Primary => 2
    case Expr(_) => 3
    case Args | OptExpr(_) | Stmt(_) => 4
    case Stmts | TopStmts | ForInit | OptBody | FuncBody => 5
    case Program => 6
    case _ => 0
  }

  predicate IsEager(n: NT) {
    match n
    case Program | OpenUnit | TopStmts | Stmts | OpenBlock | ElsePart | OptExpr(_) | OptBody | OptSemi
       | OptAuto | Base | InitPart | Params | MoreParams | Tail(_) | Postfixes | Args | MoreArgs => false
    case _ => true
  }

  const Lgc: Grammar := Grammar(Rhs, Rank, n => IsEager(n), 7)

  lemma GuardOne(g: Grammar, rhs: seq<Sym>, bound: nat)
    requires rhs != []
    requires rhs[0].T? || (g.rank(rhs[0].nt) < bound && g.eager(rhs[0].nt))
    ensures g.Guarded(rhs, bound) && g.Eager(rhs)
  {}

  lemma GuardTwo(g: Grammar, a: NT, s: Sym, bound: nat)
    requires g.rank(a) < bound && (s.T? || g.rank(s.nt) < bound)
    ensures g.Guarded([N(a), s], bound) && (s.T? ==> g.Eager([N(a), s]))
  {
    var rest := [s];
    assert [N(a), s][1..] == rest;
    assert rest[1..] == [];
  }

  /** `rhs` begins with a token or with a non-terminal that takes one and ranks below `rank`. */
  predicate StartsLow(rhs: seq<Sym>, rank: nat, eager: bool) {
    if rhs == [] then !eager
    else rhs[0].T? || (Rank(rhs[0].nt) < rank && IsEager(rhs[0].nt))
  }

  lemma StmtStartsLow(q: Qualifiers, t0: Token, t1: Token)
    ensures StartsLow(StmtRhs(q, t0, t1), 4, true)
  {}

  lemma OperandStartsLow(k: TokenType, k1: TokenType)
    requires OperandRhs(k, k1).Some?
    ensures StartsLow(OperandRhs(k, k1).value, 1, true)
  {}

  lemma PostfixStepStartsLow(k: TokenType)
    requires PostfixStepRhs(k).Some?
    ensures StartsLow(PostfixStepRhs(k).value, 0, true)
  {}

  lemma ExprStartsLow(n: NT, k: TokenType, k1: TokenType)
    requires ExprRhs(n, k, k1).Some?
    ensures StartsLow(ExprRhs(n, k, k1).value, Rank(n), IsEager(n))
  {
    match n
    case Operand => OperandStartsLow(k, k1);
    case PostfixStep => PostfixStepStartsLow(k);
    case Postfixes => assert StartsLow([N(PostfixStep), N(Postfixes)], 1, false);
    case Tail(min) => assert StartsLow([N(BinStep), N(Tail(min))], 1, false);
    case _ =>
  }

  lemma OtherStartsLow(src: string, n: NT, a: Token, b: Token)
    requires !n.Program? && !n.DeclRest? && !n.Stmt? && ExprRhs(n, a.kind, b.kind).None? && Rhs(src, n, a, b).Some?
    ensures StartsLow(Rhs(src, n, a, b).value, Rank(n), IsEager(n))
  {}

  lemma RhsGuarded(src: string, n: NT, a: Token, b: Token)
    requires Rhs(src, n, a, b).Some?
    ensures var rhs := Rhs(src, n, a, b).value;
      Lgc.Guarded(rhs, Rank(n)) && (IsEager(n) ==> Lgc.Eager(rhs))
  {
    var rhs := Rhs(src, n, a, b).value;
    if n.Program? { GuardTwo(Lgc, OpenUnit, N(TopStmts), Rank(n)); }
    else if n.DeclRest? && a.kind != Left { GuardTwo(Lgc, InitPart, T(Semi), Rank(n)); }
    else {
      if n.Stmt? { StmtStartsLow(n.quals, a, b); }
      else if ExprRhs(n, a.kind, b.kind).Some? { ExprStartsLow(n, a.kind, b.kind); }
      else if !n.DeclRest? { OtherStartsLow(src, n, a, b); }
      if rhs != [] { GuardOne(Lgc, rhs, Rank(n)); }
    }
  }

  /** No production re-enters a non-terminal of the same rank before a token is taken. */
  lemma LgcValid()
    ensures Lgc.Valid()
  {
    forall src, n, a, b | Lgc.choose(src, n, a, b).Some?
      ensures var rhs := Lgc.choose(src, n, a, b).value;
        Lgc.Guarded(rhs, Lgc.rank(n)) && (Lgc.eager(n) ==> Lgc.Eager(rhs))
    {
      RhsGuarded(src, n, a, b);
    }
  }
}
