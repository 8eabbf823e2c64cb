/**
 Statements and declarations. `Spelling` writes a statement down token by token, `Proper` says
 which tokens may stand where, `MayPrecede` what may follow, and `Stands` what nodes stand for one.
 None of them mentions parsing.
 */
module Statements {
  import opened Tokens
  import opened Symbols
  import opened Productions
  import opened Arena
  import opened Expressions
  import opened PrattArena
  import opened Grouping

  /** Qualifiers come before any statement; they matter to declarations. */
  datatype Stm = Stm(quals: seq<Token>, core: Core)

  datatype Core =
    | Run(value: Exp, end: Option<Token>)
    | Block(open: Token, contents: Stms, close: Token)
    | If(kw: Token, open: Token, cond: Exp, close: Token, yes: Stm, no: Else)
    | While(kw: Token, open: Token, cond: Exp, close: Token, body: Stm)
    | For(kw: Token, open: Token, first: First, test: Option<Exp>, semi: Token, step: Option<Exp>, close: Token, body: Stm)
    | Return(kw: Token, result: Option<Exp>, semi: Token)
    | Jump(kw: Token, semi: Token)
    | Struct(kw: Token, name: Token, members: Body, end: Option<Token>)
    | Namespace(kw: Token, name: Token, body: Stm)
    | Delete(kw: Token, auto: Option<Token>, target: Exp, end: Option<Token>)
    | Requires(kw: Token, colon: Token, value: Exp, end: Option<Token>)
    | TypeDecl(kw: Token, name: Token, base: Base, members: Body, end: Option<Token>)
    | Var(typ: Option<Token>, name: Token, init: Init, semi: Token)
    | Func(typ: Option<Token>, name: Token, open: Token, params: Params, close: Token, def: Def)

  datatype Stms = NoStms | Stms(head: Stm, tail: Stms)
  datatype Else = NoElse | Else(kw: Token, stm: Stm)
  datatype First = NoFirst(semi: Token) | First(stm: Stm)
  datatype Body = NoBody | Body(stm: Stm)
  datatype Def = Declared(semi: Token) | Defined(stm: Stm)
  datatype Init = NoInit | Init(sign: Token, value: Exp)
  datatype Base = NoBase | Base(sign: Token, value: Exp)
  datatype Param = Param(quals: seq<Token>, typ: Option<Token>, name: Option<Token>, init: Init)
  datatype Params = NoParams | Params(head: Param, more: MoreParams)
  datatype MoreParams = NoMore | More(comma: Token, head: Param, more: MoreParams)

  // ---------- writing ----------

  function Opt(t: Option<Token>): seq<Token> { if t.Some? then [t.value] else [] }
  function OptExp(e: Option<Exp>): seq<Token> { if e.Some? then Spell(e.value) else [] }

  function Spelling(s: Stm): seq<Token>
    decreases s
  {
    s.quals + CoreSpelling(s.core)
  }

  function CoreSpelling(c: Core): seq<Token>
    decreases c
  {
    match c
    case Run(e, semi) => Spell(e) + Opt(semi)
    case Block(o, body, z) => [o] + (AllSpelling(body) + [z])
    case If(kw, o, e, z, yes, no) => [kw] + ([o] + (Spell(e) + ([z] + (Spelling(yes) + ElseSpelling(no)))))
    case While(kw, o, e, z, body) => [kw] + ([o] + (Spell(e) + ([z] + Spelling(body))))
    case For(kw, o, init, test, semi, step, z, body) =>
      [kw] + ([o] + (FirstSpelling(init) + (OptExp(test) + ([semi] + (OptExp(step) + ([z] + Spelling(body)))))))
    case Return(kw, e, semi) => [kw] + (OptExp(e) + [semi])
    case Jump(kw, semi) => [kw] + [semi]
    case Struct(kw, name, members, end) => [kw] + ([name] + (BodySpelling(members) + Opt(end)))
    case Namespace(kw, name, contents) => [kw] + ([name] + Spelling(contents))
    case Delete(kw, auto, e, end) => [kw] + (Opt(auto) + (Spell(e) + Opt(end)))
    case Requires(kw, colon, e, end) => [kw] + ([colon] + (Spell(e) + Opt(end)))
    case TypeDecl(kw, name, base, members, end) => [kw] + ([name] + (BaseSpelling(base) + (BodySpelling(members) + Opt(end))))
    case Var(typ, name, init, semi) => Opt(typ) + ([name] + (InitSpelling(init) + [semi]))
    case Func(typ, name, o, params, z, def) =>
      Opt(typ) + ([name] + ([o] + (ParamsSpelling(params) + ([z] + DefSpelling(def)))))
  }

  function AllSpelling(ss: Stms): seq<Token>
    decreases ss
  {
    if ss.NoStms? then [] else Spelling(ss.head) + AllSpelling(ss.tail)
  }

  function ElseSpelling(e: Else): seq<Token>
    decreases e
  {
    if e.NoElse? then [] else [e.kw] + Spelling(e.stm)
  }

  function FirstSpelling(f: First): seq<Token>
    decreases f
  {
    match f case NoFirst(semi) => [semi] case First(s) => Spelling(s)
  }

  function BodySpelling(b: Body): seq<Token>
    decreases b
  {
    if b.NoBody? then [] else Spelling(b.stm)
  }

  function DefSpelling(d: Def): seq<Token>
    decreases d
  {
    match d case Declared(semi) => [semi] case Defined(s) => Spelling(s)
  }

  function InitSpelling(i: Init): seq<Token> { if i.NoInit? then [] else [i.sign] + Spell(i.value) }
  function BaseSpelling(b: Base): seq<Token> { if b.NoBase? then [] else [b.sign] + Spell(b.value) }

  function ParamSpelling(p: Param): seq<Token> { p.quals + (Opt(p.typ) + (Opt(p.name) + InitSpelling(p.init))) }

  function ParamsSpelling(ps: Params): seq<Token> {
    if ps.NoParams? then [] else ParamSpelling(ps.head) + MoreSpelling(ps.more)
  }

  function MoreSpelling(ps: MoreParams): seq<Token> {
    if ps.NoMore? then [] else [ps.comma] + (ParamSpelling(ps.head) + MoreSpelling(ps.more))
  }

  // ---------- what may stand where ----------

  const QUALIFIERS := {KwConstexpr, KwConst, KwStatic, KwInline, KwAuto}

  predicate AllQualifiers(ts: seq<Token>) { forall t :: t in ts ==> t.kind in QUALIFIERS }

  predicate Among(k: TokenType, ts: seq<Token>) { exists t :: t in ts && t.kind == k }

  /** Each flag is set when its word is among the qualifiers, wherever and however often. */
  function Flags(ts: seq<Token>): Qualifiers {
    Qualifiers(Among(KwConstexpr, ts), Among(KwConst, ts), Among(KwStatic, ts), Among(KwInline, ts), Among(KwAuto, ts))
  }

  function FirstOf(ts: seq<Token>, next: Token): Token { if ts == [] then next else ts[0] }

  predicate OptKind(t: Option<Token>, k: TokenType) { t.Some? ==> t.value.kind == k }
  predicate OptFits(e: Option<Exp>) { e.Some? ==> Fits(e.value, 0) }

  ghost predicate Proper(src: string, s: Stm)
    decreases s
  {
    AllQualifiers(s.quals) && ProperCore(src, s.core, Among(KwAuto, s.quals))
  }

  /** Every token is of a kind that can stand there. `auto` among the qualifiers takes the place of a type. */
  ghost predicate ProperCore(src: string, c: Core, auto: bool)
    decreases c
  {
    match c
    case Run(e, semi) => !auto && Fits(e, 0) && OptKind(semi, Semi)
    case Block(o, body, z) => o.kind.BrLeft? && z.kind.BrRight? && ProperAll(src, body, z)
    case If(kw, o, e, z, yes, no) =>
      && kw.kind.KwIf? && o.kind.Left? && Fits(e, 0) && z.kind.Right? && Proper(src, yes)
      && (no.Else? ==> no.kw.kind.KwElse? && Proper(src, no.stm) && MayPrecede(src, yes, no.kw))
    case While(kw, o, e, z, body) => kw.kind.KwWhile? && o.kind.Left? && Fits(e, 0) && z.kind.Right? && Proper(src, body)
    case For(kw, o, init, test, semi, step, z, body) =>
      && kw.kind.KwFor? && o.kind.Left? && ProperFirst(src, init, FirstOf(OptExp(test), semi))
      && OptFits(test) && semi.kind.Semi? && OptFits(step) && z.kind.Right? && Proper(src, body)
    case Return(kw, e, semi) => kw.kind.KwReturn? && OptFits(e) && semi.kind.Semi?
    case Jump(kw, semi) => (kw.kind.KwBreak? || kw.kind.KwContinue?) && semi.kind.Semi?
    case Struct(kw, name, members, end) =>
      kw.kind.KwStruct? && name.kind.Ident? && ProperBody(src, members) && OptKind(end, Semi)
    case Namespace(kw, name, contents) => kw.kind.KwNamespace? && name.kind.Ident? && Proper(src, contents)
    case Delete(kw, a, e, end) => kw.kind.KwDelete? && OptKind(a, KwAuto) && Fits(e, PREFIX) && OptKind(end, Semi)
    case Requires(kw, colon, e, end) => kw.kind.KwRequires? && colon.kind.Colon? && Fits(e, 0) && OptKind(end, Semi)
    case TypeDecl(kw, name, base, members, end) =>
      kw.kind.KwType? && name.kind.Ident? && ProperBase(src, base) && ProperBody(src, members) && OptKind(end, Semi)
    case Var(typ, name, init, semi) => ProperNames(typ, name, auto) && ProperInit(init) && semi.kind.Semi?
    case Func(typ, name, o, params, z, def) =>
      ProperNames(typ, name, auto) && o.kind.Left? && ProperParams(params) && z.kind.Right? && ProperDef(src, def)
  }

  /** Statements one after the other, each ended by what comes next. */
  ghost predicate ProperAll(src: string, ss: Stms, close: Token)
    decreases ss
  {
    ss.NoStms? ||
    (Proper(src, ss.head) && MayPrecede(src, ss.head, FirstOf(AllSpelling(ss.tail), close)) && ProperAll(src, ss.tail, close))
  }

  ghost predicate ProperFirst(src: string, f: First, next: Token)
    decreases f
  {
    match f case NoFirst(semi) => semi.kind.Semi? case First(s) => Proper(src, s) && MayPrecede(src, s, next)
  }

  predicate IsBlock(s: Stm) { s.quals == [] && s.core.Block? }

  ghost predicate ProperBody(src: string, b: Body)
    decreases b
  {
    b.NoBody? || (IsBlock(b.stm) && Proper(src, b.stm))
  }

  ghost predicate ProperDef(src: string, d: Def)
    decreases d
  {
    match d case Declared(semi) => semi.kind.Semi? case Defined(s) => IsBlock(s) && Proper(src, s)
  }

  predicate ProperInit(i: Init) { i.Init? ==> i.sign.kind.Equals? && Fits(i.value, 0) }

  /** What a type is declared as: an expression after `=`, an operand after `:` or the word `using`. */
  predicate ProperBase(src: string, b: Base) {
    b.Base? ==>
      if b.sign.kind.Equals? then Fits(b.value, 0)
      else (b.sign.kind.Colon? || (b.sign.kind.Ident? && TextAt(src, b.sign) == "using")) && Fits(b.value, PREFIX)
  }

  /** `byte` or an identifier, and the name; after `auto` the name only. */
  predicate ProperNames(typ: Option<Token>, name: Token, auto: bool) {
    name.kind.Ident? && if auto then typ.None? else typ.Some? && (typ.value.kind.KwByte? || typ.value.kind.Ident?)
  }

  /** The type of a parameter can be any token, and its name can be missing. */
  predicate ProperParam(p: Param) {
    && AllQualifiers(p.quals) && ProperInit(p.init) && OptKind(p.name, Ident)
    && if Among(KwAuto, p.quals) then p.typ.None? && p.name.Some?
       else p.typ.Some? && p.typ.value.kind !in QUALIFIERS && !p.typ.value.kind.Eof?
  }

  predicate ProperParams(ps: Params) {
    ps.Params? ==> ProperParam(ps.head) && !ParamSpelling(ps.head)[0].kind.Right? && ProperMore(ps.more)
  }

  predicate ProperMore(ps: MoreParams) {
    ps.More? ==> ps.comma.kind.Comma? && ProperParam(ps.head) && ProperMore(ps.more)
  }

  // ---------- what may follow ----------

  /** Two tokens that begin a declaration. */
  predicate Declares(a: Token, b: Token) { a.kind.KwByte? || (a.kind.Ident? && b.kind.Ident?) }

  /** An optional semicolon is there, or the next token is none. */
  predicate Closed(end: Option<Token>, next: Token) { end.Some? || !next.kind.Semi? }

  /** `next` after the statement is not taken for a part of it. */
  ghost predicate MayPrecede(src: string, s: Stm, next: Token)
    decreases s
  {
    CoreMayPrecede(src, s.core, next)
  }

  ghost predicate CoreMayPrecede(src: string, c: Core, next: Token)
    decreases c
  {
    match c
    case Run(e, semi) =>
      var ts := Spell(e) + (Opt(semi) + [next]);
      Closed(semi, next) && Idle(FirstOf(Opt(semi), next).kind) && |ts| > 1 && !Declares(ts[0], ts[1])
    case If(_, _, _, _, yes, no) => if no.Else? then MayPrecede(src, no.stm, next) else !next.kind.KwElse? && MayPrecede(src, yes, next)
    case While(_, _, _, _, body) => MayPrecede(src, body, next)
    case For(_, _, _, _, _, _, _, body) => MayPrecede(src, body, next)
    case Struct(_, _, members, end) => Closed(end, next) && (members.NoBody? && end.None? ==> !next.kind.BrLeft?)
    case Namespace(_, _, contents) => MayPrecede(src, contents, next)
    case Delete(_, _, _, end) => Closed(end, next) && FirstOf(Opt(end), next).kind !in POSTFIXES
    case Requires(_, _, _, end) => Closed(end, next) && Idle(FirstOf(Opt(end), next).kind)
    case TypeDecl(_, _, base, members, end) =>
      && Closed(end, next) && (members.NoBody? && end.None? ==> !next.kind.BrLeft?)
      && BaseMayPrecede(src, base, FirstOf(BodySpelling(members) + Opt(end), next))
    case _ => true
  }

  ghost predicate BaseMayPrecede(src: string, b: Base, next: Token) {
    if b.NoBase? then !next.kind.Equals? && !next.kind.Colon? && !IsUsing(src, next)
    else if b.sign.kind.Equals? then Idle(next.kind)
    else next.kind !in POSTFIXES
  }

  // ---------- what the nodes stand for ----------

  /** An identifier's node, with the place, length and kind of its token. */
  predicate IsNamed(nodes: seq<AstNode>, id: NodeId, t: Token) {
    id < |nodes| && nodes[id] == AstNode(IdentifierExpr, Qualifiers(false, false, false, false, false), t.offset, t.size, LiteralData(t.kind, 0))
  }

  ghost predicate StandsOpt(nodes: seq<AstNode>, id: NodeId, e: Option<Exp>) {
    if e.None? then id == NullNode else Denotes(nodes, id, e.value)
  }

  ghost predicate StandsInit(nodes: seq<AstNode>, id: NodeId, i: Init) {
    if i.NoInit? then id == NullNode else Denotes(nodes, id, i.value)
  }

  const UNQUALIFIED := Qualifiers(false, false, false, false, false)

  /** What stands for the type where `auto` is written, and for the name of a parameter without one. */
  const AUTO := Token(0, 0, KwAuto)
  const UNNAMED := Token(0, 0, Unknown)

  function Or(t: Option<Token>, default: Token): Token { if t.Some? then t.value else default }

  /** A declaration of `name` with type `typ`: the two links lead to their nodes, and not the other way round. */
  ghost predicate IsDeclared(nodes: seq<AstNode>, id: NodeId, kind: NodeKind, q: Qualifiers, offset: nat, typ: Token, name: Token) {
    id < |nodes| && var n := nodes[id];
    && n.data.VarData? && n == AstNode(kind, q, offset, 0, n.data)
    && IsNamed(nodes, n.data.typeNode, typ) && IsNamed(nodes, n.data.nameNode, name)
  }

  ghost predicate Stands(nodes: seq<AstNode>, id: NodeId, s: Stm)
    decreases s
  {
    CoreStands(nodes, id, s.core, Flags(s.quals))
  }

  /** `q` are the qualifiers before it. */
  ghost predicate CoreStands(nodes: seq<AstNode>, id: NodeId, c: Core, q: Qualifiers)
    decreases c
  {
    if c.Run? then Denotes(nodes, id, c.value)
    else if c.Requires? then Denotes(nodes, id, c.value)
    else
      id < |nodes| && var n := nodes[id]; var d := n.data;
      match c
      case Block(_, body, z) =>
        n == AstNode(TranslationUnitKind, UNQUALIFIED, FirstOf(AllSpelling(body), z).offset, 0, NoData) && AllStand(nodes, body)
      case If(kw, _, e, _, yes, no) =>
        && d.EvalData? && n == AstNode(EvalExpr, UNQUALIFIED, kw.offset, 0, d)
        && Denotes(nodes, d.cond, e) && Stands(nodes, d.thenBlock, yes)
        && (if no.NoElse? then d.elseBlock == NullNode else Stands(nodes, d.elseBlock, no.stm))
      case While(kw, _, e, _, body) =>
        && d.EvalData? && n == AstNode(CompileTimeJump, UNQUALIFIED, kw.offset, 0, d)
        && Denotes(nodes, d.cond, e) && Stands(nodes, d.thenBlock, body) && d.elseBlock == NullNode
      case For(kw, _, init, test, _, step, _, body) =>
        && d.EvalData? && n == AstNode(CompileTimeJump, UNQUALIFIED, kw.offset, 0, d)
        && StandsOpt(nodes, d.cond, test) && Stands(nodes, d.thenBlock, body)
        && (if init.NoFirst? then d.elseBlock == NullNode else Stands(nodes, d.elseBlock, init.stm))
        && exists k :: StandsOpt(nodes, k, step)
      case Return(kw, e, _) =>
        && d.UnaryData? && n == AstNode(UnaryExpr, UNQUALIFIED, kw.offset, 0, UnaryData(KwReturn, d.operand))
        && StandsOpt(nodes, d.operand, e)
      case Jump(kw, _) => n == AstNode(CompileTimeJump, UNQUALIFIED, kw.offset, 0, UnaryData(kw.kind, NullNode))
      case Struct(kw, name, members, _) =>
        && d.NamedData? && n == AstNode(StructDeclKind, UNQUALIFIED, kw.offset, 0, NamedData(name.offset, d.body))
        && (if members.NoBody? then d.body == NullNode else Stands(nodes, d.body, members.stm))
      case Namespace(kw, name, contents) =>
        && d.NamedData? && n == AstNode(NamespaceDeclKind, UNQUALIFIED, kw.offset, 0, NamedData(name.offset, d.body))
        && Stands(nodes, d.body, contents)
      case Delete(kw, auto, e, _) =>
        && d.TargetData? && n == AstNode(DeleteExpr, UNQUALIFIED.(isAuto := auto.Some?), kw.offset, 0, d)
        && Denotes(nodes, d.target, e)
      case TypeDecl(kw, name, base, members, _) =>
        && IsDeclared(nodes, id, TypeDeclKind, q, kw.offset, kw, name)
        && (if members.Body? then Stands(nodes, d.initExpr, members.stm)
            else if base.Base? then Denotes(nodes, d.initExpr, base.value)
            else d.initExpr == NullNode)
        && (base.Base? ==> exists k :: Denotes(nodes, k, base.value))
      case Var(typ, name, init, _) =>
        && IsDeclared(nodes, id, VarDeclKind, q, Or(typ, AUTO).offset, Or(typ, AUTO), name)
        && StandsInit(nodes, d.initExpr, init)
      case Func(typ, name, _, params, _, def) =>
        && IsDeclared(nodes, id, FunctionDeclKind, q, name.offset, Or(typ, AUTO), name) && ParamsStand(nodes, params)
        && (if def.Declared? then d.initExpr == NullNode else Stands(nodes, d.initExpr, def.stm))
  }

  /** Nothing links the statements of a block to it; each has nodes of its own. */
  ghost predicate AllStand(nodes: seq<AstNode>, ss: Stms)
    decreases ss
  {
    ss.NoStms? || ((exists k :: Stands(nodes, k, ss.head)) && AllStand(nodes, ss.tail))
  }

  ghost predicate ParamStands(nodes: seq<AstNode>, id: NodeId, p: Param) {
    && IsDeclared(nodes, id, VarDeclKind, Flags(p.quals), Or(p.typ, AUTO).offset, Or(p.typ, AUTO), Or(p.name, UNNAMED))
    && StandsInit(nodes, nodes[id].data.initExpr, p.init)
  }

  ghost predicate ParamsStand(nodes: seq<AstNode>, ps: Params) {
    ps.NoParams? || ((exists k :: ParamStands(nodes, k, ps.head)) && MoreStand(nodes, ps.more))
  }

  ghost predicate MoreStand(nodes: seq<AstNode>, ps: MoreParams) {
    ps.NoMore? || ((exists k :: ParamStands(nodes, k, ps.head)) && MoreStand(nodes, ps.more))
  }

  // ---------- nodes that are added change nothing ----------

  lemma StillOpt(nodes: seq<AstNode>, later: seq<AstNode>, id: NodeId, e: Option<Exp>)
    requires StandsOpt(nodes, id, e) && nodes <= later
    ensures StandsOpt(later, id, e)
  {
    if e.Some? { StillDenotes(nodes, later, id, e.value); }
  }

  lemma StillInit(nodes: seq<AstNode>, later: seq<AstNode>, id: NodeId, i: Init)
    requires StandsInit(nodes, id, i) && nodes <= later
    ensures StandsInit(later, id, i)
  {
    if i.Init? { StillDenotes(nodes, later, id, i.value); }
  }

  lemma StillDeclared(nodes: seq<AstNode>, later: seq<AstNode>, id: NodeId, kind: NodeKind, q: Qualifiers, offset: nat, typ: Token, name: Token)
    requires IsDeclared(nodes, id, kind, q, offset, typ, name) && nodes <= later
    ensures IsDeclared(later, id, kind, q, offset, typ, name) && later[id] == nodes[id]
  {}

  lemma {:induction false} StillStands(nodes: seq<AstNode>, later: seq<AstNode>, id: NodeId, s: Stm)
    requires Stands(nodes, id, s) && nodes <= later
    ensures Stands(later, id, s)
    decreases s
  {
    hide CoreStands;
    StillCore(nodes, later, id, s.core, Flags(s.quals));
  }

  lemma {:induction false} StillCore(nodes: seq<AstNode>, later: seq<AstNode>, id: NodeId, c: Core, q: Qualifiers)
    requires CoreStands(nodes, id, c, q) && nodes <= later
    ensures CoreStands(later, id, c, q)
    decreases c, 1
  {
    hide Denotes, StandsOpt, StandsInit, IsDeclared, Stands, AllStand, ParamsStand;
    if c.Run? || c.Requires? {
      StillDenotes(nodes, later, id, c.value);
    } else if c.TypeDecl? || c.Var? || c.Func? {
      StillDecl(nodes, later, id, c, q);
    } else {
      var d := nodes[id].data;
      match c
      case Block(_, body, _) => StillAll(nodes, later, body);
      case If(_, _, e, _, yes, no) =>
        StillDenotes(nodes, later, d.cond, e);
        StillStands(nodes, later, d.thenBlock, yes);
        if no.Else? { StillStands(nodes, later, d.elseBlock, no.stm); }
      case While(_, _, e, _, body) =>
        StillDenotes(nodes, later, d.cond, e);
        StillStands(nodes, later, d.thenBlock, body);
      case For(_, _, init, test, _, step, _, body) =>
        StillOpt(nodes, later, d.cond, test);
        StillStands(nodes, later, d.thenBlock, body);
        if init.First? { StillStands(nodes, later, d.elseBlock, init.stm); }
        var k :| StandsOpt(nodes, k, step);
        StillOpt(nodes, later, k, step);
      case Return(_, e, _) => StillOpt(nodes, later, d.operand, e);
      case Jump(_, _) =>
      case Struct(_, _, members, _) => if members.Body? { StillStands(nodes, later, d.body, members.stm); }
      case Namespace(_, _, contents) => StillStands(nodes, later, d.body, contents);
      case Delete(_, _, e, _) => StillDenotes(nodes, later, d.target, e);
    }
  }

  lemma {:induction false} StillDecl(nodes: seq<AstNode>, later: seq<AstNode>, id: NodeId, c: Core, q: Qualifiers)
    requires (c.TypeDecl? || c.Var? || c.Func?) && CoreStands(nodes, id, c, q) && nodes <= later
    ensures CoreStands(later, id, c, q)
    decreases c, 0
  {
    hide Denotes, StandsInit, IsDeclared, Stands, ParamsStand;
    var d := nodes[id].data;
    match c
    case TypeDecl(kw, name, base, members, _) =>
      StillDeclared(nodes, later, id, TypeDeclKind, q, kw.offset, kw, name);
      if members.Body? { StillStands(nodes, later, d.initExpr, members.stm); }
      else if base.Base? { StillDenotes(nodes, later, d.initExpr, base.value); }
      if base.Base? {
        var k :| Denotes(nodes, k, base.value);
        StillDenotes(nodes, later, k, base.value);
      }
    case Var(typ, name, init, _) =>
      StillDeclared(nodes, later, id, VarDeclKind, q, Or(typ, AUTO).offset, Or(typ, AUTO), name);
      StillInit(nodes, later, d.initExpr, init);
    case Func(typ, name, _, params, _, def) =>
      StillDeclared(nodes, later, id, FunctionDeclKind, q, name.offset, Or(typ, AUTO), name);
      StillParams(nodes, later, params);
      if def.Defined? { StillStands(nodes, later, d.initExpr, def.stm); }
  }

  lemma {:induction false} StillAll(nodes: seq<AstNode>, later: seq<AstNode>, ss: Stms)
    requires AllStand(nodes, ss) && nodes <= later
    ensures AllStand(later, ss)
    decreases ss
  {
    hide Stands;
    if ss.Stms? {
      var k :| Stands(nodes, k, ss.head);
      StillStands(nodes, later, k, ss.head);
      StillAll(nodes, later, ss.tail);
    }
  }

  lemma StillParam(nodes: seq<AstNode>, later: seq<AstNode>, id: NodeId, p: Param)
    requires ParamStands(nodes, id, p) && nodes <= later
    ensures ParamStands(later, id, p)
  {
    hide StandsInit, Flags, IsNamed;
    StillDeclared(nodes, later, id, VarDeclKind, Flags(p.quals), Or(p.typ, AUTO).offset, Or(p.typ, AUTO), Or(p.name, UNNAMED));
    StillInit(nodes, later, nodes[id].data.initExpr, p.init);
  }

  lemma StillParams(nodes: seq<AstNode>, later: seq<AstNode>, ps: Params)
    requires ParamsStand(nodes, ps) && nodes <= later
    ensures ParamsStand(later, ps)
  {
    hide ParamStands, MoreStand;
    if ps.Params? {
      var k :| ParamStands(nodes, k, ps.head);
      StillParam(nodes, later, k, ps.head);
      StillMore(nodes, later, ps.more);
    }
  }

  lemma {:induction false} StillMore(nodes: seq<AstNode>, later: seq<AstNode>, ps: MoreParams)
    requires MoreStand(nodes, ps) && nodes <= later
    ensures MoreStand(later, ps)
    decreases ps
  {
    hide ParamStands;
    if ps.More? {
      var k :| ParamStands(nodes, k, ps.head);
      StillParam(nodes, later, k, ps.head);
      StillMore(nodes, later, ps.more);
    }
  }
}
