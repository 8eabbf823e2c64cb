/**
 What the parser leaves in the arena, as a function of the derivation it read.
 `Emit` appends the nodes of a derivation and gives the id that stands for it. `inh` is
 the id of the expression parsed so far, which operators and postfixes extend.
 */
module Emission {
  import opened Tokens
  import opened Symbols
  import opened Engine
  import opened Productions
  import opened Arena

  /** Arena, current expression and the ids of the parts read so far. */
  datatype Walked = Walked(nodes: seq<AstNode>, inh: NodeId, ids: seq<NodeId>)

  function Emit(nodes: seq<AstNode>, t: Tree, inh: NodeId): (seq<AstNode>, NodeId)
    decreases t, 1
  {
    match t
    case Leaf(_) => (nodes, NullNode)
    case Node(n, look, look2, after, kids) =>
      var w := Walk(nodes, inh, kids);
      var act := Act(n, look, look2, after, w.ids, inh, |w.nodes|);
      (w.nodes + act.0, act.1)
  }

  function Walk(nodes: seq<AstNode>, inh: NodeId, kids: seq<Tree>): Walked
    decreases kids, 0
  {
    if kids == [] then Walked(nodes, inh, [])
    else
      var last := |kids| - 1;
      var w := Walk(nodes, inh, kids[..last]);
      if kids[last].Leaf? then w
      else
        var e := Emit(w.nodes, kids[last], InhFor(kids[last].nt, w.inh));
        Walked(e.0, e.1, w.ids + [e.1])
  }

  /** Parts that extend the expression to their left; only they are given its id. */
  predicate Extends(n: NT) { n.Tail? || n.BinStep? || n.Postfixes? || n.PostfixStep? }

  function InhFor(n: NT, inh: NodeId): NodeId { if Extends(n) then inh else NullNode }

  function First(ids: seq<NodeId>): NodeId { if ids == [] then NullNode else ids[0] }
  function Nth(ids: seq<NodeId>, k: nat): NodeId { if k < |ids| then ids[k] else NullNode }
  function Last(ids: seq<NodeId>, default: NodeId): NodeId { if ids == [] then default else ids[|ids| - 1] }

  function Plain(kind: NodeKind, offset: nat, data: Payload): AstNode {
    AstNode(kind, NoQuals, offset, 0, data)
  }

  function Name(t: Token): AstNode {
    AstNode(IdentifierExpr, NoQuals, t.offset, t.size, LiteralData(t.kind, 0))
  }

  function Decl(kind: NodeKind, q: Qualifiers, typ: Token, name: Token, init: NodeId, base: nat): seq<AstNode> {
    [AstNode(kind, q, typ.offset, 0, VarData(base + 1, base + 2, init)), Name(typ), Name(name)]
  }

  /** Stands for the name of an unnamed parameter. */
  const NoName := Token(0, 0, Unknown)

  /** The nodes appended when production `n` is complete, and the id it stands for. */
  function Act(n: NT, look: Token, look2: Token, after: Token, ids: seq<NodeId>, inh: NodeId, base: nat)
    : (seq<AstNode>, NodeId)
  {
    match n
    case OpenUnit => ([Plain(TranslationUnitKind, 0, NoData)], base)
    case OpenBlock => ([Plain(TranslationUnitKind, look.offset, NoData)], base)
    case Branch(_) => ([Plain(EvalExpr, look.offset, EvalData(Nth(ids, 0), Nth(ids, 1), Nth(ids, 2)))], base)
    case While => ([Plain(CompileTimeJump, look.offset, EvalData(Nth(ids, 0), Nth(ids, 1), NullNode))], base)
    case For => ([Plain(CompileTimeJump, look.offset, EvalData(Nth(ids, 1), Nth(ids, 3), Nth(ids, 0)))], base)
    case Return => ([Plain(UnaryExpr, look.offset, UnaryData(KwReturn, Nth(ids, 0)))], base)
    case Stmt(_) =>
      if look.kind.KwBreak? || look.kind.KwContinue? then
        ([Plain(CompileTimeJump, look.offset, UnaryData(look.kind, NullNode))], base)
      else ([], First(ids))
    case Struct => ([Plain(StructDeclKind, look.offset, NamedData(look2.offset, Nth(ids, 0)))], base)
    case Namespace => ([Plain(NamespaceDeclKind, look.offset, NamedData(look2.offset, Nth(ids, 0)))], base)
    case Delete =>
      ([AstNode(DeleteExpr, NoQuals.(isAuto := look2.kind.KwAuto?), look.offset, 0, TargetData(Nth(ids, 1)))], base)
    case TypeDecl(q) =>
      var init := if Nth(ids, 1) != NullNode then Nth(ids, 1) else Nth(ids, 0);
      (Decl(TypeDeclKind, q, look, look2, init, base), base)
    case DeclRest(q, typ, name) =>
      if look.kind.Left? then ([], First(ids)) else (Decl(VarDeclKind, q, typ, name, Nth(ids, 0), base), base)
    case Param(q) =>
      if IsQualifier(look.kind) then ([], First(ids))
      else if q.isAuto then (Decl(VarDeclKind, q, AutoType, look, Nth(ids, 0), base), base)
      else
        (Decl(VarDeclKind, q, look, if look2.kind.Ident? then look2 else NoName, Nth(ids, 0), base), base)
    case Func(q, typ, name) =>
      ([Name(typ), Name(name), AstNode(FunctionDeclKind, q, name.offset, 0, VarData(base, base + 1, Nth(ids, 1)))], base + 2)
    case BinStep => ([Plain(BinaryExpr, look.offset, BinaryData(look.kind, inh, Nth(ids, 0)))], base)
    case Operand => OperandAct(look, look2, after, ids, base)
    case PostfixStep => PostfixAct(look, look2, after, ids, inh, base)
    case Expr(_) | Primary => ([], Last(ids, NullNode))
    case Tail(_) | Postfixes => ([], Last(ids, inh))
    case Stmts | TopStmts | MoreArgs | MoreParams => ([], NullNode)
    case _ => ([], First(ids))
  }

  function OperandAct(look: Token, look2: Token, after: Token, ids: seq<NodeId>, base: nat): (seq<AstNode>, NodeId) {
    var k := look.kind;
    if IsPrefixOp(k) then ([AstNode(UnaryExpr, NoQuals, look.offset, look.size, UnaryData(k, Nth(ids, 0)))], base)
    else if IsLiteral(k) then ([AstNode(LiteralExpr, NoQuals, look.offset, look.size, LiteralData(k, 0))], base)
    else if IsName(k) then ([Name(look)], base)
    else if k.Left? && look2.kind.KwDelete? then ([Plain(CastExpr, after.offset, TargetData(Nth(ids, 0)))], base)
    else ([], First(ids))
  }

  function PostfixAct(look: Token, look2: Token, after: Token, ids: seq<NodeId>, inh: NodeId, base: nat)
    : (seq<AstNode>, NodeId)
  {
    var k := look.kind;
    if k.Left? then ([Plain(CallExpr, after.offset, CallData(inh, Nth(ids, 0)))], base)
    else if k.Dot? || k.Arrow? then
      ([Name(look2), Plain(MemberAccessExpr, look.offset, BinaryData(k, inh, base))], base + 1)
    else if k.SqLeft? then ([Plain(BinaryExpr, after.offset, BinaryData(SqLeft, inh, Nth(ids, 0)))], base)
    else ([Plain(UnaryExpr, look.offset, UnaryData(k, inh))], base)
  }

  // ---------- the arena is always a forest ----------

  predicate Plainly(rhs: seq<Sym>) {
    forall k :: 0 <= k < |rhs| && rhs[k].N? ==> !Extends(rhs[k].nt)
  }

  /** Extending parts occur only after the expression they extend. */
  predicate Shape(n: NT, rhs: seq<Sym>) {
    match n
    case Expr(m) => rhs == [N(Primary), N(Tail(m))]
    case Primary => rhs == [N(Operand), N(Postfixes)]
    case Tail(m) => rhs == [] || rhs == [N(BinStep), N(Tail(m))]
    case Postfixes => rhs == [] || rhs == [N(PostfixStep), N(Postfixes)]
    case _ => Plainly(rhs)
  }

  lemma StmtPlainly(q: Qualifiers, a: Token, b: Token)
    ensures Plainly(StmtRhs(q, a, b))
  {}

  lemma OperandPlainly(k: TokenType, k1: TokenType)
    requires OperandRhs(k, k1).Some?
    ensures Plainly(OperandRhs(k, k1).value)
  {}

  lemma PostfixStepPlainly(k: TokenType)
    requires PostfixStepRhs(k).Some?
    ensures Plainly(PostfixStepRhs(k).value)
  {}

  lemma ExprShape(n: NT, k: TokenType, k1: TokenType)
    requires ExprRhs(n, k, k1).Some?
    ensures Shape(n, ExprRhs(n, k, k1).value)
  {
    match n
    case Operand => OperandPlainly(k, k1);
    case PostfixStep => PostfixStepPlainly(k);
    case BinStep => assert Plainly(BinStepRhs(k, Precedence(k)).value);
    case _ =>
  }

  lemma OtherPlainly(src: string, n: NT, a: Token, b: Token)
    requires !n.Stmt? && ExprRhs(n, a.kind, b.kind).None? && Rhs(src, n, a, b).Some?
    ensures Plainly(Rhs(src, n, a, b).value)
  {}

  lemma RhsShape(src: string, n: NT, a: Token, b: Token)
    requires Rhs(src, n, a, b).Some?
    ensures Shape(n, Rhs(src, n, a, b).value)
  {
    hide Plainly;
    if n.Stmt? { StmtPlainly(n.quals, a, b); }
    else if ExprRhs(n, a.kind, b.kind).Some? { ExprShape(n, a.kind, b.kind); }
    else { OtherPlainly(src, n, a, b); }
  }

  ghost predicate Usable(nodes: seq<AstNode>, l: NodeId) {
    l != NullNode ==> l < |nodes| && Orphan(nodes, l)
  }

  /** `ids` are fresh, distinct and parentless. */
  ghost predicate Free(before: seq<AstNode>, w: Walked) {
    && (forall k :: 0 <= k < |w.ids| && w.ids[k] != NullNode ==> |before| <= w.ids[k] < |w.nodes| && Orphan(w.nodes, w.ids[k]))
    && (forall j, k :: 0 <= j < k < |w.ids| ==> !Same(w.ids[j], w.ids[k]))
  }

  ghost predicate EmitOk(nodes: seq<AstNode>, n: NT, inh: NodeId, r: (seq<AstNode>, NodeId)) {
    && Grown(nodes, r.0, InhFor(n, inh))
    && Usable(r.0, r.1)
    && (r.1 != NullNode ==> |nodes| <= r.1 || (Extends(n) && r.1 == inh))
  }

  /** The productions of `t` come from the table, whatever follows them. */
  predicate Shaped(src: string, s: Sym, t: Tree)
    decreases t
  {
    match s
    case T(k) => t.Leaf?
    case N(n) =>
      && t.Node? && t.nt == n
      && var rhs := Rhs(src, n, t.look, t.look2);
         rhs.Some? && |rhs.value| == |t.kids| && forall k :: 0 <= k < |t.kids| ==> Shaped(src, rhs.value[k], t.kids[k])
  }

  lemma {:induction false} LegalShaped(src: string, s: Sym, t: Tree, a: Token, b: Token)
    requires Legal(Lgc, src, s, t, a, b)
    ensures Shaped(src, s, t)
    decreases t, 1
  {
    if s.N? { LegalAllShaped(src, Rhs(src, s.nt, t.look, t.look2).value, t.kids, a, b); }
  }

  lemma {:induction false} LegalAllShaped(src: string, rhs: seq<Sym>, ts: seq<Tree>, a: Token, b: Token)
    requires LegalAll(Lgc, src, rhs, ts, a, b)
    ensures |rhs| == |ts| && forall k :: 0 <= k < |ts| ==> Shaped(src, rhs[k], ts[k])
    decreases ts, 0
  {
    if ts != [] {
      var (c, d) := Ahead(Yields(ts[1..]), a, b);
      LegalShaped(src, rhs[0], ts[0], c, d);
      LegalAllShaped(src, rhs[1..], ts[1..], a, b);
      forall k | 0 <= k < |ts| ensures Shaped(src, rhs[k], ts[k]) {
        if k > 0 { assert rhs[k] == rhs[1..][k - 1] && ts[k] == ts[1..][k - 1]; }
      }
    }
  }

  lemma {:induction false} EmitForest(src: string, nodes: seq<AstNode>, n: NT, t: Tree, inh: NodeId)
    requires Shaped(src, N(n), t) && Forest(nodes) && (Extends(n) ==> Usable(nodes, inh))
    ensures EmitOk(nodes, n, inh, Emit(nodes, t, inh))
    decreases t, 1
  {
    hide Act;
    var rhs := Rhs(src, n, t.look, t.look2).value;
    RhsShape(src, n, t.look, t.look2);
    if Chains(n) {
      ChainForest(src, nodes, n, rhs, t.kids, inh);
      ChainAct(n, t.look, t.look2, t.after, Walk(nodes, inh, t.kids), inh);
    } else {
      WalkForest(src, nodes, rhs, t.kids, inh);
      ActForest(nodes, Walk(nodes, inh, t.kids), n, t.look, t.look2, t.after, inh);
    }
  }

  lemma ChainAct(n: NT, look: Token, look2: Token, after: Token, w: Walked, inh: NodeId)
    requires Chains(n)
    ensures var act := Act(n, look, look2, after, w.ids, inh, |w.nodes|);
      w.nodes + act.0 == w.nodes && act.1 == Last(w.ids, InhFor(n, inh))
  {}

  predicate Chains(n: NT) { n.Expr? || n.Primary? || n.Tail? || n.Postfixes? }

  /** Parts that extend nothing leave their ids free. */
  lemma {:induction false} WalkForest(src: string, nodes: seq<AstNode>, rhs: seq<Sym>, kids: seq<Tree>, inh: NodeId)
    requires |rhs| == |kids| && Plainly(rhs) && Forest(nodes)
    requires forall k :: 0 <= k < |kids| ==> Shaped(src, rhs[k], kids[k])
    ensures var w := Walk(nodes, inh, kids); Grown(nodes, w.nodes, NullNode) && Free(nodes, w)
    decreases kids, 0
  {
    hide Rhs, Act;
    if kids != [] {
      var last := |kids| - 1;
      WalkForest(src, nodes, rhs[..last], kids[..last], inh);
      var w := Walk(nodes, inh, kids[..last]);
      if kids[last].Node? {
        EmitForest(src, w.nodes, rhs[last].nt, kids[last], NullNode);
        var e := Emit(w.nodes, kids[last], NullNode);
        StillFree(nodes, w, e, rhs[last].nt);
      }
    }
  }

  lemma StillFree(nodes: seq<AstNode>, w: Walked, e: (seq<AstNode>, NodeId), n: NT)
    requires Grown(nodes, w.nodes, NullNode) && Free(nodes, w)
    requires !Extends(n) && EmitOk(w.nodes, n, NullNode, e)
    ensures Grown(nodes, e.0, NullNode) && Free(nodes, Walked(e.0, e.1, w.ids + [e.1]))
  {
    GrownTrans(nodes, w.nodes, e.0, NullNode, NullNode);
    forall k | 0 <= k < |w.ids| && w.ids[k] != NullNode ensures Orphan(e.0, w.ids[k]) {
      GrownStillOrphan(w.nodes, e.0, NullNode, w.ids[k]);
    }
  }

  /** A first part followed by one that extends it. */
  lemma {:induction false} ChainForest(src: string, nodes: seq<AstNode>, n: NT, rhs: seq<Sym>, kids: seq<Tree>, inh: NodeId)
    requires Chains(n) && Shape(n, rhs) && |rhs| == |kids| && Forest(nodes) && (Extends(n) ==> Usable(nodes, inh))
    requires forall k :: 0 <= k < |kids| ==> Shaped(src, rhs[k], kids[k])
    ensures var w := Walk(nodes, inh, kids); EmitOk(nodes, n, inh, (w.nodes, Last(w.ids, InhFor(n, inh))))
    decreases kids, 0
  {
    hide Rhs, Act;
    if kids != [] {
      assert kids == [kids[0], kids[1]];
      assert Shaped(src, rhs[0], kids[0]) && Shaped(src, rhs[1], kids[1]);
      var inh0 := InhFor(rhs[0].nt, inh);
      EmitForest(src, nodes, rhs[0].nt, kids[0], inh0);
      var e := Emit(nodes, kids[0], inh0);
      EmitForest(src, e.0, rhs[1].nt, kids[1], e.1);
      var f := Emit(e.0, kids[1], e.1);
      WalkTwo(nodes, inh, kids[0], kids[1]);
      GrownTrans(nodes, e.0, f.0, InhFor(n, inh), e.1);
    }
  }

  lemma WalkNext(nodes: seq<AstNode>, inh: NodeId, kids: seq<Tree>, t: Tree)
    requires t.Node?
    ensures var w := Walk(nodes, inh, kids); var e := Emit(w.nodes, t, InhFor(t.nt, w.inh));
      Walk(nodes, inh, kids + [t]) == Walked(e.0, e.1, w.ids + [e.1])
  {
    assert (kids + [t])[..|kids|] == kids;
  }

  lemma WalkTwo(nodes: seq<AstNode>, inh: NodeId, t: Tree, u: Tree)
    requires t.Node? && u.Node? && Extends(u.nt)
    ensures var e := Emit(nodes, t, InhFor(t.nt, inh)); var f := Emit(e.0, u, e.1);
      Walk(nodes, inh, [t, u]) == Walked(f.0, f.1, [e.1, f.1])
  {
    WalkNext(nodes, inh, [], t);
    WalkNext(nodes, inh, [t], u);
    assert [] + [t] == [t] && [t] + [u] == [t, u];
  }

  /** `n` links only to free ids and, where allowed, to the expression being extended. */
  ghost predicate Uses(n: AstNode, ids: seq<NodeId>, more: bool, inh: NodeId) {
    forall l: NodeId :: LinksTo(n, l) ==> l in ids || (more && l == inh)
  }

  lemma UsableLater(nodes: seq<AstNode>, w: Walked, n: NT, inh: NodeId, l: NodeId)
    requires Forest(nodes) && (Extends(n) ==> Usable(nodes, inh))
    requires Grown(nodes, w.nodes, NullNode) && Free(nodes, w)
    requires l in w.ids || (Extends(n) && l == inh)
    ensures Usable(w.nodes, l)
  {
    if l != NullNode && l !in w.ids { GrownStillOrphan(nodes, w.nodes, NullNode, l); }
  }

  lemma AddOne(nodes: seq<AstNode>, w: Walked, n: NT, inh: NodeId, x: AstNode)
    requires Forest(nodes) && (Extends(n) ==> Usable(nodes, inh))
    requires Grown(nodes, w.nodes, NullNode) && Free(nodes, w)
    requires Distinct(x) && Uses(x, w.ids, Extends(n), inh)
    ensures EmitOk(nodes, n, inh, (w.nodes + [x], |w.nodes|))
  {
    forall l: NodeId | LinksTo(x, l) ensures l < |w.nodes| && Orphan(w.nodes, l) {
      UsableLater(nodes, w, n, inh, l);
    }
    AddNode(w.nodes, x);
  }

  lemma AddThree(nodes: seq<AstNode>, w: Walked, n: NT, kind: NodeKind, q: Qualifiers, typ: Token, name: Token, init: NodeId, inh: NodeId)
    requires Forest(nodes) && Grown(nodes, w.nodes, NullNode) && Free(nodes, w) && !Extends(n)
    requires (kind == VarDeclKind || kind == TypeDeclKind) && (init == NullNode || init in w.ids)
    ensures EmitOk(nodes, n, inh, (w.nodes + Decl(kind, q, typ, name, init, |w.nodes|), |w.nodes|))
  {
    var d := Decl(kind, q, typ, name, init, |w.nodes|);
    if init != NullNode { UsableLater(nodes, w, n, NullNode, init); }
    AddDecl(w.nodes, d[0], d[1], d[2]);
    assert d == [d[0], d[1], d[2]];
  }

  /** A leaf and then a node that may link to it. */
  lemma AddLeaf(nodes: seq<AstNode>, w: Walked, n: NT, inh: NodeId, leaf: AstNode)
    returns (w': Walked)
    requires Forest(nodes) && (Extends(n) ==> Usable(nodes, inh))
    requires Grown(nodes, w.nodes, NullNode) && Free(nodes, w) && IsLeaf(leaf)
    ensures w' == Walked(w.nodes + [leaf], w.inh, w.ids + [|w.nodes|])
    ensures Grown(nodes, w'.nodes, NullNode) && Free(nodes, w')
  {
    w' := Walked(w.nodes + [leaf], w.inh, w.ids + [|w.nodes|]);
    AddNode(w.nodes, leaf);
  }

  /** Completing a production links each free id at most once. */
  lemma ActForest(nodes: seq<AstNode>, w: Walked, n: NT, look: Token, look2: Token, after: Token, inh: NodeId)
    requires !Chains(n) && Forest(nodes) && (Extends(n) ==> Usable(nodes, inh))
    requires Grown(nodes, w.nodes, NullNode) && Free(nodes, w)
    ensures var act := Act(n, look, look2, after, w.ids, inh, |w.nodes|);
      EmitOk(nodes, n, inh, (w.nodes + act.0, act.1))
  {
    var act := Act(n, look, look2, after, w.ids, inh, |w.nodes|);
    hide EmitOk, Grown, Free, Forest;
    if n.PostfixStep? { PostfixForest(nodes, w, look, look2, after, inh); }
    else if n.Func? { AddFunc(nodes, w, n, look, look2, after, inh); }
    else if n.TypeDecl? || n.DeclRest? || n.Param? { DeclForest(nodes, w, n, look, look2, after, inh); }
    else { OtherActForest(nodes, w, n, look, look2, after, inh); }
  }

  lemma AddFunc(nodes: seq<AstNode>, w: Walked, n: NT, look: Token, look2: Token, after: Token, inh: NodeId)
    requires n.Func? && Forest(nodes) && Grown(nodes, w.nodes, NullNode) && Free(nodes, w)
    ensures var act := Act(n, look, look2, after, w.ids, inh, |w.nodes|);
      EmitOk(nodes, n, inh, (w.nodes + act.0, act.1))
  {
    var act := Act(n, look, look2, after, w.ids, inh, |w.nodes|);
    var v := AddLeaf(nodes, w, n, inh, act.0[0]);
    v := AddLeaf(nodes, v, n, inh, act.0[1]);
    AddOne(nodes, v, n, inh, act.0[2]);
    assert w.nodes + act.0 == v.nodes + [act.0[2]];
  }

  lemma DeclForest(nodes: seq<AstNode>, w: Walked, n: NT, look: Token, look2: Token, after: Token, inh: NodeId)
    requires n.TypeDecl? || n.DeclRest? || n.Param?
    requires Forest(nodes) && Grown(nodes, w.nodes, NullNode) && Free(nodes, w)
    ensures var act := Act(n, look, look2, after, w.ids, inh, |w.nodes|);
      EmitOk(nodes, n, inh, (w.nodes + act.0, act.1))
  {
    hide EmitOk, Grown, Free, Forest;
    if n.TypeDecl? {
      var init := if Nth(w.ids, 1) != NullNode then Nth(w.ids, 1) else Nth(w.ids, 0);
      AddThree(nodes, w, n, TypeDeclKind, n.quals, look, look2, init, inh);
    } else if n.DeclRest? && look.kind != Left {
      AddThree(nodes, w, n, VarDeclKind, n.quals, n.typ, n.name, Nth(w.ids, 0), inh);
    } else if n.Param? && !IsQualifier(look.kind) {
      AddParam(nodes, w, n.quals, look, look2, after, inh);
    } else {
      KeepFirst(nodes, w, n, inh);
    }
  }

  lemma AddParam(nodes: seq<AstNode>, w: Walked, q: Qualifiers, look: Token, look2: Token, after: Token, inh: NodeId)
    requires Forest(nodes) && Grown(nodes, w.nodes, NullNode) && Free(nodes, w) && !IsQualifier(look.kind)
    ensures var act := Act(Param(q), look, look2, after, w.ids, inh, |w.nodes|);
      EmitOk(nodes, Param(q), inh, (w.nodes + act.0, act.1))
  {
    hide EmitOk, Grown, Free, Forest;
    var typ := if q.isAuto then AutoType else look;
    var name := if q.isAuto then look else if look2.kind.Ident? then look2 else NoName;
    AddThree(nodes, w, Param(q), VarDeclKind, q, typ, name, Nth(w.ids, 0), inh);
  }

  /** A production without nodes of its own stands for its first part. */
  lemma KeepFirst(nodes: seq<AstNode>, w: Walked, n: NT, inh: NodeId)
    requires Grown(nodes, w.nodes, NullNode) && Free(nodes, w)
    ensures EmitOk(nodes, n, inh, (w.nodes + [], First(w.ids)))
  {
    assert w.nodes + [] == w.nodes;
  }

  /** Repeated parts stand for nothing. */
  lemma KeepNone(nodes: seq<AstNode>, w: Walked, n: NT, inh: NodeId)
    requires Grown(nodes, w.nodes, NullNode)
    ensures EmitOk(nodes, n, inh, (w.nodes + [], NullNode))
  {
    assert w.nodes + [] == w.nodes;
  }

  lemma PostfixForest(nodes: seq<AstNode>, w: Walked, look: Token, look2: Token, after: Token, inh: NodeId)
    requires Forest(nodes) && Usable(nodes, inh) && Grown(nodes, w.nodes, NullNode) && Free(nodes, w)
    ensures var act := PostfixAct(look, look2, after, w.ids, inh, |w.nodes|);
      EmitOk(nodes, PostfixStep, inh, (w.nodes + act.0, act.1))
  {
    var act := PostfixAct(look, look2, after, w.ids, inh, |w.nodes|);
    if |act.0| == 1 {
      AddOne(nodes, w, PostfixStep, inh, act.0[0]);
      assert act.0 == [act.0[0]];
    } else {
      var v := AddLeaf(nodes, w, PostfixStep, inh, act.0[0]);
      AddOne(nodes, v, PostfixStep, inh, act.0[1]);
      assert w.nodes + act.0 == v.nodes + [act.0[1]];
    }
  }

  lemma OtherActForest(nodes: seq<AstNode>, w: Walked, n: NT, look: Token, look2: Token, after: Token, inh: NodeId)
    requires !Chains(n) && !n.PostfixStep? && !n.Func? && !n.TypeDecl? && !n.DeclRest? && !n.Param?
    requires Forest(nodes) && (Extends(n) ==> Usable(nodes, inh))
    requires Grown(nodes, w.nodes, NullNode) && Free(nodes, w)
    ensures var act := Act(n, look, look2, after, w.ids, inh, |w.nodes|);
      EmitOk(nodes, n, inh, (w.nodes + act.0, act.1))
  {
    hide EmitOk, Grown, Forest;
    var act := Act(n, look, look2, after, w.ids, inh, |w.nodes|);
    if act.0 == [] {
      if act.1 == First(w.ids) { KeepFirst(nodes, w, n, inh); } else { KeepNone(nodes, w, n, inh); }
    } else {
      assert act.0 == [act.0[0]];
      AddOne(nodes, w, n, inh, act.0[0]);
    }
  }
}
