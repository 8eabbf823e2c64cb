/** Nodes of the syntax-tree arena and the forest property of their links. */
module Arena {
  import opened Tokens
  import opened Symbols

  type NodeId = nat
  const NullNode: NodeId := 0xFFFF_FFFF

  datatype NodeKind =
    | TranslationUnitKind | VarDeclKind | TypeDeclKind | StructDeclKind | NamespaceDeclKind | FunctionDeclKind
    | BinaryExpr | UnaryExpr | LiteralExpr | IdentifierExpr | CallExpr | MemberAccessExpr | EvalExpr
    | DeleteExpr | CastExpr | CompileTimeJump

  /** `NamedData` holds a source offset, not a link, in its first field. */
  datatype Payload =
    | NoData
    | BinaryData(op: TokenType, lhs: NodeId, rhs: NodeId)
    | UnaryData(op: TokenType, operand: NodeId)
    | LiteralData(kind: TokenType, tokenIndex: nat)
    | VarData(typeNode: NodeId, nameNode: NodeId, initExpr: NodeId)
    | CallData(target: NodeId, argsList: NodeId)
    | NamedData(nameOffset: nat, body: NodeId)
    | TargetData(target: NodeId)
    | EvalData(cond: NodeId, thenBlock: NodeId, elseBlock: NodeId)

  datatype AstNode = AstNode(kind: NodeKind, quals: Qualifiers, offset: nat, length: nat, data: Payload)

  /** `x` and `y` are the same link, not two absent ones. */
  predicate Same(x: NodeId, y: NodeId) { x == y && x != NullNode }

  predicate LinksTo(n: AstNode, l: NodeId) {
    l != NullNode &&
    match n.data
    case BinaryData(_, x, y) => l == x || l == y
    case UnaryData(_, x) => l == x
    case VarData(x, y, z) => l == x || l == y || l == z
    case CallData(x, y) => l == x || l == y
    case NamedData(_, x) => l == x
    case TargetData(x) => l == x
    case EvalData(x, y, z) => l == x || l == y || l == z
    case _ => false
  }

  /** The node links to no other node twice. */
  predicate Distinct(n: AstNode) {
    match n.data
    case BinaryData(_, x, y) => !Same(x, y)
    case VarData(x, y, z) => !Same(x, y) && !Same(x, z) && !Same(y, z)
    case CallData(x, y) => !Same(x, y)
    case EvalData(x, y, z) => !Same(x, y) && !Same(x, z) && !Same(y, z)
    case _ => true
  }

  predicate IsLeaf(n: AstNode) { n.data.NoData? || n.data.LiteralData? }

  /** Variable and type declarations are created before the two names they own. */
  predicate IsForward(n: AstNode) { n.kind == VarDeclKind || n.kind == TypeDeclKind }

  /** Links go to older nodes, except from a declaration to its two leaf names just after it. */
  ghost predicate LinkOk(nodes: seq<AstNode>, k: nat, l: NodeId)
    requires k < |nodes|
  {
    l < k || (IsForward(nodes[k]) && k < l <= k + 2 && l < |nodes| && IsLeaf(nodes[l]))
  }

  ghost predicate Orphan(nodes: seq<AstNode>, l: NodeId) {
    forall k :: 0 <= k < |nodes| ==> !LinksTo(nodes[k], l)
  }

  /** Every link is in bounds and no node has two parents or two links from one parent. */
  ghost predicate Forest(nodes: seq<AstNode>) {
    && (forall k, l :: 0 <= k < |nodes| && LinksTo(nodes[k], l) ==> LinkOk(nodes, k, l))
    && (forall k :: 0 <= k < |nodes| ==> Distinct(nodes[k]))
    && (forall k, k', l :: 0 <= k < |nodes| && 0 <= k' < |nodes| && LinksTo(nodes[k], l) && LinksTo(nodes[k'], l) ==> k == k')
  }

  /** `path` follows links from parent to child. */
  ghost predicate Path(nodes: seq<AstNode>, path: seq<NodeId>) {
    && |path| > 0
    && (forall j :: 0 <= j < |path| ==> path[j] < |nodes|)
    && (forall j :: 0 < j < |path| ==> LinksTo(nodes[path[j - 1]], path[j]))
  }

  lemma {:induction false} PathDescends(nodes: seq<AstNode>, path: seq<NodeId>)
    requires Forest(nodes) && Path(nodes, path)
    ensures |path| > 1 ==>
      path[|path| - 1] < path[0] || (IsLeaf(nodes[path[|path| - 1]]) && !IsLeaf(nodes[path[0]]))
    decreases |path|
  {
    if |path| > 1 {
      var last := |path| - 1;
      assert LinkOk(nodes, path[last - 1], path[last]);
      if |path| > 2 {
        var init := path[..last];
        assert forall j :: 0 < j < |init| ==> LinksTo(nodes[init[j - 1]], init[j]);
        PathDescends(nodes, init);
        assert LinksTo(nodes[path[0]], path[1]);
      }
    }
  }

  /** Following links never returns to where it started. */
  lemma Acyclic(nodes: seq<AstNode>, path: seq<NodeId>)
    requires Forest(nodes) && Path(nodes, path) && |path| > 1
    ensures path[0] != path[|path| - 1]
  {
    PathDescends(nodes, path);
  }

  /** `after` extends `before`, and its new nodes link only to new nodes or to `inh`. */
  ghost predicate Grown(before: seq<AstNode>, after: seq<AstNode>, inh: NodeId) {
    && before <= after
    && Forest(after)
    && (forall k, l :: |before| <= k < |after| && LinksTo(after[k], l) ==> |before| <= l || l == inh)
  }

  lemma GrownStillOrphan(a: seq<AstNode>, b: seq<AstNode>, inh: NodeId, l: NodeId)
    requires Grown(a, b, inh) && Orphan(a, l) && l < |a| && l != inh
    ensures Orphan(b, l)
  {
    forall k | 0 <= k < |b| ensures !LinksTo(b[k], l) {
      if k < |a| { assert b[k] == a[k]; }
    }
  }

  lemma GrownTrans(a: seq<AstNode>, b: seq<AstNode>, c: seq<AstNode>, x: NodeId, y: NodeId)
    requires Grown(a, b, x) && Grown(b, c, y) && (y == x || y == NullNode || |a| <= y)
    ensures Grown(a, c, x)
  {
    forall k, l | |a| <= k < |c| && LinksTo(c[k], l) ensures |a| <= l || l == x {
      if k < |b| { assert c[k] == b[k]; }
    }
  }

  /** Appending a node whose links are distinct, in bounds and to orphans keeps the forest. */
  lemma AddNode(nodes: seq<AstNode>, n: AstNode)
    requires Forest(nodes) && Distinct(n)
    requires forall l: NodeId :: LinksTo(n, l) ==> l < |nodes| && Orphan(nodes, l)
    ensures Forest(nodes + [n]) && Orphan(nodes + [n], |nodes|)
  {
    var r := nodes + [n];
    forall k, l | 0 <= k < |r| && LinksTo(r[k], l) ensures LinkOk(r, k, l) {
      if k < |nodes| { assert LinkOk(nodes, k, l); }
    }
  }

  /** Appending a declaration with its two names. */
  lemma AddDecl(nodes: seq<AstNode>, n: AstNode, t: AstNode, m: AstNode)
    requires Forest(nodes) && IsForward(n) && IsLeaf(t) && IsLeaf(m)
    requires n.data.VarData? && n.data.typeNode == |nodes| + 1 && n.data.nameNode == |nodes| + 2
    requires var l := n.data.initExpr; l != NullNode ==> l < |nodes| && Orphan(nodes, l)
    ensures Forest(nodes + [n, t, m]) && Orphan(nodes + [n, t, m], |nodes|)
  {
    var r := nodes + [n, t, m];
    forall k, l | 0 <= k < |r| && LinksTo(r[k], l) ensures LinkOk(r, k, l) && l != |nodes| {
      if k < |nodes| { assert LinkOk(nodes, k, l); }
    }
    forall k, k', l | 0 <= k < |r| && 0 <= k' < |r| && LinksTo(r[k], l) && LinksTo(r[k'], l) ensures k == k' {
      if k < |nodes| { assert LinkOk(nodes, k, l); }
      if k' < |nodes| { assert LinkOk(nodes, k', l); }
    }
  }
}
