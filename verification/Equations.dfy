/**
 What the reference translation does for each production, one equation per routine of the
 parser: which tokens are taken in which order, which token is blamed, which nodes appear.
 `Result` occurs on both sides, so each equation is one step of the mutual recursion.
 */
module Equations {
  import opened Tokens
  import opened Symbols
  import opened Productions
  import opened Arena
  import opened Emission
  import opened Translation

  /** Token kinds that no statement routine claims before declarations are considered. */
  predicate Undispatched(k: TokenType) {
    !IsQualifier(k) &&
    k !in {BrLeft, KwIf, KwWhile, KwFor, KwReturn, KwBreak, KwContinue, KwStruct, KwNamespace, KwDelete, KwRequires, KwType}
  }

  lemma Take(j: Job, rhs: seq<Sym>, k: nat, p: nat, w: Walked)
    requires k < |rhs| && rhs[k].T? && rhs[k].kind != Eof
    ensures From(j, rhs, k, p, w) ==
      if j.i.Has(p, rhs[k].kind) then From(j, rhs, k + 1, p + 1, w) else Failed(j.i.At(p))
  {
    hide From;
    FromToken(j, rhs, k, p, w);
  }

  lemma Part(j: Job, rhs: seq<Sym>, k: nat, p: nat, w: Walked, r: Final)
    requires k < |rhs| && rhs[k].N? && !rhs[k].nt.Tail? && !rhs[k].nt.BinStep? && !rhs[k].nt.Postfixes? && !rhs[k].nt.PostfixStep?
    requires r == Result(j.i, rhs[k].nt, p, w.nodes, NullNode)
    ensures From(j, rhs, k, p, w) ==
      if r.Failed? then r else From(j, rhs, k + 1, r.next, Walked(r.nodes, r.id, w.ids + [r.id]))
  {
    hide From, Result;
    FromNode(j, rhs, k, p, w);
  }

  // ---------- pieces that several routines read ----------

  /** A part and the token after it. */
  function UpTo(i: Input, x: NT, close: TokenType, p: nat, nodes: seq<AstNode>): Final {
    match Result(i, x, p, nodes, NullNode)
    case Failed(t) => Failed(t)
    case Done(id, q, more) => if i.Has(q, close) then Done(id, q + 1, more) else Failed(i.At(q))
  }

  /** A keyword and an expression in parentheses. */
  function Condition(i: Input, kw: TokenType, p: nat, nodes: seq<AstNode>): Final {
    if !i.Has(p, kw) then Failed(i.At(p))
    else if !i.Has(p + 1, Left) then Failed(i.At(p + 1))
    else UpTo(i, Expr(0), Right, p + 2, nodes)
  }

  datatype Header = NoHeader(at: Token) | Header(init: NodeId, cond: NodeId, step: NodeId, next: nat, nodes: seq<AstNode>)

  /** What `for` has in its parentheses. */
  function ForHeader(i: Input, p: nat, nodes: seq<AstNode>): Header {
    if !i.Has(p, KwFor) then NoHeader(i.At(p))
    else if !i.Has(p + 1, Left) then NoHeader(i.At(p + 1))
    else
      match Result(i, ForInit, p + 2, nodes, NullNode)
      case Failed(t) => NoHeader(t)
      case Done(a, q, more) => ForClauses(i, a, q, more)
  }

  function ForClauses(i: Input, init: NodeId, p: nat, nodes: seq<AstNode>): Header {
    match UpTo(i, OptExpr(Semi), Semi, p, nodes)
    case Failed(t) => NoHeader(t)
    case Done(c, q, more) =>
      match UpTo(i, OptExpr(Right), Right, q, more)
      case Failed(t) => NoHeader(t)
      case Done(n, r, most) => Header(init, c, n, r, most)
  }

  predicate IsPlain(s: Sym) { s.N? && !Extends(s.nt) }

  lemma Closing(j: Job, rhs: seq<Sym>, k: nat, p: nat, w: Walked)
    requires k + 1 < |rhs| && IsPlain(rhs[k]) && rhs[k + 1].T? && rhs[k + 1].kind != Eof
    ensures From(j, rhs, k, p, w) ==
      match UpTo(j.i, rhs[k].nt, rhs[k + 1].kind, p, w.nodes)
      case Failed(t) => Failed(t)
      case Done(id, q, nodes) => From(j, rhs, k + 2, q, Walked(nodes, id, w.ids + [id]))
  {
    hide From, Result;
    var r := Result(j.i, rhs[k].nt, p, w.nodes, NullNode);
    Part(j, rhs, k, p, w, r);
    if r.Done? { Take(j, rhs, k + 1, r.next, Walked(r.nodes, r.id, w.ids + [r.id])); }
  }

  lemma Opening(j: Job, rhs: seq<Sym>, p: nat, w: Walked)
    requires |rhs| > 3 && rhs[0].T? && rhs[0].kind != Eof && rhs[1] == T(Left) && rhs[2] == N(Expr(0)) && rhs[3] == T(Right)
    ensures From(j, rhs, 0, p, w) ==
      match Condition(j.i, rhs[0].kind, p, w.nodes)
      case Failed(t) => Failed(t)
      case Done(id, q, nodes) => From(j, rhs, 4, q, Walked(nodes, id, w.ids + [id]))
  {
    hide From, UpTo;
    Take(j, rhs, 0, p, w);
    if j.i.Has(p, rhs[0].kind) {
      Take(j, rhs, 1, p + 1, w);
      if j.i.Has(p + 1, Left) { Closing(j, rhs, 2, p + 2, w); }
    }
  }

  // ---------- productions by their shape ----------

  /** The outcome of `n` at `p` once it has read up to `q`: its nodes and those it appends itself. */
  function Ends(i: Input, n: NT, p: nat, inh: NodeId, q: nat, nodes: seq<AstNode>, ids: seq<NodeId>): Final {
    var act := Act(n, i.At(p), i.At(p + 1), i.At(q), ids, inh, |nodes|);
    Done(act.1, q, nodes + act.0)
  }

  predicate Produces(i: Input, n: NT, p: nat, rhs: seq<Sym>) {
    p <= |i.toks| && Rhs(i.source, n, i.At(p), i.At(p + 1)) == Some(rhs)
    && forall k :: 0 <= k < |rhs| ==> if rhs[k].T? then rhs[k].kind != Eof else !Extends(rhs[k].nt)
  }

  lemma Starts(i: Input, n: NT, p: nat, nodes: seq<AstNode>, inh: NodeId, rhs: seq<Sym>)
    requires Produces(i, n, p, rhs)
    ensures Result(i, n, p, nodes, inh) == From(Job(i, n, p, inh), rhs, 0, p, Walked(nodes, inh, []))
  {
    hide Rhs, Result, From;
    FromStart(i, n, rhs, p, nodes, inh);
  }

  lemma Finished(j: Job, rhs: seq<Sym>, q: nat, w: Walked)
    ensures From(j, rhs, |rhs|, q, w) == Ends(j.i, j.n, j.p, j.inh, q, w.nodes, w.ids)
  {
    hide From, Act;
    FromEnd(j, rhs, q, w);
  }

  lemma OneToken(i: Input, n: NT, p: nat, nodes: seq<AstNode>, inh: NodeId, a: TokenType)
    requires Produces(i, n, p, [T(a)])
    ensures Result(i, n, p, nodes, inh) ==
      if !i.Has(p, a) then Failed(i.At(p)) else Ends(i, n, p, inh, p + 1, nodes, [])
  {
    hide Rhs, Act, Result, From, Ends;
    var rhs, w, j := [T(a)], Walked(nodes, inh, []), Job(i, n, p, inh);
    Starts(i, n, p, nodes, inh, rhs);
    Take(j, rhs, 0, p, w);
    Finished(j, rhs, p + 1, w);
  }

  lemma TwoTokens(i: Input, n: NT, p: nat, nodes: seq<AstNode>, inh: NodeId, a: TokenType, b: TokenType)
    requires Produces(i, n, p, [T(a), T(b)])
    ensures Result(i, n, p, nodes, inh) ==
      if !i.Has(p, a) then Failed(i.At(p)) else if !i.Has(p + 1, b) then Failed(i.At(p + 1))
      else Ends(i, n, p, inh, p + 2, nodes, [])
  {
    hide Rhs, Act, Result, From, Ends;
    var rhs, w, j := [T(a), T(b)], Walked(nodes, inh, []), Job(i, n, p, inh);
    Starts(i, n, p, nodes, inh, rhs);
    Take(j, rhs, 0, p, w);
    Take(j, rhs, 1, p + 1, w);
    Finished(j, rhs, p + 2, w);
  }

  lemma TokenPart(i: Input, n: NT, p: nat, nodes: seq<AstNode>, inh: NodeId, a: TokenType, x: NT)
    requires Produces(i, n, p, [T(a), N(x)])
    ensures Result(i, n, p, nodes, inh) ==
      if !i.Has(p, a) then Failed(i.At(p)) else
      match Result(i, x, p + 1, nodes, NullNode)
      case Failed(t) => Failed(t)
      case Done(id, q, more) => Ends(i, n, p, inh, q, more, [] + [id])
  {
    hide Rhs, Act, Result, From, Ends;
    var rhs, w, j := [T(a), N(x)], Walked(nodes, inh, []), Job(i, n, p, inh);
    Starts(i, n, p, nodes, inh, rhs);
    Take(j, rhs, 0, p, w);
    var r := Result(i, x, p + 1, nodes, NullNode);
    Part(j, rhs, 1, p + 1, w, r);
    if r.Done? { Finished(j, rhs, r.next, Walked(r.nodes, r.id, [] + [r.id])); }
  }

  lemma TwoTokensPart(i: Input, n: NT, p: nat, nodes: seq<AstNode>, inh: NodeId, a: TokenType, b: TokenType, x: NT)
    requires Produces(i, n, p, [T(a), T(b), N(x)])
    ensures Result(i, n, p, nodes, inh) ==
      if !i.Has(p, a) then Failed(i.At(p)) else if !i.Has(p + 1, b) then Failed(i.At(p + 1)) else
      match Result(i, x, p + 2, nodes, NullNode)
      case Failed(t) => Failed(t)
      case Done(id, q, more) => Ends(i, n, p, inh, q, more, [] + [id])
  {
    hide Rhs, Act, Result, From, Ends;
    var rhs, w, j := [T(a), T(b), N(x)], Walked(nodes, inh, []), Job(i, n, p, inh);
    Starts(i, n, p, nodes, inh, rhs);
    Take(j, rhs, 0, p, w);
    Take(j, rhs, 1, p + 1, w);
    var r := Result(i, x, p + 2, nodes, NullNode);
    Part(j, rhs, 2, p + 2, w, r);
    if r.Done? { Finished(j, rhs, r.next, Walked(r.nodes, r.id, [] + [r.id])); }
  }

  /** Two parts that end a production. */
  lemma LastParts(j: Job, rhs: seq<Sym>, k: nat, p: nat, w: Walked)
    requires |rhs| == k + 2 && IsPlain(rhs[k]) && IsPlain(rhs[k + 1])
    ensures From(j, rhs, k, p, w) ==
      match Result(j.i, rhs[k].nt, p, w.nodes, NullNode)
      case Failed(t) => Failed(t)
      case Done(a, q, more) =>
        match Result(j.i, rhs[k + 1].nt, q, more, NullNode)
        case Failed(t) => Failed(t)
        case Done(b, z, most) => Ends(j.i, j.n, j.p, j.inh, z, most, w.ids + [a] + [b])
  {
    hide Act, Result, From, Ends;
    var r := Result(j.i, rhs[k].nt, p, w.nodes, NullNode);
    Part(j, rhs, k, p, w, r);
    if r.Done? {
      var w' := Walked(r.nodes, r.id, w.ids + [r.id]);
      var s := Result(j.i, rhs[k + 1].nt, r.next, r.nodes, NullNode);
      Part(j, rhs, k + 1, r.next, w', s);
      if s.Done? { Finished(j, rhs, s.next, Walked(s.nodes, s.id, w'.ids + [s.id])); }
    }
  }

  lemma TwoParts(i: Input, n: NT, p: nat, nodes: seq<AstNode>, inh: NodeId, x: NT, y: NT)
    requires Produces(i, n, p, [N(x), N(y)])
    ensures Result(i, n, p, nodes, inh) ==
      match Result(i, x, p, nodes, NullNode)
      case Failed(t) => Failed(t)
      case Done(a, q, more) =>
        match Result(i, y, q, more, NullNode)
        case Failed(t) => Failed(t)
        case Done(b, z, most) => Ends(i, n, p, inh, z, most, [] + [a] + [b])
  {
    hide Rhs, Act, Result, From, Ends;
    var rhs := [N(x), N(y)];
    Starts(i, n, p, nodes, inh, rhs);
    LastParts(Job(i, n, p, inh), rhs, 0, p, Walked(nodes, inh, []));
  }

  lemma TokenTwoParts(i: Input, n: NT, p: nat, nodes: seq<AstNode>, inh: NodeId, a: TokenType, x: NT, y: NT)
    requires Produces(i, n, p, [T(a), N(x), N(y)])
    ensures Result(i, n, p, nodes, inh) ==
      if !i.Has(p, a) then Failed(i.At(p)) else
      match Result(i, x, p + 1, nodes, NullNode)
      case Failed(t) => Failed(t)
      case Done(a, q, more) =>
        match Result(i, y, q, more, NullNode)
        case Failed(t) => Failed(t)
        case Done(b, z, most) => Ends(i, n, p, inh, z, most, [] + [a] + [b])
  {
    hide Rhs, Act, Result, From, Ends;
    var rhs, w, j := [T(a), N(x), N(y)], Walked(nodes, inh, []), Job(i, n, p, inh);
    Starts(i, n, p, nodes, inh, rhs);
    Take(j, rhs, 0, p, w);
    LastParts(j, rhs, 1, p + 1, w);
  }

  lemma TwoTokensTwoParts(i: Input, n: NT, p: nat, nodes: seq<AstNode>, inh: NodeId, a: TokenType, b: TokenType, x: NT, y: NT)
    requires Produces(i, n, p, [T(a), T(b), N(x), N(y)])
    ensures Result(i, n, p, nodes, inh) ==
      if !i.Has(p, a) then Failed(i.At(p)) else if !i.Has(p + 1, b) then Failed(i.At(p + 1)) else
      match Result(i, x, p + 2, nodes, NullNode)
      case Failed(t) => Failed(t)
      case Done(a, q, more) =>
        match Result(i, y, q, more, NullNode)
        case Failed(t) => Failed(t)
        case Done(b, z, most) => Ends(i, n, p, inh, z, most, [] + [a] + [b])
  {
    hide Rhs, Act, Result, From, Ends;
    var rhs, w, j := [T(a), T(b), N(x), N(y)], Walked(nodes, inh, []), Job(i, n, p, inh);
    Starts(i, n, p, nodes, inh, rhs);
    Take(j, rhs, 0, p, w);
    Take(j, rhs, 1, p + 1, w);
    LastParts(j, rhs, 2, p + 2, w);
  }

  lemma PartUpTo(i: Input, n: NT, p: nat, nodes: seq<AstNode>, inh: NodeId, x: NT, b: TokenType)
    requires Produces(i, n, p, [N(x), T(b)])
    ensures Result(i, n, p, nodes, inh) ==
      match UpTo(i, x, b, p, nodes)
      case Failed(t) => Failed(t)
      case Done(id, q, more) => Ends(i, n, p, inh, q, more, [] + [id])
  {
    hide Rhs, Act, Result, From, Ends, UpTo;
    var rhs, w, j := [N(x), T(b)], Walked(nodes, inh, []), Job(i, n, p, inh);
    Starts(i, n, p, nodes, inh, rhs);
    Closing(j, rhs, 0, p, w);
    var r := UpTo(i, x, b, p, nodes);
    if r.Done? { Finished(j, rhs, r.next, Walked(r.nodes, r.id, [] + [r.id])); }
  }

  lemma TokenUpTo(i: Input, n: NT, p: nat, nodes: seq<AstNode>, inh: NodeId, a: TokenType, x: NT, b: TokenType)
    requires Produces(i, n, p, [T(a), N(x), T(b)])
    ensures Result(i, n, p, nodes, inh) ==
      if !i.Has(p, a) then Failed(i.At(p)) else
      match UpTo(i, x, b, p + 1, nodes)
      case Failed(t) => Failed(t)
      case Done(id, q, more) => Ends(i, n, p, inh, q, more, [] + [id])
  {
    hide Rhs, Act, Result, From, Ends, UpTo;
    var rhs, w, j := [T(a), N(x), T(b)], Walked(nodes, inh, []), Job(i, n, p, inh);
    Starts(i, n, p, nodes, inh, rhs);
    Take(j, rhs, 0, p, w);
    Closing(j, rhs, 1, p + 1, w);
    var r := UpTo(i, x, b, p + 1, nodes);
    if r.Done? { Finished(j, rhs, r.next, Walked(r.nodes, r.id, [] + [r.id])); }
  }

  // ---------- statements ----------

  lemma BranchEq(i: Input, p: nat, nodes: seq<AstNode>, kw: TokenType)
    requires p <= |i.toks| && kw != Eof
    ensures Result(i, Branch(kw), p, nodes, NullNode) ==
      match Condition(i, kw, p, nodes)
      case Failed(t) => Failed(t)
      case Done(c, q, nodes1) =>
        match Result(i, Stmt(NoQuals), q, nodes1, NullNode)
        case Failed(t) => Failed(t)
        case Done(s, r, nodes2) =>
          match Result(i, ElsePart, r, nodes2, NullNode)
          case Failed(t) => Failed(t)
          case Done(e, z, nodes3) =>
            Done(|nodes3|, z, nodes3 + [AstNode(EvalExpr, NoQuals, i.At(p).offset, 0, EvalData(c, s, e))])
  {
    hide Result, From, Condition;
    var rhs := [T(kw), T(Left), N(Expr(0)), T(Right), N(Stmt(NoQuals)), N(ElsePart)];
    var j := Job(i, Branch(kw), p, NullNode);
    Starts(i, Branch(kw), p, nodes, NullNode, rhs);
    Opening(j, rhs, p, Walked(nodes, NullNode, []));
    var c := Condition(i, kw, p, nodes);
    if c.Done? { LastParts(j, rhs, 4, c.next, Walked(c.nodes, c.id, [] + [c.id])); }
  }

  lemma WhileEq(i: Input, p: nat, nodes: seq<AstNode>)
    requires p <= |i.toks|
    ensures Result(i, While, p, nodes, NullNode) ==
      match Condition(i, KwWhile, p, nodes)
      case Failed(t) => Failed(t)
      case Done(c, q, nodes1) =>
        match Result(i, Stmt(NoQuals), q, nodes1, NullNode)
        case Failed(t) => Failed(t)
        case Done(s, r, nodes2) =>
          Done(|nodes2|, r, nodes2 + [AstNode(CompileTimeJump, NoQuals, i.At(p).offset, 0, EvalData(c, s, NullNode))])
  {
    hide Result, From, Condition;
    var rhs := [T(KwWhile), T(Left), N(Expr(0)), T(Right), N(Stmt(NoQuals))];
    var j := Job(i, While, p, NullNode);
    Starts(i, While, p, nodes, NullNode, rhs);
    Opening(j, rhs, p, Walked(nodes, NullNode, []));
    var c := Condition(i, KwWhile, p, nodes);
    if c.Done? {
      var s := Result(i, Stmt(NoQuals), c.next, c.nodes, NullNode);
      Part(j, rhs, 4, c.next, Walked(c.nodes, c.id, [] + [c.id]), s);
      if s.Done? { Finished(j, rhs, s.next, Walked(s.nodes, s.id, [] + [c.id] + [s.id])); }
    }
  }

  function ForRhs(): seq<Sym> {
    [T(KwFor), T(Left), N(ForInit), N(OptExpr(Semi)), T(Semi), N(OptExpr(Right)), T(Right), N(Stmt(NoQuals))]
  }

  /** The parentheses of `for`. */
  lemma ForOpens(j: Job, p: nat, nodes: seq<AstNode>)
    ensures From(j, ForRhs(), 0, p, Walked(nodes, NullNode, [])) ==
      match ForHeader(j.i, p, nodes)
      case NoHeader(t) => Failed(t)
      case Header(a, c, n, q, more) => From(j, ForRhs(), 7, q, Walked(more, n, [] + [a] + [c] + [n]))
  {
    hide From, Result, ForClauses;
    var w := Walked(nodes, NullNode, []);
    Take(j, ForRhs(), 0, p, w);
    Take(j, ForRhs(), 1, p + 1, w);
    var a := Result(j.i, ForInit, p + 2, nodes, NullNode);
    Part(j, ForRhs(), 2, p + 2, w, a);
    if a.Done? { ForCloses(j, a.next, a.nodes, a.id); }
  }

  lemma ForCloses(j: Job, p: nat, nodes: seq<AstNode>, init: NodeId)
    ensures From(j, ForRhs(), 3, p, Walked(nodes, init, [] + [init])) ==
      match ForClauses(j.i, init, p, nodes)
      case NoHeader(t) => Failed(t)
      case Header(a, c, n, q, more) => From(j, ForRhs(), 7, q, Walked(more, n, [] + [a] + [c] + [n]))
  {
    hide From, UpTo;
    Closing(j, ForRhs(), 3, p, Walked(nodes, init, [] + [init]));
    var c := UpTo(j.i, OptExpr(Semi), Semi, p, nodes);
    if c.Done? { Closing(j, ForRhs(), 5, c.next, Walked(c.nodes, c.id, [] + [init] + [c.id])); }
  }

  lemma ForEq(i: Input, p: nat, nodes: seq<AstNode>)
    requires p <= |i.toks|
    ensures Result(i, For, p, nodes, NullNode) ==
      match ForHeader(i, p, nodes)
      case NoHeader(t) => Failed(t)
      case Header(a, c, _, q, nodes1) =>
        match Result(i, Stmt(NoQuals), q, nodes1, NullNode)
        case Failed(t) => Failed(t)
        case Done(s, r, nodes2) =>
          Done(|nodes2|, r, nodes2 + [AstNode(CompileTimeJump, NoQuals, i.At(p).offset, 0, EvalData(c, s, a))])
  {
    hide Result, From, ForHeader;
    var j := Job(i, For, p, NullNode);
    Starts(i, For, p, nodes, NullNode, ForRhs());
    ForOpens(j, p, nodes);
    var h := ForHeader(i, p, nodes);
    if h.Header? {
      var s := Result(i, Stmt(NoQuals), h.next, h.nodes, NullNode);
      var ids := [] + [h.init] + [h.cond] + [h.step];
      Part(j, ForRhs(), 7, h.next, Walked(h.nodes, h.step, ids), s);
      if s.Done? { Finished(j, ForRhs(), s.next, Walked(s.nodes, s.id, ids + [s.id])); }
    }
  }

  lemma ReturnEq(i: Input, p: nat, nodes: seq<AstNode>)
    requires p <= |i.toks|
    ensures Result(i, Return, p, nodes, NullNode) ==
      if !i.Has(p, KwReturn) then Failed(i.At(p)) else
      match UpTo(i, OptExpr(Semi), Semi, p + 1, nodes)
      case Failed(t) => Failed(t)
      case Done(c, q, more) =>
        Done(|more|, q, more + [AstNode(UnaryExpr, NoQuals, i.At(p).offset, 0, UnaryData(KwReturn, c))])
  {
    hide Result, UpTo;
    TokenUpTo(i, Return, p, nodes, NullNode, KwReturn, OptExpr(Semi), Semi);
  }

  lemma StructEq(i: Input, p: nat, nodes: seq<AstNode>)
    requires p <= |i.toks|
    ensures Result(i, Struct, p, nodes, NullNode) ==
      if !i.Has(p, KwStruct) then Failed(i.At(p)) else
      if !i.Has(p + 1, Ident) then Failed(i.At(p + 1)) else
      match Result(i, OptBody, p + 2, nodes, NullNode)
      case Failed(t) => Failed(t)
      case Done(b, q, nodes1) =>
        match Result(i, OptSemi, q, nodes1, NullNode)
        case Failed(t) => Failed(t)
        case Done(_, r, nodes2) =>
          Done(|nodes2|, r, nodes2 + [AstNode(StructDeclKind, NoQuals, i.At(p).offset, 0, NamedData(i.At(p + 1).offset, b))])
  {
    hide Result;
    TwoTokensTwoParts(i, Struct, p, nodes, NullNode, KwStruct, Ident, OptBody, OptSemi);
  }

  lemma NamespaceEq(i: Input, p: nat, nodes: seq<AstNode>)
    requires p <= |i.toks|
    ensures Result(i, Namespace, p, nodes, NullNode) ==
      if !i.Has(p, KwNamespace) then Failed(i.At(p)) else
      if !i.Has(p + 1, Ident) then Failed(i.At(p + 1)) else
      match Result(i, Stmt(NoQuals), p + 2, nodes, NullNode)
      case Failed(t) => Failed(t)
      case Done(s, q, more) =>
        Done(|more|, q, more + [AstNode(NamespaceDeclKind, NoQuals, i.At(p).offset, 0, NamedData(i.At(p + 1).offset, s))])
  {
    hide Result;
    TwoTokensPart(i, Namespace, p, nodes, NullNode, KwNamespace, Ident, Stmt(NoQuals));
  }

  lemma DeleteEq(i: Input, p: nat, nodes: seq<AstNode>)
    requires p <= |i.toks|
    ensures Result(i, Delete, p, nodes, NullNode) ==
      if !i.Has(p, KwDelete) then Failed(i.At(p)) else
      match Result(i, OptAuto, p + 1, nodes, NullNode)
      case Failed(t) => Failed(t)
      case Done(_, q, nodes1) =>
        match Result(i, Primary, q, nodes1, NullNode)
        case Failed(t) => Failed(t)
        case Done(c, r, nodes2) =>
          Done(|nodes2|, r, nodes2 + [AstNode(DeleteExpr, NoQuals.(isAuto := i.Has(p + 1, KwAuto)), i.At(p).offset, 0, TargetData(c))])
  {
    hide Result, Ends;
    TokenTwoParts(i, Delete, p, nodes, NullNode, KwDelete, OptAuto, Primary);
    var a := Result(i, OptAuto, p + 1, nodes, NullNode);
    if a.Done? {
      var c := Result(i, Primary, a.next, a.nodes, NullNode);
      if c.Done? { DeleteEnds(i, p, c.next, c.nodes, a.id, c.id); }
    }
  }

  lemma DeleteEnds(i: Input, p: nat, q: nat, nodes: seq<AstNode>, a: NodeId, c: NodeId)
    ensures Ends(i, Delete, p, NullNode, q, nodes, [] + [a] + [c]) ==
      Done(|nodes|, q, nodes + [AstNode(DeleteExpr, NoQuals.(isAuto := i.Has(p + 1, KwAuto)), i.At(p).offset, 0, TargetData(c))])
  {}

  /** The statements of a block up to its closing brace. */
  function Contents(i: Input, p: nat, nodes: seq<AstNode>): Final { UpTo(i, Stmts, BrRight, p, nodes) }

  lemma BlockEq(i: Input, p: nat, nodes: seq<AstNode>)
    requires p <= |i.toks| && i.Has(p, BrLeft)
    ensures Result(i, Block, p, nodes, NullNode) ==
      match Contents(i, p + 1, nodes + [Plain(TranslationUnitKind, i.At(p + 1).offset, NoData)])
      case Failed(t) => Failed(t)
      case Done(_, q, more) => Done(|nodes|, q, more)
  {
    hide Result, From, UpTo, Produces;
    var rhs, j, w := [T(BrLeft), N(OpenBlock), N(Stmts), T(BrRight)], Job(i, Block, p, NullNode), Walked(nodes, NullNode, []);
    Starts(i, Block, p, nodes, NullNode, rhs) by { BlockProduces(i, p); }
    Take(j, rhs, 0, p, w);
    NotAtEnd(i, p, BrLeft);
    OpenEq(i, p + 1, nodes);
    var o := Result(i, OpenBlock, p + 1, nodes, NullNode);
    Part(j, rhs, 1, p + 1, w, o);
    var w1 := Walked(o.nodes, o.id, [] + [o.id]);
    Closing(j, rhs, 2, p + 1, w1);
    var b := UpTo(i, Stmts, BrRight, p + 1, o.nodes);
    if b.Done? {
      Finished(j, rhs, b.next, Walked(b.nodes, b.id, w1.ids + [b.id]));
      assert b.nodes + [] == b.nodes;
    }
  }

  lemma BlockProduces(i: Input, p: nat)
    requires p <= |i.toks|
    ensures Produces(i, Block, p, [T(BrLeft), N(OpenBlock), N(Stmts), T(BrRight)])
  {}

  lemma NotAtEnd(i: Input, p: nat, k: TokenType)
    requires i.Has(p, k) && k != Eof
    ensures p < |i.toks|
  {}

  lemma TypeDeclEq(i: Input, p: nat, nodes: seq<AstNode>, quals: Qualifiers)
    requires p <= |i.toks|
    ensures Result(i, TypeDecl(quals), p, nodes, NullNode) ==
      if !i.Has(p, KwType) then Failed(i.At(p)) else
      if !i.Has(p + 1, Ident) then Failed(i.At(p + 1)) else
      match Result(i, Base, p + 2, nodes, NullNode)
      case Failed(t) => Failed(t)
      case Done(a, q, nodes1) =>
        match Result(i, OptBody, q, nodes1, NullNode)
        case Failed(t) => Failed(t)
        case Done(b, r, nodes2) =>
          match Result(i, OptSemi, r, nodes2, NullNode)
          case Failed(t) => Failed(t)
          case Done(_, z, nodes3) =>
            Done(|nodes3|, z, nodes3 + Decl(TypeDeclKind, quals, i.At(p), i.At(p + 1), if b != NullNode then b else a, |nodes3|))
  {
    hide Result, From, Decl, Rhs, Produces;
    TypeDeclProduces(i, p, quals);
    var j, w := Job(i, TypeDecl(quals), p, NullNode), Walked(nodes, NullNode, []);
    Starts(i, TypeDecl(quals), p, nodes, NullNode, TypeDeclRhs);
    Take(j, TypeDeclRhs, 0, p, w);
    Take(j, TypeDeclRhs, 1, p + 1, w);
    if i.Has(p, KwType) && i.Has(p + 1, Ident) { TypeDeclRest(i, p, nodes, quals); }
  }

  const TypeDeclRhs := [T(KwType), T(Ident), N(Base), N(OptBody), N(OptSemi)]

  lemma TypeDeclRest(i: Input, p: nat, nodes: seq<AstNode>, quals: Qualifiers)
    requires p + 2 <= |i.toks|
    ensures From(Job(i, TypeDecl(quals), p, NullNode), TypeDeclRhs, 2, p + 2, Walked(nodes, NullNode, [])) ==
      match Result(i, Base, p + 2, nodes, NullNode)
      case Failed(t) => Failed(t)
      case Done(a, q, nodes1) =>
        match Result(i, OptBody, q, nodes1, NullNode)
        case Failed(t) => Failed(t)
        case Done(b, r, nodes2) =>
          match Result(i, OptSemi, r, nodes2, NullNode)
          case Failed(t) => Failed(t)
          case Done(_, z, nodes3) =>
            Done(|nodes3|, z, nodes3 + Decl(TypeDeclKind, quals, i.At(p), i.At(p + 1), if b != NullNode then b else a, |nodes3|))
  {
    hide Result, From, Decl, Ends, Rhs, Produces;
    var j, w := Job(i, TypeDecl(quals), p, NullNode), Walked(nodes, NullNode, []);
    var a := Result(i, Base, p + 2, nodes, NullNode);
    Part(j, TypeDeclRhs, 2, p + 2, w, a);
    if a.Done? {
      LastParts(j, TypeDeclRhs, 3, a.next, Walked(a.nodes, a.id, [] + [a.id]));
      var b := Result(i, OptBody, a.next, a.nodes, NullNode);
      if b.Done? {
        var e := Result(i, OptSemi, b.next, b.nodes, NullNode);
        if e.Done? { TypeDeclEnds(i, p, e.next, e.nodes, quals, a.id, b.id, e.id); }
      }
    }
  }

  lemma TypeDeclProduces(i: Input, p: nat, quals: Qualifiers)
    requires p <= |i.toks|
    ensures Produces(i, TypeDecl(quals), p, [T(KwType), T(Ident), N(Base), N(OptBody), N(OptSemi)])
  {}

  lemma TypeDeclEnds(i: Input, p: nat, q: nat, nodes: seq<AstNode>, quals: Qualifiers, a: NodeId, b: NodeId, e: NodeId)
    ensures Ends(i, TypeDecl(quals), p, NullNode, q, nodes, [] + [a] + [b] + [e]) ==
      Done(|nodes|, q, nodes + Decl(TypeDeclKind, quals, i.At(p), i.At(p + 1), if b != NullNode then b else a, |nodes|))
  {
    hide Decl;
  }

  lemma DeclRestVar(i: Input, p: nat, nodes: seq<AstNode>, quals: Qualifiers, typ: Token, name: Token)
    requires p <= |i.toks| && !i.Has(p, Left)
    ensures Result(i, DeclRest(quals, typ, name), p, nodes, NullNode) ==
      match UpTo(i, InitPart, Semi, p, nodes)
      case Failed(t) => Failed(t)
      case Done(c, q, more) => Done(|more|, q, more + Decl(VarDeclKind, quals, typ, name, c, |more|))
  {
    hide Result, UpTo, Decl;
    PartUpTo(i, DeclRest(quals, typ, name), p, nodes, NullNode, InitPart, Semi);
  }

  /** A parameter list with its parentheses. */
  function ParamList(i: Input, p: nat, nodes: seq<AstNode>): Final {
    if !i.Has(p, Left) then Failed(i.At(p)) else UpTo(i, Params, Right, p + 1, nodes)
  }

  lemma FuncEq(i: Input, p: nat, nodes: seq<AstNode>, quals: Qualifiers, typ: Token, name: Token)
    requires p <= |i.toks|
    ensures Result(i, Func(quals, typ, name), p, nodes, NullNode) ==
      match ParamList(i, p, nodes)
      case Failed(t) => Failed(t)
      case Done(_, q, nodes1) =>
        match Result(i, FuncBody, q, nodes1, NullNode)
        case Failed(t) => Failed(t)
        case Done(b, r, nodes2) =>
          Done(|nodes2| + 2, r, nodes2 + Definition(quals, typ, name, b, |nodes2|))
  {
    hide Result, From, ParamList, Ends, Rhs, Produces, Definition;
    var j := Job(i, Func(quals, typ, name), p, NullNode);
    FuncProduces(i, p, quals, typ, name);
    Starts(i, Func(quals, typ, name), p, nodes, NullNode, FuncRhs());
    FuncOpens(j, p, nodes);
    var a := ParamList(i, p, nodes);
    if a.Done? {
      var b := Result(i, FuncBody, a.next, a.nodes, NullNode);
      Part(j, FuncRhs(), 3, a.next, Walked(a.nodes, a.id, [] + [a.id]), b);
      if b.Done? {
        Finished(j, FuncRhs(), b.next, Walked(b.nodes, b.id, [] + [a.id] + [b.id]));
        FuncEnds(i, p, b.next, b.nodes, quals, typ, name, a.id, b.id);
      }
    }
  }

  function FuncRhs(): seq<Sym> { [T(Left), N(Params), T(Right), N(FuncBody)] }

  lemma FuncOpens(j: Job, p: nat, nodes: seq<AstNode>)
    ensures From(j, FuncRhs(), 0, p, Walked(nodes, NullNode, [])) ==
      match ParamList(j.i, p, nodes)
      case Failed(t) => Failed(t)
      case Done(a, q, more) => From(j, FuncRhs(), 3, q, Walked(more, a, [] + [a]))
  {
    hide From, UpTo;
    Take(j, FuncRhs(), 0, p, Walked(nodes, NullNode, []));
    Closing(j, FuncRhs(), 1, p + 1, Walked(nodes, NullNode, []));
  }

  lemma FuncProduces(i: Input, p: nat, quals: Qualifiers, typ: Token, name: Token)
    requires p <= |i.toks|
    ensures Produces(i, Func(quals, typ, name), p, FuncRhs())
  {}

  lemma FuncEnds(i: Input, p: nat, q: nat, nodes: seq<AstNode>, quals: Qualifiers, typ: Token, name: Token, a: NodeId, b: NodeId)
    ensures Ends(i, Func(quals, typ, name), p, NullNode, q, nodes, [] + [a] + [b]) ==
      Done(|nodes| + 2, q, nodes + Definition(quals, typ, name, b, |nodes|))
  {}

  /** The three nodes of a function; its parameters are not among its links. */
  function Definition(quals: Qualifiers, typ: Token, name: Token, body: NodeId, base: nat): seq<AstNode> {
    [Name(typ), Name(name), AstNode(FunctionDeclKind, quals, name.offset, 0, VarData(base, base + 1, body))]
  }

  lemma ParamsSome(i: Input, p: nat, nodes: seq<AstNode>)
    requires p <= |i.toks| && !i.Has(p, Right)
    ensures Result(i, Params, p, nodes, NullNode) == Listed(i, Param(NoQuals), MoreParams, p, nodes)
  {
    hide Result;
    TwoParts(i, Params, p, nodes, NullNode, Param(NoQuals), MoreParams);
    Settle();
  }

  /** A first element, whose id is kept, and the ones after it. */
  function Listed(i: Input, x: NT, more: NT, p: nat, nodes: seq<AstNode>): Final {
    match Result(i, x, p, nodes, NullNode)
    case Failed(t) => Failed(t)
    case Done(a, q, nodes1) =>
      match Result(i, more, q, nodes1, NullNode)
      case Failed(t) => Failed(t)
      case Done(_, r, nodes2) => Done(a, r, nodes2)
  }

  lemma Settle()
    ensures forall nodes: seq<AstNode> :: nodes + [] == nodes
  {}

  lemma ParamNames(i: Input, p: nat, nodes: seq<AstNode>, quals: Qualifiers)
    requires p <= |i.toks| && !IsQualifier(i.Kind(p)) && !i.Has(p, Eof)
    ensures Result(i, Param(quals), p, nodes, NullNode) ==
      if quals.isAuto && !i.Has(p, Ident) then Failed(i.At(p))
      else Initialised(i, quals, ParamType(i, p, quals), ParamName(i, p, quals), AfterNames(i, p, quals), nodes)
  {
    hide Result, Decl;
    if quals.isAuto { TokenPart(i, Param(quals), p, nodes, NullNode, Ident, InitPart); }
    else if i.Has(p + 1, Ident) { TwoTokensPart(i, Param(quals), p, nodes, NullNode, i.Kind(p), Ident, InitPart); }
    else { TokenPart(i, Param(quals), p, nodes, NullNode, i.Kind(p), InitPart); }
  }

  /** The names of a parameter: `auto` has no type and the other name may be missing. */
  function ParamType(i: Input, p: nat, quals: Qualifiers): Token { if quals.isAuto then AutoType else i.At(p) }

  function ParamName(i: Input, p: nat, quals: Qualifiers): Token {
    if quals.isAuto then i.At(p) else if i.Has(p + 1, Ident) then i.At(p + 1) else NoName
  }

  function AfterNames(i: Input, p: nat, quals: Qualifiers): nat {
    if !quals.isAuto && i.Has(p + 1, Ident) then p + 2 else p + 1
  }

  /** A declaration from its names on. */
  function Initialised(i: Input, quals: Qualifiers, typ: Token, name: Token, p: nat, nodes: seq<AstNode>): Final {
    match Result(i, InitPart, p, nodes, NullNode)
    case Failed(t) => Failed(t)
    case Done(c, q, more) => Done(|more|, q, more + Decl(VarDeclKind, quals, typ, name, c, |more|))
  }

  lemma StmtJump(i: Input, p: nat, nodes: seq<AstNode>, quals: Qualifiers)
    requires p <= |i.toks| && (i.Has(p, KwBreak) || i.Has(p, KwContinue))
    ensures Result(i, Stmt(quals), p, nodes, NullNode) ==
      if !i.Has(p + 1, Semi) then Failed(i.At(p + 1)) else
      Done(|nodes|, p + 2, nodes + [AstNode(CompileTimeJump, NoQuals, i.At(p).offset, 0, UnaryData(i.Kind(p), NullNode))])
  {
    hide Result;
    TwoTokens(i, Stmt(quals), p, nodes, NullNode, i.Kind(p), Semi);
  }

  /** A part and the semicolon that may follow it. */
  function Ended(i: Input, x: NT, p: nat, nodes: seq<AstNode>): Final { Listed(i, x, OptSemi, p, nodes) }

  lemma StmtDelete(i: Input, p: nat, nodes: seq<AstNode>, quals: Qualifiers)
    requires p <= |i.toks| && i.Has(p, KwDelete)
    ensures Result(i, Stmt(quals), p, nodes, NullNode) == Ended(i, Delete, p, nodes)
  {
    hide Result;
    TwoParts(i, Stmt(quals), p, nodes, NullNode, Delete, OptSemi);
    Settle();
  }

  lemma StmtRequires(i: Input, p: nat, nodes: seq<AstNode>, quals: Qualifiers)
    requires p <= |i.toks| && i.Has(p, KwRequires)
    ensures Result(i, Stmt(quals), p, nodes, NullNode) ==
      if !i.Has(p + 1, Colon) then Failed(i.At(p + 1)) else Ended(i, Expr(0), p + 2, nodes)
  {
    hide Result;
    TwoTokensTwoParts(i, Stmt(quals), p, nodes, NullNode, KwRequires, Colon, Expr(0), OptSemi);
    Settle();
  }

  lemma StmtAutoDecl(i: Input, p: nat, nodes: seq<AstNode>, quals: Qualifiers)
    requires p <= |i.toks| && Undispatched(i.Kind(p)) && quals.isAuto
    ensures Result(i, Stmt(quals), p, nodes, NullNode) ==
      if !i.Has(p, Ident) then Failed(i.At(p)) else Result(i, DeclRest(quals, AutoType, i.At(p)), p + 1, nodes, NullNode)
  {
    hide Result;
    TokenPart(i, Stmt(quals), p, nodes, NullNode, Ident, DeclRest(quals, AutoType, i.At(p)));
    Settle();
  }

  lemma StmtTypedDecl(i: Input, p: nat, nodes: seq<AstNode>, quals: Qualifiers)
    requires p <= |i.toks| && Undispatched(i.Kind(p)) && !quals.isAuto && StartsDecl(i.Kind(p), i.Kind(p + 1))
    ensures Result(i, Stmt(quals), p, nodes, NullNode) ==
      if !i.Has(p + 1, Ident) then Failed(i.At(p + 1))
      else Result(i, DeclRest(quals, i.At(p), i.At(p + 1)), p + 2, nodes, NullNode)
  {
    hide Result;
    TwoTokensPart(i, Stmt(quals), p, nodes, NullNode, i.Kind(p), Ident, DeclRest(quals, i.At(p), i.At(p + 1)));
    Settle();
  }

  lemma StmtExpr(i: Input, p: nat, nodes: seq<AstNode>, quals: Qualifiers)
    requires p <= |i.toks| && Undispatched(i.Kind(p)) && !quals.isAuto && !StartsDecl(i.Kind(p), i.Kind(p + 1))
    ensures Result(i, Stmt(quals), p, nodes, NullNode) == Ended(i, Expr(0), p, nodes)
  {
    hide Result;
    TwoParts(i, Stmt(quals), p, nodes, NullNode, Expr(0), OptSemi);
    Settle();
  }

  // ---------- expressions ----------

  lemma BinStepEq(i: Input, p: nat, nodes: seq<AstNode>, inh: NodeId)
    requires p <= |i.toks| && Precedence(i.Kind(p)) != 0
    ensures Result(i, BinStep, p, nodes, inh) ==
      match Result(i, Expr(Precedence(i.Kind(p)) + 1), p + 1, nodes, NullNode)
      case Failed(t) => Failed(t)
      case Done(c, q, more) =>
        Done(|more|, q, more + [AstNode(BinaryExpr, NoQuals, i.At(p).offset, 0, BinaryData(i.Kind(p), inh, c))])
  {
    hide Result;
    TokenPart(i, BinStep, p, nodes, inh, i.Kind(p), Expr(Precedence(i.Kind(p)) + 1));
  }

  lemma OperandPrefix(i: Input, p: nat, nodes: seq<AstNode>)
    requires p <= |i.toks| && IsPrefixOp(i.Kind(p))
    ensures Result(i, Operand, p, nodes, NullNode) ==
      match Result(i, Primary, p + 1, nodes, NullNode)
      case Failed(t) => Failed(t)
      case Done(c, q, more) =>
        Done(|more|, q, more + [AstNode(UnaryExpr, NoQuals, i.At(p).offset, i.At(p).size, UnaryData(i.Kind(p), c))])
  {
    hide Result;
    TokenPart(i, Operand, p, nodes, NullNode, i.Kind(p), Primary);
  }

  lemma OperandLiteral(i: Input, p: nat, nodes: seq<AstNode>)
    requires p <= |i.toks| && IsLiteral(i.Kind(p))
    ensures Result(i, Operand, p, nodes, NullNode) ==
      Done(|nodes|, p + 1, nodes + [AstNode(LiteralExpr, NoQuals, i.At(p).offset, i.At(p).size, LiteralData(i.Kind(p), 0))])
  {
    hide Result;
    OneToken(i, Operand, p, nodes, NullNode, i.Kind(p));
  }

  lemma OperandName(i: Input, p: nat, nodes: seq<AstNode>)
    requires p <= |i.toks| && IsName(i.Kind(p))
    ensures Result(i, Operand, p, nodes, NullNode) == Done(|nodes|, p + 1, nodes + [Name(i.At(p))])
  {
    hide Result;
    OneToken(i, Operand, p, nodes, NullNode, i.Kind(p));
  }

  lemma OperandCast(i: Input, p: nat, nodes: seq<AstNode>)
    requires p <= |i.toks| && i.Has(p, Left) && i.Has(p + 1, KwDelete)
    ensures Result(i, Operand, p, nodes, NullNode) ==
      match UpTo(i, Delete, Right, p + 1, nodes)
      case Failed(t) => Failed(t)
      case Done(c, q, more) => Done(|more|, q, more + [AstNode(CastExpr, NoQuals, i.At(q).offset, 0, TargetData(c))])
  {
    hide Result, UpTo;
    TokenUpTo(i, Operand, p, nodes, NullNode, Left, Delete, Right);
  }

  lemma OperandParen(i: Input, p: nat, nodes: seq<AstNode>)
    requires p <= |i.toks| && i.Has(p, Left) && !i.Has(p + 1, KwDelete)
    ensures Result(i, Operand, p, nodes, NullNode) == UpTo(i, Expr(0), Right, p + 1, nodes)
  {
    hide Result, UpTo;
    TokenUpTo(i, Operand, p, nodes, NullNode, Left, Expr(0), Right);
    Settle();
  }

  lemma StepCall(i: Input, p: nat, nodes: seq<AstNode>, inh: NodeId)
    requires p <= |i.toks| && i.Has(p, Left)
    ensures Result(i, PostfixStep, p, nodes, inh) ==
      match UpTo(i, Args, Right, p + 1, nodes)
      case Failed(t) => Failed(t)
      case Done(c, q, more) => Done(|more|, q, more + [AstNode(CallExpr, NoQuals, i.At(q).offset, 0, CallData(inh, c))])
  {
    hide Result, UpTo;
    TokenUpTo(i, PostfixStep, p, nodes, inh, Left, Args, Right);
  }

  lemma StepMember(i: Input, p: nat, nodes: seq<AstNode>, inh: NodeId)
    requires p <= |i.toks| && (i.Has(p, Dot) || i.Has(p, Arrow))
    ensures Result(i, PostfixStep, p, nodes, inh) ==
      if !i.Has(p + 1, Ident) then Failed(i.At(p + 1)) else
      Done(|nodes| + 1, p + 2, nodes + [Name(i.At(p + 1)), AstNode(MemberAccessExpr, NoQuals, i.At(p).offset, 0, BinaryData(i.Kind(p), inh, |nodes|))])
  {
    hide Result;
    TwoTokens(i, PostfixStep, p, nodes, inh, i.Kind(p), Ident);
  }

  lemma StepIndex(i: Input, p: nat, nodes: seq<AstNode>, inh: NodeId)
    requires p <= |i.toks| && i.Has(p, SqLeft)
    ensures Result(i, PostfixStep, p, nodes, inh) ==
      match UpTo(i, Expr(0), SqRight, p + 1, nodes)
      case Failed(t) => Failed(t)
      case Done(c, q, more) => Done(|more|, q, more + [AstNode(BinaryExpr, NoQuals, i.At(q).offset, 0, BinaryData(SqLeft, inh, c))])
  {
    hide Result, UpTo;
    TokenUpTo(i, PostfixStep, p, nodes, inh, SqLeft, Expr(0), SqRight);
  }

  lemma StepInc(i: Input, p: nat, nodes: seq<AstNode>, inh: NodeId)
    requires p <= |i.toks| && (i.Has(p, PPlus) || i.Has(p, MMinus))
    ensures Result(i, PostfixStep, p, nodes, inh) ==
      Done(|nodes|, p + 1, nodes + [AstNode(UnaryExpr, NoQuals, i.At(p).offset, 0, UnaryData(i.Kind(p), inh))])
  {
    hide Result;
    OneToken(i, PostfixStep, p, nodes, inh, i.Kind(p));
  }

  lemma ArgsSome(i: Input, p: nat, nodes: seq<AstNode>)
    requires p <= |i.toks| && !i.Has(p, Right)
    ensures Result(i, Args, p, nodes, NullNode) == Listed(i, Expr(0), MoreArgs, p, nodes)
  {
    hide Result;
    TwoParts(i, Args, p, nodes, NullNode, Expr(0), MoreArgs);
    Settle();
  }

  // ---------- the pieces, for proofs that do not look into them ----------

  lemma UpToEq(i: Input, x: NT, close: TokenType, p: nat, nodes: seq<AstNode>)
    ensures UpTo(i, x, close, p, nodes) ==
      var r := Result(i, x, p, nodes, NullNode);
      if r.Failed? then r else if i.Has(r.next, close) then Done(r.id, r.next + 1, r.nodes) else Failed(i.At(r.next))
  {
    hide Result;
  }

  lemma ConditionEq(i: Input, kw: TokenType, p: nat, nodes: seq<AstNode>)
    ensures Condition(i, kw, p, nodes) ==
      if i.Has(p, kw) && i.Has(p + 1, Left) then UpTo(i, Expr(0), Right, p + 2, nodes)
      else Failed(if i.Has(p, kw) then i.At(p + 1) else i.At(p))
  {
    hide UpTo;
  }

  lemma ForHeaderEq(i: Input, p: nat, nodes: seq<AstNode>)
    ensures ForHeader(i, p, nodes) ==
      if i.Has(p, KwFor) && i.Has(p + 1, Left) then
        var a := Result(i, ForInit, p + 2, nodes, NullNode);
        if a.Failed? then NoHeader(a.at) else ForClauses(i, a.id, a.next, a.nodes)
      else NoHeader(if i.Has(p, KwFor) then i.At(p + 1) else i.At(p))
  {
    hide Result, ForClauses;
  }

  lemma ForClausesEq(i: Input, init: NodeId, p: nat, nodes: seq<AstNode>)
    ensures ForClauses(i, init, p, nodes) ==
      var c := UpTo(i, OptExpr(Semi), Semi, p, nodes);
      if c.Failed? then NoHeader(c.at)
      else
        var n := UpTo(i, OptExpr(Right), Right, c.next, c.nodes);
        if n.Failed? then NoHeader(n.at) else Header(init, c.id, n.id, n.next, n.nodes)
  {
    hide UpTo;
  }

  lemma ListedEq(i: Input, x: NT, more: NT, p: nat, nodes: seq<AstNode>)
    ensures Listed(i, x, more, p, nodes) ==
      var a := Result(i, x, p, nodes, NullNode);
      if a.Failed? then a
      else
        var m := Result(i, more, a.next, a.nodes, NullNode);
        if m.Failed? then m else Done(a.id, m.next, m.nodes)
  {
    hide Result;
  }

  lemma EndedEq(i: Input, x: NT, p: nat, nodes: seq<AstNode>)
    ensures Ended(i, x, p, nodes) ==
      var a := Result(i, x, p, nodes, NullNode);
      if a.Failed? then a
      else
        var e := Result(i, OptSemi, a.next, a.nodes, NullNode);
        if e.Failed? then e else Done(a.id, e.next, e.nodes)
  {
    hide Result;
  }

  lemma ContentsEq(i: Input, p: nat, nodes: seq<AstNode>)
    ensures Contents(i, p, nodes) ==
      var r := Result(i, Stmts, p, nodes, NullNode);
      if r.Failed? then r else if i.Has(r.next, BrRight) then Done(r.id, r.next + 1, r.nodes) else Failed(i.At(r.next))
  {
    hide Result;
  }

  lemma ParamListEq(i: Input, p: nat, nodes: seq<AstNode>)
    ensures ParamList(i, p, nodes) == if i.Has(p, Left) then UpTo(i, Params, Right, p + 1, nodes) else Failed(i.At(p))
  {
    hide UpTo;
  }

  lemma InitialisedEq(i: Input, quals: Qualifiers, typ: Token, name: Token, p: nat, nodes: seq<AstNode>)
    ensures Initialised(i, quals, typ, name, p, nodes) ==
      var c := Result(i, InitPart, p, nodes, NullNode);
      if c.Failed? then c else Done(|c.nodes|, c.next, c.nodes + Decl(VarDeclKind, quals, typ, name, c.id, |c.nodes|))
  {
    hide Result, Decl;
  }

  lemma NamesEq(i: Input, p: nat, quals: Qualifiers)
    ensures ParamType(i, p, quals) == (if quals.isAuto then AutoType else i.At(p))
    ensures ParamName(i, p, quals) == if quals.isAuto then i.At(p) else if i.Has(p + 1, Ident) then i.At(p + 1) else NoName
    ensures AfterNames(i, p, quals) == if !quals.isAuto && i.Has(p + 1, Ident) then p + 2 else p + 1
    ensures p <= |i.toks| ==> (p == |i.toks| ==> i.Has(p, Eof) && !i.Has(p, Ident))
  {}

  // ---------- parts that stand for what they contain ----------

  /** Productions that append nothing themselves and stand for their first part. */
  predicate PassesOn(n: NT, k: TokenType, k1: TokenType) {
    match n
    case Stmt(_) => k != KwBreak && k != KwContinue
    case DeclRest(_, _, _) => k == Left
    case Param(_) => IsQualifier(k)
    case Operand => k == KwEval || k == BrLeft
    case ElsePart | ForInit | OptExpr(_) | OptBody | OptSemi | OptAuto | Base | InitPart | FuncBody | Params | Args => true
    case _ => false
  }

  lemma PassedOn(j: Job, q: nat, w: Walked)
    requires PassesOn(j.n, j.i.Kind(j.p), j.i.Kind(j.p + 1))
    ensures Completed(j, q, w) == Done(First(w.ids), q, w.nodes)
  {
    assert w.nodes + [] == w.nodes;
  }

  /** A production without parts. */
  lemma Nothing(i: Input, n: NT, p: nat, nodes: seq<AstNode>)
    requires p <= |i.toks| && Rhs(i.source, n, i.At(p), i.At(p + 1)) == Some([])
    requires PassesOn(n, i.Kind(p), i.Kind(p + 1))
    ensures Result(i, n, p, nodes, NullNode) == Done(NullNode, p, nodes)
  {
    hide Rhs, Result, From, Completed, PassesOn;
    var j, w := Job(i, n, p, NullNode), Walked(nodes, NullNode, []);
    FromStart(i, n, [], p, nodes, NullNode);
    FromEnd(j, [], p, w);
    PassedOn(j, p, w);
  }

  /** A production of one token. */
  lemma TokenOnly(i: Input, n: NT, k: TokenType, p: nat, nodes: seq<AstNode>)
    requires p <= |i.toks| && Rhs(i.source, n, i.At(p), i.At(p + 1)) == Some([T(k)]) && k != Eof
    requires PassesOn(n, i.Kind(p), i.Kind(p + 1))
    ensures Result(i, n, p, nodes, NullNode) == if i.Has(p, k) then Done(NullNode, p + 1, nodes) else Failed(i.At(p))
  {
    hide Rhs, Result, From, Completed, PassesOn;
    var rhs := [T(k)];
    var j, w := Job(i, n, p, NullNode), Walked(nodes, NullNode, []);
    FromStart(i, n, rhs, p, nodes, NullNode);
    FromToken(j, rhs, 0, p, w);
    FromEnd(j, rhs, p + 1, w);
    PassedOn(j, p + 1, w);
  }

  /** A production of one part. */
  lemma Forward(i: Input, n: NT, x: NT, p: nat, nodes: seq<AstNode>)
    requires p <= |i.toks| && Rhs(i.source, n, i.At(p), i.At(p + 1)) == Some([N(x)]) && !Extends(x)
    requires PassesOn(n, i.Kind(p), i.Kind(p + 1))
    ensures Result(i, n, p, nodes, NullNode) == Result(i, x, p, nodes, NullNode)
  {
    hide Rhs, Result, From, Completed, PassesOn;
    var rhs := [N(x)];
    var j, w := Job(i, n, p, NullNode), Walked(nodes, NullNode, []);
    FromStart(i, n, rhs, p, nodes, NullNode);
    FromNode(j, rhs, 0, p, w);
    var r := Result(i, x, p, nodes, NullNode);
    FromEnd(j, rhs, NextOf(r), After(w, r));
    PassedOn(j, NextOf(r), After(w, r));
  }

  /** A production of one part after the token that announces it. */
  lemma ForwardAfter(i: Input, n: NT, x: NT, p: nat, nodes: seq<AstNode>)
    requires p < |i.toks| && Rhs(i.source, n, i.At(p), i.At(p + 1)) == Some([T(i.Kind(p)), N(x)]) && !Extends(x)
    requires PassesOn(n, i.Kind(p), i.Kind(p + 1))
    ensures Result(i, n, p, nodes, NullNode) == Result(i, x, p + 1, nodes, NullNode)
  {
    hide Rhs, Result, From, Completed, PassesOn;
    var rhs := [T(i.Kind(p)), N(x)];
    var j, w := Job(i, n, p, NullNode), Walked(nodes, NullNode, []);
    FromStart(i, n, rhs, p, nodes, NullNode);
    FromToken(j, rhs, 0, p, w);
    FromNode(j, rhs, 1, p + 1, w);
    var r := Result(i, x, p + 1, nodes, NullNode);
    FromEnd(j, rhs, NextOf(r), After(w, r));
    PassedOn(j, NextOf(r), After(w, r));
  }

  lemma OptSemiEq(i: Input, p: nat, nodes: seq<AstNode>)
    requires p <= |i.toks|
    ensures Result(i, OptSemi, p, nodes, NullNode) == Done(NullNode, if i.Has(p, Semi) then p + 1 else p, nodes)
  {
    hide Result;
    if i.Has(p, Semi) { TokenOnly(i, OptSemi, Semi, p, nodes); } else { Nothing(i, OptSemi, p, nodes); }
  }

  lemma OptAutoEq(i: Input, p: nat, nodes: seq<AstNode>)
    requires p <= |i.toks|
    ensures Result(i, OptAuto, p, nodes, NullNode) == Done(NullNode, if i.Has(p, KwAuto) then p + 1 else p, nodes)
  {
    hide Result;
    if i.Has(p, KwAuto) { TokenOnly(i, OptAuto, KwAuto, p, nodes); } else { Nothing(i, OptAuto, p, nodes); }
  }

  lemma ElseEq(i: Input, p: nat, nodes: seq<AstNode>)
    requires p <= |i.toks|
    ensures Result(i, ElsePart, p, nodes, NullNode) ==
      if i.Has(p, KwElse) then Result(i, Stmt(NoQuals), p + 1, nodes, NullNode) else Done(NullNode, p, nodes)
  {
    hide Result;
    if i.Has(p, KwElse) { ForwardAfter(i, ElsePart, Stmt(NoQuals), p, nodes); } else { Nothing(i, ElsePart, p, nodes); }
  }

  lemma InitEq(i: Input, p: nat, nodes: seq<AstNode>)
    requires p <= |i.toks|
    ensures Result(i, InitPart, p, nodes, NullNode) ==
      if i.Has(p, Equals) then Result(i, Expr(0), p + 1, nodes, NullNode) else Done(NullNode, p, nodes)
  {
    hide Result;
    if i.Has(p, Equals) { ForwardAfter(i, InitPart, Expr(0), p, nodes); } else { Nothing(i, InitPart, p, nodes); }
  }

  lemma OptExprEq(i: Input, p: nat, nodes: seq<AstNode>, stop: TokenType)
    requires p <= |i.toks|
    ensures Result(i, OptExpr(stop), p, nodes, NullNode) ==
      if i.Has(p, stop) then Done(NullNode, p, nodes) else Result(i, Expr(0), p, nodes, NullNode)
  {
    hide Result;
    if i.Has(p, stop) { Nothing(i, OptExpr(stop), p, nodes); } else { Forward(i, OptExpr(stop), Expr(0), p, nodes); }
  }

  lemma OptBodyEq(i: Input, p: nat, nodes: seq<AstNode>)
    requires p <= |i.toks|
    ensures Result(i, OptBody, p, nodes, NullNode) ==
      if i.Has(p, BrLeft) then Result(i, Stmt(NoQuals), p, nodes, NullNode) else Done(NullNode, p, nodes)
  {
    hide Result;
    if i.Has(p, BrLeft) { Forward(i, OptBody, Stmt(NoQuals), p, nodes); } else { Nothing(i, OptBody, p, nodes); }
  }

  lemma ForInitEq(i: Input, p: nat, nodes: seq<AstNode>)
    requires p <= |i.toks|
    ensures Result(i, ForInit, p, nodes, NullNode) ==
      if i.Has(p, Semi) then Done(NullNode, p + 1, nodes) else Result(i, Stmt(NoQuals), p, nodes, NullNode)
  {
    hide Result;
    if i.Has(p, Semi) { TokenOnly(i, ForInit, Semi, p, nodes); } else { Forward(i, ForInit, Stmt(NoQuals), p, nodes); }
  }

  lemma FuncBodyEq(i: Input, p: nat, nodes: seq<AstNode>)
    requires p <= |i.toks|
    ensures Result(i, FuncBody, p, nodes, NullNode) ==
      if i.Has(p, BrLeft) then Result(i, Stmt(NoQuals), p, nodes, NullNode)
      else if i.Has(p, Semi) then Done(NullNode, p + 1, nodes)
      else Failed(i.At(p))
  {
    hide Result;
    if i.Has(p, BrLeft) { Forward(i, FuncBody, Stmt(NoQuals), p, nodes); } else { TokenOnly(i, FuncBody, Semi, p, nodes); }
  }

  lemma BaseEq(i: Input, p: nat, nodes: seq<AstNode>)
    requires p <= |i.toks|
    ensures Result(i, Base, p, nodes, NullNode) ==
      if i.Has(p, Equals) then Result(i, Expr(0), p + 1, nodes, NullNode)
      else if i.Has(p, Colon) || IsUsing(i.source, i.At(p)) then Result(i, Primary, p + 1, nodes, NullNode)
      else Done(NullNode, p, nodes)
  {
    hide Result, TextAt;
    if i.Has(p, Equals) { ForwardAfter(i, Base, Expr(0), p, nodes); }
    else if i.Has(p, Colon) || IsUsing(i.source, i.At(p)) { ForwardAfter(i, Base, Primary, p, nodes); }
    else { Nothing(i, Base, p, nodes); }
  }

  /** A qualifier is taken and remembered. */
  lemma QualifierEq(i: Input, p: nat, nodes: seq<AstNode>, q: Qualifiers)
    requires p <= |i.toks| && IsQualifier(i.Kind(p))
    ensures Result(i, Stmt(q), p, nodes, NullNode) == Result(i, Stmt(WithQualifier(q, i.Kind(p))), p + 1, nodes, NullNode)
    ensures Result(i, Param(q), p, nodes, NullNode) == Result(i, Param(WithQualifier(q, i.Kind(p))), p + 1, nodes, NullNode)
  {
    hide Result, WithQualifier;
    var q' := WithQualifier(q, i.Kind(p));
    ForwardAfter(i, Stmt(q), Stmt(q'), p, nodes);
    ForwardAfter(i, Param(q), Param(q'), p, nodes);
  }

  /** The routine that handles a statement starting with `k`, if one handles it alone. */
  function Handler(q: Qualifiers, k: TokenType): Option<NT> {
    match k
    case BrLeft => Some(Block)
    case KwIf => Some(Branch(KwIf))
    case KwWhile => Some(While)
    case KwFor => Some(For)
    case KwReturn => Some(Return)
    case KwStruct => Some(Struct)
    case KwNamespace => Some(Namespace)
    case KwType => Some(TypeDecl(q))
    case _ => None
  }

  lemma DispatchEq(i: Input, p: nat, nodes: seq<AstNode>, q: Qualifiers)
    requires p <= |i.toks| && Handler(q, i.Kind(p)).Some?
    ensures Result(i, Stmt(q), p, nodes, NullNode) == Result(i, Handler(q, i.Kind(p)).value, p, nodes, NullNode)
  {
    hide Result;
    Forward(i, Stmt(q), Handler(q, i.Kind(p)).value, p, nodes);
  }

  lemma Handlers(i: Input, p: nat, q: Qualifiers)
    ensures var h := Handler(q, i.Kind(p));
      && (i.Has(p, BrLeft) ==> h == Some(Block)) && (i.Has(p, KwIf) ==> h == Some(Branch(KwIf)))
      && (i.Has(p, KwWhile) ==> h == Some(While)) && (i.Has(p, KwFor) ==> h == Some(For))
      && (i.Has(p, KwReturn) ==> h == Some(Return)) && (i.Has(p, KwStruct) ==> h == Some(Struct))
      && (i.Has(p, KwNamespace) ==> h == Some(Namespace)) && (i.Has(p, KwType) ==> h == Some(TypeDecl(q)))
  {}

  /** Which routine takes over, by the token after the qualifiers. */
  lemma Dispatch(i: Input, p: nat, nodes: seq<AstNode>, q: Qualifiers)
    requires p <= |i.toks|
    ensures var r := Result(i, Stmt(q), p, nodes, NullNode);
      && (i.Has(p, BrLeft) ==> r == Result(i, Block, p, nodes, NullNode))
      && (i.Has(p, KwIf) ==> r == Result(i, Branch(KwIf), p, nodes, NullNode))
      && (i.Has(p, KwWhile) ==> r == Result(i, While, p, nodes, NullNode))
      && (i.Has(p, KwFor) ==> r == Result(i, For, p, nodes, NullNode))
      && (i.Has(p, KwReturn) ==> r == Result(i, Return, p, nodes, NullNode))
      && (i.Has(p, KwStruct) ==> r == Result(i, Struct, p, nodes, NullNode))
      && (i.Has(p, KwNamespace) ==> r == Result(i, Namespace, p, nodes, NullNode))
      && (i.Has(p, KwType) ==> r == Result(i, TypeDecl(q), p, nodes, NullNode))
  {
    hide Result, Handler;
    Handlers(i, p, q);
    if Handler(q, i.Kind(p)).Some? { DispatchEq(i, p, nodes, q); }
  }

  lemma FuncRestEq(i: Input, p: nat, nodes: seq<AstNode>, q: Qualifiers, typ: Token, name: Token)
    requires p <= |i.toks| && i.Has(p, Left)
    ensures Result(i, DeclRest(q, typ, name), p, nodes, NullNode) == Result(i, Func(q, typ, name), p, nodes, NullNode)
  {
    hide Result;
    Forward(i, DeclRest(q, typ, name), Func(q, typ, name), p, nodes);
  }

  lemma OperandForward(i: Input, p: nat, nodes: seq<AstNode>)
    requires p <= |i.toks|
    ensures i.Has(p, KwEval) ==> Result(i, Operand, p, nodes, NullNode) == Result(i, Branch(KwEval), p, nodes, NullNode)
    ensures i.Has(p, BrLeft) ==> Result(i, Operand, p, nodes, NullNode) == Result(i, Block, p, nodes, NullNode)
  {
    hide Result;
    if i.Has(p, KwEval) { Forward(i, Operand, Branch(KwEval), p, nodes); }
    if i.Has(p, BrLeft) { Forward(i, Operand, Block, p, nodes); }
  }

  /** Token kinds that start an operand. */
  predicate StartsOperand(k: TokenType) {
    IsPrefixOp(k) || IsLiteral(k) || IsName(k) || k == KwEval || k == Left || k == BrLeft
  }

  lemma OperandRefused(i: Input, p: nat, nodes: seq<AstNode>)
    requires p <= |i.toks| && !StartsOperand(i.Kind(p))
    ensures Result(i, Operand, p, nodes, NullNode) == Failed(i.At(p))
  {
    hide Result, Resume;
    Enter(i, Operand, p, nodes, NullNode);
  }

  lemma ParamRefused(i: Input, p: nat, nodes: seq<AstNode>, q: Qualifiers)
    requires p <= |i.toks| && i.Has(p, Eof)
    ensures Result(i, Param(q), p, nodes, NullNode) == Failed(i.At(p))
  {
    hide Result, Resume;
    Enter(i, Param(q), p, nodes, NullNode);
  }

  lemma ParamEq(i: Input, p: nat, nodes: seq<AstNode>, q: Qualifiers)
    requires p <= |i.toks| && !IsQualifier(i.Kind(p))
    ensures Result(i, Param(q), p, nodes, NullNode) ==
      if i.Has(p, Eof) || (q.isAuto && !i.Has(p, Ident)) then Failed(i.At(p))
      else Initialised(i, q, ParamType(i, p, q), ParamName(i, p, q), AfterNames(i, p, q), nodes)
  {
    hide Result, Initialised, IsQualifier;
    if i.Has(p, Eof) { ParamRefused(i, p, nodes, q); } else { ParamNames(i, p, nodes, q); }
  }

  // ---------- containers ----------

  /** A block or unit is created before its contents. */
  lemma OpenEq(i: Input, p: nat, nodes: seq<AstNode>)
    requires p <= |i.toks|
    ensures Result(i, OpenBlock, p, nodes, NullNode) == Done(|nodes|, p, nodes + [Plain(TranslationUnitKind, i.At(p).offset, NoData)])
    ensures Result(i, OpenUnit, p, nodes, NullNode) == Done(|nodes|, p, nodes + [Plain(TranslationUnitKind, 0, NoData)])
  {
    hide Result, From;
    var w := Walked(nodes, NullNode, []);
    FromStart(i, OpenBlock, [], p, nodes, NullNode);
    FromEnd(Job(i, OpenBlock, p, NullNode), [], p, w);
    FromStart(i, OpenUnit, [], p, nodes, NullNode);
    FromEnd(Job(i, OpenUnit, p, NullNode), [], p, w);
  }

  lemma ProgramEq(i: Input, p: nat, nodes: seq<AstNode>)
    requires p <= |i.toks|
    ensures Result(i, Program, p, nodes, NullNode) ==
      var b := Result(i, TopStmts, p, nodes + [Plain(TranslationUnitKind, 0, NoData)], NullNode);
      if b.Failed? then b else Done(|nodes|, b.next, b.nodes)
  {
    hide Result, From;
    var rhs := [N(OpenUnit), N(TopStmts)];
    var j, w := Job(i, Program, p, NullNode), Walked(nodes, NullNode, []);
    FromStart(i, Program, rhs, p, nodes, NullNode);
    FromNode(j, rhs, 0, p, w);
    OpenEq(i, p, nodes);
    var o := Result(i, OpenUnit, p, nodes, NullNode);
    FromNode(j, rhs, 1, p, After(w, o));
    var b := Result(i, TopStmts, p, o.nodes, NullNode);
    FromEnd(j, rhs, NextOf(b), After(After(w, o), b));
    if b.Done? { assert b.nodes + [] == b.nodes; }
  }

  // ---------- repetition ----------

  /** Whether another element follows. */
  predicate Continues(n: NT, k: TokenType) {
    match n
    case Stmts => k != BrRight && k != Eof
    case TopStmts => k != Eof
    case _ => k == Comma
  }

  function Element(n: NT): NT {
    match n
    case MoreArgs => Expr(0)
    case MoreParams => Param(NoQuals)
    case _ => Stmt(NoQuals)
  }

  lemma LoopEq(i: Input, n: NT, p: nat, nodes: seq<AstNode>)
    requires p <= |i.toks| && n in {Stmts, TopStmts, MoreArgs, MoreParams}
    ensures Result(i, n, p, nodes, NullNode) ==
      if !Continues(n, i.Kind(p)) then Done(NullNode, p, nodes)
      else
        var r := Result(i, Element(n), if n.MoreArgs? || n.MoreParams? then p + 1 else p, nodes, NullNode);
        if r.Failed? then r else Result(i, n, r.next, r.nodes, NullNode)
  {
    hide Result, From, Completed, Resume;
    var j, w := Job(i, n, p, NullNode), Walked(nodes, NullNode, []);
    if !Continues(n, i.Kind(p)) {
      FromStart(i, n, [], p, nodes, NullNode);
      FromEnd(j, [], p, w);
      LoopEnd(j, p, w);
    } else if n.MoreArgs? || n.MoreParams? {
      LoopAfterComma(i, n, p, nodes);
    } else {
      LoopStatement(i, n, p, nodes);
    }
  }

  lemma LoopEnd(j: Job, q: nat, w: Walked)
    requires j.n in {Stmts, TopStmts, MoreArgs, MoreParams}
    ensures Completed(j, q, w) == Done(NullNode, q, w.nodes)
  {
    assert w.nodes + [] == w.nodes;
  }

  lemma LoopStatement(i: Input, n: NT, p: nat, nodes: seq<AstNode>)
    requires p <= |i.toks| && (n.Stmts? || n.TopStmts?) && Continues(n, i.Kind(p))
    ensures Result(i, n, p, nodes, NullNode) ==
      var r := Result(i, Stmt(NoQuals), p, nodes, NullNode);
      if r.Failed? then r else Result(i, n, r.next, r.nodes, NullNode)
  {
    hide Result, Completed, Resume;
    var rhs := [N(Stmt(NoQuals)), N(n)];
    var j, w := Job(i, n, p, NullNode), Walked(nodes, NullNode, []);
    FromStart(i, n, rhs, p, nodes, NullNode);
    FromNode(j, rhs, 0, p, w);
    var r := Result(i, Stmt(NoQuals), p, nodes, NullNode);
    if r.Done? { LoopBack(j, r.next, After(w, r)); }
    assert rhs[1..] == [N(n)];
  }

  lemma LoopAfterComma(i: Input, n: NT, p: nat, nodes: seq<AstNode>)
    requires p <= |i.toks| && (n.MoreArgs? || n.MoreParams?) && Continues(n, i.Kind(p))
    ensures Result(i, n, p, nodes, NullNode) ==
      var r := Result(i, Element(n), p + 1, nodes, NullNode);
      if r.Failed? then r else Result(i, n, r.next, r.nodes, NullNode)
  {
    hide Result, Completed, Resume;
    var rhs := [T(Comma), N(Element(n)), N(n)];
    var j, w := Job(i, n, p, NullNode), Walked(nodes, NullNode, []);
    FromStart(i, n, rhs, p, nodes, NullNode);
    FromToken(j, rhs, 0, p, w);
    FromNode(j, rhs, 1, p + 1, w);
    var r := Result(i, Element(n), p + 1, nodes, NullNode);
    if r.Done? { LoopBack(j, r.next, After(w, r)); }
    assert rhs[2..] == [N(n)];
  }

  lemma MoreArgsEq(i: Input, p: nat, nodes: seq<AstNode>)
    requires p <= |i.toks|
    ensures Result(i, MoreArgs, p, nodes, NullNode) ==
      if !i.Has(p, Comma) then Done(NullNode, p, nodes)
      else
        var r := Result(i, Expr(0), p + 1, nodes, NullNode);
        if r.Failed? then r else Result(i, MoreArgs, r.next, r.nodes, NullNode)
  {
    hide Result;
    LoopEq(i, MoreArgs, p, nodes);
  }

  lemma MoreParamsEq(i: Input, p: nat, nodes: seq<AstNode>)
    requires p <= |i.toks|
    ensures Result(i, MoreParams, p, nodes, NullNode) ==
      if !i.Has(p, Comma) then Done(NullNode, p, nodes)
      else
        var r := Result(i, Param(NoQuals), p + 1, nodes, NullNode);
        if r.Failed? then r else Result(i, MoreParams, r.next, r.nodes, NullNode)
  {
    hide Result;
    LoopEq(i, MoreParams, p, nodes);
  }

  lemma StmtsEq(i: Input, n: NT, p: nat, nodes: seq<AstNode>)
    requires p <= |i.toks| && (n.Stmts? || n.TopStmts?)
    ensures Result(i, n, p, nodes, NullNode) ==
      if i.Has(p, Eof) || (n.Stmts? && i.Has(p, BrRight)) then Done(NullNode, p, nodes)
      else
        var r := Result(i, Stmt(NoQuals), p, nodes, NullNode);
        if r.Failed? then r else Result(i, n, r.next, r.nodes, NullNode)
  {
    hide Result;
    LoopEq(i, n, p, nodes);
  }

  lemma EmptyList(i: Input, p: nat, nodes: seq<AstNode>)
    requires p <= |i.toks| && i.Has(p, Right)
    ensures Result(i, Args, p, nodes, NullNode) == Result(i, Params, p, nodes, NullNode) == Done(NullNode, p, nodes)
  {
    hide Result;
    Nothing(i, Args, p, nodes);
    Nothing(i, Params, p, nodes);
  }

  // ---------- an expression grows to the right ----------

  /** The first part of an expression, and the part that extends it. */
  function Seed(n: NT): NT { if n.Primary? then Operand else Primary }
  function Growth(n: NT): NT { if n.Expr? then Tail(n.min) else Postfixes }

  lemma SeedEq(i: Input, n: NT, p: nat, nodes: seq<AstNode>)
    requires p <= |i.toks| && (n.Expr? || n.Primary?)
    ensures Result(i, n, p, nodes, NullNode) ==
      var l := Result(i, Seed(n), p, nodes, NullNode);
      if l.Failed? then l else Result(i, Growth(n), l.next, l.nodes, l.id)
  {
    hide Result, From;
    var rhs := [N(Seed(n)), N(Growth(n))];
    var j, w := Job(i, n, p, NullNode), Walked(nodes, NullNode, []);
    FromStart(i, n, rhs, p, nodes, NullNode);
    FromNode(j, rhs, 0, p, w);
    var l := Result(i, Seed(n), p, nodes, NullNode);
    FromNode(j, rhs, 1, NextOf(l), After(w, l));
    if l.Done? {
      var t := Result(i, Growth(n), l.next, l.nodes, l.id);
      FromEnd(j, rhs, NextOf(t), After(After(w, l), t));
      if t.Done? { assert t.nodes + [] == t.nodes; }
    }
  }

  /** Whether the expression read so far goes on, and with what. */
  predicate Grows(n: NT, k: TokenType)
    requires n.Tail? || n.Postfixes?
  {
    if n.Tail? then Precedence(k) >= n.min && Precedence(k) != 0 else IsPostfixStart(k)
  }

  function Step(n: NT): NT { if n.Tail? then BinStep else PostfixStep }

  lemma GrowthEq(i: Input, n: NT, p: nat, nodes: seq<AstNode>, inh: NodeId)
    requires p <= |i.toks| && (n.Tail? || n.Postfixes?)
    ensures Result(i, n, p, nodes, inh) ==
      if !Grows(n, i.Kind(p)) then Done(inh, p, nodes)
      else
        var s := Result(i, Step(n), p, nodes, inh);
        if s.Failed? then s else Result(i, n, s.next, s.nodes, s.id)
  {
    hide Result, Completed, Resume;
    var j, w := Job(i, n, p, inh), Walked(nodes, inh, []);
    if !Grows(n, i.Kind(p)) {
      FromStart(i, n, [], p, nodes, inh);
      FromEnd(j, [], p, w);
      GrowthEnd(j, p, w);
    } else {
      var rhs := [N(Step(n)), N(n)];
      FromStart(i, n, rhs, p, nodes, inh);
      FromNode(j, rhs, 0, p, w);
      var s := Result(i, Step(n), p, nodes, inh);
      if s.Done? { ChainBack(j, s.next, After(w, s)); }
      assert rhs[1..] == [N(n)];
    }
  }

  lemma GrowthEnd(j: Job, q: nat, w: Walked)
    requires (j.n.Tail? || j.n.Postfixes?) && w.ids == []
    ensures Completed(j, q, w) == Done(j.inh, q, w.nodes)
  {
    assert w.nodes + [] == w.nodes;
  }

  lemma ExprEq(i: Input, p: nat, nodes: seq<AstNode>, min: nat)
    requires p <= |i.toks|
    ensures Result(i, Expr(min), p, nodes, NullNode) ==
      var l := Result(i, Primary, p, nodes, NullNode);
      if l.Failed? then l else Result(i, Tail(min), l.next, l.nodes, l.id)
  {
    hide Result;
    SeedEq(i, Expr(min), p, nodes);
  }

  lemma PrimaryEq(i: Input, p: nat, nodes: seq<AstNode>)
    requires p <= |i.toks|
    ensures Result(i, Primary, p, nodes, NullNode) ==
      var l := Result(i, Operand, p, nodes, NullNode);
      if l.Failed? then l else Result(i, Postfixes, l.next, l.nodes, l.id)
  {
    hide Result;
    SeedEq(i, Primary, p, nodes);
  }

  lemma TailEq(i: Input, min: nat, p: nat, nodes: seq<AstNode>, inh: NodeId)
    requires p <= |i.toks|
    ensures Result(i, Tail(min), p, nodes, inh) ==
      if Precedence(i.Kind(p)) < min || Precedence(i.Kind(p)) == 0 then Done(inh, p, nodes)
      else
        var s := Result(i, BinStep, p, nodes, inh);
        if s.Failed? then s else Result(i, Tail(min), s.next, s.nodes, s.id)
  {
    hide Result, Precedence;
    GrowthEq(i, Tail(min), p, nodes, inh);
  }

  lemma PostfixesEq(i: Input, p: nat, nodes: seq<AstNode>, inh: NodeId)
    requires p <= |i.toks|
    ensures Result(i, Postfixes, p, nodes, inh) ==
      if !IsPostfixStart(i.Kind(p)) then Done(inh, p, nodes)
      else
        var s := Result(i, PostfixStep, p, nodes, inh);
        if s.Failed? then s else Result(i, Postfixes, s.next, s.nodes, s.id)
  {
    hide Result, IsPostfixStart;
    GrowthEq(i, Postfixes, p, nodes, inh);
  }

  /** What an expression may be extended with later: the arena is a forest in which it has no parent. */
  lemma StaysUsable(i: Input, n: NT, p: nat, nodes: seq<AstNode>, inh: NodeId)
    requires p <= |i.toks| && Forest(nodes) && (n.BinStep? || n.PostfixStep? || n.Postfixes? || n.Tail? ==> Usable(nodes, inh))
    ensures var r := Result(i, n, p, nodes, inh); r.Done? ==> Forest(r.nodes) && Usable(r.nodes, r.id)
  {
    hide Result, Forest, Usable;
    ResultForest(i, n, p, nodes, inh);
  }
}
