/** The nodes that an operator expression leaves in the arena, read back as an expression. */
module PrattArena {
  import opened Tokens
  import opened Symbols
  import opened Engine
  import opened Productions
  import opened Arena
  import opened Emission
  import opened Translation
  import opened Equations
  import opened Expressions
  import opened Pratt

  /**
   The node `id` stands for `e`. Parentheses leave no node, a call links only its first
   argument, and the offsets of calls and index nodes are not those of the expression.
   */
  ghost predicate Denotes(nodes: seq<AstNode>, id: NodeId, e: Exp)
    decreases e
  {
    id < |nodes| && var n := nodes[id];
    match e
    case Paren(_, x, _) => Denotes(nodes, id, x)
    case Atom(t) =>
      n == AstNode(if IsLiteral(t.kind) then LiteralExpr else IdentifierExpr, NoQuals, t.offset, t.size, LiteralData(t.kind, 0))
    case Prefix(op, x) =>
      && n.data.UnaryData? && n == AstNode(UnaryExpr, NoQuals, op.offset, op.size, UnaryData(op.kind, n.data.operand))
      && Denotes(nodes, n.data.operand, x)
    case Binary(l, op, r) =>
      && n.data.BinaryData? && n == AstNode(BinaryExpr, NoQuals, op.offset, 0, BinaryData(op.kind, n.data.lhs, n.data.rhs))
      && Denotes(nodes, n.data.lhs, l) && Denotes(nodes, n.data.rhs, r)
    case Member(b, op, name) =>
      && n.data.BinaryData? && n == AstNode(MemberAccessExpr, NoQuals, op.offset, 0, BinaryData(op.kind, n.data.lhs, n.data.rhs))
      && Denotes(nodes, n.data.lhs, b) && n.data.rhs < |nodes| && nodes[n.data.rhs] == Name(name)
    case Bump(b, op) =>
      && n.data.UnaryData? && n == AstNode(UnaryExpr, NoQuals, op.offset, 0, UnaryData(op.kind, n.data.operand))
      && Denotes(nodes, n.data.operand, b)
    case Index(b, _, x, _) =>
      && n.kind.BinaryExpr? && n.data.BinaryData? && n.data.op == SqLeft
      && Denotes(nodes, n.data.lhs, b) && Denotes(nodes, n.data.rhs, x)
    case Call(b, _, args, _) =>
      && n.kind.CallExpr? && n.data.CallData? && Denotes(nodes, n.data.target, b)
      && if args.NoArgs? then n.data.argsList == NullNode else Denotes(nodes, n.data.argsList, args.first)
  }

  /** Later nodes do not change what earlier ones stand for. */
  lemma {:induction false} StillDenotes(nodes: seq<AstNode>, later: seq<AstNode>, id: NodeId, e: Exp)
    requires Denotes(nodes, id, e) && nodes <= later
    ensures Denotes(later, id, e)
    decreases e
  {
    var n := nodes[id];
    match e
    case Paren(_, x, _) => StillDenotes(nodes, later, id, x);
    case Atom(_) =>
    case Prefix(_, x) => StillDenotes(nodes, later, n.data.operand, x);
    case Binary(l, _, r) => StillDenotes(nodes, later, n.data.lhs, l); StillDenotes(nodes, later, n.data.rhs, r);
    case Member(b, _, _) => StillDenotes(nodes, later, n.data.lhs, b);
    case Bump(b, _) => StillDenotes(nodes, later, n.data.operand, b);
    case Index(b, _, x, _) => StillDenotes(nodes, later, n.data.lhs, b); StillDenotes(nodes, later, n.data.rhs, x);
    case Call(b, _, args, _) =>
      StillDenotes(nodes, later, n.data.target, b);
      if args.Given? { StillDenotes(nodes, later, n.data.argsList, args.first); }
  }

  // ---------- nodes are only added ----------

  lemma {:induction false} EmitExtends(nodes: seq<AstNode>, t: Tree, inh: NodeId)
    ensures nodes <= Emit(nodes, t, inh).0
    decreases t, 1
  {
    hide Act;
    if t.Node? { WalkExtends(nodes, inh, t.kids); }
  }

  lemma {:induction false} WalkExtends(nodes: seq<AstNode>, inh: NodeId, kids: seq<Tree>)
    ensures nodes <= Walk(nodes, inh, kids).nodes
    decreases kids, 0
  {
    hide Act;
    if kids != [] {
      var last := |kids| - 1;
      WalkExtends(nodes, inh, kids[..last]);
      var w := Walk(nodes, inh, kids[..last]);
      if kids[last].Node? { EmitExtends(w.nodes, kids[last], InhFor(kids[last].nt, w.inh)); }
    }
  }

  /** The nodes follow the reading: same success, same end. */
  lemma Follows(i: Input, n: NT, p: nat, nodes: seq<AstNode>, inh: NodeId)
    requires p <= |i.toks|
    ensures var r := Result(i, n, p, nodes, inh); var x := Read(i, n, p);
      r.Done? == x.Ok? && (r.Done? ==> r.next == x.next && nodes <= r.nodes)
  {
    hide Rhs, Emit, Rank, IsEager;
    var x := Read(i, n, p);
    if x.Ok? { EmitExtends(nodes, x.tree, inh); }
  }

  // ---------- the nodes stand for what was read ----------

  /** What is left behind stands for `e`. */
  ghost predicate StandsFor(nodes: seq<AstNode>, r: Final, e: Exp) {
    r.Done? && nodes <= r.nodes && Denotes(r.nodes, r.id, e)
  }

  lemma {:induction false} DenoteExpr(i: Input, min: nat, p: nat, q: nat, nodes: seq<AstNode>)
    requires p <= |i.toks| && Read(i, Expr(min), p).Ok? && Read(i, Expr(min), p).next == q && OperatorsOnly(i, p, q)
    ensures StandsFor(nodes, Result(i, Expr(min), p, nodes, NullNode), ReadExpr(Read(i, Expr(min), p).tree))
    decreases |i.toks| - p, 5
  {
    hide Rhs, Read, Result, ReadPrimary, ReadTail, OperatorsOnly, Denotes;
    ExprRead(i, min, p);
    ExprEq(i, p, nodes, min);
    var x := Read(i, Primary, p);
    OperatorsPart(i, p, q, p, x.next);
    OperatorsPart(i, p, q, x.next, q);
    DenotePrimary(i, p, x.next, nodes);
    Follows(i, Primary, p, nodes, NullNode);
    Advancing(i, Primary, p);
    var l := Result(i, Primary, p, nodes, NullNode);
    DenoteTail(i, min, ReadPrimary(x.tree), x.next, q, l.nodes, l.id);
  }

  lemma {:induction false} DenoteTail(i: Input, min: nat, left: Exp, p: nat, q: nat, nodes: seq<AstNode>, inh: NodeId)
    requires p <= |i.toks| && Read(i, Tail(min), p).Ok? && Read(i, Tail(min), p).next == q && OperatorsOnly(i, p, q)
    requires Denotes(nodes, inh, left)
    ensures StandsFor(nodes, Result(i, Tail(min), p, nodes, inh), ReadTail(left, Read(i, Tail(min), p).tree))
    decreases |i.toks| - p, 1
  {
    hide Rhs, Read, Result, ReadExpr, OperatorsOnly, Precedence, Denotes;
    TailEq(i, min, p, nodes, inh);
    var prec := Precedence(i.Kind(p));
    if prec < min || prec == 0 {
      Stopped(i, Tail(min), p);
    } else {
      Unended(i, p);
      TailRead(i, min, p);
      var x := Read(i, Expr(prec + 1), p + 1);
      OperatorsPart(i, p, q, p + 1, x.next);
      OperatorsPart(i, p, q, x.next, q);
      DenoteBinary(i, left, p, nodes, inh);
      var e := Binary(left, i.At(p), ReadExpr(x.tree));
      var s := Result(i, BinStep, p, nodes, inh);
      DenoteTail(i, min, e, x.next, q, s.nodes, s.id);
    }
  }

  /** An operator and its right operand extend what stands on the left. */
  lemma {:induction false} DenoteBinary(i: Input, left: Exp, p: nat, nodes: seq<AstNode>, inh: NodeId)
    requires p < |i.toks| && Precedence(i.Kind(p)) != 0 && Denotes(nodes, inh, left)
    requires var x := Read(i, Expr(Precedence(i.Kind(p)) + 1), p + 1); x.Ok? && OperatorsOnly(i, p + 1, x.next)
    ensures var x := Read(i, Expr(Precedence(i.Kind(p)) + 1), p + 1); var s := Result(i, BinStep, p, nodes, inh);
      StandsFor(nodes, s, Binary(left, i.At(p), ReadExpr(x.tree))) && s.next == x.next
    decreases |i.toks| - p, 0
  {
    hide Rhs, Read, Result, ReadExpr, OperatorsOnly, Precedence, Denotes;
    var prec := Precedence(i.Kind(p));
    BinStepEq(i, p, nodes, inh);
    var x := Read(i, Expr(prec + 1), p + 1);
    DenoteExpr(i, prec + 1, p + 1, x.next, nodes);
    Follows(i, Expr(prec + 1), p + 1, nodes, NullNode);
    var c, s := Result(i, Expr(prec + 1), p + 1, nodes, NullNode), Result(i, BinStep, p, nodes, inh);
    StillDenotes(c.nodes, s.nodes, c.id, ReadExpr(x.tree));
    StillDenotes(nodes, s.nodes, inh, left);
    BinaryDenotes(s.nodes, s.id, left, i.At(p), ReadExpr(x.tree));
  }

  lemma BinaryDenotes(nodes: seq<AstNode>, id: NodeId, l: Exp, op: Token, r: Exp)
    requires id < |nodes| && nodes[id].data.BinaryData? && Denotes(nodes, nodes[id].data.lhs, l) && Denotes(nodes, nodes[id].data.rhs, r)
    requires nodes[id] == AstNode(BinaryExpr, NoQuals, op.offset, 0, BinaryData(op.kind, nodes[id].data.lhs, nodes[id].data.rhs))
    ensures Denotes(nodes, id, Binary(l, op, r))
  {}

  lemma {:induction false} DenotePrimary(i: Input, p: nat, q: nat, nodes: seq<AstNode>)
    requires p <= |i.toks| && Read(i, Primary, p).Ok? && Read(i, Primary, p).next == q && OperatorsOnly(i, p, q)
    ensures StandsFor(nodes, Result(i, Primary, p, nodes, NullNode), ReadPrimary(Read(i, Primary, p).tree))
    decreases |i.toks| - p, 4
  {
    hide Rhs, Read, Result, ReadOperand, ReadPostfixes, OperatorsOnly, Denotes;
    PrimaryRead(i, p);
    PrimaryEq(i, p, nodes);
    var x := Read(i, Operand, p);
    OperatorsPart(i, p, q, p, x.next);
    OperatorsPart(i, p, q, x.next, q);
    DenoteOperand(i, p, x.next, nodes);
    Follows(i, Operand, p, nodes, NullNode);
    Advancing(i, Operand, p);
    var l := Result(i, Operand, p, nodes, NullNode);
    DenotePostfixes(i, ReadOperand(x.tree), x.next, q, l.nodes, l.id);
  }

  lemma PrefixDenotes(nodes: seq<AstNode>, id: NodeId, op: Token, x: Exp)
    requires id < |nodes| && nodes[id].data.UnaryData? && Denotes(nodes, nodes[id].data.operand, x)
    requires nodes[id] == AstNode(UnaryExpr, NoQuals, op.offset, op.size, UnaryData(op.kind, nodes[id].data.operand))
    ensures Denotes(nodes, id, Prefix(op, x))
  {}

  lemma {:induction false} DenoteOperand(i: Input, p: nat, q: nat, nodes: seq<AstNode>)
    requires p <= |i.toks| && Read(i, Operand, p).Ok? && Read(i, Operand, p).next == q && OperatorsOnly(i, p, q)
    ensures StandsFor(nodes, Result(i, Operand, p, nodes, NullNode), ReadOperand(Read(i, Operand, p).tree))
    decreases |i.toks| - p, 3
  {
    hide Rhs, Read, Result, ReadOperand, OperatorsOnly, IsPrefixOp, IsLiteral, IsName, Denotes;
    Advancing(i, Operand, p);
    PlainOperand(i, p, q);
    if IsPrefixOp(i.Kind(p)) { DenotePrefix(i, p, q, nodes); }
    else if IsLiteral(i.Kind(p)) || IsName(i.Kind(p)) { DenoteAtom(i, p, q, nodes); }
    else {
      ParenRead(i, p);
      OperandParen(i, p, nodes);
      OperatorsPart(i, p, q, p + 1, q - 1);
      DenoteExpr(i, 0, p + 1, q - 1, nodes);
      Follows(i, Expr(0), p + 1, nodes, NullNode);
      var x := Read(i, Expr(0), p + 1).tree;
      Grouped(Read(i, Operand, p).tree, i.At(p), x, i.At(q - 1));
      ParenDenotes(Result(i, Operand, p, nodes, NullNode), i.At(p), ReadExpr(x), i.At(q - 1));
    }
  }

  lemma ParenDenotes(r: Final, o: Token, x: Exp, c: Token)
    requires r.Done? && Denotes(r.nodes, r.id, x)
    ensures Denotes(r.nodes, r.id, Paren(o, x, c))
  {}

  lemma {:induction false} DenotePrefix(i: Input, p: nat, q: nat, nodes: seq<AstNode>)
    requires p < |i.toks| && Read(i, Operand, p).Ok? && Read(i, Operand, p).next == q && OperatorsOnly(i, p, q)
    requires IsPrefixOp(i.Kind(p))
    ensures StandsFor(nodes, Result(i, Operand, p, nodes, NullNode), ReadOperand(Read(i, Operand, p).tree))
    decreases |i.toks| - p, 0
  {
    hide Rhs, Read, Result, ReadPrimary, OperatorsOnly, IsPrefixOp, Denotes;
    PrefixRead(i, p);
    OperandPrefix(i, p, nodes);
    OperatorsPart(i, p, q, p + 1, q);
    DenotePrimary(i, p + 1, q, nodes);
    var c := Result(i, Primary, p + 1, nodes, NullNode);
    var r := Result(i, Operand, p, nodes, NullNode);
    var x := ReadPrimary(Read(i, Primary, p + 1).tree);
    StillDenotes(c.nodes, r.nodes, c.id, x);
    PrefixDenotes(r.nodes, r.id, i.At(p), x);
  }

  lemma DenoteAtom(i: Input, p: nat, q: nat, nodes: seq<AstNode>)
    requires p < |i.toks| && Read(i, Operand, p).Ok? && (IsLiteral(i.Kind(p)) || IsName(i.Kind(p)))
    ensures StandsFor(nodes, Result(i, Operand, p, nodes, NullNode), ReadOperand(Read(i, Operand, p).tree))
  {
    hide Rhs, Read, Result, IsLiteral, IsName;
    AtomRead(i, p);
    if IsLiteral(i.Kind(p)) { OperandLiteral(i, p, nodes); } else { OperandName(i, p, nodes); }
  }

  lemma {:induction false} DenotePostfixes(i: Input, left: Exp, p: nat, q: nat, nodes: seq<AstNode>, inh: NodeId)
    requires p <= |i.toks| && Read(i, Postfixes, p).Ok? && Read(i, Postfixes, p).next == q && OperatorsOnly(i, p, q)
    requires Denotes(nodes, inh, left)
    ensures StandsFor(nodes, Result(i, Postfixes, p, nodes, inh), ReadPostfixes(left, Read(i, Postfixes, p).tree))
    decreases |i.toks| - p, 2
  {
    hide Rhs, Read, Result, ReadStep, OperatorsOnly, IsPostfixStart, Denotes;
    PostfixesEq(i, p, nodes, inh);
    if !IsPostfixStart(i.Kind(p)) {
      Stopped(i, Postfixes, p);
    } else {
      PostfixesRead(i, p);
      var x := Read(i, PostfixStep, p);
      OperatorsPart(i, p, q, p, x.next);
      OperatorsPart(i, p, q, x.next, q);
      Advancing(i, PostfixStep, p);
      DenoteStep(i, left, p, x.next, nodes, inh);
      Follows(i, PostfixStep, p, nodes, inh);
      var s := Result(i, PostfixStep, p, nodes, inh);
      DenotePostfixes(i, ReadStep(left, x.tree), x.next, q, s.nodes, s.id);
    }
  }

  lemma {:induction false} DenoteStep(i: Input, left: Exp, p: nat, q: nat, nodes: seq<AstNode>, inh: NodeId)
    requires p <= |i.toks| && Read(i, PostfixStep, p).Ok? && Read(i, PostfixStep, p).next == q && OperatorsOnly(i, p, q)
    requires IsPostfixStart(i.Kind(p)) && Denotes(nodes, inh, left)
    ensures StandsFor(nodes, Result(i, PostfixStep, p, nodes, inh), ReadStep(left, Read(i, PostfixStep, p).tree))
    decreases |i.toks| - p, 1
  {
    hide Rhs, Read, Result, ReadExpr, ReadArgs, OperatorsOnly;
    Unended(i, p);
    Follows(i, PostfixStep, p, nodes, inh);
    var r := Result(i, PostfixStep, p, nodes, inh);
    StillDenotes(nodes, r.nodes, inh, left);
    var k := i.Kind(p);
    if k.SqLeft? {
      DenoteIndex(i, left, p, q, nodes, inh);
    } else if k.Left? {
      DenoteCall(i, left, p, q, nodes, inh);
    } else if k.Dot? || k.Arrow? {
      MemberRead(i, p);
      StepMember(i, p, nodes, inh);
    } else {
      BumpRead(i, p);
      StepInc(i, p, nodes, inh);
    }
  }

  lemma IndexDenotes(nodes: seq<AstNode>, id: NodeId, base: Exp, o: Token, x: Exp, c: Token)
    requires id < |nodes| && nodes[id].kind.BinaryExpr? && nodes[id].data.BinaryData? && nodes[id].data.op == SqLeft
    requires Denotes(nodes, nodes[id].data.lhs, base) && Denotes(nodes, nodes[id].data.rhs, x)
    ensures Denotes(nodes, id, Index(base, o, x, c))
  {}

  lemma {:induction false} DenoteIndex(i: Input, left: Exp, p: nat, q: nat, nodes: seq<AstNode>, inh: NodeId)
    requires p < |i.toks| && Read(i, PostfixStep, p).Ok? && Read(i, PostfixStep, p).next == q && OperatorsOnly(i, p, q)
    requires i.Kind(p).SqLeft? && Denotes(nodes, inh, left)
    ensures StandsFor(nodes, Result(i, PostfixStep, p, nodes, inh), ReadStep(left, Read(i, PostfixStep, p).tree))
    decreases |i.toks| - p, 0
  {
    hide Rhs, Whole, Read, Result, ReadExpr, ReadArgs, ReadStep, OperatorsOnly, Denotes;
    Follows(i, PostfixStep, p, nodes, inh);
    var r := Result(i, PostfixStep, p, nodes, inh);
    StillDenotes(nodes, r.nodes, inh, left);
    IndexShape(i, p, q);
    StepIndex(i, p, nodes, inh);
    OperatorsPart(i, p, q, p + 1, q - 1);
    DenoteExpr(i, 0, p + 1, q - 1, nodes);
    var c := Result(i, Expr(0), p + 1, nodes, NullNode);
    var x := Read(i, Expr(0), p + 1).tree;
    StillDenotes(c.nodes, r.nodes, c.id, ReadExpr(x));
    Bracketed(left, Read(i, PostfixStep, p).tree, i.At(p), x, i.At(q - 1));
    IndexDenotes(r.nodes, r.id, left, i.At(p), ReadExpr(x), i.At(q - 1));
  }

  lemma CallDenotes(nodes: seq<AstNode>, id: NodeId, base: Exp, o: Token, args: Args, c: Token)
    requires id < |nodes| && nodes[id].kind.CallExpr? && nodes[id].data.CallData? && Denotes(nodes, nodes[id].data.target, base)
    requires if args.NoArgs? then nodes[id].data.argsList == NullNode else Denotes(nodes, nodes[id].data.argsList, args.first)
    ensures Denotes(nodes, id, Call(base, o, args, c))
  {}

  lemma {:induction false} DenoteCall(i: Input, left: Exp, p: nat, q: nat, nodes: seq<AstNode>, inh: NodeId)
    requires p < |i.toks| && Read(i, PostfixStep, p).Ok? && Read(i, PostfixStep, p).next == q && OperatorsOnly(i, p, q)
    requires i.Kind(p).Left? && Denotes(nodes, inh, left)
    ensures StandsFor(nodes, Result(i, PostfixStep, p, nodes, inh), ReadStep(left, Read(i, PostfixStep, p).tree))
    decreases |i.toks| - p, 0
  {
    hide Rhs, Whole, Read, Result, ReadExpr, ReadArgs, ReadStep, OperatorsOnly, Denotes;
    Follows(i, PostfixStep, p, nodes, inh);
    var r := Result(i, PostfixStep, p, nodes, inh);
    StillDenotes(nodes, r.nodes, inh, left);
    CallShape(i, p, q);
    StepCall(i, p, nodes, inh);
    OperatorsPart(i, p, q, p + 1, q - 1);
    DenoteArgs(i, p + 1, q - 1, nodes);
    var c := Result(i, NT.Args, p + 1, nodes, NullNode);
    var x := Read(i, NT.Args, p + 1).tree;
    var a := ReadArgs(x);
    if a.Given? { StillDenotes(c.nodes, r.nodes, c.id, a.first); }
    Bracketed(left, Read(i, PostfixStep, p).tree, i.At(p), x, i.At(q - 1));
    CallDenotes(r.nodes, r.id, left, i.At(p), a, i.At(q - 1));
  }

  lemma {:induction false} DenoteArgs(i: Input, p: nat, q: nat, nodes: seq<AstNode>)
    requires p <= |i.toks| && Read(i, NT.Args, p).Ok? && Read(i, NT.Args, p).next == q && OperatorsOnly(i, p, q)
    ensures var r := Result(i, NT.Args, p, nodes, NullNode); var a := ReadArgs(Read(i, NT.Args, p).tree);
      r.Done? && nodes <= r.nodes && if a.NoArgs? then r.id == NullNode else Denotes(r.nodes, r.id, a.first)
    decreases |i.toks| - p, 6
  {
    hide Rhs, Read, Result, ReadExpr, ReadMore, OperatorsOnly, Denotes;
    if i.Kind(p).Right? {
      Stopped(i, NT.Args, p);
      EmptyList(i, p, nodes);
    } else {
      ArgsRead(i, p);
      ArgsSome(i, p, nodes);
      var x := Read(i, Expr(0), p);
      OperatorsPart(i, p, q, p, x.next);
      DenoteExpr(i, 0, p, x.next, nodes);
      Follows(i, Expr(0), p, nodes, NullNode);
      var c := Result(i, Expr(0), p, nodes, NullNode);
      Follows(i, MoreArgs, x.next, c.nodes, NullNode);
      StillDenotes(c.nodes, Result(i, MoreArgs, x.next, c.nodes, NullNode).nodes, c.id, ReadExpr(x.tree));
    }
  }

  // ---------- in terms of the parser ----------

  /** Parentheses are not seen in the arena. */
  lemma {:induction false} DenotesBare(nodes: seq<AstNode>, id: NodeId, e: Exp)
    requires Denotes(nodes, id, e)
    ensures Denotes(nodes, id, Bare(e))
    decreases e
  {
    hide IsLiteral;
    var n := nodes[id];
    match e
    case Atom(_) =>
    case Paren(_, x, _) => DenotesBare(nodes, id, x);
    case Prefix(_, x) => DenotesBare(nodes, n.data.operand, x);
    case Binary(l, _, r) => DenotesBare(nodes, n.data.lhs, l); DenotesBare(nodes, n.data.rhs, r);
    case Member(b, _, _) => DenotesBare(nodes, n.data.lhs, b);
    case Bump(b, _) => DenotesBare(nodes, n.data.operand, b);
    case Index(b, _, x, _) => DenotesBare(nodes, n.data.lhs, b); DenotesBare(nodes, n.data.rhs, x);
    case Call(b, _, args, _) =>
      DenotesBare(nodes, n.data.target, b);
      if args.Given? { DenotesBare(nodes, n.data.argsList, args.first); }
  }

  /** Tokens that spell a fitting expression, and end it, are parsed into nodes that stand for it. */
  lemma ParsesFitting(i: Input, min: nat, p: nat, e: Exp, q: nat, nodes: seq<AstNode>)
    requires p <= |i.toks| && min <= PREFIX && Fits(e, min)
    requires Reads(i, p, Spell(e), q) && Stops(min, i.Kind(q))
    ensures var r := Result(i, Expr(min), p, nodes, NullNode);
      r.Done? && r.next == q && Denotes(r.nodes, r.id, e)
  {
    hide Reads, Read, ReadExpr, Result, Fits, Spell, OperatorsOnly, Stops, Denotes;
    Pratt.Exact(i, min, p, e, q);
    DenoteExpr(i, min, p, q, nodes);
    Follows(i, Expr(min), p, nodes, NullNode);
  }

  /** Whatever is parsed without blocks, `eval` and `delete` spells an expression that fits. */
  lemma ParsedFits(i: Input, min: nat, p: nat, nodes: seq<AstNode>) returns (e: Exp)
    requires p <= |i.toks| && min <= PREFIX && Result(i, Expr(min), p, nodes, NullNode).Done?
    requires OperatorsOnly(i, p, Result(i, Expr(min), p, nodes, NullNode).next)
    ensures var r := Result(i, Expr(min), p, nodes, NullNode);
      Fits(e, min) && Reads(i, p, Spell(e), r.next) && Stops(min, i.Kind(r.next)) && Denotes(r.nodes, r.id, e)
  {
    hide Reads, Read, ReadExpr, Result, Fits, Spell, OperatorsOnly, Stops, Denotes;
    Follows(i, Expr(min), p, nodes, NullNode);
    var x := Read(i, Expr(min), p);
    e := ReadExpr(x.tree);
    Pratt.Exact(i, min, p, e, x.next);
    DenoteExpr(i, min, p, x.next, nodes);
  }

  /** Any expression, written with the fewest parentheses, is parsed into nodes that stand for it. */
  lemma WrittenThenParsed(i: Input, e: Exp, min: nat, o: Token, c: Token, p: nat, q: nat, nodes: seq<AstNode>)
    requires Formed(e) && o.kind.Left? && c.kind.Right? && min <= PREFIX
    requires p <= |i.toks| && Reads(i, p, Spell(Parens(e, min, o, c)), q) && Stops(min, i.Kind(q))
    ensures var r := Result(i, Expr(min), p, nodes, NullNode);
      r.Done? && r.next == q && Denotes(r.nodes, r.id, Bare(e))
  {
    hide Reads, Result, Fits, Formed, Spell, Parens, Bare, Stops, Denotes;
    ParensFit(e, min, o, c);
    ParensMean(e, min, o, c);
    ParsesFitting(i, min, p, Parens(e, min, o, c), q, nodes);
    var r := Result(i, Expr(min), p, nodes, NullNode);
    DenotesBare(r.nodes, r.id, Parens(e, min, o, c));
  }
}
