/**
 Which tokens are operands and operators, and how operators group, listed once and apart from
 the tables that the parser uses.
 */
module Grouping {
  import opened Tokens
  import opened Symbols
  import opened Engine
  import opened Productions
  import opened Arena
  import opened Translation
  import opened Equations
  import opened Expressions
  import opened Pratt
  import opened PrattArena

  /** The binary operators, from those that bind loosest to those that bind tightest. */
  const GROUPS: seq<set<TokenType>> := [
    {Equals, PlusEquals, MinusEquals, StarEquals, SlashEquals, PercEquals, AmpEquals, BarEquals, UpEquals},
    {BBar},
    {AAmp},
    {Bar},
    {Up},
    {Amp},
    {EEquals, NEquals},
    {Lesser, Greater, LeEquals, GrEquals},
    {LLesser, GGreater},
    {Plus, Minus},
    {Star, Slash, Perc}
  ]

  const PREFIXES := {PPlus, MMinus, Excl, Tilde, Minus, Amp, Star}
  const LITERALS := {LInt, LFloat, LString, LChar, KwTrue, KwFalse}
  const NAMES := {Ident, KwVoid, KwByte}
  const POSTFIXES := {Left, Dot, Arrow, SqLeft, PPlus, MMinus}

  predicate InGroup(k: TokenType, j: nat) { j < |GROUPS| && k in GROUPS[j] }

  /** Neither an operator nor a postfix. */
  ghost predicate Idle(k: TokenType) { k !in POSTFIXES && forall j: nat :: !InGroup(k, j) }

  // ---------- the lists are the parser's tables ----------

  lemma LooseLevels(k: TokenType)
    ensures InGroup(k, 0) <==> Precedence(k) == 1
    ensures InGroup(k, 1) <==> Precedence(k) == 2
  {}

  lemma BitLevels(k: TokenType)
    ensures InGroup(k, 2) <==> Precedence(k) == 3
    ensures InGroup(k, 3) <==> Precedence(k) == 4
    ensures InGroup(k, 4) <==> Precedence(k) == 5
  {}

  lemma CompareLevels(k: TokenType)
    ensures InGroup(k, 5) <==> Precedence(k) == 6
    ensures InGroup(k, 6) <==> Precedence(k) == 7
  {}

  lemma ShiftLevels(k: TokenType)
    ensures InGroup(k, 7) <==> Precedence(k) == 8
    ensures InGroup(k, 8) <==> Precedence(k) == 9
  {}

  lemma TightLevels(k: TokenType)
    ensures InGroup(k, 9) <==> Precedence(k) == 10
    ensures InGroup(k, 10) <==> Precedence(k) == 11
  {}

  lemma Levels(k: TokenType, j: nat)
    ensures InGroup(k, j) <==> Precedence(k) == j + 1
  {
    if j < 11 {
      hide Precedence, InGroup;
      LooseLevels(k);
      BitLevels(k);
      CompareLevels(k);
      ShiftLevels(k);
      TightLevels(k);
    } else {
      PrecedenceBound(k);
    }
  }

  lemma Kinds(k: TokenType)
    ensures IsPrefixOp(k) <==> k in PREFIXES
    ensures IsLiteral(k) <==> k in LITERALS
    ensures IsName(k) <==> k in NAMES
    ensures IsPostfixStart(k) <==> k in POSTFIXES
  {}

  lemma IdleStops(k: TokenType)
    requires Idle(k)
    ensures Stops(0, k) && Precedence(k) == 0 && !IsPostfixStart(k)
  {
    hide Precedence, POSTFIXES, InGroup;
    Kinds(k);
    if Precedence(k) != 0 { Levels(k, Precedence(k) - 1); }
  }

  // ---------- how operators group ----------

  /** An operand with its prefixes and postfixes: no operator is left open in it. */
  predicate Tight(e: Exp) { !e.Binary? && Fits(e, 0) }

  lemma TightFits(e: Exp, min: nat)
    requires Tight(e) && min <= PREFIX
    ensures Fits(e, min)
  {}

  lemma SingleAtom(t: Token)
    requires t.kind in LITERALS + NAMES
    ensures Tight(Atom(t)) && Spell(Atom(t)) == [t]
  {
    hide Fits, IsLiteral, IsName;
    Kinds(t.kind);
    AtomFits(t);
  }

  lemma AtomFits(t: Token)
    requires IsLiteral(t.kind) || IsName(t.kind)
    ensures Tight(Atom(t))
  {}

  /** What two operators and their operands make, by the groups the operators are in. */
  function Joined(a: Exp, x: Token, b: Exp, y: Token, c: Exp, j: nat, k: nat): Exp {
    if j < k then Binary(a, x, Binary(b, y, c)) else Binary(Binary(a, x, b), y, c)
  }

  lemma JoinedFits(a: Exp, x: Token, b: Exp, y: Token, c: Exp, j: nat, k: nat)
    requires Tight(a) && Tight(b) && Tight(c) && InGroup(x.kind, j) && InGroup(y.kind, k)
    ensures Fits(Joined(a, x, b, y, c, j, k), 0)
    ensures Spell(Joined(a, x, b, y, c, j, k)) == Spell(a) + ([x] + (Spell(b) + ([y] + Spell(c))))
  {
    hide Precedence, InGroup, Tight;
    Levels(x.kind, j);
    Levels(y.kind, k);
    PrecedenceBound(x.kind);
    PrecedenceBound(y.kind);
    var m, n := Precedence(x.kind), Precedence(y.kind);
    if j < k {
      TightFits(a, m);
      TightFits(b, n);
      TightFits(c, n + 1);
      BinaryFits(b, y, c, m + 1);
      BinaryFits(a, x, Binary(b, y, c), 0);
    } else {
      TightFits(a, m);
      TightFits(b, m + 1);
      TightFits(c, n + 1);
      BinaryFits(a, x, b, n);
      BinaryFits(Binary(a, x, b), y, c, 0);
      Regroup(Spell(a), [x] + Spell(b), [y] + Spell(c));
      Regroup([x], Spell(b), [y] + Spell(c));
    }
  }

  lemma BinaryFits(l: Exp, op: Token, r: Exp, min: nat)
    requires Precedence(op.kind) != 0 && Precedence(op.kind) >= min
    requires Fits(l, Precedence(op.kind)) && Fits(r, Precedence(op.kind) + 1)
    ensures Fits(Binary(l, op, r), min) && Spell(Binary(l, op, r)) == Spell(l) + ([op] + Spell(r))
  {}

  lemma Regroup(a: seq<Token>, b: seq<Token>, c: seq<Token>)
    ensures (a + b) + c == a + (b + c)
  {}

  /**
   Three operands and two operators, followed by a token that joins nothing: the operator of
   the later group takes its operands first, and operators of one group group to the left.
   This is the expression of the derivation, and the nodes stand for it.
   */
  lemma Groups(i: Input, p: nat, q: nat, nodes: seq<AstNode>, a: Exp, x: Token, b: Exp, y: Token, c: Exp, j: nat, k: nat)
    requires Tight(a) && Tight(b) && Tight(c) && InGroup(x.kind, j) && InGroup(y.kind, k)
    requires p <= |i.toks| && Reads(i, p, Spell(a) + ([x] + (Spell(b) + ([y] + Spell(c)))), q) && Idle(i.Kind(q))
    ensures var t := Read(i, Expr(0), p); var r := Result(i, Expr(0), p, nodes, NullNode);
      var e := if j < k then Binary(a, x, Binary(b, y, c)) else Binary(Binary(a, x, b), y, c);
      && t.Ok? && t.next == q && ReadExpr(t.tree) == e
      && r.Done? && r.next == q && nodes <= r.nodes && Denotes(r.nodes, r.id, e)
  {
    hide Tight, InGroup, Idle, Fits, Spell, Reads, Read, Result, ReadExpr, Denotes, Stops;
    var e := Joined(a, x, b, y, c, j, k);
    JoinedFits(a, x, b, y, c, j, k);
    Whole(i, p, q, nodes, e);
  }

  lemma Whole(i: Input, p: nat, q: nat, nodes: seq<AstNode>, e: Exp)
    requires p <= |i.toks| && Fits(e, 0) && Reads(i, p, Spell(e), q) && Idle(i.Kind(q))
    ensures var t := Read(i, Expr(0), p); var r := Result(i, Expr(0), p, nodes, NullNode);
      && t.Ok? && t.next == q && ReadExpr(t.tree) == e
      && r.Done? && r.next == q && nodes <= r.nodes && Denotes(r.nodes, r.id, e)
  {
    hide Idle, Fits, Spell, Reads, Read, Result, ReadExpr, Denotes, Stops, OperatorsOnly;
    IdleStops(i.Kind(q));
    Pratt.Exact(i, 0, p, e, q);
    ParsesFitting(i, 0, p, e, q, nodes);
    Follows(i, Expr(0), p, nodes, NullNode);
  }

  /** The same on three operand tokens: which of the two nodes is the operand of the other. */
  lemma GroupsTokens(i: Input, p: nat, nodes: seq<AstNode>, j: nat, k: nat)
    requires p + 5 <= |i.toks| && Idle(i.Kind(p + 5))
    requires i.Kind(p) in LITERALS + NAMES && i.Kind(p + 2) in LITERALS + NAMES && i.Kind(p + 4) in LITERALS + NAMES
    requires InGroup(i.Kind(p + 1), j) && InGroup(i.Kind(p + 3), k)
    ensures var r := Result(i, Expr(0), p, nodes, NullNode);
      && r.Done? && r.next == p + 5 && r.id < |r.nodes|
      && var top := r.nodes[r.id];
      && top.kind.BinaryExpr? && top.data.BinaryData? && top.data.lhs < |r.nodes| && top.data.rhs < |r.nodes|
      && var low := r.nodes[if j < k then top.data.rhs else top.data.lhs];
         var side := r.nodes[if j < k then top.data.lhs else top.data.rhs];
      && low.kind.BinaryExpr? && low.data.BinaryData? && low.data.lhs < |r.nodes| && low.data.rhs < |r.nodes|
      && top.data.op == i.Kind(if j < k then p + 1 else p + 3) && low.data.op == i.Kind(if j < k then p + 3 else p + 1)
      && side.offset == i.At(if j < k then p else p + 4).offset
      && r.nodes[low.data.lhs].offset == i.At(if j < k then p + 2 else p).offset
      && r.nodes[low.data.rhs].offset == i.At(if j < k then p + 4 else p + 2).offset
  {
    hide Idle, InGroup, Reads, Read, Result, Tight, Fits, Denotes;
    var a, x, b, y, c := Atom(i.At(p)), i.At(p + 1), Atom(i.At(p + 2)), i.At(p + 3), Atom(i.At(p + 4));
    SingleAtom(a.tok);
    SingleAtom(b.tok);
    SingleAtom(c.tok);
    FiveTokens(i, p);
    Groups(i, p, p + 5, nodes, a, x, b, y, c, j, k);
    var r := Result(i, Expr(0), p, nodes, NullNode);
    BinaryAt(r.nodes, r.id, if j < k then a else Binary(a, x, b), if j < k then x else y, if j < k then Binary(b, y, c) else c);
    var top := r.nodes[r.id].data;
    if j < k {
      BinaryAt(r.nodes, top.rhs, b, y, c);
      AtomsAt(r.nodes, top.lhs, r.nodes[top.rhs].data.lhs, r.nodes[top.rhs].data.rhs, i.At(p), i.At(p + 2), i.At(p + 4));
    } else {
      BinaryAt(r.nodes, top.lhs, a, x, b);
      AtomsAt(r.nodes, top.rhs, r.nodes[top.lhs].data.lhs, r.nodes[top.lhs].data.rhs, i.At(p + 4), i.At(p), i.At(p + 2));
    }
  }

  lemma BinaryAt(nodes: seq<AstNode>, id: NodeId, l: Exp, op: Token, r: Exp)
    requires Denotes(nodes, id, Binary(l, op, r))
    ensures id < |nodes| && nodes[id].kind.BinaryExpr? && nodes[id].data.BinaryData? && nodes[id].data.op == op.kind
    ensures var d := nodes[id].data;
      d.lhs < |nodes| && d.rhs < |nodes| && Denotes(nodes, d.lhs, l) && Denotes(nodes, d.rhs, r)
  {}

  lemma AtomsAt(nodes: seq<AstNode>, x: NodeId, y: NodeId, z: NodeId, a: Token, b: Token, c: Token)
    requires Denotes(nodes, x, Atom(a)) && Denotes(nodes, y, Atom(b)) && Denotes(nodes, z, Atom(c))
    ensures nodes[x].offset == a.offset && nodes[y].offset == b.offset && nodes[z].offset == c.offset
  {}

  lemma FiveTokens(i: Input, p: nat)
    requires p + 5 <= |i.toks|
    ensures Reads(i, p, [i.At(p)] + ([i.At(p + 1)] + ([i.At(p + 2)] + ([i.At(p + 3)] + [i.At(p + 4)]))), p + 5)
  {
    assert i.toks[p..p + 5] == [i.toks[p], i.toks[p + 1], i.toks[p + 2], i.toks[p + 3], i.toks[p + 4]];
  }

  /** A kind in no group joins nothing: the expression ends before it. */
  lemma NotJoined(i: Input, p: nat, q: nat, nodes: seq<AstNode>, a: Exp)
    requires p <= |i.toks| && Tight(a) && Reads(i, p, Spell(a), q) && Idle(i.Kind(q))
    ensures var t := Read(i, Expr(0), p); var r := Result(i, Expr(0), p, nodes, NullNode);
      t.Ok? && t.next == q && ReadExpr(t.tree) == a && r.Done? && r.next == q && Denotes(r.nodes, r.id, a)
  {
    hide Idle, Fits, Spell, Reads, Read, Result, ReadExpr, Denotes;
    Whole(i, p, q, nodes, a);
  }

  /** An expression starts with an operand, a prefix operator, a bracket, `eval` or a block, or not at all. */
  lemma Starts(i: Input, p: nat, nodes: seq<AstNode>)
    requires p <= |i.toks| && i.Kind(p) !in LITERALS + NAMES + PREFIXES + {Left, KwEval, BrLeft}
    ensures Result(i, Expr(0), p, nodes, NullNode) == Failed(i.At(p))
  {
    hide Result, IsPrefixOp, IsLiteral, IsName;
    Kinds(i.Kind(p));
    OperandRefused(i, p, nodes);
    PrimaryEq(i, p, nodes);
    ExprEq(i, p, nodes, 0);
  }
}
