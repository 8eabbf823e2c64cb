/**
 The operands that are statements inside: `eval`, a `delete` in parentheses and a block. Each is
 read as itself, with nodes that stand for it.
 */
module Operands {
  import opened Tokens
  import opened Symbols
  import opened Engine
  import opened Productions
  import opened Arena
  import opened Emission
  import opened Translation
  import opened Equations
  import opened Expressions
  import opened PrattArena
  import opened Grouping
  import opened Statements
  import opened StatementsRead

  /** `eval` is written like an `if` with another keyword. */
  ghost predicate EvalGiven(i: Input, c: Core, p: nat, q: nat) {
    && c.If? && c.kw.kind.KwEval?
    && ProperCore(i.source, Core.If(c.kw.(kind := KwIf), c.open, c.cond, c.close, c.yes, c.no), false) && CoreMayPrecede(i.source, c, i.At(q))
    && Reads(i, p, CoreSpelling(c), q)
  }

  lemma EvalParts(i: Input, c: Core, p: nat, q: nat)
    requires EvalGiven(i, c, p, q)
    ensures Reads(i, p, [c.kw] + ([c.open] + (Spell(c.cond) + ([c.close] + (Spelling(c.yes) + ElseSpelling(c.no))))), q)
    ensures c.open.kind.Left? && Fits(c.cond, 0) && c.close.kind.Right? && Proper(i.source, c.yes)
    ensures MayPrecede(i.source, c.yes, if c.no.Else? then c.no.kw else i.At(q))
    ensures if c.no.NoElse? then !i.Kind(q).KwElse?
            else c.no.kw.kind.KwElse? && Proper(i.source, c.no.stm) && MayPrecede(i.source, c.no.stm, i.At(q))
  {
    hide Reads, Fits, Spell, Proper, MayPrecede, Spelling, ElseSpelling;
  }

  /** The node has the keyword's offset and links the condition, the first statement and the other, if any. */
  lemma ReadEval(i: Input, c: Core, p: nat, q: nat, nodes: seq<AstNode>)
    requires EvalGiven(i, c, p, q)
    ensures MadeCore(nodes, Result(i, Operand, p, nodes, NullNode), q, c, NoQuals)
  {
    hide MadeCore, Reads, Result, Fits, Spell, Denotes, Condition, Proper, MayPrecede, Spelling, ElseSpelling, Stands, ProperCore, CoreMayPrecede;
    EvalParts(i, c, p, q);
    var m := HeadMade(i, c.kw, c.open, c.cond, c.close, Spelling(c.yes) + ElseSpelling(c.no), p, q, nodes);
    var t := Cut(i, m, Spelling(c.yes), ElseSpelling(c.no), q);
    ElseNext(i, c.no, t, q);
    OperandForward(i, p, nodes);
    BranchEq(i, p, nodes, KwEval);
    var e := Condition(i, KwEval, p, nodes);
    ReadStm(i, c.yes, m, t, e.nodes);
    var s := Result(i, Stmt(NoQuals), m, e.nodes, NullNode);
    ReadElse(i, c.no, t, q, s.nodes);
    var n := Result(i, ElsePart, t, s.nodes, NullNode);
    IfStands(nodes, Result(i, Branch(KwEval), p, nodes, NullNode), q, c, NoQuals, e, s, n);
  }

  /** A `delete` between `o` and `z`. */
  ghost predicate CastGiven(i: Input, o: Token, c: Core, z: Token, p: nat, q: nat) {
    && o.kind.Left? && z.kind.Right? && c.Delete? && c.end.None? && ProperCore(i.source, c, false)
    && Reads(i, p, [o] + (CoreSpelling(c) + [z]), q)
  }

  /** The node has the offset of the token after `z` and links the node of the `delete`. */
  ghost predicate CastStands(nodes: seq<AstNode>, id: NodeId, c: Core, next: Token) {
    && id < |nodes| && var n := nodes[id];
    && n.data.TargetData? && n == AstNode(CastExpr, UNQUALIFIED, next.offset, 0, n.data)
    && CoreStands(nodes, n.data.target, c, UNQUALIFIED)
  }

  lemma CastParts(i: Input, o: Token, c: Core, z: Token, p: nat, q: nat) returns (k: nat, m: nat)
    requires CastGiven(i, o, c, z, p, q)
    ensures c.Delete? && i.Has(p, Left) && i.Has(p + 1, KwDelete) && i.At(p + 1) == c.kw && i.Has(m, Right) && q == m + 1
    ensures OptKind(c.auto, KwAuto) && Fits(c.target, PREFIX) && p + 2 <= k <= m < |i.toks|
    ensures Reads(i, p + 2, Opt(c.auto), k) && Reads(i, k, Spell(c.target), m)
  {
    hide Reads, Spell, Opt, Fits, OptKind;
    var target := Spell(c.target);
    assert CoreSpelling(c) == [c.kw] + (Opt(c.auto) + target) by { NoEnd(c); }
    Next(i, p, o, CoreSpelling(c) + [z], q);
    m := Cut(i, p + 1, CoreSpelling(c), [z], q);
    StatementsRead.Last(i, m, z, q);
    Next(i, p + 1, c.kw, Opt(c.auto) + target, m);
    k := Cut(i, p + 2, Opt(c.auto), target, m);
  }

  lemma NoEnd(c: Core)
    requires c.Delete? && c.end.None?
    ensures CoreSpelling(c) == [c.kw] + (Opt(c.auto) + Spell(c.target))
  {
    hide Spell;
    assert Spell(c.target) + Opt(c.end) == Spell(c.target);
  }

  lemma ReadCast(i: Input, o: Token, c: Core, z: Token, p: nat, q: nat, nodes: seq<AstNode>)
    requires CastGiven(i, o, c, z, p, q)
    ensures var r := Result(i, Operand, p, nodes, NullNode);
      r.Done? && r.next == q && nodes <= r.nodes && CastStands(r.nodes, r.id, c, i.At(q))
  {
    hide CastGiven, Fits, Spell, Reads, Result, Denotes, POSTFIXES;
    var k, m := CastParts(i, o, c, z, p, q);
    AutoTaken(i, c, p + 1, k, m);
    RightIsNoPostfix();
    PrimaryMade(i, c.target, k, m, nodes);
    DeleteMade(i, c, p + 1, k, m, nodes);
    OperandCast(i, p, nodes);
    UpToEq(i, NT.Delete, Right, p + 1, nodes);
    var d, r := Result(i, NT.Delete, p + 1, nodes, NullNode), Result(i, Operand, p, nodes, NullNode);
    StillDenotes(d.nodes, r.nodes, d.nodes[d.id].data.target, c.target);
  }

  lemma RightIsNoPostfix()
    ensures Right !in POSTFIXES
  {}

  /** A block stands for itself as an operand too. */
  lemma ReadBlockOperand(i: Input, c: Core, p: nat, q: nat, nodes: seq<AstNode>)
    requires c.Block? && StatementsRead.Given(i, c, NoQuals, p, q)
    ensures MadeCore(nodes, Result(i, Operand, p, nodes, NullNode), q, c, NoQuals)
  {
    hide StatementsRead.Given, MadeCore, Result, Reads, AllSpelling, ProperAll;
    BlockGiven(i, c, NoQuals, p, q);
    ReadCore(i, c, NoQuals, p, q, nodes);
    OperandForward(i, p, nodes);
    Dispatch(i, p, nodes, NoQuals);
  }
}
