/**
 The recursive-descent parser over a two-token window that is filled lazily from the lexer.
 Every routine is proved to do what the reference translation of its non-terminal says:
 the same tokens taken, the same error token, the same nodes appended, the same id.
 */
module ParserMachine {
  import opened Tokens
  import opened Symbols
  import opened Productions
  import opened Arena
  import opened Emission
  import opened Translation
  import opened Equations
  import opened Scanning
  import opened LexerMachine

  datatype Outcome = Parsed(id: NodeId) | SyntaxError(at: Token)

  // ---------- the window ----------

  /** No end marker of their own, and every token starts after the one before it. */
  ghost predicate Proper(toks: seq<Token>) {
    && (forall k :: 0 <= k < |toks| ==> toks[k].kind != Eof)
    && (forall j, k :: 0 <= j < k < |toks| ==> toks[j].offset < toks[k].offset)
  }

  /** The window shows two tokens from `pos` on and the lexer still has the rest. */
  ghost predicate InStep(i: Input, pos: nat, window: seq<Token>, rest: seq<Token>) {
    && pos <= |i.toks|
    && window == [i.At(pos), i.At(pos + 1)]
    && rest == (if pos + 2 <= |i.toks| then i.toks[pos + 2..] else [])
    && Proper(i.toks)
  }

  /** One call of the lexer: the next token, or the end marker for ever. */
  ghost predicate Supplies(i: Input, rest: seq<Token>, tok: Token, rest': seq<Token>) {
    if rest == [] then tok == i.End() && rest' == [] else rest == [tok] + rest'
  }

  lemma Fill(i: Input, rest: seq<Token>, a: Token, rest': seq<Token>, b: Token, rest'': seq<Token>)
    requires rest == i.toks && Proper(i.toks)
    requires Supplies(i, rest, a, rest') && Supplies(i, rest', b, rest'')
    ensures InStep(i, 0, [a, b], rest'')
  {
    hide Proper;
    if |i.toks| >= 2 { assert i.toks[2..] == rest''; }
  }

  lemma Shift(i: Input, pos: nat, window: seq<Token>, rest: seq<Token>, tok: Token, rest': seq<Token>)
    requires InStep(i, pos, window, rest) && pos < |i.toks| && Supplies(i, rest, tok, rest')
    ensures InStep(i, pos + 1, [window[1], tok], rest')
  {
    hide Proper;
    if pos + 2 < |i.toks| {
      assert rest[0] == i.toks[pos + 2];
      assert rest[1..] == i.toks[pos + 3..] == rest';
    }
  }

  /** What the window shows. */
  lemma Shown(i: Input, pos: nat, window: seq<Token>, rest: seq<Token>)
    requires InStep(i, pos, window, rest)
    ensures |window| == 2 && window[0] == i.At(pos) && pos <= |i.toks| && (pos == |i.toks| <==> window[0].kind.Eof?)
  {}

  lemma AtEnd(i: Input, pos: nat, window: seq<Token>, rest: seq<Token>)
    requires InStep(i, pos, window, rest) && window[0].kind.Eof?
    ensures pos == |i.toks| && [window[1], window[0]] == window
  {}

  lemma TokensProper(s: string, c: nat)
    requires c <= |s|
    ensures Proper(TokensFrom(s, c))
  {
    var p := Spans(s, c);
    Tiling(s, c);
    KindsAreReal(s, c, p);
    forall j, k | 0 <= j < k < |p| ensures TokensFrom(s, c)[j].offset < TokensFrom(s, c)[k].offset {
      TilesOrdered(s, c, p, j, k);
    }
  }

  lemma {:induction false} KindsAreReal(s: string, c: nat, p: seq<Span>)
    requires c <= |s| && Tiles(s, c, p)
    ensures forall k :: 0 <= k < |p| ==> p[k].kind != Eof
    decreases |p|
  {
    if p != [] {
      KindsAreReal(s, p[0].end, p[1..]);
      forall k | 0 <= k < |p| ensures p[k].kind != Eof {
        if k > 0 { assert p[k] == p[1..][k - 1]; }
      }
    }
  }

  // ---------- tests on token kinds ----------

  lemma UsingText(i: Input, p: nat)
    ensures IsUsing(i.source, i.At(p)) <==> i.Has(p, Ident) && TextAt(i.source, i.At(p)) == "using"
  {
    hide TextAt;
  }

  lemma DispatchKinds(i: Input, p: nat)
    ensures StartsDecl(i.Kind(p), i.Kind(p + 1)) <==> i.Has(p, KwByte) || (i.Has(p, Ident) && i.Has(p + 1, Ident))
    ensures Undispatched(i.Kind(p)) <==> (!IsQualifier(i.Kind(p)) && !i.Has(p, BrLeft) && !i.Has(p, KwIf) && !i.Has(p, KwWhile)
      && !i.Has(p, KwFor) && !i.Has(p, KwReturn) && !i.Has(p, KwBreak) && !i.Has(p, KwContinue) && !i.Has(p, KwStruct)
      && !i.Has(p, KwNamespace) && !i.Has(p, KwDelete) && !i.Has(p, KwRequires) && !i.Has(p, KwType))
  {}

  lemma EndIsEof(i: Input, p: nat)
    requires p <= |i.toks|
    ensures !i.Has(p, Eof) ==> p < |i.toks|
  {}

  lemma EndIsNothingElse(i: Input, p: nat)
    ensures i.Has(p, Eof) ==> !i.Has(p, Comma) && !i.Has(p, Right) && !i.Has(p, Ident)
  {}

  /** A declaration with a type or `auto`. */
  lemma DeclEq(i: Input, p: nat, nodes: seq<AstNode>, q: Qualifiers)
    requires p <= |i.toks| && Undispatched(i.Kind(p)) && (q.isAuto || StartsDecl(i.Kind(p), i.Kind(p + 1)))
    ensures q.isAuto || !i.Has(p, Eof)
    ensures var n := if q.isAuto then p else p + 1;
      Result(i, Stmt(q), p, nodes, NullNode) ==
        if !i.Has(n, Ident) then Failed(i.At(n))
        else Result(i, DeclRest(q, if q.isAuto then AutoType else i.At(p), i.At(n)), n + 1, nodes, NullNode)
  {
    hide Result, Undispatched;
    if q.isAuto { StmtAutoDecl(i, p, nodes, q); } else { StmtTypedDecl(i, p, nodes, q); }
  }

  /** At the end of input the declaration made up there adds only leaves. */
  lemma LostForest(i: Input, p: nat, nodes: seq<AstNode>, q: Qualifiers, typ: Token, name: Token)
    requires p <= |i.toks| && i.Has(p, Eof) && Forest(nodes)
    ensures Initialised(i, q, typ, name, p, nodes) == Done(|nodes|, p, nodes + Decl(VarDeclKind, q, typ, name, NullNode, |nodes|))
    ensures Forest(nodes + Decl(VarDeclKind, q, typ, name, NullNode, |nodes|))
  {
    hide Result, Forest, Decl;
    InitEq(i, p, nodes);
    NamesForest(nodes, q, typ, name);
  }

  lemma Advances(i: Input, n: NT, p: nat, nodes: seq<AstNode>)
    requires n.Stmt? || n.Primary? || n.Operand? || n.Expr?
    ensures var r := Result(i, n, p, nodes, NullNode); r.Done? ==> p < r.next
  {
    hide Result;
  }

  lemma StepAdvances(i: Input, n: NT, p: nat, nodes: seq<AstNode>, inh: NodeId)
    requires n.BinStep? || n.PostfixStep?
    ensures var r := Result(i, n, p, nodes, inh); r.Done? ==> p < r.next
  {
    hide Result;
  }

  lemma QualifierKinds(i: Input, p: nat, q: Qualifiers)
    ensures IsQualifier(i.Kind(p)) <==> i.Has(p, KwConstexpr) || i.Has(p, KwConst) || i.Has(p, KwStatic) || i.Has(p, KwInline) || i.Has(p, KwAuto)
    ensures i.Has(p, KwConstexpr) ==> WithQualifier(q, i.Kind(p)) == q.(isConstexpr := true)
    ensures i.Has(p, KwConst) ==> WithQualifier(q, i.Kind(p)) == q.(isConst := true)
    ensures i.Has(p, KwStatic) ==> WithQualifier(q, i.Kind(p)) == q.(isStatic := true)
    ensures i.Has(p, KwInline) ==> WithQualifier(q, i.Kind(p)) == q.(isInline := true)
    ensures i.Has(p, KwAuto) ==> WithQualifier(q, i.Kind(p)) == q.(isAuto := true)
  {}

  /** A declaration without initialiser adds only leaves and links to them. */
  lemma NamesForest(nodes: seq<AstNode>, q: Qualifiers, typ: Token, name: Token)
    requires Forest(nodes)
    ensures Forest(nodes + Decl(VarDeclKind, q, typ, name, NullNode, |nodes|))
  {
    hide Forest;
    var d := Decl(VarDeclKind, q, typ, name, NullNode, |nodes|);
    AddDecl(nodes, d[0], d[1], d[2]);
  }

  lemma OperandKinds(i: Input, p: nat)
    ensures IsPrefixOp(i.Kind(p)) <==> (i.Has(p, PPlus) || i.Has(p, MMinus) || i.Has(p, Excl) || i.Has(p, Tilde)
      || i.Has(p, Minus) || i.Has(p, Amp) || i.Has(p, Star))
    ensures IsLiteral(i.Kind(p)) <==> (i.Has(p, LInt) || i.Has(p, LFloat) || i.Has(p, LString) || i.Has(p, LChar)
      || i.Has(p, KwTrue) || i.Has(p, KwFalse))
    ensures IsName(i.Kind(p)) <==> i.Has(p, Ident) || i.Has(p, KwVoid) || i.Has(p, KwByte)
  {}

  lemma GroupKinds(i: Input, p: nat)
    ensures StartsOperand(i.Kind(p)) <==> (IsPrefixOp(i.Kind(p)) || IsLiteral(i.Kind(p)) || IsName(i.Kind(p))
      || i.Has(p, KwEval) || i.Has(p, Left) || i.Has(p, BrLeft))
  {}

  lemma PostfixKinds(i: Input, p: nat)
    ensures IsPostfixStart(i.Kind(p)) <==> (i.Has(p, Left) || i.Has(p, Dot) || i.Has(p, Arrow) || i.Has(p, SqLeft)
      || i.Has(p, PPlus) || i.Has(p, MMinus))
  {}

  lemma Operators(i: Input, p: nat)
    ensures Precedence(i.Kind(p)) != 0 || IsPrefixOp(i.Kind(p)) || IsLiteral(i.Kind(p)) || IsName(i.Kind(p)) ==>
      i.Has(p, i.Kind(p)) && i.Kind(p) != Eof
  {}

  lemma KindAt(i: Input, p: nat)
    ensures i.At(p).kind == i.Kind(p)
  {}

  lemma StepOperators(i: Input, p: nat)
    requires i.Has(p, PPlus) || i.Has(p, MMinus) || i.Has(p, Dot) || i.Has(p, Arrow) || i.Has(p, KwBreak) || i.Has(p, KwContinue)
      || IsQualifier(i.Kind(p))
    ensures i.Has(p, i.Kind(p)) && i.Kind(p) != Eof
  {}

  /** Adding a leaf never spoils the forest. */
  lemma LeafForest(nodes: seq<AstNode>, n: AstNode)
    requires Forest(nodes) && (n.data.NoData? || n.data.LiteralData?)
    ensures Forest(nodes + [n])
  {
    hide Forest;
    AddNode(nodes, n);
  }

  class Parser {
    const lexer: Lexer
    const source: string
    var tree: seq<AstNode>
    var window: seq<Token>
    /** The whole token list and the number of tokens taken from it. */
    ghost const input: Input
    ghost var pos: nat

    ghost predicate Valid()
      reads this`window, this`pos, lexer
    {
      && lexer.Valid() && lexer.source == source == input.source
      && InStep(input, pos, window, lexer.Rest())
    }

    /** The state between any two calls: in step with the lexer, with a forest for an arena. */
    ghost predicate Good()
      reads this, lexer
    {
      Valid() && Forest(tree)
    }

    lemma Arranged()
      requires Good()
      ensures Forest(tree) && pos <= |input.toks| && |window| == 2 && source == input.source
      ensures window[0] == input.At(pos) && window[1] == input.At(pos + 1)
    {
      hide Forest;
    }

    constructor (lex: Lexer, src: string)
      requires lex.Valid() && lex.source == src
      modifies lex
      ensures Good() && lexer == lex && pos == 0 && tree == []
      ensures input == Input(src, old(lex.Rest()))
    {
      lexer, source, tree, window, pos := lex, src, [], [], 0;
      input := Input(src, lex.Rest());
      new;
      hide TokensFrom, Proper;
      TokensProper(src, lex.cursor);
      InitWindow();
    }

    method InitWindow()
      requires lexer.Valid() && lexer.source == source == input.source && lexer.Rest() == input.toks
      requires Proper(input.toks) && pos == 0
      modifies this`window, lexer
      ensures Valid()
    {
      hide TokensFrom, Proper, InStep;
      ghost var r0 := lexer.Rest();
      var a := lexer.NextToken();
      ghost var r1 := lexer.Rest();
      var b := lexer.NextToken();
      Fill(input, r0, a, r1, b, lexer.Rest());
      window := [a, b];
    }

    function Peek(offset: nat): (t: Token)
      requires Good()
      reads this, lexer
      ensures var p := if offset == 0 then pos else pos + 1; t == input.At(p) && t.kind == input.Kind(p)
    {
      hide Forest;
      if offset >= 2 then window[1] else window[offset]
    }

    predicate Check(kind: TokenType)
      requires Good()
      reads this, lexer
      ensures Check(kind) <==> input.Has(pos, kind)
    {
      hide Good;
      Peek(0).kind == kind
    }

    predicate CheckNext(kind: TokenType)
      requires Good()
      reads this, lexer
      ensures CheckNext(kind) <==> input.Has(pos + 1, kind)
    {
      hide Good;
      Peek(1).kind == kind
    }

    method Advance() returns (current: Token)
      requires Good()
      modifies this`window, this`pos, lexer
      ensures Good()
      ensures current == input.At(old(pos))
      ensures pos == if old(pos) < |input.toks| then old(pos) + 1 else old(pos)
    {
      hide Forest, TokensFrom, InStep;
      Shown(input, pos, window, lexer.Rest());
      current := window[0];
      if !current.kind.Eof? {
        ghost var rest := lexer.Rest();
        var t := lexer.NextToken();
        Shift(input, pos, window, rest, t, lexer.Rest());
        window := [window[1], t];
        pos := pos + 1;
      } else {
        AtEnd(input, pos, window, lexer.Rest());
        window := [window[1], current];
      }
    }

    method Match(kind: TokenType) returns (b: bool)
      requires Good() && kind != Eof
      modifies this`window, this`pos, lexer
      ensures Good()
      ensures b == input.Has(old(pos), kind)
      ensures pos == if b then old(pos) + 1 else old(pos)
      ensures b ==> old(pos) < |input.toks|
    {
      hide Good;
      b := Check(kind);
      if b {
        NotAtEnd(input, pos, kind);
        var _ := Advance();
      }
    }

    /** Takes a token that is known to be there. */
    method Take(ghost kind: TokenType) returns (tok: Token)
      requires Good() && kind != Eof && input.Has(pos, kind)
      modifies this`window, this`pos, lexer
      ensures Good() && tok == input.At(old(pos)) && tok.kind == kind && pos == old(pos) + 1 <= |input.toks|
    {
      hide Good;
      NotAtEnd(input, pos, kind);
      KindAt(input, pos);
      tok := Advance();
    }

    /** Takes a token of the given kind, or reports the token found instead. */
    method Expect(kind: TokenType) returns (ok: bool, tok: Token)
      requires Good() && kind != Eof
      modifies this`window, this`pos, lexer
      ensures Good() && tok == input.At(old(pos))
      ensures ok == (input.Has(old(pos), kind))
      ensures pos == if ok then old(pos) + 1 else old(pos)
      ensures ok ==> old(pos) < |input.toks|
    {
      hide Good;
      ok := Check(kind);
      if ok {
        NotAtEnd(input, pos, kind);
        tok := Advance();
      } else {
        tok := Peek(0);
      }
    }

    // ---------- nodes ----------

    method CreateNode(kind: NodeKind, offset: nat, length: nat) returns (id: NodeId)
      modifies this`tree
      ensures id == |old(tree)| && tree == old(tree) + [AstNode(kind, NoQuals, offset, length, NoData)]
    {
      tree := tree + [AstNode(kind, NoQuals, offset, length, NoData)];
      id := |tree| - 1;
    }

    method SetData(id: NodeId, data: Payload)
      requires id < |tree|
      modifies this`tree
      ensures tree == old(tree)[id := old(tree)[id].(data := data)]
    {
      tree := tree[id := tree[id].(data := data)];
    }

    method SetQualifiers(id: NodeId, quals: Qualifiers)
      requires id < |tree|
      modifies this`tree
      ensures tree == old(tree)[id := old(tree)[id].(quals := quals)]
    {
      tree := tree[id := tree[id].(quals := quals)];
    }

    /** A finished node: created and then given its payload. */
    method NewNode(kind: NodeKind, offset: nat, length: nat, data: Payload) returns (id: NodeId)
      requires Good() && Forest(tree + [AstNode(kind, NoQuals, offset, length, data)])
      modifies this`tree
      ensures Good() && id == |old(tree)| && tree == old(tree) + [AstNode(kind, NoQuals, offset, length, data)]
    {
      hide Valid, Forest;
      id := CreateNode(kind, offset, length);
      SetData(id, data);
      assert tree == old(tree) + [AstNode(kind, NoQuals, offset, length, data)];
    }

    /** The node of a block or of the whole unit, which never gets a payload. */
    method OpenUnitNode(offset: nat) returns (id: NodeId)
      requires Good()
      modifies this`tree
      ensures Good() && id == |old(tree)| && tree == old(tree) + [Plain(TranslationUnitKind, offset, NoData)]
    {
      hide Valid, Forest;
      LeafForest(tree, Plain(TranslationUnitKind, offset, NoData));
      id := CreateNode(TranslationUnitKind, offset, 0);
    }

    method NewQualified(kind: NodeKind, quals: Qualifiers, offset: nat, data: Payload) returns (id: NodeId)
      requires Good() && Forest(tree + [AstNode(kind, quals, offset, 0, data)])
      modifies this`tree
      ensures Good() && id == |old(tree)| && tree == old(tree) + [AstNode(kind, quals, offset, 0, data)]
    {
      hide Valid, Forest;
      id := CreateNode(kind, offset, 0);
      SetQualifiers(id, quals);
      SetData(id, data);
      assert tree == old(tree) + [AstNode(kind, quals, offset, 0, data)];
    }

    /** A literal or identifier node. */
    method NewLeaf(kind: NodeKind, tok: Token) returns (id: NodeId)
      requires Good()
      modifies this`tree
      ensures Good() && id == |old(tree)|
      ensures tree == old(tree) + [AstNode(kind, NoQuals, tok.offset, tok.size, LiteralData(tok.kind, 0))]
      ensures kind == IdentifierExpr ==> tree == old(tree) + [Name(tok)]
    {
      hide Valid, Forest;
      var data := LiteralData(tok.kind, 0);
      LeafForest(tree, AstNode(kind, NoQuals, tok.offset, tok.size, data));
      id := NewNode(kind, tok.offset, tok.size, data);
    }

    /** A variable or type declaration, created before the two names it links to. */
    method NewDecl(kind: NodeKind, quals: Qualifiers, typ: Token, name: Token, init: NodeId) returns (id: NodeId)
      requires Good() && Forest(tree + Decl(kind, quals, typ, name, init, |tree|))
      modifies this`tree
      ensures Good() && id == |old(tree)| && tree == old(tree) + Decl(kind, quals, typ, name, init, id)
    {
      hide Valid, Forest;
      LeafForest(tree, AstNode(kind, NoQuals, typ.offset, 0, NoData));
      id := CreateNode(kind, typ.offset, 0);
      var typeNode := NewLeaf(IdentifierExpr, typ);
      var nameNode := NewLeaf(IdentifierExpr, name);
      SetQualifiers(id, quals);
      SetData(id, VarData(typeNode, nameNode, init));
      assert tree == old(tree) + Decl(kind, quals, typ, name, init, id);
    }

    // ---------- expressions ----------

    method ParseExpression(min: nat) returns (out: Outcome)
      requires Good()
      modifies this, lexer
      ensures Good()
      ensures Result(input, Expr(min), old(pos), old(tree), NullNode) == if out.Parsed? then Done(out.id, pos, tree) else Failed(out.at)
      decreases |input.toks| - pos, 4
    {
      hide *;
      Arranged();
      ExprEq(input, pos, tree, min);
      StaysUsable(input, Primary, pos, tree, NullNode);
      Advances(input, Primary, pos, tree);
      var start := ParsePrimaryExpression();
      if start.SyntaxError? { return start; }
      var lhs := start.id;
      while true
        invariant Good() && old(pos) < pos <= |input.toks| && Forest(tree) && Usable(tree, lhs)
        invariant Result(input, Expr(min), old(pos), old(tree), NullNode) == Result(input, Tail(min), pos, tree, lhs)
        decreases |input.toks| - pos
      {
        TailEq(input, min, pos, tree, lhs);
        var prec := Precedence(Peek(0).kind);
        if prec < min || prec == 0 {
          break;
        }
        var longer := ParseOperation(lhs, prec);
        if longer.SyntaxError? { return longer; }
        lhs := longer.id;
      }
      return Parsed(lhs);
    }

    /** One operator of the loop, with its right operand. */
    method ParseOperation(lhs: NodeId, prec: nat) returns (out: Outcome)
      requires Good() && Usable(tree, lhs) && prec == Precedence(input.Kind(pos)) && prec != 0
      modifies this, lexer
      ensures Good() && (out.Parsed? ==> old(pos) < pos <= |input.toks| && Forest(tree) && Usable(tree, out.id))
      ensures Result(input, BinStep, old(pos), old(tree), lhs) == if out.Parsed? then Done(out.id, pos, tree) else Failed(out.at)
      decreases |input.toks| - pos, 3
    {
      hide *;
      Arranged();
      BinStepEq(input, pos, tree, lhs);
      StaysUsable(input, BinStep, pos, tree, lhs);
      StepAdvances(input, BinStep, pos, tree, lhs);
      Operators(input, pos);
      var opTok := Take(input.Kind(pos));
      var rhs := ParseExpression(prec + 1);
      if rhs.SyntaxError? { return rhs; }
      var id := NewNode(BinaryExpr, opTok.offset, 0, BinaryData(opTok.kind, lhs, rhs.id));
      return Parsed(id);
    }

    method ParsePrimaryExpression() returns (out: Outcome)
      requires Good()
      modifies this, lexer
      ensures Good()
      ensures Result(input, Primary, old(pos), old(tree), NullNode) == if out.Parsed? then Done(out.id, pos, tree) else Failed(out.at)
      decreases |input.toks| - pos, 3
    {
      hide *;
      Arranged();
      PrimaryEq(input, pos, tree);
      StaysUsable(input, Operand, pos, tree, NullNode);
      Advances(input, Operand, pos, tree);
      var operand := ParseOperand();
      if operand.SyntaxError? { return operand; }
      out := ParsePostfixExpression(operand.id);
    }

    /** Everything an expression can start with, up to its first postfix. */
    method ParseOperand() returns (out: Outcome)
      requires Good()
      modifies this, lexer
      ensures Good()
      ensures Result(input, Operand, old(pos), old(tree), NullNode) == if out.Parsed? then Done(out.id, pos, tree) else Failed(out.at)
      decreases |input.toks| - pos, 2
    {
      hide *;
      Arranged();
      OperandKinds(input, pos);
      if Check(PPlus) || Check(MMinus) || Check(Excl) || Check(Tilde) || Check(Minus) || Check(Amp) || Check(Star) {
        out := ParsePrefix();
      } else if Check(LInt) || Check(LFloat) || Check(LString) || Check(LChar) || Check(KwTrue) || Check(KwFalse) {
        out := ParseLiteral();
      } else if Check(Ident) || Check(KwVoid) || Check(KwByte) {
        out := ParseName();
      } else {
        out := ParseGroup();
      }
    }

    method ParseLiteral() returns (out: Outcome)
      requires Good() && IsLiteral(input.Kind(pos))
      modifies this, lexer
      ensures Good()
      ensures Result(input, Operand, old(pos), old(tree), NullNode) == if out.Parsed? then Done(out.id, pos, tree) else Failed(out.at)
    {
      hide *;
      Arranged();
      OperandLiteral(input, pos, tree);
      Operators(input, pos);
      var t := Take(input.Kind(pos));
      var id := NewLeaf(LiteralExpr, t);
      return Parsed(id);
    }

    method ParseName() returns (out: Outcome)
      requires Good() && IsName(input.Kind(pos))
      modifies this, lexer
      ensures Good()
      ensures Result(input, Operand, old(pos), old(tree), NullNode) == if out.Parsed? then Done(out.id, pos, tree) else Failed(out.at)
    {
      hide *;
      Arranged();
      OperandName(input, pos, tree);
      Operators(input, pos);
      var t := Take(input.Kind(pos));
      var id := NewLeaf(IdentifierExpr, t);
      return Parsed(id);
    }

    /** The operands that contain others, or the error when there is none. */
    method ParseGroup() returns (out: Outcome)
      requires Good() && !IsPrefixOp(input.Kind(pos)) && !IsLiteral(input.Kind(pos)) && !IsName(input.Kind(pos))
      modifies this, lexer
      ensures Good()
      ensures Result(input, Operand, old(pos), old(tree), NullNode) == if out.Parsed? then Done(out.id, pos, tree) else Failed(out.at)
      decreases |input.toks| - pos, 1
    {
      hide *;
      Arranged();
      GroupKinds(input, pos);
      if Check(KwEval) {
        OperandForward(input, pos, tree);
        out := ParseBranch(KwEval);
      } else if Check(Left) && CheckNext(KwDelete) {
        out := ParseCast();
      } else if Check(BrLeft) {
        OperandForward(input, pos, tree);
        out := ParseBlock();
      } else if Check(Left) {
        out := ParseParenthesised();
      } else {
        OperandRefused(input, pos, tree);
        out := SyntaxError(Peek(0));
      }
    }

    method ParsePrefix() returns (out: Outcome)
      requires Good() && IsPrefixOp(input.Kind(pos))
      modifies this, lexer
      ensures Good()
      ensures Result(input, Operand, old(pos), old(tree), NullNode) == if out.Parsed? then Done(out.id, pos, tree) else Failed(out.at)
      decreases |input.toks| - pos, 0
    {
      hide *;
      Arranged();
      OperandPrefix(input, pos, tree);
      StaysForest(input, Operand, pos, tree);
      Operators(input, pos);
      var op := Take(input.Kind(pos));
      var operand := ParsePrimaryExpression();
      if operand.SyntaxError? { return operand; }
      var id := NewNode(UnaryExpr, op.offset, op.size, UnaryData(op.kind, operand.id));
      return Parsed(id);
    }

    /** `(delete x)`. The node is placed at the token that follows the parenthesis. */
    method ParseCast() returns (out: Outcome)
      requires Good() && input.Has(pos, Left) && input.Has(pos + 1, KwDelete)
      modifies this, lexer
      ensures Good()
      ensures Result(input, Operand, old(pos), old(tree), NullNode) == if out.Parsed? then Done(out.id, pos, tree) else Failed(out.at)
      decreases |input.toks| - pos, 0
    {
      hide *;
      Arranged();
      OperandCast(input, pos, tree);
      StaysForest(input, Operand, pos, tree);
      var _ := Take(Left);
      Arranged();
      UpToEq(input, Delete, Right, pos, tree);
      var inner := ParseDeleteStatement();
      if inner.SyntaxError? { return inner; }
      var ok, tok := Expect(Right);
      if !ok { return SyntaxError(tok); }
      var id := NewNode(CastExpr, Peek(0).offset, 0, TargetData(inner.id));
      return Parsed(id);
    }

    method ParseParenthesised() returns (out: Outcome)
      requires Good() && input.Has(pos, Left) && !input.Has(pos + 1, KwDelete)
      modifies this, lexer
      ensures Good()
      ensures Result(input, Operand, old(pos), old(tree), NullNode) == if out.Parsed? then Done(out.id, pos, tree) else Failed(out.at)
      decreases |input.toks| - pos, 0
    {
      hide *;
      Arranged();
      OperandParen(input, pos, tree);
      var _ := Take(Left);
      out := ParseExpressionUpTo(Right);
    }

    /** An expression and the token that has to follow it. */
    method ParseExpressionUpTo(close: TokenType) returns (out: Outcome)
      requires Good() && close != Eof
      modifies this, lexer
      ensures Good() && (out.Parsed? ==> old(pos) < pos)
      ensures UpTo(input, Expr(0), close, old(pos), old(tree)) == if out.Parsed? then Done(out.id, pos, tree) else Failed(out.at)
      decreases |input.toks| - pos, 5
    {
      hide *;
      Arranged();
      UpToEq(input, Expr(0), close, pos, tree);
      out := ParseExpression(0);
      if out.SyntaxError? { return; }
      var ok, tok := Expect(close);
      if !ok { return SyntaxError(tok); }
    }

    method ParsePostfixExpression(expr: NodeId) returns (out: Outcome)
      requires Good() && Usable(tree, expr)
      modifies this, lexer
      ensures Good()
      ensures Result(input, Postfixes, old(pos), old(tree), expr) == if out.Parsed? then Done(out.id, pos, tree) else Failed(out.at)
      decreases |input.toks| - pos, 2
    {
      hide *;
      var cur := expr;
      Arranged();
      while IsPostfixStart(Peek(0).kind)
        invariant Good() && old(pos) <= pos <= |input.toks| && Forest(tree) && Usable(tree, cur)
        invariant Result(input, Postfixes, old(pos), old(tree), expr) == Result(input, Postfixes, pos, tree, cur)
        decreases |input.toks| - pos
      {
        PostfixesEq(input, pos, tree, cur);
        var step := ParsePostfix(cur);
        if step.SyntaxError? { return step; }
        cur := step.id;
      }
      PostfixesEq(input, pos, tree, cur);
      return Parsed(cur);
    }

    /** One postfix of the loop. */
    method ParsePostfix(cur: NodeId) returns (step: Outcome)
      requires Good() && Usable(tree, cur) && IsPostfixStart(input.Kind(pos))
      modifies this, lexer
      ensures Good() && (step.Parsed? ==> old(pos) < pos <= |input.toks| && Forest(tree) && Usable(tree, step.id))
      ensures Result(input, PostfixStep, old(pos), old(tree), cur) == if step.Parsed? then Done(step.id, pos, tree) else Failed(step.at)
      decreases |input.toks| - pos, 1
    {
      hide *;
      Arranged();
      PostfixKinds(input, pos);
      StaysUsable(input, PostfixStep, pos, tree, cur);
      StepAdvances(input, PostfixStep, pos, tree, cur);
      if Check(Left) {
        step := ParseCall(cur);
      } else if Check(Dot) || Check(Arrow) {
        step := ParseMember(cur);
      } else if Check(SqLeft) {
        step := ParseIndex(cur);
      } else {
        step := ParseBump(cur);
      }
    }

    /** `++` or `--` after an expression. */
    method ParseBump(cur: NodeId) returns (out: Outcome)
      requires Good() && Usable(tree, cur) && (input.Has(pos, PPlus) || input.Has(pos, MMinus))
      modifies this, lexer
      ensures Good()
      ensures Result(input, PostfixStep, old(pos), old(tree), cur) == if out.Parsed? then Done(out.id, pos, tree) else Failed(out.at)
    {
      hide *;
      Arranged();
      StepInc(input, pos, tree, cur);
      StaysUsable(input, PostfixStep, pos, tree, cur);
      StepOperators(input, pos);
      var op := Take(input.Kind(pos));
      var id := NewNode(UnaryExpr, op.offset, 0, UnaryData(op.kind, cur));
      return Parsed(id);
    }

    /** `(args)`. The node is placed at the token that follows the parenthesis. */
    method ParseCall(expr: NodeId) returns (out: Outcome)
      requires Good() && Usable(tree, expr) && input.Has(pos, Left)
      modifies this, lexer
      ensures Good()
      ensures Result(input, PostfixStep, old(pos), old(tree), expr) == if out.Parsed? then Done(out.id, pos, tree) else Failed(out.at)
      decreases |input.toks| - pos, 0
    {
      hide *;
      Arranged();
      StepCall(input, pos, tree, expr);
      StaysUsable(input, PostfixStep, pos, tree, expr);
      var _ := Take(Left);
      var args := ParseArgsUpTo();
      if args.SyntaxError? { return args; }
      var id := NewNode(CallExpr, Peek(0).offset, 0, CallData(expr, args.id));
      return Parsed(id);
    }

    method ParseArgsUpTo() returns (out: Outcome)
      requires Good()
      modifies this, lexer
      ensures Good()
      ensures UpTo(input, Args, Right, old(pos), old(tree)) == if out.Parsed? then Done(out.id, pos, tree) else Failed(out.at)
      decreases |input.toks| - pos, 8
    {
      hide *;
      Arranged();
      UpToEq(input, Args, Right, pos, tree);
      out := ParseArgs();
      if out.SyntaxError? { return; }
      var ok, tok := Expect(Right);
      if !ok { return SyntaxError(tok); }
    }

    /** Only the first argument is linked from the call. */
    method ParseArgs() returns (out: Outcome)
      requires Good()
      modifies this, lexer
      ensures Good()
      ensures Result(input, Args, old(pos), old(tree), NullNode) == if out.Parsed? then Done(out.id, pos, tree) else Failed(out.at)
      decreases |input.toks| - pos, 7
    {
      hide *;
      Arranged();
      if Check(Right) {
        EmptyList(input, pos, tree);
        return Parsed(NullNode);
      }
      ArgsSome(input, pos, tree);
      ListedEq(input, Expr(0), MoreArgs, pos, tree);
      out := ParseExpression(0);
      if out.SyntaxError? { return; }
      var rest := ParseMoreArgs();
      if rest.SyntaxError? { return rest; }
    }

    /** The arguments after the first one, which no node links to. */
    method ParseMoreArgs() returns (out: Outcome)
      requires Good()
      modifies this, lexer
      ensures Good()
      ensures Result(input, MoreArgs, old(pos), old(tree), NullNode) == if out.Parsed? then Done(out.id, pos, tree) else Failed(out.at)
      decreases |input.toks| - pos, 6
    {
      hide *;
      Arranged();
      while Check(Comma)
        invariant Good() && old(pos) <= pos <= |input.toks|
        invariant Result(input, MoreArgs, old(pos), old(tree), NullNode) == Result(input, MoreArgs, pos, tree, NullNode)
        decreases |input.toks| - pos
      {
        var other := ParseNextArg();
        if other.SyntaxError? { return other; }
        Arranged();
      }
      MoreArgsEq(input, pos, tree);
      return Parsed(NullNode);
    }

    method ParseNextArg() returns (out: Outcome)
      requires Good() && input.Has(pos, Comma)
      modifies this, lexer
      ensures Good() && (out.Parsed? ==> old(pos) < pos)
      ensures Result(input, MoreArgs, old(pos), old(tree), NullNode) ==
        if out.Parsed? then Result(input, MoreArgs, pos, tree, NullNode) else Failed(out.at)
      decreases |input.toks| - pos, 5
    {
      hide *;
      Arranged();
      MoreArgsEq(input, pos, tree);
      Advances(input, Expr(0), pos + 1, tree);
      var _ := Take(Comma);
      out := ParseExpression(0);
    }

    /** `.name` or `->name`. */
    method ParseMember(expr: NodeId) returns (out: Outcome)
      requires Good() && Usable(tree, expr) && (input.Has(pos, Dot) || input.Has(pos, Arrow))
      modifies this, lexer
      ensures Good()
      ensures Result(input, PostfixStep, old(pos), old(tree), expr) == if out.Parsed? then Done(out.id, pos, tree) else Failed(out.at)
      decreases |input.toks| - pos, 0
    {
      hide *;
      Arranged();
      StepMember(input, pos, tree, expr);
      StaysUsable(input, PostfixStep, pos, tree, expr);
      StepOperators(input, pos);
      var op := Take(input.Kind(pos));
      var ok, member := Expect(Ident);
      if !ok { return SyntaxError(member); }
      ghost var before := tree;
      var memberNode := NewLeaf(IdentifierExpr, member);
      assert forall n :: before + [Name(member)] + [n] == before + [Name(member), n];
      var id := NewNode(MemberAccessExpr, op.offset, 0, BinaryData(op.kind, expr, memberNode));
      return Parsed(id);
    }

    /** `[index]`. The node is placed at the token that follows the bracket. */
    method ParseIndex(expr: NodeId) returns (out: Outcome)
      requires Good() && Usable(tree, expr) && input.Has(pos, SqLeft)
      modifies this, lexer
      ensures Good()
      ensures Result(input, PostfixStep, old(pos), old(tree), expr) == if out.Parsed? then Done(out.id, pos, tree) else Failed(out.at)
      decreases |input.toks| - pos, 0
    {
      hide *;
      Arranged();
      StepIndex(input, pos, tree, expr);
      StaysUsable(input, PostfixStep, pos, tree, expr);
      var _ := Take(SqLeft);
      var index := ParseExpressionUpTo(SqRight);
      if index.SyntaxError? { return index; }
      var id := NewNode(BinaryExpr, Peek(0).offset, 0, BinaryData(SqLeft, expr, index.id));
      return Parsed(id);
    }

    // ---------- statements ----------

    /** Contents up to the closing brace; the block's node comes first and links to none of them. */
    method ParseBlock() returns (out: Outcome)
      requires Good() && input.Has(pos, BrLeft)
      modifies this, lexer
      ensures Good()
      ensures Result(input, Block, old(pos), old(tree), NullNode) == if out.Parsed? then Done(out.id, pos, tree) else Failed(out.at)
      decreases |input.toks| - pos, 0
    {
      hide *;
      Arranged();
      BlockEq(input, pos, tree);
      var _ := Take(BrLeft);
      var blockId := OpenUnitNode(Peek(0).offset);
      var contents := ParseContents();
      if contents.SyntaxError? { return contents; }
      return Parsed(blockId);
    }

    method ParseContents() returns (out: Outcome)
      requires Good()
      modifies this, lexer
      ensures Good()
      ensures Contents(input, old(pos), old(tree)) == if out.Parsed? then Done(out.id, pos, tree) else Failed(out.at)
      decreases |input.toks| - pos, 9
    {
      hide *;
      Arranged();
      ContentsEq(input, pos, tree);
      out := ParseStatements();
      if out.SyntaxError? { return; }
      var ok, tok := Expect(BrRight);
      if !ok { return SyntaxError(tok); }
    }

    method ParseStatements() returns (out: Outcome)
      requires Good()
      modifies this, lexer
      ensures Good()
      ensures Result(input, Stmts, old(pos), old(tree), NullNode) == if out.Parsed? then Done(out.id, pos, tree) else Failed(out.at)
      decreases |input.toks| - pos, 8
    {
      hide *;
      Arranged();
      while !Check(BrRight) && !Check(Eof)
        invariant Good() && old(pos) <= pos <= |input.toks|
        invariant Result(input, Stmts, old(pos), old(tree), NullNode) == Result(input, Stmts, pos, tree, NullNode)
        decreases |input.toks| - pos
      {
        StmtsEq(input, Stmts, pos, tree);
        Advances(input, Stmt(NoQuals), pos, tree);
        var s := ParseStatement();
        if s.SyntaxError? { return s; }
      }
      StmtsEq(input, Stmts, pos, tree);
      return Parsed(NullNode);
    }

    /** `if` and `eval` share their form. */
    method ParseBranch(kw: TokenType) returns (out: Outcome)
      requires Good() && kw != Eof
      modifies this, lexer
      ensures Good()
      ensures Result(input, Branch(kw), old(pos), old(tree), NullNode) == if out.Parsed? then Done(out.id, pos, tree) else Failed(out.at)
      decreases |input.toks| - pos, 0, 1
    {
      hide *;
      Arranged();
      BranchEq(input, pos, tree, kw);
      StaysForest(input, Branch(kw), pos, tree);
      var cond, branchTok := ParseCondition(kw);
      if cond.SyntaxError? { return cond; }
      var thenBlock := ParseStatement();
      if thenBlock.SyntaxError? { return thenBlock; }
      var elseBlock := ParseElse();
      if elseBlock.SyntaxError? { return elseBlock; }
      var id := NewNode(EvalExpr, branchTok.offset, 0, EvalData(cond.id, thenBlock.id, elseBlock.id));
      return Parsed(id);
    }

    /** A keyword and the condition in parentheses after it. */
    method ParseCondition(kw: TokenType) returns (out: Outcome, head: Token)
      requires Good() && kw != Eof
      modifies this, lexer
      ensures Good() && head == input.At(old(pos)) && (out.Parsed? ==> old(pos) < pos)
      ensures Condition(input, kw, old(pos), old(tree)) == if out.Parsed? then Done(out.id, pos, tree) else Failed(out.at)
      decreases |input.toks| - pos, 0, 0
    {
      hide *;
      Arranged();
      ConditionEq(input, kw, pos, tree);
      var ok, tok;
      ok, head, tok := ExpectOpening(kw);
      if !ok { return SyntaxError(tok), head; }
      out := ParseExpressionUpTo(Right);
    }

    /** A keyword and an opening parenthesis; `tok` is the token at fault. */
    method ExpectOpening(kw: TokenType) returns (ok: bool, head: Token, tok: Token)
      requires Good() && kw != Eof
      modifies this`window, this`pos, lexer
      ensures Good() && head == input.At(old(pos))
      ensures ok == (input.Has(old(pos), kw) && input.Has(old(pos) + 1, Left))
      ensures ok ==> pos == old(pos) + 2
      ensures !ok ==> tok == if input.Has(old(pos), kw) then input.At(old(pos) + 1) else input.At(old(pos))
    {
      hide *;
      ok, head := Expect(kw);
      tok := head;
      if ok {
        ok, tok := Expect(Left);
      }
    }

    /** An `else` branch, if there is one. */
    method ParseElse() returns (out: Outcome)
      requires Good()
      modifies this, lexer
      ensures Good()
      ensures Result(input, ElsePart, old(pos), old(tree), NullNode) == if out.Parsed? then Done(out.id, pos, tree) else Failed(out.at)
      decreases |input.toks| - pos, 8
    {
      hide *;
      Arranged();
      ElseEq(input, pos, tree);
      out := Parsed(NullNode);
      var isElse := Match(KwElse);
      if isElse {
        out := ParseStatement();
      }
    }

    method ParseWhileStatement() returns (out: Outcome)
      requires Good()
      modifies this, lexer
      ensures Good()
      ensures Result(input, While, old(pos), old(tree), NullNode) == if out.Parsed? then Done(out.id, pos, tree) else Failed(out.at)
      decreases |input.toks| - pos, 1
    {
      hide *;
      Arranged();
      WhileEq(input, pos, tree);
      StaysForest(input, While, pos, tree);
      var cond, whileTok := ParseCondition(KwWhile);
      if cond.SyntaxError? { return cond; }
      var body := ParseStatement();
      if body.SyntaxError? { return body; }
      var id := NewNode(CompileTimeJump, whileTok.offset, 0, EvalData(cond.id, body.id, NullNode));
      return Parsed(id);
    }

    /** The increment is parsed but no node links to it; the third link is the initialiser. */
    method ParseForStatement() returns (out: Outcome)
      requires Good()
      modifies this, lexer
      ensures Good()
      ensures Result(input, For, old(pos), old(tree), NullNode) == if out.Parsed? then Done(out.id, pos, tree) else Failed(out.at)
      decreases |input.toks| - pos, 1
    {
      hide *;
      Arranged();
      ForEq(input, pos, tree);
      StaysForest(input, For, pos, tree);
      var init, cond, forTok := ParseForHeader();
      if init.SyntaxError? { return init; }
      var body := ParseStatement();
      if body.SyntaxError? { return body; }
      var id := NewNode(CompileTimeJump, forTok.offset, 0, EvalData(cond, body.id, init.id));
      return Parsed(id);
    }

    /** `for` and its parentheses. */
    method ParseForHeader() returns (out: Outcome, cond: NodeId, head: Token)
      requires Good()
      modifies this, lexer
      ensures Good() && head == input.At(old(pos)) && (out.Parsed? ==> old(pos) < pos)
      ensures var h := ForHeader(input, old(pos), old(tree));
        if out.Parsed? then h.Header? && h == Header(out.id, cond, h.step, pos, tree) else h == NoHeader(out.at)
      decreases |input.toks| - pos, 0
    {
      hide *;
      Arranged();
      cond := NullNode;
      ForHeaderEq(input, pos, tree);
      var ok, tok;
      ok, head, tok := ExpectOpening(KwFor);
      if !ok { return SyntaxError(tok), cond, head; }
      out := ParseForInit();
      if out.SyntaxError? { return; }
      var fault;
      fault, cond := ParseForClauses(out.id);
      if fault.SyntaxError? { out := fault; }
    }

    /** The condition and the increment. */
    method ParseForClauses(ghost init: NodeId) returns (out: Outcome, cond: NodeId)
      requires Good()
      modifies this, lexer
      ensures Good() && (out.Parsed? ==> old(pos) < pos)
      ensures var h := ForClauses(input, init, old(pos), old(tree));
        if out.Parsed? then h == Header(init, cond, out.id, pos, tree) else h == NoHeader(out.at)
      decreases |input.toks| - pos, 7
    {
      hide *;
      Arranged();
      cond := NullNode;
      ForClausesEq(input, init, pos, tree);
      out := ParseClause(Semi);
      if out.SyntaxError? { return; }
      cond := out.id;
      out := ParseClause(Right);
    }

    /** An expression, which may be missing, and the token that ends it. */
    method ParseClause(stop: TokenType) returns (out: Outcome)
      requires Good() && stop != Eof
      modifies this, lexer
      ensures Good() && (out.Parsed? ==> old(pos) < pos)
      ensures UpTo(input, OptExpr(stop), stop, old(pos), old(tree)) == if out.Parsed? then Done(out.id, pos, tree) else Failed(out.at)
      decreases |input.toks| - pos, 6
    {
      hide *;
      Arranged();
      UpToEq(input, OptExpr(stop), stop, pos, tree);
      out := ParseOptExpression(stop);
      if out.SyntaxError? { return; }
      var ok, tok := Expect(stop);
      if !ok { return SyntaxError(tok); }
    }

    /** A statement, or the semicolon that stands for none. */
    method ParseForInit() returns (out: Outcome)
      requires Good()
      modifies this, lexer
      ensures Good()
      ensures Result(input, ForInit, old(pos), old(tree), NullNode) == if out.Parsed? then Done(out.id, pos, tree) else Failed(out.at)
      decreases |input.toks| - pos, 8
    {
      hide *;
      Arranged();
      ForInitEq(input, pos, tree);
      out := Parsed(NullNode);
      if !Check(Semi) {
        out := ParseStatement();
      } else {
        var _ := Take(Semi);
      }
    }

    /** An expression unless `stop`, which is left in place, comes first. */
    method ParseOptExpression(stop: TokenType) returns (out: Outcome)
      requires Good()
      modifies this, lexer
      ensures Good()
      ensures Result(input, OptExpr(stop), old(pos), old(tree), NullNode) == if out.Parsed? then Done(out.id, pos, tree) else Failed(out.at)
      decreases |input.toks| - pos, 5
    {
      hide *;
      Arranged();
      OptExprEq(input, pos, tree, stop);
      out := Parsed(NullNode);
      if !Check(stop) {
        out := ParseExpression(0);
      }
    }

    /** A braced body, if one is there. */
    method ParseOptBody() returns (out: Outcome)
      requires Good()
      modifies this, lexer
      ensures Good()
      ensures Result(input, OptBody, old(pos), old(tree), NullNode) == if out.Parsed? then Done(out.id, pos, tree) else Failed(out.at)
      decreases |input.toks| - pos, 8
    {
      hide *;
      Arranged();
      OptBodyEq(input, pos, tree);
      out := Parsed(NullNode);
      if Check(BrLeft) {
        out := ParseStatement();
      }
    }

    method SkipSemi()
      requires Good()
      modifies this`window, this`pos, lexer
      ensures Good()
      ensures Result(input, OptSemi, old(pos), tree, NullNode) == Done(NullNode, pos, tree)
    {
      hide *;
      Arranged();
      OptSemiEq(input, pos, tree);
      if Check(Semi) {
        var _ := Take(Semi);
      }
    }

    method ParseReturnStatement() returns (out: Outcome)
      requires Good()
      modifies this, lexer
      ensures Good()
      ensures Result(input, Return, old(pos), old(tree), NullNode) == if out.Parsed? then Done(out.id, pos, tree) else Failed(out.at)
      decreases |input.toks| - pos, 1
    {
      hide *;
      Arranged();
      ReturnEq(input, pos, tree);
      StaysForest(input, Return, pos, tree);
      var ok, retTok := Expect(KwReturn);
      if !ok { return SyntaxError(retTok); }
      var expr := ParseClause(Semi);
      if expr.SyntaxError? { return expr; }
      var id := NewNode(UnaryExpr, retTok.offset, 0, UnaryData(KwReturn, expr.id));
      return Parsed(id);
    }

    /** A keyword and a name; when one is missing `name` is the token at fault. */
    method ExpectNamed(kw: TokenType) returns (ok: bool, head: Token, name: Token)
      requires Good() && kw != Eof
      modifies this`window, this`pos, lexer
      ensures Good() && head == input.At(old(pos))
      ensures ok == (input.Has(old(pos), kw) && input.Has(old(pos) + 1, Ident))
      ensures ok ==> pos == old(pos) + 2
      ensures name == if input.Has(old(pos), kw) then input.At(old(pos) + 1) else input.At(old(pos))
    {
      hide *;
      ok, head := Expect(kw);
      name := head;
      if ok {
        ok, name := Expect(Ident);
      }
    }

    /** The payload keeps the name's offset, not a node, in its first field. */
    method ParseStructDecl() returns (out: Outcome)
      requires Good()
      modifies this, lexer
      ensures Good()
      ensures Result(input, Struct, old(pos), old(tree), NullNode) == if out.Parsed? then Done(out.id, pos, tree) else Failed(out.at)
      decreases |input.toks| - pos, 1
    {
      hide *;
      Arranged();
      StructEq(input, pos, tree);
      StaysForest(input, Struct, pos, tree);
      var ok, structTok, nameTok := ExpectNamed(KwStruct);
      if !ok { return SyntaxError(nameTok); }
      var body := ParseOptBody();
      if body.SyntaxError? { return body; }
      SkipSemi();
      var id := NewNode(StructDeclKind, structTok.offset, 0, NamedData(nameTok.offset, body.id));
      return Parsed(id);
    }

    method ParseNamespaceDecl() returns (out: Outcome)
      requires Good()
      modifies this, lexer
      ensures Good()
      ensures Result(input, Namespace, old(pos), old(tree), NullNode) == if out.Parsed? then Done(out.id, pos, tree) else Failed(out.at)
      decreases |input.toks| - pos, 1
    {
      hide *;
      Arranged();
      NamespaceEq(input, pos, tree);
      StaysForest(input, Namespace, pos, tree);
      var ok, nsTok, nameTok := ExpectNamed(KwNamespace);
      if !ok { return SyntaxError(nameTok); }
      var body := ParseStatement();
      if body.SyntaxError? { return body; }
      var id := NewNode(NamespaceDeclKind, nsTok.offset, 0, NamedData(nameTok.offset, body.id));
      return Parsed(id);
    }

    method ParseDeleteStatement() returns (out: Outcome)
      requires Good()
      modifies this, lexer
      ensures Good()
      ensures Result(input, Delete, old(pos), old(tree), NullNode) == if out.Parsed? then Done(out.id, pos, tree) else Failed(out.at)
      decreases |input.toks| - pos, 1
    {
      hide *;
      Arranged();
      DeleteEq(input, pos, tree);
      StaysForest(input, Delete, pos, tree);
      var ok, delTok, isAutoDelete := ExpectDelete();
      if !ok { return SyntaxError(delTok); }
      Arranged();
      OptAutoEq(input, old(pos) + 1, tree);
      var target := ParsePrimaryExpression();
      if target.SyntaxError? { return target; }
      var id := NewQualified(DeleteExpr, NoQuals.(isAuto := isAutoDelete), delTok.offset, TargetData(target.id));
      return Parsed(id);
    }

    /** `delete`, and `auto` if it follows. */
    method ExpectDelete() returns (ok: bool, delTok: Token, isAuto: bool)
      requires Good()
      modifies this`window, this`pos, lexer
      ensures Good() && delTok == input.At(old(pos)) && ok == input.Has(old(pos), KwDelete)
      ensures ok ==> old(pos) < |input.toks| && isAuto == input.Has(old(pos) + 1, KwAuto)
      ensures ok ==> pos == if isAuto then old(pos) + 2 else old(pos) + 1
    {
      hide *;
      Arranged();
      isAuto := false;
      ok, delTok := Expect(KwDelete);
      if ok {
        isAuto := Match(KwAuto);
      }
    }

    // ---------- declarations ----------

    /** Qualifiers may be repeated and come in any order. */
    method ParseQualifiers() returns (q: Qualifiers)
      requires Good()
      modifies this`window, this`pos, lexer
      ensures Good() && old(pos) <= pos && !IsQualifier(input.Kind(pos))
      ensures Result(input, Stmt(NoQuals), old(pos), tree, NullNode) == Result(input, Stmt(q), pos, tree, NullNode)
      ensures Result(input, Param(NoQuals), old(pos), tree, NullNode) == Result(input, Param(q), pos, tree, NullNode)
    {
      hide *;
      q := NoQuals;
      Arranged();
      while IsQualifier(Peek(0).kind)
        invariant Good() && old(pos) <= pos <= |input.toks| && tree == old(tree)
        invariant Result(input, Stmt(NoQuals), old(pos), tree, NullNode) == Result(input, Stmt(q), pos, tree, NullNode)
        invariant Result(input, Param(NoQuals), old(pos), tree, NullNode) == Result(input, Param(q), pos, tree, NullNode)
        decreases |input.toks| - pos
      {
        QualifierEq(input, pos, tree, q);
        q := TakeQualifier(q);
      }
    }

    method TakeQualifier(q: Qualifiers) returns (more: Qualifiers)
      requires Good() && IsQualifier(input.Kind(pos))
      modifies this`window, this`pos, lexer
      ensures Good() && pos == old(pos) + 1 <= |input.toks| && more == WithQualifier(q, input.Kind(old(pos)))
    {
      hide *;
      QualifierKinds(input, pos, q);
      StepOperators(input, pos);
      more := q;
      if Check(KwConstexpr) { more := q.(isConstexpr := true); }
      else if Check(KwConst) { more := q.(isConst := true); }
      else if Check(KwStatic) { more := q.(isStatic := true); }
      else if Check(KwInline) { more := q.(isInline := true); }
      else { more := q.(isAuto := true); }
      var _ := Take(input.Kind(pos));
    }

    /** `=` and an expression, if the sign is there. */
    method ParseInitialiser() returns (out: Outcome)
      requires Good()
      modifies this, lexer
      ensures Good()
      ensures Result(input, InitPart, old(pos), old(tree), NullNode) == if out.Parsed? then Done(out.id, pos, tree) else Failed(out.at)
      decreases |input.toks| - pos, 4
    {
      hide *;
      Arranged();
      InitEq(input, pos, tree);
      out := Parsed(NullNode);
      var hasInit := Match(Equals);
      if hasInit {
        out := ParseExpression(0);
      }
    }

    /**
     At the end of input a parameter without qualifiers is still made up from the end marker;
     the closing parenthesis is then missing, which is how `lost` is always reported.
     */
    method ParseParamDecl() returns (out: Outcome, ghost lost: bool)
      requires Good()
      modifies this, lexer
      ensures Good() && (out.Parsed? ==> old(pos) <= pos)
      ensures lost ==> input.Has(pos, Eof) && out.Parsed?
      ensures Result(input, Param(NoQuals), old(pos), old(tree), NullNode) ==
        if lost then Failed(input.At(pos)) else if out.Parsed? then Done(out.id, pos, tree) else Failed(out.at)
      decreases |input.toks| - pos, 7
    {
      hide *;
      Arranged();
      var qual := ParseQualifiers();
      Arranged();
      out, lost := ParseQualifiedParam(qual);
    }

    method ParseQualifiedParam(qual: Qualifiers) returns (out: Outcome, ghost lost: bool)
      requires Good() && !IsQualifier(input.Kind(pos))
      modifies this, lexer
      ensures Good() && (out.Parsed? ==> old(pos) <= pos)
      ensures lost ==> input.Has(pos, Eof) && out.Parsed?
      ensures Result(input, Param(qual), old(pos), old(tree), NullNode) ==
        if lost then Failed(input.At(pos)) else if out.Parsed? then Done(out.id, pos, tree) else Failed(out.at)
      decreases |input.toks| - pos, 6
    {
      hide *;
      Arranged();
      StaysForest(input, Param(qual), pos, tree);
      ParamEq(input, pos, tree, qual);
      EndIsNothingElse(input, pos);
      lost := input.Has(pos, Eof) && !qual.isAuto;
      var ok, typeTok, nameTok := ParseParamNames(qual);
      if !ok { return SyntaxError(nameTok), false; }
      Arranged();
      if lost { LostForest(input, pos, tree, qual, typeTok, nameTok); }
      out := ParseInitialised(qual, typeTok, nameTok);
    }

    /** The type and the name of a parameter; `auto` stands for the type, and the name may be missing. */
    method ParseParamNames(qual: Qualifiers) returns (ok: bool, typeTok: Token, nameTok: Token)
      requires Good()
      modifies this`window, this`pos, lexer
      ensures Good() && old(pos) <= pos
      ensures ok == (!qual.isAuto || input.Has(old(pos), Ident))
      ensures !ok ==> nameTok == input.At(old(pos))
      ensures ok && !input.Has(old(pos), Eof) ==>
        typeTok == ParamType(input, old(pos), qual) && nameTok == ParamName(input, old(pos), qual) && pos == AfterNames(input, old(pos), qual)
      ensures input.Has(old(pos), Eof) && !qual.isAuto ==> pos == old(pos)
    {
      hide *;
      Arranged();
      NamesEq(input, pos, qual);
      ok, typeTok, nameTok := true, AutoType, NoName;
      if qual.isAuto {
        ok, nameTok := Expect(Ident);
      } else {
        if Check(Eof) { AtEof(); }
        typeTok := Advance();
        if Check(Ident) {
          nameTok := Take(Ident);
        }
      }
    }

    /** A declaration from its names on. */
    method ParseInitialised(qual: Qualifiers, typeTok: Token, nameTok: Token) returns (out: Outcome)
      requires Good()
      requires var r := Initialised(input, qual, typeTok, nameTok, pos, tree); r.Done? ==> Forest(r.nodes)
      modifies this, lexer
      ensures Good() && (out.Parsed? ==> old(pos) <= pos)
      ensures Initialised(input, qual, typeTok, nameTok, old(pos), old(tree)) == if out.Parsed? then Done(out.id, pos, tree) else Failed(out.at)
      decreases |input.toks| - pos, 5
    {
      hide *;
      Arranged();
      InitialisedEq(input, qual, typeTok, nameTok, pos, tree);
      var init := ParseInitialiser();
      if init.SyntaxError? { return init; }
      var id := NewDecl(VarDeclKind, qual, typeTok, nameTok, init.id);
      return Parsed(id);
    }

    /** Only the first parameter's id is kept, and the function's node does not link to it. */
    method ParseParams() returns (out: Outcome, ghost lost: bool)
      requires Good()
      modifies this, lexer
      ensures Good() && (out.Parsed? ==> old(pos) <= pos)
      ensures lost ==> input.Has(pos, Eof) && out.Parsed?
      ensures Result(input, Params, old(pos), old(tree), NullNode) ==
        if lost then Failed(input.At(pos)) else if out.Parsed? then Done(out.id, pos, tree) else Failed(out.at)
      decreases |input.toks| - pos, 10
    {
      hide *;
      lost := false;
      Arranged();
      if Check(Right) {
        EmptyList(input, pos, tree);
        return Parsed(NullNode), false;
      }
      ParamsSome(input, pos, tree);
      ListedEq(input, Param(NoQuals), MoreParams, pos, tree);
      out, lost := ParseParamDecl();
      if out.SyntaxError? { return out, false; }
      var rest;
      rest, lost := ParseMoreParams(lost);
      if rest.SyntaxError? { return rest, false; }
    }

    /** The parameters after the first one; `lost` when that one was made up at the end of input. */
    method ParseMoreParams(ghost before: bool) returns (out: Outcome, ghost lost: bool)
      requires Good() && (before ==> input.Has(pos, Eof))
      modifies this, lexer
      ensures Good() && (out.Parsed? ==> out.id == NullNode && old(pos) <= pos)
      ensures lost ==> input.Has(pos, Eof) && out.Parsed?
      ensures before ==> lost && pos == old(pos)
      ensures before || Result(input, MoreParams, old(pos), old(tree), NullNode) ==
        if lost then Failed(input.At(pos)) else if out.Parsed? then Done(out.id, pos, tree) else Failed(out.at)
      decreases |input.toks| - pos, 9
    {
      hide *;
      lost := before;
      Arranged();
      EndIsNothingElse(input, pos);
      ghost var whole := Result(input, MoreParams, pos, tree, NullNode);
      while Check(Comma)
        invariant Good() && old(pos) <= pos <= |input.toks|
        invariant lost ==> input.Has(pos, Eof) && !input.Has(pos, Comma)
        invariant before ==> lost && pos == old(pos)
        invariant !before ==> whole == if lost then Failed(input.At(pos)) else Result(input, MoreParams, pos, tree, NullNode)
        decreases |input.toks| - pos
      {
        var other;
        other, lost := ParseNextParam();
        if other.SyntaxError? { return other, false; }
        Arranged();
        EndIsNothingElse(input, pos);
      }
      MoreParamsEq(input, pos, tree);
      return Parsed(NullNode), lost;
    }

    method ParseNextParam() returns (out: Outcome, ghost lost: bool)
      requires Good() && input.Has(pos, Comma)
      modifies this, lexer
      ensures Good() && (out.Parsed? ==> old(pos) < pos)
      ensures lost ==> input.Has(pos, Eof) && out.Parsed?
      ensures Result(input, MoreParams, old(pos), old(tree), NullNode) ==
        if lost then Failed(input.At(pos)) else if out.Parsed? then Result(input, MoreParams, pos, tree, NullNode) else Failed(out.at)
      decreases |input.toks| - pos, 8
    {
      hide *;
      Arranged();
      MoreParamsEq(input, pos, tree);
      var _ := Take(Comma);
      out, lost := ParseParamDecl();
    }

    method ParseFunctionDecl(qual: Qualifiers, typeTok: Token, nameTok: Token) returns (out: Outcome)
      requires Good()
      modifies this, lexer
      ensures Good()
      ensures Result(input, Func(qual, typeTok, nameTok), old(pos), old(tree), NullNode) == if out.Parsed? then Done(out.id, pos, tree) else Failed(out.at)
      decreases |input.toks| - pos, 1
    {
      hide *;
      Arranged();
      FuncEq(input, pos, tree, qual, typeTok, nameTok);
      StaysForest(input, Func(qual, typeTok, nameTok), pos, tree);
      out := ParseParamList();
      if out.SyntaxError? { return; }
      var body := ParseFunctionBody();
      if body.SyntaxError? { return body; }
      var id := NewFunction(qual, typeTok, nameTok, body.id);
      return Parsed(id);
    }

    method ParseParamList() returns (out: Outcome)
      requires Good()
      modifies this, lexer
      ensures Good() && (out.Parsed? ==> old(pos) < pos)
      ensures ParamList(input, old(pos), old(tree)) == if out.Parsed? then Done(out.id, pos, tree) else Failed(out.at)
      decreases |input.toks| - pos, 0
    {
      hide *;
      Arranged();
      ParamListEq(input, pos, tree);
      var ok, tok := Expect(Left);
      if !ok { return SyntaxError(tok); }
      out := ParseParamsUpTo();
    }

    method ParseParamsUpTo() returns (out: Outcome)
      requires Good()
      modifies this, lexer
      ensures Good() && (out.Parsed? ==> old(pos) < pos)
      ensures UpTo(input, Params, Right, old(pos), old(tree)) == if out.Parsed? then Done(out.id, pos, tree) else Failed(out.at)
      decreases |input.toks| - pos, 11
    {
      hide *;
      Arranged();
      UpToEq(input, Params, Right, pos, tree);
      ghost var lost;
      out, lost := ParseParams();
      if out.SyntaxError? { return; }
      EndIsNothingElse(input, pos);
      var ok, tok := Expect(Right);
      if !ok { return SyntaxError(tok); }
    }

    /** The names come before the function's own node. */
    method NewFunction(qual: Qualifiers, typeTok: Token, nameTok: Token, body: NodeId) returns (id: NodeId)
      requires Good() && Forest(tree + Definition(qual, typeTok, nameTok, body, |tree|))
      modifies this`tree
      ensures Good() && id == |old(tree)| + 2
      ensures tree == old(tree) + Definition(qual, typeTok, nameTok, body, |old(tree)|)
    {
      hide Valid, Forest;
      ghost var before := tree;
      var typeNode := NewLeaf(IdentifierExpr, typeTok);
      var nameNode := NewLeaf(IdentifierExpr, nameTok);
      assert forall n :: before + [Name(typeTok)] + [Name(nameTok)] + [n] == before + [Name(typeTok), Name(nameTok), n];
      id := NewQualified(FunctionDeclKind, qual, nameTok.offset, VarData(typeNode, nameNode, body));
    }

    /** A braced body or a semicolon. */
    method ParseFunctionBody() returns (out: Outcome)
      requires Good()
      modifies this, lexer
      ensures Good()
      ensures Result(input, FuncBody, old(pos), old(tree), NullNode) == if out.Parsed? then Done(out.id, pos, tree) else Failed(out.at)
      decreases |input.toks| - pos, 8
    {
      hide *;
      Arranged();
      FuncBodyEq(input, pos, tree);
      out := Parsed(NullNode);
      if Check(BrLeft) {
        out := ParseStatement();
      } else {
        var ok, tok := Expect(Semi);
        if !ok { return SyntaxError(tok); }
      }
    }

    /** `type Name`, an optional base introduced by `=`, `:` or the contextual `using`, and an optional body. */
    method ParseTypeDecl(qual: Qualifiers) returns (out: Outcome)
      requires Good() && input.Has(pos, KwType)
      modifies this, lexer
      ensures Good()
      ensures Result(input, TypeDecl(qual), old(pos), old(tree), NullNode) == if out.Parsed? then Done(out.id, pos, tree) else Failed(out.at)
      decreases |input.toks| - pos, 1
    {
      hide *;
      Arranged();
      TypeDeclEq(input, pos, tree, qual);
      StaysForest(input, TypeDecl(qual), pos, tree);
      var ok, typeTok, nameTok := ExpectNamed(KwType);
      if !ok { return SyntaxError(nameTok); }
      var base := ParseBase();
      if base.SyntaxError? { return base; }
      var body := ParseOptBody();
      if body.SyntaxError? { return body; }
      SkipSemi();
      var targetInit := if body.id != NullNode then body.id else base.id;
      var id := NewDecl(TypeDeclKind, qual, typeTok, nameTok, targetInit);
      return Parsed(id);
    }

    method ParseBase() returns (out: Outcome)
      requires Good()
      modifies this, lexer
      ensures Good()
      ensures Result(input, Base, old(pos), old(tree), NullNode) == if out.Parsed? then Done(out.id, pos, tree) else Failed(out.at)
      decreases |input.toks| - pos, 5
    {
      hide *;
      Arranged();
      BaseEq(input, pos, tree);
      UsingText(input, pos);
      out := Parsed(NullNode);
      if Check(Equals) {
        var _ := Take(Equals);
        out := ParseExpression(0);
      } else if Check(Colon) || (Check(Ident) && TextAt(source, Peek(0)) == "using") {
        NotAtEnd(input, pos, if Check(Colon) then Colon else Ident);
        var _ := Advance();
        out := ParsePrimaryExpression();
      }
    }

    /** What `parseStatement` calls once it has recognised a declaration. */
    method ParseVarOrTypeDecl(qual: Qualifiers) returns (out: Outcome)
      requires Good()
      requires input.Has(pos, KwType) ||
        (Undispatched(input.Kind(pos)) && (qual.isAuto || StartsDecl(input.Kind(pos), input.Kind(pos + 1))))
      modifies this, lexer
      ensures Good()
      ensures Result(input, Stmt(qual), old(pos), old(tree), NullNode) == if out.Parsed? then Done(out.id, pos, tree) else Failed(out.at)
      decreases |input.toks| - pos, 3
    {
      hide *;
      Arranged();
      if Check(KwType) {
        Dispatch(input, pos, tree, qual);
        out := ParseTypeDecl(qual);
        return;
      }
      DeclEq(input, pos, tree, qual);
      var ok, typeOrNameTok, nameTok := ParseDeclNames(qual);
      if !ok { return SyntaxError(nameTok); }
      out := ParseDeclRest(qual, typeOrNameTok, nameTok);
    }

    /** The type and the name of a declaration; when the name is missing `nameTok` is the token at fault. */
    method ParseDeclNames(qual: Qualifiers) returns (ok: bool, typeTok: Token, nameTok: Token)
      requires Good() && (qual.isAuto || !input.Has(pos, Eof))
      modifies this`window, this`pos, lexer
      ensures Good() && (ok ==> old(pos) < pos)
      ensures typeTok == (if qual.isAuto then AutoType else input.At(old(pos)))
      ensures var p := if qual.isAuto then old(pos) else old(pos) + 1;
        nameTok == input.At(p) && ok == input.Has(p, Ident) && (ok ==> pos == p + 1)
    {
      hide *;
      Arranged();
      typeTok := AutoType;
      if !qual.isAuto {
        EndIsEof(input, pos);
        typeTok := Advance();
      }
      ok, nameTok := Expect(Ident);
    }

    /** A parameter list makes the declaration a function. */
    method ParseDeclRest(qual: Qualifiers, typeTok: Token, nameTok: Token) returns (out: Outcome)
      requires Good()
      modifies this, lexer
      ensures Good()
      ensures Result(input, DeclRest(qual, typeTok, nameTok), old(pos), old(tree), NullNode) == if out.Parsed? then Done(out.id, pos, tree) else Failed(out.at)
      decreases |input.toks| - pos, 6
    {
      hide *;
      Arranged();
      if Check(Left) {
        FuncRestEq(input, pos, tree, qual, typeTok, nameTok);
        out := ParseFunctionDecl(qual, typeTok, nameTok);
        return;
      }
      DeclRestVar(input, pos, tree, qual, typeTok, nameTok);
      StaysForest(input, DeclRest(qual, typeTok, nameTok), pos, tree);
      var init := ParseInitUpTo();
      if init.SyntaxError? { return init; }
      var id := NewDecl(VarDeclKind, qual, typeTok, nameTok, init.id);
      return Parsed(id);
    }

    method ParseInitUpTo() returns (out: Outcome)
      requires Good()
      modifies this, lexer
      ensures Good()
      ensures UpTo(input, InitPart, Semi, old(pos), old(tree)) == if out.Parsed? then Done(out.id, pos, tree) else Failed(out.at)
      decreases |input.toks| - pos, 5
    {
      hide *;
      Arranged();
      UpToEq(input, InitPart, Semi, pos, tree);
      out := ParseInitialiser();
      if out.SyntaxError? { return; }
      var ok, tok := Expect(Semi);
      if !ok { return SyntaxError(tok); }
    }

    method ParseStatement() returns (out: Outcome)
      requires Good()
      modifies this, lexer
      ensures Good()
      ensures Result(input, Stmt(NoQuals), old(pos), old(tree), NullNode) == if out.Parsed? then Done(out.id, pos, tree) else Failed(out.at)
      decreases |input.toks| - pos, 7
    {
      hide *;
      var qual := ParseQualifiers();
      Arranged();
      out := ParseQualified(qual);
    }

    /** The statement after its qualifiers, which only declarations keep. */
    method ParseQualified(qual: Qualifiers) returns (out: Outcome)
      requires Good() && !IsQualifier(input.Kind(pos))
      modifies this, lexer
      ensures Good()
      ensures Result(input, Stmt(qual), old(pos), old(tree), NullNode) == if out.Parsed? then Done(out.id, pos, tree) else Failed(out.at)
      decreases |input.toks| - pos, 6
    {
      hide *;
      Arranged();
      Dispatch(input, pos, tree, qual);
      DispatchKinds(input, pos);
      if Check(BrLeft) {
        out := ParseBlock();
      } else if Check(KwIf) {
        out := ParseBranch(KwIf);
      } else if Check(KwWhile) {
        out := ParseWhileStatement();
      } else if Check(KwFor) {
        out := ParseForStatement();
      } else if Check(KwReturn) {
        out := ParseReturnStatement();
      } else if Check(KwBreak) || Check(KwContinue) {
        out := ParseJump(qual);
      } else if Check(KwStruct) {
        out := ParseStructDecl();
      } else if Check(KwNamespace) {
        out := ParseNamespaceDecl();
      } else if Check(KwDelete) {
        StmtDelete(input, pos, tree, qual);
        out := ParseDeleteEnded();
      } else if Check(KwRequires) {
        out := ParseRequires(qual);
      } else if qual.isAuto || Check(KwType) || Check(KwByte) || (Check(Ident) && CheckNext(Ident)) {
        out := ParseVarOrTypeDecl(qual);
      } else {
        StmtExpr(input, pos, tree, qual);
        out := ParseExpressionEnded();
      }
    }

    /** `delete` as a statement, with a semicolon or without. */
    method ParseDeleteEnded() returns (out: Outcome)
      requires Good()
      modifies this, lexer
      ensures Good()
      ensures Ended(input, Delete, old(pos), old(tree)) == if out.Parsed? then Done(out.id, pos, tree) else Failed(out.at)
      decreases |input.toks| - pos, 4
    {
      hide *;
      Arranged();
      EndedEq(input, Delete, pos, tree);
      out := ParseDeleteStatement();
      if out.Parsed? { SkipSemi(); }
    }

    /** An expression as a statement, with a semicolon or without. */
    method ParseExpressionEnded() returns (out: Outcome)
      requires Good()
      modifies this, lexer
      ensures Good()
      ensures Ended(input, Expr(0), old(pos), old(tree)) == if out.Parsed? then Done(out.id, pos, tree) else Failed(out.at)
      decreases |input.toks| - pos, 5
    {
      hide *;
      Arranged();
      EndedEq(input, Expr(0), pos, tree);
      out := ParseExpression(0);
      if out.Parsed? { SkipSemi(); }
    }

    method ParseJump(qual: Qualifiers) returns (out: Outcome)
      requires Good() && (input.Has(pos, KwBreak) || input.Has(pos, KwContinue))
      modifies this, lexer
      ensures Good()
      ensures Result(input, Stmt(qual), old(pos), old(tree), NullNode) == if out.Parsed? then Done(out.id, pos, tree) else Failed(out.at)
      decreases |input.toks| - pos, 1
    {
      hide *;
      Arranged();
      StmtJump(input, pos, tree, qual);
      StaysForest(input, Stmt(qual), pos, tree);
      StepOperators(input, pos);
      var ctrlTok := Take(input.Kind(pos));
      var ok, tok := Expect(Semi);
      if !ok { return SyntaxError(tok); }
      var id := NewNode(CompileTimeJump, ctrlTok.offset, 0, UnaryData(ctrlTok.kind, NullNode));
      return Parsed(id);
    }

    method ParseRequires(qual: Qualifiers) returns (out: Outcome)
      requires Good() && input.Has(pos, KwRequires)
      modifies this, lexer
      ensures Good()
      ensures Result(input, Stmt(qual), old(pos), old(tree), NullNode) == if out.Parsed? then Done(out.id, pos, tree) else Failed(out.at)
      decreases |input.toks| - pos, 1
    {
      hide *;
      Arranged();
      StmtRequires(input, pos, tree, qual);
      var _ := Take(KwRequires);
      var ok, tok := Expect(Colon);
      if !ok { return SyntaxError(tok); }
      out := ParseExpressionEnded();
    }

    /**
     The whole unit. The guard against statements that take nothing is never needed: tokens
     start at different offsets, so a window still at the old offset is at the end.
     */
    method ParseTranslationUnit() returns (out: Outcome)
      requires Good()
      modifies this, lexer
      ensures Good()
      ensures Result(input, Program, old(pos), old(tree), NullNode) == if out.Parsed? then Done(out.id, pos, tree) else Failed(out.at)
      ensures out.Parsed? ==> pos == |input.toks|
    {
      hide *;
      Arranged();
      ProgramEq(input, pos, tree);
      var root := OpenUnitNode(0);
      ghost var whole := Result(input, TopStmts, pos, tree, NullNode);
      while !Check(Eof)
        invariant Good() && old(pos) <= pos <= |input.toks|
        invariant Result(input, TopStmts, pos, tree, NullNode) == whole
        decreases |input.toks| - pos
      {
        StmtsEq(input, TopStmts, pos, tree);
        Advances(input, Stmt(NoQuals), pos, tree);
        var prevCursor := Peek(0).offset;
        ghost var prev := pos;
        var s := ParseStatement();
        if s.SyntaxError? { return s; }
        if Peek(0).offset == prevCursor && !Check(Eof) {
          Moved(prev);
          assert false;
        }
      }
      AtEof();
      StmtsEq(input, TopStmts, pos, tree);
      return Parsed(root);
    }

    lemma Moved(prev: nat)
      requires Good() && prev < pos && !input.Has(pos, Eof)
      ensures input.At(prev).offset != input.At(pos).offset
    {
      hide Forest;
    }

    lemma AtEof()
      requires Good() && input.Has(pos, Eof)
      ensures pos == |input.toks|
    {
      hide Forest;
    }
  }
}
