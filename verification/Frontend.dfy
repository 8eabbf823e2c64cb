/** From source text to syntax tree: the lexer and the parser together. */
module Frontend {
  import opened Tokens
  import opened Symbols
  import opened Engine
  import opened Productions
  import opened Arena
  import opened Emission
  import opened Translation
  import opened Equations
  import opened Scanning
  import opened LexerMachine
  import opened ParserMachine

  /** A derivation of a whole translation unit from all the tokens of `i`. */
  ghost predicate Derives(i: Input, t: Tree) {
    Yield(t) == i.toks && Legal(Lgc, i.source, N(Program), t, i.End(), i.End())
  }

  lemma {:induction false} TopReachesEnd(i: Input, p: nat, nodes: seq<AstNode>)
    requires Proper(i.toks) && p <= |i.toks|
    ensures var r := Result(i, TopStmts, p, nodes, NullNode); r.Done? ==> r.next == |i.toks|
    decreases |i.toks| - p
  {
    hide Result;
    StmtsEq(i, TopStmts, p, nodes);
    if p < |i.toks| {
      assert i.toks[p].kind != Eof;
      Advances(i, Stmt(NoQuals), p, nodes);
      var r := Result(i, Stmt(NoQuals), p, nodes, NullNode);
      if r.Done? { TopReachesEnd(i, r.next, r.nodes); }
    }
  }

  /** A unit is accepted exactly when its tokens have a derivation, and then its nodes are that one's. */
  lemma Accepts(i: Input)
    requires Proper(i.toks)
    ensures var r := Result(i, Program, 0, [], NullNode);
      && (r.Done? <==> exists t :: Derives(i, t))
      && (forall t :: Derives(i, t) ==> r == Done(Emit([], t, NullNode).1, |i.toks|, Emit([], t, NullNode).0))
  {
    hide Rhs, Emit, Rank, IsEager, Legal;
    LgcValid();
    var r := Result(i, Program, 0, [], NullNode);
    if r.Done? {
      ProgramEq(i, 0, []);
      TopReachesEnd(i, 0, [Plain(TranslationUnitKind, 0, NoData)]);
      assert [] + [Plain(TranslationUnitKind, 0, NoData)] == [Plain(TranslationUnitKind, 0, NoData)];
      var t := Parse(Lgc, i, Program, 0).tree;
      Sound(Lgc, i, Program, 0, t, |i.toks|);
      assert i.toks[0..] == i.toks;
      assert Derives(i, t);
    }
    forall t | Derives(i, t) ensures r == Done(Emit([], t, NullNode).1, |i.toks|, Emit([], t, NullNode).0) {
      assert i.toks[0..] == i.toks;
      Complete(Lgc, i, Program, 0, t, |i.toks|);
    }
  }

  /** At most one derivation. */
  lemma OneDerivation(i: Input, t: Tree, t': Tree)
    requires Derives(i, t) && Derives(i, t')
    ensures t == t'
  {
    hide Rhs, Rank, IsEager, Legal;
    LgcValid();
    assert i.toks[0..] == i.toks;
    Unambiguous(Lgc, i, Program, 0, t, |i.toks|, t', |i.toks|);
  }

  /** Lexes and parses `src`: nodes and root, or the token at which the text is refused. */
  method ParseSource(src: string) returns (out: Outcome, nodes: seq<AstNode>)
    ensures var i := Input(src, TokensFrom(src, 0));
      Result(i, Program, 0, [], NullNode) == if out.Parsed? then Done(out.id, |i.toks|, nodes) else Failed(out.at)
    ensures Forest(nodes)
  {
    hide Result, TokensFrom, Forest;
    var lexer := new Lexer(src);
    var parser := new Parser(lexer, src);
    out := parser.ParseTranslationUnit();
    nodes := parser.tree;
  }
}
