/** Grammar symbols and derivation trees. */
module Symbols {
  import opened Tokens

  datatype Qualifiers = Qualifiers(isConstexpr: bool, isConst: bool, isStatic: bool, isInline: bool, isAuto: bool)

  /** Non-terminals; one per parser routine, plus one for each optional or repeated part. */
  datatype NT =
    | Program | OpenUnit | TopStmts
    | Stmt(quals: Qualifiers) | Stmts | Block | OpenBlock
    | Branch(kw: TokenType) | ElsePart | While | For | ForInit | OptExpr(stop: TokenType)
    | Return | Struct | Namespace | OptBody | OptSemi
    | Delete | OptAuto
    | TypeDecl(quals: Qualifiers) | Base
    | DeclRest(quals: Qualifiers, typ: Token, name: Token) | InitPart
    | Func(quals: Qualifiers, typ: Token, name: Token) | FuncBody
    | Params | MoreParams | Param(quals: Qualifiers)
    | Expr(min: nat) | Tail(min: nat) | BinStep
    | Primary | Operand | Postfixes | PostfixStep | Args | MoreArgs

  datatype Sym = T(kind: TokenType) | N(nt: NT)

  /**
   A derivation: `look` and `look2` are the two tokens seen when the node's production was
   chosen and `after` is the token that follows the node.
   */
  datatype Tree =
    | Leaf(tok: Token)
    | Node(nt: NT, look: Token, look2: Token, after: Token, kids: seq<Tree>)

  /** The tokens of a derivation, left to right. */
  function Yield(t: Tree): seq<Token>
    decreases t, 0
  {
    match t
    case Leaf(tok) => [tok]
    case Node(_, _, _, _, kids) => Yields(kids)
  }

  function Yields(ts: seq<Tree>): seq<Token>
    decreases ts, 1
  {
    if ts == [] then [] else Yield(ts[0]) + Yields(ts[1..])
  }

  /** `toks` is the whole token list without its end marker. */
  datatype Input = Input(source: string, toks: seq<Token>) {
    function End(): Token { Token(|source|, 0, Eof) }

    function At(p: nat): Token {
      if p < |toks| then toks[p] else End()
    }

    function Kind(p: nat): TokenType { At(p).kind }

    predicate Has(p: nat, k: TokenType) { Kind(p) == k }
  }

  /** `Err(t)` is a syntax error reported at token `t`. */
  datatype Res = Ok(tree: Tree, next: nat) | Err(at: Token)
  datatype Reses = Oks(trees: seq<Tree>, next: nat) | Errs(at: Token)
}
