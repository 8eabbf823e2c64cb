/**
 Operator expressions. `Spell` writes an expression down token by token and `Fits` is the
 precedence rule; neither mentions parsing. `Parens` is the shortest way to make one fit.
 */
module Expressions {
  import opened Tokens
  import opened Productions

  /** Operands, operators and the tokens around them. Parentheses are part of the expression. */
  datatype Exp =
    | Atom(tok: Token)
    | Paren(open: Token, inner: Exp, close: Token)
    | Prefix(op: Token, arg: Exp)
    | Binary(lhs: Exp, op: Token, rhs: Exp)
    | Member(base: Exp, op: Token, name: Token)
    | Bump(base: Exp, op: Token)
    | Index(base: Exp, open: Token, index: Exp, close: Token)
    | Call(base: Exp, open: Token, args: Args, close: Token)

  datatype Args = NoArgs | Given(first: Exp, more: More)
  datatype More = NoMore | Another(comma: Token, arg: Exp, more: More)

  function Spell(e: Exp): seq<Token> {
    match e
    case Atom(t) => [t]
    case Paren(o, x, c) => [o] + Spell(x) + [c]
    case Prefix(op, x) => [op] + Spell(x)
    case Binary(l, op, r) => Spell(l) + ([op] + Spell(r))
    case Member(b, op, n) => Spell(b) + [op, n]
    case Bump(b, op) => Spell(b) + [op]
    case Index(b, o, x, c) => Spell(b) + ([o] + Spell(x) + [c])
    case Call(b, o, args, c) => Spell(b) + ([o] + SpellArgs(args) + [c])
  }

  function SpellArgs(a: Args): seq<Token> {
    match a
    case NoArgs => []
    case Given(x, more) => Spell(x) + SpellMore(more)
  }

  function SpellMore(m: More): seq<Token> {
    match m
    case NoMore => []
    case Another(c, x, more) => [c] + (Spell(x) + SpellMore(more))
  }

  /** Prefix operators bind tighter than all binary ones and looser than postfixes. */
  const PREFIX: nat := 12
  const POSTFIX: nat := 13

  function Level(e: Exp): nat {
    match e
    case Binary(_, op, _) => Precedence(op.kind)
    case Prefix(_, _) => PREFIX
    case _ => POSTFIX
  }

  /**
   `e` may stand where operators below `min` may not: its own operator binds at least that
   tightly, its left operand at least as tightly as itself and its right operand tighter.
   */
  predicate Fits(e: Exp, min: nat) {
    Level(e) >= min &&
    match e
    case Atom(t) => IsLiteral(t.kind) || IsName(t.kind)
    case Paren(o, x, c) => o.kind.Left? && c.kind.Right? && Fits(x, 0)
    case Prefix(op, x) => IsPrefixOp(op.kind) && Fits(x, PREFIX)
    case Binary(l, op, r) =>
      Precedence(op.kind) != 0 && Fits(l, Precedence(op.kind)) && Fits(r, Precedence(op.kind) + 1)
    case Member(b, op, n) => Fits(b, POSTFIX) && (op.kind.Dot? || op.kind.Arrow?) && n.kind.Ident?
    case Bump(b, op) => Fits(b, POSTFIX) && (op.kind.PPlus? || op.kind.MMinus?)
    case Index(b, o, x, c) => Fits(b, POSTFIX) && o.kind.SqLeft? && c.kind.SqRight? && Fits(x, 0)
    case Call(b, o, args, c) => Fits(b, POSTFIX) && o.kind.Left? && c.kind.Right? && FitsArgs(args)
  }

  predicate FitsArgs(a: Args) {
    match a
    case NoArgs => true
    case Given(x, more) => Fits(x, 0) && FitsMore(more)
  }

  predicate FitsMore(m: More) {
    match m
    case NoMore => true
    case Another(c, x, more) => c.kind.Comma? && Fits(x, 0) && FitsMore(more)
  }

  /** A token that cannot continue an expression read at level `min`. */
  predicate Stops(min: nat, k: TokenType) {
    !IsPostfixStart(k) && (Precedence(k) < min || Precedence(k) == 0)
  }

  lemma PrecedenceBound(k: TokenType)
    ensures Precedence(k) < PREFIX
    ensures IsPostfixStart(k) ==> Precedence(k) == 0
  {}

  // ---------- the fewest parentheses ----------

  /** The expression meant, whatever parentheses it was written with. */
  function Bare(e: Exp): Exp {
    match e
    case Atom(_) => e
    case Paren(_, x, _) => Bare(x)
    case Prefix(op, x) => Prefix(op, Bare(x))
    case Binary(l, op, r) => Binary(Bare(l), op, Bare(r))
    case Member(b, op, n) => Member(Bare(b), op, n)
    case Bump(b, op) => Bump(Bare(b), op)
    case Index(b, o, x, c) => Index(Bare(b), o, Bare(x), c)
    case Call(b, o, args, c) => Call(Bare(b), o, BareArgs(args), c)
  }

  function BareArgs(a: Args): Args {
    match a
    case NoArgs => a
    case Given(x, more) => Given(Bare(x), BareMore(more))
  }

  function BareMore(m: More): More {
    match m
    case NoMore => m
    case Another(c, x, more) => Another(c, Bare(x), BareMore(more))
  }

  /** Every operator, bracket and operand is of a kind that can stand there. */
  predicate Formed(e: Exp) {
    match e
    case Atom(t) => IsLiteral(t.kind) || IsName(t.kind)
    case Paren(o, x, c) => o.kind.Left? && c.kind.Right? && Formed(x)
    case Prefix(op, x) => IsPrefixOp(op.kind) && Formed(x)
    case Binary(l, op, r) => Precedence(op.kind) != 0 && Formed(l) && Formed(r)
    case Member(b, op, n) => Formed(b) && (op.kind.Dot? || op.kind.Arrow?) && n.kind.Ident?
    case Bump(b, op) => Formed(b) && (op.kind.PPlus? || op.kind.MMinus?)
    case Index(b, o, x, c) => Formed(b) && o.kind.SqLeft? && c.kind.SqRight? && Formed(x)
    case Call(b, o, args, c) => Formed(b) && o.kind.Left? && c.kind.Right? && FormedArgs(args)
  }

  predicate FormedArgs(a: Args) {
    match a
    case NoArgs => true
    case Given(x, more) => Formed(x) && FormedMore(more)
  }

  predicate FormedMore(m: More) {
    match m
    case NoMore => true
    case Another(c, x, more) => c.kind.Comma? && Formed(x) && FormedMore(more)
  }

  /** `e` with parentheses `o` and `c` just where the level asks for them and nowhere else. */
  function Parens(e: Exp, min: nat, o: Token, c: Token): Exp
    decreases e, 1
  {
    var x := Inner(e, o, c);
    if Level(x) >= min then x else Paren(o, x, c)
  }

  function Inner(e: Exp, o: Token, c: Token): Exp
    decreases e, 0
  {
    match e
    case Atom(_) => e
    case Paren(_, x, _) => Inner(x, o, c)
    case Prefix(op, x) => Prefix(op, Parens(x, PREFIX, o, c))
    case Binary(l, op, r) =>
      Binary(Parens(l, Precedence(op.kind), o, c), op, Parens(r, Precedence(op.kind) + 1, o, c))
    case Member(b, op, n) => Member(Parens(b, POSTFIX, o, c), op, n)
    case Bump(b, op) => Bump(Parens(b, POSTFIX, o, c), op)
    case Index(b, o', x, c') => Index(Parens(b, POSTFIX, o, c), o', Parens(x, 0, o, c), c')
    case Call(b, o', args, c') => Call(Parens(b, POSTFIX, o, c), o', ParensArgs(args, o, c), c')
  }

  function ParensArgs(a: Args, o: Token, c: Token): Args
    decreases a, 1
  {
    match a
    case NoArgs => a
    case Given(x, more) => Given(Parens(x, 0, o, c), ParensMore(more, o, c))
  }

  function ParensMore(m: More, o: Token, c: Token): More
    decreases m, 1
  {
    match m
    case NoMore => m
    case Another(k, x, more) => Another(k, Parens(x, 0, o, c), ParensMore(more, o, c))
  }

  lemma {:induction false} ParensFit(e: Exp, min: nat, o: Token, c: Token)
    requires Formed(e) && o.kind.Left? && c.kind.Right? && min <= POSTFIX
    ensures Fits(Parens(e, min, o, c), min)
    decreases e, 1
  {
    InnerFits(e, o, c);
    if Level(Inner(e, o, c)) >= min { FitsLess(Inner(e, o, c), min); }
  }

  lemma FitsLess(x: Exp, min: nat)
    requires Fits(x, Level(x)) && Level(x) >= min
    ensures Fits(x, min)
  {}

  lemma {:induction false} InnerFits(e: Exp, o: Token, c: Token)
    requires Formed(e) && o.kind.Left? && c.kind.Right?
    ensures var r := Inner(e, o, c); Fits(r, Level(r)) && Fits(r, 0)
    decreases e, 0
  {
    hide IsLiteral, IsName, IsPrefixOp, Precedence, Parens, ParensArgs, FitsArgs, FormedArgs;
    match e
    case Atom(_) =>
    case Paren(_, x, _) => InnerFits(x, o, c);
    case Prefix(_, x) => ParensFit(x, PREFIX, o, c);
    case Binary(l, op, r) =>
      PrecedenceBound(op.kind);
      ParensFit(l, Precedence(op.kind), o, c);
      ParensFit(r, Precedence(op.kind) + 1, o, c);
    case Member(b, _, _) => ParensFit(b, POSTFIX, o, c);
    case Bump(b, _) => ParensFit(b, POSTFIX, o, c);
    case Index(b, _, x, _) => ParensFit(b, POSTFIX, o, c); ParensFit(x, 0, o, c);
    case Call(b, _, args, _) => ParensFit(b, POSTFIX, o, c); ArgsFit(args, o, c);
  }

  lemma {:induction false} ArgsFit(a: Args, o: Token, c: Token)
    requires FormedArgs(a) && o.kind.Left? && c.kind.Right?
    ensures FitsArgs(ParensArgs(a, o, c))
    decreases a, 2
  {
    if a.Given? { ParensFit(a.first, 0, o, c); MoreFit(a.more, o, c); }
  }

  lemma {:induction false} MoreFit(a: More, o: Token, c: Token)
    requires FormedMore(a) && o.kind.Left? && c.kind.Right?
    ensures FitsMore(ParensMore(a, o, c))
    decreases a, 2
  {
    if a.Another? { ParensFit(a.arg, 0, o, c); MoreFit(a.more, o, c); }
  }

  /** The parentheses change nothing in what is meant. */
  lemma {:induction false} ParensMean(e: Exp, min: nat, o: Token, c: Token)
    ensures Bare(Parens(e, min, o, c)) == Bare(Inner(e, o, c)) == Bare(e)
    decreases e, 1
  {
    hide Precedence;
    match e
    case Atom(_) =>
    case Paren(_, x, _) => ParensMean(x, min, o, c);
    case Prefix(_, x) => ParensMean(x, PREFIX, o, c);
    case Binary(l, op, r) =>
      ParensMean(l, Precedence(op.kind), o, c);
      ParensMean(r, Precedence(op.kind) + 1, o, c);
    case Member(b, _, _) => ParensMean(b, POSTFIX, o, c);
    case Bump(b, _) => ParensMean(b, POSTFIX, o, c);
    case Index(b, _, x, _) => ParensMean(b, POSTFIX, o, c); ParensMean(x, 0, o, c);
    case Call(b, _, args, _) => ParensMean(b, POSTFIX, o, c); ArgsMean(args, o, c);
  }

  lemma {:induction false} ArgsMean(a: Args, o: Token, c: Token)
    ensures BareArgs(ParensArgs(a, o, c)) == BareArgs(a)
    decreases a, 2
  {
    if a.Given? { ParensMean(a.first, 0, o, c); MoreMean(a.more, o, c); }
  }

  lemma {:induction false} MoreMean(a: More, o: Token, c: Token)
    ensures BareMore(ParensMore(a, o, c)) == BareMore(a)
    decreases a, 2
  {
    if a.Another? { ParensMean(a.arg, 0, o, c); MoreMean(a.more, o, c); }
  }

  /** No way of writing the same expression that fits is shorter. */
  lemma {:induction false} Fewest(e: Exp, min: nat, o: Token, c: Token)
    requires Fits(e, min)
    ensures |Spell(Parens(e, min, o, c))| <= |Spell(e)|
    decreases e, 1
  {
    hide IsLiteral, IsName, IsPrefixOp, Precedence, Bare;
    match e
    case Atom(_) =>
    case Paren(_, x, _) => Fewest(x, 0, o, c);
    case Prefix(_, x) => Fewest(x, PREFIX, o, c);
    case Binary(l, op, r) =>
      Fewest(l, Precedence(op.kind), o, c);
      Fewest(r, Precedence(op.kind) + 1, o, c);
    case Member(b, _, _) => Fewest(b, POSTFIX, o, c);
    case Bump(b, _) => Fewest(b, POSTFIX, o, c);
    case Index(b, _, x, _) => Fewest(b, POSTFIX, o, c); Fewest(x, 0, o, c);
    case Call(b, _, args, _) => Fewest(b, POSTFIX, o, c); FewestArgs(args, o, c);
  }

  lemma {:induction false} FewestArgs(a: Args, o: Token, c: Token)
    requires FitsArgs(a)
    ensures |SpellArgs(ParensArgs(a, o, c))| <= |SpellArgs(a)|
    decreases a, 2
  {
    if a.Given? { Fewest(a.first, 0, o, c); FewestMore(a.more, o, c); }
  }

  lemma {:induction false} FewestMore(a: More, o: Token, c: Token)
    requires FitsMore(a)
    ensures |SpellMore(ParensMore(a, o, c))| <= |SpellMore(a)|
    decreases a, 2
  {
    if a.Another? { Fewest(a.arg, 0, o, c); FewestMore(a.more, o, c); }
  }

  /** `Parens` depends on the expression meant, not on how it was written. */
  lemma {:induction false} OnlyMeaning(e: Exp, min: nat, o: Token, c: Token)
    ensures Parens(Bare(e), min, o, c) == Parens(e, min, o, c)
    ensures Inner(Bare(e), o, c) == Inner(e, o, c)
    decreases e, 1
  {
    hide Precedence;
    match e
    case Atom(_) =>
    case Paren(_, x, _) => OnlyMeaning(x, min, o, c);
    case Prefix(_, x) => OnlyMeaning(x, PREFIX, o, c);
    case Binary(l, op, r) =>
      OnlyMeaning(l, Precedence(op.kind), o, c);
      OnlyMeaning(r, Precedence(op.kind) + 1, o, c);
    case Member(b, _, _) => OnlyMeaning(b, POSTFIX, o, c);
    case Bump(b, _) => OnlyMeaning(b, POSTFIX, o, c);
    case Index(b, _, x, _) => OnlyMeaning(b, POSTFIX, o, c); OnlyMeaning(x, 0, o, c);
    case Call(b, _, args, _) => OnlyMeaning(b, POSTFIX, o, c); OnlyMeaningArgs(args, o, c);
  }

  lemma {:induction false} OnlyMeaningArgs(a: Args, o: Token, c: Token)
    ensures ParensArgs(BareArgs(a), o, c) == ParensArgs(a, o, c)
    decreases a, 2
  {
    if a.Given? { OnlyMeaning(a.first, 0, o, c); OnlyMeaningMore(a.more, o, c); }
  }

  lemma {:induction false} OnlyMeaningMore(a: More, o: Token, c: Token)
    ensures ParensMore(BareMore(a), o, c) == ParensMore(a, o, c)
    decreases a, 2
  {
    if a.Another? { OnlyMeaning(a.arg, 0, o, c); OnlyMeaningMore(a.more, o, c); }
  }

  /** Among all fitting ways to write what `e` means, `Parens` takes the fewest tokens. */
  lemma Shortest(e: Exp, other: Exp, min: nat, o: Token, c: Token)
    requires Fits(other, min) && Bare(other) == Bare(e)
    ensures |Spell(Parens(e, min, o, c))| <= |Spell(other)|
  {
    hide Parens, Bare, Spell, Fits;
    OnlyMeaning(e, min, o, c);
    OnlyMeaning(other, min, o, c);
    Fewest(other, min, o, c);
  }
}
