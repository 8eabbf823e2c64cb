/**
 Expressions as source text: an expression written with the fewest parentheses and a blank
 between any two tokens is lexed and parsed back into nodes that stand for it.
 */
module SourceText {
  import opened Tokens
  import opened Symbols
  import opened Productions
  import opened Arena
  import opened Translation
  import opened Scanning
  import opened Expressions
  import opened PrattArena
  import Pratt
  import Printing

  // ---------- expressions up to where their tokens stand ----------

  function Unplaced(t: Token): Token { Token(0, 0, t.kind) }

  /** The expression without the positions and lengths of its tokens. */
  function Shape(e: Exp): Exp {
    match e
    case Atom(t) => Atom(Unplaced(t))
    case Paren(o, x, c) => Paren(Unplaced(o), Shape(x), Unplaced(c))
    case Prefix(op, x) => Prefix(Unplaced(op), Shape(x))
    case Binary(l, op, r) => Binary(Shape(l), Unplaced(op), Shape(r))
    case Member(b, op, n) => Member(Shape(b), Unplaced(op), Unplaced(n))
    case Bump(b, op) => Bump(Shape(b), Unplaced(op))
    case Index(b, o, x, c) => Index(Shape(b), Unplaced(o), Shape(x), Unplaced(c))
    case Call(b, o, args, c) => Call(Shape(b), Unplaced(o), ShapeArgs(args), Unplaced(c))
  }

  function ShapeArgs(a: Args): Args {
    match a
    case NoArgs => a
    case Given(x, more) => Given(Shape(x), ShapeMore(more))
  }

  function ShapeMore(m: More): More {
    match m
    case NoMore => m
    case Another(c, x, more) => Another(Unplaced(c), Shape(x), ShapeMore(more))
  }

  /** The precedence rule does not look at positions. */
  lemma {:induction false} ShapeFits(e: Exp, min: nat)
    ensures Fits(Shape(e), min) <==> Fits(e, min)
    decreases e
  {
    hide IsLiteral, IsName, IsPrefixOp, Precedence;
    match e
    case Atom(_) =>
    case Paren(_, x, _) => ShapeFits(x, 0);
    case Prefix(_, x) => ShapeFits(x, PREFIX);
    case Binary(l, op, r) => ShapeFits(l, Precedence(op.kind)); ShapeFits(r, Precedence(op.kind) + 1);
    case Member(b, _, _) => ShapeFits(b, POSTFIX);
    case Bump(b, _) => ShapeFits(b, POSTFIX);
    case Index(b, _, x, _) => ShapeFits(b, POSTFIX); ShapeFits(x, 0);
    case Call(b, _, args, _) => ShapeFits(b, POSTFIX); ShapeFitsArgs(args);
  }

  lemma {:induction false} ShapeFitsArgs(a: Args)
    ensures FitsArgs(ShapeArgs(a)) <==> FitsArgs(a)
    decreases a
  {
    if a.Given? { ShapeFits(a.first, 0); ShapeFitsMore(a.more); }
  }

  lemma {:induction false} ShapeFitsMore(m: More)
    ensures FitsMore(ShapeMore(m)) <==> FitsMore(m)
    decreases m
  {
    if m.Another? { ShapeFits(m.arg, 0); ShapeFitsMore(m.more); }
  }

  /** Nor does dropping the parentheses. */
  lemma {:induction false} ShapeBare(e: Exp)
    ensures Shape(Bare(e)) == Bare(Shape(e))
    decreases e
  {
    match e
    case Atom(_) =>
    case Paren(_, x, _) => ShapeBare(x);
    case Prefix(_, x) => ShapeBare(x);
    case Binary(l, _, r) => ShapeBare(l); ShapeBare(r);
    case Member(b, _, _) => ShapeBare(b);
    case Bump(b, _) => ShapeBare(b);
    case Index(b, _, x, _) => ShapeBare(b); ShapeBare(x);
    case Call(b, _, args, _) => ShapeBare(b); ShapeBareArgs(args);
  }

  lemma {:induction false} ShapeBareArgs(a: Args)
    ensures ShapeArgs(BareArgs(a)) == BareArgs(ShapeArgs(a))
    decreases a
  {
    if a.Given? { ShapeBare(a.first); ShapeBareMore(a.more); }
  }

  lemma {:induction false} ShapeBareMore(m: More)
    ensures ShapeMore(BareMore(m)) == BareMore(ShapeMore(m))
    decreases m
  {
    if m.Another? { ShapeBare(m.arg); ShapeBareMore(m.more); }
  }

  // ---------- the same expression on other tokens ----------

  predicate SameKinds(ts: seq<Token>, us: seq<Token>) {
    |ts| == |us| && forall k :: 0 <= k < |ts| ==> ts[k].kind == us[k].kind
  }

  lemma Cut(ts: seq<Token>, a: seq<Token>, b: seq<Token>)
    requires SameKinds(ts, a + b)
    ensures SameKinds(ts[..|a|], a) && SameKinds(ts[|a|..], b) && ts == ts[..|a|] + ts[|a|..]
  {
    forall k | 0 <= k < |a| ensures ts[..|a|][k].kind == a[k].kind { assert (a + b)[k] == a[k]; }
    forall k | 0 <= k < |b| ensures ts[|a|..][k].kind == b[k].kind { assert (a + b)[|a| + k] == b[k]; }
  }

  lemma CutOne(ts: seq<Token>, t: Token, b: seq<Token>)
    requires SameKinds(ts, [t] + b)
    ensures Unplaced(ts[0]) == Unplaced(t) && SameKinds(ts[1..], b) && ts == [ts[0]] + ts[1..]
  {
    Cut(ts, [t], b);
    assert ([t] + b)[0] == t;
    assert ts[..1] == [ts[0]];
  }

  lemma CutLast(ts: seq<Token>, a: seq<Token>, t: Token)
    requires SameKinds(ts, a + [t])
    ensures SameKinds(ts[..|a|], a) && Unplaced(ts[|a|]) == Unplaced(t) && ts == ts[..|a|] + [ts[|a|]]
  {
    Cut(ts, a, [t]);
    assert (a + [t])[|a|] == t;
    assert ts[|a|..] == [ts[|a|]];
  }

  /** An expression can be put on any tokens of the same kinds. */
  lemma {:induction false} Place(e: Exp, ts: seq<Token>) returns (w: Exp)
    requires SameKinds(ts, Spell(e))
    ensures Spell(w) == ts && Shape(w) == Shape(e)
    decreases e
  {
    hide SameKinds;
    match e
    case Atom(t) =>
      assert [t] + [] == [t];
      CutOne(ts, t, []);
      w := Atom(ts[0]);
      assert SameKinds(ts[1..], []);
      Empty(ts[1..]);
    case Paren(o, x, c) => w := PlaceParen(e, ts);
    case Prefix(op, x) =>
      CutOne(ts, op, Spell(x));
      var x' := Place(x, ts[1..]);
      w := Prefix(ts[0], x');
    case Binary(l, op, r) => w := PlaceBinary(e, ts);
    case Member(b, op, n) => w := PlaceMember(e, ts);
    case Bump(b, op) =>
      CutLast(ts, Spell(b), op);
      var b' := Place(b, ts[..|Spell(b)|]);
      w := Bump(b', ts[|Spell(b)|]);
    case Index(b, o, x, c) => w := PlaceIndex(e, ts);
    case Call(b, o, args, c) => w := PlaceCall(e, ts);
  }

  lemma Empty(ts: seq<Token>)
    requires SameKinds(ts, [])
    ensures ts == []
  {}

  lemma {:induction false} PlaceParen(e: Exp, ts: seq<Token>) returns (w: Exp)
    requires e.Paren? && SameKinds(ts, Spell(e))
    ensures Spell(w) == ts && Shape(w) == Shape(e)
    decreases e, 0
  {
    hide SameKinds;
    var n := |Spell(e.inner)|;
    assert Spell(e) == [e.open] + (Spell(e.inner) + [e.close]);
    CutOne(ts, e.open, Spell(e.inner) + [e.close]);
    var us := ts[1..];
    CutLast(us, Spell(e.inner), e.close);
    var x := Place(e.inner, us[..n]);
    w := Paren(ts[0], x, us[n]);
    assert Spell(w) == [ts[0]] + (us[..n] + [us[n]]);
  }

  lemma {:induction false} PlaceBinary(e: Exp, ts: seq<Token>) returns (w: Exp)
    requires e.Binary? && SameKinds(ts, Spell(e))
    ensures Spell(w) == ts && Shape(w) == Shape(e)
    decreases e, 0
  {
    hide SameKinds;
    var n := |Spell(e.lhs)|;
    Cut(ts, Spell(e.lhs), [e.op] + Spell(e.rhs));
    var us := ts[n..];
    CutOne(us, e.op, Spell(e.rhs));
    var l := Place(e.lhs, ts[..n]);
    var r := Place(e.rhs, us[1..]);
    w := Binary(l, us[0], r);
  }

  lemma {:induction false} PlaceMember(e: Exp, ts: seq<Token>) returns (w: Exp)
    requires e.Member? && SameKinds(ts, Spell(e))
    ensures Spell(w) == ts && Shape(w) == Shape(e)
    decreases e, 0
  {
    hide SameKinds;
    var n := |Spell(e.base)|;
    Cut(ts, Spell(e.base), [e.op, e.name]);
    var us := ts[n..];
    assert [e.op, e.name] == [e.op] + [e.name];
    CutOne(us, e.op, [e.name]);
    assert [e.name] == [] + [e.name];
    CutLast(us[1..], [], e.name);
    var b := Place(e.base, ts[..n]);
    w := Member(b, us[0], us[1]);
    assert us == [us[0], us[1]];
  }

  /** What stands between brackets, and the brackets. */
  lemma CutBrackets(us: seq<Token>, o: Token, x: seq<Token>, c: Token)
    requires SameKinds(us, [o] + x + [c])
    ensures |us| == |x| + 2 && us == [us[0]] + us[1..|x| + 1] + [us[|x| + 1]] && SameKinds(us[1..|x| + 1], x)
    ensures Unplaced(us[0]) == Unplaced(o) && Unplaced(us[|x| + 1]) == Unplaced(c)
  {
    CutLast(us, [o] + x, c);
    CutOne(us[..|x| + 1], o, x);
    assert us[..|x| + 1][1..] == us[1..|x| + 1];
  }

  lemma {:induction false} PlaceIndex(e: Exp, ts: seq<Token>) returns (w: Exp)
    requires e.Index? && SameKinds(ts, Spell(e))
    ensures Spell(w) == ts && Shape(w) == Shape(e)
    decreases e, 0
  {
    hide SameKinds;
    var n := |Spell(e.base)|;
    Cut(ts, Spell(e.base), [e.open] + Spell(e.index) + [e.close]);
    var us := ts[n..];
    CutBrackets(us, e.open, Spell(e.index), e.close);
    var b := Place(e.base, ts[..n]);
    var m := |Spell(e.index)|;
    var x := Place(e.index, us[1..m + 1]);
    w := Index(b, us[0], x, us[m + 1]);
  }

  lemma {:induction false} PlaceCall(e: Exp, ts: seq<Token>) returns (w: Exp)
    requires e.Call? && SameKinds(ts, Spell(e))
    ensures Spell(w) == ts && Shape(w) == Shape(e)
    decreases e, 0
  {
    hide SameKinds;
    var n := |Spell(e.base)|;
    Cut(ts, Spell(e.base), [e.open] + SpellArgs(e.args) + [e.close]);
    var us := ts[n..];
    CutBrackets(us, e.open, SpellArgs(e.args), e.close);
    var b := Place(e.base, ts[..n]);
    var m := |SpellArgs(e.args)|;
    var a := PlaceArgs(e.args, us[1..m + 1]);
    w := Call(b, us[0], a, us[m + 1]);
  }

  lemma {:induction false} PlaceArgs(a: Args, ts: seq<Token>) returns (w: Args)
    requires SameKinds(ts, SpellArgs(a))
    ensures SpellArgs(w) == ts && ShapeArgs(w) == ShapeArgs(a)
    decreases a
  {
    match a
    case NoArgs => w := NoArgs;
    case Given(x, more) =>
      hide SameKinds;
      var n := |Spell(x)|;
      Cut(ts, Spell(x), SpellMore(more));
      var x' := Place(x, ts[..n]);
      var m' := PlaceMore(more, ts[n..]);
      w := Given(x', m');
  }

  lemma {:induction false} PlaceMore(m: More, ts: seq<Token>) returns (w: More)
    requires SameKinds(ts, SpellMore(m))
    ensures SpellMore(w) == ts && ShapeMore(w) == ShapeMore(m)
    decreases m
  {
    match m
    case NoMore => w := NoMore;
    case Another(c, x, more) =>
      hide SameKinds;
      var n := |Spell(x)|;
      CutOne(ts, c, Spell(x) + SpellMore(more));
      var us := ts[1..];
      Cut(us, Spell(x), SpellMore(more));
      var x' := Place(x, us[..n]);
      var m' := PlaceMore(more, us[n..]);
      w := Another(ts[0], x', m');
  }

  // ---------- from text to nodes ----------

  /** `ws` has the kinds of the tokens `ts`. */
  predicate Writes(ws: seq<Printing.Spelling>, ts: seq<Token>) {
    |ws| == |ts| && forall k :: 0 <= k < |ws| ==> Printing.KindOf(ws[k]) == ts[k].kind
  }

  function Lexed(src: string): Input { Input(src, TokensFrom(src, 0)) }

  lemma TextTokens(ws: seq<Printing.Spelling>, ts: seq<Token>)
    requires Printing.AllFine(ws) && Writes(ws, ts)
    ensures SameKinds(Lexed(Printing.Join(ws)).toks, ts)
  {
    hide Printing.Join, Spans, Printing.Fine, Printing.KindOf;
    Printing.RoundTrip(ws);
  }

  /**
   Spell any expression with the fewest parentheses, write the tokens with blanks between
   them, lex and parse that text: all of it is read, and the nodes stand for the expression
   meant, on the tokens of the text.
   */
  lemma SourceReadBack(e: Exp, o: Token, c: Token, ws: seq<Printing.Spelling>) returns (w: Exp)
    requires Formed(e) && o.kind.Left? && c.kind.Right?
    requires Printing.AllFine(ws) && Writes(ws, Spell(Parens(e, 0, o, c)))
    ensures var i := Lexed(Printing.Join(ws)); var r := Result(i, Expr(0), 0, [], NullNode);
      && Spell(w) == i.toks && Shape(Bare(w)) == Shape(Bare(e))
      && r.Done? && r.next == |i.toks| && Denotes(r.nodes, r.id, Bare(w))
  {
    hide Result, Fits, Formed, Spell, Parens, Bare, Shape, Denotes, SameKinds, Writes, Printing.AllFine, Printing.Join, TokensFrom;
    var i := Lexed(Printing.Join(ws));
    var x := Parens(e, 0, o, c);
    TextTokens(ws, Spell(x));
    w := Place(x, i.toks);
    ParensFit(e, 0, o, c);
    ParensMean(e, 0, o, c);
    ShapeFits(x, 0);
    ShapeFits(w, 0);
    assert i.toks[0..|i.toks|] == i.toks;
    ParsesFitting(i, 0, 0, w, |i.toks|, []);
    var r := Result(i, Expr(0), 0, [], NullNode);
    DenotesBare(r.nodes, r.id, w);
    ShapeBare(w);
    ShapeBare(x);
  }
}
