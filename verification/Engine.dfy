/**
 Predictive parsing with two tokens of lookahead, for any table of productions.
 `Parse` is the deterministic reference parser; `Legal` says without positions or search
 when a tree is a derivation whose every choice agrees with the tokens that follow.
 The two describe the same trees.
 */
module Engine {
  import opened Tokens
  import opened Symbols

  /**
   `choose` gives the production for a non-terminal from the next two tokens, or nothing
   when the first of them cannot start it. `rank` orders the non-terminals that may be
   entered without taking a token; an `eager` one always takes at least one.
   */
  datatype Grammar = Grammar(
    choose: (string, NT, Token, Token) -> Option<seq<Sym>>,
    rank: NT -> nat,
    eager: NT -> bool,
    top: nat
  ) {
    ghost predicate Valid() {
      && (forall n :: rank(n) < top)
      && (forall src, n, a, b :: choose(src, n, a, b).Some? ==>
            var rhs := choose(src, n, a, b).value;
            Guarded(rhs, rank(n)) && (eager(n) ==> Eager(rhs)))
    }

    /** Every symbol reached before a token is taken ranks below `bound`; no end marker is expected. */
    predicate Guarded(rhs: seq<Sym>, bound: nat) {
      rhs == [] ||
      match rhs[0]
      case T(k) => true
      case N(n) => rank(n) < bound && (eager(n) || Guarded(rhs[1..], bound))
    }

    predicate Eager(rhs: seq<Sym>) {
      rhs != [] && (rhs[0].T? || eager(rhs[0].nt) || Eager(rhs[1..]))
    }

    /** The bound in force after symbol `s`. */
    function After(s: Sym, bound: nat): nat {
      if s.T? || eager(s.nt) then top else bound
    }
  }

  lemma TopGuards(g: Grammar, rhs: seq<Sym>)
    requires g.Valid()
    ensures g.Guarded(rhs, g.top)
  {}

  // ---------- the reference parser ----------

  function Parse(g: Grammar, i: Input, n: NT, p: nat): (r: Res)
    requires g.Valid() && p <= |i.toks|
    ensures r.Ok? ==> p <= r.next <= |i.toks| && (g.eager(n) ==> p < r.next)
    decreases |i.toks| - p, 2 * g.rank(n) + 1, 0
  {
    match g.choose(i.source, n, i.At(p), i.At(p + 1))
    case None => Err(i.At(p))
    case Some(rhs) =>
      match ParseAll(g, i, rhs, p, g.rank(n))
      case Errs(t) => Err(t)
      case Oks(ts, q) => Ok(Node(n, i.At(p), i.At(p + 1), i.At(q), ts), q)
  }

  function ParseAll(g: Grammar, i: Input, rhs: seq<Sym>, p: nat, bound: nat): (r: Reses)
    requires g.Valid() && p <= |i.toks| && g.Guarded(rhs, bound)
    ensures r.Oks? ==> p <= r.next <= |i.toks| && (g.Eager(rhs) ==> p < r.next)
    decreases |i.toks| - p, 2 * bound, |rhs|
  {
    if rhs == [] then Oks([], p)
    else
      match ParseSym(g, i, rhs[0], p, bound)
      case Err(t) => Errs(t)
      case Ok(t, q) =>
        TopGuards(g, rhs[1..]);
        match ParseAll(g, i, rhs[1..], q, g.After(rhs[0], bound))
        case Errs(e) => Errs(e)
        case Oks(ts, q') => Oks([t] + ts, q')
  }

  function ParseSym(g: Grammar, i: Input, s: Sym, p: nat, bound: nat): (r: Res)
    requires g.Valid() && p <= |i.toks| && g.Guarded([s], bound)
    ensures r.Ok? ==> p <= r.next <= |i.toks| && (s.T? || g.eager(s.nt) ==> p < r.next)
    decreases |i.toks| - p, 2 * bound, 0
  {
    match s
    case T(k) => if p < |i.toks| && i.Kind(p) == k then Ok(Leaf(i.At(p)), p + 1) else Err(i.At(p))
    case N(n) => Parse(g, i, n, p)
  }

  // ---------- legal derivations ----------

  /** The first two tokens of `ys` followed by `a` and `b`. */
  function Ahead(ys: seq<Token>, a: Token, b: Token): (Token, Token) {
    if |ys| == 0 then (a, b) else if |ys| == 1 then (ys[0], a) else (ys[0], ys[1])
  }

  predicate Legal(g: Grammar, src: string, s: Sym, t: Tree, a: Token, b: Token)
    decreases t, 1
  {
    match s
    case T(k) => t.Leaf? && t.tok.kind == k
    case N(n) =>
      && t.Node? && t.nt == n
      && (t.look, t.look2) == Ahead(Yield(t), a, b) && t.after == a
      && var rhs := g.choose(src, n, t.look, t.look2);
         rhs.Some? && LegalAll(g, src, rhs.value, t.kids, a, b)
  }

  predicate LegalAll(g: Grammar, src: string, rhs: seq<Sym>, ts: seq<Tree>, a: Token, b: Token)
    decreases ts, 0
  {
    |rhs| == |ts| &&
    (ts == [] ||
      var (c, d) := Ahead(Yields(ts[1..]), a, b);
      Legal(g, src, rhs[0], ts[0], c, d) && LegalAll(g, src, rhs[1..], ts[1..], a, b))
  }

  /** The tokens from `p` to `q` are `ys`. */
  ghost predicate Reads(i: Input, p: nat, ys: seq<Token>, q: nat) {
    q == p + |ys| <= |i.toks| && i.toks[p..q] == ys
  }

  lemma ReadJoin(i: Input, p: nat, a: seq<Token>, q: nat, b: seq<Token>, r: nat)
    requires Reads(i, p, a, q) && Reads(i, q, b, r)
    ensures Reads(i, p, a + b, r)
  {
    assert i.toks[p..r] == i.toks[p..q] + i.toks[q..r];
  }

  lemma ReadSplit(i: Input, p: nat, a: seq<Token>, b: seq<Token>, r: nat)
    requires Reads(i, p, a + b, r)
    ensures Reads(i, p, a, p + |a|) && Reads(i, p + |a|, b, r)
  {
    assert i.toks[p..r][..|a|] == i.toks[p..p + |a|];
    assert i.toks[p..r][|a|..] == i.toks[p + |a|..r];
  }

  lemma ReadAhead(i: Input, p: nat, ys: seq<Token>, q: nat)
    requires Reads(i, p, ys, q)
    ensures Ahead(ys, i.At(q), i.At(q + 1)) == (i.At(p), i.At(p + 1))
  {
    if |ys| > 0 { assert ys[0] == i.toks[p]; }
    if |ys| > 1 { assert ys[1] == i.toks[p + 1]; }
  }

  /** Everything the parser accepts is a legal derivation of exactly the tokens it took. */
  lemma {:induction false} Sound(g: Grammar, i: Input, n: NT, p: nat, t: Tree, q: nat)
    requires g.Valid() && p <= |i.toks| && Parse(g, i, n, p) == Ok(t, q)
    ensures Reads(i, p, Yield(t), q)
    ensures Legal(g, i.source, N(n), t, i.At(q), i.At(q + 1))
    decreases |i.toks| - p, 2 * g.rank(n) + 1, 0
  {
    var rhs := g.choose(i.source, n, i.At(p), i.At(p + 1)).value;
    SoundAll(g, i, rhs, p, g.rank(n), t.kids, q);
    ReadAhead(i, p, Yield(t), q);
  }

  lemma {:induction false} SoundAll(g: Grammar, i: Input, rhs: seq<Sym>, p: nat, bound: nat, ts: seq<Tree>, q: nat)
    requires g.Valid() && p <= |i.toks| && g.Guarded(rhs, bound) && ParseAll(g, i, rhs, p, bound) == Oks(ts, q)
    ensures Reads(i, p, Yields(ts), q)
    ensures LegalAll(g, i.source, rhs, ts, i.At(q), i.At(q + 1))
    decreases |i.toks| - p, 2 * bound, |rhs|
  {
    if rhs != [] {
      var h := ParseSym(g, i, rhs[0], p, bound);
      if rhs[0].N? { Sound(g, i, rhs[0].nt, p, h.tree, h.next); }
      TopGuards(g, rhs[1..]);
      SoundAll(g, i, rhs[1..], h.next, g.After(rhs[0], bound), ts[1..], q);
      LegalCons(g, i, rhs, h.tree, ts[1..], p, h.next, q);
      assert [h.tree] + ts[1..] == ts;
    }
  }

  lemma LegalCons(g: Grammar, i: Input, rhs: seq<Sym>, t: Tree, ts: seq<Tree>, p: nat, m: nat, q: nat)
    requires rhs != [] && Reads(i, p, Yield(t), m) && Reads(i, m, Yields(ts), q)
    requires Legal(g, i.source, rhs[0], t, i.At(m), i.At(m + 1))
    requires LegalAll(g, i.source, rhs[1..], ts, i.At(q), i.At(q + 1))
    ensures Reads(i, p, Yields([t] + ts), q)
    ensures LegalAll(g, i.source, rhs, [t] + ts, i.At(q), i.At(q + 1))
  {
    assert ([t] + ts)[1..] == ts;
    ReadJoin(i, p, Yield(t), m, Yields(ts), q);
    ReadAhead(i, m, Yields(ts), q);
  }

  /** Every legal derivation of the tokens at `p` is what the parser returns there. */
  lemma {:induction false} Complete(g: Grammar, i: Input, n: NT, p: nat, t: Tree, q: nat)
    requires g.Valid() && Reads(i, p, Yield(t), q)
    requires Legal(g, i.source, N(n), t, i.At(q), i.At(q + 1))
    ensures Parse(g, i, n, p) == Ok(t, q)
    decreases t, 1
  {
    ReadAhead(i, p, Yield(t), q);
    CompleteAll(g, i, g.choose(i.source, n, t.look, t.look2).value, p, g.rank(n), t.kids, q);
  }

  lemma {:induction false} CompleteAll(g: Grammar, i: Input, rhs: seq<Sym>, p: nat, bound: nat, ts: seq<Tree>, q: nat)
    requires g.Valid() && g.Guarded(rhs, bound) && Reads(i, p, Yields(ts), q)
    requires LegalAll(g, i.source, rhs, ts, i.At(q), i.At(q + 1))
    ensures ParseAll(g, i, rhs, p, bound) == Oks(ts, q)
    decreases ts, 0
  {
    if ts != [] {
      var m := p + |Yield(ts[0])|;
      ReadSplit(i, p, Yield(ts[0]), Yields(ts[1..]), q);
      ReadAhead(i, m, Yields(ts[1..]), q);
      if rhs[0].N? { Complete(g, i, rhs[0].nt, p, ts[0], m); }
      TopGuards(g, rhs[1..]);
      CompleteAll(g, i, rhs[1..], m, g.After(rhs[0], bound), ts[1..], q);
      assert [ts[0]] + ts[1..] == ts;
    }
  }

  /** The parser's answer is characterised by the grammar alone. */
  lemma Exact(g: Grammar, i: Input, n: NT, p: nat, t: Tree, q: nat)
    requires g.Valid() && p <= |i.toks|
    ensures Parse(g, i, n, p) == Ok(t, q) <==>
      Reads(i, p, Yield(t), q) && Legal(g, i.source, N(n), t, i.At(q), i.At(q + 1))
  {
    if Parse(g, i, n, p) == Ok(t, q) { Sound(g, i, n, p, t, q); }
    if Reads(i, p, Yield(t), q) && Legal(g, i.source, N(n), t, i.At(q), i.At(q + 1)) {
      Complete(g, i, n, p, t, q);
    }
  }

  /** No token list has two readings, not even of different lengths. */
  lemma Unambiguous(g: Grammar, i: Input, n: NT, p: nat, t: Tree, q: nat, t': Tree, q': nat)
    requires g.Valid()
    requires Reads(i, p, Yield(t), q) && Legal(g, i.source, N(n), t, i.At(q), i.At(q + 1))
    requires Reads(i, p, Yield(t'), q') && Legal(g, i.source, N(n), t', i.At(q'), i.At(q' + 1))
    ensures t == t' && q == q'
  {
    Complete(g, i, n, p, t, q);
    Complete(g, i, n, p, t', q');
  }
}
