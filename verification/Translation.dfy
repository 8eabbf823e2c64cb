/**
 Parsing and node emission as one left-to-right run. `Result` is the reference outcome of
 a non-terminal; `Resume` finishes a production of which a part has already been done.
 The parser class is proved against these two.
 */
module Translation {
  import opened Tokens
  import opened Symbols
  import opened Engine
  import opened Productions
  import opened Arena
  import opened Emission

  datatype Final = Failed(at: Token) | Done(id: NodeId, next: nat, nodes: seq<AstNode>)

  /** What reading `n` at `p` leaves behind when the arena holds `nodes`. */
  function Result(i: Input, n: NT, p: nat, nodes: seq<AstNode>, inh: NodeId): (f: Final)
    ensures f.Done? ==> p <= f.next <= |i.toks| && (IsEager(n) ==> p < f.next)
  {
    LgcValid();
    if p > |i.toks| then Failed(i.End()) else
    match Parse(Lgc, i, n, p)
    case Err(t) => Failed(t)
    case Ok(t, q) => var e := Emit(nodes, t, inh); Done(e.1, q, e.0)
  }

  /** A production of `n` entered at `p` with current expression `inh`. */
  datatype Job = Job(i: Input, n: NT, p: nat, inh: NodeId)

  function Completed(j: Job, q: nat, w: Walked): Final {
    var act := Act(j.n, j.i.At(j.p), j.i.At(j.p + 1), j.i.At(q), w.ids, j.inh, |w.nodes|);
    Done(act.1, q, w.nodes + act.0)
  }

  /** The outcome of `j` when `rest` of its production is still to be read at `p`. */
  function Resume(j: Job, rest: seq<Sym>, p: nat, w: Walked): Final
    decreases |rest|
  {
    if rest == [] then Completed(j, p, w)
    else
      match rest[0]
      case T(k) =>
        if p < |j.i.toks| && j.i.Kind(p) == k then Resume(j, rest[1..], p + 1, w) else Failed(j.i.At(p))
      case N(x) =>
        match Result(j.i, x, p, w.nodes, InhFor(x, w.inh))
        case Failed(t) => Failed(t)
        case Done(id, q, nodes) => Resume(j, rest[1..], q, Walked(nodes, id, w.ids + [id]))
  }

  /** The outcome of `j` once its remaining parts have been parsed. */
  function Conclude(j: Job, nodes: seq<AstNode>, kids: seq<Tree>, r: Reses): Final {
    match r
    case Errs(t) => Failed(t)
    case Oks(ts, q) => Completed(j, q, Walk(nodes, j.inh, kids + ts))
  }

  lemma ConcludeMore(j: Job, nodes: seq<AstNode>, kids: seq<Tree>, t: Tree, r: Reses)
    ensures Conclude(j, nodes, kids + [t], r) ==
      Conclude(j, nodes, kids, match r case Errs(e) => Errs(e) case Oks(ts, q) => Oks([t] + ts, q))
  {
    if r.Oks? { assert kids + ([t] + r.trees) == kids + [t] + r.trees; }
  }

  lemma {:induction false} ResumeParses(j: Job, rest: seq<Sym>, bound: nat, p: nat, nodes: seq<AstNode>, kids: seq<Tree>)
    requires p <= |j.i.toks| && Lgc.Valid() && Lgc.Guarded(rest, bound)
    ensures Resume(j, rest, p, Walk(nodes, j.inh, kids)) == Conclude(j, nodes, kids, ParseAll(Lgc, j.i, rest, p, bound))
    decreases |rest|
  {
    hide Rhs, Act, Completed, Rank, IsEager, Emit, Walk;
    if rest == [] {
      assert kids + [] == kids;
    } else {
      var r := ParseSym(Lgc, j.i, rest[0], p, bound);
      if r.Ok? {
        TopGuards(Lgc, rest[1..]);
        var b := Lgc.After(rest[0], bound);
        ResumeParses(j, rest[1..], b, r.next, nodes, kids + [r.tree]);
        WalkMore(nodes, j.inh, kids, r.tree);
        ConcludeMore(j, nodes, kids, r.tree, ParseAll(Lgc, j.i, rest[1..], r.next, b));
      }
    }
  }

  lemma WalkMore(nodes: seq<AstNode>, inh: NodeId, kids: seq<Tree>, t: Tree)
    ensures var w := Walk(nodes, inh, kids);
      Walk(nodes, inh, kids + [t]) ==
        if t.Leaf? then w
        else var e := Emit(w.nodes, t, InhFor(t.nt, w.inh)); Walked(e.0, e.1, w.ids + [e.1])
  {
    assert (kids + [t])[..|kids|] == kids;
  }

  lemma ConcludeAll(j: Job, nodes: seq<AstNode>, r: Reses)
    ensures Conclude(j, nodes, [], r) ==
      match r
      case Errs(t) => Failed(t)
      case Oks(ts, q) =>
        var e := Emit(nodes, Node(j.n, j.i.At(j.p), j.i.At(j.p + 1), j.i.At(q), ts), j.inh);
        Done(e.1, q, e.0)
  {
    if r.Oks? { assert [] + r.trees == r.trees; }
  }

  /** Entering a production. */
  lemma Enter(i: Input, n: NT, p: nat, nodes: seq<AstNode>, inh: NodeId)
    requires p <= |i.toks|
    ensures Result(i, n, p, nodes, inh) ==
      match Rhs(i.source, n, i.At(p), i.At(p + 1))
      case None => Failed(i.At(p))
      case Some(rhs) => Resume(Job(i, n, p, inh), rhs, p, Walked(nodes, inh, []))
  {
    hide Rhs, Act, Rank, IsEager, Emit, Conclude, Resume;
    LgcValid();
    var rhs := Rhs(i.source, n, i.At(p), i.At(p + 1));
    if rhs.Some? {
      ResumeParses(Job(i, n, p, inh), rhs.value, Rank(n), p, nodes, []);
      ConcludeAll(Job(i, n, p, inh), nodes, ParseAll(Lgc, i, rhs.value, p, Rank(n)));
    }
  }

  // ---------- one symbol at a time ----------

  /** The outcome of `j` when the first `k` symbols of `rhs` have been read. */
  function From(j: Job, rhs: seq<Sym>, k: nat, p: nat, w: Walked): Final
    requires k <= |rhs|
  {
    Resume(j, rhs[k..], p, w)
  }

  lemma FromStart(i: Input, n: NT, rhs: seq<Sym>, p: nat, nodes: seq<AstNode>, inh: NodeId)
    requires p <= |i.toks| && Rhs(i.source, n, i.At(p), i.At(p + 1)) == Some(rhs)
    ensures Result(i, n, p, nodes, inh) == From(Job(i, n, p, inh), rhs, 0, p, Walked(nodes, inh, []))
  {
    hide Rhs, Result, Resume;
    Enter(i, n, p, nodes, inh);
    assert rhs[0..] == rhs;
  }

  lemma FromToken(j: Job, rhs: seq<Sym>, k: nat, p: nat, w: Walked)
    requires k < |rhs| && rhs[k].T?
    ensures From(j, rhs, k, p, w) ==
      if p < |j.i.toks| && j.i.Kind(p) == rhs[k].kind then From(j, rhs, k + 1, p + 1, w) else Failed(j.i.At(p))
  {
    hide Completed, Result;
    assert rhs[k..][1..] == rhs[k + 1..];
  }

  /** Position and progress after a part; anything will do when the part failed. */
  function NextOf(f: Final): nat { if f.Done? then f.next else 0 }

  function After(w: Walked, f: Final): Walked {
    if f.Done? then Walked(f.nodes, f.id, w.ids + [f.id]) else w
  }

  lemma FromNode(j: Job, rhs: seq<Sym>, k: nat, p: nat, w: Walked)
    requires k < |rhs| && rhs[k].N?
    ensures var r := Result(j.i, rhs[k].nt, p, w.nodes, InhFor(rhs[k].nt, w.inh));
      From(j, rhs, k, p, w) == if r.Failed? then r else From(j, rhs, k + 1, NextOf(r), After(w, r))
  {
    hide Completed, Result;
    assert rhs[k..][1..] == rhs[k + 1..];
  }

  lemma FromEnd(j: Job, rhs: seq<Sym>, p: nat, w: Walked)
    ensures From(j, rhs, |rhs|, p, w) == Completed(j, p, w)
  {
    hide Completed;
  }

  /** A loop part that repeats itself last continues as if it had just been entered. */
  lemma LoopBack(j: Job, p: nat, w: Walked)
    requires p <= |j.i.toks| && j.n in {Stmts, TopStmts, MoreArgs, MoreParams}
    ensures Resume(j, [N(j.n)], p, w) == Result(j.i, j.n, p, w.nodes, NullNode)
  {
    hide Rhs, Result;
    var r := Result(j.i, j.n, p, w.nodes, NullNode);
    if r.Done? {
      LoopValue(j.i, j.n, p, w.nodes);
      assert r.nodes + [] == r.nodes;
    }
  }

  lemma LoopValue(i: Input, n: NT, p: nat, nodes: seq<AstNode>)
    requires p <= |i.toks| && n in {Stmts, TopStmts, MoreArgs, MoreParams}
    ensures var r := Result(i, n, p, nodes, NullNode); r.Done? ==> r.id == NullNode
  {}

  /** After one operator or postfix the expression is extended from its new id. */
  lemma ChainBack(j: Job, p: nat, w: Walked)
    requires p <= |j.i.toks| && (j.n.Tail? || j.n.Postfixes?)
    ensures Resume(j, [N(j.n)], p, w) == Result(j.i, j.n, p, w.nodes, w.inh)
  {
    hide Rhs, Result;
    var r := Result(j.i, j.n, p, w.nodes, w.inh);
    if r.Done? { assert r.nodes + [] == r.nodes; }
  }

  /** The arena stays a forest. */
  lemma ResultForest(i: Input, n: NT, p: nat, nodes: seq<AstNode>, inh: NodeId)
    requires p <= |i.toks| && Forest(nodes) && (Extends(n) ==> Usable(nodes, inh))
    ensures var r := Result(i, n, p, nodes, inh); r.Done? ==> EmitOk(nodes, n, inh, (r.nodes, r.id))
  {
    hide Rhs, Act, Rank, IsEager, Emit, EmitOk, Forest;
    LgcValid();
    var r := Parse(Lgc, i, n, p);
    if r.Ok? {
      Sound(Lgc, i, n, p, r.tree, r.next);
      LegalShaped(i.source, N(n), r.tree, i.At(r.next), i.At(r.next + 1));
      EmitForest(i.source, nodes, n, r.tree, inh);
    }
  }

  lemma StaysForest(i: Input, n: NT, p: nat, nodes: seq<AstNode>)
    requires Forest(nodes) && !n.Tail? && !n.BinStep? && !n.Postfixes? && !n.PostfixStep?
    ensures var r := Result(i, n, p, nodes, NullNode); r.Done? ==> Forest(r.nodes)
  {
    hide Forest;
    if p <= |i.toks| { ResultForest(i, n, p, nodes, NullNode); }
  }
}
