/** What the preprocessor does with text between directives: words are replaced, once, and nothing else changes. */
module Substitution {
  import opened Texts
  import opened Conditions
  import opened Directives
  import opened Expansion

  /** A comment, a literal, a whole word, or any other single character. */
  datatype Piece = Comment(text: string) | Literal(text: string) | Word(text: string) | Other(text: string)

  function PieceAt(s: string, c: nat): (p: Piece)
    requires c < |s|
    ensures p.text != "" && Occurs(s, c, p.text)
  {
    if StartsComment(s, c) then Comment(s[c..CommentEnd(s, c)])
    else if IsQuote(s[c]) then Literal(s[c..LiteralEnd(s, c + 1, s[c])])
    else if IsIdent(s[c]) then
      assert IdentEnd(s, c) == IdentEnd(s, c + 1);
      Word(s[c..IdentEnd(s, c)])
    else Other([s[c]])
  }

  function Pieces(s: string, c: nat): seq<Piece>
    requires c <= |s|
    decreases |s| - c
  {
    if c == |s| then [] else [PieceAt(s, c)] + Pieces(s, c + |PieceAt(s, c).text|)
  }

  function Join(ps: seq<Piece>): string {
    if ps == [] then "" else ps[0].text + Join(ps[1..])
  }

  /** Every piece as it is, except the words that name macros. */
  function Substituted(ps: seq<Piece>, macros: Macros): string {
    if ps == [] then ""
    else Outcome(ps[0], macros) + Substituted(ps[1..], macros)
  }

  /** A word that is a key of the table becomes the text it is mapped to; anything else stays. */
  function Outcome(p: Piece, macros: Macros): string {
    if p.Word? && p.text in macros then macros[p.text] else p.text
  }

  /** `#` occurs only inside comments and literals. */
  predicate Directiveless(ps: seq<Piece>) {
    forall k :: 0 <= k < |ps| ==> ps[k] != Other("#")
  }

  lemma {:induction false} PiecesTile(s: string, c: nat)
    requires c <= |s|
    ensures Join(Pieces(s, c)) == s[c..]
    decreases |s| - c
  {
    hide PieceAt;
    if c < |s| {
      var p := PieceAt(s, c);
      PiecesTile(s, c + |p.text|);
      PiecesSplit(s, c);
      assert s[c..] == s[c..c + |p.text|] + s[c + |p.text|..];
    }
  }

  /** No identifier character touches position `c` from both sides. */
  predicate Parted(s: string, c: nat)
    requires c <= |s|
  {
    0 < c < |s| ==> !IsIdent(s[c - 1]) || !IsIdent(s[c])
  }

  /** No quote and no backslash but before the character it protects. */
  ghost predicate Inside(s: string, a: nat, b: nat, quote: char)
    requires b <= |s|
    decreases b - a
  {
    || a == b
    || (a + 2 <= b && s[a] == '\\' && Inside(s, a + 2, b, quote))
    || (a < b && s[a] != '\\' && s[a] != quote && Inside(s, a + 1, b, quote))
  }

  /** A literal's contents from `a` and its closing quote before `b`, or the end of the text. */
  ghost predicate Quoted(s: string, a: nat, b: nat, quote: char)
    requires b <= |s|
  {
    || (a < b && s[b - 1] == quote && Inside(s, a, b - 1, quote))
    || (b == |s| && (Inside(s, a, b, quote) || (a < b && s[b - 1] == '\\' && Inside(s, a, b - 1, quote))))
  }

  /** A comment up to its first line end or its first closing mark, or to the end of the text. */
  ghost predicate Commented(s: string, a: nat, b: nat)
    requires StartsComment(s, a) && a + 2 <= b <= |s|
  {
    if s[a + 1] == '/' then
      (forall k :: a <= k < b - 1 ==> s[k] != '\n') && (b < |s| ==> s[b - 1] == '\n')
    else
      || (a + 4 <= b && Occurs(s, b - 2, "*/") && forall k :: a + 2 <= k < b - 2 ==> !Occurs(s, k, "*/"))
      || (b == |s| && forall k :: a + 2 <= k < b ==> !Occurs(s, k, "*/"))
  }

  /** What each kind of piece is, in terms of the characters around it. */
  ghost predicate Shaped(s: string, c: nat, p: Piece)
    requires p.text != "" && Occurs(s, c, p.text)
  {
    var e := c + |p.text|;
    match p
    case Comment(t) => StartsComment(s, c) && |t| >= 2 && Commented(s, c, e)
    case Literal(t) => !StartsComment(s, c) && IsQuote(s[c]) && Quoted(s, c + 1, e, s[c])
    case Word(t) =>
      && (forall k :: 0 <= k < |t| ==> IsIdent(t[k]))
      && (0 < c ==> !IsIdent(s[c - 1])) && (e < |s| ==> !IsIdent(s[e]))
    case Other(t) => |t| == 1 && !IsIdent(t[0]) && !IsQuote(t[0]) && !StartsComment(s, c)
  }

  /** From `c` on, the text is these pieces one after the other. */
  ghost predicate Tiled(s: string, c: nat, ps: seq<Piece>)
    decreases |ps|
  {
    if ps == [] then c == |s|
    else
      && ps[0].text != "" && Occurs(s, c, ps[0].text)
      && Shaped(s, c, ps[0]) && Tiled(s, c + |ps[0].text|, ps[1..])
  }

  lemma CommentShaped(s: string, c: nat)
    requires StartsComment(s, c)
    ensures var e := CommentEnd(s, c); c + 2 <= e && Commented(s, c, e) && Parted(s, e)
  {
    if s[c + 1] == '*' {
      var k := FindText(s, c + 2, "*/");
      if k < |s| { OccursAt(s, k, "*/", 1); }
    } else {
      var k := Find(s, c, '\n');
      assert k > c + 1;
    }
  }

  lemma CommentOnly(s: string, c: nat, e: nat)
    requires StartsComment(s, c) && c + 2 <= e <= |s| && Commented(s, c, e)
    ensures CommentEnd(s, c) == e
  {
    if s[c + 1] == '/' {
      var k := Find(s, c, '\n');
      assert k < |s| ==> s[k] == '\n';
    } else {
      var k := FindText(s, c + 2, "*/");
      if k < |s| { assert Occurs(s, k, "*/"); }
    }
  }

  lemma {:induction false} LiteralShaped(s: string, c: nat, quote: char)
    requires c <= |s| && quote != '\\'
    ensures Quoted(s, c, LiteralEnd(s, c, quote), quote)
    decreases |s| - c
  {
    if c < |s| {
      if s[c] == '\\' && c + 1 < |s| { LiteralShaped(s, c + 2, quote); }
      else if s[c] == '\\' { assert LiteralEnd(s, c + 1, quote) == c + 1; }
      else if s[c] != quote { LiteralShaped(s, c + 1, quote); }
    }
  }

  lemma {:induction false} LiteralOnly(s: string, a: nat, b: nat, quote: char)
    requires a <= b <= |s| && quote != '\\' && Quoted(s, a, b, quote)
    ensures LiteralEnd(s, a, quote) == b
    decreases b - a
  {
    if a < b {
      if s[a] == '\\' {
        if a + 2 <= b { LiteralOnly(s, a + 2, b, quote); }
      } else if s[a] != quote {
        LiteralOnly(s, a + 1, b, quote);
      }
    }
  }

  lemma PieceShaped(s: string, c: nat)
    requires c < |s| && Parted(s, c)
    ensures var p := PieceAt(s, c); Shaped(s, c, p) && Parted(s, c + |p.text|)
  {
    if StartsComment(s, c) { CommentShaped(s, c); }
    else if IsQuote(s[c]) { LiteralShaped(s, c + 1, s[c]); LiteralParts(s, c); }
    else if IsIdent(s[c]) {
      var e := IdentEnd(s, c);
      assert e == IdentEnd(s, c + 1);
      forall k | 0 <= k < e - c ensures IsIdent(s[c..e][k]) { assert s[c..e][k] == s[c + k]; }
    }
  }

  lemma LiteralParts(s: string, c: nat)
    requires c < |s| && IsQuote(s[c])
    ensures Parted(s, LiteralEnd(s, c + 1, s[c]))
  {
    LiteralCloses(s, c + 1, s[c]);
  }

  lemma {:induction false} LiteralCloses(s: string, c: nat, quote: char)
    requires 0 < c <= |s|
    ensures LiteralEnd(s, c, quote) < |s| ==> c < LiteralEnd(s, c, quote) && s[LiteralEnd(s, c, quote) - 1] == quote
    decreases |s| - c
  {
    if c < |s| {
      if s[c] == '\\' && c + 1 < |s| { LiteralCloses(s, c + 2, quote); }
      else if s[c] != quote { LiteralCloses(s, c + 1, quote); }
    }
  }

  lemma WordOnly(s: string, c: nat, w: string)
    requires w != "" && Occurs(s, c, w) && (forall k :: 0 <= k < |w| ==> IsIdent(w[k])) && (c + |w| < |s| ==> !IsIdent(s[c + |w|]))
    ensures PieceAt(s, c) == Word(w)
  {
    forall k | c <= k < c + |w| ensures IsIdent(s[k]) { assert s[c..c + |w|][k - c] == s[k]; }
    IdentRun(s, c, c + |w|);
  }

  lemma {:induction false} IdentRun(s: string, c: nat, e: nat)
    requires c <= e <= |s| && (forall k :: c <= k < e ==> IsIdent(s[k])) && (e < |s| ==> !IsIdent(s[e]))
    ensures IdentEnd(s, c) == e
    decreases e - c
  {
    if c < e { IdentRun(s, c + 1, e); }
  }

  /** Shape and place decide a piece. */
  lemma PieceOnly(s: string, c: nat, p: Piece)
    requires p.text != "" && Occurs(s, c, p.text) && Shaped(s, c, p)
    ensures PieceAt(s, c) == p
  {
    hide CommentEnd, Commented, Quoted, LiteralEnd, IdentEnd;
    match p
    case Comment(t) => CommentOnly(s, c, c + |t|);
    case Literal(t) => LiteralOnly(s, c + 1, c + |t|, s[c]);
    case Word(t) => WordOnly(s, c, t);
    case Other(t) => assert t == [s[c]];
  }

  /** A text is tiled in one way only. */
  lemma {:induction false} TiledOnly(s: string, c: nat, ps: seq<Piece>)
    requires c <= |s| && Tiled(s, c, ps)
    ensures ps == Pieces(s, c)
    decreases |ps|
  {
    hide Shaped, PieceAt;
    if ps != [] {
      PieceOnly(s, c, ps[0]);
      TiledOnly(s, c + |ps[0].text|, ps[1..]);
      PiecesSplit(s, c);
      assert ps == [ps[0]] + ps[1..];
    }
  }

  /** The pieces tile the text; in particular words are whole runs of identifier characters. */
  lemma {:induction false} PiecesTiled(s: string, c: nat)
    requires c <= |s| && Parted(s, c)
    ensures Tiled(s, c, Pieces(s, c))
    decreases |s| - c
  {
    hide Shaped, Parted, PieceAt;
    if c < |s| {
      PieceShaped(s, c);
      PiecesTiled(s, c + |PieceAt(s, c).text|);
      PiecesSplit(s, c);
    }
  }

  lemma PiecesSplit(s: string, c: nat)
    requires c < |s|
    ensures var p := PieceAt(s, c); var rest := Pieces(s, c + |p.text|);
      Pieces(s, c) != [] && Pieces(s, c)[0] == p && Pieces(s, c)[1..] == rest
  {
    hide PieceAt;
  }

  lemma StepPiece(disk: Disk, s: string, c: nat, env: Env)
    requires c < |s| && PieceAt(s, c) != Other("#")
    ensures var p := PieceAt(s, c);
      Step(disk, s, c, env) ==
        Go(c + |p.text|, Emit(env, Outcome(p, env.macros)))
  {}

  lemma Unfold(s: string, c: nat, macros: Macros)
    requires c < |s|
    ensures var p := PieceAt(s, c); var rest := Pieces(s, c + |p.text|);
      Pieces(s, c) == [p] + rest && Substituted(Pieces(s, c), macros) == Outcome(p, macros) + Substituted(rest, macros)
  {
    hide PieceAt;
    PiecesSplit(s, c);
  }

  /** Text without directives is copied, with its words replaced by the macros of that moment. */
  lemma {:induction false} ExpandText(disk: Disk, s: string, c: nat, env: Env, budget: nat)
    requires c <= |s| && Directiveless(Pieces(s, c))
    ensures Expand(disk, s, c, env, budget) == Done(Emit(env, Substituted(Pieces(s, c), env.macros)), budget)
    decreases |s| - c
  {
    hide Step, PieceAt, Substituted, Outcome;
    if c == |s| {
      NothingLeft(env);
    } else {
      var p := PieceAt(s, c);
      var rest := Pieces(s, c + |p.text|);
      Unfold(s, c, env.macros);
      assert Pieces(s, c)[0] != Other("#");
      StepPiece(disk, s, c, env);
      forall k | 0 <= k < |rest| ensures rest[k] != Other("#") { assert rest[k] == Pieces(s, c)[k + 1]; }
      ExpandText(disk, s, c + |p.text|, Emit(env, Outcome(p, env.macros)), budget);
      Grouping(env.out, Outcome(p, env.macros), Substituted(rest, env.macros));
    }
  }

  lemma NothingLeft(env: Env)
    ensures Emit(env, Substituted([], env.macros)) == env
  {
    assert env.out + "" == env.out;
  }

  lemma Grouping(a: string, b: string, c: string)
    ensures a + b + c == a + (b + c)
  {}

  /** When no word names a macro, and so with an empty table, the text comes out as it went in. */
  lemma {:induction false} Untouched(ps: seq<Piece>, macros: Macros)
    requires forall k :: 0 <= k < |ps| && ps[k].Word? ==> ps[k].text !in macros
    ensures Substituted(ps, macros) == Join(ps)
    decreases |ps|
  {
    if ps != [] {
      forall k | 0 <= k < |ps| - 1 && ps[1..][k].Word? ensures ps[1..][k].text !in macros { assert ps[1..][k] == ps[k + 1]; }
      Untouched(ps[1..], macros);
    }
  }

  lemma EmptyTable(disk: Disk, s: string, env: Env, budget: nat)
    requires env.macros == map[] && Directiveless(Pieces(s, 0))
    ensures Expand(disk, s, 0, env, budget) == Done(env.(out := env.out + s), budget)
  {
    ExpandText(disk, s, 0, env, budget);
    Untouched(Pieces(s, 0), env.macros);
    PiecesTile(s, 0);
    assert s[0..] == s;
  }

  // ---------- parts of a text ----------

  /** No quotes, no directives and no comments from `a` up to `b`. */
  ghost predicate Quiet(s: string, a: nat, b: nat) {
    a <= b <= |s| && forall k :: a <= k < b ==> !IsQuote(s[k]) && s[k] != '#' && !StartsComment(s, k)
  }

  /** What a quiet part of a text becomes. */
  function Replace(t: string, macros: Macros): string { Substituted(Pieces(t, 0), macros) }

  /** A quiet part that does not end inside a word is expanded by itself. */
  lemma {:induction false} ExpandPart(disk: Disk, s: string, c: nat, e: nat, env: Env, budget: nat, a: nat)
    requires a <= c && Quiet(s, a, e) && c <= e && (e == |s| || a == e || !IsIdent(s[e - 1]))
    ensures Expand(disk, s, c, env, budget) ==
      Expand(disk, s, e, Emit(env, Substituted(Pieces(s[a..e], c - a), env.macros)), budget)
    decreases e - c
  {
    hide Step, PieceAt, Substituted, Outcome;
    var t := s[a..e];
    if c == e {
      NothingLeft(env);
    } else {
      SamePiece(s, a, e, c);
      var p := PieceAt(s, c);
      StepPiece(disk, s, c, env);
      Unfold(t, c - a, env.macros);
      ExpandPart(disk, s, c + |p.text|, e, Emit(env, Outcome(p, env.macros)), budget, a);
      Grouping(env.out, Outcome(p, env.macros), Substituted(Pieces(t, c - a + |p.text|), env.macros));
    }
  }

  lemma PartOfPart(s: string, a: nat, b: nat, c: nat, d: nat)
    requires a <= c <= d <= b <= |s|
    ensures s[a..b][c - a..d - a] == s[c..d]
  {
    var x, y := s[a..b][c - a..d - a], s[c..d];
    forall j | 0 <= j < |y| ensures x[j] == y[j] {}
    assert |x| == |y|;
  }

  lemma SamePiece(s: string, a: nat, e: nat, c: nat)
    requires Quiet(s, a, e) && a <= c < e && (e == |s| || !IsIdent(s[e - 1]))
    ensures var p := PieceAt(s, c);
      PieceAt(s[a..e], c - a) == p && c + |p.text| <= e && p != Other("#")
  {
    var t := s[a..e];
    PartPlain(s, a, e, c);
    if IsIdent(s[c]) {
      SameRun(s, a, e, c);
      var k := IdentEnd(s, c);
      assert IdentEnd(t, c - a) == k - a;
      PartOfPart(s, a, e, c, k);
    }
  }

  lemma PartPlain(s: string, a: nat, e: nat, c: nat)
    requires Quiet(s, a, e) && a <= c < e
    ensures s[a..e][c - a] == s[c] && !IsQuote(s[c]) && s[c] != '#'
    ensures !StartsComment(s, c) && !StartsComment(s[a..e], c - a)
  {
    var t := s[a..e];
    assert t[c - a] == s[c];
    if c + 1 < e { assert t[c - a + 1] == s[c + 1]; }
  }

  lemma {:induction false} SameRun(s: string, a: nat, e: nat, c: nat)
    requires a <= c <= e <= |s| && (c < e ==> e == |s| || !IsIdent(s[e - 1])) && (c == e ==> c == |s| || !IsIdent(s[c]) || c == a || !IsIdent(s[c - 1]))
    ensures c < e ==> IdentEnd(s[a..e], c - a) + a == IdentEnd(s, c) && IdentEnd(s, c) <= e
    decreases e - c
  {
    var t := s[a..e];
    if c < e {
      assert t[c - a] == s[c];
      if IsIdent(s[c]) {
        if c + 1 < e { SameRun(s, a, e, c + 1); }
      }
    }
  }

  lemma ExpandQuiet(disk: Disk, s: string, c: nat, e: nat, env: Env, budget: nat)
    requires Quiet(s, c, e) && (e == |s| || c == e || !IsIdent(s[e - 1]))
    ensures Expand(disk, s, c, env, budget) == Expand(disk, s, e, Emit(env, Replace(s[c..e], env.macros)), budget)
  {
    hide Expand;
    ExpandPart(disk, s, c, e, env, budget, c);
  }

  // ---------- words and what they become ----------

  predicate IsWord(w: string) { w != "" && forall k :: 0 <= k < |w| ==> IsIdent(w[k]) }

  /** A whole word is read in one round, and the output grows by what the table says. */
  lemma WordExpands(disk: Disk, s: string, c: nat, w: string, env: Env)
    requires IsWord(w) && Occurs(s, c, w) && (c + |w| < |s| ==> !IsIdent(s[c + |w|]))
    ensures Step(disk, s, c, env) == Go(c + |w|, env.(out := env.out + if w in env.macros then env.macros[w] else w))
  {
    forall k | c <= k < c + |w| ensures IsIdent(s[k]) { assert s[c..c + |w|][k - c] == s[k]; }
    IdentRun(s, c, c + |w|);
  }

  /** A text as words and single characters between them. */
  datatype Bit = Name(word: string) | Mark(mark: char)

  predicate BitsOk(bits: seq<Bit>) {
    && (forall k :: 0 <= k < |bits| ==> if bits[k].Name? then IsWord(bits[k].word) else !IsIdent(bits[k].mark))
    && (forall k :: 0 < k < |bits| ==> bits[k - 1].Mark? || bits[k].Mark?)
  }

  function BitText(b: Bit): string { if b.Name? then b.word else [b.mark] }

  function BitsText(bits: seq<Bit>): string {
    if bits == [] then "" else BitText(bits[0]) + BitsText(bits[1..])
  }

  /** The text with each word that is a key of the table replaced, once. */
  function Spoken(bits: seq<Bit>, macros: Macros): string {
    if bits == [] then ""
    else
      (match bits[0]
       case Name(w) => if w in macros then macros[w] else w
       case Mark(c) => [c]) + Spoken(bits[1..], macros)
  }

  lemma BitsRest(bits: seq<Bit>)
    requires BitsOk(bits) && bits != []
    ensures BitsOk(bits[1..])
    ensures bits[0].Name? ==> IsWord(bits[0].word) && (|bits| > 1 ==> bits[1].Mark? && !IsIdent(bits[1].mark))
    ensures bits[0].Mark? ==> !IsIdent(bits[0].mark)
  {}

  lemma BitsAhead(bits: seq<Bit>, s: string, c: nat)
    requires bits != [] && Occurs(s, c, BitsText(bits)) && c + |BitsText(bits)| == |s|
    ensures var e := c + |BitText(bits[0])|;
      && Occurs(s, c, BitText(bits[0])) && Occurs(s, e, BitsText(bits[1..])) && e + |BitsText(bits[1..])| == |s|
      && (|bits| > 1 && bits[1].Mark? ==> e < |s| && s[e] == bits[1].mark) && (|bits| == 1 ==> e == |s|)
  {
    hide Occurs, BitText;
    var x, y := BitText(bits[0]), BitsText(bits[1..]);
    OccursParts(s, c, x, y);
    OccursWithin(s, c + |x|, y);
    if |bits| > 1 && bits[1].Mark? {
      MarkFirst(bits[1..]);
      OccursAt(s, c + |x|, y, 0);
    } else if |bits| == 1 {
      assert y == "";
    }
  }

  lemma MarkFirst(bits: seq<Bit>)
    requires bits != [] && bits[0].Mark?
    ensures BitsText(bits) != "" && BitsText(bits)[0] == bits[0].mark
  {}

  lemma OccursWithin(s: string, c: nat, t: string)
    requires Occurs(s, c, t)
    ensures c + |t| <= |s|
  {}

  /** The pieces of such a text are its words and marks. */
  lemma {:induction false} BitsSpoken(bits: seq<Bit>, s: string, c: nat, macros: Macros)
    requires BitsOk(bits) && Quiet(s, c, |s|) && Occurs(s, c, BitsText(bits)) && c + |BitsText(bits)| == |s|
    ensures Substituted(Pieces(s, c), macros) == Spoken(bits, macros)
    decreases |bits|
  {
    hide PieceAt, BitsOk, Occurs, Substituted;
    if bits == [] {
      NoPieces(s, macros);
    } else {
      BitsRest(bits);
      BitsAhead(bits, s, c);
      BitPiece(bits[0], s, c);
      Unfold(s, c, macros);
      BitsSpoken(bits[1..], s, c + |BitText(bits[0])|, macros);
    }
  }

  lemma NoPieces(s: string, macros: Macros)
    ensures Substituted(Pieces(s, |s|), macros) == ""
  {}

  lemma BitPiece(b: Bit, s: string, c: nat)
    requires c < |s| && Quiet(s, c, |s|) && Occurs(s, c, BitText(b))
    requires if b.Name? then IsWord(b.word) && (c + |b.word| < |s| ==> !IsIdent(s[c + |b.word|])) else !IsIdent(b.mark)
    ensures PieceAt(s, c) == if b.Name? then Word(b.word) else Other([b.mark])
  {
    match b
    case Name(w) => WordOnly(s, c, w);
    case Mark(m) => assert s[c..c + 1] == [s[c]];
  }
}
