/** Printing tokens separated by single spaces and lexing them again gives them back. */
module Printing {
  import opened Tokens
  import opened Lexicon
  import opened Scanning

  datatype Exponent = NoExponent | Exponent(letter: char, sign: string, digits: string)
  datatype Numeral =
    | Hex(letter: char, digits: string, suffix: string)
    | Dec(whole: string, fraction: string, exponent: Exponent, suffix: string)
  datatype Item = Plain(c: char) | Escaped(c: char)

  /** One printable token. */
  datatype Spelling =
    | Word(text: string)
    | Num(num: Numeral)
    | Op(kind: TokenType)
    | Lit(quote: char, items: seq<Item>)

  predicate All(s: string, p: char -> bool) { forall k :: 0 <= k < |s| ==> p(s[k]) }

  predicate ItemsFine(items: seq<Item>, quote: char) { forall k :: 0 <= k < |items| ==> ItemFine(items[k], quote) }

  predicate AllFine(ws: seq<Spelling>) { forall k :: 0 <= k < |ws| ==> Fine(ws[k]) }

  predicate ExponentFine(e: Exponent) {
    e.Exponent? ==> (e.letter == 'e' || e.letter == 'E') && (e.sign == "" || e.sign == "+" || e.sign == "-") && All(e.digits, IsDigit)
  }

  predicate NumeralFine(n: Numeral) {
    match n
    case Hex(x, ds, sf) => (x == 'x' || x == 'X') && All(ds, IsHexDigit) && All(sf, IsSuffix)
    case Dec(w, f, e, sf) => w != "" && All(w, IsDigit) && All(f, IsDigit) && ExponentFine(e) && All(sf, IsSuffix)
  }

  predicate ItemFine(i: Item, quote: char) {
    match i case Plain(c) => c != quote && c != '\\' && c != '\0' case Escaped(c) => c != '\0'
  }

  predicate Fine(w: Spelling) {
    match w
    case Word(t) => t != "" && IsIdentStart(t[0]) && All(t, IsIdentBody)
    case Num(n) => NumeralFine(n)
    case Op(k) => Text(k) != "" && !IsIdentStart(Text(k)[0]) && k != SSlash
    case Lit(q, items) => (q == '"' || q == '\'') && ItemsFine(items, q)
  }

  function ShowExponent(e: Exponent): string {
    match e case NoExponent => "" case Exponent(l, sg, ds) => [l] + sg + ds
  }

  function ShowFraction(f: string): string { if f == "" then "" else "." + f }

  function ShowNumeral(n: Numeral): string {
    match n
    case Hex(x, ds, sf) => "0" + [x] + ds + sf
    case Dec(w, f, e, sf) => w + ShowFraction(f) + ShowExponent(e) + sf
  }

  function ShowItems(items: seq<Item>): string {
    if items == [] then ""
    else (match items[0] case Plain(c) => [c] case Escaped(c) => ['\\', c]) + ShowItems(items[1..])
  }

  function Show(w: Spelling): string {
    match w
    case Word(t) => t
    case Num(n) => ShowNumeral(n)
    case Op(k) => Text(k)
    case Lit(q, items) => [q] + ShowItems(items) + [q]
  }

  /** Words are classified by their first `length mod 65536` characters. */
  function KindOf(w: Spelling): TokenType
  {
    match w
    case Word(t) => WordKind(t[..Length16(|t|)])
    case Num(n) => if n.Dec? && (n.fraction != "" || n.exponent.Exponent?) then LFloat else LInt
    case Op(k) => k
    case Lit(q, _) => if q == '"' then LString else LChar
  }

  function Join(ws: seq<Spelling>): string {
    if ws == [] then "" else if |ws| == 1 then Show(ws[0]) else Show(ws[0]) + " " + Join(ws[1..])
  }

  // ---------- reading one spelling ----------

  /** `w` stands at `c`. */
  ghost predicate Here(s: string, c: nat, w: string) {
    c + |w| <= |s| && s[c..c + |w|] == w
  }

  lemma HereSplit(s: string, c: nat, a: string, b: string)
    requires Here(s, c, a + b)
    ensures Here(s, c, a) && Here(s, c + |a|, b)
  {
    assert s[c..c + |a + b|][..|a|] == s[c..c + |a|];
    assert s[c..c + |a + b|][|a|..] == s[c + |a|..c + |a| + |b|];
  }

  lemma HereAt(s: string, c: nat, w: string, k: nat)
    requires Here(s, c, w) && k < |w|
    ensures s[c + k] == w[k]
  {
    assert s[c..c + |w|][k] == s[c + k];
  }

  /** Nothing or a space follows. */
  predicate Stop(s: string, e: nat) { e == |s| || (e < |s| && s[e] == ' ') }

  lemma RunIs(s: string, c: nat, w: string, p: char -> bool)
    requires Here(s, c, w) && All(w, p)
    requires c + |w| < |s| ==> !p(s[c + |w|])
    ensures RunEnd(s, c, p) == c + |w|
    decreases |w|
  {
    if w != "" {
      HereAt(s, c, w, 0);
      HereSplit(s, c, w[..1], w[1..]);
      assert w == w[..1] + w[1..];
      RunIs(s, c + 1, w[1..], p);
    }
  }

  lemma RunAtLeast(s: string, c: nat, w: string, p: char -> bool)
    requires Here(s, c, w) && All(w, p)
    ensures c + |w| <= RunEnd(s, c, p)
    decreases |w|
  {
    if w != "" {
      HereAt(s, c, w, 0);
      HereSplit(s, c, w[..1], w[1..]);
      assert w == w[..1] + w[1..];
      RunAtLeast(s, c + 1, w[1..], p);
    }
  }

  lemma WordFine(s: string, c: nat, t: string)
    requires Fine(Spelling.Word(t)) && c + |t| <= |s| && Stop(s, c + |t|)
    ensures t != "" && IsIdentStart(t[0]) && All(t, IsIdentBody)
    ensures c + |t| < |s| ==> !IsIdentBody(s[c + |t|])
  {
    hide Text, WordKind;
  }

  lemma ReadWord(s: string, c: nat, t: string)
    requires Fine(Spelling.Word(t)) && Here(s, c, t) && Stop(s, c + |t|)
    ensures RunEnd(s, c, IsIdentBody) == c + |t| && IsIdentStart(s[c]) && s[c..c + Length16(|t|)] == t[..Length16(|t|)]
  {
    hide Fine, Stop, All;
    WordFine(s, c, t);
    HereAt(s, c, t, 0);
    RunIs(s, c, t, IsIdentBody);
    HerePrefix(s, c, t, Length16(|t|));
  }

  lemma HerePrefix(s: string, c: nat, w: string, n: nat)
    requires Here(s, c, w) && n <= |w|
    ensures c + n <= |s| && s[c..c + n] == w[..n]
  {
    assert s[c..c + |w|][..n] == s[c..c + n];
  }

  lemma ReadHex(s: string, c: nat, x: char, ds: string, sf: string)
    requires NumeralFine(Hex(x, ds, sf)) && Here(s, c, "0") && Here(s, c + 1, [x]) && Here(s, c + 2, ds)
    requires Here(s, c + 2 + |ds|, sf) && Stop(s, c + 2 + |ds| + |sf|)
    ensures s[c] == '0' && Number(s, c) == Lexeme(c + 2 + |ds| + |sf|, LInt)
  {
    HereAt(s, c, "0", 0);
    HereAt(s, c + 1, [x], 0);
    // the run of digits may also take the first letters of the suffix
    var h := RunEnd(s, c + 2, IsHexDigit);
    RunAtLeast(s, c + 2, ds, IsHexDigit);
    ReadSuffixFrom(s, c + 2 + |ds|, sf, h);
  }

  lemma ReadSuffixFrom(s: string, c: nat, sf: string, h: nat)
    requires All(sf, IsSuffix) && Here(s, c, sf) && Stop(s, c + |sf|) && c <= h <= |s|
    requires forall k :: c <= k < h ==> IsHexDigit(s[k])
    ensures RunEnd(s, h, IsSuffix) == c + |sf|
  {
    assert h <= c + |sf|;
    var rest := sf[h - c..];
    assert sf == sf[..h - c] + rest;
    HereSplit(s, c, sf[..h - c], rest);
    RunIs(s, h, rest, IsSuffix);
  }

  /** Characters that can follow the digits of a numeral. */
  predicate Ends(c: char) { IsSuffix(c) || c == ' ' || c == '\0' }

  lemma ReadSuffix(s: string, c: nat, sf: string)
    requires All(sf, IsSuffix) && Here(s, c, sf) && Stop(s, c + |sf|)
    ensures RunEnd(s, c, IsSuffix) == c + |sf| && Ends(Peek(s, c))
  {
    if sf != "" { HereAt(s, c, sf, 0); }
    RunIs(s, c, sf, IsSuffix);
  }

  lemma ExponentSplit(s: string, c: nat, e: Exponent)
    requires e.Exponent? && Here(s, c, ShowExponent(e))
    ensures Here(s, c, [e.letter]) && Here(s, c + 1, e.sign) && Here(s, c + 1 + |e.sign|, e.digits)
  {
    HereSplit(s, c, [e.letter] + e.sign, e.digits);
    HereSplit(s, c, [e.letter], e.sign);
  }

  lemma ReadExponent(s: string, c: nat, e: Exponent)
    requires ExponentFine(e) && Here(s, c, ShowExponent(e)) && Ends(Peek(s, c + |ShowExponent(e)|))
    ensures ExponentEnd(s, c) == c + |ShowExponent(e)|
    ensures Peek(s, c) == 'e' || Peek(s, c) == 'E' || Ends(Peek(s, c))
  {
    if e.Exponent? {
      ExponentSplit(s, c, e);
      assert |ShowExponent(e)| == 1 + |e.sign| + |e.digits|;
      HereAt(s, c, [e.letter], 0);
      RunIs(s, c + 1 + |e.sign|, e.digits, IsDigit);
      ReadSign(s, c + 1, e.sign, e.digits);
    }
  }

  lemma ReadSign(s: string, c: nat, sign: string, digits: string)
    requires (sign == "" || sign == "+" || sign == "-") && All(digits, IsDigit)
    requires Here(s, c, sign) && Here(s, c + |sign|, digits) && Ends(Peek(s, c + |sign| + |digits|))
    ensures c + |sign| == if Peek(s, c) == '+' || Peek(s, c) == '-' then c + 1 else c
  {
    if sign != "" { HereAt(s, c, sign, 0); }
    else if digits != "" { HereAt(s, c, digits, 0); }
  }

  lemma ReadFraction(s: string, c: nat, f: string)
    requires All(f, IsDigit) && Here(s, c, ShowFraction(f))
    requires var d := Peek(s, c + |ShowFraction(f)|); d == 'e' || d == 'E' || Ends(d)
    ensures FractionEnd(s, c) == c + |ShowFraction(f)| && !IsDigit(Peek(s, c))
    ensures Peek(s, c) != 'x' && Peek(s, c) != 'X'
  {
    if f != "" {
      HereSplit(s, c, ".", f);
      HereAt(s, c, ".", 0);
      HereAt(s, c + 1, f, 0);
      RunIs(s, c + 1, f, IsDigit);
    }
  }

  lemma ReadDec(s: string, c: nat, w: string, f: string, x: Exponent, sf: string)
    requires NumeralFine(Dec(w, f, x, sf)) && Here(s, c, w) && Here(s, c + |w|, ShowFraction(f))
    requires Here(s, c + |w| + |ShowFraction(f)|, ShowExponent(x))
    requires Here(s, c + |w| + |ShowFraction(f)| + |ShowExponent(x)|, sf)
    requires Stop(s, c + |w| + |ShowFraction(f)| + |ShowExponent(x)| + |sf|)
    ensures IsDigit(s[c])
    ensures Number(s, c) == Lexeme(c + |w| + |ShowFraction(f)| + |ShowExponent(x)| + |sf|, if f != "" || x.Exponent? then LFloat else LInt)
  {
    hide Number, ExponentEnd, FractionEnd, KindOf, WordKind, Here, Stop, ExponentFine, ShowFraction, ShowExponent, RunEnd, IsSuffix;
    var e := c + |w|;
    var e2 := e + |ShowFraction(f)|;
    ReadSuffix(s, e2 + |ShowExponent(x)|, sf);
    ReadExponent(s, e2, x);
    ReadFraction(s, e, f);
    HereAt(s, c, w, 0);
    RunIs(s, c, w, IsDigit);
    NotHex(s, c, w);
    NumberParts(s, c, e, e2, e2 + |ShowExponent(x)|);
    FloatShown(f, x);
  }

  lemma FloatShown(f: string, x: Exponent)
    ensures |ShowFraction(f)| + |ShowExponent(x)| > 0 <==> f != "" || x.Exponent?
  {}

  lemma NotHex(s: string, c: nat, w: string)
    requires w != "" && All(w, IsDigit) && Here(s, c, w) && Peek(s, c + |w|) != 'x' && Peek(s, c + |w|) != 'X'
    ensures !IsHexStart(s, c)
  {
    if |w| > 1 { HereAt(s, c, w, 1); }
  }

  lemma ReadNumeral(s: string, c: nat, n: Numeral)
    requires NumeralFine(n) && Here(s, c, ShowNumeral(n)) && Stop(s, c + |ShowNumeral(n)|)
    ensures c < |s| && IsDigit(s[c]) && Number(s, c) == Lexeme(c + |ShowNumeral(n)|, KindOf(Num(n)))
  {
    match n
    case Hex(x, ds, sf) =>
      HereSplit(s, c, "0" + [x] + ds, sf);
      HereSplit(s, c, "0" + [x], ds);
      HereSplit(s, c, "0", [x]);
      ReadHex(s, c, x, ds, sf);
    case Dec(w, f, x, sf) =>
      HereSplit(s, c, w + ShowFraction(f) + ShowExponent(x), sf);
      HereSplit(s, c, w + ShowFraction(f), ShowExponent(x));
      HereSplit(s, c, w, ShowFraction(f));
      ReadDec(s, c, w, f, x, sf);
  }

  /** The characters at `c` are those of `w` and then nothing that could extend an operator. */
  ghost predicate Spells(s: string, c: nat, w: string) {
    && (forall j :: 0 <= j < |w| ==> Peek(s, c + j) == w[j])
    && (Peek(s, c + |w|) == ' ' || Peek(s, c + |w|) == '\0')
  }

  lemma ReadSingle(s: string, c: nat, k: TokenType)
    requires c < |s| && SingleText(k) != "" && Spells(s, c, SingleText(k))
    ensures Operator(s, c) == Lexeme(c + 1, k)
  {
    hide StringMap, KeywordText, LongText, Text;
    var x := SingleText(k)[0];
    assert SingleText(k) == [x] && s[c] == x;
  }

  lemma ReadLong(s: string, c: nat, k: TokenType)
    requires c < |s| && LongText(k) != "" && k != SSlash && Spells(s, c, LongText(k))
    ensures Operator(s, c) == Lexeme(c + |LongText(k)|, k)
  {
    hide StringMap, KeywordText, SingleText, Text, Single;
    var w := LongText(k);
    assert Peek(s, c) == w[0] && Peek(s, c + 1) == w[1];
    if |w| > 2 { assert Peek(s, c + 2) == w[2]; }
  }

  lemma HereSpells(s: string, c: nat, w: string)
    requires Here(s, c, w) && Stop(s, c + |w|)
    ensures Spells(s, c, w)
  {
    forall j | 0 <= j < |w| ensures Peek(s, c + j) == w[j] { HereAt(s, c, w, j); }
  }

  /** Operators start with none of the characters that start another kind of token. */
  lemma OperatorStart(k: TokenType)
    requires Fine(Op(k))
    ensures Text(k) != "" && KeywordText(k) == "" && OperatorChar(Text(k)[0])
    ensures Text(k)[0] == '/' ==> |Text(k)| == 1 || Text(k)[1] == '='
  {
    hide SingleText, LongText, KeywordText, WordKind;
    if SingleText(k) != "" { SingleStart(k); }
    else if LongText(k) != "" { LongStart(k); }
    else { KeywordStart(k); }
  }

  predicate OperatorChar(c: char) {
    !IsIdentStart(c) && !IsDigit(c) && !IsBlank(c) && c != '"' && c != '\''
  }

  lemma SingleStart(k: TokenType)
    requires SingleText(k) != ""
    ensures |SingleText(k)| == 1 && OperatorChar(SingleText(k)[0]) && KeywordText(k) == ""
  {
    hide LongText;
  }

  lemma LongStart(k: TokenType)
    requires LongText(k) != ""
    ensures |LongText(k)| >= 2 && OperatorChar(LongText(k)[0]) && KeywordText(k) == ""
    ensures LongText(k)[0] == '/' ==> LongText(k)[1] == '=' || k == SSlash
  {
    hide SingleText;
  }

  lemma ReadOperator(s: string, c: nat, k: TokenType)
    requires Fine(Op(k)) && Here(s, c, Text(k)) && Stop(s, c + |Text(k)|)
    ensures c < |s| && LexemeAt(s, c) == Lexeme(c + |Text(k)|, k) && StartsToken(s, c)
  {
    hide StringMap, KeywordText, SingleText, LongText, Operator, Single;
    OperatorStart(k);
    HereSpells(s, c, Text(k));
    HereAt(s, c, Text(k), 0);
    if |Text(k)| > 1 { HereAt(s, c, Text(k), 1); }
    if SingleText(k) != "" { SingleOnly(k); ReadSingle(s, c, k); } else { ReadLong(s, c, k); }
  }

  lemma {:induction false} ReadItems(s: string, c: nat, items: seq<Item>, quote: char)
    requires ItemsFine(items, quote)
    requires quote != '\\' && quote != '\0' && Here(s, c, ShowItems(items) + [quote])
    ensures QuoteEnd(s, c, quote) == c + |ShowItems(items)| + 1
    decreases |items|
  {
    var w := ShowItems(items) + [quote];
    HereAt(s, c, w, 0);
    if items != [] {
      var first := if items[0].Plain? then [items[0].c] else ['\\', items[0].c];
      assert ShowItems(items) == first + ShowItems(items[1..]);
      assert w == first + (ShowItems(items[1..]) + [quote]);
      HereSplit(s, c, first, ShowItems(items[1..]) + [quote]);
      if items[0].Escaped? { HereAt(s, c, w, 1); }
      ReadItems(s, c + |first|, items[1..], quote);
    }
  }

  lemma ReadLiteral(s: string, c: nat, q: char, items: seq<Item>)
    requires Fine(Lit(q, items)) && Here(s, c, Show(Lit(q, items)))
    ensures c < |s| && s[c] == q && QuoteEnd(s, c + 1, q) == c + |Show(Lit(q, items))|
  {
    var w := Show(Lit(q, items));
    HereAt(s, c, w, 0);
    assert w == [q] + (ShowItems(items) + [q]);
    HereSplit(s, c, [q], ShowItems(items) + [q]);
    ReadItems(s, c + 1, items, q);
  }

  lemma ReadOne(s: string, c: nat, w: Spelling)
    requires Fine(w) && Here(s, c, Show(w)) && Stop(s, c + |Show(w)|)
    ensures c < |s| && LexemeAt(s, c) == Lexeme(c + |Show(w)|, KindOf(w)) && StartsToken(s, c)
  {
    hide WordKind, Text, Operator, Number, QuoteEnd, RunEnd, ShowNumeral, ShowItems, NumeralFine;
    match w
    case Word(t) => HereAt(s, c, t, 0); ReadWord(s, c, t);
    case Num(n) => ReadNumeral(s, c, n);
    case Op(k) => ReadOperator(s, c, k);
    case Lit(q, items) => ReadLiteral(s, c, q, items);
  }

  // ---------- the round trip ----------

  /** `p` are spans of `s` with the kinds and texts of `ws`. */
  ghost predicate Match(s: string, p: seq<Span>, ws: seq<Spelling>) {
    && |p| == |ws|
    && forall k :: 0 <= k < |p| ==>
         p[k].start <= p[k].end <= |s| && p[k].kind == KindOf(ws[k]) && s[p[k].start..p[k].end] == Show(ws[k])
  }

  lemma SpansStep(s: string, c: nat)
    requires c < |s| && StartsToken(s, c)
    ensures var l := LexemeAt(s, c); Spans(s, c) == [Span(c, l.end, l.kind)] + Spans(s, l.end)
  {
    hide LexemeAt;
  }

  lemma SpansBlank(s: string, c: nat)
    requires c < |s| && IsBlank(s[c])
    ensures Spans(s, c) == Spans(s, c + 1)
  {
    hide LexemeAt;
  }

  lemma {:induction false} LexJoined(s: string, c: nat, ws: seq<Spelling>)
    requires c <= |s| && s[c..] == Join(ws) && AllFine(ws)
    ensures Match(s, Spans(s, c), ws)
    decreases |ws|
  {
    hide LexemeAt, PastTrivia, KindOf, Show, Fine, StartsToken;
    if ws != [] {
      var e := c + |Show(ws[0])|;
      JoinedHead(s, c, ws);
      ReadOne(s, c, ws[0]);
      SpansStep(s, c);
      if |ws| == 1 {
        assert Spans(s, e) == [] by { EndOfText(s); }
      } else {
        SpansBlank(s, e);
        LexJoined(s, e + 1, ws[1..]);
      }
      MatchCons(s, Span(c, e, KindOf(ws[0])), Spans(s, e), ws);
    }
  }

  lemma EndOfText(s: string)
    ensures Spans(s, |s|) == []
  {}

  lemma JoinedHead(s: string, c: nat, ws: seq<Spelling>)
    requires c <= |s| && s[c..] == Join(ws) && ws != []
    ensures var e := c + |Show(ws[0])|;
      Here(s, c, Show(ws[0])) && Stop(s, e) && (|ws| > 1 ==> e < |s| && s[e + 1..] == Join(ws[1..]))
      && (|ws| == 1 ==> e == |s|)
  {
    var w := Show(ws[0]);
    var e := c + |w|;
    assert s[c..e] == s[c..][..|w|];
    if |ws| > 1 {
      assert Join(ws) == w + " " + Join(ws[1..]);
      assert s[e] == s[c..][|w|];
      assert s[e + 1..] == s[c..][|w| + 1..];
    }
  }

  lemma MatchCons(s: string, h: Span, p: seq<Span>, ws: seq<Spelling>)
    requires ws != [] && Match(s, p, ws[1..]) && h.start <= h.end && Here(s, h.start, Show(ws[0]))
    requires h.end == h.start + |Show(ws[0])| && h.kind == KindOf(ws[0])
    ensures Match(s, [h] + p, ws)
  {
    forall k | 0 <= k < |ws| ensures var q := ([h] + p)[k];
      q.start <= q.end <= |s| && q.kind == KindOf(ws[k]) && s[q.start..q.end] == Show(ws[k])
    {
      if k > 0 { assert ([h] + p)[k] == p[k - 1] && ws[k] == ws[1..][k - 1]; }
    }
  }

  /** Lexing undoes printing, for every list of tokens. */
  lemma RoundTrip(ws: seq<Spelling>)
    requires AllFine(ws)
    ensures Match(Join(ws), Spans(Join(ws), 0), ws)
  {
    assert Join(ws)[0..] == Join(ws);
    LexJoined(Join(ws), 0, ws);
  }
}
