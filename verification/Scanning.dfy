/** The token structure of a source text, as functions of the text and a position. */
module Scanning {
  import opened Tokens
  import opened Lexicon

  /** Past the end of the text there are only NUL characters. */
  function Peek(s: string, c: nat): char { if c < |s| then s[c] else '\0' }

  predicate IsBlank(c: char) { c == ' ' || c == '\t' || c == '\r' || c == '\n' }

  predicate IsIdentStart(c: char) { 'a' <= c <= 'z' || 'A' <= c <= 'Z' || c == '_' }

  predicate IsDigit(c: char) { '0' <= c <= '9' }

  predicate IsIdentBody(c: char) { IsIdentStart(c) || IsDigit(c) }

  predicate IsHexDigit(c: char) { IsDigit(c) || 'a' <= c <= 'f' || 'A' <= c <= 'F' }

  predicate IsSuffix(c: char) { c == 'f' || c == 'F' || c == 'u' || c == 'U' || c == 'l' || c == 'L' }

  predicate InLine(c: char) { c != '\0' && c != '\n' }

  const SMALL := "abcdefghijklmnopqrstuvwxyz"
  const CAPITAL := "ABCDEFGHIJKLMNOPQRSTUVWXYZ"
  const DIGITS := "0123456789"

  predicate IsLetter(c: char) { c in SMALL || c in CAPITAL }

  lemma SmallLetters(c: char)
    ensures c in SMALL <==> 'a' <= c <= 'z'
  {}

  lemma CapitalLetters(c: char)
    ensures c in CAPITAL <==> 'A' <= c <= 'Z'
  {}

  lemma Letters(c: char)
    ensures IsLetter(c) <==> 'a' <= c <= 'z' || 'A' <= c <= 'Z'
  {
    SmallLetters(c);
    CapitalLetters(c);
  }

  /** The classes of characters, listed. */
  lemma Classes(c: char)
    ensures IsIdentStart(c) <==> IsLetter(c) || c == '_'
    ensures IsDigit(c) <==> c in DIGITS
    ensures IsIdentBody(c) <==> IsLetter(c) || c in DIGITS || c == '_'
    ensures IsHexDigit(c) <==> c in DIGITS || c in "abcdefABCDEF"
    ensures IsSuffix(c) <==> c in "fFuUlL"
    ensures IsBlank(c) <==> c in " \t\r\n"
  {
    hide IsLetter;
    Letters(c);
  }

  /** End of the run of characters satisfying `p` that starts at `c`. */
  function RunEnd(s: string, c: nat, p: char -> bool): (e: nat)
    requires c <= |s|
    ensures c <= e <= |s| && (forall k :: c <= k < e ==> p(s[k])) && (e < |s| ==> !p(s[e]))
    decreases |s| - c
  {
    if c < |s| && p(s[c]) then RunEnd(s, c + 1, p) else c
  }

  /** End of a block comment whose body starts at `c`; a NUL or the end of text cuts it short. */
  function BlockEnd(s: string, c: nat): (e: nat)
    requires c <= |s|
    ensures c <= e <= |s|
    decreases |s| - c
  {
    if Peek(s, c) == '\0' then c
    else if s[c] == '*' && Peek(s, c + 1) == '/' then c + 2
    else BlockEnd(s, c + 1)
  }

  /** First position at or after `c` that is neither blank nor inside a comment. */
  function PastTrivia(s: string, c: nat): (e: nat)
    requires c <= |s|
    ensures c <= e <= |s|
    decreases |s| - c
  {
    if c == |s| then c
    else if IsBlank(s[c]) then PastTrivia(s, c + 1)
    else if s[c] == '/' && Peek(s, c + 1) == '/' then PastTrivia(s, RunEnd(s, c + 2, InLine))
    else if s[c] == '/' && Peek(s, c + 1) == '*' then PastTrivia(s, BlockEnd(s, c + 2))
    else c
  }

  datatype Lexeme = Lexeme(end: nat, kind: TokenType)

  /** Lengths are kept in 16 bits. */
  function Length16(n: nat): nat { n % 0x1_0000 }

  function WordKind(text: string): TokenType {
    if StringMap(text) == TBD then Ident else StringMap(text)
  }

  function Word(s: string, c: nat): (l: Lexeme)
    requires c < |s| && IsIdentStart(s[c])
    ensures c < l.end <= |s|
  {
    var e := RunEnd(s, c, IsIdentBody);
    Lexeme(e, WordKind(s[c..c + Length16(e - c)]))
  }

  /** End of an optional fraction: a point counts only when a digit follows. */
  function FractionEnd(s: string, c: nat): (e: nat)
    requires c <= |s|
    ensures c <= e <= |s|
  {
    if Peek(s, c) == '.' && IsDigit(Peek(s, c + 1)) then RunEnd(s, c + 1, IsDigit) else c
  }

  /** End of an optional exponent, whose digits may be missing. */
  function ExponentEnd(s: string, c: nat): (e: nat)
    requires c <= |s|
    ensures c <= e <= |s|
  {
    if Peek(s, c) == 'e' || Peek(s, c) == 'E' then
      RunEnd(s, if Peek(s, c + 1) == '+' || Peek(s, c + 1) == '-' then c + 2 else c + 1, IsDigit)
    else c
  }

  predicate IsHexStart(s: string, c: nat) {
    Peek(s, c) == '0' && (Peek(s, c + 1) == 'x' || Peek(s, c + 1) == 'X')
  }

  function Number(s: string, c: nat): (l: Lexeme)
    requires c < |s| && IsDigit(s[c])
    ensures c < l.end <= |s|
  {
    if IsHexStart(s, c) then Lexeme(RunEnd(s, RunEnd(s, c + 2, IsHexDigit), IsSuffix), LInt)
    else
      var whole := RunEnd(s, c, IsDigit);
      var end := ExponentEnd(s, FractionEnd(s, whole));
      Lexeme(RunEnd(s, end, IsSuffix), if whole < end then LFloat else LInt)
  }

  lemma HexParts(s: string, c: nat, digits: nat)
    requires c < |s| && IsHexStart(s, c) && RunEnd(s, c + 2, IsHexDigit) == digits
    ensures Number(s, c) == Lexeme(RunEnd(s, digits, IsSuffix), LInt)
  {}

  lemma NumberParts(s: string, c: nat, whole: nat, frac: nat, exp: nat)
    requires c < |s| && IsDigit(s[c]) && !IsHexStart(s, c)
    requires RunEnd(s, c, IsDigit) == whole && FractionEnd(s, whole) == frac && ExponentEnd(s, frac) == exp
    ensures Number(s, c) == Lexeme(RunEnd(s, exp, IsSuffix), if whole < exp then LFloat else LInt)
  {}

  /** End of a quoted literal whose contents start at `c`. */
  function QuoteEnd(s: string, c: nat, quote: char): (e: nat)
    requires c <= |s|
    ensures c <= e <= |s|
    decreases |s| - c
  {
    if Peek(s, c) == '\0' then c
    else if s[c] == '\\' then QuoteEnd(s, if Peek(s, c + 1) != '\0' then c + 2 else c + 1, quote)
    else if s[c] == quote then c + 1
    else QuoteEnd(s, c + 1, quote)
  }

  /** The operator or punctuation at `c`: the longest one that matches. */
  function Operator(s: string, c: nat): (l: Lexeme)
    requires c < |s|
    ensures c < l.end <= |s|
  {
    var d := Peek(s, c + 1);
    match s[c]
    case '+' => if d == '+' then Lexeme(c + 2, PPlus) else OrEquals(d, c, PlusEquals, Plus)
    case '-' =>
      if d == '-' then Lexeme(c + 2, MMinus)
      else if d == '=' then Lexeme(c + 2, MinusEquals)
      else if d == '>' then Lexeme(c + 2, Arrow)
      else Lexeme(c + 1, Minus)
    case '*' => OrEquals(d, c, StarEquals, Star)
    case '/' =>
      if d == '=' then Lexeme(c + 2, SlashEquals)
      else if d == '/' then Lexeme(c + 2, SSlash)
      else Lexeme(c + 1, Slash)
    case '%' => OrEquals(d, c, PercEquals, Perc)
    case '&' => if d == '&' then Lexeme(c + 2, AAmp) else OrEquals(d, c, AmpEquals, Amp)
    case '|' => if d == '|' then Lexeme(c + 2, BBar) else OrEquals(d, c, BarEquals, Bar)
    case '^' => OrEquals(d, c, UpEquals, Up)
    case '~' => OrEquals(d, c, TildeEquals, Tilde)
    case '!' => OrEquals(d, c, NEquals, Excl)
    case '=' => OrEquals(d, c, EEquals, Equals)
    case '<' =>
      if d == '<' then
        if Peek(s, c + 2) == '=' then Lexeme(c + 3, LLeEquals) else Lexeme(c + 2, LLesser)
      else OrEquals(d, c, LeEquals, Lesser)
    case '>' =>
      if d == '>' then
        if Peek(s, c + 2) == '=' then Lexeme(c + 3, GGrEquals) else Lexeme(c + 2, GGreater)
      else OrEquals(d, c, GrEquals, Greater)
    case ':' => if d == ':' then Lexeme(c + 2, CColon) else Lexeme(c + 1, Colon)
    case '.' => if d == '.' && Peek(s, c + 2) == '.' then Lexeme(c + 3, Dots) else Lexeme(c + 1, Dot)
    case _ => Lexeme(c + 1, Single(s[c]))
  }

  function OrEquals(d: char, c: nat, with: TokenType, without: TokenType): Lexeme {
    if d == '=' then Lexeme(c + 2, with) else Lexeme(c + 1, without)
  }

  function Single(c: char): TokenType {
    match c
    case '?' => Question
    case '(' => Left
    case ')' => Right
    case '[' => SqLeft
    case ']' => SqRight
    case '{' => BrLeft
    case '}' => BrRight
    case ';' => Semi
    case ',' => Comma
    case _ => Unknown
  }

  function LexemeAt(s: string, c: nat): (l: Lexeme)
    requires c < |s|
    ensures c < l.end <= |s|
  {
    if IsIdentStart(s[c]) then Word(s, c)
    else if IsDigit(s[c]) then Number(s, c)
    else if s[c] == '"' then Lexeme(QuoteEnd(s, c + 1, '"'), LString)
    else if s[c] == '\'' then Lexeme(QuoteEnd(s, c + 1, '\''), LChar)
    else Operator(s, c)
  }

  /** A token of the text from `start` to `end`. */
  datatype Span = Span(start: nat, end: nat, kind: TokenType)

  function TokenOf(p: Span): Token
    requires p.start <= p.end
  {
    Token(p.start, Length16(p.end - p.start), p.kind)
  }

  /** All tokens from position `c` on. */
  function Spans(s: string, c: nat): (r: seq<Span>)
    requires c <= |s|
    ensures forall k :: 0 <= k < |r| ==> r[k].start < r[k].end
    decreases |s| - c
  {
    var b := PastTrivia(s, c);
    if b == |s| then []
    else
      var l := LexemeAt(s, b);
      [Span(b, l.end, l.kind)] + Spans(s, l.end)
  }

  function TokensFrom(s: string, c: nat): (r: seq<Token>)
    requires c <= |s|
    ensures |r| == |Spans(s, c)|
  {
    var p := Spans(s, c);
    seq(|p|, k requires 0 <= k < |p| => TokenOf(p[k]))
  }

  // ---------- the tokens and the gaps between them tile the text ----------

  /** No NUL and no comment end from `a` up to `b`. */
  ghost predicate OpenBlock(s: string, a: nat, b: nat)
    requires b <= |s|
  {
    forall k :: a <= k < b ==> s[k] != '\0' && !(s[k] == '*' && Peek(s, k + 1) == '/')
  }

  /** The text from `a` to `b` is one blank or one whole comment. */
  ghost predicate TriviaPiece(s: string, a: nat, b: nat)
    requires a < b <= |s|
  {
    || (b == a + 1 && IsBlank(s[a]))
    || (a + 2 <= b && s[a] == '/' && s[a + 1] == '/' &&
        (forall k :: a + 2 <= k < b ==> InLine(s[k])) && (b < |s| ==> !InLine(s[b])))
    || (a + 2 <= b && s[a] == '/' && s[a + 1] == '*' &&
        if a + 4 <= b && s[b - 2] == '*' && s[b - 1] == '/' && OpenBlock(s, a + 2, b - 2) then true
        else OpenBlock(s, a + 2, b) && Peek(s, b) == '\0')
  }

  ghost predicate Trivia(s: string, a: nat, b: nat)
    requires a <= b <= |s|
    decreases b - a
  {
    a == b || exists m :: a < m <= b && TriviaPiece(s, a, m) && Trivia(s, m, b)
  }

  /** A token can start at `c`: there is neither a blank nor a comment. */
  predicate StartsToken(s: string, c: nat)
    requires c < |s|
  {
    !IsBlank(s[c]) && !(s[c] == '/' && (Peek(s, c + 1) == '/' || Peek(s, c + 1) == '*'))
  }

  lemma {:induction false} BlockEndShape(s: string, c: nat)
    requires c <= |s|
    ensures var e := BlockEnd(s, c);
      || (c + 2 <= e && s[e - 2] == '*' && s[e - 1] == '/' && OpenBlock(s, c, e - 2))
      || (OpenBlock(s, c, e) && Peek(s, e) == '\0')
    decreases |s| - c
  {
    if Peek(s, c) != '\0' && !(s[c] == '*' && Peek(s, c + 1) == '/') { BlockEndShape(s, c + 1); }
  }

  lemma {:induction false} PastTriviaIsTrivia(s: string, c: nat)
    requires c <= |s|
    ensures var e := PastTrivia(s, c); Trivia(s, c, e) && (e < |s| ==> StartsToken(s, e))
    decreases |s| - c
  {
    if c < |s| && !StartsToken(s, c) {
      var m := if IsBlank(s[c]) then c + 1
               else if Peek(s, c + 1) == '/' then RunEnd(s, c + 2, InLine)
               else BlockEnd(s, c + 2);
      if !IsBlank(s[c]) && Peek(s, c + 1) == '*' { BlockEndShape(s, c + 2); }
      assert TriviaPiece(s, c, m);
      PastTriviaIsTrivia(s, m);
    }
  }

  lemma OperatorKinds(s: string, c: nat)
    requires c < |s| && StartsToken(s, c)
    ensures Operator(s, c).kind !in {SSlash, Eof, TBD}
  {}

  lemma WordKinds(text: string)
    requires text != "" ==> IsIdentStart(text[0])
    ensures WordKind(text) !in {SSlash, Eof, TBD}
  {
    MapsToText(text);
    SlashText();
  }

  lemma SlashText()
    ensures Text(SSlash) != "" && Text(SSlash)[0] == '/' && Text(Eof) == ""
  {}

  lemma LexemeKinds(s: string, c: nat)
    requires c < |s| && StartsToken(s, c)
    ensures LexemeAt(s, c).kind !in {SSlash, Eof, TBD}
  {
    if IsIdentStart(s[c]) {
      var e := RunEnd(s, c, IsIdentBody);
      WordKinds(s[c..c + Length16(e - c)]);
    } else if !IsDigit(s[c]) && s[c] != '"' && s[c] != '\'' {
      OperatorKinds(s, c);
    }
  }

  /** A keyword or operator token of representable length has the text its kind is listed with. */
  ghost predicate SpelledAsListed(s: string, p: Span)
    requires p.start <= p.end <= |s|
  {
    Text(p.kind) != "" && p.end - p.start < 0x1_0000 ==> s[p.start..p.end] == Text(p.kind)
  }

  lemma SliceOne(s: string, c: nat)
    requires c < |s|
    ensures s[c..c + 1] == [s[c]]
  {}

  lemma SliceTwo(s: string, c: nat, d: char)
    requires c < |s| && Peek(s, c + 1) == d && d != '\0'
    ensures c + 2 <= |s| && s[c..c + 2] == [s[c], d]
  {}

  lemma SliceThree(s: string, c: nat, d: char, e: char)
    requires c < |s| && Peek(s, c + 1) == d && Peek(s, c + 2) == e && d != '\0' && e != '\0'
    ensures c + 3 <= |s| && s[c..c + 3] == [s[c], d, e]
  {}

  /** Operators are one to three characters long and never reach past the end of the text. */
  lemma OperatorLength(s: string, c: nat)
    requires c < |s|
    ensures c < Operator(s, c).end <= c + 3
    ensures Operator(s, c).end > c + 1 ==> Peek(s, c + 1) != '\0'
    ensures Operator(s, c).end > c + 2 ==> Peek(s, c + 2) != '\0'
  {}

  /** The characters of an operator; whatever they are, they spell its kind. */
  lemma OperatorText(s: string, c: nat)
    requires c < |s|
    ensures var l := Operator(s, c); l.kind.Unknown? || s[c..l.end] == Text(l.kind)
  {
    hide Text, Operator;
    OperatorLength(s, c);
    var d, e := Peek(s, c + 1), Peek(s, c + 2);
    var l := Operator(s, c);
    if l.end == c + 1 { SliceOne(s, c); OneLong(s, c); }
    else if l.end == c + 2 { SliceTwo(s, c, d); TwoLong(s, c); }
    else { SliceThree(s, c, d, e); ThreeLong(s, c); }
  }

  lemma OneLong(s: string, c: nat)
    requires c < |s| && Operator(s, c).end == c + 1
    ensures var k := Operator(s, c).kind; k.Unknown? || Text(k) == [s[c]]
  {
    hide KeywordText, LongText, Text, Operator, SingleText;
    OneCharacter(s, c);
    if !Operator(s, c).kind.Unknown? { SingleOnly(Operator(s, c).kind); }
  }

  lemma OneCharacter(s: string, c: nat)
    requires c < |s| && Operator(s, c).end == c + 1
    ensures var k := Operator(s, c).kind; k.Unknown? || SingleText(k) == [s[c]]
  {
    hide KeywordText, LongText, Text;
  }

  lemma TwoLong(s: string, c: nat)
    requires c < |s| && Operator(s, c).end == c + 2
    ensures Text(Operator(s, c).kind) == [s[c], Peek(s, c + 1)]
  {
    hide KeywordText, SingleText, Text;
    if Peek(s, c + 1) == '=' { EqualsLong(s, c); } else { LongOnly(Operator(s, c).kind); }
  }

  lemma EqualsLong(s: string, c: nat)
    requires c < |s| && Operator(s, c).end == c + 2 && Peek(s, c + 1) == '='
    ensures Text(Operator(s, c).kind) == [s[c], '=']
  {
    hide KeywordText, SingleText, Text;
    LongOnly(Operator(s, c).kind);
  }

  lemma ThreeLong(s: string, c: nat)
    requires c < |s| && Operator(s, c).end == c + 3
    ensures Text(Operator(s, c).kind) == [s[c], Peek(s, c + 1), Peek(s, c + 2)]
  {
    hide KeywordText, SingleText, Text;
    LongOnly(Operator(s, c).kind);
  }

  lemma WordText(text: string)
    ensures var k := WordKind(text); Text(k) != "" ==> Text(k) == text
  {
    MapsToText(text);
    NoText();
  }

  /** Identifiers and literals have no listed text. */
  lemma NoText()
    ensures forall k :: k in {Ident, LInt, LFloat, LString, LChar, Unknown} ==> Text(k) == ""
  {}

  lemma WordSpelled(s: string, c: nat)
    requires c < |s| && IsIdentStart(s[c])
    ensures var l := Word(s, c); SpelledAsListed(s, Span(c, l.end, l.kind))
  {
    hide WordKind, Text;
    var e := RunEnd(s, c, IsIdentBody);
    WordText(s[c..c + Length16(e - c)]);
  }

  lemma LexemeText(s: string, c: nat)
    requires c < |s|
    ensures var l := LexemeAt(s, c); SpelledAsListed(s, Span(c, l.end, l.kind))
  {
    if IsIdentStart(s[c]) { WordSpelled(s, c); } else { NoText(); OperatorText(s, c); }
  }

  // ---------- what a token is made of, and why it ends where it does ----------

  /** From `a` to `b` there are characters of the class and the next one is not of it. */
  ghost predicate Run(s: string, a: nat, b: nat, p: char -> bool) {
    a <= b <= |s| && (forall k :: a <= k < b ==> p(s[k])) && (b < |s| ==> !p(s[b]))
  }

  /** A word is all the letters, digits and underscores there are; a listed text decides its kind. */
  ghost predicate WordShaped(s: string, p: Span)
    requires p.start <= p.end <= |s|
  {
    && Run(s, p.start, p.end, IsIdentBody)
    && var text := s[p.start..p.start + Length16(p.end - p.start)];
       if text != "" && exists k :: Text(k) == text then Text(p.kind) == text else p.kind.Ident?
  }

  ghost predicate FractionShaped(s: string, a: nat, b: nat) {
    if Peek(s, a) == '.' && IsDigit(Peek(s, a + 1)) then Run(s, a + 1, b, IsDigit) else a == b
  }

  ghost predicate ExponentShaped(s: string, a: nat, b: nat) {
    if Peek(s, a) == 'e' || Peek(s, a) == 'E' then
      Run(s, if Peek(s, a + 1) == '+' || Peek(s, a + 1) == '-' then a + 2 else a + 1, b, IsDigit)
    else a == b
  }

  /** Digits, then a fraction or an exponent that make it a float, then suffixes; each as long as can be. */
  ghost predicate DecimalShaped(s: string, p: Span, whole: nat, frac: nat, exp: nat) {
    && Run(s, p.start, whole, IsDigit) && FractionShaped(s, whole, frac) && ExponentShaped(s, frac, exp)
    && Run(s, exp, p.end, IsSuffix) && p.kind == if whole < exp then LFloat else LInt
  }

  ghost predicate NumberShaped(s: string, p: Span) {
    if IsHexStart(s, p.start) then
      p.kind.LInt? && exists digits: nat :: Run(s, p.start + 2, digits, IsHexDigit) && Run(s, digits, p.end, IsSuffix)
    else exists whole: nat, frac: nat, exp: nat :: DecimalShaped(s, p, whole, frac, exp)
  }

  /** Plain characters and escaped ones: no quote, no NUL and no backslash but before what it escapes. */
  ghost predicate Quotable(s: string, a: nat, b: nat, quote: char)
    requires b <= |s|
    decreases b - a
  {
    || a == b
    || (a + 2 <= b && s[a] == '\\' && s[a + 1] != '\0' && Quotable(s, a + 2, b, quote))
    || (a < b && s[a] != '\\' && s[a] != quote && s[a] != '\0' && Quotable(s, a + 1, b, quote))
  }

  /** Up to the closing quote, or cut short by a NUL or the end of the text. */
  ghost predicate QuoteShaped(s: string, a: nat, b: nat, quote: char)
    requires b <= |s|
  {
    || (a < b && s[b - 1] == quote && Quotable(s, a, b - 1, quote))
    || (Peek(s, b) == '\0' && (Quotable(s, a, b, quote) || (a < b && s[b - 1] == '\\' && Quotable(s, a, b - 1, quote))))
  }

  /** The text `t` stands at `c`. */
  ghost predicate StandsAt(s: string, c: nat, t: string) { c + |t| <= |s| && s[c..c + |t|] == t }

  /** The longest of the listed texts that stand there, or one character that starts none of them. */
  ghost predicate OperatorShaped(s: string, p: Span)
    requires p.start <= p.end <= |s|
  {
    && (forall k :: Text(k) != "" && StandsAt(s, p.start, Text(k)) ==> |Text(k)| <= p.end - p.start)
    && if p.kind.Unknown? then p.end == p.start + 1 && forall k :: Text(k) != "" ==> !StandsAt(s, p.start, Text(k))
       else s[p.start..p.end] == Text(p.kind)
  }

  ghost predicate TokenShaped(s: string, p: Span)
    requires p.start < p.end <= |s|
  {
    var c := s[p.start];
    if IsIdentStart(c) then WordShaped(s, p)
    else if IsDigit(c) then NumberShaped(s, p)
    else if c == '"' || c == '\'' then
      p.kind == (if c == '"' then LString else LChar) && QuoteShaped(s, p.start + 1, p.end, c)
    else OperatorShaped(s, p)
  }

  lemma RunIsEnd(s: string, c: nat, p: char -> bool)
    requires c <= |s|
    ensures Run(s, c, RunEnd(s, c, p), p)
  {}

  lemma {:induction false} RunOnly(s: string, a: nat, b: nat, p: char -> bool)
    requires Run(s, a, b, p)
    ensures RunEnd(s, a, p) == b
    decreases b - a
  {
    if a < b { RunOnly(s, a + 1, b, p); }
  }

  lemma WordKindIs(text: string)
    ensures if text != "" && exists k :: Text(k) == text then Text(WordKind(text)) == text else WordKind(text).Ident?
  {
    hide Text, StringMap;
    MapsToText(text);
    NoText();
    EmptyWord();
    if text != "" && exists k :: Text(k) == text {
      var k :| Text(k) == text;
      TextMaps(k);
    }
  }

  lemma EmptyWord()
    ensures StringMap("").TBD? && Text(TBD) == "" && Text(Ident) == ""
  {}

  lemma WordKindOnly(text: string, kind: TokenType)
    requires if text != "" && exists k :: Text(k) == text then Text(kind) == text else kind.Ident?
    ensures kind == WordKind(text)
  {
    hide Text, StringMap;
    WordKindIs(text);
    EmptyWord();
    if text != "" && exists k :: Text(k) == text { TextMaps(kind); }
  }

  lemma NumberIsShaped(s: string, c: nat)
    requires c < |s| && IsDigit(s[c])
    ensures var l := Number(s, c); NumberShaped(s, Span(c, l.end, l.kind))
  {
    hide RunEnd;
    var l := Number(s, c);
    if IsHexStart(s, c) {
      var h := RunEnd(s, c + 2, IsHexDigit);
      RunIsEnd(s, c + 2, IsHexDigit);
      RunIsEnd(s, h, IsSuffix);
    } else {
      var w := RunEnd(s, c, IsDigit);
      var f := FractionEnd(s, w);
      var x := ExponentEnd(s, f);
      RunIsEnd(s, c, IsDigit);
      RunIsEnd(s, x, IsSuffix);
      assert DecimalShaped(s, Span(c, l.end, l.kind), w, f, x);
    }
  }

  lemma HexOnly(s: string, p: Span)
    requires p.start < |s| && IsHexStart(s, p.start) && NumberShaped(s, p)
    ensures Number(s, p.start) == Lexeme(p.end, p.kind)
  {
    hide RunEnd;
    var h: nat :| Run(s, p.start + 2, h, IsHexDigit) && Run(s, h, p.end, IsSuffix);
    RunOnly(s, p.start + 2, h, IsHexDigit);
    RunOnly(s, h, p.end, IsSuffix);
  }

  lemma FractionOnly(s: string, a: nat, b: nat)
    requires a <= |s| && FractionShaped(s, a, b)
    ensures FractionEnd(s, a) == b
  {
    if Peek(s, a) == '.' && IsDigit(Peek(s, a + 1)) { RunOnly(s, a + 1, b, IsDigit); }
  }

  lemma DecimalOnly(s: string, p: Span)
    requires p.start < |s| && IsDigit(s[p.start]) && !IsHexStart(s, p.start) && NumberShaped(s, p)
    ensures Number(s, p.start) == Lexeme(p.end, p.kind)
  {
    hide RunEnd, FractionEnd, ExponentEnd, FractionShaped, ExponentShaped, Run, IsHexStart, Number;
    var w: nat, f: nat, x: nat :| DecimalShaped(s, p, w, f, x);
    RunOnly(s, p.start, w, IsDigit);
    FractionOnly(s, w, f);
    ExponentOnly(s, f, x);
    RunOnly(s, x, p.end, IsSuffix);
    NumberParts(s, p.start, w, f, x);
  }

  lemma ExponentOnly(s: string, a: nat, b: nat)
    requires a <= |s| && ExponentShaped(s, a, b)
    ensures ExponentEnd(s, a) == b
  {
    if Peek(s, a) == 'e' || Peek(s, a) == 'E' {
      RunOnly(s, if Peek(s, a + 1) == '+' || Peek(s, a + 1) == '-' then a + 2 else a + 1, b, IsDigit);
    }
  }

  lemma {:induction false} QuoteIsShaped(s: string, c: nat, quote: char)
    requires c <= |s| && quote != '\\' && quote != '\0'
    ensures QuoteShaped(s, c, QuoteEnd(s, c, quote), quote)
    decreases |s| - c
  {
    if Peek(s, c) != '\0' {
      if s[c] == '\\' {
        if Peek(s, c + 1) != '\0' { QuoteIsShaped(s, c + 2, quote); } else { assert QuoteEnd(s, c + 1, quote) == c + 1; }
      } else if s[c] != quote {
        QuoteIsShaped(s, c + 1, quote);
      }
    }
  }

  lemma {:induction false} QuoteOnly(s: string, a: nat, b: nat, quote: char)
    requires a <= b <= |s| && quote != '\\' && quote != '\0' && QuoteShaped(s, a, b, quote)
    ensures QuoteEnd(s, a, quote) == b
    decreases b - a
  {
    if a < b {
      if s[a] == '\\' {
        if a + 2 <= b && s[a + 1] != '\0' { QuoteOnly(s, a + 2, b, quote); }
      } else if s[a] != quote && s[a] != '\0' {
        QuoteOnly(s, a + 1, b, quote);
      }
    }
  }

  lemma StandsChars(s: string, c: nat, t: string, k: nat)
    requires StandsAt(s, c, t) && k < |t|
    ensures c + k < |s| && Peek(s, c + k) == s[c + k] == t[k]
  {
    assert s[c..c + |t|][k] == s[c + k];
  }

  lemma KeywordStart(k: TokenType)
    requires KeywordText(k) != ""
    ensures IsIdentStart(KeywordText(k)[0])
  {
    hide SingleText, LongText, KeywordText;
    KeywordLower(k);
    LowerStart(KeywordText(k)[0]);
  }

  lemma KeywordLower(k: TokenType)
    requires KeywordText(k) != ""
    ensures KeywordText(k)[0] in "abcdefinprstvw"
  {
    hide SingleText, LongText;
  }

  lemma LowerStart(c: char)
    requires c in "abcdefinprstvw"
    ensures IsIdentStart(c)
  {}

  lemma TwoCharactersFound(s: string, c: nat, k: TokenType)
    requires c + 1 < |s| && |LongText(k)| == 2 && s[c] == LongText(k)[0] && s[c + 1] == LongText(k)[1] && !k.SSlash?
    ensures Operator(s, c).end >= c + 2 && !Operator(s, c).kind.Unknown?
  {
    hide SingleText, KeywordText, Text;
  }

  lemma ThreeCharactersFound(s: string, c: nat, k: TokenType)
    requires c + 2 < |s| && |LongText(k)| == 3
    requires s[c] == LongText(k)[0] && s[c + 1] == LongText(k)[1] && s[c + 2] == LongText(k)[2]
    ensures Operator(s, c).end >= c + 3 && !Operator(s, c).kind.Unknown?
  {
    hide SingleText, KeywordText, Text;
  }

  lemma OneCharacterFound(s: string, c: nat, k: TokenType)
    requires c < |s| && |SingleText(k)| == 1 && s[c] == SingleText(k)[0]
    ensures !Operator(s, c).kind.Unknown?
  {
    hide LongText, KeywordText, Text;
  }

  /** Where a token can start and no word does, `k` is not longer than what is taken. */
  lemma LongestTaken(s: string, c: nat, k: TokenType)
    requires c < |s| && StartsToken(s, c) && !IsIdentStart(s[c]) && Text(k) != "" && StandsAt(s, c, Text(k))
    ensures |Text(k)| <= Operator(s, c).end - c && !Operator(s, c).kind.Unknown?
  {
    hide Text, SingleText, LongText, KeywordText, Operator, StandsAt;
    StandsChars(s, c, Text(k), 0);
    TextPart(k);
    if SingleText(k) != "" {
      OneCharacterFound(s, c, k);
    } else if LongText(k) != "" {
      StandsChars(s, c, Text(k), 1);
      if |Text(k)| == 2 {
        SlashText();
        TwoSlashes();
        TwoCharactersFound(s, c, k);
      } else {
        StandsChars(s, c, Text(k), 2);
        ThreeCharactersFound(s, c, k);
      }
    } else {
      KeywordStart(k);
    }
  }

  lemma TwoSlashes()
    ensures Text(SSlash) == "//"
  {}

  lemma TextPart(k: TokenType)
    requires Text(k) != ""
    ensures if SingleText(k) != "" then Text(k) == SingleText(k) && |Text(k)| == 1
            else if LongText(k) != "" then Text(k) == LongText(k) && 2 <= |Text(k)| <= 3
            else Text(k) == KeywordText(k) && KeywordText(k) != ""
  {
    hide SingleText, LongText, KeywordText;
    if SingleText(k) != "" { SingleOnly(k); }
    else if LongText(k) != "" { LongOnly(k); }
  }

  lemma OperatorIsShaped(s: string, c: nat)
    requires c < |s| && StartsToken(s, c) && !IsIdentStart(s[c])
    ensures var l := Operator(s, c); OperatorShaped(s, Span(c, l.end, l.kind))
  {
    hide Text, Operator, StandsAt;
    var l := Operator(s, c);
    OperatorText(s, c);
    OperatorLength(s, c);
    forall k | Text(k) != "" && StandsAt(s, c, Text(k)) ensures |Text(k)| <= l.end - c && !l.kind.Unknown? { LongestTaken(s, c, k); }
    if l.kind.Unknown? { UnknownIsOne(s, c); }
  }

  lemma UnknownIsOne(s: string, c: nat)
    requires c < |s| && Operator(s, c).kind.Unknown?
    ensures Operator(s, c).end == c + 1
  {}

  lemma OperatorOnly(s: string, p: Span)
    requires p.start < p.end <= |s| && StartsToken(s, p.start) && !IsIdentStart(s[p.start]) && OperatorShaped(s, p)
    ensures Operator(s, p.start) == Lexeme(p.end, p.kind)
  {
    hide Text, Operator, StringMap;
    var c := p.start;
    var l := Operator(s, c);
    OperatorText(s, c);
    OperatorLength(s, c);
    if !l.kind.Unknown? { KnownText(s, c, l); }
    if p.kind.Unknown? {
      if l.kind.Unknown? { UnknownIsOne(s, c); }
    } else {
      assert StandsAt(s, c, Text(p.kind));
      LongestTaken(s, c, p.kind);
      TextMaps(p.kind);
      TextMaps(l.kind);
    }
  }

  lemma KnownText(s: string, c: nat, l: Lexeme)
    requires c < l.end <= |s| && s[c..l.end] == Text(l.kind)
    ensures Text(l.kind) != "" && StandsAt(s, c, Text(l.kind)) && |Text(l.kind)| == l.end - c
  {
    hide Text;
  }

  lemma WordIsShaped(s: string, c: nat)
    requires c < |s| && IsIdentStart(s[c])
    ensures var l := Word(s, c); WordShaped(s, Span(c, l.end, l.kind))
  {
    hide Text, WordKind, RunEnd;
    var e := RunEnd(s, c, IsIdentBody);
    RunIsEnd(s, c, IsIdentBody);
    WordKindIs(s[c..c + Length16(e - c)]);
  }

  lemma WordOnly(s: string, p: Span)
    requires p.start < p.end <= |s| && IsIdentStart(s[p.start]) && WordShaped(s, p)
    ensures Word(s, p.start) == Lexeme(p.end, p.kind)
  {
    hide Text, WordKind, RunEnd;
    RunOnly(s, p.start, p.end, IsIdentBody);
    WordKindOnly(s[p.start..p.start + Length16(p.end - p.start)], p.kind);
  }

  lemma LexemeShaped(s: string, c: nat)
    requires c < |s| && StartsToken(s, c)
    ensures var l := LexemeAt(s, c); TokenShaped(s, Span(c, l.end, l.kind))
  {
    hide Word, Number, Operator, QuoteEnd, WordShaped, NumberShaped, OperatorShaped, QuoteShaped;
    if IsIdentStart(s[c]) { WordIsShaped(s, c); }
    else if IsDigit(s[c]) { NumberIsShaped(s, c); }
    else if s[c] == '"' || s[c] == '\'' { QuoteIsShaped(s, c + 1, s[c]); }
    else { OperatorIsShaped(s, c); }
  }

  /** Shape and start decide the rest of a token. */
  lemma ShapedOnly(s: string, p: Span)
    requires p.start < p.end <= |s| && StartsToken(s, p.start) && TokenShaped(s, p)
    ensures LexemeAt(s, p.start) == Lexeme(p.end, p.kind)
  {
    hide Word, Number, Operator, QuoteEnd, WordShaped, NumberShaped, OperatorShaped, QuoteShaped, IsHexStart;
    var c := s[p.start];
    if IsIdentStart(c) { WordOnly(s, p); }
    else if IsDigit(c) { if IsHexStart(s, p.start) { HexOnly(s, p); } else { DecimalOnly(s, p); } }
    else if c == '"' || c == '\'' { QuoteOnly(s, p.start + 1, p.end, c); }
    else { OperatorOnly(s, p); }
  }

  /** From `c` to the end the text is exactly the spans of `p` with trivia between and around them. */
  ghost predicate Tiles(s: string, c: nat, p: seq<Span>)
    requires c <= |s|
    decreases |p|
  {
    if p == [] then Trivia(s, c, |s|)
    else
      && c <= p[0].start < p[0].end <= |s|
      && Trivia(s, c, p[0].start)
      && StartsToken(s, p[0].start)
      && p[0].kind !in {SSlash, Eof, TBD}
      && SpelledAsListed(s, p[0])
      && TokenShaped(s, p[0])
      && Tiles(s, p[0].end, p[1..])
  }

  /** Lexing accounts for every character once. `//` is never a token. */
  lemma {:induction false} Tiling(s: string, c: nat)
    requires c <= |s|
    ensures Tiles(s, c, Spans(s, c))
    decreases |s| - c
  {
    var b := PastTrivia(s, c);
    PastTriviaIsTrivia(s, c);
    if b < |s| {
      LexemeKinds(s, b);
      LexemeText(s, b);
      LexemeShaped(s, b);
      Tiling(s, LexemeAt(s, b).end);
    }
  }

  /** Tokens follow each other in strictly increasing order without overlap. */
  lemma {:induction false} TilesOrdered(s: string, c: nat, p: seq<Span>, j: nat, k: nat)
    requires c <= |s| && Tiles(s, c, p) && j < k < |p|
    ensures c <= p[j].start < p[j].end <= p[k].start < |s|
    decreases |p|
  {
    if j > 0 { TilesOrdered(s, p[0].end, p[1..], j - 1, k - 1); }
    else if k > 1 { TilesOrdered(s, p[0].end, p[1..], 0, k - 1); }
  }

  // ---------- only one way to tile a text ----------

  lemma {:induction false} BlockOnly(s: string, a: nat, b: nat)
    requires a <= b <= |s|
    requires (a + 2 <= b && s[b - 2] == '*' && s[b - 1] == '/' && OpenBlock(s, a, b - 2)) || (OpenBlock(s, a, b) && Peek(s, b) == '\0')
    ensures BlockEnd(s, a) == b
    decreases b - a
  {
    if a < b && Peek(s, a) != '\0' && !(s[a] == '*' && Peek(s, a + 1) == '/') { BlockOnly(s, a + 1, b); }
  }

  lemma PieceOnly(s: string, a: nat, b: nat)
    requires a < b <= |s| && TriviaPiece(s, a, b)
    ensures PastTrivia(s, a) == PastTrivia(s, b)
  {
    if IsBlank(s[a]) {
    } else if s[a + 1] == '/' {
      RunOnly(s, a + 2, b, InLine);
    } else {
      BlockOnly(s, a + 2, b);
    }
  }

  lemma {:induction false} TriviaOnly(s: string, a: nat, b: nat)
    requires a <= b <= |s| && Trivia(s, a, b) && (b < |s| ==> StartsToken(s, b))
    ensures PastTrivia(s, a) == b
    decreases b - a
  {
    hide TriviaPiece;
    if a < b {
      var m :| a < m <= b && TriviaPiece(s, a, m) && Trivia(s, m, b);
      PieceOnly(s, a, m);
      TriviaOnly(s, m, b);
    }
  }

  /** The tokens of a text are the only ones that tile it. */
  lemma {:induction false} TilesOnly(s: string, c: nat, p: seq<Span>)
    requires c <= |s| && Tiles(s, c, p)
    ensures p == Spans(s, c)
    decreases |p|
  {
    hide Trivia, TokenShaped, PastTrivia, LexemeAt, Text;
    if p == [] {
      TriviaOnly(s, c, |s|);
    } else {
      TriviaOnly(s, c, p[0].start);
      ShapedOnly(s, p[0]);
      TilesOnly(s, p[0].end, p[1..]);
      assert p == [p[0]] + p[1..];
    }
  }
}
