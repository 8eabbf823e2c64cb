/** The fixed text of every keyword and operator, and its inverse. */
module Lexicon {
  import opened Tokens

  /** One-character operators and punctuation. */
  function SingleText(k: TokenType): string {
    match k
    case Plus => "+"
    case Minus => "-"
    case Star => "*"
    case Slash => "/"
    case Amp => "&"
    case Bar => "|"
    case Up => "^"
    case Tilde => "~"
    case Excl => "!"
    case Perc => "%"
    case Question => "?"
    case Equals => "="
    case Colon => ":"
    case Greater => ">"
    case Lesser => "<"
    case Dot => "."
    case Left => "("
    case Right => ")"
    case SqLeft => "["
    case SqRight => "]"
    case BrLeft => "{"
    case BrRight => "}"
    case Semi => ";"
    case Comma => ","
    case _ => ""
  }

  /** Longer operators. */
  function LongText(k: TokenType): string {
    match k
    case PPlus => "++"
    case MMinus => "--"
    case PlusEquals => "+="
    case MinusEquals => "-="
    case StarEquals => "*="
    case SlashEquals => "/="
    case PercEquals => "%="
    case AmpEquals => "&="
    case BarEquals => "|="
    case TildeEquals => "~="
    case UpEquals => "^="
    case EEquals => "=="
    case NEquals => "!="
    case AAmp => "&&"
    case BBar => "||"
    case GrEquals => ">="
    case LeEquals => "<="
    case GGreater => ">>"
    case LLesser => "<<"
    case GGrEquals => ">>="
    case LLeEquals => "<<="
    case CColon => "::"
    case SSlash => "//"
    case Dots => "..."
    case Arrow => "->"
    case _ => ""
  }

  function KeywordText(k: TokenType): string {
    match k
    case KwFalse => "false"
    case KwTrue => "true"
    case KwIf => "if"
    case KwElse => "else"
    case KwFor => "for"
    case KwWhile => "while"
    case KwEval => "eval"
    case KwBreak => "break"
    case KwContinue => "continue"
    case KwReturn => "return"
    case KwConstexpr => "constexpr"
    case KwConst => "const"
    case KwStatic => "static"
    case KwInline => "inline"
    case KwTemplate => "template"
    case KwPublic => "public"
    case KwPrivate => "private"
    case KwRequires => "requires"
    case KwNamespace => "namespace"
    case KwNew => "new"
    case KwDelete => "delete"
    case KwAuto => "auto"
    case KwSizeof => "sizeof"
    case KwTypeof => "typeof"
    case KwType => "type"
    case KwByte => "byte"
    case KwVoid => "void"
    case KwStruct => "struct"
    case KwEnum => "enum"
    case _ => ""
  }

  /** Empty for kinds without a fixed text. */
  function Text(k: TokenType): string {
    if SingleText(k) != "" then SingleText(k)
    else if LongText(k) != "" then LongText(k)
    else KeywordText(k)
  }

  /** The keyword or operator spelled exactly `s`, or `TBD`. */
  function StringMap(s: string): TokenType {
    match |s|
    case 1 => OneChar(s[0])
    case 2 => TwoChars(s)
    case 3 => ThreeChars(s)
    case 4 => FourChars(s)
    case 5 => FiveChars(s)
    case 6 => SixChars(s)
    case 7 => SevenChars(s)
    case 8 => EightChars(s)
    case 9 => NineChars(s)
    case _ => TBD
  }

  function OneChar(c: char): TokenType {
    match c
    case '+' => Plus
    case '-' => Minus
    case '*' => Star
    case '/' => Slash
    case '&' => Amp
    case '|' => Bar
    case '^' => Up
    case '~' => Tilde
    case '!' => Excl
    case '%' => Perc
    case '?' => Question
    case '=' => Equals
    case ':' => Colon
    case '>' => Greater
    case '<' => Lesser
    case '.' => Dot
    case '(' => Left
    case ')' => Right
    case '[' => SqLeft
    case ']' => SqRight
    case '{' => BrLeft
    case '}' => BrRight
    case ';' => Semi
    case ',' => Comma
    case _ => TBD
  }

  function SevenChars(s: string): TokenType { if s == "private" then KwPrivate else TBD }

  function NineChars(s: string): TokenType {
    if s == "constexpr" then KwConstexpr else if s == "namespace" then KwNamespace else TBD
  }

  function TwoChars(s: string): TokenType
    requires |s| == 2
  {
    if s[1] == '=' then WithEquals(s[0])
    else if s[0] == s[1] then Doubled(s[0])
    else if s[0] == '-' && s[1] == '>' then Arrow
    else if s[0] == 'i' && s[1] == 'f' then KwIf
    else TBD
  }

  function WithEquals(c: char): TokenType {
    match c
    case '+' => PlusEquals
    case '-' => MinusEquals
    case '*' => StarEquals
    case '/' => SlashEquals
    case '%' => PercEquals
    case '&' => AmpEquals
    case '|' => BarEquals
    case '~' => TildeEquals
    case '^' => UpEquals
    case '=' => EEquals
    case '!' => NEquals
    case '>' => GrEquals
    case '<' => LeEquals
    case _ => TBD
  }

  function Doubled(c: char): TokenType {
    match c
    case '+' => PPlus
    case '-' => MMinus
    case '&' => AAmp
    case '|' => BBar
    case '>' => GGreater
    case '<' => LLesser
    case ':' => CColon
    case '/' => SSlash
    case _ => TBD
  }

  function ThreeChars(s: string): TokenType {
    if s == "..." then Dots
    else if s == ">>=" then GGrEquals
    else if s == "<<=" then LLeEquals
    else if s == "for" then KwFor
    else if s == "new" then KwNew
    else TBD
  }

  function FourChars(s: string): TokenType
    requires |s| == 4
  {
    match s[0]
    case 't' => if s == "true" then KwTrue else if s == "type" then KwType else TBD
    case 'e' => if s == "else" then KwElse else if s == "eval" then KwEval else if s == "enum" then KwEnum else TBD
    case 'a' => if s == "auto" then KwAuto else TBD
    case 'b' => if s == "byte" then KwByte else TBD
    case 'v' => if s == "void" then KwVoid else TBD
    case _ => TBD
  }

  function FiveChars(s: string): TokenType
    requires |s| == 5
  {
    match s[0]
    case 'f' => if s == "false" then KwFalse else TBD
    case 'w' => if s == "while" then KwWhile else TBD
    case 'b' => if s == "break" then KwBreak else TBD
    case 'c' => if s == "const" then KwConst else TBD
    case _ => TBD
  }

  function SixChars(s: string): TokenType
    requires |s| == 6
  {
    match s[0]
    case 'r' => if s == "return" then KwReturn else TBD
    case 's' => if s == "static" then KwStatic else if s == "sizeof" then KwSizeof else if s == "struct" then KwStruct else TBD
    case 'i' => if s == "inline" then KwInline else TBD
    case 'p' => if s == "public" then KwPublic else TBD
    case 'd' => if s == "delete" then KwDelete else TBD
    case 't' => if s == "typeof" then KwTypeof else TBD
    case _ => TBD
  }

  function EightChars(s: string): TokenType
    requires |s| == 8
  {
    match s[0]
    case 'c' => if s == "continue" then KwContinue else TBD
    case 't' => if s == "template" then KwTemplate else TBD
    case 'r' => if s == "requires" then KwRequires else TBD
    case _ => TBD
  }

  /** Each kind is listed in one part of the table only. */
  lemma SingleOnly(k: TokenType)
    requires SingleText(k) != ""
    ensures Text(k) == SingleText(k) && |Text(k)| == 1
  {}

  lemma LongOnly(k: TokenType)
    requires LongText(k) != ""
    ensures Text(k) == LongText(k) && 2 <= |Text(k)| <= 3
  {}

  lemma KeywordOnly(k: TokenType)
    requires KeywordText(k) != ""
    ensures Text(k) == KeywordText(k)
  {
    hide KeywordText, SingleText, LongText;
    KeywordIsNotSingle(k);
    KeywordIsNotLong(k);
  }

  lemma KeywordIsNotSingle(k: TokenType)
    requires KeywordText(k) != ""
    ensures SingleText(k) == ""
  {
    hide LongText, Text;
  }

  lemma KeywordIsNotLong(k: TokenType)
    requires KeywordText(k) != ""
    ensures LongText(k) == ""
  {
    hide SingleText, Text;
  }

  lemma OneCharText(c: char)
    ensures !OneChar(c).TBD? ==> SingleText(OneChar(c)) == [c]
  {}

  lemma WithEqualsText(c: char)
    ensures !WithEquals(c).TBD? ==> LongText(WithEquals(c)) == [c, '=']
  {}

  lemma DoubledText(c: char)
    ensures !Doubled(c).TBD? ==> LongText(Doubled(c)) == [c, c]
  {}

  lemma TwoCharsText(s: string)
    requires |s| == 2 && !TwoChars(s).TBD?
    ensures Text(TwoChars(s)) == s
  {
    hide WithEquals, Doubled, LongText, KeywordText, SingleText, Text;
    assert s == [s[0], s[1]];
    var k := TwoChars(s);
    if s[1] == '=' { WithEqualsText(s[0]); LongOnly(k); }
    else if s[0] == s[1] { DoubledText(s[0]); LongOnly(k); }
    else { ArrowAndIf(); }
  }

  lemma ArrowAndIf()
    ensures Text(Arrow) == ['-', '>'] && Text(KwIf) == ['i', 'f']
  {}

  lemma ThreeCharsText(s: string)
    requires |s| == 3 && !ThreeChars(s).TBD?
    ensures Text(ThreeChars(s)) == s
  {
    hide Text;
    var k := ThreeChars(s);
    if k == Dots || k == GGrEquals || k == LLeEquals { LongOnly(k); } else { KeywordOnly(k); }
  }

  lemma FourCharsText(s: string)
    requires |s| == 4 && !FourChars(s).TBD?
    ensures Text(FourChars(s)) == s
  {
    hide Text, LongText, SingleText;
    KeywordOnly(FourChars(s));
  }

  lemma FiveCharsText(s: string)
    requires |s| == 5 && !FiveChars(s).TBD?
    ensures Text(FiveChars(s)) == s
  {
    hide Text, LongText, SingleText;
    KeywordOnly(FiveChars(s));
  }

  lemma SixCharsText(s: string)
    requires |s| == 6 && !SixChars(s).TBD?
    ensures Text(SixChars(s)) == s
  {
    hide Text, LongText, SingleText;
    KeywordOnly(SixChars(s));
  }

  lemma EightCharsText(s: string)
    requires |s| == 8 && !EightChars(s).TBD?
    ensures Text(EightChars(s)) == s
  {
    hide Text, LongText, SingleText;
    KeywordOnly(EightChars(s));
  }

  lemma SevenAndNineText(s: string)
    ensures !SevenChars(s).TBD? ==> Text(SevenChars(s)) == s
    ensures !NineChars(s).TBD? ==> Text(NineChars(s)) == s
  {
    hide Text, LongText, SingleText;
    if !SevenChars(s).TBD? { KeywordOnly(SevenChars(s)); }
    if !NineChars(s).TBD? { KeywordOnly(NineChars(s)); }
  }

  /** `StringMap` answers only with the kind spelled `s`. */
  lemma MapsToText(s: string)
    ensures !StringMap(s).TBD? ==> Text(StringMap(s)) == s
  {
    hide Text, SingleText, OneChar, TwoChars, ThreeChars, FourChars, FiveChars, SixChars, SevenChars, EightChars, NineChars;
    if !StringMap(s).TBD? {
      match |s|
      case 1 => OneCharText(s[0]); SingleOnly(OneChar(s[0]));
      case 2 => TwoCharsText(s);
      case 3 => ThreeCharsText(s);
      case 4 => FourCharsText(s);
      case 5 => FiveCharsText(s);
      case 6 => SixCharsText(s);
      case 8 => EightCharsText(s);
      case _ => SevenAndNineText(s);
    }
  }

  lemma SingleFound(k: TokenType)
    requires SingleText(k) != ""
    ensures StringMap(SingleText(k)) == k
  {
    hide TwoChars, ThreeChars, FourChars, FiveChars, SixChars, SevenChars, EightChars, NineChars;
  }

  lemma LongFound(k: TokenType)
    requires LongText(k) != ""
    ensures StringMap(LongText(k)) == k
  {
    hide OneChar, FourChars, FiveChars, SixChars, SevenChars, EightChars, NineChars;
  }

  lemma ShortKeywords()
    ensures StringMap("if") == KwIf && StringMap("for") == KwFor && StringMap("new") == KwNew
  {
    hide OneChar, FourChars, FiveChars, SixChars, SevenChars, EightChars, NineChars, WithEquals, Doubled;
  }

  lemma FourLetterKeywords()
    ensures StringMap("true") == KwTrue && StringMap("else") == KwElse && StringMap("eval") == KwEval
    ensures StringMap("auto") == KwAuto && StringMap("type") == KwType && StringMap("byte") == KwByte
    ensures StringMap("void") == KwVoid && StringMap("enum") == KwEnum
  {
    hide OneChar, TwoChars, ThreeChars, FiveChars, SixChars, SevenChars, EightChars, NineChars;
  }

  lemma FiveLetterKeywords()
    ensures StringMap("false") == KwFalse && StringMap("while") == KwWhile && StringMap("break") == KwBreak
    ensures StringMap("const") == KwConst
  {
    hide OneChar, TwoChars, ThreeChars, FourChars, SixChars, SevenChars, EightChars, NineChars;
  }

  lemma SixLetterKeywords()
    ensures StringMap("return") == KwReturn && StringMap("static") == KwStatic && StringMap("inline") == KwInline
    ensures StringMap("public") == KwPublic && StringMap("delete") == KwDelete && StringMap("sizeof") == KwSizeof
    ensures StringMap("typeof") == KwTypeof && StringMap("struct") == KwStruct
  {
    hide OneChar, TwoChars, ThreeChars, FourChars, FiveChars, SevenChars, EightChars, NineChars;
  }

  lemma LongKeywords()
    ensures StringMap("continue") == KwContinue && StringMap("constexpr") == KwConstexpr && StringMap("template") == KwTemplate
    ensures StringMap("private") == KwPrivate && StringMap("requires") == KwRequires && StringMap("namespace") == KwNamespace
  {
    hide OneChar, TwoChars, ThreeChars, FourChars, FiveChars, SixChars;
  }

  lemma KeywordFound(k: TokenType)
    requires KeywordText(k) != ""
    ensures StringMap(KeywordText(k)) == k
  {
    hide StringMap;
    ShortKeywords();
    FourLetterKeywords();
    FiveLetterKeywords();
    SixLetterKeywords();
    LongKeywords();
  }

  /** Every spelling in the table is found. */
  lemma TextMaps(k: TokenType)
    requires Text(k) != ""
    ensures StringMap(Text(k)) == k
  {
    hide StringMap, SingleText, LongText, KeywordText;
    if SingleText(k) != "" { SingleFound(k); }
    else if LongText(k) != "" { LongFound(k); }
    else { KeywordFound(k); }
  }
}
