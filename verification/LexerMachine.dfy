/** The lexer: a cursor over a source text that yields one token at a time. */
module LexerMachine {
  import opened Tokens
  import opened Scanning

  class Lexer {
    var source: string
    var cursor: nat
    /** Every token produced so far. */
    var thisExpr: seq<Token>

    predicate Valid() reads this { cursor <= |source| }

    /** The tokens still to come, without the end marker. */
    ghost function Rest(): seq<Token>
      requires Valid()
      reads this
    {
      TokensFrom(source, cursor)
    }

    constructor (src: string)
      ensures Valid() && source == src && cursor == 0 && thisExpr == []
    {
      source, cursor, thisExpr := src, 0, [];
    }

    method SetSource(src: string)
      modifies this
      ensures Valid() && source == src && cursor == 0 && thisExpr == []
    {
      source, cursor, thisExpr := src, 0, [];
    }

    function PeekAt(offset: nat): char
      reads this
    {
      Peek(source, cursor + offset)
    }

    method Advance() returns (c: char)
      requires Valid()
      modifies this`cursor
      ensures Valid() && c == Peek(source, old(cursor))
      ensures cursor == if old(cursor) < |source| then old(cursor) + 1 else old(cursor)
    {
      if cursor >= |source| { return '\0'; }
      c := source[cursor];
      cursor := cursor + 1;
    }

    method Match(expected: char) returns (b: bool)
      requires Valid()
      modifies this`cursor
      ensures Valid() && b == (old(cursor) < |source| && source[old(cursor)] == expected)
      ensures cursor == if b then old(cursor) + 1 else old(cursor)
    {
      if cursor >= |source| || source[cursor] != expected { return false; }
      cursor := cursor + 1;
      return true;
    }

    /** Advances over a run of characters. NUL, which also stands for the end, is never in a run. */
    method SkipRun(p: char -> bool)
      requires Valid() && !p('\0')
      modifies this`cursor
      ensures Valid() && cursor == RunEnd(source, old(cursor), p)
    {
      while p(PeekAt(0))
        invariant old(cursor) <= cursor <= |source|
        invariant RunEnd(source, cursor, p) == RunEnd(source, old(cursor), p)
        decreases |source| - cursor
      {
        var _ := Advance();
      }
    }

    method SkipWhitespaceAndComments()
      requires Valid()
      modifies this`cursor
      ensures Valid() && cursor == PastTrivia(source, old(cursor))
    {
      while cursor < |source|
        invariant cursor <= |source|
        invariant PastTrivia(source, cursor) == PastTrivia(source, old(cursor))
        decreases |source| - cursor
      {
        var c := PeekAt(0);
        if IsBlank(c) {
          var _ := Advance();
        } else if c == '/' && PeekAt(1) == '/' {
          var _ := Advance();
          var _ := Advance();
          SkipRun(InLine);
        } else if c == '/' && PeekAt(1) == '*' {
          var _ := Advance();
          var _ := Advance();
          SkipBlockBody();
        } else {
          return;
        }
      }
    }

    method SkipBlockBody()
      requires Valid()
      modifies this`cursor
      ensures Valid() && cursor == BlockEnd(source, old(cursor))
    {
      while PeekAt(0) != '\0'
        invariant cursor <= |source|
        invariant BlockEnd(source, cursor) == BlockEnd(source, old(cursor))
        decreases |source| - cursor
      {
        if PeekAt(0) == '*' && PeekAt(1) == '/' {
          var _ := Advance();
          var _ := Advance();
          return;
        }
        var _ := Advance();
      }
    }

    method LexIdentifierOrKeyword() returns (tok: Token)
      requires Valid() && cursor < |source| && IsIdentStart(source[cursor])
      modifies this`cursor
      ensures Valid() && var l := Word(source, old(cursor));
        cursor == l.end && tok == TokenOf(Span(old(cursor), l.end, l.kind))
    {
      hide WordKind;
      var start := cursor;
      SkipRun(IsIdentBody);
      var length := Length16(cursor - start);
      tok := Token(start, length, WordKind(source[start..start + length]));
    }

    method LexNumber() returns (tok: Token)
      requires Valid() && cursor < |source| && IsDigit(source[cursor])
      modifies this`cursor
      ensures Valid() && var l := Number(source, old(cursor));
        cursor == l.end && tok == TokenOf(Span(old(cursor), l.end, l.kind))
    {
      hide Number, RunEnd;
      var start := cursor;
      var isFloat := false;
      if PeekAt(0) == '0' && (PeekAt(1) == 'x' || PeekAt(1) == 'X') {
        SkipHexadecimal();
      } else {
        isFloat := SkipDecimal();
      }
      ghost var digits := cursor;
      SkipRun(IsSuffix);
      assert Number(source, start) == Lexeme(cursor, if isFloat then LFloat else LInt);
      tok := Token(start, Length16(cursor - start), if isFloat then LFloat else LInt);
    }

    /** `0x` and its digits. */
    method SkipHexadecimal()
      requires Valid() && cursor < |source| && IsHexStart(source, cursor)
      modifies this`cursor
      ensures Valid() && Number(source, old(cursor)) == Lexeme(RunEnd(source, cursor, IsSuffix), LInt)
    {
      hide Number, RunEnd;
      var start := cursor;
      var _ := Advance();
      var _ := Advance();
      SkipRun(IsHexDigit);
      HexParts(source, start, cursor);
    }

    /** Digits, fraction and exponent; whether either of the last two is there. */
    method SkipDecimal() returns (isFloat: bool)
      requires Valid() && cursor < |source| && IsDigit(source[cursor]) && !IsHexStart(source, cursor)
      modifies this`cursor
      ensures Valid()
      ensures Number(source, old(cursor)) == Lexeme(RunEnd(source, cursor, IsSuffix), if isFloat then LFloat else LInt)
    {
      hide Number, FractionEnd, ExponentEnd, RunEnd;
      var start := cursor;
      SkipRun(IsDigit);
      ghost var whole := cursor;
      var frac := SkipFraction();
      ghost var point := cursor;
      var exp := SkipExponent();
      isFloat := frac || exp;
      NumberParts(source, start, whole, point, cursor);
    }

    method SkipFraction() returns (found: bool)
      requires Valid()
      modifies this`cursor
      ensures Valid() && cursor == FractionEnd(source, old(cursor)) && found == (old(cursor) < cursor)
    {
      found := PeekAt(0) == '.' && IsDigit(PeekAt(1));
      if found {
        var _ := Advance();
        SkipRun(IsDigit);
      }
    }

    method SkipExponent() returns (found: bool)
      requires Valid()
      modifies this`cursor
      ensures Valid() && cursor == ExponentEnd(source, old(cursor)) && found == (old(cursor) < cursor)
    {
      found := PeekAt(0) == 'e' || PeekAt(0) == 'E';
      if found {
        var _ := Advance();
        if PeekAt(0) == '+' || PeekAt(0) == '-' {
          var _ := Advance();
        }
        SkipRun(IsDigit);
      }
    }

    /** Both quoted forms; `lexString` and `lexChar` differ only in the quote and the kind. */
    method LexQuoted(quote: char, kind: TokenType) returns (tok: Token)
      requires Valid() && cursor < |source| && source[cursor] == quote && quote != '\\' && quote != '\0'
      modifies this`cursor
      ensures Valid() && cursor == QuoteEnd(source, old(cursor) + 1, quote)
      ensures tok == TokenOf(Span(old(cursor), cursor, kind))
    {
      var start := cursor;
      var _ := Advance();
      while PeekAt(0) != '\0'
        invariant start < cursor <= |source|
        invariant QuoteEnd(source, cursor, quote) == QuoteEnd(source, start + 1, quote)
        decreases |source| - cursor
      {
        var c := Advance();
        if c == '\\' {
          if PeekAt(0) != '\0' {
            var _ := Advance();
          }
        } else if c == quote {
          break;
        }
      }
      tok := Token(start, Length16(cursor - start), kind);
    }

    /** An operator whose first character has just been taken. */
    method LexOperator(c: char) returns (kind: TokenType)
      requires Valid() && 0 < cursor && source[cursor - 1] == c
      modifies this`cursor
      ensures Valid() && var l := Operator(source, old(cursor) - 1); cursor == l.end && kind == l.kind
    {
      kind := Unknown;
      if c == '+' || c == '-' || c == '&' || c == '|' {
        kind := LexDoubling(c);
      } else if c == '<' || c == '>' {
        kind := LexAngle(c);
      } else if c == '/' || c == ':' || c == '.' {
        kind := LexSlashColonDot(c);
      } else if c in {'*', '%', '^', '~', '!', '='} {
        var b := Match('=');
        match c
        case '*' => kind := if b then StarEquals else Star;
        case '%' => kind := if b then PercEquals else Perc;
        case '^' => kind := if b then UpEquals else Up;
        case '~' => kind := if b then TildeEquals else Tilde;
        case '!' => kind := if b then NEquals else Excl;
        case _ => kind := if b then EEquals else Equals;
      } else {
        kind := Single(c);
      }
    }

    method LexDoubling(c: char) returns (kind: TokenType)
      requires Valid() && 0 < cursor && source[cursor - 1] == c && c in {'+', '-', '&', '|'}
      modifies this`cursor
      ensures Valid() && var l := Operator(source, old(cursor) - 1); cursor == l.end && kind == l.kind
    {
      var b := Match(c);
      if b {
        kind := match c case '+' => PPlus case '-' => MMinus case '&' => AAmp case _ => BBar;
        return;
      }
      b := Match('=');
      if b {
        kind := match c case '+' => PlusEquals case '-' => MinusEquals case '&' => AmpEquals case _ => BarEquals;
        return;
      }
      if c == '-' {
        b := Match('>');
        if b { return Arrow; }
      }
      kind := match c case '+' => Plus case '-' => Minus case '&' => Amp case _ => Bar;
    }

    method LexAngle(c: char) returns (kind: TokenType)
      requires Valid() && 0 < cursor && source[cursor - 1] == c && c in {'<', '>'}
      modifies this`cursor
      ensures Valid() && var l := Operator(source, old(cursor) - 1); cursor == l.end && kind == l.kind
    {
      var b := Match(c);
      var e := Match('=');
      if b {
        if e { kind := if c == '<' then LLeEquals else GGrEquals; }
        else { kind := if c == '<' then LLesser else GGreater; }
      } else if e {
        kind := if c == '<' then LeEquals else GrEquals;
      } else {
        kind := if c == '<' then Lesser else Greater;
      }
    }

    method LexSlashColonDot(c: char) returns (kind: TokenType)
      requires Valid() && 0 < cursor && source[cursor - 1] == c && c in {'/', ':', '.'}
      modifies this`cursor
      ensures Valid() && var l := Operator(source, old(cursor) - 1); cursor == l.end && kind == l.kind
    {
      var b;
      if c == '/' {
        b := Match('=');
        if b { return SlashEquals; }
        b := Match('/');
        kind := if b then SSlash else Slash;
      } else if c == ':' {
        b := Match(':');
        kind := if b then CColon else Colon;
      } else if PeekAt(0) == '.' && PeekAt(1) == '.' {
        var _ := Advance();
        var _ := Advance();
        kind := Dots;
      } else {
        kind := Dot;
      }
    }

    /** The next token, or the end marker for ever once the text is exhausted. */
    method NextToken() returns (tok: Token)
      requires Valid()
      modifies this
      ensures Valid() && source == old(source) && thisExpr == old(thisExpr) + [tok]
      ensures if old(Rest()) == [] then tok == Token(|source|, 0, Eof) && Rest() == []
              else old(Rest()) == [tok] + Rest()
    {
      hide LexemeAt;
      SkipWhitespaceAndComments();
      if cursor >= |source| {
        tok := Token(|source|, 0, Eof);
      } else {
        tok := LexToken();
      }
      thisExpr := thisExpr + [tok];
    }

    /** The token that starts at the cursor. */
    method LexToken() returns (tok: Token)
      requires Valid() && cursor < |source|
      modifies this`cursor
      ensures Valid() && var l := LexemeAt(source, old(cursor));
        cursor == l.end && tok == TokenOf(Span(old(cursor), l.end, l.kind))
    {
      hide Word, Number, QuoteEnd, Operator;
      var start := cursor;
      var c := Advance();
      if IsIdentStart(c) {
        cursor := cursor - 1;
        tok := LexIdentifierOrKeyword();
      } else if IsDigit(c) {
        cursor := cursor - 1;
        tok := LexNumber();
      } else if c == '"' {
        cursor := cursor - 1;
        tok := LexQuoted('"', LString);
      } else if c == '\'' {
        cursor := cursor - 1;
        tok := LexQuoted('\'', LChar);
      } else {
        var kind := LexOperator(c);
        tok := Token(start, Length16(cursor - start), kind);
      }
    }
  }
}
