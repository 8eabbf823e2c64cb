/** Token kinds and tokens. */
module Tokens {

  datatype TokenType =
    // keywords
    | KwFalse | KwTrue
    | KwIf | KwElse | KwFor | KwWhile | KwEval | KwBreak | KwContinue | KwReturn
    | KwConstexpr | KwConst | KwStatic | KwInline | KwTemplate
    | KwPublic | KwPrivate | KwRequires | KwNamespace
    | KwNew | KwDelete | KwAuto | KwSizeof | KwTypeof
    | KwType | KwByte | KwVoid | KwStruct | KwEnum
    // identifiers and literals
    | Ident | LInt | LFloat | LString | LChar
    // operators
    | Plus | Minus | Star | Slash | Amp | Bar | Up | Tilde | Excl | Perc | Question
    | Equals | Colon | Greater | Lesser
    | PPlus | MMinus | PlusEquals | MinusEquals | StarEquals | SlashEquals | PercEquals
    | AmpEquals | BarEquals | TildeEquals | UpEquals
    | EEquals | NEquals | AAmp | BBar | GrEquals | LeEquals
    | GGreater | LLesser | GGrEquals | LLeEquals
    | CColon | SSlash
    | Dot | Dots | Arrow
    // punctuation
    | Left | Right | SqLeft | SqRight | BrLeft | BrRight | Semi | Comma
    | WideComment
    // meta
    | Eof | Unknown | External | TBD

  /** `offset` is the byte where the token starts and `size` its 16-bit length. */
  datatype Token = Token(offset: nat, size: nat, kind: TokenType)

  datatype Option<+T> = None | Some(value: T)
}
