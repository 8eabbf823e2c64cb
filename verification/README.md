# A verified model of the lgc front end

lgc is a small language. Its compiler reads a file into a growing arena, runs a preprocessor
over a stack of source frames, lexes the result one token at a time and parses it with a
recursive-descent parser whose expressions are read by precedence; nodes go into an
index-linked arena. This project models those stages and the arena of types, and proves what
they promise.

## How it is put together

| part | modules |
|---|---|
| Lexer | `Tokens`, `Lexicon` (texts of keywords and operators), `Scanning` (token structure of a text, tiling), `Printing` (lexing undoes writing), `LexerMachine` (the cursor machine) |
| Parser | `Symbols`, `Engine` (predictive parsing with two tokens of lookahead, for any table), `Productions` (the table of lgc), `Arena` (nodes and the forest property), `Emission` (nodes of a derivation), `Translation` (parsing and emission as one run), `Equations` (one step of it per routine), `ParserMachine` (the parser class), `Frontend` |
| Precedence | `Expressions` (what fits where, fewest parentheses), `Pratt` (what is read, exactly), `PrattArena` (the nodes stand for it), `Grouping` (which operators group how, listed apart from the parser), `SourceText` (from written text to nodes) |
| Statements | `Statements` (a language of statements, its spelling and what nodes stand for it, without parsing), `StatementsRead` and `Operands` (what is spelled is read as itself) |
| Files | `FileArena` |
| Preprocessor | `Texts`, `Conditions`, `Directives` (one round), `Expansion` (recursive reading and stack machine), `PreprocessorMachine` (the class over snippets), and its laws in `Substitution`, `Branches`, `Selection`, `Definitions`, `Forms` (one directive at a time), `Params`, `Failures` (when a directive ends the run), `Guards` (the text of files that include one another), `Includes` (when following them ends), `Halts` (when a run ends without a code) |
| Types | `Types`, `NamePack` |

Classes follow the source: `Lexer`, `Parser`, `FileManager`, `Preprocessor`, `TypeArena` and
`TypeList` have its fields and loops, and every method is proved to do what a function of its
inputs and old state says. The laws are then proved about those functions, for all inputs.

"Reference outcome" below means `Translation.Result`: the derivation of the tokens, if there is
one, and the nodes it emits, or else the token at which the routine gives up.

## What the code does that one might not expect

* `parsePrimaryExpression` and `parsePostfixExpression` keep a reference to the first window
  slot. Cast, block, call and index nodes therefore carry the offset of the token after them.
* Calls link only their first argument, functions link no parameter, `for` links no increment.
* `skip_if_branch` consumes `#endif` without popping the branch stack, and returns at an
  eligible `#elif` without testing it (`Branches.StopsAtMatch`, `Guards.FilePassed`).
* The nesting counter of `skip_if_branch` has 16 bits (`Branches.CounterWraps`).
* A blank condition after a blank makes `ol_back` pass the condition's start, and the length of
  the snippet underflows (`Selection.UndefinedExactly`, `Halts.BlankCondition`). The model ends such
  runs as undefined; `Halts.RunHalts` says exactly which they are.
* A condition that follows macros in a circle never ends (`Conditions.EvalEnds`,
  `Halts.MacroCircle`). The model ends such runs as hanging.
* Includes are not bounded. The model takes the number allowed; `Includes.EndsUnlessCircle` says
  when some number is enough.
* A definition whose last line is continued and followed by nothing is empty.
* The text of a token is cut to its 16-bit length before keywords are looked up.

## Model

| member | source | states |
|---|---|---|
| Engine.Exact | Logic_compiler/src/parser/parser.cpp:121-641 | The parse routines, read as one table of productions chosen by two tokens of lookahead, return a tree at a position exactly when that tree is a derivation of the tokens there in which every choice agrees with the tokens that follow. |
| Engine.Unambiguous | Logic_compiler/src/parser/parser.cpp:121-641 | No token list has two derivations of the same routine, not even of different lengths. |
| Productions.LgcValid | Logic_compiler/src/parser/parser.cpp:535-641 | The mutual recursion of statements, declarations and expressions descends: between two tokens taken, routines are entered only in order of falling rank, and those that must take a token do. |
| Frontend.Accepts | Logic_compiler/src/parser/parser.cpp:535-641 | A translation unit is accepted exactly when all of its tokens have a derivation, and then the arena holds what that derivation emits. |
| Frontend.OneDerivation | Logic_compiler/src/parser/parser.cpp:535-641 | A token list has at most one derivation as a translation unit. |
| Frontend.ParseSource | Logic_compiler/src/parser/parser.cpp:628-641 | Lexing a text and parsing it gives the reference outcome for its tokens (nodes and root, or the token that is refused), and the arena is a forest either way. |
| Translation.ResultForest | Logic_compiler/src/parser/parser.cpp:121-533 | Whatever routine runs and wherever it starts, it leaves a forest: every link absent or in bounds, no node with two parents, new nodes linking only to new ones or to the expression being extended. |
| Arena.Acyclic | Logic_compiler/src/parser/parser.cpp:358-393 | Following links of a forest never returns to a node, although variable and type declarations link forwards to their two names. |
| Arena.AddNode | Logic_compiler/src/common/AST/AST_def.h:90-97 | Appending a node whose links are distinct, in bounds and to nodes without a parent keeps the forest. |
| Arena.AddDecl | Logic_compiler/src/parser/parser.cpp:376-392 | Appending a declaration before the two name nodes it owns keeps the forest. |
| Emission.ActForest | Logic_compiler/src/parser/parser.cpp:130-533 | Completing any production links each node built on the way at most once. |
| Translation.Enter | Logic_compiler/src/parser/parser.cpp:535-641 | Reading a routine's production symbol by symbol and appending its nodes at the end is the same as parsing it whole and emitting its derivation. |
| Translation.Result | Logic_compiler/src/parser/parser.cpp:535-641 | Whatever is read ends inside the tokens and not before its start, and a statement, expression or operand takes at least one token. |
| Pratt.Exact | Logic_compiler/src/parser/parser.cpp:605-626 | Reading at precedence level m ends at q with expression e (no block, `eval` or `delete` inside) exactly when the tokens spell e, each operator binds at least as tightly as m asks, left operands at least as tightly as their operator, right operands tighter, and the next token can neither continue e nor be a postfix. |
| Pratt.Unique | Logic_compiler/src/parser/parser.cpp:605-626 | Only one expression and one end satisfy that for given tokens. |
| Pratt.RoundTrip | Logic_compiler/src/parser/parser.cpp:121-237 | Any expression written with the fewest parentheses, followed by a token that is neither operator nor postfix, is read back as itself. |
| Pratt.BackExpr | Logic_compiler/src/parser/parser.cpp:605-626 | A fitting left operand is read with whatever operators follow, so chains of one level group to the left. |
| Pratt.ForthTail | Logic_compiler/src/parser/parser.cpp:608-623 | Each operator taken by the loop keeps the precedence rule on the left operand built so far. |
| Grouping.Levels | Logic_compiler/src/parser/parser.cpp:85-106 | The eleven groups of binary operators, listed as sets from loosest to tightest, are exactly the levels of the parser's table: a kind is in the j-th group when its level is j + 1, and in none when it has none. |
| Grouping.Kinds | Logic_compiler/src/parser/parser.cpp:121-237 | The kinds of prefix operators, literals, names and postfixes are the listed ones and no others. |
| Grouping.Groups | Logic_compiler/src/parser/parser.cpp:605-626 | For operands a, b, c without open operators and operators x, y of the j-th and k-th group: `a x b y c` before a token that joins nothing is the tree a x (b y c) when j < k and (a x b) y c otherwise, also at j = k; the nodes left stand for it. |
| Grouping.GroupsTokens | Logic_compiler/src/parser/parser.cpp:605-626 | The same on five tokens, node by node: the top node has the operator of the looser group, the node below it hangs on the right when j < k and on the left otherwise, and each operand's node has the place of its token. |
| Grouping.NotJoined | Logic_compiler/src/parser/parser.cpp:605-626 | A kind in no group and no postfix never joins two operands: the expression ends before it. |
| Grouping.Starts | Logic_compiler/src/parser/parser.cpp:121-188 | An expression that starts with none of the listed kinds is refused at its first token. |
| Expressions.Shortest | Logic_compiler/src/parser/parser.cpp:85-106 | Among all fitting ways to write an expression, putting parentheses where a left operand is looser or a right operand not tighter takes the fewest tokens. |
| Expressions.ParensFit | Logic_compiler/src/parser/parser.cpp:85-106 | With those parentheses the expression fits its level. |
| PrattArena.ParsesFitting | Logic_compiler/src/parser/parser.cpp:121-237 | Tokens that spell a fitting expression are parsed into nodes that stand for it, read back from the arena. |
| PrattArena.ParsedFits | Logic_compiler/src/parser/parser.cpp:605-626 | Whatever the parser accepts over this fragment spells a fitting expression, and the nodes stand for it. |
| SourceText.SourceReadBack | Logic_compiler/src/parser/parser.cpp:605-626 | Spell any expression with the fewest parentheses, write its tokens as text with blanks between them, lex and parse the text: all of it is read and the nodes stand for the expression meant, on the tokens of the text. |
| PrattArena.WrittenThenParsed | Logic_compiler/src/parser/parser.cpp:121-237 | Write any expression with the fewest parentheses, parse it: the nodes stand for the expression meant. |
| ParserMachine.Parser.constructor | Logic_compiler/src/parser/parser.cpp:3-7 | The two-token window starts as the first two tokens of the lexer, padded with the end marker. |
| ParserMachine.Parser.Advance | Logic_compiler/src/parser/parser.cpp:16-34 | Gives the current token and moves the window one token on; at the end it stays. |
| ParserMachine.Parser.Expect | Logic_compiler/src/parser/parser.cpp:80-83 | Takes a token of the wanted kind or reports the one found, taking nothing. |
| ParserMachine.Parser.ParseQualifiers | Logic_compiler/src/parser/parser.cpp:108-119 | Takes qualifiers in any order and number; what follows is read as with exactly these qualifiers. |
| ParserMachine.Parser.ParseExpression | Logic_compiler/src/parser/parser.cpp:605-626 | The precedence loop has the reference outcome: same tokens taken, same error token, same nodes, same id; the arena stays a forest and the recursion ends. |
| ParserMachine.Parser.ParsePrimaryExpression | Logic_compiler/src/parser/parser.cpp:121-188 | Operand and postfixes, with the reference outcome. |
| ParserMachine.Parser.ParseOperand | Logic_compiler/src/parser/parser.cpp:124-187 | Prefix operators, literals, names, `eval`, casts, blocks and parentheses, with the reference outcome; any other token is the error token. |
| ParserMachine.Parser.ParsePostfixExpression | Logic_compiler/src/parser/parser.cpp:190-237 | The postfix loop has the reference outcome, and keeps the expression it extends free of parents. |
| ParserMachine.Parser.ParseCast | Logic_compiler/src/parser/parser.cpp:157-167 | A parenthesised `delete` becomes a cast node placed at the token after the parenthesis, which is where the reference to the window then points. |
| ParserMachine.Parser.ParseCall | Logic_compiler/src/parser/parser.cpp:193-206 | A call links its target and its first argument only, and is placed at the token after the parenthesis. |
| ParserMachine.Parser.ParseArgs | Logic_compiler/src/parser/parser.cpp:195-201 | All arguments are parsed; the id is that of the first, or none. |
| ParserMachine.Parser.ParseMember | Logic_compiler/src/parser/parser.cpp:208-218 | A member access creates the name and then the access, with the reference outcome. |
| ParserMachine.Parser.ParseIndex | Logic_compiler/src/parser/parser.cpp:220-226 | An index expression has the reference outcome. |
| ParserMachine.Parser.ParseBranch | Logic_compiler/src/parser/parser.cpp:239-274 | `if` and `eval`: condition, branch and optional `else` in this order, with the reference outcome. |
| ParserMachine.Parser.ParseWhileStatement | Logic_compiler/src/parser/parser.cpp:276-287 | `while`, with the reference outcome. |
| ParserMachine.Parser.ParseForStatement | Logic_compiler/src/parser/parser.cpp:289-318 | `for`, with the reference outcome: the node links condition, body and initialiser, never the increment. |
| ParserMachine.Parser.ParseReturnStatement | Logic_compiler/src/parser/parser.cpp:320-331 | `return`, with the reference outcome. |
| ParserMachine.Parser.ParseStructDecl | Logic_compiler/src/parser/parser.cpp:333-346 | `struct`, with the reference outcome; the payload's first field is a source offset, not a link. |
| ParserMachine.Parser.ParseNamespaceDecl | Logic_compiler/src/parser/parser.cpp:348-356 | `namespace`, with the reference outcome. |
| ParserMachine.Parser.ParseParamDecl | Logic_compiler/src/parser/parser.cpp:358-393 | A parameter, with the reference outcome; at the end of input the source makes one up from the end marker and the caller then reports it. |
| ParserMachine.Parser.ParseFunctionDecl | Logic_compiler/src/parser/parser.cpp:395-427 | A function declaration or definition, with the reference outcome; parameters are parsed but not linked. |
| ParserMachine.Parser.ParseDeleteStatement | Logic_compiler/src/parser/parser.cpp:429-439 | `delete`, with the reference outcome. |
| ParserMachine.Parser.ParseTypeDecl | Logic_compiler/src/parser/parser.cpp:447-496 | `type` with its three kinds of base and an optional body, with the reference outcome; a body takes the place of the base. |
| ParserMachine.Parser.ParseVarOrTypeDecl | Logic_compiler/src/parser/parser.cpp:441-533 | Type, variable and function declarations are told apart as the reference does. |
| ParserMachine.Parser.ParseBlock | Logic_compiler/src/parser/parser.cpp:538-547 | A block's node comes before its contents; the loop ends at the brace or the end of input. |
| ParserMachine.Parser.ParseStatement | Logic_compiler/src/parser/parser.cpp:535-603 | Statements are dispatched as the reference does, with its outcome. |
| ParserMachine.Parser.ParseTranslationUnit | Logic_compiler/src/parser/parser.cpp:628-641 | Has the reference outcome and takes every token; the guard against statements that take nothing is unreachable. |
| StatementsRead.ReadStm | Logic_compiler/src/parser/parser.cpp:535-603 | A statement of any form, nested to any depth, spelled token by token, is read whole, whatever follows that may follow it, and the nodes stand for it: right kind, place, qualifiers and links. The form of each statement and what stands for it are described without the parser. |
| StatementsRead.ReadVar | Logic_compiler/src/parser/parser.cpp:498-533 | A variable declaration of type token t and name token n, or after `auto` of n alone: the node has the place of t and the qualifiers read, its type link leads to an identifier with the place, length and kind of t, its name link to one of n, and its last link to the initialiser or nowhere. |
| StatementsRead.ReadParam | Logic_compiler/src/parser/parser.cpp:358-393 | The same for a parameter, whose name may be missing and whose qualifiers are its own. |
| StatementsRead.ReadType | Logic_compiler/src/parser/parser.cpp:447-496 | The same for `type`: the keyword stands where a type would, the name is that given, and the last link leads to the body if there is one, else to the base. |
| StatementsRead.ReadFunc | Logic_compiler/src/parser/parser.cpp:395-427 | The same for functions, declared or defined: placed at the name, parameters read in order, the last link to the body or nowhere. |
| StatementsRead.Qualified | Logic_compiler/src/parser/parser.cpp:108-119 | A run of qualifiers sets the flag of each that occurs, in any order and number, and no other. |
| StatementsRead.ReadIf | Logic_compiler/src/parser/parser.cpp:257-274 | `if`: condition, branch and `else` part are linked in their places. |
| StatementsRead.ReadWhile | Logic_compiler/src/parser/parser.cpp:276-287 | `while`: condition and body are linked, the third link is absent. |
| StatementsRead.ReadFor | Logic_compiler/src/parser/parser.cpp:289-318 | `for`: test, body and first clause are linked; the step has nodes of its own that nothing links. |
| StatementsRead.ReadReturn | Logic_compiler/src/parser/parser.cpp:320-331 | `return` with its value or without. |
| StatementsRead.ReadDelete | Logic_compiler/src/parser/parser.cpp:429-439 | `delete`, with `auto` kept as a flag, links its target. |
| StatementsRead.ReadStruct | Logic_compiler/src/parser/parser.cpp:333-346 | `struct`: the place of the name and the body, or no body. |
| StatementsRead.ReadNamespace | Logic_compiler/src/parser/parser.cpp:348-356 | `namespace`: the place of the name and the statement in it. |
| StatementsRead.ReadBlock | Logic_compiler/src/parser/parser.cpp:538-547 | A block: a node at the place of what follows the brace, and nodes for each statement inside that nothing links to it. |
| StatementsRead.ReadProgram | Logic_compiler/src/parser/parser.cpp:628-641 | A whole program spelled token by token is read to its end: the unit's node comes first and each statement has nodes that stand for it. |
| Operands.ReadEval | Logic_compiler/src/parser/parser.cpp:239-255 | `eval` as an operand: condition, branch and `else` part in their places. |
| Operands.ReadCast | Logic_compiler/src/parser/parser.cpp:157-167 | A `delete` in parentheses as an operand: a cast node at the place of the token after it, linked to the node of the `delete`. |
| Operands.ReadBlockOperand | Logic_compiler/src/parser/parser.cpp:170-178 | A block as an operand is the block. |
| Scanning.Tiling | Logic_compiler/src/lexer/lexer.cpp:19-58 | Lexing accounts for every character once, and each token spans what it should: a word all the letters, digits and underscores there are, ended by a character that is none; a number its digits, fraction, exponent and suffixes, each as long as can be; a literal up to its first closing quote; an operator the longest listed text that stands there. Gaps are exactly blanks and comments, `//` is never a token and no token is an end marker. |
| Scanning.TilesOnly | Logic_compiler/src/lexer/lexer.cpp:163-329 | There is only one such tiling of a text, and it is what the lexer gives: the description alone determines every token. |
| Scanning.Classes | Logic_compiler/src/lexer/lexer.cpp:10-12 | Letters, digits, hexadecimal digits, suffixes and blanks are the listed characters. |
| Scanning.TilesOrdered | Logic_compiler/src/lexer/lexer.cpp:163-179 | Tokens follow each other in strictly increasing order without overlap. |
| Scanning.LexemeText | Logic_compiler/src/common/token/token_def.h:177-186 | A keyword or operator token whose length fits 16 bits has exactly the text its kind is listed with. |
| Lexicon.MapsToText | Logic_compiler/src/common/token/token_def.h:177-186 | `string_map` gives a kind only for exactly that kind's listed text. |
| Lexicon.TextMaps | Logic_compiler/src/common/token/token_def.h:61-169 | Every listed keyword and operator text is mapped back to its own kind. |
| Printing.RoundTrip | Logic_compiler/src/lexer/lexer.cpp:60-329 | Lexing words, numbers, operators and closed literals joined by single blanks gives back their kinds and texts, then the end. |
| LexerMachine.Lexer.NextToken | Logic_compiler/src/lexer/lexer.cpp:163-329 | Gives the next token of the text and keeps the rest, or the end marker for ever. |
| LexerMachine.Lexer.SkipWhitespaceAndComments | Logic_compiler/src/lexer/lexer.cpp:19-58 | Stops at the first character that is neither blank nor in a comment; an unterminated block comment ends with the text. |
| LexerMachine.Lexer.LexIdentifierOrKeyword | Logic_compiler/src/lexer/lexer.cpp:60-78 | Takes the whole run of identifier characters, as `Scanning.Tiling` describes it, and classifies it. |
| LexerMachine.Lexer.LexNumber | Logic_compiler/src/lexer/lexer.cpp:80-125 | Takes a hexadecimal or decimal number with fraction, exponent and suffixes, and tells floats from integers. |
| LexerMachine.Lexer.LexQuoted | Logic_compiler/src/lexer/lexer.cpp:127-161 | Takes a string or character literal up to its closing quote or the end. |
| LexerMachine.Lexer.LexToken | Logic_compiler/src/lexer/lexer.cpp:175-329 | The longest operator that matches, or the lexeme its first character announces. |
| Expansion.RunExpands | Logic_compiler/src/preproc/preprocessor.cpp:883-1001 | The explicit stack of source frames does what recursive expansion does: an included text is expanded where it is included and the including text goes on after it, with macros, branch flags and output threaded through and any failure ending everything. |
| Expansion.RunIsExpand | Logic_compiler/src/preproc/preprocessor.cpp:883-1001 | A whole run on one file is the recursive expansion of its text. |
| Expansion.RoundDescends | Logic_compiler/src/preproc/preprocessor.cpp:894-992 | A round that enters no file leaves less text unread; one that does uses up an include, so a run with finitely many includes ends. |
| Expansion.BudgetSlack | Logic_compiler/src/preproc/preprocessor.cpp:597-631 | Allowing more includes never changes a run that did not use up those it had. |
| Directives.StepOnward | Logic_compiler/src/preproc/preprocessor.cpp:894-992 | Every round reads at least one character and stays inside the text. |
| Includes.EndsExactly | Logic_compiler/src/preproc/preprocessor.cpp:597-631 | For any library of guarded and unguarded files and any number of includes allowed: following the includes without counting either comes to an end, and then the run ends in that state if enough includes are allowed and runs out of them if not, or it meets an unguarded file inside itself, and then every number runs out. |
| Includes.EndsUnlessCircle | Logic_compiler/src/preproc/preprocessor.cpp:597-631 | When no two files share a guard, some number of includes is enough exactly when no circle of unguarded files can be reached from the includes through files that are not guarded off to begin with; if one can, no number is. |
| Includes.GivesUp | Logic_compiler/src/preproc/preprocessor.cpp:597-631 | For any library, following the includes can only meet an unguarded file inside itself if such a circle can be reached. |
| Includes.SharedGuard | Logic_compiler/src/preproc/preprocessor.cpp:662-687 | Sharing a guard makes a difference: two files with one guard, the second leading to a file that includes itself, and the run still ends. |
| Includes.GuardedEnds | Logic_compiler/src/preproc/preprocessor.cpp:662-687 | Where every file is guarded, following the includes always comes to an end, circles or not. |
| Includes.IncludesItself | Logic_compiler/src/preproc/preprocessor.cpp:597-631 | A file that only includes itself runs out of every number of includes, with no output. |
| Includes.GuardOnce | Logic_compiler/src/preproc/preprocessor.cpp:662-687 | Including a guarded file any positive number of times ends just when including it once does, with the same output and macros and one include more for each repetition; only the branch stack grows, by one each time. |
| Guards.ItemsExpand | Logic_compiler/src/preproc/preprocessor.cpp:597-631 | Wherever they stand in a text, plain lines and includes in quotes or angle brackets, of guarded and unguarded files, expand to following the includes file by file, for every number of includes allowed. |
| Includes.OnceEach | Logic_compiler/src/preproc/preprocessor.cpp:662-687 | However the files include one another, each guard is defined at most once, so each guarded body comes out at most once. |
| Guards.FilePassed | Logic_compiler/src/preproc/preprocessor.cpp:310-440 | A guarded file seen again leaves nothing but one entry on the branch stack, because the skipped `#endif` takes none off. |
| Branches.StopsAtMatch | Logic_compiler/src/preproc/preprocessor.cpp:310-440 | After a well-nested body the skipper stops just past the line of the branch's own `#endif` or, when no branch was taken, `#else`; at an eligible `#elif` it stops after the name, its condition unread. |
| Branches.SkipsLines | Logic_compiler/src/preproc/preprocessor.cpp:310-440 | Skipping a text of lines without quotes or comments (definitions and skipped lines may hold anything) ends exactly where following their nesting says: at the first line that ends the branch, inside the line whose level the counter cannot hold, or with -422 at the end of the text. |
| Branches.SkipBody | Logic_compiler/src/preproc/preprocessor.cpp:325-438 | Skipping follows the nesting of a body line by line, whatever its definitions and includes hold. |
| Branches.NoMatch | Logic_compiler/src/preproc/preprocessor.cpp:439 | Without a terminator skipping runs to the end of the text and reports -422. |
| Branches.SkipEnding | Logic_compiler/src/preproc/preprocessor.cpp:310-440 | Whatever the text, skipping ends at its end with -422, at a directive that ends the branch (past the line of its `#endif` or untaken `#else`, with 422 when that line has no end, or after the name of an `#elif` when no branch was taken), or, only if the text holds enough `#` for that, at an `#if` or `#ifndef` at which the 16-bit counter comes round to 0. |
| Branches.SuccessPassesLine | Logic_compiler/src/preproc/preprocessor.cpp:310-440 | With fewer than 2^16 levels success names its terminator: skipping stopped just past the line of an `#endif` or `#else` of the text that ends the branch. |
| Branches.CounterWraps | Logic_compiler/src/preproc/preprocessor.cpp:321-370 | 65535 unclosed `#if` lines, with no terminator at all: the counter wraps to 0 and skipping ends inside the last of them as if it had succeeded. |
| Forms.EndsAtLine | Logic_compiler/src/preproc/preprocessor.cpp:325-438 | Skipping ends just past the line of an `#endif`, or of an `#else` when no branch was taken, whatever else the line holds. |
| Forms.EndsAtText | Logic_compiler/src/preproc/preprocessor.cpp:325-438 | When that line has no end, skipping ends with the text and 422. |
| Forms.EndsAtElif | Logic_compiler/src/preproc/preprocessor.cpp:325-438 | An `#elif` ends the skipping of a branch never taken right after its name, with 105102. |
| Forms.PassesLine | Logic_compiler/src/preproc/preprocessor.cpp:325-438 | The lines of definitions, and of another `#else` or `#elif` when a branch was taken, are passed whole. |
| Forms.SkipsQuoted | Logic_compiler/src/preproc/preprocessor.cpp:325-345 | Text in quotes is passed while skipping, directives in it included. |
| Forms.UnclosedQuote | Logic_compiler/src/preproc/preprocessor.cpp:325-345 | A quote that is never closed hides the rest of the text: -422. |
| Forms.SkipsComment | Logic_compiler/src/preproc/preprocessor.cpp:346-360 | Comments are passed while skipping. |
| Forms.SkipDrops | Logic_compiler/src/preproc/preprocessor.cpp:760-776 | `#skip` removes the rest of its line and the line after it, and changes nothing else. |
| Forms.ElifPassed | Logic_compiler/src/preproc/preprocessor.cpp:707-745 | After a branch was taken, `#elif`, its condition, the text below and the `#endif` line are removed, and the branch stays taken. |
| Forms.ElifAsked | Logic_compiler/src/preproc/preprocessor.cpp:707-745 | Where none was taken, `#elif` enters its text when its condition holds and skips it when not, and the top branch says which. |
| Forms.ElifUnread | Logic_compiler/src/preproc/preprocessor.cpp:310-440 | A condition that fails, then `#elif`: reading goes on after the name, with the condition not looked at. |
| Forms.EndifCloses | Logic_compiler/src/preproc/preprocessor.cpp:747-758 | `#endif` takes the top branch away, and its line. |
| Forms.ElseDecides | Logic_compiler/src/preproc/preprocessor.cpp:689-705 | `#else` enters its text when the branch was not taken and skips it when it was; either way it counts as taken from then on. |
| Forms.IfndefAsks | Logic_compiler/src/preproc/preprocessor.cpp:662-687 | `#ifndef G` opens a branch that is entered exactly when G names no macro. |
| Selection.FlatSelects | Logic_compiler/src/preproc/preprocessor.cpp:633-660 | `#if c`, text, `#else`, text, `#endif` emits the substitution of the first text when c holds and of the second otherwise; macros stay and reading goes on after the `#endif` line. |
| Selection.UndefinedExactly | Logic_compiler/src/preproc/preprocessor.cpp:203-213 | Stepping back over blanks passes the start of a condition exactly when the condition is blank and a blank stands before the line end. |
| Halts.StepHalts | Logic_compiler/src/preproc/preprocessor.cpp:203-213 | A round is undefined exactly at a `#` whose directive has a blank condition set off by a blank, or is a `#param` whose type closes only at the end of the text; it never comes back exactly at an `#if`, or `#elif` that looks at its condition, whose condition follows macros in a circle. |
| Halts.RunHalts | Logic_compiler/src/preproc/preprocessor.cpp:883-1001 | A whole run is undefined, or hangs, exactly when it comes to such a directive: after some number of rounds of the stack machine the text on top stands at one. |
| Halts.BlankCondition | Logic_compiler/src/preproc/preprocessor.cpp:633-660 | The text `#if`, a blank and a line end is undefined, whatever came before. |
| Halts.MacroCircle | Logic_compiler/src/preproc/preprocessor.cpp:297-303 | Two macros defined as each other and an `#if` of one: the run hangs. |
| Substitution.ExpandText | Logic_compiler/src/preproc/preprocessor.cpp:893-1001 | Text whose `#` are all inside comments and literals comes out with each word that is a key of the macro table replaced once by the text it is mapped to, not looked at again, and everything else as it is. |
| Substitution.WordExpands | Logic_compiler/src/preproc/preprocessor.cpp:980-989 | A whole run of identifier characters adds exactly the macro's text to the output when it is a key of the table, also when that text is empty, and itself when it is not. |
| Substitution.BitsSpoken | Logic_compiler/src/preproc/preprocessor.cpp:893-1001 | A text of words and separators comes out separator by separator and word by word, each word that is a key as its text. |
| Substitution.PiecesTiled | Logic_compiler/src/preproc/preprocessor.cpp:903-990 | Comments, literals, words and other characters tile the text; words are whole runs of identifier characters. |
| Substitution.TiledOnly | Logic_compiler/src/preproc/preprocessor.cpp:903-990 | There is only one such tiling of a text. |
| Substitution.PiecesTile | Logic_compiler/src/preproc/preprocessor.cpp:903-990 | Joined again the pieces are the text. |
| Substitution.EmptyTable | Logic_compiler/src/preproc/preprocessor.cpp:893-1001 | With no macros such text comes out byte for byte. |
| Conditions.EvalEnds | Logic_compiler/src/preproc/preprocessor.cpp:235-308 | Evaluating a condition ends exactly when no macro is followed twice, and then follows no more macros than are defined. |
| Conditions.EvalChain | Logic_compiler/src/preproc/preprocessor.cpp:297-303 | The answer is that of the last text of the chain of macros. |
| Conditions.ComparisonMeans | Logic_compiler/src/preproc/preprocessor.cpp:257-295 | `a == b` by the table: a side that is a key with a text that is not empty stands for that text without the blanks around it, a side that is a key with the empty text, or no key, for itself; the answer is whether the two are the same, and for `!=` whether they are not. |
| Conditions.WordMeans | Logic_compiler/src/preproc/preprocessor.cpp:257-303 | A single word: `0`, `false` and nothing are false, `1` and `true` are true, a macro with the empty text is true, one with a text is asked again with that text, and anything else is false. |
| Selection.FlatCompares | Logic_compiler/src/preproc/preprocessor.cpp:633-660 | `#if a == b`, text, `#else`, text, `#endif` emits the first text exactly when the two sides stand for the same by the table, the second otherwise; with `!=` the other way round. |
| Definitions.DefinesAll | Logic_compiler/src/preproc/preprocessor.cpp:442-528 | `#define A&B v` makes each of its names stand for v without the blanks around it, and ends after its line; v can run over several lines joined by continuation marks. |
| Definitions.RegisterAll | Logic_compiler/src/preproc/preprocessor.cpp:503-525 | Splitting the alias list registers every alias and nothing else. |
| Definitions.WithAllLooks | Logic_compiler/src/preproc/preprocessor.cpp:503-525 | Each of the names then stands for the value, also when one occurs twice, and every other name for what it stood for before. |
| Definitions.DefineThenUse | Logic_compiler/src/preproc/preprocessor.cpp:442-528 | After `#define A&B v` a text of words and separators comes out with v wherever a word is one of the names, with its macro's text where it names an older one, and as it is otherwise. |
| Definitions.DefineThenText | Logic_compiler/src/preproc/preprocessor.cpp:442-528 | The same for any text of lines without directives, comments and quotes. |
| Forms.DefinesBlock | Logic_compiler/src/preproc/preprocessor.cpp:530-595 | `#define_m` with names set apart by `&` and blanks makes each stand for the text up to `#enddef`, untrimmed, and ends after that line. |
| Params.ParamWrites | Logic_compiler/src/preproc/preprocessor.cpp:782-881 | `#param (type) name = default` writes the constant declaration with the default, or with the macro's text when the name is defined (1 when that is empty), and forgets the macro. |
| Failures.BadType | Logic_compiler/src/preproc/preprocessor.cpp:782-881 | `#param` without a type in parentheses closed on its line: -400. |
| Failures.BadName | Logic_compiler/src/preproc/preprocessor.cpp:782-881 | `#param` with an empty type, no name or no `=`: -400. |
| Failures.IncludeReads | Logic_compiler/src/preproc/preprocessor.cpp:597-631 | `#include` and `#import`, in quotes or angle brackets, go on with the file of exactly that path, and come back after their line; -2 when it is missing or empty. |
| Failures.BadPath | Logic_compiler/src/preproc/preprocessor.cpp:597-631 | Without an opening sign, or without its closing one: -1. |
| Failures.UnknownName | Logic_compiler/src/preproc/preprocessor.cpp:215-233 | A name that is no directive: -404; a stray `#enddef`: -1. |
| Failures.NoOpenBranch | Logic_compiler/src/preproc/preprocessor.cpp:689-758 | `#else`, `#elif` and `#endif` without an open branch: -400. |
| Failures.NoLineEnd | Logic_compiler/src/preproc/preprocessor.cpp:633-745 | A condition whose line does not end: -422. |
| Failures.NoDefinitionEnd | Logic_compiler/src/preproc/preprocessor.cpp:530-595 | `#define_m` without `#enddef`: -3. |
| Texts.CStringCuts | Logic_compiler/src/preproc/preprocessor.cpp:597-631 | The path that is opened ends at its first NUL. |
| Texts.TrimParts | Logic_compiler/src/preproc/preprocessor.cpp:236-241 | Trimming removes the blanks and line ends at both ends, and all of them. |
| Texts.Classes | Logic_compiler/src/preproc/preprocessor.cpp:236-241 | The characters of names, the blanks that are skipped and those that are trimmed are the listed ones. |
| PreprocessorMachine.PreprocessFile | Logic_compiler/src/preproc/preprocessor.cpp:883-1001 | The preprocessor over its frames, snippets and file arena produces the recursive expansion of the file's text, or stops with the same code and the same output so far. |
| PreprocessorMachine.Preprocessor.constructor | Logic_compiler/src/preproc/preprocessor.h:126-133 | Starts with the file's text on the stack, no macros, no branches and no output. |
| PreprocessorMachine.Preprocessor.Process | Logic_compiler/src/preproc/preprocessor.cpp:883-1001 | The main loop is a run of the stack machine. |
| PreprocessorMachine.Preprocessor.OneRound | Logic_compiler/src/preproc/preprocessor.cpp:900-991 | One round does what the step function says to cursor, macros, branches and output. |
| PreprocessorMachine.Preprocessor.SkipIfBranch | Logic_compiler/src/preproc/preprocessor.cpp:310-440 | Skips as specified; output, macros and branches stay as they are. |
| PreprocessorMachine.Preprocessor.EvalCondition | Logic_compiler/src/preproc/preprocessor.cpp:235-308 | Evaluates as specified for `#if`, `#elif` and `#ifndef`. |
| PreprocessorMachine.Preprocessor.HandleDefine | Logic_compiler/src/preproc/preprocessor.cpp:442-528 | Aliases, continuation lines and trimming as specified; every alias holds the same snippet. |
| PreprocessorMachine.Preprocessor.HandleDefineM | Logic_compiler/src/preproc/preprocessor.cpp:530-595 | A multi-line definition up to `#enddef`, or -3 when there is none. |
| PreprocessorMachine.Preprocessor.HandleInclude | Logic_compiler/src/preproc/preprocessor.cpp:597-631 | Pushes the file's text with the including cursor past its line, or fails with -1 or -2; every text in use stays what it was. |
| PreprocessorMachine.Preprocessor.HandleIf | Logic_compiler/src/preproc/preprocessor.cpp:633-660 | `#if` as specified. |
| PreprocessorMachine.Preprocessor.HandleIfndef | Logic_compiler/src/preproc/preprocessor.cpp:662-687 | `#ifndef` as specified. |
| PreprocessorMachine.Preprocessor.HandleElse | Logic_compiler/src/preproc/preprocessor.cpp:689-705 | `#else` as specified, -400 without an open branch. |
| PreprocessorMachine.Preprocessor.HandleElif | Logic_compiler/src/preproc/preprocessor.cpp:707-745 | `#elif` as specified, -400 without an open branch. |
| PreprocessorMachine.Preprocessor.HandleEndif | Logic_compiler/src/preproc/preprocessor.cpp:747-758 | `#endif` takes one entry off the branch stack, -400 without one. |
| PreprocessorMachine.Preprocessor.HandleSkip | Logic_compiler/src/preproc/preprocessor.cpp:760-776 | `#skip` moves past its own line and the next. |
| PreprocessorMachine.Preprocessor.HandleParam | Logic_compiler/src/preproc/preprocessor.cpp:782-881 | `#param` writes the constant with the macro's value or the default and forgets the macro; -400 on every malformed form. |
| PreprocessorMachine.Preprocessor.ProcessDirective | Logic_compiler/src/preproc/preprocessor.cpp:215-233 | Each directive goes to its handler; unknown ones give -404 and a stray `#enddef` -1. |
| PreprocessorMachine.Preprocessor.LoadView | Logic_compiler/src/preproc/preprocessor.cpp:16-20 | Loading a file gives its normalised text and leaves every snippet in use unchanged. |
| PreprocessorMachine.Preprocessor.CopyLiteral | Logic_compiler/src/preproc/preprocessor.cpp:927-944 | A literal is copied whole, escapes included. |
| PreprocessorMachine.PartText | Logic_compiler/src/preproc/preprocessor.h:67-72 | A snippet of a snippet stands for that part of its text. |
| FileArena.FileManager.LoadFile | Logic_compiler/src/file/file_manager.cpp:6-78 | The buffer stays the concatenation of name, NUL and normalised content of each file; the old buffer is a prefix of the new; a name already there is not loaded again. |
| FileArena.FileManager.SanitizeTail | Logic_compiler/src/file/file_manager.cpp:55-70 | The in-place pass leaves exactly the normalised text, and nothing before it changes. |
| FileArena.FileManager.SanitizeOne | Logic_compiler/src/file/file_manager.cpp:57-69 | Each round writes one character no later than it reads; the write index stays at most the read index, and no character still to be read or already written is overwritten. |
| FileArena.FileManager.LoadFromView | Logic_compiler/src/file/file_manager.cpp:80-109 | A text is kept under its name as it is. |
| FileArena.FileManager.Pop | Logic_compiler/src/file/file_manager.cpp:111-118 | Removes exactly the entry loaded last. |
| FileArena.FileManager.FindFile | Logic_compiler/src/file/file_manager.h:31-38 | The first entry of that name, and never one for the reserved name. |
| FileArena.NormalisedClean | Logic_compiler/src/file/file_manager.cpp:55-70 | Normalised text has no CR, as many LF as there were line ends, and is no longer than before. |
| FileArena.NormalisedLines | Logic_compiler/src/file/file_manager.cpp:55-70 | A text written as lines, each ended by LF, CR or CR LF, becomes the same lines each ended by LF, provided no CR is followed by an empty line ended by LF, where the two would be one end. |
| FileArena.LinesOf | Logic_compiler/src/file/file_manager.cpp:55-70 | Every text can be written so. |
| FileArena.Idempotent | Logic_compiler/src/file/file_manager.cpp:55-70 | Normalising twice is normalising once. |
| FileArena.EntrySlices | Logic_compiler/src/file/file_manager.h:57-77 | Each entry's name and content are read back from the buffer. |
| FileArena.KeptIsFound | Logic_compiler/src/file/file_manager.h:31-77 | A file just kept is found under its name, with its name and its content in the buffer, unless the name is the reserved one, or empty when an empty nameless file came first. |
| FileArena.WithFileDistinct | Logic_compiler/src/file/file_manager.cpp:9-15 | No name is held twice, except the reserved one and the empty one when an empty nameless file came first. |
| Types.ReadsBack | Logic_compiler/src/typer/type_def.h:168-202 | What was stored at an offset is read back: identifier, flags and members, three words each. |
| Types.MemberDecodes | Logic_compiler/src/typer/type_def.h:76-83 | The five fields of a member survive packing into three words. |
| Types.WordByWord | Logic_compiler/src/typer/type_def.h:226-252 | Word by word: identifier, size, where the members start, the flags, and three words for each member: its type, its identifier with decoration and padding above it, and its initial value. |
| Types.TypeArena.constructor | Logic_compiler/src/typer/type_def.h:210-213 | Starts with one word, so that offset 0 stands for nothing. |
| Types.TypeArena.Push | Logic_compiler/src/typer/type_def.h:226-252 | The record is appended whole at the old size, which is never 0 and not in use, and the live records are those before and this one. |
| Types.TypeArena.Rollback | Logic_compiler/src/typer/type_def.h:255-259 | Everything from the offset on is dropped, and exactly the records that end there or before stay live; the offset of the k-th piece leaves the first k; 0 and offsets past the end change nothing. |
| Types.TypeArena.LiveReadsBack | Logic_compiler/src/typer/type_def.h:168-223 | Every live offset gives back its record: identifier, flags and members. |
| Types.RollbackUndoes | Logic_compiler/src/typer/type_def.h:226-259 | A push that returns o, then any pushes and roll backs of which none goes to o or below, then a roll back to o: the very words and records from before the push. Roll backs into the middle of a record are among the runs. |
| Types.Survives | Logic_compiler/src/typer/type_def.h:226-259 | A live record is read back after any run of pushes and roll backs in which no roll back cuts it, and its offset is never 0. |
| Types.RunWords | Logic_compiler/src/typer/type_def.h:226-259 | After any run the words are those of the pieces pushed and not rolled back, in order. |
| Types.CutLive | Logic_compiler/src/typer/type_def.h:255-259 | Cutting at an offset keeps exactly the records that end there or before. |
| Types.LiveStarts | Logic_compiler/src/typer/type_def.h:226-252 | An offset is live exactly when a whole record starts there. |
| Types.TypeList.Push | Logic_compiler/src/typer/type_def.h:287-292 | The type is registered under its own index. |
| Types.TypeList.Rollback | Logic_compiler/src/typer/type_def.h:295-299 | Never removes a builtin type; each type keeps its identifier. |
| NamePack.PackedEqual | Logic_compiler/src/preproc/preproc_token.h:47-61 | Two names pack alike exactly when their first ten characters agree and their lengths are equal or both at least 25. |
| NamePack.Fields | Logic_compiler/src/preproc/preproc_token.h:47-61 | Read six bits at a time the packed name holds the codes of the first ten characters, 0 where the name has ended, and above them how much longer than ten it is, at most 15. |
| NamePack.Codes | Logic_compiler/src/common/hashing.h:22-33 | The codes run from 1 through capitals, small letters, digits and the underscore, and no other character has one. |
| NamePack.ShortRoundTrip | Logic_compiler/src/preproc/preproc_token.h:47-61 | Names of up to ten characters can be unpacked. |
| NamePack.Pack | Logic_compiler/src/preproc/preproc_token.h:47-61 | Or-ing each character's six bits, shifted to its place, into the shifted extra length gives the packed name, in 64 bits. |
| NamePack.SetDigit | Logic_compiler/src/preproc/preproc_token.h:56-59 | The six bits that are or-ed in are free: length field, earlier characters and new character do not overlap. |
| NamePack.PackedFits | Logic_compiler/src/preproc/preproc_token.h:47-61 | The packed name fits 64 bits; its top four are the extra length and the rest are the characters. |

## Left out

- Error messages: the line, column and wording of syntax errors; the token at which parsing fails is modelled.
- Logging, timers and statistics of the preprocessor.
- Opening files and building paths: files are a given map from path to bytes. A path of a directory is not modelled.
- 32-bit sizes: texts, token counts and arenas are taken to be smaller than 2^32 - 1; searches that fail give the length of the text instead of the largest cursor. Token lengths (16 bits), the nesting counters (16 bits) and words of the type arena (32 bits) are modelled.
- Hash collisions: directive names are compared by their text, where the source compares FNV hashes.
- The paged vectors: growable sequences, with addresses that stay valid.
- Lexer.getText, getBufferedTokens, FileManager.isLoaded and the reading accessors: one-line views of modelled state.
- findInLine, findPrev, peekToNext, skipToNext and the list and table forms of findNext: not used by any directive.
- The second constructor of the preprocessor, which starts from a file of another arena.
- PreprocessorMachine.Preprocessor.EvalCondition: takes the depth of its recursion as a bound, which `Conditions.EvalEnds` shows to be reached only where the source does not come back.
- PreprocessorMachine.Preprocessor.Process: takes the number of includes allowed, because a file can include itself without end.
- The helpers of packed names, `check_packing` and the unfinished `possible_match`.
- Types.TypeArena.Push: requires the arena to stay below 2^32 words, and the laws of runs do not follow an offset that wraps round.
- Includes.EndsUnlessCircle: files hold whole plain lines and includes, with the guard's three lines around them or none; where files share a guard the exact statement is `Includes.EndsExactly`, because `Includes.SharedGuard` shows that the graph alone does not decide.
- Branches.StopsAtMatch: bodies hold no quotes or comments outside definitions, skipped lines and include paths, so that every `#` stands for a directive; `PreprocessorMachine.Preprocessor.SkipIfBranch` covers all texts.
- StatementsRead.ReadStm: the expressions in statements hold no `eval`, cast or block; `Operands` and the reference outcome cover these where they stand. The nodes stand for the statement as long as there are at most 2^32 - 1 of them, the identifier that means none.
- Chains of `#elif` and a balanced branch stack: neither holds in the source, see above.
- The compiler proper (LLVM code generation), the AST printer and `main`.
- Type flags and the compile-time tables behind them.
