/** What each preprocessor directive does, as functions of a text, a position and the state. */
module Directives {
  import opened Tokens
  import opened Texts
  import opened Conditions

  /** One entry of the branch stack. */
  datatype Branch = Branch(active: bool, everTaken: bool)

  /** Macro table, branch stack and output so far. */
  datatype Env = Env(macros: Macros, branches: seq<Branch>, out: string)

  /** Why a run ends early. `Hangs` and `Undefined` have no code: the program does not come back, or misbehaves. */
  datatype Stop = Code(code: int) | Hangs | Undefined

  /** What one round of the main loop does. `Enter` starts on another text and comes back to `next`. */
  datatype Effect =
    | Go(next: nat, env: Env)
    | Enter(next: nat, env: Env, text: string)
    | Halt(why: Stop)

  datatype MacroType =
    | UnknownDirective | Define | DefineM | Include | If | Ifndef | Else | Elif | Endif | Enddef | Skip | Import | Param

  function Match(name: string): MacroType {
    if name == "#define" then Define
    else if name == "#define_m" then DefineM
    else if name == "#if" then If
    else if name == "#ifndef" then Ifndef
    else if name == "#else" then Else
    else if name == "#elif" then Elif
    else if name == "#endif" then Endif
    else if name == "#enddef" then Enddef
    else if name == "#include" then Include
    else if name == "#skip" then Skip
    else if name == "#import" then Import
    else if name == "#param" then Param
    else UnknownDirective
  }

  // ---------- skipping a branch ----------

  /** Where skipping ends and what it returns. */
  datatype Skipped = Skipped(next: nat, code: int)

  const EndOfLineMissing := 422
  const EligibleElif := 105102

  /** Past the line of the directive that ends the skipping. */
  function EndBranch(s: string, c: nat): Skipped
    requires c <= |s|
  {
    var e := Find(s, c, '\n');
    if e == |s| then Skipped(|s|, EndOfLineMissing) else Skipped(e + 1, 0)
  }

  /** Quotes that are open while a branch is skipped; each kind ignores the other and all escapes. */
  datatype Quotes = Quotes(double: bool, single: bool)

  predicate StartsComment(s: string, c: nat) {
    c + 1 < |s| && s[c] == '/' && (s[c + 1] == '/' || s[c + 1] == '*')
  }

  /** The end of the comment at `c`. */
  function CommentEnd(s: string, c: nat): (k: nat)
    requires StartsComment(s, c)
    ensures c < k <= |s|
  {
    if s[c + 1] == '/' then
      assert s[c] != '\n';
      PastLine(s, c)
    else PastText(s, c + 2, "*/")
  }

  /** Past the two lines that `#skip` removes, its own and the next. */
  function PastTwoLines(s: string, c: nat): (k: nat)
    requires c <= |s|
    ensures c <= k <= |s|
  {
    PastLine(s, PastLine(s, c))
  }

  /** How a directive met at nesting depth `nest` moves the skipping on, from the end of its name. */
  datatype Move = On(next: nat, nest: nat) | Ends(result: Skipped)

  function SkipDirective(s: string, c: nat, d: MacroType, nest: nat, taken: bool): (m: Move)
    requires c <= |s| && 0 < nest
    ensures m.On? ==> c <= m.next <= |s|
  {
    match d
    case If | Ifndef => On(c, (nest + 1) % 0x1_0000)
    case Define => On(PastLine(s, c), nest)
    case DefineM => On(PastText(s, c, "#enddef"), nest)
    case Skip => On(PastTwoLines(s, c), nest)
    case Elif =>
      if nest != 1 then On(c, nest)
      else if taken then On(PastLine(s, c), nest)
      else Ends(Skipped(c, EligibleElif))
    case Else =>
      if nest != 1 then On(c, nest)
      else if taken then On(PastLine(s, c), nest)
      else Ends(EndBranch(s, c))
    case Endif => if nest == 1 then Ends(EndBranch(s, c)) else On(c, nest - 1)
    case _ => On(c, nest)
  }

  /** Skipping from `c` at nesting depth `nest`; `taken` is whether the branch on top was ever taken. */
  function SkipFrom(s: string, c: nat, nest: nat, q: Quotes, taken: bool): Skipped
    requires c <= |s|
    decreases |s| - c
  {
    if nest == 0 then Skipped(c, 0)
    else if c == |s| then Skipped(c, -422)
    else if s[c] == '"' then SkipFrom(s, c + 1, nest, q.(double := !q.double), taken)
    else if s[c] == '\'' then SkipFrom(s, c + 1, nest, q.(single := !q.single), taken)
    else if q.double || q.single then SkipFrom(s, c + 1, nest, q, taken)
    else if StartsComment(s, c) then SkipFrom(s, CommentEnd(s, c), nest, q, taken)
    else if s[c] == '#' then
      var e := IdentEnd(s, c + 1);
      match SkipDirective(s, e, Match(s[c..e]), nest, taken)
      case Ends(r) => r
      case On(next, n) => SkipFrom(s, next, n, q, taken)
    else SkipFrom(s, c + 1, nest, q, taken)
  }

  const NoQuotes := Quotes(false, false)

  function TopTaken(branches: seq<Branch>): bool {
    branches != [] && branches[|branches| - 1].everTaken
  }

  /** The branch is skipped; a negative result ends the run. */
  function SkipBranch(s: string, c: nat, env: Env): Effect
    requires c <= |s|
  {
    var r := SkipFrom(s, c, 1, NoQuotes, TopTaken(env.branches));
    if r.code < 0 then Halt(Code(r.code)) else Go(r.next, env)
  }

  // ---------- conditionals ----------

  /** A new branch, entered or skipped. */
  function Decide(s: string, c: nat, env: Env, passed: bool): Effect
    requires c <= |s|
  {
    var env' := env.(branches := env.branches + [Branch(passed, passed)]);
    if passed then Go(c, env') else SkipBranch(s, c, env')
  }

  /** The condition from `b` up to the line end at `e`. Stepping back over blanks can pass its start. */
  function Judge(s: string, b: nat, e: nat, macros: Macros): (Option<bool>, bool)
    requires b <= e <= |s|
  {
    var k := BackBlanks(s, e, 0);
    if k < b then (None, false) else (Eval(macros, s[b..k], |macros|), true)
  }

  function DoIf(s: string, c: nat, env: Env): Effect
    requires c <= |s|
  {
    var b := SkipBlanks(s, c);
    var e := Find(s, b, '\n');
    if e == |s| then Halt(Code(-422))
    else
      var (v, defined) := Judge(s, b, e, env.macros);
      if !defined then Halt(Undefined)
      else if v.None? then Halt(Hangs)
      else Decide(s, e + 1, env, v.value)
  }

  function DoIfndef(s: string, c: nat, env: Env): Effect
    requires c <= |s|
  {
    var b := SkipBlanks(s, c);
    var e := IdentEnd(s, b);
    var name := Trim(s[b..e]);
    Decide(s, NextLine(s, e), env, name != "" && name !in env.macros)
  }

  function SetTop(env: Env, b: Branch): Env
    requires env.branches != []
  {
    env.(branches := env.branches[|env.branches| - 1 := b])
  }

  function DoElse(s: string, c: nat, env: Env): Effect
    requires c <= |s|
  {
    if env.branches == [] then Halt(Code(-400))
    else if TopTaken(env.branches) then SkipBranch(s, NextLine(s, c), SetTop(env, Branch(false, true)))
    else Go(NextLine(s, c), SetTop(env, Branch(true, true)))
  }

  function DoElif(s: string, c: nat, env: Env): Effect
    requires c <= |s|
  {
    if env.branches == [] then Halt(Code(-400))
    else if TopTaken(env.branches) then SkipBranch(s, c, SetTop(env, Branch(false, true)))
    else
      var b := SkipBlanks(s, c);
      var e := Find(s, b, '\n');
      if e == |s| then Halt(Code(-422))
      else
        var (v, defined) := Judge(s, b, e, env.macros);
        if !defined then Halt(Undefined)
        else if v.None? then Halt(Hangs)
        else
          var env' := SetTop(env, Branch(v.value, v.value));
          if v.value then Go(e + 1, env') else SkipBranch(s, e + 1, env')
  }

  function DoEndif(s: string, c: nat, env: Env): Effect
    requires c <= |s|
  {
    if env.branches == [] then Halt(Code(-400))
    else Go(NextLine(s, c), env.(branches := env.branches[..|env.branches| - 1]))
  }

  // ---------- definitions ----------

  /** Every alias in `names`, which are separated by `&`, gets `content`. */
  function Register(macros: Macros, names: string, from: nat, content: string): Macros
    requires from <= |names|
    decreases |names| - from
  {
    if from == |names| then macros
    else
      var amp := Find(names, from, '&');
      var name := Trim(names[from..amp]);
      var m := if name == "" then macros else macros[name := content];
      if amp == |names| then m else Register(m, names, amp + 1, content)
  }

  /** End of an alias list without blanks. */
  function AliasesEnd(s: string, c: nat): (k: nat)
    requires c <= |s|
    ensures c <= k <= |s|
    decreases |s| - c
  {
    if c < |s| && s[c] == '&' then AliasesEnd(s, IdentEnd(s, c + 1)) else c
  }

  predicate Continues(line: string) { Contains(line, "__/__") || Contains(line, "__ / __") }

  /** Where a definition's text ends, before trimming, and where reading goes on. */
  datatype Body = Body(end: nat, next: nat)

  /** Lines with a continuation mark are joined; if the text runs out after one, nothing is kept. */
  function BodyFrom(s: string, c: nat, start: nat): (b: Body)
    requires start <= c <= |s|
    ensures start <= b.end <= b.next <= |s| && c <= b.next
    decreases |s| - c
  {
    if c == |s| then Body(start, c)
    else
      var e := Find(s, c, '\n');
      if e < |s| && Continues(s[c..e]) then BodyFrom(s, e + 1, start)
      else Body(e, if e < |s| then e + 1 else e)
  }

  function DoDefine(s: string, c: nat, env: Env): Effect
    requires c <= |s|
  {
    var n := SkipBlanks(s, c);
    var e := AliasesEnd(s, IdentEnd(s, n));
    var v := SkipBlanks(s, e);
    var b := BodyFrom(s, v, v);
    var content := s[v..BackBlanks(s, b.end, v)];
    Go(b.next, env.(macros := Register(env.macros, s[n..e], 0, content)))
  }

  /** End of an alias list with blanks around the separators. */
  function SpacedAliasesEnd(s: string, c: nat): (k: nat)
    requires c <= |s|
    ensures c <= k <= |s|
    decreases |s| - c
  {
    if c == |s| then c
    else
      var e := SkipBlanks(s, IdentEnd(s, c));
      if e < |s| && s[e] == '&' then SpacedAliasesEnd(s, SkipBlanks(s, e + 1)) else e
  }

  function DoDefineM(s: string, c: nat, env: Env): Effect
    requires c <= |s|
  {
    var n := SkipBlanks(s, c);
    var e := SpacedAliasesEnd(s, n);
    var f := FindText(s, e, "#enddef");
    if f == |s| then Halt(Code(-3))
    else Go(NextLine(s, f + 7), env.(macros := Register(env.macros, s[n..e], 0, s[e..f])))
  }

  // ---------- the other directives ----------

  type Disk = map<string, string>

  /** What is read from a path: nothing when the file is missing. */
  function Load(disk: Disk, path: string): string {
    if path in disk then disk[path] else ""
  }

  function DoInclude(disk: Disk, s: string, c: nat, env: Env): Effect
    requires c <= |s|
  {
    var b := SkipBlanks(s, c);
    if b == |s| || (s[b] != '"' && s[b] != '<') then Halt(Code(-1))
    else
      var e := Find(s, b + 1, if s[b] == '"' then '"' else '>');
      if e == |s| then Halt(Code(-1))
      else
        var text := Load(disk, CString(s[b + 1..e]));
        if text == "" then Halt(Code(-2)) else Enter(NextLine(s, e + 1), env, text)
  }

  /** The closing parenthesis of a type; depth is kept in 16 bits, and a line end is an error. */
  function TypeEnd(s: string, c: nat, depth: nat): (k: Option<nat>)
    requires c <= |s|
    ensures k.Some? ==> c <= k.value <= |s|
    decreases |s| - c
  {
    if depth == 0 then Some(c)
    else if c == |s| then None
    else if s[c] == '(' then TypeEnd(s, c + 1, (depth + 1) % 0x1_0000)
    else if s[c] == ')' then if depth == 1 then Some(c) else TypeEnd(s, c + 1, depth - 1)
    else if s[c] == '\n' then None
    else TypeEnd(s, c + 1, depth)
  }

  /** The constant declaration that `#param` writes. */
  function ParamText(typ: string, name: string, value: string): string {
    "constexpr (" + typ + ") " + name + " = static_cast<" + typ + ">(" + value + ");\n"
  }

  /** A defined name is used up and lends its value; otherwise the default stands. */
  function ParamValue(macros: Macros, name: string, fallback: string): string {
    if name !in macros then fallback else if macros[name] == "" then "1" else Trim(macros[name])
  }

  /** `#param (type) name = default`. A type can only end at the end of the text after 2^16 parentheses. */
  function DoParam(s: string, c: nat, env: Env): Effect
    requires c <= |s|
  {
    var b := SkipBlanks(s, c);
    if b == |s| || s[b] != '(' then Halt(Code(-400)) else ParamTyped(s, b + 1, env)
  }

  function ParamTyped(s: string, c: nat, env: Env): Effect
    requires c <= |s|
  {
    var k := TypeEnd(s, c, 1);
    if k.None? || Trim(s[c..k.value]) == "" then Halt(Code(-400))
    else if k.value == |s| then Halt(Undefined)
    else ParamRest(s, k.value + 1, Trim(s[c..k.value]), env)
  }

  function ParamRest(s: string, c: nat, typ: string, env: Env): Effect
    requires c <= |s|
  {
    var n := SkipBlanks(s, c);
    var e := IdentEnd(s, n);
    var name := Trim(s[n..e]);
    var q := SkipBlanks(s, e);
    if name == "" || q == |s| || s[q] != '=' then Halt(Code(-400)) else ParamDefault(s, q + 1, typ, name, env)
  }

  function ParamDefault(s: string, c: nat, typ: string, name: string, env: Env): Effect
    requires c <= |s|
  {
    var d := SkipBlanks(s, c);
    var l := Find(s, d, '\n');
    var value := ParamValue(env.macros, name, Trim(s[d..l]));
    Go(if l < |s| then l + 1 else l,
       env.(macros := env.macros - {name}, out := env.out + ParamText(typ, name, value)))
  }

  function Directive(disk: Disk, s: string, c: nat, d: MacroType, env: Env): Effect
    requires c <= |s|
  {
    match d
    case UnknownDirective => Halt(Code(-404))
    case Define => DoDefine(s, c, env)
    case DefineM => DoDefineM(s, c, env)
    case Include | Import => DoInclude(disk, s, c, env)
    case If => DoIf(s, c, env)
    case Ifndef => DoIfndef(s, c, env)
    case Else => DoElse(s, c, env)
    case Elif => DoElif(s, c, env)
    case Endif => DoEndif(s, c, env)
    case Enddef => Halt(Code(-1))
    case Skip => Go(PastTwoLines(s, c), env)
    case Param => DoParam(s, c, env)
  }

  // ---------- one round of the main loop ----------

  /** Past the literal whose contents start at `c`; an unclosed one runs to the end of the text. */
  function LiteralEnd(s: string, c: nat, quote: char): (k: nat)
    requires c <= |s|
    ensures c <= k <= |s|
    decreases |s| - c
  {
    if c == |s| then c
    else if s[c] == '\\' && c + 1 < |s| then LiteralEnd(s, c + 2, quote)
    else if s[c] == quote then c + 1
    else LiteralEnd(s, c + 1, quote)
  }

  predicate IsQuote(c: char) { c == '"' || c == '\'' }

  /** A word is replaced by its macro's text, which is not looked at again. */
  function Replaced(macros: Macros, word: string): string {
    if word in macros then macros[word] else word
  }

  function Emit(env: Env, text: string): Env { env.(out := env.out + text) }

  function Step(disk: Disk, s: string, c: nat, env: Env): Effect
    requires c < |s|
  {
    if StartsComment(s, c) then Go(CommentEnd(s, c), Emit(env, s[c..CommentEnd(s, c)]))
    else if IsQuote(s[c]) then
      var e := LiteralEnd(s, c + 1, s[c]);
      Go(e, Emit(env, s[c..e]))
    else if s[c] == '#' then
      var e := IdentEnd(s, c + 1);
      Directive(disk, s, e, Match(s[c..e]), env)
    else if IsIdent(s[c]) then
      var e := IdentEnd(s, c);
      Go(e, Emit(env, Replaced(env.macros, s[c..e])))
    else Go(c + 1, Emit(env, [s[c]]))
  }

  // ---------- every round moves on ----------

  lemma {:induction false} SkipFromBounds(s: string, c: nat, nest: nat, q: Quotes, taken: bool)
    requires c <= |s|
    ensures c <= SkipFrom(s, c, nest, q, taken).next <= |s|
    decreases |s| - c
  {
    if nest != 0 && c < |s| {
      if s[c] == '"' { SkipFromBounds(s, c + 1, nest, q.(double := !q.double), taken); }
      else if s[c] == '\'' { SkipFromBounds(s, c + 1, nest, q.(single := !q.single), taken); }
      else if q.double || q.single { SkipFromBounds(s, c + 1, nest, q, taken); }
      else if StartsComment(s, c) { SkipFromBounds(s, CommentEnd(s, c), nest, q, taken); }
      else if s[c] == '#' {
        var e := IdentEnd(s, c + 1);
        var m := SkipDirective(s, e, Match(s[c..e]), nest, taken);
        if m.On? { SkipFromBounds(s, m.next, m.nest, q, taken); }
      }
      else { SkipFromBounds(s, c + 1, nest, q, taken); }
    }
  }

  /** `f` leaves off at `c` or later, inside the text. */
  predicate Onward(f: Effect, s: string, c: nat) { f.Halt? || c <= f.next <= |s| }

  lemma SkipBranchOnward(s: string, c: nat, env: Env)
    requires c <= |s|
    ensures Onward(SkipBranch(s, c, env), s, c)
  {
    hide SkipFrom;
    SkipFromBounds(s, c, 1, NoQuotes, TopTaken(env.branches));
  }

  lemma DecideOnward(s: string, c: nat, env: Env, passed: bool)
    requires c <= |s|
    ensures Onward(Decide(s, c, env, passed), s, c)
  {
    hide SkipBranch;
    SkipBranchOnward(s, c, env.(branches := env.branches + [Branch(passed, passed)]));
  }

  lemma ConditionalOnward(s: string, c: nat, env: Env)
    requires c <= |s|
    ensures Onward(DoIf(s, c, env), s, c) && Onward(DoIfndef(s, c, env), s, c)
    ensures Onward(DoElse(s, c, env), s, c) && Onward(DoElif(s, c, env), s, c)
  {
    hide SkipBranch, Decide, Judge;
    var b := SkipBlanks(s, c);
    var e := Find(s, b, '\n');
    if e < |s| {
      var (v, _) := Judge(s, b, e, env.macros);
      if v.Some? { DecideOnward(s, e + 1, env, v.value); }
      if env.branches != [] { SkipBranchOnward(s, e + 1, SetTop(env, Branch(false, false))); }
    }
    var w := IdentEnd(s, b);
    DecideOnward(s, NextLine(s, w), env, Trim(s[b..w]) != "" && Trim(s[b..w]) !in env.macros);
    if env.branches != [] {
      SkipBranchOnward(s, NextLine(s, c), SetTop(env, Branch(false, true)));
      SkipBranchOnward(s, c, SetTop(env, Branch(false, true)));
    }
  }

  lemma DirectiveOnward(disk: Disk, s: string, c: nat, d: MacroType, env: Env)
    requires c <= |s|
    ensures Onward(Directive(disk, s, c, d, env), s, c)
  {
    hide DoIf, DoIfndef, DoElse, DoElif, DoParam, Register;
    ConditionalOnward(s, c, env);
    ParamOnward(s, c, env);
  }

  lemma ParamOnward(s: string, c: nat, env: Env)
    requires c <= |s|
    ensures Onward(DoParam(s, c, env), s, c)
  {}

  /** Each round reads at least one character. */
  lemma StepOnward(disk: Disk, s: string, c: nat, env: Env)
    requires c < |s|
    ensures Onward(Step(disk, s, c, env), s, c + 1)
  {
    hide Directive, Match;
    if s[c] == '#' && !StartsComment(s, c) {
      var e := IdentEnd(s, c + 1);
      DirectiveOnward(disk, s, e, Match(s[c..e]), env);
    } else if IsIdent(s[c]) && !StartsComment(s, c) && !IsQuote(s[c]) {
      assert IdentEnd(s, c) == IdentEnd(s, c + 1);
    }
  }
}
