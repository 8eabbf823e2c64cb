/** When a run ends without a code: a condition steps back past its start, or follows macros in a circle. */
module Halts {
  import opened Tokens
  import opened Texts
  import opened Conditions
  import opened Directives
  import opened Expansion
  import opened Substitution
  import opened Branches
  import opened Selection
  import opened Guards
  import opened Definitions

  // ---------- one round ----------

  /** The directive has a condition and looks at it. */
  predicate Asks(d: MacroType, env: Env) { d.If? || (d.Elif? && env.branches != [] && !TopTaken(env.branches)) }

  /** Blanks, at least one, and nothing else up to the line end. */
  predicate BlankLine(s: string, c: nat)
    requires c <= |s|
  {
    var b := SkipBlanks(s, c);
    c < b < |s| && s[b] == '\n'
  }

  predicate HasLineEnd(s: string, c: nat)
    requires c <= |s|
  {
    Find(s, SkipBlanks(s, c), '\n') < |s|
  }

  /** The rest of the line without the blanks around it. */
  function Condensed(s: string, c: nat): string
    requires c <= |s|
  {
    var b := SkipBlanks(s, c);
    s[b..BackBlanks(s, Find(s, b, '\n'), b)]
  }

  /** The type of a `#param` is not blank and closes only at the end of the text, which takes 2^16 parentheses. */
  predicate EndlessType(s: string, c: nat)
    requires c <= |s|
  {
    var b := SkipBlanks(s, c);
    b < |s| && s[b] == '(' && TypeEnd(s, b + 1, 1) == Some(|s|) && Trim(s[b + 1..]) != ""
  }

  /** The rest of the directive `d`, from the end of its name on, makes the program misbehave. */
  predicate Misread(s: string, c: nat, d: MacroType, env: Env)
    requires c <= |s|
  {
    (Asks(d, env) && BlankLine(s, c)) || (d.Param? && EndlessType(s, c))
  }

  /** The condition of the directive is there and leads round a circle of macros. */
  ghost predicate Circles(s: string, c: nat, d: MacroType, env: Env)
    requires c <= |s|
  {
    Asks(d, env) && !BlankLine(s, c) && HasLineEnd(s, c) && Cyclic(env.macros, Condensed(s, c))
  }

  lemma Stepping(s: string, c: nat)
    requires 0 < c <= |s| && !IsBlank(s[c - 1]) && HasLineEnd(s, c)
    ensures var b := SkipBlanks(s, c); var e := Find(s, b, '\n'); var k := BackBlanks(s, e, 0);
      (k < b <==> BlankLine(s, c)) && (b <= k ==> s[b..k] == Condensed(s, c))
  {
    var b := SkipBlanks(s, c);
    var e := Find(s, b, '\n');
    var k := BackBlanks(s, e, 0);
    if b <= k { SameBack(s, e, b); }
  }

  lemma {:induction false} SameBack(s: string, e: nat, low: nat)
    requires e <= |s| && low <= BackBlanks(s, e, 0)
    ensures BackBlanks(s, e, low) == BackBlanks(s, e, 0)
    decreases e
  {
    if e > low && IsBlank(s[e - 1]) { SameBack(s, e - 1, low); }
  }

  /** What `Judge` says of the condition after a directive's name. */
  lemma JudgeIs(s: string, c: nat, macros: Macros)
    requires 0 < c <= |s| && !IsBlank(s[c - 1]) && HasLineEnd(s, c)
    ensures var b := SkipBlanks(s, c);
      Judge(s, b, Find(s, b, '\n'), macros) ==
        if BlankLine(s, c) then (None, false) else (Eval(macros, Condensed(s, c), |macros|), true)
  {
    hide Eval, BlankLine, Condensed;
    Stepping(s, c);
  }

  lemma NoLineEnd(s: string, c: nat)
    requires c <= |s| && !HasLineEnd(s, c)
    ensures !BlankLine(s, c)
  {}

  /** A directive that asks for a condition, by what its line holds. */
  lemma AskingCases(s: string, c: nat, d: MacroType, env: Env, disk: Disk)
    requires 0 < c <= |s| && !IsBlank(s[c - 1]) && Asks(d, env)
    ensures var f := Directive(disk, s, c, d, env);
      && (f == Halt(Undefined) <==> BlankLine(s, c))
      && (f == Halt(Hangs) <==> !BlankLine(s, c) && HasLineEnd(s, c) && Eval(env.macros, Condensed(s, c), |env.macros|).None?)
  {
    hide Eval, BlankLine, Condensed, SkipFrom, TopTaken;
    if HasLineEnd(s, c) { JudgeIs(s, c, env.macros); } else { NoLineEnd(s, c); }
  }

  /** The other directives end with a code or go on, but for one form of `#param`. */
  lemma OtherCases(s: string, c: nat, d: MacroType, env: Env, disk: Disk)
    requires c <= |s| && !Asks(d, env)
    ensures var f := Directive(disk, s, c, d, env);
      f != Halt(Hangs) && (f == Halt(Undefined) <==> d.Param? && EndlessType(s, c))
  {
    hide Register, SkipFrom, BodyFrom, TypeEnd, Trim;
    if d.Param? { ParamCases(s, c, env); }
  }

  lemma ParamCases(s: string, c: nat, env: Env)
    requires c <= |s|
    ensures DoParam(s, c, env) != Halt(Hangs) && (DoParam(s, c, env) == Halt(Undefined) <==> EndlessType(s, c))
  {
    hide TypeEnd, Trim;
    var b := SkipBlanks(s, c);
    if b < |s| { assert s[b + 1..|s|] == s[b + 1..]; }
  }

  /** A directive stops the run without a code exactly in these two cases. */
  lemma DirectiveHalts(disk: Disk, s: string, c: nat, d: MacroType, env: Env)
    requires 0 < c <= |s| && !IsBlank(s[c - 1])
    ensures Directive(disk, s, c, d, env) == Halt(Undefined) <==> Misread(s, c, d, env)
    ensures Directive(disk, s, c, d, env) == Halt(Hangs) <==> Circles(s, c, d, env)
  {
    hide Directive, Eval, BlankLine, EndlessType, Condensed, Cyclic, HasLineEnd;
    EvalEnds(env.macros, Condensed(s, c), 0);
    if Asks(d, env) { AskingCases(s, c, d, env, disk); } else { OtherCases(s, c, d, env, disk); }
  }

  /** A `#` stands at `c` and the directive there is misread. */
  predicate MisreadAt(s: string, c: nat, env: Env)
    requires c < |s|
  {
    s[c] == '#' && Misread(s, IdentEnd(s, c + 1), Match(s[c..IdentEnd(s, c + 1)]), env)
  }

  ghost predicate CirclesAt(s: string, c: nat, env: Env)
    requires c < |s|
  {
    s[c] == '#' && Circles(s, IdentEnd(s, c + 1), Match(s[c..IdentEnd(s, c + 1)]), env)
  }

  /** One round stops without a code exactly at such a directive. */
  lemma StepHalts(disk: Disk, s: string, c: nat, env: Env)
    requires c < |s|
    ensures Step(disk, s, c, env) == Halt(Undefined) <==> MisreadAt(s, c, env)
    ensures Step(disk, s, c, env) == Halt(Hangs) <==> CirclesAt(s, c, env)
  {
    hide Directive, Match, Misread, Circles;
    if s[c] == '#' {
      var e := IdentEnd(s, c + 1);
      DirectiveHalts(disk, s, e, Match(s[c..e]), env);
    }
  }

  // ---------- a whole run ----------

  /** Where the stack machine is after `n` rounds. */
  function After(disk: Disk, stack: seq<Frame>, env: Env, budget: nat, n: nat): Next
    decreases n
  {
    if n == 0 then Next(stack, env, budget)
    else if stack == [] then Over(Done(env, budget))
    else
      match Round(disk, stack, env, budget)
      case Over(r) => Over(r)
      case Next(st, e, b) => After(disk, st, e, b, n - 1)
  }

  /** There is text left to read. */
  predicate Reads(n: Next) {
    n.Next? && n.stack != [] && var top: Frame := n.stack[|n.stack| - 1]; top.cursor < |top.text|
  }

  predicate HaltsAt(disk: Disk, n: Next, why: Stop) {
    Reads(n) && var top: Frame := n.stack[|n.stack| - 1]; Step(disk, top.text, top.cursor, n.env) == Halt(why)
  }

  /** A run that stops reaches a round that stops it. */
  lemma {:induction false} RunReaches(disk: Disk, stack: seq<Frame>, env: Env, budget: nat) returns (n: nat)
    requires Run(disk, stack, env, budget).Stopped?
    ensures HaltsAt(disk, After(disk, stack, env, budget, n), Run(disk, stack, env, budget).why)
    decreases budget, Unread(stack)
  {
    hide Step, Unread, Resumed;
    RoundDescends(disk, stack, env, budget);
    match Round(disk, stack, env, budget)
    case Over(r) => n := 0;
    case Next(st, e, b) =>
      n := RunReaches(disk, st, e, b);
      n := n + 1;
  }

  /** A round that stops ends the run, with the output so far. */
  lemma {:induction false} RoundStops(disk: Disk, stack: seq<Frame>, env: Env, budget: nat, n: nat, why: Stop)
    requires HaltsAt(disk, After(disk, stack, env, budget, n), why)
    ensures Run(disk, stack, env, budget) == Stopped(why, After(disk, stack, env, budget, n).env.out)
    decreases n
  {
    hide Step, Resumed;
    if n > 0 {
      var next := Round(disk, stack, env, budget);
      RoundStops(disk, next.stack, next.env, next.budget, n - 1, why);
    }
  }

  /** In the middle of a run, the directive to be read next is misread. */
  predicate AtMisread(n: Next) {
    Reads(n) && var top: Frame := n.stack[|n.stack| - 1]; MisreadAt(top.text, top.cursor, n.env)
  }

  ghost predicate AtCircle(n: Next) {
    Reads(n) && var top: Frame := n.stack[|n.stack| - 1]; CirclesAt(top.text, top.cursor, n.env)
  }

  /**
   A run is undefined exactly when it comes to a blank condition set off by a blank, or to a
   `#param` whose type never closes; and it hangs exactly when it comes to a condition that
   follows macros in a circle.
   */
  lemma RunHalts(disk: Disk, s: string, env: Env, budget: nat)
    ensures var r := Expand(disk, s, 0, env, budget);
      && (r.Stopped? && r.why == Undefined <==> exists n: nat :: AtMisread(After(disk, [Frame(s, 0)], env, budget, n)))
      && (r.Stopped? && r.why == Hangs <==> exists n: nat :: AtCircle(After(disk, [Frame(s, 0)], env, budget, n)))
  {
    hide Expand, Run, Step, After, AtMisread, AtCircle, HaltsAt;
    var start: seq<Frame> := [Frame(s, 0)];
    RunIsExpand(disk, s, env, budget);
    if Run(disk, start, env, budget).Stopped? {
      var n := RunReaches(disk, start, env, budget);
      SameHalts(disk, After(disk, start, env, budget, n));
    }
    forall n: nat | AtMisread(After(disk, start, env, budget, n))
      ensures Run(disk, start, env, budget).Stopped? && Run(disk, start, env, budget).why == Undefined
    {
      SameHalts(disk, After(disk, start, env, budget, n));
      RoundStops(disk, start, env, budget, n, Undefined);
    }
    forall n: nat | AtCircle(After(disk, start, env, budget, n))
      ensures Run(disk, start, env, budget).Stopped? && Run(disk, start, env, budget).why == Hangs
    {
      SameHalts(disk, After(disk, start, env, budget, n));
      RoundStops(disk, start, env, budget, n, Hangs);
    }
  }

  lemma SameHalts(disk: Disk, n: Next)
    ensures HaltsAt(disk, n, Undefined) <==> AtMisread(n)
    ensures HaltsAt(disk, n, Hangs) <==> AtCircle(n)
  {
    hide Step, MisreadAt, CirclesAt;
    if Reads(n) {
      var top: Frame := n.stack[|n.stack| - 1];
      StepHalts(disk, top.text, top.cursor, n.env);
    }
  }

  // ---------- the two, at their smallest ----------

  /** The program steps back into the name of the directive. */
  lemma BlankCondition(disk: Disk, env: Env, budget: nat)
    ensures Expand(disk, "#if \n", 0, env, budget) == Stopped(Undefined, env.out)
  {
    hide Step, Misread;
    var s := "#if \n";
    assert SkipBlanks(s, 3) == 4;
    assert IdentEnd(s, 1) == 3 by { assert IdentEnd(s, 2) == IdentEnd(s, 3) == 3; }
    assert s[0..3] == "#if";
    IsMisread(s, 3, env);
    StepHalts(disk, s, 0, env);
  }

  lemma IsMisread(s: string, c: nat, env: Env)
    requires c <= |s| && BlankLine(s, c)
    ensures Misread(s, c, If, env)
  {}

  /** Two macros that stand for each other. */
  lemma CircleOfTwo(macros: Macros)
    requires macros == map["A" := "B", "B" := "A"]
    ensures Cyclic(macros, "A")
  {
    Follows(macros, "A", "B");
    Follows(macros, "B", "A");
    hide LookAt, Trim;
    assert Reached(macros, "A", 0) == Some("A");
    assert Reached(macros, "A", 1) == Some("B");
    assert Reached(macros, "A", 2) == Some("A");
    TrimFixed("A");
    assert NameAt(macros, "A", 0) == Some("A") == NameAt(macros, "A", 2);
  }

  lemma Follows(macros: Macros, a: string, b: string)
    requires (a == "A" || a == "B") && a in macros && macros[a] == b && b != ""
    ensures LookAt(macros, a) == Follow(b)
  {
    TrimFixed(a);
    OneCharacter(a, "==");
    OneCharacter(a, "!=");
  }

  lemma OneCharacter(t: string, pat: string)
    requires |t| == 1 && |pat| == 2
    ensures !Contains(t, pat)
  {}

  /** The program never comes back from the condition. */
  lemma MacroCircle(disk: Disk, budget: nat)
    ensures Expand(disk, "#define A B\n#define B A\n#if A\n", 0, Env(map[], [], ""), budget) == Stopped(Hangs, "")
  {
    hide Step, Expand, Circles, DefineText, Eval, Cyclic, Match, Occurs;
    var s, env := "#define A B\n#define B A\n#if A\n", Env(map[], [], "");
    var e1, e2 := env.(macros := map["A" := "B"]), env.(macros := map["A" := "B", "B" := "A"]);
    TwoDefinitions();
    DefineOne(disk, s, 0, "A", "B", env);
    ExpandGo(disk, s, 0, env, budget, 12, e1);
    DefineOne(disk, s, 12, "B", "A", e1);
    ExpandGo(disk, s, 12, e1, budget, 24, e2);
    assert s[24] == '#';
    AsksForA(s, e2);
    StepHalts(disk, s, 24, e2);
    ExpandStops(disk, s, 24, e2, budget, Hangs);
  }

  lemma TwoDefinitions()
    ensures var s := "#define A B\n#define B A\n#if A\n";
      s[0..12] == "#define " + "A" + " " + "B" + "\n" && s[12..24] == "#define " + "B" + " " + "A" + "\n"
  {}

  lemma ExpandStops(disk: Disk, s: string, c: nat, env: Env, budget: nat, why: Stop)
    requires c < |s| && Step(disk, s, c, env) == Halt(why)
    ensures Expand(disk, s, c, env, budget) == Stopped(why, env.out)
  {
    hide Step;
  }

  lemma DefineOne(disk: Disk, s: string, c: nat, a: string, b: string, env: Env)
    requires (a == "A" || a == "B") && (b == "A" || b == "B") && c + 12 <= |s|
    requires s[c..c + 12] == "#define " + a + " " + b + "\n"
    ensures Step(disk, s, c, env) == Go(c + 12, env.(macros := env.macros[a := b]))
  {
    hide Step, Occurs;
    assert DefineText([a], b) == " " + (a + (" " + b + "\n"));
    assert "#define" + DefineText([a], b) == "#define " + a + " " + b + "\n";
    IsOccurring(s, c, "#define" + DefineText([a], b));
    ValueIsOk(b);
    DefineAllStep(disk, s, c, [a], b, env);
    assert WithAll(env.macros[a := b], [], b) == env.macros[a := b];
    assert [a][1..] == [];
  }

  lemma IsOccurring(s: string, c: nat, t: string)
    requires c + |t| <= |s| && s[c..c + |t|] == t
    ensures Occurs(s, c, t)
  {}

  lemma ValueIsOk(b: string)
    requires b == "A" || b == "B"
    ensures ValueOk(b) && GuardOk(b)
  {
    assert !Carries(b) by { assert |b| == 1; }
  }

  lemma AsksForA(s: string, env: Env)
    requires s == "#define A B\n#define B A\n#if A\n" && env.macros == map["A" := "B", "B" := "A"]
    ensures CirclesAt(s, 24, env)
  {
    hide Cyclic;
    CircleOfTwo(env.macros);
    assert s[24..27] == "#if";
    assert IdentEnd(s, 27) == 27;
    assert IdentEnd(s, 26) == 27;
    assert IdentEnd(s, 25) == 27;
    assert SkipBlanks(s, 28) == 28;
    assert SkipBlanks(s, 27) == 28;
    assert Find(s, 29, '\n') == 29;
    assert Find(s, 28, '\n') == 29;
    assert BackBlanks(s, 29, 28) == 29;
    assert s[28..29] == "A";
  }
}
