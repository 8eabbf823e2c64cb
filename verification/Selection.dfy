/** A plain `#if` with an `#else`: one side comes out, the other leaves no trace. */
module Selection {
  import opened Tokens
  import opened Texts
  import opened Conditions
  import opened Directives
  import opened Expansion
  import opened Substitution
  import opened Branches

  /** Text of whole lines without quotes, directives or comments. */
  predicate Lines(t: string) { QuietText(t) && (t != "" ==> t[|t| - 1] == '\n') }

  function AsLines(t: string): seq<Line> {
    if t == "" then [] else [Ordinary(t[..|t| - 1])]
  }

  lemma LinesWritten(t: string)
    requires Lines(t)
    ensures WriteAll(AsLines(t)) == t && (forall l :: l in AsLines(t) ==> Clear(l))
    ensures forall nest: nat, taken :: Depth(AsLines(t), nest, taken) == Some(nest)
  {
    if t != "" {
      assert t == t[..|t| - 1] + "\n";
      assert AsLines(t)[1..] == [];
      assert WriteAll([]) == "";
      forall nest: nat, taken ensures Depth(AsLines(t), nest, taken) == Some(nest) {
        assert Depth([], nest, taken) == Some(nest);
      }
    }
  }

  /** The text of an `#if`-`#else`-`#endif`; `cond`, `x` and `y` are the rests of its three lines. */
  function Flat(cond: string, a: string, x: string, b: string, y: string): string {
    Write(Command("#if", cond)) + (a + (Write(Command("#else", x)) + (b + Write(Command("#endif", y)))))
  }

  /** A condition on one line, set off from the name and not only blanks. */
  predicate Condition(cond: string) {
    && cond != "" && !IsIdent(cond[0]) && (forall k :: 0 <= k < |cond| ==> cond[k] != '\n')
    && exists k :: 0 <= k < |cond| && !IsBlank(cond[k])
  }

  /** Blanks around a condition make no difference. */
  lemma {:induction false} TrimLeftBlanks(t: string, b: nat)
    requires b <= |t| && forall k :: 0 <= k < b ==> IsBlank(t[k])
    ensures TrimLeft(t) == TrimLeft(t[b..])
    decreases b
  {
    if b > 0 {
      TrimLeftBlanks(t[1..], b - 1);
      assert t[1..][b - 1..] == t[b..];
    } else {
      assert t[0..] == t;
    }
  }

  lemma {:induction false} TrimRightBlanks(t: string, e: nat)
    requires e <= |t| && forall k :: e <= k < |t| ==> IsBlank(t[k])
    ensures TrimRight(t) == TrimRight(t[..e])
    decreases |t|
  {
    if e < |t| {
      TrimRightBlanks(t[..|t| - 1], e);
      assert t[..|t| - 1][..e] == t[..e];
    } else {
      assert t[..e] == t;
    }
  }

  lemma TrimInner(t: string, b: nat, e: nat)
    requires b < e <= |t| && !IsSpace(t[b])
    requires (forall k :: 0 <= k < b ==> IsBlank(t[k])) && (forall k :: e <= k < |t| ==> IsBlank(t[k]))
    ensures Trim(t[b..e]) == Trim(t)
  {
    TrimLeftBlanks(t, b);
    TrimRightBlanks(t[b..], e - b);
    assert t[b..][..e - b] == t[b..e];
    assert TrimLeft(t[b..]) == t[b..] && TrimLeft(t[b..e]) == t[b..e];
  }

  lemma EvalTrims(macros: Macros, t: string, u: string, depth: nat)
    requires Trim(t) == Trim(u)
    ensures Eval(macros, t, depth) == Eval(macros, u, depth)
  {}

  lemma LineChars(s: string, c: nat, cond: string)
    requires Occurs(s, c, cond + "\n")
    ensures c + |cond| < |s| && s[c + |cond|] == '\n' && forall k :: 0 <= k < |cond| ==> s[c + k] == cond[k]
  {
    var t := cond + "\n";
    forall k | 0 <= k < |t| ensures s[c + k] == t[k] { OccursAt(s, c, t, k); }
  }

  lemma SameSlice(s: string, c: nat, t: string, b: nat, e: nat)
    requires c + |t| <= |s| && (forall k :: 0 <= k < |t| ==> s[c + k] == t[k]) && c <= b <= e <= c + |t|
    ensures s[b..e] == t[b - c..e - c]
  {
    var x, y := s[b..e], t[b - c..e - c];
    forall j | 0 <= j < |x| ensures x[j] == y[j] { assert x[j] == s[c + (b - c + j)]; }
  }

  /** Where the condition starts and ends once the blanks around it are left out. */
  lemma BlanksSkipped(s: string, c: nat, cond: string)
    requires Condition(cond) && Occurs(s, c, cond + "\n")
    ensures var b := SkipBlanks(s, c); var e := c + |cond|; var r := BackBlanks(s, e, 0);
      && e < |s| && Find(s, b, '\n') == e && c <= b < r <= e && !IsSpace(cond[b - c])
      && s[b..r] == cond[b - c..r - c]
      && (forall k :: 0 <= k < b - c ==> IsBlank(cond[k])) && (forall k :: r - c <= k < |cond| ==> IsBlank(cond[k]))
  {
    hide Occurs, IsIdent;
    LineChars(s, c, cond);
    var b, e := SkipBlanks(s, c), c + |cond|;
    var k :| 0 <= k < |cond| && !IsBlank(cond[k]);
    assert s[c + k] == cond[k];
    assert b <= c + k;
    forall j | b <= j < e ensures s[j] != '\n' { assert s[c + (j - c)] == cond[j - c]; }
    FoundAt(s, b, '\n', e);
    var r := BackBlanks(s, e, 0);
    assert c + k < r;
    SameSlice(s, c, cond, b, r);
    forall j | 0 <= j < b - c ensures IsBlank(cond[j]) { assert s[c + j] == cond[j]; }
    forall j | r - c <= j < |cond| ensures IsBlank(cond[j]) { assert s[c + j] == cond[j]; }
    assert s[c + (b - c)] == cond[b - c];
  }

  lemma Judged(s: string, b: nat, e: nat, macros: Macros)
    requires b < e <= |s| && b < BackBlanks(s, e, 0)
    ensures Judge(s, b, e, macros) == (Eval(macros, s[b..BackBlanks(s, e, 0)], |macros|), true)
  {
    hide Eval;
  }

  /** The condition is found up to its line end and evaluated without the blanks around it. */
  lemma JudgesLine(s: string, c: nat, cond: string, macros: Macros, v: bool)
    requires Condition(cond) && Occurs(s, c, cond + "\n") && Eval(macros, cond, |macros|) == Some(v)
    ensures c + |cond| < |s| && Find(s, SkipBlanks(s, c), '\n') == c + |cond|
    ensures Judge(s, SkipBlanks(s, c), c + |cond|, macros) == (Some(v), true)
  {
    hide Eval, Occurs, Trim, Judge, Condition, IsSpace, IsBlank, SkipBlanks, BackBlanks, Find;
    BlanksSkipped(s, c, cond);
    var b, e := SkipBlanks(s, c), c + |cond|;
    var r := BackBlanks(s, e, 0);
    TrimInner(cond, b - c, r - c);
    EvalTrims(macros, s[b..r], cond, |macros|);
    Judged(s, b, e, macros);
  }

  lemma DoesIf(s: string, c: nat, cond: string, env: Env, v: bool)
    requires Condition(cond) && Occurs(s, c, cond + "\n") && Eval(env.macros, cond, |env.macros|) == Some(v)
    ensures c + |cond| < |s| && DoIf(s, c, env) == Decide(s, c + |cond| + 1, env, v)
  {
    hide Decide, Eval, Occurs, Judge, Condition, SkipBlanks, Find;
    JudgesLine(s, c, cond, env.macros, v);
  }

  lemma DecidesIf(disk: Disk, s: string, c: nat, cond: string, env: Env, v: bool)
    requires Condition(cond) && Occurs(s, c, Write(Command("#if", cond))) && Eval(env.macros, cond, |env.macros|) == Some(v)
    ensures c + |Write(Command("#if", cond))| <= |s|
    ensures Step(disk, s, c, env) == Decide(s, c + |Write(Command("#if", cond))|, env, v)
  {
    hide Decide, Eval, DoIf, SkipBlanks, Condition, BackBlanks, Occurs, Write, Step, Directive, Match, IsName, IsIdent, IdentEnd;
    IfWritten(cond);
    OccursParts(s, c, "#if", cond + "\n");
    OccursAt(s, c, "#if", 0);
    LineChars(s, c + 3, cond);
    FirstIsNoName(cond);
    NameFound(s, c, "#if");
    DoesIf(s, c + 3, cond, env, v);
    IfDoes(disk, s, c + 3, env);
    StepDirective(disk, s, c, "#if", env);
  }

  lemma IfWritten(cond: string)
    ensures Write(Command("#if", cond)) == "#if" + (cond + "\n") && |Write(Command("#if", cond))| == 3 + |cond| + 1
    ensures IsName("#if") && Match("#if") == If
  {}

  lemma IfDoes(disk: Disk, s: string, c: nat, env: Env)
    requires c <= |s|
    ensures Directive(disk, s, c, If, env) == DoIf(s, c, env)
  {
    hide DoIf;
  }

  lemma FirstIsNoName(cond: string)
    requires Condition(cond)
    ensures cond != "" && !IsIdent(cond[0])
  {}

  lemma StepDirective(disk: Disk, s: string, c: nat, n: string, env: Env)
    requires c < |s| && s[c] == '#' && s[c..IdentEnd(s, c + 1)] == n
    ensures Step(disk, s, c, env) == Directive(disk, s, IdentEnd(s, c + 1), Match(n), env)
  {
    hide Directive, Match;
  }

  // ---------- the whole construct ----------

  lemma ElseStep(disk: Disk, s: string, c: nat, x: string, env: Env)
    requires Clear(Command("#else", x)) && Occurs(s, c, Write(Command("#else", x)))
    ensures var e := c + |Write(Command("#else", x))|;
      c < e <= |s| && NextLine(s, c + 5) == e && Step(disk, s, c, env) == DoElse(s, c + 5, env)
  {
    hide DoElse, Clear, Occurs;
    var l := Command("#else", x);
    RestAt(s, c, l);
    ClearName(l);
    NameFound(s, c, "#else");
    StepDirective(disk, s, c, "#else", env);
  }

  lemma EndifStep(disk: Disk, s: string, c: nat, y: string, env: Env)
    requires Clear(Command("#endif", y)) && Occurs(s, c, Write(Command("#endif", y)))
    ensures var e := c + |Write(Command("#endif", y))|;
      c < e <= |s| && NextLine(s, c + 6) == e && Step(disk, s, c, env) == DoEndif(s, c + 6, env)
  {
    hide DoEndif, Clear, Occurs;
    var l := Command("#endif", y);
    RestAt(s, c, l);
    ClearName(l);
    NameFound(s, c, "#endif");
    StepDirective(disk, s, c, "#endif", env);
  }

  /** A branch of plain lines is skipped up to and with the line that ends it. */
  lemma SkipsText(s: string, c: nat, t: string, end: Line, env: Env)
    requires Lines(t) && end.Command? && Clear(end) && Occurs(s, c, t + Write(end))
    requires Match(end.name) == Endif || (Match(end.name) == Else && !TopTaken(env.branches))
    ensures c + |t| + |Write(end)| <= |s|
    ensures SkipBranch(s, c, env) == Go(c + |t| + |Write(end)|, env)
  {
    hide SkipFrom, Clear, Match, Write, Depth, TopTaken, Lines;
    LinesWritten(t);
    StopsAtMatch(s, c, AsLines(t), end, TopTaken(env.branches));
  }

  lemma ExpandsLines(disk: Disk, s: string, c: nat, t: string, env: Env, budget: nat)
    requires Lines(t) && Occurs(s, c, t)
    ensures Expand(disk, s, c, env, budget) == Expand(disk, s, c + |t|, Emit(env, Replace(t, env.macros)), budget)
  {
    hide Expand, Replace;
    QuietAt(s, c, t);
    if t != "" { OccursAt(s, c, t, |t| - 1); }
    ExpandQuiet(disk, s, c, c + |t|, env, budget);
  }

  lemma ExpandGo(disk: Disk, s: string, c: nat, env: Env, budget: nat, next: nat, env': Env)
    requires c < next <= |s| && Step(disk, s, c, env) == Go(next, env')
    ensures Expand(disk, s, c, env, budget) == Expand(disk, s, next, env', budget)
  {
    hide Step;
  }

  predicate FlatOk(cond: string, a: string, x: string, b: string, y: string) {
    Condition(cond) && Lines(a) && Lines(b) && Clear(Command("#else", x)) && Clear(Command("#endif", y))
  }

  lemma FlatTaken(disk: Disk, s: string, c: nat, cond: string, a: string, x: string, b: string, y: string, env: Env, budget: nat)
    requires FlatOk(cond, a, x, b, y) && Occurs(s, c, Flat(cond, a, x, b, y))
    requires Eval(env.macros, cond, |env.macros|) == Some(true)
    ensures c + |Flat(cond, a, x, b, y)| <= |s|
    ensures Expand(disk, s, c, env, budget) ==
      Expand(disk, s, c + |Flat(cond, a, x, b, y)|,
        Emit(env, Replace(a, env.macros)).(branches := env.branches + [Branch(false, true)]), budget)
  {
    hide Expand, Step, Eval, Write, Clear, Lines, Condition, Occurs, Replace, SkipBranch;
    var l0, l1, l2 := Command("#if", cond), Command("#else", x), Command("#endif", y);
    var c1 := c + |Write(l0)|;
    OccursParts(s, c, Write(l0), a + (Write(l1) + (b + Write(l2))));
    OccursParts(s, c1, a, Write(l1) + (b + Write(l2)));
    OccursParts(s, c1 + |a|, Write(l1), b + Write(l2));
    DecidesIf(disk, s, c, cond, env, true);
    var env1 := env.(branches := env.branches + [Branch(true, true)]);
    WriteLonger(l0);
    ExpandGo(disk, s, c, env, budget, c1, env1);
    ExpandsLines(disk, s, c1, a, env1, budget);
    var env2 := Emit(env1, Replace(a, env.macros));
    ElseStep(disk, s, c1 + |a|, x, env2);
    var env3 := SetTop(env2, Branch(false, true));
    assert env3.branches == env.branches + [Branch(false, true)];
    SkipsText(s, c1 + |a| + |Write(l1)|, b, l2, env3);
    ExpandGo(disk, s, c1 + |a|, env2, budget, c + |Flat(cond, a, x, b, y)|, env3);
  }

  lemma WriteLonger(l: Line)
    ensures |Write(l)| > 0
  {}

  lemma FlatNotTaken(disk: Disk, s: string, c: nat, cond: string, a: string, x: string, b: string, y: string, env: Env, budget: nat)
    requires FlatOk(cond, a, x, b, y) && Occurs(s, c, Flat(cond, a, x, b, y))
    requires Eval(env.macros, cond, |env.macros|) == Some(false)
    ensures c + |Flat(cond, a, x, b, y)| <= |s|
    ensures Expand(disk, s, c, env, budget) ==
      Expand(disk, s, c + |Flat(cond, a, x, b, y)|, Emit(env, Replace(b, env.macros)), budget)
  {
    hide Expand, Step, Eval, Write, Clear, Lines, Condition, Occurs, Replace, SkipBranch;
    var l0, l1, l2 := Command("#if", cond), Command("#else", x), Command("#endif", y);
    var c1 := c + |Write(l0)|;
    var c2 := c1 + |a| + |Write(l1)|;
    OccursParts(s, c, Write(l0), a + (Write(l1) + (b + Write(l2))));
    var tail := a + (Write(l1) + (b + Write(l2)));
    assert tail == (a + Write(l1)) + (b + Write(l2));
    OccursParts(s, c1, a + Write(l1), b + Write(l2));
    OccursParts(s, c2, b, Write(l2));
    DecidesIf(disk, s, c, cond, env, false);
    var env1 := env.(branches := env.branches + [Branch(false, false)]);
    SkipsText(s, c1, a, l1, env1);
    WriteLonger(l0);
    ExpandGo(disk, s, c, env, budget, c2, env1);
    ExpandsLines(disk, s, c2, b, env1, budget);
    var env2 := Emit(env1, Replace(b, env.macros));
    EndifStep(disk, s, c2 + |b|, y, env2);
    assert env2.branches[..|env2.branches| - 1] == env.branches;
    ExpandGo(disk, s, c2 + |b|, env2, budget, c + |Flat(cond, a, x, b, y)|, Emit(env, Replace(b, env.macros)));
  }

  /**
   The side that the condition selects comes out and the other does not; macros stay, and
   reading goes on after the `#endif` line. Only a skipped `#else` leaves its entry behind
   on the branch stack, because the `#endif` that ends the skipping takes nothing off it.
   */
  lemma FlatSelects(disk: Disk, s: string, c: nat, cond: string, a: string, x: string, b: string, y: string, env: Env, budget: nat)
    requires FlatOk(cond, a, x, b, y) && Occurs(s, c, Flat(cond, a, x, b, y))
    requires Eval(env.macros, cond, |env.macros|).Some?
    ensures var v := Eval(env.macros, cond, |env.macros|).value; var e := c + |Flat(cond, a, x, b, y)|;
      e <= |s| && Expand(disk, s, c, env, budget) ==
        Expand(disk, s, e,
          Emit(env, Replace(if v then a else b, env.macros)).(branches := if v then env.branches + [Branch(false, true)] else env.branches),
          budget)
  {
    hide Expand, Eval, FlatOk, Replace, Occurs;
    if Eval(env.macros, cond, |env.macros|).value {
      FlatTaken(disk, s, c, cond, a, x, b, y, env, budget);
    } else {
      FlatNotTaken(disk, s, c, cond, a, x, b, y, env, budget);
    }
  }

  /** What a side of a comparison stands for: its macro's text when there is one, or itself. */
  lemma EvalCompares(macros: Macros, a: string, op: string, b: string, depth: nat)
    requires Operand(a) && Operand(b) && (op == "==" || op == "!=")
    ensures var x := if a in macros && macros[a] != "" then Trim(macros[a]) else a;
      var y := if b in macros && macros[b] != "" then Trim(macros[b]) else b;
      Eval(macros, " " + (a + op + b), depth) == Some((x == y) == (op == "=="))
  {
    hide Trim, LookAt, Operand;
    ComparisonMeans(macros, a, b);
    BlankBefore(a + op + b);
    EvalTrims(macros, " " + (a + op + b), a + op + b, depth);
  }

  lemma BlankBefore(t: string)
    ensures Trim(" " + t) == Trim(t)
  {
    assert (" " + t)[1..] == t;
  }

  /** `#if a==b` or `#if a!=b`: the first text comes out just when the condition holds of what the sides stand for. */
  lemma FlatCompares(disk: Disk, s: string, c: nat, a: string, op: string, b: string,
      yes: string, x: string, no: string, y: string, env: Env, budget: nat)
    requires Operand(a) && Operand(b) && (op == "==" || op == "!=")
    requires FlatOk(" " + (a + op + b), yes, x, no, y) && Occurs(s, c, Flat(" " + (a + op + b), yes, x, no, y))
    ensures var left := if a in env.macros && env.macros[a] != "" then Trim(env.macros[a]) else a;
      var right := if b in env.macros && env.macros[b] != "" then Trim(env.macros[b]) else b;
      var holds := (left == right) == (op == "=="); var e := c + |Flat(" " + (a + op + b), yes, x, no, y)|;
      e <= |s| && Expand(disk, s, c, env, budget) ==
        Expand(disk, s, e,
          Emit(env, Replace(if holds then yes else no, env.macros)).(branches := if holds then env.branches + [Branch(false, true)] else env.branches),
          budget)
  {
    hide Expand, Eval, FlatOk, Replace, Occurs, Trim, Operand;
    EvalCompares(env.macros, a, op, b, |env.macros|);
    FlatSelects(disk, s, c, " " + (a + op + b), yes, x, no, y, env, budget);
  }

  // ---------- conditions that step back too far ----------

  /**
   Stepping back over blanks from the line end passes the start of the condition exactly when
   there is no condition and a blank stands before the line end.
   */
  lemma UndefinedExactly(s: string, c: nat, macros: Macros)
    requires c <= |s| && Find(s, SkipBlanks(s, c), '\n') < |s|
    ensures var b := SkipBlanks(s, c); var e := Find(s, b, '\n');
      !Judge(s, b, e, macros).1 <==> b == e && 0 < b && IsBlank(s[b - 1])
  {
    hide Eval;
  }
}
