/**
 The directives that the other modules do not write out: `#elif`, `#skip`, `#define_m`, `#param`
 and `#import`, what is skipped in a branch that is not taken, and which code each mistake gives.
 */
module Forms {
  import opened Tokens
  import opened Texts
  import opened Conditions
  import opened Directives
  import opened Expansion
  import opened Substitution
  import opened Branches
  import opened Selection
  import opened Guards
  import opened Definitions

  /** A directive's name, whole, decides what is done from its end on. */
  lemma NamedStep(disk: Disk, s: string, c: nat, n: string, env: Env)
    requires IsName(n) && Occurs(s, c, n) && (c + |n| < |s| ==> !IsIdent(s[c + |n|]))
    ensures c < c + |n| <= |s| && Step(disk, s, c, env) == Directive(disk, s, c + |n|, Match(n), env)
  {
    hide Match, Directive;
    NameFound(s, c, n);
    StepDirective(disk, s, c, n, env);
  }

  lemma NameKinds()
    ensures Match("#if") == If && Match("#ifndef") == Ifndef && Match("#else") == Else && Match("#elif") == Elif
    ensures Match("#endif") == Endif && Match("#skip") == Skip && Match("#define_m") == DefineM && Match("#param") == Param
    ensures Match("#include") == Include && Match("#import") == Import && Match("#enddef") == Enddef && Match("#define") == Define
  {}

  lemma AreNames()
    ensures IsName("#if") && IsName("#ifndef") && IsName("#else") && IsName("#elif") && IsName("#endif") && IsName("#skip")
    ensures IsName("#define_m") && IsName("#param") && IsName("#include") && IsName("#import") && IsName("#enddef")
  {}

  // ---------- lines that are dropped ----------

  /** `#skip` takes its own line and the next one out, whatever they hold. */
  lemma SkipDrops(disk: Disk, s: string, c: nat, r: string, n: string, env: Env)
    requires Clear(Skipping(r, n)) && Occurs(s, c, "#skip" + (r + "\n" + (n + "\n")))
    ensures var e := c + 5 + |r| + 1 + |n| + 1; c < e <= |s| && Step(disk, s, c, env) == Go(e, env)
  {
    hide Match, Clear, Occurs, PastTwoLines, Step;
    OccursParts(s, c, "#skip", r + "\n" + (n + "\n"));
    TwoLines(s, c + 5, r, n);
    AreNames();
    NamedStep(disk, s, c, "#skip", env);
    SkipIs(disk, s, c + 5, env);
  }

  lemma SkipIs(disk: Disk, s: string, c: nat, env: Env)
    requires c <= |s|
    ensures Directive(disk, s, c, Match("#skip"), env) == Go(PastTwoLines(s, c), env)
  {
    NameKinds();
  }

  // ---------- what a skipped branch may hold ----------

  /** Text in quotes of one kind, without the other kind, is passed over. */
  lemma SkipsQuoted(s: string, c: nat, q: char, t: string, nest: nat, taken: bool)
    requires IsQuote(q) && 0 < nest && Occurs(s, c, [q] + (t + [q])) && forall k :: 0 <= k < |t| ==> !IsQuote(t[k])
    ensures SkipFrom(s, c, nest, NoQuotes, taken) == SkipFrom(s, c + |t| + 2, nest, NoQuotes, taken)
  {
    hide Match, SkipDirective, Occurs;
    OccursParts(s, c, [q], t + [q]);
    OccursAt(s, c, [q], 0);
    OccursParts(s, c + 1, t, [q]);
    OccursAt(s, c + 1 + |t|, [q], 0);
    OccursWithin(s, c + 1 + |t|, [q]);
    forall k | c + 1 <= k < c + 1 + |t| ensures !IsQuote(s[k]) { OccursAt(s, c + 1, t, k - c - 1); }
    var open := if q == '"' then Quotes(true, false) else Quotes(false, true);
    InQuotes(s, c + 1, c + 1 + |t|, nest, open, taken);
  }

  lemma {:induction false} InQuotes(s: string, a: nat, b: nat, nest: nat, q: Quotes, taken: bool)
    requires a <= b <= |s| && 0 < nest && (q.double || q.single) && forall k :: a <= k < b ==> !IsQuote(s[k])
    ensures SkipFrom(s, a, nest, q, taken) == SkipFrom(s, b, nest, q, taken)
    decreases b - a
  {
    hide Match, SkipDirective;
    if a < b { InQuotes(s, a + 1, b, nest, q, taken); }
  }

  /** A quote that is not closed hides every terminator after it. */
  lemma UnclosedQuote(s: string, c: nat, nest: nat, taken: bool)
    requires c < |s| && IsQuote(s[c]) && 0 < nest && forall k :: c < k < |s| ==> !IsQuote(s[k])
    ensures SkipFrom(s, c, nest, NoQuotes, taken) == Skipped(|s|, -422)
  {
    hide Match, SkipDirective;
    var open := if s[c] == '"' then Quotes(true, false) else Quotes(false, true);
    InQuotes(s, c + 1, |s|, nest, open, taken);
  }

  /** A comment is passed over up to its first line end or closing mark. */
  lemma SkipsComment(s: string, c: nat, e: nat, nest: nat, taken: bool)
    requires StartsComment(s, c) && c + 2 <= e <= |s| && Commented(s, c, e) && 0 < nest
    ensures SkipFrom(s, c, nest, NoQuotes, taken) == SkipFrom(s, e, nest, NoQuotes, taken)
  {
    hide Match, SkipDirective, CommentEnd, Commented;
    CommentOnly(s, c, e);
  }

  // ---------- #elif ----------

  /** `#elif` after the branch was taken: its text is skipped like that of an `#else`, its condition unread. */
  lemma ElifPassed(disk: Disk, s: string, c: nat, x: string, t: string, y: string, env: Env)
    requires TopTaken(env.branches) && Clear(Command("#elif", x)) && Lines(t) && Clear(Command("#endif", y))
    requires Occurs(s, c, Write(Command("#elif", x)) + (t + Write(Command("#endif", y))))
    ensures var e := c + |Write(Command("#elif", x)) + (t + Write(Command("#endif", y)))|;
      c < e <= |s| && Step(disk, s, c, env) == Go(e, SetTop(env, Branch(false, true)))
  {
    hide Clear, Lines, Step, Occurs, Match, SkipBranch, IsIdent;
    var end := Command("#endif", y);
    assert Write(Command("#elif", x)) + (t + Write(end)) == "#elif" + ((x + "\n") + (t + Write(end)));
    OccursParts(s, c, "#elif", (x + "\n") + (t + Write(end)));
    ElifRest(s, c, x, t, end);
    AreNames();
    NamedStep(disk, s, c, "#elif", env);
    ElifIs(disk, s, c + 5, env);
    ElifSkips(s, c + 5, x, t, y, SetTop(env, Branch(false, true)));
  }

  lemma ElifSkips(s: string, c: nat, x: string, t: string, y: string, env: Env)
    requires Clear(Command("#elif", x)) && Lines(t) && Clear(Command("#endif", y))
    requires Occurs(s, c, (x + "\n") + (t + Write(Command("#endif", y))))
    ensures var e := c + |x| + 1 + |t| + |Write(Command("#endif", y))|; e <= |s| && SkipBranch(s, c, env) == Go(e, env)
  {
    hide Clear, Lines, Occurs, Match, SkipBranch, Write;
    var end := Command("#endif", y);
    ElifText(x, t);
    assert (x + "\n") + (t + Write(end)) == ((x + "\n") + t) + Write(end);
    NameKinds();
    SkipsText(s, c, (x + "\n") + t, end, env);
  }

  lemma ElifRest(s: string, c: nat, x: string, t: string, end: Line)
    requires Clear(Command("#elif", x)) && Occurs(s, c + 5, (x + "\n") + (t + Write(end)))
    ensures c + 5 < |s| && !IsIdent(s[c + 5])
  {
    hide Occurs, QuietText;
    OccursParts(s, c + 5, x + "\n", t + Write(end));
    OccursWithin(s, c + 5, x + "\n");
    OccursAt(s, c + 5, x + "\n", 0);
  }

  lemma ElifIs(disk: Disk, s: string, c: nat, env: Env)
    requires c <= |s| && TopTaken(env.branches)
    ensures Directive(disk, s, c, Match("#elif"), env) == SkipBranch(s, c, SetTop(env, Branch(false, true)))
  {
    hide SkipBranch, Match;
    ElifAsks(disk, s, c, env);
  }

  /** The rest of the line is ordinary text. */
  lemma ElifText(x: string, t: string)
    requires Clear(Command("#elif", x)) && Lines(t)
    ensures Lines((x + "\n") + t)
  {
    NameKinds();
    var u := (x + "\n") + t;
    forall k | 0 <= k < |u| ensures !IsQuote(u[k]) && u[k] != '#' && !StartsComment(u, k) {
      if k <= |x| { assert u[k] == (x + "\n")[k]; assert k < |x| ==> u[k + 1] == (x + "\n")[k + 1]; }
      else { assert u[k] == t[k - |x| - 1]; assert k + 1 < |u| ==> u[k + 1] == t[k - |x|]; }
    }
  }

  /** `#elif` while no branch was taken: its condition decides, as that of an `#if`, but no branch is opened. */
  lemma ElifAsked(disk: Disk, s: string, c: nat, cond: string, env: Env, v: bool)
    requires env.branches != [] && !TopTaken(env.branches) && Condition(cond)
    requires Occurs(s, c, "#elif" + (cond + "\n")) && Eval(env.macros, cond, |env.macros|) == Some(v)
    ensures var e := c + 5 + |cond| + 1; var env' := SetTop(env, Branch(v, v));
      c < e <= |s| && Step(disk, s, c, env) == if v then Go(e, env') else SkipBranch(s, e, env')
  {
    hide Eval, Step, Occurs, Match, SkipBranch, Condition, IsIdent;
    OccursParts(s, c, "#elif", cond + "\n");
    OccursWithin(s, c + 5, cond + "\n");
    OccursAt(s, c + 5, cond + "\n", 0);
    FirstIsNoName(cond);
    AreNames();
    NamedStep(disk, s, c, "#elif", env);
    ElifDoes(disk, s, c + 5, cond, env, v);
  }

  lemma ElifAsks(disk: Disk, s: string, c: nat, env: Env)
    requires c <= |s|
    ensures Directive(disk, s, c, Match("#elif"), env) == DoElif(s, c, env)
  {
    hide DoElif;
    NameKinds();
  }

  lemma ElifDoes(disk: Disk, s: string, c: nat, cond: string, env: Env, v: bool)
    requires env.branches != [] && !TopTaken(env.branches) && Condition(cond)
    requires Occurs(s, c, cond + "\n") && Eval(env.macros, cond, |env.macros|) == Some(v)
    ensures var e := c + |cond| + 1; var env' := SetTop(env, Branch(v, v));
      e <= |s| && Directive(disk, s, c, Match("#elif"), env) == if v then Go(e, env') else SkipBranch(s, e, env')
  {
    hide Eval, Occurs, SkipBranch, Condition, Judge, SkipBlanks, Find, Match;
    JudgesLine(s, c, cond, env.macros, v);
    ElifAsks(disk, s, c, env);
  }

  /**
   A condition that fails, then `#elif`: its condition is not looked at. Reading goes on after the
   name, so the rest of the line comes out with the text below it.
   */
  lemma ElifUnread(disk: Disk, s: string, c: nat, t: string, x: string, env: Env, after: Env)
    requires Lines(t) && Clear(Command("#elif", x)) && Occurs(s, c, t + Write(Command("#elif", x))) && !TopTaken(after.branches)
    ensures c + |t| + 5 <= |s| && SkipBranch(s, c, after) == Go(c + |t| + 5, after)
  {
    hide SkipFrom, Clear, Match, Write, Depth, TopTaken, Lines;
    LinesWritten(t);
    NameKinds();
    StopsAtMatch(s, c, AsLines(t), Command("#elif", x), TopTaken(after.branches));
    OccursParts(s, c, t, Write(Command("#elif", x)));
    OccursWithin(s, c + |t|, Write(Command("#elif", x)));
    ElifLength(x);
  }

  lemma ElifLength(x: string)
    ensures |Write(Command("#elif", x))| == 5 + |x| + 1
  {}

  // ---------- #define_m ----------

  predicate AllBlank(t: string) { forall k :: 0 <= k < |t| ==> IsBlank(t[k]) }

  /** Aliases with `&` between them and the same blanks after each name and each `&`. */
  function Spaced(names: seq<string>, gap: string): string
    requires names != []
  {
    if |names| == 1 then names[0] + gap else names[0] + gap + "&" + gap + Spaced(names[1..], gap)
  }

  /** Where the text of the definition starts: neither a blank nor a name nor another alias. */
  predicate Starts(c: char) { !IsBlank(c) && !IsIdent(c) && c != '&' }

  lemma {:induction false} BlanksEnd(s: string, a: nat, b: nat)
    requires a <= b <= |s| && (forall k :: a <= k < b ==> IsBlank(s[k])) && (b < |s| ==> !IsBlank(s[b]))
    ensures SkipBlanks(s, a) == b
    decreases b - a
  {
    if a < b { BlanksEnd(s, a + 1, b); }
  }

  lemma GapSkipped(s: string, c: nat, gap: string)
    requires AllBlank(gap) && Occurs(s, c, gap) && c + |gap| < |s| && !IsBlank(s[c + |gap|])
    ensures SkipBlanks(s, c) == c + |gap|
  {
    forall k | c <= k < c + |gap| ensures IsBlank(s[k]) { OccursAt(s, c, gap, k - c); }
    BlanksEnd(s, c, c + |gap|);
  }

  /** Blanks before something that is none. */
  lemma Opening(s: string, c: nat, gap: string, t: string)
    requires AllBlank(gap) && t != "" && !IsBlank(t[0]) && Occurs(s, c, gap + t)
    ensures c + |gap| < |s| && SkipBlanks(s, c) == c + |gap| && Occurs(s, c + |gap|, t) && s[c + |gap|] == t[0]
  {
    hide Occurs, AllBlank;
    OccursParts(s, c, gap, t);
    OccursWithin(s, c + |gap|, t);
    OccursAt(s, c + |gap|, t, 0);
    GapSkipped(s, c, gap);
  }

  /** One name and the blanks after it. */
  lemma NameAndGap(s: string, c: nat, n: string, gap: string)
    requires GuardOk(n) && AllBlank(gap) && Occurs(s, c, n + gap) && c + |n + gap| < |s|
    requires !IsBlank(s[c + |n + gap|]) && !IsIdent(s[c + |n + gap|])
    ensures SkipBlanks(s, IdentEnd(s, c)) == c + |n| + |gap|
  {
    hide Occurs, GuardOk;
    OccursParts(s, c, n, gap);
    if gap != "" { OccursAt(s, c + |n|, gap, 0); BlankIsNoName(gap[0]); }
    NameRun(s, c, n);
    GapSkipped(s, c + |n|, gap);
  }

  lemma BlankIsNoName(c: char)
    requires IsBlank(c)
    ensures !IsIdent(c)
  {}

  lemma NameIsNoBlank(n: string)
    requires GuardOk(n)
    ensures n != "" && !IsBlank(n[0]) && n[0] != '&'
  {}

  lemma SpacedStarts(names: seq<string>, gap: string)
    requires names != [] && NamesOk(names)
    ensures Spaced(names, gap) != "" && !IsBlank(Spaced(names, gap)[0])
  {
    assert names[0] in names;
  }

  lemma SpacedParts(s: string, c: nat, names: seq<string>, gap: string)
    requires |names| > 1 && Occurs(s, c, Spaced(names, gap))
    ensures var e := c + |names[0]| + |gap|;
      && Occurs(s, c, names[0] + gap) && e + 1 <= |s| && s[e] == '&' && Occurs(s, e + 1, gap)
      && Occurs(s, e + 1 + |gap|, Spaced(names[1..], gap))
      && |Spaced(names, gap)| == |names[0]| + |gap| + 1 + |gap| + |Spaced(names[1..], gap)|
  {
    hide Occurs;
    var x, y := names[0] + gap, Spaced(names[1..], gap);
    OccursParts(s, c, x + "&" + gap, y);
    OccursParts(s, c, x + "&", gap);
    OccursParts(s, c, x, "&");
    OccursAt(s, c + |x|, "&", 0);
    OccursWithin(s, c + |x|, "&");
  }

  lemma SpacedFirst(s: string, c: nat, names: seq<string>, gap: string)
    requires names != [] && NamesOk(names) && Occurs(s, c, Spaced(names, gap))
    ensures c < |s| && !IsBlank(s[c])
  {
    hide Occurs, NamesOk, Spaced;
    SpacedStarts(names, gap);
    OccursAt(s, c, Spaced(names, gap), 0);
    OccursWithin(s, c, Spaced(names, gap));
  }

  /** Over one name and the `&` after it. */
  lemma OverName(s: string, c: nat, n: string, gap: string)
    requires GuardOk(n) && AllBlank(gap) && Occurs(s, c, n + gap)
    requires var e := c + |n| + |gap|; e + 1 + |gap| < |s| && s[e] == '&' && Occurs(s, e + 1, gap) && !IsBlank(s[e + 1 + |gap|])
    ensures SpacedAliasesEnd(s, c) == SpacedAliasesEnd(s, c + |n| + |gap| + 1 + |gap|)
  {
    hide Occurs, GuardOk, AllBlank, IdentEnd, SkipBlanks, IsIdent, IsBlank, SpacedAliasesEnd;
    AmpIsNoName();
    NameAndGap(s, c, n, gap);
    GapSkipped(s, c + |n| + |gap| + 1, gap);
    SpacedStep(s, c);
  }

  /** To the end of one name. */
  lemma ToEnd(s: string, c: nat, n: string, gap: string)
    requires GuardOk(n) && AllBlank(gap) && Occurs(s, c, n + gap)
    requires var e := c + |n| + |gap|; e < |s| && Starts(s[e])
    ensures SpacedAliasesEnd(s, c) == c + |n| + |gap|
  {
    hide Occurs, GuardOk, AllBlank, IdentEnd, SkipBlanks, IsIdent, IsBlank, SpacedAliasesEnd;
    NameAndGap(s, c, n, gap);
    SpacedStep(s, c);
  }

  lemma {:induction false} SpacedFound(s: string, c: nat, names: seq<string>, gap: string)
    requires names != [] && NamesOk(names) && AllBlank(gap) && Occurs(s, c, Spaced(names, gap))
    requires var e := c + |Spaced(names, gap)|; e < |s| && Starts(s[e])
    ensures SpacedAliasesEnd(s, c) == c + |Spaced(names, gap)|
    decreases |names|
  {
    hide Occurs, GuardOk, NamesOk, AllBlank, IsIdent, IsBlank, SpacedAliasesEnd, Starts, Spaced;
    FirstAlias(names);
    if |names| == 1 {
      SpacedOne(names, gap);
      ToEnd(s, c, names[0], gap);
    } else {
      SpacedParts(s, c, names, gap);
      var e := c + |names[0]| + |gap| + 1 + |gap|;
      SpacedFirst(s, e, names[1..], gap);
      OverName(s, c, names[0], gap);
      SpacedFound(s, e, names[1..], gap);
    }
  }

  lemma AmpIsNoName()
    ensures !IsIdent('&') && !IsBlank('&')
  {}

  lemma SpacedStep(s: string, c: nat)
    requires c < |s|
    ensures var e := SkipBlanks(s, IdentEnd(s, c));
      SpacedAliasesEnd(s, c) == if e < |s| && s[e] == '&' then SpacedAliasesEnd(s, SkipBlanks(s, e + 1)) else e
  {}

  /** Trimming takes the blanks around a name away. */
  lemma NameTrimmed(n: string, gap: string)
    requires GuardOk(n) && AllBlank(gap)
    ensures Trim(gap + (n + gap)) == n && Trim(n + gap) == n
  {
    GuardTrimmed(n);
    var t := gap + (n + gap);
    assert t[|gap|..|gap| + |n|] == n;
    TrimInner(t, |gap|, |gap| + |n|);
    assert (n + gap)[0..|n|] == n;
    TrimInner(n + gap, 0, |n|);
  }

  /** Every alias is registered without its blanks. `lead` is what stands before the first name. */
  lemma {:induction false} RegisterSpaced(macros: Macros, s: string, c: nat, lead: string, names: seq<string>, gap: string, content: string)
    requires names != [] && NamesOk(names) && AllBlank(gap) && (lead == "" || lead == gap)
    requires Occurs(s, c, lead + Spaced(names, gap)) && c + |lead| + |Spaced(names, gap)| == |s|
    ensures Register(macros, s, c, content) == WithAll(macros, names, content)
    decreases |names|
  {
    hide Occurs, GuardOk, NamesOk, AllBlank, Register, Trim, Spaced;
    FirstAlias(names);
    OccursParts(s, c, lead, Spaced(names, gap));
    var n := names[0];
    NameTrimmed(n, gap);
    if |names| == 1 {
      SpacedOne(names, gap);
      RegisterOne(macros, s, c, lead, n, gap, content);
      assert names[1..] == [];
      assert WithAll(macros[n := content], [], content) == macros[n := content];
    } else {
      SpacedParts(s, c + |lead|, names, gap);
      RegisterOne(macros, s, c, lead, n, gap, content);
      var e := c + |lead| + |n| + |gap|;
      GapAndNames(s, e + 1, gap, names[1..]);
      RegisterSpaced(macros[n := content], s, e + 1, gap, names[1..], gap, content);
    }
  }

  lemma SpacedOne(names: seq<string>, gap: string)
    requires |names| == 1
    ensures Spaced(names, gap) == names[0] + gap
  {}

  lemma GapAndNames(s: string, c: nat, gap: string, names: seq<string>)
    requires names != [] && Occurs(s, c, gap) && Occurs(s, c + |gap|, Spaced(names, gap))
    ensures Occurs(s, c, gap + Spaced(names, gap))
  {
    var x, y := gap, Spaced(names, gap);
    assert s[c..c + |x + y|] == s[c..c + |x|] + s[c + |x|..c + |x| + |y|];
  }

  lemma RegisterOne(macros: Macros, s: string, c: nat, lead: string, n: string, gap: string, content: string)
    requires GuardOk(n) && AllBlank(gap) && (lead == "" || lead == gap)
    requires Occurs(s, c, lead) && Occurs(s, c + |lead|, n + gap)
    requires var e := c + |lead| + |n| + |gap|; e == |s| || (e < |s| && s[e] == '&')
    ensures var e := c + |lead| + |n| + |gap|;
      Register(macros, s, c, content) ==
        if e == |s| then macros[n := content] else Register(macros[n := content], s, e + 1, content)
  {
    hide Trim;
    var e := c + |lead| + |n| + |gap|;
    NameTrimmed(n, gap);
    NoAmp(s, c, lead, n, gap);
    assert s[c..e] == lead + (n + gap);
  }

  lemma NoAmp(s: string, c: nat, lead: string, n: string, gap: string)
    requires GuardOk(n) && AllBlank(gap) && (lead == "" || lead == gap)
    requires Occurs(s, c, lead) && Occurs(s, c + |lead|, n + gap)
    requires var e := c + |lead| + |n| + |gap|; e == |s| || (e < |s| && s[e] == '&')
    ensures Find(s, c, '&') == c + |lead| + |n| + |gap| && n != ""
  {
    var e := c + |lead| + |n| + |gap|;
    forall k | c <= k < e ensures s[k] != '&' {
      if k < c + |lead| { OccursAt(s, c, lead, k - c); } else { OccursAt(s, c + |lead|, n + gap, k - c - |lead|); }
    }
    if e < |s| { FoundAt(s, c, '&', e); } else { FoundNone(s, c); }
  }

  /** The text of a multi-line definition: it starts after the names and does not hold its own end. */
  predicate BodyOk(d: string) {
    && Starts((d + "#enddef")[0]) && forall j :: 0 <= j < |d| ==> !Occurs(d + "#enddef", j, "#enddef")
  }

  function DefineMText(names: seq<string>, gap: string, d: string, r: string): string
    requires names != []
  {
    "#define_m" + (" " + (Spaced(names, gap) + (d + ("#enddef" + (r + "\n")))))
  }

  /** `#define_m A & B`, text, `#enddef`: every one of the names stands for the text, as it is. */
  lemma DefinesBlock(disk: Disk, s: string, c: nat, names: seq<string>, gap: string, d: string, r: string, env: Env)
    requires names != [] && NamesOk(names) && AllBlank(gap) && BodyOk(d) && (forall k :: 0 <= k < |r| ==> r[k] != '\n')
    requires Occurs(s, c, DefineMText(names, gap, d, r))
    ensures var e := c + |DefineMText(names, gap, d, r)|;
      c < e <= |s| && Step(disk, s, c, env) == Go(e, env.(macros := WithAll(env.macros, names, d)))
  {
    hide Step, Occurs, Spaced, NamesOk, AllBlank, BodyOk, Match, DoDefineM, IsIdent;
    var rest := " " + (Spaced(names, gap) + (d + ("#enddef" + (r + "\n"))));
    OccursParts(s, c, "#define_m", rest);
    OccursWithin(s, c + 9, rest);
    OccursAt(s, c + 9, rest, 0);
    AreNames();
    BlankIsNoName(' ');
    NamedStep(disk, s, c, "#define_m", env);
    DefineMIs(disk, s, c + 9, env);
    BlockDefined(s, c + 9, names, gap, d, r, env);
  }

  lemma DefineMIs(disk: Disk, s: string, c: nat, env: Env)
    requires c <= |s|
    ensures Directive(disk, s, c, Match("#define_m"), env) == DoDefineM(s, c, env)
  {
    hide DoDefineM;
    NameKinds();
  }

  lemma BlockDefined(s: string, c: nat, names: seq<string>, gap: string, d: string, r: string, env: Env)
    requires names != [] && NamesOk(names) && AllBlank(gap) && BodyOk(d) && (forall k :: 0 <= k < |r| ==> r[k] != '\n')
    requires Occurs(s, c, " " + (Spaced(names, gap) + (d + ("#enddef" + (r + "\n")))))
    ensures var e := c + 1 + |Spaced(names, gap)| + |d| + 7 + |r| + 1;
      e <= |s| && DoDefineM(s, c, env) == Go(e, env.(macros := WithAll(env.macros, names, d)))
  {
    hide Occurs, Spaced, NamesOk, AllBlank, Register, SpacedAliasesEnd, SkipBlanks, FindText, NextLine, Starts;
    var n := Spaced(names, gap);
    OccursParts(s, c, " ", n + (d + ("#enddef" + (r + "\n"))));
    OccursAt(s, c, " ", 0);
    OccursParts(s, c + 1, n, d + ("#enddef" + (r + "\n")));
    var e := c + 1 + |n|;
    SpacedFirst(s, c + 1, names, gap);
    OneBlank(s, c);
    BlockBody(s, e, d, r);
    SpacedFound(s, c + 1, names, gap);
    OccursIs(s, c + 1, n);
    WholeOccurs(n);
    assert "" + n == n;
    RegisterSpaced(env.macros, n, 0, "", names, gap, d);
  }

  lemma BlockBody(s: string, e: nat, d: string, r: string)
    requires BodyOk(d) && (forall k :: 0 <= k < |r| ==> r[k] != '\n') && Occurs(s, e, d + ("#enddef" + (r + "\n")))
    ensures e < |s| && Starts(s[e]) && FindText(s, e, "#enddef") == e + |d| < |s| && s[e..e + |d|] == d
    ensures e + |d| + 7 + |r| + 1 <= |s| && NextLine(s, e + |d| + 7) == e + |d| + 7 + |r| + 1
  {
    hide Occurs, FindText, Starts;
    assert d + ("#enddef" + (r + "\n")) == (d + "#enddef") + (r + "\n");
    OccursParts(s, e, d + "#enddef", r + "\n");
    OccursAt(s, e, d + "#enddef", 0);
    OccursWithin(s, e, d + "#enddef");
    DefinitionEnds(s, e, d);
    OccursParts(s, e, d, "#enddef");
    OccursIs(s, e, d);
    var f := e + |d| + 7;
    RestOfLine(s, f, r);
  }

  lemma RestOfLine(s: string, f: nat, r: string)
    requires Occurs(s, f, r + "\n") && forall k :: 0 <= k < |r| ==> r[k] != '\n'
    ensures f + |r| + 1 <= |s| && NextLine(s, f) == f + |r| + 1
  {
    forall k | 0 <= k <= |r| ensures s[f + k] == (r + "\n")[k] { OccursAt(s, f, r + "\n", k); }
    forall k | f <= k < f + |r| ensures s[k] != '\n' { assert s[f + (k - f)] == r[k - f]; }
    FoundAt(s, f, '\n', f + |r|);
  }

  // ---------- what follows a name on its line ----------

  /** A name and the rest of its line, which may hold anything. */
  predicate OnLine(s: string, c: nat, n: string, r: string) {
    IsName(n) && Occurs(s, c, n + (r + "\n")) && (r != "" ==> !IsIdent(r[0])) && forall k :: 0 <= k < |r| ==> r[k] != '\n'
  }

  lemma LineIs(s: string, c: nat, n: string, r: string)
    requires OnLine(s, c, n, r)
    ensures var e := c + |n| + |r| + 1;
      && c < e <= |s| && Occurs(s, c, n) && !IsIdent(s[c + |n|]) && Find(s, c + |n|, '\n') == e - 1 && NextLine(s, c + |n|) == e
  {
    hide Occurs;
    OccursParts(s, c, n, r + "\n");
    LineRest(s, c + |n|, r);
  }

  /** The line that ends the skipping is passed, whatever else it holds. */
  lemma EndsAtLine(s: string, c: nat, n: string, r: string, taken: bool)
    requires OnLine(s, c, n, r) && (n == "#endif" || (n == "#else" && !taken))
    ensures SkipFrom(s, c, 1, NoQuotes, taken) == Skipped(c + |n| + |r| + 1, 0)
  {
    hide Occurs, Match, OnLine, IsName;
    LineIs(s, c, n, r);
    NameKinds();
    AreNames();
    SkipsDirective(s, c, n, 1, taken);
  }

  /** Without a line end after it the text is used up, and the code says so. */
  lemma EndsAtText(s: string, c: nat, n: string, taken: bool)
    requires Occurs(s, c, n) && (n == "#endif" || (n == "#else" && !taken))
    requires (c + |n| < |s| ==> !IsIdent(s[c + |n|])) && forall k :: c + |n| <= k < |s| ==> s[k] != '\n'
    ensures SkipFrom(s, c, 1, NoQuotes, taken) == Skipped(|s|, 422)
  {
    hide Occurs, Match, IsName;
    NameKinds();
    AreNames();
    SkipsDirective(s, c, n, 1, taken);
  }

  /** An `#elif` of a branch never taken ends the skipping right after its name, with a code of its own. */
  lemma EndsAtElif(s: string, c: nat)
    requires Occurs(s, c, "#elif") && (c + 5 < |s| ==> !IsIdent(s[c + 5]))
    ensures SkipFrom(s, c, 1, NoQuotes, false) == Skipped(c + 5, 105102)
  {
    hide Match, IsName;
    NameKinds();
    AreNames();
    SkipsDirective(s, c, "#elif", 1, false);
  }

  /** Lines that are passed whole while skipping: definitions, and another `#else` or `#elif` of a branch that was taken. */
  lemma PassesLine(s: string, c: nat, n: string, r: string, nest: nat, taken: bool)
    requires OnLine(s, c, n, r) && 0 < nest && (n == "#define" || (nest == 1 && taken && (n == "#else" || n == "#elif")))
    ensures SkipFrom(s, c, nest, NoQuotes, taken) == SkipFrom(s, c + |n| + |r| + 1, nest, NoQuotes, taken)
  {
    hide Occurs, Match, OnLine, IsName, SkipFrom;
    LineIs(s, c, n, r);
    NameKinds();
    NamesToo(n);
    SkipsDirective(s, c, n, nest, taken);
  }

  lemma NamesToo(n: string)
    requires n == "#define" || n == "#else" || n == "#elif"
    ensures IsName(n)
  {}

  /** `#endif` takes the entry of its branch away, and its line. */
  lemma EndifCloses(disk: Disk, s: string, c: nat, r: string, env: Env)
    requires OnLine(s, c, "#endif", r) && env.branches != []
    ensures var e := c + 6 + |r| + 1;
      c < e <= |s| && Step(disk, s, c, env) == Go(e, env.(branches := env.branches[..|env.branches| - 1]))
  {
    hide Occurs, Match, OnLine, IsName, Step, NextLine;
    LineIs(s, c, "#endif", r);
    AreNames();
    NamedStep(disk, s, c, "#endif", env);
    NameKinds();
  }

  /** `#else` is entered when no branch was taken, and skipped to its end otherwise. */
  lemma ElseDecides(disk: Disk, s: string, c: nat, r: string, env: Env)
    requires OnLine(s, c, "#else", r) && env.branches != []
    ensures var e := c + 5 + |r| + 1; var below := env.branches[..|env.branches| - 1];
      && c < e <= |s|
      && Step(disk, s, c, env) ==
           if env.branches[|env.branches| - 1].everTaken then SkipBranch(s, e, env.(branches := below + [Branch(false, true)]))
           else Go(e, env.(branches := below + [Branch(true, true)]))
  {
    hide Occurs, Match, OnLine, IsName, Step, NextLine, SkipBranch;
    LineIs(s, c, "#else", r);
    AreNames();
    NamedStep(disk, s, c, "#else", env);
    NameKinds();
    TopReplaced(env, Branch(false, true));
    TopReplaced(env, Branch(true, true));
  }

  lemma TopReplaced(env: Env, b: Branch)
    requires env.branches != []
    ensures SetTop(env, b) == env.(branches := env.branches[..|env.branches| - 1] + [b])
  {}

  /** `#ifndef` asks whether its name has no macro, and opens a branch. */
  lemma IfndefAsks(disk: Disk, s: string, c: nat, gap: string, g: string, r: string, env: Env)
    requires AllBlank(gap) && gap != "" && GuardOk(g) && (r != "" ==> !IsIdent(r[0])) && (forall k :: 0 <= k < |r| ==> r[k] != '\n')
    requires Occurs(s, c, "#ifndef" + (gap + (g + (r + "\n"))))
    ensures var e := c + |"#ifndef" + (gap + (g + (r + "\n")))|; var b := g !in env.macros;
      var env' := env.(branches := env.branches + [Branch(b, b)]);
      c < e <= |s| && Step(disk, s, c, env) == if b then Go(e, env') else SkipBranch(s, e, env')
  {
    hide Occurs, Match, IsName, Step, NextLine, SkipBranch, AllBlank, GuardOk, IsIdent, IsBlank, SkipBlanks, IdentEnd, Trim;
    OccursParts(s, c, "#ifndef", gap + (g + (r + "\n")));
    GuardPlaces(s, c + 7, gap, g, r);
    AreNames();
    NamedStep(disk, s, c, "#ifndef", env);
    GuardTrimmed(g);
    NameIsNoBlank(g);
    var n := c + 7 + |gap|;
    IfndefIs(disk, s, c + 7, n, n + |g|, g, env);
  }

  /** Where the name that `#ifndef` asks about is, and its line end. */
  lemma GuardPlaces(s: string, c: nat, gap: string, g: string, r: string)
    requires AllBlank(gap) && gap != "" && GuardOk(g) && (r != "" ==> !IsIdent(r[0])) && (forall k :: 0 <= k < |r| ==> r[k] != '\n')
    requires Occurs(s, c, gap + (g + (r + "\n")))
    ensures var n := c + |gap|; var e := n + |g|;
      && c < e + |r| + 1 <= |s| && !IsIdent(s[c]) && SkipBlanks(s, c) == n && IdentEnd(s, n) == e && s[n..e] == g
      && NextLine(s, e) == e + |r| + 1
  {
    hide Occurs, NextLine, AllBlank, GuardOk, IsIdent, IsBlank, SkipBlanks, IdentEnd;
    var t, n := g + (r + "\n"), c + |gap|;
    GapFirst(s, c, gap, t);
    NameIsNoBlank(g);
    Opening(s, c, gap, t);
    OccursParts(s, n, g, r + "\n");
    LineRest(s, n + |g|, r);
    NameRun(s, n, g);
    OccursIs(s, n, g);
    LineAfter(s, n + |g|, r);
  }

  lemma GapFirst(s: string, c: nat, gap: string, t: string)
    requires AllBlank(gap) && gap != "" && Occurs(s, c, gap + t)
    ensures c < |s| && !IsIdent(s[c])
  {
    hide Occurs, AllBlank, IsIdent;
    GapStarts(gap);
    OccursWithin(s, c, gap + t);
    OccursAt(s, c, gap + t, 0);
  }

  lemma GapStarts(gap: string)
    requires AllBlank(gap) && gap != ""
    ensures !IsIdent(gap[0])
  {
    BlankIsNoName(gap[0]);
  }

  lemma LineAfter(s: string, e: nat, r: string)
    requires e + |r| < |s| && Find(s, e, '\n') == e + |r|
    ensures NextLine(s, e) == e + |r| + 1
  {}

  lemma IfndefIs(disk: Disk, s: string, c: nat, n: nat, e: nat, g: string, env: Env)
    requires c <= n <= e <= |s| && SkipBlanks(s, c) == n && IdentEnd(s, n) == e && Trim(s[n..e]) == g != ""
    ensures Directive(disk, s, c, Match("#ifndef"), env) == Decide(s, NextLine(s, e), env, g !in env.macros)
  {
    hide Decide, Trim, NextLine;
    NameKinds();
  }
}
