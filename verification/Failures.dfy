/** Which code ends a run, for each mistake that a text can hold. */
module Failures {
  import opened Tokens
  import opened Texts
  import opened Conditions
  import opened Directives
  import opened Expansion
  import opened Substitution
  import opened Branches
  import opened Selection
  import opened Guards
  import opened Definitions
  import opened Forms
  import opened Params

  /** `n` stands at `c` and no letter, digit or underscore after it. */
  predicate NameAt(s: string, c: nat, n: string) {
    IsName(n) && Occurs(s, c, n) && (c + |n| < |s| ==> !IsIdent(s[c + |n|]))
  }

  /** `#else`, `#elif` and `#endif` need an open branch. */
  lemma NoOpenBranch(disk: Disk, s: string, c: nat, n: string, env: Env)
    requires NameAt(s, c, n) && n in {"#else", "#elif", "#endif"} && env.branches == []
    ensures c < |s| && Step(disk, s, c, env) == Halt(Code(-400))
  {
    hide Step, Match, Occurs, Register, TypeEnd, SkipFrom, Judge;
    NameKinds();
    NamedStep(disk, s, c, n, env);
  }

  const DIRECTIVES := {"#define", "#define_m", "#if", "#ifndef", "#else", "#elif", "#endif", "#enddef", "#include", "#import", "#skip", "#param"}

  /** A name that is none of the directives, and an `#enddef` without its definition. */
  lemma UnknownName(disk: Disk, s: string, c: nat, n: string, env: Env)
    requires NameAt(s, c, n)
    ensures c < |s|
    ensures n !in DIRECTIVES ==> Step(disk, s, c, env) == Halt(Code(-404))
    ensures n == "#enddef" ==> Step(disk, s, c, env) == Halt(Code(-1))
  {
    hide Step, Occurs, DoDefine, DoDefineM, DoInclude, DoIf, DoIfndef, DoElse, DoElif, DoEndif, DoParam;
    NamedStep(disk, s, c, n, env);
  }

  /** A condition needs a line end after it. */
  lemma NoLineEnd(disk: Disk, s: string, c: nat, n: string, env: Env)
    requires NameAt(s, c, n) && (n == "#if" || (n == "#elif" && env.branches != [] && !TopTaken(env.branches)))
    requires forall k :: c < k < |s| ==> s[k] != '\n'
    ensures c < |s| && Step(disk, s, c, env) == Halt(Code(-422))
  {
    hide Step, Match, Occurs, SkipFrom, Judge, TopTaken;
    NameKinds();
    NamedStep(disk, s, c, n, env);
    var b := SkipBlanks(s, c + |n|);
    assert Find(s, b, '\n') == |s|;
  }

  /** A multi-line definition needs its end, somewhere. */
  lemma NoDefinitionEnd(disk: Disk, s: string, c: nat, env: Env)
    requires NameAt(s, c, "#define_m") && forall k :: c < k < |s| ==> !Occurs(s, k, "#enddef")
    ensures c < |s| && Step(disk, s, c, env) == Halt(Code(-3))
  {
    hide Step, Match, Occurs, Register, SpacedAliasesEnd, FindText, SkipBlanks;
    NamedStep(disk, s, c, "#define_m", env);
    DefineMIs(disk, s, c + 9, env);
    var e := SpacedAliasesEnd(s, SkipBlanks(s, c + 9));
    assert FindText(s, e, "#enddef") == |s|;
  }

  lemma Signs()
    ensures !IsIdent('"') && !IsIdent('<') && !IsIdent('(') && !IsBlank('"') && !IsBlank('<') && !IsBlank('(')
  {}

  predicate IncludeName(n: string) { n == "#include" || n == "#import" }

  lemma IncludeIs(disk: Disk, s: string, c: nat, n: string, env: Env)
    requires c <= |s| && IncludeName(n)
    ensures Directive(disk, s, c, Match(n), env) == DoInclude(disk, s, c, env)
  {
    hide DoInclude;
    NameKinds();
  }

  /** What an include reads: the file of the path between its quotes or brackets, or a code. */
  lemma IncludeReads(disk: Disk, s: string, c: nat, n: string, gap: string, open: char, p: string, env: Env)
    requires IncludeName(n) && AllBlank(gap) && (open == '"' || open == '<')
    requires var close := if open == '"' then '"' else '>';
      Occurs(s, c, n + (gap + ([open] + (p + [close])))) && forall k :: 0 <= k < |p| ==> p[k] != close && p[k] != '\0'
    ensures var e := c + |n| + |gap| + 1 + |p| + 1;
      && c < e <= |s|
      && Step(disk, s, c, env) ==
           if p !in disk || disk[p] == "" then Halt(Code(-2)) else Enter(NextLine(s, e), env, disk[p])
  {
    hide Step, Match, Occurs, AllBlank, DoInclude, IsIdent, IsBlank, NextLine, IsName;
    var close := if open == '"' then '"' else '>';
    var t := [open] + (p + [close]);
    Signs();
    OccursParts(s, c, n, gap + t);
    Opening(s, c + |n|, gap, t);
    AfterName(s, c + |n|, gap, t);
    AreNames();
    NamedStep(disk, s, c, n, env);
    IncludeIs(disk, s, c + |n|, n, env);
    PathRead(disk, s, c + |n|, |gap|, open, p, env);
  }

  lemma AfterName(s: string, c: nat, gap: string, t: string)
    requires AllBlank(gap) && Occurs(s, c, gap + t) && t != "" && !IsIdent(t[0])
    ensures c < |s| && !IsIdent(s[c])
  {
    hide Occurs;
    OccursWithin(s, c, gap + t);
    OccursAt(s, c, gap + t, 0);
    if gap != "" { BlankIsNoName(gap[0]); }
  }

  lemma PathRead(disk: Disk, s: string, c: nat, g: nat, open: char, p: string, env: Env)
    requires c + g < |s| && SkipBlanks(s, c) == c + g && (open == '"' || open == '<')
    requires var close := if open == '"' then '"' else '>';
      Occurs(s, c + g, [open] + (p + [close])) && forall k :: 0 <= k < |p| ==> p[k] != close && p[k] != '\0'
    ensures var e := c + g + 1 + |p| + 1;
      && e <= |s|
      && DoInclude(disk, s, c, env) ==
           if p !in disk || disk[p] == "" then Halt(Code(-2)) else Enter(NextLine(s, e), env, disk[p])
  {
    hide Occurs, NextLine, SkipBlanks, DoInclude, Find;
    var close := if open == '"' then '"' else '>';
    var b := c + g;
    OccursParts(s, b, [open], p + [close]);
    OccursAt(s, b, [open], 0);
    OccursParts(s, b + 1, p, [close]);
    OccursIs(s, b + 1, p);
    OccursWithin(s, b + 1 + |p|, [close]);
    OccursAt(s, b + 1 + |p|, [close], 0);
    forall k | b + 1 <= k < b + 1 + |p| ensures s[k] != close { OccursAt(s, b + 1, p, k - b - 1); }
    FoundAt(s, b + 1, close, b + 1 + |p|);
    NoNul(p);
    PathTaken(disk, s, c, b, p, env);
  }

  lemma PathTaken(disk: Disk, s: string, c: nat, b: nat, p: string, env: Env)
    requires c <= b && b + 1 + |p| < |s| && SkipBlanks(s, c) == b && (s[b] == '"' || s[b] == '<')
    requires Find(s, b + 1, if s[b] == '"' then '"' else '>') == b + 1 + |p| && s[b + 1..b + 1 + |p|] == p && CString(p) == p
    ensures DoInclude(disk, s, c, env) ==
      if p !in disk || disk[p] == "" then Halt(Code(-2)) else Enter(NextLine(s, b + 1 + |p| + 1), env, disk[p])
  {
    hide SkipBlanks, Find, NextLine, CString;
  }

  /** A path must start with a quote or a bracket and be closed before the text ends. */
  lemma BadPath(disk: Disk, s: string, c: nat, n: string, gap: string, t: string, env: Env)
    requires IncludeName(n) && AllBlank(gap) && Occurs(s, c, n + (gap + t)) && c + |n + (gap + t)| == |s|
    requires t != "" ==> !IsBlank(t[0]) && !IsIdent(t[0])
    requires t == "" || (t[0] != '"' && t[0] != '<')
      || (t[0] == '"' && forall k :: 0 < k < |t| ==> t[k] != '"') || (t[0] == '<' && forall k :: 0 < k < |t| ==> t[k] != '>')
    ensures c < |s| && Step(disk, s, c, env) == Halt(Code(-1))
  {
    hide Step, Match, Occurs, AllBlank, DoInclude, IsIdent, IsBlank, IsName, SkipBlanks;
    OccursParts(s, c, n, gap + t);
    var e := c + |n|;
    OccursParts(s, e, gap, t);
    if t != "" { AfterName(s, e, gap, t); } else { OnlyBlanks(s, e, gap); }
    AreNames();
    NamedStep(disk, s, c, n, env);
    IncludeIs(disk, s, e, n, env);
    if t == "" {
      BlanksToEnd(s, e, gap);
      NoPath(disk, s, e, env);
    } else {
      Opening(s, e, gap, t);
      PathMissing(disk, s, e, e + |gap|, t, env);
    }
  }

  lemma OnlyBlanks(s: string, c: nat, gap: string)
    requires AllBlank(gap) && Occurs(s, c, gap) && c + |gap| == |s|
    ensures c < |s| ==> !IsIdent(s[c])
  {
    hide Occurs;
    if gap != "" {
      OccursAt(s, c, gap, 0);
      BlankIsNoName(gap[0]);
    }
  }

  lemma NoPath(disk: Disk, s: string, c: nat, env: Env)
    requires c <= |s| && SkipBlanks(s, c) == |s|
    ensures DoInclude(disk, s, c, env) == Halt(Code(-1))
  {}

  lemma BlanksToEnd(s: string, c: nat, gap: string)
    requires AllBlank(gap) && Occurs(s, c, gap) && c + |gap| == |s|
    ensures SkipBlanks(s, c) == |s|
  {
    forall k | c <= k < |s| ensures IsBlank(s[k]) { OccursAt(s, c, gap, k - c); }
    BlanksEnd(s, c, |s|);
  }

  lemma PathMissing(disk: Disk, s: string, c: nat, b: nat, t: string, env: Env)
    requires c <= b < |s| && SkipBlanks(s, c) == b && t != "" && Occurs(s, b, t) && b + |t| == |s|
    requires (t[0] != '"' && t[0] != '<')
      || (t[0] == '"' && forall k :: 0 < k < |t| ==> t[k] != '"') || (t[0] == '<' && forall k :: 0 < k < |t| ==> t[k] != '>')
    ensures DoInclude(disk, s, c, env) == Halt(Code(-1))
  {
    hide Occurs;
    OccursAt(s, b, t, 0);
    if s[b] == '"' || s[b] == '<' {
      var close := if s[b] == '"' then '"' else '>';
      forall k | b + 1 <= k < |s| ensures s[k] != close { OccursAt(s, b, t, k - b); }
      assert Find(s, b + 1, close) == |s|;
    }
  }

  // ---------- #param ----------

  /** No parenthesis closes the type before the line or the text ends. */
  predicate Unclosed(t: string, depth: nat) {
    if t == "" then true
    else if t[0] == '\n' then true
    else if t[0] == '(' then Unclosed(t[1..], depth + 1)
    else if t[0] == ')' then depth > 1 && Unclosed(t[1..], depth - 1)
    else Unclosed(t[1..], depth)
  }

  lemma {:induction false} NeverClosed(s: string, c: nat, t: string, depth: nat)
    requires 0 < depth && Unclosed(t, depth) && Occurs(s, c, t) && c + |t| == |s| && depth + |t| < 0x1_0000
    ensures TypeEnd(s, c, depth) == None
    decreases |t|
  {
    hide Occurs;
    if t != "" {
      OccursAt(s, c, t, 0);
      assert t == [t[0]] + t[1..];
      OccursParts(s, c, [t[0]], t[1..]);
      if t[0] != '\n' {
        NeverClosed(s, c + 1, t[1..], if t[0] == '(' then depth + 1 else if t[0] == ')' then depth - 1 else depth);
      }
    }
  }

  /** `#param` without a type in parentheses, with one that is not closed, or with a blank one. */
  lemma BadType(disk: Disk, s: string, c: nat, gap: string, t: string, env: Env)
    requires AllBlank(gap) && Occurs(s, c, "#param" + (gap + t)) && c + |"#param" + (gap + t)| == |s|
    requires t != "" && !IsBlank(t[0]) && !IsIdent(t[0])
    requires t[0] != '(' || (|t| < 0xFFFF && Unclosed(t[1..], 1))
    ensures c < |s| && Step(disk, s, c, env) == Halt(Code(-400))
  {
    hide Step, Match, Occurs, AllBlank, DoParam, IsIdent, Unclosed, TypeEnd;
    OccursParts(s, c, "#param", gap + t);
    AfterName(s, c + 6, gap, t);
    AreNames();
    NamedStep(disk, s, c, "#param", env);
    ParamIs(disk, s, c + 6, env);
    Opening(s, c + 6, gap, t);
    var b := c + 6 + |gap|;
    if t[0] == '(' {
      assert t == "(" + t[1..];
      OccursParts(s, b, "(", t[1..]);
      NeverClosed(s, b + 1, t[1..], 1);
    }
    TypeMissing(s, c + 6, b, env);
  }

  lemma TypeMissing(s: string, c: nat, b: nat, env: Env)
    requires c <= b < |s| && SkipBlanks(s, c) == b && (s[b] != '(' || TypeEnd(s, b + 1, 1) == None)
    ensures DoParam(s, c, env) == Halt(Code(-400))
  {
    hide TypeEnd, Trim;
  }

  /** A name and `=` must follow the type, and the type must not be blank. */
  lemma BadName(disk: Disk, s: string, c: nat, gap: string, typ: string, name: string, t: string, env: Env)
    requires AllBlank(gap) && Balanced(typ, 0) && |typ| < 0xFFFF
    requires (name == "" || GuardOk(name)) && (t != "" ==> !IsBlank(t[0]) && !IsIdent(t[0]))
    requires var rest := gap + (name + (if name == "" then t else gap + t));
      Occurs(s, c, "#param" + (gap + ("(" + (typ + (")" + rest))))) && c + |"#param" + (gap + ("(" + (typ + (")" + rest))))| == |s|
    requires Trim(typ) == "" || name == "" || t == "" || t[0] != '='
    ensures c < |s| && Step(disk, s, c, env) == Halt(Code(-400))
  {
    hide Step, Match, Occurs, AllBlank, GuardOk, Balanced, DoParam, IsIdent, TypeEnd, Trim, ParamRest;
    var rest := gap + (name + (if name == "" then t else gap + t));
    var tail := "(" + (typ + (")" + rest));
    Signs();
    OccursParts(s, c, "#param", gap + tail);
    AfterName(s, c + 6, gap, tail);
    AreNames();
    NamedStep(disk, s, c, "#param", env);
    ParamIs(disk, s, c + 6, env);
    Opening(s, c + 6, gap, tail);
    var b := c + 6 + |gap| + 1;
    OccursParts(s, b - 1, "(", typ + (")" + rest));
    assert typ + (")" + rest) == (typ + ")") + rest;
    OccursParts(s, b, typ + ")", rest);
    TypeText(s, b, typ);
    var k := b + |typ| + 1;
    if Trim(typ) != "" { NameMissing(s, k, gap, Trim(typ), name, t, env); }
    TypeThere(s, c + 6, b, typ, env);
  }

  lemma TypeThere(s: string, c: nat, b: nat, typ: string, env: Env)
    requires c < b <= b + |typ| < |s| && SkipBlanks(s, c) == b - 1 && s[b - 1] == '('
    requires TypeEnd(s, b, 1) == Some(b + |typ|) && s[b..b + |typ|] == typ
    ensures DoParam(s, c, env) == if Trim(typ) == "" then Halt(Code(-400)) else ParamRest(s, b + |typ| + 1, Trim(typ), env)
  {
    hide TypeEnd, Trim, ParamRest;
  }

  lemma NameMissing(s: string, c: nat, gap: string, typ: string, name: string, t: string, env: Env)
    requires AllBlank(gap) && (name == "" || GuardOk(name)) && (t != "" ==> !IsBlank(t[0]) && !IsIdent(t[0]))
    requires var rest := gap + (name + (if name == "" then t else gap + t)); Occurs(s, c, rest) && c + |rest| == |s|
    requires name == "" || t == "" || t[0] != '='
    ensures ParamRest(s, c, typ, env) == Halt(Code(-400))
  {
    hide Occurs, AllBlank, GuardOk, ParamRest, IsIdent, IsBlank;
    if name == "" {
      assert gap + ("" + t) == gap + t;
      Nameless(s, c, gap, typ, t, env);
    } else {
      Unassigned(s, c, gap, typ, name, t, env);
    }
  }

  lemma Refused(s: string, c: nat, typ: string, n: nat, e: nat, q: nat, env: Env)
    requires c <= n <= e <= q <= |s| && SkipBlanks(s, c) == n && IdentEnd(s, n) == e && SkipBlanks(s, e) == q
    requires Trim(s[n..e]) == "" || q == |s| || s[q] != '='
    ensures ParamRest(s, c, typ, env) == Halt(Code(-400))
  {
    hide Trim, ParamDefault;
  }

  lemma Nameless(s: string, c: nat, gap: string, typ: string, t: string, env: Env)
    requires AllBlank(gap) && Occurs(s, c, gap + t) && c + |gap + t| == |s| && (t != "" ==> !IsBlank(t[0]) && !IsIdent(t[0]))
    ensures ParamRest(s, c, typ, env) == Halt(Code(-400))
  {
    hide Occurs, AllBlank, SkipBlanks, IdentEnd, ParamRest, IsIdent, IsBlank, Trim;
    Blanks(s, c, gap, t);
    var n := c + |gap|;
    NoName(s, n, t);
    EmptyTrim();
    Refused(s, c, typ, n, n, SkipBlanks(s, n), env);
  }

  lemma Unassigned(s: string, c: nat, gap: string, typ: string, name: string, t: string, env: Env)
    requires AllBlank(gap) && GuardOk(name) && (t != "" ==> !IsBlank(t[0]) && !IsIdent(t[0])) && (t == "" || t[0] != '=')
    requires var rest := gap + (name + (gap + t)); Occurs(s, c, rest) && c + |rest| == |s|
    ensures ParamRest(s, c, typ, env) == Halt(Code(-400))
  {
    hide Occurs, AllBlank, GuardOk, SkipBlanks, IdentEnd, ParamRest, IsIdent, IsBlank, Trim;
    NameIsNoBlank(name);
    Opening(s, c, gap, name + (gap + t));
    var n := c + |gap|;
    OccursParts(s, n, name, gap + t);
    NameStops(s, n, name, gap, t);
    var e := n + |name|;
    Blanks(s, e, gap, t);
    Refused(s, c, typ, n, e, e + |gap|, env);
  }

  lemma EmptyTrim()
    ensures Trim("") == ""
  {}

  lemma NoName(s: string, c: nat, t: string)
    requires Occurs(s, c, t) && c + |t| == |s| && (t != "" ==> !IsIdent(t[0]))
    ensures IdentEnd(s, c) == c && s[c..c] == ""
  {
    if t != "" { OccursAt(s, c, t, 0); }
  }

  /** Blanks up to `t` or the end of the text. */
  lemma Blanks(s: string, c: nat, gap: string, t: string)
    requires AllBlank(gap) && Occurs(s, c, gap + t) && c + |gap + t| == |s| && (t != "" ==> !IsBlank(t[0]))
    ensures SkipBlanks(s, c) == c + |gap| <= |s| && Occurs(s, c + |gap|, t) && (t != "" ==> c + |gap| < |s| && s[c + |gap|] == t[0])
  {
    hide Occurs, AllBlank;
    OccursParts(s, c, gap, t);
    if t == "" { BlanksToEnd(s, c, gap); } else { Opening(s, c, gap, t); }
  }

  lemma NameStops(s: string, n: nat, name: string, gap: string, t: string)
    requires GuardOk(name) && AllBlank(gap) && Occurs(s, n, name) && Occurs(s, n + |name|, gap + t)
    requires n + |name| + |gap + t| == |s| && (t != "" ==> !IsIdent(t[0]))
    ensures IdentEnd(s, n) == n + |name|
  {
    hide Occurs, GuardOk;
    if gap + t != "" {
      OccursAt(s, n + |name|, gap + t, 0);
      if gap != "" { BlankIsNoName(gap[0]); }
      NameRun(s, n, name);
    } else {
      NameToEnd(s, n, name);
    }
  }

  lemma NameToEnd(s: string, n: nat, name: string)
    requires GuardOk(name) && Occurs(s, n, name) && n + |name| == |s|
    ensures IdentEnd(s, n) == n + |name|
  {
    forall k | n <= k < n + |name| ensures IsIdent(s[k]) { OccursAt(s, n, name, k - n); }
    IdentRun(s, n, n + |name|);
  }
}
