/** `#param (type) name = default`, which writes a constant and uses a macro up. */
module Params {
  import opened Tokens
  import opened Texts
  import opened Conditions
  import opened Directives
  import opened Expansion
  import opened Substitution
  import opened Branches
  import opened Selection
  import opened Guards
  import opened Definitions
  import opened Forms

  /** Every parenthesis is closed, `depth` of them from before, and the text is one line. */
  predicate Balanced(t: string, depth: nat) {
    if t == "" then depth == 0
    else if t[0] == '(' then Balanced(t[1..], depth + 1)
    else if t[0] == ')' then depth > 0 && Balanced(t[1..], depth - 1)
    else t[0] != '\n' && Balanced(t[1..], depth)
  }

  /** The parenthesis that closes the type is the first one its own do not need. */
  lemma {:induction false} TypeFound(s: string, c: nat, t: string, depth: nat)
    requires Balanced(t, depth) && Occurs(s, c, t + ")") && depth + |t| < 0xFFFF
    ensures TypeEnd(s, c, depth + 1) == Some(c + |t|) && c + |t| < |s|
    decreases |t|
  {
    hide Occurs;
    OccursWithin(s, c, t + ")");
    OccursAt(s, c, t + ")", 0);
    if t != "" {
      assert t + ")" == [t[0]] + (t[1..] + ")");
      OccursParts(s, c, [t[0]], t[1..] + ")");
      TypeFound(s, c + 1, t[1..], if t[0] == '(' then depth + 1 else if t[0] == ')' then depth - 1 else depth);
    }
  }

  lemma TypeText(s: string, c: nat, t: string)
    requires Balanced(t, 0) && Occurs(s, c, t + ")") && |t| < 0xFFFF
    ensures c + |t| < |s| && TypeEnd(s, c, 1) == Some(c + |t|) && s[c..c + |t|] == t
  {
    hide Occurs;
    TypeFound(s, c, t, 0);
    OccursParts(s, c, t, ")");
    OccursIs(s, c, t);
  }

  /** The text after `#param`. */
  function ParamLine(gap: string, typ: string, name: string, rest: string): string {
    gap + ("(" + (typ + (")" + (gap + (name + (gap + ("=" + (rest + "\n"))))))))
  }

  /** What the constant is given: the macro's text, 1 for a macro without one, the default without a macro. */
  lemma ParamWrites(disk: Disk, s: string, c: nat, gap: string, typ: string, name: string, rest: string, env: Env)
    requires AllBlank(gap) && Balanced(typ, 0) && |typ| < 0xFFFF && Trim(typ) != "" && GuardOk(name)
    requires (forall k :: 0 <= k < |rest| ==> rest[k] != '\n') && Occurs(s, c, "#param" + ParamLine(gap, typ, name, rest))
    ensures var e := c + |"#param" + ParamLine(gap, typ, name, rest)|; var m := env.macros;
      var value := if name !in m then Trim(rest) else if m[name] == "" then "1" else Trim(m[name]);
      && c < e <= |s|
      && Step(disk, s, c, env) == Go(e, env.(macros := m - {name},
           out := env.out + ("constexpr (" + Trim(typ) + ") " + name + " = static_cast<" + Trim(typ) + ">(" + value + ");\n")))
  {
    hide Occurs, Step, Trim, AllBlank, GuardOk, Balanced, Match, DoParam, ParamLine, IsIdent;
    var line := ParamLine(gap, typ, name, rest);
    OccursParts(s, c, "#param", line);
    LineStarts(gap, typ, name, rest);
    OccursWithin(s, c + 6, line);
    OccursAt(s, c + 6, line, 0);
    AreNames();
    NamedStep(disk, s, c, "#param", env);
    ParamIs(disk, s, c + 6, env);
    ParamDone(s, c + 6, gap, typ, name, rest, env);
  }

  lemma LineStarts(gap: string, typ: string, name: string, rest: string)
    requires AllBlank(gap)
    ensures var t := ParamLine(gap, typ, name, rest); t != "" && !IsIdent(t[0])
  {
    var t := ParamLine(gap, typ, name, rest);
    if gap != "" { assert t[0] == gap[0]; BlankIsNoName(gap[0]); } else { assert t[0] == '('; }
  }

  lemma ParamIs(disk: Disk, s: string, c: nat, env: Env)
    requires c <= |s|
    ensures Directive(disk, s, c, Match("#param"), env) == DoParam(s, c, env)
  {
    hide DoParam;
    NameKinds();
  }

  lemma ParamDone(s: string, c: nat, gap: string, typ: string, name: string, rest: string, env: Env)
    requires AllBlank(gap) && Balanced(typ, 0) && |typ| < 0xFFFF && Trim(typ) != "" && GuardOk(name)
    requires (forall k :: 0 <= k < |rest| ==> rest[k] != '\n') && Occurs(s, c, ParamLine(gap, typ, name, rest))
    ensures var e := c + |ParamLine(gap, typ, name, rest)|; var m := env.macros;
      var value := if name !in m then Trim(rest) else if m[name] == "" then "1" else Trim(m[name]);
      && e <= |s|
      && DoParam(s, c, env) == Go(e, env.(macros := m - {name},
           out := env.out + ("constexpr (" + Trim(typ) + ") " + name + " = static_cast<" + Trim(typ) + ">(" + value + ");\n")))
  {
    hide Occurs, Trim, AllBlank, GuardOk, Balanced, TypeEnd, SkipBlanks, ParamRest;
    var r1 := gap + (name + (gap + ("=" + (rest + "\n"))));
    Opening(s, c, gap, "(" + (typ + (")" + r1)));
    OccursParts(s, c + |gap|, "(", typ + (")" + r1));
    var b := c + |gap| + 1;
    assert typ + (")" + r1) == (typ + ")") + r1;
    OccursParts(s, b, typ + ")", r1);
    TypeText(s, b, typ);
    NamedDefault(s, b + |typ| + 1, gap, Trim(typ), name, rest, env);
  }

  lemma NamedDefault(s: string, c: nat, gap: string, typ: string, name: string, rest: string, env: Env)
    requires AllBlank(gap) && GuardOk(name) && (forall k :: 0 <= k < |rest| ==> rest[k] != '\n')
    requires Occurs(s, c, gap + (name + (gap + ("=" + (rest + "\n")))))
    ensures var e := c + |gap + (name + (gap + ("=" + (rest + "\n"))))|; var m := env.macros;
      var value := if name !in m then Trim(rest) else if m[name] == "" then "1" else Trim(m[name]);
      && e <= |s|
      && ParamRest(s, c, typ, env) == Go(e, env.(macros := m - {name},
           out := env.out + ("constexpr (" + typ + ") " + name + " = static_cast<" + typ + ">(" + value + ");\n")))
  {
    hide Occurs, Trim, AllBlank, GuardOk, SkipBlanks, IdentEnd, ParamDefault;
    var r2 := "=" + (rest + "\n");
    NameIsNoBlank(name);
    Opening(s, c, gap, name + (gap + r2));
    var n := c + |gap|;
    OccursParts(s, n, name, gap + r2);
    NameBefore(s, n, name, gap, r2);
    var e := n + |name|;
    GuardTrimmed(name);
    OccursIs(s, n, name);
    Opening(s, e, gap, r2);
    OccursParts(s, e + |gap|, "=", rest + "\n");
    DefaultTaken(s, e + |gap| + 1, typ, name, rest, env);
  }

  lemma NameBefore(s: string, n: nat, name: string, gap: string, r: string)
    requires GuardOk(name) && AllBlank(gap) && r != "" && !IsIdent(r[0]) && Occurs(s, n, name) && Occurs(s, n + |name|, gap + r)
    ensures IdentEnd(s, n) == n + |name|
  {
    hide Occurs, GuardOk;
    OccursWithin(s, n + |name|, gap + r);
    OccursAt(s, n + |name|, gap + r, 0);
    if gap != "" { BlankIsNoName(gap[0]); }
    NameRun(s, n, name);
  }

  lemma DefaultTaken(s: string, c: nat, typ: string, name: string, rest: string, env: Env)
    requires (forall k :: 0 <= k < |rest| ==> rest[k] != '\n') && Occurs(s, c, rest + "\n")
    ensures var e := c + |rest| + 1; var m := env.macros;
      var value := if name !in m then Trim(rest) else if m[name] == "" then "1" else Trim(m[name]);
      && e <= |s|
      && ParamDefault(s, c, typ, name, env) == Go(e, env.(macros := m - {name},
           out := env.out + ("constexpr (" + typ + ") " + name + " = static_cast<" + typ + ">(" + value + ");\n")))
  {
    hide Occurs, Trim, SkipBlanks, Find;
    DefaultFound(s, c, rest);
  }

  lemma DefaultFound(s: string, c: nat, rest: string)
    requires (forall k :: 0 <= k < |rest| ==> rest[k] != '\n') && Occurs(s, c, rest + "\n")
    ensures var d := SkipBlanks(s, c); var l := Find(s, d, '\n');
      l == c + |rest| < |s| && Trim(s[d..l]) == Trim(rest)
  {
    hide Occurs, Trim;
    var t, l := rest + "\n", c + |rest|;
    OccursWithin(s, c, t);
    forall k | 0 <= k < |rest| ensures s[c + k] == rest[k] { OccursAt(s, c, t, k); }
    OccursAt(s, c, t, |rest|);
    assert s[l] == '\n';
    var d := SkipBlanks(s, c);
    assert d <= l;
    forall k | d <= k < l ensures s[k] != '\n' { assert s[c + (k - c)] == rest[k - c]; }
    FoundAt(s, d, '\n', l);
    SameSlice(s, c, rest, d, l);
    forall k | 0 <= k < d - c ensures IsBlank(rest[k]) { assert s[c + k] == rest[k]; }
    LeadingBlanks(rest, d - c);
    assert rest[d - c..|rest|] == rest[d - c..];
  }

  lemma LeadingBlanks(t: string, b: nat)
    requires b <= |t| && forall k :: 0 <= k < b ==> IsBlank(t[k])
    ensures Trim(t[b..]) == Trim(t)
  {
    TrimLeftBlanks(t, b);
  }
}
