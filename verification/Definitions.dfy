/** What `#define` does to the words that come after it. */
module Definitions {
  import opened Tokens
  import opened Texts
  import opened Conditions
  import opened Directives
  import opened Expansion
  import opened Substitution
  import opened Branches
  import opened Selection
  import opened Guards

  /** Aliases as they are written, with `&` between them. */
  function Aliases(names: seq<string>): string
    requires names != []
  {
    if |names| == 1 then names[0] else names[0] + "&" + Aliases(names[1..])
  }

  predicate NamesOk(names: seq<string>) { forall n :: n in names ==> GuardOk(n) }

  /** All of `names` stand for `content`; when one occurs twice that makes no difference. */
  function WithAll(macros: Macros, names: seq<string>, content: string): Macros
    decreases |names|
  {
    if names == [] then macros else WithAll(macros[names[0] := content], names[1..], content)
  }

  lemma {:induction false} WithAllLooks(macros: Macros, names: seq<string>, content: string, w: string)
    ensures var m := WithAll(macros, names, content);
      if w in names then w in m && m[w] == content else (w in m <==> w in macros) && (w in m ==> m[w] == macros[w])
    decreases |names|
  {
    if names != [] {
      WithAllLooks(macros[names[0] := content], names[1..], content, w);
      assert w in names <==> w == names[0] || w in names[1..];
    }
  }

  lemma {:induction false} FoundAmp(s: string, c: nat, g: string)
    requires GuardOk(g) && Occurs(s, c, g) && (c + |g| < |s| ==> s[c + |g|] == '&')
    ensures Find(s, c, '&') == c + |g|
  {
    forall k | c <= k < c + |g| ensures s[k] != '&' { OccursAt(s, c, g, k - c); }
    if c + |g| < |s| { FoundAt(s, c, '&', c + |g|); } else { FoundNone(s, c); }
  }

  lemma {:induction false} FoundNone(s: string, c: nat)
    requires c <= |s| && forall k :: c <= k < |s| ==> s[k] != '&'
    ensures Find(s, c, '&') == |s|
    decreases |s| - c
  {
    if c < |s| { FoundNone(s, c + 1); }
  }

  /** One alias is registered, up to the `&` after it or the end. */
  lemma RegisterName(macros: Macros, s: string, c: nat, n: string, content: string)
    requires GuardOk(n) && Occurs(s, c, n) && (c + |n| < |s| ==> s[c + |n|] == '&')
    ensures Register(macros, s, c, content) ==
      if c + |n| == |s| then macros[n := content] else Register(macros[n := content], s, c + |n| + 1, content)
  {
    hide Trim, GuardOk;
    GuardTrimmed(n);
    FoundAmp(s, c, n);
    NotEmptyName(n);
  }

  lemma AliasesParts(s: string, c: nat, names: seq<string>)
    requires |names| > 1 && Occurs(s, c, Aliases(names))
    ensures Occurs(s, c, names[0]) && Occurs(s, c + |names[0]| + 1, Aliases(names[1..])) && s[c + |names[0]|] == '&'
    ensures |Aliases(names)| == |names[0]| + 1 + |Aliases(names[1..])|
  {
    hide Occurs;
    OccursParts(s, c, names[0] + "&", Aliases(names[1..]));
    OccursParts(s, c, names[0], "&");
    OccursAt(s, c + |names[0]|, "&", 0);
  }

  lemma FirstAlias(names: seq<string>)
    requires names != [] && NamesOk(names)
    ensures GuardOk(names[0]) && NamesOk(names[1..])
  {
    hide GuardOk;
  }

  /** Every alias is registered, and nothing else. */
  lemma {:induction false} RegisterAll(macros: Macros, s: string, c: nat, names: seq<string>, content: string)
    requires names != [] && NamesOk(names) && Occurs(s, c, Aliases(names)) && c + |Aliases(names)| == |s|
    ensures Register(macros, s, c, content) == WithAll(macros, names, content)
    decreases |names|
  {
    hide Occurs, GuardOk, NamesOk, Register;
    FirstAlias(names);
    if |names| == 1 {
      assert names[1..] == [];
    } else {
      hide Aliases;
      AliasesParts(s, c, names);
      RegisterAll(macros[names[0] := content], s, c + |names[0]| + 1, names[1..], content);
    }
    RegisterName(macros, s, c, names[0], content);
  }

  lemma NotEmptyName(n: string)
    requires GuardOk(n)
    ensures n != ""
  {}

  /** A line that says that the definition goes on after it. */
  predicate Carries(line: string) { Contains(line, "__/__") || Contains(line, "__ / __") }

  /** Every line but the last one carries on, and the last one does not. */
  predicate Continued(v: string)
    decreases |v|
  {
    var e := Find(v, 0, '\n');
    if e == |v| then !Carries(v) else Carries(v[..e]) && Continued(v[e + 1..])
  }

  /** A definition's text: continued lines without blanks at the ends of the whole. */
  predicate ValueOk(v: string) { (v != "" ==> !IsBlank(v[0]) && !IsBlank(v[|v| - 1])) && Continued(v) }

  /** The line that defines `names` as `v`. */
  function DefineText(names: seq<string>, v: string): string
    requires names != []
  {
    " " + (Aliases(names) + (" " + v + "\n"))
  }

  lemma {:induction false} AliasesFound(s: string, c: nat, names: seq<string>)
    requires names != [] && NamesOk(names) && Occurs(s, c, Aliases(names))
    requires var e := c + |Aliases(names)|; e < |s| && s[e] == ' '
    ensures AliasesEnd(s, IdentEnd(s, c)) == c + |Aliases(names)|
    decreases |names|
  {
    hide IsIdent, Occurs, GuardOk, IdentEnd, NamesOk;
    var n := names[0];
    AliasesNext(s, c + |n|);
    NoNameChar();
    FirstAlias(names);
    if |names| > 1 {
      AliasesParts(s, c, names);
      AliasesFound(s, c + |n| + 1, names[1..]);
    }
    NameRun(s, c, n);
  }

  lemma AliasesNext(s: string, c: nat)
    requires c < |s|
    ensures AliasesEnd(s, c) == if s[c] == '&' then AliasesEnd(s, IdentEnd(s, c + 1)) else c
  {}

  lemma NoNameChar()
    ensures !IsIdent('&') && !IsIdent(' ')
  {}

  lemma NameRun(s: string, c: nat, n: string)
    requires GuardOk(n) && Occurs(s, c, n) && c + |n| < |s| && !IsIdent(s[c + |n|])
    ensures IdentEnd(s, c) == c + |n|
  {
    forall k | c <= k < c + |n| ensures IsIdent(s[k]) { OccursAt(s, c, n, k - c); }
    IdentRun(s, c, c + |n|);
  }

  lemma AliasesStart(names: seq<string>)
    requires names != [] && NamesOk(names)
    ensures Aliases(names) != "" && !IsBlank(Aliases(names)[0])
  {
    assert names[0] in names;
  }

  lemma LineFound(s: string, c: nat, v: string)
    requires Occurs(s, c, v + "\n")
    ensures var e := Find(v, 0, '\n');
      && c + |v| < |s| && Find(s, c, '\n') == c + e && s[c..c + e] == v[..e]
      && (e < |v| ==> Occurs(s, c + e + 1, v[e + 1..] + "\n"))
  {
    var t, e := v + "\n", Find(v, 0, '\n');
    forall k | 0 <= k <= |v| ensures s[c + k] == t[k] { OccursAt(s, c, t, k); }
    forall k | c <= k < c + e ensures s[k] != '\n' { assert s[c + (k - c)] == v[k - c]; }
    FoundAt(s, c, '\n', c + e);
    SameSlice(s, c, v, c, c + e);
    if e < |v| {
      var x, y := v[..e + 1], v[e + 1..] + "\n";
      assert x + y == t;
      OccursParts(s, c, x, y);
    }
  }

  /** The lines of a definition are taken up to the first that does not carry on. */
  lemma {:induction false} BodyLines(s: string, c: nat, v: string, start: nat)
    requires start <= c && Occurs(s, c, v + "\n") && Continued(v)
    ensures c + |v| < |s| && BodyFrom(s, c, start) == Body(c + |v|, c + |v| + 1)
    decreases |v|
  {
    hide Occurs, Contains;
    var e := Find(v, 0, '\n');
    LineFound(s, c, v);
    if e < |v| { BodyLines(s, c + e + 1, v[e + 1..], start); } else { assert v[..e] == v; }
  }

  /** The value of a definition, found between the blanks and the line end. */
  lemma ValueFound(s: string, c: nat, v: string)
    requires ValueOk(v) && Occurs(s, c, " " + v + "\n")
    ensures var b := SkipBlanks(s, c); var e := c + 1 + |v|;
      && e < |s| && b <= e && BodyFrom(s, b, b) == Body(e, e + 1) && s[b..BackBlanks(s, e, b)] == v
  {
    hide Continued, BodyFrom, Occurs;
    var e := c + 1 + |v|;
    var x, y := " ", v + "\n";
    assert x + y == " " + v + "\n";
    OccursParts(s, c, x, y);
    OccursAt(s, c, " ", 0);
    BodyLines(s, c + 1, v, c + 1);
    ValuePlace(s, c + 1, v);
    OneBlank(s, c);
  }

  lemma ValuePlace(s: string, b: nat, v: string)
    requires (v != "" ==> !IsBlank(v[0]) && !IsBlank(v[|v| - 1])) && Occurs(s, b, v + "\n")
    ensures b + |v| < |s| && !IsBlank(s[b]) && s[b..BackBlanks(s, b + |v|, b)] == v
  {
    var t := v + "\n";
    forall k | 0 <= k <= |v| ensures s[b + k] == t[k] { OccursAt(s, b, t, k); }
    assert s[b] == t[0];
    if v != "" { assert s[b + |v| - 1] == t[|v| - 1]; }
    SameSlice(s, b, v, b, b + |v|);
  }

  /** Where the names of a definition are, and its value. */
  lemma NamesFound(s: string, c: nat, names: seq<string>, v: string)
    requires names != [] && NamesOk(names) && Occurs(s, c, DefineText(names, v))
    ensures var e := c + 1 + |Aliases(names)|;
      && e <= |s| && SkipBlanks(s, c) == c + 1 && AliasesEnd(s, IdentEnd(s, c + 1)) == e
      && s[c + 1..e] == Aliases(names) && Occurs(s, e, " " + v + "\n")
  {
    hide AliasesEnd, IdentEnd, NamesOk, Aliases, Occurs;
    var a := Aliases(names);
    OccursParts(s, c, " ", a + (" " + v + "\n"));
    OccursParts(s, c + 1, a, " " + v + "\n");
    OccursIs(s, c + 1, a);
    OccursAt(s, c, " ", 0);
    AliasesStart(names);
    OccursAt(s, c + 1, a, 0);
    OneBlank(s, c);
    OccursIs(s, c + 1 + |a|, " " + v + "\n");
    OccursAt(s, c + 1 + |a|, " " + v + "\n", 0);
    AliasesFound(s, c + 1, names);
  }

  lemma OccursIs(s: string, c: nat, t: string)
    requires Occurs(s, c, t)
    ensures c + |t| <= |s| && s[c..c + |t|] == t
  {}

  lemma OneBlank(s: string, c: nat)
    requires c + 1 < |s| && IsBlank(s[c]) && !IsBlank(s[c + 1])
    ensures SkipBlanks(s, c) == c + 1
  {
    assert SkipBlanks(s, c + 1) == c + 1;
  }

  /** `#define A&B v` makes every one of its names stand for `v`. */
  lemma DefinesAll(s: string, c: nat, names: seq<string>, v: string, env: Env)
    requires names != [] && NamesOk(names) && ValueOk(v) && Occurs(s, c, DefineText(names, v))
    ensures DoDefine(s, c, env) == Go(c + |DefineText(names, v)|, env.(macros := WithAll(env.macros, names, v)))
  {
    hide Register, BodyFrom, AliasesEnd, IdentEnd, ValueOk, NamesOk, Occurs, Aliases, SkipBlanks, BackBlanks;
    var a := Aliases(names);
    NamesFound(s, c, names, v);
    ValueFound(s, c + 1 + |a|, v);
    WholeOccurs(a);
    RegisterAll(env.macros, a, 0, names, v);
  }

  lemma WholeOccurs(t: string)
    ensures Occurs(t, 0, t)
  {}

  /** The definition is one round of reading. */
  lemma DefineAllStep(disk: Disk, s: string, c: nat, names: seq<string>, v: string, env: Env)
    requires names != [] && NamesOk(names) && ValueOk(v) && Occurs(s, c, "#define" + DefineText(names, v))
    ensures var e := c + 7 + |DefineText(names, v)|;
      c < e <= |s| && Step(disk, s, c, env) == Go(e, env.(macros := WithAll(env.macros, names, v)))
  {
    hide Step, DoDefine, DefineText, WithAll, ValueOk, NamesOk, Occurs, IdentEnd;
    var d := DefineText(names, v);
    OccursParts(s, c, "#define", d);
    DefineTextStarts(names, v);
    OccursAt(s, c + 7, d, 0);
    OccursAt(s, c, "#define", 0);
    Names();
    NameFound(s, c, "#define");
    DefinesAll(s, c + 7, names, v, env);
    StepDirective(disk, s, c, "#define", env);
  }

  lemma DefineTextStarts(names: seq<string>, v: string)
    requires names != []
    ensures DefineText(names, v) != "" && DefineText(names, v)[0] == ' '
  {}

  /** After the line, plain text is read with the new table. */
  lemma DefineThenText(disk: Disk, s: string, names: seq<string>, v: string, t: string, env: Env, budget: nat)
    requires names != [] && NamesOk(names) && ValueOk(v) && Lines(t) && s == "#define" + DefineText(names, v) + t
    ensures Expand(disk, s, 0, env, budget) ==
      Done(Emit(env, Replace(t, WithAll(env.macros, names, v))).(macros := WithAll(env.macros, names, v)), budget)
  {
    hide Expand, Step, DefineText, Replace, Lines, WithAll, ValueOk, NamesOk, Occurs;
    var d := 7 + |DefineText(names, v)|;
    WholeOccurs(s);
    OccursParts(s, 0, "#define" + DefineText(names, v), t);
    DefineAllStep(disk, s, 0, names, v, env);
    var env1 := env.(macros := WithAll(env.macros, names, v));
    ExpandGo(disk, s, 0, env, budget, d, env1);
    ExpandsLines(disk, s, d, t, env1, budget);
    ExpandEnd(disk, s, Emit(env1, Replace(t, env1.macros)), budget);
  }

  /** `v` wherever a word is one of `names`; other words as they were to come out before. */
  function Meant(bits: seq<Bit>, names: seq<string>, v: string, macros: Macros): string {
    if bits == [] then ""
    else
      (match bits[0]
       case Name(w) => if w in names then v else if w in macros then macros[w] else w
       case Mark(c) => [c]) + Meant(bits[1..], names, v, macros)
  }

  lemma {:induction false} MeantSpoken(bits: seq<Bit>, names: seq<string>, v: string, macros: Macros)
    ensures Spoken(bits, WithAll(macros, names, v)) == Meant(bits, names, v, macros)
    decreases |bits|
  {
    hide WithAll;
    if bits != [] {
      if bits[0].Name? { WithAllLooks(macros, names, v, bits[0].word); }
      MeantSpoken(bits[1..], names, v, macros);
    }
  }

  lemma BitsReplaced(bits: seq<Bit>, macros: Macros)
    requires BitsOk(bits) && Lines(BitsText(bits))
    ensures Replace(BitsText(bits), macros) == Spoken(bits, macros)
  {
    hide BitsOk, Pieces, Substituted, BitsText;
    var t := BitsText(bits);
    WholeOccurs(t);
    QuietWhole(t);
    BitsSpoken(bits, t, 0, macros);
  }

  lemma QuietWhole(t: string)
    requires Lines(t)
    ensures Quiet(t, 0, |t|)
  {
    WholeOccurs(t);
    QuietAt(t, 0, t);
  }

  /** After the definition, a text of words and other characters comes out with the value for each of the names. */
  lemma DefineThenUse(disk: Disk, s: string, names: seq<string>, v: string, bits: seq<Bit>, env: Env, budget: nat)
    requires names != [] && NamesOk(names) && ValueOk(v) && BitsOk(bits) && Lines(BitsText(bits))
    requires s == "#define" + DefineText(names, v) + BitsText(bits)
    ensures var r := Expand(disk, s, 0, env, budget);
      r.Done? && r.env.out == env.out + Meant(bits, names, v, env.macros) && r.budget == budget && r.env.branches == env.branches
  {
    hide Expand, DefineText, NamesOk, ValueOk, BitsOk, Lines, Replace, WithAll, BitsText;
    DefineThenText(disk, s, names, v, BitsText(bits), env, budget);
    BitsReplaced(bits, WithAll(env.macros, names, v));
    MeantSpoken(bits, names, v, env.macros);
  }
}
