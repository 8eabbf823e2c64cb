/**
 Skipped branches. A body is a list of lines; `Depth` follows its conditionals without looking
 at characters. Skipping goes through a body exactly as `Depth` says, so it ends at the line
 that closes the branch and nowhere else.
 */
module Branches {
  import opened Tokens
  import opened Texts
  import opened Conditions
  import opened Directives
  import opened Expansion
  import opened Substitution

  /**
   Ordinary text, an `#include` of a quoted path, a multi-line definition with what follows it,
   a `#skip` with the line it skips, or any other directive with what follows its name.
   */
  datatype Line =
    | Ordinary(text: string)
    | Including(path: string)
    | Multi(def: string, after: string)
    | Skipping(rest: string, next: string)
    | Command(name: string, rest: string)

  function Write(l: Line): string {
    match l
    case Ordinary(t) => t + "\n"
    case Including(p) => "#include" + (" \"" + p + "\"\n")
    case Multi(d, t) => "#define_m" + (d + "#enddef" + (t + "\n"))
    case Skipping(r, n) => "#skip" + (r + "\n" + (n + "\n"))
    case Command(n, r) => n + (r + "\n")
  }

  function WriteAll(ls: seq<Line>): string {
    if ls == [] then "" else Write(ls[0]) + WriteAll(ls[1..])
  }

  predicate QuietText(t: string) {
    forall k :: 0 <= k < |t| ==> !IsQuote(t[k]) && t[k] != '#' && !StartsComment(t, k)
  }

  /** `#` and at least nothing but identifier characters. */
  predicate IsName(n: string) {
    n != "" && n[0] == '#' && forall k :: 1 <= k < |n| ==> IsIdent(n[k])
  }

  /**
   Lines that skipping can be followed through one at a time: ordinary text and what follows a
   directive hold no quotes, directives or comments. Definitions, of one line or many, and the
   lines of a `#skip` may hold anything.
   */
  predicate Clear(l: Line) {
    match l
    case Ordinary(t) => QuietText(t + "\n")
    case Including(p) => forall k :: 0 <= k < |p| ==> !IsQuote(p[k])
    case Multi(d, t) =>
      && (d != "" ==> !IsIdent(d[0])) && QuietText(t + "\n")
      && (forall j :: 0 <= j < |d| ==> !Occurs(d + "#enddef", j, "#enddef"))
    case Skipping(r, n) =>
      && (r != "" ==> !IsIdent(r[0]))
      && (forall k :: 0 <= k < |r| ==> r[k] != '\n') && (forall k :: 0 <= k < |n| ==> n[k] != '\n')
    case Command(n, r) =>
      && IsName(n) && (r != "" ==> !IsIdent(r[0]) && r[|r| - 1] != '/')
      && (Match(n) == Define || QuietText(r + "\n"))
      && (forall k :: 0 <= k < |r| ==> r[k] != '\n')
      && Match(n) != DefineM && Match(n) != Skip
  }

  /** What a line does to the nesting depth; nothing when it ends the branch that is skipped. */
  function Deeper(l: Line, depth: nat, taken: bool): Option<nat> {
    if !l.Command? then Some(depth)
    else
      match Match(l.name)
      case If | Ifndef => if depth + 1 < 0x1_0000 then Some(depth + 1) else None
      case Endif => if depth > 1 then Some(depth - 1) else None
      case Else | Elif => if depth > 1 || taken then Some(depth) else None
      case _ => Some(depth)
  }

  function Depth(ls: seq<Line>, depth: nat, taken: bool): Option<nat> {
    if ls == [] then Some(depth)
    else
      match Deeper(ls[0], depth, taken)
      case None => None
      case Some(d) => Depth(ls[1..], d, taken)
  }

  // ---------- following the skipper ----------

  /** Quiet characters are passed over. */
  lemma {:induction false} SkipQuiet(s: string, a: nat, b: nat, nest: nat, taken: bool)
    requires Quiet(s, a, b) && 0 < nest
    ensures SkipFrom(s, a, nest, NoQuotes, taken) == SkipFrom(s, b, nest, NoQuotes, taken)
    decreases b - a
  {
    if a < b { SkipQuiet(s, a + 1, b, nest, taken); }
  }

  /** Inside double quotes everything but quotes is passed over. */
  lemma {:induction false} SkipQuoted(s: string, a: nat, b: nat, nest: nat, taken: bool)
    requires a <= b <= |s| && 0 < nest && forall k :: a <= k < b ==> !IsQuote(s[k])
    ensures SkipFrom(s, a, nest, Quotes(true, false), taken) == SkipFrom(s, b, nest, Quotes(true, false), taken)
    decreases b - a
  {
    if a < b { SkipQuoted(s, a + 1, b, nest, taken); }
  }

  lemma QuietAt(s: string, c: nat, t: string)
    requires Occurs(s, c, t) && QuietText(t) && (t != "" ==> t[|t| - 1] != '/')
    ensures Quiet(s, c, c + |t|)
  {
    forall k | c <= k < c + |t| ensures !IsQuote(s[k]) && s[k] != '#' && !StartsComment(s, k) {
      OccursAt(s, c, t, k - c);
      if k - c + 1 < |t| { OccursAt(s, c, t, k - c + 1); }
    }
  }

  /** A directive's name is found whole. */
  lemma NameFound(s: string, c: nat, n: string)
    requires IsName(n) && Occurs(s, c, n) && (c + |n| < |s| ==> !IsIdent(s[c + |n|]))
    ensures s[c] == '#' && IdentEnd(s, c + 1) == c + |n| && s[c..IdentEnd(s, c + 1)] == n
  {
    forall k | c < k < c + |n| ensures IsIdent(s[k]) { OccursAt(s, c, n, k - c); }
    OccursAt(s, c, n, 0);
    IdentRun(s, c + 1, c + |n|);
  }

  lemma {:induction false} FoundAt(s: string, c: nat, ch: char, e: nat)
    requires c <= e < |s| && s[e] == ch && forall k :: c <= k < e ==> s[k] != ch
    ensures Find(s, c, ch) == e
    decreases e - c
  {
    if c < e { FoundAt(s, c + 1, ch, e); }
  }

  lemma SkipsDirective(s: string, c: nat, n: string, nest: nat, taken: bool)
    requires IsName(n) && Occurs(s, c, n) && (c + |n| < |s| ==> !IsIdent(s[c + |n|])) && 0 < nest
    ensures var m := SkipDirective(s, c + |n|, Match(n), nest, taken);
      SkipFrom(s, c, nest, NoQuotes, taken) ==
        if m.Ends? then m.result else SkipFrom(s, m.next, m.nest, NoQuotes, taken)
  {
    hide Match, SkipDirective;
    NameFound(s, c, n);
  }

  /** A rest of line is where it is, up to and with its line end. */
  lemma LineRest(s: string, e: nat, r: string)
    requires Occurs(s, e, r + "\n") && (r != "" ==> !IsIdent(r[0])) && forall k :: 0 <= k < |r| ==> r[k] != '\n'
    ensures e + |r| < |s| && !IsIdent(s[e]) && Find(s, e, '\n') == e + |r| && s[e + |r|] == '\n'
  {
    var t := r + "\n";
    forall k | 0 <= k < |t| ensures s[e + k] == t[k] { OccursAt(s, e, t, k); }
    FoundAt(s, e, '\n', e + |r|);
  }

  lemma CommandWritten(l: Line)
    requires l.Command?
    ensures Write(l) == l.name + (l.rest + "\n") && |Write(l)| == |l.name| + |l.rest| + 1
  {}

  /** What follows a directive's name. */
  lemma RestAt(s: string, c: nat, l: Line)
    requires l.Command? && Clear(l) && Occurs(s, c, Write(l))
    ensures var e := c + |l.name|;
      && Occurs(s, c, l.name) && e + |l.rest| < |s| && !IsIdent(s[e])
      && Find(s, e, '\n') == e + |l.rest| && s[e + |l.rest|] == '\n' && c + |Write(l)| == e + |l.rest| + 1
      && (Match(l.name) != Define ==> Quiet(s, e, e + |l.rest| + 1))
  {
    hide Match, Occurs, QuietText, Quiet, IsIdent, IsName, Find, Write;
    CommandWritten(l);
    OccursParts(s, c, l.name, l.rest + "\n");
    LineRest(s, c + |l.name|, l.rest);
    if Match(l.name) != Define { QuietAt(s, c + |l.name|, l.rest + "\n"); }
  }

  lemma TwoLines(s: string, e: nat, r: string, n: string)
    requires Clear(Skipping(r, n)) && Occurs(s, e, r + "\n" + (n + "\n"))
    ensures e < e + |r| + |n| + 2 <= |s| && !IsIdent(s[e]) && PastTwoLines(s, e) == e + |r| + |n| + 2
  {
    OccursParts(s, e, r + "\n", n + "\n");
    LineRest(s, e, r);
    var m := e + |r| + 1;
    var t := n + "\n";
    forall k | m <= k < m + |t| ensures s[k] == t[k - m] { OccursAt(s, m, t, k - m); }
    FoundAt(s, m, '\n', m + |n|);
  }

  lemma SkipTwo(s: string, c: nat, r: string, n: string, nest: nat, taken: bool)
    requires Clear(Skipping(r, n)) && Occurs(s, c, Write(Skipping(r, n))) && 0 < nest
    ensures SkipFrom(s, c, nest, NoQuotes, taken) == SkipFrom(s, c + |Write(Skipping(r, n))|, nest, NoQuotes, taken)
  {
    hide Match, IsName, SkipFrom, Clear, Occurs, PastTwoLines;
    SkipName();
    OccursParts(s, c, "#skip", r + "\n" + (n + "\n"));
    TwoLines(s, c + 5, r, n);
    SkipsDirective(s, c, "#skip", nest, taken);
  }

  lemma SkipName()
    ensures IsName("#skip") && Match("#skip") == Skip && IsName("#define_m") && Match("#define_m") == DefineM
  {}

  lemma OccursInside(s: string, e: nat, t: string, j: nat, pat: string)
    requires Occurs(s, e, t) && e <= j && j + |pat| <= e + |t| && Occurs(s, j, pat)
    ensures Occurs(t, j - e, pat)
  {
    var w := t[j - e..j - e + |pat|];
    forall k | 0 <= k < |pat| ensures w[k] == pat[k] {
      OccursAt(s, e, t, j - e + k);
      OccursAt(s, j, pat, k);
    }
  }

  /** The end of a definition is the first there is. */
  lemma DefinitionEnds(s: string, e: nat, d: string)
    requires Occurs(s, e, d + "#enddef") && forall j :: 0 <= j < |d| ==> !Occurs(d + "#enddef", j, "#enddef")
    ensures FindText(s, e, "#enddef") == e + |d| < |s|
  {
    hide Occurs;
    var t := d + "#enddef";
    OccursParts(s, e, d, "#enddef");
    Inside(s, e, t);
    var k := FindText(s, e, "#enddef");
    if k < e + |d| { OccursInside(s, e, t, k, "#enddef"); }
  }

  lemma Inside(s: string, e: nat, t: string)
    requires Occurs(s, e, t)
    ensures e + |t| <= |s|
  {}

  lemma DefineMMoves(s: string, e: nat, nest: nat, taken: bool)
    requires e <= |s| && 0 < nest
    ensures SkipDirective(s, e, Match("#define_m"), nest, taken) == On(PastText(s, e, "#enddef"), nest)
  {
    hide Match, PastText;
    SkipName();
  }

  predicate EndsOnce(d: string) {
    (d != "" ==> !IsIdent(d[0])) && forall j :: 0 <= j < |d| ==> !Occurs(d + "#enddef", j, "#enddef")
  }

  lemma MultiWritten(d: string, t: string)
    ensures Write(Multi(d, t)) == "#define_m" + (d + "#enddef" + (t + "\n")) && |Write(Multi(d, t))| == 9 + |d| + 7 + |t| + 1
    ensures Clear(Multi(d, t)) ==> EndsOnce(d) && QuietText(t + "\n")
  {
    hide Occurs, QuietText, IsIdent;
  }

  lemma DefinitionPlaces(s: string, e: nat, d: string)
    requires EndsOnce(d) && Occurs(s, e, d + "#enddef")
    ensures e < |s| && !IsIdent(s[e]) && e + |d| + 7 <= |s| && PastText(s, e, "#enddef") == e + |d| + 7
  {
    hide Occurs, FindText, IsIdent;
    OccursAt(s, e, d + "#enddef", 0);
    DefinitionEnds(s, e, d);
    HashIsNoName();
    Inside(s, e, d + "#enddef");
  }

  lemma MultiParts(s: string, c: nat, d: string, t: string)
    requires Clear(Multi(d, t)) && Occurs(s, c, Write(Multi(d, t)))
    ensures var e := c + 9; var m := e + |d| + 7; var z := m + |t| + 1;
      && Occurs(s, c, "#define_m") && z <= |s| && z == c + |Write(Multi(d, t))|
      && !IsIdent(s[e]) && PastText(s, e, "#enddef") == m && Quiet(s, m, z)
  {
    hide Clear, Write, EndsOnce, QuietText, Quiet, Occurs, PastText, IsIdent;
    MultiWritten(d, t);
    var e := c + 9;
    OccursParts(s, c, "#define_m", d + "#enddef" + (t + "\n"));
    OccursParts(s, e, d + "#enddef", t + "\n");
    DefinitionPlaces(s, e, d);
    var m := e + |d| + 7;
    QuietAt(s, m, t + "\n");
    Inside(s, m, t + "\n");
  }

  lemma SkipMulti(s: string, c: nat, d: string, t: string, nest: nat, taken: bool)
    requires Clear(Multi(d, t)) && Occurs(s, c, Write(Multi(d, t))) && 0 < nest
    ensures SkipFrom(s, c, nest, NoQuotes, taken) == SkipFrom(s, c + |Write(Multi(d, t))|, nest, NoQuotes, taken)
  {
    hide *;
    MultiParts(s, c, d, t);
    SkipName();
    SkipsDirective(s, c, "#define_m", nest, taken);
    DefineMMoves(s, c + 9, nest, taken);
    var m := c + 9 + |d| + 7;
    SkipQuiet(s, m, m + |t| + 1, nest, taken);
  }

  lemma HashIsNoName()
    ensures !IsIdent('#')
  {}

  lemma SkipText(s: string, c: nat, t: string, nest: nat, taken: bool)
    requires Clear(Ordinary(t)) && Occurs(s, c, Write(Ordinary(t))) && 0 < nest
    ensures SkipFrom(s, c, nest, NoQuotes, taken) == SkipFrom(s, c + |Write(Ordinary(t))|, nest, NoQuotes, taken)
  {
    hide SkipFrom, QuietText, Quiet;
    QuietAt(s, c, t + "\n");
    SkipQuiet(s, c, c + |t| + 1, nest, taken);
  }

  lemma SkipCommand(s: string, c: nat, l: Line, nest: nat, taken: bool)
    requires l.Command? && Clear(l) && Occurs(s, c, Write(l)) && 0 < nest && Deeper(l, nest, taken).Some?
    ensures SkipFrom(s, c, nest, NoQuotes, taken) ==
      SkipFrom(s, c + |Write(l)|, Deeper(l, nest, taken).value, NoQuotes, taken)
  {
    hide Match, SkipFrom, Deeper, Occurs, SkipDirective, Quiet, Find;
    RestAt(s, c, l);
    ClearName(l);
    SkipsDirective(s, c, l.name, nest, taken);
    SkipRest(s, c + |l.name|, l, nest, taken);
  }

  /** One line is skipped. */
  lemma SkipLine(s: string, c: nat, l: Line, nest: nat, taken: bool)
    requires Clear(l) && Occurs(s, c, Write(l)) && 0 < nest && Deeper(l, nest, taken).Some?
    ensures SkipFrom(s, c, nest, NoQuotes, taken) ==
      SkipFrom(s, c + |Write(l)|, Deeper(l, nest, taken).value, NoQuotes, taken)
  {
    hide Match, Clear, Occurs, Write, SkipFrom;
    match l
    case Ordinary(t) => SkipText(s, c, t, nest, taken);
    case Including(p) => SkipInclude(s, c, p, nest, taken);
    case Multi(d, t) => SkipMulti(s, c, d, t, nest, taken);
    case Skipping(r, n) => SkipTwo(s, c, r, n, nest, taken);
    case Command(_, _) => SkipCommand(s, c, l, nest, taken);
  }

  lemma SkipRest(s: string, e: nat, l: Line, nest: nat, taken: bool)
    requires l.Command? && Clear(l) && e + |l.rest| < |s| && 0 < nest && Deeper(l, nest, taken).Some?
    requires Find(s, e, '\n') == e + |l.rest| && (Match(l.name) != Define ==> Quiet(s, e, e + |l.rest| + 1))
    ensures var m := SkipDirective(s, e, Match(l.name), nest, taken);
      m.On? && SkipFrom(s, m.next, m.nest, NoQuotes, taken) ==
        SkipFrom(s, e + |l.rest| + 1, Deeper(l, nest, taken).value, NoQuotes, taken)
  {
    hide Match, SkipFrom;
    var m := SkipDirective(s, e, Match(l.name), nest, taken);
    if m.next == e { SkipQuiet(s, e, e + |l.rest| + 1, m.nest, taken); }
  }

  lemma IncludeName()
    ensures IsName("#include") && Match("#include") == Include
  {}

  /** A quoted path is passed over whole. */
  lemma SkipPath(s: string, e: nat, p: string, nest: nat, taken: bool)
    requires Clear(Including(p)) && e + |p| + 4 <= |s| && s[e] == ' ' && s[e + 1] == '"' && 0 < nest
    requires (forall k :: 0 <= k < |p| ==> s[e + 2 + k] == p[k]) && s[e + |p| + 2] == '"' && s[e + |p| + 3] == '\n'
    ensures SkipFrom(s, e, nest, NoQuotes, taken) == SkipFrom(s, e + |p| + 4, nest, NoQuotes, taken)
  {
    hide Match, SkipDirective;
    var q := e + 2 + |p|;
    SkipQuiet(s, e, e + 1, nest, taken);
    forall k | e + 2 <= k < q ensures !IsQuote(s[k]) { assert s[k] == p[k - e - 2]; }
    SkipQuoted(s, e + 2, q, nest, taken);
    SkipQuiet(s, q + 1, q + 2, nest, taken);
  }

  /** The characters of an include's path, its quotes and the line end. */
  lemma IncludeChars(s: string, c: nat, p: string)
    requires Occurs(s, c, Write(Including(p)))
    ensures var e := c + 8;
      && Occurs(s, c, "#include") && |Write(Including(p))| == |p| + 12 && e + |p| + 4 <= |s|
      && s[e] == ' ' && s[e + 1] == '"' && s[e + |p| + 2] == '"' && s[e + |p| + 3] == '\n'
      && forall k :: 0 <= k < |p| ==> s[e + 2 + k] == p[k]
  {
    hide Occurs, Write;
    IncludeWritten(p);
    OccursParts(s, c, "#include", " \"" + p + "\"\n");
    PathChars(s, c + 8, p);
  }

  lemma IncludeWritten(p: string)
    ensures Write(Including(p)) == "#include" + (" \"" + p + "\"\n") && |Write(Including(p))| == |p| + 12
  {}

  lemma PathChars(s: string, e: nat, p: string)
    requires Occurs(s, e, " \"" + p + "\"\n")
    ensures e + |p| + 4 <= |s|
    ensures s[e] == ' ' && s[e + 1] == '"' && s[e + |p| + 2] == '"' && s[e + |p| + 3] == '\n'
    ensures forall k :: 0 <= k < |p| ==> s[e + 2 + k] == p[k]
  {
    hide Occurs;
    OccursWithin(s, e, " \"" + p + "\"\n");
    OccursParts(s, e, " \"" + p, "\"\n");
    OccursParts(s, e, " \"", p);
    OccursAt(s, e, " \"", 0);
    OccursAt(s, e, " \"", 1);
    forall k | 0 <= k < |p| ensures s[e + 2 + k] == p[k] { OccursAt(s, e + 2, p, k); }
    OccursAt(s, e + 2 + |p|, "\"\n", 0);
    OccursAt(s, e + 2 + |p|, "\"\n", 1);
  }

  lemma SkipInclude(s: string, c: nat, p: string, nest: nat, taken: bool)
    requires Clear(Including(p)) && Occurs(s, c, Write(Including(p))) && 0 < nest
    ensures SkipFrom(s, c, nest, NoQuotes, taken) == SkipFrom(s, c + |Write(Including(p))|, nest, NoQuotes, taken)
  {
    hide Match, IsName, SkipFrom, Write, Occurs, Clear;
    IncludeChars(s, c, p);
    IncludeName();
    SkipsDirective(s, c, "#include", nest, taken);
    SkipPath(s, c + 8, p, nest, taken);
  }

  /** A whole body is skipped line by line. */
  lemma {:induction false} SkipBody(s: string, c: nat, ls: seq<Line>, nest: nat, taken: bool)
    requires (forall l :: l in ls ==> Clear(l)) && Occurs(s, c, WriteAll(ls))
    requires 0 < nest && Depth(ls, nest, taken).Some?
    ensures SkipFrom(s, c, nest, NoQuotes, taken) ==
      SkipFrom(s, c + |WriteAll(ls)|, Depth(ls, nest, taken).value, NoQuotes, taken)
    decreases |ls|
  {
    hide SkipFrom, Clear, Deeper, Write;
    if ls != [] {
      OccursParts(s, c, Write(ls[0]), WriteAll(ls[1..]));
      SkipLine(s, c, ls[0], nest, taken);
      DeeperPositive(ls[0], nest, taken);
      SkipBody(s, c + |Write(ls[0])|, ls[1..], Deeper(ls[0], nest, taken).value, taken);
    }
  }

  lemma DeeperPositive(l: Line, nest: nat, taken: bool)
    requires 0 < nest && Deeper(l, nest, taken).Some?
    ensures 0 < Deeper(l, nest, taken).value
    ensures nest < 0x1_0000 ==> Deeper(l, nest, taken).value < 0x1_0000
  {}

  /** Where a line at `c` that ends the skipping leaves it, and with which code. */
  function LineEnds(l: Line, c: nat): Skipped
    requires l.Command?
  {
    match Match(l.name)
    case If | Ifndef => Skipped(c + |l.name|, 0)
    case Elif => Skipped(c + |l.name|, EligibleElif)
    case _ => Skipped(c + |Write(l)|, 0)
  }

  lemma SkipEnds(s: string, c: nat, l: Line, nest: nat, taken: bool)
    requires Clear(l) && Occurs(s, c, Write(l)) && 0 < nest < 0x1_0000 && Deeper(l, nest, taken).None?
    ensures SkipFrom(s, c, nest, NoQuotes, taken) == LineEnds(l, c)
  {
    hide Match, Occurs, SkipDirective, IsName, SkipFrom, Find, QuietText, Quiet;
    RestAt(s, c, l);
    SkipsDirective(s, c, l.name, nest, taken);
    RestEnds(s, c, l, nest, taken);
  }

  lemma RestEnds(s: string, c: nat, l: Line, nest: nat, taken: bool)
    requires l.Command? && 0 < nest < 0x1_0000 && Deeper(l, nest, taken).None?
    requires var e := c + |l.name|; e + |l.rest| < |s| && Find(s, e, '\n') == e + |l.rest|
    ensures var m := SkipDirective(s, c + |l.name|, Match(l.name), nest, taken);
      LineEnds(l, c) == if m.Ends? then m.result else SkipFrom(s, m.next, m.nest, NoQuotes, taken)
  {
    hide Match, Find;
  }

  /** Where skipping a text made of these lines ends, by the lines alone. */
  function EndOf(ls: seq<Line>, depth: nat, taken: bool, c: nat): Skipped {
    if ls == [] then Skipped(c, -422)
    else
      match Deeper(ls[0], depth, taken)
      case Some(d) => EndOf(ls[1..], d, taken, c + |Write(ls[0])|)
      case None => LineEnds(ls[0], c)
  }

  /**
   Skipping any text of such lines ends where its lines say: at the first that ends the branch,
   at the one whose nesting the counter cannot hold, or at the end of the text.
   */
  lemma {:induction false} SkipsLines(s: string, c: nat, ls: seq<Line>, nest: nat, taken: bool)
    requires (forall l :: l in ls ==> Clear(l)) && Occurs(s, c, WriteAll(ls)) && c + |WriteAll(ls)| == |s|
    requires 0 < nest < 0x1_0000
    ensures SkipFrom(s, c, nest, NoQuotes, taken) == EndOf(ls, nest, taken, c)
    decreases |ls|
  {
    hide Clear, Deeper, Write, LineEnds;
    if ls != [] {
      hide SkipFrom;
      OccursParts(s, c, Write(ls[0]), WriteAll(ls[1..]));
      if Deeper(ls[0], nest, taken).Some? {
        SkipLine(s, c, ls[0], nest, taken);
        DeeperPositive(ls[0], nest, taken);
        SkipsLines(s, c + |Write(ls[0])|, ls[1..], Deeper(ls[0], nest, taken).value, taken);
      } else {
        SkipEnds(s, c, ls[0], nest, taken);
      }
    }
  }

  /** The directives that can end a skipped branch: its `#endif`, or an `#else` or `#elif` of its own. */
  predicate Terminates(d: MacroType, taken: bool) {
    d == Endif || (!taken && (d == Else || d == Elif))
  }

  /**
   After a well-nested body the skipper stops at the branch's own terminator, just past its
   line, or right after the name of an `#elif` whose condition is never looked at.
   */
  lemma StopsAtMatch(s: string, c: nat, ls: seq<Line>, end: Line, taken: bool)
    requires (forall l :: l in ls ==> Clear(l)) && Depth(ls, 1, taken) == Some(1)
    requires end.Command? && Clear(end) && Terminates(Match(end.name), taken)
    requires Occurs(s, c, WriteAll(ls) + Write(end))
    ensures SkipFrom(s, c, 1, NoQuotes, taken) ==
      if Match(end.name) == Elif then Skipped(c + |WriteAll(ls)| + |end.name|, EligibleElif)
      else Skipped(c + |WriteAll(ls)| + |Write(end)|, 0)
  {
    hide SkipFrom, Clear, Match, Write, WriteAll;
    var k := c + |WriteAll(ls)|;
    OccursParts(s, c, WriteAll(ls), Write(end));
    SkipBody(s, c, ls, 1, taken);
    SkipEnds(s, k, end, 1, taken);
  }

  lemma ClearName(l: Line)
    requires l.Command? && Clear(l)
    ensures IsName(l.name)
  {}

  /** Without a terminator the skipper runs to the end of the text and reports that. */
  lemma NoMatch(s: string, c: nat, ls: seq<Line>, taken: bool)
    requires (forall l :: l in ls ==> Clear(l)) && Depth(ls, 1, taken).Some?
    requires Occurs(s, c, WriteAll(ls)) && c + |WriteAll(ls)| == |s|
    ensures SkipFrom(s, c, 1, NoQuotes, taken) == Skipped(|s|, -422)
  {
    hide Clear, Write, WriteAll, Depth, Occurs;
    SkipBody(s, c, ls, 1, taken);
    DepthPositive(ls, 1, taken);
  }

  lemma {:induction false} DepthPositive(ls: seq<Line>, nest: nat, taken: bool)
    requires 0 < nest && Depth(ls, nest, taken).Some?
    ensures 0 < Depth(ls, nest, taken).value
    decreases |ls|
  {
    if ls != [] {
      DeeperPositive(ls[0], nest, taken);
      DepthPositive(ls[1..], Deeper(ls[0], nest, taken).value, taken);
    }
  }

  // ---------- nesting is counted in 16 bits ----------

  function Hashes(s: string, c: nat): nat
    requires c <= |s|
    decreases |s| - c
  {
    if c == |s| then 0 else (if s[c] == '#' then 1 else 0) + Hashes(s, c + 1)
  }

  lemma {:induction false} HashesLater(s: string, c: nat, d: nat)
    requires c <= d <= |s|
    ensures Hashes(s, d) <= Hashes(s, c)
    decreases d - c
  {
    if c < d { HashesLater(s, c + 1, d); }
  }

  /** The directive at `d` ends the branch and skipping stops past its line, or right after the name of an `#elif`. */
  predicate EndedBy(s: string, d: nat, taken: bool, r: Skipped) {
    && d < |s| && s[d] == '#'
    && var e := IdentEnd(s, d + 1); var m := Match(s[d..e]);
      Terminates(m, taken) && r == if m == Elif then Skipped(e, EligibleElif) else EndBranch(s, e)
  }

  /** The counter has come round to 0 at the `#if` or `#ifndef` at `d`. */
  predicate Wrapped(s: string, d: nat, r: Skipped) {
    && d < |s| && s[d] == '#'
    && var e := IdentEnd(s, d + 1); Match(s[d..e]) in {If, Ifndef} && r == Skipped(e, 0)
  }

  ghost predicate Ending(s: string, c: nat, taken: bool, deep: bool, r: Skipped) {
    r == Skipped(|s|, -422) || exists d :: c <= d && (EndedBy(s, d, taken, r) || (deep && Wrapped(s, d, r)))
  }

  /** One step of skipping: it is over, or goes on further on with no more levels than there were. */
  lemma SkipStep(s: string, c: nat, nest: nat, q: Quotes, taken: bool)
    returns (over: bool, c': nat, nest': nat, q': Quotes)
    requires c < |s| && 0 < nest < 0x1_0000
    ensures over ==> Ending(s, c, taken, nest + Hashes(s, c) >= 0x1_0000, SkipFrom(s, c, nest, q, taken))
    ensures !over ==>
      && c < c' <= |s| && 0 < nest' < 0x1_0000 && nest' + Hashes(s, c') <= nest + Hashes(s, c)
      && SkipFrom(s, c, nest, q, taken) == SkipFrom(s, c', nest', q', taken)
  {
    hide Match, SkipDirective, EndedBy, Wrapped;
    over, c', nest', q' := false, c + 1, nest, q;
    if s[c] == '"' { q' := q.(double := !q.double); }
    else if s[c] == '\'' { q' := q.(single := !q.single); }
    else if q.double || q.single {}
    else if StartsComment(s, c) {
      c' := CommentEnd(s, c);
      HashesLater(s, c, c');
    } else if s[c] == '#' {
      over, c', nest' := DirectiveStep(s, c, nest, taken);
    }
  }

  lemma DirectiveStep(s: string, c: nat, nest: nat, taken: bool) returns (over: bool, c': nat, nest': nat)
    requires c < |s| && s[c] == '#' && 0 < nest < 0x1_0000 && !StartsComment(s, c)
    ensures over ==> Ending(s, c, taken, nest + Hashes(s, c) >= 0x1_0000, SkipFrom(s, c, nest, NoQuotes, taken))
    ensures !over ==>
      && c < c' <= |s| && 0 < nest' < 0x1_0000 && nest' + Hashes(s, c') <= nest + Hashes(s, c)
      && SkipFrom(s, c, nest, NoQuotes, taken) == SkipFrom(s, c', nest', NoQuotes, taken)
  {
    hide Match, Hashes;
    var e := IdentEnd(s, c + 1);
    var m := SkipDirective(s, e, Match(s[c..e]), nest, taken);
    c', nest' := e, nest;
    HashesHere(s, c);
    if m.Ends? {
      over := true;
      assert EndedBy(s, c, taken, m.result);
    } else if m.nest == 0 {
      over := true;
      assert Wrapped(s, c, Skipped(e, 0));
    } else {
      over, c', nest' := false, m.next, m.nest;
      HashesLater(s, c + 1, c');
    }
  }

  lemma HashesHere(s: string, c: nat)
    requires c < |s| && s[c] == '#'
    ensures Hashes(s, c) == 1 + Hashes(s, c + 1)
  {}

  lemma EndingBefore(s: string, c: nat, c': nat, taken: bool, deep: bool, deep': bool, r: Skipped)
    requires c <= c' && (deep' ==> deep) && Ending(s, c', taken, deep', r)
    ensures Ending(s, c, taken, deep, r)
  {
    hide EndedBy, Wrapped;
  }

  /**
   In any text skipping ends at the end, at a directive that ends the branch or, with 2^16 levels
   or more, where the counter wraps.
   */
  lemma {:induction false} SkipEnding(s: string, c: nat, nest: nat, q: Quotes, taken: bool)
    requires c <= |s| && 0 < nest < 0x1_0000
    ensures Ending(s, c, taken, nest + Hashes(s, c) >= 0x1_0000, SkipFrom(s, c, nest, q, taken))
    decreases |s| - c
  {
    if c < |s| {
      hide SkipFrom, Ending, Hashes;
      var over, c', nest', q' := SkipStep(s, c, nest, q, taken);
      if !over {
        SkipEnding(s, c', nest', q', taken);
        EndingBefore(s, c, c', taken, nest + Hashes(s, c) >= 0x1_0000, nest' + Hashes(s, c') >= 0x1_0000,
                     SkipFrom(s, c, nest, q, taken));
      }
    }
  }

  /**
   With fewer than 2^16 levels skipping ends with one of four codes, and one that reports
   success has passed the line of an `#endif` or `#else` that ends the branch.
   */
  lemma SuccessPassesLine(s: string, c: nat, nest: nat, q: Quotes, taken: bool)
    requires c <= |s| && 0 < nest && nest + Hashes(s, c) < 0x1_0000
    ensures var r := SkipFrom(s, c, nest, q, taken);
      && r.code in {0, -422, EndOfLineMissing, EligibleElif} && (r.code == -422 ==> r.next == |s|)
      && (r.code == 0 ==> c < r.next <= |s| && s[r.next - 1] == '\n' && exists d :: c <= d < r.next && EndedBy(s, d, taken, r))
  {
    hide SkipFrom, Match;
    SkipEnding(s, c, nest, q, taken);
  }

  /** `n` conditionals opened one inside the other, none of them closed. */
  function Opened(n: nat): seq<Line> {
    if n == 0 then [] else [Command("#if", " x")] + Opened(n - 1)
  }

  lemma {:induction false} OpenedDepth(n: nat, depth: nat, taken: bool)
    requires depth + n < 0x1_0000
    ensures Depth(Opened(n), depth, taken) == Some(depth + n) && forall l :: l in Opened(n) ==> l == Command("#if", " x")
    decreases n
  {
    if n > 0 { OpenedDepth(n - 1, depth + 1, taken); }
  }

  lemma OpenIsClear()
    ensures Clear(Command("#if", " x")) && Match("#if") == If && Write(Command("#if", " x")) == "#if" + " x\n"
  {}

  /**
   With 2^16 levels the counter wraps: skipping past 65535 unclosed `#if` lines, with no
   terminator at all, ends inside the last line as if it had succeeded.
   */
  lemma CounterWraps(s: string, taken: bool)
    requires Occurs(s, 0, WriteAll(Opened(0xFFFE)) + Write(Command("#if", " x")))
    ensures SkipFrom(s, 0, 1, NoQuotes, taken) == Skipped(|WriteAll(Opened(0xFFFE))| + 3, 0)
  {
    hide SkipFrom, Clear, Match, Write, WriteAll, Opened, Depth;
    var ls, l := Opened(0xFFFE), Command("#if", " x");
    OpenIsClear();
    OpenedDepth(0xFFFE, 1, taken);
    OccursParts(s, 0, WriteAll(ls), Write(l));
    SkipBody(s, 0, ls, 1, taken);
    SkipEnds(s, |WriteAll(ls)|, l, 0xFFFF, taken);
  }
}
