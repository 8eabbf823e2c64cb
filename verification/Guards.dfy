/**
 Libraries of files that include one another, with or without an include guard: `#ifndef G`,
 `#define G` at the start and `#endif` at the end. Expanding the text of such files is the same
 as following their includes, file by file.
 */
module Guards {
  import opened Tokens
  import opened Texts
  import opened Conditions
  import opened Directives
  import opened Expansion
  import opened Substitution
  import opened Branches
  import opened Selection

  /** Plain lines, or an include of a file of the library, in quotes or in angle brackets. */
  datatype Item = Text(text: string) | Inc(path: string, angled: bool)

  datatype File = File(guard: Option<string>, items: seq<Item>)

  /** Only files of the library are included. */
  predicate Links(files: map<string, File>, items: seq<Item>) {
    forall i :: i in items && i.Inc? ==> i.path in files
  }

  predicate Whole(files: map<string, File>) {
    forall p :: p in files ==> Links(files, files[p].items)
  }

  type Library = files: map<string, File> | Whole(files) witness map[]

  function IncLine(path: string, angled: bool): Line {
    if angled then Command("#include", " <" + path + ">") else Including(path)
  }

  function ItemLines(i: Item): seq<Line> {
    match i
    case Text(t) => AsLines(t)
    case Inc(p, angled) => [IncLine(p, angled)]
  }

  function BodyLines(items: seq<Item>): seq<Line> {
    if items == [] then [] else ItemLines(items[0]) + BodyLines(items[1..])
  }

  const EndLine := Command("#endif", "")

  function Head(guard: string): string {
    Write(Command("#ifndef", " " + guard)) + Write(Command("#define", " " + guard))
  }

  /** A file as it is written. */
  function Written(f: File): string {
    match f.guard
    case None => WriteAll(BodyLines(f.items))
    case Some(g) => Head(g) + (WriteAll(BodyLines(f.items)) + Write(EndLine))
  }

  /** A path that ends at its closing quote or bracket. */
  predicate PathOk(p: string, angled: bool) {
    && Clear(IncLine(p, angled))
    && forall k :: 0 <= k < |p| ==> p[k] != '\0' && p[k] != (if angled then '>' else '"')
  }

  predicate ItemOk(i: Item) {
    match i
    case Text(t) => Lines(t)
    case Inc(p, angled) => PathOk(p, angled)
  }

  predicate ItemsOk(items: seq<Item>) { forall i :: i in items ==> ItemOk(i) }

  predicate GuardOk(g: string) { g != "" && forall k :: 0 <= k < |g| ==> IsIdent(g[k]) }

  /**
   Every file holds plain lines and includes and is on the disk as written. Files are not
   empty, because an empty file cannot be included.
   */
  ghost predicate OnDisk(lib: Library, disk: Disk) {
    forall p :: p in lib ==>
      && (lib[p].guard.Some? ==> GuardOk(lib[p].guard.value)) && ItemsOk(lib[p].items)
      && p in disk && disk[p] == Written(lib[p]) != ""
  }

  // ---------- following the includes ----------

  function Entered(env: Env, guard: string): Env {
    env.(macros := env.macros[guard := ""], branches := env.branches + [Branch(true, true)])
  }

  /** The second and later visits only leave an entry on the branch stack. */
  function Passed(env: Env): Env { env.(branches := env.branches + [Branch(false, false)]) }

  function Closed(env: Env): Env
    requires env.branches != []
  {
    env.(branches := env.branches[..|env.branches| - 1])
  }

  /** Macros are only added, and branches and output are not taken back. */
  predicate Later(before: Env, after: Env) {
    before.macros.Keys <= after.macros.Keys && |before.branches| <= |after.branches| && before.out <= after.out
  }

  /** The state after some items, or the output when the allowed includes have run out. */
  datatype Traced = Through(env: Env, budget: nat) | Spent(out: string)

  /** What the items do one after the other, with `budget` includes allowed. */
  function Trace(lib: Library, items: seq<Item>, env: Env, budget: nat): (t: Traced)
    requires Links(lib, items)
    ensures t.Through? ==> t.budget <= budget && Later(env, t.env)
    decreases budget, |items|
  {
    if items == [] then Through(env, budget)
    else
      match items[0]
      case Text(t) => Trace(lib, items[1..], Emit(env, Replace(t, env.macros)), budget)
      case Inc(p, _) =>
        match TraceOne(lib, p, env, budget)
        case Through(e, b) => Trace(lib, items[1..], e, b)
        case Spent(out) => Spent(out)
  }

  /** One include: nothing but a branch entry when the guard is defined, the items of the file otherwise. */
  function TraceOne(lib: Library, p: string, env: Env, budget: nat): (t: Traced)
    requires p in lib
    ensures t.Through? ==> t.budget < budget && Later(env, t.env)
    decreases budget, 0
  {
    if budget == 0 then Spent(env.out)
    else
      match lib[p].guard
      case None => Trace(lib, lib[p].items, env, budget - 1)
      case Some(g) =>
        if g in env.macros then Through(Passed(env), budget - 1)
        else
          match Trace(lib, lib[p].items, Entered(env, g), budget - 1)
          case Through(e, b) => Through(Closed(e), b)
          case Spent(out) => Spent(out)
  }

  // ---------- the directives of a guarded file ----------

  lemma GuardFound(s: string, c: nat, g: string)
    requires GuardOk(g) && Occurs(s, c, " " + g + "\n")
    ensures var n := c + 1; var e := n + |g|;
      e < |s| && SkipBlanks(s, c) == n && IdentEnd(s, n) == e && s[n..e] == g && s[e] == '\n' && Find(s, e, '\n') == e
  {
    LineChars(s, c, " " + g);
    var n, e := c + 1, c + 1 + |g|;
    assert s[c] == (" " + g)[0];
    forall k | 0 <= k < |g| ensures s[n + k] == g[k] { assert s[c + (k + 1)] == (" " + g)[k + 1]; }
    IdentRun(s, n, e);
    assert s[n] == g[0];
    assert SkipBlanks(s, n) == n;
    SameSlice(s, n, g, n, e);
    assert g[0..|g|] == g;
  }

  lemma GuardTrimmed(g: string)
    requires GuardOk(g)
    ensures Trim(g) == g
  {
    TrimFixed(g);
  }

  lemma IfndefStep(disk: Disk, s: string, c: nat, g: string, env: Env)
    requires GuardOk(g) && Occurs(s, c, Write(Command("#ifndef", " " + g)))
    ensures var e := c + |Write(Command("#ifndef", " " + g))|;
      c < e <= |s| && Step(disk, s, c, env) == Decide(s, e, env, g !in env.macros)
  {
    hide Decide, Trim, Write, IsIdent;
    WrittenAs("#ifndef", " " + g);
    OccursParts(s, c, "#ifndef", " " + g + "\n");
    GuardFound(s, c + 7, g);
    GuardTrimmed(g);
    Names();
    SpaceAfter(s, c, "#ifndef", g);
    StepDirective(disk, s, c, "#ifndef", env);
  }

  lemma Names()
    ensures IsName("#ifndef") && IsName("#define") && IsName("#include") && IsName("#endif")
  {}

  lemma WrittenAs(n: string, r: string)
    ensures Write(Command(n, r)) == n + (r + "\n")
  {}

  /** A name followed by a blank is found whole. */
  lemma SpaceAfter(s: string, c: nat, n: string, g: string)
    requires IsName(n) && Occurs(s, c, n) && Occurs(s, c + |n|, " " + g + "\n")
    ensures c < |s| && s[c] == '#' && IdentEnd(s, c + 1) == c + |n| && s[c..IdentEnd(s, c + 1)] == n
  {
    OccursAt(s, c + |n|, " " + g + "\n", 0);
    NameFound(s, c, n);
  }

  lemma DefinesGuard(s: string, c: nat, g: string, env: Env)
    requires GuardOk(g) && Occurs(s, c, " " + g + "\n")
    ensures DoDefine(s, c, env) == Go(c + |g| + 2, env.(macros := env.macros[g := ""]))
  {
    hide Trim, IsIdent, Occurs, Register, BodyFrom, BackBlanks;
    GuardFound(s, c, g);
    GuardRegistered(env.macros, g);
    var n, e := c + 1, c + 1 + |g|;
    EmptyBody(s, e);
    assert AliasesEnd(s, e) == e && SkipBlanks(s, e) == e;
  }

  lemma GuardRegistered(macros: Macros, g: string)
    requires GuardOk(g)
    ensures Register(macros, g, 0, "") == macros[g := ""]
  {
    hide Trim, IsIdent;
    GuardTrimmed(g);
    NoAmp(g);
    assert g[0..|g|] == g;
  }

  /** A definition whose line ends at once is empty. */
  lemma EmptyBody(s: string, e: nat)
    requires e < |s| && s[e] == '\n'
    ensures BodyFrom(s, e, e) == Directives.Body(e, e + 1) && BackBlanks(s, e, e) == e && s[e..e] == ""
  {
    assert s[e..e] == "";
  }

  lemma {:induction false} NoAmp(g: string)
    requires GuardOk(g)
    ensures Find(g, 0, '&') == |g|
  {}

  lemma DefineStep(disk: Disk, s: string, c: nat, g: string, env: Env)
    requires GuardOk(g) && Occurs(s, c, Write(Command("#define", " " + g)))
    ensures var e := c + |Write(Command("#define", " " + g))|;
      c < e <= |s| && Step(disk, s, c, env) == Go(e, env.(macros := env.macros[g := ""]))
  {
    hide DoDefine, Write, IsIdent;
    WrittenAs("#define", " " + g);
    OccursParts(s, c, "#define", " " + g + "\n");
    DefinesGuard(s, c + 7, g, env);
    Names();
    SpaceAfter(s, c, "#define", g);
    StepDirective(disk, s, c, "#define", env);
  }

  lemma IncludeWritten(p: string, angled: bool)
    ensures var open, close := if angled then '<' else '"', if angled then '>' else '"';
      && Write(IncLine(p, angled)) == "#include" + ([' ', open] + p + [close, '\n'])
      && [' ', open] + p + [close, '\n'] == " " + ([open] + p + [close]) + "\n"
  {
    var open, close := if angled then '<' else '"', if angled then '>' else '"';
    assert [' ', open] + p + [close, '\n'] == (if angled then " <" + p + ">" + "\n" else " \"" + p + "\"\n");
  }

  lemma IncludeStep(disk: Disk, s: string, c: nat, p: string, angled: bool, env: Env)
    requires PathOk(p, angled) && Occurs(s, c, Write(IncLine(p, angled)))
    requires p in disk && disk[p] != ""
    ensures var e := c + |Write(IncLine(p, angled))|;
      c < e <= |s| && Step(disk, s, c, env) == Enter(e, env, disk[p])
  {
    hide Write, IsIdent, Clear, Occurs, Find, NextLine, CString;
    var open, close := if angled then '<' else '"', if angled then '>' else '"';
    Names();
    IncludeWritten(p, angled);
    OccursParts(s, c, "#include", [' ', open] + p + [close, '\n']);
    SpaceAfter(s, c, "#include", [open] + p + [close]);
    PathFound(s, c + 8, p, open, close);
    StepDirective(disk, s, c, "#include", env);
    NoNul(p);
  }

  lemma PathFound(s: string, c: nat, p: string, open: char, close: char)
    requires Occurs(s, c, [' ', open] + p + [close, '\n']) && !IsBlank(open)
    requires forall k :: 0 <= k < |p| ==> p[k] != close
    ensures var b := c + 1; var e := b + 1 + |p|;
      && e + 1 < |s| && SkipBlanks(s, c) == b && s[b] == open
      && Find(s, b + 1, close) == e && s[b + 1..e] == p && NextLine(s, e + 1) == e + 2
  {
    hide Occurs;
    var t := [' ', open] + p + [close, '\n'];
    PathChars(s, c, t);
    var b, e := c + 1, c + 2 + |p|;
    assert s[c] == t[0] && s[b] == t[1] && s[e] == t[|p| + 2] && s[e + 1] == t[|p| + 3];
    forall k | 0 <= k < |p| ensures s[b + 1 + k] == p[k] { assert s[c + (k + 2)] == t[k + 2]; }
    forall k | b + 1 <= k < e ensures s[k] != close { assert s[b + 1 + (k - b - 1)] == p[k - b - 1]; }
    FoundAt(s, b + 1, close, e);
    SameSlice(s, b + 1, p, b + 1, e);
    assert p[0..|p|] == p;
    assert SkipBlanks(s, b) == b;
  }

  lemma PathChars(s: string, c: nat, t: string)
    requires Occurs(s, c, t)
    ensures c + |t| <= |s| && forall k :: 0 <= k < |t| ==> s[c + k] == t[k]
  {
    forall k | 0 <= k < |t| ensures s[c + k] == t[k] { OccursAt(s, c, t, k); }
  }

  lemma {:induction false} NoNul(p: string)
    requires forall k :: 0 <= k < |p| ==> p[k] != '\0'
    ensures CString(p) == p
  {}

  // ---------- expanding is following ----------

  lemma {:induction false} BodyClear(items: seq<Item>)
    requires ItemsOk(items)
    ensures forall l :: l in BodyLines(items) ==> Clear(l)
    ensures forall nest: nat :: Depth(BodyLines(items), nest, false) == Some(nest)
    decreases |items|
  {
    hide Clear, Lines;
    if items != [] {
      ItemClear(items[0]);
      BodyClear(items[1..]);
      forall nest: nat ensures Depth(BodyLines(items), nest, false) == Some(nest) {
        DepthJoin(ItemLines(items[0]), BodyLines(items[1..]), nest, false);
      }
    }
  }

  lemma ItemClear(i: Item)
    requires ItemOk(i)
    ensures forall l :: l in ItemLines(i) ==> Clear(l)
    ensures forall nest: nat :: Depth(ItemLines(i), nest, false) == Some(nest)
  {
    hide Clear, Match;
    if i.Text? { LinesWritten(i.text); }
    else {
      var l := IncLine(i.path, i.angled);
      assert [l][1..] == [];
      IncludeName();
      forall nest: nat ensures Depth([l], nest, false) == Some(nest) {
        assert Depth([], nest, false) == Some(nest);
        assert Deeper(l, nest, false) == Some(nest);
      }
    }
  }

  lemma {:induction false} DepthJoin(a: seq<Line>, b: seq<Line>, nest: nat, taken: bool)
    requires Depth(a, nest, taken).Some?
    ensures Depth(a + b, nest, taken) == Depth(b, Depth(a, nest, taken).value, taken)
    decreases |a|
  {
    hide Deeper;
    if a == [] {
      assert a + b == b;
    } else {
      assert (a + b)[1..] == a[1..] + b;
      DepthJoin(a[1..], b, Deeper(a[0], nest, taken).value, taken);
    }
  }

  lemma {:induction false} WriteJoin(a: seq<Line>, b: seq<Line>)
    ensures WriteAll(a + b) == WriteAll(a) + WriteAll(b)
    decreases |a|
  {
    hide Write;
    if a == [] {
      assert a + b == b;
    } else {
      assert (a + b)[1..] == a[1..] + b;
      WriteJoin(a[1..], b);
    }
  }

  /** A file whose guard is defined is read through without a trace but one branch entry. */
  lemma FilePassed(lib: Library, disk: Disk, p: string, env: Env, budget: nat)
    requires OnDisk(lib, disk) && p in lib && lib[p].guard.Some? && lib[p].guard.value in env.macros
    ensures Expand(disk, Written(lib[p]), 0, env, budget) == Done(Passed(env), budget)
  {
    hide Expand, Step, Decide, Write, Clear, SkipFrom, BodyLines, Match;
    var f := lib[p];
    var g := f.guard.value;
    var s := Written(f);
    var l0, l1 := Command("#ifndef", " " + g), Command("#define", " " + g);
    var ls := [l1] + BodyLines(f.items);
    WriteJoin([l1], BodyLines(f.items));
    WriteOne(l1);
    var c := |Write(l0)|;
    assert s == Write(l0) + (WriteAll(ls) + Write(EndLine));
    assert Occurs(s, 0, s);
    OccursParts(s, 0, Write(l0), WriteAll(ls) + Write(EndLine));
    IfndefStep(disk, s, 0, g, env);
    BodyClear(f.items);
    DefineClear(g);
    DepthJoin([l1], BodyLines(f.items), 1, false);
    EndClear();
    StopsAtMatch(s, c, ls, EndLine, false);
    DecidesNo(s, c, env);
    ExpandGo(disk, s, 0, env, budget, |s|, Passed(env));
    ExpandEnd(disk, s, Passed(env), budget);
  }

  lemma WriteOne(l: Line)
    ensures WriteAll([l]) == Write(l)
  {
    assert [l][1..] == [];
    assert WriteAll([]) == "";
  }

  lemma EndClear()
    ensures Clear(EndLine) && EndLine.Command? && Match(EndLine.name) == Endif
  {}

  lemma DefineClear(g: string)
    requires GuardOk(g)
    ensures Clear(Command("#define", " " + g)) && Depth([Command("#define", " " + g)], 1, false) == Some(1)
  {
    var l := Command("#define", " " + g);
    assert [l][1..] == [];
    assert Depth([], 1, false) == Some(1);
    forall k | 0 <= k < |l.rest| ensures l.rest[k] != '\n' {}
    assert l.rest[|l.rest| - 1] == g[|g| - 1];
  }

  lemma DecidesNo(s: string, c: nat, env: Env)
    requires c <= |s| && SkipFrom(s, c, 1, NoQuotes, false) == Skipped(|s|, 0)
    ensures Decide(s, c, env, false) == Go(|s|, Passed(env))
  {
    hide SkipFrom;
  }

  lemma ExpandEnd(disk: Disk, s: string, env: Env, budget: nat)
    ensures Expand(disk, s, |s|, env, budget) == Done(env, budget)
  {}

  /** `t` and then the rest of `s` from `c` on. */
  function Onwards(disk: Disk, s: string, c: nat, t: Traced): Ended
    requires c <= |s|
  {
    match t
    case Through(e, b) => Expand(disk, s, c, e, b)
    case Spent(out) => Exhausted(out)
  }

  /** What a list of items does, one item at a time and whatever number of includes is allowed. */
  lemma {:induction false} ItemsExpand(lib: Library, disk: Disk, items: seq<Item>, s: string, c: nat, env: Env, budget: nat)
    requires OnDisk(lib, disk) && Links(lib, items) && ItemsOk(items) && Occurs(s, c, WriteAll(BodyLines(items)))
    ensures c + |WriteAll(BodyLines(items))| <= |s|
    ensures Expand(disk, s, c, env, budget) == Onwards(disk, s, c + |WriteAll(BodyLines(items))|, Trace(lib, items, env, budget))
    decreases budget, |items|, 1
  {
    hide Expand, OnDisk, BodyLines, WriteAll, Lines, Write, Trace, TraceOne, ItemOk, Replace, Emit, PathOk, IncLine;
    if items == [] {
      NoItems(lib, env, budget);
    } else {
      var rest := items[1..];
      BodyWritten(items);
      OccursParts(s, c, WriteAll(ItemLines(items[0])), WriteAll(BodyLines(rest)));
      assert ItemOk(items[0]);
      if items[0].Text? {
        var t := items[0].text;
        TextOk(t);
        TextWritten(t);
        ExpandsLines(disk, s, c, t, env, budget);
        TraceText(lib, items, env, budget);
        ItemsExpand(lib, disk, rest, s, c + |t|, Emit(env, Replace(t, env.macros)), budget);
      } else {
        var Inc(p, angled) := items[0];
        IncOk(p, angled);
        WriteOne(IncLine(p, angled));
        TraceFirst(lib, items, env, budget);
        IncludeExpands(lib, disk, p, angled, s, c, env, budget);
        var one := TraceOne(lib, p, env, budget);
        if one.Through? {
          ItemsExpand(lib, disk, rest, s, c + |Write(IncLine(p, angled))|, one.env, one.budget);
        }
      }
    }
  }

  lemma NoItems(lib: Library, env: Env, budget: nat)
    ensures Trace(lib, [], env, budget) == Through(env, budget) && WriteAll(BodyLines([])) == ""
  {}

  lemma BodyWritten(items: seq<Item>)
    requires items != []
    ensures WriteAll(BodyLines(items)) == WriteAll(ItemLines(items[0])) + WriteAll(BodyLines(items[1..]))
  {
    WriteJoin(ItemLines(items[0]), BodyLines(items[1..]));
  }

  lemma TextOk(t: string)
    requires ItemOk(Text(t))
    ensures Lines(t)
  {}

  lemma IncOk(p: string, angled: bool)
    requires ItemOk(Inc(p, angled))
    ensures PathOk(p, angled)
  {}

  lemma TraceText(lib: Library, items: seq<Item>, env: Env, budget: nat)
    requires Links(lib, items) && items != [] && items[0].Text?
    ensures Trace(lib, items, env, budget) ==
      Trace(lib, items[1..], Emit(env, Replace(items[0].text, env.macros)), budget)
  {
    hide Replace;
  }

  lemma TraceFirst(lib: Library, items: seq<Item>, env: Env, budget: nat)
    requires Links(lib, items) && items != [] && items[0].Inc?
    ensures var one := TraceOne(lib, items[0].path, env, budget);
      Trace(lib, items, env, budget) == if one.Through? then Trace(lib, items[1..], one.env, one.budget) else one
  {
    hide TraceOne;
  }

  lemma TextWritten(t: string)
    requires Lines(t)
    ensures WriteAll(ItemLines(Text(t))) == t
  {
    LinesWritten(t);
  }

  lemma ExpandEnter(disk: Disk, s: string, c: nat, env: Env, budget: nat, next: nat, text: string)
    requires c < next <= |s| && Step(disk, s, c, env) == Enter(next, env, text)
    ensures Expand(disk, s, c, env, budget) ==
      if budget == 0 then Exhausted(env.out)
      else
        match Expand(disk, text, 0, env, budget - 1)
        case Done(e, b) => Expand(disk, s, next, e, b)
        case other => other
  {
    hide Step;
  }

  lemma {:induction false} IncludeExpands(lib: Library, disk: Disk, p: string, angled: bool, s: string, c: nat, env: Env, budget: nat)
    requires OnDisk(lib, disk) && p in lib && PathOk(p, angled) && Occurs(s, c, Write(IncLine(p, angled)))
    ensures c + |Write(IncLine(p, angled))| <= |s|
    ensures Expand(disk, s, c, env, budget) == Onwards(disk, s, c + |Write(IncLine(p, angled))|, TraceOne(lib, p, env, budget))
    decreases budget, 0, 0
  {
    hide Expand, Step, Written, Write, Trace, PathOk, IncLine;
    IncludeStep(disk, s, c, p, angled, env);
    ExpandEnter(disk, s, c, env, budget, c + |Write(IncLine(p, angled))|, disk[p]);
    if budget > 0 { FileExpands(lib, disk, p, env, budget - 1); }
  }

  /** What the whole text of a file does. */
  lemma {:induction false} FileExpands(lib: Library, disk: Disk, p: string, env: Env, budget: nat)
    requires OnDisk(lib, disk) && p in lib
    ensures Expand(disk, Written(lib[p]), 0, env, budget) ==
      match TraceOne(lib, p, env, budget + 1) case Through(e, b) => Done(e, b) case Spent(out) => Exhausted(out)
    decreases budget, |lib[p].items|, 3
  {
    hide Expand, Written, WriteAll, BodyLines, Trace, ItemsOk;
    var f := lib[p];
    match f.guard
    case None =>
      PlainWritten(f);
      TextExpands(lib, disk, f.items, env, budget);
    case Some(g) =>
      if g in env.macros { FilePassed(lib, disk, p, env, budget); } else { FileEntered(lib, disk, p, env, budget); }
  }

  lemma PlainWritten(f: File)
    requires f.guard.None?
    ensures Written(f) == WriteAll(BodyLines(f.items))
  {}

  /** What the text of some items does on its own. */
  lemma {:induction false} TextExpands(lib: Library, disk: Disk, items: seq<Item>, env: Env, budget: nat)
    requires OnDisk(lib, disk) && Links(lib, items) && ItemsOk(items)
    ensures Expand(disk, WriteAll(BodyLines(items)), 0, env, budget) ==
      match Trace(lib, items, env, budget) case Through(e, b) => Done(e, b) case Spent(out) => Exhausted(out)
    decreases budget, |items|, 2
  {
    hide Expand, WriteAll, BodyLines, Trace, ItemsOk, OnDisk;
    var s := WriteAll(BodyLines(items));
    assert Occurs(s, 0, s);
    ItemsExpand(lib, disk, items, s, 0, env, budget);
    var t := Trace(lib, items, env, budget);
    if t.Through? { ExpandEnd(disk, s, t.env, t.budget); }
  }

  /** The two lines at the start of a file whose guard is not defined yet. */
  lemma HeadRead(disk: Disk, s: string, g: string, env: Env, budget: nat)
    requires GuardOk(g) && g !in env.macros
    requires Occurs(s, 0, Head(g))
    ensures var c := |Head(g)|;
      c <= |s| && Expand(disk, s, 0, env, budget) == Expand(disk, s, c, Entered(env, g), budget)
  {
    hide Expand, Step, Decide, Write, IsIdent, Occurs;
    var l0, l1 := Command("#ifndef", " " + g), Command("#define", " " + g);
    var c1 := |Write(l0)|;
    OccursParts(s, 0, Write(l0), Write(l1));
    IfndefStep(disk, s, 0, g, env);
    var env1 := env.(branches := env.branches + [Branch(true, true)]);
    DecidesYes(s, c1, env);
    ExpandGo(disk, s, 0, env, budget, c1, env1);
    DefineStep(disk, s, c1, g, env1);
    ExpandGo(disk, s, c1, env1, budget, c1 + |Write(l1)|, Entered(env, g));
  }

  /** The last line of a file. */
  lemma FootRead(disk: Disk, s: string, c: nat, env: Env, budget: nat)
    requires env.branches != [] && Occurs(s, c, Write(EndLine)) && c + |Write(EndLine)| == |s|
    ensures Expand(disk, s, c, env, budget) == Done(Closed(env), budget)
  {
    hide Expand, Step, Write, Occurs;
    EndClear();
    EndifStep(disk, s, c, "", env);
    ExpandGo(disk, s, c, env, budget, |s|, Closed(env));
    ExpandEnd(disk, s, Closed(env), budget);
  }

  lemma WrittenParts(f: File)
    requires f.guard.Some?
    ensures var s, h, b := Written(f), Head(f.guard.value), WriteAll(BodyLines(f.items));
      Occurs(s, 0, h) && Occurs(s, |h|, b) && Occurs(s, |h| + |b|, Write(EndLine)) && |h| + |b| + |Write(EndLine)| == |s|
  {
    hide Write, WriteAll, BodyLines, Head;
    var s, h, b := Written(f), Head(f.guard.value), WriteAll(BodyLines(f.items));
    assert Occurs(s, 0, s);
    OccursParts(s, 0, h, b + Write(EndLine));
    OccursParts(s, |h|, b, Write(EndLine));
  }

  /** A file whose guard is not defined yet defines it and has its items expanded. */
  lemma {:induction false} FileEntered(lib: Library, disk: Disk, p: string, env: Env, budget: nat)
    requires OnDisk(lib, disk) && p in lib && lib[p].guard.Some? && lib[p].guard.value !in env.macros
    ensures Expand(disk, Written(lib[p]), 0, env, budget) ==
      match TraceOne(lib, p, env, budget + 1) case Through(e, b) => Done(e, b) case Spent(out) => Exhausted(out)
    decreases budget, |lib[p].items|, 2
  {
    hide Expand, Written, Write, WriteAll, BodyLines, Head, Trace, ItemsOk, Occurs, IsIdent;
    var f := lib[p];
    var g := f.guard.value;
    var s, c := Written(f), |Head(g)|;
    WrittenParts(f);
    HeadRead(disk, s, g, env, budget);
    ItemsExpand(lib, disk, f.items, s, c, Entered(env, g), budget);
    var inner := Trace(lib, f.items, Entered(env, g), budget);
    if inner.Through? { FootRead(disk, s, c + |WriteAll(BodyLines(f.items))|, inner.env, inner.budget); }
  }

  lemma DecidesYes(s: string, c: nat, env: Env)
    requires c <= |s|
    ensures Decide(s, c, env, true) == Go(c, env.(branches := env.branches + [Branch(true, true)]))
  {}

}
