/**
 The preprocessor over its stack of source frames. Frames, macros and conditions are snippets
 of the file arena; what is proved is about the texts they stand for.
 */
module PreprocessorMachine {
  import opened Tokens
  import opened Texts
  import opened Conditions
  import opened Directives
  import opened Expansion
  import opened FileArena

  datatype SourceFrame = SourceFrame(content: Snippet, cursor: nat)

  /** The snippet lies within the arena; one of no characters may lie anywhere. */
  predicate Held(data: string, n: Snippet) { n.size == 0 || n.offset + n.size <= |data| }

  function TextOf(data: string, n: Snippet): (t: string)
    requires Held(data, n)
    ensures |t| == n.size
  {
    if n.size == 0 then "" else Slice(data, n)
  }

  /** Part of a snippet, from one of its positions to another. */
  function Part(n: Snippet, a: nat, b: nat): Snippet
    requires a <= b
  {
    Snippet(n.offset + a, b - a)
  }

  lemma PartText(data: string, n: Snippet, a: nat, b: nat)
    requires Held(data, n) && a <= b <= n.size
    ensures Held(data, Part(n, a, b)) && TextOf(data, Part(n, a, b)) == TextOf(data, n)[a..b]
  {
    if a < b {
      var x, y := TextOf(data, Part(n, a, b)), TextOf(data, n)[a..b];
      forall j | 0 <= j < |x| ensures x[j] == y[j] {}
    }
  }

  /** Texts stay what they are when the arena grows. */
  lemma StillHeld(data: string, more: string, n: Snippet)
    requires Held(data, n) && data <= more
    ensures Held(more, n) && TextOf(more, n) == TextOf(data, n)
  {
    if n.size > 0 {
      var x, y := TextOf(more, n), TextOf(data, n);
      forall j | 0 <= j < |x| ensures x[j] == y[j] {}
    }
  }

  predicate FrameOk(data: string, f: SourceFrame) { Held(data, f.content) && f.cursor <= f.content.size }

  function PlaceOf(data: string, f: SourceFrame): Frame
    requires FrameOk(data, f)
  {
    Frame(TextOf(data, f.content), f.cursor)
  }

  function StackOf(data: string, stack: seq<SourceFrame>): seq<Frame>
    requires forall f :: f in stack ==> FrameOk(data, f)
  {
    seq(|stack|, k requires 0 <= k < |stack| => PlaceOf(data, stack[k]))
  }

  function TableOf(data: string, macros: map<string, Snippet>): Macros
    requires forall m :: m in macros ==> Held(data, macros[m])
  {
    map m | m in macros :: TextOf(data, macros[m])
  }

  /** `stack` with the cursor of its top frame at `k`. */
  function Moved(stack: seq<SourceFrame>, k: nat): (r: seq<SourceFrame>)
    requires stack != []
    ensures |r| == |stack| && r[|r| - 1] == SourceFrame(stack[|stack| - 1].content, k)
    ensures r[..|r| - 1] == stack[..|stack| - 1]
  {
    stack[..|stack| - 1] + [SourceFrame(stack[|stack| - 1].content, k)]
  }

  lemma MovedTwice(stack: seq<SourceFrame>, a: nat, b: nat)
    requires stack != []
    ensures Moved(Moved(stack, a), b) == Moved(stack, b)
  {}

  lemma MovedNowhere(stack: seq<SourceFrame>)
    requires stack != []
    ensures Moved(stack, stack[|stack| - 1].cursor) == stack
  {}

  /** Every file kept is the normalised text of a file that can be opened. */
  ghost predicate FromDisk(es: seq<Entry>, disk: map<string, string>) {
    forall e :: e in es ==> e.name in disk && e.content == Normalised(disk[e.name])
  }

  function CleanFiles(disk: map<string, string>): Disk {
    map p | p in disk :: Normalised(disk[p])
  }

  function Kept(es: seq<Entry>, disk: map<string, string>, path: string): seq<Entry> {
    if path in disk then WithFile(es, path, Normalised(disk[path])) else es
  }

  function InfoOf(es: seq<Entry>, disk: map<string, string>, path: string): FileInfo {
    if Lookup(es, path) != NotFound then Lookup(es, path)
    else if path in disk then InfoAt(Kept(es, disk, path), |es|)
    else NotFound
  }

  /** What is loaded is the file's text, whether it was there before or not. */
  lemma LoadedText(es: seq<Entry>, disk: map<string, string>, path: string)
    requires FromDisk(es, disk)
    ensures var d := Layout(Kept(es, disk, path)); var n := InfoOf(es, disk, path).Content();
      FromDisk(Kept(es, disk, path), disk) && Held(d, n) && TextOf(d, n) == Load(CleanFiles(disk), path)
  {
    hide Layout, Normalised, Slice;
    var k := IndexOf(es, path, 0);
    var all := Kept(es, disk, path);
    if Lookup(es, path) != NotFound {
      assert es[k] in es;
      EntrySlices(es, k);
    } else if path in disk {
      EntrySlices(all, |es|);
      assert all[|es|] == Entry(path, Normalised(disk[path]));
    }
  }

  /** How a run ends. The source has no bound on includes; the model stops when it is given one. */
  datatype Status = Finished | Failed(why: Stop) | TooManyIncludes

  /** What a handler gives back: a code, or the reason why the program does not come back from it. */
  datatype Ret = Returned(code: int) | Lost(why: Stop)

  function Verdict(v: Option<bool>): Ret {
    if v.None? then Lost(Hangs) else Returned(if v.value then 1 else 0)
  }

  /** The name in `text` is there and has no macro. */
  predicate Absent(macros: Macros, text: string) { Trim(text) != "" && Trim(text) !in macros }

  lemma EvalLook(macros: Macros, text: string, depth: nat)
    ensures Eval(macros, text, depth) ==
      if LookAt(macros, text).Answer? then Some(LookAt(macros, text).value)
      else if depth == 0 then None
      else Eval(macros, LookAt(macros, text).text, depth - 1)
  {
    hide LookAt;
  }

  lemma LookCases(macros: Macros, text: string)
    ensures var t := Trim(text);
      var eq, neq := if t == "" then 0 else FindText(t, 0, "=="), if t == "" then 0 else FindText(t, 0, "!=");
      LookAt(macros, text) ==
        if t == "" || t == "0" || t == "false" then Answer(false)
        else if t == "1" || t == "true" then Answer(true)
        else if eq < |t| then Answer(Compare(macros, t, eq, true))
        else if neq < |t| then Answer(Compare(macros, t, neq, false))
        else if t !in macros then Answer(false)
        else if macros[t] == "" then Answer(true)
        else Follow(macros[t])
  {
    hide Trim, Compare;
  }

  lemma FramesMoved(data: string, stack: seq<SourceFrame>, k: nat)
    requires stack != [] && (forall f :: f in stack ==> FrameOk(data, f)) && k <= stack[|stack| - 1].content.size
    ensures forall f :: f in Moved(stack, k) ==> FrameOk(data, f)
    ensures var a := StackOf(data, stack); var last := a[|a| - 1];
      StackOf(data, Moved(stack, k)) == a[..|a| - 1] + [Frame(last.text, k)]
    ensures |StackOf(data, stack)| == |stack| && StackOf(data, Moved(stack, k))[..|stack| - 1] == StackOf(data, stack)[..|stack| - 1]
  {
    var m := Moved(stack, k);
    assert stack[|stack| - 1] in stack;
    forall f | f in m ensures FrameOk(data, f) {
      var j :| 0 <= j < |m| && m[j] == f;
      if j < |m| - 1 { assert m[j] == m[..|m| - 1][j] == stack[..|stack| - 1][j] == stack[j]; }
    }
    var a, b := StackOf(data, stack), StackOf(data, m);
    forall j | 0 <= j < |a| - 1 ensures b[j] == a[j] { assert m[j] == m[..|m| - 1][j] == stack[j]; }
    assert b == a[..|a| - 1] + [Frame(a[|a| - 1].text, k)];
  }

  lemma FramesPushed(data: string, stack: seq<SourceFrame>, top: SourceFrame)
    requires FrameOk(data, top) && forall f :: f in stack ==> FrameOk(data, f)
    ensures forall f :: f in stack + [top] ==> FrameOk(data, f)
    ensures StackOf(data, stack + [top]) == StackOf(data, stack) + [PlaceOf(data, top)]
  {}

  class Preprocessor {
    const files: FileManager
    var output: string
    var inputStack: seq<SourceFrame>
    var storedMacros: map<string, Snippet>
    var branchFlags: seq<Branch>
    var currActive: MacroType

    ghost predicate Valid()
      reads this, files
    {
      && files.Valid()
      && (forall f :: f in inputStack ==> FrameOk(files.data, f))
      && (forall m :: m in storedMacros ==> Held(files.data, storedMacros[m]))
      && FromDisk(files.entries, files.disk)
    }

    /** The macro table as texts. */
    ghost function Table(): Macros
      requires Valid()
      reads this, files
    {
      TableOf(files.data, storedMacros)
    }

    ghost function State(): Env
      requires Valid()
      reads this, files
    {
      Env(Table(), branchFlags, output)
    }

    ghost function Stack(): seq<Frame>
      requires Valid()
      reads this, files
    {
      StackOf(files.data, inputStack)
    }

    /** The files as the preprocessor sees them. */
    ghost function Files(): Disk { CleanFiles(files.disk) }

    constructor (disk: map<string, string>, path: string)
      ensures Valid() && fresh(files) && Files() == CleanFiles(disk)
      ensures Stack() == [Frame(Load(Files(), path), 0)] && State() == Env(map[], [], "")
    {
      files := new FileManager(disk);
      output, inputStack, storedMacros, branchFlags, currActive := "", [], map[], [], UnknownDirective;
      new;
      hide Layout, Normalised;
      LoadedText(files.entries, files.disk, path);
      var sourceFile := files.LoadFile(path);
      inputStack := [SourceFrame(sourceFile.Content(), 0)];
      assert Stack()[0] == Frame(Load(Files(), path), 0);
    }

    /** Some text is being read. */
    ghost predicate Reading()
      reads this, files
    {
      Valid() && inputStack != []
    }

    /** The text on top, and the position in it. */
    ghost function Source(): (s: string)
      requires Reading()
      reads this, files
      ensures |s| == inputStack[|inputStack| - 1].content.size
    {
      assert inputStack[|inputStack| - 1] in inputStack;
      TextOf(files.data, inputStack[|inputStack| - 1].content)
    }

    function Cursor(): (c: nat)
      requires Reading()
      reads this, files
      ensures c == inputStack[|inputStack| - 1].cursor && c <= |Source()|
    {
      assert inputStack[|inputStack| - 1] in inputStack;
      inputStack[|inputStack| - 1].cursor
    }

    function Size(): (n: nat)
      requires Reading()
      reads this, files
      ensures n == |Source()|
    {
      inputStack[|inputStack| - 1].content.size
    }

    function CharAt(k: nat): (c: char)
      requires Reading() && k < |Source()|
      reads this, files
      ensures c == Source()[k]
    {
      assert inputStack[|inputStack| - 1] in inputStack;
      files.data[inputStack[|inputStack| - 1].content.offset + k]
    }

    method MoveTo(k: nat)
      requires Reading() && k <= |Source()|
      modifies this`inputStack
      ensures Reading() && inputStack == Moved(old(inputStack), k) && Cursor() == k
      ensures Source() == old(Source()) && State() == old(State())
    {
      var top := inputStack[|inputStack| - 1];
      assert top in inputStack;
      inputStack := inputStack[..|inputStack| - 1] + [top.(cursor := k)];
    }

    /** The first `ch` at or after the cursor, or the size of the text. */
    method FindNext(ch: char) returns (k: nat)
      requires Reading()
      ensures k == Find(Source(), Cursor(), ch)
    {
      k := Cursor();
      while k < Size()
        invariant Cursor() <= k <= Size()
        invariant Find(Source(), k, ch) == Find(Source(), Cursor(), ch)
      {
        if CharAt(k) == ch { return; }
        k := k + 1;
      }
    }

    method FindNextIdentInv() returns (k: nat)
      requires Reading()
      ensures k == IdentEnd(Source(), Cursor())
    {
      k := Cursor();
      while k < Size()
        invariant Cursor() <= k <= Size()
        invariant IdentEnd(Source(), k) == IdentEnd(Source(), Cursor())
      {
        if !IsIdent(CharAt(k)) { return; }
        k := k + 1;
      }
    }

    method FindNextText(pat: string) returns (k: nat)
      requires Reading() && pat != ""
      ensures k == FindText(Source(), Cursor(), pat)
    {
      var top := inputStack[|inputStack| - 1];
      assert top in inputStack;
      k := FindText(TextOf(files.data, top.content), Cursor(), pat);
    }

    /** The snippet from `start` to the cursor. */
    function From(start: nat): (n: Snippet)
      requires Reading() && start <= Cursor()
      reads this, files
      ensures Held(files.data, n) && TextOf(files.data, n) == Source()[start..Cursor()]
    {
      var top := inputStack[|inputStack| - 1];
      assert top in inputStack;
      PartText(files.data, top.content, start, top.cursor);
      Part(top.content, start, top.cursor)
    }

    /** Over blanks. */
    method Ol()
      requires Reading()
      modifies this`inputStack
      ensures Reading() && inputStack == Moved(old(inputStack), SkipBlanks(old(Source()), old(Cursor())))
      ensures Source() == old(Source()) && State() == old(State()) && Cursor() == SkipBlanks(Source(), old(Cursor()))
    {
      ghost var s, c := Source(), Cursor();
      MovedNowhere(inputStack);
      while Cursor() < Size()
        invariant Reading() && Source() == s && State() == old(State())
        invariant inputStack == Moved(old(inputStack), Cursor())
        invariant SkipBlanks(s, Cursor()) == SkipBlanks(s, c)
        decreases |s| - Cursor()
      {
        if !IsBlank(CharAt(Cursor())) { break; }
        MovedTwice(old(inputStack), Cursor(), Cursor() + 1);
        MoveTo(Cursor() + 1);
      }
    }
  
    /** The snippet between two positions. */
    function Between(a: nat, b: nat): (n: Snippet)
      requires Reading() && a <= b <= |Source()|
      reads this, files
      ensures Held(files.data, n) && TextOf(files.data, n) == Source()[a..b]
    {
      var top := inputStack[|inputStack| - 1];
      assert top in inputStack;
      PartText(files.data, top.content, a, b);
      Part(top.content, a, b)
    }

    /** Back over blanks, as far as the start of the text. */
    method OlBack()
      requires Reading()
      modifies this`inputStack
      ensures Reading() && inputStack == Moved(old(inputStack), BackBlanks(old(Source()), old(Cursor()), 0))
      ensures Source() == old(Source()) && State() == old(State()) && Cursor() == BackBlanks(Source(), old(Cursor()), 0)
    {
      ghost var s, c := Source(), Cursor();
      MovedNowhere(inputStack);
      while Cursor() > 0
        invariant Reading() && Source() == s && State() == old(State())
        invariant inputStack == Moved(old(inputStack), Cursor())
        invariant BackBlanks(s, Cursor(), 0) == BackBlanks(s, c, 0)
        decreases Cursor()
      {
        if !IsBlank(CharAt(Cursor() - 1)) { break; }
        MovedTwice(old(inputStack), Cursor(), Cursor() - 1);
        MoveTo(Cursor() - 1);
      }
    }

    /** Past the next line end, if there is one. */
    method ToNextLine()
      requires Reading()
      modifies this`inputStack
      ensures Reading() && inputStack == Moved(old(inputStack), NextLine(old(Source()), old(Cursor())))
      ensures Source() == old(Source()) && State() == old(State()) && Cursor() == NextLine(Source(), old(Cursor()))
    {
      MovedNowhere(inputStack);
      var endLine := FindNext('\n');
      if endLine < Size() { MoveTo(endLine + 1); }
    }

    /** Past the next line end, or to the end of the text. */
    method ToPastLine()
      requires Reading()
      modifies this`inputStack
      ensures Reading() && inputStack == Moved(old(inputStack), PastLine(old(Source()), old(Cursor())))
      ensures Source() == old(Source()) && State() == old(State()) && Cursor() == PastLine(Source(), old(Cursor()))
    {
      var endLine := FindNext('\n');
      MoveTo(if endLine < Size() then endLine + 1 else Size());
    }

    /** Past the next `pat`, or to the end of the text. */
    method ToPastText(pat: string)
      requires Reading() && pat != ""
      modifies this`inputStack
      ensures Reading() && inputStack == Moved(old(inputStack), PastText(old(Source()), old(Cursor()), pat))
      ensures Source() == old(Source()) && State() == old(State()) && Cursor() == PastText(Source(), old(Cursor()), pat)
    {
      var end := FindNextText(pat);
      MoveTo(if end < Size() then end + |pat| else Size());
    }

    /** Over identifier characters. */
    method ToIdentEnd()
      requires Reading()
      modifies this`inputStack
      ensures Reading() && inputStack == Moved(old(inputStack), IdentEnd(old(Source()), old(Cursor())))
      ensures Source() == old(Source()) && State() == old(State()) && Cursor() == IdentEnd(Source(), old(Cursor()))
    {
      var end := FindNextIdentInv();
      MoveTo(end);
    }
  
    // ---------- conditions ----------

    function IsDefined(name: string): (b: bool)
      requires Valid()
      reads this, files
      ensures b == (name in Table())
    {
      name in storedMacros
    }

    /** A defined name's text when that is not empty, and the word itself otherwise. */
    function ResolveWord(word: string): (v: string)
      requires Valid()
      reads this, files
      ensures v == Resolve(Table(), word)
    {
      if word in storedMacros && storedMacros[word].size > 0 then Trim(TextOf(files.data, storedMacros[word])) else word
    }

    /** The two sides of a comparison, each a word or its macro's text. */
    method CompareSides(trimmed: string, opPos: nat, isEq: bool) returns (b: bool)
      requires Valid() && opPos + 2 <= |trimmed|
      ensures b == Compare(Table(), trimmed, opPos, isEq)
    {
      hide Resolve, Trim;
      var lhs, rhs := Trim(trimmed[..opPos]), Trim(trimmed[opPos + 2..]);
      b := (ResolveWord(lhs) == ResolveWord(rhs)) == isEq;
    }

    /**
     `depth` bounds the recursion. Called with the number of macros it is never reached unless
     the source would recurse for ever.
     */
    method EvalCondition(cond: Snippet, depth: nat) returns (r: Ret)
      requires Valid() && Held(files.data, cond)
      ensures currActive.If? || currActive.Elif? ==> r == Verdict(Eval(Table(), TextOf(files.data, cond), depth))
      ensures currActive.Ifndef? ==> r == Returned(if Absent(Table(), TextOf(files.data, cond)) then 1 else 0)
      decreases depth
    {
      hide Eval, LookAt, Trim, Compare;
      ghost var macros, text := Table(), TextOf(files.data, cond);
      LookCases(macros, text);
      EvalLook(macros, text, depth);
      var trimmed := Trim(TextOf(files.data, cond));
      if trimmed == "" { return Returned(0); }
      if currActive.Ifndef? { return Returned(if !IsDefined(trimmed) then 1 else 0); }
      if !currActive.If? && !currActive.Elif? { return Returned(-1); }
      if trimmed == "0" || trimmed == "false" { return Returned(0); }
      if trimmed == "1" || trimmed == "true" { return Returned(1); }
      var eqPos, neqPos := FindText(trimmed, 0, "=="), FindText(trimmed, 0, "!=");
      if eqPos < |trimmed| || neqPos < |trimmed| {
        var isEq := eqPos < |trimmed|;
        var b := CompareSides(trimmed, if isEq then eqPos else neqPos, isEq);
        return Returned(if b then 1 else 0);
      }
      if !IsDefined(trimmed) { return Returned(0); }
      var def := storedMacros[trimmed];
      assert TextOf(files.data, def) == macros[trimmed];
      if def.size == 0 { return Returned(1); }
      if depth == 0 { return Lost(Hangs); }
      r := EvalCondition(def, depth - 1);
    }

    // ---------- skipping ----------

    /** Whether the branch on top of the branch stack was ever taken. */
    function EverTaken(): (b: bool)
      reads this
      ensures b == TopTaken(branchFlags)
    {
      branchFlags != [] && branchFlags[|branchFlags| - 1].everTaken
    }

    /** Reads until the branch's own terminator, without output and without definitions. */
    method SkipIfBranch() returns (code: int)
      requires Reading()
      modifies this`inputStack
      ensures Reading() && State() == old(State())
      ensures var r := SkipFrom(old(Source()), old(Cursor()), 1, NoQuotes, TopTaken(old(branchFlags)));
        r.next <= old(Size()) && inputStack == Moved(old(inputStack), r.next) && code == r.code
    {
      hide SkipFrom, Moved, TextOf, Held;
      ghost var s, taken := Source(), TopTaken(branchFlags);
      ghost var goal := SkipFrom(s, Cursor(), 1, NoQuotes, taken);
      var nest, quotes, done := 1, NoQuotes, false;
      MovedNowhere(inputStack);
      SkipFromBounds(s, Cursor(), 1, NoQuotes, taken);
      while nest > 0 && Cursor() < Size()
        invariant Reading() && Source() == s && State() == old(State())
        invariant inputStack == Moved(old(inputStack), Cursor())
        invariant SkipFrom(s, Cursor(), nest, quotes, taken) == goal
        decreases |s| - Cursor()
      {
        ghost var c := Cursor();
        done, nest, quotes, code := SkipOne(nest, quotes);
        MovedTwice(old(inputStack), c, Cursor());
        if done { return; }
      }
      SkipUnfold(s, Cursor(), nest, quotes, taken);
      code := if nest == 0 then 0 else -422;
    }

    /** One step of skipping; `done` means that it is the last one. */
    method SkipOne(nestCount: nat, open: Quotes) returns (done: bool, nest: nat, quotes: Quotes, code: int)
      requires Reading() && Cursor() < |Source()| && nestCount > 0
      modifies this`inputStack
      ensures Reading() && Source() == old(Source()) && State() == old(State())
      ensures inputStack == Moved(old(inputStack), Cursor()) && old(Cursor()) < Cursor()
      ensures var s, taken := Source(), TopTaken(old(branchFlags));
        SkipFrom(s, old(Cursor()), nestCount, open, taken) ==
          if done then Skipped(Cursor(), code) else SkipFrom(s, Cursor(), nest, quotes, taken)
    {
      hide Match, SkipDirective, SkipFrom, IdentEnd, CommentEnd, Moved, TextOf, Held;
      done, nest, quotes, code := false, nestCount, open, 0;
      SkipUnfold(Source(), Cursor(), nest, open, TopTaken(branchFlags));
      var c := CharAt(Cursor());
      if c == '"' {
        quotes := Quotes(!open.double, open.single);
        MoveTo(Cursor() + 1);
      } else if c == '\'' {
        quotes := Quotes(open.double, !open.single);
        MoveTo(Cursor() + 1);
      } else if open.single || open.double {
        MoveTo(Cursor() + 1);
      } else if c == '/' && Cursor() + 1 < Size() && (CharAt(Cursor() + 1) == '/' || CharAt(Cursor() + 1) == '*') {
        PassComment();
      } else if c == '#' {
        done, nest, code := SkipOneDirective(nest);
      } else {
        MoveTo(Cursor() + 1);
      }
    }

    lemma SkipUnfold(s: string, c: nat, nest: nat, q: Quotes, taken: bool)
      requires c <= |s|
      ensures SkipFrom(s, c, nest, q, taken) ==
        if nest == 0 then Skipped(c, 0)
        else if c == |s| then Skipped(c, -422)
        else if s[c] == '"' then SkipFrom(s, c + 1, nest, Quotes(!q.double, q.single), taken)
        else if s[c] == '\'' then SkipFrom(s, c + 1, nest, Quotes(q.double, !q.single), taken)
        else if q.double || q.single then SkipFrom(s, c + 1, nest, q, taken)
        else if StartsComment(s, c) then SkipFrom(s, CommentEnd(s, c), nest, q, taken)
        else if s[c] == '#' then
          var m := SkipDirective(s, IdentEnd(s, c + 1), Match(s[c..IdentEnd(s, c + 1)]), nest, taken);
          if m.Ends? then m.result else SkipFrom(s, m.next, m.nest, q, taken)
        else SkipFrom(s, c + 1, nest, q, taken)
    {
      hide Match, SkipDirective;
    }

    /** Past a comment. */
    method PassComment()
      requires Reading() && StartsComment(Source(), Cursor())
      modifies this`inputStack
      ensures Reading() && inputStack == Moved(old(inputStack), CommentEnd(old(Source()), old(Cursor())))
      ensures Source() == old(Source()) && State() == old(State()) && Cursor() == CommentEnd(Source(), old(Cursor()))
    {
      if CharAt(Cursor() + 1) == '/' {
        ToPastLine();
      } else {
        ghost var c := Cursor();
        MoveTo(Cursor() + 2);
        MovedTwice(old(inputStack), c + 2, CommentEnd(Source(), c));
        ToPastText("*/");
      }
    }

    /** Takes a directive's name from the cursor on and tells which one it is. */
    method TakeName() returns (d: MacroType)
      requires Reading() && Cursor() < |Source()|
      modifies this`inputStack
      ensures var s := old(Source()); var c := old(Cursor()); var e := IdentEnd(s, c + 1);
        && Reading() && inputStack == Moved(old(inputStack), e) && Source() == s && State() == old(State()) && Cursor() == e
        && d == Match(s[c..e])
    {
      hide Match;
      var startHash := Cursor();
      MoveTo(Cursor() + 1);
      MovedTwice(old(inputStack), startHash + 1, IdentEnd(Source(), startHash + 1));
      ToIdentEnd();
      d := Match(TextOf(files.data, From(startHash)));
    }

    /** One directive met while skipping; `done` means that it ends the skipping. */
    method SkipOneDirective(nestCount: nat) returns (done: bool, nest: nat, code: int)
      requires Reading() && Cursor() < |Source()| && nestCount > 0
      modifies this`inputStack
      ensures Reading() && Source() == old(Source()) && State() == old(State())
      ensures var s := old(Source()); var e := IdentEnd(s, old(Cursor()) + 1);
        var m := SkipDirective(s, e, Match(s[old(Cursor())..e]), nestCount, TopTaken(old(branchFlags)));
        && inputStack == Moved(old(inputStack), Cursor()) && old(Cursor()) < Cursor()
        && done == m.Ends?
        && if done then m.result == Skipped(Cursor(), code) else m == On(Cursor(), nest)
    {
      hide Match;
      nest, done, code := nestCount, false, 0;
      var d := TakeName();
      ghost var e, st := Cursor(), inputStack;
      match d
      case If | Ifndef => nest := (nest + 1) % 0x1_0000;
      case Define => ToPastLine();
      case DefineM => ToPastText("#enddef");
      case Skip =>
        ToPastLine();
        ToPastLine();
      case Elif =>
        if nest == 1 {
          if EverTaken() { ToPastLine(); } else { done, code := true, EligibleElif; }
        }
      case Else =>
        if nest == 1 {
          if EverTaken() { ToPastLine(); } else { done := true; code := EndBranching(); }
        }
      case Endif =>
        if nest == 1 { done := true; code := EndBranching(); } else { nest := nest - 1; }
      case _ =>
    }

    method EndBranching() returns (code: int)
      requires Reading()
      modifies this`inputStack
      ensures Reading() && Source() == old(Source()) && State() == old(State())
      ensures EndBranch(Source(), old(Cursor())) == Skipped(Cursor(), code) && inputStack == Moved(old(inputStack), Cursor())
      ensures old(Cursor()) <= Cursor()
    {
      var endLine := FindNext('\n');
      if endLine == Size() {
        MoveTo(Size());
        return EndOfLineMissing;
      }
      MoveTo(endLine + 1);
      return 0;
    }
  
    // ---------- directives ----------

    /** The handler has done `f` to what was there before; `stack` and `out` are of that time. */
    ghost predicate Did(f: Effect, r: Ret, stack: seq<SourceFrame>, out: string)
      requires stack != []
      reads this, files
    {
      Valid() &&
      match f
      case Go(next, env) => r.Returned? && r.code >= 0 && State() == env && inputStack == Moved(stack, next)
      case Enter(next, env, text) =>
        && r.Returned? && r.code >= 0 && State() == env
        && |inputStack| == |stack| + 1 && inputStack[..|stack|] == Moved(stack, next)
        && PlaceOf(files.data, inputStack[|stack|]) == Frame(text, 0)
      case Halt(why) => output == out && r == (if why.Code? then Returned(why.code) else Lost(why)) && (why.Code? ==> why.code < 0)
    }

    method SkipBranchHere() returns (r: Ret)
      requires Reading()
      modifies this`inputStack
      ensures Did(SkipBranch(old(Source()), old(Cursor()), old(State())), r, old(inputStack), old(output))
    {
      var code := SkipIfBranch();
      r := Returned(code);
    }

    /** Opens a branch and skips it unless it is entered. */
    method OpenBranch(passed: bool) returns (r: Ret)
      requires Reading()
      modifies this`inputStack, this`branchFlags
      ensures Did(Decide(old(Source()), old(Cursor()), old(State()), passed), r, old(inputStack), old(output))
    {
      hide SkipBranch, Moved, TextOf, Held;
      branchFlags := branchFlags + [Branch(passed, passed)];
      if !passed {
        r := SkipBranchHere();
      } else {
        MovedNowhere(inputStack);
        r := Returned(0);
      }
    }

    /** Back over the blanks before a position. */
    method BackFrom(end: nat)
      requires Reading() && end <= |Source()|
      modifies this`inputStack
      ensures var k := BackBlanks(old(Source()), end, 0);
        && Reading() && inputStack == Moved(old(inputStack), k)
        && Source() == old(Source()) && State() == old(State()) && Cursor() == k
    {
      hide TextOf, Held, BackBlanks;
      MoveTo(end);
      MovedTwice(old(inputStack), end, BackBlanks(Source(), end, 0));
      OlBack();
    }

    /** Takes the condition up to the line end, `end`, and moves past that line; `defined` is false when its start is passed. */
    method TakeCondition(end: nat) returns (defined: bool, cond: Snippet)
      requires Reading() && Cursor() <= end < |Source()|
      modifies this`inputStack
      ensures var s := old(Source()); var b := old(Cursor()); var k := BackBlanks(s, end, 0);
        && Reading() && Source() == s && State() == old(State()) && defined == (b <= k)
        && (defined ==>
          && inputStack == Moved(old(inputStack), end + 1) && Cursor() == end + 1
          && Held(files.data, cond) && TextOf(files.data, cond) == s[b..k])
    {
      hide Moved, TextOf, Held, BackBlanks;
      var beginning := Cursor();
      cond := Snippet(0, 0);
      BackFrom(end);
      defined := beginning <= Cursor();
      if defined {
        cond := From(beginning);
        MovedTwice(old(inputStack), Cursor(), end + 1);
        MoveTo(end + 1);
      }
    }

    /** The condition up to the line end, evaluated; then the cursor is past that line. */
    method JudgeLine() returns (r: Ret)
      requires Reading() && (currActive.If? || currActive.Elif?)
      modifies this`inputStack
      ensures var s := old(Source()); var b := SkipBlanks(s, old(Cursor())); var e := Find(s, b, '\n');
        && Reading() && Source() == s && State() == old(State())
        && if e == |s| then r == Returned(-422)
           else
             var (v, defined) := Judge(s, b, e, old(Table()));
             if !defined then r == Lost(Undefined)
             else r == Verdict(v) && inputStack == Moved(old(inputStack), e + 1) && Cursor() == e + 1
    {
      hide Eval, Moved, TextOf, Held, SkipBlanks, BackBlanks, Find;
      Ol();
      var endLine := FindNext('\n');
      if endLine == Size() { return Returned(-422); }
      MovedTwice(old(inputStack), Cursor(), endLine + 1);
      var defined, rawCond := TakeCondition(endLine);
      if !defined { return Lost(Undefined); }
      SizeOfTable();
      r := EvalCondition(rawCond, |storedMacros|);
    }

    lemma SizeOfTable()
      requires Valid()
      ensures |Table()| == |storedMacros|
    {
      assert Table().Keys == storedMacros.Keys;
      assert |Table().Keys| == |Table()| && |storedMacros.Keys| == |storedMacros|;
    }

    method HandleIf() returns (r: Ret)
      requires Reading()
      modifies this
      ensures Did(DoIf(old(Source()), old(Cursor()), old(State())), r, old(inputStack), old(output))
    {
      hide Judge, Decide, Moved, TextOf, Held;
      currActive := If;
      r := JudgeLine();
      if r.Lost? || r.code < 0 { return; }
      ghost var st := inputStack;
      MovedBoth(old(inputStack), Cursor());
      r := OpenBranch(r.code == 1);
    }

    lemma MovedBoth(stack: seq<SourceFrame>, k: nat)
      requires stack != []
      ensures forall n: nat :: Moved(Moved(stack, k), n) == Moved(stack, n)
    {}

    /** Takes the name `#ifndef` asks about, and moves past its line. */
    method TakeGuard() returns (name: Snippet)
      requires Reading()
      modifies this`inputStack
      ensures var s := old(Source()); var b := SkipBlanks(s, old(Cursor())); var e := IdentEnd(s, b);
        && Reading() && Source() == s && State() == old(State())
        && inputStack == Moved(old(inputStack), NextLine(s, e)) && Cursor() == NextLine(s, e)
        && Held(files.data, name) && TextOf(files.data, name) == s[b..e]
    {
      hide Moved, TextOf, Held, SkipBlanks, IdentEnd, NextLine;
      ghost var st := inputStack;
      Ol();
      var startName := Cursor();
      ToIdentEnd();
      name := From(startName);
      MovedTwice(st, startName, Cursor());
      ghost var e := Cursor();
      ToNextLine();
      MovedTwice(st, e, Cursor());
    }

    method HandleIfndef() returns (r: Ret)
      requires Reading()
      modifies this
      ensures Did(DoIfndef(old(Source()), old(Cursor()), old(State())), r, old(inputStack), old(output))
    {
      hide Decide, Trim, Moved, TextOf, Held, SkipBlanks, IdentEnd, NextLine;
      currActive := Ifndef;
      var name := TakeGuard();
      MovedBoth(old(inputStack), Cursor());
      r := EvalCondition(name, |storedMacros|);
      r := OpenBranch(r.code == 1);
    }

    method HandleElse() returns (r: Ret)
      requires Reading()
      modifies this`inputStack, this`branchFlags
      ensures Did(DoElse(old(Source()), old(Cursor()), old(State())), r, old(inputStack), old(output))
    {
      hide SkipBranch, Moved, TextOf, Held;
      if branchFlags == [] { return Returned(-400); }
      ToNextLine();
      MovedBoth(old(inputStack), Cursor());
      var top := |branchFlags| - 1;
      if branchFlags[top].everTaken {
        branchFlags := branchFlags[top := Branch(false, true)];
        r := SkipBranchHere();
      } else {
        branchFlags := branchFlags[top := Branch(true, true)];
        r := Returned(0);
      }
    }

    method HandleElif() returns (r: Ret)
      requires Reading()
      modifies this
      ensures Did(DoElif(old(Source()), old(Cursor()), old(State())), r, old(inputStack), old(output))
    {
      hide SkipBranch, Judge, Moved, TextOf, Held, Find, SkipBlanks;
      if branchFlags == [] { return Returned(-400); }
      currActive := Elif;
      var top := |branchFlags| - 1;
      if branchFlags[top].everTaken {
        branchFlags := branchFlags[top := Branch(false, true)];
        r := SkipBranchHere();
      } else {
        r := JudgeLine();
        if r.Lost? || r.code < 0 { return; }
        MovedBoth(old(inputStack), Cursor());
        r := ReopenBranch(r.code == 1);
      }
    }

    /** The branch on top becomes the one judged, and is skipped unless it is entered. */
    method ReopenBranch(passed: bool) returns (r: Ret)
      requires Reading() && branchFlags != []
      modifies this`inputStack, this`branchFlags
      ensures var env := SetTop(old(State()), Branch(passed, passed));
        Did(if passed then Go(old(Cursor()), env) else SkipBranch(old(Source()), old(Cursor()), env), r, old(inputStack), old(output))
    {
      hide SkipBranch, Moved, TextOf, Held;
      branchFlags := branchFlags[|branchFlags| - 1 := Branch(passed, passed)];
      if !passed {
        r := SkipBranchHere();
      } else {
        MovedNowhere(inputStack);
        r := Returned(0);
      }
    }

    method HandleEndif() returns (r: Ret)
      requires Reading()
      modifies this`inputStack, this`branchFlags
      ensures Did(DoEndif(old(Source()), old(Cursor()), old(State())), r, old(inputStack), old(output))
    {
      if branchFlags == [] { return Returned(-400); }
      branchFlags := branchFlags[..|branchFlags| - 1];
      ToNextLine();
      r := Returned(0);
    }

    method HandleSkip() returns (r: Ret)
      requires Reading()
      modifies this`inputStack
      ensures Did(Go(PastTwoLines(old(Source()), old(Cursor())), old(State())), r, old(inputStack), old(output))
    {
      ToPastLine();
      MovedBoth(old(inputStack), Cursor());
      ToPastLine();
      r := Returned(0);
    }

    // ---------- definitions ----------

    method AddMacro(name: string, content: Snippet)
      requires Valid() && Held(files.data, content)
      modifies this`storedMacros
      ensures Valid() && inputStack == old(inputStack)
      ensures State() == old(State()).(macros := old(Table())[name := TextOf(files.data, content)])
    {
      storedMacros := storedMacros[name := content];
      assert Table() == old(Table())[name := TextOf(files.data, content)];
    }

    /** Gives every alias in `names` the same content. */
    method RegisterAliases(names: string, content: Snippet)
      requires Valid() && Held(files.data, content)
      modifies this`storedMacros
      ensures Valid() && inputStack == old(inputStack)
      ensures State() == old(State()).(macros := Register(old(Table()), names, 0, TextOf(files.data, content)))
    {
      hide Trim;
      ghost var text := TextOf(files.data, content);
      ghost var goal := Register(Table(), names, 0, text);
      var pos := 0;
      while pos < |names|
        invariant pos <= |names| && Valid() && State() == old(State()).(macros := Table())
        invariant Register(Table(), names, pos, text) == goal
      {
        var amp := Find(names, pos, '&');
        var name := Trim(names[pos..amp]);
        if name != "" { AddMacro(name, content); }
        if amp == |names| { break; }
        pos := amp + 1;
      }
    }
  
    /** Past aliases joined by `&` without blanks; the first name has been passed. */
    method ToAliasesEnd()
      requires Reading()
      modifies this`inputStack
      ensures Reading() && inputStack == Moved(old(inputStack), AliasesEnd(old(Source()), old(Cursor())))
      ensures Source() == old(Source()) && State() == old(State()) && Cursor() == AliasesEnd(Source(), old(Cursor()))
    {
      hide Moved, TextOf, Held;
      ghost var s, c, st := Source(), Cursor(), inputStack;
      MovedNowhere(st);
      while Cursor() < Size() && CharAt(Cursor()) == '&'
        invariant Reading() && Source() == s && State() == old(State()) && inputStack == Moved(st, Cursor())
        invariant AliasesEnd(s, Cursor()) == AliasesEnd(s, c)
        decreases |s| - Cursor()
      {
        ghost var k := Cursor();
        MoveTo(Cursor() + 1);
        MovedTwice(st, k, k + 1);
        ToIdentEnd();
        MovedTwice(st, k + 1, Cursor());
      }
    }

    /** Up to the line end, or the end of the text; `goesOn` when the line is continued on the next. */
    method ReadLine() returns (goesOn: bool)
      requires Reading()
      modifies this`inputStack
      ensures var s := old(Source()); var c := old(Cursor()); var e := Find(s, c, '\n');
        && Reading() && Source() == s && State() == old(State())
        && inputStack == Moved(old(inputStack), e) && Cursor() == e && goesOn == (e < |s| && Continues(s[c..e]))
    {
      hide Continues, Moved, TextOf, Held, Find;
      var endL := FindNext('\n');
      var start := Cursor();
      MoveTo(endL);
      goesOn := Continues(TextOf(files.data, From(start))) && endL != Size();
    }

    /** The end of a definition's text, over continued lines; the cursor ends up after it. */
    method ReadBody(startVal: nat) returns (contentEnd: nat)
      requires Reading() && startVal == Cursor()
      modifies this`inputStack
      ensures Reading() && Source() == old(Source()) && State() == old(State())
      ensures inputStack == Moved(old(inputStack), Cursor())
      ensures BodyFrom(Source(), startVal, startVal) == Body(contentEnd, Cursor())
    {
      hide Continues, Moved, TextOf, Held, BodyFrom, Find;
      ghost var s, goal := Source(), BodyFrom(Source(), startVal, startVal);
      contentEnd := startVal;
      MovedNowhere(inputStack);
      var goesOn := true;
      while Cursor() < Size() && goesOn
        invariant Reading() && Source() == s && State() == old(State()) && startVal <= Cursor()
        invariant inputStack == Moved(old(inputStack), Cursor())
        invariant if goesOn then contentEnd == startVal && BodyFrom(s, Cursor(), startVal) == goal
                  else goal == Body(contentEnd, Cursor())
        decreases |s| - Cursor(), goesOn
      {
        ghost var c := Cursor();
        BodyUnfold(s, c, startVal);
        goesOn := ReadLine();
        MovedTwice(old(inputStack), c, Cursor());
        if !goesOn { contentEnd := Cursor(); }
        if Cursor() < Size() {
          MovedTwice(old(inputStack), Cursor(), Cursor() + 1);
          MoveTo(Cursor() + 1);
        }
      }
      BodyUnfold(s, Cursor(), startVal);
    }

    lemma BodyUnfold(s: string, c: nat, start: nat)
      requires start <= c <= |s|
      ensures BodyFrom(s, c, start) ==
        if c == |s| then Body(start, c)
        else
          var e := Find(s, c, '\n');
          if e < |s| && Continues(s[c..e]) then BodyFrom(s, e + 1, start)
          else Body(e, if e < |s| then e + 1 else e)
    {
      hide Continues, Find;
    }

    /** The end of the text from `low` to `end` without the blanks at its end. */
    method TrimEnd(low: nat, end: nat) returns (k: nat)
      requires Reading() && low <= end <= |Source()|
      ensures k == BackBlanks(Source(), end, low)
    {
      k := end;
      while k > low
        invariant low <= k <= end && BackBlanks(Source(), k, low) == BackBlanks(Source(), end, low)
      {
        if !IsBlank(CharAt(k - 1)) { break; }
        k := k - 1;
      }
    }

    /** Over blanks and then aliases joined by `&`. */
    method TakeNames() returns (names: string)
      requires Reading()
      modifies this`inputStack
      ensures var s := old(Source()); var n := SkipBlanks(s, old(Cursor())); var e := AliasesEnd(s, IdentEnd(s, n));
        && Reading() && Source() == s && State() == old(State())
        && inputStack == Moved(old(inputStack), e) && Cursor() == e && names == s[n..e]
    {
      hide AliasesEnd, TextOf, Moved, Held, SkipBlanks, IdentEnd;
      ghost var st := inputStack;
      Ol();
      var startName := Cursor();
      ToIdentEnd();
      MovedTwice(st, startName, Cursor());
      ghost var c := Cursor();
      ToAliasesEnd();
      MovedTwice(st, c, Cursor());
      names := TextOf(files.data, From(startName));
    }

    method HandleDefine() returns (r: Ret)
      requires Reading()
      modifies this`inputStack, this`storedMacros
      ensures Did(DoDefine(old(Source()), old(Cursor()), old(State())), r, old(inputStack), old(output))
    {
      hide Register, BodyFrom, AliasesEnd, TextOf, Moved, Held, SkipBlanks, IdentEnd, BackBlanks;
      ghost var st := inputStack;
      var names := TakeNames();
      ghost var c := Cursor();
      Ol();
      MovedTwice(st, c, Cursor());
      var startVal := Cursor();
      var contentEnd := ReadBody(startVal);
      MovedTwice(st, startVal, Cursor());
      contentEnd := TrimEnd(startVal, contentEnd);
      var content := Between(startVal, contentEnd);
      RegisterAliases(names, content);
      r := Returned(0);
    }

    /** Past one alias and, when `&` follows, past that; blanks around it do not count. */
    method PassAlias() returns (more: bool)
      requires Reading()
      modifies this`inputStack
      ensures Reading() && Source() == old(Source()) && State() == old(State())
      ensures inputStack == Moved(old(inputStack), Cursor())
      ensures var s := Source(); var e := SkipBlanks(s, IdentEnd(s, old(Cursor())));
        more == (e < |s| && s[e] == '&') && Cursor() == if more then SkipBlanks(s, e + 1) else e
    {
      hide Moved, TextOf, Held, IsIdent, IsBlank;
      ghost var st, k := inputStack, Cursor();
      ToIdentEnd();
      k := Cursor();
      Ol();
      MovedTwice(st, k, Cursor());
      more := Cursor() < Size() && CharAt(Cursor()) == '&';
      if more {
        MovedTwice(st, Cursor(), Cursor() + 1);
        k := Cursor() + 1;
        MoveTo(Cursor() + 1);
        Ol();
        MovedTwice(st, k, Cursor());
      }
    }

    /** Past aliases joined by `&` with blanks around it. */
    method ToSpacedAliasesEnd()
      requires Reading()
      modifies this`inputStack
      ensures Reading() && inputStack == Moved(old(inputStack), SpacedAliasesEnd(old(Source()), old(Cursor())))
      ensures Source() == old(Source()) && State() == old(State()) && Cursor() == SpacedAliasesEnd(Source(), old(Cursor()))
    {
      hide Moved, TextOf, Held, IsIdent, IsBlank, SpacedAliasesEnd, SkipBlanks, IdentEnd;
      ghost var s, st := Source(), inputStack;
      ghost var goal := SpacedAliasesEnd(s, Cursor());
      MovedNowhere(st);
      var more := true;
      while more && Cursor() < Size()
        invariant Reading() && Source() == s && State() == old(State()) && inputStack == Moved(st, Cursor())
        invariant goal == if more then SpacedAliasesEnd(s, Cursor()) else Cursor()
        decreases |s| - Cursor(), more
      {
        ghost var k := Cursor();
        SpacedUnfold(s, k);
        more := PassAlias();
        MovedTwice(st, k, Cursor());
      }
      SpacedUnfold(s, Cursor());
    }

    lemma SpacedUnfold(s: string, c: nat)
      requires c <= |s|
      ensures SpacedAliasesEnd(s, c) ==
        if c == |s| then c
        else
          var e := SkipBlanks(s, IdentEnd(s, c));
          if e < |s| && s[e] == '&' then SpacedAliasesEnd(s, SkipBlanks(s, e + 1)) else e
    {}

    /** Over blanks and then the aliases of a multi-line definition. */
    method TakeSpacedNames() returns (names: string)
      requires Reading()
      modifies this`inputStack
      ensures var s := old(Source()); var n := SkipBlanks(s, old(Cursor())); var e := SpacedAliasesEnd(s, n);
        && Reading() && Source() == s && State() == old(State())
        && inputStack == Moved(old(inputStack), e) && Cursor() == e && names == s[n..e]
    {
      hide SpacedAliasesEnd, TextOf, Moved, Held, SkipBlanks;
      Ol();
      var startName := Cursor();
      ToSpacedAliasesEnd();
      MovedTwice(old(inputStack), startName, Cursor());
      names := TextOf(files.data, From(startName));
    }

    /** To a position, and then past the next line end, if there is one. */
    method ToLineAfter(k: nat)
      requires Reading() && k <= |Source()|
      modifies this`inputStack
      ensures Reading() && inputStack == Moved(old(inputStack), NextLine(old(Source()), k))
      ensures Source() == old(Source()) && State() == old(State()) && Cursor() == NextLine(Source(), k)
    {
      hide Moved, TextOf, Held, NextLine;
      MoveTo(k);
      MovedTwice(old(inputStack), k, NextLine(Source(), k));
      ToNextLine();
    }

    method HandleDefineM() returns (r: Ret)
      requires Reading()
      modifies this`inputStack, this`storedMacros
      ensures Did(DoDefineM(old(Source()), old(Cursor()), old(State())), r, old(inputStack), old(output))
    {
      hide Register, SpacedAliasesEnd, TextOf, Moved, Held, SkipBlanks, NextLine;
      ghost var st := inputStack;
      var names := TakeSpacedNames();
      var namesEnd := Cursor();
      var endDef := FindNextText("#enddef");
      if endDef == Size() { return Returned(-3); }
      var content := Between(namesEnd, endDef);
      MovedTwice(st, namesEnd, NextLine(Source(), endDef + 7));
      ToLineAfter(endDef + 7);
      RegisterAliases(names, content);
      r := Returned(0);
    }

    // ---------- the other directives ----------

    /** The files are only added to, so every text in use stays what it is. */
    method LoadView(path: string) returns (n: Snippet)
      requires Valid()
      modifies files
      ensures Valid() && State() == old(State()) && Stack() == old(Stack())
      ensures Held(files.data, n) && TextOf(files.data, n) == Load(Files(), path)
    {
      hide Layout, Normalised, TextOf, Held;
      LoadedText(files.entries, files.disk, path);
      ghost var before := files.data;
      var info := files.LoadFile(path);
      n := info.Content();
      Grown(before);
    }

    lemma Grown(before: string)
      requires before <= files.data
      requires forall f :: f in inputStack ==> FrameOk(before, f)
      requires forall m :: m in storedMacros ==> Held(before, storedMacros[m])
      ensures forall f :: f in inputStack ==> FrameOk(files.data, f)
      ensures forall m :: m in storedMacros ==> Held(files.data, storedMacros[m])
      ensures StackOf(files.data, inputStack) == StackOf(before, inputStack)
      ensures TableOf(files.data, storedMacros) == TableOf(before, storedMacros)
    {
      forall f | f in inputStack ensures FrameOk(files.data, f) && PlaceOf(files.data, f) == PlaceOf(before, f) {
        StillHeld(before, files.data, f.content);
      }
      forall m | m in storedMacros
        ensures Held(files.data, storedMacros[m]) && TextOf(files.data, storedMacros[m]) == TextOf(before, storedMacros[m])
      {
        StillHeld(before, files.data, storedMacros[m]);
      }
    }
  
    /** The texts being read are those there were, with the top one read further and an entered one above it. */
    ghost predicate Followed(f: Effect, frames: seq<Frame>)
      requires Valid() && frames != []
      reads this, files
    {
      f.Halt? || (f.next <= |frames[|frames| - 1].text| && Stack() == Resumed(frames, f))
    }

    /** Takes a path up to the character that closes it, and the rest of its line. */
    method TakeClosed(close: char) returns (ok: bool, path: string)
      requires Reading()
      modifies this`inputStack
      ensures var s := old(Source()); var c := old(Cursor()); var e := Find(s, c, close);
        && Reading() && Source() == s && State() == old(State()) && inputStack == Moved(old(inputStack), Cursor())
        && if e == |s| then !ok else ok && path == s[c..e] && Cursor() == NextLine(s, e + 1)
    {
      hide TextOf, Moved, Held, Find, NextLine;
      ghost var st := inputStack;
      ok, path := false, "";
      MovedNowhere(st);
      var start := Cursor();
      var closing := FindNext(close);
      if closing == Size() { return; }
      path := TextOf(files.data, Between(start, closing));
      ToLineAfter(closing + 1);
      ok := true;
    }

    /** Takes the quoted path of an include, and the rest of its line. */
    method TakePath() returns (ok: bool, path: string)
      requires Reading()
      modifies this`inputStack
      ensures var s := old(Source()); var b := SkipBlanks(s, old(Cursor()));
        && Reading() && Source() == s && State() == old(State()) && inputStack == Moved(old(inputStack), Cursor())
        && if b == |s| || (s[b] != '"' && s[b] != '<') then !ok
           else
             var e := Find(s, b + 1, if s[b] == '"' then '"' else '>');
             if e == |s| then !ok else ok && path == s[b + 1..e] && Cursor() == NextLine(s, e + 1)
    {
      hide TextOf, Moved, Held, SkipBlanks, Find, NextLine;
      ghost var st := inputStack;
      ok, path := false, "";
      Ol();
      if Cursor() >= Size() { return; }
      var openChar := CharAt(Cursor());
      if openChar != '"' && openChar != '<' { return; }
      MovedTwice(st, Cursor(), Cursor() + 1);
      MoveTo(Cursor() + 1);
      MovedBoth(st, Cursor());
      ok, path := TakeClosed(if openChar == '"' then '"' else '>');
    }

    method HandleInclude() returns (r: Ret)
      requires Reading()
      modifies this`inputStack, files
      ensures Did(DoInclude(Files(), old(Source()), old(Cursor()), old(State())), r, old(inputStack), old(output))
      ensures Followed(DoInclude(Files(), old(Source()), old(Cursor()), old(State())), old(Stack()))
    {
      hide Load, CString, CleanFiles, TextOf, Moved, Held, Layout, Normalised, FromDisk, SkipBlanks, Find, NextLine;
      ghost var st, data := inputStack, files.data;
      var ok, path := TakePath();
      if !ok { return Returned(-1); }
      ghost var next := Cursor();
      FramesMoved(data, st, next);
      var content := LoadView(CString(path));
      if content.size == 0 { return Returned(-2); }
      ghost var below := inputStack;
      inputStack := inputStack + [SourceFrame(content, 0)];
      FramesPushed(files.data, below, SourceFrame(content, 0));
      r := Returned(0);
    }

    method Output(text: string)
      requires Valid()
      modifies this`output
      ensures Valid() && State() == Emit(old(State()), text) && inputStack == old(inputStack)
    {
      output := output + text;
    }

    method ForgetMacro(name: string)
      requires Valid()
      modifies this`storedMacros
      ensures Valid() && inputStack == old(inputStack)
      ensures State() == old(State()).(macros := old(Table()) - {name})
    {
      storedMacros := storedMacros - {name};
      assert Table() == old(Table()) - {name};
    }

    /** The parenthesis that closes the type; `ok` is false when the line or the text ends first. */
    method FindTypeEnd() returns (ok: bool)
      requires Reading()
      modifies this`inputStack
      ensures Reading() && Source() == old(Source()) && State() == old(State())
      ensures inputStack == Moved(old(inputStack), Cursor())
      ensures TypeEnd(Source(), old(Cursor()), 1) == if ok then Some(Cursor()) else None
    {
      ghost var s, c := Source(), Cursor();
      MovedNowhere(inputStack);
      var parenDepth := 1;
      while Cursor() < Size() && parenDepth > 0
        invariant Reading() && Source() == s && State() == old(State()) && parenDepth >= 0
        invariant inputStack == Moved(old(inputStack), Cursor())
        invariant TypeEnd(s, Cursor(), parenDepth) == TypeEnd(s, c, 1)
        decreases |s| - Cursor()
      {
        var ch := CharAt(Cursor());
        if ch == '(' {
          parenDepth := (parenDepth + 1) % 0x1_0000;
        } else if ch == ')' {
          if parenDepth == 1 { return true; }
          parenDepth := parenDepth - 1;
        } else if ch == '\n' {
          return false;
        }
        MovedTwice(old(inputStack), Cursor(), Cursor() + 1);
        MoveTo(Cursor() + 1);
      }
      ok := parenDepth == 0;
    }

    method HandleParam() returns (r: Ret)
      requires Reading()
      modifies this`inputStack, this`storedMacros, this`output
      ensures Did(DoParam(old(Source()), old(Cursor()), old(State())), r, old(inputStack), old(output))
    {
      hide ParamRest, TypeEnd, Trim, TextOf, Moved, Held, SkipBlanks;
      ghost var st := inputStack;
      Ol();
      if Cursor() >= Size() || CharAt(Cursor()) != '(' { return Returned(-400); }
      MovedTwice(st, Cursor(), Cursor() + 1);
      MoveTo(Cursor() + 1);
      MovedBoth(st, Cursor());
      r := HandleParamType();
    }

    /** The type of `#param` up to its closing parenthesis, and what follows. */
    method HandleParamType() returns (r: Ret)
      requires Reading()
      modifies this`inputStack, this`storedMacros, this`output
      ensures Did(ParamTyped(old(Source()), old(Cursor()), old(State())), r, old(inputStack), old(output))
    {
      hide ParamRest, TypeEnd, Trim, TextOf, Moved, Held;
      ghost var st := inputStack;
      var startType := Cursor();
      var ok := FindTypeEnd();
      if !ok { return Returned(-400); }
      TypeEndLater(Source(), startType, 1);
      var typeStr := Trim(TextOf(files.data, Between(startType, Cursor())));
      if typeStr == "" { return Returned(-400); }
      if Cursor() == Size() { return Lost(Undefined); }
      MovedTwice(st, Cursor(), Cursor() + 1);
      MoveTo(Cursor() + 1);
      MovedBoth(st, Cursor());
      r := HandleParamRest(typeStr);
    }

    /** A name and the blanks around it. */
    method TakeParamName() returns (nameStr: string)
      requires Reading()
      modifies this`inputStack
      ensures var s := old(Source()); var n := SkipBlanks(s, old(Cursor())); var e := IdentEnd(s, n);
        && Reading() && Source() == s && State() == old(State())
        && inputStack == Moved(old(inputStack), Cursor()) && Cursor() == SkipBlanks(s, e) && nameStr == Trim(s[n..e])
    {
      hide Trim, TextOf, Moved, Held, SkipBlanks, IdentEnd;
      ghost var st := inputStack;
      Ol();
      var startName := Cursor();
      ToIdentEnd();
      MovedTwice(st, startName, Cursor());
      nameStr := Trim(TextOf(files.data, From(startName)));
      ghost var c := Cursor();
      Ol();
      MovedTwice(st, c, Cursor());
    }

    /** Name and default of `#param`, after its type. */
    method HandleParamRest(typeStr: string) returns (r: Ret)
      requires Reading()
      modifies this`inputStack, this`storedMacros, this`output
      ensures Did(ParamRest(old(Source()), old(Cursor()), typeStr, old(State())), r, old(inputStack), old(output))
    {
      hide Trim, TextOf, Moved, Held, ParamDefault, SkipBlanks, IdentEnd;
      ghost var st := inputStack;
      var nameStr := TakeParamName();
      if nameStr == "" || Cursor() >= Size() || CharAt(Cursor()) != '=' { return Returned(-400); }
      MovedTwice(st, Cursor(), Cursor() + 1);
      MoveTo(Cursor() + 1);
      MovedBoth(st, Cursor());
      r := HandleParamDefault(typeStr, nameStr);
    }

    /** The default of `#param`, up to the line end, and that line end. */
    method TakeDefault() returns (defaultStr: string)
      requires Reading()
      modifies this`inputStack
      ensures var s := old(Source()); var d := SkipBlanks(s, old(Cursor())); var l := Find(s, d, '\n');
        && Reading() && Source() == s && State() == old(State()) && defaultStr == Trim(s[d..l])
        && inputStack == Moved(old(inputStack), if l < |s| then l + 1 else l)
    {
      hide Trim, TextOf, Moved, Held, SkipBlanks, Find;
      ghost var st := inputStack;
      Ol();
      var startDef := Cursor();
      var lineEnd := FindNext('\n');
      defaultStr := Trim(TextOf(files.data, Between(startDef, lineEnd)));
      var next := if lineEnd < Size() then lineEnd + 1 else lineEnd;
      MovedTwice(st, startDef, next);
      MoveTo(next);
    }

    method HandleParamDefault(typeStr: string, nameStr: string) returns (r: Ret)
      requires Reading()
      modifies this`inputStack, this`storedMacros, this`output
      ensures Did(ParamDefault(old(Source()), old(Cursor()), typeStr, nameStr, old(State())), r, old(inputStack), old(output))
    {
      hide Trim, TextOf, Moved, Held, ParamText, SkipBlanks, Find;
      var finalVal := TakeDefault();
      if IsDefined(nameStr) { finalVal := ValueOf(nameStr); }
      ForgetMacro(nameStr);
      Output(ParamText(typeStr, nameStr, finalVal));
      r := Returned(0);
    }

    function ValueOf(name: string): (v: string)
      requires Valid() && IsDefined(name)
      reads this, files
      ensures v == if Table()[name] == "" then "1" else Trim(Table()[name])
    {
      if storedMacros[name].size > 0 then Trim(TextOf(files.data, storedMacros[name])) else "1"
    }

    lemma TypeEndLater(s: string, c: nat, depth: nat)
      requires c <= |s|
      ensures TypeEnd(s, c, depth).Some? ==> c <= TypeEnd(s, c, depth).value <= |s|
    {}

    method ProcessDirective(d: MacroType) returns (r: Ret)
      requires Reading()
      modifies this, files
      ensures Did(Directive(Files(), old(Source()), old(Cursor()), d, old(State())), r, old(inputStack), old(output))
      ensures Followed(Directive(Files(), old(Source()), old(Cursor()), d, old(State())), old(Stack()))
    {
      hide DoInclude, CleanFiles, Moved, StackOf, TextOf, Held;
      ghost var f := Directive(Files(), Source(), Cursor(), d, State());
      DirectiveOnward(Files(), Source(), Cursor(), d, State());
      IncludeOnly(Files(), Source(), Cursor(), d, State());
      TopOfStack();
      if f.Go? { FramesMoved(files.data, inputStack, f.next); }
      hide Directive;
      if d.Include? || d.Import? {
        r := HandleInclude();
      } else {
        r := ProcessLocal(d);
      }
    }

    /** The directives that read no other file. */
    method ProcessLocal(d: MacroType) returns (r: Ret)
      requires Reading() && !d.Include? && !d.Import?
      modifies this
      ensures Did(Directive(Files(), old(Source()), old(Cursor()), d, old(State())), r, old(inputStack), old(output))
    {
      hide DoDefine, DoDefineM, DoIf, DoIfndef, DoElse, DoElif, DoEndif, DoParam, CleanFiles, Moved, TextOf, Held;
      match d
      case UnknownDirective => r := Returned(-404);
      case Define => r := HandleDefine();
      case DefineM => r := HandleDefineM();
      case If => r := HandleIf();
      case Ifndef => r := HandleIfndef();
      case Else => r := HandleElse();
      case Elif => r := HandleElif();
      case Endif => r := HandleEndif();
      case Enddef => r := Returned(-1);
      case Skip => r := HandleSkip();
      case Param => r := HandleParam();
    }

    /** Only includes enter a text, and they do nothing else. */
    lemma IncludeOnly(disk: Disk, s: string, c: nat, d: MacroType, env: Env)
      requires c <= |s|
      ensures d.Include? || d.Import? ==> Directive(disk, s, c, d, env) == DoInclude(disk, s, c, env)
      ensures d.Include? || d.Import? ==> !DoInclude(disk, s, c, env).Go?
      ensures !d.Include? && !d.Import? ==> !Directive(disk, s, c, d, env).Enter?
    {
      hide Register, TypeEnd, SkipFrom, Eval, Judge;
    }

    // ---------- the main loop ----------

    /** Copies a comment. */
    method CopyComment()
      requires Reading() && StartsComment(Source(), Cursor())
      modifies this`inputStack, this`output
      ensures var s := old(Source()); var c := old(Cursor()); var e := CommentEnd(s, c);
        Valid() && State() == Emit(old(State()), s[c..e]) && inputStack == Moved(old(inputStack), e)
    {
      hide TextOf, Held;
      var start := Cursor();
      PassComment();
      Output(TextOf(files.data, From(start)));
    }

    /** Copies a literal character by character, with whatever a backslash protects. */
    method CopyLiteral()
      requires Reading() && Cursor() < |Source()| && IsQuote(Source()[Cursor()])
      modifies this`inputStack, this`output
      ensures var s := old(Source()); var c := old(Cursor()); var e := LiteralEnd(s, c + 1, s[c]);
        Valid() && State() == Emit(old(State()), s[c..e]) && inputStack == Moved(old(inputStack), e)
    {
      hide TextOf, Held, Moved, IsBlank, Emit;
      ghost var s, c, env, st := Source(), Cursor(), State(), inputStack;
      var quote := CharAt(Cursor());
      CopyOne();
      var closed := false;
      while Cursor() < Size() && !closed
        invariant Reading() && Source() == s && c < Cursor()
        invariant State() == Emit(env, s[c..Cursor()]) && inputStack == Moved(st, Cursor())
        invariant LiteralEnd(s, c + 1, quote) == if closed then Cursor() else LiteralEnd(s, Cursor(), quote)
        decreases |s| - Cursor()
      {
        ghost var k := Cursor();
        closed := CopyQuoted(quote);
        Copied(env, s, c, k, Cursor());
        MovedTwice(st, k, Cursor());
      }
    }

    /** One character of a literal, or two when it is a backslash; `closed` when it was the quote. */
    method CopyQuoted(quote: char) returns (closed: bool)
      requires Reading() && Cursor() < |Source()|
      modifies this`inputStack, this`output
      ensures var s := old(Source()); var c := old(Cursor());
        && Reading() && Source() == s && c < Cursor()
        && State() == Emit(old(State()), s[c..Cursor()]) && inputStack == Moved(old(inputStack), Cursor())
        && LiteralEnd(s, c, quote) == if closed then Cursor() else LiteralEnd(s, Cursor(), quote)
    {
      hide TextOf, Held, Moved;
      ghost var s, c, env, st := Source(), Cursor(), State(), inputStack;
      var sc := CharAt(Cursor());
      CopyOne();
      closed := false;
      if sc == '\\' && Cursor() < Size() {
        MovedTwice(st, c + 1, c + 2);
        CopyOne();
        Copied(env, s, c, c + 1, c + 2);
      } else if sc == quote {
        closed := true;
      }
    }

    method CopyOne()
      requires Reading() && Cursor() < |Source()|
      modifies this`inputStack, this`output
      ensures Reading() && Source() == old(Source()) && Cursor() == old(Cursor()) + 1
      ensures inputStack == Moved(old(inputStack), Cursor())
      ensures State() == Emit(old(State()), Source()[old(Cursor())..Cursor()])
    {
      ghost var s, c := Source(), Cursor();
      assert s[c..c + 1] == [s[c]];
      Output([CharAt(Cursor())]);
      MoveTo(Cursor() + 1);
    }

    /** A word, or its macro's text. */
    method ExpandWord()
      requires Reading() && Cursor() < |Source()|
      modifies this`inputStack, this`output
      ensures var s := old(Source()); var c := old(Cursor()); var e := IdentEnd(s, c);
        Valid() && State() == Emit(old(State()), Replaced(old(Table()), s[c..e])) && inputStack == Moved(old(inputStack), e)
    {
      hide TextOf, Held;
      var startIdent := Cursor();
      ToIdentEnd();
      var ident := TextOf(files.data, From(startIdent));
      if IsDefined(ident) {
        Output(TextOf(files.data, storedMacros[ident]));
      } else {
        Output(ident);
      }
    }

    /** Comments, literals, words and single characters. */
    method PassText() returns (r: Ret)
      requires Reading() && Cursor() < |Source()| && Source()[Cursor()] != '#'
      modifies this`inputStack, this`output
      ensures Did(Step(Files(), old(Source()), old(Cursor()), old(State())), r, old(inputStack), old(output))
    {
      hide CleanFiles, Moved, TextOf, Held;
      r := Returned(0);
      var c := CharAt(Cursor());
      if c == '/' && Cursor() + 1 < Size() && (CharAt(Cursor() + 1) == '/' || CharAt(Cursor() + 1) == '*') {
        CopyComment();
      } else if c == '"' || c == '\'' {
        CopyLiteral();
      } else if IsIdent(c) {
        ExpandWord();
      } else {
        CopyOne();
      }
    }

    /** One round of the main loop on a text that is not exhausted. */
    method OneRound() returns (r: Ret)
      requires Reading() && Cursor() < |Source()|
      modifies this, files
      ensures Did(Step(Files(), old(Source()), old(Cursor()), old(State())), r, old(inputStack), old(output))
      ensures Followed(Step(Files(), old(Source()), old(Cursor()), old(State())), old(Stack()))
    {
      hide Directive, Match, CleanFiles, Moved, TextOf, Held, StackOf, IdentEnd, Step;
      ghost var s, c, f := Source(), Cursor(), Step(Files(), Source(), Cursor(), State());
      StepKinds(Files(), s, c, State());
      StepOnward(Files(), s, c, State());
      TopOfStack();
      if f.Go? { FramesMoved(files.data, inputStack, f.next); }
      if CharAt(Cursor()) != '#' {
        r := PassText();
      } else {
        r := DirectiveRound();
      }
    }

    /** One round at a `#`. */
    method DirectiveRound() returns (r: Ret)
      requires Reading() && Cursor() < |Source()|
      modifies this, files
      ensures var s := old(Source()); var e := IdentEnd(s, old(Cursor()) + 1);
        var f := Directive(Files(), s, e, Match(s[old(Cursor())..e]), old(State()));
        Did(f, r, old(inputStack), old(output)) && Followed(f, old(Stack()))
    {
      hide Directive, Match, CleanFiles, Moved, TextOf, Held, StackOf, IdentEnd;
      ghost var st, frames := inputStack, Stack();
      ghost var s, e := Source(), IdentEnd(Source(), Cursor() + 1);
      TopOfStack();
      FramesMoved(files.data, st, e);
      currActive := TakeName();
      MovedBoth(st, Cursor());
      TopOfStack();
      ResumedLater(frames, Stack(), Directive(Files(), s, e, currActive, State()));
      r := ProcessDirective(currActive);
    }

    lemma StepKinds(disk: Disk, s: string, c: nat, env: Env)
      requires c < |s|
      ensures if s[c] == '#' then Step(disk, s, c, env) == Directive(disk, s, IdentEnd(s, c + 1), Match(s[c..IdentEnd(s, c + 1)]), env)
              else Step(disk, s, c, env).Go?
    {
      hide Directive, Match;
    }

    /** Until the stack is empty or a directive fails. */
    method Process(maxIncludes: nat) returns (status: Status)
      requires Valid()
      modifies this, files
      ensures Ends(Run(Files(), old(Stack()), old(State()), maxIncludes), status)
    {
      hide Step, Run, CleanFiles, Moved, TextOf, Held;
      ghost var goal := Run(Files(), Stack(), State(), maxIncludes);
      var budget := maxIncludes;
      while inputStack != []
        invariant Valid() && Run(Files(), Stack(), State(), budget) == goal
        decreases budget, Unread(Stack())
      {
        var depth := |inputStack|;
        ghost var frames, env := Stack(), State();
        TopOfStack();
        RunRound(Files(), frames, env, budget);
        RoundDescends(Files(), frames, env, budget);
        if Cursor() >= Size() {
          PopFrame();
          continue;
        }
        var r := OneRound();
        if r.Lost? { return Failed(r.why); }
        if r.code < 0 { return Failed(Code(r.code)); }
        if |inputStack| > depth {
          if budget == 0 { return TooManyIncludes; }
          budget := budget - 1;
        }
      }
      assert Stack() == [];
      RunNothing(Files(), State(), budget);
      status := Finished;
    }

    ghost predicate Ends(r: Ended, status: Status)
      reads this, files
    {
      match r
      case Done(env, _) => status == Finished && Valid() && State() == env && inputStack == []
      case Stopped(why, out) => status == Failed(why) && output == out
      case Exhausted(out) => status == TooManyIncludes && output == out
    }

    lemma TopOfStack()
      requires Reading()
      ensures var f := Stack(); |f| == |inputStack| && f[|f| - 1] == Frame(Source(), Cursor())
    {}

    method PopFrame()
      requires Reading()
      modifies this`inputStack
      ensures Valid() && State() == old(State()) && Stack() == old(Stack())[..|old(Stack())| - 1]
    {
      inputStack := inputStack[..|inputStack| - 1];
      assert Stack() == old(Stack())[..|old(Stack())| - 1];
    }
  }

  /** It does not matter where the cursor stood. */
  lemma ResumedLater(a: seq<Frame>, b: seq<Frame>, f: Effect)
    requires a != [] && |b| == |a| && b[..|a| - 1] == a[..|a| - 1] && b[|a| - 1].text == a[|a| - 1].text
    ensures !f.Halt? && f.next <= |a[|a| - 1].text| ==> Resumed(b, f) == Resumed(a, f)
  {}

  lemma RunRound(disk: Disk, stack: seq<Frame>, env: Env, budget: nat)
    requires stack != []
    ensures Run(disk, stack, env, budget) ==
      match Round(disk, stack, env, budget)
      case Over(r) => r
      case Next(st, e, b) => Run(disk, st, e, b)
  {
    hide Round;
  }

  lemma RunNothing(disk: Disk, env: Env, budget: nat)
    ensures Run(disk, [], env, budget) == Done(env, budget)
  {}

  lemma Copied(env: Env, s: string, c: nat, k: nat, e: nat)
    requires c <= k <= e <= |s|
    ensures Emit(Emit(env, s[c..k]), s[k..e]) == Emit(env, s[c..e])
  {
    assert s[c..e] == s[c..k] + s[k..e];
    assert env.out + s[c..k] + s[k..e] == env.out + s[c..e];
  }

  /** Preprocesses one file: what comes out is the recursive expansion of its text. */
  method PreprocessFile(disk: map<string, string>, path: string, maxIncludes: nat) returns (status: Status, text: string)
    ensures match Expand(CleanFiles(disk), Load(CleanFiles(disk), path), 0, Env(map[], [], ""), maxIncludes)
      case Done(env, _) => status == Finished && text == env.out
      case Stopped(why, out) => status == Failed(why) && text == out
      case Exhausted(out) => status == TooManyIncludes && text == out
  {
    hide Expand, CleanFiles, Load;
    var p := new Preprocessor(disk, path);
    RunIsExpand(p.Files(), Load(p.Files(), path), Env(map[], [], ""), maxIncludes);
    status := p.Process(maxIncludes);
    text := p.output;
  }
}
