/** The file arena: every loaded file is kept in one growing buffer, after its name. */
module FileArena {

  datatype Snippet = Snippet(offset: nat, size: nat)

  /** Sizes exclude the NUL that ends the name. */
  datatype FileInfo = FileInfo(offsetBegin: nat, nameSize: nat, fileSize: nat) {
    function Content(): Snippet { Snippet(offsetBegin + nameSize + 1, fileSize) }
    function Name(): Snippet { Snippet(offsetBegin, nameSize) }
  }

  const NotFound := FileInfo(0, 0, 0)

  /** A name no file is ever found under. */
  const Sentinel: string := "\U{FF}\U{FF}\U{FF}\U{FF}\U{FF}\U{FF}\U{FF}"

  // ---------- line ends ----------

  /** Every line end, whether CR LF or a lone CR, becomes LF. */
  function Normalised(raw: string): string {
    if raw == [] then []
    else if raw[0] != '\r' then [raw[0]] + Normalised(raw[1..])
    else if |raw| > 1 && raw[1] == '\n' then ['\n'] + Normalised(raw[2..])
    else ['\n'] + Normalised(raw[1..])
  }

  /** Line ends of any of the three forms. */
  function LineEnds(raw: string): nat {
    if raw == [] then 0
    else if raw[0] == '\r' && |raw| > 1 && raw[1] == '\n' then 1 + LineEnds(raw[2..])
    else if raw[0] == '\r' || raw[0] == '\n' then 1 + LineEnds(raw[1..])
    else LineEnds(raw[1..])
  }

  function Count(s: string, c: char): nat {
    if s == [] then 0 else (if s[0] == c then 1 else 0) + Count(s[1..], c)
  }

  lemma {:induction false} NormalisedClean(raw: string)
    ensures var n := Normalised(raw);
      '\r' !in n && |n| <= |raw| && Count(n, '\n') == LineEnds(raw) == LineEnds(n)
    decreases |raw|
  {
    if raw != [] {
      var rest := if raw[0] == '\r' && |raw| > 1 && raw[1] == '\n' then raw[2..] else raw[1..];
      NormalisedClean(rest);
      var n := Normalised(raw);
      assert n[1..] == Normalised(rest);
    }
  }

  /** Text without CR is left alone, so a second pass changes nothing. */
  lemma {:induction false} NormalisedFixed(s: string)
    requires '\r' !in s
    ensures Normalised(s) == s
    decreases |s|
  {
    if s != [] {
      NormalisedFixed(s[1..]);
      assert s == [s[0]] + s[1..];
    }
  }

  lemma {:induction false} Idempotent(raw: string)
    ensures Normalised(Normalised(raw)) == Normalised(raw)
  {
    NormalisedClean(raw);
    NormalisedFixed(Normalised(raw));
  }

  /** How a line can end. */
  datatype Ending = Feed | Return | Both

  function Sign(e: Ending): string {
    match e case Feed => "\n" case Return => "\r" case Both => "\r\n"
  }

  datatype Line = Line(text: string, ending: Ending)

  /** The lines with their ends, and what follows the last end. */
  function Written(lines: seq<Line>, last: string): string {
    if lines == [] then last else lines[0].text + Sign(lines[0].ending) + Written(lines[1..], last)
  }

  predicate Plain(s: string) { '\r' !in s && '\n' !in s }

  /** Ends are only at ends, and no CR of one line is followed at once by the LF of the next. */
  predicate Tidy(lines: seq<Line>, last: string) {
    Plain(last) && forall k :: 0 <= k < |lines| ==> Plain(lines[k].text) && !Merges(lines, k)
  }

  predicate Merges(lines: seq<Line>, k: nat)
    requires k < |lines|
  {
    k + 1 < |lines| && lines[k].ending.Return? && lines[k + 1] == Line("", Feed)
  }

  function Unified(lines: seq<Line>): seq<Line> {
    if lines == [] then [] else [Line(lines[0].text, Feed)] + Unified(lines[1..])
  }

  lemma {:induction false} NormalisedText(text: string, rest: string)
    requires '\r' !in text
    ensures Normalised(text + rest) == text + Normalised(rest)
    decreases |text|
  {
    if text == "" {
      assert text + rest == rest;
    } else {
      NormalisedText(text[1..], rest);
      assert (text + rest)[1..] == text[1..] + rest;
      assert [text[0]] + (text[1..] + Normalised(rest)) == text + Normalised(rest);
    }
  }

  lemma NormalisedSign(e: Ending, rest: string)
    requires e.Return? ==> rest == "" || rest[0] != '\n'
    ensures Normalised(Sign(e) + rest) == "\n" + Normalised(rest)
  {
    var raw := Sign(e) + rest;
    if e.Both? { assert raw[2..] == rest; } else { assert raw[1..] == rest; }
  }

  /** The same lines come out, each ended by a LF. */
  lemma {:induction false} NormalisedLines(lines: seq<Line>, last: string)
    requires Tidy(lines, last)
    ensures Normalised(Written(lines, last)) == Written(Unified(lines), last)
    decreases |lines|
  {
    hide Normalised;
    if lines == [] {
      NormalisedFixed(last);
    } else {
      var l, rest := lines[0], Written(lines[1..], last);
      forall k | 0 <= k < |lines| - 1 ensures Plain(lines[1..][k].text) && !Merges(lines[1..], k) {
        assert Plain(lines[k + 1].text) && !Merges(lines, k + 1);
      }
      NormalisedLines(lines[1..], last);
      assert Plain(l.text) && !Merges(lines, 0);
      if l.ending.Return? && rest != "" { FirstOf(lines[1..], last); }
      NormalisedSign(l.ending, rest);
      NormalisedText(l.text, Sign(l.ending) + rest);
      assert l.text + Sign(l.ending) + rest == l.text + (Sign(l.ending) + rest);
      var u := Unified(lines);
      assert u[0] == Line(l.text, Feed) && u[1..] == Unified(lines[1..]);
      assert l.text + ("\n" + Written(u[1..], last)) == l.text + "\n" + Written(u[1..], last);
    }
  }

  /** A text starts with a LF only where its first line is empty and ends in one. */
  lemma FirstOf(lines: seq<Line>, last: string)
    requires Tidy(lines, last) && Written(lines, last) != ""
    ensures Written(lines, last)[0] == '\n' ==> lines != [] && lines[0] == Line("", Feed)
  {
    if lines != [] { assert Plain(lines[0].text); }
  }

  /** Every text is lines of this kind. */
  lemma {:induction false} LinesOf(raw: string) returns (lines: seq<Line>, last: string)
    ensures Tidy(lines, last) && Written(lines, last) == raw
    decreases |raw|
  {
    if raw == "" {
      lines, last := [], "";
    } else if raw[0] == '\r' && |raw| > 1 && raw[1] == '\n' {
      lines, last := LinesOf(raw[2..]);
      lines := LineBefore(Line("", Both), lines, last);
    } else if raw[0] == '\r' || raw[0] == '\n' {
      lines, last := LinesOf(raw[1..]);
      lines := LineBefore(Line("", if raw[0] == '\r' then Return else Feed), lines, last);
    } else {
      lines, last := LinesOf(raw[1..]);
      lines, last := CharBefore(raw[0], lines, last);
    }
  }

  lemma LineBefore(l: Line, rest: seq<Line>, last: string) returns (lines: seq<Line>)
    requires Tidy(rest, last) && Plain(l.text)
    requires l.ending.Return? ==> rest == [] || rest[0] != Line("", Feed)
    ensures Tidy(lines, last) && Written(lines, last) == l.text + Sign(l.ending) + Written(rest, last)
  {
    lines := [l] + rest;
    assert lines[1..] == rest;
    forall k | 0 <= k < |lines| ensures Plain(lines[k].text) && !Merges(lines, k) {
      if k > 0 { assert Plain(rest[k - 1].text) && !Merges(rest, k - 1); }
    }
  }

  lemma CharBefore(c: char, rest: seq<Line>, end: string) returns (lines: seq<Line>, last: string)
    requires Tidy(rest, end) && c != '\r' && c != '\n'
    ensures Tidy(lines, last) && Written(lines, last) == [c] + Written(rest, end)
  {
    if rest == [] {
      lines, last := [], [c] + end;
    } else {
      last := end;
      var l := Line([c] + rest[0].text, rest[0].ending);
      assert Plain(rest[0].text) && !Merges(rest, 0);
      forall k | 0 <= k < |rest| - 1 ensures Plain(rest[1..][k].text) && !Merges(rest[1..], k) {
        assert Plain(rest[k + 1].text) && !Merges(rest, k + 1);
      }
      if l.ending.Return? && |rest| > 1 { assert rest[1] != Line("", Feed); }
      lines := LineBefore(l, rest[1..], last);
      assert [c] + (rest[0].text + Sign(l.ending) + Written(rest[1..], end)) == l.text + Sign(l.ending) + Written(rest[1..], end);
    }
  }

  // ---------- layout ----------

  datatype Entry = Entry(name: string, content: string)

  function Packed(e: Entry): string { e.name + "\0" + e.content }

  /** The buffer that holds `es` in order. */
  function Layout(es: seq<Entry>): string {
    if es == [] then "" else Layout(es[..|es| - 1]) + Packed(es[|es| - 1])
  }

  function InfoAt(es: seq<Entry>, k: nat): FileInfo
    requires k < |es|
  {
    FileInfo(|Layout(es[..k])|, |es[k].name|, |es[k].content|)
  }

  function Infos(es: seq<Entry>): seq<FileInfo> {
    seq(|es|, k requires 0 <= k < |es| => InfoAt(es, k))
  }

  lemma LayoutSnoc(es: seq<Entry>, e: Entry)
    ensures Layout(es + [e]) == Layout(es) + Packed(e)
    ensures Infos(es + [e]) == Infos(es) + [FileInfo(|Layout(es)|, |e.name|, |e.content|)]
  {
    assert (es + [e])[..|es|] == es;
    forall k | 0 <= k < |es| ensures InfoAt(es + [e], k) == InfoAt(es, k) {
      assert (es + [e])[..k] == es[..k];
    }
  }

  lemma {:induction false} LayoutPrefix(es: seq<Entry>, k: nat)
    requires k <= |es|
    ensures Layout(es[..k]) <= Layout(es)
    decreases |es|
  {
    if k < |es| {
      var init := es[..|es| - 1];
      LayoutPrefix(init, k);
      assert init[..k] == es[..k];
    } else {
      assert es[..k] == es;
    }
  }

  function Slice(data: string, s: Snippet): string
    requires s.offset + s.size <= |data|
  {
    data[s.offset..s.offset + s.size]
  }

  /** Where the parts of an entry are, in any buffer that starts with what comes before it. */
  lemma PackedSlices(pre: string, e: Entry, d: string)
    requires pre + Packed(e) <= d
    ensures |pre| + |e.name| + 1 + |e.content| <= |d|
    ensures d[|pre|..|pre| + |e.name|] == e.name
    ensures d[|pre| + |e.name| + 1..|pre| + |e.name| + 1 + |e.content|] == e.content
  {
    var whole := pre + Packed(e);
    assert whole == d[..|whole|];
    assert whole[|pre|..] == Packed(e);
  }

  lemma EntrySlices(es: seq<Entry>, k: nat)
    requires k < |es|
    ensures var i := InfoAt(es, k); var d := Layout(es);
      && i.offsetBegin + i.nameSize + 1 + i.fileSize <= |d|
      && Slice(d, i.Name()) == es[k].name && Slice(d, i.Content()) == es[k].content
  {
    hide Layout, Packed;
    LayoutPrefix(es, k + 1);
    assert es[..k + 1] == es[..k] + [es[k]];
    LayoutSnoc(es[..k], es[k]);
    PackedSlices(Layout(es[..k]), es[k], Layout(es));
  }

  /** Only the reserved name, and no name when a nameless empty file came first, are ever held twice. */
  ghost predicate Distinct(es: seq<Entry>) {
    forall j, k :: 0 <= j < k < |es| && es[j].name == es[k].name ==>
      es[j].name == Sentinel || (es[j].name == "" && es[0] == Entry("", ""))
  }

  /** Position of the first entry of that name from `from` on. */
  function IndexOf(es: seq<Entry>, name: string, from: nat): (k: nat)
    requires from <= |es|
    ensures from <= k <= |es| && (k < |es| ==> es[k].name == name)
    ensures forall j :: from <= j < k ==> es[j].name != name
    decreases |es| - from
  {
    if from == |es| || es[from].name == name then from else IndexOf(es, name, from + 1)
  }

  function Lookup(es: seq<Entry>, name: string): FileInfo {
    var k := IndexOf(es, name, 0);
    if name == Sentinel || k == |es| then NotFound else InfoAt(es, k)
  }

  /** The entries after a file called `name` with this content was asked for. */
  function WithFile(es: seq<Entry>, name: string, content: string): seq<Entry> {
    if Lookup(es, name) == NotFound then es + [Entry(name, content)] else es
  }

  lemma WithFileDistinct(es: seq<Entry>, name: string, content: string)
    requires Distinct(es)
    ensures Distinct(WithFile(es, name, content))
  {
    var k := IndexOf(es, name, 0);
    if Lookup(es, name) == NotFound && name != Sentinel && k < |es| {
      assert |Layout(es[..k])| == 0 && es[k] == Entry("", "");
    }
  }

  /**
   A file kept under a name is found under it with its content; only the reserved name is not, nor
   is no name at all once a nameless empty file came first.
   */
  lemma KeptIsFound(es: seq<Entry>, name: string, content: string)
    requires Lookup(es, name) == NotFound
    ensures var now := WithFile(es, name, content); var i := Lookup(now, name);
      && now == es + [Entry(name, content)]
      && (i == NotFound <==> name == Sentinel || (name == "" && now[0] == Entry("", "")))
      && (i != NotFound ==>
        && i.offsetBegin + i.nameSize + 1 + i.fileSize <= |Layout(now)|
        && Slice(Layout(now), i.Name()) == name && Slice(Layout(now), i.Content()) == content)
  {
    var now := WithFile(es, name, content);
    var k := IndexOf(es, name, 0);
    if name != Sentinel && k == |es| {
      assert now[..|es|] == es && now[|es|].name == name;
      forall j | 0 <= j < |es| ensures now[j].name != name { assert es[j].name != name; }
      EntrySlices(now, |es|);
    } else if name != Sentinel {
      assert |Layout(es[..k])| == 0 && es[k] == Entry("", "");
      assert now[0].name == name && now[..0] == es[..0];
    }
  }

  /** A buffer cut after its cleaned tail. */
  lemma Cut(full: string, before: string, e: Entry, base: nat)
    requires base == |before| + |e.name| + 1 && base + |e.content| <= |full|
    requires full[..base] == before + e.name + "\0" && full[base..base + |e.content|] == e.content
    ensures full[..base + |e.content|] == before + Packed(e)
  {
    assert full[..base + |e.content|] == full[..base] + full[base..base + |e.content|];
  }

  lemma Tail(before: string, name: string, raw: string)
    ensures var d := before + name + "\0" + raw; var base := |before| + |name| + 1;
      |d| == base + |raw| && d[..base] == before + name + "\0" && d[base..] == raw
  {}

  /** What a round of the pass leaves: the text before `base`, the text unread, and what all of it becomes. */
  lemma Onward(raw: string, d: string, e: string, base: nat, w: nat, r: nat, later: nat)
    requires w <= r < later && base + later <= |raw| == |d| == |e|
    requires d[..base] == raw[..base] && d[base + r..] == raw[base + r..]
    requires d[base..base + w] + Normalised(raw[base + r..]) == Normalised(raw[base..])
    requires e[base + later..] == d[base + later..] && e[..base + w] == d[..base + w]
    requires [e[base + w]] + Normalised(d[base + later..]) == Normalised(d[base + r..])
    ensures e[..base] == raw[..base] && e[base + later..] == raw[base + later..]
    ensures e[base..base + w + 1] + Normalised(raw[base + later..]) == Normalised(raw[base..])
  {
    hide Normalised;
    assert d[base + later..] == raw[base + later..] by {
      assert d[base + r..][later - r..] == raw[base + r..][later - r..];
    }
    assert e[..base] == d[..base] by {
      assert e[..base + w][..base] == d[..base + w][..base];
    }
    assert e[base..base + w] == d[base..base + w] by {
      assert e[..base + w][base..] == d[..base + w][base..];
    }
    assert e[base..base + w + 1] == d[base..base + w] + [e[base + w]];
  }

  class FileManager {
    /** The files that can be opened, by path. */
    const disk: map<string, string>
    var data: string
    var loaded: seq<FileInfo>
    ghost var entries: seq<Entry>

    ghost predicate Valid()
      reads this
    {
      data == Layout(entries) && loaded == Infos(entries) && Distinct(entries)
    }

    constructor (files: map<string, string>)
      ensures Valid() && disk == files && entries == []
    {
      disk, data, loaded, entries := files, "", [], [];
    }

    method FindFile(name: string) returns (info: FileInfo)
      requires Valid()
      ensures info == Lookup(entries, name)
    {
      if name == Sentinel { return NotFound; }
      var i := 0;
      while i < |loaded|
        invariant i <= |loaded| && IndexOf(entries, name, i) == IndexOf(entries, name, 0)
      {
        EntrySlices(entries, i);
        if Slice(data, loaded[i].Name()) == name { return loaded[i]; }
        i := i + 1;
      }
      return NotFound;
    }

    /** Opens and keeps a file, unless it is already there or cannot be opened. */
    method LoadFile(path: string) returns (info: FileInfo)
      requires Valid()
      modifies this
      ensures Valid()
      ensures entries == if path in disk then WithFile(old(entries), path, Normalised(disk[path])) else old(entries)
      ensures info ==
        if Lookup(old(entries), path) != NotFound then Lookup(old(entries), path)
        else if path in disk then InfoAt(entries, |old(entries)|)
        else NotFound
      ensures old(data) <= data
    {
      hide Layout, Infos, Distinct, Packed, Normalised;
      var existing := FindFile(path);
      if existing != NotFound { return existing; }
      if path !in disk { return NotFound; }
      var raw := disk[path];
      var start, base := |data|, |data| + |path| + 1;
      Tail(data, path, raw);
      data := data + path + "\0" + raw;
      var size := SanitizeTail(base);
      ghost var e := Entry(path, Normalised(raw));
      Cut(data, old(data), e, base);
      data := data[..base + size];
      info := FileInfo(start, |path|, size);
      loaded := loaded + [info];
      LayoutSnoc(entries, e);
      WithFileDistinct(entries, path, Normalised(raw));
      entries := entries + [e];
    }

    /**
     One round of the in-place pass: a character, or the two of a CR LF, is read at `r` and one is
     written at `w`, not later. Nothing that is still to be read changes.
     */
    method SanitizeOne(base: nat, w: nat, r: nat) returns (later: nat)
      requires w <= r && base + r < |data|
      modifies this`data
      ensures r < later <= r + 2 && base + later <= |data| == |old(data)|
      ensures data[base + later..] == old(data)[base + later..]
      ensures data[..base + w] == old(data)[..base + w]
      ensures [data[base + w]] + Normalised(old(data)[base + later..]) == Normalised(old(data)[base + r..])
    {
      ghost var rest := data[base + r..];
      var c := data[base + r];
      later := if c == '\r' && base + r + 1 < |data| && data[base + r + 1] == '\n' then r + 2 else r + 1;
      data := data[base + w := if c == '\r' then '\n' else c];
      assert rest[later - r..] == old(data)[base + later..];
    }

    /**
     The in-place pass over everything from `base` on: the write index never overtakes the
     read index, so what is still to be read is intact. Returns how much text is left.
     */
    method SanitizeTail(base: nat) returns (w: nat)
      requires base <= |data|
      modifies this`data
      ensures base + w <= |data| == |old(data)|
      ensures data[..base] == old(data)[..base]
      ensures data[base..base + w] == Normalised(old(data)[base..])
    {
      hide Normalised;
      ghost var raw := data;
      var r, n := 0, |data| - base;
      w := 0;
      while r < n
        invariant w <= r <= n && |data| == |raw|
        invariant data[..base] == raw[..base] && data[base + r..] == raw[base + r..]
        invariant data[base..base + w] + Normalised(raw[base + r..]) == Normalised(raw[base..])
      {
        ghost var before := data;
        var later := SanitizeOne(base, w, r);
        Onward(raw, before, data, base, w, r, later);
        w, r := w + 1, later;
      }
      NormalisedFixed([]);
    }

    /** Keeps a text under a name, as it is. */
    method LoadFromView(view: string, filename: string) returns (info: FileInfo)
      requires Valid()
      modifies this
      ensures Valid() && entries == WithFile(old(entries), filename, view)
      ensures info == if Lookup(old(entries), filename) != NotFound then Lookup(old(entries), filename)
                      else InfoAt(entries, |old(entries)|)
      ensures old(data) <= data
    {
      hide Layout, Infos, Distinct;
      var existing := FindFile(filename);
      if existing != NotFound { return existing; }
      info := FileInfo(|data|, |filename|, |view|);
      data := data + filename + "\0" + view;
      loaded := loaded + [info];
      ghost var e := Entry(filename, view);
      assert data == old(data) + Packed(e);
      LayoutSnoc(entries, e);
      WithFileDistinct(entries, filename, view);
      entries := entries + [e];
    }

    /** Forgets the file loaded last. */
    method Pop()
      requires Valid()
      modifies this
      ensures Valid() && entries == if old(entries) == [] then [] else old(entries)[..|old(entries)| - 1]
    {
      if |loaded| == 0 { return; }
      hide Layout, Infos, Distinct;
      var last := loaded[|loaded| - 1];
      ghost var init := entries[..|entries| - 1];
      assert entries == init + [entries[|entries| - 1]];
      LayoutSnoc(init, entries[|entries| - 1]);
      loaded := loaded[..|loaded| - 1];
      data := data[..last.offsetBegin];
      entries := init;
    }
  }
}
