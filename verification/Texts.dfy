/** Searching and trimming, on texts and positions in them. A search that fails gives the length. */
module Texts {

  function Find(s: string, c: nat, ch: char): (k: nat)
    requires c <= |s|
    ensures c <= k <= |s| && (forall j :: c <= j < k ==> s[j] != ch) && (k < |s| ==> s[k] == ch)
    decreases |s| - c
  {
    if c == |s| || s[c] == ch then c else Find(s, c + 1, ch)
  }

  /** `pat` occurs in `s` at `k`. */
  predicate Occurs(s: string, k: nat, pat: string) {
    k + |pat| <= |s| && s[k..k + |pat|] == pat
  }

  lemma OccursParts(s: string, c: nat, x: string, y: string)
    requires Occurs(s, c, x + y)
    ensures Occurs(s, c, x) && Occurs(s, c + |x|, y)
  {
    assert s[c..c + |x + y|][..|x|] == s[c..c + |x|];
    assert s[c..c + |x + y|][|x|..] == s[c + |x|..c + |x + y|];
  }

  lemma OccursAt(s: string, c: nat, t: string, k: nat)
    requires Occurs(s, c, t) && k < |t|
    ensures s[c + k] == t[k]
  {
    assert s[c..c + |t|][k] == s[c + k];
  }

  function FindText(s: string, c: nat, pat: string): (k: nat)
    requires c <= |s| && pat != ""
    ensures c <= k <= |s| && (forall j :: c <= j < k ==> !Occurs(s, j, pat)) && (k < |s| ==> Occurs(s, k, pat))
    decreases |s| - c
  {
    if c == |s| || Occurs(s, c, pat) then c else FindText(s, c + 1, pat)
  }

  predicate Contains(s: string, pat: string)
    requires pat != ""
  {
    FindText(s, 0, pat) < |s|
  }

  predicate IsIdent(c: char) { 'a' <= c <= 'z' || 'A' <= c <= 'Z' || '0' <= c <= '9' || c == '_' }

  function IdentEnd(s: string, c: nat): (k: nat)
    requires c <= |s|
    ensures c <= k <= |s| && (forall j :: c <= j < k ==> IsIdent(s[j])) && (k < |s| ==> !IsIdent(s[k]))
    decreases |s| - c
  {
    if c == |s| || !IsIdent(s[c]) then c else IdentEnd(s, c + 1)
  }

  predicate IsBlank(c: char) { c == ' ' || c == '\t' || c == '\r' }

  function SkipBlanks(s: string, c: nat): (k: nat)
    requires c <= |s|
    ensures c <= k <= |s| && (forall j :: c <= j < k ==> IsBlank(s[j])) && (k < |s| ==> !IsBlank(s[k]))
    decreases |s| - c
  {
    if c == |s| || !IsBlank(s[c]) then c else SkipBlanks(s, c + 1)
  }

  /** Back over blanks, as far as the start of the text and no further than `low`. */
  function BackBlanks(s: string, c: nat, low: nat): (k: nat)
    requires low <= c <= |s|
    ensures low <= k <= c && (forall j :: k <= j < c ==> IsBlank(s[j])) && (low < k ==> !IsBlank(s[k - 1]))
    decreases c
  {
    if c == low || !IsBlank(s[c - 1]) then c else BackBlanks(s, c - 1, low)
  }

  /** The position after the next line end, or the end of the text. */
  function PastLine(s: string, c: nat): (k: nat)
    requires c <= |s|
    ensures c <= k <= |s|
  {
    var e := Find(s, c, '\n');
    if e < |s| then e + 1 else |s|
  }

  /** The position after the next line end if there is one, and `c` itself otherwise. */
  function NextLine(s: string, c: nat): (k: nat)
    requires c <= |s|
    ensures c <= k <= |s|
  {
    var e := Find(s, c, '\n');
    if e < |s| then e + 1 else c
  }

  /** The position after the next `pat`, or the end of the text. */
  function PastText(s: string, c: nat, pat: string): (k: nat)
    requires c <= |s| && pat != ""
    ensures c <= k <= |s|
  {
    var e := FindText(s, c, pat);
    if e < |s| then e + |pat| else |s|
  }

  predicate IsSpace(c: char) { c == ' ' || c == '\t' || c == '\r' || c == '\n' }

  /** The classes of characters, listed. */
  lemma Classes(c: char)
    ensures IsBlank(c) <==> c in " \t\r"
    ensures IsSpace(c) <==> c in " \t\r\n"
    ensures IsIdent(c) <==> c in "_0123456789" || c in "abcdefghijklmnopqrstuvwxyz" || c in "ABCDEFGHIJKLMNOPQRSTUVWXYZ"
  {}

  function TrimLeft(s: string): (t: string)
    ensures |t| <= |s| && (t != "" ==> !IsSpace(t[0]))
  {
    if s == "" || !IsSpace(s[0]) then s else TrimLeft(s[1..])
  }

  function TrimRight(s: string): (t: string)
    ensures t <= s && (t != "" ==> !IsSpace(t[|t| - 1]))
  {
    if s == "" || !IsSpace(s[|s| - 1]) then s else TrimRight(s[..|s| - 1])
  }

  function Trim(s: string): (t: string)
    ensures |t| <= |s| && (t != "" ==> !IsSpace(t[0]) && !IsSpace(t[|t| - 1]))
  {
    TrimRight(TrimLeft(s))
  }

  /** Trimming what is trimmed changes nothing. */
  lemma TrimFixed(s: string)
    requires s != "" ==> !IsSpace(s[0]) && !IsSpace(s[|s| - 1])
    ensures Trim(s) == s
  {}

  /** The text up to its first NUL. */
  function CString(s: string): string { s[..Find(s, 0, '\0')] }

  /** Trimming takes away blanks and line ends on both sides, and all of them. */
  lemma TrimParts(s: string) returns (a: string, b: string)
    ensures s == a + Trim(s) + b && (forall k :: 0 <= k < |a| ==> IsSpace(a[k])) && (forall k :: 0 <= k < |b| ==> IsSpace(b[k]))
    ensures var t := Trim(s); t != "" ==> !IsSpace(t[0]) && !IsSpace(t[|t| - 1])
  {
    a := LeftParts(s);
    b := RightParts(TrimLeft(s));
  }

  lemma {:induction false} LeftParts(s: string) returns (a: string)
    ensures s == a + TrimLeft(s) && forall k :: 0 <= k < |a| ==> IsSpace(a[k])
    decreases |s|
  {
    a := "";
    if s != "" && IsSpace(s[0]) {
      a := LeftParts(s[1..]);
      a := [s[0]] + a;
    }
  }

  lemma {:induction false} RightParts(s: string) returns (b: string)
    ensures s == TrimRight(s) + b && forall k :: 0 <= k < |b| ==> IsSpace(b[k])
    decreases |s|
  {
    b := "";
    if s != "" && IsSpace(s[|s| - 1]) {
      b := RightParts(s[..|s| - 1]);
      b := b + [s[|s| - 1]];
    }
  }

  /** A path ends at its first NUL. */
  lemma CStringCuts(a: string, b: string)
    requires '\0' !in a
    ensures CString(a) == a && CString(a + "\0" + b) == a
  {
    var s := a + "\0" + b;
    assert s[|a|] == '\0';
    forall k | 0 <= k < |a| ensures s[k] != '\0' { assert s[k] == a[k]; }
    assert Find(s, 0, '\0') == |a|;
    assert Find(a, 0, '\0') == |a|;
  }
}
