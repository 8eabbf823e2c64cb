/** Conditions of `#if` and `#elif`: one look at a text, and chains of macros that are followed. */
module Conditions {
  import opened Tokens
  import opened Texts

  type Macros = map<string, string>

  /** What one call of `evalCondition` finds: an answer, or another text to look at. */
  datatype Look = Answer(value: bool) | Follow(text: string)

  function Resolve(macros: Macros, word: string): string {
    if word in macros && macros[word] != "" then Trim(macros[word]) else word
  }

  function Compare(macros: Macros, cond: string, at: nat, equal: bool): bool
    requires at + 2 <= |cond|
  {
    var same := Resolve(macros, Trim(cond[..at])) == Resolve(macros, Trim(cond[at + 2..]));
    same == equal
  }

  /** `==` is looked for before `!=`, wherever they stand. */
  function LookAt(macros: Macros, text: string): Look {
    var t := Trim(text);
    if t == "" || t == "0" || t == "false" then Answer(false)
    else if t == "1" || t == "true" then Answer(true)
    else if Contains(t, "==") then Answer(Compare(macros, t, FindText(t, 0, "=="), true))
    else if Contains(t, "!=") then Answer(Compare(macros, t, FindText(t, 0, "!="), false))
    else if t !in macros then Answer(false)
    else if macros[t] == "" then Answer(true)
    else Follow(macros[t])
  }

  /** The answer if it is reached without following more than `depth` macros. */
  function Eval(macros: Macros, text: string, depth: nat): Option<bool>
    decreases depth
  {
    match LookAt(macros, text)
    case Answer(v) => Some(v)
    case Follow(t) => if depth == 0 then None else Eval(macros, t, depth - 1)
  }

  // ---------- chains ----------

  /** The text reached after following `n` macros. */
  function Reached(macros: Macros, text: string, n: nat): Option<string> {
    if n == 0 then Some(text)
    else
      var before := Reached(macros, text, n - 1);
      if before.None? || LookAt(macros, before.value).Answer? then None
      else Some(LookAt(macros, before.value).text)
  }

  /** The macro followed from the `n`th text of the chain. */
  function NameAt(macros: Macros, text: string, n: nat): Option<string> {
    var t := Reached(macros, text, n);
    if t.None? || LookAt(macros, t.value).Answer? then None else Some(Trim(t.value))
  }

  /** A macro is followed twice. */
  ghost predicate Cyclic(macros: Macros, text: string) {
    exists i: nat, j: nat :: i < j && NameAt(macros, text, i).Some? && NameAt(macros, text, i) == NameAt(macros, text, j)
  }

  lemma {:induction false} ReachedLater(macros: Macros, text: string, n: nat)
    requires LookAt(macros, text).Follow?
    ensures Reached(macros, text, n + 1) == Reached(macros, LookAt(macros, text).text, n)
  {
    hide LookAt;
    if n > 0 { ReachedLater(macros, text, n - 1); } else { assert Reached(macros, text, 0) == Some(text); }
  }

  /** Evaluation answers with its last text, unless `depth` was too small for the chain. */
  lemma {:induction false} EvalChain(macros: Macros, text: string, depth: nat)
    ensures Eval(macros, text, depth).None? <==> NameAt(macros, text, depth).Some?
    ensures Eval(macros, text, depth).Some? ==>
      exists n: nat :: n <= depth && Reached(macros, text, n).Some? &&
        LookAt(macros, Reached(macros, text, n).value) == Answer(Eval(macros, text, depth).value)
    decreases depth
  {
    hide LookAt;
    var look := LookAt(macros, text);
    assert Reached(macros, text, 0) == Some(text);
    if look.Answer? {
      NoLater(macros, text, depth);
    } else if depth > 0 {
      EvalChain(macros, look.text, depth - 1);
      ReachedLater(macros, text, depth - 1);
      if Eval(macros, text, depth).Some? {
        var n: nat :| n <= depth - 1 && Reached(macros, look.text, n).Some? &&
          LookAt(macros, Reached(macros, look.text, n).value) == Answer(Eval(macros, text, depth).value);
        ReachedLater(macros, text, n);
        assert Reached(macros, text, n + 1).Some?;
      }
    }
  }

  lemma {:induction false} NoLater(macros: Macros, text: string, n: nat)
    requires LookAt(macros, text).Answer?
    ensures n > 0 ==> Reached(macros, text, n).None?
    ensures NameAt(macros, text, n).None?
  {
    hide LookAt;
    if n > 0 { NoLater(macros, text, n - 1); }
  }

  /** Chains have no gaps. */
  lemma {:induction false} NamedBefore(macros: Macros, text: string, i: nat, j: nat)
    requires i <= j && NameAt(macros, text, j).Some?
    ensures NameAt(macros, text, i).Some? && NameAt(macros, text, i).value in macros
    decreases j - i
  {
    if i < j { NamedBefore(macros, text, i, j - 1); }
  }

  lemma NextName(macros: Macros, text: string, i: nat)
    requires NameAt(macros, text, i).Some?
    ensures NameAt(macros, text, i).value in macros
    ensures Reached(macros, text, i + 1) == Some(macros[NameAt(macros, text, i).value])
  {}

  /** From a repeated macro on the chain repeats for ever. */
  lemma {:induction false} Repeats(macros: Macros, text: string, i: nat, j: nat, m: nat)
    requires i < j && NameAt(macros, text, i).Some? && NameAt(macros, text, i) == NameAt(macros, text, j)
    ensures Reached(macros, text, i + 1 + m) == Reached(macros, text, j + 1 + m)
    decreases m
  {
    hide LookAt;
    if m == 0 {
      NextName(macros, text, i);
      NextName(macros, text, j);
    } else {
      Repeats(macros, text, i, j, m - 1);
    }
  }

  lemma {:induction false} NeverEnds(macros: Macros, text: string, i: nat, j: nat, n: nat)
    requires i < j && NameAt(macros, text, i).Some? && NameAt(macros, text, i) == NameAt(macros, text, j)
    ensures NameAt(macros, text, n).Some?
    decreases n
  {
    hide LookAt;
    if n <= j {
      NamedBefore(macros, text, n, j);
    } else {
      NeverEnds(macros, text, i, j, n - (j - i));
      Repeats(macros, text, i, j, n - j - 1);
      assert Reached(macros, text, n) == Reached(macros, text, n - (j - i));
    }
  }

  /** The first `n` macros followed. */
  function NamesUpTo(macros: Macros, text: string, n: nat): set<string> {
    set k | 0 <= k < n && NameAt(macros, text, k).Some? :: NameAt(macros, text, k).value
  }

  /** Different macros are followed, so there are no more of them than the table holds. */
  lemma {:induction false} ManyNames(macros: Macros, text: string, n: nat)
    requires !Cyclic(macros, text) && (n > 0 ==> NameAt(macros, text, n - 1).Some?)
    ensures |NamesUpTo(macros, text, n)| == n && NamesUpTo(macros, text, n) <= macros.Keys
    decreases n
  {
    hide Reached, NameAt;
    if n > 0 {
      if n > 1 { NamedBefore(macros, text, n - 2, n - 1); }
      ManyNames(macros, text, n - 1);
      NamedBefore(macros, text, n - 1, n - 1);
      var last := NameAt(macros, text, n - 1).value;
      var s := NamesUpTo(macros, text, n - 1);
      assert last !in s;
      assert NamesUpTo(macros, text, n) == s + {last};
    }
  }

  lemma SubsetSize<T>(a: set<T>, b: set<T>)
    requires a <= b
    ensures |a| <= |b|
  {
    if a != {} {
      var x :| x in a;
      SubsetSize(a - {x}, b - {x});
    }
  }

  /**
   Evaluation ends exactly when no macro is followed twice, and then it follows no more macros
   than are defined: a deeper recursion never changes the outcome.
   */
  lemma EvalEnds(macros: Macros, text: string, depth: nat)
    ensures Eval(macros, text, |macros|).Some? <==> !Cyclic(macros, text)
    ensures Cyclic(macros, text) ==> Eval(macros, text, depth).None?
    ensures depth >= |macros| ==> Eval(macros, text, depth) == Eval(macros, text, |macros|)
  {
    hide LookAt, Reached, NameAt, NamesUpTo;
    EvalChain(macros, text, |macros|);
    EvalChain(macros, text, depth);
    if Cyclic(macros, text) {
      var i: nat, j: nat :| i < j && NameAt(macros, text, i).Some? && NameAt(macros, text, i) == NameAt(macros, text, j);
      NeverEnds(macros, text, i, j, |macros|);
      NeverEnds(macros, text, i, j, depth);
    } else {
      if NameAt(macros, text, |macros|).Some? {
        ManyNames(macros, text, |macros| + 1);
        SubsetSize(NamesUpTo(macros, text, |macros| + 1), macros.Keys);
        assert false;
      }
      if depth >= |macros| { EvalDeeper(macros, text, |macros|, depth); }
    }
  }

  lemma {:induction false} EvalDeeper(macros: Macros, text: string, d: nat, e: nat)
    requires d <= e && Eval(macros, text, d).Some?
    ensures Eval(macros, text, e) == Eval(macros, text, d)
    decreases d
  {
    hide LookAt;
    if LookAt(macros, text).Follow? { EvalDeeper(macros, LookAt(macros, text).text, d - 1, e - 1); }
  }

  // ---------- comparisons ----------

  /** A word of a comparison: no blanks at its ends and no part of an operator anywhere. */
  predicate Operand(t: string) {
    Trim(t) == t && forall k :: 0 <= k < |t| ==> t[k] != '=' && t[k] != '!'
  }

  lemma {:induction false} FoundText(s: string, c: nat, pat: string, e: nat)
    requires pat != "" && c <= e <= |s| && (forall j :: c <= j < e ==> !Occurs(s, j, pat)) && (e < |s| ==> Occurs(s, e, pat))
    ensures FindText(s, c, pat) == e
    decreases e - c
  {
    if c < e { FoundText(s, c + 1, pat, e); }
  }

  lemma TwoCharacters(t: string, j: nat, pat: string)
    requires |pat| == 2
    ensures Occurs(t, j, pat) ==> t[j] == pat[0] && t[j + 1] == pat[1]
  {
    if Occurs(t, j, pat) { assert t[j] == t[j..j + 2][0] && t[j + 1] == t[j..j + 2][1]; }
  }

  /** Where the two operators are in `a`, `op`, `b`. */
  lemma OperatorFound(a: string, op: string, b: string, other: string)
    requires Operand(a) && Operand(b) && ((op == "==" && other == "!=") || (op == "!=" && other == "=="))
    ensures FindText(a + op + b, 0, op) == |a| && FindText(a + op + b, 0, other) == |a + op + b|
  {
    hide Trim, Occurs;
    var t := a + op + b;
    OperatorAt(a, op, b);
    forall j | 0 <= j < |t| ensures (j < |a| ==> !Occurs(t, j, op)) && !Occurs(t, j, other) {
      TwoCharacters(t, j, op);
      TwoCharacters(t, j, other);
      assert j < |a| ==> t[j] == a[j];
      assert j >= |a| + 2 ==> t[j] == b[j - |a| - 2];
      assert j == |a| + 1 && b != "" ==> t[j + 1] == b[0];
      TooLate(t, j, other);
    }
    FoundText(t, 0, op, |a|);
    FoundText(t, 0, other, |t|);
  }

  lemma TooLate(t: string, j: nat, pat: string)
    requires |pat| == 2
    ensures Occurs(t, j, pat) ==> j + 1 < |t|
  {}

  lemma OperatorAt(a: string, op: string, b: string)
    requires |op| == 2
    ensures Occurs(a + op + b, |a|, op)
  {
    assert (a + op + b)[|a|..|a| + 2] == op;
  }

  /**
   A side that is a key with a text stands for that text without the blanks around it; a key
   without one, and any other word, stands for itself. `==` asks whether both sides stand for
   the same, and `!=` for the opposite.
   */
  lemma ComparisonMeans(macros: Macros, a: string, b: string)
    requires Operand(a) && Operand(b)
    ensures var x := if a in macros && macros[a] != "" then Trim(macros[a]) else a;
      var y := if b in macros && macros[b] != "" then Trim(macros[b]) else b;
      LookAt(macros, a + "==" + b) == Answer(x == y) && LookAt(macros, a + "!=" + b) == Answer(x != y)
  {
    hide Trim;
    ComparisonTrimmed(a, "==", b);
    ComparisonTrimmed(a, "!=", b);
    OperatorFound(a, "==", b, "!=");
    OperatorFound(a, "!=", b, "==");
    Sides(a, "==", b);
    Sides(a, "!=", b);
  }

  /** A word by itself: a constant, a name without a macro, one without a text, or one whose text is asked next. */
  lemma WordMeans(macros: Macros, t: string)
    requires Operand(t)
    ensures t == "" || t == "0" || t == "false" ==> LookAt(macros, t) == Answer(false)
    ensures t == "1" || t == "true" ==> LookAt(macros, t) == Answer(true)
    ensures t !in {"", "0", "1", "true", "false"} ==>
      && (t !in macros ==> LookAt(macros, t) == Answer(false))
      && (t in macros && macros[t] == "" ==> LookAt(macros, t) == Answer(true))
      && (t in macros && macros[t] != "" ==> LookAt(macros, t) == Follow(macros[t]))
  {
    hide Trim, Compare;
    if t != "" {
      NoOperator(t, "==");
      NoOperator(t, "!=");
    }
  }

  lemma NoOperator(t: string, op: string)
    requires Operand(t) && (op == "==" || op == "!=")
    ensures !Contains(t, op)
  {
    hide Trim;
    var k := FindText(t, 0, op);
    if k < |t| { TwoCharacters(t, k, op); }
  }

  lemma Sides(a: string, op: string, b: string)
    requires |op| == 2
    ensures var t := a + op + b; t[..|a|] == a && t[|a| + 2..] == b
  {}

  lemma ComparisonTrimmed(a: string, op: string, b: string)
    requires Operand(a) && Operand(b) && (op == "==" || op == "!=")
    ensures var t := a + op + b; Trim(t) == t && |t| >= 2 && t != "0" && t != "1" && t != "true" && t != "false"
  {
    var t := a + op + b;
    assert t[|a|] == op[0];
    assert t[0] == (if a == "" then op[0] else a[0]);
    assert t[|t| - 1] == (if b == "" then op[1] else b[|b| - 1]);
    TrimFixed(t);
    assert '=' in t by { assert t[|a| + 1] == '='; }
    assert '=' !in "true" && '=' !in "false";
  }
}
