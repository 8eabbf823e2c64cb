/** Names packed into 64 bits: ten characters of six bits and four bits of extra length. */
module NamePack {
  import opened Texts

  /** Six bits; 0 for every character that cannot be part of a name. */
  function Code(c: char): (n: nat)
    ensures n < 64 && (n != 0 <==> IsIdent(c))
  {
    if 'A' <= c <= 'Z' then c as int - 'A' as int + 1
    else if 'a' <= c <= 'z' then c as int - 'a' as int + 27
    else if '0' <= c <= '9' then c as int - '0' as int + 53
    else if c == '_' then 63
    else 0
  }

  function Character(n: nat): char
    requires 0 < n < 64
  {
    if n <= 26 then ('A' as int + n - 1) as char
    else if n <= 52 then ('a' as int + n - 27) as char
    else if n <= 62 then ('0' as int + n - 53) as char
    else '_'
  }

  lemma CodeInjective(c: char)
    requires IsIdent(c)
    ensures Character(Code(c)) == c
  {}

  function Power(n: nat): (p: nat)
    ensures p > 0
  {
    if n == 0 then 1 else 64 * Power(n - 1)
  }

  /** The first `n` characters as digits, lowest first. */
  function Digits(name: string, n: nat): nat
    requires n <= |name|
    decreases n
  {
    if n == 0 then 0 else Code(name[0]) + 64 * Digits(name[1..], n - 1)
  }

  /** How much longer than ten the name is, up to 15 for 25 and more. */
  function Extra(length: nat): nat {
    if length >= 25 then 15 else if length < 10 then 0 else length - 10
  }

  function Taken(length: nat): nat { if length < 10 then length else 10 }

  /** The lowest bit of the length field, above the ten characters. */
  const HIGH: nat := 0x1000_0000_0000_0000

  lemma PowerTen()
    ensures Power(10) == HIGH
  {
    assert Power(5) == 0x4000_0000;
    assert Power(10) == 64 * (64 * (64 * (64 * (64 * Power(5)))));
  }

  function Packed(name: string): nat { Extra(|name|) * HIGH + Digits(name, Taken(|name|)) }

  /** Everything fits 64 bits, and the characters stay below the length field. */
  lemma PackedFits(name: string)
    ensures Packed(name) < 0x1_0000_0000_0000_0000
    ensures Packed(name) / HIGH == Extra(|name|) && Packed(name) % HIGH == Digits(name, Taken(|name|))
  {
    hide Digits, Power, Extra;
    DigitsBound(name, Taken(|name|));
    PowerGrows(Taken(|name|), 10);
    PowerTen();
    ExtraBound(|name|);
  }

  lemma ExtraBound(length: nat)
    ensures Extra(length) <= 0xF
  {}

  /** Bitwise or. */
  function Or(a: nat, b: nat): nat
    decreases a + b
  {
    if a == 0 || b == 0 then a + b
    else (if a % 2 == 1 || b % 2 == 1 then 1 else 0) + 2 * Or(a / 2, b / 2)
  }

  lemma OrDouble(a: nat, b: nat)
    ensures Or(2 * a, 2 * b) == 2 * Or(a, b)
    ensures Or(2 * a + 1, 2 * b) == 2 * Or(a, b) + 1
    ensures Or(2 * a, 2 * b + 1) == 2 * Or(a, b) + 1
  {
    assert (2 * a + 1) / 2 == a && (2 * b + 1) / 2 == b && (2 * a) / 2 == a && (2 * b) / 2 == b;
    assert (2 * a + 1) % 2 == 1 && (2 * b + 1) % 2 == 1 && (2 * a) % 2 == 0 && (2 * b) % 2 == 0;
  }

  function Bits(n: nat): (p: nat)
    ensures p > 0
  {
    if n == 0 then 1 else 2 * Bits(n - 1)
  }

  lemma Twice(a: nat, p: nat)
    ensures a * (2 * p) == 2 * (a * p)
  {}

  lemma Halves(low: nat)
    ensures low == 2 * (low / 2) || low == 2 * (low / 2) + 1
  {}

  /** The low bits are kept where the other number has none. */
  lemma {:induction false} OrAbove(a: nat, b: nat, low: nat, n: nat)
    requires low < Bits(n)
    ensures Or(a * Bits(n) + low, b * Bits(n)) == Or(a, b) * Bits(n) + low
    decreases n
  {
    hide Or;
    if n > 0 {
      var p := Bits(n - 1);
      OrAbove(a, b, low / 2, n - 1);
      Twice(a, p);
      Twice(b, p);
      Twice(Or(a, b), p);
      Halves(low);
      OrDouble(a * p + low / 2, b * p);
    }
  }

  /** Bits put below the others are added. */
  lemma {:induction false} OrBelow(a: nat, low: nat, n: nat)
    requires low < Bits(n)
    ensures Or(a * Bits(n), low) == a * Bits(n) + low
    decreases n
  {
    if n > 0 {
      var p := Bits(n - 1);
      OrBelow(a, low / 2, n - 1);
      Twice(a, p);
      Halves(low);
      OrDouble(a * p, low / 2);
    }
  }

  lemma {:induction false} PowerBits(n: nat)
    ensures Power(n) == Bits(6 * n)
  {
    if n > 0 { PowerBits(n - 1); SixBits(6 * (n - 1)); }
  }

  lemma SixBits(n: nat)
    ensures Bits(n + 6) == 64 * Bits(n)
  {
    assert Bits(n + 2) == 4 * Bits(n);
    assert Bits(n + 4) == 4 * Bits(n + 2);
    assert Bits(n + 6) == 4 * Bits(n + 4);
  }

  lemma {:induction false} PowerSum(m: nat, n: nat)
    ensures Power(m + n) == Power(m) * Power(n)
  {
    if m > 0 { PowerSum(m - 1, n); OutOf(Power(m - 1), Power(n)); }
  }

  lemma OutOf(a: nat, b: nat)
    ensures (64 * a) * b == 64 * (a * b)
  {}

  /** A character is set in bits that are still free, between the length and the characters before it. */
  lemma SetDigit(extra: nat, low: nat, c: nat, i: nat)
    requires i < 10 && low < Power(i) && c < 64
    ensures Or(extra * HIGH + low, c * Power(i)) == extra * HIGH + low + c * Power(i)
  {
    hide Or, Power, Bits;
    var p, above := Power(i), Power(9 - i);
    PowerTen();
    PowerSum(10 - i, i);
    PowerSum(1, 9 - i);
    PowerOne();
    PowerBits(i);
    var hi := extra * above;
    Regroup(extra, above, p);
    OrAbove(hi * 64, c, low, 6 * i);
    SixBitsAre();
    OrBelow(hi, c, 6);
    Sum(hi * 64, c, p);
  }

  lemma PowerOne()
    ensures Power(1) == 64
  {}

  lemma SixBitsAre()
    ensures Bits(6) == 64
  {}

  lemma Regroup(e: nat, a: nat, p: nat)
    ensures e * ((64 * a) * p) == (e * a * 64) * p
  {
    assert e * ((64 * a) * p) == (e * (64 * a)) * p;
    assert e * (64 * a) == e * a * 64;
  }

  lemma Sum(a: nat, c: nat, p: nat)
    ensures (a + c) * p == a * p + c * p
  {}

  lemma Distribute(d: nat, c: nat, p: nat)
    ensures 64 * (d + c * p) == 64 * d + c * (64 * p)
  {
    assert 64 * (c * p) == c * (64 * p);
  }

  lemma {:induction false} DigitsLast(name: string, n: nat)
    requires n < |name|
    ensures Digits(name, n + 1) == Digits(name, n) + Code(name[n]) * Power(n)
    decreases n
  {
    hide Code;
    if n > 0 {
      DigitsLast(name[1..], n - 1);
      assert name[1..][n - 1] == name[n];
      Distribute(Digits(name[1..], n - 1), Code(name[n]), Power(n - 1));
    }
  }

  method Pack(name: string) returns (v: nat)
    ensures v == Packed(name) && v < 0x1_0000_0000_0000_0000
  {
    hide Or, Digits, Power, Code;
    var overlong := |name| >= 0xF + 10;
    var toPack := if |name| < 10 then |name| else 10;
    v := if overlong then 0xF * HIGH else (|name| - toPack) * HIGH;
    var weight := 1;
    DigitsNone(name);
    for i := 0 to toPack
      invariant weight == Power(i)
      invariant v == Extra(|name|) * HIGH + Digits(name, i)
    {
      DigitsLast(name, i);
      DigitsBound(name, i);
      SetDigit(Extra(|name|), Digits(name, i), Code(name[i]), i);
      v := Or(v, Code(name[i]) * weight);
      PowerNext(i);
      weight := weight * 64;
    }
    PackedFits(name);
  }

  lemma DigitsNone(name: string)
    ensures Digits(name, 0) == 0 && Power(0) == 1
  {}

  lemma PowerNext(n: nat)
    ensures Power(n + 1) == 64 * Power(n)
  {}

  lemma {:induction false} DigitsBound(name: string, n: nat)
    requires n <= |name|
    ensures Digits(name, n) < Power(n)
    decreases n
  {
    if n > 0 { DigitsBound(name[1..], n - 1); }
  }

  lemma {:induction false} PowerGrows(n: nat, m: nat)
    requires n <= m
    ensures Power(n) <= Power(m)
    decreases m - n
  {
    if n < m { PowerGrows(n, m - 1); }
  }

  predicate AllIdent(name: string) { forall k :: 0 <= k < |name| ==> IsIdent(name[k]) }

  /** No digit of a name is 0, so the digits alone tell how many characters there are. */
  lemma {:induction false} DigitsEqual(a: string, n: nat, b: string, m: nat)
    requires n <= |a| && m <= |b| && AllIdent(a) && AllIdent(b)
    ensures Digits(a, n) == Digits(b, m) <==> a[..n] == b[..m]
    decreases n
  {
    if n == 0 || m == 0 {
      if n > 0 { assert Code(a[0]) > 0; }
      if m > 0 { assert Code(b[0]) > 0; }
    } else {
      DigitsEqual(a[1..], n - 1, b[1..], m - 1);
      assert a[..n] == [a[0]] + a[1..][..n - 1] && b[..m] == [b[0]] + b[1..][..m - 1];
      FirstDigit(Code(a[0]), Digits(a[1..], n - 1), Code(b[0]), Digits(b[1..], m - 1));
      CodeInjective(a[0]);
      CodeInjective(b[0]);
      if a[..n] == b[..m] { assert a[..n][0] == b[..m][0] && a[..n][1..] == b[..m][1..]; }
    }
  }

  lemma FirstDigit(c: nat, x: nat, d: nat, y: nat)
    requires c < 64 && d < 64
    ensures c + 64 * x == d + 64 * y <==> c == d && x == y
  {}

  lemma OneMore(f: nat, p: nat)
    ensures (f + 1) * p == f * p + p
  {}

  lemma {:induction false} Below(e: nat, f: nat, p: nat)
    requires e < f
    ensures e * p + p <= f * p
    decreases f
  {
    OneMore(f - 1, p);
    if e < f - 1 { Below(e, f - 1, p); }
  }

  lemma HighDigit(e: nat, x: nat, f: nat, y: nat, p: nat)
    requires x < p && y < p
    ensures e * p + x == f * p + y <==> e == f && x == y
  {
    if e < f { Below(e, f, p); }
    if f < e { Below(f, e, p); }
  }

  /**
   Two names are packed alike exactly when their first ten characters agree and their lengths
   are the same or both beyond what is kept.
   */
  lemma PackedEqual(a: string, b: string)
    requires AllIdent(a) && AllIdent(b)
    ensures Packed(a) == Packed(b) <==>
      a[..Taken(|a|)] == b[..Taken(|b|)] && (|a| == |b| || (|a| >= 25 && |b| >= 25))
  {
    hide Digits, Power;
    var n, m := Taken(|a|), Taken(|b|);
    DigitsBound(a, n);
    DigitsBound(b, m);
    PowerGrows(n, 10);
    PowerGrows(m, 10);
    PowerTen();
    HighDigit(Extra(|a|), Digits(a, n), Extra(|b|), Digits(b, m), HIGH);
    DigitsEqual(a, n, b, m);
    if a[..n] == b[..m] { assert n == |a[..n]| == |b[..m]| == m; }
  }

  /** The characters of a packed name of at most ten. */
  function Unpacked(v: nat): string
    decreases v
  {
    if v % 64 == 0 then "" else [Character(v % 64)] + Unpacked(v / 64)
  }

  lemma {:induction false} DigitsUnpack(name: string)
    requires AllIdent(name)
    ensures Unpacked(Digits(name, |name|)) == name
    decreases |name|
  {
    if name != "" {
      var rest := Digits(name[1..], |name| - 1);
      DigitsUnpack(name[1..]);
      CodeInjective(name[0]);
      assert (Code(name[0]) + 64 * rest) % 64 == Code(name[0]) && (Code(name[0]) + 64 * rest) / 64 == rest;
      assert name == [name[0]] + name[1..];
    }
  }

  /** Up to ten characters nothing is lost. */
  lemma ShortRoundTrip(name: string)
    requires AllIdent(name) && |name| <= 10
    ensures Unpacked(Packed(name)) == name
  {
    hide Digits, Unpacked, Power, Code;
    DigitsUnpack(name);
    assert Extra(|name|) == 0 && Taken(|name|) == |name|;
  }

  // ---------- the packed name read field by field ----------

  predicate SameKind(c: char, d: char) {
    'A' <= c <= d <= 'Z' || 'a' <= c <= d <= 'z' || '0' <= c <= d <= '9'
  }

  /** The codes run through the capitals, the small letters, the digits and the underscore; 0 is no code. */
  lemma Codes(c: char, d: char)
    ensures Code('A') == 1 && Code('Z') == 26 && Code('a') == 27 && Code('z') == 52
    ensures Code('0') == 53 && Code('9') == 62 && Code('_') == 63
    ensures SameKind(c, d) && c < d ==> Code(c) < Code(d)
    ensures Code(c) == 0 <==> !SameKind(c, c) && c != '_'
  {}

  /** The `i`-th group of six bits, from the lowest. */
  function Field(v: nat, i: nat): nat {
    if i == 0 then v % 64 else Field(v / 64, i - 1)
  }

  lemma FirstField(c: nat, rest: nat, v: nat)
    requires c < 64 && v == c + 64 * rest
    ensures v % 64 == c && v / 64 == rest
  {}

  lemma {:induction false} FieldsOf(name: string, n: nat, above: nat, m: nat, i: nat)
    requires n <= m && n <= |name| && i <= m && above < 64
    ensures Field(Digits(name, n) + above * Power(m), i) ==
      if i == m then above else if i < n then Code(name[i]) else 0
    decreases m
  {
    hide Code, Digits, Power;
    if m > 0 {
      FieldStep(name, n, above, m);
      if i > 0 {
        if n > 0 { FieldsOf(name[1..], n - 1, above, m - 1, i - 1); } else { FieldsOf(name, 0, above, m - 1, i - 1); }
      }
    } else {
      DigitsNone(name);
    }
  }

  /** One group is the code of the first character, or nothing. */
  lemma FieldStep(name: string, n: nat, above: nat, m: nat)
    requires n < m + 1 && n <= |name| && m > 0
    ensures var v := Digits(name, n) + above * Power(m);
      && v % 64 == (if n > 0 then Code(name[0]) else 0)
      && v / 64 == (if n > 0 then Digits(name[1..], n - 1) else Digits(name, 0)) + above * Power(m - 1)
  {
    hide Code, Power;
    PowerNext(m - 1);
    var p := Power(m - 1);
    Shifted(above, p);
    FirstField(if n > 0 then Code(name[0]) else 0, (if n > 0 then Digits(name[1..], n - 1) else 0) + above * p,
               Digits(name, n) + above * Power(m));
  }

  lemma Shifted(a: nat, p: nat)
    ensures a * (64 * p) == 64 * (a * p)
  {}

  /**
   The lowest ten groups hold the codes of the first ten characters, 0 where the name has ended,
   and the four bits above them how much longer the name is, at most 15.
   */
  lemma Fields(name: string, i: nat)
    requires i <= 10
    ensures i < 10 ==> Field(Packed(name), i) == if i < |name| then Code(name[i]) else 0
    ensures i == 10 ==>
      Field(Packed(name), i) == if |name| <= 10 then 0 else if |name| < 25 then |name| - 10 else 15
  {
    hide Digits, Power, Code, Field;
    PowerTen();
    ExtraBound(|name|);
    FieldsOf(name, Taken(|name|), Extra(|name|), 10, i);
  }
}
