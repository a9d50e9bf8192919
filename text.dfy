/** String helpers with JavaScript's meaning: digits and `parseInt`, `toString`,
    `padStart`, ASCII `toLowerCase`, `includes`, and the code-unit order of
    `localeCompare` on same-shaped keys. */
module Text {
  import opened Common

  predicate IsDigit(c: char) {
    '0' <= c <= '9'
  }

  predicate IsDigits(s: string) {
    forall i :: 0 <= i < |s| ==> IsDigit(s[i])
  }

  function DigitChar(d: nat): (c: char)
    requires d < 10
    ensures IsDigit(c) && c as int - '0' as int == d
  {
    ('0' as int + d) as char
  }

  /** The number a string of decimal digits denotes. */
  function DecimalValue(s: string): nat
    requires IsDigits(s)
  {
    if s == [] then 0
    else DecimalValue(s[..|s| - 1]) * 10 + (s[|s| - 1] as int - '0' as int)
  }

  /** Drops the last character, as `s.slice(0, -1)` does. */
  function DropLast(s: string): (r: string)
    ensures s == [] ==> r == []
    ensures s != [] ==> r + [s[|s| - 1]] == s
  {
    if s == [] then [] else s[..|s| - 1]
  }

  /** The longest prefix of `s` made of digits. */
  function LeadingDigits(s: string): (r: string)
    ensures IsDigits(r) && |r| <= |s| && r == s[..|r|]
    ensures |r| < |s| ==> !IsDigit(s[|r|])
  {
    if s == [] || !IsDigit(s[0]) then [] else [s[0]] + LeadingDigits(s[1..])
  }

  /** `parseInt(s, 10)` for strings without leading blanks or a sign: the value
      of the leading digits, `None` (NaN) when there are none. */
  function ParseInt(s: string): (r: Option<nat>)
    ensures r.None? <==> (s == [] || !IsDigit(s[0]))
  {
    var d := LeadingDigits(s);
    if d == [] then None else Some(DecimalValue(d))
  }

  lemma {:induction false} ParseIntOfDigits(s: string)
    requires s != [] && IsDigits(s)
    ensures ParseInt(s) == Some(DecimalValue(s))
  {
    LeadingDigitsOfDigits(s);
  }

  lemma {:induction false} LeadingDigitsOfDigits(s: string)
    requires IsDigits(s)
    ensures LeadingDigits(s) == s
  {
    if s != [] {
      LeadingDigitsOfDigits(s[1..]);
    }
  }

  /** The decimal digits of `n`, without leading zeros (`n.toString()`). */
  function NatToString(n: nat): (r: string)
    ensures IsDigits(r) && |r| >= 1
    ensures DecimalValue(r) == n
    ensures |r| > 1 ==> r[0] != '0'
    decreases n
  {
    if n < 10 then [DigitChar(n)]
    else
      var r := NatToString(n / 10) + [DigitChar(n % 10)];
      assert r[..|r| - 1] == NatToString(n / 10);
      r
  }

  /** `n.toString()` for an integer: a minus sign before the digits of `|n|`. */
  function IntToString(n: int): (r: string)
    ensures n >= 0 ==> r == NatToString(n)
    ensures n < 0 ==> r == "-" + NatToString(-n)
  {
    if n < 0 then "-" + NatToString(-n) else NatToString(n)
  }

  function Repeat(c: char, k: nat): (r: string)
    ensures |r| == k && forall i :: 0 <= i < k ==> r[i] == c
  {
    if k == 0 then [] else [c] + Repeat(c, k - 1)
  }

  /** `s.padStart(n, c)` with a one-character pad. */
  function PadStart(s: string, n: nat, c: char): (r: string)
    ensures |r| == if |s| >= n then |s| else n
    ensures r[|r| - |s|..] == s
    ensures forall i :: 0 <= i < |r| - |s| ==> r[i] == c
  {
    if |s| >= n then s else Repeat(c, n - |s|) + s
  }

  /** Leading zeros do not change the value of a digit string. */
  lemma {:induction false} LeadingZeros(z: string, s: string)
    requires forall i :: 0 <= i < |z| ==> z[i] == '0'
    requires IsDigits(s)
    ensures IsDigits(z + s) && DecimalValue(z + s) == DecimalValue(s)
    decreases |s|
  {
    if s == [] {
      assert z + s == z;
      Zeros(z);
    } else {
      var t := z + s;
      assert t[..|t| - 1] == z + s[..|s| - 1];
      LeadingZeros(z, s[..|s| - 1]);
    }
  }

  lemma {:induction false} Zeros(z: string)
    requires forall i :: 0 <= i < |z| ==> z[i] == '0'
    ensures IsDigits(z) && DecimalValue(z) == 0
  {
    if z != [] {
      Zeros(z[..|z| - 1]);
    }
  }

  /** Padding a digit string with zeros on the left keeps it a digit string
      of the same value. */
  lemma {:induction false} PadStartZeros(s: string, n: nat)
    requires IsDigits(s)
    ensures IsDigits(PadStart(s, n, '0')) && DecimalValue(PadStart(s, n, '0')) == DecimalValue(s)
  {
    if |s| < n {
      LeadingZeros(Repeat('0', n - |s|), s);
    }
  }

  /** Numbers below 100 print in at most two digits. */
  lemma TwoDigits(n: nat)
    requires n < 100
    ensures |NatToString(n)| <= 2
  {
    if n >= 10 {
      assert |NatToString(n / 10)| == 1;
    }
  }

  function LowerChar(c: char): char {
    if 'A' <= c <= 'Z' then (c as int + 32) as char else c
  }

  /** `s.toLowerCase()` on ASCII letters. */
  function ToLower(s: string): (r: string)
    ensures |r| == |s| && forall i :: 0 <= i < |s| ==> r[i] == LowerChar(s[i])
  {
    if s == [] then [] else [LowerChar(s[0])] + ToLower(s[1..])
  }

  /** `s.includes(t)`: `t` occurs in `s` as a contiguous run. */
  predicate Contains(s: string, t: string) {
    t <= s || (s != [] && Contains(s[1..], t))
  }

  /** `text.toLowerCase().includes(term.toLowerCase())`. */
  predicate ContainsIgnoringCase(text: string, term: string) {
    Contains(ToLower(text), ToLower(term))
  }

  /** The order of `localeCompare` on keys of one fixed shape: character-code
      lexicographic order, a proper prefix first. */
  predicate LexLess(a: string, b: string)
    decreases |a|
  {
    if a == [] then b != []
    else if b == [] then false
    else if a[0] != b[0] then a[0] < b[0]
    else LexLess(a[1..], b[1..])
  }

  lemma {:induction false} LexIrreflexive(a: string)
    ensures !LexLess(a, a)
    decreases |a|
  {
    if a != [] {
      LexIrreflexive(a[1..]);
    }
  }

  lemma {:induction false} LexTotal(a: string, b: string)
    requires a != b
    ensures LexLess(a, b) || LexLess(b, a)
    decreases |a|
  {
    if a != [] && b != [] && a[0] == b[0] {
      assert a == [a[0]] + a[1..] && b == [b[0]] + b[1..];
      LexTotal(a[1..], b[1..]);
    }
  }

  lemma {:induction false} LexAsymmetric(a: string, b: string)
    requires LexLess(a, b)
    ensures !LexLess(b, a)
    decreases |a|
  {
    if a != [] && b != [] && a[0] == b[0] {
      LexAsymmetric(a[1..], b[1..]);
    }
  }

  lemma {:induction false} LexTransitive(a: string, b: string, c: string)
    requires LexLess(a, b) && LexLess(b, c)
    ensures LexLess(a, c)
    decreases |a|
  {
    if a != [] && b != [] && c != [] && a[0] == b[0] && b[0] == c[0] {
      LexTransitive(a[1..], b[1..], c[1..]);
    }
  }
}
