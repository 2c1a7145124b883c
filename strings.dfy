/** The string operations the TypeScript code relies on: `trim()`,
    `toUpperCase()` (ASCII letters only), `includes`, the default
    comparison that `Array.prototype.sort` uses on strings, `Math.round`,
    and the decimal rendering of an integer in a template literal. */
module Strings {
  import opened Seqs

  /** The characters `String.prototype.trim` removes: WhiteSpace and
      LineTerminator of ECMA-262 (sections 12.2 and 12.3), with the
      space separators of Unicode category Zs written out. */
  predicate IsTrimSpace(c: char) {
    || c == '\t' || c == '\U{000B}' || c == '\U{000C}' || c == ' '
    || c == '\U{00A0}' || c == '\U{FEFF}'
    || c == '\n' || c == '\r' || c == '\U{2028}' || c == '\U{2029}'
    || c == '\U{1680}' || ('\U{2000}' <= c <= '\U{200A}')
    || c == '\U{202F}' || c == '\U{205F}' || c == '\U{3000}'
  }

  /** Drops leading trim-space characters. */
  function TrimStart(s: string): (r: string)
    ensures |r| <= |s| && r == s[|s| - |r|..]
    ensures forall k :: 0 <= k < |s| - |r| ==> IsTrimSpace(s[k])
    ensures |r| > 0 ==> !IsTrimSpace(r[0])
  {
    if |s| > 0 && IsTrimSpace(s[0]) then TrimStart(s[1..]) else s
  }

  /** Drops trailing trim-space characters. */
  function TrimEnd(s: string): (r: string)
    ensures |r| <= |s| && r == s[..|r|]
    ensures forall k :: |r| <= k < |s| ==> IsTrimSpace(s[k])
    ensures |r| > 0 ==> !IsTrimSpace(r[|r| - 1])
  {
    if |s| > 0 && IsTrimSpace(Last(s)) then TrimEnd(Init(s)) else s
  }

  /** `s.trim()`: the longest slice of `s` that neither starts nor ends
      with a trim-space character, obtained by removing only such
      characters from both ends. */
  function Trim(s: string): (r: string)
    ensures exists i :: 0 <= i <= |s| - |r| && IsTrimmedSlice(s, r, i)
    ensures |r| > 0 ==> !IsTrimSpace(r[0]) && !IsTrimSpace(r[|r| - 1])
  {
    var t := TrimStart(s);
    var r := TrimEnd(t);
    TrimBothEnds(s, t, r);
    r
  }

  /** Trimming the front, then the back, leaves a trimmed slice. */
  lemma TrimBothEnds(s: string, t: string, r: string)
    requires |r| <= |t| <= |s|
    requires t == s[|s| - |t|..] && forall k :: 0 <= k < |s| - |t| ==> IsTrimSpace(s[k])
    requires r == t[..|r|] && forall k :: |r| <= k < |t| ==> IsTrimSpace(t[k])
    ensures IsTrimmedSlice(s, r, |s| - |t|)
  {
    var i := |s| - |t|;
    assert r == s[i..i + |r|];
    forall k | i + |r| <= k < |s|
      ensures IsTrimSpace(s[k])
    {
      assert s[k] == t[k - i];
    }
  }

  ghost predicate IsTrimmedSlice(s: string, r: string, i: int)
    requires 0 <= i <= |s| - |r|
  {
    && r == s[i..i + |r|]
    && (forall k :: 0 <= k < i ==> IsTrimSpace(s[k]))
    && (forall k :: i + |r| <= k < |s| ==> IsTrimSpace(s[k]))
  }

  /** `toUpperCase` on one character: ASCII `a`..`z` become `A`..`Z`. */
  function UpperChar(c: char): (u: char)
    ensures 'a' <= c <= 'z' ==> 'A' <= u <= 'Z' && u as int == c as int - 32
    ensures !('a' <= c <= 'z') ==> u == c
  {
    if 'a' <= c <= 'z' then (c as int - 32) as char else c
  }

  /** `s.toUpperCase()`, character by character. */
  function ToUpper(s: string): (r: string)
    ensures |r| == |s|
    ensures forall i :: 0 <= i < |s| ==> r[i] == UpperChar(s[i])
  {
    seq(|s|, i requires 0 <= i < |s| => UpperChar(s[i]))
  }

  /** `symbol.trim().toUpperCase()`: the form in which symbols are compared. */
  function NormalizeSymbol(s: string): string {
    ToUpper(Trim(s))
  }

  /** A normalised symbol is no longer than the input, is empty exactly
      when the input is all trim space, neither starts nor ends with trim
      space, and holds no ASCII lower-case letter. */
  lemma NormalizeSymbolSpec(s: string)
    ensures var r := NormalizeSymbol(s);
      && |r| <= |s|
      && (r == "" <==> forall k :: 0 <= k < |s| ==> IsTrimSpace(s[k]))
      && (|r| > 0 ==> !IsTrimSpace(r[0]) && !IsTrimSpace(r[|r| - 1]))
      && (forall k :: 0 <= k < |r| ==> !('a' <= r[k] <= 'z'))
  {
    TrimEmpty(s);
    UpperKeepsEnds(Trim(s));
  }

  /** A trim is empty exactly when the whole string is trim space. */
  lemma TrimEmpty(s: string)
    ensures |Trim(s)| <= |s|
    ensures Trim(s) == "" <==> forall k :: 0 <= k < |s| ==> IsTrimSpace(s[k])
  {
    var t := Trim(s);
    var i :| 0 <= i <= |s| - |t| && IsTrimmedSlice(s, t, i);
    assert t != "" ==> t[0] == s[i];
  }

  /** Upper-casing leaves no ASCII lower-case letter and keeps a
      non-space first or last character non-space. */
  lemma UpperKeepsEnds(t: string)
    ensures var u := ToUpper(t);
      && (forall k :: 0 <= k < |u| ==> !('a' <= u[k] <= 'z'))
      && (|t| > 0 && !IsTrimSpace(t[0]) ==> !IsTrimSpace(u[0]))
      && (|t| > 0 && !IsTrimSpace(t[|t| - 1]) ==> !IsTrimSpace(u[|u| - 1]))
  {
  }

  predicate IsNormalized(s: string) {
    NormalizeSymbol(s) == s
  }

  /** Upper-casing neither creates nor removes trim-space characters. */
  lemma UpperCharKeepsSpace(c: char)
    ensures IsTrimSpace(UpperChar(c)) <==> IsTrimSpace(c)
  {
  }

  /** A string without trim-space at its ends is its own trim. */
  lemma TrimOfTrimmed(s: string)
    requires |s| > 0 ==> !IsTrimSpace(s[0]) && !IsTrimSpace(s[|s| - 1])
    ensures Trim(s) == s
  {
  }

  /** Upper-casing keeps a trimmed string trimmed. */
  lemma UpperKeepsTrimmed(t: string)
    requires |t| > 0 ==> !IsTrimSpace(t[0]) && !IsTrimSpace(t[|t| - 1])
    ensures var u := ToUpper(t); |u| > 0 ==> !IsTrimSpace(u[0]) && !IsTrimSpace(u[|u| - 1])
  {
    if |t| > 0 {
      UpperCharKeepsSpace(t[0]);
      UpperCharKeepsSpace(t[|t| - 1]);
    }
  }

  lemma UpperIdempotent(t: string)
    ensures ToUpper(ToUpper(t)) == ToUpper(t)
  {
  }

  /** Normalising twice is normalising once. */
  lemma NormalizeIdempotent(s: string)
    ensures NormalizeSymbol(NormalizeSymbol(s)) == NormalizeSymbol(s)
  {
    var t := Trim(s);
    var u := ToUpper(t);
    UpperKeepsTrimmed(t);
    TrimOfTrimmed(u);
    assert NormalizeSymbol(u) == ToUpper(u);
    UpperIdempotent(t);
  }

  /** `sub` occurs in `s` starting at index `i`. */
  predicate OccursAt(s: string, sub: string, i: nat) {
    i + |sub| <= |s| && s[i..i + |sub|] == sub
  }

  /** `s.includes(sub)`. */
  predicate Contains(s: string, sub: string) {
    sub <= s || (|s| > 0 && Contains(s[1..], sub))
  }

  /** `Contains` agrees with the positional definition of a substring. */
  lemma ContainsIffOccurs(s: string, sub: string)
    ensures Contains(s, sub) <==> exists i: nat :: OccursAt(s, sub, i)
  {
    if Contains(s, sub) {
      var i := ContainsAt(s, sub);
    }
    if exists i: nat :: OccursAt(s, sub, i) {
      var i: nat :| OccursAt(s, sub, i);
      OccursContains(s, sub, i);
    }
  }

  /** A position at which a contained substring occurs. */
  lemma {:induction false} ContainsAt(s: string, sub: string) returns (i: nat)
    requires Contains(s, sub)
    ensures OccursAt(s, sub, i)
  {
    if sub <= s {
      i := 0;
    } else {
      var j := ContainsAt(s[1..], sub);
      assert s[1..][j..j + |sub|] == s[j + 1..j + 1 + |sub|];
      i := j + 1;
    }
  }

  lemma {:induction false} OccursContains(s: string, sub: string, i: nat)
    requires OccursAt(s, sub, i)
    ensures Contains(s, sub)
  {
    if i > 0 {
      assert s[1..][i - 1..i - 1 + |sub|] == s[i..i + |sub|];
      OccursContains(s[1..], sub, i - 1);
    }
  }

  /** Lexicographic order by Unicode scalar value. This is the order of
      `Array.prototype.sort` and of `<` on strings for text without
      characters beyond U+FFFF; JavaScript compares UTF-16 code units. */
  predicate LexLess(a: string, b: string) {
    if |a| == 0 then |b| > 0
    else if |b| == 0 then false
    else if a[0] != b[0] then a[0] < b[0]
    else LexLess(a[1..], b[1..])
  }

  lemma {:induction false} LexLessIrreflexive(a: string)
    ensures !LexLess(a, a)
  {
    if |a| > 0 {
      LexLessIrreflexive(a[1..]);
    }
  }

  lemma {:induction false} LexLessAsymmetric(a: string, b: string)
    ensures LexLess(a, b) ==> !LexLess(b, a)
  {
    if |a| > 0 && |b| > 0 && a[0] == b[0] {
      LexLessAsymmetric(a[1..], b[1..]);
    }
  }

  lemma {:induction false} LexLessTransitive(a: string, b: string, c: string)
    ensures LexLess(a, b) && LexLess(b, c) ==> LexLess(a, c)
  {
    if |a| > 0 && |b| > 0 && |c| > 0 && a[0] == b[0] == c[0] {
      LexLessTransitive(a[1..], b[1..], c[1..]);
    }
  }

  lemma {:induction false} LexLessTotal(a: string, b: string)
    ensures a != b ==> LexLess(a, b) || LexLess(b, a)
  {
    if |a| > 0 && |b| > 0 && a[0] == b[0] {
      LexLessTotal(a[1..], b[1..]);
      if a[1..] == b[1..] {
        assert a == [a[0]] + a[1..] && b == [b[0]] + b[1..];
      }
    }
  }

  /** `Math.round`: the nearest integer, halves rounded up. */
  function Round(x: real): (r: int)
    ensures x - 0.5 < r as real <= x + 0.5
  {
    (x + 0.5).Floor
  }

  function DigitChar(d: nat): (c: char)
    requires d < 10
    ensures '0' <= c <= '9'
  {
    ('0' as int + d) as char
  }

  /** Decimal digits of a natural number, as a template literal renders it. */
  function NatToString(n: nat): (r: string)
    ensures |r| > 0
    ensures forall i :: 0 <= i < |r| ==> '0' <= r[i] <= '9'
  {
    if n < 10 then [DigitChar(n)] else NatToString(n / 10) + [DigitChar(n % 10)]
  }

  /** Decimal rendering of an integer: a minus sign exactly for negatives. */
  function IntToString(n: int): (r: string)
    ensures |r| > 0
    ensures r[0] == '-' <==> n < 0
    ensures r[0] != '+'
  {
    if n < 0 then "-" + NatToString(-n) else NatToString(n)
  }

  /** The value of a string of decimal digits. */
  function DigitsValue(s: string): int
  {
    if s == [] then 0 else 10 * DigitsValue(Init(s)) + (Last(s) as int - '0' as int)
  }

  /** Reading back the digits gives the number rendered. */
  lemma {:induction false} NatToStringRoundTrip(n: nat)
    ensures DigitsValue(NatToString(n)) == n
  {
    if n >= 10 {
      NatToStringRoundTrip(n / 10);
      var s := NatToString(n);
      assert Init(s) == NatToString(n / 10);
    }
  }
}
