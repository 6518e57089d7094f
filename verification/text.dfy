/**
  Optional values, standing in for JavaScript's `undefined` / `null`.
 */
module Wrappers {

  datatype Option<+T> = None | Some(value: T)
}

/**
  The `Math.min` / `Math.max` of two integers.
 */
module Integers {

  function Min(a: int, b: int): (m: int)
    ensures m <= a && m <= b && (m == a || m == b)
  {
    if a <= b then a else b
  }

  function Max(a: int, b: int): (m: int)
    ensures m >= a && m >= b && (m == a || m == b)
  {
    if a >= b then a else b
  }
}

/**
  The string operations the front end relies on: `toLowerCase`, `includes`
  and the decimal rendering of a number inside a template literal.
 */
module Text {

  /** Lower-cases one character; only the ASCII letters A-Z are mapped. */
  function LowerChar(c: char): (l: char)
    ensures 'A' <= c <= 'Z' ==> l as int == c as int + 32
    ensures !('A' <= c <= 'Z') ==> l == c
    ensures !('A' <= l <= 'Z')
  {
    if 'A' <= c <= 'Z' then (c as int + 32) as char else c
  }

  /** `s.toLowerCase()`, character by character. */
  function ToLower(s: string): (l: string)
    ensures |l| == |s|
    ensures forall i :: 0 <= i < |s| ==> l[i] == LowerChar(s[i])
    ensures forall i :: 0 <= i < |s| && 'A' <= s[i] <= 'Z' ==> l[i] as int == s[i] as int + 32
    ensures forall i :: 0 <= i < |s| && !('A' <= s[i] <= 'Z') ==> l[i] == s[i]
    ensures forall i :: 0 <= i < |l| ==> !('A' <= l[i] <= 'Z')
  {
    seq(|s|, i requires 0 <= i < |s| => LowerChar(s[i]))
  }

  lemma ToLowerIdempotent(s: string)
    ensures ToLower(ToLower(s)) == ToLower(s)
  {
  }

  lemma ToLowerConcat(a: string, b: string)
    ensures ToLower(a + b) == ToLower(a) + ToLower(b)
  {
    assert forall i :: 0 <= i < |a + b| ==> ToLower(a + b)[i] == (ToLower(a) + ToLower(b))[i];
  }

  /** `pattern` occurs in `text` starting at position `i`. */
  ghost predicate OccursAt(text: string, pattern: string, i: int)
  {
    0 <= i && i + |pattern| <= |text| && text[i..i + |pattern|] == pattern
  }

  /** `pattern` occurs somewhere in `text`. */
  ghost predicate Occurs(text: string, pattern: string)
  {
    exists i :: OccursAt(text, pattern, i)
  }

  predicate StartsWith(text: string, pattern: string)
  {
    |pattern| <= |text| && text[..|pattern|] == pattern
  }

  /** `text.includes(pattern)`: scans the start positions from left to right. */
  function Contains(text: string, pattern: string): (found: bool)
    ensures found ==> |pattern| <= |text|
    ensures pattern == "" ==> found
    decreases |text|
  {
    StartsWith(text, pattern) || (|text| > 0 && Contains(text[1..], pattern))
  }

  /** An occurrence at position `i` is found by the scan. */
  lemma {:induction false} OccursImpliesContains(text: string, pattern: string, i: int)
    requires OccursAt(text, pattern, i)
    ensures Contains(text, pattern)
    decreases i
  {
    if i == 0 {
      assert StartsWith(text, pattern);
    } else {
      assert text[1..][i - 1..i - 1 + |pattern|] == text[i..i + |pattern|];
      OccursImpliesContains(text[1..], pattern, i - 1);
    }
  }

  /** What the scan finds does occur somewhere in the text. */
  lemma {:induction false} ContainsImpliesOccurs(text: string, pattern: string)
    requires Contains(text, pattern)
    ensures Occurs(text, pattern)
    decreases |text|
  {
    if StartsWith(text, pattern) {
      assert OccursAt(text, pattern, 0);
    } else {
      var rest := text[1..];
      ContainsImpliesOccurs(rest, pattern);
      var j :| OccursAt(rest, pattern, j);
      assert text[j + 1..j + 1 + |pattern|] == rest[j..j + |pattern|];
      assert OccursAt(text, pattern, j + 1);
    }
  }

  /** The scan finds exactly the patterns that occur somewhere in the text. */
  lemma ContainsIffOccurs(text: string, pattern: string)
    ensures Contains(text, pattern) <==> Occurs(text, pattern)
  {
    if Contains(text, pattern) {
      ContainsImpliesOccurs(text, pattern);
    }
    forall i | OccursAt(text, pattern, i)
      ensures Contains(text, pattern)
    {
      OccursImpliesContains(text, pattern, i);
    }
  }

  /** A found pattern is never longer than the text; in particular only "" is found in "". */
  lemma ContainsNotLonger(text: string, pattern: string)
    requires Contains(text, pattern)
    ensures |pattern| <= |text|
  {
    ContainsIffOccurs(text, pattern);
  }

  /** Every occurrence inside a part of a string is an occurrence in the whole string. */
  lemma ContainsInfix(pre: string, mid: string, post: string, pattern: string)
    requires Contains(mid, pattern)
    ensures Contains(pre + mid + post, pattern)
  {
    ContainsIffOccurs(mid, pattern);
    var j :| OccursAt(mid, pattern, j);
    var whole := pre + mid + post;
    assert whole[|pre| + j..|pre| + j + |pattern|] == mid[j..j + |pattern|];
    assert OccursAt(whole, pattern, |pre| + j);
    ContainsIffOccurs(whole, pattern);
  }

  /** Position `i` of `text` holds `pattern`: the witness form of `Contains`. */
  lemma ContainsAt(text: string, pattern: string, i: nat)
    requires i + |pattern| <= |text|
    requires text[i..i + |pattern|] == pattern
    ensures Contains(text, pattern)
  {
    assert OccursAt(text, pattern, i);
    ContainsIffOccurs(text, pattern);
  }

  /** Concatenates the lines in order. */
  function Concat(lines: seq<string>): string
  {
    if lines == [] then "" else Concat(lines[..|lines| - 1]) + lines[|lines| - 1]
  }

  /** A pattern found in one lower-cased line is found in the lower-cased whole. */
  lemma {:induction false} ContainsLoweredLine(lines: seq<string>, i: nat, pattern: string)
    requires i < |lines|
    requires Contains(ToLower(lines[i]), pattern)
    ensures Contains(ToLower(Concat(lines)), pattern)
    decreases |lines|
  {
    var init, last := lines[..|lines| - 1], lines[|lines| - 1];
    ToLowerConcat(Concat(init), last);
    if i == |lines| - 1 {
      ContainsInfix(ToLower(Concat(init)), ToLower(last), "", pattern);
      assert ToLower(Concat(init)) + ToLower(last) + "" == ToLower(Concat(lines));
    } else {
      assert init[i] == lines[i];
      ContainsLoweredLine(init, i, pattern);
      ContainsInfix("", ToLower(Concat(init)), ToLower(last), pattern);
      assert "" + ToLower(Concat(init)) + ToLower(last) == ToLower(Concat(lines));
    }
  }

  predicate IsDigit(c: char)
  {
    '0' <= c <= '9'
  }

  function DigitChar(d: nat): (c: char)
    requires d < 10
    ensures IsDigit(c)
    ensures c as int - '0' as int == d
  {
    ('0' as int + d) as char
  }

  /** The decimal rendering of a natural number, as `${n}` produces it. */
  function Show(n: nat): (s: string)
    ensures 1 <= |s|
    ensures |s| == 1 <==> n < 10
    ensures forall i :: 0 <= i < |s| ==> IsDigit(s[i])
    ensures s[|s| - 1] == DigitChar(n % 10)
  {
    if n < 10 then [DigitChar(n)] else Show(n / 10) + [DigitChar(n % 10)]
  }

  /** Different numbers are rendered differently. */
  lemma {:induction false} ShowInjective(a: nat, b: nat)
    requires Show(a) == Show(b)
    ensures a == b
  {
    var sa, sb := Show(a), Show(b);
    assert DigitChar(a % 10) == DigitChar(b % 10);
    if a >= 10 && b >= 10 {
      assert sa[..|sa| - 1] == Show(a / 10);
      assert sb[..|sb| - 1] == Show(b / 10);
      ShowInjective(a / 10, b / 10);
    }
  }

  /** `prefix + Show(a)` and `prefix + Show(b)` differ when `a` and `b` do. */
  lemma PrefixedShowInjective(prefix: string, a: nat, b: nat)
    requires prefix + Show(a) == prefix + Show(b)
    ensures a == b
  {
    assert Show(a) == (prefix + Show(a))[|prefix|..];
    assert Show(b) == (prefix + Show(b))[|prefix|..];
    ShowInjective(a, b);
  }
}
