/** The string operations the classifier and the renderer use:
    `toLowerCase`, `includes`, and the decimal text a template literal
    gives an integer. Strings are sequences of Unicode scalar values. */
module Strings {
  import opened Wrappers

  predicate IsUpper(c: char) {
    'A' <= c <= 'Z'
  }

  /** ASCII lower-casing of one character; every other character is kept. */
  function LowerChar(c: char): (r: char)
    ensures !IsUpper(r)
    ensures IsUpper(c) ==> r as int == c as int + 32
    ensures !IsUpper(c) ==> r == c
  {
    if IsUpper(c) then (c as int + 32) as char else c
  }

  /** `s.toLowerCase()`, restricted to the ASCII letters. */
  function Lower(s: string): (r: string)
    ensures |r| == |s|
  {
    if s == [] then [] else [LowerChar(s[0])] + Lower(s[1..])
  }

  /** Lower-casing maps each position of the string on its own. */
  lemma {:induction false} LowerAt(s: string)
    ensures forall k :: 0 <= k < |s| ==> Lower(s)[k] == LowerChar(s[k])
  {
    if s != [] {
      LowerAt(s[1..]);
    }
  }

  /** A string without upper-case ASCII letters is its own lower-case form. */
  lemma {:induction false} LowerKeepsLowercase(s: string)
    requires forall c :: c in s ==> !IsUpper(c)
    ensures Lower(s) == s
  {
    if s != [] {
      assert s[0] in s;
      assert forall c :: c in s[1..] ==> c in s;
      LowerKeepsLowercase(s[1..]);
    }
  }

  /** Lower-casing twice is lower-casing once. */
  lemma LowerIdempotent(s: string)
    ensures Lower(Lower(s)) == Lower(s)
  {
    var l := Lower(s);
    LowerAt(s);
    LowerAt(l);
    assert forall k :: 0 <= k < |s| ==> Lower(l)[k] == l[k];
  }

  /** `t` occurs in `s` starting at position `i`. */
  ghost predicate OccursAt(s: string, t: string, i: int) {
    0 <= i && i + |t| <= |s| && s[i..i + |t|] == t
  }

  /** Reference definition of "t is a substring of s". */
  ghost predicate IsSubstring(t: string, s: string) {
    exists i :: OccursAt(s, t, i)
  }

  predicate StartsWith(s: string, t: string) {
    |t| <= |s| && s[..|t|] == t
  }

  /** `s.includes(t)`: tries each starting position of `s` in turn. */
  function Includes(s: string, t: string): bool
  {
    if StartsWith(s, t) then true
    else if s == [] then false
    else Includes(s[1..], t)
  }

  /** Slicing after dropping the first element is slicing further right. */
  lemma DropSlice(s: string, i: nat, j: nat)
    requires 1 <= |s| && i <= j <= |s| - 1
    ensures s[1..][i..j] == s[i + 1..j + 1]
  {
    assert forall k :: 0 <= k < j - i ==> s[1..][i..j][k] == s[i + 1 + k];
  }

  /** `Includes` decides the substring relation, in both directions. */
  lemma {:induction false} IncludesIsSubstring(s: string, t: string)
    ensures Includes(s, t) <==> IsSubstring(t, s)
  {
    if StartsWith(s, t) {
      assert OccursAt(s, t, 0);
    } else if s == [] {
      assert forall i :: !OccursAt(s, t, i);
    } else {
      IncludesIsSubstring(s[1..], t);
      if Includes(s[1..], t) {
        var j :| OccursAt(s[1..], t, j);
        DropSlice(s, j, j + |t|);
        assert OccursAt(s, t, j + 1);
      }
      if IsSubstring(t, s) {
        var i :| OccursAt(s, t, i);
        assert i != 0;
        DropSlice(s, i - 1, i - 1 + |t|);
        assert OccursAt(s[1..], t, i - 1);
      }
    }
  }

  /** `t` is not a substring of `s` when it holds a character `s` lacks. */
  lemma MissingChar(s: string, t: string, c: char)
    requires c in t && c !in s
    ensures !IsSubstring(t, s)
  {
  }

  /** A string is never a substring of a shorter one. */
  lemma TooLong(s: string, t: string)
    requires |t| > |s|
    ensures !IsSubstring(t, s)
  {
  }

  /** The empty string is included in every string, as in JavaScript. */
  lemma IncludesEmpty(s: string)
    ensures Includes(s, "")
  {
  }

  predicate IsDigit(c: char) {
    '0' <= c <= '9'
  }

  function DigitChar(d: nat): (c: char)
    requires d < 10
    ensures IsDigit(c) && c as int - '0' as int == d
  {
    ('0' as int + d) as char
  }

  /** The decimal digits of `n`, without leading zeros. */
  function NatToString(n: nat): (r: string)
    ensures |r| > 0
    ensures forall k :: 0 <= k < |r| ==> IsDigit(r[k])
    ensures r[0] == '0' <==> n == 0
  {
    if n < 10 then [DigitChar(n)] else NatToString(n / 10) + [DigitChar(n % 10)]
  }

  /** Template-literal text of an integer: a minus sign, then the digits. */
  function IntToString(i: int): (r: string)
    ensures |r| > 0
    ensures r[0] == '-' <==> i < 0
  {
    if i < 0 then "-" + NatToString(-i) else NatToString(i)
  }

  /** The value of a string of decimal digits. */
  function DigitsValue(s: string): (v: int)
    requires forall k :: 0 <= k < |s| ==> IsDigit(s[k])
    ensures v >= 0
  {
    if s == [] then 0
    else
      assert IsDigit(s[|s| - 1]);
      DigitsValue(s[..|s| - 1]) * 10 + (s[|s| - 1] as int - '0' as int)
  }

  /** Reads back the text `IntToString` writes. */
  function ParseInt(s: string): (r: Option<int>)
    ensures r.Some? ==> |s| > 0
  {
    if |s| > 1 && s[0] == '-' && (forall k :: 1 <= k < |s| ==> IsDigit(s[k])) then
      Some(-DigitsValue(s[1..]))
    else if |s| > 0 && (forall k :: 0 <= k < |s| ==> IsDigit(s[k])) then
      Some(DigitsValue(s))
    else None
  }

  lemma {:induction false} NatToStringValue(n: nat)
    ensures DigitsValue(NatToString(n)) == n
  {
    if n >= 10 {
      var r := NatToString(n);
      NatToStringValue(n / 10);
      assert r[..|r| - 1] == NatToString(n / 10);
    }
  }

  /** Round trip: parsing the decimal text of an integer gives it back. */
  lemma IntToStringRoundTrip(i: int)
    ensures ParseInt(IntToString(i)) == Some(i)
  {
    if i < 0 {
      NatToStringValue(-i);
      var r := IntToString(i);
      assert r[1..] == NatToString(-i);
    } else {
      NatToStringValue(i);
    }
  }
}
