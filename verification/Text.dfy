/**
 Character and string primitives of the .NET runtime that the controller relies on:
 `Char.IsWhiteSpace`, `String.IsNullOrWhiteSpace`, `String.Trim`, `String.ToLower`
 (restricted to ASCII letters) and the decimal rendering of a non-negative `int`.
 */
module Text {
  import opened Wrappers

  /** `Char.IsWhiteSpace`: the Unicode space, line and paragraph separators,
      the control characters U+0009..U+000D and U+0085. */
  predicate IsWhiteSpace(c: char)
  {
    || ('\t' <= c <= '\r')
    || c == ' '
    || c == '\U{0085}'
    || c == '\U{00A0}'
    || c == '\U{1680}'
    || ('\U{2000}' <= c <= '\U{200A}')
    || c == '\U{2028}'
    || c == '\U{2029}'
    || c == '\U{202F}'
    || c == '\U{205F}'
    || c == '\U{3000}'
  }

  predicate AllWhiteSpace(s: string)
  {
    forall i :: 0 <= i < |s| ==> IsWhiteSpace(s[i])
  }

  /** `String.IsNullOrWhiteSpace`, with `None` standing for `null`: the text
      is null, or nothing is left of it once trimmed. */
  predicate IsNullOrWhiteSpace(s: Option<string>)
    ensures IsNullOrWhiteSpace(s) <==> s.None? || Trim(s.value) == ""
  {
    s.None? || AllWhiteSpace(s.value)
  }

  /** `String.TrimEnd()`: drops the longest all-whitespace suffix. */
  function TrimEnd(s: string): (r: string)
    ensures r <= s
    ensures |r| == 0 || !IsWhiteSpace(r[|r| - 1])
    ensures forall i :: |r| <= i < |s| ==> IsWhiteSpace(s[i])
  {
    if |s| == 0 || !IsWhiteSpace(s[|s| - 1]) then s else TrimEnd(s[..|s| - 1])
  }

  /** `String.TrimStart()`: drops the longest all-whitespace prefix. */
  function TrimStart(s: string): (r: string)
    ensures |r| <= |s| && r == s[|s| - |r|..]
    ensures |r| == 0 || !IsWhiteSpace(r[0])
    ensures forall i :: 0 <= i < |s| - |r| ==> IsWhiteSpace(s[i])
  {
    if |s| == 0 || !IsWhiteSpace(s[0]) then s else TrimStart(s[1..])
  }

  /** `String.Trim()`: the result is `s` with only leading and trailing
      whitespace removed; it neither starts nor ends with whitespace, it is
      empty exactly when `s` is all whitespace, and a string that already has
      no surrounding whitespace is returned unchanged. */
  function Trim(s: string): (r: string)
    ensures exists i :: InfixAt(s, r, i)
    ensures |r| == 0 || (!IsWhiteSpace(r[0]) && !IsWhiteSpace(r[|r| - 1]))
    ensures |r| == 0 <==> AllWhiteSpace(s)
    ensures |s| == 0 || (!IsWhiteSpace(s[0]) && !IsWhiteSpace(s[|s| - 1])) ==> r == s
  {
    TrimBothEnds(s);
    TrimIsInfix(s);
    TrimStart(TrimEnd(s))
  }

  /** `r` occurs in `s` at position `i` with only whitespace before and after it. */
  predicate InfixAt(s: string, r: string, i: int)
  {
    && 0 <= i <= i + |r| <= |s|
    && r == s[i..i + |r|]
    && AllWhiteSpace(s[..i])
    && AllWhiteSpace(s[i + |r|..])
  }

  lemma TrimIsInfix(s: string)
    ensures exists i :: InfixAt(s, TrimStart(TrimEnd(s)), i)
  {
    var e := TrimEnd(s);
    var r := TrimStart(e);
    InfixBetweenWhiteSpace(s, e, r);
  }

  /** A prefix of `s` followed only by whitespace, then a suffix of that
      prefix preceded only by whitespace, is an infix with only whitespace
      around it. */
  lemma InfixBetweenWhiteSpace(s: string, e: string, r: string)
    requires e <= s && forall k :: |e| <= k < |s| ==> IsWhiteSpace(s[k])
    requires |r| <= |e| && r == e[|e| - |r|..]
    requires forall k :: 0 <= k < |e| - |r| ==> IsWhiteSpace(e[k])
    ensures InfixAt(s, r, |e| - |r|)
  {
    var i := |e| - |r|;
    var head, tail := s[..i], s[|e|..];
    assert r == s[i..i + |r|];
    forall k | 0 <= k < |head|
      ensures IsWhiteSpace(head[k])
    {
      assert head[k] == e[k];
    }
    forall k | 0 <= k < |tail|
      ensures IsWhiteSpace(tail[k])
    {
      assert tail[k] == s[|e| + k];
    }
  }

  lemma TrimBothEnds(s: string)
    ensures var r := TrimStart(TrimEnd(s));
      && (|r| == 0 || (!IsWhiteSpace(r[0]) && !IsWhiteSpace(r[|r| - 1])))
      && (|r| == 0 <==> AllWhiteSpace(s))
  {
    var e := TrimEnd(s);
    var r := TrimStart(e);
    if |r| > 0 {
      assert r[|r| - 1] == e[|e| - 1];
      assert !IsWhiteSpace(r[0]);
      assert !AllWhiteSpace(s) by {
        assert r[0] == s[|e| - |r|];
      }
    } else {
      assert |e| == 0;
    }
  }

  /** `Char.ToLower` on ASCII letters; every other character is kept. */
  function LowerChar(c: char): char
  {
    if 'A' <= c <= 'Z' then (c as int - 'A' as int + 'a' as int) as char else c
  }

  /** `String.ToLower` restricted to ASCII: each upper-case ASCII letter becomes
      its lower-case partner, and every other character is kept in place. */
  function ToLower(s: string): (r: string)
    ensures |r| == |s|
    ensures forall i :: 0 <= i < |r| ==> !('A' <= r[i] <= 'Z')
    ensures forall i :: 0 <= i < |s| && !('A' <= s[i] <= 'Z') ==> r[i] == s[i]
    ensures forall i :: 0 <= i < |s| && 'A' <= s[i] <= 'Z' ==> r[i] as int == s[i] as int + ('a' as int - 'A' as int)
  {
    seq(|s|, i requires 0 <= i < |s| => LowerChar(s[i]))
  }

  /** A C# `null` string shown as the empty string, as `?? ""` and an
      `if (x != null) Append(x)` do; any other string is kept. */
  function OrEmpty(s: Option<string>): (t: string)
    ensures s.Some? ==> t == s.value
    ensures s.None? ==> t == ""
  {
    s.GetOr("")
  }

  /** Lower-casing twice is lower-casing once. */
  lemma ToLowerIdempotent(s: string)
    ensures ToLower(ToLower(s)) == ToLower(s)
  {
  }

  predicate IsDigit(c: char)
  {
    '0' <= c <= '9'
  }

  predicate AllDigits(s: string)
  {
    forall i :: 0 <= i < |s| ==> IsDigit(s[i])
  }

  function DigitChar(d: nat): (c: char)
    requires d < 10
  {
    (d + '0' as int) as char
  }

  function DigitValue(c: char): nat
    requires IsDigit(c)
  {
    c as int - '0' as int
  }

  /** `Int32.ToString()` of a non-negative value: decimal digits, no sign,
      no leading zero. */
  function NatToString(n: nat): (r: string)
    ensures |r| >= 1 && AllDigits(r)
    ensures |r| > 1 ==> r[0] != '0'
  {
    if n < 10 then [DigitChar(n)] else NatToString(n / 10) + [DigitChar(n % 10)]
  }

  /** The value of a string of decimal digits. */
  function ParseNat(s: string): nat
    requires AllDigits(s)
  {
    if |s| == 0 then 0 else 10 * ParseNat(s[..|s| - 1]) + DigitValue(s[|s| - 1])
  }

  /** Reading back the decimal rendering gives the number. */
  lemma {:induction false} ParseNatToString(n: nat)
    ensures ParseNat(NatToString(n)) == n
  {
    var r := NatToString(n);
    if n >= 10 {
      ParseNatToString(n / 10);
      assert r[..|r| - 1] == NatToString(n / 10);
    }
  }

}
