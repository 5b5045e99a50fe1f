/** The string operations the salon code relies on: `toLowerCase`,
    `trim`, `includes`, number-to-text and the `parseInt` of an hour. */
module Text {

  import opened Types

  /** Lower-casing of one character, for the Latin letters A to Z. */
  function LowerChar(c: char): char
  {
    if 'A' <= c <= 'Z' then (c as int + 32) as char else c
  }

  /** `s.toLowerCase()`: every character lower-cased, the length kept. */
  function ToLower(s: string): (r: string)
    ensures |r| == |s|
    ensures forall i :: 0 <= i < |s| ==> r[i] == LowerChar(s[i])
  {
    seq(|s|, i requires 0 <= i < |s| => LowerChar(s[i]))
  }

  /** The characters `String.prototype.trim` strips: white space and line terminators. */
  predicate IsSpace(c: char)
  {
    || c == ' ' || c == '\t' || c == '\n' || c == '\r' || c == '\U{000B}' || c == '\U{000C}'
    || c == '\U{00A0}' || c == '\U{FEFF}' || c == '\U{1680}' || ('\U{2000}' <= c <= '\U{200A}')
    || c == '\U{2028}' || c == '\U{2029}' || c == '\U{202F}' || c == '\U{205F}' || c == '\U{3000}'
  }

  /** Drops the leading white space: the result is a suffix of `s` that does
      not start with white space, and everything dropped was white space. */
  function TrimStart(s: string): (r: string)
    ensures |r| <= |s| && r == s[|s| - |r|..]
    ensures r == [] || !IsSpace(r[0])
    ensures forall k :: 0 <= k < |s| - |r| ==> IsSpace(s[k])
  {
    if |s| > 0 && IsSpace(s[0]) then TrimStart(s[1..]) else s
  }

  /** Drops the trailing white space: the result is a prefix of `s` that does
      not end with white space, and everything dropped was white space. */
  function TrimEnd(s: string): (r: string)
    ensures |r| <= |s| && r == s[..|r|]
    ensures r == [] || !IsSpace(r[|r| - 1])
    ensures forall k :: |r| <= k < |s| ==> IsSpace(s[k])
  {
    if |s| > 0 && IsSpace(s[|s| - 1]) then TrimEnd(s[..|s| - 1]) else s
  }

  /** `s.trim()`: a slice of `s` without white space at either end, with only
      white space cut off. */
  function Trim(s: string): (r: string)
    ensures exists i :: OccursAt(s, r, i) && OnlySpaceOutside(s, i, i + |r|)
    ensures r == [] || (!IsSpace(r[0]) && !IsSpace(r[|r| - 1]))
  {
    var t := TrimStart(s);
    SuffixPrefixSlice(s, t, TrimEnd(t));
    TrimEnd(t)
  }

  /** A prefix `r` of a suffix `t` of `s`, where `s` has only white space
      before `t` and `t` only white space after `r`, is a slice of `s` with
      only white space around it. */
  lemma SuffixPrefixSlice(s: string, t: string, r: string)
    requires |t| <= |s| && t == s[|s| - |t|..]
    requires forall k :: 0 <= k < |s| - |t| ==> IsSpace(s[k])
    requires |r| <= |t| && r == t[..|r|]
    requires forall k :: |r| <= k < |t| ==> IsSpace(t[k])
    ensures OccursAt(s, r, |s| - |t|)
    ensures OnlySpaceOutside(s, |s| - |t|, |s| - |t| + |r|)
  {
    var i := |s| - |t|;
    assert r == s[i..i + |r|];
    forall k | 0 <= k < |s| && (k < i || i + |r| <= k)
      ensures IsSpace(s[k])
    {
      if k >= i { assert s[k] == t[k - i]; }
    }
  }

  /** Every character of `s` before `from` or from `to` on is white space. */
  ghost predicate OnlySpaceOutside(s: string, from: int, to: int)
  {
    forall k :: 0 <= k < |s| && (k < from || to <= k) ==> IsSpace(s[k])
  }

  /** `q` occurs in `s` starting at position `i`. */
  predicate OccursAt(s: string, q: string, i: int)
  {
    0 <= i <= |s| - |q| && s[i..i + |q|] == q
  }

  /** `s.startsWith(q)`. */
  predicate IsPrefix(q: string, s: string)
  {
    |q| <= |s| && s[..|q|] == q
  }

  /** `s.includes(q)`, scanning start positions from the left. */
  predicate Contains(s: string, q: string)
    decreases |s|
  {
    IsPrefix(q, s) || (|s| > 0 && Contains(s[1..], q))
  }

  /** `includes` holds exactly when `q` occurs at some position of `s`. */
  lemma {:induction false} ContainsAt(s: string, q: string)
    ensures Contains(s, q) <==> exists i :: OccursAt(s, q, i)
    decreases |s|
  {
    if |s| > 0 {
      ContainsAt(s[1..], q);
      if IsPrefix(q, s) {
        assert OccursAt(s, q, 0);
      }
      if Contains(s[1..], q) {
        var i :| OccursAt(s[1..], q, i);
        assert OccursAt(s, q, i + 1);
      }
      if i :| OccursAt(s, q, i) {
        if i > 0 {
          assert s[1..][i - 1..i - 1 + |q|] == s[i..i + |q|];
          assert OccursAt(s[1..], q, i - 1);
        } else {
          assert IsPrefix(q, s);
        }
      }
    } else {
      if Contains(s, q) {
        assert OccursAt(s, q, 0);
      }
    }
  }

  /** The empty query is contained in every string. */
  lemma ContainsEmpty(s: string)
    ensures Contains(s, [])
  {
    assert IsPrefix([], s);
  }

  /** `s || undefined`: an empty text is not stored. */
  function NonEmpty(s: string): (r: Option<string>)
    ensures r.None? <==> s == ""
    ensures r.Some? ==> r.value == s
  {
    if s == "" then None else Some(s)
  }

  /** `value || ''`: a missing text is shown empty. */
  function OrEmpty(value: Option<string>): (r: string)
    ensures value.None? ==> r == ""
    ensures value.Some? ==> r == value.value
  {
    if value.Some? then value.value else ""
  }

  /** Showing a stored text in a field and storing the field again gives
      back what was stored, except that an empty text is dropped. */
  lemma NonEmptyOrEmpty(value: Option<string>)
    ensures NonEmpty(OrEmpty(value)) == if value == Some("") then None else value
  {
  }

  /** The digit character of a value below 10. */
  function DigitChar(d: nat): (c: char)
    requires d < 10
    ensures '0' <= c <= '9'
  {
    ('0' as int + d) as char
  }

  predicate IsDigit(c: char)
  {
    '0' <= c <= '9'
  }

  predicate AllDigits(s: string)
  {
    forall i :: 0 <= i < |s| ==> IsDigit(s[i])
  }

  /** The value of a string of decimal digits, most significant first. */
  function DigitsValue(s: string): nat
    requires AllDigits(s)
  {
    if s == [] then 0
    else DigitsValue(s[..|s| - 1]) * 10 + (s[|s| - 1] as int - '0' as int)
  }

  /** `n.toString()` for a non-negative integer. */
  function NatToString(n: nat): (r: string)
    ensures |r| >= 1 && AllDigits(r)
    ensures |r| == 1 <==> n < 10
  {
    if n < 10 then [DigitChar(n)] else NatToString(n / 10) + [DigitChar(n % 10)]
  }

  /** Reading back the text of a number gives the number. */
  lemma {:induction false} NatToStringRoundTrip(n: nat)
    ensures DigitsValue(NatToString(n)) == n
  {
    var s := NatToString(n);
    if n >= 10 {
      NatToStringRoundTrip(n / 10);
      assert s[..|s| - 1] == NatToString(n / 10);
    }
  }

  /** A leading zero does not change the value of a digit string. */
  lemma {:induction false} LeadingZero(s: string)
    requires AllDigits(s)
    ensures AllDigits("0" + s) && DigitsValue("0" + s) == DigitsValue(s)
    decreases |s|
  {
    if s != [] {
      LeadingZero(s[..|s| - 1]);
      assert ("0" + s)[..|s|] == "0" + s[..|s| - 1];
    }
  }

  /** `s.padStart(2, '0')`. */
  function PadStart2(s: string): (r: string)
    ensures |r| == if |s| < 2 then 2 else |s|
    ensures r[|r| - |s|..] == s
    ensures forall k :: 0 <= k < |r| - |s| ==> r[k] == '0'
  {
    if |s| < 2 then seq(2 - |s|, _ => '0') + s else s
  }

  /** The longest prefix of `s` made of decimal digits. */
  function LeadingDigits(s: string): (r: string)
    ensures IsPrefix(r, s) && AllDigits(r)
    ensures |r| < |s| ==> !IsDigit(s[|r|])
  {
    if s != [] && IsDigit(s[0]) then [s[0]] + LeadingDigits(s[1..]) else []
  }

  /** `s.split(':')[0]`: the text before the first colon. */
  function BeforeColon(s: string): (r: string)
    ensures IsPrefix(r, s) && ':' !in r
    ensures |r| < |s| ==> s[|r|] == ':'
  {
    if s == [] || s[0] == ':' then [] else [s[0]] + BeforeColon(s[1..])
  }

  /** `parseInt(time.split(':')[0])`: None stands for `NaN` (no leading digit). */
  function HourOf(time: string): Option<nat>
  {
    var digits := LeadingDigits(BeforeColon(time));
    if digits == [] then None else Some(DigitsValue(digits))
  }

  /** The hour is `NaN` exactly when the time does not start with a digit. */
  lemma HourOfDefined(time: string)
    ensures HourOf(time).Some? <==> |time| > 0 && IsDigit(time[0])
  {
    var b := BeforeColon(time);
    if |time| > 0 && IsDigit(time[0]) {
      assert |b| > 0 && b[0] == time[0];
    }
  }
}
