/**
 * The parts of `std::string` and of the C library that the krpc core relies on.
 * A `size_t` position `npos` read back into an `int` is -1, as the core does
 * (`int index = s.find('=')`), so every search here returns -1 for "not found".
 */
module StdString {
  import opened Basics

  /** `s.find(c, from)`: the first index at or after `from` that holds `c`, else -1. */
  function FindFrom(s: string, c: char, from: nat): (r: int)
    ensures r == -1 || from <= r < |s|
    ensures r == -1 <==> forall i :: from <= i < |s| ==> s[i] != c
    ensures r != -1 ==> s[r] == c && forall i :: from <= i < r ==> s[i] != c
    decreases |s| - from
  {
    if from >= |s| then -1
    else if s[from] == c then from
    else FindFrom(s, c, from + 1)
  }

  /** `s.find(c)`: the first index holding `c`, else -1. */
  function Find(s: string, c: char): (r: int)
    ensures r == -1 <==> c !in s
    ensures r != -1 ==> 0 <= r < |s| && s[r] == c && c !in s[..r]
  {
    FindFrom(s, c, 0)
  }

  /** `s.find_first_not_of(c)`: the first index not holding `c`, else -1. */
  function FindFirstNotOf(s: string, c: char): (r: int)
    ensures r == -1 || 0 <= r < |s|
    ensures r == -1 <==> forall i :: 0 <= i < |s| ==> s[i] == c
    ensures r != -1 ==> s[r] != c && forall i :: 0 <= i < r ==> s[i] == c
  {
    if s == [] then -1
    else if s[0] != c then 0
    else
      var k := FindFirstNotOf(s[1..], c);
      if k == -1 then -1 else k + 1
  }

  /** `s.find_last_not_of(c)`: the last index not holding `c`, else -1. */
  function FindLastNotOf(s: string, c: char): (r: int)
    ensures r == -1 || 0 <= r < |s|
    ensures r == -1 <==> forall i :: 0 <= i < |s| ==> s[i] == c
    ensures r != -1 ==> s[r] != c && forall i :: r < i < |s| ==> s[i] == c
  {
    if s == [] then -1
    else if s[|s| - 1] != c then |s| - 1
    else FindLastNotOf(s[..|s| - 1], c)
  }

  /**
   * `s.substr(pos, count)` with both arguments converted to `size_t`:
   * a negative `pos` or one past the end throws `std::out_of_range` (None);
   * a negative `count` wraps to a huge one, and every count is clamped to
   * the characters left.
   */
  function Substr(s: string, pos: int, count: int): (r: Option<string>)
    ensures r.Some? <==> 0 <= pos <= |s|
    ensures r.Some? && count >= 0 && pos + count <= |s| ==> r.value == s[pos..pos + count]
    ensures r.Some? && (count < 0 || pos + count > |s|) ==> r.value == s[pos..]
  {
    if pos < 0 || pos > |s| then None
    else if count < 0 || pos + count > |s| then Some(s[pos..])
    else Some(s[pos..pos + count])
  }

  /** `isspace` in the C locale. */
  predicate IsSpace(c: char)
  {
    c == ' ' || c == '\t' || c == '\n' || c == '\U{000B}' || c == '\U{000C}' || c == '\r'
  }

  predicate IsDigit(c: char)
  {
    '0' as int <= c as int <= '9' as int
  }

  /** The suffix of `s` left after its leading white space. */
  function SkipSpaces(s: string): string
  {
    if s != [] && IsSpace(s[0]) then SkipSpaces(s[1..]) else s
  }

  /** The longest prefix of `s` made of decimal digits. */
  function LeadingDigits(s: string): string
  {
    if s != [] && IsDigit(s[0]) then [s[0]] + LeadingDigits(s[1..]) else []
  }

  /** The value of a string of decimal digits, most significant first. */
  function DigitsValue(d: string): int
  {
    if d == [] then 0
    else 10 * DigitsValue(d[..|d| - 1]) + (d[|d| - 1] as int - '0' as int)
  }

  /**
   * C `atoi`: skip leading white space, read an optional sign and then as
   * many decimal digits as there are. No digits at all gives 0. The
   * mathematical value is returned; `int` overflow is not modelled.
   */
  function Atoi(s: string): int
  {
    var t := SkipSpaces(s);
    if t != [] && t[0] == '-' then -DigitsValue(LeadingDigits(t[1..]))
    else if t != [] && t[0] == '+' then DigitsValue(LeadingDigits(t[1..]))
    else DigitsValue(LeadingDigits(t))
  }

  /** The decimal rendering of `n`, without sign or leading zeros. */
  function ToDecimal(n: nat): (r: string)
    ensures r != [] && forall i :: 0 <= i < |r| ==> IsDigit(r[i])
  {
    if n < 10 then [('0' as int + n) as char]
    else ToDecimal(n / 10) + [('0' as int + n % 10) as char]
  }

  lemma {:induction false} DigitsValueOfDecimal(n: nat)
    ensures DigitsValue(ToDecimal(n)) == n
  {
    if n >= 10 {
      var d := ToDecimal(n);
      assert d[..|d| - 1] == ToDecimal(n / 10);
      DigitsValueOfDecimal(n / 10);
    }
  }

  /** `atoi` reads back a decimal rendering, whatever non-digit text follows it. */
  lemma AtoiOfDecimal(n: nat, rest: string)
    requires rest == [] || !IsDigit(rest[0])
    ensures Atoi(ToDecimal(n) + rest) == n
  {
    var d := ToDecimal(n);
    var s := d + rest;
    assert s[0] == d[0];
    assert SkipSpaces(s) == s;
    LeadingDigitsOfDigitsThen(d, rest);
    DigitsValueOfDecimal(n);
  }

  /**
   * `atoi` skips any leading white space and reads an optional sign before
   * the digits: a decimal rendering after white space reads back as itself,
   * after `+` as itself and after `-` as its negation.
   */
  lemma AtoiOfSignedDecimal(ws: string, n: nat, rest: string)
    requires forall i :: 0 <= i < |ws| ==> IsSpace(ws[i])
    requires rest == [] || !IsDigit(rest[0])
    ensures Atoi(ws + ToDecimal(n) + rest) == n
    ensures Atoi(ws + "+" + ToDecimal(n) + rest) == n
    ensures Atoi(ws + "-" + ToDecimal(n) + rest) == -(n as int)
  {
    var d := ToDecimal(n);
    assert ws + d + rest == ws + (d + rest);
    AtoiAfterSpaces(ws, d + rest);
    AtoiOfDecimal(n, rest);
    assert ws + "+" + d + rest == ws + ("+" + d + rest);
    AtoiAfterSpaces(ws, "+" + d + rest);
    AtoiOfSign('+', n, rest);
    assert ws + "-" + d + rest == ws + ("-" + d + rest);
    AtoiAfterSpaces(ws, "-" + d + rest);
    AtoiOfSign('-', n, rest);
  }

  lemma AtoiAfterSpaces(ws: string, t: string)
    requires forall i :: 0 <= i < |ws| ==> IsSpace(ws[i])
    requires t == [] || !IsSpace(t[0])
    ensures Atoi(ws + t) == Atoi(t)
  {
    SkipSpacesThen(ws, t);
    SkipSpacesThen([], t);
    assert [] + t == t;
  }

  lemma AtoiOfSign(sign: char, n: nat, rest: string)
    requires sign == '+' || sign == '-'
    requires rest == [] || !IsDigit(rest[0])
    ensures Atoi([sign] + ToDecimal(n) + rest) == if sign == '-' then -(n as int) else n
  {
    var d := ToDecimal(n);
    var t := [sign] + d + rest;
    SkipSpacesThen([], t);
    assert [] + t == t;
    assert t[1..] == d + rest;
    LeadingDigitsOfDigitsThen(d, rest);
    DigitsValueOfDecimal(n);
  }

  /** `atoi` of text with no digit after the white space and an optional sign is 0. */
  lemma AtoiOfNoDigits(ws: string, sign: string, rest: string)
    requires forall i :: 0 <= i < |ws| ==> IsSpace(ws[i])
    requires sign == "" || sign == "+" || sign == "-"
    requires rest == [] || (!IsDigit(rest[0]) && (sign == "" ==> !IsSpace(rest[0]) && rest[0] != '+' && rest[0] != '-'))
    ensures Atoi(ws + sign + rest) == 0
  {
    assert ws + sign + rest == ws + (sign + rest);
    if sign == "" {
      assert sign + rest == rest;
      SkipSpacesThen(ws, rest);
    } else {
      SkipSpacesThen(ws, sign + rest);
      assert (sign + rest)[1..] == rest;
    }
  }

  /** White space followed by text that does not start with white space skips to that text. */
  lemma {:induction false} SkipSpacesThen(ws: string, t: string)
    requires forall i :: 0 <= i < |ws| ==> IsSpace(ws[i])
    requires t == [] || !IsSpace(t[0])
    ensures SkipSpaces(ws + t) == t
  {
    if ws == [] {
      assert ws + t == t;
    } else {
      assert (ws + t)[1..] == ws[1..] + t;
      SkipSpacesThen(ws[1..], t);
    }
  }

  lemma {:induction false} LeadingDigitsOfDigitsThen(d: string, rest: string)
    requires forall i :: 0 <= i < |d| ==> IsDigit(d[i])
    requires rest == [] || !IsDigit(rest[0])
    ensures LeadingDigits(d + rest) == d
  {
    if d != [] {
      assert (d + rest)[1..] == d[1..] + rest;
      LeadingDigitsOfDigitsThen(d[1..], rest);
    } else {
      assert d + rest == rest;
    }
  }
}
