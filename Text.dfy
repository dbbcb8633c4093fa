/**
 * The few Python string operations the bot relies on, over ASCII text:
 * `str.strip()`, `str.strip(chars)`, `str.isdigit()`, `int(...)` and, as the
 * partner of `int`, decimal rendering `str(n)`.
 */
module Text {
  import opened Wrappers

  /**
   * The ASCII characters `str.strip()` and `int()` treat as whitespace: blank,
   * tab, line feed, carriage return, vertical tab, form feed, and the four
   * separators 0x1C to 0x1F.
   */
  const Whitespace: set<char> := {' ', '\t', '\n', '\r', 11 as char, 12 as char, 28 as char, 29 as char, 30 as char, 31 as char}

  /** Every character of `s` belongs to `cs`. */
  predicate AllIn(s: string, cs: set<char>) {
    forall i :: 0 <= i < |s| ==> s[i] in cs
  }

  /**
   * Python's `s.strip(chars)`: the middle of `s` left after removing every
   * leading and every trailing character that belongs to `cs`.
   */
  function StripChars(s: string, cs: set<char>): (r: string)
    ensures |r| <= |s|
    ensures r == [] || (r[0] !in cs && r[|r| - 1] !in cs)
    decreases |s|
  {
    if |s| > 0 && s[0] in cs then StripChars(s[1..], cs)
    else if |s| > 0 && s[|s| - 1] in cs then StripChars(s[..|s| - 1], cs)
    else s
  }

  /** Python's `s.strip()`. */
  function Strip(s: string): string {
    StripChars(s, Whitespace)
  }

  /** Stripping `t + b` removes exactly `b` when `t` neither starts nor ends with a stripped character. */
  lemma {:induction false} StripCharsTail(t: string, b: string, cs: set<char>)
    requires AllIn(b, cs)
    requires t == [] || (t[0] !in cs && t[|t| - 1] !in cs)
    ensures StripChars(t + b, cs) == t
    decreases |b|
  {
    var s := t + b;
    if b == [] {
      assert s == t;
    } else if t == [] {
      assert s == b && s[0] in cs;
      assert AllIn(b[1..], cs) by {
        forall i | 0 <= i < |b[1..]| ensures b[1..][i] in cs {
          assert b[1..][i] == b[i + 1];
        }
      }
      StripCharsTail([], b[1..], cs);
      assert [] + b[1..] == b[1..];
    } else {
      assert s[0] == t[0];
      assert s[|s| - 1] == b[|b| - 1];
      assert s[..|s| - 1] == t + b[..|b| - 1];
      StripCharsTail(t, b[..|b| - 1], cs);
    }
  }

  /**
   * The reference characterisation of `strip(chars)`: whatever text `r` with
   * no stripped character at either end is surrounded by stripped
   * characters, stripping gives back exactly `r`.
   */
  lemma {:induction false} StripCharsOf(a: string, r: string, b: string, cs: set<char>)
    requires AllIn(a, cs) && AllIn(b, cs)
    requires r == [] || (r[0] !in cs && r[|r| - 1] !in cs)
    ensures StripChars(a + r + b, cs) == r
    decreases |a|
  {
    if a == [] {
      assert a + r + b == r + b;
      StripCharsTail(r, b, cs);
    } else {
      var s := a + r + b;
      assert s[0] == a[0];
      assert s[1..] == a[1..] + r + b;
      StripCharsOf(a[1..], r, b, cs);
    }
  }

  /** `Strip(a + r + b) == r` for text `r` that neither starts nor ends with whitespace. */
  lemma StripsTo(a: string, r: string, b: string)
    requires AllIn(a, Whitespace) && AllIn(b, Whitespace)
    requires r != [] && r[0] !in Whitespace && r[|r| - 1] !in Whitespace
    ensures Strip(a + r + b) == r
  {
    StripCharsOf(a, r, b, Whitespace);
  }

  /** Stripping twice is stripping once. */
  lemma StripCharsIdempotent(s: string, cs: set<char>)
    ensures StripChars(StripChars(s, cs), cs) == StripChars(s, cs)
  {
    var r := StripChars(s, cs);
    assert [] + r + [] == r;
    StripCharsOf([], r, [], cs);
  }

  predicate IsDigit(c: char) {
    '0' <= c <= '9'
  }

  /** Python's `str.isdigit()` over ASCII: non-empty and made of digits only. */
  predicate IsDigits(s: string) {
    |s| > 0 && forall i :: 0 <= i < |s| ==> IsDigit(s[i])
  }

  /** The value of a run of decimal digits, most significant first. */
  function DecimalValue(s: string): nat
    requires forall i :: 0 <= i < |s| ==> IsDigit(s[i])
  {
    if s == [] then 0
    else
      assert IsDigit(s[|s| - 1]);
      DecimalValue(s[..|s| - 1]) * 10 + ((s[|s| - 1] as int) - ('0' as int))
  }

  /** An optional sign followed by at least one decimal digit, and nothing else. */
  function ParseSigned(t: string): Option<int> {
    if |t| > 0 && (t[0] == '+' || t[0] == '-') && IsDigits(t[1..]) then
      var v: int := DecimalValue(t[1..]);
      Some(if t[0] == '-' then -v else v)
    else if IsDigits(t) then Some(DecimalValue(t))
    else None
  }

  /**
   * The texts `int()` accepts once stripped, character by character: at least
   * one character, each an ASCII digit, except that the first may be a `+` or
   * `-` sign when digits follow it.
   */
  predicate IntPattern(t: string) {
    |t| >= 1 && forall i :: 0 <= i < |t| ==> IsDigit(t[i]) || (i == 0 && |t| >= 2 && (t[0] == '+' || t[0] == '-'))
  }

  /** A signed decimal is read iff the text has the integer format. */
  lemma ParseSignedShape(t: string)
    ensures ParseSigned(t).Some? <==> IntPattern(t)
  {
    if ParseSigned(t).Some? {
      if |t| > 0 && (t[0] == '+' || t[0] == '-') && IsDigits(t[1..]) {
        forall i | 1 <= i < |t|
          ensures IsDigit(t[i])
        {
          assert t[i] == t[1..][i - 1];
        }
      }
    }
  }

  /**
   * Python's `int(s)` on ASCII text: surrounding whitespace is ignored, then an
   * optional sign and at least one decimal digit; anything else is the
   * `ValueError` the source catches, here `None`.
   */
  function ParseInt(s: string): Option<int> {
    ParseSigned(Strip(s))
  }

  /**
   * `int(s)` gives a value iff the stripped text has the integer format:
   * every other text, such as `"n/a"`, `"50%"`, `"4.5"` or `""`, is the
   * `ValueError` case.
   */
  lemma ParseIntShape(s: string)
    ensures ParseInt(s).Some? <==> IntPattern(Strip(s))
  {
    ParseSignedShape(Strip(s));
  }

  function DigitChar(d: nat): (c: char)
    requires d < 10
    ensures IsDigit(c)
  {
    (('0' as int) + d) as char
  }

  /** Python's `str(n)` for a natural number. */
  function ShowNat(n: nat): (s: string)
    ensures IsDigits(s)
    decreases n
  {
    if n < 10 then [DigitChar(n)] else ShowNat(n / 10) + [DigitChar(n % 10)]
  }

  /** Python's `str(n)` for any integer. */
  function ShowInt(n: int): (s: string)
    ensures |s| > 0 && IsDigit(s[|s| - 1])
    ensures s[0] == '-' || IsDigit(s[0])
  {
    if n < 0 then "-" + ShowNat(-n) else ShowNat(n)
  }

  lemma {:induction false} DecimalValueOfShowNat(n: nat)
    ensures DecimalValue(ShowNat(n)) == n
    decreases n
  {
    var s := ShowNat(n);
    if n >= 10 {
      assert s[..|s| - 1] == ShowNat(n / 10);
      DecimalValueOfShowNat(n / 10);
    }
  }

  /** Decimal renderings carry no surrounding whitespace. */
  lemma StripShowInt(n: int)
    ensures Strip(ShowInt(n)) == ShowInt(n)
  {
    var s := ShowInt(n);
    assert [] + s + [] == s;
    StripCharsOf([], s, [], Whitespace);
  }

  /** `int` reads back what `str` writes: `int(str(n)) == n` for every integer. */
  lemma ParseShowInt(n: int)
    ensures ParseInt(ShowInt(n)) == Some(n)
  {
    ParseSignedShowInt(n);
    StripShowInt(n);
  }

  lemma ParseSignedShowInt(n: int)
    ensures ParseSigned(ShowInt(n)) == Some(n)
  {
    var s := ShowInt(n);
    if n < 0 {
      assert s[1..] == ShowNat(-n);
      DecimalValueOfShowNat(-n);
    } else {
      DecimalValueOfShowNat(n);
    }
  }
}
