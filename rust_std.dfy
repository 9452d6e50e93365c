/** The pieces of Rust's standard library whose behaviour the tool relies on:
    `u32` arithmetic under the two overflow settings, `u32::from_str`,
    `u32::to_string` and `str::trim`. */
module RustStd {

  datatype Option<+T> = None | Some(value: T)

  datatype Result<+T, +E> = Ok(value: T) | Err(error: E)

  const U32_LIMIT: nat := 0x1_0000_0000
  const U16_LIMIT: nat := 0x1_0000

  /** Rust's `u32`. */
  type u32 = x: int | 0 <= x < 0x1_0000_0000

  /** Rust's overflow checks: on in a debug build (an arithmetic overflow
      panics), off in a release build (the operation wraps around). */
  datatype Build = Debug | Release

  /** Why the process panicked. */
  datatype Panic =
    | SliceOutOfBounds   // a `str` byte slice out of range or not on a char boundary
    | MulOverflow        // "attempt to multiply with overflow"
    | AddOverflow        // "attempt to add with overflow"
    | SubOverflow        // "attempt to subtract with overflow"
    | UnwrapOnErr        // `Result::unwrap` on an `Err`

  /** The `u32` result of an operation whose exact value is `exact`: the value
      itself when it fits, else a panic (debug) or the value modulo 2^32
      (release). Dafny's `%` is Euclidean, so a negative `exact` wraps exactly
      as a two's-complement subtraction does. */
  function Checked32(build: Build, exact: int): (r: Option<u32>)
    ensures r.None? <==> build == Debug && !(0 <= exact < U32_LIMIT)
    ensures r.Some? ==> r.value == exact % U32_LIMIT
    ensures 0 <= exact < U32_LIMIT ==> r == Some(exact)
  {
    if 0 <= exact < U32_LIMIT then Some(exact)
    else if build == Debug then None
    else Some(exact % U32_LIMIT)
  }

  /** `Ord::min`. */
  function Min(a: int, b: int): int {
    if a <= b then a else b
  }

  // ---------------------------------------------------------------------------
  // Decimal digits

  predicate IsDigit(c: char) {
    '0' <= c <= '9'
  }

  predicate AllDigits(s: string) {
    forall i :: 0 <= i < |s| ==> IsDigit(s[i])
  }

  function DigitValue(c: char): nat
    requires IsDigit(c)
  {
    (c as int) - ('0' as int)
  }

  function DigitChar(d: nat): (c: char)
    requires d < 10
    ensures IsDigit(c) && DigitValue(c) == d
  {
    (('0' as int) + d) as char
  }

  /** The number a run of decimal digits denotes, most significant first. */
  function DigitsValue(s: string): nat
    requires AllDigits(s)
  {
    if s == [] then 0 else DigitsValue(s[..|s| - 1]) * 10 + DigitValue(s[|s| - 1])
  }

  /** `u32::from_str`: an optional `+` followed by at least one ASCII digit,
      denoting a value below 2^32. A lone sign is rejected; `-` is never
      accepted for an unsigned type. */
  function ParseU32(s: string): (r: Option<u32>)
    ensures r.Some? ==> s != [] && (s[0] == '+' || IsDigit(s[0]))
    ensures r.Some? ==> forall i :: 0 < i < |s| ==> IsDigit(s[i])
  {
    if s == [] then None
    else if |s| == 1 && (s[0] == '+' || s[0] == '-') then None
    else
      var digits := if s[0] == '+' then s[1..] else s;
      if AllDigits(digits) && DigitsValue(digits) < U32_LIMIT then Some(DigitsValue(digits)) else None
  }

  /** `u32::to_string`: decimal, no sign, no leading zero. */
  function Decimal(n: nat): (s: string)
    ensures s != [] && AllDigits(s)
    ensures |s| > 1 ==> s[0] != '0'
  {
    if n < 10 then [DigitChar(n)] else Decimal(n / 10) + [DigitChar(n % 10)]
  }

  lemma {:induction false} DecimalValue(n: nat)
    ensures DigitsValue(Decimal(n)) == n
  {
    if n >= 10 {
      DecimalValue(n / 10);
      var s := Decimal(n);
      assert s[..|s| - 1] == Decimal(n / 10);
    }
  }

  /** Writing a `u32` with `to_string` and reading it back with `parse` gives
      the same number. */
  lemma DecimalRoundTrip(n: u32)
    ensures ParseU32(Decimal(n)) == Some(n)
  {
    DecimalValue(n);
  }

  /** A run of `k` zeros. */
  function Zeros(k: nat): (s: string)
    ensures |s| == k && AllDigits(s)
  {
    seq(k, _ => '0')
  }

  /** The way `u32::from_str` reads `n` may be written: an optional `+`, any
      number of leading zeros, then the decimal digits of `n`. */
  function Spelling(plus: bool, k: nat, n: nat): string {
    (if plus then "+" else "") + (Zeros(k) + Decimal(n))
  }

  ghost predicate Spells(s: string, n: nat) {
    exists plus: bool, k: nat :: s == Spelling(plus, k, n)
  }

  /** A digit run with no superfluous leading zero. */
  predicate Canonical(t: string) {
    t != [] && AllDigits(t) && (|t| > 1 ==> t[0] != '0')
  }

  lemma {:induction false} DigitsValueZeros(k: nat, t: string)
    requires AllDigits(t)
    ensures DigitsValue(Zeros(k) + t) == DigitsValue(t)
  {
    if t == [] {
      assert Zeros(k) + t == Zeros(k);
      if k > 0 {
        assert Zeros(k)[..k - 1] == Zeros(k - 1);
        DigitsValueZeros(k - 1, t);
        assert Zeros(k - 1) + t == Zeros(k - 1);
      }
    } else {
      var p := t[..|t| - 1];
      assert (Zeros(k) + t)[..|Zeros(k) + t| - 1] == Zeros(k) + p;
      DigitsValueZeros(k, p);
    }
  }

  lemma {:induction false} DigitsValueLeading(t: string)
    requires Canonical(t) && t[0] != '0'
    ensures DigitsValue(t) >= 1
  {
    if |t| > 1 {
      var p := t[..|t| - 1];
      assert p[0] == t[0];
      DigitsValueLeading(p);
    }
  }

  /** A digit run without superfluous zeros is what `to_string` writes for
      the number it denotes. */
  lemma {:induction false} DecimalOfCanonical(t: string)
    requires Canonical(t)
    ensures Decimal(DigitsValue(t)) == t
  {
    var p := t[..|t| - 1];
    if |t| == 1 {
      assert p == [];
      assert DigitChar(DigitValue(t[0])) == t[0];
    } else {
      assert p[0] == t[0];
      DigitsValueLeading(p);
      DecimalOfCanonical(p);
      var v := DigitsValue(t);
      assert v / 10 == DigitsValue(p) && v % 10 == DigitValue(t[|t| - 1]);
      assert DigitChar(DigitValue(t[|t| - 1])) == t[|t| - 1];
      assert t == p + [t[|t| - 1]];
    }
  }

  lemma ZerosCons(k: nat)
    ensures ['0'] + Zeros(k) == Zeros(k + 1)
  {
  }

  /** Every non-empty digit run is some zeros followed by a canonical run. */
  lemma {:induction false} StripZeros(d: string) returns (k: nat, t: string)
    requires d != [] && AllDigits(d)
    ensures d == Zeros(k) + t && Canonical(t)
  {
    if |d| > 1 && d[0] == '0' {
      var k1, t1 := StripZeros(d[1..]);
      ZerosCons(k1);
      assert d == ['0'] + d[1..];
      assert ['0'] + (Zeros(k1) + t1) == (['0'] + Zeros(k1)) + t1;
      k, t := k1 + 1, t1;
    } else {
      k, t := 0, d;
      assert d == Zeros(0) + d;
    }
  }

  /** A digit run denoting a `u32` parses, with or without a `+` in front. */
  lemma ParseDigits(d: string)
    requires d != [] && AllDigits(d) && DigitsValue(d) < U32_LIMIT
    ensures ParseU32(d) == Some(DigitsValue(d))
    ensures ParseU32("+" + d) == Some(DigitsValue(d))
  {
    assert IsDigit(d[0]);
    var s := "+" + d;
    assert |s| > 1 && s[0] == '+' && s[1..] == d;
  }

  /** `u32::from_str` accepts every spelling of a `u32`: with or without a
      `+`, with any number of leading zeros. */
  lemma ParseU32Accepts(plus: bool, k: nat, n: u32)
    ensures ParseU32(Spelling(plus, k, n)) == Some(n)
  {
    var d := Zeros(k) + Decimal(n);
    DecimalValue(n);
    DigitsValueZeros(k, Decimal(n));
    ParseDigits(d);
    assert plus ==> Spelling(plus, k, n) == "+" + d;
    assert !plus ==> Spelling(plus, k, n) == d;
  }

  /** What `u32::from_str` accepts spells the number it returns. */
  lemma ParseU32Sound(s: string)
    requires ParseU32(s).Some?
    ensures Spells(s, ParseU32(s).value)
  {
    var n := ParseU32(s).value;
    var d := if s[0] == '+' then s[1..] else s;
    assert d != [] && AllDigits(d) && DigitsValue(d) == n;
    var k, t := StripZeros(d);
    DigitsValueZeros(k, t);
    DecimalOfCanonical(t);
    if s[0] == '+' {
      assert s == Spelling(true, k, n);
    } else {
      assert s == Spelling(false, k, n);
    }
  }

  /** A spelling neither starts nor ends with whitespace. */
  lemma SpellingEnds(u: string, n: nat)
    requires Spells(u, n)
    ensures u != [] && !IsWhitespace(u[0]) && !IsWhitespace(u[|u| - 1])
  {
    var plus: bool, k: nat :| u == Spelling(plus, k, n);
    var d := Zeros(k) + Decimal(n);
    assert IsDigit(d[0]) && IsDigit(d[|d| - 1]);
    assert u[|u| - 1] == d[|d| - 1];
    assert u[0] == if plus then '+' else d[0];
  }

  /** `u32::from_str` accepts a text exactly when it spells a `u32`, and
      then returns that number. */
  lemma ParseU32Spells(s: string, n: u32)
    ensures ParseU32(s) == Some(n) <==> Spells(s, n)
  {
    if Spells(s, n) {
      var plus: bool, k: nat :| s == Spelling(plus, k, n);
      ParseU32Accepts(plus, k, n);
    }
    if ParseU32(s) == Some(n) {
      ParseU32Sound(s);
    }
  }

  // ---------------------------------------------------------------------------
  // Whitespace and trimming

  /** `char::is_whitespace`: the Unicode White_Space property. */
  predicate IsWhitespace(c: char) {
    var k := c as int;
    (0x09 <= k <= 0x0D) || k == 0x20 || k == 0x85 || k == 0xA0 || k == 0x1680
    || (0x2000 <= k <= 0x200A) || k == 0x2028 || k == 0x2029 || k == 0x202F
    || k == 0x205F || k == 0x3000
  }

  predicate AllWhitespace(s: string) {
    forall i :: 0 <= i < |s| ==> IsWhitespace(s[i])
  }

  /** `str::trim_start`: the suffix left after removing leading whitespace. */
  function TrimStart(s: string): (r: string)
  {
    if s != [] && IsWhitespace(s[0]) then TrimStart(s[1..]) else s
  }

  /** `str::trim_end`: the prefix left after removing trailing whitespace. */
  function TrimEnd(s: string): (r: string)
  {
    if s != [] && IsWhitespace(s[|s| - 1]) then TrimEnd(s[..|s| - 1]) else s
  }

  /** `str::trim`. */
  function Trim(s: string): string {
    TrimEnd(TrimStart(s))
  }

  /** Trimming the start keeps a suffix that does not start with whitespace
      and removes only whitespace. */
  lemma {:induction false} TrimStartShape(s: string)
    ensures var r := TrimStart(s);
            |r| <= |s| && r == s[|s| - |r|..] && AllWhitespace(s[..|s| - |r|])
            && (r == [] || !IsWhitespace(r[0]))
  {
    if s != [] && IsWhitespace(s[0]) {
      TrimStartShape(s[1..]);
      var r := TrimStart(s);
      assert s[1..][|s| - 1 - |r|..] == s[|s| - |r|..];
      assert forall i | 1 <= i < |s| - |r| :: s[i] == s[1..][..|s| - 1 - |r|][i - 1];
    }
  }

  /** Trimming the end keeps a prefix that does not end with whitespace and
      removes only whitespace. */
  lemma {:induction false} TrimEndShape(s: string)
    ensures var r := TrimEnd(s);
            |r| <= |s| && r == s[..|r|] && AllWhitespace(s[|r|..])
            && (r == [] || !IsWhitespace(r[|r| - 1]))
  {
    if s != [] && IsWhitespace(s[|s| - 1]) {
      var p := s[..|s| - 1];
      TrimEndShape(p);
      var r := TrimEnd(s);
      assert p[..|r|] == s[..|r|];
      assert forall i | |r| <= i < |s| - 1 :: s[i] == p[|r|..][i - |r|];
    }
  }

  lemma {:induction false} TrimStartPadded(pad: string, t: string)
    requires AllWhitespace(pad)
    requires t == [] || !IsWhitespace(t[0])
    ensures TrimStart(pad + t) == t
  {
    if pad != [] {
      assert (pad + t)[1..] == pad[1..] + t;
      TrimStartPadded(pad[1..], t);
    } else {
      assert pad + t == t;
    }
  }

  lemma {:induction false} TrimEndPadded(t: string, pad: string)
    requires AllWhitespace(pad)
    requires t == [] || !IsWhitespace(t[|t| - 1])
    ensures TrimEnd(t + pad) == t
  {
    if pad != [] {
      assert (t + pad)[..|t + pad| - 1] == t + pad[..|pad| - 1];
      TrimEndPadded(t, pad[..|pad| - 1]);
    } else {
      assert t + pad == t;
    }
  }

  /** Trimming removes exactly the whitespace padding around a text that
      neither starts nor ends with whitespace. */
  lemma TrimPadded(before: string, t: string, after: string)
    requires AllWhitespace(before) && AllWhitespace(after)
    requires t != [] && !IsWhitespace(t[0]) && !IsWhitespace(t[|t| - 1])
    ensures Trim(before + t + after) == t
  {
    assert before + t + after == before + (t + after);
    assert (t + after)[0] == t[0];
    TrimStartPadded(before, t + after);
    TrimEndPadded(t, after);
  }

  /** A `u32` written in decimal and padded with whitespace on either side
      (as an attribute file holding "255\n") reads back, after trimming, as
      the same number. */
  lemma DecimalTrimmed(before: string, n: u32, after: string)
    requires AllWhitespace(before) && AllWhitespace(after)
    ensures ParseU32(Trim(before + Decimal(n) + after)) == Some(n)
  {
    var s := Decimal(n);
    assert IsDigit(s[0]) && IsDigit(s[|s| - 1]);
    TrimPadded(before, s, after);
    DecimalRoundTrip(n);
  }
}
