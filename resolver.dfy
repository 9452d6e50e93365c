/** The value resolver: `parse_value`, which reads an adjustment expression
    `[+|-]digits[%]` and turns it into a concrete brightness for a device
    whose current brightness is `b` and maximum is `mb`. */
module Resolver {
  import opened RustStd

  /** How the magnitude is applied: set, increase or decrease. */
  datatype Adj = Abs | Pos | Neg

  /** A resolved adjustment. */
  datatype Value = Value(adj: Adj, qty: u32, per: bool)

  /** A command-line argument as the operating system hands it over: valid
      UTF-8 text, or bytes that are not. */
  datatype OsText = Utf8(text: string) | NonUtf8

  /** `NotUnicode` and `InvalidNumber` are the errors `parse_value` returns;
      `Panicked` is a panic inside it, which ends the process. */
  datatype ResolveError = NotUnicode | InvalidNumber | Panicked(panic: Panic)

  predicate IsAscii(c: char) {
    (c as int) < 0x80
  }

  /** The byte slices `str[0..1]` and `str[len-1..len]` are in range and on
      character boundaries: the text is not empty and its first and last
      characters take one byte each in UTF-8. */
  predicate Sliceable(s: string) {
    s != [] && IsAscii(s[0]) && IsAscii(s[|s| - 1])
  }

  /** An expression taken apart: its mode, the digit run and the percent flag. */
  datatype Shape = Shape(adj: Adj, digits: string, per: bool)

  function SignText(adj: Adj): string {
    match adj
    case Abs => ""
    case Pos => "+"
    case Neg => "-"
  }

  function PercentText(per: bool): string {
    if per then "%" else ""
  }

  /** The expression a shape is written as. */
  function Compose(shape: Shape): string {
    SignText(shape.adj) + shape.digits + PercentText(shape.per)
  }

  /** The first half of `parse_value`: a leading `+` or `-` picks the mode, a
      trailing `%` the percent flag, and the digit run is what lies between. */
  function Split(s: string): (r: Shape)
    requires Sliceable(s)
    ensures r.adj == Pos <==> s[0] == '+'
    ensures r.adj == Neg <==> s[0] == '-'
    ensures r.per <==> s[|s| - 1] == '%'
    ensures Compose(r) == s
  {
    var (adj, sdx) := if s[0] == '+' then (Pos, 1) else if s[0] == '-' then (Neg, 1) else (Abs, 0);
    var (edx, per) := if s[|s| - 1] == '%' then (|s| - 1, true) else (|s|, false);
    Shape(adj, s[sdx..edx], per)
  }

  /** Splitting undoes composing, as long as the digit run cannot be mistaken
      for a sign (when there is none) or for a percent sign (when there is none). */
  lemma SplitCompose(shape: Shape)
    requires Sliceable(Compose(shape))
    requires shape.adj == Abs && shape.digits != [] ==> shape.digits[0] != '+' && shape.digits[0] != '-'
    requires !shape.per && shape.digits != [] ==> shape.digits[|shape.digits| - 1] != '%'
    ensures Split(Compose(shape)) == shape
  {
    var s := Compose(shape);
    var sign, pct := SignText(shape.adj), PercentText(shape.per);
    assert s == sign + shape.digits + pct;
    assert s[|sign|..|s| - |pct|] == shape.digits;
  }

  /** The magnitude in brightness units: `val` itself, or `(val * mb) / 100`
      (truncating) for a percentage. */
  function Scaled(build: Build, per: bool, val: u32, mb: u32): (r: Result<u32, Panic>)
    ensures r.Err? <==> build == Debug && per && val * mb >= U32_LIMIT
    ensures r.Err? ==> r.error == MulOverflow
    ensures r.Ok? && !per ==> r.value == val
    ensures r.Ok? && per ==> r.value == ((val * mb) % U32_LIMIT) / 100
  {
    if !per then Ok(val)
    else
      match Checked32(build, val * mb)
      case None => Err(MulOverflow)
      case Some(p) => Ok(p / 100)
  }

  /** The second half of `parse_value`: the match on the percent flag and the
      mode. Setting and increasing are capped at `mb`; decreasing is a bare
      `u32` subtraction. */
  function Quantity(build: Build, adj: Adj, per: bool, val: u32, b: u32, mb: u32): (r: Result<u32, Panic>)
    ensures r.Ok? && adj != Neg ==> r.value <= mb
    ensures r.Ok? && adj == Neg && build == Debug ==> r.value <= b
    ensures r.Err? ==> build == Debug
  {
    match Scaled(build, per, val, mb)
    case Err(p) => Err(p)
    case Ok(x) =>
      match adj
      case Abs => Ok(Min(mb, x))
      case Pos =>
        (match Checked32(build, b + x)
         case None => Err(AddOverflow)
         case Some(sum) => Ok(Min(mb, sum)))
      case Neg =>
        (match Checked32(build, b - x)
         case None => Err(SubOverflow)
         case Some(diff) => Ok(diff))
  }

  /** `parse_value`. */
  function Resolve(build: Build, arg: OsText, b: u32, mb: u32): (r: Result<Value, ResolveError>)
    ensures r == Err(NotUnicode) <==> arg.NonUtf8?
    ensures r == Err(Panicked(SliceOutOfBounds)) <==> arg.Utf8? && !Sliceable(arg.text)
    ensures r == Err(InvalidNumber) <==>
              arg.Utf8? && Sliceable(arg.text) && ParseU32(Split(arg.text).digits).None?
    ensures r.Ok? ==> arg.Utf8? && Sliceable(arg.text)
                      && r.value.adj == Split(arg.text).adj && r.value.per == Split(arg.text).per
    ensures r.Ok? && r.value.adj != Neg ==> r.value.qty <= mb
    ensures arg.Utf8? && Sliceable(arg.text) && ParseU32(Split(arg.text).digits).Some? ==>
              var shape := Split(arg.text);
              var q := Quantity(build, shape.adj, shape.per, ParseU32(shape.digits).value, b, mb);
              (q.Ok? ==> r == Ok(Value(shape.adj, q.value, shape.per)))
              && (q.Err? ==> r == Err(Panicked(q.error)))
  {
    match arg
    case NonUtf8 => Err(NotUnicode)
    case Utf8(s) =>
      if !Sliceable(s) then Err(Panicked(SliceOutOfBounds))
      else
        var shape := Split(s);
        match ParseU32(shape.digits)
        case None => Err(InvalidNumber)
        case Some(val) =>
          match Quantity(build, shape.adj, shape.per, val, b, mb)
          case Err(p) => Err(Panicked(p))
          case Ok(q) => Ok(Value(shape.adj, q, shape.per))
  }

  // ---------------------------------------------------------------------------
  // The intended formulas, over unbounded integers: setting and increasing
  // capped at the maximum, decreasing a bare difference, percentages
  // truncated

  /** The magnitude in brightness units, without a width limit. */
  function IntendedMagnitude(per: bool, v: nat, mb: nat): nat {
    if per then v * mb / 100 else v
  }

  /** The quantity the intended formulas give for each mode. */
  function IntendedQuantity(adj: Adj, per: bool, v: nat, b: nat, mb: nat): int {
    var x := IntendedMagnitude(per, v, mb);
    match adj
    case Abs => Min(mb, x)
    case Pos => Min(mb, b + x)
    case Neg => b - x
  }

  /** Every intermediate value of the computation fits a `u32`. */
  predicate InRange(adj: Adj, per: bool, v: nat, b: nat, mb: nat) {
    var x := IntendedMagnitude(per, v, mb);
    (per ==> v * mb < U32_LIMIT)
    && (adj == Pos ==> b + x < U32_LIMIT)
    && (adj == Neg ==> x <= b)
  }

  /** With overflow checks on, the computation succeeds exactly when every
      intermediate value fits, and then it yields the intended quantity. */
  lemma DebugFollowsFormulas(adj: Adj, per: bool, val: u32, b: u32, mb: u32)
    ensures Quantity(Debug, adj, per, val, b, mb).Ok? <==> InRange(adj, per, val, b, mb)
    ensures InRange(adj, per, val, b, mb) ==>
              Quantity(Debug, adj, per, val, b, mb) == Ok(IntendedQuantity(adj, per, val, b, mb))
  {
    var x := IntendedMagnitude(per, val, mb);
    if per && val * mb < U32_LIMIT {
      assert Scaled(Debug, per, val, mb) == Ok(x);
    }
    if !per {
      assert Scaled(Debug, per, val, mb) == Ok(x);
    }
  }

  /** With overflow checks off, scaling never fails, and while the product
      fits it gives the intended magnitude. */
  /** With overflow checks off, scaling always yields a magnitude, and the
      intended one whenever the product fits. */
  lemma ReleaseScaled(per: bool, val: u32, mb: u32)
    ensures Scaled(Release, per, val, mb).Ok?
    ensures (per ==> val * mb < U32_LIMIT) ==> Scaled(Release, per, val, mb) == Ok(IntendedMagnitude(per, val, mb))
  {
  }

  /** With overflow checks off, each mode applies the magnitude with
      wrapping `u32` arithmetic. */
  lemma ReleaseApplies(adj: Adj, per: bool, val: u32, b: u32, mb: u32)
    ensures Scaled(Release, per, val, mb).Ok?
    ensures var x := Scaled(Release, per, val, mb).value;
            Quantity(Release, adj, per, val, b, mb)
            == Ok(match adj
                  case Abs => Min(mb, x)
                  case Pos => Min(mb, (b + x) % U32_LIMIT)
                  case Neg => (b - x) % U32_LIMIT)
  {
  }

  /** With overflow checks off, the computation never fails; when the product
      and the sum fit, the result is the intended quantity modulo 2^32, so an
      oversized decrease wraps around rather than stopping at zero. */
  lemma ReleaseWraps(adj: Adj, per: bool, val: u32, b: u32, mb: u32)
    ensures Quantity(Release, adj, per, val, b, mb).Ok?
    ensures (per ==> val * mb < U32_LIMIT)
            && (adj == Pos ==> b + IntendedMagnitude(per, val, mb) < U32_LIMIT) ==>
              Quantity(Release, adj, per, val, b, mb)
              == Ok(IntendedQuantity(adj, per, val, b, mb) % U32_LIMIT)
  {
    ReleaseApplies(adj, per, val, b, mb);
    var x := IntendedMagnitude(per, val, mb);
    if (per ==> val * mb < U32_LIMIT) && (adj == Pos ==> b + x < U32_LIMIT) {
      ReleaseScaled(per, val, mb);
      assert Scaled(Release, per, val, mb).value == x;
      var want := IntendedQuantity(adj, per, val, b, mb);
      match adj {
        case Abs =>
          assert want == Min(mb, x) == want % U32_LIMIT;
        case Pos =>
          assert (b + x) % U32_LIMIT == b + x;
          assert want == Min(mb, b + x) == want % U32_LIMIT;
        case Neg =>
          assert want == b - x;
      }
    }
  }

  /** An expression written as a mode sign, a number `u32::from_str` reads
      as `v`, and an optional `%` is taken apart into exactly those pieces. */
  lemma SplitWritten(adj: Adj, ds: string, per: bool, v: u32)
    requires ParseU32(ds) == Some(v)
    requires adj == Abs ==> ds[0] != '+'
    ensures Sliceable(Compose(Shape(adj, ds, per)))
    ensures Split(Compose(Shape(adj, ds, per))) == Shape(adj, ds, per)
  {
    var s := Compose(Shape(adj, ds, per));
    var sign, pct := SignText(adj), PercentText(per);
    assert s == sign + ds + pct;
    assert s[0] == if adj == Abs then ds[0] else sign[0];
    assert s[|s| - 1] == if per then '%' else ds[|ds| - 1];
    assert |ds| > 1 ==> IsDigit(ds[|ds| - 1]);
    SplitCompose(Shape(adj, ds, per));
  }

  /** `parse_value` end to end, debug build: a written expression resolves
      exactly when every intermediate value fits a `u32`, and then to the
      intended quantity; otherwise the process panics. */
  lemma ResolveDebug(adj: Adj, ds: string, per: bool, v: u32, b: u32, mb: u32)
    requires ParseU32(ds) == Some(v)
    requires adj == Abs ==> ds[0] != '+'
    ensures Resolve(Debug, Utf8(Compose(Shape(adj, ds, per))), b, mb).Ok? <==> InRange(adj, per, v, b, mb)
    ensures Resolve(Debug, Utf8(Compose(Shape(adj, ds, per))), b, mb).Ok?
            || Resolve(Debug, Utf8(Compose(Shape(adj, ds, per))), b, mb).error.Panicked?
    ensures InRange(adj, per, v, b, mb) ==>
              var r := Resolve(Debug, Utf8(Compose(Shape(adj, ds, per))), b, mb);
              r.Ok? && r.value.adj == adj && r.value.qty == IntendedQuantity(adj, per, v, b, mb) && r.value.per == per
  {
    SplitWritten(adj, ds, per, v);
    DebugFollowsFormulas(adj, per, v, b, mb);
  }

  /** `parse_value` end to end, release build: a written expression always
      resolves, and while the product and the sum fit, to the intended
      quantity modulo 2^32. */
  lemma ResolveRelease(adj: Adj, ds: string, per: bool, v: u32, b: u32, mb: u32)
    requires ParseU32(ds) == Some(v)
    requires adj == Abs ==> ds[0] != '+'
    ensures Resolve(Release, Utf8(Compose(Shape(adj, ds, per))), b, mb).Ok?
    ensures (per ==> v * mb < U32_LIMIT) && (adj == Pos ==> b + IntendedMagnitude(per, v, mb) < U32_LIMIT) ==>
              Resolve(Release, Utf8(Compose(Shape(adj, ds, per))), b, mb)
              == Ok(Value(adj, IntendedQuantity(adj, per, v, b, mb) % U32_LIMIT, per))
  {
    SplitWritten(adj, ds, per, v);
    ReleaseWraps(adj, per, v, b, mb);
  }

  /** A decrease larger than the current brightness is not clamped to zero:
      a debug build panics, a release build wraps to a value above `b`. */
  lemma DecreaseNotClamped(build: Build, per: bool, val: u32, b: u32, mb: u32)
    requires Scaled(build, per, val, mb).Ok? && Scaled(build, per, val, mb).value > b
    ensures build == Debug ==> Quantity(build, Neg, per, val, b, mb) == Err(SubOverflow)
    ensures build == Release ==>
              var x := Scaled(build, per, val, mb).value;
              Quantity(build, Neg, per, val, b, mb) == Ok(b - x + U32_LIMIT)
              && b - x + U32_LIMIT > b
  {
    var x := Scaled(build, per, val, mb).value;
    assert -(U32_LIMIT as int) < b - x < 0;
    assert (b - x) % U32_LIMIT == b - x + U32_LIMIT;
  }

  /** `50%` of a maximum of 200 sets 100. */
  lemma HalfOfMaximum(build: Build, b: u32)
    ensures Resolve(build, Utf8("50%"), b, 200) == Ok(Value(Abs, 100, true))
  {
    assert "50%" == Compose(Shape(Abs, "50", true));
    assert DigitsValue("50") == 50 by { assert "50"[..1] == "5"; }
    ParseDigits("50");
    if build == Debug {
      ResolveDebug(Abs, "50", true, 50, b, 200);
    } else {
      ResolveRelease(Abs, "50", true, 50, b, 200);
    }
  }

  /** `+10%` from 40 with a maximum of 200 gives 40 + 20. */
  lemma IncreaseByPercent(build: Build)
    ensures Resolve(build, Utf8("+10%"), 40, 200) == Ok(Value(Pos, 60, true))
  {
    assert Split("+10%").digits == "10";
    assert DigitsValue("10") == 10 by { assert "10"[..1] == "1"; }
  }

  /** `-20%` from 10 with a maximum of 200 subtracts 40 from 10: a debug
      build panics, a release build wraps to 2^32 - 30. */
  lemma DecreaseUnderflows(build: Build)
    ensures build == Debug ==> Resolve(build, Utf8("-20%"), 10, 200) == Err(Panicked(SubOverflow))
    ensures build == Release ==> Resolve(build, Utf8("-20%"), 10, 200) == Ok(Value(Neg, 4294967266, true))
  {
    assert Split("-20%").digits == "20";
    assert DigitsValue("20") == 20 by { assert "20"[..1] == "2"; }
    assert Scaled(build, true, 20, 200) == Ok(40);
    DecreaseNotClamped(build, true, 20, 10, 200);
  }

  /** `u32::from_str` takes a second `+` as the number's own sign, so `++5`
      is an increase by 5. */
  lemma DoubledPlus(build: Build, mb: u32)
    requires mb >= 5
    ensures Resolve(build, Utf8("++5"), 0, mb) == Ok(Value(Pos, 5, false))
  {
    assert Split("++5").digits == "+5";
    assert "+5"[1..] == "5";
    assert DigitsValue("5") == 5 by { assert "5"[..0] == ""; }
  }

  /** Expressions whose digit run is empty or not a number are rejected, and
      an empty expression panics at the first slice. */
  lemma RejectedExamples(build: Build, b: u32, mb: u32)
    ensures Resolve(build, Utf8("+"), b, mb) == Err(InvalidNumber)
    ensures Resolve(build, Utf8("%"), b, mb) == Err(InvalidNumber)
    ensures Resolve(build, Utf8("+%"), b, mb) == Err(InvalidNumber)
    ensures Resolve(build, Utf8("5x"), b, mb) == Err(InvalidNumber)
    ensures Resolve(build, Utf8("--5"), b, mb) == Err(InvalidNumber)
    ensures Resolve(build, Utf8(""), b, mb) == Err(Panicked(SliceOutOfBounds))
  {
    assert Split("+").digits == "";
    assert Split("%").digits == "";
    assert Split("+%").digits == "";
    assert Split("5x").digits == "5x";
    assert !AllDigits("5x") by { assert !IsDigit("5x"[1]); }
    assert Split("--5").digits == "-5";
  }
}
