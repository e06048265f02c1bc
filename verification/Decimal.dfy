/**
 On-chain decimals: an i128 mantissa and a power-of-ten scale.  Rescaling truncates toward zero; comparison goes
 through a decimal type with a 96-bit mantissa.
 */
module SwitchboardDecimals {
  import opened Wrappers
  import opened Bytes
  import opened FixedPoint

  datatype SwitchboardDecimal = SwitchboardDecimal(mantissa: i128, scale: u32)

  /** The two ways rescaling can panic: a power of ten or a product beyond i128. */
  datatype Fault = PowOverflows | ProductOverflows

  predicate FitsI128(x: int) { -I128_LIMIT <= x < I128_LIMIT }

  /** `10_i128.pow`, which overflows from 39 on. */
  function PowI128(e: nat): Result<i128, Fault> {
    if e <= 38 then
      Pow10Of38();
      Pow10Rises(e, 38);
      Ok(Pow10(e))
    else Err(PowOverflows)
  }

  function ScaleTo(d: SwitchboardDecimal, newScale: u32): Result<i128, Fault> {
    if d.scale > newScale then
      var unit :- PowI128(d.scale - newScale);
      TruncateShrinks(d.mantissa, unit);
      Ok(Truncate(d.mantissa, unit))
    else if d.scale < newScale then
      var unit :- PowI128(newScale - d.scale);
      if FitsI128(d.mantissa * unit) then Ok(d.mantissa * unit) else Err(ProductOverflows)
    else Ok(d.mantissa)
  }

  function NewWithScale(d: SwitchboardDecimal, newScale: u32): Result<SwitchboardDecimal, Fault> {
    var mantissa :- ScaleTo(d, newScale);
    Ok(SwitchboardDecimal(mantissa, newScale))
  }

  /** Rescaling to one scale and then to another. */
  function ScaleVia(d: SwitchboardDecimal, via: u32, newScale: u32): Result<i128, Fault> {
    var there :- NewWithScale(d, via);
    ScaleTo(there, newScale)
  }

  lemma Down(d: SwitchboardDecimal, to: u32)
    requires d.scale >= to
    ensures d.scale - to > 38 ==> ScaleTo(d, to) == Err(PowOverflows)
    ensures d.scale - to <= 38 ==>
              ScaleTo(d, to).Ok? && ScaleTo(d, to).value == Truncate(d.mantissa, Pow10(d.scale - to))
  {
  }

  lemma Up(d: SwitchboardDecimal, to: u32)
    requires d.scale <= to
    ensures var product := d.mantissa * Pow10(to - d.scale);
            ScaleTo(d, to) == if to - d.scale > 38 then Err(PowOverflows)
                              else if FitsI128(product) then Ok(product) else Err(ProductOverflows)
  {
  }

  /**
   Rescaling is exact when it adds digits, and drops digits toward zero; it panics on the power of ten exactly beyond
   38 digits, and on the product exactly when the exact result is no i128.
   */
  lemma ScalesExactly(d: SwitchboardDecimal, to: u32, v: int)
    ensures to >= d.scale ==>
              (ScaleTo(d, to) == Ok(v) <==> to - d.scale <= 38 && FitsI128(v) && v == d.mantissa * Pow10(to - d.scale))
    ensures to <= d.scale ==>
              (ScaleTo(d, to) == Ok(v) <==> d.scale - to <= 38 && TowardZero(v, d.mantissa, Pow10(d.scale - to)))
    ensures ScaleTo(d, to) == Err(PowOverflows) <==> to > d.scale + 38 || d.scale > to + 38
    ensures ScaleTo(d, to) == Err(ProductOverflows) <==>
            d.scale <= to <= d.scale + 38 && !FitsI128(d.mantissa * Pow10(to - d.scale))
  {
    if to >= d.scale {
      Up(d, to);
    }
    if to <= d.scale {
      Down(d, to);
      TruncateExactly(d.mantissa, Pow10(d.scale - to), v);
    }
  }

  lemma DownTwiceWithin(d: SwitchboardDecimal, via: u32, to: u32)
    requires d.scale >= via >= to && d.scale - to <= 38
    ensures ScaleTo(d, to).Ok? && ScaleVia(d, via, to) == ScaleTo(d, to)
  {
    var m, a, b := d.mantissa, Pow10(d.scale - via), Pow10(via - to);
    Down(d, via);
    Down(NewWithScale(d, via).value, to);
    Down(d, to);
    Pow10Adds(d.scale - via, via - to);
    TruncateTwice(m, a, b);
  }

  /**
   Down in two steps is down in one, except that two steps of at most 38 digits can go where one step panics: further
   than 38 digits.
   */
  lemma DownTwice(d: SwitchboardDecimal, via: u32, to: u32)
    requires d.scale >= via >= to
    ensures ScaleVia(d, via, to) == ScaleTo(d, to) <==>
            d.scale - to <= 38 || d.scale - via > 38 || via - to > 38
    ensures ScaleTo(d, to).Ok? <==> d.scale - to <= 38
  {
    if d.scale - to <= 38 {
      DownTwiceWithin(d, via, to);
    } else {
      Down(d, to);
      Down(d, via);
      if d.scale - via <= 38 {
        Down(NewWithScale(d, via).value, to);
      }
    }
  }

  lemma FactorFits(x: int, a: int)
    requires a > 0 && FitsI128(x * a)
    ensures FitsI128(x)
  {
    ProductGrows(x, a);
  }

  lemma UpTwiceWithin(d: SwitchboardDecimal, via: u32, to: u32)
    requires d.scale <= via <= to && to - d.scale <= 38
    ensures ScaleVia(d, via, to) == ScaleTo(d, to)
  {
    var m, a, b := d.mantissa, Pow10(via - d.scale), Pow10(to - via);
    Pow10Adds(via - d.scale, to - via);
    MulAssoc(m, a, b);
    Up(d, via);
    Up(d, to);
    if FitsI128(m * a) {
      Up(SwitchboardDecimal(m * a, via), to);
    } else if FitsI128(m * (a * b)) {
      FactorFits(m * a, b);
    }
  }

  /**
   Up in two steps is up in one, faults included: if the direct way fits, so does every step, and the other way round.
   Beyond 38 digits, where the direct way panics on the power of ten, the two steps panic alike exactly when one of
   them meets the same limit before a product overflows.
   */
  lemma UpTwice(d: SwitchboardDecimal, via: u32, to: u32)
    requires d.scale <= via <= to
    ensures ScaleVia(d, via, to) == ScaleTo(d, to) <==>
            to - d.scale <= 38 || via - d.scale > 38 || (to - via > 38 && ScaleTo(d, via).Ok?)
  {
    if to - d.scale <= 38 {
      UpTwiceWithin(d, via, to);
    } else {
      Up(d, to);
      Up(d, via);
      if ScaleTo(d, via).Ok? {
        Up(NewWithScale(d, via).value, to);
      }
    }
  }

  lemma UpThenBelow(d: SwitchboardDecimal, via: u32, to: u32)
    requires to <= d.scale <= via && via - to <= 38 && ScaleTo(d, via).Ok?
    ensures ScaleTo(d, to).Ok? && ScaleVia(d, via, to) == ScaleTo(d, to)
  {
    var m, up := d.mantissa, Pow10(via - d.scale);
    Up(d, via);
    Down(SwitchboardDecimal(m * up, via), to);
    Down(d, to);
    Pow10Adds(via - d.scale, d.scale - to);
    TruncateCancels(m, up, Pow10(d.scale - to));
  }

  lemma UpThenBetween(d: SwitchboardDecimal, via: u32, to: u32)
    requires d.scale <= to <= via && via - to <= 38 && ScaleTo(d, via).Ok?
    ensures ScaleTo(d, to).Ok? && ScaleVia(d, via, to) == ScaleTo(d, to)
  {
    var m, rest, down := d.mantissa, Pow10(to - d.scale), Pow10(via - to);
    Up(d, via);
    Pow10Adds(to - d.scale, via - to);
    MulAssoc(m, rest, down);
    FactorFits(m * rest, down);
    Up(d, to);
    Down(SwitchboardDecimal(m * rest * down, via), to);
    TruncateProduct(m * rest, down);
  }

  /**
   Up and then part of the way back, or below the start, is the direct way, except where the way back is more than 38
   digits and the direct way is not; all the way back is the start itself.
   */
  lemma UpThenDown(d: SwitchboardDecimal, via: u32, to: u32)
    requires d.scale <= via && to <= via && ScaleTo(d, via).Ok?
    ensures ScaleVia(d, via, to) == ScaleTo(d, to) <==> via - to <= 38 || d.scale - to > 38
    ensures via - to <= 38 ==> ScaleTo(d, to).Ok?
    ensures to == d.scale ==> ScaleVia(d, via, to) == Ok(d.mantissa)
  {
    Up(d, via);
    if via - to > 38 {
      Down(NewWithScale(d, via).value, to);
      Down(d, to);
    } else if to <= d.scale {
      UpThenBelow(d, via, to);
    } else {
      UpThenBetween(d, via, to);
    }
  }

  /** Down and then back up moves toward zero, by less than one unit of the coarser scale. */
  lemma DownThenUp(d: SwitchboardDecimal, via: u32)
    requires d.scale >= via
    ensures ScaleVia(d, via, d.scale).Ok? <==> d.scale - via <= 38
    ensures var r, unit := ScaleVia(d, via, d.scale), Pow10(d.scale - via);
            r.Ok? ==>
            && r.value % unit == 0
            && (d.mantissa >= 0 ==> 0 <= r.value <= d.mantissa < r.value + unit)
            && (d.mantissa <= 0 ==> 0 >= r.value >= d.mantissa > r.value - unit)
  {
    var unit := Pow10(d.scale - via);
    Down(d, via);
    if d.scale - via <= 38 {
      TruncateNear(d.mantissa, unit);
      Up(NewWithScale(d, via).value, d.scale);
      Multiple(Truncate(d.mantissa, unit), unit);
    }
  }

  lemma Multiple(q: int, d: int)
    requires d > 0
    ensures q * d % d == 0
  {
    var r := q * d % d;
    assert (q * d / d - q) * d == -r by { assert q * d == q * d / d * d + r; }
    Gap(q * d / d, q, d);
    Gap(q, q * d / d, d);
  }

  /** Rescaling keeps the order of mantissas of one scale. */
  lemma Monotone(x: SwitchboardDecimal, y: SwitchboardDecimal, to: u32)
    requires x.scale == y.scale && x.mantissa <= y.mantissa && ScaleTo(x, to).Ok? && ScaleTo(y, to).Ok?
    ensures ScaleTo(x, to).value <= ScaleTo(y, to).value
  {
    if x.scale >= to {
      TruncateRises(x.mantissa, y.mantissa, Pow10(x.scale - to));
      Down(x, to);
      Down(y, to);
    } else {
      MulRises(x.mantissa, y.mantissa, Pow10(to - x.scale));
    }
  }

  // ----- comparison -----

  const DECIMAL_LIMIT := 0x1_0000_0000_0000_0000_0000_0000

  const MAX_SCALE := 28

  datatype Ordering = Less | Equal | Greater
  datatype OnDemandError = DecimalConversionError

  /** The 96-bit decimal that comparisons go through; it is compared by the number it denotes. */
  datatype Decimal = Decimal(mantissa: int, scale: nat) {
    function Value(): real { mantissa as real / Pow10(scale) as real }
  }

  /** The range that the decimal library documents: 96 bits and 28 digits. */
  predicate Convertible(d: SwitchboardDecimal) {
    && -79_228_162_514_264_337_593_543_950_335 <= d.mantissa <= 79_228_162_514_264_337_593_543_950_335
    && d.scale <= 28
  }

  function TryIntoDecimal(d: SwitchboardDecimal): Result<Decimal, OnDemandError> {
    if -DECIMAL_LIMIT < d.mantissa < DECIMAL_LIMIT && d.scale <= MAX_SCALE
    then Ok(Decimal(d.mantissa, d.scale))
    else Err(DecimalConversionError)
  }

  /** Both conversions are unwrapped, so comparing an inconvertible value panics. */
  function Cmp(x: SwitchboardDecimal, y: SwitchboardDecimal): Result<Ordering, OnDemandError> {
    var a :- TryIntoDecimal(x);
    var b :- TryIntoDecimal(y);
    Ok(if a.Value() < b.Value() then Less else if a.Value() == b.Value() then Equal else Greater)
  }

  function Lt(x: SwitchboardDecimal, y: SwitchboardDecimal): Result<bool, OnDemandError> {
    var a :- TryIntoDecimal(x);
    var b :- TryIntoDecimal(y);
    Ok(a.Value() < b.Value())
  }

  function Le(x: SwitchboardDecimal, y: SwitchboardDecimal): Result<bool, OnDemandError> {
    var a :- TryIntoDecimal(x);
    var b :- TryIntoDecimal(y);
    Ok(a.Value() <= b.Value())
  }

  function Gt(x: SwitchboardDecimal, y: SwitchboardDecimal): Result<bool, OnDemandError> {
    var a :- TryIntoDecimal(x);
    var b :- TryIntoDecimal(y);
    Ok(a.Value() > b.Value())
  }

  function Ge(x: SwitchboardDecimal, y: SwitchboardDecimal): Result<bool, OnDemandError> {
    var a :- TryIntoDecimal(x);
    var b :- TryIntoDecimal(y);
    Ok(a.Value() >= b.Value())
  }

  function CompareInts(a: int, b: int): Ordering { if a < b then Less else if a == b then Equal else Greater }

  /** The mantissas brought to the sum of both scales. */
  function Crossed(x: SwitchboardDecimal, y: SwitchboardDecimal): Ordering {
    CompareInts(x.mantissa * Pow10(y.scale), y.mantissa * Pow10(x.scale))
  }

  lemma Quotient(a: real, b: real, d: real)
    requires b > 0.0
    ensures a / b * (b * d) == a * d
  {
    assert a / b * b == a;
    MulRegroup(a / b, b, d);
  }

  lemma MulRegroup(a: real, b: real, c: real)
    ensures a * b * c == a * (b * c)
  {
  }

  lemma ProductAsReal(a: int, b: int)
    ensures a as real * b as real == (a * b) as real
  {
  }

  lemma CompareQuotients(m: int, u: int, n: int, v: int)
    requires u > 0 && v > 0
    ensures m as real / u as real < n as real / v as real <==> m * v < n * u
    ensures m as real / u as real == n as real / v as real <==> m * v == n * u
  {
    var a, b, c, d := m as real, u as real, n as real, v as real;
    Quotient(a, b, d);
    Quotient(c, d, b);
    assert b * d == d * b && b * d > 0.0;
    ProductAsReal(m, v);
    ProductAsReal(n, u);
    MulOrder(a / b, c / d, b * d);
    MulOrder(c / d, a / b, b * d);
  }

  lemma MulOrder(p: real, q: real, e: real)
    requires e > 0.0
    ensures p < q ==> p * e < q * e
  {
  }

  /** Comparison is total on convertible values, and compares the cross products; on other values it panics. */
  lemma ComparesCrossed(x: SwitchboardDecimal, y: SwitchboardDecimal)
    ensures Cmp(x, y) == if Convertible(x) && Convertible(y) then Ok(Crossed(x, y)) else Err(DecimalConversionError)
  {
    CompareQuotients(x.mantissa, Pow10(x.scale), y.mantissa, Pow10(y.scale));
  }

  /** The four operators say what `cmp` says. */
  lemma OperatorsAgree(x: SwitchboardDecimal, y: SwitchboardDecimal)
    ensures match Cmp(x, y)
            case Err(e) => Lt(x, y) == Err(e) && Le(x, y) == Err(e) && Gt(x, y) == Err(e) && Ge(x, y) == Err(e)
            case Ok(o) => Lt(x, y) == Ok(o == Less) && Le(x, y) == Ok(o != Greater) &&
                          Gt(x, y) == Ok(o == Greater) && Ge(x, y) == Ok(o != Less)
  {
  }

  /** One total preorder: `cmp` mirrors, and `le` is transitive. */
  lemma TotalPreorder(x: SwitchboardDecimal, y: SwitchboardDecimal, z: SwitchboardDecimal)
    requires Convertible(x) && Convertible(y) && Convertible(z)
    ensures Cmp(x, x) == Ok(Equal)
    ensures Cmp(x, y) == Ok(Less) <==> Cmp(y, x) == Ok(Greater)
    ensures Le(x, y) == Ok(true) || Le(y, x) == Ok(true)
    ensures Le(x, y) == Ok(true) && Le(y, z) == Ok(true) ==> Le(x, z) == Ok(true)
  {
  }

  lemma ScaledOrder(a: int, b: int, k: int)
    requires k > 0
    ensures CompareInts(a * k, b * k) == CompareInts(a, b)
  {
    Gap(b, a, k);
    Gap(a, b, k);
  }

  /** Comparison agrees with rescaling both sides to the larger scale, whenever that fits. */
  lemma ComparesRescaled(x: SwitchboardDecimal, y: SwitchboardDecimal)
    requires Convertible(x) && Convertible(y) && x.scale <= y.scale && ScaleTo(x, y.scale).Ok?
    ensures Cmp(x, y) == Ok(CompareInts(ScaleTo(x, y.scale).value, y.mantissa))
    ensures Cmp(y, x) == Ok(CompareInts(y.mantissa, ScaleTo(x, y.scale).value))
  {
    var up, unit := Pow10(y.scale - x.scale), Pow10(x.scale);
    ComparesCrossed(x, y);
    ComparesCrossed(y, x);
    Pow10Adds(y.scale - x.scale, x.scale);
    Up(x, y.scale);
    MulAssoc(x.mantissa, up, unit);
    ScaledOrder(x.mantissa * up, y.mantissa, unit);
    ScaledOrder(y.mantissa, x.mantissa * up, unit);
  }

  /** `==` is derived from the fields, so values that compare equal differ exactly when written at two scales. */
  lemma EqualNotIdentical(x: SwitchboardDecimal, y: SwitchboardDecimal)
    requires Convertible(x) && Convertible(y) && x.scale <= y.scale
    ensures Cmp(x, y) == Ok(Equal) <==> y.mantissa == x.mantissa * Pow10(y.scale - x.scale)
    ensures Cmp(x, y) == Ok(Equal) && x != y <==>
            x.scale != y.scale && y.mantissa == x.mantissa * Pow10(y.scale - x.scale)
  {
    var up, unit := Pow10(y.scale - x.scale), Pow10(x.scale);
    ComparesCrossed(x, y);
    Pow10Adds(y.scale - x.scale, x.scale);
    MulAssoc(x.mantissa, up, unit);
    ScaledOrder(x.mantissa * up, y.mantissa, unit);
  }

  /** 1 and 1.0 compare equal and are not `==`. */
  lemma OneAndOnePointZero()
    ensures var (x, y) := (SwitchboardDecimal(1, 0), SwitchboardDecimal(10, 1));
            Cmp(x, y) == Ok(Equal) && x != y
  {
    EqualNotIdentical(SwitchboardDecimal(1, 0), SwitchboardDecimal(10, 1));
    assert Pow10(1) == 10;
  }
}
