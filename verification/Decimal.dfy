/** Fixed-point decimals (src/ids.rs): text to a mantissa at scale 10^8, exactly or not at all, and the
    rounding of amounts onto a grid. */
module Decimal {
  import opened Common
  import opened Arith
  import WireBytes

  const MAX_FRACTIONAL_PLACES: nat := 8

  datatype DecimalError = Empty | InvalidChar(ch: char) | TooPrecise | Overflow

  // ---------------------------------------------------------------- decimal numerals

  function Pow10(n: nat): (p: nat)
    ensures p >= 1
  {
    if n == 0 then 1 else 10 * Pow10(n - 1)
  }

  lemma {:induction false} Pow10Add(a: nat, b: nat)
    ensures Pow10(a + b) == Pow10(a) * Pow10(b)
  {
    if a > 0 {
      Pow10Add(a - 1, b);
    }
  }

  predicate IsDigit(c: char) {
    '0' <= c <= '9'
  }

  function Digit(c: char): nat
    requires IsDigit(c)
  {
    c as int - '0' as int
  }

  predicate AllDigits(text: string) {
    forall i :: 0 <= i < |text| ==> IsDigit(text[i])
  }

  /** A numeral is the sum of its digits, each at its place. */
  function Value(text: string): nat
    requires AllDigits(text)
  {
    if text == "" then 0 else Digit(text[0]) * Pow10(|text| - 1) + Value(text[1..])
  }

  lemma Distribute(d: int, p: int, q: int, v: int)
    ensures (d * p + v) * q == d * (p * q) + v * q
  {
  }

  lemma {:induction false} ValueConcat(a: string, b: string)
    requires AllDigits(a) && AllDigits(b)
    ensures AllDigits(a + b) && Value(a + b) == Value(a) * Pow10(|b|) + Value(b)
  {
    if a == "" {
      assert a + b == b;
    } else {
      ValueConcat(a[1..], b);
      assert (a + b)[1..] == a[1..] + b;
      Pow10Add(|a| - 1, |b|);
      Distribute(Digit(a[0]), Pow10(|a| - 1), Pow10(|b|), Value(a[1..]));
      hide Pow10, Digit, AllDigits;
    }
  }

  // ---------------------------------------------------------------- parsing

  function FirstDot(text: string): (i: nat)
    ensures i <= |text| && (i < |text| ==> text[i] == '.')
    ensures forall k :: 0 <= k < i ==> text[k] != '.'
  {
    if text == "" || text[0] == '.' then 0 else 1 + FirstDot(text[1..])
  }

  function IntegerPart(text: string): string {
    text[..FirstDot(text)]
  }

  function FractionPart(text: string): string {
    if FirstDot(text) < |text| then text[FirstDot(text) + 1..] else ""
  }

  /** The length of a character in UTF-8. */
  function Utf8Width(c: char): nat {
    if c as int < 0x80 then 1 else if c as int < 0x800 then 2 else if c as int < 0x1_0000 then 3 else 4
  }

  function ByteLen(text: string): nat {
    if text == "" then 0 else Utf8Width(text[0]) + ByteLen(text[1..])
  }

  function CodePoints(text: string): (points: seq<int>)
    ensures forall c :: c in points ==> WireBytes.IsScalar(c)
  {
    seq(|text|, i requires 0 <= i < |text| => text[i] as int)
  }

  /** Lengths count the bytes a text takes in UTF-8. */
  lemma {:induction false} LengthsAreInBytes(text: string)
    ensures ByteLen(text) == |WireBytes.TextBytes(CodePoints(text))|
  {
    if text != "" {
      LengthsAreInBytes(text[1..]);
      assert CodePoints(text)[1..] == CodePoints(text[1..]);
    }
  }

  /** Digits accumulated onto `mantissa`, up to the first that is no digit or no longer fits. */
  function Accumulate(text: string, mantissa: nat): Result<nat, DecimalError>
    decreases text
  {
    if text == "" then Ok(mantissa)
    else if !IsDigit(text[0]) then Err(InvalidChar(text[0]))
    else if mantissa * 10 + Digit(text[0]) > I64_MAX then Err(Overflow)
    else Accumulate(text[1..], mantissa * 10 + Digit(text[0]))
  }

  function Parse(text: string): Result<nat, DecimalError> {
    if text == "" then Err(Empty)
    else if IntegerPart(text) == "" && FractionPart(text) == "" then Err(InvalidChar('.'))
    else if ByteLen(FractionPart(text)) > MAX_FRACTIONAL_PLACES then Err(TooPrecise)
    else
      match Accumulate(IntegerPart(text) + FractionPart(text), 0)
      case Err(error) => Err(error)
      case Ok(mantissa) =>
        var scaled := mantissa * Pow10(MAX_FRACTIONAL_PLACES - ByteLen(FractionPart(text)));
        if scaled > I64_MAX then Err(Overflow) else Ok(scaled)
  }

  method AccumulateDigits(digits: string) returns (sum: Result<nat, DecimalError>)
    ensures sum == Accumulate(digits, 0)
  {
    var mantissa, i := 0, 0;
    while i < |digits|
      invariant 0 <= i <= |digits| && 0 <= mantissa <= I64_MAX
      invariant Accumulate(digits[i..], mantissa) == Accumulate(digits, 0)
    {
      var ch := digits[i];
      if !IsDigit(ch) {
        return Err(InvalidChar(ch));
      }
      var scaled := mantissa * 10;
      if scaled > I64_MAX || scaled + Digit(ch) > I64_MAX {
        return Err(Overflow);
      }
      assert digits[i..][1..] == digits[i + 1..];
      mantissa, i := scaled + Digit(ch), i + 1;
    }
    sum := Ok(mantissa);
  }

  method ParseFixedMantissa(text: string) returns (parsed: Result<nat, DecimalError>)
    ensures parsed == Parse(text)
  {
    hide Accumulate, Pow10, ByteLen, FirstDot;
    if text == "" {
      return Err(Empty);
    }
    var dot := FirstDot(text);
    var integer, fraction := text[..dot], if dot < |text| then text[dot + 1..] else "";
    if integer == "" && fraction == "" {
      return Err(InvalidChar('.'));
    }
    var places := ByteLen(fraction);
    if places > MAX_FRACTIONAL_PLACES {
      return Err(TooPrecise);
    }
    var mantissa := AccumulateDigits(integer + fraction);
    if mantissa.Err? {
      return mantissa;
    }
    var padded := mantissa.value * Pow10(MAX_FRACTIONAL_PLACES - places);
    parsed := if padded > I64_MAX then Err(Overflow) else Ok(padded);
  }

  // ---------------------------------------------------------------- what parses, and to what

  /** `text` is `integer` or `integer.fraction`, in digits, at most eight of them after the dot, and stands
      for `mantissa` units of 10^-8, which a mantissa can hold. */
  ghost predicate Reads(text: string, integer: string, fraction: string, mantissa: nat) {
    && (text == integer + "." + fraction || (text == integer && fraction == ""))
    && AllDigits(integer) && AllDigits(fraction) && AllDigits(integer + fraction)
    && integer + fraction != "" && |fraction| <= MAX_FRACTIONAL_PLACES
    && mantissa == Value(integer + fraction) * Pow10(MAX_FRACTIONAL_PLACES - |fraction|)
    && mantissa <= I64_MAX
  }

  ghost predicate Denotes(text: string, mantissa: nat) {
    exists integer, fraction :: Reads(text, integer, fraction, mantissa)
  }

  lemma {:induction false} DigitsAreBytes(text: string)
    ensures |text| <= ByteLen(text) && (AllDigits(text) ==> ByteLen(text) == |text|)
  {
    if text != "" {
      DigitsAreBytes(text[1..]);
    }
  }

  /** How many digits the text starts with. */
  function DigitRun(text: string): (k: nat)
    ensures k <= |text| && AllDigits(text[..k]) && (k < |text| ==> !IsDigit(text[k]))
  {
    if text == "" || !IsDigit(text[0]) then 0
    else
      var k := 1 + DigitRun(text[1..]);
      assert text[..k] == [text[0]] + text[1..][..k - 1];
      k
  }

  lemma Carry(mantissa: int, digit: int, p: int)
    ensures mantissa * (10 * p) + digit * p == (mantissa * 10 + digit) * p
  {
  }

  /** What `mantissa` comes to once the first `k` digits of `text` are added. */
  function Total(mantissa: nat, text: string, k: nat): nat
    requires k <= |text| && AllDigits(text[..k])
  {
    mantissa * Pow10(k) + Value(text[..k])
  }

  lemma TotalBounds(mantissa: nat, text: string, k: nat)
    requires k <= |text| && AllDigits(text[..k])
    ensures mantissa <= Total(mantissa, text, k) && (k == 0 ==> mantissa == Total(mantissa, text, k))
  {
  }

  lemma TakeDigit(text: string, mantissa: nat, k: nat)
    requires 0 < k <= |text| && AllDigits(text[..k])
    ensures IsDigit(text[0]) && AllDigits(text[1..][..k - 1])
    ensures Total(mantissa, text, k) == Total(mantissa * 10 + Digit(text[0]), text[1..], k - 1)
  {
    var head := text[..k];
    assert head[0] == text[0] && head[1..] == text[1..][..k - 1];
    Carry(mantissa, Digit(text[0]), Pow10(k - 1));
  }

  /** The digits at the front add up until they no longer fit, and only then is the character after them
      looked at. */
  lemma {:induction false} AccumulateAddsUp(text: string, mantissa: nat)
    requires mantissa <= I64_MAX
    ensures var k := DigitRun(text);
            Accumulate(text, mantissa) == if Total(mantissa, text, k) > I64_MAX then Err(Overflow)
                                          else if k < |text| then Err(InvalidChar(text[k]))
                                          else Ok(Total(mantissa, text, k))
    decreases text
  {
    hide Total, AllDigits, Digit;
    var k := DigitRun(text);
    TotalBounds(mantissa, text, k);
    if text != "" && IsDigit(text[0]) {
      TakeDigit(text, mantissa, k);
      var next := mantissa * 10 + Digit(text[0]);
      TotalBounds(next, text[1..], k - 1);
      hide IsDigit;
      if next <= I64_MAX {
        AccumulateAddsUp(text[1..], next);
      }
    }
  }

  lemma RunOfDigits(text: string)
    ensures DigitRun(text) == |text| <==> AllDigits(text)
  {
    var k := DigitRun(text);
    hide DigitRun;
    assert k == |text| ==> text[..k] == text;
  }

  lemma SplitAtTheDot(text: string, integer: string, fraction: string)
    requires '.' !in integer && (text == integer + "." + fraction || (text == integer && fraction == ""))
    ensures IntegerPart(text) == integer && FractionPart(text) == fraction
  {
    if text == integer + "." + fraction {
      assert text[|integer|] == '.';
    }
    assert forall k :: 0 <= k < |integer| ==> text[k] == integer[k];
  }

  lemma ScaleUp(value: nat, places: nat)
    requires places <= MAX_FRACTIONAL_PLACES
    ensures value <= value * Pow10(MAX_FRACTIONAL_PLACES - places)
  {
  }

  lemma ReadsAreParsed(text: string, integer: string, fraction: string, mantissa: nat)
    requires Reads(text, integer, fraction, mantissa)
    ensures Parse(text) == Ok(mantissa)
  {
    assert '.' !in integer;
    SplitAtTheDot(text, integer, fraction);
    DigitsAreBytes(fraction);
    RunOfDigits(integer + fraction);
    AccumulateAddsUp(integer + fraction, 0);
    assert (integer + fraction)[..|integer + fraction|] == integer + fraction;
    ScaleUp(Value(integer + fraction), |fraction|);
    hide Value, Accumulate, FirstDot, ByteLen, AllDigits;
  }

  lemma PartsAreDigits(a: string, b: string)
    requires AllDigits(a + b)
    ensures AllDigits(a) && AllDigits(b)
  {
    assert forall i :: 0 <= i < |a| ==> a[i] == (a + b)[i];
    assert forall i :: 0 <= i < |b| ==> b[i] == (a + b)[|a| + i];
  }

  lemma ParsedReads(text: string)
    requires Parse(text).Ok?
    ensures Reads(text, IntegerPart(text), FractionPart(text), Parse(text).value)
  {
    hide Value, Accumulate, ByteLen, AllDigits, DigitRun, Pow10;
    var integer, fraction := IntegerPart(text), FractionPart(text);
    RunOfDigits(integer + fraction);
    AccumulateAddsUp(integer + fraction, 0);
    assert (integer + fraction)[..|integer + fraction|] == integer + fraction;
    PartsAreDigits(integer, fraction);
    DigitsAreBytes(fraction);
    assert FirstDot(text) < |text| ==> text == integer + "." + fraction;
    assert FirstDot(text) == |text| ==> text == integer;
  }

  /** Parsing succeeds on exactly the decimals of at most eight places that a mantissa holds, with the exact
      value. */
  lemma ParsesExactly(text: string, mantissa: nat)
    ensures Parse(text) == Ok(mantissa) <==> Denotes(text, mantissa)
  {
    hide Parse, Reads;
    if Parse(text) == Ok(mantissa) {
      ParsedReads(text);
    }
    if Denotes(text, mantissa) {
      var integer, fraction :| Reads(text, integer, fraction, mantissa);
      ReadsAreParsed(text, integer, fraction, mantissa);
    }
  }

  /** A sign is no digit: signed text is refused, unless its fraction is refused first. */
  lemma SignIsRefused(text: string)
    requires text != "" && text[0] == '-' && ByteLen(FractionPart(text)) <= MAX_FRACTIONAL_PLACES
    ensures Parse(text) == Err(InvalidChar('-'))
  {
  }

  /** Every refusal names its fault: no text, no digits at all, more than eight bytes after the dot, a value no
      mantissa holds, or the first character that is neither digit nor the one dot. */
  lemma RefusalsNameTheFault(text: string)
    requires Parse(text).Err?
    ensures var digits := IntegerPart(text) + FractionPart(text);
            var run := DigitRun(digits);
            match Parse(text).error
            case Empty => text == ""
            case TooPrecise => ByteLen(FractionPart(text)) > MAX_FRACTIONAL_PLACES
            case InvalidChar(ch) => text == [ch] == "." || (run < |digits| && digits[run] == ch && !IsDigit(ch))
            case Overflow =>
              && ByteLen(FractionPart(text)) <= MAX_FRACTIONAL_PLACES
              && Value(digits[..run]) * Pow10(MAX_FRACTIONAL_PLACES - ByteLen(FractionPart(text))) > I64_MAX
  {
    hide Value, Accumulate, ByteLen, AllDigits, IsDigit, Pow10, DigitRun;
    var digits := IntegerPart(text) + FractionPart(text);
    AccumulateAddsUp(digits, 0);
    if ByteLen(FractionPart(text)) <= MAX_FRACTIONAL_PLACES {
      ScaleUp(Value(digits[..DigitRun(digits)]), ByteLen(FractionPart(text)));
    }
  }

  // ---------------------------------------------------------------- rounding onto a grid

  function GridFloor(x: int, increment: int): int
    requires increment > 0
  {
    x / increment * increment
  }

  /** Buys round down and sells up, so a snapped price is never the more aggressive one. */
  function SnapPassive(side: Side, price: int, increment: int): int
    requires increment > 0
  {
    match side
    case Buy => GridFloor(price, increment)
    case Sell => -GridFloor(-price, increment)
  }

  predicate OnGrid(x: int, increment: int)
    requires increment > 0
  {
    x % increment == 0
  }

  lemma GridFloorBrackets(x: int, increment: int)
    requires increment > 0
    ensures OnGrid(GridFloor(x, increment), increment)
    ensures GridFloor(x, increment) <= x < GridFloor(x, increment) + increment
    ensures GridFloor(x, increment) == x <==> OnGrid(x, increment)
  {
    DivBounds(x, increment);
    ModShift(0, x / increment, increment);
  }

  lemma GridIsSymmetric(x: int, increment: int)
    requires increment > 0 && OnGrid(x, increment)
    ensures OnGrid(-x, increment)
  {
    ModShift(0, -(x / increment), increment);
    DivBounds(x, increment);
  }

  /** The snapped price is the nearest grid price on the passive side, and the price itself exactly when that
      is on the grid. */
  lemma SnapIsNearestPassive(side: Side, price: int, increment: int)
    requires increment > 0
    ensures var snapped := SnapPassive(side, price, increment);
            && OnGrid(snapped, increment)
            && (side.Buy? ==> snapped <= price < snapped + increment)
            && (side.Sell? ==> snapped - increment < price <= snapped)
            && (snapped == price <==> OnGrid(price, increment))
  {
    hide OnGrid;
    GridFloorBrackets(price, increment);
    GridFloorBrackets(-price, increment);
    GridIsSymmetric(GridFloor(-price, increment), increment);
    if OnGrid(price, increment) {
      GridIsSymmetric(price, increment);
    }
    hide GridFloor;
  }
}
