/** Exact number labels (src/workstation/format.rs): fixed-point values cut, never rounded, at a precision
    chosen so that nothing is cut. The parser of `Decimal` reads them back. */
module Format {
  import opened Common
  import opened Arith
  import opened Decimal

  const MAX_MID_DECIMALS: nat := 9

  // ---------------------------------------------------------------- digits

  function DigitChar(d: nat): (c: char)
    requires d < 10
    ensures IsDigit(c) && Digit(c) == d
  {
    ('0' as int + d) as char
  }

  function Digits(n: nat): string {
    if n < 10 then [DigitChar(n)] else Digits(n / 10) + [DigitChar(n % 10)]
  }

  function Zeros(n: nat): string {
    if n == 0 then "" else "0" + Zeros(n - 1)
  }

  function Padded(value: nat, width: nat): string {
    var digits := Digits(value);
    (if |digits| < width then Zeros(width - |digits|) else "") + digits
  }

  lemma {:induction false} DigitsDenote(n: nat)
    ensures AllDigits(Digits(n)) && Value(Digits(n)) == n && |Digits(n)| >= 1
  {
    var last := [DigitChar(n % 10)];
    assert Value(last) == n % 10 by {
      assert last[1..] == "";
    }
    if n >= 10 {
      DigitsDenote(n / 10);
      ValueConcat(Digits(n / 10), last);
    }
  }

  /** A number below 10^k needs no more than k digits. */
  lemma {:induction false} DigitsFit(n: nat, k: nat)
    requires k >= 1 && n < Pow10(k)
    ensures |Digits(n)| <= k
  {
    if n >= 10 {
      DigitsFit(n / 10, k - 1);
    }
  }

  lemma {:induction false} ZerosSnoc(n: nat)
    ensures Zeros(n + 1) == Zeros(n) + "0"
  {
    if n > 0 {
      ZerosSnoc(n - 1);
    }
  }

  lemma {:induction false} ZerosAreNothing(n: nat)
    ensures AllDigits(Zeros(n)) && Value(Zeros(n)) == 0 && |Zeros(n)| == n
  {
    if n > 0 {
      ZerosAreNothing(n - 1);
      assert Zeros(n)[1..] == Zeros(n - 1);
    }
  }

  lemma PaddedDenotes(value: nat, width: nat)
    ensures AllDigits(Padded(value, width)) && Value(Padded(value, width)) == value
    ensures |Padded(value, width)| == Max(width, |Digits(value)|)
  {
    DigitsDenote(value);
    hide Digits;
    var digits := Digits(value);
    if |digits| < width {
      ZerosAreNothing(width - |digits|);
      ValueConcat(Zeros(width - |digits|), digits);
    } else {
      assert Padded(value, width) == digits;
    }
  }

  // ---------------------------------------------------------------- fixed point

  function Whole(magnitude: nat, scale: nat): nat
    requires scale > 0
  {
    DivMono(0, magnitude, scale);
    magnitude / scale
  }

  function Rest(magnitude: nat, scale: nat): (rest: nat)
    requires scale > 0
    ensures rest < scale
  {
    magnitude % scale
  }

  /** The places of `rest / scale` that are kept. */
  function Fraction(rest: nat, scale: nat, decimals: nat): nat
    requires scale > 0
  {
    MulMono(0, rest, Pow10(decimals));
    DivMono(0, rest * Pow10(decimals), scale);
    rest * Pow10(decimals) / scale
  }

  lemma CutBelow(rest: nat, scale: nat, p: nat)
    requires rest < scale && p >= 1
    ensures 0 <= rest * p / scale < p
  {
  }

  lemma BigPowers()
    ensures Pow10(8) == FIXED_SCALE && Pow10(9) == 1_000_000_000
    ensures Pow10(19) == 10_000_000_000_000_000_000 && Pow10(20) == 100_000_000_000_000_000_000
  {
  }

  lemma FractionFits(rest: nat, scale: nat, decimals: nat)
    requires rest < scale
    ensures Fraction(rest, scale, decimals) < Pow10(decimals)
    ensures decimals <= 19 ==> Fraction(rest, scale, decimals) <= U64_MAX
  {
    CutBelow(rest, scale, Pow10(decimals));
    hide Fraction;
    if decimals <= 19 {
      BigPowers();
      Pow10Mono(decimals, 19);
    }
  }

  lemma {:induction false} Pow10Mono(a: nat, b: nat)
    requires a <= b
    ensures Pow10(a) <= Pow10(b)
    decreases b - a
  {
    if a < b {
      Pow10Mono(a + 1, b);
    }
  }

  lemma WordDigits(value: U64)
    ensures 1 <= |Digits(value)| <= 20
  {
    BigPowers();
    DigitsFit(value, 20);
  }

  /** `value / scale` with `decimals` places; a whole part past 64 bits saturates. */
  function FixedPoint(value: int, scale: nat, decimals: nat): string
    requires scale > 0
  {
    var magnitude := Abs(value);
    (if value < 0 then "-" else "")
    + Padded(Min(Whole(magnitude, scale), U64_MAX), 0)
    + if decimals == 0 then "" else "." + Padded(Fraction(Rest(magnitude, scale), scale, decimals), decimals)
  }

  /** The label buffer the painter reuses. */
  class Label {
    var text: string

    constructor ()
      ensures text == ""
    {
      text := "";
    }

    /** Digits from the end of a twenty-character scratch array, least significant first. */
    static method DecimalDigits(value: U64, digits: array<char>) returns (cursor: nat)
      requires digits.Length == 20
      modifies digits
      ensures cursor < 20 && digits[cursor..] == Digits(value)
    {
      WordDigits(value);
      cursor := digits.Length;
      var n := value;
      while true
        invariant 1 <= |Digits(n)| <= cursor <= 20 && Digits(value) == Digits(n) + digits[cursor..]
        decreases n
      {
        cursor := cursor - 1;
        digits[cursor] := DigitChar(n % 10);
        assert digits[cursor..] == [DigitChar(n % 10)] + digits[cursor + 1..];
        n := n / 10;
        if n == 0 {
          break;
        }
      }
    }

    method PushPadded(value: U64, width: nat)
      modifies this
      ensures text == old(text) + Padded(value, width)
    {
      hide Digits;
      var digits := new char[20];
      var cursor := DecimalDigits(value, digits);
      var length := digits.Length - cursor;
      var place := length;
      assert Zeros(0) == "";
      hide Zeros;
      while place < width
        invariant length <= place <= Max(length, width)
        invariant text == old(text) + Zeros(place - length)
        modifies this
      {
        ZerosSnoc(place - length);
        text := text + "0";
        place := place + 1;
      }
      assert Zeros(place - length) == if length < width then Zeros(width - length) else "";
      ghost var padded := text;
      PushGlyphs(digits, cursor);
      assert text == padded + Digits(value);
    }

    method PushGlyphs(digits: array<char>, cursor: nat)
      requires cursor <= digits.Length
      modifies this
      ensures text == old(text) + digits[cursor..]
    {
      ghost var glyphs := digits[cursor..];
      var i := cursor;
      while i < digits.Length
        invariant cursor <= i <= digits.Length && text == old(text) + glyphs[..i - cursor]
      {
        text := text + [digits[i]];
        i := i + 1;
      }
    }

    /** Twenty digits at most are asked of a fraction: ten to the twentieth does not fit a word. */
    method WriteFixedPoint(value: int, scale: nat, decimals: nat)
      requires scale > 0 && decimals <= 19
      modifies this
      ensures text == FixedPoint(value, scale, decimals)
    {
      hide Padded, Fraction, Whole, Rest;
      text := "";
      if value < 0 {
        text := text + "-";
      }
      var magnitude := Abs(value);
      PushPadded(Min(Whole(magnitude, scale), U64_MAX), 0);
      if decimals == 0 {
        return;
      }
      text := text + ".";
      FractionFits(Rest(magnitude, scale), scale, decimals);
      PushPadded(Fraction(Rest(magnitude, scale), scale, decimals), decimals);
    }
  }

  /** A label is the value cut at its last place, not rounded: the digits on both sides of the dot, read as one
      number, are the whole units of 10^-decimals in it. */
  lemma FixedPointIsCut(magnitude: nat, scale: nat, decimals: nat)
    requires scale > 0
    ensures var fraction := Fraction(Rest(magnitude, scale), scale, decimals);
            && fraction < Pow10(decimals)
            && Whole(magnitude, scale) * Pow10(decimals) + fraction == magnitude * Pow10(decimals) / scale
  {
    hide Whole, Rest;
    FractionFits(Rest(magnitude, scale), scale, decimals);
    WholeAndRest(magnitude, scale);
    CutAddsUp(Whole(magnitude, scale), scale, Rest(magnitude, scale), Pow10(decimals));
  }

  lemma WholeAndRest(magnitude: nat, scale: nat)
    requires scale > 0
    ensures magnitude == Whole(magnitude, scale) * scale + Rest(magnitude, scale)
  {
  }

  lemma Rearrange(whole: int, scale: int, rest: int, p: int)
    ensures (whole * scale + rest) * p == rest * p + whole * p * scale
  {
  }

  lemma CutAddsUp(whole: int, scale: int, rest: int, p: int)
    requires scale > 0
    ensures whole * p + rest * p / scale == (whole * scale + rest) * p / scale
  {
    Rearrange(whole, scale, rest, p);
    ModShift(rest * p, whole * p, scale);
  }

  // ---------------------------------------------------------------- how many places

  function Strip(value: int, decimals: nat): (left: nat)
    ensures left <= decimals
    decreases decimals
  {
    if decimals > 0 && value % 10 == 0 then Strip(value / 10, decimals - 1) else decimals
  }

  /** The places a mantissa at scale 10^8 needs. */
  function DecimalsFor(mantissa: int): (decimals: nat)
    ensures decimals <= MAX_FRACTIONAL_PLACES
  {
    if mantissa <= 0 then 0 else Strip(mantissa, MAX_FRACTIONAL_PLACES)
  }

  method DecimalsForIncrement(mantissa: I64) returns (decimals: nat)
    ensures decimals == DecimalsFor(mantissa)
  {
    if mantissa <= 0 {
      return 0;
    }
    decimals := MAX_FRACTIONAL_PLACES;
    var value := mantissa;
    while decimals > 0 && value % 10 == 0
      invariant decimals <= MAX_FRACTIONAL_PLACES
      invariant Strip(value, decimals) == Strip(mantissa, MAX_FRACTIONAL_PLACES)
      decreases decimals
    {
      value, decimals := value / 10, decimals - 1;
    }
  }

  /** `p` divides `x`. */
  predicate Divides(p: int, x: int)
    requires p > 0
  {
    x % p == 0
  }

  lemma DividesTimes(p: int, k: int)
    requires p > 0
    ensures Divides(p, k * p)
  {
    ModShift(0, k, p);
  }

  lemma Quotient(p: int, x: int) returns (k: int)
    requires p > 0 && Divides(p, x)
    ensures x == k * p
  {
    DivBounds(x, p);
    k := x / p;
  }

  lemma DividesThrough(p: int, x: int, y: int)
    requires p > 0 && x > 0 && Divides(p, x) && Divides(x, y)
    ensures Divides(p, y)
  {
    var a := Quotient(p, x);
    var b := Quotient(x, y);
    assert b * (a * p) == b * a * p;
    DividesTimes(p, b * a);
  }

  lemma DividesTen(value: int, p: int)
    requires p > 0 && value % 10 == 0
    ensures Divides(10 * p, value) <==> Divides(p, value / 10)
  {
    if Divides(10 * p, value) {
      var k := Quotient(10 * p, value);
      assert value == 10 * (k * p);
      DividesTimes(p, k);
    }
    if Divides(p, value / 10) {
      var k := Quotient(p, value / 10);
      assert value == k * (10 * p);
      DividesTimes(10 * p, k);
    }
  }

  lemma ByTen(value: int, p: int)
    requires p > 0 && Divides(10 * p, value)
    ensures value % 10 == 0
  {
    var k := Quotient(10 * p, value);
    assert value == 10 * (k * p);
  }

  lemma {:induction false} StripIsFewest(value: int, decimals: nat)
    ensures var left := Strip(value, decimals);
            && Divides(Pow10(decimals - left), value)
            && (left > 0 ==> !Divides(Pow10(decimals - left + 1), value))
    decreases decimals
  {
    hide Divides;
    if decimals > 0 && value % 10 == 0 {
      StripIsFewest(value / 10, decimals - 1);
      var left := Strip(value, decimals);
      DividesTen(value, Pow10(decimals - 1 - left));
      DividesTen(value, Pow10(decimals - left));
    } else {
      assert Divides(1, value) by {
        DividesTimes(1, value);
      }
      if decimals > 0 && Divides(10, value) {
        ByTen(value, 1);
      }
    }
  }

  /** The fewest places that show a positive mantissa whole, every one of them needed and none missing; any other
      mantissa is given none. */
  lemma DecimalsAreFewest(mantissa: int)
    ensures var decimals := DecimalsFor(mantissa);
            && (mantissa > 0 ==>
                  && Divides(Pow10(MAX_FRACTIONAL_PLACES - decimals), mantissa)
                  && (decimals > 0 ==> !Divides(Pow10(MAX_FRACTIONAL_PLACES - decimals + 1), mantissa)))
            && (mantissa <= 0 ==> decimals == 0)
  {
    if mantissa > 0 {
      StripIsFewest(mantissa, MAX_FRACTIONAL_PLACES);
    }
  }

  // ---------------------------------------------------------------- printing and reading back

  function PriceDecimals(tick: int): nat {
    DecimalsFor(tick)
  }

  function VenuePrice(price: int, decimals: nat): string {
    FixedPoint(price, FIXED_SCALE, decimals)
  }

  lemma WholeParses(integer: string)
    requires integer != "" && AllDigits(integer) && Value(integer) * Pow10(MAX_FRACTIONAL_PLACES) <= I64_MAX
    ensures Parse(integer) == Ok(Value(integer) * Pow10(MAX_FRACTIONAL_PLACES))
  {
    hide Parse, Value, Pow10;
    assert integer + "" == integer;
    ReadsAreParsed(integer, integer, "", Value(integer) * Pow10(MAX_FRACTIONAL_PLACES));
  }

  /** The mantissa two runs of digits stand for on either side of a dot. */
  function Joined(whole: nat, fraction: nat, decimals: nat): nat
    requires decimals <= MAX_FRACTIONAL_PLACES
  {
    (whole * Pow10(decimals) + fraction) * Pow10(MAX_FRACTIONAL_PLACES - decimals)
  }

  lemma DottedParses(integer: string, fraction: string)
    requires integer != "" && AllDigits(integer) && AllDigits(fraction) && |fraction| <= MAX_FRACTIONAL_PLACES
    requires Joined(Value(integer), Value(fraction), |fraction|) <= I64_MAX
    ensures Parse(integer + ("." + fraction)) == Ok(Joined(Value(integer), Value(fraction), |fraction|))
  {
    hide Parse, Value, Pow10;
    ValueConcat(integer, fraction);
    assert integer + ("." + fraction) == integer + "." + fraction;
    ReadsAreParsed(integer + ("." + fraction), integer, fraction, Joined(Value(integer), Value(fraction), |fraction|));
  }

  lemma ReadBack(whole: nat, fraction: nat, decimals: nat)
    requires decimals <= MAX_FRACTIONAL_PLACES && fraction < Pow10(decimals)
    requires Joined(whole, fraction, decimals) <= I64_MAX
    ensures Parse(Padded(whole, 0) + if decimals == 0 then "" else "." + Padded(fraction, decimals))
            == Ok(Joined(whole, fraction, decimals))
  {
    DigitsDenote(whole);
    PaddedDenotes(whole, 0);
    var integer := Padded(whole, 0);
    if decimals == 0 {
      hide Parse, Padded, Digits, Value;
      assert Pow10(0) == 1 && integer + "" == integer;
      WholeParses(integer);
    } else {
      hide Parse, Padded, Value, Joined;
      DigitsFit(fraction, decimals);
      PaddedDenotes(fraction, decimals);
      hide Digits, Pow10;
      DottedParses(integer, Padded(fraction, decimals));
    }
  }

  lemma DivCancel(x: nat, a: nat, b: nat)
    requires a > 0 && b > 0
    ensures a * b > 0 && x * a / (a * b) == x / b
  {
    MulMono(1, a, b);
    DivBounds(x, b);
    var q := x / b;
    assert q * (a * b) == q * b * a;
    MulMono(q * b, x, a);
    MulMono(x + 1, q * b + b, a);
    DivUnique(x * a, a * b, q);
  }

  /** The units a label of this many places leaves out are the low digits of the mantissa. */
  lemma CutIsTheLowDigits(price: nat, decimals: nat)
    requires decimals <= MAX_FRACTIONAL_PLACES
    ensures var fraction := Fraction(Rest(price, FIXED_SCALE), FIXED_SCALE, decimals);
            && fraction < Pow10(decimals)
            && Joined(Whole(price, FIXED_SCALE), fraction, decimals)
               == price - price % Pow10(MAX_FRACTIONAL_PLACES - decimals)
  {
    hide Pow10, Fraction, Whole, Rest;
    CutDivides(price, decimals);
    DivMod(price, Pow10(MAX_FRACTIONAL_PLACES - decimals));
  }

  lemma CutDivides(price: nat, decimals: nat)
    requires decimals <= MAX_FRACTIONAL_PLACES
    ensures var fraction := Fraction(Rest(price, FIXED_SCALE), FIXED_SCALE, decimals);
            && fraction < Pow10(decimals)
            && Whole(price, FIXED_SCALE) * Pow10(decimals) + fraction == price / Pow10(MAX_FRACTIONAL_PLACES - decimals)
  {
    FixedPointIsCut(price, FIXED_SCALE, decimals);
    BigPowers();
    Pow10Add(decimals, MAX_FRACTIONAL_PLACES - decimals);
    DivCancel(price, Pow10(decimals), Pow10(MAX_FRACTIONAL_PLACES - decimals));
    hide Pow10, Fraction, Whole, Rest;
  }

  lemma PositiveLabel(price: nat, decimals: nat)
    requires price <= I64_MAX
    ensures VenuePrice(price, decimals)
            == Padded(Whole(price, FIXED_SCALE), 0)
               + if decimals == 0 then ""
                    else "." + Padded(Fraction(Rest(price, FIXED_SCALE), FIXED_SCALE, decimals), decimals)
  {
  }

  /** Parsing a printed price gives the price back less what its label had no place for. */
  lemma PrintedPriceParses(price: nat, decimals: nat)
    requires price <= I64_MAX && decimals <= MAX_FRACTIONAL_PLACES
    ensures Parse(VenuePrice(price, decimals)) == Ok(price - price % Pow10(MAX_FRACTIONAL_PLACES - decimals))
  {
    PositiveLabel(price, decimals);
    CutIsTheLowDigits(price, decimals);
    hide Parse, VenuePrice, Padded, Fraction, Whole, Rest, Joined, Pow10;
    ReadBack(Whole(price, FIXED_SCALE), Fraction(Rest(price, FIXED_SCALE), FIXED_SCALE, decimals), decimals);
  }

  /** So the label is the price exactly when the price has no digit past its last place. */
  lemma RoundTripsExactly(price: nat, decimals: nat)
    requires price <= I64_MAX && decimals <= MAX_FRACTIONAL_PLACES
    ensures Parse(VenuePrice(price, decimals)) == Ok(price)
            <==> Divides(Pow10(MAX_FRACTIONAL_PLACES - decimals), price)
  {
    hide Parse, VenuePrice, Pow10;
    PrintedPriceParses(price, decimals);
  }

  /** Every price on the grid of a positive tick survives being printed at the tick's own precision. */
  lemma TickPricesRoundTrip(price: nat, tick: int)
    requires price <= I64_MAX && tick > 0 && Divides(tick, price)
    ensures Parse(VenuePrice(price, PriceDecimals(tick))) == Ok(price)
  {
    hide Parse, VenuePrice, Pow10, Divides, DecimalsFor;
    DecimalsAreFewest(tick);
    DividesThrough(Pow10(MAX_FRACTIONAL_PLACES - PriceDecimals(tick)), tick, price);
    RoundTripsExactly(price, PriceDecimals(tick));
  }

  /** A negative price prints with a sign the parser does not take. */
  lemma NegativePricesDoNotParse(price: int, decimals: nat)
    requires price < 0 && decimals <= MAX_FRACTIONAL_PLACES
    ensures Parse(VenuePrice(price, decimals)) == Err(InvalidChar('-'))
  {
    var magnitude := Abs(price);
    var whole, places := Min(Whole(magnitude, FIXED_SCALE), U64_MAX),
                         Fraction(Rest(magnitude, FIXED_SCALE), FIXED_SCALE, decimals);
    FractionFits(Rest(magnitude, FIXED_SCALE), FIXED_SCALE, decimals);
    hide Whole, Rest, Fraction, Parse, Digits, Padded, Pow10;
    SignedLabel(whole, places, decimals);
  }

  lemma SignedLabel(whole: nat, fraction: nat, decimals: nat)
    requires decimals <= MAX_FRACTIONAL_PLACES && fraction < Pow10(decimals)
    ensures Parse("-" + Padded(whole, 0) + if decimals == 0 then "" else "." + Padded(fraction, decimals))
            == Err(InvalidChar('-'))
  {
    PaddedDenotes(whole, 0);
    var integer := "-" + Padded(whole, 0);
    hide Parse, Padded, Value, Pow10;
    if decimals == 0 {
      SplitAtTheDot(integer, integer, "");
      assert integer + "" == integer;
      SignIsRefused(integer);
    } else {
      var places := Padded(fraction, decimals);
      DigitsFit(fraction, decimals);
      PaddedDenotes(fraction, decimals);
      DigitsAreBytes(places);
      hide Digits, IntegerPart, FractionPart;
      assert integer + ("." + places) == integer + "." + places;
      SplitAtTheDot(integer + "." + places, integer, places);
      SignIsRefused(integer + "." + places);
    }
  }

  // ---------------------------------------------------------------- the half-tick mid

  /** The fewest places from `decimals` up that show the remainder whole, or nine. */
  function MidFrom(remainder: nat, decimals: nat): nat
    decreases MAX_MID_DECIMALS - decimals
  {
    if decimals < MAX_MID_DECIMALS && !Divides(2 * FIXED_SCALE, remainder * Pow10(decimals))
    then MidFrom(remainder, decimals + 1)
    else decimals
  }

  function MidDecimals(twiceMantissa: int, tick: int): nat {
    MidFrom(Abs(twiceMantissa) % (2 * FIXED_SCALE), PriceDecimals(tick))
  }

  method ExactMidDecimals(twiceMantissa: int, tick: I64) returns (decimals: nat)
    ensures decimals == MidDecimals(twiceMantissa, tick)
  {
    var divisor := 2 * FIXED_SCALE;
    var remainder := Abs(twiceMantissa) % divisor;
    decimals := DecimalsForIncrement(tick);
    while decimals < MAX_MID_DECIMALS && remainder * Pow10(decimals) % divisor != 0
      invariant MidFrom(remainder, decimals) == MidDecimals(twiceMantissa, tick)
      decreases MAX_MID_DECIMALS - decimals
    {
      decimals := decimals + 1;
    }
  }

  lemma {:induction false} MidFromIsFewest(remainder: nat, decimals: nat)
    requires decimals <= MAX_MID_DECIMALS
    ensures var stop := MidFrom(remainder, decimals);
            && decimals <= stop <= MAX_MID_DECIMALS
            && Divides(2 * FIXED_SCALE, remainder * Pow10(stop))
            && forall d :: decimals <= d < stop ==> !Divides(2 * FIXED_SCALE, remainder * Pow10(d))
    decreases MAX_MID_DECIMALS - decimals
  {
    if decimals == MAX_MID_DECIMALS {
      BigPowers();
      assert remainder * Pow10(9) == remainder * 5 * (2 * FIXED_SCALE);
      DividesTimes(2 * FIXED_SCALE, remainder * 5);
    } else if !Divides(2 * FIXED_SCALE, remainder * Pow10(decimals)) {
      hide Divides, Pow10;
      MidFromIsFewest(remainder, decimals + 1);
    }
  }

  lemma WholeUnitsDoNotMatter(magnitude: nat, p: nat)
    ensures Divides(2 * FIXED_SCALE, magnitude % (2 * FIXED_SCALE) * p) <==> Divides(2 * FIXED_SCALE, magnitude * p)
  {
    var divisor := 2 * FIXED_SCALE;
    var whole, rest := magnitude / divisor, magnitude % divisor;
    Rearrange(whole, divisor, rest, p);
    ModShift(rest * p, whole * p, divisor);
  }

  /** A mid is shown at no more than nine places, whole, and at the fewest that do so without dropping below the
      tick's own. */
  lemma MidIsExactAndFewest(twiceMantissa: int, tick: int)
    ensures var decimals := MidDecimals(twiceMantissa, tick);
            && PriceDecimals(tick) <= decimals <= MAX_MID_DECIMALS
            && Divides(2 * FIXED_SCALE, Abs(twiceMantissa) * Pow10(decimals))
            && forall d :: PriceDecimals(tick) <= d < decimals ==>
                 !Divides(2 * FIXED_SCALE, Abs(twiceMantissa) * Pow10(d))
  {
    hide Pow10, Divides, Abs, DecimalsFor;
    var magnitude := Abs(twiceMantissa);
    MidFromIsFewest(magnitude % (2 * FIXED_SCALE), PriceDecimals(tick));
    hide MidFrom;
    forall d | PriceDecimals(tick) <= d <= MAX_MID_DECIMALS
      ensures Divides(2 * FIXED_SCALE, magnitude % (2 * FIXED_SCALE) * Pow10(d))
              <==> Divides(2 * FIXED_SCALE, magnitude * Pow10(d))
    {
      WholeUnitsDoNotMatter(magnitude, Pow10(d));
    }
  }

  /** So nothing is cut from its label: the digits on both sides of the dot are the mid itself. */
  lemma MidLabelIsTheMid(twiceMantissa: int, tick: int)
    ensures var magnitude, scale, decimals := Abs(twiceMantissa), 2 * FIXED_SCALE, MidDecimals(twiceMantissa, tick);
            var shown := Whole(magnitude, scale) * Pow10(decimals) + Fraction(Rest(magnitude, scale), scale, decimals);
            shown * scale == magnitude * Pow10(decimals)
  {
    hide Pow10, Abs, MidFrom, DecimalsFor, Whole, Rest, Fraction;
    MidIsExactAndFewest(twiceMantissa, tick);
    var magnitude, decimals := Abs(twiceMantissa), MidDecimals(twiceMantissa, tick);
    FixedPointIsCut(magnitude, 2 * FIXED_SCALE, decimals);
    DivMod(magnitude * Pow10(decimals), 2 * FIXED_SCALE);
  }
}
