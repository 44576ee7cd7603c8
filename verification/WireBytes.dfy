/** What the codec's bytes are (src/link/wire.rs): numbers least significant byte first, fields one after another in
    declaration order. */
module WireBytes {
  import opened Common
  import opened Arith
  import opened Wire

  // ---------------------------------------------------------------- the bytes of a number

  /** `width` bytes from `at` on hold `value`, least significant first. A negative value is held in two's complement,
      which is what Euclidean division makes of it. */
  ghost predicate NumberAt(bytes: seq<U8>, at: nat, width: nat, value: int) {
    && at + width <= |bytes|
    && forall i :: 0 <= i < width ==> bytes[at + i] == PlaceOf(value, i)
  }

  lemma {:induction false} Pow256Positive(n: nat)
    ensures Pow256(n) > 0
  {
    if n > 0 {
      Pow256Positive(n - 1);
    }
  }

  /** The `i`-th digit of a number in base 256. */
  function PlaceOf(value: int, i: nat): int {
    Pow256Positive(i);
    value / Pow256(i) % 256
  }

  lemma DivByParts(value: int, a: int, b: int)
    requires a > 0 && b > 0
    ensures a * b > 0 && value / a / b == value / (a * b)
  {
    MulMono(1, b, a);
    DivBounds(value, a);
    DivBounds(value / a, b);
    var q := value / a / b;
    MulMono(q * b, value / a, a);
    MulMono(value / a + 1, q * b + b, a);
    assert q * b * a == q * (a * b) && (q * b + b) * a == q * (a * b) + a * b;
    DivUnique(value, a * b, q);
  }

  /** Writing a number puts its digit `i` in byte `i`. */
  lemma {:induction false} BytesAreDigits(width: nat, value: nat, i: nat)
    requires i < width
    ensures LittleEndian(width, value)[i] == PlaceOf(value, i)
  {
    Pow256Positive(i);
    if i > 0 {
      BytesAreDigits(width - 1, value / 256, i - 1);
      Pow256Positive(i - 1);
      DivByParts(value, 256, Pow256(i - 1));
    }
  }

  /** The sum of the first `n` bytes, each at its place. */
  function PlaceSum(bytes: seq<U8>, n: nat): int
    requires n <= |bytes|
  {
    if n == 0 then 0 else PlaceSum(bytes, n - 1) + bytes[n - 1] * Pow256(n - 1)
  }

  lemma {:induction false} PlaceSumShifts(bytes: seq<U8>, n: nat)
    requires 0 < n <= |bytes|
    ensures PlaceSum(bytes, n) == bytes[0] + 256 * PlaceSum(bytes[1..], n - 1)
  {
    if n > 1 {
      PlaceSumShifts(bytes, n - 1);
      var last, place := bytes[n - 1], Pow256(n - 2);
      assert bytes[1..][n - 2] == last && Pow256(n - 1) == 256 * place;
      assert PlaceSum(bytes, n) == PlaceSum(bytes, n - 1) + last * (256 * place);
      assert PlaceSum(bytes[1..], n - 1) == PlaceSum(bytes[1..], n - 2) + last * place;
      hide PlaceSum, Pow256;
      assert last * (256 * place) == 256 * (last * place);
    }
  }

  /** Reading a number adds its bytes up, each at its place. */
  lemma {:induction false} ReadingAddsUp(bytes: seq<U8>)
    ensures FromLittleEndian(bytes) == PlaceSum(bytes, |bytes|)
  {
    if bytes != [] {
      ReadingAddsUp(bytes[1..]);
      PlaceSumShifts(bytes, |bytes|);
    }
  }

  /** A whole number of turns further on, the digits below are the same. */
  lemma {:induction false} DigitsRepeat(value: int, n: nat, i: nat)
    requires i < n
    ensures PlaceOf(value + Pow256(n), i) == PlaceOf(value, i)
  {
    Pow256Positive(i);
    PowersSplit(i, n - 1 - i);
    var p, rest := Pow256(i), Pow256(n - 1 - i);
    assert Pow256(n) == 256 * rest * p;
    ModShift(value, 256 * rest, p);
    ModShift(value / p, rest, 256);
  }

  lemma {:induction false} PowersSplit(a: nat, b: nat)
    ensures Pow256(a + b) == Pow256(a) * Pow256(b)
  {
    if a > 0 {
      PowersSplit(a - 1, b);
    }
  }

  lemma UnsignedBytes(width: nat, value: nat)
    ensures NumberAt(LittleEndian(width, value), 0, width, value)
  {
    forall i | 0 <= i < width
      ensures LittleEndian(width, value)[i] == PlaceOf(value, i)
    {
      BytesAreDigits(width, value, i);
    }
  }

  lemma SignedBytes(n: I64)
    ensures NumberAt(LittleEndian(8, TwosComplement(n)), 0, 8, n)
  {
    UnsignedBytes(8, TwosComplement(n));
    if n < 0 {
      Pow256Eight();
      forall i | 0 <= i < 8
        ensures PlaceOf(TwosComplement(n), i) == PlaceOf(n, i)
      {
        DigitsRepeat(n, 8, i);
      }
    }
  }

  // ---------------------------------------------------------------- the bytes of a field

  ghost predicate FieldAt(bytes: seq<U8>, at: nat, kind: Kind, value: Value) {
    match kind
    case Unsigned(width) => value.Number? && NumberAt(bytes, at, width, value.n)
    case Signed64 => value.Number? && NumberAt(bytes, at, 8, value.n)
    case Count(width, _, _) => value.Number? && NumberAt(bytes, at, width, value.n)
    case OptionalSigned64 =>
      && value.Optional? && at < |bytes| && bytes[at] == (if value.v.Some? then 1 else 0)
      && NumberAt(bytes, at + 1, 8, if value.v.Some? then value.v.value else 0)
    case Variant(_, _) => value.Tag? && at < |bytes| && bytes[at] == value.tag
    case Name =>
      && value.Text? && at + 1 + LINK_NAME_LEN <= |bytes| && bytes[at] == value.len
      && bytes[at + 1..at + 1 + LINK_NAME_LEN] == value.bytes
    case Block(length) => value.Raw? && at + length <= |bytes| && bytes[at..at + length] == value.raw
  }

  /** A field written is laid out as its kind says. */
  lemma FieldIsLaidOut(kind: Kind, value: Value)
    requires Fits(kind, value)
    ensures FieldAt(WriteField(kind, value), 0, kind, value)
  {
    hide LittleEndian, TwosComplement, IsUtf8, PlaceOf;
    match kind
    case Unsigned(width) => UnsignedBytes(width, value.n);
    case Signed64 => SignedBytes(value.n);
    case Count(width, _, _) => UnsignedBytes(width, value.n);
    case OptionalSigned64 =>
      var n := if value.v.Some? then value.v.value else 0;
      SignedBytes(n);
      assert WriteField(kind, value)[1..] == LittleEndian(8, TwosComplement(n));
    case Variant(_, _) =>
    case Name => assert WriteField(kind, value)[1..1 + LINK_NAME_LEN] == value.bytes;
    case Block(_) =>
  }

  /** And a number read is the one its bytes hold. */
  lemma NumbersReadWhatIsThere(kind: Kind, bytes: seq<U8>)
    requires |bytes| == Width(kind) && ReadField(kind, bytes).Ok?
    requires kind.Unsigned? || kind.Signed64? || kind.Count?
    ensures FieldAt(bytes, 0, kind, ReadField(kind, bytes).value)
  {
    hide PlaceOf, LittleEndian, FromLittleEndian, Pow256;
    BytesRoundTrip(bytes);
    Pow256Eight();
    if kind.Signed64? {
      var n := ReadField(kind, bytes).value.n;
      assert TwosComplement(n) == FromLittleEndian(bytes);
      SignedBytes(n);
    } else {
      UnsignedBytes(|bytes|, FromLittleEndian(bytes));
    }
  }

  lemma FieldMoves(bytes: seq<U8>, at: nat, kind: Kind, value: Value, before: seq<U8>, after: seq<U8>)
    requires FieldAt(bytes, at, kind, value)
    ensures FieldAt(before + bytes + after, |before| + at, kind, value)
  {
    hide PlaceOf;
    var all := before + bytes + after;
    assert forall i :: 0 <= i < |bytes| ==> all[|before| + i] == bytes[i];
    match kind
    case Name =>
      assert all[|before| + at + 1..|before| + at + 1 + LINK_NAME_LEN] == bytes[at + 1..at + 1 + LINK_NAME_LEN];
    case Block(length) => assert all[|before| + at..|before| + at + length] == bytes[at..at + length];
    case _ =>
  }

  // ---------------------------------------------------------------- the bytes of a record

  /** The fields lie one behind another from `at` on. */
  ghost predicate LaidOut(bytes: seq<U8>, at: nat, layout: Layout, values: seq<Value>)
    decreases layout
  {
    layout != [] ==>
      && values != [] && FieldAt(bytes, at, layout[0], values[0])
      && LaidOut(bytes, at + Width(layout[0]), layout[1..], values[1..])
  }

  lemma {:induction false} LayoutMoves(bytes: seq<U8>, at: nat, layout: Layout, values: seq<Value>,
                                       before: seq<U8>, after: seq<U8>)
    requires LaidOut(bytes, at, layout, values)
    ensures LaidOut(before + bytes + after, |before| + at, layout, values)
    decreases layout
  {
    hide FieldAt, Width;
    if layout != [] {
      FieldMoves(bytes, at, layout[0], values[0], before, after);
      LayoutMoves(bytes, at + Width(layout[0]), layout[1..], values[1..], before, after);
    }
  }

  /** A record written is its fields' bytes in declaration order. */
  lemma {:induction false} RecordIsLaidOut(layout: Layout, values: seq<Value>)
    requires AllFit(layout, values)
    ensures LaidOut(WriteRecord(layout, values), 0, layout, values)
    decreases layout
  {
    hide FieldAt, Width, Fits, WriteField;
    if layout != [] {
      var first, rest := WriteField(layout[0], values[0]), WriteRecord(layout[1..], values[1..]);
      FieldIsLaidOut(layout[0], values[0]);
      FieldMoves(first, 0, layout[0], values[0], [], rest);
      RecordIsLaidOut(layout[1..], values[1..]);
      LayoutMoves(rest, 0, layout[1..], values[1..], first, []);
      assert [] + first + rest == first + rest && first + rest + [] == first + rest;
    }
  }

  lemma LaidOutInThrees(bytes: seq<U8>, at: nat, layout: Layout, values: seq<Value>)
    requires LaidOut(bytes, at, layout, values) && |layout| == |values| >= 3
    ensures FieldAt(bytes, at, layout[0], values[0])
    ensures FieldAt(bytes, at + Width(layout[0]), layout[1], values[1])
    ensures FieldAt(bytes, at + Width(layout[0]) + Width(layout[1]), layout[2], values[2])
    ensures LaidOut(bytes, at + Width(layout[0]) + Width(layout[1]) + Width(layout[2]), layout[3..], values[3..])
  {
    hide FieldAt, Width;
    var a, b := at + Width(layout[0]), at + Width(layout[0]) + Width(layout[1]);
    assert layout[1..][1..] == layout[2..] && layout[2..][1..] == layout[3..];
    assert values[1..][1..] == values[2..] && values[2..][1..] == values[3..];
    assert LaidOut(bytes, a, layout[1..], values[1..]);
    assert LaidOut(bytes, b, layout[2..], values[2..]);
  }

  lemma {:induction false} LaidOutPast(bytes: seq<U8>, at: nat, head: Layout, tail: Layout, values: seq<Value>)
    requires |values| == |head| + |tail| && LaidOut(bytes, at, head + tail, values)
    ensures LaidOut(bytes, at, head, values[..|head|])
    ensures LaidOut(bytes, at + LayoutWidth(head), tail, values[|head|..])
    decreases head
  {
    hide FieldAt, Width;
    if head == [] {
      assert head + tail == tail && values[0..] == values;
    } else {
      assert (head + tail)[1..] == head[1..] + tail;
      assert values[1..][..|head| - 1] == values[..|head|][1..] && values[1..][|head| - 1..] == values[|head|..];
      LaidOutPast(bytes, at + Width(head[0]), head[1..], tail, values[1..]);
    }
  }

  /** In a run of fields of one kind the `i`-th lies `i` widths on. */
  lemma {:induction false} LaidOutRun(bytes: seq<U8>, at: nat, kind: Kind, n: nat, values: seq<Value>, i: nat)
    requires |values| == n && LaidOut(bytes, at, Repeat(kind, n), values) && i < n
    ensures FieldAt(bytes, at + i * Width(kind), kind, values[i])
    decreases n
  {
    hide FieldAt, Width;
    if i > 0 {
      assert Repeat(kind, n)[1..] == Repeat(kind, n - 1);
      LaidOutRun(bytes, at + Width(kind), kind, n - 1, values[1..], i - 1);
      assert at + Width(kind) + (i - 1) * Width(kind) == at + i * Width(kind);
    }
  }

  /** Kinds whose bytes are their value and nothing else. */
  predicate Verbatim(kind: Kind) {
    kind.Unsigned? || kind.Signed64? || kind.Count? || kind.Block?
  }

  /** What a record of such fields reads is what lies there. */
  lemma {:induction false} RecordsReadWhatIsThere(layout: Layout, bytes: seq<U8>)
    requires |bytes| == LayoutWidth(layout) && ReadRecord(layout, bytes).Ok?
    requires forall i :: 0 <= i < |layout| ==> Verbatim(layout[i])
    ensures LaidOut(bytes, 0, layout, ReadRecord(layout, bytes).value)
    decreases layout
  {
    hide FieldAt, Width, ReadField;
    if layout != [] {
      var first, rest := bytes[..Width(layout[0])], bytes[Width(layout[0])..];
      var values := ReadRecord(layout, bytes).value;
      VerbatimFieldReads(layout[0], first);
      RecordsReadWhatIsThere(layout[1..], rest);
      assert values[1..] == ReadRecord(layout[1..], rest).value;
      FieldMoves(first, 0, layout[0], values[0], [], rest);
      LayoutMoves(rest, 0, layout[1..], values[1..], first, []);
      assert [] + first + rest == bytes && first + rest + [] == bytes;
    }
  }

  lemma VerbatimFieldReads(kind: Kind, bytes: seq<U8>)
    requires |bytes| == Width(kind) && ReadField(kind, bytes).Ok? && Verbatim(kind)
    ensures FieldAt(bytes, 0, kind, ReadField(kind, bytes).value)
  {
    hide NumberAt;
    if kind.Block? {
      assert bytes[0..|bytes|] == bytes;
    } else {
      NumbersReadWhatIsThere(kind, bytes);
    }
  }

  // ---------------------------------------------------------------- text

  /** A character of RFC 3629: any code point but a surrogate. */
  predicate IsScalar(c: int) {
    0 <= c <= 0x10_FFFF && !(0xD800 <= c <= 0xDFFF)
  }

  /** Its bytes, as section 3 of RFC 3629 lays them out. */
  function CharBytes(c: int): (bytes: seq<U8>)
    requires IsScalar(c)
    ensures 1 <= |bytes| <= 4
  {
    if c <= 0x7F then [c]
    else if c <= 0x7FF then [Lead(0xC0, c / 0x40), TailByte(c)]
    else if c <= 0xFFFF then [Lead(0xE0, c / 0x1000), TailByte(c / 0x40), TailByte(c)]
    else [Lead(0xF0, c / 0x4_0000), TailByte(c / 0x1000), TailByte(c / 0x40), TailByte(c)]
  }

  function Lead(mark: U8, bits: int): U8
    requires 0 <= bits && mark + bits < 0x100
  {
    mark + bits
  }

  function TailByte(bits: int): U8 {
    0x80 + bits % 0x40
  }

  function TextBytes(text: seq<int>): seq<U8>
    requires forall c :: c in text ==> IsScalar(c)
  {
    if text == [] then [] else CharBytes(text[0]) + TextBytes(text[1..])
  }

  lemma TailsAreTails(bits: int)
    ensures IsTail(TailByte(bits))
  {
  }

  lemma ThreeBytesAreRecognised(c: int, rest: seq<U8>)
    requires IsScalar(c) && 0x7FF < c <= 0xFFFF
    ensures CharWidth(CharBytes(c) + rest) == 3
  {
    var high: int, low: int := c / 0x1000, c / 0x40 % 0x40;
    TailsAreTails(c / 0x40);
    TailsAreTails(c);
    assert (high == 0 ==> low >= 0x20) && (high == 13 ==> low < 0x20) && 0 <= high <= 15;
    hide IsTail;
    var s := CharBytes(c) + rest;
    assert |s| >= 3 && s[0] == 0xE0 + high && s[1] == 0x80 + low && s[2] == TailByte(c);
    hide CharBytes, IsScalar;
  }

  lemma FourBytesAreRecognised(c: int, rest: seq<U8>)
    requires IsScalar(c) && 0xFFFF < c
    ensures CharWidth(CharBytes(c) + rest) == 4
  {
    var high: int, low: int := c / 0x4_0000, c / 0x1000 % 0x40;
    TailsAreTails(c / 0x1000);
    TailsAreTails(c / 0x40);
    TailsAreTails(c);
    assert (high == 0 ==> low >= 0x10) && (high == 4 ==> low < 0x10) && 0 <= high <= 4;
    hide IsTail;
    var s := CharBytes(c) + rest;
    assert |s| >= 4 && s[0] == 0xF0 + high && s[1] == 0x80 + low && s[2] == TailByte(c / 0x40) && s[3] == TailByte(c);
    hide CharBytes, IsScalar;
  }

  lemma CharIsRecognised(c: int, rest: seq<U8>)
    requires IsScalar(c)
    ensures CharWidth(CharBytes(c) + rest) == |CharBytes(c)|
  {
    if c > 0xFFFF {
      FourBytesAreRecognised(c, rest);
      hide CharWidth;
    } else if c > 0x7FF {
      ThreeBytesAreRecognised(c, rest);
      hide CharWidth;
    }
  }

  /** A number from its digits in base 64. */
  lemma Sextets(high: int, a: int, b: int)
    requires 0 <= a < 0x40 && 0 <= b < 0x40
    ensures var c := high * 0x1000 + a * 0x40 + b;
            c / 0x1000 == high && c / 0x40 == high * 0x40 + a && c / 0x40 % 0x40 == a && c % 0x40 == b
  {
  }

  lemma ShortCharIsRead(s: seq<U8>) returns (c: int)
    requires 1 <= CharWidth(s) <= 2
    ensures CharWidth(s) <= |s| && IsScalar(c) && CharBytes(c) == s[..CharWidth(s)]
  {
    var lead: int := s[0];
    if lead <= 0x7F {
      c := lead;
    } else {
      var a: int := s[1] - 0x80;
      c := (lead - 0xC0) * 0x40 + a;
      Sextets(0, lead - 0xC0, a);
    }
  }

  lemma ThreeBytesAreRead(s: seq<U8>) returns (c: int)
    requires CharWidth(s) == 3
    ensures 3 <= |s| && IsScalar(c) && CharBytes(c) == s[..3]
  {
    var lead: int, a: int, b: int := s[0], s[1] - 0x80, s[2] - 0x80;
    c := (lead - 0xE0) * 0x1000 + a * 0x40 + b;
    Sextets(lead - 0xE0, a, b);
    assert 0x7FF < c <= 0xFFFF;
  }

  lemma FourBytesAreRead(s: seq<U8>) returns (c: int)
    requires CharWidth(s) == 4
    ensures 4 <= |s| && IsScalar(c) && CharBytes(c) == s[..4]
  {
    var lead: int, a: int, b: int, d: int := s[0], s[1] - 0x80, s[2] - 0x80, s[3] - 0x80;
    c := ((lead - 0xF0) * 0x40 + a) * 0x1000 + b * 0x40 + d;
    Sextets((lead - 0xF0) * 0x40 + a, b, d);
    Sextets(0, lead - 0xF0, a);
    assert 0xFFFF < c <= 0x10_FFFF && c / 0x4_0000 == lead - 0xF0;
  }

  /** Every recognised start is some character's bytes. */
  lemma CharIsRead(s: seq<U8>) returns (c: int)
    requires CharWidth(s) > 0
    ensures CharWidth(s) <= |s| && IsScalar(c) && CharBytes(c) == s[..CharWidth(s)]
  {
    hide CharBytes, IsScalar;
    if CharWidth(s) <= 2 {
      c := ShortCharIsRead(s);
    } else if CharWidth(s) == 3 {
      c := ThreeBytesAreRead(s);
    } else {
      c := FourBytesAreRead(s);
    }
  }

  /** A name's bytes are accepted exactly when they are the bytes of some text. */
  lemma {:induction false} TextIsAccepted(text: seq<int>)
    requires forall c :: c in text ==> IsScalar(c)
    ensures IsUtf8(TextBytes(text))
  {
    if text != [] {
      var first, rest := CharBytes(text[0]), TextBytes(text[1..]);
      TextIsAccepted(text[1..]);
      CharIsRecognised(text[0], rest);
      hide CharWidth, CharBytes;
      assert (first + rest)[|first|..] == rest;
    }
  }

  lemma {:induction false} AcceptedIsText(s: seq<U8>) returns (text: seq<int>)
    requires IsUtf8(s)
    ensures (forall c :: c in text ==> IsScalar(c)) && TextBytes(text) == s
    decreases |s|
  {
    hide CharWidth, CharBytes;
    if s == [] {
      text := [];
    } else {
      var c := CharIsRead(s);
      var rest := AcceptedIsText(s[CharWidth(s)..]);
      text := [c] + rest;
      assert text[1..] == rest && s == s[..CharWidth(s)] + s[CharWidth(s)..];
    }
  }
}
