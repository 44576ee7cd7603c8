/** Wire records (src/link/wire.rs, src/link/envelope.rs). A record is declared once, as a list of field
    kinds, and its writer and reader both follow that list, as the program's record macros do. Every field
    has a fixed width, whatever its value. */
module Wire {
  import opened Common
  import opened Arith

  const LINK_NAME_LEN: nat := 32

  datatype Label =
    | OptionalMantissa | OptionalFloat | RunStateLabel | RunPhaseLabel | ExecutionModeLabel | BookStateLabel
    | EventLabel | SampleLabel | SideLabel | QuoteLevelLabel | OrderStateLabel | LiquidityLabel | GapLabel
    | RejectOriginLabel | RejectReasonLabel | RejectClassLabel | HaltLabel | HaltReasonLabel

  datatype Limit = Topics | Fields | BookLevels | HistorySamples

  datatype DecodeError =
    | Truncated(found: nat)
    | MagicMismatch(magic: int)
    | VersionMismatch(version: int)
    | TokenMismatch(token: int)
    | StrategyMismatch(strategy: int)
    | SchemaMismatch(schema: int)
    | UnknownTopic(topic: int)
    | LengthMismatch(expected: nat, length: nat)
    | CountExceeded(limit: Limit, count: int)
    | NameTooLong(len: int)
    | NameNotUtf8
    | UnknownDiscriminant(field: Label, value: int)
    | OrderCountsInvalid(detailLen: int, totalWorking: int)
    | OrderTerminal(state: int)
    | OrderDuplicate(clientId: int)

  datatype Kind =
    | Unsigned(width: nat)
    | Signed64
    | Count(countWidth: nat, limit: Limit, capacity: nat)
    | OptionalSigned64
    | Variant(field: Label, variants: nat)
    | Name
    | Block(length: nat)

  /** A variant's value is its one-based tag, so zeroed bytes never decode. */
  datatype Value =
    | Number(n: int)
    | Optional(v: Option<int>)
    | Tag(tag: int)
    | Text(bytes: seq<U8>, len: int)
    | Raw(raw: seq<U8>)

  // ---------------------------------------------------------------- little-endian numbers

  function Pow256(n: nat): int {
    if n == 0 then 1 else 256 * Pow256(n - 1)
  }

  function LittleEndian(width: nat, value: nat): (bytes: seq<U8>)
    ensures |bytes| == width
  {
    if width == 0 then [] else [value % 256] + LittleEndian(width - 1, value / 256)
  }

  function FromLittleEndian(bytes: seq<U8>): nat {
    if bytes == [] then 0 else bytes[0] + 256 * FromLittleEndian(bytes[1..])
  }

  lemma {:induction false} NumberRoundTrip(width: nat, value: nat)
    requires value < Pow256(width)
    ensures FromLittleEndian(LittleEndian(width, value)) == value
  {
    if width > 0 {
      NumberRoundTrip(width - 1, value / 256);
      assert LittleEndian(width, value)[1..] == LittleEndian(width - 1, value / 256);
    }
  }

  lemma {:induction false} BytesRoundTrip(bytes: seq<U8>)
    ensures FromLittleEndian(bytes) < Pow256(|bytes|)
    ensures LittleEndian(|bytes|, FromLittleEndian(bytes)) == bytes
  {
    if bytes != [] {
      BytesRoundTrip(bytes[1..]);
      var rest := FromLittleEndian(bytes[1..]);
      assert (bytes[0] + 256 * rest) / 256 == rest && (bytes[0] + 256 * rest) % 256 == bytes[0];
    }
  }

  const TWO_64: int := 0x1_0000_0000_0000_0000

  lemma Pow256Eight()
    ensures Pow256(8) == TWO_64
  {
  }

  function TwosComplement(n: I64): U64 {
    if n < 0 then n + TWO_64 else n
  }

  function FromTwosComplement(word: U64): I64 {
    if word > I64_MAX then word - TWO_64 else word
  }

  // ---------------------------------------------------------------- UTF-8, as RFC 3629 section 4 has it

  predicate IsTail(b: int) {
    0x80 <= b <= 0xBF
  }

  /** Bytes the next character takes, or zero where none can start. */
  function CharWidth(s: seq<U8>): nat {
    if |s| >= 1 && s[0] <= 0x7F then 1
    else if |s| >= 2 && 0xC2 <= s[0] <= 0xDF && IsTail(s[1]) then 2
    else if |s| >= 3 && IsTail(s[1]) && IsTail(s[2])
            && ((s[0] == 0xE0 && s[1] >= 0xA0) || 0xE1 <= s[0] <= 0xEC
                || (s[0] == 0xED && s[1] <= 0x9F) || 0xEE <= s[0] <= 0xEF) then 3
    else if |s| >= 4 && IsTail(s[1]) && IsTail(s[2]) && IsTail(s[3])
            && ((s[0] == 0xF0 && s[1] >= 0x90) || 0xF1 <= s[0] <= 0xF3 || (s[0] == 0xF4 && s[1] <= 0x8F)) then 4
    else 0
  }

  predicate IsUtf8(s: seq<U8>) {
    s == [] || (CharWidth(s) > 0 && IsUtf8(s[CharWidth(s)..]))
  }

  // ---------------------------------------------------------------- one field

  function Width(kind: Kind): nat {
    match kind
    case Unsigned(width) => width
    case Signed64 => 8
    case Count(width, _, _) => width
    case OptionalSigned64 => 9
    case Variant(_, _) => 1
    case Name => 1 + LINK_NAME_LEN
    case Block(length) => length
  }

  /** What a field of this kind can hold. A name's bytes past its length are zero. */
  ghost predicate Fits(kind: Kind, value: Value) {
    match kind
    case Unsigned(width) => value.Number? && 0 <= value.n < Pow256(width)
    case Signed64 => value.Number? && I64_MIN <= value.n <= I64_MAX
    case Count(width, _, capacity) => value.Number? && 0 <= value.n < Pow256(width) && value.n <= capacity
    case OptionalSigned64 => value.Optional? && (value.v.Some? ==> I64_MIN <= value.v.value <= I64_MAX)
    case Variant(_, variants) => value.Tag? && 1 <= value.tag <= variants && value.tag < 256
    case Name =>
      && value.Text? && |value.bytes| == LINK_NAME_LEN && 0 <= value.len <= LINK_NAME_LEN
      && IsUtf8(value.bytes[..value.len])
      && value.bytes[value.len..] == seq(LINK_NAME_LEN - value.len, _ => 0)
    case Block(length) => value.Raw? && |value.raw| == length
  }

  const ABSENT: U8 := 0
  const PRESENT: U8 := 1

  function WriteField(kind: Kind, value: Value): (bytes: seq<U8>)
    requires Fits(kind, value)
    ensures |bytes| == Width(kind)
  {
    match kind
    case Unsigned(width) => LittleEndian(width, value.n)
    case Signed64 => LittleEndian(8, TwosComplement(value.n))
    case Count(width, _, _) => LittleEndian(width, value.n)
    case OptionalSigned64 =>
      if value.v.Some? then [PRESENT] + LittleEndian(8, TwosComplement(value.v.value))
      else [ABSENT] + LittleEndian(8, TwosComplement(0))
    case Variant(_, _) => [value.tag]
    case Name => [value.len] + value.bytes
    case Block(_) => value.raw
  }

  function ReadWord(bytes: seq<U8>): I64
    requires |bytes| == 8
  {
    BytesRoundTrip(bytes);
    Pow256Eight();
    FromTwosComplement(FromLittleEndian(bytes))
  }

  /** None takes as many bytes as Some; a count or a name past its capacity is refused; what follows a name is
      zeroed. */
  function ReadField(kind: Kind, bytes: seq<U8>): Result<Value, DecodeError>
    requires |bytes| == Width(kind)
  {
    match kind
    case Unsigned(_) => Ok(Number(FromLittleEndian(bytes)))
    case Signed64 => Ok(Number(ReadWord(bytes)))
    case Count(_, limit, capacity) =>
      var count := FromLittleEndian(bytes);
      if count > capacity then Err(CountExceeded(limit, count)) else Ok(Number(count))
    case OptionalSigned64 =>
      var word := ReadWord(bytes[1..]);
      if bytes[0] == ABSENT then Ok(Optional(None))
      else if bytes[0] == PRESENT then Ok(Optional(Some(word)))
      else Err(UnknownDiscriminant(OptionalMantissa, bytes[0]))
    case Variant(field, variants) =>
      if 1 <= bytes[0] <= variants then Ok(Tag(bytes[0])) else Err(UnknownDiscriminant(field, bytes[0]))
    case Name =>
      var len := bytes[0];
      if len > LINK_NAME_LEN then Err(NameTooLong(len))
      else if !IsUtf8(bytes[1..1 + len]) then Err(NameNotUtf8)
      else Ok(Text(bytes[1..1 + len] + seq(LINK_NAME_LEN - len, _ => 0), len))
    case Block(_) => Ok(Raw(bytes))
  }

  /** What was written is read back. */
  lemma FieldRoundTrip(kind: Kind, value: Value)
    requires Fits(kind, value)
    ensures ReadField(kind, WriteField(kind, value)) == Ok(value)
  {
    hide LittleEndian, FromLittleEndian, TwosComplement, ReadWord, IsUtf8, Pow256;
    match kind
    case Unsigned(width) => NumberRoundTrip(width, value.n);
    case Signed64 => WordRoundTrip(value.n);
    case Count(width, _, _) => NumberRoundTrip(width, value.n);
    case OptionalSigned64 =>
      var word := if value.v.Some? then value.v.value else 0;
      WordRoundTrip(word);
      assert WriteField(kind, value)[1..] == LittleEndian(8, TwosComplement(word));
    case Variant(_, _) =>
    case Name => NameRoundTrip(value);
    case Block(_) =>
  }

  lemma NameRoundTrip(value: Value)
    requires Fits(Name, value)
    ensures ReadField(Name, WriteField(Name, value)) == Ok(value)
  {
    hide IsUtf8;
    var bytes := WriteField(Name, value);
    assert bytes[1..1 + value.len] == value.bytes[..value.len];
    assert value.bytes == value.bytes[..value.len] + value.bytes[value.len..];
  }

  lemma WordRoundTrip(n: I64)
    ensures ReadWord(LittleEndian(8, TwosComplement(n))) == n
  {
    Pow256Eight();
    NumberRoundTrip(8, TwosComplement(n));
  }

  /** Whatever is read is something a field can hold, so it can be written again. */
  lemma ReadFits(kind: Kind, bytes: seq<U8>)
    requires |bytes| == Width(kind) && ReadField(kind, bytes).Ok?
    ensures Fits(kind, ReadField(kind, bytes).value)
  {
    match kind
    case Unsigned(_) => BytesRoundTrip(bytes);
    case Count(_, _, _) => BytesRoundTrip(bytes);
    case Name =>
      var len := bytes[0];
      var tail := seq(LINK_NAME_LEN - len, _ => 0);
      var text := bytes[1..1 + len] + tail;
      assert text[..len] == bytes[1..1 + len] && text[len..] == tail;
    case _ =>
  }

  // ---------------------------------------------------------------- one record

  type Layout = seq<Kind>

  function LayoutWidth(layout: Layout): nat {
    if layout == [] then 0 else Width(layout[0]) + LayoutWidth(layout[1..])
  }

  ghost predicate AllFit(layout: Layout, values: seq<Value>) {
    |layout| == |values| && forall i :: 0 <= i < |layout| ==> Fits(layout[i], values[i])
  }

  function WriteRecord(layout: Layout, values: seq<Value>): (bytes: seq<U8>)
    requires AllFit(layout, values)
    ensures |bytes| == LayoutWidth(layout)
  {
    if layout == [] then [] else WriteField(layout[0], values[0]) + WriteRecord(layout[1..], values[1..])
  }

  function ReadRecord(layout: Layout, bytes: seq<U8>): (r: Result<seq<Value>, DecodeError>)
    requires |bytes| == LayoutWidth(layout)
    ensures r.Ok? ==> |r.value| == |layout|
  {
    if layout == [] then Ok([])
    else
      match ReadField(layout[0], bytes[..Width(layout[0])])
      case Err(error) => Err(error)
      case Ok(first) =>
        match ReadRecord(layout[1..], bytes[Width(layout[0])..])
        case Err(error) => Err(error)
        case Ok(rest) => Ok([first] + rest)
  }

  lemma {:induction false} RecordRoundTrip(layout: Layout, values: seq<Value>)
    requires AllFit(layout, values)
    ensures ReadRecord(layout, WriteRecord(layout, values)) == Ok(values)
  {
    hide Fits, WriteField, ReadField, Width;
    if layout != [] {
      var bytes := WriteRecord(layout, values);
      FieldRoundTrip(layout[0], values[0]);
      RecordRoundTrip(layout[1..], values[1..]);
      assert bytes[..Width(layout[0])] == WriteField(layout[0], values[0]);
      assert bytes[Width(layout[0])..] == WriteRecord(layout[1..], values[1..]);
      assert values == [values[0]] + values[1..];
    }
  }

  lemma {:induction false} ReadRecordFits(layout: Layout, bytes: seq<U8>)
    requires |bytes| == LayoutWidth(layout) && ReadRecord(layout, bytes).Ok?
    ensures AllFit(layout, ReadRecord(layout, bytes).value)
  {
    if layout != [] {
      ReadFits(layout[0], bytes[..Width(layout[0])]);
      ReadRecordFits(layout[1..], bytes[Width(layout[0])..]);
    }
  }

  lemma {:induction false} LayoutWidthConcat(a: Layout, b: Layout)
    ensures LayoutWidth(a + b) == LayoutWidth(a) + LayoutWidth(b)
  {
    if a == [] {
      assert a + b == b;
    } else {
      assert (a + b)[1..] == a[1..] + b;
      LayoutWidthConcat(a[1..], b);
    }
  }

  function Repeat<T>(item: T, n: nat): (s: seq<T>)
    ensures |s| == n && forall i :: 0 <= i < n ==> s[i] == item
  {
    seq(n, _ => item)
  }

  lemma {:induction false} RepeatedWidth(kind: Kind, n: nat)
    ensures LayoutWidth(Repeat(kind, n)) == n * Width(kind)
  {
    if n > 0 {
      assert Repeat(kind, n)[1..] == Repeat(kind, n - 1);
      RepeatedWidth(kind, n - 1);
      assert n * Width(kind) == (n - 1) * Width(kind) + Width(kind);
    }
  }

  // ---------------------------------------------------------------- the cursors

  /** Writing one piece right behind another is writing them both. */
  lemma TwoWritesAreOne(before: seq<U8>, at: nat, first: seq<U8>, rest: seq<U8>, middle: seq<U8>, after: seq<U8>)
    requires at + |first| + |rest| <= |before|
    requires middle == before[..at] + first + before[at + |first|..]
    requires after == middle[..at + |first|] + rest + middle[at + |first| + |rest|..]
    ensures after == before[..at] + (first + rest) + before[at + |first| + |rest|..]
  {
    assert middle[..at + |first|] == before[..at] + first;
    assert middle[at + |first| + |rest|..] == before[at + |first| + |rest|..];
  }

  class ByteWriter {
    const bytes: array<U8>
    var at: nat

    constructor (bytes: array<U8>)
      ensures this.bytes == bytes && at == 0
    {
      this.bytes, at := bytes, 0;
    }

    /** Writing past the buffer panics, so room is a precondition. */
    method WriteBytes(value: seq<U8>)
      requires at + |value| <= bytes.Length
      modifies this`at, bytes
      ensures at == old(at) + |value|
      ensures bytes[..] == old(bytes[..at]) + value + old(bytes[at + |value|..])
    {
      forall i | 0 <= i < |value| {
        bytes[at + i] := value[i];
      }
      at := at + |value|;
    }

    method Write(layout: Layout, values: seq<Value>)
      requires AllFit(layout, values) && at + LayoutWidth(layout) <= bytes.Length
      modifies this`at, bytes
      ensures at == old(at) + LayoutWidth(layout)
      ensures bytes[..] == old(bytes[..at]) + WriteRecord(layout, values) + old(bytes[at + LayoutWidth(layout)..])
      decreases layout
    {
      hide Fits, Width;
      if layout == [] {
        return;
      }
      var first := WriteField(layout[0], values[0]);
      ghost var rest := WriteRecord(layout[1..], values[1..]);
      ghost var before, start := bytes[..], at;
      assert bytes[..at] == before[..start] && bytes[at + |first|..] == before[start + |first|..];
      WriteBytes(first);
      ghost var middle := bytes[..];
      assert bytes[..at] == middle[..at] && bytes[at + |rest|..] == middle[at + |rest|..];
      Write(layout[1..], values[1..]);
      TwoWritesAreOne(before, start, first, rest, middle, bytes[..]);
      assert bytes[start + |first| + |rest|..] == bytes[..][start + |first| + |rest|..];
    }
  }

  class ByteReader {
    const bytes: seq<U8>
    var at: nat

    constructor (bytes: seq<U8>)
      ensures this.bytes == bytes && at == 0
    {
      this.bytes, at := bytes, 0;
    }

    /** Reading past the datagram would be an invariant violation, so room is a precondition. */
    method Take(n: nat) returns (out: seq<U8>)
      requires at + n <= |bytes|
      modifies this`at
      ensures at == old(at) + n && out == bytes[old(at)..at]
    {
      out := bytes[at..at + n];
      at := at + n;
    }

    /** Past the padding a writer left. */
    method SkipTo(end: nat)
      requires at <= end <= |bytes|
      modifies this`at
      ensures at == end
    {
      at := end;
    }

    /** A record that decodes has consumed exactly its width. */
    method Read(layout: Layout) returns (r: Result<seq<Value>, DecodeError>)
      requires at + LayoutWidth(layout) <= |bytes|
      modifies this`at
      ensures r == ReadRecord(layout, bytes[old(at)..old(at) + LayoutWidth(layout)])
      ensures r.Ok? ==> at == old(at) + LayoutWidth(layout)
      ensures at <= |bytes|
      decreases layout
    {
      if layout == [] {
        return Ok([]);
      }
      ghost var whole := bytes[at..at + LayoutWidth(layout)];
      var taken := Take(Width(layout[0]));
      assert taken == whole[..Width(layout[0])];
      var first := ReadField(layout[0], taken);
      if first.Err? {
        return Err(first.error);
      }
      assert bytes[at..at + LayoutWidth(layout[1..])] == whole[Width(layout[0])..];
      var rest := Read(layout[1..]);
      if rest.Err? {
        return Err(rest.error);
      }
      r := Ok([first.value] + rest.value);
    }
  }
}
