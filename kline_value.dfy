/**
 * `KlineValue`: one cell of a Binance kline row, which mixes integers
 * (open and close times, trade count) with decimal strings (prices,
 * volumes). Decoding tries Swift's 64-bit `Int` first, then `String`;
 * encoding writes the payload of the case back.
 */
module KlineCodec {
  import opened Wrappers
  import opened Json
  import DecimalText

  const IntMin := -0x8000_0000_0000_0000
  const IntMax := 0x7fff_ffff_ffff_ffff

  /** Swift's `Int` on a 64-bit platform. */
  newtype Int64 = x: int | IntMin <= x <= IntMax

  datatype KlineValue = StringValue(str: string) | IntValue(num: Int64)

  /** Swift's `DecodingError` cases that the widget can meet. */
  datatype DecodingError =
    | TypeMismatch(description: string)
    | ValueNotFound(description: string)
    | KeyNotFound(key: string)
    | DataCorrupted

  const ExpectedStringOrInt := "Expected String or Int"
  const ExpectedArray := "Expected to decode Array<Any>"
  /** `null` where an array was expected: `JSONDecoder` reports the value as missing, not as mistyped. */
  const NullArray := "Cannot get unkeyed decoding container -- found null value instead"

  /** A JSON number Swift decodes as `Int`: integral and within 64 bits. */
  predicate IsInt64(j: Json) {
    j.JNumber? && j.n == j.n.Floor as real && IntMin <= j.n.Floor <= IntMax
  }

  /** `try? container.decode(Int.self)`. */
  function DecodeInt(j: Json): (r: Option<Int64>)
    ensures r.Some? <==> IsInt64(j)
    ensures r.Some? ==> r.value as real == j.n
  {
    if IsInt64(j) then Some(j.n.Floor as Int64) else None
  }

  /** `try? container.decode(String.self)`. */
  function DecodeString(j: Json): (r: Option<string>)
    ensures r.Some? <==> j.JString?
    ensures r.Some? ==> r.value == j.s
  {
    if j.JString? then Some(j.s) else None
  }

  /** `init(from:)`: Int first, then String, otherwise `typeMismatch`. */
  function Decode(j: Json): (r: Result<KlineValue, DecodingError>)
    ensures r.Success? <==> IsInt64(j) || j.JString?
    ensures IsInt64(j) ==> r.Success? && r.value.IntValue? && r.value.num as real == j.n
    ensures j.JString? ==> r == Success(StringValue(j.s))
    ensures r.Failure? ==> r.error == TypeMismatch(ExpectedStringOrInt)
  {
    match DecodeInt(j)
    case Some(n) => Success(IntValue(n))
    case None =>
      match DecodeString(j)
      case Some(s) => Success(StringValue(s))
      case None => Failure(TypeMismatch(ExpectedStringOrInt))
  }

  /** `encode(to:)`: the payload of the case, as a JSON number or string. */
  function Encode(v: KlineValue): (j: Json)
    ensures j.JNumber? <==> v.IntValue?
  {
    match v
    case StringValue(s) => JString(s)
    case IntValue(n) => JNumber(n as real)
  }

  /** Decoding what was encoded gives the value back. */
  lemma DecodeEncode(v: KlineValue)
    ensures Decode(Encode(v)) == Success(v)
  {
    if v.IntValue? {
      assert (v.num as real).Floor == v.num as int;
    }
  }

  /** Encoding what was decoded gives the JSON back. */
  lemma EncodeDecode(j: Json)
    requires Decode(j).Success?
    ensures Encode(Decode(j).value) == j
  {
  }

  /** `doubleValue`: an `.int` always converts; a `.string` converts when it is decimal text. */
  function DoubleValue(v: KlineValue): (r: Option<real>)
    ensures v.IntValue? ==> r == Some(v.num as real)
    ensures v.StringValue? ==> r == DecimalText.ParseDouble(v.str)
  {
    match v
    case StringValue(s) => DecimalText.ParseDouble(s)
    case IntValue(n) => Some(n as real)
  }

  /** A JSON integer in range decodes as `.int` and converts back to its own value. */
  lemma IntegerCellValue(j: Json)
    requires IsInt64(j)
    ensures DoubleValue(Decode(j).value) == Some(j.n)
  {
  }

  /**
   * Binance's quoted prices are strings, so they decode as `.string` even
   * when they look like numbers, and convert through `Double(_:)`.
   */
  lemma QuotedWholeNumberCell(n: nat)
    ensures Decode(JString(DecimalText.NatText(n))) == Success(StringValue(DecimalText.NatText(n)))
    ensures DoubleValue(Decode(JString(DecimalText.NatText(n))).value) == Some(n as real)
  {
    DecimalText.WholeNumberRoundTrip(n);
  }

  // ---------------------------------------------------------------------------
  // `[[KlineValue]]`

  /** Decoding an array of cells: all must decode, and the first failure is reported. */
  function DecodeRow(items: seq<Json>): (r: Result<seq<KlineValue>, DecodingError>)
    ensures r.Success? <==> forall k | 0 <= k < |items| :: Decode(items[k]).Success?
    ensures r.Success? ==> |r.value| == |items| && forall k | 0 <= k < |items| :: Decode(items[k]) == Success(r.value[k])
    decreases |items|
  {
    if items == [] then Success([])
    else
      match Decode(items[0])
      case Failure(e) => Failure(e)
      case Success(v) =>
        match DecodeRow(items[1..])
        case Failure(e) => Failure(e)
        case Success(vs) => Success([v] + vs)
  }

  /** Decoding the rows of an array of arrays. */
  function DecodeRows(rows: seq<Json>): (r: Result<seq<seq<KlineValue>>, DecodingError>)
    ensures r.Success? ==>
              |r.value| == |rows|
              && forall k | 0 <= k < |rows| :: rows[k].JArray? && DecodeRow(rows[k].items) == Success(r.value[k])
    ensures (forall k | 0 <= k < |rows| :: rows[k].JArray? && DecodeRow(rows[k].items).Success?) ==> r.Success?
    ensures |rows| > 0 && rows[0] == JNull ==> r == Failure(ValueNotFound(NullArray))
    decreases |rows|
  {
    if rows == [] then Success([])
    else if rows[0] == JNull then Failure(ValueNotFound(NullArray))
    else if !rows[0].JArray? then Failure(TypeMismatch(ExpectedArray))
    else
      match DecodeRow(rows[0].items)
      case Failure(e) => Failure(e)
      case Success(row) =>
        match DecodeRows(rows[1..])
        case Failure(e) => Failure(e)
        case Success(more) => Success([row] + more)
  }

  /** A `null` row is `valueNotFound` wherever it stands, once the rows before it decode. */
  lemma {:induction false} NullRowAfterGoodRows(rows: seq<Json>, k: nat)
    requires k < |rows| && rows[k] == JNull
    requires forall i | 0 <= i < k :: rows[i].JArray? && DecodeRow(rows[i].items).Success?
    ensures DecodeRows(rows) == Failure(ValueNotFound(NullArray))
    decreases k
  {
    if k > 0 {
      NullRowAfterGoodRows(rows[1..], k - 1);
    }
  }

  /** `JSONDecoder().decode([[KlineValue]].self, ...)` on the parsed reply. */
  function DecodeKlines(j: Json): (r: Result<seq<seq<KlineValue>>, DecodingError>)
    ensures j == JNull ==> r == Failure(ValueNotFound(NullArray))
    ensures !j.JArray? && j != JNull ==> r == Failure(TypeMismatch(ExpectedArray))
    ensures j.JArray? ==> r == DecodeRows(j.items)
  {
    if j == JNull then Failure(ValueNotFound(NullArray))
    else if j.JArray? then DecodeRows(j.items)
    else Failure(TypeMismatch(ExpectedArray))
  }
}
