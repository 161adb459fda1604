/**
 * The widget's timeline provider: the placeholder and snapshot entries,
 * the mapping of the three downloads (Binance ticker, Binance klines,
 * the site's shielded-pool summary) onto `PriceData`, and the choice
 * of timeline after a fetch succeeds or throws.
 *
 * Dates are whole seconds. The clock is the parameter `now`, and the
 * moment the static `PriceData` values were first built is `stamp`.
 */
module PriceProvider {
  import opened Wrappers
  import opened Json
  import opened KlineCodec
  import DecimalText

  const TickerUrl := "https://api.binance.com/api/v3/ticker/24hr?symbol=ZECUSDT"
  const KlinesUrl := "https://api.binance.com/api/v3/klines?symbol=ZECUSDT&interval=2h&limit=12"
  const ShieldedUrl := "https://zecprice.com/api/shielded"

  /** Seconds until the next refresh after a successful and after a failed fetch. */
  const RefreshAfterSuccess := 15 * 60
  const RefreshAfterError := 5 * 60

  /** Index of the close price in a kline row. */
  const CloseIndex := 4

  datatype PriceData = PriceData(
    price: real,
    change24h: real,
    changePercent24h: real,
    high24h: real,
    low24h: real,
    lastUpdated: int,
    sparkline: seq<real>,
    shieldedPercent: real,
    shieldedAmount: real,
    shieldedChange24h: real)

  /** `PriceData.placeholder`: every number zero and no sparkline. */
  function PlaceholderData(stamp: int): (d: PriceData)
    ensures d.sparkline == [] && d.lastUpdated == stamp
    ensures d.price == d.change24h == d.changePercent24h == d.high24h == d.low24h == 0.0
    ensures d.shieldedPercent == d.shieldedAmount == d.shieldedChange24h == 0.0
  {
    PriceData(0.0, 0.0, 0.0, 0.0, 0.0, stamp, [], 0.0, 0.0, 0.0)
  }

  /** `PriceData.sample`, the gallery preview. */
  function SampleData(stamp: int): PriceData {
    PriceData(48.23, 1.12, 2.34, 49.50, 46.80, stamp,
              [45.2, 46.1, 45.8, 47.2, 46.9, 48.0, 47.5, 48.2, 48.1, 48.23],
              23.4, 1234567.0, 0.12)
  }

  datatype PriceEntry = PriceEntry(date: int, data: PriceData, isPlaceholder: bool)

  /** A timeline: its entries and the date after which the system asks again. */
  datatype Timeline = Timeline(entries: seq<PriceEntry>, refreshAfter: int)

  /** `placeholder(in:)`. */
  function Placeholder(now: int, stamp: int): (e: PriceEntry)
    ensures e.isPlaceholder && e.date == now
    ensures e.data == PlaceholderData(stamp) && e.data.sparkline == []
  {
    PriceEntry(now, PlaceholderData(stamp), true)
  }

  /** `getSnapshot(in:completion:)`: the sample data, not flagged as placeholder. */
  function Snapshot(now: int, stamp: int): (e: PriceEntry)
    ensures !e.isPlaceholder && e.date == now && e.data == SampleData(stamp)
    ensures |e.data.sparkline| == 10 && e.data.sparkline[9] == e.data.price
  {
    PriceEntry(now, SampleData(stamp), false)
  }

  // ---------------------------------------------------------------------------
  // Downloads and their decoding

  /** What `URLSession.shared.data(from:)` gives: an error, or bytes that may or may not be JSON. */
  datatype Download = NetworkError(message: string) | Received(body: Option<Json>)

  /** Why `fetchPriceData` throws. */
  datatype FetchError = Network(message: string) | Decoding(error: DecodingError)

  datatype BinanceTicker = BinanceTicker(
    lastPrice: string,
    priceChange: string,
    priceChangePercent: string,
    highPrice: string,
    lowPrice: string)

  datatype ShieldedResponse = ShieldedResponse(percent: real, amount: real, change24h: real)

  const ExpectedObject := "Expected to decode Dictionary<String, Any>"
  const ExpectedString := "Expected to decode String"
  const ExpectedDouble := "Expected to decode Double"
  const NullObject := "Cannot get keyed decoding container -- found null value instead"
  const NullString := "Expected String value but found null instead."
  const NullDouble := "Expected Double value but found null instead."

  /** A required string member of a JSON object. */
  function StringField(fields: map<string, Json>, key: string): (r: Result<string, DecodingError>)
    ensures r.Success? <==> key in fields && fields[key].JString?
    ensures r.Success? ==> r.value == fields[key].s
    ensures key !in fields ==> r == Failure(KeyNotFound(key))
    ensures key in fields && fields[key] == JNull ==> r == Failure(ValueNotFound(NullString))
    ensures key in fields && fields[key] != JNull && !fields[key].JString? ==> r == Failure(TypeMismatch(ExpectedString))
  {
    if key !in fields then Failure(KeyNotFound(key))
    else if fields[key] == JNull then Failure(ValueNotFound(NullString))
    else if fields[key].JString? then Success(fields[key].s)
    else Failure(TypeMismatch(ExpectedString))
  }

  /** A required number member of a JSON object. */
  function NumberField(fields: map<string, Json>, key: string): (r: Result<real, DecodingError>)
    ensures r.Success? <==> key in fields && fields[key].JNumber?
    ensures r.Success? ==> r.value == fields[key].n
    ensures key !in fields ==> r == Failure(KeyNotFound(key))
    ensures key in fields && fields[key] == JNull ==> r == Failure(ValueNotFound(NullDouble))
    ensures key in fields && fields[key] != JNull && !fields[key].JNumber? ==> r == Failure(TypeMismatch(ExpectedDouble))
  {
    if key !in fields then Failure(KeyNotFound(key))
    else if fields[key] == JNull then Failure(ValueNotFound(NullDouble))
    else if fields[key].JNumber? then Success(fields[key].n)
    else Failure(TypeMismatch(ExpectedDouble))
  }

  predicate HasString(j: Json, key: string) {
    j.JObject? && key in j.fields && j.fields[key].JString?
  }

  predicate HasNumber(j: Json, key: string) {
    j.JObject? && key in j.fields && j.fields[key].JNumber?
  }

  /** The synthesized `BinanceTicker` decoder: the five strings, in declaration order; other members are ignored. */
  function DecodeTicker(j: Json): (r: Result<BinanceTicker, DecodingError>)
    ensures r.Success? <==>
              HasString(j, "lastPrice") && HasString(j, "priceChange") && HasString(j, "priceChangePercent")
              && HasString(j, "highPrice") && HasString(j, "lowPrice")
    ensures r.Success? ==>
              r.value == BinanceTicker(j.fields["lastPrice"].s, j.fields["priceChange"].s,
                                       j.fields["priceChangePercent"].s, j.fields["highPrice"].s,
                                       j.fields["lowPrice"].s)
    ensures j == JNull ==> r == Failure(ValueNotFound(NullObject))
    ensures !j.JObject? && j != JNull ==> r == Failure(TypeMismatch(ExpectedObject))
  {
    if j == JNull then Failure(ValueNotFound(NullObject))
    else if !j.JObject? then Failure(TypeMismatch(ExpectedObject))
    else
      var f := j.fields;
      match (StringField(f, "lastPrice"), StringField(f, "priceChange"), StringField(f, "priceChangePercent"),
             StringField(f, "highPrice"), StringField(f, "lowPrice"))
      case (Failure(e), _, _, _, _) => Failure(e)
      case (_, Failure(e), _, _, _) => Failure(e)
      case (_, _, Failure(e), _, _) => Failure(e)
      case (_, _, _, Failure(e), _) => Failure(e)
      case (_, _, _, _, Failure(e)) => Failure(e)
      case (Success(a), Success(b), Success(c), Success(d), Success(e)) => Success(BinanceTicker(a, b, c, d, e))
  }

  /** The synthesized `ShieldedResponse` decoder: three numbers. */
  function DecodeShielded(j: Json): (r: Result<ShieldedResponse, DecodingError>)
    ensures r.Success? <==> HasNumber(j, "percent") && HasNumber(j, "amount") && HasNumber(j, "change24h")
    ensures r.Success? ==>
              r.value == ShieldedResponse(j.fields["percent"].n, j.fields["amount"].n, j.fields["change24h"].n)
    ensures j == JNull ==> r == Failure(ValueNotFound(NullObject))
    ensures !j.JObject? && j != JNull ==> r == Failure(TypeMismatch(ExpectedObject))
  {
    if j == JNull then Failure(ValueNotFound(NullObject))
    else if !j.JObject? then Failure(TypeMismatch(ExpectedObject))
    else
      var f := j.fields;
      match (NumberField(f, "percent"), NumberField(f, "amount"), NumberField(f, "change24h"))
      case (Failure(e), _, _) => Failure(e)
      case (_, Failure(e), _) => Failure(e)
      case (_, _, Failure(e)) => Failure(e)
      case (Success(a), Success(b), Success(c)) => Success(ShieldedResponse(a, b, c))
  }

  /** A download followed by its `JSONDecoder().decode`; the HTTP status is not looked at. */
  function LoadTicker(d: Download): (r: Result<BinanceTicker, FetchError>)
    ensures d.NetworkError? ==> r == Failure(Network(d.message))
    ensures r.Success? <==> d.Received? && d.body.Some? && DecodeTicker(d.body.value).Success?
    ensures r.Success? ==> r.value == DecodeTicker(d.body.value).value
  {
    match d
    case NetworkError(m) => Failure(Network(m))
    case Received(None) => Failure(Decoding(DataCorrupted))
    case Received(Some(j)) =>
      match DecodeTicker(j)
      case Failure(e) => Failure(Decoding(e))
      case Success(t) => Success(t)
  }

  function LoadKlines(d: Download): (r: Result<seq<seq<KlineValue>>, FetchError>)
    ensures d.NetworkError? ==> r == Failure(Network(d.message))
    ensures r.Success? <==> d.Received? && d.body.Some? && DecodeKlines(d.body.value).Success?
    ensures r.Success? ==> r.value == DecodeKlines(d.body.value).value
  {
    match d
    case NetworkError(m) => Failure(Network(m))
    case Received(None) => Failure(Decoding(DataCorrupted))
    case Received(Some(j)) =>
      match DecodeKlines(j)
      case Failure(e) => Failure(Decoding(e))
      case Success(rows) => Success(rows)
  }

  function LoadShielded(d: Download): (r: Result<ShieldedResponse, FetchError>)
    ensures d.NetworkError? ==> r == Failure(Network(d.message))
    ensures r.Success? <==> d.Received? && d.body.Some? && DecodeShielded(d.body.value).Success?
    ensures r.Success? ==> r.value == DecodeShielded(d.body.value).value
  {
    match d
    case NetworkError(m) => Failure(Network(m))
    case Received(None) => Failure(Decoding(DataCorrupted))
    case Received(Some(j)) =>
      match DecodeShielded(j)
      case Failure(e) => Failure(Decoding(e))
      case Success(s) => Success(s)
  }

  // ---------------------------------------------------------------------------
  // Field mapping

  /** `Double(s) ?? 0`. */
  function TickerNumber(s: string): (x: real)
    ensures DecimalText.ParseDouble(s).Some? ==> x == DecimalText.ParseDouble(s).value
    ensures DecimalText.ParseDouble(s).None? ==> x == 0.0
  {
    DecimalText.ParseDouble(s).GetOr(0.0)
  }

  /** A ticker field holding a character no number text uses, such as the `/` of "N/A", ahead of any NUL, reads as zero. */
  lemma TickerTextFallsBackToZero(s: string, i: nat)
    requires i < |s| && DecimalText.Foreign(s[i]) && DecimalText.NoNul(s[..i])
    ensures TickerNumber(s) == 0.0
  {
    DecimalText.ForeignCharacterRejected(s, i);
  }

  /** A ticker field in Binance's fixed-point form reads as whole part plus fraction. */
  lemma TickerFixedPoint(a: string, b: string)
    requires a != [] && DecimalText.AllDigits(a) && DecimalText.AllDigits(b)
    ensures TickerNumber(a + "." + b)
            == DecimalText.Value(a) as real + DecimalText.Value(b) as real / DecimalText.Pow10(|b|) as real
  {
    DecimalText.FixedPointValue(a, b);
  }

  /** A negative change in Binance's form `-a.b` reads as the negated fixed-point value. */
  lemma TickerSignedFixedPoint(a: string, b: string)
    requires a != [] && DecimalText.AllDigits(a) && DecimalText.AllDigits(b)
    ensures TickerNumber("-" + (a + "." + b))
            == -(DecimalText.Value(a) as real + DecimalText.Value(b) as real / DecimalText.Pow10(|b|) as real)
  {
    DecimalText.SignedFixedPointValue(a, b);
  }

  /** Every row has a close price; otherwise `$0[4]` traps. */
  predicate AllHaveClose(rows: seq<seq<KlineValue>>) {
    forall k | 0 <= k < |rows| :: |rows[k]| > CloseIndex
  }

  /** `compactMap`: the present values, in order. */
  function CompactMap(xs: seq<Option<real>>): (r: seq<real>)
    ensures |r| <= |xs|
    decreases |xs|
  {
    if xs == [] then []
    else
      CompactMap(xs[..|xs| - 1])
        + match xs[|xs| - 1] case Some(x) => [x] case None => []
  }

  /** A value is kept exactly when it is present somewhere in the input. */
  lemma {:induction false} CompactMapMembers(xs: seq<Option<real>>, x: real)
    ensures x in CompactMap(xs) <==> Some(x) in xs
    decreases |xs|
  {
    if xs != [] {
      var init := xs[..|xs| - 1];
      CompactMapMembers(init, x);
      assert xs == init + [xs[|xs| - 1]];
    }
  }

  /** With every value present, nothing is dropped and the order is kept. */
  lemma {:induction false} CompactMapAllPresent(xs: seq<Option<real>>)
    requires forall k | 0 <= k < |xs| :: xs[k].Some?
    ensures |CompactMap(xs)| == |xs|
    ensures forall k | 0 <= k < |xs| :: Some(CompactMap(xs)[k]) == xs[k]
    decreases |xs|
  {
    if xs != [] {
      CompactMapAllPresent(xs[..|xs| - 1]);
    }
  }

  /** `compactMap` works piece by piece: the kept values of a concatenation are those of each part, in order. */
  lemma {:induction false} CompactMapConcat(xs: seq<Option<real>>, ys: seq<Option<real>>)
    ensures CompactMap(xs + ys) == CompactMap(xs) + CompactMap(ys)
    decreases |ys|
  {
    if ys != [] {
      var ys' := ys[..|ys| - 1];
      assert (xs + ys)[..|xs + ys| - 1] == xs + ys';
      CompactMapConcat(xs, ys');
    } else {
      assert xs + ys == xs;
    }
  }

  /** A single absent value is dropped; a single present value is kept. */
  lemma CompactMapSingle(x: Option<real>)
    ensures CompactMap([x]) == if x.Some? then [x.value] else []
  {
    assert [x][..0] == [];
  }

  /** The close price of each kline, converted: `$0[4].doubleValue`. */
  function Closes(rows: seq<seq<KlineValue>>): seq<Option<real>>
    requires AllHaveClose(rows)
  {
    seq(|rows|, k requires 0 <= k < |rows| => DoubleValue(rows[k][CloseIndex]))
  }

  /** `klines.compactMap { $0[4].doubleValue }`: the close prices that convert, in order. */
  function Sparkline(rows: seq<seq<KlineValue>>): (r: seq<real>)
    requires AllHaveClose(rows)
    ensures |r| <= |rows|
  {
    CompactMap(Closes(rows))
  }

  /** A number is in the sparkline exactly when some row's close price converts to it. */
  lemma SparklineMembers(rows: seq<seq<KlineValue>>, x: real)
    requires AllHaveClose(rows)
    ensures x in Sparkline(rows) <==> exists k | 0 <= k < |rows| :: DoubleValue(rows[k][CloseIndex]) == Some(x)
  {
    var cs := Closes(rows);
    CompactMapMembers(cs, x);
    if Some(x) in cs {
      var k :| 0 <= k < |cs| && cs[k] == Some(x);
    }
    if k :| 0 <= k < |rows| && DoubleValue(rows[k][CloseIndex]) == Some(x) {
      assert cs[k] == Some(x);
    }
  }

  /** When every close price converts, the sparkline is exactly the closes, one per row. */
  lemma SparklineOfConvertibleCloses(rows: seq<seq<KlineValue>>)
    requires AllHaveClose(rows)
    requires forall k | 0 <= k < |rows| :: DoubleValue(rows[k][CloseIndex]).Some?
    ensures |Sparkline(rows)| == |rows|
    ensures forall k | 0 <= k < |rows| :: Some(Sparkline(rows)[k]) == DoubleValue(rows[k][CloseIndex])
  {
    CompactMapAllPresent(Closes(rows));
  }

  /**
   * The sparkline keeps kline order: for klines read in two parts, it is
   * the sparkline of the first part followed by that of the second.
   */
  lemma SparklineConcat(rows1: seq<seq<KlineValue>>, rows2: seq<seq<KlineValue>>)
    requires AllHaveClose(rows1) && AllHaveClose(rows2)
    ensures AllHaveClose(rows1 + rows2)
    ensures Sparkline(rows1 + rows2) == Sparkline(rows1) + Sparkline(rows2)
  {
    assert AllHaveClose(rows1 + rows2) by {
      forall k | 0 <= k < |rows1 + rows2| ensures |(rows1 + rows2)[k]| > CloseIndex {
        if k >= |rows1| {
          assert (rows1 + rows2)[k] == rows2[k - |rows1|];
        }
      }
    }
    assert Closes(rows1 + rows2) == Closes(rows1) + Closes(rows2);
    CompactMapConcat(Closes(rows1), Closes(rows2));
  }

  /** One kline contributes its close when it converts and nothing when it does not. */
  lemma SparklineOfOneRow(row: seq<KlineValue>)
    requires |row| > CloseIndex
    ensures AllHaveClose([row])
    ensures Sparkline([row]) == match DoubleValue(row[CloseIndex]) case Some(x) => [x] case None => []
  {
    assert Closes([row]) == [DoubleValue(row[CloseIndex])];
    CompactMapSingle(DoubleValue(row[CloseIndex]));
  }

  /** Rows whose close is an integer or whole-number text always contribute their value. */
  lemma SparklineKeepsWholeCloses(rows: seq<seq<KlineValue>>)
    requires AllHaveClose(rows)
    requires forall k | 0 <= k < |rows| :: rows[k][CloseIndex].IntValue?
    ensures Sparkline(rows) == seq(|rows|, k requires 0 <= k < |rows| => rows[k][CloseIndex].num as real)
  {
    SparklineOfConvertibleCloses(rows);
  }

  // ---------------------------------------------------------------------------
  // fetchPriceData and getTimeline

  /** How `fetchPriceData` ends: with data, by throwing, or by trapping on a short kline row. */
  datatype FetchOutcome = Fetched(data: PriceData) | Threw(error: FetchError) | Trapped

  /** The outcome and the URLs requested, in order. */
  datatype Fetch = Fetch(outcome: FetchOutcome, requested: seq<string>)

  /**
   * `fetchPriceData()`: ticker, then klines, then the shielded summary,
   * each download decoded before the next is requested. `now` stands
   * for `Date()`.
   */
  function FetchPriceData(now: int, ticker: Download, klines: Download, shielded: Download): (r: Fetch)
    ensures 0 < |r.requested| <= 3 && r.requested == [TickerUrl, KlinesUrl, ShieldedUrl][..|r.requested|]
    ensures LoadTicker(ticker).Failure? ==> r == Fetch(Threw(LoadTicker(ticker).error), [TickerUrl])
    ensures LoadTicker(ticker).Success? && LoadKlines(klines).Failure? ==>
              r == Fetch(Threw(LoadKlines(klines).error), [TickerUrl, KlinesUrl])
    ensures LoadTicker(ticker).Success? && LoadKlines(klines).Success? && AllHaveClose(LoadKlines(klines).value)
            && LoadShielded(shielded).Failure? ==>
              r == Fetch(Threw(LoadShielded(shielded).error), [TickerUrl, KlinesUrl, ShieldedUrl])
    ensures r.outcome.Trapped? ==> r.requested == [TickerUrl, KlinesUrl]
    ensures r.outcome.Trapped? <==>
              LoadTicker(ticker).Success? && LoadKlines(klines).Success? && !AllHaveClose(LoadKlines(klines).value)
    ensures r.outcome.Fetched? <==>
              LoadTicker(ticker).Success? && LoadKlines(klines).Success? && AllHaveClose(LoadKlines(klines).value)
              && LoadShielded(shielded).Success?
    ensures r.outcome.Fetched? ==>
              var t, s := LoadTicker(ticker).value, LoadShielded(shielded).value;
              r.requested == [TickerUrl, KlinesUrl, ShieldedUrl]
              && r.outcome.data == PriceData(
                   TickerNumber(t.lastPrice), TickerNumber(t.priceChange), TickerNumber(t.priceChangePercent),
                   TickerNumber(t.highPrice), TickerNumber(t.lowPrice), now,
                   Sparkline(LoadKlines(klines).value), s.percent, s.amount, s.change24h)
              && |r.outcome.data.sparkline| <= |LoadKlines(klines).value|
  {
    match LoadTicker(ticker)
    case Failure(e) => Fetch(Threw(e), [TickerUrl])
    case Success(t) =>
      match LoadKlines(klines)
      case Failure(e) => Fetch(Threw(e), [TickerUrl, KlinesUrl])
      case Success(rows) =>
        if !AllHaveClose(rows) then Fetch(Trapped, [TickerUrl, KlinesUrl])
        else
          var sparkline := Sparkline(rows);
          match LoadShielded(shielded)
          case Failure(e) => Fetch(Threw(e), [TickerUrl, KlinesUrl, ShieldedUrl])
          case Success(s) =>
            Fetch(Fetched(PriceData(TickerNumber(t.lastPrice), TickerNumber(t.priceChange),
                                    TickerNumber(t.priceChangePercent), TickerNumber(t.highPrice),
                                    TickerNumber(t.lowPrice), now, sparkline,
                                    s.percent, s.amount, s.change24h)),
                  [TickerUrl, KlinesUrl, ShieldedUrl])
  }

  /**
   * `getTimeline(in:completion:)` after the fetch: one real entry and a
   * refresh in 15 minutes, or one placeholder entry and a refresh in 5
   * minutes. A trap never reaches the completion handler (`None`).
   */
  function GetTimeline(now: int, stamp: int, outcome: FetchOutcome): (r: Option<Timeline>)
    ensures r.None? <==> outcome.Trapped?
    ensures r.Some? ==> |r.value.entries| == 1 && r.value.entries[0].date == now
    ensures r.Some? ==> (r.value.entries[0].isPlaceholder <==> outcome.Threw?)
    ensures outcome.Fetched? ==>
              r.value.entries[0].data == outcome.data && r.value.refreshAfter == now + RefreshAfterSuccess
    ensures outcome.Threw? ==>
              r.value.entries[0] == Placeholder(now, stamp) && r.value.refreshAfter == now + RefreshAfterError
  {
    match outcome
    case Fetched(data) => Some(Timeline([PriceEntry(now, data, false)], now + RefreshAfterSuccess))
    case Threw(_) => Some(Timeline([Placeholder(now, stamp)], now + RefreshAfterError))
    case Trapped => None
  }

  /** The whole provider step: fetch, then choose the timeline. */
  function Refresh(now: int, stamp: int, ticker: Download, klines: Download, shielded: Download): (r: Option<Timeline>)
    ensures LoadTicker(ticker).Failure? ==> r == Some(Timeline([Placeholder(now, stamp)], now + RefreshAfterError))
    ensures r.Some? ==> |r.value.entries| == 1
    ensures r.Some? && !r.value.entries[0].isPlaceholder ==>
              r.value.entries[0].data.lastUpdated == now && r.value.refreshAfter == now + RefreshAfterSuccess
    ensures r.Some? && r.value.entries[0].isPlaceholder ==>
              r.value.entries[0].data == PlaceholderData(stamp) && r.value.refreshAfter == now + RefreshAfterError
  {
    GetTimeline(now, stamp, FetchPriceData(now, ticker, klines, shielded).outcome)
  }

  /**
   * A failed refresh shows the placeholder whatever went wrong and
   * whatever was shown before: the timeline after an error depends on
   * the clock alone.
   */
  lemma ErrorTimelineIgnoresCause(now: int, stamp: int, e1: FetchError, e2: FetchError)
    ensures GetTimeline(now, stamp, Threw(e1)) == GetTimeline(now, stamp, Threw(e2))
    ensures GetTimeline(now, stamp, Threw(e1)).value.entries[0].data == PlaceholderData(stamp)
  {
  }

  /** An unreachable ticker endpoint yields the placeholder timeline without requesting anything else. */
  lemma TickerOutageShowsPlaceholder(now: int, stamp: int, message: string, klines: Download, shielded: Download)
    ensures FetchPriceData(now, NetworkError(message), klines, shielded).requested == [TickerUrl]
    ensures Refresh(now, stamp, NetworkError(message), klines, shielded)
            == Some(Timeline([Placeholder(now, stamp)], now + RefreshAfterError))
  {
  }
}
