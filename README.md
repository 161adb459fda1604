# zecprice in Dafny

A model of the moving parts of zecprice, a Zcash price and shielded-pool
dashboard, with proofs about them:

- **The shielded-pool sampler** (`netlify/functions/shielded-hourly.js`). It asks
  a Zcash node for the tip height, walks the last 576 blocks every 12
  blocks, turns each block's `valuePools` into a point `{t, h, sp, sa, or, v}`,
  and fetches the tip again if the series does not already end there. In
  `shielded_hourly.dfy` the handler is a method with the stride loop. It is
  proved against `ScanHeights` and `SeriesAt`, functions that describe the
  loop and the whole series in terms of the node's replies. The lemmas prove
  the series is ordered, within the window, on schedule and at most 49 points
  long. They also say exactly when it ends at the tip.
- **The Netlify RPC proxy** (`netlify/functions/zcash-rpc.js`). It is stateless:
  OPTIONS, then wrong verbs, then body parsing, then the four-method whitelist,
  then one forward to the node. It is modelled as the pure function
  `ZcashRpc.Handle`. The guard order shared with the worker is
  `RpcRequest.Classify`.
- **The Cloudflare RPC worker** (`worker/zcash-rpc-proxy.js`). It runs the same
  guards and keeps the node's replies in a response cache keyed by method and
  params. It is modelled as the class `RpcProxy.Proxy`, whose field `cache` is
  a map. `Fetch` states the new cache for every route and keeps the invariant
  that only forwarded 200 replies are cached. Away from the cache it is proved
  to agree with `ZcashRpc.Handle` on status, forward and body, except on
  OPTIONS (200 here, 204 there) and in the 405 body (plain text here, JSON
  there). The headers differ: the worker's 405 carries the CORS headers and the
  `Content-Type: text/plain;charset=UTF-8` that the `Response` constructor
  adds to a string body, and its 200 adds `Cache-Control`.
- **The iOS widget's timeline provider**
  (`ios-widget/ZECPriceWidget/Providers/PriceProvider.swift`):
  - the placeholder and snapshot entries;
  - the mapping of the Binance ticker, the Binance klines and the shielded
    summary onto `PriceData`;
  - the close-price sparkline;
  - the choice of timeline after success or error;
  - the `KlineValue` codec, which tries Int first and then String.

  Swift's `Double(String)` on decimal text is modelled in `decimal_text.dfy` so
  that "ticker text that is not a number reads as 0" can be stated and proved.
  The text is read as a C string, so it ends at its first NUL.

Network replies, the clock and environment variables are parameters:
- the node's replies are function-typed parameters of type `Reply<...>` or
  `Upstream`;
- the three widget downloads are values of type `Download`;
- `now`, `fetchedAt` and `stamp` stand for the clock;
- `env` and `rpcUrl` stand for `ZCASH_RPC_URL`.

Requests sent to the node are returned as traces (`calls`, `sent`,
`requested`), so the contracts can say what is sent and when. Doubles are
exact `real`s.

The model follows the code. Where the repository's comments say otherwise,
the bullet names them; the other bullets are behaviours of the code that are
easy to miss:
- **The sampler takes up to 49 points, not 24.** The comments at
  `netlify/functions/shielded-hourly.js:1-2` and `:32` promise "~24 data
  points (one per hour)" and "hourly intervals". The loop at `:25-33` steps
  12 blocks (about 30 minutes) through 576 blocks, so it visits 49 heights.
- **A throwing block fetch fails the whole sampler.** In the sampler, a
  `getblock` round trip that throws (network error, reply that is not JSON)
  leaves the loop and yields the 500 `Failed to fetch data` response. Only
  replies without `result.valuePools` are skipped.
- **A tip refetch without pool data still succeeds.** The response is 200,
  and the series does not end at the tip.
- **The worker answers OPTIONS with 200.** It is `new Response(null)`, not 204;
  the Netlify function answers 204.
- **The worker caches every reply that parses as JSON**, whatever its HTTP
  status. The code never checks an expiry itself; the 60 seconds of the
  header comment (`worker/zcash-rpc-proxy.js:5`) are only the
  `Cache-Control` it attaches.
- **The Netlify proxy never reports a missing `ZCASH_RPC_URL`.** It falls back
  to `http://127.0.0.1:8232`.
- **The widget never reuses earlier data.** On any error it shows the all-zero
  placeholder, although the comment at
  `ios-widget/ZECPriceWidget/Providers/PriceProvider.swift:30` speaks of
  cached data.

## Model

| member | source | states |
|---|---|---|
| `ShieldedHourly.Handler` | netlify/functions/shielded-hourly.js:4-105 | Unset or empty `ZCASH_RPC_URL` gives 500 `ZCASH_RPC_URL not configured` and sends nothing. A throwing `getblockcount` gives 500 `Failed to fetch data` with its message. Otherwise the requests are `getblockcount`, then the stride loop's requests, then the tip refetch if one is needed. The response is the series of `SeriesAt` with `latestBlock` and the caching headers, or 500 with the thrown message. Status is 200 or 500. On 200 the heights increase, there are at most 49 points, all lie in [tip-576, tip], and the first 50 requests are the count and the 49 stride heights in order. |
| `ShieldedHourly.StrideLoop` | netlify/functions/shielded-hourly.js:28-56 | The `for` loop produces exactly `ScanHeights` over the stride heights: the points pushed, or the first throw and where it happened. It sends one `getblock` request with id `block` per stride height, in increasing order, up to and including the one that threw, and no other request. |
| `ShieldedHourly.PoolValue` | netlify/functions/shielded-hourly.js:43-45 | The first pool entry with the id decides. Its `chainValue`, or 0 when that is absent, is the value. An id missing from `valuePools` gives 0. |
| `ShieldedHourly.Sample` | netlify/functions/shielded-hourly.js:41-55 | A reply without `result` or `result.valuePools` adds nothing. One with pool data adds exactly one point, with that height and the block's time. Its `sp`, `sa` and `or` are the `PoolValue` of `sprout`, `sapling` and `orchard`, each rounded half up to hundredths. Its `v` is the sum of the three unrounded values, rounded once. |
| `ShieldedHourly.SampleNearPools` | netlify/functions/shielded-hourly.js:47-54 | Each of `sp`, `sa` and `or` lies within half a hundredth of its pool's value, and `v` within half a hundredth of the three pools' sum. |
| `ShieldedHourly.RoundCentsWholeHundredths` | netlify/functions/shielded-hourly.js:50-53 | `Math.round(x*100)/100` is always a whole number of hundredths. |
| `ShieldedHourly.RoundCentsClose` | netlify/functions/shielded-hourly.js:50-53 | `Math.round(x*100)/100` moves a value by more than -0.005 and at most +0.005. |
| `ShieldedHourly.RoundCentsOfCents` | netlify/functions/shielded-hourly.js:50-53 | A value already in whole hundredths is unchanged by the rounding. |
| `ShieldedHourly.TotalIsNotSumOfRoundedPools` | netlify/functions/shielded-hourly.js:50-53 | `v` is rounded separately from the pools: for pools 0.005, 0.005 and 0, `v` is not the sum of the rounded `sp`, `sa` and `or`. |
| `ShieldedHourly.Heights` | netlify/functions/shielded-hourly.js:25-33 | The loop visits 49 heights (576/12 + 1). |
| `ShieldedHourly.HeightsSchedule` | netlify/functions/shielded-hourly.js:25-33 | The visited heights increase, the last one is the tip itself, and a height is visited iff it lies in [tip-576, tip] and is a multiple of 12 above the start. |
| `ShieldedHourly.ScanHeights` | netlify/functions/shielded-hourly.js:33-56 | The loop completes iff every `getblock` round trip returns, and then it has at most one point per height. Otherwise it stops at the first height that threw, with that height's message. |
| `ShieldedHourly.ScanStep` | netlify/functions/shielded-hourly.js:39-55 | A height whose round trip returns extends the points by exactly what that reply contributes. |
| `ShieldedHourly.ScanStaysAborted` | netlify/functions/shielded-hourly.js:33-39 | Once a round trip throws, nothing after it changes the outcome: the loop ends in that throw. |
| `ShieldedHourly.ScanPointsFromHeights` | netlify/functions/shielded-hourly.js:33-56 | Every point comes from a visited height whose reply had pool data. The points follow the order of the heights. |
| `ShieldedHourly.ScanKeepsEveryPoolHeight` | netlify/functions/shielded-hourly.js:41-55 | Every visited height whose reply has pool data gives a point. |
| `ShieldedHourly.ScanLast` | netlify/functions/shielded-hourly.js:41-56 | If the last height has pool data, the points end with that height. If not, the last height added nothing. |
| `ShieldedHourly.NeedsTip` | netlify/functions/shielded-hourly.js:59 | For increasing points that are all at most the tip, the refetch is sent iff no point is at the tip. |
| `ShieldedHourly.SeriesAt` | netlify/functions/shielded-hourly.js:33-82 | Once the tip height is known, the function fails iff a stride `getblock` threw, or the series needed the tip refetch and that threw. A successful series is the loop's points followed by at most one more point, and that point is at the tip. |
| `ShieldedHourly.ScanShortOfTip` | netlify/functions/shielded-hourly.js:33-59 | When the loop's points do not end at the tip, none of them is at or above the tip and there are at most 48. |
| `ShieldedHourly.SeriesOrderedAndBounded` | netlify/functions/shielded-hourly.js:25-82 | In a successful series no height repeats and heights strictly increase, including after the tip append. There are at most 49 points, every height is on the stride schedule, and every height lies in [tip-576, tip]. |
| `ShieldedHourly.StrideAbortsAt` | netlify/functions/shielded-hourly.js:33-39 | When the requests before stride position `i` all answered and the one at `i` throws, the whole scan is that throw at `i`: the loop stops there and the points gathered so far are dropped. |
| `ShieldedHourly.SampledCallsStartWithStride` | netlify/functions/shielded-hourly.js:33-38 | Whenever a series is produced, the requests made after the count begin with one `getblock` per stride height, all 49 of them, in increasing order. |
| `ShieldedHourly.SeriesKeepsEveryPoolHeight` | netlify/functions/shielded-hourly.js:33-56 | No stride height with pool data is missing from a successful series. |
| `ShieldedHourly.SeriesEndsAtTipIff` | netlify/functions/shielded-hourly.js:58-82 | A successful series ends at the tip iff the tip had pool data in the loop or in the refetch. Otherwise it still succeeds, stopping short of the tip. |
| `ShieldedHourly.StableNodeAddsNoTipPoint` | netlify/functions/shielded-hourly.js:59-82 | When the refetch answers as the loop did, it never adds a point. |
| `RpcRequest.Classify` | netlify/functions/zcash-rpc.js:29-54 | Guard order: OPTIONS, then any other non-POST, then body parsing, then the whitelist. A body that fails to parse, or parses to `null`, fails. A request is permitted iff it is a POST whose parsed `method` is one of the four allowed strings, and its body is passed on unchanged. A forbidden request carries the `method` it named. |
| `RpcRequest.IsAllowed` | netlify/functions/zcash-rpc.js:47 | `ALLOWED_METHODS.includes(body.method)` holds iff `method` is present and is the string of one of the four allowed methods. Strict equality means no other JSON value matches. |
| `RpcRequest.OriginUrl` | netlify/functions/zcash-rpc.js:56 | The origin is `ZCASH_RPC_URL` when it is set and non-empty, otherwise `http://127.0.0.1:8232`, and never empty. |
| `RpcRequest.UnlistedMethodNeverPermitted` | worker/zcash-rpc-proxy.js:15-20 | A POST naming a method outside the whitelist is forbidden with that method, whatever else its body holds. |
| `ZcashRpc.Handle` | netlify/functions/zcash-rpc.js:20-80 | Every response has the same four headers, so `Access-Control-Allow-Origin: *` is always present. OPTIONS gives 204 with an empty body. The request is forwarded iff the whitelist permits it, with its body unchanged to `OriginUrl`. The statuses are tied to the routes: 405 iff wrong verb, with `{error: "Method not allowed"}`; 403 iff forbidden, naming the method; 200 iff forwarded and the node's reply parsed, with that JSON as body; 500 iff the body failed or the forward threw. The 500 body is `{error: message}` with the message of what threw: the body parse, the `null` body read, or the forward. |
| `ZcashRpc.UpstreamStatusIgnored` | netlify/functions/zcash-rpc.js:59-71 | Any node reply that parses as JSON gives 200, whatever its HTTP status. |
| `ZcashRpc.MissingUrlFallsBack` | netlify/functions/zcash-rpc.js:56-63 | With `ZCASH_RPC_URL` unset, a permitted request goes to `http://127.0.0.1:8232`. |
| `RpcProxy.EffectiveParams` | worker/zcash-rpc-proxy.js:62 | `params \|\| []`: absent params become `[]`, truthy params are kept as given, and the result is always truthy. |
| `RpcProxy.KeyOf` | worker/zcash-rpc-proxy.js:61-64 | The cache key of a permitted request holds its method name and `params \|\| []`. It is always truthy, is `[]` when `params` is absent, and depends on nothing in the body but `params`. |
| `RpcProxy.SameKeyIff` | worker/zcash-rpc-proxy.js:61-64 | Two requests share a cache entry iff they name the same method and the same effective params, as JSON values. `id` and `jsonrpc` play no part. |
| `RpcProxy.OmittedParamsShareKey` | worker/zcash-rpc-proxy.js:62 | Omitted params and `params: []` (or any falsy params) share one entry. |
| `RpcProxy.Proxy.constructor` | worker/zcash-rpc-proxy.js:65 | The cache starts empty and satisfies the invariant. |
| `RpcProxy.Proxy.Fetch` | worker/zcash-rpc-proxy.js:30-99 | Every response carries `Access-Control-Allow-Origin: *`. The invariant is kept: only forwarded 200 replies are cached. OPTIONS gives 200 with no body and the CORS headers. Any other non-POST gives 405 `Method not allowed`, with the CORS headers and `Content-Type: text/plain;charset=UTF-8`. A bad body gives 500, and an unlisted method gives 403 naming it. These routes send nothing and leave the cache unchanged. A cache hit returns the stored response and sends nothing. A miss forwards the body unchanged. A reply becomes 200 with `Cache-Control: public, max-age=60` and is stored under the key, and nothing else changes. A throw gives 500 and stores nothing. Away from the cache, and for every method but OPTIONS, the worker agrees with `ZcashRpc.Handle` on status, forward and body. The one difference is the 405 body. OPTIONS is excluded because the worker answers 200 where the function answers 204. |
| `RpcProxy.RepeatIsServedFromCache` | worker/zcash-rpc-proxy.js:66-91 | A permitted request answered with 200 and repeated at once gets the same response from the cache, and nothing is sent to the node. |
| `DecimalText.WholeNumberRoundTrip` | ios-widget/ZECPriceWidget/Providers/PriceProvider.swift:118 | `Double(_:)` reads the decimal text of a whole number back as that number, bare or with `-` or `+`. |
| `DecimalText.UnsignedParse` | ios-widget/ZECPriceWidget/Providers/PriceProvider.swift:58-62 | Text that starts with a digit has no sign, so the whole text is read as unsigned decimal text. |
| `DecimalText.PlusParse` | ios-widget/ZECPriceWidget/Providers/PriceProvider.swift:58-62 | A leading `+` is dropped: `+s` reads exactly as the unsigned text `s`, and is rejected exactly when `s` is. |
| `DecimalText.MinusParse` | ios-widget/ZECPriceWidget/Providers/PriceProvider.swift:58-62 | A leading `-` negates: `-s` reads as the negation of the unsigned text `s`, and is rejected exactly when `s` is. |
| `DecimalText.NoDigitNoNumber` | ios-widget/ZECPriceWidget/Providers/PriceProvider.swift:58-62 | Decimal text needs a digit: text without a single digit, including the empty text, a lone sign or a lone `.`, is not a number. |
| `DecimalText.NoNulParse` | ios-widget/ZECPriceWidget/Providers/PriceProvider.swift:58-62 | Text without NUL is read whole. |
| `DecimalText.NulEndsText` | ios-widget/ZECPriceWidget/Providers/PriceProvider.swift:58-62 | A NUL ends the text: whatever follows it is never read, so `Double("5\0/")` is 5. |
| `DecimalText.FixedPointValue` | ios-widget/ZECPriceWidget/Providers/PriceProvider.swift:58-62 | Fixed-point text `a.b` parses, and its value is a + b/10^\|b\|. |
| `DecimalText.SignedFixedPointValue` | ios-widget/ZECPriceWidget/Providers/PriceProvider.swift:58-62 | Signed fixed-point text `-a.b` parses to -(a + b/10^\|b\|). |
| `DecimalText.ForeignCharacterRejected` | ios-widget/ZECPriceWidget/Providers/PriceProvider.swift:58-62 | Text with a character that no number text uses (not a digit, letter, sign, point, `_`, parenthesis or NUL), ahead of any NUL, is not a number. |
| `KlineCodec.DecodeInt` | ios-widget/ZECPriceWidget/Providers/PriceProvider.swift:102-105 | Decoding as `Int` succeeds iff the JSON is an integral number within 64 bits, and gives that number. |
| `KlineCodec.DecodeString` | ios-widget/ZECPriceWidget/Providers/PriceProvider.swift:106-109 | Decoding as `String` succeeds iff the JSON is a string, and gives that string. |
| `KlineCodec.Decode` | ios-widget/ZECPriceWidget/Providers/PriceProvider.swift:100-114 | `Int` is tried first and then `String`. Decoding succeeds iff the value is a 64-bit integer or a string. Integers become `.int` with the same value, and strings become `.string`. Anything else is `typeMismatch` "Expected String or Int". |
| `KlineCodec.Encode` | ios-widget/ZECPriceWidget/Providers/PriceProvider.swift:123-129 | Each case writes its payload: a number iff the value is `.int`. |
| `KlineCodec.DecodeEncode` | ios-widget/ZECPriceWidget/Providers/PriceProvider.swift:100-129 | `decode(encode(v)) == v` for every value. |
| `KlineCodec.EncodeDecode` | ios-widget/ZECPriceWidget/Providers/PriceProvider.swift:100-129 | Any JSON that decodes is written back unchanged by `encode`. |
| `KlineCodec.DoubleValue` | ios-widget/ZECPriceWidget/Providers/PriceProvider.swift:116-121 | `.int` always converts to its own value. `.string` converts as `Double(_:)` does. |
| `KlineCodec.IntegerCellValue` | ios-widget/ZECPriceWidget/Providers/PriceProvider.swift:116-121 | A JSON integer decodes and converts back to the same number. |
| `KlineCodec.QuotedWholeNumberCell` | ios-widget/ZECPriceWidget/Providers/PriceProvider.swift:100-121 | A number sent as a string stays `.string` and still converts to its value. |
| `KlineCodec.DecodeRow` | ios-widget/ZECPriceWidget/Providers/PriceProvider.swift:49 | A row decodes iff every cell does, giving one value per cell in order. |
| `KlineCodec.DecodeRows` | ios-widget/ZECPriceWidget/Providers/PriceProvider.swift:49 | The klines decode iff every row is an array that decodes, giving one decoded row per row. A first row that is `null` is `valueNotFound`. |
| `KlineCodec.NullRowAfterGoodRows` | ios-widget/ZECPriceWidget/Providers/PriceProvider.swift:49 | A `null` row at any position is `valueNotFound` once the rows before it decode. |
| `KlineCodec.DecodeKlines` | ios-widget/ZECPriceWidget/Providers/PriceProvider.swift:49 | A `null` reply is `valueNotFound`. Any other reply that is not an array is a type mismatch. An array decodes row by row, and a `null` row is `valueNotFound`. |
| `PriceProvider.PlaceholderData` | ios-widget/ZECPriceWidget/Models/PriceData.swift:93-104 | The placeholder data has every number 0 and an empty sparkline. |
| `PriceProvider.Placeholder` | ios-widget/ZECPriceWidget/Providers/PriceProvider.swift:8-10 | The loading entry is always flagged placeholder, with the all-zero data and no sparkline. |
| `PriceProvider.Snapshot` | ios-widget/ZECPriceWidget/Providers/PriceProvider.swift:13-16 | The gallery entry is never flagged placeholder and shows the sample data: 10 sparkline points ending at the sample price. |
| `PriceProvider.StringField` | ios-widget/ZECPriceWidget/Providers/PriceProvider.swift:81-87 | A ticker member decodes iff it is present and a string. A missing member is `keyNotFound`, a `null` member is `valueNotFound`, and any other member is a type mismatch. |
| `PriceProvider.NumberField` | ios-widget/ZECPriceWidget/Providers/PriceProvider.swift:89-93 | A shielded member decodes iff it is present and a number. A missing member is `keyNotFound`, a `null` member is `valueNotFound`, and any other member is a type mismatch. |
| `PriceProvider.DecodeTicker` | ios-widget/ZECPriceWidget/Providers/PriceProvider.swift:81-87 | The ticker decodes iff all five price members are strings, and gives exactly those strings. Other members are ignored. A `null` reply is `valueNotFound`, and any other reply that is not an object is a type mismatch. |
| `PriceProvider.DecodeShielded` | ios-widget/ZECPriceWidget/Providers/PriceProvider.swift:89-93 | The shielded summary decodes iff `percent`, `amount` and `change24h` are numbers, and gives those numbers. A `null` reply is `valueNotFound`, and any other reply that is not an object is a type mismatch. |
| `PriceProvider.LoadTicker` | ios-widget/ZECPriceWidget/Providers/PriceProvider.swift:42-44 | A network error propagates as itself. Bytes that are not JSON, or JSON that does not decode, throw. Otherwise the decoded ticker is returned. |
| `PriceProvider.LoadKlines` | ios-widget/ZECPriceWidget/Providers/PriceProvider.swift:47-49 | The same for the klines download. |
| `PriceProvider.LoadShielded` | ios-widget/ZECPriceWidget/Providers/PriceProvider.swift:53-55 | The same for the shielded download. |
| `PriceProvider.TickerNumber` | ios-widget/ZECPriceWidget/Providers/PriceProvider.swift:58-62 | `Double(s) ?? 0`: the parsed value when the text is a number, otherwise 0. |
| `PriceProvider.TickerTextFallsBackToZero` | ios-widget/ZECPriceWidget/Providers/PriceProvider.swift:58-62 | A ticker field holding a character that no number text uses, such as the `/` of "N/A" or a space, ahead of any NUL, reads as 0. |
| `PriceProvider.TickerFixedPoint` | ios-widget/ZECPriceWidget/Providers/PriceProvider.swift:58-62 | A ticker field in Binance's fixed-point form `a.b` reads as a + b/10^\|b\|. |
| `PriceProvider.TickerSignedFixedPoint` | ios-widget/ZECPriceWidget/Providers/PriceProvider.swift:59-60 | A negative change in Binance's form `-a.b` reads as -(a + b/10^\|b\|). |
| `PriceProvider.CompactMap` | ios-widget/ZECPriceWidget/Providers/PriceProvider.swift:50 | `compactMap` never returns more values than it is given. |
| `PriceProvider.CompactMapMembers` | ios-widget/ZECPriceWidget/Providers/PriceProvider.swift:50 | A value is kept iff it is present in the input. |
| `PriceProvider.CompactMapAllPresent` | ios-widget/ZECPriceWidget/Providers/PriceProvider.swift:50 | With every value present, nothing is dropped and the order is kept. |
| `PriceProvider.CompactMapConcat` | ios-widget/ZECPriceWidget/Providers/PriceProvider.swift:50 | `compactMap` of a concatenation is the concatenation of the two results, so it keeps input order. |
| `PriceProvider.CompactMapSingle` | ios-widget/ZECPriceWidget/Providers/PriceProvider.swift:50 | A single present value is kept, and a single absent value is dropped. |
| `PriceProvider.Sparkline` | ios-widget/ZECPriceWidget/Providers/PriceProvider.swift:50 | The sparkline has no more points than there are klines. |
| `PriceProvider.SparklineMembers` | ios-widget/ZECPriceWidget/Providers/PriceProvider.swift:50 | A number is in the sparkline iff some kline's close (index 4) converts to it. |
| `PriceProvider.SparklineOfConvertibleCloses` | ios-widget/ZECPriceWidget/Providers/PriceProvider.swift:50 | When every close converts, the sparkline is exactly the closes, one per kline, in order. |
| `PriceProvider.SparklineConcat` | ios-widget/ZECPriceWidget/Providers/PriceProvider.swift:50 | The sparkline of klines read in two parts is the first part's sparkline followed by the second's. |
| `PriceProvider.SparklineOfOneRow` | ios-widget/ZECPriceWidget/Providers/PriceProvider.swift:50 | One kline adds its close (index 4) when it converts, and nothing otherwise. |
| `PriceProvider.SparklineKeepsWholeCloses` | ios-widget/ZECPriceWidget/Providers/PriceProvider.swift:50 | Integer closes all appear, in order, as their values. |
| `PriceProvider.FetchPriceData` | ios-widget/ZECPriceWidget/Providers/PriceProvider.swift:40-69 | The ticker, klines and shielded URLs are requested in that order, each only after the previous one decoded, and the first failure is the error thrown. A ticker failure requests only the ticker URL. A klines failure requests two URLs. A shielded failure, after good klines, requests all three and throws that error. A kline row without index 4 traps after two requests. Success happens iff all three decode and every row has a close. The data then has the five ticker fields through `Double(_:) ?? 0`, the sparkline of the klines, the three shielded numbers and `lastUpdated = now`, with no more sparkline points than klines. |
| `PriceProvider.GetTimeline` | ios-widget/ZECPriceWidget/Providers/PriceProvider.swift:19-36 | There is a timeline iff the fetch did not trap, and it has one entry dated now. The entry is flagged placeholder iff the fetch threw. Success shows the fetched data and refreshes after 15 minutes. An error shows the placeholder entry and refreshes after 5 minutes. |
| `PriceProvider.Refresh` | ios-widget/ZECPriceWidget/Providers/PriceProvider.swift:19-36 | A whole refresh whose ticker fails shows the placeholder and refreshes after 5 minutes. A refresh has one entry. A real entry has `lastUpdated = now` and refreshes after 15 minutes. A placeholder entry shows the all-zero data and refreshes after 5 minutes. |
| `PriceProvider.ErrorTimelineIgnoresCause` | ios-widget/ZECPriceWidget/Providers/PriceProvider.swift:29-35 | The error timeline is the same whatever the error, and it shows the all-zero placeholder data. No earlier data is reused. |
| `PriceProvider.TickerOutageShowsPlaceholder` | ios-widget/ZECPriceWidget/Providers/PriceProvider.swift:19-44 | An unreachable ticker endpoint requests nothing else and yields the placeholder timeline refreshing after 5 minutes. |

## Left out

- Network I/O, `fetch`, `URLSession`, `request.json()` and `JSONDecoder` byte parsing are left out. They appear as parameters that give the reply, a parse error or a thrown message. JSON serialisation (`JSON.stringify`) is left out, so bodies are kept as JSON values.
- Async structure (`Task`, `await`, `ctx.waitUntil`) is not modelled. The model is sequential, and the cache store of the worker happens before the response is returned.
- Clocks are parameters: `fetchedAt` (`new Date().toISOString()`), `now` (`Date()`, read once per refresh) and `stamp` (when the static `PriceData` values were first built). Calendar arithmetic is reduced to adding seconds.
- `console.error` logging in the sampler is not modelled.
- RpcProxy.Proxy.Fetch: the cache behaves as the worker's code expects. The platform's own rules for `caches.default` are not modelled: POST-method keys, expiry after `max-age=60`, and eviction. Entries are kept until replaced.
- RpcProxy.Proxy.Fetch: the cache key is the pair (method, params) as JSON values, not the URL string the worker builds with `JSON.stringify`; see the `RpcProxy.SameKeyIff` line for where the two differ.
- RpcProxy.SameKeyIff: the "iff" holds for the model's keys, not for the worker's URLs, in both directions. Objects are maps here, so params that differ only in key order share a key, while `JSON.stringify` keeps insertion order and gives two URLs. The other way, the URL parser merges params the model keeps apart: `["a b"]` and `["a%20b"]`, `["a\\b"]` and `["a//b"]`, and params holding `/../` dot segments each end in one URL. The model also assumes that `new Request(url, request)` (`worker/zcash-rpc-proxy.js:61-64`) succeeds after `request.json()` has read the body; under the Fetch standard, building a request from a used body throws a `TypeError`, which would turn every permitted request into a 500.
- ZcashRpc.Handle: the 403 body keeps the requested method value. The JavaScript template rendering of it (`'undefined'`, `'[object Object]'`) is not modelled.
- RpcRequest.Classify: a body that parses to a non-object primitive is read with `Member` as having no `method`, which is JavaScript's `undefined`. So it is forbidden, as in the code. Only `null` throws.
- ShieldedHourly.Handler: `getblockcount`'s `result` is taken to be an integer, so JavaScript's coercions of other values are not modelled. A `null` result computes as 0: the loop visits -576 to 0 and sends 49 `getblock` requests, and the refetch sends `String(null)`. The reply is 200 with `latestBlock: null`. A numeric string result also runs the loop, but the strict `!==` then never matches, so the refetch is always sent. A missing or non-numeric result gives `NaN`, which skips the loop. A non-numeric `chainValue` is not modelled either; values are exact reals.
- ShieldedHourly.RoundCentsClose: `Math.round` is modelled on exact reals. Binary floating-point error in `x * 100` is not captured.
- DecimalText.ForeignCharacterRejected: letters, `_`, `(` and `)` do not count as foreign characters. Swift also reads `inf`, `nan(...)` and hexadecimal text, which the model does not parse. So the lemma does not cover text made only of letters and signs, such as `abc`. A foreign character after a NUL is not covered either: Swift stops reading at the NUL, so `"5\0/"` is 5 (`DecimalText.NulEndsText`).
- PriceProvider.TickerTextFallsBackToZero: covers the same characters as `DecimalText.ForeignCharacterRejected`, ahead of any NUL. Text made of letters is not covered. Swift reads `inf` and `nan` as infinity and NaN rather than `nil`, and exact reals cannot hold those values.
- DecimalText.NoDigitNoNumber: holds for the decimal grammar only. Swift also reads digit-free `inf`, `infinity` and `nan` as numbers (infinity and NaN), which exact reals cannot hold, so for those texts the lemma says `nil` where Swift gives a value.
- DecimalText.FixedPointValue: `Double(_:)` is modelled for decimal text only (sign, digits, fraction, exponent). `inf`, `nan`, hexadecimal floats and rounding to the nearest double are not modelled.
- PriceProvider.TickerNumber: values are exact reals, not IEEE doubles.
- KlineCodec.DecodeInt: a JSON number is taken as `Int` iff it is integral and within 64 bits. Foundation's handling of number spellings such as `1e3` is not separated from their value.
- The widget's `PriceData` formatting (`formattedPrice`, `relativeUpdateTime` and the like), the sample with negative change, and the SwiftUI views are left out, because they are presentation on top of the data.
- The shielded percentage and its 24-hour change are computed by a service that is not part of this model. The widget takes them as decoded.

