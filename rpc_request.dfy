/**
 * What the two JSON-RPC proxies (the Netlify function and the Cloudflare
 * worker) share: the method whitelist, the order of their guard clauses,
 * the choice of origin URL, and the shape of an HTTP exchange.
 */
module RpcRequest {
  import opened Wrappers
  import opened Json

  /** ALLOWED_METHODS: the only JSON-RPC methods either proxy forwards. */
  const AllowedMethods: seq<string> := ["getblockcount", "getblock", "getblockhash", "getblockchaininfo"]

  /** The origin used when ZCASH_RPC_URL is unset or empty. */
  const DefaultRpcUrl := "http://127.0.0.1:8232"

  /** The error V8 throws for `body.method` when the body parsed to `null`. */
  const NullBodyMessage := "Cannot read properties of null (reading 'method')"

  /** Reading the request body as JSON: the parser's error message, or the value. */
  datatype Payload = Unparsable(message: string) | Parsed(value: Json)

  type Header = (string, string)

  /**
   * A response body: none (`null`), plain text, a JSON value, or the 403
   * object `{error: "Method '<m>' not allowed"}`, kept as the method value
   * that JavaScript's template string renders into the message.
   */
  datatype Body =
    | NoBody
    | Text(text: string)
    | Data(value: Json)
    | MethodNotAllowed(rpcMethod: Option<Json>)

  datatype Response = Response(status: int, headers: seq<Header>, body: Body)

  /** The POST a proxy sends to the Zcash node: URL and re-serialised body. */
  datatype OriginRequest = OriginRequest(url: string, body: Json)

  /** The origin round trip: `fetch` plus `.json()` either throws or yields a JSON value (whatever the HTTP status). */
  datatype Upstream = Threw(message: string) | Replied(status: int, data: Json)

  /** Where a request ends up after the guard clauses. */
  datatype Route =
    | Preflight
    | WrongVerb
    | Failed(message: string)
    | Forbidden(requested: Option<Json>)
    | Permitted(name: string, body: Json)

  /** The JSON object `{error: message}`. */
  function ErrorBody(message: string): Body {
    Data(JObject(map["error" := JString(message)]))
  }

  /** `ALLOWED_METHODS.includes(body.method)`: strict equality, so only a string can match. */
  function IsAllowed(rpcMethod: Option<Json>): (b: bool)
    ensures b <==> exists i | 0 <= i < |AllowedMethods| :: rpcMethod == Some(JString(AllowedMethods[i]))
  {
    rpcMethod.Some? && rpcMethod.value.JString? && rpcMethod.value.s in AllowedMethods
  }

  predicate HasHeader(headers: seq<Header>, name: string, value: string) {
    exists i | 0 <= i < |headers| :: headers[i] == (name, value)
  }

  /**
   * The guard clauses both handlers run, in their order: OPTIONS, then
   * anything but POST, then parsing the body, then the whitelist.
   */
  function Classify(httpMethod: string, payload: Payload): (r: Route)
    ensures r.Preflight? <==> httpMethod == "OPTIONS"
    ensures r.WrongVerb? <==> httpMethod != "OPTIONS" && httpMethod != "POST"
    ensures r.Failed? <==> httpMethod == "POST" && (payload.Unparsable? || payload.value == JNull)
    ensures r.Permitted? <==>
              httpMethod == "POST" && payload.Parsed? && payload.value != JNull
              && IsAllowed(Member(payload.value, "method"))
    ensures r.Permitted? ==>
              r.name in AllowedMethods && r.body == payload.value
              && Member(r.body, "method") == Some(JString(r.name))
    ensures r.Forbidden? ==> !IsAllowed(r.requested) && r.requested == Member(payload.value, "method")
  {
    if httpMethod == "OPTIONS" then Preflight
    else if httpMethod != "POST" then WrongVerb
    else
      match payload
      case Unparsable(message) => Failed(message)
      case Parsed(body) =>
        if body == JNull then Failed(NullBodyMessage)
        else
          var rpcMethod := Member(body, "method");
          if IsAllowed(rpcMethod) then Permitted(rpcMethod.value.s, body) else Forbidden(rpcMethod)
  }

  /** `env.ZCASH_RPC_URL || DEFAULT_RPC_URL`: an unset or empty setting falls back to the local node. */
  function OriginUrl(env: Option<string>): (url: string)
    ensures url != ""
    ensures env.Some? && env.value != "" ==> url == env.value
    ensures env.None? || env.value == "" ==> url == DefaultRpcUrl
  {
    if env.Some? && env.value != "" then env.value else DefaultRpcUrl
  }

  /** A request for a method outside the whitelist is never permitted, whatever else its body holds. */
  lemma UnlistedMethodNeverPermitted(payload: Payload, rpcMethod: string)
    requires payload.Parsed? && Member(payload.value, "method") == Some(JString(rpcMethod))
    requires rpcMethod !in AllowedMethods
    ensures Classify("POST", payload) == Forbidden(Some(JString(rpcMethod)))
  {
  }
}
