/**
 * The Netlify function that proxies whitelisted JSON-RPC calls to a Zcash
 * node. It keeps no state between calls: each event is answered by a chain
 * of guard clauses and, at most, one forward to the node.
 */
module ZcashRpc {
  import opened Wrappers
  import opened Json
  import opened RpcRequest

  /** The one header set every response of this function carries. */
  const Headers: seq<Header> := [
    ("Access-Control-Allow-Origin", "*"),
    ("Access-Control-Allow-Methods", "POST, OPTIONS"),
    ("Access-Control-Allow-Headers", "Content-Type"),
    ("Content-Type", "application/json")
  ]

  /** The parts of a Netlify event the handler reads. */
  datatype Event = Event(httpMethod: string, body: Payload)

  /** A response together with the request forwarded to the node, if any. */
  datatype Exchange = Exchange(response: Response, sent: Option<OriginRequest>)

  /**
   * The handler. `env` is ZCASH_RPC_URL; `origin` is the node's answer to
   * a forwarded request.
   */
  function Handle(event: Event, env: Option<string>, origin: OriginRequest -> Upstream): (x: Exchange)
    ensures x.response.headers == Headers
    ensures HasHeader(x.response.headers, "Access-Control-Allow-Origin", "*")
    ensures event.httpMethod == "OPTIONS" ==> x.response.status == 204 && x.response.body == Text("")
    ensures x.response.status == 405 <==> event.httpMethod != "OPTIONS" && event.httpMethod != "POST"
    ensures x.response.status == 405 ==> x.response.body == ErrorBody("Method not allowed")
    ensures x.response.status == 403 <==> Classify(event.httpMethod, event.body).Forbidden?
    ensures x.response.status == 403 ==>
              x.response.body == MethodNotAllowed(Member(event.body.value, "method"))
    // Only a whitelisted request reaches the node, and its body is forwarded unchanged.
    ensures x.sent.Some? <==> Classify(event.httpMethod, event.body).Permitted?
    ensures x.sent.Some? ==> x.sent.value == OriginRequest(OriginUrl(env), event.body.value)
    ensures x.response.status == 200 <==> x.sent.Some? && origin(x.sent.value).Replied?
    ensures x.response.status == 200 ==> x.response.body == Data(origin(x.sent.value).data)
    ensures x.response.status == 500 <==>
              Classify(event.httpMethod, event.body).Failed? || (x.sent.Some? && origin(x.sent.value).Threw?)
    // The 500 body is `{error: err.message}` of whatever threw: the body parse, the null body, or the forward.
    ensures x.response.status == 500 ==>
              x.response.body == ErrorBody(
                if event.body.Unparsable? then event.body.message
                else if event.body.value == JNull then NullBodyMessage
                else origin(x.sent.value).message)
  {
    assert Headers[0] == ("Access-Control-Allow-Origin", "*");
    match Classify(event.httpMethod, event.body)
    case Preflight => Exchange(Response(204, Headers, Text("")), None)
    case WrongVerb => Exchange(Response(405, Headers, ErrorBody("Method not allowed")), None)
    case Failed(message) => Exchange(Response(500, Headers, ErrorBody(message)), None)
    case Forbidden(requested) => Exchange(Response(403, Headers, MethodNotAllowed(requested)), None)
    case Permitted(_, body) =>
      var request := OriginRequest(OriginUrl(env), body);
      match origin(request)
      case Threw(message) => Exchange(Response(500, Headers, ErrorBody(message)), Some(request))
      case Replied(_, data) => Exchange(Response(200, Headers, Data(data)), Some(request))
  }

  /** The node's HTTP status never shows: any reply that parses as JSON is answered with 200. */
  lemma UpstreamStatusIgnored(event: Event, env: Option<string>, origin: OriginRequest -> Upstream)
    requires Classify(event.httpMethod, event.body).Permitted?
    requires origin(OriginRequest(OriginUrl(env), event.body.value)).Replied?
    ensures Handle(event, env, origin).response.status == 200
  {
  }

  /** A missing ZCASH_RPC_URL is not an error here: the request goes to the local node. */
  lemma MissingUrlFallsBack(event: Event, origin: OriginRequest -> Upstream)
    requires Classify(event.httpMethod, event.body).Permitted?
    ensures Handle(event, None, origin).sent == Some(OriginRequest(DefaultRpcUrl, event.body.value))
  {
  }
}
