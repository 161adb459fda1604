/**
 * The Cloudflare worker that proxies whitelisted JSON-RPC calls to a Zcash
 * node and keeps the node's answers in a response cache keyed by the
 * JSON-RPC method and its parameters.
 */
module RpcProxy {
  import opened Wrappers
  import opened Json
  import opened RpcRequest
  import ZcashRpc

  /** corsHeaders: on every response the worker builds. */
  const CorsHeaders: seq<Header> := [
    ("Access-Control-Allow-Origin", "*"),
    ("Access-Control-Allow-Methods", "POST, OPTIONS"),
    ("Access-Control-Allow-Headers", "Content-Type")
  ]

  /**
   * The headers of the 405: `corsHeaders` as given, plus the `Content-Type` that
   * the `Response` constructor adds to a string body when none is given.
   */
  const TextHeaders: seq<Header> := CorsHeaders + [("Content-Type", "text/plain;charset=UTF-8")]

  /** The headers of the 403 and 500 JSON errors. */
  const JsonHeaders: seq<Header> := CorsHeaders + [("Content-Type", "application/json")]

  /** The headers of a forwarded reply, the one kind of response that is cached. */
  const CachedHeaders: seq<Header> := JsonHeaders + [("Cache-Control", "public, max-age=60")]

  /** The parts of an incoming request the worker reads. */
  datatype Request = Request(httpMethod: string, body: Payload)

  /**
   * The cache key. The worker spells it as the URL
   * `https://cache.local/<method>-<JSON.stringify(params || [])>`; the model
   * keeps the two components that URL is built from.
   */
  datatype CacheKey = CacheKey(name: string, params: Json)

  /** `body.params || []`: absent or falsy params count as the empty list. */
  function EffectiveParams(body: Json): (p: Json)
    ensures Truthy(p)
    ensures Member(body, "params").None? ==> p == JArray([])
    ensures Member(body, "params").Some? && Truthy(Member(body, "params").value) ==> p == Member(body, "params").value
  {
    match Member(body, "params")
    case Some(p) => if Truthy(p) then p else JArray([])
    case None => JArray([])
  }

  /** The cache entry of a permitted request: its method and effective params, and nothing else of the body. */
  function KeyOf(name: string, body: Json): (k: CacheKey)
    ensures k.name == name && Truthy(k.params)
    ensures Member(body, "params").None? ==> k.params == JArray([])
    ensures forall other: Json | Member(other, "params") == Member(body, "params") :: EffectiveParams(other) == k.params
  {
    CacheKey(name, EffectiveParams(body))
  }

  /**
   * Two permitted requests share a cache entry exactly when they name the
   * same method and the same effective params; nothing else in the body
   * (the JSON-RPC `id`, `jsonrpc`) takes part.
   */
  lemma SameKeyIff(name1: string, body1: Json, name2: string, body2: Json)
    ensures KeyOf(name1, body1) == KeyOf(name2, body2) <==>
              name1 == name2 && EffectiveParams(body1) == EffectiveParams(body2)
  {
  }

  /** A body without `params` and one with `params: []` (or `null`) share one entry. */
  lemma OmittedParamsShareKey(name: string, fields: map<string, Json>, empty: Json)
    requires "params" !in fields
    requires empty == JArray([]) || !Truthy(empty)
    ensures KeyOf(name, JObject(fields)) == KeyOf(name, JObject(fields["params" := empty]))
  {
  }

  /** What the cache may hold: forwarded replies, each with the CORS and caching headers. */
  predicate Cacheable(r: Response) {
    r.status == 200 && r.headers == CachedHeaders && r.body.Data?
  }

  class Proxy {
    /** caches.default, as far as this worker uses it. */
    var cache: map<CacheKey, Response>

    ghost predicate Valid()
      reads this
    {
      forall k | k in cache :: Cacheable(cache[k])
    }

    constructor ()
      ensures Valid() && cache == map[]
    {
      cache := map[];
    }

    /**
     * The worker's `fetch`: the guard clauses, then a cache lookup, then on a
     * miss a forward to the node whose reply is stored under the request's key.
     * `env` is ZCASH_RPC_URL; `origin` is the node's answer.
     */
    method Fetch(request: Request, env: Option<string>, origin: OriginRequest -> Upstream)
      returns (response: Response, sent: Option<OriginRequest>)
      requires Valid()
      modifies this
      ensures Valid()
      ensures HasHeader(response.headers, "Access-Control-Allow-Origin", "*")
      ensures match Classify(request.httpMethod, request.body)
              case Preflight => response == Response(200, CorsHeaders, NoBody) && sent.None? && cache == old(cache)
              case WrongVerb => response == Response(405, TextHeaders, Text("Method not allowed")) && sent.None? && cache == old(cache)
              case Failed(m) => response == Response(500, JsonHeaders, ErrorBody(m)) && sent.None? && cache == old(cache)
              case Forbidden(m) => response == Response(403, JsonHeaders, MethodNotAllowed(m)) && sent.None? && cache == old(cache)
              case Permitted(name, body) =>
                var key := KeyOf(name, body);
                if key in old(cache) then
                  response == old(cache)[key] && sent.None? && cache == old(cache)
                else
                  sent == Some(OriginRequest(OriginUrl(env), body)) &&
                  match origin(sent.value)
                  case Threw(m) => response == Response(500, JsonHeaders, ErrorBody(m)) && cache == old(cache)
                  case Replied(_, data) =>
                    response == Response(200, CachedHeaders, Data(data)) && cache == old(cache)[key := response]
      // Away from the cache, the worker decides as the stateless Netlify function does, except that
      // its preflight answers 200 where the function answers 204, and its 405 body is plain text
      // where the function's is JSON: the preflight is left out here and the 405 body is not compared.
      ensures request.httpMethod != "OPTIONS" && (sent.Some? || !Classify(request.httpMethod, request.body).Permitted?) ==>
                var reference := ZcashRpc.Handle(ZcashRpc.Event(request.httpMethod, request.body), env, origin);
                response.status == reference.response.status && sent == reference.sent
                && (response.status != 405 ==> response.body == reference.response.body)
    {
      assert CorsHeaders[0] == ("Access-Control-Allow-Origin", "*");
      assert JsonHeaders[0] == CorsHeaders[0] && CachedHeaders[0] == CorsHeaders[0] && TextHeaders[0] == CorsHeaders[0];
      sent := None;
      if request.httpMethod == "OPTIONS" {
        response := Response(200, CorsHeaders, NoBody);
        return;
      }
      if request.httpMethod != "POST" {
        response := Response(405, TextHeaders, Text("Method not allowed"));
        return;
      }
      match Classify(request.httpMethod, request.body) {
        case Failed(m) =>
          response := Response(500, JsonHeaders, ErrorBody(m));
        case Forbidden(m) =>
          response := Response(403, JsonHeaders, MethodNotAllowed(m));
        case Permitted(name, body) =>
          var key := KeyOf(name, body);
          if key in cache {
            response := cache[key];
          } else {
            sent := Some(OriginRequest(OriginUrl(env), body));
            match origin(sent.value) {
              case Threw(m) =>
                response := Response(500, JsonHeaders, ErrorBody(m));
              case Replied(_, data) =>
                response := Response(200, CachedHeaders, Data(data));
                cache := cache[key := response];
            }
          }
      }
    }
  }

  /**
   * A request answered from the node (or the cache) with 200 is answered from
   * the cache when it is repeated at once: same response, no second forward.
   */
  method RepeatIsServedFromCache(proxy: Proxy, request: Request, env: Option<string>, origin: OriginRequest -> Upstream)
    returns (first: Response, second: Response, secondSent: Option<OriginRequest>)
    requires proxy.Valid()
    modifies proxy
    ensures proxy.Valid()
    ensures first.status == 200 && Classify(request.httpMethod, request.body).Permitted? ==>
              second == first && secondSent.None?
  {
    var firstSent;
    first, firstSent := proxy.Fetch(request, env, origin);
    second, secondSent := proxy.Fetch(request, env, origin);
  }
}
