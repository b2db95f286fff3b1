/** `GET /webhook`: the subscription handshake. */
module Handshake {
  import opened JsValues
  import opened Payload

  /** The four answers of the handshake handler. */
  datatype VerifyReply =
    | Ready                               // 200, JSON "ready for verification"
    | EchoChallenge(challenge: Option<string>)  // 200, body = hub.challenge
    | Forbidden                           // 403
    | BadRequest                          // 400
  {
    function Code(): int
    {
      match this
      case Ready => 200
      case EchoChallenge(_) => 200
      case Forbidden => 403
      case BadRequest => 400
    }
  }

  /** The handler's decision for request URL `url` with parsed query `q`.
      A URL without `?` is a readiness probe; otherwise a missing or empty mode
      or token is malformed (400), a subscribe with the configured token echoes
      the challenge (200), and anything else is refused (403). */
  function VerifyWebhook(cfg: Config, url: string, q: VerificationQuery): (r: VerifyReply)
    ensures !Includes(url, "?") ==> r == Ready
    ensures Includes(url, "?") ==>
      (r == BadRequest <==> !(Truthy(q.mode) && Truthy(q.token)))
    ensures r.EchoChallenge? <==>
      Includes(url, "?") && q.mode == Some("subscribe") && q.token == Some(VerifyToken(cfg))
    ensures r.EchoChallenge? ==> r.challenge == q.challenge
    ensures r == Forbidden <==>
      Includes(url, "?") && Truthy(q.mode) && Truthy(q.token)
      && !(q.mode.value == "subscribe" && q.token.value == VerifyToken(cfg))
  {
    if !Includes(url, "?") then Ready
    else if Truthy(q.mode) && Truthy(q.token) then
      if q.mode.value == "subscribe" && q.token.value == VerifyToken(cfg) then
        EchoChallenge(q.challenge)
      else
        Forbidden
    else
      BadRequest
  }

  /** A readiness probe is answered the same whatever the query holds. */
  lemma ReadyIgnoresQuery(cfg: Config, url: string, q1: VerificationQuery, q2: VerificationQuery)
    requires !Includes(url, "?")
    ensures VerifyWebhook(cfg, url, q1) == VerifyWebhook(cfg, url, q2) == Ready
  {
  }

  /** The challenge is echoed only to a caller that presented the configured
      token, and the default placeholder is accepted only when no token is
      configured. */
  lemma EchoNeedsConfiguredToken(cfg: Config, url: string, q: VerificationQuery)
    requires VerifyWebhook(cfg, url, q).EchoChallenge?
    ensures q.token == Some(VerifyToken(cfg))
    ensures q.token == Some(DefaultVerifyToken) && Truthy(cfg.verifyTokenEnv) ==>
      cfg.verifyTokenEnv.value == DefaultVerifyToken
  {
  }

  /** Mode and token must be truthy for anything but 400, so the empty string
      is treated exactly like a missing parameter. */
  lemma EmptyIsMissing(cfg: Config, url: string, q: VerificationQuery)
    requires Includes(url, "?")
    requires q.mode == Some("") || q.token == Some("")
    ensures VerifyWebhook(cfg, url, q) == VerifyWebhook(cfg, url, q.(mode := None))
    ensures VerifyWebhook(cfg, url, q).Code() == 400
  {
  }
}
