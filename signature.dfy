/** The signature gate at the start of `POST /webhook`. The HMAC-SHA256 hex
    digest and `JSON.stringify` are foreign library calls and are passed in as
    uninterpreted functions. */
module Signature {
  import opened JsValues
  import opened Payload

  /** How the gate lets a request through, or that it rejects it with 401. */
  datatype GateVerdict =
    | SkippedNoSecret   // no app secret configured
    | ProceedUnsigned   // secret configured, but no signature header
    | Verified          // header equals the expected signature
    | Rejected          // 401
  {
    predicate Passes()
    {
      !Rejected?
    }
  }

  /** `"sha256=" + hex(HMAC(secret, JSON.stringify(body)))`. */
  function ExpectedSignature(
    secret: string, body: Envelope,
    hmacHex: (string, string) -> string, stringify: Envelope -> string): string
  {
    "sha256=" + hmacHex(secret, stringify(body))
  }

  /** The gate: with a truthy secret and a truthy header, the header must equal
      the expected signature exactly (plain string comparison); a missing or
      empty header, or a missing or empty secret, lets the request through. */
  function CheckSignature(
    secret: Option<string>, header: Option<string>, body: Envelope,
    hmacHex: (string, string) -> string, stringify: Envelope -> string): (v: GateVerdict)
    ensures v == Rejected <==>
      Truthy(secret) && Truthy(header)
      && header.value != ExpectedSignature(secret.value, body, hmacHex, stringify)
    ensures v == Verified ==>
      Truthy(secret) && header == Some(ExpectedSignature(secret.value, body, hmacHex, stringify))
    ensures !Truthy(secret) ==> v == SkippedNoSecret
    ensures Truthy(secret) && !Truthy(header) ==> v == ProceedUnsigned
    ensures (Truthy(secret) && Truthy(header)
             && header.value == ExpectedSignature(secret.value, body, hmacHex, stringify))
      ==> v == Verified
  {
    if Truthy(secret) then
      if !Truthy(header) then ProceedUnsigned
      else if header.value != ExpectedSignature(secret.value, body, hmacHex, stringify) then Rejected
      else Verified
    else
      SkippedNoSecret
  }

  /** A request signed over the serialisation the server recomputes is never
      rejected. */
  lemma CorrectSignaturePasses(
    secret: Option<string>, body: Envelope,
    hmacHex: (string, string) -> string, stringify: Envelope -> string)
    requires Truthy(secret)
    ensures CheckSignature(secret, Some(ExpectedSignature(secret.value, body, hmacHex, stringify)),
                           body, hmacHex, stringify) == Verified
  {
  }

  /** The gate sees the body only through its re-serialisation: two bodies that
      serialise alike get the same verdict. */
  lemma VerdictDependsOnSerialisation(
    secret: Option<string>, header: Option<string>, b1: Envelope, b2: Envelope,
    hmacHex: (string, string) -> string, stringify: Envelope -> string)
    requires stringify(b1) == stringify(b2)
    ensures CheckSignature(secret, header, b1, hmacHex, stringify)
         == CheckSignature(secret, header, b2, hmacHex, stringify)
  {
  }
}
