/** The shapes of what the webhook server receives and sends, and its
    configuration. JSON properties that the source tests for presence are
    `Option`s; properties it only logs are left out. */
module Payload {
  import opened JsValues

  /** The parsed query of `GET /webhook`: `hub.mode`, `hub.verify_token`
      and `hub.challenge`, each possibly missing. */
  datatype VerificationQuery = VerificationQuery(
    mode: Option<string>,
    token: Option<string>,
    challenge: Option<string>)

  /** One Messenger event of `entry.messaging`; its handler only logs it. */
  datatype MessengerEvent = MessengerEvent(
    sender: string,
    recipient: string,
    timestamp: int,
    messageText: Option<string>,
    postbackPayload: Option<string>)

  /** A business-messaging message. `textBody` is `message.text.body`; it is
      `None` when `text` or `text.body` is missing. */
  datatype InboundMessage = InboundMessage(
    from: string,
    id: string,
    msgType: string,
    textBody: Option<string>)

  /** A delivery status update (`sent`, `delivered`, `read`, `failed`). */
  datatype StatusUpdate = StatusUpdate(id: string, status: string)

  /** The `value` of a change. For field `messages` it is a business-messaging
      value; for other fields only these two optional properties matter. */
  datatype ChangeValue = ChangeValue(
    messages: Option<seq<InboundMessage>>,
    statuses: Option<seq<StatusUpdate>>)

  datatype Change = Change(field: string, value: ChangeValue)

  /** One entry: `messaging` and `changes` may each be present or absent. */
  datatype Entry = Entry(
    id: string,
    messaging: Option<seq<MessengerEvent>>,
    changes: Option<seq<Change>>)

  /** The POST body: `object` (here `objectType`) must be truthy; `entry` is iterated. */
  datatype Envelope = Envelope(objectType: Option<string>, entry: Option<seq<Entry>>)

  /** The outgoing `{messaging_product, to, type, text: {body}}` message. */
  datatype OutboundMessage = OutboundMessage(
    messagingProduct: string,
    to: string,
    msgType: string,
    body: string)

  /** The environment the server reads: `VERIFY_TOKEN`, `META_APP_SECRET`,
      `WHATSAPP_ACCESS_TOKEN` and `WHATSAPP_PHONE_NUMBER_ID`. */
  datatype Config = Config(
    verifyTokenEnv: Option<string>,
    appSecret: Option<string>,
    accessToken: Option<string>,
    phoneNumberId: Option<string>)

  const DefaultVerifyToken: string := "your_unique_verify_token_12345"

  /** `process.env.VERIFY_TOKEN || 'your_unique_verify_token_12345'`: the
      configured token when it is truthy, the placeholder otherwise; never empty. */
  function VerifyToken(cfg: Config): (t: string)
    ensures t != ""
    ensures Truthy(cfg.verifyTokenEnv) ==> t == cfg.verifyTokenEnv.value
    ensures !Truthy(cfg.verifyTokenEnv) ==> t == DefaultVerifyToken
  {
    if Truthy(cfg.verifyTokenEnv) then cfg.verifyTokenEnv.value else DefaultVerifyToken
  }

  /** Both WhatsApp credentials are truthy. */
  predicate HasCredentials(cfg: Config)
  {
    Truthy(cfg.accessToken) && Truthy(cfg.phoneNumberId)
  }
}
