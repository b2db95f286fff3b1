/** `handleWhatsAppEvent` and `sendWhatsAppResponse`: the business-messaging
    handler and the decision of what, if anything, to send back. The HTTP
    request to the messaging API is the abstract send of the returned message. */
module WhatsApp {
  import opened JsValues
  import opened Payload
  import opened Replies

  /** The fixed texts handed to the reply composer for non-text messages. */
  const ImageAck: string := "Thanks for the image! \U{1F4F8}"
  const DocumentAck: string := "Thanks for the document! \U{1F4C4}"
  const OtherAck: string := "Thanks for your message! \U{1F44D}"

  /** `value.messages[0]` when `messages` is present and non-empty. */
  function FirstMessage(value: ChangeValue): (m: Option<InboundMessage>)
    ensures m.Some? <==> value.messages.Some? && |value.messages.value| > 0
    ensures m.Some? ==> m.value == value.messages.value[0]
  {
    if value.messages.Some? && |value.messages.value| > 0 then Some(value.messages.value[0]) else None
  }

  /** `value.statuses[0]`, the only status the handler looks at (to log it). */
  function FirstStatus(value: ChangeValue): (s: Option<StatusUpdate>)
    ensures s.Some? <==> value.statuses.Some? && |value.statuses.value| > 0
    ensures s.Some? ==> s.value == value.statuses.value[0]
  {
    if value.statuses.Some? && |value.statuses.value| > 0 then Some(value.statuses.value[0]) else None
  }

  /** The text handed to the composer for a message: its body for a text
      message (`None` when `text.body` is missing, where the handler throws
      before anything is sent), a fixed acknowledgement otherwise. */
  function ComposerInput(m: InboundMessage): (t: Option<string>)
    ensures m.msgType == "text" ==> t == m.textBody
    ensures m.msgType == "image" ==> t == Some(ImageAck)
    ensures m.msgType == "document" ==> t == Some(DocumentAck)
    ensures m.msgType !in {"text", "image", "document"} ==> t == Some(OtherAck)
  {
    if m.msgType == "text" then m.textBody
    else if m.msgType == "image" then Some(ImageAck)
    else if m.msgType == "document" then Some(DocumentAck)
    else Some(OtherAck)
  }

  /** The message the handler sends for a change value, if any: at most one,
      built from the first message only, addressed to its sender, and only
      when both credentials are configured. Statuses play no part. */
  function WhatsAppReply(cfg: Config, value: ChangeValue, clock: string): (r: Option<OutboundMessage>)
    ensures r.Some? <==>
      HasCredentials(cfg) && FirstMessage(value).Some? && ComposerInput(FirstMessage(value).value).Some?
    ensures r.Some? ==>
      && r.value.to == value.messages.value[0].from
      && r.value.messagingProduct == "whatsapp" && r.value.msgType == "text"
    ensures r.Some? && value.messages.value[0].msgType == "text" ==>
      r.value.body == GenerateResponse(value.messages.value[0].textBody.value, clock)
    ensures r.Some? && value.messages.value[0].msgType != "text" ==>
      r.value.body == GratitudeText
  {
    match FirstMessage(value)
    case None => None
    case Some(m) =>
      match ComposerInput(m)
      case None => None
      case Some(text) =>
        if HasCredentials(cfg) then
          AcknowledgementsGetGratitude(clock);
          Some(OutboundMessage("whatsapp", m.from, "text", GenerateResponse(text, clock)))
        else
          None
  }

  /** `sendWhatsAppResponse(to, userMessage)`: without both credentials
      nothing is sent; otherwise the composed reply is sent to `to`. */
  method SendWhatsAppResponse(cfg: Config, to: string, userMessage: string, clock: string)
    returns (sent: Option<OutboundMessage>)
    ensures sent.Some? <==> HasCredentials(cfg)
    ensures sent.Some? ==>
      sent.value == OutboundMessage("whatsapp", to, "text", GenerateResponse(userMessage, clock))
  {
    if !Truthy(cfg.accessToken) || !Truthy(cfg.phoneNumberId) {
      return None;
    }
    var responseMessage := GenerateResponse(userMessage, clock);
    sent := Some(OutboundMessage("whatsapp", to, "text", responseMessage));
  }

  /** `handleWhatsAppEvent(value)`: answers the first message (if any) and
      notes the first status (if any); the two are independent. */
  method HandleWhatsAppEvent(cfg: Config, value: ChangeValue, clock: string)
    returns (sent: Option<OutboundMessage>, loggedStatus: Option<StatusUpdate>)
    ensures sent == WhatsAppReply(cfg, value, clock)
    ensures loggedStatus == FirstStatus(value)
  {
    sent := None;
    if value.messages.Some? && |value.messages.value| > 0 {
      var message := value.messages.value[0];
      var from := message.from;
      if message.msgType == "text" {
        if message.textBody.Some? {
          sent := SendWhatsAppResponse(cfg, from, message.textBody.value, clock);
        }
      } else if message.msgType == "image" {
        sent := SendWhatsAppResponse(cfg, from, ImageAck, clock);
      } else if message.msgType == "document" {
        sent := SendWhatsAppResponse(cfg, from, DocumentAck, clock);
      } else {
        sent := SendWhatsAppResponse(cfg, from, OtherAck, clock);
      }
    }
    loggedStatus := None;
    if value.statuses.Some? && |value.statuses.value| > 0 {
      loggedStatus := Some(value.statuses.value[0]);
    }
  }

  /** Only `messages[0]` matters: later messages never change the reply. */
  lemma OnlyFirstMessageCounts(cfg: Config, value: ChangeValue, clock: string)
    requires value.messages.Some? && |value.messages.value| > 0
    ensures WhatsAppReply(cfg, value, clock)
         == WhatsAppReply(cfg, value.(messages := Some([value.messages.value[0]])), clock)
  {
  }

  /** Status updates never cause or change a send. */
  lemma StatusesNeverSend(cfg: Config, value: ChangeValue, statuses: Option<seq<StatusUpdate>>, clock: string)
    ensures WhatsAppReply(cfg, value.(statuses := statuses), clock) == WhatsAppReply(cfg, value, clock)
    ensures value.messages.None? ==> WhatsAppReply(cfg, value, clock).None?
  {
  }

  /** Each fixed acknowledgement contains "thank" and no earlier keyword, so
      the composer turns all three into the gratitude reply. */
  lemma AcknowledgementsGetGratitude(clock: string)
    ensures GenerateResponse(ImageAck, clock) == GratitudeText
    ensures GenerateResponse(DocumentAck, clock) == GratitudeText
    ensures GenerateResponse(OtherAck, clock) == GratitudeText
  {
    ImageAckIsGratitude(clock);
    DocumentAckIsGratitude(clock);
    OtherAckIsGratitude(clock);
  }

  lemma ImageAckIsGratitude(clock: string)
    ensures GenerateResponse(ImageAck, clock) == GratitudeText
  {
    var m := ImageAckNormalForm();
    ImageAckKeywords(m);
    GratitudeWhenOnlyThanks(ImageAck, clock);
  }

  lemma ImageAckNormalForm() returns (m: string)
    ensures m == "thanks for the image! \U{1F4F8}"
    ensures Normalize(ImageAck) == m
  {
    m := "thanks for the image! \U{1F4F8}";
    assert Lower(ImageAck) == m;
    NormalizedAlready(m);
  }

  lemma DocumentAckIsGratitude(clock: string)
    ensures GenerateResponse(DocumentAck, clock) == GratitudeText
  {
    var m := DocumentAckNormalForm();
    DocumentAckKeywords(m);
    GratitudeWhenOnlyThanks(DocumentAck, clock);
  }

  lemma DocumentAckNormalForm() returns (m: string)
    ensures m == "thanks for the document! \U{1F4C4}"
    ensures Normalize(DocumentAck) == m
  {
    m := "thanks for the document! \U{1F4C4}";
    assert Lower(DocumentAck) == m;
    NormalizedAlready(m);
  }

  lemma OtherAckIsGratitude(clock: string)
    ensures GenerateResponse(OtherAck, clock) == GratitudeText
  {
    var m := OtherAckNormalForm();
    OtherAckKeywords(m);
    GratitudeWhenOnlyThanks(OtherAck, clock);
  }

  lemma OtherAckNormalForm() returns (m: string)
    ensures m == "thanks for your message! \U{1F44D}"
    ensures Normalize(OtherAck) == m
  {
    m := "thanks for your message! \U{1F44D}";
    assert Lower(OtherAck) == m;
    NormalizedAlready(m);
  }

  /** What the three acknowledgements have in common: they start with
      "thank", lack the letters 'l' and 'p' (so no "hello", "help" or
      "support"), and hold neither "hi" nor "hey". */
  lemma ThanksOnlyByLetters(m: string)
    requires OccursAt(m, "thank", 0)
    requires 'l' !in m && 'p' !in m
    requires !Includes(m, "hi") && !Includes(m, "hey")
    ensures ThanksOnly(m)
  {
    LacksCharacter(m, "hello", 'l');
    LacksCharacter(m, "help", 'l');
    LacksCharacter(m, "support", 'p');
  }

  lemma ImageAckKeywords(m: string)
    requires m == "thanks for the image! \U{1F4F8}"
    ensures ThanksOnly(m)
  {
    ImageAckLetters(m);
    ImageAckLacksHeyLetter(m);
    ImageAckLacksHi(m);
    ThanksOnlyByLetters(m);
  }

  lemma ImageAckLetters(m: string)
    requires m == "thanks for the image! \U{1F4F8}"
    ensures OccursAt(m, "thank", 0) && 'l' !in m && 'p' !in m
  {
  }

  lemma ImageAckLacksHeyLetter(m: string)
    requires m == "thanks for the image! \U{1F4F8}"
    ensures !Includes(m, "hey")
  {
    LacksCharacter(m, "hey", 'y');
  }

  /** Both letters of "hi" occur, so this one needs a scan. */
  lemma ImageAckLacksHi(m: string)
    requires m == "thanks for the image! \U{1F4F8}"
    ensures !Includes(m, "hi")
  {
    NoMatchFrom(m, "hi", 0);
  }

  lemma DocumentAckKeywords(m: string)
    requires m == "thanks for the document! \U{1F4C4}"
    ensures ThanksOnly(m)
  {
    DocumentAckLetters(m);
    DocumentAckLacksGreeting(m);
    ThanksOnlyByLetters(m);
  }

  lemma DocumentAckLetters(m: string)
    requires m == "thanks for the document! \U{1F4C4}"
    ensures OccursAt(m, "thank", 0) && 'l' !in m && 'p' !in m
  {
  }

  lemma DocumentAckLacksGreeting(m: string)
    requires m == "thanks for the document! \U{1F4C4}"
    ensures !Includes(m, "hi") && !Includes(m, "hey")
  {
    LacksCharacter(m, "hi", 'i');
    LacksCharacter(m, "hey", 'y');
  }

  lemma OtherAckKeywords(m: string)
    requires m == "thanks for your message! \U{1F44D}"
    ensures ThanksOnly(m)
  {
    OtherAckLetters(m);
    OtherAckLacksHiLetter(m);
    OtherAckLacksHey(m);
    ThanksOnlyByLetters(m);
  }

  lemma OtherAckLetters(m: string)
    requires m == "thanks for your message! \U{1F44D}"
    ensures OccursAt(m, "thank", 0) && 'l' !in m && 'p' !in m
  {
  }

  lemma OtherAckLacksHiLetter(m: string)
    requires m == "thanks for your message! \U{1F44D}"
    ensures !Includes(m, "hi")
  {
    LacksCharacter(m, "hi", 'i');
  }

  /** All letters of "hey" occur, so this one needs a scan. */
  lemma OtherAckLacksHey(m: string)
    requires m == "thanks for your message! \U{1F44D}"
    ensures !Includes(m, "hey")
  {
    NoMatchFrom(m, "hey", 0);
  }
}
