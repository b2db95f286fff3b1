# Meta webhook server — a Dafny model of its request decisions

This project models the decision logic of a small Node.js webhook server for
Meta's messaging platforms (`server.js`):

- the `GET /webhook` subscription handshake;
- the `X-Hub-Signature-256` gate at the start of `POST /webhook`;
- the loop that routes every entry's Messenger events and changes to their
  handlers, in order;
- the WhatsApp Business handler, which answers the first message of a change
  value;
- the sender's credential check and message construction;
- `generateResponse`, the keyword-driven reply composer.

The HMAC digest, `JSON.stringify` and the wall clock are parameters. Sending a
message is the abstract action of returning it.

Modules, one file each:

| file | module | what it holds |
|---|---|---|
| `js_values.dfy` | `JsValues` | `Option`, JavaScript truthiness of optional strings, `String.prototype.includes`, ASCII `toLowerCase`, `trim` |
| `payload.dfy` | `Payload` | the query, envelope, entry, change and message shapes; the configuration and `VERIFY_TOKEN` |
| `handshake.dfy` | `Handshake` | the `GET /webhook` decision |
| `signature.dfy` | `Signature` | the signature gate |
| `replies.dfy` | `Replies` | `generateResponse` and its first-match-wins reference definition |
| `whatsapp.dfy` | `WhatsApp` | `handleWhatsAppEvent` and `sendWhatsAppResponse` |
| `router.dfy` | `Router` | the `POST /webhook` handler, its routing loops and `handlePageChangeEvent` |

`Replies.FirstMatch` is the reference definition of the composer: the
position of the first rule in `Rules` whose keywords occur in the normalised
message. `Replies.GenerateResponse` normalises the message and hands it to
`Replies.Respond`, which keeps the source's chain of `includes` tests. The
contracts of both state that the chain computes the reply of rule
`FirstMatch`, or the echo when no rule matches.
The POST handler is a method with nested loops, proved against the functions
`Router.RouteAll` and `Router.SendsFor`. Order, counting and sending
properties are proved about those functions.

Points where the code departs from what a reader might expect. The model
follows the code in each:

- **Signed bytes.** Meta signs the raw request body. The gate instead hashes
  `JSON.stringify(req.body)`, the re-serialised body (server.js:142-145).
- **Comparison.** The gate compares with plain `!==`, not in constant time
  (server.js:147).
- **Missing header.** Meta's convention is that every signed delivery carries
  `X-Hub-Signature-256`. With a secret configured, a request without the
  header is let through rather than rejected (server.js:138-140).
- **Missing `entry`.** The comment at server.js:190 says a 200 is returned
  "to all events". With a truthy `object` and no `entry`, however,
  `body.entry.forEach` throws, and the error middleware answers 500.

## Model

| member | source | states |
|---|---|---|
| Payload.VerifyToken | server.js:11 | the verify token is the `VERIFY_TOKEN` environment value when it is truthy and the placeholder otherwise, so it is never empty |
| Handshake.VerifyWebhook | server.js:84-124 | a URL without `?` is the 200 readiness answer. With `?`, the result is 400 exactly when mode or token is missing or empty. It echoes the challenge exactly when mode is `subscribe` and the token equals the verify token. It is 403 in every other case |
| Handshake.ReadyIgnoresQuery | server.js:100-106 | without `?` the answer is the readiness answer whatever the query holds |
| Handshake.EchoNeedsConfiguredToken | server.js:109-114 | the challenge is echoed only to a caller presenting the verify token. The placeholder is accepted only when no token is configured or the configured token equals it |
| Handshake.EmptyIsMissing | server.js:109-123 | an empty mode or token is treated like a missing one: 400 |
| Signature.CheckSignature | server.js:136-156 | 401 exactly when a secret is configured, the header is present and non-empty, and it differs from `"sha256=" + hex(HMAC(secret, JSON.stringify(body)))`. No secret means the check is skipped. A secret without a header lets the request through. A matching header is reported as verified |
| Signature.CorrectSignaturePasses | server.js:141-150 | a header equal to the expected signature is always accepted |
| Signature.VerdictDependsOnSerialisation | server.js:141-144 | the verdict depends on the body only through its re-serialisation |
| JsValues.Includes | server.js:324-356 | `includes` holds exactly when the keyword occurs at some position |
| JsValues.Lower | server.js:321 | lower-casing keeps the length, maps each ASCII letter `A`–`Z` to its lower-case letter (code point plus 32), and changes nothing else |
| JsValues.TrimStart | server.js:321 | the leading trim returns a suffix that does not start with white space, having cut only white space |
| JsValues.TrimEnd | server.js:321 | the trailing trim returns a prefix that does not end with white space, having cut only white space |
| JsValues.Trim | server.js:321 | `trim` returns a contiguous slice of the string, cuts only white space on either side, and leaves no white space at either end |
| JsValues.TrimKeepsKeywords | server.js:321-356 | trimming never changes whether a keyword without surrounding white space is found |
| JsValues.IncludesMiddle | server.js:359-360 | a string embedded between two others is found in the result |
| Replies.FirstMatchIsFirst | server.js:323-357 | the rule `FirstMatch` finds matches the message, and no rule before it does |
| Replies.FirstMatchIsUnique | server.js:323-357 | a matching rule with no matching rule before it is the one `FirstMatch` finds |
| Replies.Normalize | server.js:321 | the normalised message is a contiguous slice of the lower-cased message, and everything cut on either side is white space. It holds no upper-case ASCII letter and has no white space at either end |
| Replies.Respond | server.js:323-360 | the source's chain of `includes` tests gives the canned reply of the first matching rule, or the echo when none matches |
| Replies.GenerateResponse | server.js:320-361 | `generateResponse` matches on the lower-cased, trimmed message and answers by first-match-wins over the seven rules in source order. The echo quotes the message as received |
| Replies.FirstMatchWins | server.js:320-357 | if rule k matches and no earlier rule does, the reply is rule k's reply |
| Replies.EchoQuotesMessage | server.js:359-360 | when no rule matches, the reply quotes the message as received (not lower-cased, not trimmed) and contains it |
| Replies.TrimDoesNotChangeRule | server.js:321 | trimming never changes which rule fires |
| Replies.CaseInsensitive | server.js:321 | two messages that agree once lower-cased get the same canned reply |
| Replies.GreetingWinsOnHi | server.js:324-326 | any message containing `hi`, even inside a word, gets the greeting |
| Replies.GratitudeWhenOnlyThanks | server.js:324-336 | a message with `thank` and no greeting or help keyword gets the gratitude reply |
| Replies.NoInitialsNoMatch | server.js:323-360 | a message containing none of the keywords' first letters matches no rule |
| Replies.ExampleGreetingFirst | server.js:324-326 | "hi, thanks for the help" mentions the greeting, help and gratitude rules and gets the greeting |
| Replies.ExampleHiInsideWord | server.js:324-330 | "Can you help me with this?" gets the greeting, because of the "hi" in "this" |
| Replies.ExampleEcho | server.js:359-360 | "xyz123" is echoed back |
| WhatsApp.FirstMessage | server.js:242-243 | the message used is `messages[0]`, present exactly when `messages` is present and non-empty |
| WhatsApp.FirstStatus | server.js:268-271 | the status looked at is `statuses[0]`, present exactly when `statuses` is present and non-empty |
| WhatsApp.ComposerInput | server.js:250-265 | a text message hands its body to the composer. An image hands over the image acknowledgement, a document the document acknowledgement, and every other type the general acknowledgement |
| WhatsApp.WhatsAppReply | server.js:238-295 | a change value causes one send exactly when both credentials are set and the first message has composer input. The send goes to that message's `from` with product `whatsapp` and type `text`. Its body is the composed reply for a text message and the gratitude reply for any other type |
| WhatsApp.SendWhatsAppResponse | server.js:276-295 | the sender sends exactly when both credentials are truthy, and then sends the composed reply to `to` |
| WhatsApp.HandleWhatsAppEvent | server.js:238-273 | the handler sends what `WhatsAppReply` specifies and looks at the first status only |
| WhatsApp.OnlyFirstMessageCounts | server.js:242-243 | messages after the first never change the send |
| WhatsApp.StatusesNeverSend | server.js:268-272 | statuses never cause or change a send |
| WhatsApp.AcknowledgementsGetGratitude | server.js:256-265 | all three fixed acknowledgements contain "thank" and no earlier keyword, so each is answered with the gratitude reply |
| WhatsApp.ImageAckIsGratitude | server.js:256-258 | the image acknowledgement gets the gratitude reply |
| WhatsApp.DocumentAckIsGratitude | server.js:259-261 | the document acknowledgement gets the gratitude reply |
| WhatsApp.OtherAckIsGratitude | server.js:262-265 | the acknowledgement for other types gets the gratitude reply |
| Router.PageChangeLabel | server.js:216-235 | the page-change switch picks the feed, comments or messages branch exactly for those fields, and the default branch otherwise |
| Router.ChangeDispatch | server.js:178-184 | a change goes to the WhatsApp handler exactly when its field is `messages`, and to the page-change handler otherwise, with its value |
| Router.PostOutcome | server.js:136-195 | the POST answer is 401 exactly when the gate rejects. Otherwise it is 404 when `object` is falsy, 500 when `entry` is missing, and 200 otherwise |
| Router.HandleWebhookPost | server.js:127-195 | the handler answers `PostOutcome`. It dispatches nothing unless it answers 200, and then its dispatches are `RouteAll` of the entries. Its sends are `SendsFor` of its dispatches |
| Router.ProcessEntries | server.js:164-187 | the entry loop routes every entry in order, giving `RouteAll` of the entries and what those dispatches send |
| Router.ProcessEntry | server.js:164-187 | one entry yields `RouteEntry` and what those dispatches send |
| Router.ProcessMessaging | server.js:168-174 | the Messenger loop dispatches every event, in order |
| Router.ProcessChanges | server.js:176-186 | the changes loop dispatches every change, in order, and collects what is sent |
| Router.ProcessChange | server.js:178-184 | one change is dispatched by its field and sends what its handler sends |
| Router.MessengerNeverSends | server.js:198-213 | Messenger events never send anything |
| Router.SendsForAppend | server.js:164-187 | the sends of consecutive dispatch runs are concatenated in order |
| Router.MessengerDispatchesAt | server.js:170-173 | Messenger events are dispatched one to one, in order |
| Router.ChangeDispatchesAt | server.js:176-186 | changes are dispatched one to one, in order |
| Router.RouteEntryAt | server.js:168-187 | within an entry, its Messenger events come first and its changes after them, each in order |
| Router.MessengerBeforeChanges | server.js:168-187 | no Messenger dispatch of an entry comes after one of its changes |
| Router.RouteAllAppend | server.js:164 | entries are handled in order: the dispatches for a concatenation of entries are those of the first part, then those of the second |
| Router.RouteCount | server.js:164-187 | the number of dispatches is the total number of Messenger events and changes over all entries |
| Router.PageChangeNeverMessages | server.js:179-183 | no page-change dispatch has field `messages`, so the `messages` branch of `handlePageChangeEvent` is unreachable from this route |
| Router.AtMostOneSendPerDispatch | server.js:242-273 | there are no more sends than WhatsApp dispatches |
| Router.NoCredentialsNoSends | server.js:280-283 | without both credentials nothing is ever sent |
| Router.SendsGoToSenders | server.js:243-290 | every send goes to the `from` of the first message of some WhatsApp dispatch |
| Router.UnsignedIsAccepted | server.js:136-191 | a request without a signature header, a truthy `object` and an `entry` list is always answered 200 |

## Left out

- Logging: every `console.log`, including all that `handleMessengerEvent` does. Its call is kept as a dispatch.
- The `fetch` call to the Graph API, its headers and its response handling. The send is the returned message, and its success or failure never affects the inbound answer.
- HMAC-SHA256 and `JSON.stringify`: uninterpreted function parameters.
- Signature.VerdictDependsOnSerialisation: the serialisation sees only the modelled fields of the envelope. Properties that the handlers only log, such as `time` or a message's `timestamp`, are absent. So two requests that differ only in such a property always get the same verdict in the model, whereas `JSON.stringify(req.body)` (server.js:144) tells them apart.
- `new Date().toLocaleString()`: the `clock` string parameter. The source reads the clock anew for each time reply (server.js:345). The model passes one `clock` to a whole POST, so two time replies in one request always show the same time.
- `toLowerCase` beyond ASCII (for example U+0130 or the Kelvin sign): only `A`–`Z` are folded.
- Async scheduling: sends are modelled in the order the handlers start them.
- Process behaviour on an unhandled promise rejection is not modelled.
- A text message without `text.body` sends nothing. The async handler's rejection is not modelled further.
- Express routing, body parsing, `app.listen`, the `/` and `/test-whatsapp` endpoints, and the error middleware beyond its 500 status.
- Query values that are arrays, and JSON values whose shapes differ from the modelled datatypes.
- Those shapes include a non-array `messaging` and a Messenger event without `sender` or `recipient`, each of which throws in the source. None of them is modelled; a missing `entry` is.
- A message body that is not a string throws in `toLowerCase`. That happens only once both credentials are set (server.js:280-286), and it always ends without a send. The model's body is a string.
- A message `type` is a string in the model. In the source a missing or non-string `type` matches none of the `===` tests and gets the general acknowledgement. The model gives the same answer to any string other than `text`, `image` and `document`.
- The readiness and `EVENT_RECEIVED` bodies beyond their status codes; the readiness JSON text is not modelled.
- The emoji in the reply texts. `server.js` holds them as mojibake: UTF-8 bytes read as Windows-1252 and written back as UTF-8. For example, line 325 holds U+00F0 U+0178 U+2018 U+2039 where U+1F44B was meant. The model writes the emoji that the mojibake came from. At server.js:264, 351 and 356 a byte that Windows-1252 cannot show is missing. There the model's U+1F44D, the U+FE0F after U+1F324, and U+1F550 are presumed originals. The reply texts are opaque constants, and no property depends on their emoji.
