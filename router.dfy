/** `POST /webhook`: the signature gate, then the routing of every entry's
    Messenger events and changes to their handlers, in order. A dispatch is
    the call of a handler; a send is a message the business-messaging handler
    hands to the messaging API. */
module Router {
  import opened JsValues
  import opened Payload
  import opened Signature
  import opened WhatsApp

  /** The branch `handlePageChangeEvent` takes for a change's field. */
  datatype PageChangeKind = FeedUpdate | CommentUpdate | MessageUpdate | Unhandled

  /** The `switch (field)` of `handlePageChangeEvent`, which only logs. */
  function PageChangeLabel(field: string): (k: PageChangeKind)
    ensures k == FeedUpdate <==> field == "feed"
    ensures k == CommentUpdate <==> field == "comments"
    ensures k == MessageUpdate <==> field == "messages"
  {
    if field == "feed" then FeedUpdate
    else if field == "comments" then CommentUpdate
    else if field == "messages" then MessageUpdate
    else Unhandled
  }

  /** One handler call made by the routing loop. */
  datatype Dispatch =
    | ToMessenger(event: MessengerEvent)               // handleMessengerEvent(event)
    | ToWhatsApp(value: ChangeValue)                   // handleWhatsAppEvent(change.value)
    | ToPageChange(field: string, value: ChangeValue)  // handlePageChangeEvent(change)

  /** The answers of the POST handler. */
  datatype PostReply =
    | EventReceived  // 200, body "EVENT_RECEIVED"
    | NotFound       // 404
    | Unauthorized   // 401
    | ServerError    // 500, from the error middleware
  {
    function Code(): int
    {
      match this
      case EventReceived => 200
      case NotFound => 404
      case Unauthorized => 401
      case ServerError => 500
    }
  }

  /** The handler a change goes to: field "messages" to the business-messaging
      handler, every other field to the page-change handler. */
  function ChangeDispatch(c: Change): (d: Dispatch)
    ensures d.ToWhatsApp? <==> c.field == "messages"
    ensures d.ToPageChange? <==> c.field != "messages"
    ensures !d.ToMessenger? && d.value == c.value
    ensures d.ToPageChange? ==> d.field == c.field
  {
    if c.field == "messages" then ToWhatsApp(c.value) else ToPageChange(c.field, c.value)
  }

  /** An entry's `messaging` events, none when the property is missing. */
  function EventsOf(e: Entry): seq<MessengerEvent>
  {
    if e.messaging.Some? then e.messaging.value else []
  }

  /** An entry's `changes`, none when the property is missing. */
  function ChangesOf(e: Entry): seq<Change>
  {
    if e.changes.Some? then e.changes.value else []
  }

  /** The dispatches of a run of Messenger events, in order. */
  function MessengerDispatches(events: seq<MessengerEvent>): seq<Dispatch>
  {
    if events == [] then []
    else MessengerDispatches(events[..|events| - 1]) + [ToMessenger(events[|events| - 1])]
  }

  /** The dispatches of a run of changes, in order. */
  function ChangeDispatches(changes: seq<Change>): seq<Dispatch>
  {
    if changes == [] then []
    else ChangeDispatches(changes[..|changes| - 1]) + [ChangeDispatch(changes[|changes| - 1])]
  }

  /** An entry's dispatches: all its Messenger events, then all its changes. */
  function RouteEntry(e: Entry): seq<Dispatch>
  {
    MessengerDispatches(EventsOf(e)) + ChangeDispatches(ChangesOf(e))
  }

  /** The dispatches of a run of entries, entry after entry. */
  function RouteAll(entries: seq<Entry>): seq<Dispatch>
  {
    if entries == [] then []
    else RouteAll(entries[..|entries| - 1]) + RouteEntry(entries[|entries| - 1])
  }

  /** The message, if any, that one dispatch sends: only a business-messaging
      dispatch can send, and it sends what its handler composes. */
  function SendOf(cfg: Config, d: Dispatch, clock: string): seq<OutboundMessage>
  {
    if d.ToWhatsApp? && WhatsAppReply(cfg, d.value, clock).Some? then
      [WhatsAppReply(cfg, d.value, clock).value]
    else
      []
  }

  /** The messages a run of dispatches sends, in dispatch order. */
  function SendsFor(cfg: Config, ds: seq<Dispatch>, clock: string): seq<OutboundMessage>
  {
    if ds == [] then []
    else SendsFor(cfg, ds[..|ds| - 1], clock) + SendOf(cfg, ds[|ds| - 1], clock)
  }

  /** How the POST handler answers: the gate first, then a falsy `object` is
      404, a missing `entry` makes `body.entry.forEach` throw (500), and
      anything else is 200. */
  function PostOutcome(
    cfg: Config, signature: Option<string>, body: Envelope,
    hmacHex: (string, string) -> string, stringify: Envelope -> string): (r: PostReply)
    ensures r == Unauthorized <==> CheckSignature(cfg.appSecret, signature, body, hmacHex, stringify) == Rejected
    ensures r == NotFound <==>
      CheckSignature(cfg.appSecret, signature, body, hmacHex, stringify).Passes() && !Truthy(body.objectType)
    ensures r == ServerError <==>
      CheckSignature(cfg.appSecret, signature, body, hmacHex, stringify).Passes()
      && Truthy(body.objectType) && body.entry.None?
    ensures r == EventReceived <==>
      CheckSignature(cfg.appSecret, signature, body, hmacHex, stringify).Passes()
      && Truthy(body.objectType) && body.entry.Some?
  {
    if !CheckSignature(cfg.appSecret, signature, body, hmacHex, stringify).Passes() then Unauthorized
    else if !Truthy(body.objectType) then NotFound
    else if body.entry.None? then ServerError
    else EventReceived
  }

  /** The POST handler: the reply, the handler calls in the order they are
      made, and the messages sent. Nothing is dispatched unless the reply is
      200, and then the dispatches are exactly the routing of the entries. */
  method HandleWebhookPost(
    cfg: Config, signature: Option<string>, body: Envelope,
    hmacHex: (string, string) -> string, stringify: Envelope -> string, clock: string)
    returns (reply: PostReply, dispatches: seq<Dispatch>, sends: seq<OutboundMessage>)
    ensures reply == PostOutcome(cfg, signature, body, hmacHex, stringify)
    ensures reply == EventReceived ==> dispatches == RouteAll(body.entry.value)
    ensures reply != EventReceived ==> dispatches == []
    ensures sends == SendsFor(cfg, dispatches, clock)
  {
    dispatches, sends := [], [];
    if CheckSignature(cfg.appSecret, signature, body, hmacHex, stringify) == Rejected {
      return Unauthorized, dispatches, sends;
    }
    if !Truthy(body.objectType) {
      return NotFound, dispatches, sends;
    }
    if body.entry.None? {
      return ServerError, dispatches, sends;
    }
    dispatches, sends := ProcessEntries(cfg, body.entry.value, clock);
    reply := EventReceived;
  }

  /** `body.entry.forEach`: every entry, in order, is handed to the entry
      callback. */
  method ProcessEntries(cfg: Config, entries: seq<Entry>, clock: string)
    returns (dispatches: seq<Dispatch>, sends: seq<OutboundMessage>)
    ensures dispatches == RouteAll(entries)
    ensures sends == SendsFor(cfg, dispatches, clock)
  {
    dispatches, sends := [], [];
    var i := 0;
    while i < |entries|
      invariant 0 <= i <= |entries|
      invariant dispatches == RouteAll(entries[..i])
      invariant sends == SendsFor(cfg, dispatches, clock)
    {
      var entryDispatches, entrySends := ProcessEntry(cfg, entries[i], clock);
      SendsForAppend(cfg, dispatches, entryDispatches, clock);
      RouteAllPrefix(entries, i);
      dispatches, sends := dispatches + entryDispatches, sends + entrySends;
      i := i + 1;
    }
    assert entries[..i] == entries;
  }

  /** The `forEach` callback for one entry: each Messenger event, then each
      change, is handed to its handler. */
  method ProcessEntry(cfg: Config, entry: Entry, clock: string)
    returns (dispatches: seq<Dispatch>, sends: seq<OutboundMessage>)
    ensures dispatches == RouteEntry(entry)
    ensures sends == SendsFor(cfg, dispatches, clock)
  {
    var messengerDispatches := ProcessMessaging(EventsOf(entry));
    MessengerNeverSends(cfg, EventsOf(entry), clock);
    var changeDispatches, changeSends := ProcessChanges(cfg, ChangesOf(entry), clock);
    SendsForAppend(cfg, messengerDispatches, changeDispatches, clock);
    dispatches, sends := messengerDispatches + changeDispatches, changeSends;
  }

  /** `entry.messaging.forEach(handleMessengerEvent)`. */
  method ProcessMessaging(events: seq<MessengerEvent>) returns (dispatches: seq<Dispatch>)
    ensures dispatches == MessengerDispatches(events)
  {
    dispatches := [];
    var j := 0;
    while j < |events|
      invariant 0 <= j <= |events|
      invariant dispatches == MessengerDispatches(events[..j])
    {
      assert events[..j + 1][..j] == events[..j];
      dispatches := dispatches + [ToMessenger(events[j])];
      j := j + 1;
    }
    assert events[..j] == events;
  }

  /** `entry.changes.forEach(...)`, collecting what the handlers send. */
  method ProcessChanges(cfg: Config, changes: seq<Change>, clock: string)
    returns (dispatches: seq<Dispatch>, sends: seq<OutboundMessage>)
    ensures dispatches == ChangeDispatches(changes)
    ensures sends == SendsFor(cfg, dispatches, clock)
  {
    dispatches, sends := [], [];
    var k := 0;
    while k < |changes|
      invariant 0 <= k <= |changes|
      invariant dispatches == ChangeDispatches(changes[..k])
      invariant sends == SendsFor(cfg, dispatches, clock)
    {
      ChangeDispatchesSnoc(changes, k);
      var d, sent := ProcessChange(cfg, changes[k], clock);
      SendsForSnoc(cfg, dispatches, d, clock);
      dispatches, sends := dispatches + [d], sends + sent;
      k := k + 1;
    }
    assert changes[..k] == changes;
  }

  lemma ChangeDispatchesSnoc(changes: seq<Change>, k: nat)
    requires k < |changes|
    ensures ChangeDispatches(changes[..k + 1]) == ChangeDispatches(changes[..k]) + [ChangeDispatch(changes[k])]
  {
    assert changes[..k + 1][..k] == changes[..k];
  }

  /** Messenger events are only logged: they never send anything. */
  lemma {:induction false} MessengerNeverSends(cfg: Config, events: seq<MessengerEvent>, clock: string)
    ensures SendsFor(cfg, MessengerDispatches(events), clock) == []
  {
    if events != [] {
      var init := events[..|events| - 1];
      MessengerNeverSends(cfg, init, clock);
      SendsForSnoc(cfg, MessengerDispatches(init), ToMessenger(events[|events| - 1]), clock);
    }
  }

  /** The `forEach` callback for one change: field "messages" goes to the
      business-messaging handler, which may send; any other field goes to the
      page-change handler, which only logs. */
  method ProcessChange(cfg: Config, change: Change, clock: string)
    returns (d: Dispatch, sent: seq<OutboundMessage>)
    ensures d == ChangeDispatch(change)
    ensures sent == SendOf(cfg, d, clock)
  {
    if change.field == "messages" {
      var reply, _ := HandleWhatsAppEvent(cfg, change.value, clock);
      d := ToWhatsApp(change.value);
      sent := if reply.Some? then [reply.value] else [];
    } else {
      var _ := PageChangeLabel(change.field);
      d := ToPageChange(change.field, change.value);
      sent := [];
    }
  }

  /** What a concatenation of dispatches sends is the concatenation of what
      each part sends. */
  lemma {:induction false} SendsForAppend(cfg: Config, a: seq<Dispatch>, b: seq<Dispatch>, clock: string)
    ensures SendsFor(cfg, a + b, clock) == SendsFor(cfg, a, clock) + SendsFor(cfg, b, clock)
    decreases |b|
  {
    if b != [] {
      var last := b[|b| - 1];
      var init := b[..|b| - 1];
      assert a + b == (a + init) + [last];
      assert b == init + [last];
      SendsForSnoc(cfg, a + init, last, clock);
      SendsForSnoc(cfg, init, last, clock);
      SendsForAppend(cfg, a, init, clock);
    } else {
      assert a + b == a;
    }
  }

  /** Appending a dispatch appends what it sends. */
  lemma SendsForSnoc(cfg: Config, ds: seq<Dispatch>, d: Dispatch, clock: string)
    ensures SendsFor(cfg, ds + [d], clock) == SendsFor(cfg, ds, clock) + SendOf(cfg, d, clock)
  {
    assert (ds + [d])[..|ds|] == ds;
  }

  /** The number of handler calls a run of entries makes: every Messenger
      event and every change of every entry. */
  function DispatchCount(entries: seq<Entry>): nat
  {
    if entries == [] then 0
    else
      var last := entries[|entries| - 1];
      DispatchCount(entries[..|entries| - 1]) + |EventsOf(last)| + |ChangesOf(last)|
  }

  /** The number of business-messaging dispatches in a run. */
  function WhatsAppCount(ds: seq<Dispatch>): nat
  {
    if ds == [] then 0
    else WhatsAppCount(ds[..|ds| - 1]) + (if ds[|ds| - 1].ToWhatsApp? then 1 else 0)
  }

  /** Messenger events are dispatched one to one, in order. */
  lemma {:induction false} MessengerDispatchesAt(events: seq<MessengerEvent>)
    ensures |MessengerDispatches(events)| == |events|
    ensures forall i :: 0 <= i < |events| ==> MessengerDispatches(events)[i] == ToMessenger(events[i])
  {
    if events != [] {
      MessengerDispatchesAt(events[..|events| - 1]);
    }
  }

  /** Changes are dispatched one to one, in order. */
  lemma {:induction false} ChangeDispatchesAt(changes: seq<Change>)
    ensures |ChangeDispatches(changes)| == |changes|
    ensures forall i :: 0 <= i < |changes| ==> ChangeDispatches(changes)[i] == ChangeDispatch(changes[i])
  {
    if changes != [] {
      ChangeDispatchesAt(changes[..|changes| - 1]);
    }
  }

  /** Within an entry, the Messenger events come first, in order, and then
      the changes, in order. */
  lemma RouteEntryAt(e: Entry)
    ensures |RouteEntry(e)| == |EventsOf(e)| + |ChangesOf(e)|
    ensures forall i :: 0 <= i < |EventsOf(e)| ==> RouteEntry(e)[i] == ToMessenger(EventsOf(e)[i])
    ensures forall i :: |EventsOf(e)| <= i < |RouteEntry(e)| ==>
      RouteEntry(e)[i] == ChangeDispatch(ChangesOf(e)[i - |EventsOf(e)|])
  {
    MessengerDispatchesAt(EventsOf(e));
    ChangeDispatchesAt(ChangesOf(e));
  }

  /** No Messenger dispatch of an entry comes after one of its changes. */
  lemma MessengerBeforeChanges(e: Entry, i: int, j: int)
    requires 0 <= i < j < |RouteEntry(e)|
    requires RouteEntry(e)[j].ToMessenger?
    ensures RouteEntry(e)[i].ToMessenger?
  {
    RouteEntryAt(e);
  }

  /** Entries are handled in order: the dispatches of a concatenation of
      entries are those of the first part followed by those of the second. */
  lemma {:induction false} RouteAllAppend(a: seq<Entry>, b: seq<Entry>)
    ensures RouteAll(a + b) == RouteAll(a) + RouteAll(b)
    decreases |b|
  {
    if b != [] {
      var init, last := b[..|b| - 1], b[|b| - 1];
      assert a + b == (a + init) + [last];
      assert b == init + [last];
      RouteAllSnoc(a + init, last);
      RouteAllSnoc(init, last);
      RouteAllAppend(a, init);
      var x, y, z := RouteAll(a), RouteAll(init), RouteEntry(last);
      assert RouteAll(a + b) == (x + y) + z;
      assert RouteAll(b) == y + z;
      ConcatAssociates(x, y, z);
    } else {
      assert a + b == a;
    }
  }

  lemma ConcatAssociates<T>(x: seq<T>, y: seq<T>, z: seq<T>)
    ensures (x + y) + z == x + (y + z)
  {
  }

  lemma RouteAllSnoc(entries: seq<Entry>, e: Entry)
    ensures RouteAll(entries + [e]) == RouteAll(entries) + RouteEntry(e)
  {
    assert (entries + [e])[..|entries|] == entries;
  }

  /** Routing one more entry of a list appends that entry's dispatches. */
  lemma RouteAllPrefix(entries: seq<Entry>, i: int)
    requires 0 <= i < |entries|
    ensures RouteAll(entries[..i + 1]) == RouteAll(entries[..i]) + RouteEntry(entries[i])
  {
    assert entries[..i + 1][..i] == entries[..i];
  }

  /** Every Messenger event and every change is dispatched exactly once. */
  lemma {:induction false} RouteCount(entries: seq<Entry>)
    ensures |RouteAll(entries)| == DispatchCount(entries)
  {
    if entries != [] {
      RouteCount(entries[..|entries| - 1]);
      RouteEntryAt(entries[|entries| - 1]);
    }
  }

  /** A change with field "messages" always goes to the business-messaging
      handler, so the "messages" branch of `handlePageChangeEvent` is never
      taken from this route. */
  lemma {:induction false} PageChangeNeverMessages(entries: seq<Entry>)
    ensures forall d :: d in RouteAll(entries) && d.ToPageChange? ==>
      d.field != "messages" && PageChangeLabel(d.field) != MessageUpdate
  {
    if entries != [] {
      PageChangeNeverMessages(entries[..|entries| - 1]);
      var e := entries[|entries| - 1];
      RouteEntryAt(e);
      forall d | d in RouteEntry(e) && d.ToPageChange?
        ensures d.field != "messages"
      {
        var i :| 0 <= i < |RouteEntry(e)| && RouteEntry(e)[i] == d;
        assert i >= |EventsOf(e)|;
      }
    }
  }

  /** Each business-messaging dispatch sends at most one message, and no
      other dispatch sends anything. */
  lemma {:induction false} AtMostOneSendPerDispatch(cfg: Config, ds: seq<Dispatch>, clock: string)
    ensures |SendsFor(cfg, ds, clock)| <= WhatsAppCount(ds)
  {
    if ds != [] {
      AtMostOneSendPerDispatch(cfg, ds[..|ds| - 1], clock);
    }
  }

  /** Without both credentials nothing is ever sent. */
  lemma {:induction false} NoCredentialsNoSends(cfg: Config, ds: seq<Dispatch>, clock: string)
    requires !HasCredentials(cfg)
    ensures SendsFor(cfg, ds, clock) == []
  {
    if ds != [] {
      NoCredentialsNoSends(cfg, ds[..|ds| - 1], clock);
    }
  }

  /** Every message sent answers the first message of some business-messaging
      dispatch and goes to that message's sender. */
  lemma {:induction false} SendsGoToSenders(cfg: Config, ds: seq<Dispatch>, clock: string)
    ensures forall s :: s in SendsFor(cfg, ds, clock) ==>
      exists d :: (d in ds && d.ToWhatsApp? && FirstMessage(d.value).Some?
        && s.to == FirstMessage(d.value).value.from)
  {
    if ds != [] {
      var init, last := ds[..|ds| - 1], ds[|ds| - 1];
      SendsGoToSenders(cfg, init, clock);
      forall s | s in SendsFor(cfg, ds, clock)
        ensures exists d :: (d in ds && d.ToWhatsApp? && FirstMessage(d.value).Some?
          && s.to == FirstMessage(d.value).value.from)
      {
        if s in SendsFor(cfg, init, clock) {
          var d :| d in init && d.ToWhatsApp? && FirstMessage(d.value).Some?
            && s.to == FirstMessage(d.value).value.from;
          assert d in ds;
        } else {
          assert s in SendOf(cfg, last, clock);
          assert last in ds;
        }
      }
    }
  }

  /** The gate never rejects an unsigned request: a well-formed body without
      a signature header is always accepted with 200. */
  lemma UnsignedIsAccepted(
    cfg: Config, signature: Option<string>, body: Envelope,
    hmacHex: (string, string) -> string, stringify: Envelope -> string)
    requires !Truthy(signature)
    requires Truthy(body.objectType) && body.entry.Some?
    ensures PostOutcome(cfg, signature, body, hmacHex, stringify) == EventReceived
  {
  }
}
