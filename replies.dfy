/** `generateResponse`: the canned-reply composer. The lower-cased, trimmed
    message is matched against keyword groups in a fixed order; the first group
    with a keyword that occurs in it decides the reply, and a message that
    matches no group is echoed back unchanged inside a fallback text. */
module Replies {
  import opened JsValues

  /** The keyword rules, each picking a canned reply. */
  datatype Rule =
    | Greeting | HelpRequest | Gratitude | Farewell | TimeRequest | WeatherRequest | HoursRequest

  /** The rules in the order the composer tries them. */
  const Rules: seq<Rule> :=
    [Greeting, HelpRequest, Gratitude, Farewell, TimeRequest, WeatherRequest, HoursRequest]

  /** The keywords that trigger each rule. */
  function Keywords(rule: Rule): seq<string>
  {
    match rule
    case Greeting => ["hello", "hi", "hey"]
    case HelpRequest => ["help", "support"]
    case Gratitude => ["thank", "thanks"]
    case Farewell => ["bye", "goodbye", "see you"]
    case TimeRequest => ["time", "date"]
    case WeatherRequest => ["weather"]
    case HoursRequest => ["hours", "open"]
  }

  const GreetingText: string := "\U{1F44B} Hello! How can I help you today?"
  const HelpText: string :=
    "\U{1F198} I'm here to help! You can ask me questions or just chat. What would you like to know?"
  const GratitudeText: string := "\U{1F60A} You're welcome! Is there anything else I can help you with?"
  const FarewellText: string := "\U{1F44B} Goodbye! Feel free to message me anytime!"
  const WeatherText: string :=
    "\U{1F324}\U{FE0F} I don't have real-time weather data, but I hope it's a beautiful day where you are!"
  const HoursText: string := "\U{1F550} We're available 24/7 through this WhatsApp bot! How can I assist you?"

  /** The time reply; `clock` stands for `new Date().toLocaleString()`. */
  function TimeText(clock: string): string
  {
    "\U{1F552} Current time: " + clock
  }

  const EchoPrefix: string := "I received your message: \""
  const EchoSuffix: string := "\"\n\n\U{1F916} This is an automated response. How can I help you further?"

  /** The fallback reply, which quotes the message as it was received. */
  function EchoText(userMessage: string): string
  {
    EchoPrefix + userMessage + EchoSuffix
  }

  /** The canned reply of each rule. */
  function ReplyFor(rule: Rule, clock: string): string
  {
    match rule
    case Greeting => GreetingText
    case HelpRequest => HelpText
    case Gratitude => GratitudeText
    case Farewell => FarewellText
    case TimeRequest => TimeText(clock)
    case WeatherRequest => WeatherText
    case HoursRequest => HoursText
  }

  /** Some keyword of the group occurs in `m`. */
  predicate MentionsAny(m: string, keywords: seq<string>)
  {
    exists k :: k in keywords && Includes(m, k)
  }

  /** The position of the first rule among `rules` whose keywords `m`
      mentions, or `|rules|` when it mentions none (the reference definition of
      first-match-wins). */
  function FirstMatch(m: string, rules: seq<Rule>): (k: nat)
    ensures k <= |rules|
  {
    if rules == [] then 0
    else if MentionsAny(m, Keywords(rules[0])) then 0
    else 1 + FirstMatch(m, rules[1..])
  }

  /** `FirstMatch` finds the first rule that matches: the rule at its result
      matches (when there is one) and no rule before it does. */
  lemma {:induction false} FirstMatchIsFirst(m: string, rules: seq<Rule>)
    ensures var k := FirstMatch(m, rules);
      (k < |rules| ==> MentionsAny(m, Keywords(rules[k])))
      && forall j :: 0 <= j < k ==> !MentionsAny(m, Keywords(rules[j]))
  {
    if rules != [] && !MentionsAny(m, Keywords(rules[0])) {
      FirstMatchIsFirst(m, rules[1..]);
      var k := FirstMatch(m, rules);
      forall j | 0 <= j < k
        ensures !MentionsAny(m, Keywords(rules[j]))
      {
        if j > 0 {
          assert rules[j] == rules[1..][j - 1];
        }
      }
    }
  }

  /** First-match-wins, stated outright: the reply is that of rule `Rules[k]`
      exactly when `Rules[k]` matches and no earlier rule does. */
  lemma FirstMatchWins(userMessage: string, clock: string, k: nat)
    requires k < |Rules|
    requires MentionsAny(Normalize(userMessage), Keywords(Rules[k]))
    requires forall j :: 0 <= j < k ==> !MentionsAny(Normalize(userMessage), Keywords(Rules[j]))
    ensures GenerateResponse(userMessage, clock) == ReplyFor(Rules[k], clock)
  {
    FirstMatchIsUnique(Normalize(userMessage), Rules, k);
  }

  /** The converse of `FirstMatchIsFirst`: a rule that matches, with no
      matching rule before it, is the one `FirstMatch` finds. */
  lemma {:induction false} FirstMatchIsUnique(m: string, rules: seq<Rule>, k: nat)
    requires k < |rules| && MentionsAny(m, Keywords(rules[k]))
    requires forall j :: 0 <= j < k ==> !MentionsAny(m, Keywords(rules[j]))
    ensures FirstMatch(m, rules) == k
  {
    if k > 0 {
      assert !MentionsAny(m, Keywords(rules[0]));
      forall j | 0 <= j < k - 1
        ensures !MentionsAny(m, Keywords(rules[1..][j]))
      {
        assert rules[1..][j] == rules[j + 1];
      }
      assert rules[1..][k - 1] == rules[k];
      FirstMatchIsUnique(m, rules[1..], k - 1);
    }
  }

  /** `userMessage.toLowerCase().trim()`: the lower-cased message with the
      white space at both ends cut, so free of upper-case ASCII letters and
      without white space at either end. */
  function Normalize(userMessage: string): (m: string)
    ensures var l := Lower(userMessage);
      exists d ::
        && OccursAt(l, m, d)
        && (forall i :: 0 <= i < d ==> IsJsSpace(l[i]))
        && (forall i :: d + |m| <= i < |l| ==> IsJsSpace(l[i]))
    ensures |m| <= |userMessage|
    ensures forall i :: 0 <= i < |m| ==> !IsAsciiUpper(m[i])
    ensures m != [] ==> !IsJsSpace(m[0]) && !IsJsSpace(m[|m| - 1])
  {
    Trim(Lower(userMessage))
  }

  /** The reply to `userMessage`, against its reference definition
      `FirstMatch`: the canned reply of the first rule the normalised message
      mentions, or the echo of the message as received when it mentions none. */
  function GenerateResponse(userMessage: string, clock: string): (r: string)
    ensures var k := FirstMatch(Normalize(userMessage), Rules);
      r == if k < |Rules| then ReplyFor(Rules[k], clock) else EchoText(userMessage)
  {
    Respond(Normalize(userMessage), userMessage, clock)
  }

  /** The if-chain of the composer on the normalised `message`; `userMessage`
      is only quoted by the fallback. The chain is first-match-wins over
      `Rules`. */
  function Respond(message: string, userMessage: string, clock: string): (r: string)
    ensures var k := FirstMatch(message, Rules);
      r == if k < |Rules| then ReplyFor(Rules[k], clock) else EchoText(userMessage)
  {
    RulesSpelledOut(message);
    FirstMatchInOrder(message);
    if Includes(message, "hello") || Includes(message, "hi") || Includes(message, "hey") then
      GreetingText
    else if Includes(message, "help") || Includes(message, "support") then
      HelpText
    else if Includes(message, "thank") || Includes(message, "thanks") then
      GratitudeText
    else if Includes(message, "bye") || Includes(message, "goodbye") || Includes(message, "see you") then
      FarewellText
    else if Includes(message, "time") || Includes(message, "date") then
      TimeText(clock)
    else if Includes(message, "weather") then
      WeatherText
    else if Includes(message, "hours") || Includes(message, "open") then
      HoursText
    else
      EchoText(userMessage)
  }

  /** The keyword groups, spelled out as the source tests them. */
  lemma RulesSpelledOut(m: string)
    ensures MentionsAny(m, Keywords(Greeting)) == (Includes(m, "hello") || Includes(m, "hi") || Includes(m, "hey"))
    ensures MentionsAny(m, Keywords(HelpRequest)) == (Includes(m, "help") || Includes(m, "support"))
    ensures MentionsAny(m, Keywords(Gratitude)) == (Includes(m, "thank") || Includes(m, "thanks"))
    ensures MentionsAny(m, Keywords(Farewell)) == (Includes(m, "bye") || Includes(m, "goodbye") || Includes(m, "see you"))
    ensures MentionsAny(m, Keywords(TimeRequest)) == (Includes(m, "time") || Includes(m, "date"))
    ensures MentionsAny(m, Keywords(WeatherRequest)) == Includes(m, "weather")
    ensures MentionsAny(m, Keywords(HoursRequest)) == (Includes(m, "hours") || Includes(m, "open"))
  {
    MentionsOneOf(m, "hello", "hi", "hey");
    MentionsOneOf(m, "help", "support", "support");
    MentionsOneOf(m, "thank", "thanks", "thanks");
    MentionsOneOf(m, "bye", "goodbye", "see you");
    MentionsOneOf(m, "time", "date", "date");
    MentionsOneOf(m, "weather", "weather", "weather");
    MentionsOneOf(m, "hours", "open", "open");
  }

  /** A group of up to three keywords. */
  lemma MentionsOneOf(m: string, a: string, b: string, c: string)
    ensures MentionsAny(m, [a, b, c]) == (Includes(m, a) || Includes(m, b) || Includes(m, c))
    ensures MentionsAny(m, [a, b]) == (Includes(m, a) || Includes(m, b))
    ensures MentionsAny(m, [a]) == Includes(m, a)
  {
    assert [a, b, c][0] == a && [a, b, c][1] == b && [a, b, c][2] == c;
    assert [a, b][0] == a && [a, b][1] == b;
  }

  /** `FirstMatch` over `Rules` tests the rules one after the other. */
  lemma FirstMatchInOrder(m: string)
    ensures FirstMatch(m, Rules) ==
      if MentionsAny(m, Keywords(Greeting)) then 0
      else if MentionsAny(m, Keywords(HelpRequest)) then 1
      else if MentionsAny(m, Keywords(Gratitude)) then 2
      else if MentionsAny(m, Keywords(Farewell)) then 3
      else if MentionsAny(m, Keywords(TimeRequest)) then 4
      else if MentionsAny(m, Keywords(WeatherRequest)) then 5
      else if MentionsAny(m, Keywords(HoursRequest)) then 6
      else 7
  {
    var rs := Rules;
    assert rs[7..] == [];
    FirstMatchCons(m, rs[6], rs[7..]);
    assert rs[6..] == [rs[6]] + rs[7..];
    var k6 := FirstMatch(m, rs[6..]);
    FirstMatchCons(m, rs[5], rs[6..]);
    assert rs[5..] == [rs[5]] + rs[6..];
    var k5 := FirstMatch(m, rs[5..]);
    FirstMatchCons(m, rs[4], rs[5..]);
    assert rs[4..] == [rs[4]] + rs[5..];
    var k4 := FirstMatch(m, rs[4..]);
    FirstMatchCons(m, rs[3], rs[4..]);
    assert rs[3..] == [rs[3]] + rs[4..];
    var k3 := FirstMatch(m, rs[3..]);
    FirstMatchCons(m, rs[2], rs[3..]);
    assert rs[2..] == [rs[2]] + rs[3..];
    var k2 := FirstMatch(m, rs[2..]);
    FirstMatchCons(m, rs[1], rs[2..]);
    assert rs[1..] == [rs[1]] + rs[2..];
    var k1 := FirstMatch(m, rs[1..]);
    FirstMatchCons(m, rs[0], rs[1..]);
    assert rs == [rs[0]] + rs[1..];
  }

  lemma FirstMatchCons(m: string, r: Rule, rs: seq<Rule>)
    ensures FirstMatch(m, [r] + rs) ==
      if MentionsAny(m, Keywords(r)) then 0 else 1 + FirstMatch(m, rs)
  {
    assert ([r] + rs)[1..] == rs;
  }

  /** A message that matches no rule is answered with a text that quotes it
      as received: not lower-cased and not trimmed. */
  lemma {:induction false} EchoQuotesMessage(userMessage: string, clock: string)
    requires FirstMatch(Normalize(userMessage), Rules) == |Rules|
    ensures GenerateResponse(userMessage, clock) == EchoPrefix + userMessage + EchoSuffix
    ensures Includes(GenerateResponse(userMessage, clock), userMessage)
  {
    IncludesMiddle(EchoPrefix, userMessage, EchoSuffix);
  }

  /** Every keyword is non-empty and starts and ends with a lower-case letter,
      so it neither starts nor ends with white space. */
  predicate WellFormedKeywords(keywords: seq<string>)
  {
    forall k :: k in keywords ==>
      k != [] && IsAsciiLowerLetter(k[0]) && IsAsciiLowerLetter(k[|k| - 1])
  }

  lemma KeywordsWellFormed(r: Rule)
    ensures WellFormedKeywords(Keywords(r))
  {
    var ks := Keywords(r);
    forall k | k in ks
      ensures k != [] && IsAsciiLowerLetter(k[0]) && IsAsciiLowerLetter(k[|k| - 1])
    {
      KeywordShape(r, k);
    }
  }

  lemma KeywordShape(r: Rule, k: string)
    requires k in Keywords(r)
    ensures k != [] && IsAsciiLowerLetter(k[0]) && IsAsciiLowerLetter(k[|k| - 1])
  {
  }

  lemma {:induction false} TrimKeepsMention(m: string, keywords: seq<string>)
    requires WellFormedKeywords(keywords)
    ensures MentionsAny(Trim(m), keywords) == MentionsAny(m, keywords)
  {
    forall k | k in keywords
      ensures Includes(Trim(m), k) == Includes(m, k)
    {
      LetterIsNotSpace(k[0]);
      LetterIsNotSpace(k[|k| - 1]);
      TrimKeepsKeywords(m, k);
    }
  }

  /** Trimming never changes which rule fires: the rule is decided by the
      lower-cased message alone. */
  lemma {:induction false} TrimDoesNotChangeRule(m: string, rules: seq<Rule>)
    ensures FirstMatch(Trim(m), rules) == FirstMatch(m, rules)
  {
    if rules != [] {
      KeywordsWellFormed(rules[0]);
      TrimKeepsMention(m, Keywords(rules[0]));
      TrimDoesNotChangeRule(m, rules[1..]);
    }
  }

  /** Matching is case-insensitive for ASCII: messages that agree once
      lower-cased get the same canned reply. */
  lemma CaseInsensitive(a: string, b: string, clock: string)
    requires Lower(a) == Lower(b)
    requires FirstMatch(Normalize(a), Rules) < |Rules|
    ensures GenerateResponse(a, clock) == GenerateResponse(b, clock)
  {
  }

  /** "hi" occurring anywhere, even inside "this" or "think", wins over every
      later rule. */
  lemma GreetingWinsOnHi(userMessage: string, clock: string)
    requires Includes(Normalize(userMessage), "hi")
    ensures GenerateResponse(userMessage, clock) == GreetingText
  {
  }

  /** The first letters of all keywords. */
  const Initials: string := "hstbgdwo"

  lemma KeywordInitials(r: Rule)
    ensures forall k :: k in Keywords(r) ==> k != [] && k[0] in Initials
  {
    match r
    case Greeting =>
    case HelpRequest =>
    case Gratitude =>
    case Farewell =>
    case TimeRequest =>
    case WeatherRequest =>
    case HoursRequest =>
  }

  /** A message holding no keyword initial matches no rule. */
  lemma {:induction false} NoInitialsNoMatch(m: string, rules: seq<Rule>)
    requires forall i :: 0 <= i < |m| ==> m[i] !in Initials
    ensures FirstMatch(m, rules) == |rules|
  {
    if rules != [] {
      KeywordInitials(rules[0]);
      forall k | k in Keywords(rules[0])
        ensures !Includes(m, k)
      {
        LacksCharacter(m, k, k[0]);
      }
      NoInitialsNoMatch(m, rules[1..]);
    }
  }

  /** "hi, thanks for the help" mentions three rules; the greeting wins. */
  lemma ExampleGreetingFirst(userMessage: string, clock: string)
    requires userMessage == "hi, thanks for the help"
    ensures MentionsAny(Normalize(userMessage), Keywords(Greeting))
    ensures MentionsAny(Normalize(userMessage), Keywords(HelpRequest))
    ensures MentionsAny(Normalize(userMessage), Keywords(Gratitude))
    ensures GenerateResponse(userMessage, clock) == GreetingText
  {
    GreetingFirstMentionsHi(userMessage);
    GreetingFirstMentionsHelpAndThanks(userMessage);
    assert "hi" in Keywords(Greeting);
    assert "help" in Keywords(HelpRequest);
    assert "thank" in Keywords(Gratitude);
    GreetingWinsOnHi(userMessage, clock);
  }

  lemma GreetingFirstMentionsHelpAndThanks(userMessage: string)
    requires userMessage == "hi, thanks for the help"
    ensures Includes(Normalize(userMessage), "help")
    ensures Includes(Normalize(userMessage), "thank")
  {
    GreetingFirstNormalForm(userMessage);
    GreetingFirstMentionsHelp(userMessage);
    GreetingFirstMentionsThanks(userMessage);
  }

  lemma GreetingFirstMentionsHelp(m: string)
    requires m == "hi, thanks for the help"
    ensures Includes(m, "help")
  {
    assert OccursAt(m, "help", 19);
  }

  lemma GreetingFirstMentionsThanks(m: string)
    requires m == "hi, thanks for the help"
    ensures Includes(m, "thank")
  {
    assert OccursAt(m, "thank", 4);
  }

  lemma GreetingFirstMentionsHi(userMessage: string)
    requires userMessage == "hi, thanks for the help"
    ensures Includes(Normalize(userMessage), "hi")
  {
    GreetingFirstNormalForm(userMessage);
    assert OccursAt(userMessage, "hi", 0);
  }

  lemma GreetingFirstNormalForm(userMessage: string)
    requires userMessage == "hi, thanks for the help"
    ensures Normalize(userMessage) == userMessage
  {
    assert Lower(userMessage) == userMessage;
    NormalizedAlready(userMessage);
  }

  /** "Can you help me with this?" asks for help, but "this" holds "hi". */
  lemma ExampleHiInsideWord(userMessage: string, clock: string)
    requires userMessage == "Can you help me with this?"
    ensures GenerateResponse(userMessage, clock) == GreetingText
  {
    var m := HiInsideWordNormalForm(userMessage);
    HiInsideWordMentionsHi(m);
    GreetingWinsOnHi(userMessage, clock);
  }

  lemma HiInsideWordNormalForm(userMessage: string) returns (m: string)
    requires userMessage == "Can you help me with this?"
    ensures m == "can you help me with this?" && Normalize(userMessage) == m
  {
    m := "can you help me with this?";
    assert Lower(userMessage) == m;
    NormalizedAlready(m);
  }

  lemma HiInsideWordMentionsHi(m: string)
    requires m == "can you help me with this?"
    ensures Includes(m, "hi")
  {
    assert OccursAt(m, "hi", 22);
  }

  /** "xyz123" matches nothing and is echoed back. */
  lemma ExampleEcho(userMessage: string, clock: string)
    requires userMessage == "xyz123"
    ensures Includes(GenerateResponse(userMessage, clock), userMessage)
  {
    EchoMatchesNothing(userMessage);
    EchoQuotesMessage(userMessage, clock);
  }

  lemma EchoMatchesNothing(userMessage: string)
    requires userMessage == "xyz123"
    ensures FirstMatch(Normalize(userMessage), Rules) == |Rules|
  {
    EchoNormalForm(userMessage);
    EchoHasNoInitials(userMessage);
    NoInitialsNoMatch(userMessage, Rules);
  }

  lemma EchoNormalForm(userMessage: string)
    requires userMessage == "xyz123"
    ensures Normalize(userMessage) == userMessage
  {
    assert Lower(userMessage) == userMessage;
    NormalizedAlready(userMessage);
  }

  lemma EchoHasNoInitials(m: string)
    requires m == "xyz123"
    ensures forall i :: 0 <= i < |m| ==> m[i] !in Initials
  {
  }

  /** A lower-case message without surrounding white space is its own
      normal form. */
  lemma NormalizedAlready(m: string)
    requires Lower(m) == m
    requires m != [] ==> !IsJsSpace(m[0]) && !IsJsSpace(m[|m| - 1])
    ensures Normalize(m) == m
  {
  }

  /** The text holds "thank" but no greeting or help keyword. */
  predicate ThanksOnly(m: string)
  {
    Includes(m, "thank")
    && !Includes(m, "hello") && !Includes(m, "hi") && !Includes(m, "hey")
    && !Includes(m, "help") && !Includes(m, "support")
  }

  /** A message that thanks and neither greets nor asks for help gets the
      gratitude reply, whatever later rules it also matches. */
  lemma GratitudeWhenOnlyThanks(userMessage: string, clock: string)
    requires ThanksOnly(Normalize(userMessage))
    ensures GenerateResponse(userMessage, clock) == GratitudeText
  {
  }
}
