/**
 * The page script public/assets/js/chatbot.js: a local reply generator over
 * its own copy of the intent table, the `isTyping` guard that lets one turn
 * be in flight at a time, and the handling of a server reply.
 *
 * The DOM is reduced to what the script changes: the list of chat bubbles,
 * the input field's value and the welcome banner. `setTimeout` callbacks are
 * explicit events (`LocalTimerFires`), `Math.random()` is a `Draw` and the
 * clock reading shown in a bubble is a parameter.
 */
module Widget {
  import opened Wrappers
  import opened Random
  import opened Text
  import opened Intents

  // ---------------------------------------------------------------------------
  // Replies

  /**
   * `generateLocalResponse`: lower-case and trim the message, answer with a
   * reply of the first non-default intent whose pattern matches, and
   * otherwise with a reply of `default`. It never produces the empty string,
   * the only falsy string.
   */
  function GenerateLocalResponse(matches: Matcher, message: string, r: Draw): (reply: string)
    ensures reply != ""
    ensures var m := FirstMatch(Patterns, matches, JsTrim(ToLower(message)), 0);
      if m.Some? then reply in Patterns[m.value].responses else reply in DefaultReplies
  {
    PatternsShape();
    var lower := JsTrim(ToLower(message));
    match FirstMatch(Patterns, matches, lower, 0)
    case Some(i) => Choose(Patterns[i].responses, r)
    case None => Choose(DefaultReplies, r)
  }

  /**
   * The page script agrees with `ConversationalPatterns.getResponse` on the
   * normalised message whenever the latter answers, and falls back to the
   * `default` replies exactly where the latter returns null.
   */
  lemma LocalResponseExtendsGetResponse(matches: Matcher, message: string, r: Draw)
    ensures var lower := JsTrim(ToLower(message));
      match GetResponse(Patterns, matches, lower, r)
      case Some(reply) => GenerateLocalResponse(matches, message, r) == reply
      case None => GenerateLocalResponse(matches, message, r) in DefaultReplies
  {
    PatternsShape();
  }

  const FallbackReplies: seq<string> := [
    "I'm having a bit of trouble connecting right now, but I'm still here to chat! 😊 What would you like to talk about?",
    "Looks like there's a small hiccup with my connection, but no worries! I can still have a great conversation with you. What's on your mind?",
    "I'm experiencing some technical difficulties, but I'm still ready to chat! 💬 Tell me something interesting about your day!",
    "My connection seems a bit spotty, but I'm here and excited to talk with you! What would you like to discuss?"
  ]

  /** `generateFallbackResponse`: one of the four fixed connection-trouble replies. */
  function GenerateFallbackResponse(r: Draw): (reply: string)
    ensures reply in FallbackReplies
  {
    Choose(FallbackReplies, r)
  }

  /** Every fallback reply is reachable: the draw `k/4` picks the `k`-th. */
  lemma FallbackReachable(k: nat)
    requires k < 4
    ensures GenerateFallbackResponse(k as real / 4.0) == FallbackReplies[k]
  {
    IndexReachesEvery(4, k);
  }

  // ---------------------------------------------------------------------------
  // escapeHtml: the text of a text node, serialised as `innerHTML`

  /** How the HTML serialiser writes one character of a text node. */
  function EscapeChar(c: char): string
  {
    if c == '&' then "&amp;"
    else if c == '<' then "&lt;"
    else if c == '>' then "&gt;"
    else if c == '\U{A0}' then "&nbsp;"
    else [c]
  }

  /** `escapeHtml`: assign `textContent`, read back `innerHTML`. */
  function EscapeHtml(s: string): (r: string)
    ensures |r| >= |s|
    ensures forall k :: 0 <= k < |r| ==> r[k] != '<' && r[k] != '>'
  {
    if s == [] then [] else EscapeChar(s[0]) + EscapeHtml(s[1..])
  }

  /** Reads back what `EscapeHtml` wrote: the four entities, and any other character as itself. */
  function UnescapeHtml(s: string): string
  {
    if s == [] then []
    else if |s| >= 5 && s[..5] == "&amp;" then "&" + UnescapeHtml(s[5..])
    else if |s| >= 4 && s[..4] == "&lt;" then "<" + UnescapeHtml(s[4..])
    else if |s| >= 4 && s[..4] == "&gt;" then ">" + UnescapeHtml(s[4..])
    else if |s| >= 6 && s[..6] == "&nbsp;" then "\U{A0}" + UnescapeHtml(s[6..])
    else [s[0]] + UnescapeHtml(s[1..])
  }

  /** Reading back one escaped character, followed by anything. */
  lemma UnescapeEscapeChar(c: char, rest: string)
    ensures UnescapeHtml(EscapeChar(c) + rest) == [c] + UnescapeHtml(rest)
  {
    var e := EscapeChar(c);
    var t := e + rest;
    assert t[|e|..] == rest;
    // each entity is told apart from the others by its second character
    if c == '&' {
      assert t[..5] == e;
    } else if c == '<' {
      assert t[..4] == e && t[1] == 'l';
      assert |t| >= 5 ==> t[..5][1] == 'l';
    } else if c == '>' {
      assert t[..4] == e && t[1] == 'g';
      assert |t| >= 5 ==> t[..5][1] == 'g';
      assert t[..4][1] == 'g';
    } else if c == '\U{A0}' {
      assert t[..6] == e && t[1] == 'n';
      assert t[..5][1] == 'n' && t[..4][1] == 'n';
    } else {
      assert t[0] == c;
      assert |t| >= 4 ==> t[..4][0] == c;
      assert |t| >= 5 ==> t[..5][0] == c;
      assert |t| >= 6 ==> t[..6][0] == c;
    }
  }

  /** The escaped text shows exactly the typed text: escaping loses nothing. */
  lemma {:induction false} EscapeHtmlRoundTrip(s: string)
    ensures UnescapeHtml(EscapeHtml(s)) == s
  {
    if s != [] {
      UnescapeEscapeChar(s[0], EscapeHtml(s[1..]));
      EscapeHtmlRoundTrip(s[1..]);
      assert [s[0]] + s[1..] == s;
    }
  }

  /** Text without the four special characters is shown unchanged. */
  lemma {:induction false} EscapeHtmlPlain(s: string)
    requires forall k :: 0 <= k < |s| ==> s[k] !in "&<>\U{A0}"
    ensures EscapeHtml(s) == s
  {
    if s != [] {
      EscapeHtmlPlain(s[1..]);
    }
  }

  // ---------------------------------------------------------------------------
  // The server path

  /** One entry of the `chat_history` array index.php sends back. */
  datatype HistoryItem = HistoryItem(kind: string, message: string, timestamp: string)

  /**
   * The settled `fetch('index.php')` promise: a network failure, an HTTP
   * status outside 200-299, a body that is not JSON, or the decoded
   * `success` flag and `chat_history` (absent when missing or falsy).
   */
  datatype ServerResult =
    | NetworkError
    | HttpError(status: int)
    | BadJson
    | Decoded(success: bool, history: Option<seq<HistoryItem>>)

  /** What the page does once the promise settles. */
  datatype Completion =
    | ShowAfterDelay(item: HistoryItem)   // a bot bubble after the typing delay, then typing off
    | ResetOnly                           // typing off, no bubble
    | ShowFallback(text: string)          // a fallback bot bubble after 800 ms, then typing off

  /** `chat_history.slice(-2).find(msg => msg.type === 'bot')`. */
  function LatestBotMessage(history: seq<HistoryItem>): (m: Option<HistoryItem>)
    ensures m.Some? ==> m.value.kind == "bot" && m.value in history
    ensures m.Some? <==> exists k :: |history| - 2 <= k < |history| && 0 <= k && history[k].kind == "bot"
    ensures m.Some? && |history| >= 2 && history[|history| - 2].kind == "bot" ==> m.value == history[|history| - 2]
    ensures |history| >= 1 && history[|history| - 1].kind == "bot" && (|history| < 2 || history[|history| - 2].kind != "bot")
      ==> m == Some(history[|history| - 1])
  {
    var last := if |history| <= 2 then history else history[|history| - 2..];
    if |last| >= 1 && last[0].kind == "bot" then Some(last[0])
    else if |last| == 2 && last[1].kind == "bot" then Some(last[1])
    else None
  }

  /**
   * The `.then`/`.catch` chain of `sendMessage`: a successful answer shows the
   * latest bot entry or just ends the turn; every failure shows a fallback.
   */
  function HandleServerResult(result: ServerResult, r: Draw): (c: Completion)
    ensures c.ShowFallback? <==> !(result.Decoded? && result.success && result.history.Some?)
    ensures c.ShowFallback? ==> c.text in FallbackReplies
    ensures c.ShowAfterDelay? ==>
              result.Decoded? && result.history.Some? && LatestBotMessage(result.history.value) == Some(c.item)
    ensures c.ResetOnly? ==> result.Decoded? && result.history.Some? && LatestBotMessage(result.history.value).None?
  {
    match result
    case Decoded(true, Some(history)) =>
      (match LatestBotMessage(history)
       case Some(item) => ShowAfterDelay(item)
       case None => ResetOnly)
    case _ => ShowFallback(GenerateFallbackResponse(r))
  }

  // ---------------------------------------------------------------------------
  // The page state

  datatype Sender = User | Bot

  /** A message added to the chat: who sent it, its HTML and the time shown with it. */
  datatype Bubble = Bubble(sender: Sender, html: string, time: string)

  class ChatWidget {
    /** The module-level `isTyping` flag. */
    var isTyping: bool
    /** The bubbles appended to `#chat-messages`, oldest first. */
    var bubbles: seq<Bubble>
    /** The value of `#message-input`. */
    var input: string
    /** Whether the `.text-center` welcome banner is still shown. */
    var welcome: bool
    /** The reply of the scheduled typing-delay timer, if one is pending. */
    var pending: Option<string>

    /** One turn at most is in flight: typing exactly while a reply is pending. */
    predicate Valid()
      reads this
    {
      isTyping <==> pending.Some?
    }

    /** The page as loaded: no turn in flight, the welcome banner shown. */
    constructor ()
      ensures Valid()
      ensures !isTyping && bubbles == [] && input == "" && welcome && pending == None
    {
      isTyping := false;
      bubbles := [];
      input := "";
      welcome := true;
      pending := None;
    }

    /** `setTypingState`: the flag (the disabled buttons follow it and are not modelled). */
    method SetTypingState(typing: bool)
      modifies this`isTyping
      ensures isTyping == typing
    {
      isTyping := typing;
    }

    /**
     * `sendMessage`: ignored while typing; otherwise typing starts, the input
     * is cleared, the welcome banner goes, exactly one escaped user bubble is
     * added and the local reply is scheduled. The local reply is never empty,
     * so the `fetch` branch is never taken.
     */
    method SendMessage(message: string, matches: Matcher, r: Draw, now: string)
      requires Valid()
      modifies this
      ensures Valid()
      ensures old(isTyping) ==>
                isTyping && bubbles == old(bubbles) && input == old(input)
                && welcome == old(welcome) && pending == old(pending)
      ensures !old(isTyping) ==>
                isTyping && input == "" && !welcome
                && bubbles == old(bubbles) + [Bubble(User, EscapeHtml(message), now)]
                && pending == Some(GenerateLocalResponse(matches, message, r))
    {
      if isTyping {
        return;
      }
      SetTypingState(true);
      input := "";
      welcome := false;
      bubbles := bubbles + [Bubble(User, EscapeHtml(message), now)];
      var localResponse := GenerateLocalResponse(matches, message, r);
      if localResponse != "" {
        pending := Some(localResponse);
        return;
      }
      assert false;
    }

    /**
     * `handleFormSubmit`: the trimmed input is sent unless it is empty or a
     * turn is in flight, in which case nothing changes.
     */
    method HandleFormSubmit(matches: Matcher, r: Draw, now: string)
      requires Valid()
      modifies this
      ensures Valid()
      ensures JsTrim(old(input)) == "" || old(isTyping) ==>
        bubbles == old(bubbles) && input == old(input) && isTyping == old(isTyping)
        && welcome == old(welcome) && pending == old(pending)
      ensures JsTrim(old(input)) != "" && !old(isTyping) ==>
        bubbles == old(bubbles) + [Bubble(User, EscapeHtml(JsTrim(old(input))), now)]
        && isTyping && input == "" && !welcome
        && pending == Some(GenerateLocalResponse(matches, JsTrim(old(input)), r))
    {
      var message := JsTrim(input);
      if message == "" || isTyping {
        return;
      }
      SendMessage(message, matches, r, now);
    }

    /**
     * `handleQuickAction`: the button's `data-message` (absent or empty means
     * no message) is put in the input and sent untrimmed, unless a turn is in
     * flight.
     */
    method HandleQuickAction(data: Option<string>, matches: Matcher, r: Draw, now: string)
      requires Valid()
      modifies this
      ensures Valid()
      ensures data.None? || data.value == "" || old(isTyping) ==>
        bubbles == old(bubbles) && input == old(input) && isTyping == old(isTyping)
        && welcome == old(welcome) && pending == old(pending)
      ensures data.Some? && data.value != "" && !old(isTyping) ==>
        bubbles == old(bubbles) + [Bubble(User, EscapeHtml(data.value), now)]
        && isTyping && input == "" && !welcome
        && pending == Some(GenerateLocalResponse(matches, data.value, r))
    {
      if data.Some? && data.value != "" && !isTyping {
        input := data.value;
        SendMessage(data.value, matches, r, now);
      }
    }

    /**
     * The typing-delay timer of a local reply fires: exactly one bot bubble
     * with the reply is added and the turn ends. Without a pending timer
     * nothing happens.
     */
    method LocalTimerFires(now: string)
      requires Valid()
      modifies this
      ensures Valid() && !isTyping && pending == None
      ensures input == old(input) && welcome == old(welcome)
      ensures old(pending).Some? ==> bubbles == old(bubbles) + [Bubble(Bot, old(pending).value, now)]
      ensures old(pending).None? ==> bubbles == old(bubbles) && isTyping == old(isTyping)
    {
      if pending.Some? {
        bubbles := bubbles + [Bubble(Bot, pending.value, now)];
        SetTypingState(false);
        pending := None;
      }
    }
  }

  /**
   * A whole accepted turn: one user bubble and then one bot bubble holding a
   * local reply, with the page ready for the next message.
   */
  method AcceptedTurn(w: ChatWidget, message: string, matches: Matcher, r: Draw, sent: string, answered: string)
    requires w.Valid() && !w.isTyping
    modifies w
    ensures w.Valid() && !w.isTyping
    ensures w.bubbles == old(w.bubbles) + [Bubble(User, EscapeHtml(message), sent),
                                           Bubble(Bot, GenerateLocalResponse(matches, message, r), answered)]
  {
    w.SendMessage(message, matches, r, sent);
    w.LocalTimerFires(answered);
  }
}
