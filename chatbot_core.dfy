/**
 * The `ChatBot` class of public/assets/js/core/ChatBot.js: the controller of
 * the modular front end. It answers from `ConversationalPatterns` when an
 * intent matches and asks the server otherwise, and keeps one turn in flight
 * through its `isTyping` field.
 *
 * The user interface collaborators are reduced to what they record: the
 * messages shown, the input field and the events the class publishes.
 * `setTimeout` and the settling of `await`ed promises are explicit events.
 */
module ChatBotCore {
  import opened Random
  import opened Text
  import opened Intents

  // ---------------------------------------------------------------------------
  // The typing delay

  /** `message.length`: JavaScript counts UTF-16 code units, two for a character beyond U+FFFF. */
  function Utf16Length(s: string): (n: nat)
    ensures |s| <= n <= 2 * |s|
  {
    if s == [] then 0 else (if s[0] as int > 0xFFFF then 2 else 1) + Utf16Length(s[1..])
  }

  /** `Math.min(1000 + length * 20, 3000)`, in milliseconds. */
  function TypingDelay(length: nat): (ms: nat)
    ensures 1000 <= ms <= 3000
    ensures ms == 3000 <==> length >= 100
    ensures length < 100 ==> ms == 1000 + 20 * length
  {
    if 1000 + length * 20 < 3000 then 1000 + length * 20 else 3000
  }

  /** A longer message is never answered sooner. */
  lemma TypingDelayMonotone(a: nat, b: nat)
    requires a <= b
    ensures TypingDelay(a) <= TypingDelay(b)
  {
  }

  // ---------------------------------------------------------------------------
  // State

  /** What `MessageUI` shows, in order. */
  datatype Item =
    | UserMessage(text: string)
    | BotMessage(text: string)
    | Welcome

  /** How many welcome messages are shown. */
  function Welcomes(items: seq<Item>): nat
  {
    if items == [] then 0 else (if items[0] == Welcome then 1 else 0) + Welcomes(items[1..])
  }

  lemma {:induction false} WelcomesNone(items: seq<Item>)
    ensures Welcomes(items) == 0 <==> Welcome !in items
  {
    if items != [] {
      WelcomesNone(items[1..]);
      assert items == [items[0]] + items[1..];
    }
  }

  lemma {:induction false} WelcomesAppend(items: seq<Item>, x: Item)
    ensures Welcomes(items + [x]) == Welcomes(items) + (if x == Welcome then 1 else 0)
  {
    if items != [] {
      assert (items + [x])[1..] == items[1..] + [x];
      WelcomesAppend(items[1..], x);
    }
  }

  /**
   * `removeWelcomeMessage`: the first welcome message, if one is shown,
   * leaves; the other messages stay.
   */
  function RemoveWelcome(items: seq<Item>): (r: seq<Item>)
    ensures Welcome !in items ==> r == items
  {
    if items == [] then []
    else if items[0] == Welcome then items[1..]
    else [items[0]] + RemoveWelcome(items[1..])
  }

  /** Exactly one welcome message goes, when there is one. */
  lemma {:induction false} RemoveWelcomeCount(items: seq<Item>)
    ensures Welcomes(RemoveWelcome(items)) == if Welcomes(items) > 0 then Welcomes(items) - 1 else 0
  {
    if items != [] && items[0] != Welcome {
      RemoveWelcomeCount(items[1..]);
      assert ([items[0]] + RemoveWelcome(items[1..]))[1..] == RemoveWelcome(items[1..]);
    }
  }

  /** The position of the first welcome message (`querySelector` takes the first match). */
  function FirstWelcome(items: seq<Item>): (i: nat)
    requires Welcome in items
    ensures i < |items| && items[i] == Welcome && Welcome !in items[..i]
  {
    if items[0] == Welcome then 0 else
      assert items == [items[0]] + items[1..];
      1 + FirstWelcome(items[1..])
  }

  /** The removed message is the first welcome message, and the others keep their order. */
  lemma {:induction false} RemoveWelcomeSplit(items: seq<Item>)
    requires Welcome in items
    ensures var i := FirstWelcome(items); RemoveWelcome(items) == items[..i] + items[i + 1..]
  {
    if items[0] != Welcome {
      assert items == [items[0]] + items[1..];
      RemoveWelcomeSplit(items[1..]);
      var j := FirstWelcome(items[1..]);
      assert items[..j + 1] == [items[0]] + items[1..][..j];
      assert items[j + 2..] == items[1..][j + 1..];
    }
  }

  /** A message shown after the others is never the welcome message, so removing commutes with appending it. */
  lemma {:induction false} RemoveWelcomeAppend(items: seq<Item>, x: Item)
    requires x != Welcome
    ensures RemoveWelcome(items + [x]) == RemoveWelcome(items) + [x]
  {
    if items != [] {
      assert (items + [x])[1..] == items[1..] + [x];
      RemoveWelcomeAppend(items[1..], x);
    }
  }

  /**
   * Showing a user message when at most one welcome message is shown: the
   * message ends the list and no welcome message is left.
   */
  lemma ShowUserMessage(items: seq<Item>, text: string)
    requires Welcomes(items) <= 1
    ensures var shown := RemoveWelcome(items + [UserMessage(text)]);
      && shown == RemoveWelcome(items) + [UserMessage(text)]
      && Welcome !in shown && Welcomes(shown) == 0
  {
    RemoveWelcomeAppend(items, UserMessage(text));
    WelcomesAppend(items, UserMessage(text));
    var shown := RemoveWelcome(items + [UserMessage(text)]);
    RemoveWelcomeCount(items + [UserMessage(text)]);
    WelcomesNone(shown);
  }

  /** The events `ChatBot` itself publishes on the event manager. */
  datatype Event = TypingStarted | TypingEnded

  /** The turn in flight, if any. */
  datatype Turn =
    | Idle
    | LocalTimer(reply: string, delay: nat)   // a `setTimeout` holding a local reply
    | AwaitingApi(message: string)            // `await this.apiClient.sendMessage(message)`

  /** How the `await`ed `apiClient.sendMessage` settles. */
  datatype ApiOutcome =
    | Replied(response: string)   // resolved; `response.response` is shown
    | Failed                      // rejected: network error or HTTP error status

  /** The text of `MessageUI.showErrorMessage`. */
  const ErrorMessage: string :=
    "I'm sorry, but I'm having trouble connecting to my AI service. Please try again in a moment."

  /** Started events minus ended events. */
  function Balance(events: seq<Event>): int
  {
    if events == [] then 0
    else Balance(events[..|events| - 1]) + (if events[|events| - 1] == TypingStarted then 1 else -1)
  }

  /** Publishing one more event moves the balance by one. */
  lemma BalanceAppend(events: seq<Event>, e: Event)
    ensures Balance(events + [e]) == Balance(events) + (if e == TypingStarted then 1 else -1)
  {
    assert (events + [e])[..|events|] == events;
  }

  class ChatBot {
    var isTyping: bool
    var items: seq<Item>
    var input: string
    var events: seq<Event>
    var turn: Turn

    /**
     * A turn is in flight exactly while `isTyping`, every
     * `bot:typingStarted` published so far has been matched by a
     * `bot:typingEnded` except that of the turn in flight, and at most one
     * welcome message is shown.
     */
    predicate Valid()
      reads this
    {
      && (isTyping <==> !turn.Idle?)
      && Balance(events) == (if isTyping then 1 else 0)
      && Welcomes(items) <= 1
    }

    constructor (welcome: bool)
      ensures Valid() && !isTyping && turn == Idle && events == [] && input == ""
      ensures items == if welcome then [Welcome] else []
    {
      isTyping := false;
      items := if welcome then [Welcome] else [];
      input := "";
      events := [];
      turn := Idle;
    }

    /**
     * `sendMessage({message})`: a message that is empty after trimming, or
     * any message while a turn is in flight, changes nothing. Otherwise the
     * turn starts (`isTyping`, `bot:typingStarted`, input cleared, the trimmed
     * user message shown and the welcome message removed) and is answered locally exactly when
     * `getResponse` finds an intent, after `TypingDelay`; else the API is asked.
     */
    method SendMessage(data: string, matches: Matcher, r: Draw)
      requires Valid()
      modifies this
      ensures Valid()
      ensures JsTrim(data) == "" || old(isTyping) ==>
                isTyping == old(isTyping) && items == old(items) && input == old(input)
                && events == old(events) && turn == old(turn)
      ensures JsTrim(data) != "" && !old(isTyping) ==>
                var message := JsTrim(data);
                && isTyping && input == ""
                && items == RemoveWelcome(old(items)) + [UserMessage(message)]
                && Welcome !in items
                && events == old(events) + [TypingStarted]
                && turn == match GetResponse(Patterns, matches, message, r)
                           case Some(reply) => LocalTimer(reply, TypingDelay(Utf16Length(message)))
                           case None => AwaitingApi(message)
    {
      var message := JsTrim(data);
      if message == "" {
        return;
      }
      if isTyping {
        return;
      }
      StartTurn(message);
      var localResponse := GetResponse(Patterns, matches, message, r);
      if localResponse.Some? && localResponse.value != "" {
        turn := LocalTimer(localResponse.value, TypingDelay(Utf16Length(message)));
      } else {
        PatternsShape();
        turn := AwaitingApi(message);
      }
    }

    /** The start of an accepted turn: typing, `bot:typingStarted`, the input cleared and the user message shown. */
    method StartTurn(message: string)
      requires Valid() && !isTyping
      modifies this
      ensures isTyping && input == "" && turn == old(turn)
      ensures Balance(events) == 1 && Welcomes(items) == 0
      ensures items == RemoveWelcome(old(items)) + [UserMessage(message)] && Welcome !in items
      ensures events == old(events) + [TypingStarted]
    {
      isTyping := true;
      BalanceAppend(events, TypingStarted);
      events := events + [TypingStarted];
      input := "";
      ShowUserMessage(items, message);
      items := items + [UserMessage(message)];
      items := RemoveWelcome(items);
    }

    /** `handleQuickAction`: ignored while typing, otherwise `sendMessage` with the button's message. */
    method HandleQuickAction(data: string, matches: Matcher, r: Draw)
      requires Valid()
      modifies this
      ensures Valid()
      ensures JsTrim(data) == "" || old(isTyping) ==>
                isTyping == old(isTyping) && items == old(items) && input == old(input)
                && events == old(events) && turn == old(turn)
      ensures JsTrim(data) != "" && !old(isTyping) ==>
                var message := JsTrim(data);
                && isTyping && input == ""
                && items == RemoveWelcome(old(items)) + [UserMessage(message)]
                && Welcome !in items
                && events == old(events) + [TypingStarted]
                && turn == match GetResponse(Patterns, matches, message, r)
                           case Some(reply) => LocalTimer(reply, TypingDelay(Utf16Length(message)))
                           case None => AwaitingApi(message)
    {
      if isTyping {
        return;
      }
      SendMessage(data, matches, r);
    }

    /** The typing-delay timer fires: the local reply is shown and the turn ends. */
    method LocalTimerFires()
      requires Valid() && turn.LocalTimer?
      modifies this
      ensures Valid() && !isTyping && turn == Idle && input == old(input)
      ensures items == old(items) + [BotMessage(old(turn).reply)]
      ensures events == old(events) + [TypingEnded]
    {
      WelcomesAppend(items, BotMessage(turn.reply));
      items := items + [BotMessage(turn.reply)];
      isTyping := false;
      BalanceAppend(events, TypingEnded);
      events := events + [TypingEnded];
      turn := Idle;
    }

    /**
     * The API call settles: its `response` or, on any failure, the fixed
     * error text is shown, and the turn ends.
     */
    method ApiSettles(outcome: ApiOutcome)
      requires Valid() && turn.AwaitingApi?
      modifies this
      ensures Valid() && !isTyping && turn == Idle && input == old(input)
      ensures items == old(items) + [BotMessage(if outcome.Replied? then outcome.response else ErrorMessage)]
      ensures events == old(events) + [TypingEnded]
    {
      if outcome.Replied? {
        WelcomesAppend(items, BotMessage(outcome.response));
        items := items + [BotMessage(outcome.response)];
      } else {
        WelcomesAppend(items, BotMessage(ErrorMessage));
        items := items + [BotMessage(ErrorMessage)];
      }
      isTyping := false;
      BalanceAppend(events, TypingEnded);
      events := events + [TypingEnded];
      turn := Idle;
    }

    /**
     * `clearChat` once the server call settles: on success the messages are
     * replaced by the welcome message; on failure nothing changes. Neither
     * `isTyping` nor a pending timer or API call is touched, so a reply in
     * flight still arrives after the welcome message.
     */
    method ClearChatSettles(serverOk: bool)
      requires Valid()
      modifies this`items
      ensures Valid()
      ensures items == if serverOk then [Welcome] else old(items)
    {
      if serverOk {
        items := [Welcome];
      }
    }
  }

  /**
   * A turn answered locally ends with exactly two more messages, user then
   * bot, after the welcome message is removed, and with the events balanced again.
   */
  method LocalTurn(bot: ChatBot, data: string, matches: Matcher, r: Draw)
    requires bot.Valid() && !bot.isTyping
    requires GetResponse(Patterns, matches, JsTrim(data), r).Some? && JsTrim(data) != ""
    modifies bot
    ensures bot.Valid() && !bot.isTyping && Balance(bot.events) == 0
    ensures bot.items == RemoveWelcome(old(bot.items))
      + [UserMessage(JsTrim(data)), BotMessage(GetResponse(Patterns, matches, JsTrim(data), r).value)]
    ensures bot.events == old(bot.events) + [TypingStarted, TypingEnded]
  {
    bot.SendMessage(data, matches, r);
    bot.LocalTimerFires();
  }

  /**
   * A clear that settles while a local reply is pending does not cancel it:
   * the reply is shown after the welcome message and the turn ends normally.
   */
  method ClearThenTimerFires(bot: ChatBot)
    requires bot.Valid() && bot.turn.LocalTimer?
    modifies bot
    ensures bot.Valid() && !bot.isTyping && bot.turn == Idle
    ensures bot.items == [Welcome, BotMessage(old(bot.turn).reply)]
  {
    bot.ClearChatSettles(true);
    bot.LocalTimerFires();
  }
}
