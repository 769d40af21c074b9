/**
 * The request handling at the top of index.php, the stand-alone front page:
 * the POST `send_message` handler, `?clear`, the sliding-window
 * `checkRateLimit` over `$_SESSION['api_requests']` and `generateBotResponse`.
 *
 * `time()` is the `now` parameter and `date('H:i')` the `time` parameter.
 * The curl exchange is an `Outcome` value, `array_rand` a `Draw`, and
 * `strip_tags` an opaque parameter.
 */
module FrontPage {
  import opened Wrappers
  import opened Random
  import opened Text
  import opened Api
  import Helpers

  /** An entry of `$_SESSION['chat_history']` as index.php writes it. */
  datatype HistoryItem = HistoryItem(kind: string, message: string, timestamp: string)

  /** `DEEPSEEK_API_KEY` as config.php ships it, and the placeholder it is compared with. */
  const ShippedApiKey: string := ""
  const PlaceholderApiKey: string := "YOUR_DEEPSEEK_API_KEY_HERE"

  /** `RATE_LIMIT_REQUESTS` and `RATE_LIMIT_WINDOW` (seconds) of config.php. */
  const RateLimitRequests: nat := 10
  const RateLimitWindow: int := 60

  /** How many history entries are sent as context ("3 exchanges"). */
  const HistoryLimit: nat := 6

  const ConfigureKeyMessage: string :=
    "Please configure your DeepSeek API key in the config.php file to enable AI responses."
  const WaitMessage: string :=
    "Please wait a moment before sending another message. I need a brief pause to process requests properly."

  /**
   * The system message. It is a single-quoted PHP string, so each `\n` in it
   * is a backslash followed by `n`, not a line break.
   */
  const SystemPrompt: string :=
    "You are Alex, a friendly and knowledgeable AI assistant. You have a warm, conversational personality and love helping people. Key traits:\\n\\n- Be genuinely curious about the user and remember what they share\\n- Use a natural, friendly tone like talking to a good friend\\n- Ask follow-up questions to keep conversations flowing\\n- Share relevant insights and be helpful without being overly formal\\n- Use emojis occasionally to add warmth (but not excessively)\\n- Remember context from the conversation and reference it naturally\\n- Be encouraging and positive while staying authentic\\n\\nKeep responses conversational and engaging, typically 1-3 sentences unless more detail is specifically requested."

  // ---------------------------------------------------------------------------
  // The sliding window

  /** The timestamps `array_filter` keeps: those strictly inside the last window. */
  function Recent(requests: seq<int>, now: int): (kept: seq<int>)
    ensures |kept| <= |requests|
    ensures forall t :: t in kept <==> t in requests && t > now - RateLimitWindow
    ensures forall t :: multiset(kept)[t] == if t > now - RateLimitWindow then multiset(requests)[t] else 0
  {
    if requests == [] then []
    else
      var prefix, last := requests[..|requests| - 1], requests[|requests| - 1];
      assert requests == prefix + [last];
      Recent(prefix, now) + (if last > now - RateLimitWindow then [last] else [])
  }

  /** The filter keeps the surviving timestamps in their stored order. */
  lemma {:induction false} RecentIsSubsequence(requests: seq<int>, now: int, i: nat, j: nat)
    requires i < j < |Recent(requests, now)|
    ensures exists a, b :: 0 <= a < b < |requests| && requests[a] == Recent(requests, now)[i] && requests[b] == Recent(requests, now)[j]
    decreases |requests|
  {
    var prefix := requests[..|requests| - 1];
    var kept := Recent(prefix, now);
    if j < |kept| {
      RecentIsSubsequence(prefix, now, i, j);
      var a, b :| 0 <= a < b < |prefix| && prefix[a] == kept[i] && prefix[b] == kept[j];
      assert requests[a] == prefix[a] && requests[b] == prefix[b];
    } else {
      assert Recent(requests, now)[j] == requests[|requests| - 1];
      assert kept[i] in prefix;
      var a :| 0 <= a < |prefix| && prefix[a] == kept[i];
      assert requests[a] == prefix[a];
    }
  }

  /** The decision of `checkRateLimit`: a request is allowed while fewer than the limit remain in the window. */
  predicate Allowed(requests: seq<int>, now: int)
  {
    |Recent(requests, now)| < RateLimitRequests
  }

  /** `$_SESSION['api_requests']` after `checkRateLimit`: the recent timestamps, and `now` when allowed. */
  function RequestsAfter(requests: seq<int>, now: int): seq<int>
  {
    Recent(requests, now) + if Allowed(requests, now) then [now] else []
  }

  /**
   * The stored list never grows past the limit: starting from at most
   * `RATE_LIMIT_REQUESTS` timestamps, `checkRateLimit` leaves at most that
   * many, and only timestamps inside the window ending at `now` survive.
   */
  lemma RequestsAfterBounded(requests: seq<int>, now: int)
    requires |requests| <= RateLimitRequests
    ensures |RequestsAfter(requests, now)| <= RateLimitRequests
    ensures forall t :: t in RequestsAfter(requests, now) ==> now - RateLimitWindow < t
  {
  }

  /** Replaying `checkRateLimit` over a run of calls, from a list within the limit, stays within it. */
  function Replay(requests: seq<int>, times: seq<int>): seq<int>
    decreases |times|
  {
    if times == [] then requests else Replay(RequestsAfter(requests, times[0]), times[1..])
  }

  lemma {:induction false} ReplayBounded(requests: seq<int>, times: seq<int>)
    requires |requests| <= RateLimitRequests
    ensures |Replay(requests, times)| <= RateLimitRequests
    decreases |times|
  {
    if times != [] {
      RequestsAfterBounded(requests, times[0]);
      ReplayBounded(RequestsAfter(requests, times[0]), times[1..]);
    }
  }

  // ---------------------------------------------------------------------------
  // The request and the outcome

  /** `$msg['type'] === 'user' ? 'user' : 'assistant'`. */
  function RoleOf(kind: string): (role: string)
    ensures role == "user" || role == "assistant"
    ensures role == "user" <==> kind == "user"
  {
    if kind == "user" then "user" else "assistant"
  }

  function ToApiMessage(item: HistoryItem, stripTags: string -> string): ApiMessage
  {
    ApiMessage(RoleOf(item.kind), stripTags(item.message))
  }

  /** The last `n` entries (`array_slice($h, -n)`). */
  function LastN(s: seq<HistoryItem>, n: nat): (r: seq<HistoryItem>)
    ensures |r| == if |s| < n then |s| else n
    ensures r == s[|s| - |r|..]
  {
    if |s| <= n then s else s[|s| - n..]
  }

  /** `$messages`: the system message, the last six history entries, then the current message. */
  function RequestMessages(history: seq<HistoryItem>, message: string, stripTags: string -> string): seq<ApiMessage>
  {
    var recent := LastN(history, HistoryLimit);
    [ApiMessage("system", SystemPrompt)]
      + seq(|recent|, k requires 0 <= k < |recent| => ToApiMessage(recent[k], stripTags))
      + [ApiMessage("user", message)]
  }

  /** The request has `2 + min(6, |history|)` messages, in history order between the system and the current message. */
  lemma RequestShape(history: seq<HistoryItem>, message: string, stripTags: string -> string)
    ensures var m := RequestMessages(history, message, stripTags);
      && |m| == 2 + (if |history| < HistoryLimit then |history| else HistoryLimit)
      && m[0] == ApiMessage("system", SystemPrompt)
      && m[|m| - 1] == ApiMessage("user", message)
      && forall k :: 1 <= k < |m| - 1 ==> m[k] == ToApiMessage(history[|history| - |m| + 1 + k], stripTags)
  {
  }

  /** The `array_merge` and the `foreach` that build `$messages`. */
  method BuildMessages(history: seq<HistoryItem>, message: string, stripTags: string -> string)
    returns (messages: seq<ApiMessage>)
    ensures messages == RequestMessages(history, message, stripTags)
  {
    var conversation: seq<ApiMessage> := [];
    if |history| > 0 {
      var recentHistory := LastN(history, HistoryLimit);
      var i := 0;
      while i < |recentHistory|
        invariant 0 <= i <= |recentHistory|
        invariant |conversation| == i
        invariant forall k :: 0 <= k < i ==> conversation[k] == ToApiMessage(recentHistory[k], stripTags)
      {
        var msg := recentHistory[i];
        conversation := conversation + [ApiMessage(if msg.kind == "user" then "user" else "assistant", stripTags(msg.message))];
        i := i + 1;
      }
    }
    messages := [ApiMessage("system", SystemPrompt)] + conversation;
    messages := messages + [ApiMessage("user", message)];
  }

  /** `$fallback_responses[array_rand($fallback_responses)]`. */
  function Fallback(r: Draw): (reply: string)
    ensures reply in FallbackResponses
  {
    FallbackResponses[Index(r, |FallbackResponses|)]
  }

  /** The escaped, trimmed content of an HTTP 200 response whose JSON has `choices[0].message.content`. */
  function Content(outcome: Outcome): Option<string>
  {
    if outcome.Response? && outcome.status == 200 && outcome.body.Decoded? && outcome.body.content.Some?
    then Some(Helpers.SanitizeOutput(PhpTrim(outcome.body.content.value)))
    else None
  }

  /**
   * The reply after the call: a curl error, a status other than 200, a JSON
   * error, no content, or content that is PHP-empty once trimmed and escaped
   * all give a fallback; otherwise the trimmed, escaped content.
   */
  function ApiReply(outcome: Outcome, r: Draw): (reply: string)
    ensures reply != ""
    ensures Content(outcome).None? || IsPhpEmpty(Content(outcome).value) ==> reply in FallbackResponses
    ensures Content(outcome).Some? && !IsPhpEmpty(Content(outcome).value) ==> reply == Content(outcome).value
  {
    match outcome
    case TransportError => Fallback(r)
    case Response(status, body) =>
      if status != 200 then Fallback(r)
      else if body.Malformed? then Fallback(r)
      else if body.content.Some? && !IsPhpEmpty(Helpers.SanitizeOutput(PhpTrim(body.content.value)))
      then Helpers.SanitizeOutput(PhpTrim(body.content.value))
      else Fallback(r)
  }

  /** A successful reply keeps no markup: it has no `<`, `>`, `"` or `'` left. */
  lemma ApiReplyEscaped(outcome: Outcome, r: Draw)
    ensures var reply := ApiReply(outcome, r);
      reply in FallbackResponses
      || forall k :: 0 <= k < |reply| ==> reply[k] != '<' && reply[k] != '>' && reply[k] != '"' && reply[k] != '\''
  {
  }

  /** The key test of `generateBotResponse`: the placeholder or a PHP-empty key. */
  predicate Unconfigured(key: string)
  {
    key == PlaceholderApiKey || IsPhpEmpty(key)
  }

  /** The reply of `generateBotResponse` given the stored timestamps. */
  function BotReply(key: string, requests: seq<int>, now: int, outcome: Outcome, r: Draw): (reply: string)
  {
    if Unconfigured(key) then ConfigureKeyMessage
    else if !Allowed(requests, now) then WaitMessage
    else ApiReply(outcome, r)
  }

  /** Every reply is one of the fixed messages, a fallback, or escaped model output; never empty. */
  lemma BotReplySources(key: string, requests: seq<int>, now: int, outcome: Outcome, r: Draw)
    ensures var reply := BotReply(key, requests, now, outcome, r);
      && reply != ""
      && (|| reply == ConfigureKeyMessage || reply == WaitMessage || reply in FallbackResponses
          || (Content(outcome).Some? && reply == Content(outcome).value))
  {
    assert |ConfigureKeyMessage| > 0 && |WaitMessage| > 0;
  }

  /** With the key config.php ships, every message gets the configuration notice and no call is made. */
  lemma ShippedKeyNeverCallsApi(requests: seq<int>, now: int, outcome: Outcome, r: Draw)
    ensures BotReply(ShippedApiKey, requests, now, outcome, r) == ConfigureKeyMessage
  {
  }

  // ---------------------------------------------------------------------------
  // The session

  class Session {
    var chatHistory: seq<HistoryItem>
    var apiRequests: seq<int>

    /** The session as index.php initialises it. */
    constructor ()
      ensures chatHistory == [] && apiRequests == []
    {
      chatHistory := [];
      apiRequests := [];
    }

    /**
     * `checkRateLimit`: drops every timestamp at or before `now - 60`; then,
     * when `RATE_LIMIT_REQUESTS` remain, refuses without recording anything,
     * and otherwise records `now` and allows.
     */
    method CheckRateLimit(now: int) returns (allowed: bool)
      modifies this`apiRequests
      ensures allowed <==> Allowed(old(apiRequests), now)
      ensures apiRequests == RequestsAfter(old(apiRequests), now)
    {
      var windowStart := now - RateLimitWindow;
      var kept: seq<int> := [];
      var i := 0;
      while i < |apiRequests|
        invariant 0 <= i <= |apiRequests|
        invariant kept == Recent(apiRequests[..i], now)
      {
        assert apiRequests[..i + 1][..i] == apiRequests[..i];
        if apiRequests[i] > windowStart {
          kept := kept + [apiRequests[i]];
        }
        i := i + 1;
      }
      assert apiRequests[..i] == apiRequests;
      apiRequests := kept;
      if |apiRequests| >= RateLimitRequests {
        return false;
      }
      apiRequests := apiRequests + [now];
      return true;
    }

    /**
     * `generateBotResponse`: an unconfigured key answers at once, before the
     * rate limit is consulted; a refused request answers with the wait
     * message; otherwise the request (returned as `sent`) is made and its
     * outcome handled.
     */
    method GenerateBotResponse(message: string, key: string, now: int, outcome: Outcome, r: Draw, stripTags: string -> string)
      returns (reply: string, sent: Option<seq<ApiMessage>>)
      modifies this`apiRequests
      ensures reply == BotReply(key, old(apiRequests), now, outcome, r)
      ensures Unconfigured(key) ==> apiRequests == old(apiRequests) && sent == None
      ensures !Unconfigured(key) ==> apiRequests == RequestsAfter(old(apiRequests), now)
      ensures sent.Some? <==> !Unconfigured(key) && Allowed(old(apiRequests), now)
      ensures sent.Some? ==> sent.value == RequestMessages(chatHistory, message, stripTags)
    {
      if key == PlaceholderApiKey || IsPhpEmpty(key) {
        return ConfigureKeyMessage, None;
      }
      var allowed := CheckRateLimit(now);
      if !allowed {
        return WaitMessage, None;
      }
      var messages := BuildMessages(chatHistory, message, stripTags);
      return ApiReply(outcome, r), Some(messages);
    }

    /**
     * The POST `send_message` handler. The message is PHP-trimmed; when the
     * result is PHP-empty ("" or "0") nothing changes. Otherwise the escaped
     * user entry and then the bot entry are appended. Either way the answer
     * is `success: true` with the whole history.
     */
    method HandleSendMessage(post: Option<string>, key: string, now: int, time: string,
                             outcome: Outcome, r: Draw, stripTags: string -> string)
      returns (success: bool, history: seq<HistoryItem>, sent: Option<seq<ApiMessage>>)
      modifies this
      ensures success && history == chatHistory
      ensures var message := PhpTrim(if post.Some? then post.value else "");
        if IsPhpEmpty(message) then
          chatHistory == old(chatHistory) && apiRequests == old(apiRequests) && sent == None
        else
          var user := HistoryItem("user", Helpers.SanitizeOutput(message), time);
          && chatHistory == old(chatHistory) + [user, HistoryItem("bot", BotReply(key, old(apiRequests), now, outcome, r), time)]
          && apiRequests == (if Unconfigured(key) then old(apiRequests) else RequestsAfter(old(apiRequests), now))
          && (sent.Some? <==> !Unconfigured(key) && Allowed(old(apiRequests), now))
          && (sent.Some? ==> sent.value == RequestMessages(old(chatHistory) + [user], message, stripTags))
    {
      var userMessage := PhpTrim(if post.Some? then post.value else "");
      sent := None;
      if !IsPhpEmpty(userMessage) {
        chatHistory := chatHistory + [HistoryItem("user", Helpers.SanitizeOutput(userMessage), time)];
        var botResponse;
        botResponse, sent := GenerateBotResponse(userMessage, key, now, outcome, r, stripTags);
        chatHistory := chatHistory + [HistoryItem("bot", botResponse, time)];
      }
      success, history := true, chatHistory;
    }

    /** `?clear`: the history is emptied; the stored timestamps stay. */
    method Clear()
      modifies this`chatHistory
      ensures chatHistory == [] && apiRequests == old(apiRequests)
    {
      chatHistory := [];
    }
  }

  /**
   * The current message is sent twice: escaped (and tag-stripped) as the
   * newest history entry, and raw as the final user message. For a message
   * without special characters the two differ only by `strip_tags`.
   */
  lemma CurrentMessageSentTwice(history: seq<HistoryItem>, message: string, time: string, stripTags: string -> string)
    ensures var m := RequestMessages(history + [HistoryItem("user", Helpers.SanitizeOutput(message), time)], message, stripTags);
      && |m| >= 3
      && m[|m| - 2] == ApiMessage("user", stripTags(Helpers.SanitizeOutput(message)))
      && m[|m| - 1] == ApiMessage("user", message)
      && ((forall k :: 0 <= k < |message| ==> !Helpers.IsSpecial(message[k])) ==>
            m[|m| - 2] == ApiMessage("user", stripTags(message)))
  {
    var h := history + [HistoryItem("user", Helpers.SanitizeOutput(message), time)];
    RequestShape(h, message, stripTags);
    if forall k :: 0 <= k < |message| ==> !Helpers.IsSpecial(message[k]) {
      Helpers.SanitizePlain(message);
    }
  }
}
