/**
 * `ChatbotService` of app/services/ChatbotService.php: answers a message from
 * the conversational catalog when an intent matches, and otherwise from the
 * DeepSeek API, masking every failure of the call with a fallback reply.
 *
 * The catalog (app/config/conversational_patterns.php) is not part of this
 * model and is a parameter. The HTTP call is an `Attempt`: the exception it
 * raised, or the curl outcome. `strip_tags` is an opaque parameter.
 */
module Service {
  import opened Wrappers
  import opened Random
  import opened Text
  import opened Api
  import Intents
  import Helpers

  /** An entry of `$_SESSION['chat_history']` as `ChatbotController` writes it. */
  datatype ChatEntry = ChatEntry(role: string, content: string, time: string)

  /** How the API call inside the `try` block ended. */
  datatype Attempt = Raised | Completed(outcome: Outcome)

  const SystemPrompt: string :=
    "You are Alex, a friendly and helpful AI assistant. You are conversational, engaging, and personable. You respond in a natural, human-like manner with occasional emojis to express emotion. Keep your responses concise but informative."

  const ApologyMessage: string :=
    "I apologize, but I couldn't generate a proper response. Could you please try again?"

  /** How many history entries `prepareConversationContext` keeps. */
  const ContextLimit: nat := 10

  // ---------------------------------------------------------------------------
  // The local answer

  /** The first intent of the catalog, in order, whose patterns match; no intent is skipped. */
  function FirstMatching(catalog: seq<Intents.Intent>, matches: Intents.Matcher, message: string, from: nat): (i: Option<nat>)
    ensures i.Some? ==>
              from <= i.value < |catalog| && Intents.MatchesPatterns(matches, message, catalog[i.value].patterns)
    ensures forall j :: from <= j < |catalog| && (i.None? || j < i.value) ==>
      !Intents.MatchesPatterns(matches, message, catalog[j].patterns)
    decreases |catalog| - from
  {
    if from >= |catalog| then None
    else if Intents.MatchesPatterns(matches, message, catalog[from].patterns) then Some(from)
    else FirstMatching(catalog, matches, message, from + 1)
  }

  /**
   * `generateLocalResponse`: a random reply of the first matching intent,
   * null when nothing matches or that intent has no replies.
   */
  function GenerateLocalResponse(catalog: seq<Intents.Intent>, matches: Intents.Matcher, message: string, r: Draw)
    : (reply: Option<string>)
    ensures FirstMatching(catalog, matches, message, 0).None? ==> reply.None?
    ensures reply.Some? ==> var i := FirstMatching(catalog, matches, message, 0);
      i.Some? && reply.value in catalog[i.value].responses
    ensures var i := FirstMatching(catalog, matches, message, 0);
      i.Some? && |catalog[i.value].responses| > 0 ==> reply.Some?
  {
    match FirstMatching(catalog, matches, message, 0)
    case None => None
    case Some(i) => Helpers.GetRandomItem(catalog[i].responses, r)
  }

  /** PHP truthiness of a `string|null`: null, "" and "0" are false. */
  predicate Truthy(s: Option<string>)
  {
    s.Some? && !IsPhpEmpty(s.value)
  }

  // ---------------------------------------------------------------------------
  // The request

  /** `array_slice($history, -n)`: the last `n` elements, or all of them when there are fewer. */
  function LastN<T>(s: seq<T>, n: nat): (r: seq<T>)
    ensures |r| == if |s| < n then |s| else n
    ensures r == s[|s| - |r|..]
  {
    if |s| <= n then s else s[|s| - n..]
  }

  /** The role sent for a history entry: `bot` becomes `assistant`, anything else `user`. */
  function RoleFor(role: string): (sent: string)
    ensures sent == "assistant" || sent == "user"
    ensures sent == "assistant" <==> role == "bot"
  {
    if role == "bot" then "assistant" else "user"
  }

  function ToApiMessage(e: ChatEntry): ApiMessage
  {
    ApiMessage(RoleFor(e.role), e.content)
  }

  /** The entries as API messages, in order. */
  function Converted(entries: seq<ChatEntry>): seq<ApiMessage>
  {
    if entries == [] then []
    else Converted(entries[..|entries| - 1]) + [ToApiMessage(entries[|entries| - 1])]
  }

  /** Converting keeps the length and maps each entry in place. */
  lemma {:induction false} ConvertedIndex(entries: seq<ChatEntry>)
    ensures |Converted(entries)| == |entries|
    ensures forall k :: 0 <= k < |entries| ==> Converted(entries)[k] == ToApiMessage(entries[k])
  {
    if entries != [] {
      var init := entries[..|entries| - 1];
      ConvertedIndex(init);
      forall k | 0 <= k < |entries| - 1
        ensures Converted(entries)[k] == ToApiMessage(entries[k])
      {
        assert init[k] == entries[k];
      }
    }
  }

  /** The context `prepareConversationContext` builds: the system message, then the last ten entries. */
  function Context(history: seq<ChatEntry>): seq<ApiMessage>
  {
    [ApiMessage("system", SystemPrompt)] + Converted(LastN(history, ContextLimit))
  }

  /**
   * The context holds one system message and then, in order, the last
   * `min(10, |history|)` entries with their roles mapped.
   */
  lemma ContextShape(history: seq<ChatEntry>)
    ensures var c := Context(history);
      && |c| == 1 + (if |history| < ContextLimit then |history| else ContextLimit)
      && c[0] == ApiMessage("system", SystemPrompt)
      && forall k :: 1 <= k < |c| ==> c[k] == ToApiMessage(history[|history| - |c| + k])
  {
    ConvertedIndex(LastN(history, ContextLimit));
  }

  /** `prepareConversationContext`: the `foreach` that appends one message per recent entry. */
  method PrepareConversationContext(history: seq<ChatEntry>) returns (context: seq<ApiMessage>)
    ensures context == Context(history)
  {
    context := [ApiMessage("system", SystemPrompt)];
    var chatHistory := LastN(history, ContextLimit);
    var i := 0;
    while i < |chatHistory|
      invariant 0 <= i <= |chatHistory|
      invariant context == [ApiMessage("system", SystemPrompt)] + Converted(chatHistory[..i])
    {
      var message := chatHistory[i];
      assert chatHistory[..i + 1][..i] == chatHistory[..i];
      context := context + [ApiMessage(if message.role == "bot" then "assistant" else "user", message.content)];
      i := i + 1;
    }
    assert chatHistory[..i] == chatHistory;
  }

  /** The `messages` of the request: the context, then the user's message. */
  function RequestMessages(history: seq<ChatEntry>, message: string): seq<ApiMessage>
  {
    Context(history) + [ApiMessage("user", message)]
  }

  /** The request has `2 + min(10, |history|)` messages and ends with the user's message. */
  lemma RequestLength(history: seq<ChatEntry>, message: string)
    ensures var m := RequestMessages(history, message);
      && |m| == 2 + (if |history| < ContextLimit then |history| else ContextLimit)
      && m[|m| - 1] == ApiMessage("user", message)
  {
    ContextShape(history);
  }

  // ---------------------------------------------------------------------------
  // The answer

  /**
   * `sanitizeAiOutput`: tags stripped, whitespace trimmed, and an empty result
   * (PHP-empty, so also "0") replaced by a fixed apology.
   */
  function SanitizeAiOutput(output: string, stripTags: string -> string): (r: string)
    ensures r != "" && !IsPhpEmpty(r)
    ensures r == ApologyMessage || (!IsPhpTrimChar(r[0]) && !IsPhpTrimChar(r[|r| - 1]))
    ensures r == ApologyMessage <==> IsPhpEmpty(PhpTrim(stripTags(output))) || PhpTrim(stripTags(output)) == ApologyMessage
    ensures r != ApologyMessage ==> r == PhpTrim(stripTags(output))
  {
    var stripped := PhpTrim(stripTags(output));
    if IsPhpEmpty(stripped) then
      assert |ApologyMessage| == 83;
      ApologyMessage
    else stripped
  }

  /** `generateFallbackResponse`: a random member of the fallback set, whatever the error kind. */
  function GenerateFallbackResponse(r: Draw): (reply: string)
    ensures reply in FallbackResponses
  {
    Helpers.GetRandomItem(FallbackResponses, r).value
  }

  /** A call that produced a usable answer: HTTP 200 and a `choices[0].message.content`. */
  predicate Answered(attempt: Attempt)
  {
    && attempt.Completed?
    && attempt.outcome.Response?
    && attempt.outcome.status == 200
    && attempt.outcome.body.Decoded?
    && attempt.outcome.body.content.Some?
  }

  /**
   * `generateApiResponse`: the sanitised content of a usable answer; a
   * transport error, a status other than 200, a body without content or an
   * exception all give a fallback reply. No failure escapes.
   */
  function GenerateApiResponse(attempt: Attempt, r: Draw, stripTags: string -> string): (reply: string)
    ensures reply != ""
    ensures !Answered(attempt) ==> reply in FallbackResponses
    ensures Answered(attempt) ==>
              reply == SanitizeAiOutput(attempt.outcome.body.content.value, stripTags)
  {
    match attempt
    case Raised => GenerateFallbackResponse(r)
    case Completed(TransportError) => GenerateFallbackResponse(r)
    case Completed(Response(status, body)) =>
      if status != 200 then GenerateFallbackResponse(r)
      else
        match body
        case Malformed => GenerateFallbackResponse(r)
        case Decoded(None) => GenerateFallbackResponse(r)
        case Decoded(Some(content)) => SanitizeAiOutput(content, stripTags)
  }

  /** The draws and collaborators one `generateResponse` call consumes. */
  datatype Env = Env(
    catalog: seq<Intents.Intent>,
    matches: Intents.Matcher,
    localDraw: Draw,
    attempt: Attempt,
    fallbackDraw: Draw,
    stripTags: string -> string)

  /** The reply of one `generateResponse` call, and the `messages` it posted to the API, if it asked. */
  datatype Answer = Answer(reply: string, sent: Option<seq<ApiMessage>>)

  /**
   * `generateResponse`: the local answer when it is truthy, and then nothing
   * is sent; only otherwise is the API asked, with the context of the history
   * followed by the user's message.
   */
  function GenerateResponse(env: Env, history: seq<ChatEntry>, message: string): (answer: Answer)
    ensures answer.reply != ""
    ensures var local := GenerateLocalResponse(env.catalog, env.matches, message, env.localDraw);
      if Truthy(local) then answer.reply == local.value && answer.sent == None
      else
        && answer.reply == GenerateApiResponse(env.attempt, env.fallbackDraw, env.stripTags)
        && answer.sent == Some(RequestMessages(history, message))
  {
    var local := GenerateLocalResponse(env.catalog, env.matches, message, env.localDraw);
    if Truthy(local) then Answer(local.value, None)
    else Answer(GenerateApiResponse(env.attempt, env.fallbackDraw, env.stripTags), Some(RequestMessages(history, message)))
  }

  /**
   * When an intent matches and its chosen reply is truthy the reply comes
   * from that intent; otherwise the reply is a fallback, the apology, or the
   * trimmed model output.
   */
  lemma GenerateResponseSources(env: Env, history: seq<ChatEntry>, message: string)
    ensures var reply := GenerateResponse(env, history, message).reply;
      var i := FirstMatching(env.catalog, env.matches, message, 0);
      || (i.Some? && reply in env.catalog[i.value].responses)
      || reply in FallbackResponses
      || reply == ApologyMessage
      || (Answered(env.attempt)
          && reply == PhpTrim(env.stripTags(env.attempt.outcome.body.content.value)))
  {
  }
}
