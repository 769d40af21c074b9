# PHP-Chatbot: a verified model of the chat decision logic

This project models, in Dafny, the decision-making of the PHP-Chatbot
repository. That is "Alex", a chat assistant answered by a PHP server and a
JavaScript page. The model covers these parts, one module each:

- the intent table and its first-match lookup (`ConversationalPatterns.js`);
- the page script's local replies, its `isTyping` guard and its handling of
  a server reply (`chatbot.js`);
- the `ChatBot` controller's turn state machine (`core/ChatBot.js`);
- the PHP helpers: escaping, random choice, pattern matching and the
  fixed-window rate limiter (`functions.php`);
- `ChatbotService`: the local-or-remote reply, the context sent to the
  DeepSeek API, and the masking of every failure with a fallback reply;
- `ChatbotController`'s `sendMessage` and `clearChat`, as transitions over
  the session;
- the stand-alone `index.php`: its POST handler, `?clear`, the
  sliding-window `checkRateLimit` and `generateBotResponse`;
- the `EventManager` publish/subscribe registry;
- the `Router` route table, `patternToRegex`, `matchRoute` and the
  decisions of `dispatch`;
- `TimeUtils`: `formatDate`, `getRelativeTime`, `getTimeDifference` and
  `isToday`;
- `KTUtil.numberFormat`, `deepMerge` and `isObject`;
- `KTApp.getBreakpoint`, the `mobile-view` rule of `handleResize`, and
  `validateInput`.

The model abstracts the outside world as follows:

- Regular-expression matching is a `matches(pattern, text)` parameter. For
  the router it is a `preg_match` parameter that returns the capture array.
  The email pattern is the one regular expression defined exactly.
- `Math.random()` and `array_rand` are a `Draw` in [0, 1). The chosen index
  is `floor(r * n)`.
- Clocks are integer parameters. `time()` is `now`, `date(...)` is an
  opaque `time` string, and `new Date()` is a millisecond value or its
  calendar fields.
- A remote call is an outcome value: a transport error, or an HTTP status
  and a decoded body. `ChatbotService` wraps it as "raised an exception" or
  "completed". `json_decode` is folded into that body value.
- `strip_tags` is an opaque parameter.
- `setTimeout` callbacks and settled promises are explicit transitions,
  such as `LocalTimerFires` and `ApiSettles`.
- The DOM is reduced to what the scripts change:
  - the list of chat bubbles;
  - the input's value;
  - the welcome banner;
  - a set of class names.

Modules: `Wrappers` (Option), `Random`, `Text` (JavaScript and PHP `trim`,
PHP `empty`, ASCII case, decimal rendering), `Api` (the request and
outcome types and the fallback table), and one module per source file:
`Intents`, `Widget`, `ChatBotCore`, `Helpers`, `Service`, `Controller`,
`FrontPage`, `Events`, `Router`, `TimeUtils`, `KTUtil`, `KTApp`.

`ChatBot.clearChat` neither resets `isTyping` nor cancels a pending local
reply (public/assets/js/core/ChatBot.js:177-190).
`ChatBotCore.ClearThenTimerFires` shows the pending reply appearing after
the welcome message.

The model also proves some behaviour that is easy to miss in the code:

- **The current message is sent twice.** Both `ChatbotController` and
  `index.php` append the user's message to the history before the context
  is built. The API therefore receives it as the newest history entry and
  again as the final user message (`Controller.CurrentMessageSentTwice`,
  `FrontPage.CurrentMessageSentTwice`).
- **The page script never reaches its `fetch` branch.** Its local reply is
  never empty (`Widget.ChatWidget.SendMessage`).
- **`index.php` never calls the API as shipped.** `config.php` ships an
  empty key (`FrontPage.ShippedKeyNeverCallsApi`).
- **A lower-case request method reaches no route.** The router upper-cases
  stored methods but compares the request's method exactly
  (`Router.LowerCaseMethodMatchesNothing`).

## Model

| member | source | states |
|---|---|---|
| Random.Index | public/assets/js/data/ConversationalPatterns.js:149-151 | the index a draw picks is `floor(r * n)`: it lies in `[0, n)` and `i <= r*n < i+1` |
| Random.IndexReachesEvery | public/assets/js/data/ConversationalPatterns.js:150 | every index below `n` is picked by some draw (`i/n`), so no candidate is unreachable |
| Random.Choose | public/assets/js/chatbot.js:108 | For a non-empty reply list, the picked reply is one of its elements. |
| Text.LeadingCount | public/assets/js/core/ChatBot.js:66 | the count of leading characters to trim: all of them satisfy the predicate and the next one does not |
| Text.TrailingCount | public/assets/js/core/ChatBot.js:66 | the same for the trailing characters |
| Text.Trim | public/assets/js/core/ChatBot.js:66 | the result is the contiguous middle of the input, with only trimmed characters cut at both ends; it is empty iff every character is trimmed; otherwise it neither starts nor ends with one |
| Text.TrimIdempotent | public/assets/js/core/ChatBot.js:66 | trimming twice is trimming once |
| Text.JsTrim | public/assets/js/chatbot.js:182 | `String.prototype.trim` (the full white-space and line-terminator set): no white space at either end |
| Text.PhpTrim | index.php:26 | PHP `trim` (space, `\t`, `\n`, `\r`, NUL, `\x0B`): none of those at either end |
| Text.ToLower | public/assets/js/chatbot.js:99 | same length; each character mapped to lower case (ASCII) |
| Text.ToUpper | app/core/Router.php:19 | `strtoupper`: same length; each character mapped to upper case (ASCII) |
| Text.DigitChar | public/assets/js/utils/TimeUtils.js:48 | the digit character of a value below 10 |
| Text.DigitValue | public/assets/js/utils/TimeUtils.js:48 | the value of a digit character is below 10 |
| Text.NatToString | public/assets/js/utils/TimeUtils.js:48-52 | `String(n)`: non-empty digits, no leading zero, one digit iff `n < 10`, two iff `10 <= n < 100` |
| Text.ParseNatToString | public/assets/js/utils/TimeUtils.js:48-52 | reading the digits back gives `n` (round trip) |
| Text.NatToStringInjective | public/assets/js/utils/TimeUtils.js:48-52 | distinct numbers render differently |
| Text.IntToString | public/assets/js/utils/TimeUtils.js:55 | non-empty; digits for non-negative values, `-` then digits for negative ones |
| Intents.PatternsShape | public/assets/js/data/ConversationalPatterns.js:12-102 | the table has 8 intents with distinct names; the 7 named intents have 4 replies each; `default` is last, has pattern `/.*/` and 6 replies; no reply is empty |
| Intents.MatchesPatterns | public/assets/js/data/ConversationalPatterns.js:135-142 | true iff some pattern of the list matches (so false for an empty list) |
| Intents.GetRandomItem | public/assets/js/data/ConversationalPatterns.js:149-151 | undefined iff the array is empty, otherwise an element of it |
| Intents.FirstMatch | public/assets/js/data/ConversationalPatterns.js:112-123 | the first intent in declaration order that is not `default` and matches; none before it is eligible; none at all when it returns nothing |
| Intents.GetResponse | public/assets/js/data/ConversationalPatterns.js:110-127 | null when no non-default intent matches; otherwise a reply of the first matching one, which is never `default` |
| Intents.GetResponseOnPatterns | public/assets/js/data/ConversationalPatterns.js:110-127 | on the shipped table: null iff none of the 7 named intents matches; any matching intent is at or after the one answering, and the reply comes from that one |
| Intents.GreetingsBeforeGoodbye | public/assets/js/data/ConversationalPatterns.js:112-122 | a message matching both `greetings` and `goodbye` gets a greetings reply |
| Widget.GenerateLocalResponse | public/assets/js/chatbot.js:98-116 | on the lower-cased, trimmed message: a reply of the first matching non-default intent, else a `default` reply; never empty |
| Widget.LocalResponseExtendsGetResponse | public/assets/js/chatbot.js:98-116 | agrees with `getResponse` on the normalised message whenever that answers; falls back to `default` exactly where it returns null |
| Widget.GenerateFallbackResponse | public/assets/js/chatbot.js:118-126 | one of the four connection-trouble replies |
| Widget.FallbackReachable | public/assets/js/chatbot.js:125 | each of the four fallback replies is picked by some draw |
| Widget.EscapeHtml | public/assets/js/chatbot.js:566-570 | the serialised text node holds no `<` or `>` and is no shorter than the text |
| Widget.UnescapeEscapeChar | public/assets/js/chatbot.js:566-570 | one escaped character reads back as itself, whatever follows |
| Widget.EscapeChar | public/assets/js/chatbot.js:566-570 | definition, no contract: `&`, `<`, `>` and the no-break space become entities, any other character stays; `Widget.UnescapeEscapeChar` states that it is invertible |
| Widget.EscapeHtmlRoundTrip | public/assets/js/chatbot.js:566-570 | escaping loses nothing: reading the entities back gives the typed text |
| Widget.EscapeHtmlPlain | public/assets/js/chatbot.js:566-570 | text without `&`, `<`, `>` or no-break space is unchanged |
| Widget.LatestBotMessage | public/assets/js/chatbot.js:301-302 | the first `bot` entry among the last two history items: present iff one of them is `bot`, preferring the older |
| Widget.HandleServerResult | public/assets/js/chatbot.js:290-339 | a fallback reply iff the result is not a successful body with a history; otherwise the latest bot entry is shown, or typing just resets when there is none |
| Widget.ChatWidget.constructor | public/assets/js/chatbot.js:16-18 | the page loads with no turn in flight, no bubbles and the welcome banner |
| Widget.ChatWidget.SetTypingState | public/assets/js/chatbot.js:475-476 | the `isTyping` flag takes the given value |
| Widget.ChatWidget.SendMessage | public/assets/js/chatbot.js:233-279 | ignored while typing; otherwise typing starts, the input is cleared, the banner goes, exactly one escaped user bubble is added and the local reply is scheduled (the `fetch` branch is unreachable) |
| Widget.ChatWidget.HandleFormSubmit | public/assets/js/chatbot.js:177-186 | input that is empty after trimming, or any input while typing, changes nothing; otherwise the trimmed input is sent |
| Widget.ChatWidget.HandleQuickAction | public/assets/js/chatbot.js:191-198 | a missing or empty `data-message`, or any click while typing, changes nothing; otherwise the message is sent untrimmed |
| Widget.ChatWidget.LocalTimerFires | public/assets/js/chatbot.js:266-277 | exactly one bot bubble with the pending reply is added and typing ends |
| Widget.AcceptedTurn | public/assets/js/chatbot.js:233-277 | an accepted turn adds exactly a user bubble and then a bot bubble, and leaves the page ready for the next message |
| ChatBotCore.Utf16Length | public/assets/js/core/ChatBot.js:93 | `message.length` counts UTF-16 code units: between one and two per character |
| ChatBotCore.TypingDelay | public/assets/js/core/ChatBot.js:93 | `min(1000 + 20*len, 3000)` is in [1000, 3000], equals 3000 iff `len >= 100`, and is `1000 + 20*len` below that |
| ChatBotCore.TypingDelayMonotone | public/assets/js/core/ChatBot.js:93 | a longer message is never answered sooner |
| ChatBotCore.BalanceAppend | public/assets/js/core/ChatBot.js:76 | each published `typingStarted` or `typingEnded` moves the started-minus-ended balance by one |
| ChatBotCore.WelcomesNone | public/assets/js/ui/MessageUI.js:205-210 | no welcome message is counted exactly when none is shown |
| ChatBotCore.WelcomesAppend | public/assets/js/ui/MessageUI.js:205-210 | showing one more message adds one to the welcome count exactly when it is the welcome message |
| ChatBotCore.RemoveWelcome | public/assets/js/ui/MessageUI.js:205-210 | with no welcome message shown, `removeWelcomeMessage` changes nothing |
| ChatBotCore.RemoveWelcomeCount | public/assets/js/ui/MessageUI.js:205-210 | exactly one welcome message goes when at least one is shown |
| ChatBotCore.FirstWelcome | public/assets/js/ui/MessageUI.js:206 | `querySelector` finds the first welcome message: a welcome message with none before it |
| ChatBotCore.RemoveWelcomeSplit | public/assets/js/ui/MessageUI.js:205-210 | the message removed is the first welcome message, and the others keep their order |
| ChatBotCore.RemoveWelcomeAppend | public/assets/js/ui/MessageUI.js:55-66 | appending the user message and then removing the welcome message equals removing it first, so the user message ends the list |
| ChatBotCore.ShowUserMessage | public/assets/js/ui/MessageUI.js:55-66 | with at most one welcome message shown, `addUserMessage` leaves none and puts the user message last |
| ChatBotCore.ChatBot.constructor | public/assets/js/core/ChatBot.js:11-21 | not typing, no turn in flight, nothing published |
| ChatBotCore.ChatBot.SendMessage | public/assets/js/core/ChatBot.js:65-111 | an empty trimmed message, or any message while typing, changes nothing and publishes nothing; otherwise typing starts with one `typingStarted`, the input is cleared, the welcome message is removed and the user message shown after the others, and the turn is local (with the typing delay) iff `getResponse` answers, else the API is awaited |
| ChatBotCore.ChatBot.HandleQuickAction | public/assets/js/core/ChatBot.js:148-154 | ignored while typing or when the trimmed message is empty; otherwise exactly what `sendMessage` does: typing, one `typingStarted`, the input cleared, the welcome message removed, the user message shown, and a local or API turn |
| ChatBotCore.ChatBot.StartTurn | public/assets/js/core/ChatBot.js:74-82 | an accepted turn starts: typing, one `typingStarted`, the input cleared, the welcome message removed and the user message last |
| ChatBotCore.ChatBot.LocalTimerFires | public/assets/js/core/ChatBot.js:95-108 | the local reply is shown, typing resets and exactly one `typingEnded` is published |
| ChatBotCore.ChatBot.ApiSettles | public/assets/js/core/ChatBot.js:111-141 | the API's reply, or on any failure the fixed error text (not a fallback set), is shown; typing resets with exactly one `typingEnded` |
| ChatBotCore.ChatBot.ClearChatSettles | public/assets/js/core/ChatBot.js:177-190 | on success only the welcome message remains; on failure nothing changes; typing and the pending turn are untouched |
| ChatBotCore.LocalTurn | public/assets/js/core/ChatBot.js:65-108 | a locally answered turn removes the welcome message, adds the user and the bot message, publishes started then ended, and balances the events |
| ChatBotCore.ClearThenTimerFires | public/assets/js/core/ChatBot.js:177-190 | a clear does not cancel a pending local reply: it still appears, after the welcome message |
| Helpers.SanitizeOutput | app/helpers/functions.php:12-14 | `&`, `"`, `'`, `<`, `>` become entities: the result holds none of `<`, `>`, `"`, `'` and is no shorter |
| Helpers.DecodeEncodeChar | app/helpers/functions.php:12-14 | one encoded character decodes back to itself, whatever follows |
| Helpers.SanitizeRoundTrip | app/helpers/functions.php:12-14 | decoding the escaped text gives the original text |
| Helpers.SanitizePlain | app/helpers/functions.php:12-14 | text without the five special characters is unchanged |
| Helpers.SanitizeChangesIffSpecial | app/helpers/functions.php:12-14 | escaping is the identity exactly on text without special characters |
| Helpers.GetRandomItem | app/helpers/functions.php:38-43 | null iff the array is empty, otherwise an element of it |
| Helpers.MatchesPatterns | app/helpers/functions.php:51-58 | true iff some pattern matches (false for an empty list) |
| Helpers.IsAjaxRequest | app/helpers/functions.php:28-31 | definition, no contract: the `X-Requested-With` header is present and equals `xmlhttprequest` once lower-cased |
| Helpers.Admit | app/helpers/functions.php:153-176 | check-then-count: admitted iff the limit is not reached in the current window; the count grows by one exactly when admitted, in a window that restarts once more than 60 s have passed |
| Helpers.Refreshed | app/helpers/functions.php:159-165 | definition, no contract: a window older than 60 s restarts at `now` with count 0, any other is kept; `Helpers.RateLimit.IsRateLimited` states its effect |
| Helpers.Exceeded | app/helpers/functions.php:153-168 | definition, no contract: limited iff the window has not expired and the count has reached 10; `Helpers.AtMostLimitPerWindow` states what it guarantees |
| Helpers.AtMostLimitPerWindow | app/helpers/functions.php:153-176 | over any sequence of requests the count stays within `RATE_LIMIT_REQUESTS`, and within one window it counts exactly the admitted requests |
| Helpers.RateLimit.constructor | app/bootstrap.php:21-26 | a fresh record: count 0, window starting now |
| Helpers.RateLimit.IsRateLimited | app/helpers/functions.php:153-169 | more than 60 s elapsed: the window resets to `(0, now)` and the answer is no; otherwise (exactly 60 s included) the record is unchanged and the answer is `count >= 10` |
| Helpers.RateLimit.IncrementRateLimit | app/helpers/functions.php:174-176 | the count grows by exactly one; the window start is unchanged |
| Service.FirstMatching | app/services/ChatbotService.php:41-44 | the first catalog intent, in order, whose patterns match; none before it matches |
| Service.GenerateLocalResponse | app/services/ChatbotService.php:40-48 | null when nothing matches; otherwise a reply of the first matching intent, present whenever that intent has replies |
| Service.LastN | app/services/ChatbotService.php:141 | `array_slice(-n)`: the last `min(n, len)` elements |
| Service.RoleFor | app/services/ChatbotService.php:145 | `bot` becomes `assistant`, anything else `user` |
| Service.ConvertedIndex | app/services/ChatbotService.php:143-149 | each history entry becomes one API message at the same position, with its role mapped and its content kept |
| Service.Context | app/services/ChatbotService.php:131-151 | definition, no contract: the system message, then the last ten entries converted; `Service.ContextShape` states its shape |
| Service.ContextShape | app/services/ChatbotService.php:131-151 | the system message, then the last `min(10, |history|)` entries in order with their roles mapped |
| Service.PrepareConversationContext | app/services/ChatbotService.php:131-151 | the loop builds exactly that context |
| Service.RequestLength | app/services/ChatbotService.php:58-64 | the request has `2 + min(10, |history|)` messages and ends with the user's message |
| Service.RequestMessages | app/services/ChatbotService.php:58-64 | definition, no contract: the context, then the user's message; `Service.RequestLength` states its shape |
| Service.SanitizeAiOutput | app/services/ChatbotService.php:171-184 | never empty (nor PHP-empty); the fixed apology iff the trimmed, tag-stripped output is PHP-empty (`""` or `"0"`) or is the apology itself; otherwise exactly that trimmed output |
| Service.GenerateFallbackResponse | app/services/ChatbotService.php:158-164 | a member of the fallback table, whatever the error kind |
| Service.GenerateApiResponse | app/services/ChatbotService.php:55-125 | a transport error, a status other than 200, a body without content or an exception gives a fallback reply; a usable answer gives its sanitised content; never empty |
| Service.GenerateResponse | app/services/ChatbotService.php:24-33 | the local reply when it is truthy, and then nothing is sent; otherwise the API's reply, and the request sent is the context of the history followed by the user's message; never empty |
| Service.GenerateResponseSources | app/services/ChatbotService.php:24-33 | every reply is a reply of the first matching intent, a fallback, the apology, or the trimmed model output |
| Controller.ChatbotController.constructor | app/bootstrap.php:15-26 | an empty history and a fresh rate-limit window starting now |
| Controller.ChatbotController.SendMessage | app/controllers/ChatbotController.php:36-87 | non-AJAX redirects; a PHP-empty message gets 400 before the rate check; a rate-limited request gets 429; all three leave history and count unchanged; otherwise the count goes up by one, user then bot entries are appended, the JSON `response` is the bot entry's content, and the request posted to the API (if any) is the one the service built; nothing is posted on the three refusals |
| Controller.ChatbotController.ClearChat | app/controllers/ChatbotController.php:92-106 | an AJAX request empties the history and answers success; the rate-limit record is never touched; non-AJAX redirects and changes nothing |
| Controller.CurrentMessageSentTwice | app/controllers/ChatbotController.php:66-73 | because the user entry is appended first, every request the service posts ends with the current message twice |
| FrontPage.Recent | index.php:69-71 | `array_filter`: each timestamp after `now - 60` is kept as many times as it is stored, and every other is dropped |
| FrontPage.RecentIsSubsequence | index.php:69-71 | the kept timestamps keep their stored order |
| FrontPage.RequestsAfterBounded | index.php:64-81 | from at most 10 timestamps, `checkRateLimit` leaves at most 10, all inside the window |
| FrontPage.ReplayBounded | index.php:64-81 | over any run of calls the stored list never exceeds the limit |
| FrontPage.RoleOf | index.php:106 | `user` stays `user`; anything else becomes `assistant` |
| FrontPage.LastN | index.php:103 | `array_slice(-6)`: the last `min(n, len)` entries |
| FrontPage.RequestShape | index.php:100-127 | system message, the last `min(6, |history|)` entries in order (tag-stripped, roles mapped), then the current message |
| FrontPage.RequestMessages | index.php:100-127 | definition, no contract: the system message, the last six entries converted, then the current message; `FrontPage.RequestShape` states its shape |
| FrontPage.BuildMessages | index.php:100-127 | the `array_merge` and loop build exactly that request |
| FrontPage.Fallback | index.php:162 | a member of `$fallback_responses` |
| FrontPage.Content | index.php:179-190 | definition, no contract: the trimmed, escaped `choices[0].message.content` of an HTTP 200 response that decodes, else nothing; `FrontPage.ApiReply` states how it is used |
| FrontPage.ApiReply | index.php:160-194 | a curl error, non-200, a JSON error, no content or content that is PHP-empty once trimmed and escaped gives a fallback; otherwise the trimmed, escaped content |
| FrontPage.ApiReplyEscaped | index.php:180-189 | a reply that is not a fallback holds no `<`, `>`, `"` or `'` |
| FrontPage.Unconfigured | index.php:90 | definition, no contract: the key is the placeholder or PHP-empty |
| FrontPage.BotReply | index.php:86-194 | definition, no contract: the configuration notice for an unconfigured key, else the wait notice when the limit refuses, else the API reply; `FrontPage.BotReplySources` and `FrontPage.ShippedKeyNeverCallsApi` state its properties |
| FrontPage.BotReplySources | index.php:86-194 | every reply is the configuration notice, the wait notice, a fallback or escaped content; never empty |
| FrontPage.ShippedKeyNeverCallsApi | index.php:90-92 | with the shipped empty key every message gets the configuration notice |
| FrontPage.Session.constructor | index.php:15-22 | empty history and no stored timestamps |
| FrontPage.Session.CheckRateLimit | index.php:64-81 | drops timestamps at or before `now - 60`; with 10 left it refuses and appends nothing, else it appends `now` and allows |
| FrontPage.Session.GenerateBotResponse | index.php:86-195 | an unconfigured key answers before the rate limit is consulted; a refused request gets the wait notice; only an allowed request is sent, with the request built from the history |
| FrontPage.Session.HandleSendMessage | index.php:25-52 | a PHP-empty trimmed message changes nothing; otherwise the escaped user entry and the bot entry are appended, the stored timestamps are filtered and `now` recorded unless the key is unconfigured, and a request is sent exactly when the key is configured and the limit allows it; the answer is always `success` with the whole history |
| FrontPage.Session.Clear | index.php:55-59 | `?clear` empties the history; the stored timestamps stay |
| FrontPage.CurrentMessageSentTwice | index.php:30-37 | the current message is sent as the newest (escaped, stripped) history entry and again raw as the final message |
| Events.Without | public/assets/js/core/EventManager.js:45 | `filter(cb => cb !== callback)`: the callback is gone, every other callback keeps its count |
| Events.WithoutConcat | public/assets/js/core/EventManager.js:45 | filtering distributes over concatenation, so the order of the rest is kept |
| Events.WithoutAbsent | public/assets/js/core/EventManager.js:45 | filtering out an absent callback changes nothing |
| Events.EventManager.constructor | public/assets/js/core/EventManager.js:10-12 | no events |
| Events.EventManager.Subscribe | public/assets/js/core/EventManager.js:20-33 | the callback is appended to the event's list, created when missing; other events are untouched; the handle names the pair |
| Events.EventManager.Unsubscribe | public/assets/js/core/EventManager.js:40-51 | an unknown event changes nothing; otherwise every occurrence of the callback is removed and an emptied event is deleted |
| Events.EventManager.Cancel | public/assets/js/core/EventManager.js:30-32 | the handle's `unsubscribe` removes exactly its (event, callback) pair |
| Events.EventManager.Publish | public/assets/js/core/EventManager.js:58-70 | each callback of the event is called once, in subscription order, with the data, whether or not earlier ones threw; an unknown event calls nothing |
| Events.EventManager.Clear | public/assets/js/core/EventManager.js:75-77 | no events remain |
| Events.SubscribeTwice | public/assets/js/core/EventManager.js:27 | subscribing the same callback twice stores it twice |
| Events.SubscribeThenCancel | public/assets/js/core/EventManager.js:20-51 | subscribe then unsubscribe restores every other event, leaves the callback in no list of the event, and restores the registry when it was not subscribed before |
| Router.NameLength | app/core/Router.php:90 | the longest run of `[a-zA-Z0-9_]` at the start |
| Router.Tokenize | app/core/Router.php:90 | definition, no contract: the scan of a pattern into literal characters and `:name` parameters; `Router.TokenizeRoundTrip` and `Router.TokenizeWellFormed` state its properties |
| Router.UntokenizeCons | app/core/Router.php:90 | spelling a token list distributes over its first token |
| Router.TokenizeRoundTrip | app/core/Router.php:90 | the scan of a pattern into literals and `:name` parameters loses nothing |
| Router.TokenizeWellFormed | app/core/Router.php:90 | parameter names are non-empty and maximal, and a literal `:` is never followed by a name character |
| Router.PatternToRegex | app/core/Router.php:88-94 | `#^`, the pattern with each parameter replaced by `([^/]+)`, then `$#` |
| Router.PlainPatternIsLiteral | app/core/Router.php:88-94 | a pattern without `:` is used literally between the anchors |
| Router.PlainBody | app/core/Router.php:90 | the replacement leaves text without `:` unchanged |
| Router.Params | app/core/Router.php:70 | `array_shift`: the capture groups without the full match |
| Router.FirstAccepting | app/core/Router.php:58-78 | the first registered route whose method equals the request's exactly and whose regex matches; none before it accepts |
| Router.MatchRoute | app/core/Router.php:57-81 | nothing iff no route accepts; otherwise the first accepting route's callback and its capture groups |
| Router.EarlierRouteWins | app/core/Router.php:58-78 | routes added later do not change the first accepting route |
| Router.AddedRoutesKeepMatch | app/core/Router.php:17-23 | registering more routes keeps every existing match |
| Router.NormalizePath | app/core/Router.php:105-107 | the empty path becomes `/`; any other path is kept |
| Router.StripBase | app/core/Router.php:119-122 | `substr($path, strlen($base))`: the rest after the base's length, or `""` when the base is longer |
| Router.FirstAt | app/core/Router.php:133-134 | the position of the first `@` |
| Router.SplitCallback | app/core/Router.php:133-134 | `explode('@')`: the text before the first `@` and the text up to the next `@` or the end |
| Router.SplitCallbackRoundTrip | app/core/Router.php:134 | with one `@`, `controller@action` rebuilds the callback |
| Router.RouteTable.constructor | app/core/Router.php:8-9 | no routes and no not-found callback |
| Router.RouteTable.AddRoute | app/core/Router.php:17-23 | the route is appended, in registration order, with its method upper-cased |
| Router.RouteTable.Get | app/core/Router.php:30-32 | appends a `GET` route |
| Router.RouteTable.Post | app/core/Router.php:39-41 | appends a `POST` route |
| Router.RouteTable.SetNotFound | app/core/Router.php:47-49 | stores the not-found callback |
| Router.RouteTable.Dispatch | app/core/Router.php:99-156 | on the normalised, stripped path: not found (the not-found callback or the default 404) iff no route accepts; the default 404 iff moreover no truthy not-found callback is set; otherwise the first accepting route's callback is called, as a controller action iff it is a string with `@`, with that route's capture groups |
| Router.DispatchEmptyPath | app/core/Router.php:105-107 | the empty path is dispatched exactly as `/` |
| Router.LowerCaseMethodNotFound | app/core/Router.php:60 | a request method with a lower-case letter always ends in the not-found callback or the default 404 |
| Router.LowerCaseMethodMatchesNothing | app/core/Router.php:60 | a request method with a lower-case letter matches no route, since stored methods are upper case |
| TimeUtils.Pad2 | public/assets/js/utils/TimeUtils.js:48-52 | `padStart(2, '0')`: digits, at least two, exactly two below 100 |
| TimeUtils.Pad2Value | public/assets/js/utils/TimeUtils.js:48-52 | below 100 the padded text reads back as the number; from 10 it is the plain rendering |
| TimeUtils.Find | public/assets/js/utils/TimeUtils.js:54-60 | the first position from `from` at which the placeholder occurs, case-sensitively; none earlier |
| TimeUtils.ReplaceFirst | public/assets/js/utils/TimeUtils.js:54-60 | definition, no contract: `String.prototype.replace` with a string pattern; `TimeUtils.ReplaceAfter` and `TimeUtils.ReplaceAbsent` state its properties |
| TimeUtils.Render | public/assets/js/utils/TimeUtils.js:47-52 | the year as `String` renders it; the 1-based month, the day, hours, minutes and seconds as two digits |
| TimeUtils.FindAt | public/assets/js/utils/TimeUtils.js:54-60 | the search stops at an occurrence preceded by no first character of the placeholder |
| TimeUtils.FindNone | public/assets/js/utils/TimeUtils.js:54-60 | no first character means no occurrence |
| TimeUtils.ReplaceAfter | public/assets/js/utils/TimeUtils.js:54-60 | `replace` substitutes the first occurrence only |
| TimeUtils.ReplaceInNumeric | public/assets/js/utils/TimeUtils.js:54-60 | rendered numbers hold no placeholder, so a later replace cannot hit inserted digits |
| TimeUtils.ReplaceAbsent | public/assets/js/utils/TimeUtils.js:54-60 | replacing an absent placeholder changes nothing |
| TimeUtils.ReplaceYear | public/assets/js/utils/TimeUtils.js:55 | `YYYY` in the default format is replaced by the year |
| TimeUtils.ReplaceMonth | public/assets/js/utils/TimeUtils.js:56 | then `MM` by the month |
| TimeUtils.ReplaceDay | public/assets/js/utils/TimeUtils.js:57 | then `DD` by the day |
| TimeUtils.ReplaceTime | public/assets/js/utils/TimeUtils.js:58-60 | `HH`, `mm`, `ss` are absent from a numeric text and change nothing |
| TimeUtils.SubstituteDefault | public/assets/js/utils/TimeUtils.js:46-60 | the default format yields `year-month-day` for any rendered fields |
| TimeUtils.RenderFields | public/assets/js/utils/TimeUtils.js:47-52 | the fields are the rendered year and the padded month+1, day, hours, minutes, seconds |
| TimeUtils.DefaultFormatDate | public/assets/js/utils/TimeUtils.js:46-61 | `formatDate(d)` is `YYYY-MM-DD` with the 1-based month, zero-padded |
| TimeUtils.FormatDate | public/assets/js/utils/TimeUtils.js:46-61 | definition, no contract: the placeholders of the format replaced in order; `TimeUtils.DefaultFormatDate` and `TimeUtils.FirstOccurrenceOnly` state its properties |
| TimeUtils.ReplaceRepeated | public/assets/js/utils/TimeUtils.js:55-56 | in `MM/MM` only the first `MM` is replaced |
| TimeUtils.ReplaceAfterRepeated | public/assets/js/utils/TimeUtils.js:57-60 | the remaining replaces leave that text alone |
| TimeUtils.SubstituteRepeated | public/assets/js/utils/TimeUtils.js:54-60 | the format `MM/MM` gives `month/MM` |
| TimeUtils.FirstOccurrenceOnly | public/assets/js/utils/TimeUtils.js:46-61 | `formatDate(d, 'MM/MM')` replaces only the first occurrence of a placeholder |
| TimeUtils.Bucket | public/assets/js/utils/TimeUtils.js:76-93 | "just now" iff the difference is below 60 s (negative included); otherwise the largest unit not above the difference, counted with `floor`, at least one |
| TimeUtils.BucketMonotone | public/assets/js/utils/TimeUtils.js:76-93 | a larger difference never gets a smaller unit, nor a smaller count within a unit |
| TimeUtils.RelativeTimeWording | public/assets/js/utils/TimeUtils.js:68-94 | "just now" iff under a minute (every future date included); otherwise `N unit ago`, with the plural `s` exactly when `N > 1` |
| TimeUtils.GetRelativeTime | public/assets/js/utils/TimeUtils.js:68-94 | definition, no contract: an invalid date reads `NaN year ago`, any other the wording of its bucket; `TimeUtils.RelativeTimeWording` states the wording |
| TimeUtils.GetTimeDifference | public/assets/js/utils/TimeUtils.js:102-112 | the milliseconds are `abs(date2 - date1)` |
| TimeUtils.TimeDifferenceProperties | public/assets/js/utils/TimeUtils.js:102-112 | symmetric in its arguments; each field is the previous one in the next unit, rounded down |
| TimeUtils.IntToStringInjective | public/assets/js/utils/TimeUtils.js:55 | distinct years render differently |
| TimeUtils.JoinedDateInjective | public/assets/js/utils/TimeUtils.js:46-61 | the `YYYY-MM-DD` text determines the year, month and day |
| TimeUtils.IsTodayIffSameDefaultFormat | public/assets/js/utils/TimeUtils.js:119-124 | `isToday` holds iff the date and today format to the same `YYYY-MM-DD` |
| TimeUtils.IsToday | public/assets/js/utils/TimeUtils.js:119-124 | definition, no contract: the same day, month and year; `TimeUtils.IsTodayIffSameDefaultFormat` states what it equals |
| TimeUtils.SameDayText | public/assets/js/utils/TimeUtils.js:119-124 | same day, month and year iff the joined texts agree |
| KTUtil.RemoveCommas | assets/plugins/global/plugins.bundle.js:357 | the result holds no comma |
| KTUtil.Group | assets/plugins/global/plugins.bundle.js:357 | definition, no contract: a comma before every group of three digits from the right; `KTUtil.GroupRoundTrip` and `KTUtil.GroupShape` state its properties |
| KTUtil.NumberFormat | assets/plugins/global/plugins.bundle.js:356-358 | definition, no contract: the grouped decimal string, the minus sign kept in front; `KTUtil.NumberFormatRoundTrip` and `KTUtil.NumberFormatSmall` state its properties |
| KTUtil.RemoveCommasConcat | assets/plugins/global/plugins.bundle.js:357 | removing commas distributes over concatenation |
| KTUtil.RemoveNoCommas | assets/plugins/global/plugins.bundle.js:357 | text without commas is unchanged |
| KTUtil.GroupRoundTrip | assets/plugins/global/plugins.bundle.js:357 | the grouping only inserts commas |
| KTUtil.NumberFormatRoundTrip | assets/plugins/global/plugins.bundle.js:356-358 | removing the commas from `numberFormat(n)` gives `n.toString()` for every integer |
| KTUtil.NumberFormatSmall | assets/plugins/global/plugins.bundle.js:357 | values strictly between -1000 and 1000 are unchanged |
| KTUtil.NatDigitsBelow1000 | assets/plugins/global/plugins.bundle.js:357 | a number below 1000 has at most three digits |
| KTUtil.GroupShape | assets/plugins/global/plugins.bundle.js:357 | the output is the groups joined by commas: the first has 1 to 3 digits, every later one exactly 3 |
| KTUtil.NumberFormatGroups | assets/plugins/global/plugins.bundle.js:357 | for a non-negative integer, those groups are all digits |
| KTUtil.GroupsAreDigits | assets/plugins/global/plugins.bundle.js:357 | groups of a digit string are digit strings |
| KTUtil.IsObjectIffPlainObject | assets/plugins/global/plugins.bundle.js:349-351 | `isObject` holds exactly for non-null, non-array objects |
| KTUtil.IsObject | assets/plugins/global/plugins.bundle.js:349-351 | definition, no contract: truthy, of type `object`, and not an array; `KTUtil.IsObjectIffPlainObject` states what it accepts |
| KTUtil.OwnProperties | assets/plugins/global/plugins.bundle.js:329 | what `Object.assign({}, v)` copies: an object's properties, an array's or string's indices, nothing for other values |
| KTUtil.IndexMap | assets/plugins/global/plugins.bundle.js:329 | indices `"0"` to `"n-1"` map to the elements, and no other index is present |
| KTUtil.ForEachEffect | assets/plugins/global/plugins.bundle.js:331-341 | the `forEach` sets each visited key to its merged value and leaves other keys |
| KTUtil.ForEachIsDeepMerge | assets/plugins/global/plugins.bundle.js:328-344 | whatever order the source keys are visited in, the loop gives `deepMerge`'s result |
| KTUtil.DeepMergeKeys | assets/plugins/global/plugins.bundle.js:329-341 | for two plain objects the keys are the union; keys only in target keep the target's value |
| KTUtil.DeepMerge | assets/plugins/global/plugins.bundle.js:329-341 | definition, no contract: for two plain objects each key of source merged into a copy of target, else a copy of target; `KTUtil.DeepMergeKeys`, `KTUtil.DeepMergeRecurses` and `KTUtil.ForEachIsDeepMerge` state its properties |
| KTUtil.MergedProperty | assets/plugins/global/plugins.bundle.js:332-337 | definition, no contract: an object value whose key target holds is merged recursively, any other value is copied; `KTUtil.DeepMergeOverwrites` and `KTUtil.DeepMergeRecurses` state it |
| KTUtil.DeepMergeOverwrites | assets/plugins/global/plugins.bundle.js:338-340 | a non-object source value (arrays included), or an object absent from target, is copied as is |
| KTUtil.DeepMergeRecurses | assets/plugins/global/plugins.bundle.js:332-337 | an object value present on both sides is merged recursively |
| KTUtil.DeepMergeCopies | assets/plugins/global/plugins.bundle.js:329-343 | when either side is not a plain object the result is a shallow copy of target |
| KTUtil.DeepMergeSelf | assets/plugins/global/plugins.bundle.js:328-344 | merging an object with itself gives its own properties |
| KTUtil.DeepMergeEmpty | assets/plugins/global/plugins.bundle.js:328-344 | `{}` is a unit on both sides |
| KTApp.BreakpointPartition | assets/js/scripts.bundle.js:453-462 | each width gets exactly the breakpoint whose range holds it: <576 xs, <768 sm, <992 md, <1200 lg, <1400 xl, else xxl |
| KTApp.BreakpointMonotone | assets/js/scripts.bundle.js:456-461 | a wider viewport never gets a narrower breakpoint |
| KTApp.GetBreakpoint | assets/js/scripts.bundle.js:453-462 | definition, no contract: the first breakpoint whose upper bound exceeds the width; `KTApp.BreakpointPartition` states the partition |
| KTApp.HandleResize | assets/js/scripts.bundle.js:248-256 | `mobile-view` is present iff the width is below 992; no other class changes |
| KTApp.MobileViewIffSmallBreakpoint | assets/js/scripts.bundle.js:252-256 | `mobile-view` iff the breakpoint is xs, sm or md |
| KTApp.TwoAts | assets/js/scripts.bundle.js:97 | two `@` at different places count twice |
| KTApp.PlainAt | assets/js/scripts.bundle.js:97 | a character inside a run the pattern's `[^\s@]+` accepts is neither white space nor `@` |
| KTApp.OneAt | assets/js/scripts.bundle.js:97 | an address with `@` at one position and nowhere else holds exactly one `@` |
| KTApp.EmailPatternShape | assets/js/scripts.bundle.js:97 | an accepted address has no white space, exactly one `@`, and a `.` after it with text on each side |
| KTApp.ShapeEmailPattern | assets/js/scripts.bundle.js:97 | every text of that shape is accepted |
| KTApp.EmailPatternMeaning | assets/js/scripts.bundle.js:97 | the regular expression accepts exactly the texts of that shape |
| KTApp.ValidateInput | assets/js/scripts.bundle.js:84-111 | a missing input returns nothing; an empty required value is invalid; a non-empty email value is valid iff the pattern accepts it, overriding the required check; a non-required, non-email input is valid; `is-valid`/`is-invalid` follow the result and no other class changes |

## Left out

- Service.SanitizeAiOutput: `strip_tags` is an opaque parameter, so the contract says nothing about which markup is removed.
- DOM rendering and UI wiring are left out. That covers `MessageUI`, `InputHandler`, `DOMUtils`, bubble markup, typing indicators, scrolling, the send button's disabled state and the KT ripple, modal, scrollspy and notification helpers. A bubble is its sender, its HTML text and its time.
- The network calls are left out: `fetch`, `APIClient` and curl. Their result is an outcome value. `APIClient` posts JSON while `ChatbotController` reads the request data of `Controller`, which is not part of this model.
- `json_decode` is folded into the outcome: a body that is not JSON, or the value at `choices[0].message.content`.
- Exceptions raised by `setTimeout` callbacks or UI calls are not modelled. `ChatBot.sendMessage`'s `catch` is reached only through a failed API call (`ApiSettles(Failed)`).
- Timers are not modelled as time. The `800 + Math.random() * 1200` and 800 ms delays are floating-point; only the order of events is kept.
- The wait of `TypingDelay` milliseconds before a local reply is not modelled as time: `LocalTimerFires` is a separate transition, and the delay is only recorded in the pending turn.
- The regular-expression engine is left out. Intent and route patterns are matched by a parameter. `generateLocalResponse` in chatbot.js lower-cases the message, but the `/i` flag is the matcher's business.
- The catalog `ChatbotService` loads (app/config/conversational_patterns.php) is not part of this model. It is a parameter.
- Calendar and locale functions are left out: `getCurrentTime`, `getCurrentDate`, `getCurrentDateTime`, `addTime`, `date()` and the time shown in a bubble. A date is its calendar fields or a time value in milliseconds.
- `getRelativeTime` on a string argument is not modelled: parsing a date string is the `Date` constructor's business. An invalid date is `None`.
- `numberFormat` on non-integers and on magnitudes from 1e21 up is left out, because JavaScript switches to exponent notation there.
- The order of object properties is not modelled: an object is a map, so `deepMerge`'s key order is not kept. A lemma shows the result does not depend on the order of the `forEach`.
- In `deepMerge`, `key in target` also sees inherited properties and `__proto__`. Neither is modelled.
- `isObject` returns its falsy argument itself rather than `false`. Only its truth value is modelled.
- `validateInput` reads `input.type` and the `required` attribute; both are fields of the input. The `hasAttribute` DOM lookup is not modelled.
- `handleResize` also triggers the `kt.app.resize` event, and `getViewport` reads the window. Neither is modelled: the width is a parameter.
- Callbacks that re-enter `EventManager` during `publish` are not modelled, nor are event names that are `Object.prototype` properties. The debugging accessor `getEvents` is left out.
- Router: a `parse_url` result of `null` is not modelled. The `?debug` echo is left out. The calls to the chosen controller or callback are left out: `Dispatch` returns what would be called.
- `Dispatch` always strips the base path, since app/config/config.php defines a non-empty `BASE_PATH`.
- Case mapping (`toLowerCase`, `strtolower`, `strtoupper`) is modelled for ASCII letters only.
- PHP's `htmlspecialchars` without flags in index.php is modelled with the PHP 8.1 default (`ENT_QUOTES`), the same as `sanitize_output`.
- `ChatbotController` calls `get_formatted_time()` once per entry. The model uses one reading, `time`, for the whole request.
- `index.php` reads `date('H:i')` twice, for the user entry and for the bot entry, around a call that can take up to 30 s. The model uses one reading, `time`, for both.
- The `beforeunload` prompt, `handleVisibilityChange`, `handleWindowFocus` and `detectMobile` only focus the input or read the user agent. They are not modelled.
- `error_log` calls are not modelled.
- `htmlspecialchars` returns `""` for text that is not valid UTF-8, because `ENT_SUBSTITUTE` is not passed. Text is a sequence of characters here, so invalid UTF-8 cannot occur in the model.
- The welcome bot message that `chatbot.js` adds one second after load, while the banner is still shown, is not modelled.
- `EventManager.publish`'s default argument (`data = {}`) is not modelled: the data is always given.
- Service.GenerateApiResponse: `choices[0].message.content` is modelled as a string. A number would be coerced to a string, and an array or object makes `strip_tags` throw a `TypeError`, which `catch (Exception $e)` does not catch. So "never throws, always a reply" holds only for string content.
- FrontPage.ApiReply: as above, `choices[0].message.content` is a string in the model. An array or object makes `trim` throw a `TypeError`, which nothing catches.
