/**
 * `ChatbotController` of app/controllers/ChatbotController.php: the two
 * AJAX actions as transitions over the session, which holds the chat
 * history and the fixed-window rate-limit record.
 *
 * `get_formatted_time()` is the `time` parameter, and everything the
 * service consumes (catalog, matcher, random draws, API outcome) is the
 * `Service.Env` parameter.
 */
module Controller {
  import opened Wrappers
  import opened Text
  import opened Api
  import Helpers
  import Service

  /** The JSON bodies the two actions send. */
  datatype Body =
    | Error(error: string)
    | Reply(response: string, time: string)
    | Success

  /** What an action sends back: a redirect to `/`, or JSON with a status code. */
  datatype Response = Redirect | Json(status: int, body: Body)

  const MessageRequired: string := "Message is required"
  const RateLimitExceeded: string := "Rate limit exceeded. Please try again later."

  /** `$_SESSION` as the controller sees it, after app/bootstrap.php initialised it. */
  class ChatbotController {
    var chatHistory: seq<Service.ChatEntry>
    const rate: Helpers.RateLimit

    /** A fresh session: no history, a rate-limit window starting now. */
    constructor (now: int)
      ensures chatHistory == [] && fresh(rate) && rate.State() == Helpers.Window(0, now)
    {
      chatHistory := [];
      rate := new Helpers.RateLimit(now);
    }

    /**
     * `sendMessage`. In order: a request that is not AJAX is redirected; a
     * PHP-empty message (null, "" or "0", not trimmed) is refused with 400; a
     * rate-limited request is refused with 429. In all three cases the history
     * and the rate count stay as they were. Otherwise the request is counted
     * once, the user entry is appended, the reply is generated with that entry
     * already in the history, the bot entry is appended, and the reply is sent.
     * `sent` is what was posted to the API, if anything.
     */
    method SendMessage(requestedWith: Option<string>, data: Option<string>, now: int, time: string, env: Service.Env)
      returns (response: Response, sent: Option<seq<ApiMessage>>)
      modifies this, rate
      ensures var message := if data.Some? then data.value else "";
        if !Helpers.IsAjaxRequest(requestedWith) then
          && response == Redirect && sent == None
          && chatHistory == old(chatHistory) && rate.State() == old(rate.State())
        else if IsPhpEmpty(message) then
          && response == Json(400, Error(MessageRequired)) && sent == None
          && chatHistory == old(chatHistory) && rate.State() == old(rate.State())
        else if Helpers.Exceeded(old(rate.State()), now) then
          && response == Json(429, Error(RateLimitExceeded)) && sent == None
          && chatHistory == old(chatHistory) && rate.State() == old(rate.State())
        else
          var user := Service.ChatEntry("user", message, time);
          var answer := Service.GenerateResponse(env, old(chatHistory) + [user], message);
          && rate.State() == Helpers.Admit(old(rate.State()), now).window
          && chatHistory == old(chatHistory) + [user, Service.ChatEntry("bot", answer.reply, time)]
          && response == Json(200, Reply(answer.reply, time))
          && sent == answer.sent
    {
      sent := None;
      if !Helpers.IsAjaxRequest(requestedWith) {
        return Redirect, sent;
      }
      var message := if data.Some? then data.value else "";
      if IsPhpEmpty(message) {
        return Json(400, Error(MessageRequired)), sent;
      }
      var limited := rate.IsRateLimited(now);
      if limited {
        return Json(429, Error(RateLimitExceeded)), sent;
      }
      rate.IncrementRateLimit();
      chatHistory := chatHistory + [Service.ChatEntry("user", message, time)];
      var answer := Service.GenerateResponse(env, chatHistory, message);
      chatHistory := chatHistory + [Service.ChatEntry("bot", answer.reply, time)];
      return Json(200, Reply(answer.reply, time)), answer.sent;
    }

    /** `clearChat`: for an AJAX request the history is emptied; the rate-limit record is never touched. */
    method ClearChat(requestedWith: Option<string>) returns (response: Response)
      modifies this
      ensures rate.State() == old(rate.State())
      ensures Helpers.IsAjaxRequest(requestedWith) ==> chatHistory == [] && response == Json(200, Success)
      ensures !Helpers.IsAjaxRequest(requestedWith) ==> chatHistory == old(chatHistory) && response == Redirect
    {
      if !Helpers.IsAjaxRequest(requestedWith) {
        return Redirect;
      }
      chatHistory := [];
      return Json(200, Success);
    }
  }

  /**
   * Because the user entry is appended before the reply is generated, a
   * request to the API carries the current message twice: as the last history
   * entry of the context and again as the final user message.
   */
  lemma CurrentMessageSentTwice(env: Service.Env, history: seq<Service.ChatEntry>, message: string, time: string)
    ensures var answer := Service.GenerateResponse(env, history + [Service.ChatEntry("user", message, time)], message);
      answer.sent.Some? ==>
        var m := answer.sent.value;
        && |m| >= 3
        && m[|m| - 2] == ApiMessage("user", message)
        && m[|m| - 1] == ApiMessage("user", message)
  {
    var h := history + [Service.ChatEntry("user", message, time)];
    Service.ContextShape(h);
    Service.RequestLength(h, message);
  }
}
