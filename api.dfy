/**
 * What the server sends to and receives from the DeepSeek chat-completions
 * endpoint, as far as the chat code looks at it. The HTTP exchange itself
 * (curl) is outside the model: its result is an `Outcome` value.
 */
module Api {
  import opened Wrappers

  /** One element of the request's `messages` array. */
  datatype ApiMessage = ApiMessage(role: string, content: string)

  /**
   * The response body after `json_decode($response, true)`: either not JSON
   * at all, or the value at `choices[0].message.content`, absent (`isset`
   * false) when any step of that path is missing or null.
   */
  datatype Body = Malformed | Decoded(content: Option<string>)

  /** The result of `curl_exec`: a transport error, or an HTTP status and body. */
  datatype Outcome = TransportError | Response(status: int, body: Body)

  /**
   * The replies that mask a failed call: app/config/fallback_responses.php,
   * repeated as `$fallback_responses` in the root config.php.
   */
  const FallbackResponses: seq<string> := [
    "I apologize, but I'm experiencing technical difficulties right now. Please try again in a moment.",
    "Sorry, I'm having trouble connecting to my AI service. Could you please rephrase your question?",
    "I'm currently unable to process your request. Please try again shortly.",
    "Technical issues are preventing me from responding properly. Please retry your message."
  ]

  /** `DEEPSEEK_MODEL` and `MAX_TOKENS`, the same in both configuration files. */
  const Model: string := "deepseek-chat"
  const MaxTokens: nat := 1000
}
