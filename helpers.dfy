/**
 * The helper functions of app/helpers/functions.php that the chat endpoint
 * uses: output escaping, random choice, pattern matching, the AJAX test and
 * the fixed-window rate limiter kept in `$_SESSION['rate_limit']`.
 */
module Helpers {
  import opened Wrappers
  import opened Random
  import opened Text

  // ---------------------------------------------------------------------------
  // sanitize_output: htmlspecialchars($text, ENT_QUOTES, 'UTF-8')

  /** The characters `htmlspecialchars` replaces under `ENT_QUOTES`. */
  predicate IsSpecial(c: char)
  {
    c == '&' || c == '"' || c == '\'' || c == '<' || c == '>'
  }

  /** The replacement of one character. */
  function EncodeChar(c: char): string
  {
    if c == '&' then "&amp;"
    else if c == '"' then "&quot;"
    else if c == '\'' then "&#039;"
    else if c == '<' then "&lt;"
    else if c == '>' then "&gt;"
    else [c]
  }

  /** `sanitize_output`: every special character replaced by its entity. */
  function SanitizeOutput(text: string): (r: string)
    ensures |r| >= |text|
    ensures forall k :: 0 <= k < |r| ==> r[k] != '<' && r[k] != '>' && r[k] != '"' && r[k] != '\''
  {
    if text == [] then [] else EncodeChar(text[0]) + SanitizeOutput(text[1..])
  }

  /** `htmlspecialchars_decode($s, ENT_QUOTES)` for the five entities above. */
  function DecodeSpecialChars(s: string): string
  {
    if s == [] then []
    else if |s| >= 5 && s[..5] == "&amp;" then "&" + DecodeSpecialChars(s[5..])
    else if |s| >= 6 && s[..6] == "&quot;" then "\"" + DecodeSpecialChars(s[6..])
    else if |s| >= 6 && s[..6] == "&#039;" then "'" + DecodeSpecialChars(s[6..])
    else if |s| >= 4 && s[..4] == "&lt;" then "<" + DecodeSpecialChars(s[4..])
    else if |s| >= 4 && s[..4] == "&gt;" then ">" + DecodeSpecialChars(s[4..])
    else [s[0]] + DecodeSpecialChars(s[1..])
  }

  /** Decoding one encoded character, followed by anything. */
  lemma DecodeEncodeChar(c: char, rest: string)
    ensures DecodeSpecialChars(EncodeChar(c) + rest) == [c] + DecodeSpecialChars(rest)
  {
    var e := EncodeChar(c);
    var t := e + rest;
    assert t[|e|..] == rest;
    // each entity is told apart from the others by its second character
    if c == '&' {
      assert t[..5] == e;
    } else if c == '"' {
      assert t[..6] == e && t[1] == 'q';
      assert t[..5][1] == 'q';
    } else if c == '\'' {
      assert t[..6] == e && t[1] == '#';
      assert t[..5][1] == '#' && t[..6][1] == '#';
    } else if c == '<' {
      assert t[..4] == e && t[1] == 'l';
      assert |t| >= 5 ==> t[..5][1] == 'l';
      assert |t| >= 6 ==> t[..6][1] == 'l';
    } else if c == '>' {
      assert t[..4] == e && t[1] == 'g';
      assert |t| >= 5 ==> t[..5][1] == 'g';
      assert |t| >= 6 ==> t[..6][1] == 'g';
      assert t[..4][1] == 'g';
    } else {
      assert t[0] == c;
      assert |t| >= 4 ==> t[..4][0] == c;
      assert |t| >= 5 ==> t[..5][0] == c;
      assert |t| >= 6 ==> t[..6][0] == c;
    }
  }

  /** Escaping loses nothing: decoding gives the original text back. */
  lemma {:induction false} SanitizeRoundTrip(text: string)
    ensures DecodeSpecialChars(SanitizeOutput(text)) == text
  {
    if text != [] {
      DecodeEncodeChar(text[0], SanitizeOutput(text[1..]));
      SanitizeRoundTrip(text[1..]);
      assert [text[0]] + text[1..] == text;
    }
  }

  /** Text without special characters passes through unchanged. */
  lemma {:induction false} SanitizePlain(text: string)
    requires forall k :: 0 <= k < |text| ==> !IsSpecial(text[k])
    ensures SanitizeOutput(text) == text
  {
    if text != [] {
      SanitizePlain(text[1..]);
    }
  }

  /** Escaping only ever grows the text, and is the identity exactly on text without special characters. */
  lemma {:induction false} SanitizeChangesIffSpecial(text: string)
    ensures SanitizeOutput(text) == text <==> forall k :: 0 <= k < |text| ==> !IsSpecial(text[k])
  {
    if text != [] {
      SanitizeChangesIffSpecial(text[1..]);
      if IsSpecial(text[0]) {
        assert |SanitizeOutput(text)| > |text|;
      } else {
        assert SanitizeOutput(text) == [text[0]] + SanitizeOutput(text[1..]);
        if SanitizeOutput(text) == text {
          assert SanitizeOutput(text)[1..] == text[1..];
        }
      }
    }
  }

  // ---------------------------------------------------------------------------
  // get_random_item, matches_patterns, is_ajax_request

  /** `get_random_item`: null for an empty array, else the element `array_rand` picks. */
  function GetRandomItem<T>(items: seq<T>, r: Draw): (x: Option<T>)
    ensures x.None? <==> |items| == 0
    ensures x.Some? ==> x.value in items
  {
    if |items| == 0 then None else Some(items[Index(r, |items|)])
  }

  /** `matches_patterns`: the `foreach` that stops at the first pattern `preg_match` accepts. */
  method MatchesPatterns(text: string, patterns: seq<string>, matches: (string, string) -> bool) returns (found: bool)
    ensures found <==> exists k :: 0 <= k < |patterns| && matches(patterns[k], text)
  {
    var i := 0;
    while i < |patterns|
      invariant 0 <= i <= |patterns|
      invariant forall k :: 0 <= k < i ==> !matches(patterns[k], text)
    {
      if matches(patterns[i], text) {
        return true;
      }
      i := i + 1;
    }
    return false;
  }

  /** `is_ajax_request`: the `X-Requested-With` header, lower-cased, is `xmlhttprequest`. */
  predicate IsAjaxRequest(requestedWith: Option<string>)
  {
    requestedWith.Some? && ToLower(requestedWith.value) == "xmlhttprequest"
  }

  // ---------------------------------------------------------------------------
  // The fixed-window rate limiter

  /** `RATE_LIMIT_REQUESTS` and `RATE_LIMIT_WINDOW` (seconds) of app/config/config.php. */
  const RateLimitRequests: int := 10
  const RateLimitWindow: int := 60

  /** `$_SESSION['rate_limit']`. */
  datatype Window = Window(count: int, start: int)

  /** The window after `is_rate_limited` at time `now`: a fresh one once more than the window length has passed. */
  function Refreshed(w: Window, now: int): Window
  {
    if now - w.start > RateLimitWindow then Window(0, now) else w
  }

  /** The answer of `is_rate_limited` at time `now`. */
  predicate Exceeded(w: Window, now: int)
  {
    now - w.start <= RateLimitWindow && w.count >= RateLimitRequests
  }

  /** The window after one request, and whether the request was let through. */
  datatype Decision = Decision(window: Window, admitted: bool)

  /**
   * How a caller that checks and then counts (`ChatbotController::sendMessage`)
   * treats one request: refused when the limit is reached, else counted in
   * the (possibly fresh) window.
   */
  function Admit(w: Window, now: int): (d: Decision)
    ensures d.admitted <==> !Exceeded(w, now)
    ensures d.window.start == Refreshed(w, now).start
    ensures d.window.count == Refreshed(w, now).count + (if d.admitted then 1 else 0)
  {
    var current := Refreshed(w, now);
    if Exceeded(w, now) then Decision(current, false) else Decision(Window(current.count + 1, current.start), true)
  }

  /** A sequence of requests: the final window and how many were admitted. */
  function Run(w: Window, times: seq<int>): (Window, nat)
    decreases |times|
  {
    if times == [] then (w, 0)
    else
      var d := Admit(w, times[0]);
      var (last, n) := Run(d.window, times[1..]);
      (last, n + if d.admitted then 1 else 0)
  }

  /**
   * At most `RATE_LIMIT_REQUESTS` requests are admitted per window: the count
   * never exceeds the limit, and while the window has not restarted it is
   * exactly the number of admitted requests added to the starting count.
   */
  lemma {:induction false} AtMostLimitPerWindow(w: Window, times: seq<int>)
    requires 0 <= w.count <= RateLimitRequests
    decreases |times|
    ensures var (w', n) := Run(w, times);
      && 0 <= w'.count <= RateLimitRequests
      && w'.start >= w.start
      && (w'.start == w.start ==> w'.count == w.count + n)
  {
    if times != [] {
      AtMostLimitPerWindow(Admit(w, times[0]).window, times[1..]);
    }
  }

  /** The session's rate-limit record, updated in place. */
  class RateLimit {
    var count: int
    var windowStart: int

    function State(): Window
      reads this
    {
      Window(count, windowStart)
    }

    /** As initialised by app/bootstrap.php: no requests, a window starting now. */
    constructor (now: int)
      ensures State() == Window(0, now)
    {
      count := 0;
      windowStart := now;
    }

    /**
     * `is_rate_limited`: once more than `RATE_LIMIT_WINDOW` seconds have
     * passed the window restarts and the answer is no; otherwise the record
     * is unchanged and the answer is whether the count reached the limit.
     */
    method IsRateLimited(now: int) returns (limited: bool)
      modifies this
      ensures limited == Exceeded(old(State()), now)
      ensures State() == Refreshed(old(State()), now)
      ensures now - old(windowStart) > RateLimitWindow ==> !limited && State() == Window(0, now)
      ensures now - old(windowStart) <= RateLimitWindow ==> unchanged(this) && limited == (count >= RateLimitRequests)
    {
      var currentTime := now;
      if currentTime - windowStart > RateLimitWindow {
        count, windowStart := 0, currentTime;
        return false;
      }
      return count >= RateLimitRequests;
    }

    /** `increment_rate_limit`: one more request in the current window. */
    method IncrementRateLimit()
      modifies this`count
      ensures count == old(count) + 1 && windowStart == old(windowStart)
    {
      count := count + 1;
    }
  }
}
