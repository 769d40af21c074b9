/**
 * `Router` of app/core/Router.php: a route table filled in registration
 * order, the translation of a route pattern into a regular expression, the
 * first-match lookup and the decisions `dispatch` takes before calling out.
 *
 * `preg_match` is an abstract parameter: given a regular expression and a
 * subject it yields the `$matches` array (the full match first, then the
 * capture groups), or nothing when it does not match. Calling the chosen
 * controller or callback is outside the model; `Dispatch` returns what would
 * be called.
 */
module Router {
  import opened Wrappers
  import opened Text

  /** A route callback: a string such as `ChatbotController@index`, or a closure known by identity. */
  datatype Callback = Named(text: string) | Closure(id: nat)

  datatype Route = Route(verb: string, path: string, callback: Callback)

  /** PHP truthiness of a callback: a closure is true, a string unless it is `""` or `"0"`. */
  predicate Truthy(callback: Callback)
  {
    callback.Closure? || !IsPhpEmpty(callback.text)
  }

  /** `preg_match($regex, $subject, $matches)`: the `$matches` array when it matches. */
  type PregMatch = (string, string) -> Option<seq<string>>

  // ---------------------------------------------------------------------------
  // patternToRegex

  /** The characters of `[a-zA-Z0-9_]`. */
  predicate IsNameChar(c: char)
  {
    ('a' <= c <= 'z') || ('A' <= c <= 'Z') || ('0' <= c <= '9') || c == '_'
  }

  /** The length of the longest run of name characters at the start of `s`. */
  function NameLength(s: string): (n: nat)
    ensures n <= |s|
    ensures forall k :: 0 <= k < n ==> IsNameChar(s[k])
    ensures n < |s| ==> !IsNameChar(s[n])
  {
    if s == [] || !IsNameChar(s[0]) then 0 else 1 + NameLength(s[1..])
  }

  /** A route pattern read as `preg_replace` reads it: literal characters and `:name` parameters. */
  datatype Token = Lit(c: char) | Param(name: string)

  /**
   * The scan of `preg_replace('/\:([a-zA-Z0-9_]+)/', …)`: left to right, a
   * `:` followed by a name character starts a parameter that takes the
   * longest run of name characters; anything else is literal.
   */
  function Tokenize(p: string): seq<Token>
    decreases |p|
  {
    if p == [] then []
    else if p[0] == ':' && |p| >= 2 && IsNameChar(p[1]) then
      var n := NameLength(p[1..]);
      [Param(p[1..1 + n])] + Tokenize(p[1 + n..])
    else [Lit(p[0])] + Tokenize(p[1..])
  }

  /** The text of a token in the pattern. */
  function Spell(t: Token): string
  {
    match t
    case Lit(c) => [c]
    case Param(name) => ":" + name
  }

  function Untokenize(ts: seq<Token>): string
  {
    if ts == [] then [] else Spell(ts[0]) + Untokenize(ts[1..])
  }

  lemma UntokenizeCons(t: Token, ts: seq<Token>)
    ensures Untokenize([t] + ts) == Spell(t) + Untokenize(ts)
  {
    assert ([t] + ts)[1..] == ts;
  }

  /** The tokens are the whole pattern: nothing is lost or invented. */
  lemma {:induction false} TokenizeRoundTrip(p: string)
    ensures Untokenize(Tokenize(p)) == p
    decreases |p|
  {
    if p != [] {
      if p[0] == ':' && |p| >= 2 && IsNameChar(p[1]) {
        var n := NameLength(p[1..]);
        var name, rest := p[1..1 + n], p[1 + n..];
        TokenizeRoundTrip(rest);
        UntokenizeCons(Param(name), Tokenize(rest));
        assert p == [':'] + name + rest;
      } else {
        TokenizeRoundTrip(p[1..]);
        UntokenizeCons(Lit(p[0]), Tokenize(p[1..]));
        assert p == [p[0]] + p[1..];
      }
    }
  }

  /**
   * What the regular expression sees: a parameter's name is non-empty and
   * made of name characters, and it is maximal, since no name character
   * follows it literally; and a literal `:` is never directly followed by a
   * literal name character.
   */
  predicate WellFormed(ts: seq<Token>)
  {
    && (forall k :: 0 <= k < |ts| && ts[k].Param? ==>
          |ts[k].name| > 0 && forall j :: 0 <= j < |ts[k].name| ==> IsNameChar(ts[k].name[j]))
    && (forall k :: 0 <= k < |ts| - 1 && (ts[k].Param? || ts[k] == Lit(':')) && ts[k + 1].Lit? ==>
          !IsNameChar(ts[k + 1].c))
  }

  lemma {:induction false} TokenizeWellFormed(p: string)
    ensures WellFormed(Tokenize(p))
    ensures p != [] ==> |Tokenize(p)| > 0 && (Tokenize(p)[0].Lit? ==> Tokenize(p)[0].c == p[0])
    decreases |p|
  {
    if p != [] {
      var ts := Tokenize(p);
      if p[0] == ':' && |p| >= 2 && IsNameChar(p[1]) {
        var n := NameLength(p[1..]);
        TokenizeWellFormed(p[1 + n..]);
        assert ts[1..] == Tokenize(p[1 + n..]);
        assert ts[0].name == p[1..1 + n];
        if 1 + n < |p| {
          assert p[1 + n..][0] == p[1..][n];
        }
      } else {
        TokenizeWellFormed(p[1..]);
        assert ts[1..] == Tokenize(p[1..]);
      }
    }
  }

  /** The regular-expression text of a token: a parameter becomes the capture group `([^/]+)`. */
  function RegexText(t: Token): string
  {
    match t
    case Lit(c) => [c]
    case Param(_) => "([^/]+)"
  }

  function RegexBody(ts: seq<Token>): string
  {
    if ts == [] then [] else RegexText(ts[0]) + RegexBody(ts[1..])
  }

  /** `patternToRegex`: every parameter replaced by a capture group, anchored between `#^` and `$#`. */
  function PatternToRegex(pattern: string): (regex: string)
    ensures |regex| >= 4 && regex[..2] == "#^" && regex[|regex| - 2..] == "$#"
    ensures regex[2..|regex| - 2] == RegexBody(Tokenize(pattern))
  {
    "#^" + RegexBody(Tokenize(pattern)) + "$#"
  }

  /** A pattern without `:` is used literally. */
  lemma {:induction false} PlainPatternIsLiteral(pattern: string)
    requires ':' !in pattern
    ensures PatternToRegex(pattern) == "#^" + pattern + "$#"
    decreases |pattern|
  {
    PlainBody(pattern);
  }

  lemma {:induction false} PlainBody(p: string)
    requires ':' !in p
    ensures RegexBody(Tokenize(p)) == p
    decreases |p|
  {
    if p != [] {
      assert ':' !in p[1..];
      PlainBody(p[1..]);
      assert Tokenize(p)[1..] == Tokenize(p[1..]);
      assert [p[0]] + p[1..] == p;
    }
  }

  // ---------------------------------------------------------------------------
  // matchRoute

  /** A route accepts a request when its method equals the request's exactly and its regex matches the path. */
  predicate Accepts(route: Route, verb: string, path: string, pregMatch: PregMatch)
  {
    route.verb == verb && pregMatch(PatternToRegex(route.path), path).Some?
  }

  /** The route data `matchRoute` returns. */
  datatype RouteMatch = RouteMatch(callback: Callback, params: seq<string>)

  /** `array_shift($matches)`: the capture groups without the full match. */
  function Params(matches: seq<string>): (params: seq<string>)
    ensures |matches| > 0 ==> params == matches[1..]
  {
    if matches == [] then [] else matches[1..]
  }

  /** What an accepting route yields. */
  function Found(route: Route, path: string, pregMatch: PregMatch): RouteMatch
    requires pregMatch(PatternToRegex(route.path), path).Some?
  {
    RouteMatch(route.callback, Params(pregMatch(PatternToRegex(route.path), path).value))
  }

  /** The first accepting route, from route `from` on, in registration order. */
  function FirstAccepting(routes: seq<Route>, verb: string, path: string, pregMatch: PregMatch, from: nat)
    : (i: Option<nat>)
    ensures i.Some? ==> from <= i.value < |routes| && Accepts(routes[i.value], verb, path, pregMatch)
    ensures forall j :: from <= j < |routes| && (i.None? || j < i.value) ==> !Accepts(routes[j], verb, path, pregMatch)
    decreases |routes| - from
  {
    if from >= |routes| then None
    else if Accepts(routes[from], verb, path, pregMatch) then Some(from)
    else FirstAccepting(routes, verb, path, pregMatch, from + 1)
  }

  /**
   * `matchRoute`: the callback and parameters of the first route whose method
   * and regex accept the request, or nothing (`false`) when none does.
   */
  function MatchRoute(routes: seq<Route>, verb: string, path: string, pregMatch: PregMatch): (m: Option<RouteMatch>)
    ensures m.None? <==> forall i :: 0 <= i < |routes| ==> !Accepts(routes[i], verb, path, pregMatch)
    ensures m.Some? ==>
              var i := FirstAccepting(routes, verb, path, pregMatch, 0).value;
              && i < |routes| && Accepts(routes[i], verb, path, pregMatch)
              && (forall j :: 0 <= j < i ==> !Accepts(routes[j], verb, path, pregMatch))
              && m.value == Found(routes[i], path, pregMatch)
  {
    match FirstAccepting(routes, verb, path, pregMatch, 0)
    case None => None
    case Some(i) => Some(Found(routes[i], path, pregMatch))
  }

  /** Routes registered later never change the answer for a request an earlier route accepts. */
  lemma {:induction false} EarlierRouteWins(routes: seq<Route>, more: seq<Route>, verb: string, path: string, pregMatch: PregMatch, from: nat)
    requires FirstAccepting(routes, verb, path, pregMatch, from).Some?
    ensures FirstAccepting(routes + more, verb, path, pregMatch, from) == FirstAccepting(routes, verb, path, pregMatch, from)
    decreases |routes| - from
  {
    assert (routes + more)[from] == routes[from];
    if !Accepts(routes[from], verb, path, pregMatch) {
      EarlierRouteWins(routes, more, verb, path, pregMatch, from + 1);
    }
  }

  /** Hence a route table only ever grows in ways that keep an existing match. */
  lemma AddedRoutesKeepMatch(routes: seq<Route>, more: seq<Route>, verb: string, path: string, pregMatch: PregMatch)
    requires MatchRoute(routes, verb, path, pregMatch).Some?
    ensures MatchRoute(routes + more, verb, path, pregMatch) == MatchRoute(routes, verb, path, pregMatch)
  {
    EarlierRouteWins(routes, more, verb, path, pregMatch, 0);
    var i := FirstAccepting(routes, verb, path, pregMatch, 0).value;
    assert (routes + more)[i] == routes[i];
  }

  // ---------------------------------------------------------------------------
  // dispatch

  /** The empty-path rule of `dispatch`: `''` (and `/`) become `/`. */
  function NormalizePath(path: string): (p: string)
    ensures p != ""
    ensures p == if path == "" then "/" else path
  {
    if path == "/" || path == "" then "/" else path
  }

  /** `substr($path, strlen($basePath))`, which is `""` when the base is longer than the path. */
  function StripBase(path: string, basePath: string): (p: string)
    ensures |basePath| <= |path| ==> path == path[..|basePath|] + p
    ensures |basePath| > |path| ==> p == ""
  {
    if |basePath| <= |path| then path[|basePath|..] else ""
  }

  /** The position of the first `@`. */
  function FirstAt(s: string): (i: nat)
    requires '@' in s
    ensures i < |s| && s[i] == '@' && '@' !in s[..i]
  {
    if s[0] == '@' then 0 else
      assert s == [s[0]] + s[1..];
      1 + FirstAt(s[1..])
  }

  /** A controller class and the action to call on it. */
  datatype Handler = Handler(controller: string, action: string)

  /**
   * `list($controller, $action) = explode('@', $callback)`: the text before
   * the first `@`, and the text between it and the next `@` (or the end).
   */
  function SplitCallback(callback: string): (h: Handler)
    requires '@' in callback
    ensures '@' !in h.controller && '@' !in h.action
    ensures var n := |h.controller|;
      && n + 1 + |h.action| <= |callback|
      && callback[..n] == h.controller && callback[n] == '@'
      && callback[n + 1..n + 1 + |h.action|] == h.action
      && (n + 1 + |h.action| == |callback| || callback[n + 1 + |h.action|] == '@')
  {
    var i := FirstAt(callback);
    var rest := callback[i + 1..];
    var action := if '@' in rest then rest[..FirstAt(rest)] else rest;
    Handler(callback[..i], action)
  }

  /** With no second `@` the split loses nothing. */
  lemma SplitCallbackRoundTrip(callback: string)
    requires '@' in callback
    requires '@' !in callback[FirstAt(callback) + 1..]
    ensures var h := SplitCallback(callback); h.controller + "@" + h.action == callback
  {
    var i := FirstAt(callback);
    assert callback == callback[..i] + [callback[i]] + callback[i + 1..];
  }

  /** What `dispatch` ends up calling. */
  datatype Outcome =
    | CallAction(handler: Handler, params: seq<string>)   // a new controller instance's action
    | CallCallback(callback: Callback, params: seq<string>)
    | CallNotFound(callback: Callback)
    | Default404                                           // `404 Not Found` is sent

  class RouteTable {
    var routes: seq<Route>
    var notFound: Option<Callback>

    /** Every stored method is upper case. */
    predicate Valid()
      reads this
    {
      forall i :: 0 <= i < |routes| ==> routes[i].verb == ToUpper(routes[i].verb)
    }

    constructor ()
      ensures Valid() && routes == [] && notFound == None
    {
      routes := [];
      notFound := None;
    }

    /** `addRoute`: the route is appended with its method upper-cased. */
    method AddRoute(verb: string, path: string, callback: Callback)
      requires Valid()
      modifies this`routes
      ensures Valid()
      ensures routes == old(routes) + [Route(ToUpper(verb), path, callback)]
    {
      routes := routes + [Route(ToUpper(verb), path, callback)];
    }

    method Get(path: string, callback: Callback)
      requires Valid()
      modifies this`routes
      ensures Valid() && routes == old(routes) + [Route("GET", path, callback)]
    {
      AddRoute("GET", path, callback);
      assert ToUpper("GET") == "GET";
    }

    method Post(path: string, callback: Callback)
      requires Valid()
      modifies this`routes
      ensures Valid() && routes == old(routes) + [Route("POST", path, callback)]
    {
      AddRoute("POST", path, callback);
      assert ToUpper("POST") == "POST";
    }

    method SetNotFound(callback: Callback)
      modifies this`notFound
      ensures notFound == Some(callback)
    {
      notFound := Some(callback);
    }

    /**
     * `dispatch` for a request method and the path `parse_url` gave: the
     * empty path becomes `/`, then the base directory (`rtrim(dirname(
     * SCRIPT_NAME), '/')`) is cut off, then the first accepting route's
     * callback is chosen; a `Controller@action` string names an action.
     * With no route, the not-found callback when one is set and truthy, else
     * the default 404.
     */
    function Dispatch(verb: string, path: string, basePath: string, pregMatch: PregMatch): (o: Outcome)
      reads this
      ensures var p := StripBase(NormalizePath(path), basePath);
        var none := forall i :: 0 <= i < |routes| ==> !Accepts(routes[i], verb, p, pregMatch);
        && ((o.CallNotFound? || o.Default404?) <==> none)
        && (o.Default404? <==> none && !(notFound.Some? && Truthy(notFound.value)))
        && (o.CallNotFound? ==> notFound == Some(o.callback))
      ensures var p := StripBase(NormalizePath(path), basePath);
        var first := FirstAccepting(routes, verb, p, pregMatch, 0);
        first.Some? ==>
          var route := routes[first.value];
          var params := Params(pregMatch(PatternToRegex(route.path), p).value);
          && (o.CallAction? <==> route.callback.Named? && '@' in route.callback.text)
          && (o.CallAction? ==> o == CallAction(SplitCallback(route.callback.text), params))
          && (o.CallCallback? ==> o == CallCallback(route.callback, params))
    {
      var p := StripBase(NormalizePath(path), basePath);
      match MatchRoute(routes, verb, p, pregMatch)
      case Some(m) =>
        if m.callback.Named? && '@' in m.callback.text
        then CallAction(SplitCallback(m.callback.text), m.params)
        else CallCallback(m.callback, m.params)
      case None =>
        if notFound.Some? && Truthy(notFound.value) then CallNotFound(notFound.value) else Default404
    }
  }

  /** The empty path is dispatched as `/`. */
  lemma DispatchEmptyPath(t: RouteTable, verb: string, basePath: string, pregMatch: PregMatch)
    ensures t.Dispatch(verb, "", basePath, pregMatch) == t.Dispatch(verb, "/", basePath, pregMatch)
  {
  }

  /**
   * A request whose method has a lower-case letter is never routed: it gets
   * the not-found callback or the default 404.
   */
  lemma LowerCaseMethodNotFound(t: RouteTable, verb: string, path: string, basePath: string, pregMatch: PregMatch)
    requires t.Valid()
    requires exists k :: 0 <= k < |verb| && 'a' <= verb[k] <= 'z'
    ensures var o := t.Dispatch(verb, path, basePath, pregMatch); o.CallNotFound? || o.Default404?
  {
    LowerCaseMethodMatchesNothing(t, verb, StripBase(NormalizePath(path), basePath), pregMatch);
  }

  /**
   * Methods are compared exactly, without upper-casing the request's: a
   * request method with a lower-case letter reaches no route of a valid table.
   */
  lemma LowerCaseMethodMatchesNothing(t: RouteTable, verb: string, path: string, pregMatch: PregMatch)
    requires t.Valid()
    requires exists k :: 0 <= k < |verb| && 'a' <= verb[k] <= 'z'
    ensures MatchRoute(t.routes, verb, path, pregMatch).None?
  {
    var k :| 0 <= k < |verb| && 'a' <= verb[k] <= 'z';
    assert ToUpper(verb)[k] == UpperChar(verb[k]) != verb[k];
    assert verb != ToUpper(verb);
  }
}
