/**
 * The intent table of `ConversationalPatterns` and its first-match lookup.
 *
 * An intent has a name, regular-expression patterns and candidate replies.
 * Regular-expression matching is outside the model: a `Matcher` says whether
 * a pattern (given by its source text) matches a message.
 */
module Intents {
  import opened Wrappers
  import opened Random

  /** A regular expression, by its source text. */
  type Pattern = string

  /** `pattern.test(text)` or `preg_match($pattern, $text)`, supplied by the caller. */
  type Matcher = (Pattern, string) -> bool

  datatype Intent = Intent(name: string, patterns: seq<Pattern>, responses: seq<string>)

  /** The catch-all intent that the matchers treat specially. */
  const DefaultName: string := "default"

  /**
   * The table built by the `ConversationalPatterns` constructor, in
   * declaration order (the order in which `for ... in` visits its keys).
   * The copy inside chatbot.js holds the same entries.
   */
  const Patterns: seq<Intent> := [
    Intent("greetings", ["/\\b(hi|hello|hey|good morning|good afternoon|good evening|greetings)\\b/i"], GreetingsReplies),
    Intent("how_are_you", ["/\\b(how are you|how\\'re you|how do you feel|what\\'s up)\\b/i"], HowAreYouReplies),
    Intent("about_me", ["/\\b(tell me about yourself|who are you|what are you|about you)\\b/i"], AboutMeReplies),
    Intent("topics", ["/\\b(what can we talk about|what do you know|topics|subjects|discuss)\\b/i"], TopicsReplies),
    Intent("surprise", ["/\\b(surprise me|tell me something interesting|something cool|fun fact)\\b/i"], SurpriseReplies),
    Intent("thanks", ["/\\b(thank you|thanks|appreciate|grateful)\\b/i"], ThanksReplies),
    Intent("goodbye", ["/\\b(bye|goodbye|see you|farewell|take care|gotta go)\\b/i"], GoodbyeReplies),
    Intent("default", ["/.*/"], DefaultReplies)
  ]

  const GreetingsReplies: seq<string> := [
    "Hey there! 👋 Great to see you! How are you doing today?",
    "Hello! I'm Alex, and I'm excited to chat with you! What's on your mind?",
    "Hi! 😊 Thanks for stopping by. I'm here and ready to help with whatever you need!",
    "Hey! Good to meet you! I'm feeling chatty today - what would you like to talk about?"
  ]

  const HowAreYouReplies: seq<string> := [
    "I'm doing fantastic, thanks for asking! 😊 I love meeting new people and having conversations. How about you?",
    "I'm great! Every conversation is an adventure for me. What's been the highlight of your day so far?",
    "I'm wonderful! I'm always excited to chat and learn something new. How has your day been treating you?",
    "I'm doing amazing! There's nothing I enjoy more than a good conversation. What's new with you?"
  ]

  const AboutMeReplies: seq<string> := [
    "I'm Alex! 🤖 I'm your friendly AI assistant who loves having conversations. I'm curious, helpful, and always eager to learn from our chats!",
    "Hi! I'm Alex - think of me as your digital conversation partner. I enjoy discussing everything from daily life to big ideas. What interests you most?",
    "I'm Alex, your AI companion! I'm designed to be conversational, helpful, and genuinely interested in what you have to say. I love learning about people!",
    "I'm Alex! 😊 I'm here to chat, help, and hopefully brighten your day a bit. I find every person fascinating - tell me something about yourself!"
  ]

  const TopicsReplies: seq<string> := [
    "Oh, so many things! 🌟 I love discussing daily life, hobbies, technology, books, movies, travel, food, or even philosophical questions. What sparks your curiosity?",
    "We can chat about anything that interests you! Whether it's your day, your passions, current events, creative projects, or just random thoughts - I'm all ears!",
    "The possibilities are endless! 💭 Tell me about your hobbies, ask me questions, share what's on your mind, or let's explore topics like science, art, or life in general!",
    "I'm up for discussing whatever you'd like! Your interests, experiences, questions about life, creative ideas, or even just how you're feeling today. What sounds good to you?"
  ]

  const SurpriseReplies: seq<string> := [
    "Here's something cool: Did you know that honey never spoils? Archaeologists have found pots of honey in ancient Egyptian tombs that are over 3,000 years old and still perfectly edible! 🍯 What's the most interesting thing you've learned recently?",
    "Fun fact: Octopuses have three hearts and blue blood! Two hearts pump blood to their gills, and the third pumps blood to the rest of their body. 🐙 Do you have any favorite animal facts?",
    "Here's something fascinating: The human brain has about 86 billion neurons, and each one can connect to thousands of others. That means you have more neural connections than there are stars in the Milky Way! 🧠✨ What amazes you most about the human body?",
    "Cool fact: A group of flamingos is called a \"flamboyance\"! 🦩 And they're pink because of the shrimp and algae they eat. What's your favorite collective animal name?"
  ]

  const ThanksReplies: seq<string> := [
    "You're so welcome! 😊 It makes me happy to help. Is there anything else you'd like to chat about?",
    "My pleasure! I really enjoy our conversation. What else is on your mind?",
    "You're very welcome! That's what I'm here for. Feel free to ask me anything else!",
    "Aww, thank you! 💙 I love being helpful. What would you like to explore next?"
  ]

  const GoodbyeReplies: seq<string> := [
    "Goodbye! 👋 It was wonderful chatting with you. Come back anytime - I'll be here!",
    "Take care! 😊 Thanks for the great conversation. I hope to see you again soon!",
    "Bye for now! It was really nice talking with you. Have a fantastic day!",
    "See you later! 🌟 Thanks for brightening my day with our chat. Until next time!"
  ]

  const DefaultReplies: seq<string> := [
    "That's interesting! 🤔 Tell me more about that - I'd love to hear your thoughts on it.",
    "I find that fascinating! Can you share more details? I'm genuinely curious to learn more.",
    "That sounds intriguing! 💭 What made you think about that? I'd love to dive deeper into this topic.",
    "Hmm, that's a great point! 😊 What's your perspective on it? I enjoy hearing different viewpoints.",
    "That's really cool! Can you tell me more? I love learning new things from our conversations.",
    "Interesting! 🌟 I'd love to hear more about your experience with that. What was it like?"
  ]

  /**
   * The shape of the table: eight intents with distinct names, seven named
   * ones with four replies each, and `default` last, matching everything,
   * with six replies. No reply is the empty string.
   */
  lemma PatternsShape()
    ensures |Patterns| == 8
    ensures forall i, j :: 0 <= i < j < |Patterns| ==> Patterns[i].name != Patterns[j].name
    ensures forall i :: 0 <= i < 7 ==> Patterns[i].name != DefaultName && |Patterns[i].responses| == 4
    ensures Patterns[7].name == DefaultName && Patterns[7].patterns == ["/.*/"] && |Patterns[7].responses| == 6
    ensures forall i, k :: 0 <= i < |Patterns| && 0 <= k < |Patterns[i].responses| ==> Patterns[i].responses[k] != ""
  {
  }

  /** `matchesPatterns`: does some pattern of the list match the message? */
  function MatchesPatterns(matches: Matcher, message: string, patterns: seq<Pattern>): (r: bool)
    ensures r <==> exists k :: 0 <= k < |patterns| && matches(patterns[k], message)
  {
    if |patterns| == 0 then false
    else if matches(patterns[0], message) then true
    else
      var r := MatchesPatterns(matches, message, patterns[1..]);
      assert forall k :: 1 <= k < |patterns| ==> patterns[k] == patterns[1..][k - 1];
      r
  }

  /** `getRandomItem`: the element at `floor(r * length)`, or undefined for an empty array. */
  function GetRandomItem(items: seq<string>, r: Draw): (x: Option<string>)
    ensures x.None? <==> |items| == 0
    ensures x.Some? ==> x.value in items
  {
    if |items| == 0 then None else Some(items[Index(r, |items|)])
  }

  /** An intent `getResponse` may answer with: not `default`, and some pattern matches. */
  predicate Eligible(intent: Intent, matches: Matcher, message: string)
  {
    intent.name != DefaultName && MatchesPatterns(matches, message, intent.patterns)
  }

  /** The position of the first eligible intent at or after `from`, in table order. */
  function FirstMatch(table: seq<Intent>, matches: Matcher, message: string, from: nat): (r: Option<nat>)
    ensures r.Some? ==> from <= r.value < |table| && Eligible(table[r.value], matches, message)
    ensures forall j :: from <= j < |table| && (r.None? || j < r.value) ==> !Eligible(table[j], matches, message)
    decreases |table| - from
  {
    if from >= |table| then None
    else if Eligible(table[from], matches, message) then Some(from)
    else FirstMatch(table, matches, message, from + 1)
  }

  /**
   * `getResponse`: a reply of the first non-default intent that matches, or
   * `None` (null) when none does. `default` is skipped, so it never answers.
   */
  function GetResponse(table: seq<Intent>, matches: Matcher, message: string, r: Draw): (reply: Option<string>)
    ensures FirstMatch(table, matches, message, 0).None? ==> reply.None?
    ensures var i := FirstMatch(table, matches, message, 0);
      i.Some? ==> (reply.Some? <==> |table[i.value].responses| > 0)
    ensures reply.Some? ==> var i := FirstMatch(table, matches, message, 0);
      i.Some? && reply.value in table[i.value].responses && table[i.value].name != DefaultName
  {
    match FirstMatch(table, matches, message, 0)
    case None => None
    case Some(i) => GetRandomItem(table[i].responses, r)
  }

  /**
   * On the shipped table `getResponse` answers exactly when some named intent
   * matches, and then with a reply of the earliest matching intent, which
   * lies no later than any other matching one.
   */
  lemma GetResponseOnPatterns(matches: Matcher, message: string, r: Draw)
    ensures var reply := GetResponse(Patterns, matches, message, r);
      reply.None? <==> forall i :: 0 <= i < 7 ==> !MatchesPatterns(matches, message, Patterns[i].patterns)
    ensures var reply := GetResponse(Patterns, matches, message, r);
      var m := FirstMatch(Patterns, matches, message, 0);
      forall i :: 0 <= i < 7 && MatchesPatterns(matches, message, Patterns[i].patterns) ==>
        m.Some? && m.value <= i && reply.Some? && reply.value in Patterns[m.value].responses
  {
    PatternsShape();
    var m := FirstMatch(Patterns, matches, message, 0);
    forall i | 0 <= i < 7 && MatchesPatterns(matches, message, Patterns[i].patterns)
      ensures m.Some? && m.value <= i
    {
      assert Eligible(Patterns[i], matches, message);
    }
  }

  /** A message matching both greetings and goodbye gets a greetings reply. */
  lemma GreetingsBeforeGoodbye(matches: Matcher, message: string, r: Draw)
    requires MatchesPatterns(matches, message, Patterns[0].patterns)
    requires MatchesPatterns(matches, message, Patterns[6].patterns)
    ensures var reply := GetResponse(Patterns, matches, message, r);
      reply.Some? && reply.value in GreetingsReplies
  {
    PatternsShape();
    assert Eligible(Patterns[0], matches, message);
  }
}
