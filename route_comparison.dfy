/**
  The two dispatchers are both mounted at `/api/chat`; which one the
  application registers is not visible in the code. These lemmas state where
  they agree and where they part ways.
 */
module RouteComparison {
  import opened Text
  import ChatRoute
  import LegacyChatRoute
  import ChatSession

  /** A blank message is refused by the current route and echoed by the older one. */
  lemma BlankDiverges(message: string)
    requires AllSpace(message, PySpace)
    ensures ChatRoute.Chat(message) == ChatRoute.HttpError(400, ChatRoute.EmptyMessageDetail)
    ensures LegacyChatRoute.Chat(message) == LegacyChatRoute.EchoReply(message)
  {
    LegacyChatRoute.BlankIsEchoed(message);
  }

  /** Every keyword of a branch of the older route is a keyword of the same branch of the current one. */
  lemma KeywordsIncluded()
    ensures forall w | w in LegacyChatRoute.Keywords(LegacyChatRoute.Create) :: w in ChatRoute.Keywords(ChatRoute.Create)
    ensures forall w | w in LegacyChatRoute.Keywords(LegacyChatRoute.Listing) :: w in ChatRoute.Keywords(ChatRoute.Listing)
    ensures forall w | w in LegacyChatRoute.Keywords(LegacyChatRoute.Deletion) :: w in ChatRoute.Keywords(ChatRoute.Deletion)
    ensures forall w | w in LegacyChatRoute.Keywords(LegacyChatRoute.Help) :: w in ChatRoute.Keywords(ChatRoute.Help)
  {
  }

  /** When the older route answers with its create reply, the current one does too. */
  lemma CreateAgrees(message: string)
    requires LegacyChatRoute.Classify(Lower(message)) == LegacyChatRoute.Create
    ensures !AllSpace(message, PySpace)
    ensures ChatRoute.Chat(message) == ChatRoute.Reply(ChatRoute.CreateReply)
  {
    var s := Lower(message);
    var w :| w in LegacyChatRoute.Keywords(LegacyChatRoute.Create) && Contains(s, w);
    ChatRoute.KeywordSelects(message, ChatRoute.Create, w);
  }

  /**
    A string with no keyword of the current route's first three groups, and
    without "help", is unmatched by the older route.
   */
  lemma LegacyUnmatched(s: string)
    requires !ContainsAny(s, ChatRoute.Keywords(ChatRoute.Create))
    requires !ContainsAny(s, ChatRoute.Keywords(ChatRoute.Listing))
    requires !ContainsAny(s, ChatRoute.Keywords(ChatRoute.Deletion))
    requires !Contains(s, "help")
    ensures LegacyChatRoute.Classify(s) == LegacyChatRoute.Unmatched
  {
    KeywordsIncluded();
    LegacyChatRoute.ClassifyUnique(s, LegacyChatRoute.Unmatched);
  }

  /**
    A message the current route leaves unmatched is unmatched by the older
    route too: the older keywords are a subset of the current ones.
   */
  lemma UnmatchedAgrees(message: string)
    requires ChatRoute.Classify(Lower(message)) == ChatRoute.Unmatched
    ensures LegacyChatRoute.Classify(Lower(message)) == LegacyChatRoute.Unmatched
    ensures LegacyChatRoute.Chat(message) == LegacyChatRoute.EchoReply(message)
  {
    var s := Lower(message);
    assert !ContainsAny(s, ChatRoute.Keywords(ChatRoute.Help));
    assert "help" in ChatRoute.Keywords(ChatRoute.Help);
    LegacyUnmatched(s);
  }

  /**
    The older route has no update branch: a message whose only keyword
    (among both routes' keywords) is "update" gets the update reply from the
    current route and is echoed by the older one.
   */
  lemma UpdateDiverges(message: string)
    requires Contains(Lower(message), "update")
    requires forall u: ChatRoute.Topic :: ChatRoute.Rank(u) < ChatRoute.Rank(ChatRoute.Update) ==>
      !ContainsAny(Lower(message), ChatRoute.Keywords(u))
    requires !Contains(Lower(message), "help")
    ensures ChatRoute.Chat(message) == ChatRoute.Reply(ChatRoute.UpdateReply)
    ensures LegacyChatRoute.Chat(message) == LegacyChatRoute.EchoReply(message)
  {
    var s := Lower(message);
    ChatRoute.KeywordSelects(message, ChatRoute.Update, "update");
    assert !ContainsAny(s, ChatRoute.Keywords(ChatRoute.Create));
    assert !ContainsAny(s, ChatRoute.Keywords(ChatRoute.Listing));
    assert !ContainsAny(s, ChatRoute.Keywords(ChatRoute.Deletion));
    LegacyUnmatched(s);
  }

  /**
    The older route has no greeting branch: a message that only greets gets
    the greeting from the current route and is echoed by the older one.
   */
  lemma GreetingDiverges(message: string, w: string)
    requires w in ChatRoute.Keywords(ChatRoute.Greeting) && Contains(Lower(message), w)
    requires forall u: ChatRoute.Topic :: ChatRoute.Rank(u) < ChatRoute.Rank(ChatRoute.Greeting) ==>
      !ContainsAny(Lower(message), ChatRoute.Keywords(u))
    ensures ChatRoute.Chat(message) == ChatRoute.Reply(ChatRoute.GreetingReply)
    ensures LegacyChatRoute.Chat(message) == LegacyChatRoute.EchoReply(message)
  {
    var s := Lower(message);
    ChatRoute.KeywordSelects(message, ChatRoute.Greeting, w);
    assert !ContainsAny(s, ChatRoute.Keywords(ChatRoute.Create));
    assert !ContainsAny(s, ChatRoute.Keywords(ChatRoute.Listing));
    assert !ContainsAny(s, ChatRoute.Keywords(ChatRoute.Deletion));
    assert !ContainsAny(s, ChatRoute.Keywords(ChatRoute.Help));
    assert "help" in ChatRoute.Keywords(ChatRoute.Help);
    LegacyUnmatched(s);
  }

  /**
    The chat panel tests for blank input with JavaScript's whitespace and the
    current route with Python's. A message made of the separator U+001C is
    not blank to the panel, so it is sent; the route refuses it with 400.
    The panel sees that 400 as a response that is not ok, which the model's
    `FetchOutcome` abstracts as `HttpFailure`, and it then shows its
    connection error.
   */
  lemma SentButRefused()
    ensures !AllSpace("\U{001C}", JsSpace)
    ensures ChatRoute.Chat("\U{001C}") == ChatRoute.HttpError(400, ChatRoute.EmptyMessageDetail)
    ensures ChatSession.AiText(ChatSession.HttpFailure) == ChatSession.ConnectionError
  {
    var m := "\U{001C}";
    WhitespaceSetsDiffer();
    assert m[0] == '\U{001C}';
  }
}
