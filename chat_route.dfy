/**
  The keyword reply dispatcher behind `POST /api/chat` in
  backend/src/api/routes/chat.py: a blank message is refused with status 400;
  any other message is lower-cased and stripped, and the first keyword group
  that occurs in it as a substring selects one of six fixed replies, falling
  back to a reply that quotes the original message.
 */
module ChatRoute {
  import opened Text

  /** The endpoint's outcome: a `ChatResponse` body or an `HTTPException`. */
  datatype Response = Reply(reply: string) | HttpError(status: int, detail: string)

  /** The branches of the dispatcher. */
  datatype Topic = Create | Listing | Deletion | Update | Help | Greeting | Unmatched

  /** Position of a branch in the if/elif chain; lower ranks are tried first. */
  function Rank(t: Topic): nat {
    match t
    case Create => 0
    case Listing => 1
    case Deletion => 2
    case Update => 3
    case Help => 4
    case Greeting => 5
    case Unmatched => 6
  }

  /**
    The keyword group that selects each branch; only the fallback has none.
    No keyword starts or ends with whitespace.
   */
  function Keywords(t: Topic): (ks: seq<string>)
    ensures ks == [] <==> t == Unmatched
    ensures forall w | w in ks :: Solid(w, PySpace)
  {
    match t
    case Create => ["create", "add", "new"]
    case Listing => ["list", "show", "all", "my tasks"]
    case Deletion => ["delete", "remove"]
    case Update => ["update", "edit", "change"]
    case Help => ["help", "how", "what can you do"]
    case Greeting => ["hello", "hi", "hey"]
    case Unmatched => []
  }

  const EmptyMessageDetail := "Message cannot be empty"

  const CreateReply := "Great! You can add a task manually using the form on the Tasks tab. What's the task about?"
  const ListReply := "All your tasks are displayed in the Tasks tab. You can filter them by status!"
  const DeleteReply := "You can delete tasks by clicking the delete button on each task card."
  const UpdateReply := "You can update task status using the dropdown on each task."
  /** The three characters the source file holds where a bullet was meant. */
  const Bullet := "\U{00E2}\U{20AC}\U{00A2}"
  const HelpReply := "I can help you with:\n" + Bullet + " Creating tasks\n" + Bullet + " Listing your tasks\n"
    + Bullet + " Updating task status\n" + Bullet + " Deleting tasks\n\nWhat would you like to do?"
  /** The four characters the source file holds where a waving-hand emoji was meant. */
  const Wave := "\U{00F0}\U{0178}\U{2018}\U{2039}"
  const GreetingReply := "Hello! " + Wave + " I'm your task assistant. How can I help you manage your tasks today?"

  const EchoPrefix := "You said: \""
  const EchoSuffix := "\"\n\nI'm learning to understand task commands better. Try asking me to create, list, or manage your tasks!"

  /** The fallback reply quotes the message exactly as it was received. */
  function EchoReply(message: string): (r: string)
    ensures |r| == |EchoPrefix| + |message| + |EchoSuffix|
    ensures r[..|EchoPrefix|] == EchoPrefix && r[|EchoPrefix|..|EchoPrefix| + |message|] == message
  {
    EchoPrefix + message + EchoSuffix
  }

  /**
    The reply of each branch: a fixed text for every keyword branch, which
    does not depend on the message, and the echo for the fallback.
   */
  function ReplyFor(t: Topic, message: string): (r: string)
    ensures t == Unmatched ==> r == EchoReply(message)
    ensures t != Unmatched ==> r in [CreateReply, ListReply, DeleteReply, UpdateReply, HelpReply, GreetingReply]
  {
    match t
    case Create => CreateReply
    case Listing => ListReply
    case Deletion => DeleteReply
    case Update => UpdateReply
    case Help => HelpReply
    case Greeting => GreetingReply
    case Unmatched => EchoReply(message)
  }

  /**
    A client can tell the branch from the reply: no two branches share a
    reply, and no echo equals a fixed reply, whatever the messages.
   */
  lemma ReplyIdentifiesBranch(t: Topic, u: Topic, m1: string, m2: string)
    requires ReplyFor(t, m1) == ReplyFor(u, m2)
    ensures t == u
  {
    // Every echo is longer than the four plain fixed replies and the greeting,
    // and it differs from the help text in its fifth character.
    assert |CreateReply| < |EchoPrefix| + |EchoSuffix| && |ListReply| < |EchoPrefix| + |EchoSuffix|;
    assert |DeleteReply| < |EchoPrefix| + |EchoSuffix| && |UpdateReply| < |EchoPrefix| + |EchoSuffix|;
    assert |GreetingReply| < |EchoPrefix| + |EchoSuffix| && HelpReply[4] != EchoPrefix[4];
  }

  /**
    The if/elif chain over `any(word in message for word in [...])`. The
    chosen branch is the first, in rank order, whose keyword group occurs in
    `message`; the fallback is chosen only when no group occurs.
   */
  function Classify(message: string): (t: Topic)
    ensures t != Unmatched ==> ContainsAny(message, Keywords(t))
    ensures forall u :: Rank(u) < Rank(t) ==> !ContainsAny(message, Keywords(u))
  {
    if ContainsAny(message, ["create", "add", "new"]) then Create
    else if ContainsAny(message, ["list", "show", "all", "my tasks"]) then Listing
    else if ContainsAny(message, ["delete", "remove"]) then Deletion
    else if ContainsAny(message, ["update", "edit", "change"]) then Update
    else if ContainsAny(message, ["help", "how", "what can you do"]) then Help
    else if ContainsAny(message, ["hello", "hi", "hey"]) then Greeting
    else Unmatched
  }

  /** Stripping the lower-cased message never changes the branch. */
  lemma ClassifyIgnoresTrim(s: string)
    ensures Classify(Trim(s, PySpace)) == Classify(s)
  {
    forall t: Topic ensures ContainsAny(Trim(s, PySpace), Keywords(t)) <==> ContainsAny(s, Keywords(t)) {
      ContainsAnyTrimIff(s, Keywords(t), PySpace);
    }
    assert Classify(Trim(s, PySpace)) == Classify(s) by {
      var a, b := Classify(Trim(s, PySpace)), Classify(s);
      if Rank(a) < Rank(b) {
        assert false;
      } else if Rank(b) < Rank(a) {
        assert false;
      }
    }
  }

  /**
    The endpoint: a message that is empty or only whitespace is refused with
    status 400; any other message gets the reply of the branch selected on
    its lower-cased form. Stripping before matching makes no difference to
    the branch, so the contract states the choice on `Lower(message)` alone.
   */
  function Chat(message: string): (r: Response)
    ensures r.HttpError? <==> AllSpace(message, PySpace)
    ensures r.HttpError? ==> r.status == 400 && r.detail == EmptyMessageDetail
    ensures r.Reply? ==> r.reply == ReplyFor(Classify(Lower(message)), message)
  {
    ClassifyIgnoresTrim(Lower(message));
    assert IsBlank(message, PySpace) <==> AllSpace(message, PySpace);
    if message == [] || IsBlank(message, PySpace) then
      HttpError(400, EmptyMessageDetail)
    else
      var normalized := Trim(Lower(message), PySpace);
      Reply(ReplyFor(Classify(normalized), message))
  }

  /** The branch specification determines the branch: there is only one first hit. */
  lemma ClassifyUnique(message: string, t: Topic)
    requires t != Unmatched ==> ContainsAny(message, Keywords(t))
    requires forall u :: Rank(u) < Rank(t) ==> !ContainsAny(message, Keywords(u))
    ensures Classify(message) == t
  {
    var c := Classify(message);
    if Rank(c) < Rank(t) {
      assert false;
    } else if Rank(t) < Rank(c) {
      assert false;
    }
  }

  /**
    Keywords match anywhere inside the message, not only as whole words: a
    message whose lower-cased form contains a keyword of branch `t`, and no
    keyword of an earlier branch, gets the reply of `t`.
   */
  lemma KeywordSelects(message: string, t: Topic, w: string)
    requires w in Keywords(t)
    requires Contains(Lower(message), w)
    requires forall u :: Rank(u) < Rank(t) ==> !ContainsAny(Lower(message), Keywords(u))
    ensures Chat(message) == Reply(ReplyFor(t, message))
  {
    var i :| 0 <= i <= |Lower(message)| - |w| && OccursAt(Lower(message), w, i);
    OccurrenceEnds(Lower(message), w, i);
    RuntimesSpareLetters();
    LowerCharKeepsSpace(message[i], PySpace);
    assert !PySpace(message[i]);
    ClassifyUnique(Lower(message), t);
  }

  /** Any message containing "add" in any letter case, even inside a word, gets the create reply. */
  lemma AddAnywhereCreates(message: string)
    requires Contains(Lower(message), "add")
    ensures Chat(message) == Reply(CreateReply)
  {
    KeywordSelects(message, Create, "add");
  }

  /** Matching is case-insensitive: messages equal up to letter case are routed alike. */
  lemma CaseInsensitive(m1: string, m2: string)
    requires Lower(m1) == Lower(m2)
    ensures Chat(m1).HttpError? <==> Chat(m2).HttpError?
    ensures Chat(m1).Reply? && Classify(Lower(m1)) != Unmatched ==> Chat(m1) == Chat(m2)
  {
    RuntimesSpareLetters();
    LowerKeepsSpace(m1, PySpace);
    LowerKeepsSpace(m2, PySpace);
  }

  /**
    The fallback quotes the message as received, before lower-casing and
    stripping.
   */
  lemma EchoQuotesOriginal(message: string)
    requires !AllSpace(message, PySpace) && Classify(Lower(message)) == Unmatched
    ensures Chat(message) == Reply(EchoReply(message))
    ensures Contains(Chat(message).reply, message)
  {
    var r := EchoReply(message);
    assert Chat(message).reply == ReplyFor(Unmatched, message) == r;
    ContainsAt(r, message, |EchoPrefix|);
  }

  /** Every message that is not blank gets exactly one of the seven reply forms. */
  lemma SevenReplyForms(message: string)
    requires !AllSpace(message, PySpace)
    ensures Chat(message).Reply?
    ensures Chat(message).reply in [CreateReply, ListReply, DeleteReply, UpdateReply, HelpReply, GreetingReply, EchoReply(message)]
  {
  }
}
