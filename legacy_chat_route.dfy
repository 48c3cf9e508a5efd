/**
  The older keyword reply dispatcher behind `POST /api/chat` in
  backend/src/routes/chat.py: the message is lower-cased (not stripped, and
  not checked for emptiness), four keyword groups are tried in order as
  substrings, and anything else is echoed back.
 */
module LegacyChatRoute {
  import opened Text

  /** The branches of the older dispatcher; it has no update and no greeting branch. */
  datatype Topic = Create | Listing | Deletion | Help | Unmatched

  /** Position of a branch in the if/elif chain; lower ranks are tried first. */
  function Rank(t: Topic): nat {
    match t
    case Create => 0
    case Listing => 1
    case Deletion => 2
    case Help => 3
    case Unmatched => 4
  }

  /**
    The keywords that select each branch; only the fallback has none. No
    keyword starts or ends with whitespace.
   */
  function Keywords(t: Topic): (ks: seq<string>)
    ensures ks == [] <==> t == Unmatched
    ensures forall w | w in ks :: Solid(w, PySpace)
  {
    match t
    case Create => ["create", "add"]
    case Listing => ["list", "show"]
    case Deletion => ["delete", "remove"]
    case Help => ["help"]
    case Unmatched => []
  }

  const CreateReply := "Task creation feature coming soon! For now, use the manual form."
  const ListReply := "Here are your tasks. Use the Tasks tab to view them all."
  const DeleteReply := "You can delete tasks using the delete button on each task."
  const HelpReply := "I can help you with: create, list, update, or delete tasks. Try saying 'create a task' or 'show my tasks'."

  const EchoPrefix := "You said: "
  const EchoSuffix := ". I'm learning - tell me more about what you need!"

  /** The fallback reply embeds the message exactly as it was received. */
  function EchoReply(message: string): (r: string)
    ensures |r| == |EchoPrefix| + |message| + |EchoSuffix|
    ensures r[..|EchoPrefix|] == EchoPrefix && r[|EchoPrefix|..|EchoPrefix| + |message|] == message
  {
    EchoPrefix + message + EchoSuffix
  }

  /**
    The reply of each branch: a fixed text for every keyword branch, which
    does not depend on the message, and the echo for the fallback.
   */
  function ReplyFor(t: Topic, message: string): (r: string)
    ensures t == Unmatched ==> r == EchoReply(message)
    ensures t != Unmatched ==> r in [CreateReply, ListReply, DeleteReply, HelpReply]
  {
    match t
    case Create => CreateReply
    case Listing => ListReply
    case Deletion => DeleteReply
    case Help => HelpReply
    case Unmatched => EchoReply(message)
  }

  /**
    The if/elif chain of `"word" in message` tests. The chosen branch is the
    first, in rank order, one of whose keywords occurs in `message`.
   */
  function Classify(message: string): (t: Topic)
    ensures t != Unmatched ==> ContainsAny(message, Keywords(t))
    ensures forall u :: Rank(u) < Rank(t) ==> !ContainsAny(message, Keywords(u))
  {
    if Contains(message, "create") || Contains(message, "add") then Create
    else if Contains(message, "list") || Contains(message, "show") then Listing
    else if Contains(message, "delete") || Contains(message, "remove") then Deletion
    else if Contains(message, "help") then Help
    else Unmatched
  }

  /** The endpoint: every message, blank or not, gets a reply. */
  function Chat(message: string): (reply: string)
    ensures Classify(Lower(message)) != Unmatched ==> reply in [CreateReply, ListReply, DeleteReply, HelpReply]
    ensures Classify(Lower(message)) == Unmatched ==> reply == EchoReply(message)
  {
    var lowered := Lower(message);
    ReplyFor(Classify(lowered), message)
  }

  /** The branch specification determines the branch: there is only one first hit. */
  lemma ClassifyUnique(message: string, t: Topic)
    requires t != Unmatched ==> ContainsAny(message, Keywords(t))
    requires forall u :: Rank(u) < Rank(t) ==> !ContainsAny(message, Keywords(u))
    ensures Classify(message) == t
  {
    var c := Classify(message);
    if Rank(c) < Rank(t) {
      assert false;
    } else if Rank(t) < Rank(c) {
      assert false;
    }
  }

  /**
    Keywords match anywhere inside the lower-cased message: one containing a
    keyword of branch `t`, and no keyword of an earlier branch, gets the reply
    of `t`.
   */
  lemma KeywordSelects(message: string, t: Topic, w: string)
    requires w in Keywords(t)
    requires Contains(Lower(message), w)
    requires forall u :: Rank(u) < Rank(t) ==> !ContainsAny(Lower(message), Keywords(u))
    ensures Chat(message) == ReplyFor(t, message)
  {
    ClassifyUnique(Lower(message), t);
  }

  /**
    There is no emptiness check: an empty or whitespace-only message is
    echoed back.
   */
  lemma BlankIsEchoed(message: string)
    requires AllSpace(message, PySpace)
    ensures Chat(message) == EchoReply(message)
  {
    var lowered := Lower(message);
    RuntimesSpareLetters();
    LowerKeepsSpace(message, PySpace);
    forall u: Topic | u != Unmatched ensures !ContainsAny(lowered, Keywords(u)) {
      forall w | w in Keywords(u) ensures !Contains(lowered, w) {
        NoWordInBlank(lowered, w, PySpace);
      }
    }
    ClassifyUnique(lowered, Unmatched);
  }

  /** Matching is case-insensitive: messages equal up to letter case get the same branch. */
  lemma CaseInsensitive(m1: string, m2: string)
    requires Lower(m1) == Lower(m2)
    ensures Classify(Lower(m1)) == Classify(Lower(m2))
    ensures Classify(Lower(m1)) != Unmatched ==> Chat(m1) == Chat(m2)
  {
  }
}
