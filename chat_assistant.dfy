/**
  The chat panel of frontend/src/components/ChatAssistant.tsx: a message log,
  an input string and a `loading` flag. Sending a message is a two-step
  state machine: `Submit` appends the user's message and starts the request,
  and `Resolve` appends the one ai message the request's outcome calls for
  and clears `loading`. The network call itself is an outcome supplied by
  the caller; message ids and timestamps are parameters.
 */
module ChatSession {
  import opened Text

  datatype Option<T> = None | Some(value: T)

  datatype Sender = User | Ai

  datatype Message = Message(id: string, text: string, sender: Sender, timestamp: string)

  /** What `fetch` and `response.json()` came back with. */
  datatype FetchOutcome =
    | Answered(reply: Option<string>)  // `response.ok`; the body's `reply` field, if any
    | HttpFailure                      // `!response.ok`
    | Thrown                           // the request or the body parsing threw

  const FallbackReply := "Sorry, I couldn't process that."
  const ConnectionError := "Error connecting to AI. Please make sure the backend is running."

  /**
    The text of the ai message a resolved request appends: a non-empty
    reply as it came, the fallback when the reply is missing or empty, and
    the connection error when the response was not ok or anything threw.
   */
  function AiText(outcome: FetchOutcome): (text: string)
    ensures text != []
    ensures outcome.Answered? && outcome.reply.Some? && outcome.reply.value != [] ==> text == outcome.reply.value
    ensures outcome.Answered? && (outcome.reply.None? || outcome.reply.value == []) ==> text == FallbackReply
    ensures !outcome.Answered? ==> text == ConnectionError
  {
    match outcome
    case Answered(reply) =>
      if reply.Some? && reply.value != [] then reply.value else FallbackReply
    case HttpFailure | Thrown => ConnectionError
  }

  /**
    A log of completed exchanges: user and ai messages alternate, starting
    with a user message and ending with an ai message.
   */
  ghost predicate Exchanges(log: seq<Message>) {
    if log == [] then true
    else |log| >= 2 && log[0].sender == User && log[1].sender == Ai && Exchanges(log[2..])
  }

  /** A log of completed exchanges followed by one user message still waiting for its answer. */
  ghost predicate AwaitingAnswer(log: seq<Message>) {
    log != [] && log[|log| - 1].sender == User && Exchanges(log[..|log| - 1])
  }

  /** Appending a user message and then its answer to completed exchanges gives completed exchanges. */
  lemma {:induction false} ExchangesAppend(log: seq<Message>, question: Message, answer: Message)
    requires Exchanges(log) && question.sender == User && answer.sender == Ai
    ensures Exchanges(log + [question, answer])
  {
    if log != [] {
      assert (log + [question, answer])[2..] == log[2..] + [question, answer];
      ExchangesAppend(log[2..], question, answer);
    }
  }

  /** A completed log has even length: every user message got exactly one answer. */
  lemma {:induction false} ExchangesEven(log: seq<Message>)
    requires Exchanges(log)
    ensures |log| % 2 == 0
  {
    if log != [] {
      ExchangesEven(log[2..]);
    }
  }

  /** The component's state. */
  class ChatAssistant {
    var messages: seq<Message>
    var input: string
    var loading: bool
    /** Requests sent and not yet resolved; bookkeeping of the model, not a field of the component. */
    ghost var pending: nat

    /** An empty log, an empty input, not loading. */
    constructor ()
      ensures messages == [] && input == "" && !loading && pending == 0
      ensures Exchanges(messages)
    {
      messages := [];
      input := "";
      loading := false;
      pending := 0;
    }

    /** The send button is enabled only while not loading and when the input is not blank. */
    predicate SendEnabled()
      reads this
      ensures SendEnabled() <==> !loading && !AllSpace(input, JsSpace)
    {
      !loading && !IsBlank(input, JsSpace)
    }

    /** The text field's change handler. */
    method SetInput(text: string)
      modifies this
      ensures input == text
      ensures messages == old(messages) && loading == old(loading) && pending == old(pending)
    {
      input := text;
    }

    /**
      The part of `handleSendMessage` before the request: a blank input
      changes nothing; otherwise the untrimmed input is appended as a user
      message, the input is cleared and `loading` is set. Like the handler,
      this does not look at `loading`: only the send button does.
     */
    method Submit(id: string, timestamp: string) returns (sent: bool)
      modifies this
      ensures sent <==> !AllSpace(old(input), JsSpace)
      ensures !sent ==> messages == old(messages) && input == old(input) && loading == old(loading) && pending == old(pending)
      ensures sent ==>
        && messages == old(messages) + [Message(id, old(input), User, timestamp)]
        && input == ""
        && loading
        && pending == old(pending) + 1
      ensures sent && Exchanges(old(messages)) ==> AwaitingAnswer(messages)
    {
      if IsBlank(input, JsSpace) {
        return false;
      }
      var userMessage := Message(id, input, User, timestamp);
      messages := messages + [userMessage];
      input := "";
      loading := true;
      pending := pending + 1;
      assert messages[..|messages| - 1] == old(messages);
      return true;
    }

    /**
      The part of `handleSendMessage` after the request settles: exactly one
      ai message is appended, with the text the outcome calls for, and
      `loading` is cleared on every path (the `finally` block).
     */
    method Resolve(outcome: FetchOutcome, id: string, timestamp: string)
      requires pending > 0
      modifies this
      ensures messages == old(messages) + [Message(id, AiText(outcome), Ai, timestamp)]
      ensures !loading
      ensures input == old(input) && pending == old(pending) - 1
      ensures AwaitingAnswer(old(messages)) ==> Exchanges(messages)
    {
      var aiMessage := Message(id, AiText(outcome), Ai, timestamp);
      messages := messages + [aiMessage];
      loading := false;
      pending := pending - 1;
      if AwaitingAnswer(old(messages)) {
        var before := old(messages)[..|old(messages)| - 1];
        assert old(messages) == before + [old(messages)[|old(messages)| - 1]];
        ExchangesAppend(before, old(messages)[|old(messages)| - 1], aiMessage);
        assert messages == before + [old(messages)[|old(messages)| - 1], aiMessage];
      }
    }

    /**
      A whole `handleSendMessage` call whose request settles with `outcome`:
      a blank input changes nothing; otherwise the log grows by exactly two
      messages, the user's then the ai's, the input is cleared and `loading`
      ends false.
     */
    method SendMessage(outcome: FetchOutcome, userId: string, aiId: string, sentAt: string, answeredAt: string)
      modifies this
      ensures AllSpace(old(input), JsSpace) ==>
        messages == old(messages) && input == old(input) && loading == old(loading) && pending == old(pending)
      ensures !AllSpace(old(input), JsSpace) ==>
        && messages == old(messages) + [Message(userId, old(input), User, sentAt), Message(aiId, AiText(outcome), Ai, answeredAt)]
        && input == ""
        && !loading
        && pending == old(pending)
      ensures Exchanges(old(messages)) ==> Exchanges(messages)
    {
      var sent := Submit(userId, sentAt);
      if sent {
        Resolve(outcome, aiId, answeredAt);
        if Exchanges(old(messages)) {
          ExchangesAppend(old(messages), Message(userId, old(input), User, sentAt), Message(aiId, AiText(outcome), Ai, answeredAt));
        }
      }
    }
  }
}
