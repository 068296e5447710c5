/**
 * The student chat panel's state (`AiAssistant`): the transcript, the input box,
 * the two loading flags and the error line, and the handlers that change them.
 *
 * A handler that awaits the assistant is one sequential step here: it is given
 * the `AskOutcome` that the awaited call produced, and returns the question it
 * asked, if any.
 */
module ChatAssistant {
  import opened Wrappers
  import opened JsText

  datatype Sender = UserSender | AiSender

  /** A transcript entry; its timestamp is display-only and left out. */
  datatype Message = Message(id: int, sender: Sender, content: string)

  /** What awaiting `askAIAssistant` produced: its `response` text, or a rejection. */
  datatype AskOutcome = Answered(response: string) | AskFailed

  const WelcomeText: string := "Hello! I'm Cosmos AI, your educational assistant. I can help with:\n\n• General information about academic subjects\n• Study tips and guidance\n• Explaining basic concepts\n• Suggesting learning resources\n• Answering questions about your courses\n\nHow can I assist your learning journey today?"

  const ReplyErrorText: string := "Sorry, I couldn't generate a response. Please try again."

  /** The assistant's welcome message, always numbered 1. */
  function Welcome(): (m: Message)
    ensures m.id == 1 && m.sender == AiSender
  {
    Message(1, AiSender, WelcomeText)
  }

  /** The numbering the panel aims for: each message's id is its 1-based position. */
  ghost predicate IdsArePositions(ms: seq<Message>) {
    forall i :: 0 <= i < |ms| ==> ms[i].id == i + 1
  }

  /** `k` is the position of the last message the user sent. */
  ghost predicate IsLastUserMessage(ms: seq<Message>, k: int) {
    0 <= k < |ms| && ms[k].sender == UserSender
    && forall j :: k < j < |ms| ==> ms[j].sender != UserSender
  }

  /**
   * `[...ms].reverse().findIndex(m => m.sender === "user")`: -1 when the user has
   * sent nothing, otherwise the distance of the last user message from the end.
   */
  method FindLastUserFromEnd(ms: seq<Message>) returns (r: int)
    ensures -1 <= r < |ms|
    ensures r == -1 <==> forall j :: 0 <= j < |ms| ==> ms[j].sender != UserSender
    ensures r >= 0 ==> IsLastUserMessage(ms, |ms| - 1 - r)
  {
    var i := 0;
    while i < |ms|
      invariant 0 <= i <= |ms|
      invariant forall j :: |ms| - i <= j < |ms| ==> ms[j].sender != UserSender
    {
      if ms[|ms| - 1 - i].sender == UserSender {
        return i;
      }
      i := i + 1;
    }
    return -1;
  }

  /** The transcript without its final message when the assistant sent that one; otherwise unchanged. */
  function WithoutTrailingAnswer(ms: seq<Message>): (kept: seq<Message>)
    ensures |ms| - 1 <= |kept| <= |ms| && kept == ms[..|kept|]
    ensures kept != ms <==> ms != [] && ms[|ms| - 1].sender == AiSender
  {
    if ms != [] && ms[|ms| - 1].sender == AiSender then ms[..|ms| - 1] else ms
  }

  class AiAssistant {
    var messages: seq<Message>
    var inputValue: string
    var isLoading: bool
    var isResponseLoading: bool
    var error: Option<string>

    /** The state on mount: nothing loaded yet. */
    constructor ()
      ensures messages == [] && inputValue == "" && isLoading && !isResponseLoading && error == None
    {
      messages := [];
      inputValue := "";
      isLoading := true;
      isResponseLoading := false;
      error := None;
    }

    /** The mount effect: the transcript becomes the single welcome message. */
    method LoadInitialMessages()
      modifies this
      ensures messages == [Welcome()] && !isLoading
      ensures IdsArePositions(messages)
      ensures inputValue == old(inputValue) && isResponseLoading == old(isResponseLoading) && error == old(error)
    {
      isLoading := true;
      messages := [Welcome()];
      isLoading := false;
    }

    /** `handleInputChange` / `handleTextareaChange`: the box holds what was typed. */
    method ChangeInput(value: string)
      modifies this
      ensures inputValue == value
      ensures messages == old(messages) && isLoading == old(isLoading)
      ensures isResponseLoading == old(isResponseLoading) && error == old(error)
    {
      inputValue := value;
    }

    /**
     * `handleSendMessage`. Blank input (after trimming) changes nothing. Otherwise
     * the raw input is appended as a user message numbered after the transcript,
     * the box is cleared, and the answer, if one came, follows numbered one higher;
     * a rejection adds no message and sets the error line.
     */
    method HandleSendMessage(reply: AskOutcome) returns (asked: Option<string>)
      modifies this
      ensures IsBlank(old(inputValue)) ==>
        asked == None && messages == old(messages) && inputValue == old(inputValue)
        && isResponseLoading == old(isResponseLoading) && error == old(error)
      ensures !IsBlank(old(inputValue)) ==> asked == Some(old(inputValue)) && inputValue == "" && !isResponseLoading
      ensures !IsBlank(old(inputValue)) && reply.Answered? ==>
        messages == old(messages) + [Message(|old(messages)| + 1, UserSender, old(inputValue)),
                                     Message(|old(messages)| + 2, AiSender, reply.response)]
        && error == None
      ensures !IsBlank(old(inputValue)) && reply.AskFailed? ==>
        messages == old(messages) + [Message(|old(messages)| + 1, UserSender, old(inputValue))]
        && error == Some(ReplyErrorText)
      ensures isLoading == old(isLoading)
      ensures IdsArePositions(old(messages)) ==> IdsArePositions(messages)
    {
      if IsBlank(inputValue) {
        return None;
      }
      var sent := inputValue;
      var before := messages;
      var question := Message(|before| + 1, UserSender, sent);
      inputValue := "";
      isResponseLoading := true;
      error := None;
      asked := Some(sent);
      match reply
      case Answered(text) =>
        var answer := Message(|before| + 2, AiSender, text);
        NumberingOfAppendTwo(before, question, answer);
        messages := before + [question, answer];
        isResponseLoading := false;
      case AskFailed =>
        NumberingOfAppend(before, question);
        messages := before + [question];
        error := Some(ReplyErrorText);
        isResponseLoading := false;
    }

    /** `handleKeyDown`: Ctrl+Enter or Cmd+Enter sends; any other key does nothing. */
    method HandleKeyDown(ctrlKey: bool, metaKey: bool, key: string, reply: AskOutcome) returns (asked: Option<string>)
      modifies this
      ensures !((ctrlKey || metaKey) && key == "Enter") ==>
        asked == None && messages == old(messages) && inputValue == old(inputValue)
        && isResponseLoading == old(isResponseLoading) && error == old(error)
      ensures asked.Some? ==> (ctrlKey || metaKey) && key == "Enter" && asked == Some(old(inputValue))
      ensures (ctrlKey || metaKey) && key == "Enter" && IsBlank(old(inputValue)) ==>
        asked == None && messages == old(messages) && inputValue == old(inputValue)
        && isResponseLoading == old(isResponseLoading) && error == old(error)
      ensures (ctrlKey || metaKey) && key == "Enter" && !IsBlank(old(inputValue)) ==>
        asked == Some(old(inputValue)) && inputValue == "" && !isResponseLoading
      ensures (ctrlKey || metaKey) && key == "Enter" && !IsBlank(old(inputValue)) && reply.Answered? ==>
        messages == old(messages) + [Message(|old(messages)| + 1, UserSender, old(inputValue)),
                                     Message(|old(messages)| + 2, AiSender, reply.response)]
        && error == None
      ensures (ctrlKey || metaKey) && key == "Enter" && !IsBlank(old(inputValue)) && reply.AskFailed? ==>
        messages == old(messages) + [Message(|old(messages)| + 1, UserSender, old(inputValue))]
        && error == Some(ReplyErrorText)
      ensures isLoading == old(isLoading)
      ensures IdsArePositions(old(messages)) ==> IdsArePositions(messages)
    {
      asked := None;
      if (ctrlKey || metaKey) && key == "Enter" {
        asked := HandleSendMessage(reply);
      }
    }

    /**
     * `handleRetry`, as written. Nothing happens with fewer than two messages or
     * with no user message. Otherwise the final message is dropped, whoever sent
     * it; the last user message is asked again; and an answer is appended
     * numbered one past the transcript's length before the drop.
     */
    method HandleRetry(reply: AskOutcome) returns (asked: Option<string>)
      modifies this
      ensures |old(messages)| < 2 || (forall j :: 0 <= j < |old(messages)| ==> old(messages)[j].sender != UserSender) ==>
        asked == None && messages == old(messages) && isResponseLoading == old(isResponseLoading) && error == old(error)
      ensures |old(messages)| >= 2 && (exists j :: 0 <= j < |old(messages)| && old(messages)[j].sender == UserSender) ==> asked.Some?
      ensures asked.Some? ==> |old(messages)| >= 2 && exists k :: IsLastUserMessage(old(messages), k) && asked.value == old(messages)[k].content
      ensures asked.Some? ==> !isResponseLoading
      ensures asked.Some? && reply.Answered? ==>
        messages == old(messages)[..|old(messages)| - 1] + [Message(|old(messages)| + 1, AiSender, reply.response)] && error == None
      ensures asked.Some? && reply.AskFailed? ==>
        messages == old(messages)[..|old(messages)| - 1] && error == Some(ReplyErrorText)
      ensures inputValue == old(inputValue) && isLoading == old(isLoading)
    {
      if |messages| < 2 {
        return None;
      }
      var fromEnd := FindLastUserFromEnd(messages);
      if fromEnd == -1 {
        return None;
      }
      var before := messages;
      var k := |before| - fromEnd - 1;
      var question := before[k];
      assert IsLastUserMessage(before, k) && question.content == before[k].content;
      messages := before[..|before| - 1];
      isResponseLoading := true;
      error := None;
      asked := Some(question.content);
      match reply
      case Answered(text) =>
        messages := before[..|before| - 1] + [Message(|before| + 1, AiSender, text)];
        isResponseLoading := false;
      case AskFailed =>
        error := Some(ReplyErrorText);
        isResponseLoading := false;
    }

    /**
     * Retry as its comment describes it ("remove the last AI response"): only a
     * trailing assistant message is dropped, the user's question stays, and the
     * new answer is numbered after what is kept.
     */
    method RetryKeepingQuestion(reply: AskOutcome) returns (asked: Option<string>)
      modifies this
      ensures |old(messages)| < 2 || (forall j :: 0 <= j < |old(messages)| ==> old(messages)[j].sender != UserSender) ==>
        asked == None && messages == old(messages) && isResponseLoading == old(isResponseLoading) && error == old(error)
      ensures |old(messages)| >= 2 && (exists j :: 0 <= j < |old(messages)| && old(messages)[j].sender == UserSender) ==> asked.Some?
      ensures asked.Some? ==> |old(messages)| >= 2 && exists k :: IsLastUserMessage(old(messages), k) && asked.value == old(messages)[k].content
      ensures asked.Some? ==> !isResponseLoading
      ensures asked.Some? && reply.Answered? ==>
        var kept := WithoutTrailingAnswer(old(messages));
        messages == kept + [Message(|kept| + 1, AiSender, reply.response)] && error == None
      ensures asked.Some? && reply.AskFailed? ==>
        messages == WithoutTrailingAnswer(old(messages)) && error == Some(ReplyErrorText)
      ensures inputValue == old(inputValue) && isLoading == old(isLoading)
      ensures IdsArePositions(old(messages)) ==> IdsArePositions(messages)
    {
      if |messages| < 2 {
        return None;
      }
      var fromEnd := FindLastUserFromEnd(messages);
      if fromEnd == -1 {
        return None;
      }
      var before := messages;
      var k := |before| - fromEnd - 1;
      var question := before[k];
      assert IsLastUserMessage(before, k) && question.content == before[k].content;
      var kept := WithoutTrailingAnswer(before);
      NumberingOfPrefix(before, |kept|);
      messages := kept;
      isResponseLoading := true;
      error := None;
      asked := Some(question.content);
      match reply
      case Answered(text) =>
        var answer := Message(|kept| + 1, AiSender, text);
        NumberingOfAppend(kept, answer);
        messages := kept + [answer];
        isResponseLoading := false;
      case AskFailed =>
        error := Some(ReplyErrorText);
        isResponseLoading := false;
    }

    /** "Clear chat": back to the welcome message alone, with no error, whatever came before. */
    method ClearChat()
      modifies this
      ensures messages == [Welcome()] && error == None
      ensures IdsArePositions(messages)
      ensures inputValue == old(inputValue) && isLoading == old(isLoading)
      ensures isResponseLoading == old(isResponseLoading)
    {
      messages := [Welcome()];
      error := None;
    }
  }

  /**
   * After a failed send the error line, and with it the Retry button, is shown,
   * and the last message is the user's own. As written, retry then drops that
   * question and numbers the answer 3 at position 2.
   */
  method RetryAfterFailedSend() returns (transcript: seq<Message>)
    ensures transcript == [Welcome(), Message(3, AiSender, "Energy is conserved.")]
    ensures !IdsArePositions(transcript)
  {
    var panel := new AiAssistant();
    panel.LoadInitialMessages();
    panel.ChangeInput("Why?");
    assert !IsWhitespace(panel.inputValue[0]);
    var sent := panel.HandleSendMessage(AskFailed);
    var again := panel.HandleRetry(Answered("Energy is conserved."));
    transcript := panel.messages;
    assert transcript[1].id != 2;
  }

  /**
   * As written, a failed retry also drops the final message, and the error line,
   * and with it the Retry button, stays. After [welcome, Q1, A1, Q2] with Q2's
   * send failed, one failed retry leaves [welcome, Q1, A1], and the next retry
   * asks Q1 again, not Q2.
   */
  method RetryAfterFailedRetry() returns (afterFirst: seq<Message>, errorAfterFirst: Option<string>, asked: Option<string>)
    ensures afterFirst == [Welcome(), Message(2, UserSender, "Q1"), Message(3, AiSender, "A1")]
    ensures errorAfterFirst == Some(ReplyErrorText)
    ensures asked == Some("Q1")
  {
    var panel := new AiAssistant();
    panel.LoadInitialMessages();
    panel.ChangeInput("Q1");
    assert !IsWhitespace(panel.inputValue[0]);
    var first := panel.HandleSendMessage(Answered("A1"));
    panel.ChangeInput("Q2");
    assert !IsWhitespace(panel.inputValue[0]);
    var second := panel.HandleSendMessage(AskFailed);
    assert panel.messages[3].sender == UserSender;
    var retried := panel.HandleRetry(AskFailed);
    afterFirst := panel.messages;
    errorAfterFirst := panel.error;
    assert IsLastUserMessage(panel.messages, 1);
    asked := panel.HandleRetry(Answered("A2"));
  }

  /**
   * As written, a send after the broken retry numbers its message
   * `messages.length + 1`, which repeats the id of the answer before it, so two
   * messages share one list key.
   */
  method SendAfterBrokenRetry() returns (transcript: seq<Message>)
    ensures |transcript| == 4 && transcript[1].id == transcript[2].id == 3
  {
    var panel := new AiAssistant();
    panel.LoadInitialMessages();
    panel.ChangeInput("Why?");
    assert !IsWhitespace(panel.inputValue[0]);
    var sent := panel.HandleSendMessage(AskFailed);
    var again := panel.HandleRetry(Answered("Energy is conserved."));
    panel.ChangeInput("Thanks");
    assert !IsWhitespace(panel.inputValue[0]);
    var next := panel.HandleSendMessage(Answered("You are welcome."));
    transcript := panel.messages;
  }

  /** The same sequence with the corrected retry keeps the question and the numbering. */
  method RetryKeepingQuestionAfterFailedSend() returns (transcript: seq<Message>)
    ensures transcript == [Welcome(), Message(2, UserSender, "Why?"), Message(3, AiSender, "Energy is conserved.")]
    ensures IdsArePositions(transcript)
  {
    var panel := new AiAssistant();
    panel.LoadInitialMessages();
    panel.ChangeInput("Why?");
    assert !IsWhitespace(panel.inputValue[0]);
    var sent := panel.HandleSendMessage(AskFailed);
    ghost var afterSend := panel.messages;
    assert afterSend[1].sender == UserSender;
    assert WithoutTrailingAnswer(afterSend) == afterSend;
    var again := panel.RetryKeepingQuestion(Answered("Energy is conserved."));
    transcript := panel.messages;
  }

  /** A prefix of a well-numbered transcript is well numbered. */
  lemma NumberingOfPrefix(ms: seq<Message>, n: nat)
    requires n <= |ms|
    ensures IdsArePositions(ms) ==> IdsArePositions(ms[..n])
  {
  }

  /** A message numbered one past the end keeps the numbering. */
  lemma NumberingOfAppend(ms: seq<Message>, m: Message)
    requires m.id == |ms| + 1
    ensures IdsArePositions(ms) ==> IdsArePositions(ms + [m])
  {
  }

  /** A question and its answer numbered one and two past the end keep the numbering. */
  lemma NumberingOfAppendTwo(ms: seq<Message>, q: Message, a: Message)
    requires q.id == |ms| + 1 && a.id == |ms| + 2
    ensures IdsArePositions(ms) ==> IdsArePositions(ms + [q, a])
  {
  }

}
