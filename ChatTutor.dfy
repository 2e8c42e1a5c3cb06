/**
 * The chat tutor (src/app/ai-chatbot/components/chat-interface.tsx).
 *
 * Two pieces of client state live here. `MiniQuiz` records one chosen option
 * per question of a learning pack's quiz, gates the submit button on how many
 * questions have an answer, and marks each question correct or not.
 * `ChatLog` is the append-only conversation: a send is refused for blank input
 * or while a request is in flight; otherwise the user's message is appended,
 * and when the request settles exactly one assistant message follows. The
 * request itself is an opaque success-or-failure input.
 */
module ChatTutor {
  import ChatbotTypes

  type QuizQuestion = ChatbotTypes.QuizQuestion

  // ---------------------------------------------------------------------------
  // The mini quiz.
  // ---------------------------------------------------------------------------

  /** A question is correct when its recorded answer is its correct answer; an unanswered question is not. */
  predicate IsCorrect(quiz: seq<QuizQuestion>, answers: map<int, string>, i: int)
    requires 0 <= i < |quiz|
  {
    i in answers && answers[i] == quiz[i].correctAnswer
  }

  /** The integers 0 to n - 1. */
  function Indices(n: nat): (r: set<int>)
    ensures forall i :: i in r <==> 0 <= i < n
    ensures |r| == n
  {
    if n == 0 then {} else Indices(n - 1) + {n - 1}
  }

  /** Among keys drawn from the question indices, having as many keys as questions means every question is answered. */
  lemma {:induction false} EnoughKeysAnswerAll(answers: map<int, string>, n: nat)
    requires forall i :: i in answers ==> 0 <= i < n
    ensures |answers.Keys| >= n <==> forall i :: 0 <= i < n ==> i in answers
  {
    var all := Indices(n);
    assert answers.Keys <= all;
    if |answers.Keys| >= n {
      assert |all - answers.Keys| == |all| - |answers.Keys| == 0;
      assert all - answers.Keys == {};
      forall i | 0 <= i < n ensures i in answers {
        assert i in all;
      }
    } else {
      var missing := all - answers.Keys;
      assert |missing| == |all| - |answers.Keys| > 0;
      var j :| j in missing;
      assert 0 <= j < n && j !in answers;
    }
  }

  class MiniQuiz {
    const quiz: seq<QuizQuestion>
    var answers: map<int, string>
    var submitted: bool

    /** Answers are recorded only for the quiz's questions, and each is one of its question's options. */
    ghost predicate Valid()
      reads this`answers
    {
      forall i :: i in answers ==> 0 <= i < |quiz| && answers[i] in quiz[i].options
    }

    constructor (quiz: seq<QuizQuestion>)
      ensures Valid()
      ensures this.quiz == quiz && answers == map[] && !submitted
    {
      this.quiz := quiz;
      answers := map[];
      submitted := false;
    }

    /** The radio groups are enabled until the quiz is submitted. */
    predicate AnsweringEnabled()
      reads this`submitted
    {
      !submitted
    }

    /** Choosing `answer` for question `i`: entry `i` is set or overwritten, every other entry is kept. */
    method ChangeAnswer(i: int, answer: string)
      requires Valid()
      requires 0 <= i < |quiz| && answer in quiz[i].options
      requires AnsweringEnabled()
      modifies this`answers
      ensures Valid()
      ensures answers == old(answers)[i := answer]
      ensures answers.Keys == old(answers.Keys) + {i}
      ensures IsCorrect(quiz, answers, i) <==> answer == quiz[i].correctAnswer
      ensures forall j :: 0 <= j < |quiz| && j != i ==> (IsCorrect(quiz, answers, j) <==> IsCorrect(quiz, old(answers), j))
    {
      answers := answers[i := answer];
    }

    /** The submit button: enabled before submission once there are at least as many answers as questions. */
    predicate SubmitEnabled()
      reads this`answers, this`submitted
    {
      !submitted && |answers.Keys| >= |quiz|
    }

    /** The submit button is enabled exactly when the quiz is not yet submitted and every question has an answer. */
    lemma SubmitEnabledMeansAllAnswered()
      requires Valid()
      ensures SubmitEnabled() <==> !submitted && forall i :: 0 <= i < |quiz| ==> i in answers
    {
      EnoughKeysAnswerAll(answers, |quiz|);
    }

    /** Submitting marks the quiz submitted for good: no later handler clears the flag. */
    method Submit()
      modifies this`submitted
      ensures submitted
      ensures !AnsweringEnabled() && !SubmitEnabled()
    {
      submitted := true;
    }

    /** A question whose correct answer is not among its options can never be marked correct. */
    lemma UnreachableCorrectAnswer(i: int)
      requires Valid()
      requires 0 <= i < |quiz|
      requires quiz[i].correctAnswer !in quiz[i].options
      ensures !IsCorrect(quiz, answers, i)
    {
    }
  }

  // ---------------------------------------------------------------------------
  // Blank input: what JavaScript's `trim` removes.
  // ---------------------------------------------------------------------------

  /** The white space and line terminators that `String.prototype.trim` strips. */
  predicate IsTrimmed(c: char) {
    || ('\U{9}' <= c <= '\U{D}') || c == ' ' || c == '\U{A0}' || c == '\U{1680}'
    || ('\U{2000}' <= c <= '\U{200A}') || c == '\U{2028}' || c == '\U{2029}'
    || c == '\U{202F}' || c == '\U{205F}' || c == '\U{3000}' || c == '\U{FEFF}'
  }

  /** `s` without its leading white space. */
  function TrimStart(s: string): (r: string)
    ensures |r| <= |s| && r == s[|s| - |r|..]
    ensures r == [] || !IsTrimmed(r[0])
    ensures forall k :: 0 <= k < |s| - |r| ==> IsTrimmed(s[k])
  {
    if s != [] && IsTrimmed(s[0]) then TrimStart(s[1..]) else s
  }

  /** `s` without its trailing white space. */
  function TrimEnd(s: string): (r: string)
    ensures |r| <= |s| && r == s[..|r|]
    ensures r == [] || !IsTrimmed(r[|r| - 1])
    ensures forall k :: |r| <= k < |s| ==> IsTrimmed(s[k])
  {
    if s != [] && IsTrimmed(s[|s| - 1]) then TrimEnd(s[..|s| - 1]) else s
  }

  function Trim(s: string): string {
    TrimEnd(TrimStart(s))
  }

  /** Trimming leaves nothing exactly when every character is white space. */
  lemma TrimEmptyIffBlank(s: string)
    ensures Trim(s) == [] <==> forall k :: 0 <= k < |s| ==> IsTrimmed(s[k])
  {
    var t := TrimStart(s);
    if Trim(s) == [] {
      forall k | 0 <= k < |s| ensures IsTrimmed(s[k]) {
        if k >= |s| - |t| {
          assert s[k] == t[k - (|s| - |t|)];
        }
      }
    } else {
      var r := Trim(s);
      assert !IsTrimmed(r[0]);
      assert r[0] == t[0] == s[|s| - |t|];
    }
  }

  /** What a send button guards on: the input is blank when trimming leaves nothing. */
  predicate Blank(s: string) {
    Trim(s) == []
  }

  // ---------------------------------------------------------------------------
  // The message log.
  // ---------------------------------------------------------------------------

  datatype Role = User | Assistant

  /** A message's content: text, or the learning pack of a successful request. */
  datatype Content = Text(text: string) | Pack(pack: ChatbotTypes.LearningPack)

  datatype Message = Message(id: string, role: Role, content: Content)

  /** How the request for a reply settled: the generated pack, or an error text. */
  datatype ActionResult = Success(response: ChatbotTypes.LearningPack) | Failure(error: string)

  /** The assistant's message for a settled request. */
  function ReplyMessage(id: string, result: ActionResult): (m: Message)
    ensures m.role == Assistant && m.id == id
    ensures result.Success? ==> m.content == Pack(result.response)
    ensures result.Failure? ==> m.content == Text(result.error)
  {
    Message(id, Assistant, if result.Success? then Pack(result.response) else Text(result.error))
  }

  /**
   * What an assistant message shows: a learning pack is the response of a
   * successful request, a text the error of a failed one.
   */
  function ReplyOutcome(m: Message): ActionResult {
    match m.content
    case Pack(pack) => Success(pack)
    case Text(text) => Failure(text)
  }

  /** The reply records its request's outcome: the outcome can be read back from it, so different outcomes give different replies. */
  lemma ReplyMessageRoundTrip(id: string, result: ActionResult, result': ActionResult)
    ensures ReplyOutcome(ReplyMessage(id, result)) == result
    ensures ReplyMessage(id, result) == ReplyMessage(id, result') ==> result == result'
  {
    if ReplyMessage(id, result) == ReplyMessage(id, result') {
      assert ReplyOutcome(ReplyMessage(id, result)) == ReplyOutcome(ReplyMessage(id, result'));
    }
  }

  /** Every user message in `messages` is text that is not blank. */
  predicate UserMessagesNonBlank(messages: seq<Message>) {
    forall k :: 0 <= k < |messages| && messages[k].role == User ==>
      messages[k].content.Text? && !Blank(messages[k].content.text)
  }

  class ChatLog {
    var messages: seq<Message>
    var inputValue: string
    var isLoading: bool

    ghost predicate Valid()
      reads this`messages
    {
      UserMessagesNonBlank(messages)
    }

    constructor ()
      ensures Valid()
      ensures messages == [] && inputValue == "" && !isLoading
    {
      messages := [];
      inputValue := "";
      isLoading := false;
    }

    /** Typing in the input box. */
    method SetInput(value: string)
      modifies this`inputValue
      ensures inputValue == value
    {
      inputValue := value;
    }

    /** The send button is enabled when no request is in flight and the input is not blank. */
    predicate SendEnabled()
      reads this`isLoading, this`inputValue
    {
      !isLoading && !Blank(inputValue)
    }

    /**
     * The first half of a send: refused for blank content or while a request
     * is in flight; otherwise the user's message is appended, loading starts
     * and the input box is cleared.
     */
    method SendMessage(content: string, id: string) returns (sent: bool)
      requires Valid()
      modifies this`messages, this`inputValue, this`isLoading
      ensures Valid()
      ensures sent <==> !Blank(content) && !old(isLoading)
      ensures !sent ==> messages == old(messages) && inputValue == old(inputValue) && isLoading == old(isLoading)
      ensures sent ==> messages == old(messages) + [Message(id, User, Text(content))] && isLoading && inputValue == ""
    {
      if Blank(content) || isLoading {
        return false;
      }
      messages := messages + [Message(id, User, Text(content))];
      isLoading := true;
      inputValue := "";
      sent := true;
    }

    /** The second half of a send: the request settled, one assistant message is appended and loading ends. */
    method ReceiveReply(result: ActionResult, id: string)
      requires Valid()
      modifies this`messages, this`isLoading
      ensures Valid()
      ensures messages == old(messages) + [ReplyMessage(id, result)]
      ensures !isLoading
    {
      messages := messages + [ReplyMessage(id, result)];
      isLoading := false;
    }

    /** A whole send with nothing in between: the user's message and then exactly one reply. */
    method Send(content: string, userId: string, replyId: string, result: ActionResult) returns (sent: bool)
      requires Valid()
      modifies this`messages, this`inputValue, this`isLoading
      ensures Valid()
      ensures sent <==> !Blank(content) && !old(isLoading)
      ensures !sent ==> messages == old(messages) && inputValue == old(inputValue) && isLoading == old(isLoading)
      ensures sent ==> messages == old(messages) + [Message(userId, User, Text(content)), ReplyMessage(replyId, result)]
      ensures sent ==> !isLoading && inputValue == ""
      ensures |messages| - |old(messages)| == if sent then 2 else 0
    {
      sent := SendMessage(content, userId);
      if sent {
        ReceiveReply(result, replyId);
      }
    }

    /** Submitting the form sends the current input. */
    method SubmitForm(userId: string, replyId: string, result: ActionResult) returns (sent: bool)
      requires Valid()
      modifies this`messages, this`inputValue, this`isLoading
      ensures Valid()
      ensures sent <==> old(SendEnabled())
      ensures sent ==> messages == old(messages) + [Message(userId, User, Text(old(inputValue))), ReplyMessage(replyId, result)]
      ensures sent ==> !isLoading && inputValue == ""
      ensures !sent ==> messages == old(messages) && inputValue == old(inputValue) && isLoading == old(isLoading)
    {
      sent := Send(inputValue, userId, replyId, result);
    }

    /** "Clear": the log is emptied. */
    method ClearChat()
      modifies this`messages
      ensures Valid()
      ensures messages == []
    {
      messages := [];
    }

    /** "New Chat": also only empties the log. */
    method NewChat()
      modifies this`messages
      ensures Valid()
      ensures messages == []
    {
      messages := [];
    }
  }
}
