/**
 * The mock-interview page (`interview/page.tsx`): a `setup -> chat -> feedback`
 * page machine, an append-only transcript, a speech-capture staging buffer, the
 * current style feedback, and the question/answer pairs sent for the final report.
 *
 * Each `async` handler is split at its `await`: `StartInterview`, `SendMessage`
 * and `EndInterview` run the synchronous part and return the request they send;
 * `CompleteStart`, `CompleteTurn` and `CompleteEnd` take the reply and run the rest.
 * The request in flight is the `pending` field; `loading` is "a request is pending".
 */
module Interview {
  import opened Wrappers
  import Text

  datatype Step = Setup | Chat | Feedback

  datatype Speaker = Ai | User

  datatype Message = Message(role: Speaker, content: string)

  datatype Level = High | Medium | Low | NotAvailable

  datatype StyleFeedback = StyleFeedback(clarity: Level, confidence: Level, tips: seq<string>)

  /** The end-of-session report. */
  datatype Report = Report(
    score: int,
    communicationRating: string,
    confidenceRating: string,
    improvementSuggestions: seq<string>,
    idealAnswers: seq<string>)

  /** One question with the answer given directly after it. */
  datatype QaPair = QaPair(question: string, answer: string)

  /** Body of a successful start-interview reply. */
  datatype StartReply = StartReply(message: string, question: string)

  /** Body of a successful interaction reply; an empty `message` is the absent (falsy) one. */
  datatype TurnReply = TurnReply(styleFeedback: Option<StyleFeedback>, message: string, nextQuestion: string)

  /** The request a handler has sent and is waiting for. */
  datatype Request =
    | NoRequest
    | StartRequest(role: string, focus: string, persona: string)
    | TurnRequest(role: string, history: seq<QaPair>, lastQuestion: string, userAnswer: string, persona: string)
    | FeedbackRequest(role: string, history: seq<QaPair>)

  /** A command the page gives the platform's speech recognizer. */
  datatype Capture = StartCapture | StopCapture

  // ---- the history-pair scan ----

  /**
   * The pairs `(m[i].content, m[i+1].content)`, in order of `i`, for every `i` where
   * an interviewer message is directly followed by a candidate message.
   */
  function Pairs(m: seq<Message>): seq<QaPair> {
    if |m| < 2 then []
    else
      var n := |m|;
      Pairs(m[..n - 1]) + (if m[n - 2].role == Ai && m[n - 1].role == User then [QaPair(m[n - 2].content, m[n - 1].content)] else [])
  }

  /** Whether an interviewer message at `i` is answered by a candidate message at `i + 1`. */
  predicate AnsweredAt(m: seq<Message>, i: int) {
    0 <= i < |m| - 1 && m[i].role == Ai && m[i + 1].role == User
  }

  /** The loop of `handleEndInterview` that pushes into `historyPairs`. */
  method HistoryPairs(messages: seq<Message>) returns (pairs: seq<QaPair>)
    ensures pairs == Pairs(messages)
  {
    pairs := [];
    var i := 0;
    while i < |messages| - 1
      invariant messages != [] ==> i < |messages| && pairs == Pairs(messages[..i + 1])
      invariant messages == [] ==> pairs == []
    {
      if messages[i].role == Ai && messages[i + 1].role == User {
        pairs := pairs + [QaPair(messages[i].content, messages[i + 1].content)];
      }
      assert messages[..i + 2][..i + 1] == messages[..i + 1];
      i := i + 1;
    }
    if messages != [] {
      assert messages[..|messages|] == messages;
    }
  }

  /** A pair is produced exactly when some interviewer message is answered directly by it. */
  lemma {:induction false} PairsMembership(m: seq<Message>, p: QaPair)
    ensures p in Pairs(m) <==> exists i :: AnsweredAt(m, i) && p == QaPair(m[i].content, m[i + 1].content)
  {
    if |m| >= 2 {
      var n := |m|;
      var init := m[..n - 1];
      PairsMembership(init, p);
      if p in Pairs(init) {
        var i :| AnsweredAt(init, i) && p == QaPair(init[i].content, init[i + 1].content);
        assert AnsweredAt(m, i);
      }
      if exists i :: AnsweredAt(m, i) && p == QaPair(m[i].content, m[i + 1].content) {
        var i :| AnsweredAt(m, i) && p == QaPair(m[i].content, m[i + 1].content);
        if i < n - 2 {
          assert AnsweredAt(init, i);
        }
      }
    }
  }

  /** The number of candidate messages in a transcript. */
  function UserCount(m: seq<Message>): nat {
    if m == [] then 0 else UserCount(m[..|m| - 1]) + (if m[|m| - 1].role == User then 1 else 0)
  }

  /** There are never more pairs than candidate answers. */
  lemma {:induction false} PairsAtMostAnswers(m: seq<Message>)
    ensures |Pairs(m)| <= UserCount(m)
  {
    if |m| >= 2 {
      PairsAtMostAnswers(m[..|m| - 1]);
    }
  }

  /** An interviewer message never completes a pair. */
  lemma PairsAppendAi(m: seq<Message>, text: string)
    ensures Pairs(m + [Message(Ai, text)]) == Pairs(m)
  {
    var m' := m + [Message(Ai, text)];
    assert m'[..|m'| - 1] == m;
  }

  /**
   * A candidate message pairs with the message before it when that one is the
   * interviewer's, and with nothing otherwise.
   */
  lemma PairsAppendUser(m: seq<Message>, text: string)
    ensures Pairs(m + [Message(User, text)]) ==
      if m != [] && m[|m| - 1].role == Ai then Pairs(m) + [QaPair(m[|m| - 1].content, text)] else Pairs(m)
  {
    var m' := m + [Message(User, text)];
    assert m'[..|m'| - 1] == m;
  }

  /** The transcript `[ai Q1, user A1, ai ack, ai Q2, user A2]` gives `[(Q1, A1), (Q2, A2)]`. */
  lemma PairsSkipAcknowledgement(q1: string, a1: string, ack: string, q2: string, a2: string)
    ensures Pairs([Message(Ai, q1), Message(User, a1), Message(Ai, ack), Message(Ai, q2), Message(User, a2)])
         == [QaPair(q1, a1), QaPair(q2, a2)]
  {
    var m1 := [Message(Ai, q1)];
    PairsAppendUser(m1, a1);
    var m2 := m1 + [Message(User, a1)];
    PairsAppendAi(m2, ack);
    var m3 := m2 + [Message(Ai, ack)];
    PairsAppendAi(m3, q2);
    var m4 := m3 + [Message(Ai, q2)];
    PairsAppendUser(m4, a2);
    assert m4 + [Message(User, a2)]
        == [Message(Ai, q1), Message(User, a1), Message(Ai, ack), Message(Ai, q2), Message(User, a2)];
  }

  // ---- the speech-recognition result handler ----

  /**
   * The loop of `onresult`: the transcripts of `results[resultIndex..]` (each the
   * top alternative of one result), concatenated; nothing when the index is past the end.
   */
  method JoinResults(results: seq<string>, resultIndex: nat) returns (transcript: string)
    ensures transcript == if resultIndex < |results| then Text.Concat(results[resultIndex..]) else []
  {
    transcript := [];
    var i := resultIndex;
    while i < |results|
      invariant resultIndex < |results| ==> resultIndex <= i <= |results| && transcript == Text.Concat(results[resultIndex..i])
      invariant resultIndex >= |results| ==> transcript == [] && i == resultIndex
    {
      assert results[resultIndex..i + 1][..i - resultIndex] == results[resultIndex..i];
      transcript := transcript + results[i];
      i := i + 1;
    }
    if resultIndex < |results| {
      assert results[resultIndex..i] == results[resultIndex..];
    }
  }

  /** The content of the last interviewer message, if any. */
  function LastAi(m: seq<Message>): Option<string> {
    if m == [] then None
    else if m[|m| - 1].role == Ai then Some(m[|m| - 1].content)
    else LastAi(m[..|m| - 1])
  }

  lemma LastAiOfAppendAi(m: seq<Message>, text: string)
    ensures LastAi(m + [Message(Ai, text)]) == Some(text)
  {
  }

  lemma LastAiOfAppendUser(m: seq<Message>, text: string)
    ensures LastAi(m + [Message(User, text)]) == LastAi(m)
  {
    assert (m + [Message(User, text)])[..|m|] == m;
  }

  /** The page component's state. */
  class InterviewPage {
    var step: Step
    var pending: Request
    var role: string
    var focus: string
    var persona: string
    var messages: seq<Message>
    var currentInput: string
    var lastQuestion: string
    var isListening: bool
    var currentStyleFeedback: Option<StyleFeedback>
    var feedback: Option<Report>
    /** Whether the browser offers a speech recognizer (`recognitionRef.current` is set). */
    const speechSupported: bool
    /** The commands given to the recognizer so far, oldest first. */
    var captureLog: seq<Capture>

    /**
     * The page's invariant: the transcript starts with an interviewer message,
     * `lastQuestion` is the content of its last interviewer message, the chat and
     * feedback steps always have a transcript, and each pending request matches the
     * step that sent it (a pending turn's answer is already the last message).
     */
    ghost predicate Valid()
      reads this
    {
      && (messages != [] ==> messages[0].role == Ai)
      && LastAi(messages) == (if messages == [] then None else Some(lastQuestion))
      && (step != Setup ==> messages != [])
      && (pending.StartRequest? ==> step == Setup)
      && (pending.TurnRequest? ==>
            && step == Chat && pending.history == [] && pending.lastQuestion == lastQuestion
            && messages[|messages| - 1] == Message(User, pending.userAnswer))
      && (pending.FeedbackRequest? ==> step == Chat && pending.history == Pairs(messages))
    }

    predicate Loading()
      reads this
    {
      !pending.NoRequest?
    }

    constructor (speechSupported: bool)
      ensures Valid()
      ensures step == Setup && pending == NoRequest
      ensures role == "" && focus == "Technical" && persona == "Friendly"
      ensures messages == [] && currentInput == "" && lastQuestion == ""
      ensures !isListening && currentStyleFeedback == None && feedback == None
      ensures this.speechSupported == speechSupported && captureLog == []
    {
      step := Setup;
      pending := NoRequest;
      role := "";
      focus := "Technical";
      persona := "Friendly";
      messages := [];
      currentInput := "";
      lastQuestion := "";
      isListening := false;
      currentStyleFeedback := None;
      feedback := None;
      this.speechSupported := speechSupported;
      captureLog := [];
    }

    /** The setup form's inputs (target role, persona card, focus radio group). */
    method Configure(newRole: string, newFocus: string, newPersona: string)
      requires Valid()
      requires step == Setup
      modifies this
      ensures Valid()
      ensures role == newRole && focus == newFocus && persona == newPersona
      ensures step == old(step) && pending == old(pending) && messages == old(messages)
      ensures currentInput == old(currentInput) && lastQuestion == old(lastQuestion)
      ensures isListening == old(isListening) && captureLog == old(captureLog)
      ensures currentStyleFeedback == old(currentStyleFeedback) && feedback == old(feedback)
    {
      role, focus, persona := newRole, newFocus, newPersona;
    }

    /** Typing in the answer box, which is disabled while a request is pending. */
    method TypeAnswer(text: string)
      requires Valid()
      requires step == Chat && !Loading()
      modifies this`currentInput
      ensures Valid() && currentInput == text
    {
      currentInput := text;
    }

    /** The microphone button. */
    method ToggleListening()
      requires Valid()
      modifies this`isListening, this`currentInput, this`captureLog
      ensures Valid()
      ensures isListening == !old(isListening)
      ensures old(isListening) ==> currentInput == old(currentInput)
      ensures !old(isListening) ==> currentInput == ""
      ensures captureLog == old(captureLog) +
        (if !speechSupported then [] else if old(isListening) then [StopCapture] else [StartCapture])
    {
      if isListening {
        if speechSupported {
          captureLog := captureLog + [StopCapture];
        }
        isListening := false;
      } else {
        currentInput := "";
        if speechSupported {
          captureLog := captureLog + [StartCapture];
        }
        isListening := true;
      }
    }

    /**
     * A recognition result event: the staging buffer becomes the transcript of
     * `results[resultIndex..]`, whatever it held before.
     */
    method OnResult(results: seq<string>, resultIndex: nat)
      requires Valid()
      modifies this`currentInput
      ensures Valid()
      ensures currentInput == if resultIndex < |results| then Text.Concat(results[resultIndex..]) else []
    {
      var transcript := JoinResults(results, resultIndex);
      currentInput := transcript;
    }

    /** A recognition error event; the result says whether the permission notice is shown. */
    method OnError(error: string) returns (permissionNotice: bool)
      requires Valid()
      modifies this`isListening
      ensures Valid() && !isListening
      ensures permissionNotice == (error == "not-allowed")
    {
      isListening := false;
      permissionNotice := error == "not-allowed";
    }

    /** The recognizer's end-of-stream event. */
    method OnEnd()
      requires Valid()
      modifies this`isListening
      ensures Valid() && !isListening
    {
      isListening := false;
    }

    /** `handleStartInterview` up to its `await`: nothing happens without a role. */
    method StartInterview() returns (request: Request)
      requires Valid()
      requires step == Setup && !Loading()
      modifies this`pending
      ensures Valid()
      ensures role == "" ==> request == NoRequest && pending == NoRequest
      ensures role != "" ==> request == StartRequest(role, focus, persona) && pending == request
    {
      if role == "" {
        return NoRequest;
      }
      request := StartRequest(role, focus, persona);
      pending := request;
    }

    /**
     * The rest of `handleStartInterview`: on success the transcript becomes the opening
     * message and the question, and the page moves to the chat; on failure nothing but
     * `loading` changes.
     */
    method CompleteStart(reply: Reply<StartReply>)
      requires Valid()
      requires pending.StartRequest?
      modifies this`messages, this`lastQuestion, this`step, this`pending
      ensures Valid() && pending == NoRequest
      ensures reply.Ok? ==>
        && messages == [Message(Ai, reply.body.message), Message(Ai, reply.body.question)]
        && lastQuestion == reply.body.question && step == Chat
      ensures !reply.Ok? ==>
        messages == old(messages) && lastQuestion == old(lastQuestion) && step == old(step)
    {
      if reply.Ok? {
        messages := [Message(Ai, reply.body.message), Message(Ai, reply.body.question)];
        lastQuestion := reply.body.question;
        step := Chat;
      }
      pending := NoRequest;
    }

    /**
     * `handleSendMessage` up to its `await`: a blank answer is ignored; otherwise the
     * box is cleared, the recognizer is told to stop if listening, and the answer is
     * appended to the transcript before the request is sent. An answer given directly
     * after a question adds the pair `(lastQuestion, answer)` to the transcript's pairs.
     */
    method SendMessage() returns (request: Request)
      requires Valid()
      requires step == Chat && !Loading()
      modifies this`currentInput, this`captureLog, this`messages, this`pending
      ensures Valid()
      ensures Text.Trim(old(currentInput)) == [] ==>
        && request == NoRequest && pending == NoRequest
        && currentInput == old(currentInput) && messages == old(messages) && captureLog == old(captureLog)
      ensures Text.Trim(old(currentInput)) != [] ==>
        && request == TurnRequest(role, [], lastQuestion, old(currentInput), persona) && pending == request
        && currentInput == ""
        && messages == old(messages) + [Message(User, old(currentInput))]
        && captureLog == old(captureLog) + (if isListening && speechSupported then [StopCapture] else [])
      ensures Pairs(messages) == Pairs(old(messages)) +
        (if messages != old(messages) && old(messages)[|old(messages)| - 1].role == Ai
         then [QaPair(lastQuestion, old(currentInput))] else [])
    {
      if Text.Trim(currentInput) == [] {
        return NoRequest;
      }
      var userMsg := currentInput;
      currentInput := "";
      if isListening && speechSupported {
        captureLog := captureLog + [StopCapture];
      }
      LastAiOfAppendUser(messages, userMsg);
      PairsAppendUser(messages, userMsg);
      messages := messages + [Message(User, userMsg)];
      request := TurnRequest(role, [], lastQuestion, userMsg, persona);
      pending := request;
    }

    /**
     * The rest of `handleSendMessage`: on success the style feedback is replaced only
     * when the reply carries one, the acknowledgement (when present) and then the next
     * question are appended, and the next question becomes `lastQuestion`; on failure the
     * transcript keeps the answer already appended. The pairs never change here.
     */
    method CompleteTurn(reply: Reply<TurnReply>)
      requires Valid()
      requires pending.TurnRequest?
      modifies this`currentStyleFeedback, this`messages, this`lastQuestion, this`pending
      ensures Valid() && pending == NoRequest
      ensures reply.Ok? ==>
        && currentStyleFeedback == (if reply.body.styleFeedback.Some? then reply.body.styleFeedback else old(currentStyleFeedback))
        && messages == old(messages) + (if reply.body.message != [] then [Message(Ai, reply.body.message)] else [])
                                     + [Message(Ai, reply.body.nextQuestion)]
        && lastQuestion == reply.body.nextQuestion
      ensures !reply.Ok? ==>
        && currentStyleFeedback == old(currentStyleFeedback)
        && messages == old(messages) && lastQuestion == old(lastQuestion)
      ensures Pairs(messages) == Pairs(old(messages))
    {
      if reply.Ok? {
        var data := reply.body;
        if data.styleFeedback.Some? {
          currentStyleFeedback := data.styleFeedback;
        }
        if data.message != [] {
          PairsAppendAi(messages, data.message);
          messages := messages + [Message(Ai, data.message)];
        }
        PairsAppendAi(messages, data.nextQuestion);
        LastAiOfAppendAi(messages, data.nextQuestion);
        messages := messages + [Message(Ai, data.nextQuestion)];
        lastQuestion := data.nextQuestion;
      }
      pending := NoRequest;
    }

    /** `handleEndInterview` up to its `await`: the request carries the transcript's pairs. */
    method EndInterview() returns (request: Request)
      requires Valid()
      requires step == Chat && !Loading()
      modifies this`pending
      ensures Valid()
      ensures request == FeedbackRequest(role, Pairs(messages)) && pending == request
    {
      var historyPairs := HistoryPairs(messages);
      request := FeedbackRequest(role, historyPairs);
      pending := request;
    }

    /**
     * The rest of `handleEndInterview`: only a successful reply stores the report and
     * moves to the feedback step; the transcript is never touched.
     */
    method CompleteEnd(reply: Reply<Report>)
      requires Valid()
      requires pending.FeedbackRequest?
      modifies this`feedback, this`step, this`pending
      ensures Valid() && pending == NoRequest
      ensures reply.Ok? ==> feedback == Some(reply.body) && step == Feedback
      ensures !reply.Ok? ==> feedback == old(feedback) && step == old(step)
    {
      if reply.Ok? {
        feedback := Some(reply.body);
        step := Feedback;
      }
      pending := NoRequest;
    }

    /** The restart button on the report: it only goes back to the setup step. */
    method Restart()
      requires Valid()
      requires step == Feedback
      modifies this`step
      ensures Valid() && step == Setup
    {
      step := Setup;
    }
  }
}
