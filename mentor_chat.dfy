/**
 * The mentor chat panel (`MentorChat.tsx`): a log of user and model messages
 * opened by a greeting, an input box, and one chat request at a time.
 */
module MentorChat {
  import opened Wrappers
  import Text

  datatype Role = UserRole | Model

  datatype ChatMessage = ChatMessage(role: Role, parts: seq<string>)

  /** The body of one `/api/chat` request. */
  datatype ChatRequest = ChatRequest(history: seq<ChatMessage>, message: string)

  const Greeting: string :=
    "Hello! I am your AI Career Mentor. I can help you with career advice, learning resources, and more. What's on your mind?"

  const Apology: string :=
    "I'm sorry, I'm having trouble connecting to the server. Please check your connection."

  /** The role the log has at position `i`: the greeting first, then user and model in turn. */
  function RoleAt(i: nat): Role {
    if i % 2 == 0 then Model else UserRole
  }

  /** A user message of the log: the one trimmed, non-blank line the user sent. */
  predicate IsUserLine(m: ChatMessage) {
    m.role == UserRole && |m.parts| == 1 && m.parts[0] != [] && Text.IsTrimmed(m.parts[0])
  }

  /** The log starts with the greeting, alternates roles, and every user message is clean. */
  predicate WellFormedLog(log: seq<ChatMessage>) {
    && |log| >= 1
    && log[0] == ChatMessage(Model, [Greeting])
    && (forall i :: 0 <= i < |log| ==> log[i].role == RoleAt(i))
    && (forall i :: 0 <= i < |log| && log[i].role == UserRole ==> IsUserLine(log[i]))
  }

  /** The lines the user has sent, in order. */
  function UserLines(log: seq<ChatMessage>): seq<string> {
    if log == [] then []
    else
      var rest := UserLines(log[..|log| - 1]);
      var last := log[|log| - 1];
      if last.role == UserRole && |last.parts| >= 1 then rest + [last.parts[0]] else rest
  }

  /** A well-formed log with its last reply in has one user line per exchange. */
  lemma {:induction false} UserLinesCount(log: seq<ChatMessage>)
    requires WellFormedLog(log)
    ensures |UserLines(log)| == |log| / 2
  {
    if |log| > 1 {
      var p := log[..|log| - 1];
      assert forall i :: 0 <= i < |p| ==> p[i] == log[i];
      UserLinesCount(p);
      assert log[|log| - 1].role == RoleAt(|log| - 1);
    }
  }

  class MentorChatPanel {
    var messages: seq<ChatMessage>
    var input: string
    var loading: bool

    /** A request is pending exactly while the log ends with the user's message. */
    ghost predicate Valid()
      reads this
    {
      WellFormedLog(messages) && (loading <==> |messages| % 2 == 0)
    }

    constructor ()
      ensures Valid()
      ensures messages == [ChatMessage(Model, [Greeting])] && input == "" && !loading
    {
      messages := [ChatMessage(Model, [Greeting])];
      input := "";
      loading := false;
    }

    /** Typing into the input box. */
    method SetInput(text: string)
      requires Valid()
      modifies this`input
      ensures Valid()
      ensures input == text
    {
      input := text;
    }

    /**
     * `sendMessage` up to its `await`: a blank input or a pending request does
     * nothing; otherwise the trimmed input joins the log, the box is cleared and
     * the whole log is sent with it.
     */
    method SendMessage() returns (request: Option<ChatRequest>)
      requires Valid()
      modifies this`messages, this`input, this`loading
      ensures Valid()
      ensures (Text.Trim(old(input)) == [] || old(loading)) ==>
        request == None && messages == old(messages) && input == old(input) && loading == old(loading)
      ensures Text.Trim(old(input)) != [] && !old(loading) ==>
        && messages == old(messages) + [ChatMessage(UserRole, [Text.Trim(old(input))])]
        && input == "" && loading
        && request == Some(ChatRequest(messages, Text.Trim(old(input))))
      ensures UserLines(messages) ==
        if request.Some? then old(UserLines(messages)) + [Text.Trim(old(input))] else old(UserLines(messages))
    {
      var line := Text.Trim(input);
      if line == [] || loading {
        return None;
      }
      Text.TrimIdempotent(input);
      input := "";
      var before := messages;
      messages := messages + [ChatMessage(UserRole, [line])];
      assert messages[..|messages| - 1] == before;
      loading := true;
      request := Some(ChatRequest(messages, line));
    }

    /** The rest of `sendMessage`: the model's parts, or the apology on any failure. */
    method CompleteSend(reply: Reply<seq<string>>)
      requires Valid() && loading
      modifies this`messages, this`loading
      ensures Valid() && !loading
      ensures reply.Ok? ==> messages == old(messages) + [ChatMessage(Model, reply.body)]
      ensures !reply.Ok? ==> messages == old(messages) + [ChatMessage(Model, [Apology])]
      ensures UserLines(messages) == old(UserLines(messages))
    {
      var parts := if reply.Ok? then reply.body else [Apology];
      var before := messages;
      messages := messages + [ChatMessage(Model, parts)];
      assert messages[..|messages| - 1] == before;
      loading := false;
    }
  }
}
