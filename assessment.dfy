/**
 * The skill assessment page (`assessment/page.tsx`): a setup form, a generated
 * quiz walked one question at a time with the chosen option per question id, the
 * submission of the answers and the result screen with its score band.
 */
module Assessment {
  import opened Wrappers

  datatype Stage = Setup | QuizStep | ResultStep

  datatype Question = Question(id: nat, scenario: string, question: string, options: seq<string>)

  /** One entry of `user_answers`: a question id and the index of the option chosen. */
  datatype Answer = Answer(questionId: nat, selectedIndex: int)

  datatype Recommendation = Recommendation(title: string, kind: string)

  datatype Evaluation = Evaluation(
    score: int, summary: string, weakAreas: seq<string>, recommendations: seq<Recommendation>)

  datatype Request =
    | GenerateRequest(topic: string, difficulty: string, count: int)
    | EvaluateRequest(topic: string, userAnswers: seq<Answer>, quizContext: seq<Question>)

  /** The ids of the quiz's questions. */
  function QuestionIds(qs: seq<Question>): set<nat> {
    set i | 0 <= i < |qs| :: qs[i].id
  }

  /** The question ids an answer list mentions. */
  function AnsweredIds(r: seq<Answer>): set<nat> {
    set i | 0 <= i < |r| :: r[i].questionId
  }

  predicate IsLeast(k: nat, s: set<nat>) {
    k in s && forall j :: j in s ==> k <= j
  }

  /** A non-empty set of ids has a least element. */
  lemma {:induction false} MinExists(s: set<nat>)
    requires s != {}
    ensures exists k :: IsLeast(k, s)
    decreases |s|
  {
    var x :| x in s;
    var rest := s - {x};
    if rest == {} {
      assert s == {x};
      assert IsLeast(x, s);
    } else {
      MinExists(rest);
      var m :| IsLeast(m, rest);
      var k := if x < m then x else m;
      forall j | j in s ensures k <= j {
        if j != x {
          assert j in rest;
        }
      }
      assert IsLeast(k, s);
    }
  }

  /** The least element of a non-empty set of ids. */
  function Min(s: set<nat>): (k: nat)
    requires s != {}
    ensures k in s && forall j :: j in s ==> k <= j
  {
    MinExists(s);
    var k :| IsLeast(k, s);
    k
  }

  lemma ConsIds(a: Answer, rest: seq<Answer>)
    ensures AnsweredIds([a] + rest) == {a.questionId} + AnsweredIds(rest)
  {
    var r := [a] + rest;
    forall id | id in AnsweredIds(rest) ensures id in AnsweredIds(r) {
      var i :| 0 <= i < |rest| && rest[i].questionId == id;
      assert r[i + 1].questionId == id;
    }
    assert r[0].questionId == a.questionId;
  }

  /**
   * `Object.entries(answers).map(...)`: each answered question once, in the
   * ascending order `Object.entries` gives integer keys, with the option chosen for it.
   */
  function Entries(answers: map<nat, int>): (r: seq<Answer>)
    ensures forall i :: 0 <= i < |r| ==> r[i].questionId in answers && r[i].selectedIndex == answers[r[i].questionId]
    ensures forall i, j :: 0 <= i < j < |r| ==> r[i].questionId < r[j].questionId
    decreases |answers|
  {
    if answers == map[] then []
    else
      var k := Min(answers.Keys);
      var rest := Entries(answers - {k});
      assert |answers - {k}| == |answers| - 1 by {
        assert (answers - {k}).Keys == answers.Keys - {k};
      }
      var r := [Answer(k, answers[k])] + rest;
      assert forall i :: 0 < i < |r| ==> r[i] == rest[i - 1];
      assert forall i :: 0 <= i < |rest| ==> k < rest[i].questionId by {
        forall i | 0 <= i < |rest| ensures k < rest[i].questionId {
          assert rest[i].questionId in answers.Keys - {k};
        }
      }
      forall i | 0 <= i < |r| ensures r[i].questionId in answers && r[i].selectedIndex == answers[r[i].questionId] {
        if i > 0 {
          var id := rest[i - 1].questionId;
          assert id in answers - {k};
          assert (answers - {k})[id] == answers[id];
        }
      }
      r
  }

  /** Every answered question appears in the list. */
  lemma {:induction false} EntriesCover(answers: map<nat, int>)
    ensures AnsweredIds(Entries(answers)) == answers.Keys
    decreases |answers|
  {
    if answers != map[] {
      var k := Min(answers.Keys);
      var smaller := answers - {k};
      assert smaller.Keys == answers.Keys - {k};
      assert |smaller| == |answers| - 1;
      EntriesCover(smaller);
      ConsIds(Answer(k, answers[k]), Entries(smaller));
    }
  }

  /** How the server reads `user_answers` back: each id mapped to its chosen option. */
  function ToMap(r: seq<Answer>): map<nat, int> {
    if r == [] then map[]
    else ToMap(r[..|r| - 1])[r[|r| - 1].questionId := r[|r| - 1].selectedIndex]
  }

  lemma {:induction false} ToMapKeys(r: seq<Answer>)
    ensures ToMap(r).Keys == AnsweredIds(r)
  {
    if r != [] {
      var p := r[..|r| - 1];
      ToMapKeys(p);
      assert AnsweredIds(r) == AnsweredIds(p) + {r[|r| - 1].questionId} by {
        assert forall i :: 0 <= i < |p| ==> p[i] == r[i];
      }
    }
  }

  lemma {:induction false} ToMapLookup(r: seq<Answer>, i: nat)
    requires i < |r|
    requires forall a, b :: 0 <= a < b < |r| ==> r[a].questionId < r[b].questionId
    ensures r[i].questionId in ToMap(r) && ToMap(r)[r[i].questionId] == r[i].selectedIndex
  {
    ToMapKeys(r);
    assert r[i].questionId in AnsweredIds(r);
    if i < |r| - 1 {
      var p := r[..|r| - 1];
      assert p[i] == r[i];
      ToMapLookup(p, i);
      assert r[i].questionId != r[|r| - 1].questionId;
    }
  }

  /** The submitted list loses nothing: read back as a map it is the answers object. */
  lemma EntriesRoundTrip(answers: map<nat, int>)
    ensures ToMap(Entries(answers)) == answers
  {
    var r := Entries(answers);
    EntriesCover(answers);
    ToMapKeys(r);
    forall id | id in answers ensures ToMap(r)[id] == answers[id] {
      assert id in AnsweredIds(r);
      var i :| 0 <= i < |r| && r[i].questionId == id;
      ToMapLookup(r, i);
    }
    assert ToMap(r).Keys == answers.Keys;
  }

  /** The three result bands, each with its own headline and ring colour on the result screen. */
  datatype Band = RoomToGrow | Solid | Mastery

  function BandOf(score: int): (b: Band)
    ensures b == Mastery <==> score >= 80
    ensures b == Solid <==> 50 <= score < 80
    ensures b == RoomToGrow <==> score < 50
  {
    if score >= 80 then Mastery else if score >= 50 then Solid else RoomToGrow
  }

  function Rank(b: Band): nat {
    match b
    case RoomToGrow => 0
    case Solid => 1
    case Mastery => 2
  }

  /** A higher score never shows a lower band. */
  lemma BandMonotone(s1: int, s2: int)
    requires s1 <= s2
    ensures Rank(BandOf(s1)) <= Rank(BandOf(s2))
  {
  }

  class AssessmentPage {
    var step: Stage
    var loading: bool
    var topic: string
    var difficulty: string
    var questionCount: int
    var quiz: Option<seq<Question>>
    var index: nat
    var answers: map<nat, int>
    var result: Option<Evaluation>

    /**
     * The setup screen holds no quiz, result or answers; the quiz screen shows a
     * question in range, every question before it is answered and only its
     * questions are answered; a request is pending only from setup or quiz.
     */
    ghost predicate Valid()
      reads this
    {
      && (step == Setup ==> quiz == None && result == None && answers == map[])
      && (step != Setup ==> quiz.Some?)
      && (step == ResultStep ==> result.Some? && !loading)
      && (step == QuizStep ==>
           && (index < |quiz.value| || index == 0)
           && (forall i :: 0 <= i < index && i < |quiz.value| ==> quiz.value[i].id in answers)
           && answers.Keys <= QuestionIds(quiz.value))
    }

    /** The quiz screen with a question showing (an empty quiz has nothing to render). */
    predicate Showing()
      reads this
    {
      step == QuizStep && quiz.Some? && index < |quiz.value|
    }

    function Current(): Question
      reads this
      requires Showing()
    {
      quiz.value[index]
    }

    constructor ()
      ensures Valid()
      ensures step == Setup && !loading && topic == "" && difficulty == "Intermediate"
      ensures questionCount == 5 && quiz == None && index == 0 && answers == map[] && result == None
    {
      step := Setup;
      loading := false;
      topic := "";
      difficulty := "Intermediate";
      questionCount := 5;
      quiz := None;
      index := 0;
      answers := map[];
      result := None;
    }

    method SetTopic(text: string)
      requires Valid()
      modifies this`topic
      ensures Valid()
      ensures topic == text
    {
      topic := text;
    }

    /** One of the three difficulty radio buttons. */
    method SetDifficulty(level: string)
      requires Valid()
      requires level in {"Beginner", "Intermediate", "Advanced"}
      modifies this`difficulty
      ensures Valid()
      ensures difficulty == level
    {
      difficulty := level;
    }

    /** One of the three question-count radio buttons. */
    method SetQuestionCount(count: int)
      requires Valid()
      requires count in {5, 10, 15}
      modifies this`questionCount
      ensures Valid()
      ensures questionCount == count
    {
      questionCount := count;
    }

    /** `handleGenerateQuiz` up to its `await`: nothing happens without a topic. */
    method Generate() returns (request: Option<Request>)
      requires Valid()
      requires step == Setup && !loading
      modifies this`loading
      ensures Valid()
      ensures topic == "" ==> request == None && !loading
      ensures topic != "" ==> request == Some(GenerateRequest(topic, difficulty, questionCount)) && loading
    {
      if topic == "" {
        return None;
      }
      loading := true;
      request := Some(GenerateRequest(topic, difficulty, questionCount));
    }

    /** The rest of `handleGenerateQuiz`: a quiz opens at its first question with no answers. */
    method CompleteGenerate(reply: Reply<seq<Question>>)
      requires Valid()
      requires step == Setup && loading
      modifies this`quiz, this`step, this`index, this`answers, this`loading
      ensures Valid() && !loading
      ensures reply.Ok? ==> step == QuizStep && quiz == Some(reply.body) && index == 0 && answers == map[]
      ensures !reply.Ok? ==> step == Setup && quiz == old(quiz) && index == old(index) && answers == old(answers)
    {
      if reply.Ok? {
        quiz := Some(reply.body);
        step := QuizStep;
        index := 0;
        answers := map[];
      }
      loading := false;
    }

    /** `handleSelectOption` on one of the shown question's options. */
    method SelectOption(option: nat)
      requires Valid() && Showing()
      requires option < |Current().options|
      modifies this`answers
      ensures Valid()
      ensures answers == old(answers)[old(Current()).id := option]
    {
      assert Current().id in QuestionIds(quiz.value);
      answers := answers[Current().id := option];
    }

    /** The Previous button, disabled on the first question. */
    method Previous()
      requires Valid() && step == QuizStep
      requires index != 0
      modifies this`index
      ensures Valid()
      ensures index == old(index) - 1
    {
      index := index - 1;
    }

    /** The Next button, shown before the last question and enabled once it is answered. */
    method NextQuestion()
      requires Valid() && Showing()
      requires index < |quiz.value| - 1
      requires Current().id in answers
      modifies this`index
      ensures Valid()
      ensures index == old(index) + 1
    {
      index := index + 1;
    }

    /**
     * `handleSubmitQuiz` up to its `await`, from the last question once it is
     * answered: every question of the quiz is answered, and the request carries
     * exactly the answers object.
     */
    method Submit() returns (request: Request)
      requires Valid() && Showing()
      requires index >= |quiz.value| - 1 && !loading
      requires Current().id in answers
      modifies this`loading
      ensures Valid() && loading
      ensures request == EvaluateRequest(topic, Entries(answers), quiz.value)
      ensures AnsweredIds(request.userAnswers) == QuestionIds(quiz.value)
    {
      var qs := quiz.value;
      forall id | id in QuestionIds(qs) ensures id in answers {
        var i :| 0 <= i < |qs| && qs[i].id == id;
        assert i < index || i == index;
      }
      EntriesCover(answers);
      loading := true;
      request := EvaluateRequest(topic, Entries(answers), qs);
    }

    /** The rest of `handleSubmitQuiz`: an evaluation opens the result screen. */
    method CompleteSubmit(reply: Reply<Evaluation>)
      requires Valid()
      requires step == QuizStep && loading
      modifies this`result, this`step, this`loading
      ensures Valid() && !loading
      ensures reply.Ok? ==> step == ResultStep && result == Some(reply.body)
      ensures !reply.Ok? ==> step == QuizStep && result == old(result)
    {
      if reply.Ok? {
        result := Some(reply.body);
        step := ResultStep;
      }
      loading := false;
    }

    /** `handleRestart`, from the result screen; the question index is left as it was. */
    method Restart()
      requires Valid() && step == ResultStep
      modifies this`step, this`quiz, this`result, this`answers
      ensures Valid()
      ensures step == Setup && quiz == None && result == None && answers == map[]
    {
      step := Setup;
      quiz := None;
      result := None;
      answers := map[];
    }
  }
}
