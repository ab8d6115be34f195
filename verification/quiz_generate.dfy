/** A quiz for a lesson: `POST /api/quiz/generate`. */
module QuizGenerate {
  import opened Optional
  import opened Js
  import opened Http
  import opened Models
  import opened Store
  import opened Routing
  import Ai

  datatype QuizCreated = QuizCreated(message: string, quiz: Quiz)

  const Done := "Quiz generated successfully"

  /** `aiData.questions || []`. */
  function QuestionsOf(aiData: Json): (r: Json)
    requires !aiData.JNull?
    ensures Truthy(Member(Some(aiData), "questions").value) ==> Some(r) == Member(Some(aiData), "questions").value
    ensures !Truthy(Member(Some(aiData), "questions").value) ==> r == JArr([])
  {
    var q := Member(Some(aiData), "questions").value;
    if Truthy(q) then q.value else JArr([])
  }

  /** What the handler does with the model's answer: a single quiz is
      created from the request's lesson and language and the answer's
      questions (none when the answer has no questions); a quiz breaking
      its schema answers 500 and stores nothing. */
  function Save(request: GenerateRequest, answer: Json, db: Db, now: int): (out: (Response<QuizCreated>, Db))
    requires !answer.JNull?
    ensures var created := CreateQuiz(QuizDraft(request.lessonId, request.language, QuestionsOf(answer)), FreshId(db), now);
      && (created.Failed? ==> out == (ServerError(created.failure), db))
      && (created.Success? ==>
        out == (Response(201, Payload(QuizCreated(Done, created.value))), Advance(db).(quizzes := db.quizzes + [created.value])))
  {
    match CreateQuiz(QuizDraft(request.lessonId, request.language, QuestionsOf(answer)), FreshId(db), now)
    case Failed(f) => (ServerError(f), db)
    case Success(quiz) => (Response(201, Payload(QuizCreated(Done, quiz))), Advance(db).(quizzes := db.quizzes + [quiz]))
  }

  /** The handler: 500 when the body is not JSON; otherwise the model is
      asked with the request's language and age as given, and its answer is
      saved. */
  function Post(request: Option<GenerateRequest>, db: Db, now: int, reply: Ai.AiReply, parse: Ai.Parser): (out: Handled<QuizCreated>)
    ensures request.None? ==> out == Handled(ServerError(MalformedBody), db, None)
    ensures request.Some? ==>
      var r := request.value;
      var call := Ai.GenerateQuiz(r.lessonContent, Ai.PromptOptions(r.language, r.age), reply, parse);
      && out.asked == Some(call.request)
      && (out.response, out.db) == Save(r, call.result, db, now)
  {
    if request.None? then Handled(ServerError(MalformedBody), db, None)
    else
      var r := request.value;
      var call := Ai.GenerateQuiz(r.lessonContent, Ai.PromptOptions(r.language, r.age), reply, parse);
      var saved := Save(r, call.result, db, now);
      Handled(saved.0, saved.1, Some(call.request))
  }

  /** Saving an answer stores one quiz exactly when it answers 201, and
      nothing otherwise; the quiz belongs to the requested lesson and
      language and starts with score 0. */
  lemma SavedOneQuiz(request: GenerateRequest, answer: Json, db: Db, now: int)
    requires !answer.JNull?
    ensures var out := Save(request, answer, db, now);
      && (out.0.status == 201 <==> |out.1.quizzes| == |db.quizzes| + 1)
      && (out.0.status != 201 ==> out.1 == db)
      && (out.0.status == 201 ==>
        var quiz := out.0.body.value.quiz;
        && out.1.quizzes[|db.quizzes|] == quiz
        && ValidQuiz(quiz)
        && Some(quiz.lessonId) == request.lessonId && Some(quiz.language) == request.language
        && quiz.score == 0 && quiz.createdAt == now)
  {
  }

  /** A call stores one quiz exactly when it answers 201, and nothing
      otherwise; the quiz belongs to the requested lesson and language and
      starts with score 0. */
  lemma OneQuizPerSuccess(request: GenerateRequest, db: Db, now: int, reply: Ai.AiReply, parse: Ai.Parser)
    ensures var out := Post(Some(request), db, now, reply, parse);
      && (out.response.status == 201 <==> |out.db.quizzes| == |db.quizzes| + 1)
      && (out.response.status != 201 ==> out.db == db)
      && (out.response.status == 201 ==>
        var quiz := out.response.body.value.quiz;
        && out.db.quizzes[|db.quizzes|] == quiz
        && ValidQuiz(quiz)
        && Some(quiz.lessonId) == request.lessonId && Some(quiz.language) == request.language
        && quiz.score == 0 && quiz.createdAt == now)
  {
    var call := Ai.GenerateQuiz(request.lessonContent, Ai.PromptOptions(request.language, request.age), reply, parse);
    SavedOneQuiz(request, call.result, db, now);
  }

  /** An answer without questions stores a quiz with no questions for a
      valid lesson and language. */
  lemma NoQuestionsStoresEmptyQuiz(request: GenerateRequest, answer: Json, db: Db, now: int)
    requires request.lessonId.Some? && request.lessonId.value != ""
    requires request.language.Some? && request.language.value in Languages
    requires answer.JObj? && "questions" !in answer.fields
    ensures var out := Save(request, answer, db, now);
      out.0.status == 201 && out.0.body.value.quiz.questions == []
  {
    assert Member(Some(answer), "questions") == Got(None);
    assert QuestionsOf(answer) == JArr([]);
  }

  /** When the model cannot be reached, the apology has no questions, and a
      quiz without questions is stored for a valid lesson and language. */
  lemma UnreachableModelStoresEmptyQuiz(request: GenerateRequest, db: Db, now: int, parse: Ai.Parser)
    requires request.lessonId.Some? && request.lessonId.value != ""
    requires request.language.Some? && request.language.value in Languages
    ensures var out := Post(Some(request), db, now, Ai.NetworkFailure, parse);
      out.response.status == 201 && out.response.body.value.quiz.questions == []
  {
    var options := Ai.PromptOptions(request.language, request.age);
    var call := Ai.GenerateQuiz(request.lessonContent, options, Ai.NetworkFailure, parse);
    assert call.result == Ai.Fallback(request.language);
    NoQuestionsStoresEmptyQuiz(request, call.result, db, now);
  }

  /** For every question entry, the correct answer is free: any two
      non-empty answer texts give the same outcome of the cast, the same
      question and the same options, whether or not either answer is among
      the options. */
  lemma CorrectAnswerIsFree(fields: map<string, Json>, a: string, b: string)
    requires a != "" && b != ""
    ensures var qa := CastQuestion(JObj(fields["correctAnswer" := JStr(a)]));
      var qb := CastQuestion(JObj(fields["correctAnswer" := JStr(b)]));
      && (qa.Some? <==> qb.Some?)
      && (qa.Some? ==> qa.value.correctAnswer == a
                       && qa.value.question == qb.value.question
                       && qa.value.options == qb.value.options)
  {
    var va := JObj(fields["correctAnswer" := JStr(a)]);
    var vb := JObj(fields["correctAnswer" := JStr(b)]);
    assert Member(Some(va), "correctAnswer") == Got(Some(JStr(a)));
    assert Member(Some(vb), "correctAnswer") == Got(Some(JStr(b)));
    assert Member(Some(va), "question") == Member(Some(vb), "question");
    assert Member(Some(va), "options") == Member(Some(vb), "options");
  }

  /** Nothing ties the correct answer to the options: a question whose
      correct answer is not among its options is stored as it is. */
  lemma CorrectAnswerNotChecked()
    ensures var v := JObj(map[
        "question" := JStr("2 + 2?"),
        "options" := JArr([JStr("3"), JStr("5")]),
        "correctAnswer" := JStr("4")]);
      && CastQuestion(v) == Some(Question("2 + 2?", ["3", "5"], "4"))
      && "4" !in ["3", "5"]
  {
    var v := JObj(map[
        "question" := JStr("2 + 2?"),
        "options" := JArr([JStr("3"), JStr("5")]),
        "correctAnswer" := JStr("4")]);
    assert Member(Some(v), "options") == Got(Some(JArr([JStr("3"), JStr("5")])));
    var o := CastOptions(Some(JArr([JStr("3"), JStr("5")])));
    assert CastString(Some(JStr("3"))) == Text("3");
    assert CastString(Some(JStr("5"))) == Text("5");
    var es := [JStr("3"), JStr("5")];
    assert Entries(JArr(es)) == es;
    assert forall i :: 0 <= i < |es| ==> CastString(Some(es[i])).Text?;
    assert o.Some?;
    assert Text(o.value[0]) == Text("3") && Text(o.value[1]) == Text("5");
    assert o.value == ["3", "5"];
  }
}
