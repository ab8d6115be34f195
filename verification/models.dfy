/** The stored records and the schema rules a record must satisfy to be
    created: the string cast applied to every field, required fields and
    enumerations. */
module Models {
  import opened Optional
  import opened Js
  import opened Http
  import Decimal

  /** How a value fits a string field: not set (undefined or null), the text
      it casts to, or not castable. */
  datatype Cast = Unset | Text(s: string) | Uncastable

  /** The string cast of a field value: strings stay, numbers and booleans
      become their text, arrays and objects are refused. */
  function CastString(v: Option<Json>): (r: Cast)
    ensures r.Unset? <==> v.None? || v == Some(JNull)
    ensures r.Uncastable? <==> v.Some? && (v.value.JArr? || v.value.JObj?)
    ensures r.Text? ==> r.s == ToText(v)
  {
    match v
    case None => Unset
    case Some(JNull) => Unset
    case Some(JStr(s)) => Text(s)
    case Some(JNum(n)) => Text(Decimal.IntToDecimal(n))
    case Some(JBool(b)) => Text(if b then "true" else "false")
    case Some(JArr(_)) => Uncastable
    case Some(JObj(_)) => Uncastable
  }

  /** A string field given by the handler itself. */
  function FromText(v: Option<string>): (r: Option<Json>)
    ensures v.None? <==> r.None?
    ensures v.Some? ==> r == Some(JStr(v.value))
  {
    match v
    case None => None
    case Some(s) => Some(JStr(s))
  }

  /** A required string field is satisfied by a non-empty text only. */
  predicate Present(c: Cast) {
    c.Text? && |c.s| > 0
  }

  /** An enumerated string field is satisfied by one of its values only
      (an unset required field fails as well). */
  predicate OneOf(c: Cast, values: set<string>) {
    c.Text? && c.s in values
  }

  /** An optional string field fails only when it cannot be cast. */
  predicate Castable(c: Cast) {
    !c.Uncastable?
  }

  function Known(c: Cast): Option<string>
    requires Castable(c)
  {
    if c.Text? then Some(c.s) else None
  }

  const Languages: set<string> := {"ar", "en"}
  const SourceTypes: set<string> := {"pdf", "image", "text"}
  const Difficulties: set<string> := {"easy", "medium", "hard"}

  /** The paths of a draft that break their rule. */
  function Failing(checks: seq<(string, bool)>): (r: set<string>)
    ensures forall i :: 0 <= i < |checks| && !checks[i].1 ==> checks[i].0 in r
    ensures forall p :: p in r ==> exists i :: 0 <= i < |checks| && checks[i].0 == p && !checks[i].1
  {
    if |checks| == 0 then {}
    else
      var rest := Failing(checks[1..]);
      assert forall i :: 1 <= i < |checks| ==> checks[i] == checks[1..][i - 1];
      (if checks[0].1 then {} else {checks[0].0}) + rest
  }

  // ----- Lesson -----

  datatype Lesson = Lesson(
    id: string, userId: string, title: string, language: string, sourceType: string,
    rawText: Option<string>, aiExplanation: Option<string>, aiImages: seq<string>, createdAt: int)

  /** The fields a handler passes to `Lesson.create`. */
  datatype LessonDraft = LessonDraft(
    userId: Option<string>, title: Option<string>, language: Option<string>, sourceType: Option<string>,
    rawText: Option<string>, aiExplanation: Option<Json>, aiImages: seq<Option<Json>>)

  /** A stored lesson obeys its schema: an owner, a title, a known language
      and a known source type. */
  predicate ValidLesson(l: Lesson) {
    && |l.userId| > 0
    && |l.title| > 0
    && l.language in Languages
    && l.sourceType in SourceTypes
  }

  predicate ImagesCast(images: seq<Option<Json>>) {
    forall i :: 0 <= i < |images| ==> CastString(images[i]).Text?
  }

  function LessonChecks(d: LessonDraft): seq<(string, bool)> {
    [ ("userId", Present(CastString(FromText(d.userId)))),
      ("title", Present(CastString(FromText(d.title)))),
      ("language", OneOf(CastString(FromText(d.language)), Languages)),
      ("sourceType", OneOf(CastString(FromText(d.sourceType)), SourceTypes)),
      ("aiExplanation", Castable(CastString(d.aiExplanation))),
      ("aiImages", ImagesCast(d.aiImages)) ]
  }

  /** The lesson draft passes every check exactly when each of its fields
      fits its rule. */
  lemma LessonChecksPass(d: LessonDraft)
    ensures Failing(LessonChecks(d)) == {} <==>
      && d.userId.Some? && |d.userId.value| > 0
      && d.title.Some? && |d.title.value| > 0
      && d.language.Some? && d.language.value in Languages
      && d.sourceType.Some? && d.sourceType.value in SourceTypes
      && !CastString(d.aiExplanation).Uncastable?
      && ImagesCast(d.aiImages)
  {
    var c := LessonChecks(d);
    if Failing(c) == {} {
      assert c[0].1 && c[1].1 && c[2].1 && c[3].1 && c[4].1 && c[5].1;
    } else {
      var p :| p in Failing(c);
    }
  }

  /** `Lesson.create(d)` with a fresh id and the creation time: the lesson
      when the draft satisfies the schema, else a validation error naming
      every failing path. */
  function CreateLesson(d: LessonDraft, id: string, now: int): (r: Result<Lesson>)
    ensures r.Success? <==>
      && d.userId.Some? && |d.userId.value| > 0
      && d.title.Some? && |d.title.value| > 0
      && d.language.Some? && d.language.value in Languages
      && d.sourceType.Some? && d.sourceType.value in SourceTypes
      && !CastString(d.aiExplanation).Uncastable?
      && forall i :: 0 <= i < |d.aiImages| ==> CastString(d.aiImages[i]).Text?
    ensures r.Success? ==>
      && ValidLesson(r.value)
      && r.value.id == id && r.value.createdAt == now
      && Some(r.value.userId) == d.userId && Some(r.value.title) == d.title
      && Some(r.value.language) == d.language && Some(r.value.sourceType) == d.sourceType
      && r.value.rawText == d.rawText
      && (r.value.aiExplanation.Some? <==> CastString(d.aiExplanation).Text?)
      && (r.value.aiExplanation.Some? ==> r.value.aiExplanation.value == ToText(d.aiExplanation))
      && |r.value.aiImages| == |d.aiImages|
      && (forall i :: 0 <= i < |d.aiImages| ==> r.value.aiImages[i] == ToText(d.aiImages[i]))
    ensures r.Failed? ==> r.failure.ValidationError? && |r.failure.paths| > 0
  {
    var failing := Failing(LessonChecks(d));
    LessonChecksPass(d);
    if failing != {} then Failed(ValidationError(failing))
    else
      Success(Lesson(id, d.userId.value, d.title.value, d.language.value, d.sourceType.value,
        d.rawText, Known(CastString(d.aiExplanation)),
        seq(|d.aiImages|, i requires 0 <= i < |d.aiImages| && ImagesCast(d.aiImages) => CastString(d.aiImages[i]).s),
        now))
  }

  // ----- Exercise -----

  datatype Exercise = Exercise(
    id: string, lessonId: string, language: string, difficulty: string, question: string, answer: string)

  /** The fields a handler passes to `Exercise.create`. */
  datatype ExerciseDraft = ExerciseDraft(
    lessonId: Option<string>, language: Option<string>, difficulty: Option<Json>,
    question: Option<Json>, answer: Option<string>)

  /** A stored exercise obeys its schema: a lesson, a known language, a
      known difficulty, a question and an answer. */
  predicate ValidExercise(e: Exercise) {
    && |e.lessonId| > 0
    && e.language in Languages
    && e.difficulty in Difficulties
    && |e.question| > 0
    && |e.answer| > 0
  }

  function ExerciseChecks(d: ExerciseDraft): seq<(string, bool)> {
    [ ("lessonId", Present(CastString(FromText(d.lessonId)))),
      ("language", OneOf(CastString(FromText(d.language)), Languages)),
      ("difficulty", OneOf(CastString(d.difficulty), Difficulties)),
      ("question", Present(CastString(d.question))),
      ("answer", Present(CastString(FromText(d.answer)))) ]
  }

  /** The exercise draft passes every check exactly when each of its
      fields fits its rule. */
  lemma ExerciseChecksPass(d: ExerciseDraft)
    ensures Failing(ExerciseChecks(d)) == {} <==>
      && d.lessonId.Some? && |d.lessonId.value| > 0
      && d.language.Some? && d.language.value in Languages
      && CastString(d.difficulty).Text? && ToText(d.difficulty) in Difficulties
      && CastString(d.question).Text? && |ToText(d.question)| > 0
      && d.answer.Some? && |d.answer.value| > 0
  {
    var c := ExerciseChecks(d);
    if Failing(c) == {} {
      assert c[0].1 && c[1].1 && c[2].1 && c[3].1 && c[4].1;
    } else {
      var p :| p in Failing(c);
    }
  }

  /** `Exercise.create(d)` with a fresh id. */
  function CreateExercise(d: ExerciseDraft, id: string): (r: Result<Exercise>)
    ensures r.Success? <==>
      && d.lessonId.Some? && |d.lessonId.value| > 0
      && d.language.Some? && d.language.value in Languages
      && CastString(d.difficulty).Text? && ToText(d.difficulty) in Difficulties
      && CastString(d.question).Text? && |ToText(d.question)| > 0
      && d.answer.Some? && |d.answer.value| > 0
    ensures r.Success? ==>
      && ValidExercise(r.value)
      && r.value.id == id
      && Some(r.value.lessonId) == d.lessonId && Some(r.value.language) == d.language
      && r.value.difficulty == ToText(d.difficulty) && r.value.question == ToText(d.question)
      && Some(r.value.answer) == d.answer
    ensures r.Failed? ==> r.failure.ValidationError? && |r.failure.paths| > 0
  {
    var failing := Failing(ExerciseChecks(d));
    ExerciseChecksPass(d);
    if failing != {} then Failed(ValidationError(failing))
    else
      Success(Exercise(id, d.lessonId.value, d.language.value, CastString(d.difficulty).s,
        CastString(d.question).s, d.answer.value))
  }

  // ----- Quiz -----

  datatype Question = Question(question: string, options: seq<string>, correctAnswer: string)

  datatype Quiz = Quiz(
    id: string, lessonId: string, language: string, questions: seq<Question>, score: int, createdAt: int)

  /** The fields a handler passes to `Quiz.create`. */
  datatype QuizDraft = QuizDraft(lessonId: Option<string>, language: Option<string>, questions: Json)

  /** A stored quiz obeys its schema: a lesson, a known language, and a
      question text and a correct answer in every question. Nothing relates
      the correct answer to the options. */
  predicate ValidQuiz(q: Quiz) {
    && |q.lessonId| > 0
    && q.language in Languages
    && forall i :: 0 <= i < |q.questions| ==>
         |q.questions[i].question| > 0 && |q.questions[i].correctAnswer| > 0
  }

  /** The entries of a list field: an array's elements, or a single value
      taken as a one-element list. */
  function Entries(v: Json): (r: seq<Json>)
    ensures v.JArr? ==> r == v.items
    ensures !v.JArr? ==> r == [v]
  {
    if v.JArr? then v.items else [v]
  }

  /** The `options` of a question: a list of strings, empty when unset. */
  function CastOptions(v: Option<Json>): (r: Option<seq<string>>)
    ensures v.None? || v == Some(JNull) ==> r == Some([])
    ensures r.Some? && v.Some? && !v.value.JNull? ==>
      var es := Entries(v.value);
      |r.value| == |es| && forall i :: 0 <= i < |es| ==> CastString(Some(es[i])) == Text(r.value[i])
    ensures r.None? <==>
      (v.Some? && !v.value.JNull? &&
       exists i :: 0 <= i < |Entries(v.value)| && !CastString(Some(Entries(v.value)[i])).Text?)
  {
    if v.None? || v == Some(JNull) then Some([])
    else
      var es := Entries(v.value);
      if forall i :: 0 <= i < |es| ==> CastString(Some(es[i])).Text? then
        Some(seq(|es|, i requires 0 <= i < |es| => CastString(Some(es[i])).s))
      else None
  }

  /** One question entry cast to its subdocument: an object with a question
      text, a correct answer and castable options; extra fields are
      dropped. */
  function CastQuestion(v: Json): (r: Option<Question>)
    ensures r.Some? <==>
      && v.JObj?
      && Present(CastString(Member(Some(v), "question").value))
      && Present(CastString(Member(Some(v), "correctAnswer").value))
      && CastOptions(Member(Some(v), "options").value).Some?
    ensures r.Some? ==>
      && r.value.question == ToText(Member(Some(v), "question").value)
      && r.value.correctAnswer == ToText(Member(Some(v), "correctAnswer").value)
      && Some(r.value.options) == CastOptions(Member(Some(v), "options").value)
  {
    if !v.JObj? then None
    else
      var q := CastString(Member(Some(v), "question").value);
      var c := CastString(Member(Some(v), "correctAnswer").value);
      var o := CastOptions(Member(Some(v), "options").value);
      if Present(q) && Present(c) && o.Some? then Some(Question(q.s, o.value, c.s)) else None
  }

  predicate QuestionsCast(v: Json) {
    forall i :: 0 <= i < |Entries(v)| ==> CastQuestion(Entries(v)[i]).Some?
  }

  function QuizChecks(d: QuizDraft): seq<(string, bool)> {
    [ ("lessonId", Present(CastString(FromText(d.lessonId)))),
      ("language", OneOf(CastString(FromText(d.language)), Languages)),
      ("questions", QuestionsCast(d.questions)) ]
  }

  /** The quiz draft passes every check exactly when each of its fields
      fits its rule. */
  lemma QuizChecksPass(d: QuizDraft)
    ensures Failing(QuizChecks(d)) == {} <==>
      && d.lessonId.Some? && |d.lessonId.value| > 0
      && d.language.Some? && d.language.value in Languages
      && QuestionsCast(d.questions)
  {
    var c := QuizChecks(d);
    if Failing(c) == {} {
      assert c[0].1 && c[1].1 && c[2].1;
    } else {
      var p :| p in Failing(c);
    }
  }

  /** `Quiz.create(d)` with a fresh id and the creation time; the score
      starts at 0. */
  function CreateQuiz(d: QuizDraft, id: string, now: int): (r: Result<Quiz>)
    ensures r.Success? <==>
      && d.lessonId.Some? && |d.lessonId.value| > 0
      && d.language.Some? && d.language.value in Languages
      && forall i :: 0 <= i < |Entries(d.questions)| ==> CastQuestion(Entries(d.questions)[i]).Some?
    ensures r.Success? ==>
      && ValidQuiz(r.value)
      && r.value.id == id && r.value.createdAt == now && r.value.score == 0
      && Some(r.value.lessonId) == d.lessonId && Some(r.value.language) == d.language
      && |r.value.questions| == |Entries(d.questions)|
      && forall i :: 0 <= i < |Entries(d.questions)| ==>
           Some(r.value.questions[i]) == CastQuestion(Entries(d.questions)[i])
    ensures r.Failed? ==> r.failure.ValidationError? && |r.failure.paths| > 0
  {
    var failing := Failing(QuizChecks(d));
    QuizChecksPass(d);
    if failing != {} then Failed(ValidationError(failing))
    else
      var es := Entries(d.questions);
      Success(Quiz(id, d.lessonId.value, d.language.value,
        seq(|es|, i requires 0 <= i < |es| && QuestionsCast(d.questions) => CastQuestion(es[i]).value),
        0, now))
  }

  // ----- Progress -----

  /** A progress record. Upserts run no validators, so the key fields may be
      missing. */
  datatype Progress = Progress(
    id: string, userId: Option<string>, lessonId: Option<string>,
    completed: bool, quizScore: int, lastAccessed: int)

  /** A new progress record: not completed, score 0, accessed now. */
  function NewProgress(id: string, userId: Option<string>, lessonId: Option<string>, now: int): (p: Progress)
    ensures p.id == id && p.userId == userId && p.lessonId == lessonId
    ensures !p.completed && p.quizScore == 0 && p.lastAccessed == now
  {
    Progress(id, userId, lessonId, false, 0, now)
  }

  // ----- User -----

  /** A stored account. Its schema is not part of this model; creation
      always succeeds. */
  datatype User = User(
    id: string, name: Option<string>, email: Option<string>, password: string,
    role: string, age: int, language: string)
}
