/** Exercises for a lesson: `POST /api/exercise/generate`. */
module ExerciseGenerate {
  import opened Optional
  import opened Js
  import opened Http
  import opened Models
  import opened Store
  import opened Routing
  import Decimal
  import Ai

  datatype ExercisesCreated = ExercisesCreated(message: string, exercises: seq<Exercise>)

  const Done := "Exercises generated successfully"
  const Answer := "AI generated"

  /** What `for (const item of v)` visits for a truthy `v`: an array's
      elements or a string's characters; nothing for a value that is not
      iterable, where the loop throws. */
  function Iterated(v: Json): (r: Option<seq<Json>>)
    ensures v.JArr? ==> r == Some(v.items)
    ensures v.JStr? ==> r.Some? && |r.value| == |v.s| && forall i :: 0 <= i < |v.s| ==> r.value[i] == JStr([v.s[i]])
    ensures r.None? <==> !(v.JArr? || v.JStr?)
  {
    match v
    case JArr(items) => Some(items)
    case JStr(s) => Some(seq(|s|, i requires 0 <= i < |s| => JStr([s[i]])))
    case _ => None
  }

  /** `item.difficulty || 'medium'`. */
  function Difficulty(item: Json): (r: Option<Json>)
    requires !item.JNull?
    ensures Truthy(Member(Some(item), "difficulty").value) ==> r == Member(Some(item), "difficulty").value
    ensures !Truthy(Member(Some(item), "difficulty").value) ==> r == Some(JStr("medium"))
  {
    var d := Member(Some(item), "difficulty").value;
    if Truthy(d) then d else Some(JStr("medium"))
  }

  /** The creation for one item: a TypeError for a `null` item, whose
      difficulty cannot be read; otherwise `Exercise.create` with the
      request's lesson and language, the item's difficulty or "medium", the
      item's question and the fixed answer. */
  function ExerciseFor(item: Json, request: GenerateRequest, id: string): (r: Result<Exercise>)
    ensures item.JNull? ==> r == Failed(TypeError)
    ensures !item.JNull? ==> r == CreateExercise(
      ExerciseDraft(request.lessonId, request.language, Difficulty(item), Member(Some(item), "question").value, Some(Answer)), id)
  {
    if item.JNull? then Failed(TypeError)
    else CreateExercise(
      ExerciseDraft(request.lessonId, request.language, Difficulty(item), Member(Some(item), "question").value, Some(Answer)), id)
  }

  /** The loop's effect: the exercises created before it stopped, the
      database with them stored, and the error that stopped it, if any. */
  datatype Batch = Batch(created: seq<Exercise>, db: Db, failure: Option<Failure>)

  /** The creation of one exercise from an item and an id. */
  type Maker = (Json, string) -> Result<Exercise>

  function MakerFor(request: GenerateRequest): (m: Maker)
    ensures forall item, id :: m(item, id) == ExerciseFor(item, request, id)
  {
    (item, id) => ExerciseFor(item, request, id)
  }

  /** The successes of the items after the first, numbered from the next
      id, together with the first item's success, are the successes of all
      the items. */
  lemma ShiftCreated(items: seq<Json>, make: Maker, start: nat, e: Exercise, rest: seq<Exercise>)
    requires 1 <= |items| && |rest| < |items|
    requires make(items[0], Decimal.NatToDecimal(start)) == Success(e)
    requires forall i :: 0 <= i < |rest| ==>
      make(items[1..][i], Decimal.NatToDecimal(start + 1 + i)) == Success(rest[i])
    ensures var created := [e] + rest;
      forall i :: 0 <= i < |created| ==> make(items[i], Decimal.NatToDecimal(start + i)) == Success(created[i])
  {
    var created := [e] + rest;
    forall i | 0 <= i < |created|
      ensures make(items[i], Decimal.NatToDecimal(start + i)) == Success(created[i])
    {
      if i > 0 {
        assert created[i] == rest[i - 1];
        assert items[i] == items[1..][i - 1];
        assert start + 1 + (i - 1) == start + i;
      }
    }
  }

  /** What the loop does with `items` from `db`: one creation per item, in
      order, each with the next id, stopping at the first that fails; what
      was created before stays stored. */
  predicate Describes(b: Batch, items: seq<Json>, make: Maker, db: Db) {
    && b.db == db.(exercises := db.exercises + b.created, nextId := db.nextId + |b.created|)
    && |b.created| <= |items|
    && (forall i :: 0 <= i < |b.created| ==>
         make(items[i], Decimal.NatToDecimal(db.nextId + i)) == Success(b.created[i]))
    && (b.failure.None? <==> |b.created| == |items|)
    && (b.failure.Some? ==>
         make(items[|b.created|], Decimal.NatToDecimal(db.nextId + |b.created|)) == Failed(b.failure.value))
  }

  /** A first success followed by the loop over the remaining items, from
      the database that holds it, is the loop over all the items. */
  lemma ExtendBatch(items: seq<Json>, make: Maker, db: Db, e: Exercise, rest: Batch)
    requires 1 <= |items|
    requires make(items[0], FreshId(db)) == Success(e)
    requires Describes(rest, items[1..], make, Advance(db).(exercises := db.exercises + [e]))
    ensures Describes(Batch([e] + rest.created, rest.db, rest.failure), items, make, db)
  {
    var next := Advance(db).(exercises := db.exercises + [e]);
    var created := [e] + rest.created;
    assert next.exercises + rest.created == db.exercises + created;
    ShiftCreated(items, make, db.nextId, e, rest.created);
    if rest.failure.Some? {
      assert items[|created|] == items[1..][|rest.created|];
      assert next.nextId + |rest.created| == db.nextId + |created|;
    }
  }

  /** The loop of the handler over the items. */
  function CreateAll(items: seq<Json>, make: Maker, db: Db): (b: Batch)
    ensures Describes(b, items, make, db)
    decreases |items|
  {
    if |items| == 0 then Batch([], db, None)
    else
      match make(items[0], FreshId(db))
      case Failed(f) => Batch([], db, Some(f))
      case Success(e) =>
        var rest := CreateAll(items[1..], make, Advance(db).(exercises := db.exercises + [e]));
        ExtendBatch(items, make, db, e, rest);
        Batch([e] + rest.created, rest.db, rest.failure)
  }

  /** What the handler does with the model's answer: a falsy `exercises`
      (the apology has none) creates nothing and answers 201 with an empty
      list; a value the loop cannot iterate answers 500; otherwise one
      exercise per item is created, and the first failing item ends in 500
      with the earlier ones kept. */
  function Save(request: GenerateRequest, answer: Json, db: Db): (out: (Response<ExercisesCreated>, Db))
    requires !answer.JNull?
    ensures var exercises := Member(Some(answer), "exercises").value;
      && (!Truthy(exercises) ==> out == (Response(201, Payload(ExercisesCreated(Done, []))), db))
      && (Truthy(exercises) && Iterated(exercises.value).None? ==> out == (ServerError(TypeError), db))
      && (Truthy(exercises) && Iterated(exercises.value).Some? ==>
        var b := CreateAll(Iterated(exercises.value).value, MakerFor(request), db);
        && out.1 == b.db
        && (b.failure.Some? ==> out.0 == ServerError(b.failure.value))
        && (b.failure.None? ==> out.0 == Response(201, Payload(ExercisesCreated(Done, b.created)))))
  {
    var exercises := Member(Some(answer), "exercises").value;
    if !Truthy(exercises) then (Response(201, Payload(ExercisesCreated(Done, []))), db)
    else
      match Iterated(exercises.value)
      case None => (ServerError(TypeError), db)
      case Some(items) =>
        var b := CreateAll(items, MakerFor(request), db);
        if b.failure.Some? then (ServerError(b.failure.value), b.db)
        else (Response(201, Payload(ExercisesCreated(Done, b.created))), b.db)
  }

  /** The handler: 500 when the body is not JSON; otherwise the model is
      asked with the request's language and age as given, and its answer is
      saved. */
  function Post(request: Option<GenerateRequest>, db: Db, reply: Ai.AiReply, parse: Ai.Parser): (out: Handled<ExercisesCreated>)
    ensures request.None? ==> out == Handled(ServerError(MalformedBody), db, None)
    ensures request.Some? ==>
      var r := request.value;
      var call := Ai.GenerateExercises(r.lessonContent, Ai.PromptOptions(r.language, r.age), reply, parse);
      && out.asked == Some(call.request)
      && (out.response, out.db) == Save(r, call.result, db)
  {
    if request.None? then Handled(ServerError(MalformedBody), db, None)
    else
      var r := request.value;
      var call := Ai.GenerateExercises(r.lessonContent, Ai.PromptOptions(r.language, r.age), reply, parse);
      var saved := Save(r, call.result, db);
      Handled(saved.0, saved.1, Some(call.request))
  }

  /** Every exercise a batch creates is valid, belongs to the requested
      lesson and language, and carries the fixed answer. */
  lemma BatchFollowsRequest(items: seq<Json>, request: GenerateRequest, db: Db)
    ensures var created := CreateAll(items, MakerFor(request), db).created;
      forall i :: 0 <= i < |created| ==>
        && ValidExercise(created[i])
        && created[i].answer == Answer
        && Some(created[i].lessonId) == request.lessonId
        && Some(created[i].language) == request.language
  {
    var created := CreateAll(items, MakerFor(request), db).created;
    forall i | 0 <= i < |created|
      ensures ValidExercise(created[i]) && created[i].answer == Answer
      ensures Some(created[i].lessonId) == request.lessonId && Some(created[i].language) == request.language
    {
      MadeFollowsRequest(MakerFor(request), items[i], request, Decimal.NatToDecimal(db.nextId + i), created[i]);
    }
  }

  /** An exercise made from an item is valid, belongs to the requested
      lesson and language, and carries the fixed answer. */
  lemma MadeFollowsRequest(make: Maker, item: Json, request: GenerateRequest, id: string, e: Exercise)
    requires make == MakerFor(request) && make(item, id) == Success(e)
    ensures ValidExercise(e) && e.answer == Answer
    ensures Some(e.lessonId) == request.lessonId && Some(e.language) == request.language
  {
  }

  /** Every exercise saved from an answer is valid, belongs to the
      requested lesson and language, carries the fixed answer, and was
      stored. */
  lemma SavedExercisesFollowRequest(request: GenerateRequest, answer: Json, db: Db)
    requires !answer.JNull?
    ensures var out := Save(request, answer, db);
      out.0.body.Payload? ==>
        var created := out.0.body.value.exercises;
        && out.1.exercises == db.exercises + created
        && forall i :: 0 <= i < |created| ==>
             && ValidExercise(created[i])
             && created[i].answer == Answer
             && Some(created[i].lessonId) == request.lessonId
             && Some(created[i].language) == request.language
  {
    var exercises := Member(Some(answer), "exercises").value;
    if Truthy(exercises) && Iterated(exercises.value).Some? {
      BatchFollowsRequest(Iterated(exercises.value).value, request, db);
    }
  }

  /** Every returned exercise is valid, belongs to the requested lesson and
      language, carries the fixed answer, and was stored. */
  lemma CreatedExercisesFollowRequest(request: GenerateRequest, db: Db, reply: Ai.AiReply, parse: Ai.Parser)
    ensures var out := Post(Some(request), db, reply, parse);
      out.response.body.Payload? ==>
        var created := out.response.body.value.exercises;
        && out.db.exercises == db.exercises + created
        && forall i :: 0 <= i < |created| ==>
             && ValidExercise(created[i])
             && created[i].answer == Answer
             && Some(created[i].lessonId) == request.lessonId
             && Some(created[i].language) == request.language
  {
    var call := Ai.GenerateExercises(request.lessonContent, Ai.PromptOptions(request.language, request.age), reply, parse);
    SavedExercisesFollowRequest(request, call.result, db);
  }

  /** An item that names no difficulty gets "medium". */
  lemma MissingDifficultyIsMedium(item: Json, request: GenerateRequest, id: string)
    requires item.JObj? && "difficulty" !in item.fields
    requires ExerciseFor(item, request, id).Success?
    ensures ExerciseFor(item, request, id).value.difficulty == "medium"
  {
  }

  /** When the model cannot be reached, the apology has no exercises: the
      reply is 201 with an empty list and nothing is stored. */
  lemma UnreachableModelCreatesNothing(request: GenerateRequest, db: Db, parse: Ai.Parser)
    ensures Post(Some(request), db, Ai.NetworkFailure, parse).response
      == Response(201, Payload(ExercisesCreated(Done, [])))
    ensures Post(Some(request), db, Ai.NetworkFailure, parse).db == db
  {
    var options := Ai.PromptOptions(request.language, request.age);
    var call := Ai.GenerateExercises(request.lessonContent, options, Ai.NetworkFailure, parse);
    var fallback := Ai.Fallback(options.language);
    assert call.result == fallback;
    assert Member(Some(fallback), "exercises") == Got(None);
    NoExercisesCreatesNothing(request, fallback, db);
  }

  /** An answer without exercises creates nothing and answers 201 with an
      empty list. */
  lemma NoExercisesCreatesNothing(request: GenerateRequest, answer: Json, db: Db)
    requires answer.JObj? && "exercises" !in answer.fields
    ensures Save(request, answer, db) == (Response(201, Payload(ExercisesCreated(Done, []))), db)
  {
    assert Member(Some(answer), "exercises") == Got(None);
  }

  /** A failure part-way keeps the exercises created before it: with two
      items, a valid one then one without a question, the first is stored
      and the loop stops at the second. */
  lemma FailureKeepsEarlierExercises(request: GenerateRequest, db: Db)
    requires request.lessonId == Some("L") && request.language == Some("en")
    ensures var good := JObj(map["question" := JStr("1 + 1?")]);
      var bad := JObj(map["difficulty" := JStr("easy")]);
      var b := CreateAll([good, bad], MakerFor(request), db);
      && b.failure.Some?
      && |b.db.exercises| == |db.exercises| + 1
      && b.db.exercises[|db.exercises|].question == "1 + 1?"
      && b.db.exercises[|db.exercises|].difficulty == "medium"
  {
    var good := JObj(map["question" := JStr("1 + 1?")]);
    var bad := JObj(map["difficulty" := JStr("easy")]);
    var make := MakerFor(request);
    var id0 := Decimal.NatToDecimal(db.nextId);
    GoodItemCreates(good, request, id0);
    var e := ExerciseFor(good, request, id0).value;
    var next := Advance(db).(exercises := db.exercises + [e]);
    BadItemFails(bad, request, FreshId(next));
    assert CreateAll([bad], make, next) == Batch([], next, Some(ExerciseFor(bad, request, FreshId(next)).failure));
    assert [good, bad][1..] == [bad];
    assert CreateAll([good, bad], make, db) == Batch([e], next, Some(ExerciseFor(bad, request, FreshId(next)).failure));
  }

  lemma GoodItemCreates(good: Json, request: GenerateRequest, id: string)
    requires good == JObj(map["question" := JStr("1 + 1?")])
    requires request.lessonId == Some("L") && request.language == Some("en")
    ensures ExerciseFor(good, request, id).Success?
    ensures ExerciseFor(good, request, id).value.question == "1 + 1?"
    ensures ExerciseFor(good, request, id).value.difficulty == "medium"
  {
    assert Member(Some(good), "difficulty") == Got(None);
    assert Member(Some(good), "question") == Got(Some(JStr("1 + 1?")));
  }

  lemma BadItemFails(bad: Json, request: GenerateRequest, id: string)
    requires bad == JObj(map["difficulty" := JStr("easy")])
    ensures ExerciseFor(bad, request, id).Failed?
  {
    assert Member(Some(bad), "question") == Got(None);
  }
}
