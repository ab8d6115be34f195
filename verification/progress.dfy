/** A user's progress per lesson: `GET` and `POST /api/progress`. */
module ProgressRoute {
  import opened Optional
  import opened Http
  import opened Models
  import opened Store
  import opened Routing

  datatype ProgressRequest = ProgressRequest(
    userId: Option<string>, lessonId: Option<string>, completed: Option<bool>, quizScore: Option<int>)

  datatype ProgressSaved = ProgressSaved(message: string, progress: Progress)

  const Saved := "Progress updated successfully"

  /** The records `Progress.find({ userId })` selects, in stored order. A
      missing query parameter reads as `null`, which selects the records
      without a user. */
  function OfUser(ps: seq<Progress>, userId: Option<string>): (r: seq<Progress>)
    ensures forall p :: p in r <==> p in ps && p.userId == userId
    ensures |r| <= |ps|
  {
    if |ps| == 0 then []
    else
      var rest := OfUser(ps[1..], userId);
      assert ps == [ps[0]] + ps[1..];
      if ps[0].userId == userId then [ps[0]] + rest else rest
  }

  /** The `GET` handler: the records of the queried user. Nothing is
      stored. */
  function Get(userId: Option<string>, db: Db): (out: Handled<seq<Progress>>)
    ensures out.db == db && out.asked.None?
    ensures out.response.status == 200 && out.response.body.Payload?
    ensures forall p :: p in out.response.body.value <==> p in db.progress && p.userId == userId
  {
    Handled(Response(200, Payload(OfUser(db.progress, userId))), db, None)
  }

  /** Whether a record matches the upsert filter `{ userId, lessonId }`. An
      absent field is left out of the filter and matches anything. */
  predicate Matches(p: Progress, userId: Option<string>, lessonId: Option<string>) {
    && (userId.None? || p.userId == userId)
    && (lessonId.None? || p.lessonId == lessonId)
  }

  /** The first record matching the filter. */
  function FirstMatch(ps: seq<Progress>, userId: Option<string>, lessonId: Option<string>): (r: Option<nat>)
    ensures r.Some? ==> r.value < |ps| && Matches(ps[r.value], userId, lessonId)
    ensures r.Some? ==> forall j :: 0 <= j < r.value ==> !Matches(ps[j], userId, lessonId)
    ensures r.None? <==> forall j :: 0 <= j < |ps| ==> !Matches(ps[j], userId, lessonId)
  {
    if |ps| == 0 then None
    else if Matches(ps[0], userId, lessonId) then Some(0)
    else
      match FirstMatch(ps[1..], userId, lessonId)
      case None => None
      case Some(k) => Some(k + 1)
  }

  /** The update `{ completed, quizScore, lastAccessed: now }`; a field the
      request leaves undefined is not touched. */
  function Apply(p: Progress, request: ProgressRequest, now: int): (r: Progress)
    ensures r.id == p.id && r.userId == p.userId && r.lessonId == p.lessonId
    ensures r.completed == request.completed.GetOr(p.completed)
    ensures r.quizScore == request.quizScore.GetOr(p.quizScore)
    ensures r.lastAccessed == now
  {
    p.(completed := request.completed.GetOr(p.completed),
       quizScore := request.quizScore.GetOr(p.quizScore),
       lastAccessed := now)
  }

  /** The `POST` handler: `findOneAndUpdate` with upsert, returning the
      record after the update. The first matching record is updated in
      place; without one, a record keyed by the filter is inserted with the
      defaults and the update applied. */
  function Post(request: Option<ProgressRequest>, db: Db, now: int): (out: Handled<ProgressSaved>)
    ensures out.asked.None?
    ensures request.None? ==> out == Handled(ServerError(MalformedBody), db, None)
    ensures request.Some? ==>
      var r := request.value;
      var k := FirstMatch(db.progress, r.userId, r.lessonId);
      && out.response.status == 200 && out.response.body.Payload?
      && out.response.body.value.message == Saved
      && (k.Some? ==>
        && out.db == db.(progress := db.progress[k.value := Apply(db.progress[k.value], r, now)])
        && out.response.body.value.progress == Apply(db.progress[k.value], r, now))
      && (k.None? ==>
        var inserted := Apply(NewProgress(FreshId(db), r.userId, r.lessonId, now), r, now);
        && out.db == Advance(db).(progress := db.progress + [inserted])
        && out.response.body.value.progress == inserted)
  {
    if request.None? then Handled(ServerError(MalformedBody), db, None)
    else
      var r := request.value;
      match FirstMatch(db.progress, r.userId, r.lessonId)
      case Some(k) =>
        var updated := Apply(db.progress[k], r, now);
        Handled(Response(200, Payload(ProgressSaved(Saved, updated))), db.(progress := db.progress[k := updated]), None)
      case None =>
        var inserted := Apply(NewProgress(FreshId(db), r.userId, r.lessonId, now), r, now);
        Handled(Response(200, Payload(ProgressSaved(Saved, inserted))), Advance(db).(progress := db.progress + [inserted]), None)
  }

  /** After a `POST`, the store holds the returned record: it matches the
      request's key, carries the requested completion and score (or, when
      one is not given, the previous value or the default), and was accessed
      now. */
  lemma PostStoresRequestedState(request: ProgressRequest, db: Db, now: int)
    ensures var out := Post(Some(request), db, now);
      var p := out.response.body.value.progress;
      && p in out.db.progress
      && Matches(p, request.userId, request.lessonId)
      && (request.completed.Some? ==> p.completed == request.completed.value)
      && (request.quizScore.Some? ==> p.quizScore == request.quizScore.value)
      && p.lastAccessed == now
  {
    var out := Post(Some(request), db, now);
    var k := FirstMatch(db.progress, request.userId, request.lessonId);
    if k.Some? {
      assert out.db.progress[k.value] == out.response.body.value.progress;
    } else {
      assert out.db.progress[|db.progress|] == out.response.body.value.progress;
    }
  }

  /** A `POST` changes one record at most: an existing match is updated in
      place without adding a record, every other record stays as it was,
      and only without a match is a record added, at the end. */
  lemma PostTouchesOneRecord(request: ProgressRequest, db: Db, now: int)
    ensures var out := Post(Some(request), db, now);
      var k := FirstMatch(db.progress, request.userId, request.lessonId);
      && (k.Some? ==> |out.db.progress| == |db.progress|
                      && forall j :: 0 <= j < |db.progress| && j != k.value ==> out.db.progress[j] == db.progress[j])
      && (k.None? ==> out.db.progress[..|db.progress|] == db.progress && |out.db.progress| == |db.progress| + 1)
      && out.db.users == db.users && out.db.lessons == db.lessons
      && out.db.exercises == db.exercises && out.db.quizzes == db.quizzes
  {
    var out := Post(Some(request), db, now);
    var k := FirstMatch(db.progress, request.userId, request.lessonId);
    if k.None? {
      assert out.db.progress[..|db.progress|] == db.progress;
    }
  }

  /** Posting the same key twice leaves one record for it: the second `POST`
      updates what the first stored instead of adding another. */
  lemma RepeatedPostDoesNotDuplicate(request: ProgressRequest, again: ProgressRequest, db: Db, now: int, later: int)
    requires again.userId == request.userId && again.lessonId == request.lessonId
    ensures var first := Post(Some(request), db, now).db;
      var second := Post(Some(again), first, later).db;
      |second.progress| == |first.progress|
  {
    var first := Post(Some(request), db, now).db;
    PostStoresRequestedState(request, db, now);
    var p := Post(Some(request), db, now).response.body.value.progress;
    var j :| 0 <= j < |first.progress| && first.progress[j] == p;
    assert Matches(first.progress[j], again.userId, again.lessonId);
    assert FirstMatch(first.progress, again.userId, again.lessonId).Some?;
  }

  /** A record posted for a user is among the records `GET` returns for
      that user. */
  lemma PostedRecordIsListed(request: ProgressRequest, db: Db, now: int)
    requires request.userId.Some?
    ensures var out := Post(Some(request), db, now);
      out.response.body.value.progress in Get(request.userId, out.db).response.body.value
  {
    PostStoresRequestedState(request, db, now);
  }
}
