/** Lesson creation from a text: `POST /api/lesson/generate`. */
module LessonGenerate {
  import opened Optional
  import opened Strings
  import opened Js
  import opened Http
  import opened Models
  import opened Store
  import opened Routing
  import opened Auth
  import Ai

  datatype LessonRequest = LessonRequest(
    content: Option<string>, title: Option<string>, sourceType: Option<string>, language: Option<string>)

  const Unauthorized := "Unauthorized"
  const Incomplete := "Title and content are required"

  /** `aiData.images.map(img => img.url)`: the `url` of every image, in
      order; None where it throws, because `images` is not an array or one
      of its entries is `null`. */
  function ImageUrls(aiData: Json): (r: Option<seq<Option<Json>>>)
    ensures r.Some? <==>
      && !aiData.JNull?
      && Ai.ImagesOf(aiData).Some? && Ai.ImagesOf(aiData).value.JArr?
      && forall i :: 0 <= i < |Ai.ImagesOf(aiData).value.items| ==> !Ai.ImagesOf(aiData).value.items[i].JNull?
    ensures r.Some? ==>
      var items := Ai.ImagesOf(aiData).value.items;
      |r.value| == |items| && forall i :: 0 <= i < |items| ==> r.value[i] == Member(Some(items[i]), "url").value
  {
    match Member(Some(aiData), "images")
    case Throws => None
    case Got(images) =>
      if images.None? || !images.value.JArr? then None
      else
        var items := images.value.items;
        if exists i :: 0 <= i < |items| && items[i].JNull? then None
        else Some(seq(|items|, i requires 0 <= i < |items| && !items[i].JNull? => Member(Some(items[i]), "url").value))
  }

  /** The lesson language: the request's, else the user's, else English. */
  function LessonLanguage(request: LessonRequest, user: SessionUser): (r: string)
    ensures request.language.Some? && request.language.value != "" ==> r == request.language.value
    ensures (request.language.None? || request.language.value == "") ==>
      (user.language.Some? && user.language.value != "" ==> r == user.language.value)
    ensures (request.language.None? || request.language.value == "") ==>
      (user.language.None? || user.language.value == "" ==> r == "en")
  {
    OrText(request.language, OrText(user.language, "en"))
  }

  /** The options of the explanation call: the lesson language, and the
      user's age or 10. */
  function Options(request: LessonRequest, user: SessionUser): (o: Ai.PromptOptions)
    ensures o.language == Some(LessonLanguage(request, user))
    ensures o.age == Some(OrNumber(user.age, 10))
  {
    Ai.PromptOptions(Some(LessonLanguage(request, user)), Some(OrNumber(user.age, 10)))
  }

  /** The fields passed to `Lesson.create`. */
  function Draft(request: LessonRequest, user: SessionUser, aiData: Json, urls: seq<Option<Json>>): (d: LessonDraft)
    requires !aiData.JNull?
    ensures d.userId == user.id && d.title == request.title
    ensures d.language == Some(LessonLanguage(request, user))
    ensures d.sourceType == Some(OrText(request.sourceType, "text"))
    ensures d.rawText == request.content
    ensures d.aiExplanation == Member(Some(aiData), "text").value
    ensures d.aiImages == urls
  {
    LessonDraft(user.id, request.title, Some(LessonLanguage(request, user)),
      Some(OrText(request.sourceType, "text")), request.content,
      Member(Some(aiData), "text").value, urls)
  }

  predicate Given(v: Option<string>) {
    v.Some? && v.value != ""
  }

  /** What the handler does with the explanation: 500 when it has no image
      list, 500 when the lesson breaks its schema, otherwise the lesson is
      stored and returned. */
  function Save(request: LessonRequest, user: SessionUser, aiData: Json, db: Db, now: int): (out: (Response<Lesson>, Db))
    requires !aiData.JNull?
    ensures var urls := ImageUrls(aiData);
      && (urls.None? ==> out == (ServerError(TypeError), db))
      && (urls.Some? ==>
        var created := CreateLesson(Draft(request, user, aiData, urls.value), FreshId(db), now);
        && (created.Failed? ==> out == (ServerError(created.failure), db))
        && (created.Success? ==>
          out == (Response(200, Payload(created.value)), Advance(db).(lessons := db.lessons + [created.value]))))
  {
    match ImageUrls(aiData)
    case None => (ServerError(TypeError), db)
    case Some(urls) =>
      match CreateLesson(Draft(request, user, aiData, urls), FreshId(db), now)
      case Failed(f) => (ServerError(f), db)
      case Success(lesson) => (Response(200, Payload(lesson)), Advance(db).(lessons := db.lessons + [lesson]))
  }

  /** The handler. It refuses with 401 without a session and with 400
      without a content and a title, before calling the model; it answers
      500 when the body is not JSON or when the session has no user;
      otherwise it asks the model in the lesson language and saves the
      explanation. */
  function Post(session: Option<Session>, request: Option<LessonRequest>, db: Db, now: int,
                reply: Ai.AiReply, parse: Ai.Parser): (out: Handled<Lesson>)
    ensures session.None? ==> out == Handled(Refuse(401, Unauthorized), db, None)
    ensures session.Some? && request.None? ==> out == Handled(ServerError(MalformedBody), db, None)
    ensures session.Some? && request.Some? && !(Given(request.value.content) && Given(request.value.title)) ==>
      out == Handled(Refuse(400, Incomplete), db, None)
    ensures session.Some? && request.Some? && Given(request.value.content) && Given(request.value.title) ==>
      (session.value.user.None? ==> out == Handled(ServerError(TypeError), db, None))
    ensures out.asked.Some? <==>
      session.Some? && request.Some? && Given(request.value.content) && Given(request.value.title)
      && session.value.user.Some?
    ensures out.asked.Some? ==>
      var user := session.value.user.value;
      && out.asked == Some(Ai.BuildRequest(request.value.content.value, Options(request.value, user), None))
      && (out.response, out.db)
         == Save(request.value, user, Ai.Interpret(reply, Some(LessonLanguage(request.value, user)), parse), db, now)
  {
    if session.None? then Handled(Refuse(401, Unauthorized), db, None)
    else if request.None? then Handled(ServerError(MalformedBody), db, None)
    else
      var r := request.value;
      if !(Given(r.content) && Given(r.title)) then Handled(Refuse(400, Incomplete), db, None)
      else if session.value.user.None? then Handled(ServerError(TypeError), db, None)
      else
        var user := session.value.user.value;
        var call := Ai.ExplainLesson(r.content.value, Options(r, user), None, reply, parse);
        var saved := Save(r, user, call.result, db, now);
        Handled(saved.0, saved.1, Some(call.request))
  }

  /** A saved lesson records the user, title, language, source type, content
      and time of the request. */
  lemma SavedLessonFollowsRequest(request: LessonRequest, user: SessionUser, aiData: Json, db: Db, now: int)
    requires !aiData.JNull?
    requires Save(request, user, aiData, db, now).0.status == 200
    ensures Save(request, user, aiData, db, now).0.body.Payload?
    ensures var lesson := Save(request, user, aiData, db, now).0.body.value;
      && Some(lesson.userId) == user.id
      && Some(lesson.title) == request.title
      && lesson.language == LessonLanguage(request, user)
      && lesson.sourceType == OrText(request.sourceType, "text")
      && lesson.rawText == request.content
      && lesson.createdAt == now
  {
  }

  /** The language the model is asked to use is the language the lesson is
      stored with. */
  lemma ModelAndLessonShareLanguage(session: Option<Session>, request: Option<LessonRequest>, db: Db, now: int,
                                     reply: Ai.AiReply, parse: Ai.Parser)
    requires Post(session, request, db, now, reply, parse).response.status == 200
    ensures var out := Post(session, request, db, now, reply, parse);
      && out.response.body.Payload?
      && var lesson := out.response.body.value;
      && out.asked.Some?
      && out.asked.value.user == Ai.UserMessage(request.value.content.value, Ai.PromptOptions(Some(lesson.language), Some(OrNumber(session.value.user.value.age, 10))))
      && Some(lesson.userId) == session.value.user.value.id
      && Some(lesson.title) == request.value.title
      && lesson.sourceType == OrText(request.value.sourceType, "text")
      && lesson.rawText == request.value.content
      && lesson.createdAt == now
  {
    var user := session.value.user.value;
    var aiData := Ai.Interpret(reply, Some(LessonLanguage(request.value, user)), parse);
    SavedLessonFollowsRequest(request.value, user, aiData, db, now);
  }

  /** Every URL read from an image list whose images carry URLs is a
      generated image URL. */
  lemma CarriedUrls(aiData: Json)
    requires !aiData.JNull?
    requires aiData.JObj? && "images" in aiData.fields && aiData.fields["images"].JArr? ==>
      forall i :: 0 <= i < |aiData.fields["images"].items| ==> Ai.HasImageUrl(aiData.fields["images"].items[i])
    ensures var urls := ImageUrls(aiData);
      urls.Some? ==> forall i :: 0 <= i < |urls.value| ==> IsPrefix(Ai.ImageEndpoint, ToText(urls.value[i]))
  {
    var urls := ImageUrls(aiData);
    if urls.Some? {
      var items := Ai.ImagesOf(aiData).value.items;
      assert aiData.JObj? && "images" in aiData.fields && aiData.fields["images"] == JArr(items);
      forall i | 0 <= i < |urls.value|
        ensures IsPrefix(Ai.ImageEndpoint, ToText(urls.value[i]))
      {
        assert Ai.HasImageUrl(items[i]);
        assert urls.value[i] == Some(items[i].fields["url"]);
      }
    }
  }

  /** Every URL read from an explanation's image list is a generated image
      URL. */
  lemma InterpretedUrls(reply: Ai.AiReply, language: Option<string>, parse: Ai.Parser)
    ensures var urls := ImageUrls(Ai.Interpret(reply, language, parse));
      urls.Some? ==> forall i :: 0 <= i < |urls.value| ==> IsPrefix(Ai.ImageEndpoint, ToText(urls.value[i]))
  {
    Ai.ExplainedImagesCarryUrls(reply, language, parse);
    CarriedUrls(Ai.Interpret(reply, language, parse));
  }

  /** A lesson saved from an explanation whose image URLs are all
      generated image URLs stores only generated image URLs. */
  lemma SavedImagesAreUrls(request: LessonRequest, user: SessionUser, aiData: Json, db: Db, now: int)
    requires !aiData.JNull?
    requires var urls := ImageUrls(aiData);
      urls.Some? ==> forall i :: 0 <= i < |urls.value| ==> IsPrefix(Ai.ImageEndpoint, ToText(urls.value[i]))
    requires Save(request, user, aiData, db, now).0.status == 200
    ensures Save(request, user, aiData, db, now).0.body.Payload?
    ensures var lesson := Save(request, user, aiData, db, now).0.body.value;
      forall i :: 0 <= i < |lesson.aiImages| ==> IsPrefix(Ai.ImageEndpoint, lesson.aiImages[i])
  {
  }

  /** Every stored image is a generated image URL. */
  lemma StoredImagesAreUrls(session: Option<Session>, request: Option<LessonRequest>, db: Db, now: int,
                            reply: Ai.AiReply, parse: Ai.Parser)
    requires Post(session, request, db, now, reply, parse).response.status == 200
    ensures var body := Post(session, request, db, now, reply, parse).response.body;
      && body.Payload?
      && forall i :: 0 <= i < |body.value.aiImages| ==> IsPrefix(Ai.ImageEndpoint, body.value.aiImages[i])
  {
    var user := session.value.user.value;
    var language := Some(LessonLanguage(request.value, user));
    var aiData := Ai.Interpret(reply, language, parse);
    InterpretedUrls(reply, language, parse);
    SavedImagesAreUrls(request.value, user, aiData, db, now);
  }

  /** When the model cannot be reached, a lesson is still stored, with the
      apology as its explanation and no images. */
  lemma UnreachableModelStoresApology(session: Session, request: LessonRequest, db: Db, now: int, parse: Ai.Parser)
    requires Given(request.content) && Given(request.title)
    requires session.user.Some? && Given(session.user.value.id)
    requires LessonLanguage(request, session.user.value) in Languages
    requires OrText(request.sourceType, "text") in SourceTypes
    ensures var out := Post(Some(session), Some(request), db, now, Ai.NetworkFailure, parse);
      var language := LessonLanguage(request, session.user.value);
      && out.response.status == 200
      && out.response.body.Payload?
      && out.response.body.value.aiExplanation == Some(Ai.FallbackText(Some(language)))
      && out.response.body.value.aiImages == []
      && out.db.lessons == db.lessons + [out.response.body.value]
  {
    var user := session.user.value;
    var language := Some(LessonLanguage(request, user));
    assert Ai.Interpret(Ai.NetworkFailure, language, parse) == Ai.Fallback(language);
    SavedApology(request, user, language, db, now);
  }

  /** Saving the apology stores a lesson with its text and no images. */
  lemma SavedApology(request: LessonRequest, user: SessionUser, language: Option<string>, db: Db, now: int)
    requires Given(request.title) && Given(user.id)
    requires LessonLanguage(request, user) in Languages
    requires OrText(request.sourceType, "text") in SourceTypes
    ensures var out := Save(request, user, Ai.Fallback(language), db, now);
      && out.0.status == 200
      && out.0.body.Payload?
      && out.0.body.value.aiExplanation == Some(Ai.FallbackText(language))
      && out.0.body.value.aiImages == []
      && out.1.lessons == db.lessons + [out.0.body.value]
  {
    var fallback := Ai.Fallback(language);
    assert ImageUrls(fallback) == Some([]);
    ApologyLesson(request, user, language, FreshId(db), now);
  }

  /** The lesson made from the apology holds its text and no images. */
  lemma ApologyLesson(request: LessonRequest, user: SessionUser, language: Option<string>, id: string, now: int)
    requires Given(request.title) && Given(user.id)
    requires LessonLanguage(request, user) in Languages
    requires OrText(request.sourceType, "text") in SourceTypes
    ensures var created := CreateLesson(Draft(request, user, Ai.Fallback(language), []), id, now);
      && created.Success?
      && created.value.aiExplanation == Some(Ai.FallbackText(language))
      && created.value.aiImages == []
  {
    var d := Draft(request, user, Ai.Fallback(language), []);
    assert Member(Some(Ai.Fallback(language)), "text") == Got(Some(JStr(Ai.FallbackText(language))));
    assert d.aiExplanation == Some(JStr(Ai.FallbackText(language)));
  }
}
