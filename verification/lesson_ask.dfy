/** A free question to the tutor: `POST /api/lesson/ask`. No session is
    required and nothing is stored. */
module LessonAsk {
  import opened Optional
  import opened Js
  import opened Http
  import opened Routing
  import Ai

  datatype AskRequest = AskRequest(question: Option<string>, language: Option<string>, age: Option<int>)

  /** The reply and the request sent to the model, if any. */
  datatype Asked = Asked(response: Response<Json>, asked: Option<Ai.AiRequest>)

  const Missing := "Question is required"

  /** The options of the explanation call: English and age 10 unless the
      request gives a non-empty language and a non-zero age. */
  function Options(request: AskRequest): (o: Ai.PromptOptions)
    ensures o.language == Some(OrText(request.language, "en"))
    ensures o.age == Some(OrNumber(request.age, 10))
  {
    Ai.PromptOptions(Some(OrText(request.language, "en")), Some(OrNumber(request.age, 10)))
  }

  /** The handler: 500 when the body is not JSON, 400 without a question and
      without calling the model, otherwise the explanation as it comes. */
  function Post(request: Option<AskRequest>, reply: Ai.AiReply, parse: Ai.Parser): (out: Asked)
    ensures request.None? ==> out == Asked(ServerError(MalformedBody), None)
    ensures request.Some? && (request.value.question.None? || request.value.question.value == "") ==>
      out == Asked(Refuse(400, Missing), None)
    ensures request.Some? && request.value.question.Some? && request.value.question.value != "" ==>
      && out.asked == Some(Ai.BuildRequest(request.value.question.value, Options(request.value), None))
      && out.response == Response(200, Payload(Ai.Interpret(reply, Some(OrText(request.value.language, "en")), parse)))
  {
    if request.None? then Asked(ServerError(MalformedBody), None)
    else
      var r := request.value;
      if r.question.None? || r.question.value == "" then Asked(Refuse(400, Missing), None)
      else
        var call := Ai.ExplainLesson(r.question.value, Options(r), None, reply, parse);
        Asked(Response(200, Payload(call.result)), Some(call.request))
  }

  /** A well-formed request with a question is always answered with 200:
      failures of the model come back as the apology in the asked language,
      or in English when none is given. */
  lemma AskedQuestionIsAnswered(request: AskRequest, parse: Ai.Parser)
    requires request.question.Some? && request.question.value != ""
    ensures Post(Some(request), Ai.NetworkFailure, parse).response
      == Response(200, Payload(Ai.Fallback(Some(OrText(request.language, "en")))))
    ensures request.language.None? ==>
      Post(Some(request), Ai.NetworkFailure, parse).response.body.value.fields["text"] == JStr(Ai.FallbackEnglish)
  {
  }
}
