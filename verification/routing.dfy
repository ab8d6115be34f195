/** What every route handler shares: its outcome, and the `||` defaults
    applied to request fields. */
module Routing {
  import opened Optional
  import opened Http
  import opened Store
  import Ai

  /** A handler's outcome: the reply, the database afterwards, and the
      request sent to the language model, if any. */
  datatype Handled<T> = Handled(response: Response<T>, db: Db, asked: Option<Ai.AiRequest>)

  /** `v || d` on a string field: the value when it is a non-empty string. */
  function OrText(v: Option<string>, d: string): (r: string)
    ensures v.Some? && v.value != "" ==> r == v.value
    ensures v.None? || v.value == "" ==> r == d
  {
    if v.Some? && v.value != "" then v.value else d
  }

  /** `v || d` on a number field: the value when it is a non-zero number,
      so an age of 0 takes the default. */
  function OrNumber(v: Option<int>, d: int): (r: int)
    ensures v.Some? && v.value != 0 ==> r == v.value
    ensures v.None? || v.value == 0 ==> r == d
  {
    if v.Some? && v.value != 0 then v.value else d
  }

  /** The body of the exercise and quiz generation requests. */
  datatype GenerateRequest = GenerateRequest(
    lessonId: Option<string>, lessonContent: Option<string>, language: Option<string>, age: Option<int>)
}
