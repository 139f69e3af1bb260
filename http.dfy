/** What an Express handler of the backend proxy sends back. */
module Http {

  import opened Json

  /** `res.status(status).json(body)`, or no answer at all when the handler
      throws outside any `try` (Express 4 does not catch a rejected async
      handler, so the request is left hanging). */
  datatype Reply = Respond(status: int, body: JValue) | NoReply

  /** `response.ok`: a 2xx status. */
  predicate IsOk(status: int)
  {
    200 <= status <= 299
  }

  /** The answer of a `catch (err)` block: status 500 and `{ error: String(err) }`. */
  function Failure(message: string): (r: Reply)
    ensures r.Respond? && r.status == 500 && !IsOk(r.status)
  {
    Respond(500, ErrorBody(message))
  }

  /** `String(err)` for a TypeError raised by the engine itself (reading a
      property of null or undefined, calling something that is not a
      function); the engine's wording after the class name is not modelled. */
  const EngineTypeError: string := "TypeError"
}
