/** The hotel recommendation endpoint `/api/ai/hotels`: it asks the language
    model for three picks and, when the model's answer is not JSON, falls
    back to fixed positions in the hotel list. */
module Recommend {

  import opened Json
  import opened Http

  /** What the model call yields: a thrown error (a rejected `fetch` or a
      body `r.json()` cannot read) with the text `String(err)` gives, or the
      parsed body. */
  datatype ModelCall = Threw(message: string) | Answered(body: JValue)

  /** `v[0]`: the first element of an array, the property "0" of an object,
      the first character of a string. */
  function First(v: JValue): (r: Option<JValue>)
    ensures v.JArr? && v.items != [] ==> r == Some(v.items[0])
    ensures v.JNull? || v.JBool? || v.JNum? ==> r.None?
  {
    match v
    case JArr(items) => if items != [] then Some(items[0]) else None
    case JObj(f) => if "0" in f then Some(f["0"]) else None
    case JStr(s) => if s != [] then Some(JStr([s[0]])) else None
    case _ => None
  }

  /** `aiResponse.choices[0]?.message?.content`, read only when `choices` is
      truthy (a falsy `choices` short-circuits the condition). */
  function Content(body: JValue): Option<JValue>
    requires !body.JNull?
  {
    var choices := Get(body, "choices");
    if !Present(choices) then None
    else
      var first := First(choices.value);
      GetOpt(GetOpt(first, "message"), "content")
  }

  /** Building the prompt reads `name`, `address`, `rating`, `pricing` and
      `distance` of every hotel and calls `toFixed` on a truthy distance: it
      throws unless `hotels` is an array of non-null entries whose truthy
      distances are numbers. */
  predicate PromptBuilds(hotels: Option<JValue>)
  {
    && hotels.Some? && hotels.value.JArr?
    && forall i :: 0 <= i < |hotels.value.items| ==>
         && !hotels.value.items[i].JNull?
         && (Present(Get(hotels.value.items[i], "distance")) ==>
               Get(hotels.value.items[i], "distance").value.JNum?)
  }

  function Min(a: int, b: int): int
  {
    if a <= b then a else b
  }

  /** The list positions of the fallback picks for `n` hotels: best budget,
      most luxurious and best overall. No price or rating is consulted. */
  function FallbackIndices(n: int): (r: seq<int>)
    ensures |r| == 3
  {
    [0, Min(1, n - 1), Min(2, n - 1)]
  }

  function Pick(index: int, reason: string): JValue
  {
    JObj(map["index" := JNum(index), "reason" := JStr(reason)])
  }

  function FallbackPicks(n: int): JValue
  {
    var ix := FallbackIndices(n);
    JObj(map[
      "bestBudget" := Pick(ix[0], "Most affordable option available"),
      "mostLuxurious" := Pick(ix[1], "Premium accommodation with excellent amenities"),
      "bestOverall" := Pick(ix[2], "Perfect balance of price, location, and quality")])
  }

  function Success(recommendations: JValue): JValue
  {
    JObj(map["success" := JBool(true), "recommendations" := recommendations])
  }

  /** The handler (lines 244-316). `parsedContent` is the outcome of
      `JSON.parse` on the model's content (None when it throws). */
  function Recommendations(hotels: Option<JValue>, call: ModelCall, parsedContent: Option<JValue>): (r: Reply)
    ensures !PromptBuilds(hotels) ==> r == Failure(EngineTypeError)
    ensures PromptBuilds(hotels) && call.Threw? ==> r == Failure(call.message)
    ensures PromptBuilds(hotels) && call.Answered? && call.body.JNull? ==> r == Failure(EngineTypeError)
    ensures PromptBuilds(hotels) && call.Answered? && !call.body.JNull?
            && !Present(Get(call.body, "choices")) ==>
      r == Failure("Error: Invalid AI response")
    ensures PromptBuilds(hotels) && call.Answered? && !call.body.JNull?
            && !Present(Content(call.body)) ==>
      r == Failure("Error: Invalid AI response")
    ensures PromptBuilds(hotels) && call.Answered? && !call.body.JNull?
            && Present(Content(call.body)) ==>
      r == Respond(200, Success(if parsedContent.Some? then parsedContent.value
                                else FallbackPicks(|hotels.value.items|)))
    ensures r.Respond? && (r.status == 200 || r.status == 500)
  {
    if !PromptBuilds(hotels) then Failure(EngineTypeError)
    else
      match call
      case Threw(message) => Failure(message)
      case Answered(body) =>
        if body.JNull? then Failure(EngineTypeError)
        else if !Present(Content(body)) then Failure("Error: Invalid AI response")
        else if parsedContent.Some? then Respond(200, Success(parsedContent.value))
        else Respond(200, Success(FallbackPicks(|hotels.value.items|)))
  }

  /** The fallback picks are valid positions whenever there is a hotel; with
      three or more hotels they are three different hotels, with one hotel
      all three are that hotel, and with two the last two picks coincide. */
  lemma FallbackSpread(n: int)
    ensures n >= 1 ==> forall k :: 0 <= k < 3 ==> 0 <= FallbackIndices(n)[k] < n
    ensures n >= 3 ==> FallbackIndices(n) == [0, 1, 2]
    ensures n == 2 ==> FallbackIndices(n) == [0, 1, 1]
    ensures n == 1 ==> FallbackIndices(n) == [0, 0, 0]
    ensures n == 0 ==> FallbackIndices(n) == [0, -1, -1]
  {
  }

  /** The fallback answer names the indices above under the three category
      keys. */
  lemma FallbackPicksIndices(n: int)
    ensures GetOpt(Get(FallbackPicks(n), "bestBudget"), "index") == Some(JNum(FallbackIndices(n)[0]))
    ensures GetOpt(Get(FallbackPicks(n), "mostLuxurious"), "index") == Some(JNum(FallbackIndices(n)[1]))
    ensures GetOpt(Get(FallbackPicks(n), "bestOverall"), "index") == Some(JNum(FallbackIndices(n)[2]))
  {
  }
}
