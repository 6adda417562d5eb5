/**
 * The guards of the server's AI endpoints: which reply status a POST to
 * each route gets, depending on whether the AI engine has been loaded, which
 * body fields are present, and whether the handler fails after its field
 * check.
 */
module AiRoutes {

  import opened Wrappers

  datatype Route = PredictCoordinates | EstimateParameters | TransformCoordinates | AnalyzeTopography | Chat

  /** Whether the route answers 503 while the engine is not loaded (every route but the chat). */
  predicate NeedsEngine(route: Route) {
    route != Chat
  }

  /** The body fields a route refuses to run without. */
  function Required(route: Route): set<string> {
    match route
    case PredictCoordinates => {"partialData"}
    case TransformCoordinates => {"coordinates", "fromSystem", "toSystem"}
    case Chat => {"message"}
    case EstimateParameters => {}
    case AnalyzeTopography => {}
  }

  /** The error text of the 400 reply, for the routes that have one. */
  function MissingFieldError(route: Route): string
    requires Required(route) != {}
  {
    match route
    case PredictCoordinates => "partialData gereklidir"
    case TransformCoordinates => "coordinates, fromSystem ve toSystem gereklidir"
    case Chat => "Mesaj gereklidir"
  }

  /** What the 500 reply puts in front of the error's message. */
  function FailurePrefix(route: Route): string {
    match route
    case PredictCoordinates => "AI kestirim hatası: "
    case EstimateParameters => "Parametre kestirim hatası: "
    case TransformCoordinates => "Dönüşüm hatası: "
    case AnalyzeTopography => "Analiz hatası: "
    case Chat => "Chat hatası: "
  }

  const Unavailable := "Aries AI şu anda kullanılamıyor"
  const TryLater := "Lütfen daha sonra tekrar deneyin"

  /** A reply's status code and the `error` and `suggestion` fields of its body. */
  datatype Reply = Reply(status: nat, error: Option<string>, suggestion: Option<string>)

  /**
   * The reply to a POST to `route`. `present` holds the body fields whose
   * values are truthy; `failure` is the message of the error the handler
   * throws after its field check, if it throws: the engine call on an engine
   * route, and the conversion of `context` to a property key on the chat.
   */
  function Respond(engineLoaded: bool, route: Route, present: set<string>, failure: Option<string>): (r: Reply)
    ensures NeedsEngine(route) && !engineLoaded ==> r == Reply(503, Some(Unavailable), Some(TryLater))
    ensures engineLoaded || !NeedsEngine(route) ==> (r.status == 400 <==> !(Required(route) <= present))
    ensures r.status == 400 ==> r.error == Some(MissingFieldError(route)) && r.suggestion.None?
    ensures r.status == 500 <==> (engineLoaded || !NeedsEngine(route)) && Required(route) <= present && failure.Some?
    ensures r.status == 500 ==> r.error == Some(FailurePrefix(route) + failure.value)
    ensures r.status == 200 <==>
      (engineLoaded || !NeedsEngine(route)) && Required(route) <= present && failure.None?
    ensures r.status == 200 ==> r.error.None?
  {
    if NeedsEngine(route) && !engineLoaded then Reply(503, Some(Unavailable), Some(TryLater))
    else if !(Required(route) <= present) then Reply(400, Some(MissingFieldError(route)), None)
    else if failure.Some? then Reply(500, Some(FailurePrefix(route) + failure.value), None)
    else Reply(200, None, None)
  }

  /** Without the engine, an engine route's reply does not depend on the request body or on the engine. */
  lemma UnavailableFirst(route: Route, present1: set<string>, present2: set<string>, f1: Option<string>, f2: Option<string>)
    requires NeedsEngine(route)
    ensures Respond(false, route, present1, f1) == Respond(false, route, present2, f2)
    ensures Respond(false, route, present1, f1).status == 503
  {
  }

  /**
   * The chat answers whether or not the engine is loaded: a missing message
   * is refused, a failure after that is a 500, and otherwise it replies.
   */
  lemma ChatNeverUnavailable(engineLoaded: bool, present: set<string>, failure: Option<string>)
    ensures Respond(engineLoaded, Chat, present, failure).status ==
      if "message" !in present then 400 else if failure.Some? then 500 else 200
  {
  }

  /** A coordinate transformation is refused when any one of its three fields is missing. */
  lemma TransformNeedsAllThree(present: set<string>, failure: Option<string>)
    ensures Respond(true, TransformCoordinates, present, failure).status == 400
      <==> "coordinates" !in present || "fromSystem" !in present || "toSystem" !in present
  {
  }
}
