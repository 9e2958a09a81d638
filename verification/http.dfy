/**
  The responses the handlers produce: a status code and a JSON body.
  `HTTPException(status, detail)` becomes `{"detail": …}`, a
  `JSONResponse` built by the middleware carries `{"message": …}`, and an
  exception nobody catches becomes the framework's plain-text 500.  Also
  what the middleware reads off a request: which paths it gates and when an
  `X-API-Key` header counts as present.
 */
module Http {
  import opened Wrappers
  import Acl

  datatype Body =
    | Detail(detail: string)
    | Message(message: string)
    | IssuedKey(apiKey: string)
    | KeyRecord(record: Acl.ApiKey)
    | Null
    | PlainText(text: string)

  datatype Response = Response(status: nat, body: Body)

  /** What the middleware lets happen to a request: hand it on to the route, or answer it itself. */
  datatype Admission = CallNext | ShortCircuit(response: Response)

  const InternalServerError: Response := Response(500, PlainText("Internal Server Error"))

  const ApiKeyNotFound: string := "API key not found"
  const AccessLimitSet: string := "Access limit set successfully"
  const InvalidApiKey: string := "Invalid API Key"
  const AccessNotAllowed: string := "API access not allowed"
  const QuotaExceeded: string := "API quota exceeded"
  const MissingApiKey: string := "Missing API Key"
  const AccessLimitReached: string := "API access limit reached"

  /** The paths the middleware gates; every other path passes straight through. */
  const RestrictedPaths: seq<string> := ["/restricted-api"]

  /** A header counts as present only when it is there and not empty. */
  predicate HasKey(header: Option<string>)
  {
    header.Some? && header.value != ""
  }
}
