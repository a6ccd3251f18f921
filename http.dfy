/**
  What the service exchanges with its collaborators: backend responses, the
  outbound calls a request makes (kept as a trace, so that "no login" or
  "no search" can be stated), and the failures a client can see.
*/
module Http {

  /** `Response.raise_for_status()` raises for a 4xx or 5xx status and for nothing else. */
  predicate IsErrorStatus(status: int) {
    400 <= status < 600
  }

  /** A backend response: its status and its decoded JSON body. */
  datatype Response<T> = Response(status: int, body: T)

  /** A query-string value. */
  datatype Param = Number(n: int) | Str(s: string)

  /** One outbound call, in the order the service makes them. */
  datatype Call =
    | SignIn                                                        // POST /auth/signin
    | Get(path: string, params: map<string, Param>, token: string)  // GET with a bearer token
    | ExtractCall(question: string)                                 // language model: parameter extraction
    | SynthesizeCall(question: string, context: string)             // language model: answer rewriting

  /** Why an `HTTPException` was raised. */
  datatype Reason =
    | LoginFailed      // sign-in answered other than 200
    | ParseFailed      // the extraction arguments were not JSON
    | NoCompany        // no company after normalisation
    | NoInterviewees   // the search found nobody
    | NoSummaries      // no candidate had a usable detail

  /** The status each reason is raised with. */
  function StatusFor(reason: Reason): int {
    match reason
    case ParseFailed => 400
    case NoCompany => 400
    case NoInterviewees => 404
    case NoSummaries => 404
    case LoginFailed => 500
  }

  datatype Failure =
    | Raised(status: int, reason: Reason)  // an HTTPException with that status
    | Upstream(status: int)                // requests' HTTPError from raise_for_status
    | SynthesisFailed                      // the answer completion carried no text

  /** A raised failure carries its reason's status, and an upstream one an error status. */
  predicate WellFormed(f: Failure) {
    match f
    case Raised(status, reason) => status == StatusFor(reason)
    case Upstream(status) => IsErrorStatus(status)
    case SynthesisFailed => true
  }

  /** The status the client receives: that of an HTTPException, else 500 for an unhandled error. */
  function ClientStatus(f: Failure): (code: int)
    ensures f.Raised? ==> code == f.status
    ensures !f.Raised? ==> code == 500
  {
    match f
    case Raised(status, _) => status
    case _ => 500
  }
}
