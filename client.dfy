/** The request side of the provider's API supplement (`ApiSupplement`).

    The Okta server is not modelled. A client records every request it hands to
    its request executor in `trace`, and answers from two fixed inputs: the role
    list that every list request returns, and the set of trace positions whose
    request fails (building the request or sending it). */
module Client {

  datatype Option<T> = None | Some(value: T)

  /** A Go `(value, error)` pair in which exactly one side is meaningful. */
  datatype Result<T> = Ok(value: T) | Err(error: Error)

  datatype Verb = GET | POST | DELETE

  /** An `okta.Role`: the assignment id the server gave it and its role type. */
  datatype Role = Role(id: string, roleType: string)

  /** One request: its verb, its path (with the query string, if any) and its body. */
  datatype Request = Request(verb: Verb, path: string, body: Option<Role>)

  /** Which `fmt.Errorf` wrapper an error went through. */
  datatype Context =
    | GettingRoles    // "Error Getting Admin Roles from <target>"
    | AssigningRoles  // "Error Assigning Admin Roles to <target>"
    | UpdatingRoles   // "Error Updating Admin Roles On <target>"

  datatype Error =
    | RequestFailed(request: Request)  // the SDK's error for this request
    | InvalidRole(role: string)        // "<role> is not a valid Okta role"
    | Wrapped(context: Context, target: string, cause: Error)

  /** The error underneath all the wrappers. */
  function RootCause(e: Error): (c: Error)
    ensures !c.Wrapped?
    ensures !e.Wrapped? ==> c == e
  {
    match e
    case Wrapped(_, _, cause) => RootCause(cause)
    case _ => e
  }

  /** What a procedure did: the requests it issued, in order, and the error it
      returned (`None` for Go's nil error). */
  datatype Run = Run(sent: seq<Request>, err: Option<Error>)

  class ApiSupplement {
    /** Every request handed to the request executor so far, oldest first. */
    var trace: seq<Request>
    /** What the server answers to a list request. */
    const listed: seq<Role>
    /** Positions in `trace` of the requests that fail. */
    const failing: set<nat>

    constructor (listed: seq<Role>, failing: set<nat>)
      ensures trace == [] && this.listed == listed && this.failing == failing
    {
      trace := [];
      this.listed := listed;
      this.failing := failing;
    }

    /** `requestExecutor.NewRequest` followed by `requestExecutor.Do`. */
    method Execute(req: Request) returns (ok: bool)
      modifies this
      ensures trace == old(trace) + [req]
      ensures ok <==> |old(trace)| !in failing
    {
      ok := |trace| !in failing;
      trace := trace + [req];
    }
  }
}
