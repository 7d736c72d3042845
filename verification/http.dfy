/**
 * The slice of the Fetch API the handlers touch: the parts of a request they read
 * and the responses they build.
 */
module Http {
  import opened Wrappers
  import opened JsonValue

  /**
   * An incoming request (`verb` is its method). `query` holds the first value of each search parameter,
   * `upgrade` the `Upgrade` header (None when absent), and `body` the result of
   * `request.json()` (None when the body is not JSON, where `json()` rejects).
   */
  datatype Request = Request(
    verb: string,
    path: string,
    query: map<string, string>,
    upgrade: Option<string>,
    body: Option<Json>)

  datatype Body =
    | Text(text: string)
    | JsonBody(json: Json)
    | EventStream(stream: nat)   // the readable side of a session's stream
    | WebSocket(socket: nat)     // the client end of an accepted socket pair

  datatype Response = Response(status: nat, body: Body)

  /** A handler either responds or throws (the promise it returns rejects). */
  datatype Outcome = Respond(response: Response) | Threw

  /** `s.endsWith(suffix)`. */
  predicate EndsWith(s: string, suffix: string)
  {
    |suffix| <= |s| && s[|s| - |suffix|..] == suffix
  }

  /** `s.startsWith(prefix)`. */
  predicate StartsWith(s: string, prefix: string)
  {
    |prefix| <= |s| && s[..|prefix|] == prefix
  }
}
