/** The router object the registration loop writes to. Its matching
    algorithm lives in a file that is not part of this model, so the model
    keeps only what the loop can observe: registration appends
    `(method, pattern, output index)` to a log, and routing is an arbitrary
    function of that log and the request's method and URI. */
module Routing {
  import opened Wrappers
  import opened HttpTypes

  /** The six methods the registration switch accepts. */
  datatype Method = GET | POST | PUT | DELETE | HEAD | OPTIONS

  function MethodName(m: Method): string
  {
    match m
    case GET => "GET"
    case POST => "POST"
    case PUT => "PUT"
    case DELETE => "DELETE"
    case HEAD => "HEAD"
    case OPTIONS => "OPTIONS"
  }

  /** The registration switch: a method name is accepted exactly when it is
      the name of one of the six methods, and then it names that method. */
  function ParseMethod(s: string): (r: Option<Method>)
    ensures r.Some? ==> MethodName(r.value) == s
    ensures forall m :: MethodName(m) == s ==> r == Some(m)
  {
    if s == "GET" then Some(GET)
    else if s == "POST" then Some(POST)
    else if s == "PUT" then Some(PUT)
    else if s == "DELETE" then Some(DELETE)
    else if s == "HEAD" then Some(HEAD)
    else if s == "OPTIONS" then Some(OPTIONS)
    else None
  }

  /** One call of router.Get, Post, Put, Del, Head or Options. */
  datatype Registration = Registration(verb: Method, pattern: string, index: nat)

  /** What router.Route returns: one of the two sentinels, or an output
      index together with the path parameters it extracted. */
  datatype RouteResult = NotFound | MethodNotAllowed | Matched(index: int, params: Values)

  /** router.Route, left uninterpreted: the main loop is verified for every
      function of the registration log and the request's method and URI. */
  type RouteFn = (seq<Registration>, string, string) -> RouteResult

  /** The router built by NewRouter; its registration log only grows. */
  class Router {
    var routes: seq<Registration>

    constructor ()
      ensures routes == []
    {
      routes := [];
    }

    /** router.Get(pattern, index) and its five siblings, one per method. */
    method Add(m: Method, pattern: string, index: nat)
      modifies this
      ensures routes == old(routes) + [Registration(m, pattern, index)]
    {
      routes := routes + [Registration(m, pattern, index)];
    }
  }
}
