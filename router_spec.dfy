/** The http-router node (router/main.go) as a state machine over values.
    The node reads route patterns from its pattern ports, one line per port,
    retiring each port once it has delivered its line, and routes every
    request that arrives on its request port, either to the success port
    bound to the matched pattern or, as a 404 or 405 response, to the fail
    port. Sockets are opaque identities; polling, receiving and JSON decoding
    are inputs of a step, sends are its outputs. */
module RouterSpec {
  import opened Wrappers
  import opened GoStrings
  import opened Runtime
  import opened HttpTypes
  import opened Routing

  /** The four port flags: comma-separated pattern and success endpoint
      lists, the request endpoint and the fail endpoint. */
  datatype Args = Args(pattern: string, request: string, success: string, fail: string)

  /** validateArgs: the node starts only when every flag is set and the two
      lists name as many endpoints, that is, have as many commas; on any
      other input the process exits with status 1. */
  function ValidateArgs(a: Args): (ok: bool)
    ensures ok <==> && a.pattern != "" && a.request != "" && a.success != "" && a.fail != ""
                    && Count(a.pattern, ',') == Count(a.success, ',')
  {
    SplitCount(a.pattern, ',');
    SplitCount(a.success, ',');
    && a.pattern != "" && a.request != "" && a.success != "" && a.fail != ""
    && |Split(a.pattern, ',')| == |Split(a.success, ',')|
  }

  /** A ZeroMQ socket, identified by the order in which the node created it. */
  datatype Socket = Socket(id: nat, endpoint: string)

  /** The outcome of zmq.Poll: an error, or the sockets with input waiting. */
  datatype PollResult = PollError | Polled(ready: set<Socket>)

  /** What the node writes to an output socket, before JSON encoding. */
  datatype Outbound = ResponseOut(response: HttpResponse) | RequestOut(request: HttpRequest)

  datatype Send = Send(to: Socket, message: Outbound)

  /** The node's variables: the sockets opened at start-up, the live poll
      list and its length counter `pLength`, the loop variable `index`
      (which keeps its value across iterations that end in `continue`), the
      router's registration log, and the sockets the loop has closed. */
  datatype State = State(
    requestPort: Socket,
    failPort: Socket,
    patternPorts: seq<Socket>,
    successPorts: seq<Socket>,
    pollItems: seq<Socket>,
    pLength: int,
    index: int,
    routes: seq<Registration>,
    closed: set<Socket>)

  datatype StepResult = StepResult(state: State, sends: seq<Send>, status: Status)

  /** The ports of `ports` that are not closed, in their original order. */
  function Unclosed(ports: seq<Socket>, closed: set<Socket>): (r: seq<Socket>)
    ensures |r| <= |ports|
  {
    if ports == [] then []
    else (if ports[0] in closed then [] else [ports[0]]) + Unclosed(ports[1..], closed)
  }

  ghost predicate Distinct(ports: seq<Socket>)
  {
    forall i, j :: 0 <= i < j < |ports| ==> ports[i] != ports[j]
  }

  /** The sockets opened at start-up: one success port per pattern port, no
      pattern port twice, and the request and fail ports apart from each
      other and from both lists. */
  ghost predicate PortsValid(requestPort: Socket, failPort: Socket,
                             patternPorts: seq<Socket>, successPorts: seq<Socket>)
  {
    && |patternPorts| == |successPorts|
    && Distinct(patternPorts)
    && requestPort != failPort
    && requestPort !in patternPorts && requestPort !in successPorts
    && failPort !in patternPorts && failPort !in successPorts
  }

  /** The poll list is the pattern ports not yet retired, in declaration
      order, followed by the request port, and `pLength` is its length. */
  ghost predicate PollValid(requestPort: Socket, patternPorts: seq<Socket>, closed: set<Socket>,
                            pollItems: seq<Socket>, pLength: int)
  {
    && (forall p :: p in closed ==> p in patternPorts)
    && pollItems == Unclosed(patternPorts, closed) + [requestPort]
    && pLength == |pollItems|
  }

  /** Every registration names a retired pattern port, and no pattern port
      is registered twice. */
  ghost predicate RoutesValid(routes: seq<Registration>, patternPorts: seq<Socket>, closed: set<Socket>)
  {
    && (forall k :: 0 <= k < |routes| ==>
          routes[k].index < |patternPorts| && patternPorts[routes[k].index] in closed)
    && (forall k, l :: 0 <= k < l < |routes| ==> routes[k].index != routes[l].index)
  }

  /** The invariant of the main loop. It does not constrain `index`. */
  ghost predicate Valid(s: State)
  {
    && PortsValid(s.requestPort, s.failPort, s.patternPorts, s.successPorts)
    && PollValid(s.requestPort, s.patternPorts, s.closed, s.pollItems, s.pLength)
    && RoutesValid(s.routes, s.patternPorts, s.closed)
  }

  /** Socket of the i-th pattern endpoint (the i-th socket pair opened). */
  function PatternSocket(patterns: seq<string>, i: nat): Socket
    requires i < |patterns|
  {
    Socket(2 + 2 * i, TrimSpace(patterns[i]))
  }

  /** Socket of the i-th success endpoint. */
  function SuccessSocket(successes: seq<string>, i: nat): Socket
    requires i < |successes|
  {
    Socket(3 + 2 * i, TrimSpace(successes[i]))
  }

  /** openPorts, the request item appended at line 130, and the initial
      values of the loop variables. */
  function Setup(a: Args): State
    requires ValidateArgs(a)
  {
    var patterns := Split(a.pattern, ',');
    var successes := Split(a.success, ',');
    var request := Socket(0, a.request);
    var pp := seq(|patterns|, i requires 0 <= i < |patterns| => PatternSocket(patterns, i));
    var sp := seq(|successes|, i requires 0 <= i < |successes| => SuccessSocket(successes, i));
    State(request, Socket(1, a.fail), pp, sp, pp + [request], |pp| + 1, -1, [], {})
  }

  /** Position of the first poll item with input waiting. */
  function FirstReady(items: seq<Socket>, ready: set<Socket>): (r: Option<nat>)
    ensures r.Some? ==> r.value < |items| && items[r.value] in ready
    ensures r.Some? ==> forall j :: 0 <= j < r.value ==> items[j] !in ready
    ensures r.None? <==> forall j :: 0 <= j < |items| ==> items[j] !in ready
  {
    if items == [] then None
    else if items[0] in ready then Some(0)
    else match FirstReady(items[1..], ready)
      case None => None
      case Some(j) => Some(j + 1)
  }

  /** The value of `index` after the search loop: the first ready item, or
      the previous value when no item is ready. */
  function SelectIndex(items: seq<Socket>, ready: set<Socket>, previous: int): int
  {
    match FirstReady(items, ready)
    case Some(i) => i
    case None => previous
  }

  /** The value of `outputIndex` after the loop over `patternPorts`, which
      does not break: the last position holding `port`, or -1. */
  function LastIndexOf(ports: seq<Socket>, port: Socket): (r: int)
    ensures -1 <= r < |ports|
    ensures r == -1 <==> port !in ports
    ensures r >= 0 ==> ports[r] == port && forall j :: r < j < |ports| ==> ports[j] != port
  {
    if ports == [] then -1
    else if ports[|ports| - 1] == port then |ports| - 1
    else LastIndexOf(ports[..|ports| - 1], port)
  }

  /** A registration line after trimming and upper-casing. */
  datatype RouteLine = RouteLine(verb: string, pattern: string)

  /** The parsing at lines 198-200: there is a result exactly when the line
      holds a space (otherwise parts[1] is out of range). */
  function ParseRegistration(line: string): (r: Option<RouteLine>)
    ensures r.Some? <==> ' ' in line
  {
    var parts := Split(line, ' ');
    SplitCount(line, ' ');
    if |parts| < 2 then None
    else Some(RouteLine(ToUpper(TrimSpace(parts[0])), TrimSpace(parts[1])))
  }

  /** req.Form after the merge loop; a nil Form stays nil (the loop can only
      run on it when there are no parameters). */
  function MergedForm(form: Option<Values>, params: Values): Option<Values>
  {
    if form.None? then None else Some(form.value + params)
  }

  /** The response synthesised for a routing miss. */
  function MissResponse(id: string, status: int): HttpResponse
  {
    HttpResponse(id, status, None, "")
  }

  /** One iteration of the main loop, given the poll outcome, the packet
      received from the selected item, the JSON decoder for requests and the
      router's Route function. */
  function Next(s: State, poll: PollResult, msg: Packet,
                decode: string -> Decoded<HttpRequest>, route: RouteFn): StepResult
  {
    match poll
    case PollError => StepResult(s, [], Exited)
    case Polled(ready) =>
      var s1 := s.(index := SelectIndex(s.pollItems, ready, s.index));
      if !(0 <= s1.index < |s1.pollItems|) then StepResult(s1, [], Crashed)
      else match msg
        case InvalidIP => StepResult(s1, [], Running)
        case IP(payload) =>
          if s1.index < s1.pLength - 1 then RegisterPattern(s1, payload)
          else HandleRequest(s1, payload, decode, route)
  }

  /** The state right after the selected pattern port is closed and spliced
      out of the poll list, before anything is registered
      (lines 178-179 and 194-195). */
  function Retired(s: State): State
    requires 0 <= s.index < |s.pollItems|
  {
    var port := s.pollItems[s.index];
    s.(closed := s.closed + {port},
       pollItems := s.pollItems[..s.index] + s.pollItems[s.index + 1..],
       pLength := s.pLength - 1)
  }

  /** Lines 176-217: close the selected pattern socket, find its output
      index, take it out of the poll list and register its line. */
  function RegisterPattern(s: State, payload: string): StepResult
    requires 0 <= s.index < |s.pollItems|
  {
    var port := s.pollItems[s.index];
    var outputIndex := LastIndexOf(s.patternPorts, port);
    if outputIndex == -1 then StepResult(s.(closed := s.closed + {port}), [], Running)
    else
      var t := Retired(s);
      match ParseRegistration(payload)
      case None => StepResult(t, [], Crashed)
      case Some(line) =>
        match ParseMethod(line.verb)
        case None => StepResult(t, [], Running)
        case Some(m) =>
          StepResult(t.(routes := t.routes + [Registration(m, line.pattern, outputIndex)]), [], Running)
  }

  /** Lines 221-255: decode the request, route it and send it on. */
  function HandleRequest(s: State, payload: string,
                         decode: string -> Decoded<HttpRequest>, route: RouteFn): StepResult
  {
    match decode(payload)
    case DecodeError => StepResult(s, [], Running)
    case DecodedNull => StepResult(s, [], Crashed)
    case Decoded(req) =>
      var done := s.(index := -1);
      match route(s.routes, req.httpMethod, req.uri)
      case NotFound =>
        StepResult(done, [Send(s.failPort, ResponseOut(MissResponse(req.id, StatusNotFound)))], Running)
      case MethodNotAllowed =>
        StepResult(done, [Send(s.failPort, ResponseOut(MissResponse(req.id, StatusMethodNotAllowed)))], Running)
      case Matched(i, params) =>
        if req.form.None? && params.Keys != {} then StepResult(s, [], Crashed)
        else if !(0 <= i < |s.successPorts|) then StepResult(s, [], Crashed)
        else
          var forwarded := req.(form := MergedForm(req.form, params));
          StepResult(done, [Send(s.successPorts[i], RequestOut(forwarded))], Running)
  }
}
