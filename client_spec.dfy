/** The http-client node (client/main.go) as a state machine over values.
    The node collects a URL, a method, headers and form data from its input
    ports; once everything it waits for is there it performs one HTTP
    request, sends the outcome to its output ports and forgets the four
    values. Polling, receiving, JSON decoding, URL parsing and the HTTP call
    are inputs of a step; what the node sends is its output. */
module ClientSpec {
  import opened Wrappers
  import opened GoStrings
  import opened Runtime
  import opened HttpTypes

  /** The seven port flags; an empty endpoint means the port is not connected. */
  datatype Config = Config(url: string, httpMethod: string, headers: string, form: string,
                           resp: string, body: string, err: string)

  /** The start-up check (lines 52-59): the URL and method ports are
      required, and at least one of the resp and body ports. */
  predicate ArgsOk(c: Config)
  {
    c.url != "" && c.httpMethod != "" && !(c.resp == "" && c.body == "")
  }

  /** The four loop variables. `None` is a nil map. */
  datatype Fields = Fields(url: string, httpMethod: string, headers: Option<Values>, data: Option<Values>)

  /** The values the loop variables start with and are reset to. */
  const Empty: Fields := Fields("", "", None, None)

  /** The socket a polled item belongs to. `Unknown` stands for an item
      without a socket and for any socket the switch does not handle. */
  datatype Source = UrlPort | MethodPort | HeadersPort | FormPort | Unknown

  /** One polled item and what was received from it; a receive error is an
      invalid packet. */
  datatype Event = Event(source: Source, packet: Packet)

  /** The outcome of poller.Poll. */
  datatype ClientPoll = PollFailed | Polled(events: seq<Event>)

  /** json.Unmarshal into a map variable: a decoding error leaves it alone,
      `null` makes it nil, and an object is added into the existing map
      (into a fresh one when the map is nil), overwriting equal keys. */
  function Unmarshal(current: Option<Values>, d: Decoded<Values>): Option<Values>
  {
    match d
    case DecodeError => current
    case DecodedNull => None
    case Decoded(m) => if current.None? then Some(m) else Some(current.value + m)
  }

  /** The body of the inner loop (lines 167-204) for one polled item. The
      headers and form cases apply only when that port is connected, since
      otherwise its socket is nil and no item belongs to it. */
  function AbsorbEvent(c: Config, f: Fields, e: Event, decode: string -> Decoded<Values>): Fields
  {
    match e.packet
    case InvalidIP => f
    case IP(payload) =>
      match e.source
      case UrlPort => f.(url := payload)
      case MethodPort => f.(httpMethod := ToUpper(payload))
      case HeadersPort =>
        if c.headers == "" then f else f.(headers := Unmarshal(f.headers, decode(payload)))
      case FormPort =>
        if c.form == "" then f else f.(data := Unmarshal(f.data, decode(payload)))
      case Unknown => f
  }

  /** The whole inner loop: the items handled in order. */
  function AbsorbAll(c: Config, f: Fields, events: seq<Event>, decode: string -> Decoded<Values>): Fields
  {
    if events == [] then f
    else AbsorbEvent(c, AbsorbAll(c, f, events[..|events| - 1], decode), events[|events| - 1], decode)
  }

  /** The readiness test at line 207: a request is attempted only when the
      method and the URL are set and the headers and form data are present
      whenever their ports are connected. */
  predicate Ready(c: Config, f: Fields)
  {
    && f.httpMethod != "" && f.url != ""
    && (c.headers != "" ==> f.headers.Some?)
    && (c.form != "" ==> f.data.Some?)
  }

  /** A token character of section 3.2.6 of RFC 7230. */
  predicate IsTokenChar(ch: char)
  {
    || ('a' <= ch <= 'z') || ('A' <= ch <= 'Z') || ('0' <= ch <= '9')
    || ch in "!#$%&'*+-.^_`|~"
  }

  /** The method check of http.NewRequest: a non-empty token. */
  predicate ValidMethod(m: string)
  {
    m != "" && forall k :: 0 <= k < |m| ==> IsTokenChar(m[k])
  }

  /** Whether every header has a value to take the first of. */
  predicate HasFirstValues(headers: Option<Values>)
  {
    headers.Some? ==> forall k :: k in headers.value ==> |headers.value[k]| > 0
  }

  /** The request header built by lines 217-219: the first value of each
      key. A nil map yields no header. */
  function FirstValues(headers: Option<Values>): (h: Values)
    requires HasFirstValues(headers)
  {
    if headers.None? then map[]
    else map k | k in headers.value :: [headers.value[k][0]]
  }

  /** The request handed to client.Do. `body` is the form data whose URL
      encoding the request carries, or `None` for a request without body. */
  datatype ClientRequest = ClientRequest(httpMethod: string, url: string, header: Values, body: Option<Values>)

  /** What performing the request can come to: client.Do fails, reading the
      body fails (Response2Response), encoding the reply fails
      (Response2IP), or the reply with its status, header and body. */
  datatype DoOutcome =
    | DoFailed(message: string)
    | ReadFailed(message: string)
    | EncodeFailed(message: string)
    | Completed(status: int, header: Values, body: string)

  /** A packet the node sends, by output port. */
  datatype ClientSend = ToErr(text: string) | ToResp(response: HttpResponse) | ToBody(body: string)

  /** The reply encoded for the resp port: Response2Response sets no id. */
  function Reply(status: int, header: Values, body: string): HttpResponse
  {
    HttpResponse("", status, Some(header), body)
  }

  /** Lines 222-263: what goes out for an outcome, port by port. */
  function Outputs(c: Config, outcome: DoOutcome): seq<ClientSend>
  {
    match outcome
    case Completed(status, header, body) =>
      (if c.resp != "" then [ToResp(Reply(status, header, body))] else [])
      + (if c.body != "" then [ToBody(body)] else [])
    case _ => if c.err != "" then [ToErr(outcome.message)] else []
  }

  /** The result of one iteration: the new loop variables, the request
      performed if any, the packets sent and whether the process goes on. */
  datatype ClientStep = ClientStep(fields: Fields, request: Option<ClientRequest>,
                                   sends: seq<ClientSend>, status: Status)

  /** Lines 211-268 on ready fields: build the request (exiting when
      http.NewRequest rejects the method or the URL, and panicking on a
      header without values), perform it, send the outcome, reset. */
  function Attempt(c: Config, f: Fields, urlOk: string -> bool,
                   perform: ClientRequest -> DoOutcome): ClientStep
  {
    if !ValidMethod(f.httpMethod) || !urlOk(f.url) then ClientStep(f, None, [], Exited)
    else if !HasFirstValues(f.headers) then ClientStep(f, None, [], Crashed)
    else
      var request := ClientRequest(f.httpMethod, f.url, FirstValues(f.headers), f.data);
      ClientStep(Empty, Some(request), Outputs(c, perform(request)), Running)
  }

  /** One iteration of the main loop (lines 161-268). */
  function Next(c: Config, f: Fields, poll: ClientPoll, decode: string -> Decoded<Values>,
                urlOk: string -> bool, perform: ClientRequest -> DoOutcome): ClientStep
  {
    match poll
    case PollFailed => ClientStep(f, None, [], Running)
    case Polled(events) =>
      var g := AbsorbAll(c, f, events, decode);
      if !Ready(c, g) then ClientStep(g, None, [], Running)
      else Attempt(c, g, urlOk, perform)
  }
}
