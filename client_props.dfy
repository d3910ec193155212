/** What the http-client loop guarantees: which messages change which loop
    variable, when a request is attempted and what it looks like, where the
    outcome goes, and that every attempt ends with all four variables
    reset. */
module ClientProps {
  import opened Wrappers
  import opened GoStrings
  import opened Runtime
  import opened HttpTypes
  import opened ClientSpec

  // ---------------------------------------------------------------------
  // Start-up
  // ---------------------------------------------------------------------

  /** The start-up check leaves a port for every successful reply: a node
      that passed it sends at least one packet for every completed request,
      and only to the connected ones among the resp and body ports. */
  lemma SuccessReachesOutput(c: Config, status: int, header: Values, body: string)
    requires ArgsOk(c)
    ensures var out := Outputs(c, Completed(status, header, body));
            && 1 <= |out| <= 2
            && (ToResp(Reply(status, header, body)) in out <==> c.resp != "")
            && (ToBody(body) in out <==> c.body != "")
            && forall k :: 0 <= k < |out| ==> !out[k].ToErr?
  {
  }

  // ---------------------------------------------------------------------
  // Collecting the four values
  // ---------------------------------------------------------------------

  /** A URL message replaces the URL by the payload as it is; a method
      message replaces the method by the payload upper-cased, rune by rune.
      Neither touches any other variable. */
  lemma UrlAndMethodMessages(c: Config, f: Fields, payload: string, decode: string -> Decoded<Values>)
    ensures AbsorbEvent(c, f, Event(UrlPort, IP(payload)), decode) == f.(url := payload)
    ensures var g := AbsorbEvent(c, f, Event(MethodPort, IP(payload)), decode);
            && g == f.(httpMethod := g.httpMethod)
            && |g.httpMethod| == |payload|
            && (forall k :: 0 <= k < |payload| ==> g.httpMethod[k] == UpperRune(payload[k]))
            && ToUpper(g.httpMethod) == g.httpMethod
  {
    ToUpperIdempotent(payload);
  }

  /** An invalid packet, a message from an unhandled socket, and a headers
      or form payload that does not decode leave all four variables as they
      were. */
  lemma IgnoredMessages(c: Config, f: Fields, e: Event, decode: string -> Decoded<Values>)
    requires || e.packet.InvalidIP?
             || e.source.Unknown?
             || (e.source.HeadersPort? && decode(e.packet.payload).DecodeError?)
             || (e.source.FormPort? && decode(e.packet.payload).DecodeError?)
    ensures AbsorbEvent(c, f, e, decode) == f
  {
  }

  /** A decoded object makes the map present, holding every decoded pair
      and every earlier pair whose key was not decoded again; `null` makes
      it nil. */
  lemma UnmarshalMerges(current: Option<Values>, d: Decoded<Values>)
    ensures d.DecodedNull? ==> Unmarshal(current, d) == None
    ensures d.Decoded? ==>
              var r := Unmarshal(current, d);
              && r.Some?
              && (forall k :: k in d.value ==> k in r.value && r.value[k] == d.value[k])
              && (current.Some? ==> forall k :: k in current.value && k !in d.value ==>
                                              k in r.value && r.value[k] == current.value[k])
              && (forall k :: k in r.value ==> k in d.value || (current.Some? && k in current.value))
  {
  }

  /** A headers or form message reaches its variable only when its port
      is connected; the URL and method stay as they were. */
  lemma MapMessagesKeepStrings(c: Config, f: Fields, e: Event, decode: string -> Decoded<Values>)
    requires e.source.HeadersPort? || e.source.FormPort?
    ensures var g := AbsorbEvent(c, f, e, decode);
            && g.url == f.url && g.httpMethod == f.httpMethod
            && (e.source.HeadersPort? ==> g.data == f.data && (c.headers == "" ==> g == f))
            && (e.source.FormPort? ==> g.headers == f.headers && (c.form == "" ==> g == f))
  {
  }

  /** A batch of items none of which is a valid URL message leaves the URL
      as it was. */
  lemma {:induction false} UrlKeptWithoutUrlMessage(c: Config, f: Fields, events: seq<Event>,
                                                    decode: string -> Decoded<Values>)
    requires forall k :: 0 <= k < |events| ==> !(events[k].source.UrlPort? && events[k].packet.IP?)
    ensures AbsorbAll(c, f, events, decode).url == f.url
  {
    if events != [] {
      UrlKeptWithoutUrlMessage(c, f, events[..|events| - 1], decode);
    }
  }

  /** The last valid URL message of a batch decides the URL. */
  lemma {:induction false} LastUrlMessageWins(c: Config, f: Fields, events: seq<Event>, j: nat,
                                              decode: string -> Decoded<Values>)
    requires j < |events| && events[j].source.UrlPort? && events[j].packet.IP?
    requires forall k :: j < k < |events| ==> !(events[k].source.UrlPort? && events[k].packet.IP?)
    ensures AbsorbAll(c, f, events, decode).url == events[j].packet.payload
  {
    if j == |events| - 1 {
    } else {
      var init := events[..|events| - 1];
      assert init[j] == events[j];
      LastUrlMessageWins(c, f, init, j, decode);
    }
  }

  // ---------------------------------------------------------------------
  // An iteration
  // ---------------------------------------------------------------------

  /** A failed poll changes nothing and sends nothing. */
  lemma PollFailureKeeps(c: Config, f: Fields, decode: string -> Decoded<Values>,
                         urlOk: string -> bool, perform: ClientRequest -> DoOutcome)
    ensures Next(c, f, PollFailed, decode, urlOk, perform) == ClientStep(f, None, [], Running)
  {
  }

  /** A request is made only when the collected values are ready; when they
      are not, they carry over to the next poll untouched and nothing is
      sent. */
  lemma AttemptOnlyWhenReady(c: Config, f: Fields, events: seq<Event>, decode: string -> Decoded<Values>,
                             urlOk: string -> bool, perform: ClientRequest -> DoOutcome)
    ensures var r := Next(c, f, Polled(events), decode, urlOk, perform);
            var g := AbsorbAll(c, f, events, decode);
            && (r.request.Some? ==> Ready(c, g))
            && (!Ready(c, g) ==> r == ClientStep(g, None, [], Running))
  {
  }

  /** The request made carries the collected method (a valid token) and
      URL, a form-encoded body exactly when form data is present, and
      exactly the first value of every header. */
  lemma RequestShape(c: Config, f: Fields, events: seq<Event>, decode: string -> Decoded<Values>,
                     urlOk: string -> bool, perform: ClientRequest -> DoOutcome)
    ensures var r := Next(c, f, Polled(events), decode, urlOk, perform);
            var g := AbsorbAll(c, f, events, decode);
            r.request.Some? ==>
              var q := r.request.value;
              && q.httpMethod == g.httpMethod && ValidMethod(q.httpMethod) && urlOk(q.url)
              && q.url == g.url
              && (q.body.Some? <==> g.data.Some?) && q.body == g.data
              && (g.headers.None? ==> q.header == map[])
              && (g.headers.Some? ==>
                    && q.header.Keys == g.headers.value.Keys
                    && forall k :: k in q.header ==> q.header[k] == [g.headers.value[k][0]])
  {
  }

  /** On ready values, http.NewRequest rejecting the method or the URL ends
      the process, and otherwise a header without any value is a panic;
      neither sends anything. In every other case a request is made. */
  lemma AttemptFailures(c: Config, g: Fields, urlOk: string -> bool, perform: ClientRequest -> DoOutcome)
    ensures var r := Attempt(c, g, urlOk, perform);
            && (r.status == Exited <==> !ValidMethod(g.httpMethod) || !urlOk(g.url))
            && (r.status == Crashed <==>
                  ValidMethod(g.httpMethod) && urlOk(g.url)
                  && g.headers.Some? && exists k :: k in g.headers.value && g.headers.value[k] == [])
            && (r.status != Running ==> r.sends == [] && r.request.None?)
            && (r.status == Running <==> r.request.Some?)
  {
  }

  /** Every attempt, whatever its outcome, resets all four variables. */
  lemma ResetAfterAttempt(c: Config, f: Fields, poll: ClientPoll, decode: string -> Decoded<Values>,
                          urlOk: string -> bool, perform: ClientRequest -> DoOutcome)
    ensures var r := Next(c, f, poll, decode, urlOk, perform);
            r.request.Some? ==> r.fields == Empty && r.status == Running
  {
  }

  /** A failure of client.Do, of reading the body or of encoding the reply
      sends its message to the err port when that port is connected, and
      nothing anywhere else. */
  lemma ErrorsGoToErr(c: Config, outcome: DoOutcome)
    requires !outcome.Completed?
    ensures |Outputs(c, outcome)| == (if c.err != "" then 1 else 0)
    ensures forall k :: 0 <= k < |Outputs(c, outcome)| ==> Outputs(c, outcome)[k] == ToErr(outcome.message)
  {
  }

  /** A completed request sends the encoded reply to the resp port and the
      reply's body alone to the body port, each only when connected, and
      nothing to the err port. */
  lemma RepliesGoToRespAndBody(c: Config, status: int, header: Values, body: string)
    ensures var out := Outputs(c, Completed(status, header, body));
            && (c.resp != "" && c.body != "" ==> out == [ToResp(Reply(status, header, body)), ToBody(body)])
            && (c.resp != "" && c.body == "" ==> out == [ToResp(Reply(status, header, body))])
            && (c.resp == "" && c.body != "" ==> out == [ToBody(body)])
            && (c.resp == "" && c.body == "" ==> out == [])
  {
  }
}
