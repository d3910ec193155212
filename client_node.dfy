/** The http-client process itself: the four loop variables of
    client/main.go as the fields of one object and one iteration of the
    main loop as a method, proved to do what the state machine in
    ClientSpec describes. */
module HttpClient {
  import opened Wrappers
  import opened GoStrings
  import opened Runtime
  import opened HttpTypes
  import opened ClientSpec

  /** The header loop at lines 217-219: the first value of every header
      key is added to the request header. Taking v[0] of an empty value
      list panics, so the loop panics exactly when some key has no value;
      otherwise the request header holds every key with its first value. */
  method BuildHeader(headers: Option<Values>) returns (header: Values, panicked: bool)
    ensures panicked <==> !HasFirstValues(headers)
    ensures !panicked ==> header == FirstValues(headers)
  {
    header := map[];
    if headers.None? {
      return header, false;
    }
    var h := headers.value;
    var remaining := h.Keys;
    while remaining != {}
      invariant remaining <= h.Keys
      invariant forall k :: k in header <==> k in h && k !in remaining
      invariant forall k :: k in header ==> |h[k]| > 0 && header[k] == [h[k][0]]
      decreases |remaining|
    {
      var k :| k in remaining;
      var v := h[k];
      if |v| == 0 {
        return map[], true;
      }
      header := header[k := [v[0]]];
      remaining := remaining - {k};
    }
    panicked := false;
  }

  /** The http-client process over its configuration. */
  class Client {
    const config: Config
    var url: string
    var httpMethod: string
    var headers: Option<Values>
    var data: Option<Values>

    /** The loop variables as a value of the state machine. */
    ghost function Snapshot(): Fields
      reads this
    {
      Fields(url, httpMethod, headers, data)
    }

    /** The process after its start-up check, with the loop variables at
        their zero values. */
    constructor (c: Config)
      requires ArgsOk(c)
      ensures config == c && Snapshot() == Empty
    {
      config := c;
      url, httpMethod, headers, data := "", "", None, None;
    }

    /** The switch at lines 176-204 for one polled item. */
    method Absorb(e: Event, decode: string -> Decoded<Values>)
      modifies this
      ensures Snapshot() == AbsorbEvent(config, old(Snapshot()), e, decode)
    {
      if e.packet.InvalidIP? {
        return;
      }
      var payload := e.packet.payload;
      match e.source
      case UrlPort =>
        url := payload;
      case MethodPort =>
        httpMethod := ToUpper(payload);
      case HeadersPort =>
        if config.headers != "" {
          headers := Unmarshal(headers, decode(payload));
        }
      case FormPort =>
        if config.form != "" {
          data := Unmarshal(data, decode(payload));
        }
      case Unknown =>
    }

    /** One iteration of the main loop (lines 161-268), given the poll
        outcome, the JSON decoder, URL parsing and the HTTP call. */
    method Step(poll: ClientPoll, decode: string -> Decoded<Values>,
                urlOk: string -> bool, perform: ClientRequest -> DoOutcome)
        returns (request: Option<ClientRequest>, sends: seq<ClientSend>, status: Status)
      modifies this
      ensures var r := Next(config, old(Snapshot()), poll, decode, urlOk, perform);
              && Snapshot() == r.fields && request == r.request
              && sends == r.sends && status == r.status
    {
      if poll.PollFailed? {
        return None, [], Running;
      }
      var events := poll.events;
      for i := 0 to |events|
        invariant Snapshot() == AbsorbAll(config, old(Snapshot()), events[..i], decode)
      {
        assert events[..i + 1][..i] == events[..i];
        Absorb(events[i], decode);
      }
      assert events[..|events|] == events;
      if !Ready(config, Fields(url, httpMethod, headers, data)) {
        return None, [], Running;
      }
      if !ValidMethod(httpMethod) || !urlOk(url) {
        return None, [], Exited;
      }
      var header, panicked := BuildHeader(headers);
      if panicked {
        return None, [], Crashed;
      }
      var req := ClientRequest(httpMethod, url, header, data);
      var outcome := perform(req);
      sends := [];
      match outcome {
        case Completed(code, replyHeader, body) =>
          if config.resp != "" {
            sends := sends + [ToResp(Reply(code, replyHeader, body))];
          }
          if config.body != "" {
            sends := sends + [ToBody(body)];
          }
        case _ =>
          if config.err != "" {
            sends := [ToErr(outcome.message)];
          }
      }
      url, httpMethod, headers, data := "", "", None, None;
      return Some(req), sends, Running;
    }
  }
}
