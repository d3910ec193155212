/** The http-router process itself: the sockets and loop variables of
    router/main.go as the fields of one object, start-up as its constructor
    and one iteration of the main loop as a method, each proved to do what
    the state machine in RouterSpec describes. */
module RouterNode {
  import opened Wrappers
  import opened GoStrings
  import opened Runtime
  import opened HttpTypes
  import opened Routing
  import opened RouterSpec
  import opened RouterProps

  /** The search loop at lines 157-162: the position of the first ready
      item, or `previous` when none is ready. */
  method ResolveSocketIndex(items: seq<Socket>, ready: set<Socket>, previous: int) returns (index: int)
    ensures index == SelectIndex(items, ready, previous)
  {
    index := previous;
    var i := 0;
    while i < |items|
      invariant 0 <= i <= |items|
      invariant index == previous
      invariant forall j :: 0 <= j < i ==> items[j] !in ready
    {
      if items[i] in ready {
        index := i;
        break;
      }
      i := i + 1;
    }
  }

  /** The loop at lines 182-187, which runs over every pattern port and
      keeps the last position that holds `port`. */
  method ResolveOutputIndex(ports: seq<Socket>, port: Socket) returns (outputIndex: int)
    ensures outputIndex == LastIndexOf(ports, port)
  {
    outputIndex := -1;
    for i := 0 to |ports|
      invariant outputIndex == LastIndexOf(ports[..i], port)
    {
      assert ports[..i + 1][..i] == ports[..i];
      if ports[i] == port {
        outputIndex := i;
      }
    }
    assert ports[..|ports|] == ports;
  }

  /** The loop at lines 248-250: every matched parameter is written into
      the request's Form, replacing a value already there. Writing into a
      nil Form panics, so the loop panics exactly when there is no Form and
      at least one parameter; otherwise the Form ends as the old Form
      overridden by the parameters. */
  method MergeParams(form: Option<Values>, params: Values) returns (merged: Option<Values>, panicked: bool)
    ensures panicked <==> form.None? && params.Keys != {}
    ensures !panicked ==> merged == MergedForm(form, params)
  {
    if form.None? {
      // The first write into the nil map panics.
      return None, params.Keys != {};
    }
    var m := form.value;
    var remaining := params.Keys;
    while remaining != {}
      invariant remaining <= params.Keys
      invariant forall k :: k in m <==> k in form.value || (k in params && k !in remaining)
      invariant forall k :: k in params && k !in remaining ==> m[k] == params[k]
      invariant forall k :: k in form.value && (k !in params || k in remaining) ==> m[k] == form.value[k]
      decreases |remaining|
    {
      var k :| k in remaining;
      m := m[k := params[k]];
      remaining := remaining - {k};
    }
    UnionPointwise(form.value, params, m);
    return Some(m), false;
  }

  /** A map with the keys of `a` and `b` that agrees with `b` on its keys
      and with `a` elsewhere is `a + b`. */
  lemma UnionPointwise(a: Values, b: Values, c: Values)
    requires forall k :: k in c <==> k in a || k in b
    requires forall k :: k in b ==> c[k] == b[k]
    requires forall k :: k in a && k !in b ==> c[k] == a[k]
    ensures c == a + b
  {
  }

  /** The loop of openPorts (lines 81-94): a pattern socket and a success
      socket per endpoint pair, in that order, each pattern socket also
      appended to the poll list. */
  method OpenPorts(patterns: seq<string>, successes: seq<string>)
      returns (pp: seq<Socket>, sp: seq<Socket>, items: seq<Socket>)
    requires |patterns| == |successes|
    ensures |pp| == |sp| == |patterns| && items == pp
    ensures forall j :: 0 <= j < |patterns| ==> pp[j] == PatternSocket(patterns, j)
    ensures forall j :: 0 <= j < |patterns| ==> sp[j] == SuccessSocket(successes, j)
  {
    pp, sp, items := [], [], [];
    for i := 0 to |patterns|
      invariant |pp| == |sp| == i
      invariant items == pp
      invariant forall j :: 0 <= j < i ==> pp[j] == PatternSocket(patterns, j)
      invariant forall j :: 0 <= j < i ==> sp[j] == SuccessSocket(successes, j)
    {
      var port := Socket(2 + 2 * i, TrimSpace(patterns[i]));
      assert port == PatternSocket(patterns, i);
      pp := pp + [port];
      items := items + [port];
      port := Socket(3 + 2 * i, TrimSpace(successes[i]));
      assert port == SuccessSocket(successes, i);
      sp := sp + [port];
    }
  }

  /** The router process: the sockets opened at start-up, the poll list,
      its length counter, the loop variable `index`, the sockets closed so
      far and the router the registrations go to. */
  class Node {
    var requestPort: Socket
    var failPort: Socket
    var patternPorts: seq<Socket>
    var successPorts: seq<Socket>
    var pollItems: seq<Socket>
    var pLength: int
    var index: int
    var closed: set<Socket>
    const router: Router

    /** The node's variables as a value of the state machine. */
    ghost function Snapshot(): State
      reads this, router
    {
      State(requestPort, failPort, patternPorts, successPorts, pollItems, pLength, index,
            router.routes, closed)
    }

    /** openPorts, line 130 and the declarations of the loop variables. The
        sockets are numbered in the order they are created. */
    constructor (a: Args)
      requires ValidateArgs(a)
      ensures Snapshot() == Setup(a)
      ensures Valid(Snapshot())
      ensures fresh(router)
    {
      var patterns := Split(a.pattern, ',');
      var successes := Split(a.success, ',');
      var pp, sp, items := OpenPorts(patterns, successes);
      assert pp == Setup(a).patternPorts && sp == Setup(a).successPorts;
      var request := Socket(0, a.request);
      requestPort := request;
      failPort := Socket(1, a.fail);
      patternPorts := pp;
      successPorts := sp;
      pollItems := items + [request];
      pLength := |items| + 1;
      index := -1;
      closed := {};
      router := new Router();
      new;
      SetupValid(a);
    }

    /** Lines 176-217, for a packet on pattern port `index`. */
    method RegisterStep(payload: string) returns (status: Status)
      requires 0 <= index < |pollItems|
      modifies this, router
      ensures var r := RegisterPattern(old(Snapshot()), payload);
              Snapshot() == r.state && r.sends == [] && status == r.status
    {
      var port := pollItems[index];
      closed := closed + {port};
      var outputIndex := ResolveOutputIndex(patternPorts, port);
      if outputIndex == -1 {
        return Running;
      }
      pollItems := pollItems[..index] + pollItems[index + 1..];
      pLength := pLength - 1;
      var line := ParseRegistration(payload);
      if line.None? {
        return Crashed;
      }
      var m := ParseMethod(line.value.verb);
      if m.Some? {
        router.Add(m.value, line.value.pattern, outputIndex);
      }
      return Running;
    }

    /** Lines 221-255, for a packet on the request port. */
    method RequestStep(payload: string, decode: string -> Decoded<HttpRequest>, route: RouteFn)
        returns (sends: seq<Send>, status: Status)
      modifies this
      ensures var r := HandleRequest(old(Snapshot()), payload, decode, route);
              Snapshot() == r.state && sends == r.sends && status == r.status
    {
      sends := [];
      match decode(payload)
      case DecodeError =>
        return [], Running;
      case DecodedNull =>
        return [], Crashed;
      case Decoded(req) =>
        match route(router.routes, req.httpMethod, req.uri) {
          case NotFound =>
            sends := [Send(failPort, ResponseOut(MissResponse(req.id, StatusNotFound)))];
          case MethodNotAllowed =>
            sends := [Send(failPort, ResponseOut(MissResponse(req.id, StatusMethodNotAllowed)))];
          case Matched(i, params) =>
            var form, panicked := MergeParams(req.form, params);
            if panicked || !(0 <= i < |successPorts|) {
              return [], Crashed;
            }
            sends := [Send(successPorts[i], RequestOut(req.(form := form)))];
        }
        index := -1;
        status := Running;
    }

    /** One iteration of the main loop (lines 150-255), given the outcome of
        the poll, the packet received from the selected item, the request
        decoder and the router's Route function. It keeps the invariant. */
    method Step(poll: PollResult, msg: Packet,
                decode: string -> Decoded<HttpRequest>, route: RouteFn)
        returns (sends: seq<Send>, status: Status)
      requires Valid(Snapshot())
      modifies this, router
      ensures var r := Next(old(Snapshot()), poll, msg, decode, route);
              Snapshot() == r.state && sends == r.sends && status == r.status
      ensures Valid(Snapshot())
    {
      ghost var s := Snapshot();
      NextPreservesValid(s, poll, msg, decode, route);
      sends := [];
      match poll
      case PollError =>
        return [], Exited;
      case Polled(ready) =>
        index := ResolveSocketIndex(pollItems, ready, index);
        if !(0 <= index < |pollItems|) {
          return [], Crashed;
        }
        match msg
        case InvalidIP =>
          return [], Running;
        case IP(payload) =>
          if index < pLength - 1 {
            status := RegisterStep(payload);
          } else {
            sends, status := RequestStep(payload, decode, route);
          }
    }
  }
}
