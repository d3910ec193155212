/** What the http-router loop guarantees: start-up establishes the loop
    invariant and every iteration keeps it; a pattern message retires exactly
    the selected port and registers its line under that port's fixed
    position; a request goes to exactly one place; once the last pattern
    port is retired the registration log is frozen. */
module RouterProps {
  import opened Wrappers
  import opened GoStrings
  import opened Runtime
  import opened HttpTypes
  import opened Routing
  import opened RouterSpec

  // ---------------------------------------------------------------------
  // The poll list as a filter of the pattern ports
  // ---------------------------------------------------------------------

  lemma {:induction false} UnclosedNoneClosed(ports: seq<Socket>)
    ensures Unclosed(ports, {}) == ports
  {
    if ports != [] {
      UnclosedNoneClosed(ports[1..]);
      assert ports == [ports[0]] + ports[1..];
    }
  }

  /** A port is in the filtered list exactly when it is an unclosed port. */
  lemma {:induction false} UnclosedMember(ports: seq<Socket>, closed: set<Socket>, p: Socket)
    ensures p in Unclosed(ports, closed) <==> p in ports && p !in closed
  {
    if ports != [] {
      UnclosedMember(ports[1..], closed, p);
      assert ports == [ports[0]] + ports[1..];
    }
  }

  lemma {:induction false} UnclosedCloseOther(ports: seq<Socket>, closed: set<Socket>, p: Socket)
    requires p !in ports
    ensures Unclosed(ports, closed + {p}) == Unclosed(ports, closed)
  {
    if ports != [] {
      UnclosedCloseOther(ports[1..], closed, p);
    }
  }

  lemma DistinctTail(ports: seq<Socket>)
    requires Distinct(ports) && ports != []
    ensures Distinct(ports[1..]) && ports[0] !in ports[1..]
  {
    forall j | 0 <= j < |ports| - 1
      ensures ports[1..][j] != ports[0]
    {
      assert ports[1..][j] == ports[j + 1];
    }
  }

  /** Closing the k-th unclosed port removes exactly that element from the
      filtered list, leaving the others in order. */
  lemma {:induction false} UnclosedRetire(ports: seq<Socket>, closed: set<Socket>, k: nat)
    requires Distinct(ports)
    requires k < |Unclosed(ports, closed)|
    ensures var u := Unclosed(ports, closed);
            Unclosed(ports, closed + {u[k]}) == u[..k] + u[k + 1..]
  {
    DistinctTail(ports);
    var u := Unclosed(ports, closed);
    var tail := Unclosed(ports[1..], closed);
    if ports[0] in closed {
      assert u == tail;
      UnclosedRetire(ports[1..], closed, k);
    } else if k == 0 {
      UnclosedRetireHead(ports, closed);
    } else {
      assert u == [ports[0]] + tail;
      UnclosedRetire(ports[1..], closed, k - 1);
      UnclosedRetireLater(ports, closed, k);
    }
  }

  /** The base case: closing the first port, which is unclosed. */
  lemma UnclosedRetireHead(ports: seq<Socket>, closed: set<Socket>)
    requires ports != [] && ports[0] !in closed && ports[0] !in ports[1..]
    ensures var u := Unclosed(ports, closed);
            Unclosed(ports, closed + {u[0]}) == u[1..]
  {
    UnclosedCloseOther(ports[1..], closed, ports[0]);
  }

  /** The step past an unclosed first port. */
  lemma UnclosedRetireLater(ports: seq<Socket>, closed: set<Socket>, k: nat)
    requires ports != [] && ports[0] !in closed && ports[0] !in ports[1..]
    requires 0 < k < |Unclosed(ports, closed)|
    requires var tail := Unclosed(ports[1..], closed);
             Unclosed(ports[1..], closed + {tail[k - 1]}) == tail[..k - 1] + tail[k..]
    ensures var u := Unclosed(ports, closed);
            Unclosed(ports, closed + {u[k]}) == u[..k] + u[k + 1..]
  {
    var tail := Unclosed(ports[1..], closed);
    assert Unclosed(ports, closed) == [ports[0]] + tail;
    var p := tail[k - 1];
    UnclosedMember(ports[1..], closed, p);
    assert Unclosed(ports, closed + {p}) == [ports[0]] + Unclosed(ports[1..], closed + {p});
    SpliceCons(ports[0], tail, k);
  }

  /** Removing a later element of a list commutes with putting a head in
      front of it. */
  lemma SpliceCons(h: Socket, t: seq<Socket>, k: nat)
    requires 0 < k <= |t|
    ensures ([h] + t)[k] == t[k - 1]
    ensures ([h] + t)[..k] + ([h] + t)[k + 1..] == [h] + (t[..k - 1] + t[k..])
  {
    assert ([h] + t)[..k] == [h] + t[..k - 1];
    assert ([h] + t)[k + 1..] == t[k..];
  }

  // ---------------------------------------------------------------------
  // Start-up
  // ---------------------------------------------------------------------

  /** Sockets numbered by an injective rule are distinct. */
  lemma NumberedDistinct(ports: seq<Socket>, first: nat)
    requires forall i :: 0 <= i < |ports| ==> ports[i].id == first + 2 * i
    ensures Distinct(ports)
  {
    forall i, j | 0 <= i < j < |ports|
      ensures ports[i] != ports[j]
    {
      assert ports[i].id != ports[j].id;
    }
  }

  /** A socket whose number is below the first of a numbered list is not in it. */
  lemma NumberedExcludes(ports: seq<Socket>, first: nat, p: Socket)
    requires forall i :: 0 <= i < |ports| ==> ports[i].id == first + 2 * i
    requires p.id < first
    ensures p !in ports
  {
    forall i | 0 <= i < |ports|
      ensures ports[i] != p
    {
      assert ports[i].id != p.id;
    }
  }

  /** The sockets that start-up opens satisfy the port part of the invariant. */
  lemma SetupPortsValid(a: Args)
    requires ValidateArgs(a)
    ensures var s := Setup(a);
            PortsValid(s.requestPort, s.failPort, s.patternPorts, s.successPorts)
    ensures Distinct(Setup(a).successPorts)
    ensures forall i, j :: 0 <= i < |Setup(a).patternPorts| && 0 <= j < |Setup(a).successPorts| ==>
              Setup(a).patternPorts[i] != Setup(a).successPorts[j]
  {
    var s := Setup(a);
    var pp, sp := s.patternPorts, s.successPorts;
    assert forall i :: 0 <= i < |pp| ==> pp[i].id == 2 + 2 * i;
    assert forall i :: 0 <= i < |sp| ==> sp[i].id == 3 + 2 * i;
    NumberedDistinct(pp, 2);
    NumberedExcludes(pp, 2, s.requestPort);
    NumberedExcludes(pp, 2, s.failPort);
    NumberedExcludes(sp, 3, s.requestPort);
    NumberedExcludes(sp, 3, s.failPort);
    NumberedDistinct(sp, 3);
    forall i, j | 0 <= i < |pp| && 0 <= j < |sp|
      ensures pp[i] != sp[j]
    {
      assert pp[i].id % 2 == 0 && sp[j].id % 2 == 1;
    }
  }

  /** After openPorts and line 130 the poll list is the pattern ports in
      declaration order with the request port last, there is one success
      port per pattern port, one of each per comma-separated endpoint, each
      opened on the trimmed endpoint, and the loop invariant holds. */
  lemma SetupValid(a: Args)
    requires ValidateArgs(a)
    ensures var s := Setup(a);
            && Valid(s)
            && s.pollItems == s.patternPorts + [s.requestPort]
            && |s.patternPorts| == |s.successPorts| == Count(a.pattern, ',') + 1
            && s.routes == [] && s.closed == {} && s.index == -1
            && s.requestPort.endpoint == a.request && s.failPort.endpoint == a.fail
            && (forall i :: 0 <= i < |s.patternPorts| ==>
                  s.patternPorts[i].endpoint == TrimSpace(Split(a.pattern, ',')[i]))
            && (forall i :: 0 <= i < |s.successPorts| ==>
                  s.successPorts[i].endpoint == TrimSpace(Split(a.success, ',')[i]))
  {
    SetupPortsValid(a);
    SplitCount(a.pattern, ',');
    UnclosedNoneClosed(Setup(a).patternPorts);
  }

  // ---------------------------------------------------------------------
  // The loop invariant
  // ---------------------------------------------------------------------

  /** Retiring a pattern port keeps the invariant, and the port is found in
      `patternPorts` (so the "failed to resolve" branch is dead). */
  lemma RetireValid(s: State)
    requires Valid(s)
    requires 0 <= s.index < s.pLength - 1
    ensures s.pollItems[s.index] in s.patternPorts && s.pollItems[s.index] !in s.closed
    ensures Valid(Retired(s))
  {
    var i, port := s.index, s.pollItems[s.index];
    RetirePollValid(s.requestPort, s.patternPorts, s.closed, s.pollItems, s.pLength, i);
    RoutesCloseMore(s.routes, s.patternPorts, s.closed, port);
  }

  /** The poll-list part of the invariant survives splicing out a live
      pattern port, which is then closed. */
  lemma RetirePollValid(requestPort: Socket, patternPorts: seq<Socket>, closed: set<Socket>,
                        pollItems: seq<Socket>, pLength: int, i: nat)
    requires Distinct(patternPorts)
    requires PollValid(requestPort, patternPorts, closed, pollItems, pLength)
    requires i < pLength - 1
    ensures pollItems[i] in patternPorts && pollItems[i] !in closed
    ensures PollValid(requestPort, patternPorts, closed + {pollItems[i]},
                      pollItems[..i] + pollItems[i + 1..], pLength - 1)
  {
    var u := Unclosed(patternPorts, closed);
    var port := pollItems[i];
    assert port == u[i];
    UnclosedMember(patternPorts, closed, port);
    UnclosedRetire(patternPorts, closed, i);
    assert pollItems[..i] + pollItems[i + 1..] == u[..i] + u[i + 1..] + [requestPort];
  }

  /** Closing one more port keeps every registration on a closed port. */
  lemma RoutesCloseMore(routes: seq<Registration>, patternPorts: seq<Socket>, closed: set<Socket>, p: Socket)
    requires RoutesValid(routes, patternPorts, closed)
    ensures RoutesValid(routes, patternPorts, closed + {p})
  {
  }

  /** Registering a retired pattern port that has no registration yet keeps
      the invariant. */
  lemma AddRouteValid(s: State, m: Method, pattern: string, o: nat)
    requires Valid(s)
    requires o < |s.patternPorts| && s.patternPorts[o] in s.closed
    requires forall k :: 0 <= k < |s.routes| ==> s.routes[k].index != o
    ensures Valid(s.(routes := s.routes + [Registration(m, pattern, o)]))
  {
  }

  /** A pattern message on a valid state keeps the invariant. */
  lemma RegisterPatternValid(s: State, payload: string)
    requires Valid(s)
    requires 0 <= s.index < s.pLength - 1
    ensures LastIndexOf(s.patternPorts, s.pollItems[s.index]) >= 0
    ensures Valid(RegisterPattern(s, payload).state)
  {
    RetireValid(s);
    var port := s.pollItems[s.index];
    var o := LastIndexOf(s.patternPorts, port);
    var t := Retired(s);
    match ParseRegistration(payload)
    case None =>
    case Some(line) =>
      match ParseMethod(line.verb)
      case None =>
      case Some(m) =>
        forall k | 0 <= k < |t.routes|
          ensures t.routes[k].index != o
        {
          assert s.patternPorts[s.routes[k].index] in s.closed;
        }
        AddRouteValid(t, m, line.pattern, o);
  }

  /** Handling a request touches no variable but `index`. */
  lemma HandleRequestKeeps(s: State, payload: string,
                           decode: string -> Decoded<HttpRequest>, route: RouteFn)
    ensures var t := HandleRequest(s, payload, decode, route).state;
            t == s.(index := t.index)
  {
  }

  /** Every iteration keeps the loop invariant and the sockets opened at
      start-up. */
  lemma NextPreservesValid(s: State, poll: PollResult, msg: Packet,
                           decode: string -> Decoded<HttpRequest>, route: RouteFn)
    requires Valid(s)
    ensures var t := Next(s, poll, msg, decode, route).state;
            && Valid(t)
            && t.requestPort == s.requestPort && t.failPort == s.failPort
            && t.patternPorts == s.patternPorts && t.successPorts == s.successPorts
  {
    match poll
    case PollError =>
    case Polled(ready) =>
      var s1 := s.(index := SelectIndex(s.pollItems, ready, s.index));
      assert Valid(s1);
      if 0 <= s1.index < |s1.pollItems| {
        match msg
        case InvalidIP =>
        case IP(payload) =>
          if s1.index < s1.pLength - 1 {
            RegisterPatternValid(s1, payload);
            assert Next(s, poll, msg, decode, route) == RegisterPattern(s1, payload);
          } else {
            HandleRequestKeeps(s1, payload, decode, route);
            assert Next(s, poll, msg, decode, route) == HandleRequest(s1, payload, decode, route);
          }
      }
  }

  // ---------------------------------------------------------------------
  // Pattern messages
  // ---------------------------------------------------------------------

  /** A registration line is read as its upper-cased, trimmed text before
      the first space (the method) and the trimmed text between the first
      space and the next one, or the end of the line (the pattern). */
  lemma ParseRegistrationFields(line: string)
    requires ' ' in line
    ensures var r := ParseRegistration(line);
            var verb := UpTo(line, ' ');
            && r.Some?
            && r.value.verb == ToUpper(TrimSpace(verb))
            && r.value.pattern == TrimSpace(UpTo(line[|verb| + 1..], ' '))
  {
    var u := UpTo(line, ' ');
    var rest := line[|u| + 1..];
    SplitFirst(line, ' ');
    SplitFirst(rest, ' ');
    assert Split(line, ' ')[1] == UpTo(rest, ' ');
  }

  /** A valid message on a ready pattern port is a registration step. */
  lemma SelectPattern(s: State, ready: set<Socket>, payload: string,
                      decode: string -> Decoded<HttpRequest>, route: RouteFn, i: nat)
    requires SelectIndex(s.pollItems, ready, s.index) == i
    requires i < s.pLength - 1 && i < |s.pollItems|
    ensures Next(s, Polled(ready), IP(payload), decode, route) == RegisterPattern(s.(index := i), payload)
  {
  }

  /** On a valid state a registration step retires the selected port, sends
      nothing, crashes exactly when the line holds no space, and otherwise
      appends one entry to the log when the verb is one of the six methods. */
  lemma RegisterPatternRetires(s: State, payload: string)
    requires Valid(s)
    requires 0 <= s.index < s.pLength - 1
    ensures var r := RegisterPattern(s, payload);
            && r.state == Retired(s).(routes := r.state.routes)
            && r.sends == []
            && (r.status == Crashed <==> ' ' !in payload)
            && (' ' !in payload ==> r.state.routes == s.routes)
            && (' ' in payload ==>
                  var line := ParseRegistration(payload).value;
                  r.state.routes == s.routes + (match ParseMethod(line.verb)
                                                case Some(m) => [Registration(m, line.pattern,
                                                                   LastIndexOf(s.patternPorts, s.pollItems[s.index]))]
                                                case None => []))
  {
    RetireValid(s);
  }

  /** A pattern port that is not in `patternPorts` is closed, but its
      message is dropped before anything is spliced out or registered. On
      a valid state this cannot happen (see RetireValid). */
  lemma UnknownPortDropped(s: State, payload: string)
    requires 0 <= s.index < |s.pollItems|
    requires s.pollItems[s.index] !in s.patternPorts
    ensures var r := RegisterPattern(s, payload);
            && r.state == s.(closed := s.closed + {s.pollItems[s.index]})
            && r.sends == [] && r.status == Running
  {
  }

  /** A registration step on a valid state: exactly the selected item
      leaves the poll list, the others keep their order, `pLength` drops by
      one, the request port stays last, the port is closed and nothing is
      sent. The node crashes exactly when the line holds no space. */
  lemma RegisterRetiresSelected(s: State, payload: string)
    requires Valid(s)
    requires 0 <= s.index < s.pLength - 1
    ensures var r := RegisterPattern(s, payload);
            var i, x := s.index, s.pollItems[s.index];
            && r.state.pollItems == s.pollItems[..i] + s.pollItems[i + 1..]
            && x !in r.state.pollItems
            && multiset(r.state.pollItems) + multiset{x} == multiset(s.pollItems)
            && r.state.pLength == s.pLength - 1 == |r.state.pollItems|
            && r.state.pollItems[|r.state.pollItems| - 1] == s.requestPort
            && r.state.closed == s.closed + {x}
            && r.sends == []
            && (r.status == Crashed <==> ' ' !in payload)
  {
    RegisterPatternRetires(s, payload);
    RetiredShape(s);
  }

  /** Retiring the selected item splices exactly it out of the poll list. */
  lemma RetiredShape(s: State)
    requires Valid(s)
    requires 0 <= s.index < s.pLength - 1
    ensures var t := Retired(s);
            var i, x := s.index, s.pollItems[s.index];
            && t.pollItems == s.pollItems[..i] + s.pollItems[i + 1..]
            && x !in t.pollItems
            && multiset(t.pollItems) + multiset{x} == multiset(s.pollItems)
            && t.pLength == s.pLength - 1 == |t.pollItems|
            && t.pollItems[|t.pollItems| - 1] == s.requestPort
            && t.closed == s.closed + {x}
  {
    RetireValid(s);
    var t := Retired(s);
    var i, x := s.index, s.pollItems[s.index];
    assert s.pollItems == s.pollItems[..i] + [x] + s.pollItems[i + 1..];
    UnclosedMember(t.patternPorts, t.closed, x);
  }

  /** A valid message on the lowest ready item, when that item is a pattern
      port, is such a registration step. */
  lemma RetireSelected(s: State, ready: set<Socket>, payload: string,
                       decode: string -> Decoded<HttpRequest>, route: RouteFn, i: nat)
    requires Valid(s)
    requires FirstReady(s.pollItems, ready) == Some(i)
    requires i < |s.pollItems| - 1
    ensures var r := Next(s, Polled(ready), IP(payload), decode, route);
            && r.state.pollItems == s.pollItems[..i] + s.pollItems[i + 1..]
            && s.pollItems[i] !in r.state.pollItems
            && multiset(r.state.pollItems) + multiset{s.pollItems[i]} == multiset(s.pollItems)
            && r.state.pLength == s.pLength - 1 == |r.state.pollItems|
            && r.state.pollItems[|r.state.pollItems| - 1] == s.requestPort
            && r.state.closed == s.closed + {s.pollItems[i]}
            && r.sends == []
            && (r.status == Crashed <==> ' ' !in payload)
  {
    var s1 := s.(index := i);
    assert Valid(s1);
    SelectPattern(s, ready, payload, decode, route, i);
    RegisterRetiresSelected(s1, payload);
  }

  /** The line a retired port delivered is registered under the port's
      position in `patternPorts` (a sequence the loop never changes, so
      earlier retirements do not shift it), when its verb is one of the six
      methods; any other verb registers nothing, though the port is retired
      all the same. Only the new entry is added to the log. */
  lemma RetireRegisters(s: State, ready: set<Socket>, payload: string,
                        decode: string -> Decoded<HttpRequest>, route: RouteFn, i: nat)
    requires Valid(s)
    requires FirstReady(s.pollItems, ready) == Some(i)
    requires i < |s.pollItems| - 1
    requires ' ' in payload
    ensures var r := Next(s, Polled(ready), IP(payload), decode, route);
            var line := ParseRegistration(payload).value;
            var o := LastIndexOf(s.patternPorts, s.pollItems[i]);
            && 0 <= o < |s.patternPorts| && s.patternPorts[o] == s.pollItems[i]
            && (forall j :: 0 <= j < |s.patternPorts| && s.patternPorts[j] == s.pollItems[i] ==> j == o)
            && r.status == Running
            && r.state.routes == s.routes + (match ParseMethod(line.verb)
                                             case Some(m) => [Registration(m, line.pattern, o)]
                                             case None => [])
  {
    var s1 := s.(index := i);
    assert Valid(s1);
    SelectPattern(s, ready, payload, decode, route, i);
    RegisterPatternRetires(s1, payload);
    RetireValid(s1);
    var o := LastIndexOf(s.patternPorts, s.pollItems[i]);
    forall j | 0 <= j < |s.patternPorts| && s.patternPorts[j] == s.pollItems[i]
      ensures j == o
    {
      assert s.patternPorts[j] == s.patternPorts[o];
    }
  }

  // ---------------------------------------------------------------------
  // Requests
  // ---------------------------------------------------------------------

  /** A request that the router cannot place produces exactly one response,
      on the fail port, carrying the request's id and 404 or 405; no success
      port receives anything, and neither the registration log nor the poll
      list changes. */
  lemma MissGoesToFail(s: State, ready: set<Socket>, payload: string,
                      decode: string -> Decoded<HttpRequest>, route: RouteFn, req: HttpRequest)
    requires Valid(s)
    requires SelectIndex(s.pollItems, ready, s.index) == |s.pollItems| - 1
    requires decode(payload) == Decoded(req)
    requires route(s.routes, req.httpMethod, req.uri).NotFound?
             || route(s.routes, req.httpMethod, req.uri).MethodNotAllowed?
    ensures var r := Next(s, Polled(ready), IP(payload), decode, route);
            var status := if route(s.routes, req.httpMethod, req.uri).NotFound?
                          then 404 else 405;
            && r.status == Running
            && r.sends == [Send(s.failPort, ResponseOut(HttpResponse(req.id, status, None, "")))]
            && (forall k :: 0 <= k < |r.sends| ==> r.sends[k].to !in s.successPorts)
            && r.state.routes == s.routes && r.state.pollItems == s.pollItems
            && r.state.pLength == s.pLength
  {
  }

  /** A request the router matches to an index within the success ports,
      and whose parameters can be written (it has a Form, or there are no
      parameters), goes, and goes only, to that index's success port, never
      to the fail port. Its Form is the old Form overridden by the matched
      parameters: every parameter overwrites a value already there, every
      other key is kept, and a request without a Form is sent without one.
      Nothing else in the request changes, and neither the log nor the poll
      list does. */
  lemma MatchGoesToSuccess(s: State, ready: set<Socket>, payload: string,
                           decode: string -> Decoded<HttpRequest>, route: RouteFn,
                           req: HttpRequest)
    requires Valid(s)
    requires SelectIndex(s.pollItems, ready, s.index) == |s.pollItems| - 1
    requires decode(payload) == Decoded(req)
    requires route(s.routes, req.httpMethod, req.uri).Matched?
    requires var result := route(s.routes, req.httpMethod, req.uri);
             && (req.form.Some? || result.params.Keys == {})
             && 0 <= result.index < |s.successPorts|
    ensures var r := Next(s, Polled(ready), IP(payload), decode, route);
            var result := route(s.routes, req.httpMethod, req.uri);
            && r.status == Running
            && |r.sends| == 1
            && r.sends[0].to == s.successPorts[result.index]
            && r.sends[0].to != s.failPort
            && r.sends[0].message.RequestOut?
            && var out := r.sends[0].message.request;
            && out == req.(form := out.form)
            && out.form == MergedForm(req.form, result.params)
            && (out.form.Some? <==> req.form.Some?)
            && (req.form.Some? ==>
                  && out.form.value.Keys == req.form.value.Keys + result.params.Keys
                  && (forall key :: key in result.params ==> out.form.value[key] == result.params[key])
                  && (forall key :: key in req.form.value && key !in result.params ==>
                        out.form.value[key] == req.form.value[key]))
            && r.state.routes == s.routes && r.state.pollItems == s.pollItems
            && r.state.pLength == s.pLength
  {
  }

  /** Writing a matched parameter into a request without a Form (a nil map)
      is a run-time panic; a matched index outside the success ports is one
      too. */
  lemma MatchCrashes(s: State, ready: set<Socket>, payload: string,
                     decode: string -> Decoded<HttpRequest>, route: RouteFn, req: HttpRequest)
    requires Valid(s)
    requires SelectIndex(s.pollItems, ready, s.index) == |s.pollItems| - 1
    requires decode(payload) == Decoded(req)
    requires route(s.routes, req.httpMethod, req.uri).Matched?
    ensures var r := Next(s, Polled(ready), IP(payload), decode, route);
            var result := route(s.routes, req.httpMethod, req.uri);
            r.status == Crashed <==>
              (req.form.None? && result.params.Keys != {})
              || !(0 <= result.index < |s.successPorts|)
  {
  }

  // ---------------------------------------------------------------------
  // Phases
  // ---------------------------------------------------------------------

  /** A message that arrives on a poll item other than a pattern port never
      changes the registration log or the poll list, whatever it holds. */
  lemma RequestsNeverRegister(s: State, poll: PollResult, msg: Packet,
                              decode: string -> Decoded<HttpRequest>, route: RouteFn)
    requires Valid(s)
    requires poll.Polled?
    requires var i := SelectIndex(s.pollItems, poll.ready, s.index);
             !(0 <= i < |s.pollItems| - 1)
    ensures var r := Next(s, poll, msg, decode, route);
            && r.state.routes == s.routes
            && r.state.pollItems == s.pollItems
            && r.state.pLength == s.pLength
            && r.state.closed == s.closed
  {
  }

  /** Once every pattern port is retired, the only poll item left is the
      request port and the registration log is frozen: no input changes it. */
  lemma FrozenAfterRegistration(s: State, poll: PollResult, msg: Packet,
                                decode: string -> Decoded<HttpRequest>, route: RouteFn)
    requires Valid(s)
    requires |s.pollItems| == 1
    ensures var r := Next(s, poll, msg, decode, route);
            && r.state.routes == s.routes
            && r.state.pollItems == [s.requestPort]
            && Valid(r.state)
  {
    NextPreservesValid(s, poll, msg, decode, route);
  }

  /** The registration log only grows, by at most one entry per iteration,
      and only in an iteration that retires a pattern port. */
  lemma LogOnlyGrows(s: State, poll: PollResult, msg: Packet,
                     decode: string -> Decoded<HttpRequest>, route: RouteFn)
    requires Valid(s)
    ensures var r := Next(s, poll, msg, decode, route);
            && s.routes <= r.state.routes
            && |r.state.routes| <= |s.routes| + 1
            && (|r.state.routes| == |s.routes| + 1 ==> |r.state.pollItems| == |s.pollItems| - 1)
  {
    if poll.Polled? {
      var i := SelectIndex(s.pollItems, poll.ready, s.index);
      if 0 <= i < |s.pollItems| - 1 && msg.IP? {
        var s1 := s.(index := i);
        assert Valid(s1);
        SelectPattern(s, poll.ready, msg.payload, decode, route, i);
        RegisterPatternRetires(s1, msg.payload);
      } else if !(0 <= i < |s.pollItems| - 1) {
        RequestsNeverRegister(s, poll, msg, decode, route);
      }
    }
  }

  /** When no poll item is ready, the search loop leaves `index` as it was;
      in the first iteration, or after a routed request, that is -1 and the
      receive from pollItems[-1] panics. */
  lemma StaleIndexCrashes(s: State, ready: set<Socket>, msg: Packet,
                          decode: string -> Decoded<HttpRequest>, route: RouteFn)
    requires forall j :: 0 <= j < |s.pollItems| ==> s.pollItems[j] !in ready
    requires s.index == -1
    ensures Next(s, Polled(ready), msg, decode, route).status == Crashed
  {
  }

  /** A packet that fails the validity check changes nothing but `index`. */
  lemma InvalidPacketIgnored(s: State, ready: set<Socket>,
                             decode: string -> Decoded<HttpRequest>, route: RouteFn)
    requires 0 <= SelectIndex(s.pollItems, ready, s.index) < |s.pollItems|
    ensures var r := Next(s, Polled(ready), InvalidIP, decode, route);
            && r.state == s.(index := SelectIndex(s.pollItems, ready, s.index))
            && r.sends == [] && r.status == Running
  {
  }
}
