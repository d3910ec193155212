# cascades-http: the router and client loops in Dafny

A model of the two event-driven nodes of cascades-http, with proofs about
them. Both nodes are flow-based-programming components that talk over
ZeroMQ sockets.

- **http-router** (`router/main.go`) reads one `"METHOD pattern"` line from
  each of its pattern ports. It retires each port once the port has
  delivered its line and registers the pattern under that port's position.
  It then routes every HTTP request that arrives on its request port. A
  matched request goes to the success port of the matched position. A miss
  becomes a 404 or 405 response on the fail port.
- **http-client** (`client/main.go`) collects a URL, a method, headers and
  form data from its input ports. When everything it waits for is there,
  it performs one HTTP request. It sends the outcome to its resp, body or
  err ports and then forgets the four values.

Sockets are opaque identities numbered in creation order. Everything
outside the two loops is an input of a step:

- polling and receiving;
- JSON decoding (`decode`);
- the router's matching function (`route`);
- URL parsing (`urlOk`);
- the HTTP call (`perform`).

What a step sends is its output. Each node has two descriptions:

- a pure state machine. These are `RouterSpec.Next` and `ClientSpec.Next`,
  with the properties in `RouterProps` and `ClientProps`;
- an imperative object, `RouterNode.Node` and `HttpClient.Client`. Its
  fields are the loop variables and its `Step` method is proved to do what
  the state machine does.

The source's search and merge loops are methods with loop invariants.
Each is proved equal to the function that specifies it.

Files:

- `wrappers.dfy`, `runtime.dfy`, `http_types.dfy`: Option, packets, decode
  outcomes, process status, and the request and response records.
- `go_strings.dfy`: strings.Split, TrimSpace and ToUpper, and their laws.
- `routing.dfy`: the router object, which is a registration log, and the
  six methods.
- `router_spec.dfy`, `router_props.dfy`, `router_node.dfy`: the router.
- `client_spec.dfy`, `client_props.dfy`, `client_node.dfy`: the client.

A Go panic is modelled as status `Crashed`. `os.Exit` and `assertError`
are modelled as `Exited`.

Behaviour of the code that the model keeps:

- Matched path parameters overwrite `Form` keys that are already there
  (`router/main.go:249`).
- A registration line with an unsupported method still retires its port:
  the splice at line 194 runs before the method switch at line 201.
- A registration line without a space makes `parts[1]` panic
  (`router/main.go:200`), so the router crashes after retiring the port.
- A port that cannot be found in `patternPorts` is closed (line 179) but
  stays in the poll list (lines 188-191). `RetireValid` shows that on a
  valid state this branch is dead.
- A poll error ends the router with `os.Exit(1)` (`router/main.go:150-154`);
  the client goes on polling (`client/main.go:161-165`).
- On a matched route, writing a parameter into a nil `Form` panics
  (`router/main.go:249`), and so does an output index outside
  `successPorts` (line 252).
- `index` keeps its value across iterations that end in `continue`. When no
  item is ready, the search loop at lines 157-162 leaves it as it was, and
  `pollItems[-1]` at line 164, in the first iteration or after a routed
  request, panics (`StaleIndexCrashes`).

## Model

| member | source | states |
|---|---|---|
| RouterSpec.ValidateArgs | router/main.go:36-60 | accepts exactly when all four flags are non-empty and the pattern and success lists hold equally many commas, that is, split into equally many endpoints |
| GoStrings.SplitCount | router/main.go:53-55 | strings.Split with one separator yields one piece more than there are separators |
| GoStrings.Split | router/main.go:53-54 | strings.Split with a one-rune separator; no contract of its own, its properties are SplitCount, JoinSplit, SplitJoin, SplitPiecesLackSep and SplitFirst |
| GoStrings.JoinSplit | router/main.go:76-77 | splitting is lossless: joining the pieces with the separator gives back the text |
| GoStrings.SplitJoin | router/main.go:76-77 | splitting undoes joining for any non-empty list of pieces that hold no separator |
| GoStrings.SplitPiecesLackSep | router/main.go:198 | no piece of a split holds the separator |
| GoStrings.SplitFirst | router/main.go:198-200 | the first piece is the text up to the first separator; the other pieces are the split of what follows it |
| GoStrings.TrimLeftSpec | router/main.go:83 | left trimming drops a prefix of white space, all of it |
| GoStrings.TrimRightSpec | router/main.go:91 | right trimming drops a suffix of white space, all of it |
| GoStrings.TrimSpaceInfix | router/main.go:83 | TrimSpace is the infix of the text between a leading and a trailing white-space run, and it neither starts nor ends with white space |
| GoStrings.TrimSpace | router/main.go:83 | strings.TrimSpace over the full unicode.IsSpace set; no contract of its own, its properties are TrimLeftSpec, TrimRightSpec, TrimSpaceInfix and TrimSpaceIdempotent |
| GoStrings.TrimSpaceIdempotent | router/main.go:83 | a law of the TrimSpace model: trimming twice is trimming once |
| GoStrings.ToUpper | client/main.go:185 | same length as the input; every rune is replaced by its upper case |
| GoStrings.UpperRune | client/main.go:185 | unicode.ToUpper on one rune (ASCII letters, U+0131, U+017F); no contract of its own, ToUpper states that it is applied to every rune |
| GoStrings.ToUpperIdempotent | client/main.go:185 | upper-casing twice is upper-casing once |
| Routing.ParseMethod | router/main.go:201-216 | a method name is accepted exactly when it is one of GET, POST, PUT, DELETE, HEAD and OPTIONS, and then it names that method |
| Routing.Router.constructor | router/main.go:144 | a new router has an empty registration log |
| Routing.Router.Add | router/main.go:202-213 | a registration appends exactly one `(method, pattern, index)` entry to the log |
| RouterSpec.FirstReady | router/main.go:157-162 | the position of a ready item with no ready item before it; none exactly when no item is ready |
| RouterSpec.LastIndexOf | router/main.go:182-187 | -1 exactly when the port is absent; otherwise a position holding the port with none after it |
| RouterSpec.ParseRegistration | router/main.go:198-200 | a line yields a method and a pattern exactly when it holds a space (otherwise `parts[1]` is out of range) |
| RouterProps.ParseRegistrationFields | router/main.go:198-200 | the method is the upper-cased, trimmed text before the first space; the pattern is the trimmed text between the first and the second space, or up to the end |
| RouterNode.OpenPorts | router/main.go:81-94 | one pattern and one success socket per endpoint pair, in order, each on its trimmed endpoint; the poll list at that point is the pattern sockets |
| RouterSpec.Setup | router/main.go:75-145 | openPorts, line 130 and the initial loop variables; no contract of its own, SetupPortsValid and SetupValid state what it builds and the constructor is proved equal to it |
| RouterProps.SetupPortsValid | router/main.go:62-94 | the sockets opened at start-up are pairwise distinct: the pattern ports among themselves, the success ports among themselves, every pattern port from every success port, and the request and fail ports from each other and from both lists |
| RouterProps.SetupValid | router/main.go:75-145 | after openPorts, the append of line 130 and the declarations of lines 137-145: the poll list is the pattern ports in order with the request port last, `pLength` is its length, the two lists have one port per endpoint, the log is empty, `index` is -1, and the loop invariant holds |
| RouterNode.Node.constructor | router/main.go:125-145 | the node's fields after start-up are the start-up state, which satisfies the invariant |
| RouterNode.ResolveSocketIndex | router/main.go:157-162 | `index` becomes the first ready position, or keeps its previous value when none is ready |
| RouterSpec.SelectIndex | router/main.go:157-162 | first ready position or the previous `index`; no contract of its own, it is FirstReady with the fallback, and ResolveSocketIndex is proved equal to it |
| RouterProps.StaleIndexCrashes | router/main.go:156-164 | with no ready item and `index` at -1, the receive at `pollItems[-1]` panics |
| RouterProps.InvalidPacketIgnored | router/main.go:164-172 | an invalid packet changes nothing but `index` and sends nothing |
| RouterNode.ResolveOutputIndex | router/main.go:182-187 | `outputIndex` is the last position of the port in `patternPorts`, or -1 |
| RouterProps.UnknownPortDropped | router/main.go:188-191 | a port missing from `patternPorts` is closed, but its message is dropped: nothing is spliced out or registered |
| RouterProps.UnclosedRetire | router/main.go:194 | closing the k-th live pattern port removes exactly that element from the live list and keeps the others in order |
| RouterProps.RetiredShape | router/main.go:194-195 | retiring splices exactly the selected item out of the poll list, `pLength` drops by one and still equals its length, the request port stays last, and the item is closed |
| RouterSpec.Retired | router/main.go:178-195 | the close and the splice; no contract of its own, RetiredShape and RetireValid state its effect |
| RouterProps.RetireValid | router/main.go:176-195 | on a valid state the selected pattern port is found in `patternPorts` and is live, and retiring it keeps the invariant |
| RouterProps.AddRouteValid | router/main.go:201-213 | registering a retired, not yet registered position keeps the invariant |
| RouterProps.RegisterPatternValid | router/main.go:176-217 | a pattern message keeps the invariant |
| RouterSpec.RegisterPattern | router/main.go:176-217 | a pattern-port iteration; no contract of its own, its properties are UnknownPortDropped, RegisterPatternRetires, RegisterRetiresSelected, RegisterPatternValid and LogOnlyGrows, and RegisterStep is proved equal to it |
| RouterProps.SelectPattern | router/main.go:176 | a valid message on a ready item before the request item is a registration step |
| RouterProps.RegisterPatternRetires | router/main.go:194-216 | a registration step retires the selected port and sends nothing; it crashes exactly when the line holds no space, and otherwise appends one entry to the log when the verb is a supported method and none when it is not |
| RouterProps.RegisterRetiresSelected | router/main.go:178-200 | a registration step removes exactly the selected item (a multiset difference of one), keeps the others in order, decrements `pLength`, keeps the request port last, closes the port and sends nothing |
| RouterProps.RetireSelected | router/main.go:157-200 | the same facts for one whole iteration whose first ready item is a pattern port |
| RouterProps.RetireRegisters | router/main.go:181-217 | the line is registered under the port's unique position in `patternPorts`, which the loop never changes, and only for a supported method |
| RouterNode.Node.RegisterStep | router/main.go:176-217 | the node's fields after a pattern message are those of the registration step, and so are its sends and status |
| RouterProps.MissGoesToFail | router/main.go:230-246 | when the selected item (the first ready one, or the left-over `index`) is the request port, NotFound and MethodNotAllowed send exactly one response, to the fail port, with the request's id and 404 or 405; no success port receives anything, and the log and poll list are unchanged |
| RouterNode.MergeParams | router/main.go:248-250 | panics exactly when the Form is nil and there is a parameter; otherwise the Form ends as the old Form overridden by the parameters |
| RouterSpec.MergedForm | router/main.go:248-250 | the Form after the merge loop; no contract of its own, MergeParams is proved equal to it and MatchGoesToSuccess states its keys and values |
| RouterProps.MatchGoesToSuccess | router/main.go:247-252 | a match to an index within the success ports, on a request that has a Form or gets no parameters, sends the request only to `successPorts[outputIndex]` and never to the fail port. Its Form is the old Form overridden by the parameters: every parameter overwrites, every other key is kept, and a request without a Form is sent without one. Nothing else in the request changes, and neither the log nor the poll list does |
| RouterProps.MatchCrashes | router/main.go:247-252 | when the selected item is the request port, a match crashes exactly when a parameter must be written into a nil Form or the index is outside the success ports |
| RouterProps.HandleRequestKeeps | router/main.go:221-255 | handling a request changes no variable but `index` |
| RouterSpec.HandleRequest | router/main.go:221-255 | a request-port iteration; no contract of its own, its properties are MissGoesToFail, MatchGoesToSuccess, MatchCrashes and HandleRequestKeeps, and RequestStep is proved equal to it |
| RouterNode.Node.RequestStep | router/main.go:221-255 | the node's fields after a request are those of the request step, and so are its sends and status |
| RouterProps.RequestsNeverRegister | router/main.go:220-255 | an iteration whose item is not a pattern port leaves the log, the poll list, `pLength` and the closed ports unchanged |
| RouterProps.NextPreservesValid | router/main.go:150-255 | every iteration keeps the loop invariant and the sockets opened at start-up |
| RouterSpec.Next | router/main.go:150-255 | one iteration of the router loop; no contract of its own, its properties are NextPreservesValid, StaleIndexCrashes, InvalidPacketIgnored, RetireSelected, RetireRegisters, RequestsNeverRegister, FrozenAfterRegistration and LogOnlyGrows, and Node.Step is proved equal to it |
| RouterProps.FrozenAfterRegistration | router/main.go:176-255 | once only the request port is polled, no input changes the log or the poll list |
| RouterProps.LogOnlyGrows | router/main.go:197-217 | the log only grows, by at most one entry per iteration, and only in an iteration that removes a poll item |
| RouterNode.Node.Step | router/main.go:150-255 | one iteration of the object is the state machine's step, and it keeps the invariant |
| ClientProps.SuccessReachesOutput | client/main.go:52-59 | after the start-up check, every completed request sends one or two packets, to exactly the connected resp and body ports, and none to err |
| ClientSpec.ArgsOk | client/main.go:52-59 | the start-up check; no contract of its own, SuccessReachesOutput states what it guarantees and the client constructor requires it |
| HttpClient.Client.constructor | client/main.go:152-158 | the loop variables start empty |
| ClientProps.UrlAndMethodMessages | client/main.go:181-186 | a URL message stores the payload verbatim; a method message stores it upper-cased, which upper-casing again leaves unchanged; nothing else changes |
| ClientProps.IgnoredMessages | client/main.go:166-204 | an invalid packet, an unhandled socket, and a headers or form payload that fails to decode leave all four variables unchanged |
| ClientProps.UnmarshalMerges | client/main.go:187-200 | a decoded object adds its pairs into the map and keeps the other pairs; `null` makes the map nil |
| ClientSpec.Unmarshal | client/main.go:187-200 | json.Unmarshal into a map variable; no contract of its own, UnmarshalMerges states its keys and values |
| ClientProps.MapMessagesKeepStrings | client/main.go:187-200 | headers and form messages never change the URL or the method, and reach only their own variable when their port is connected |
| HttpClient.Client.Absorb | client/main.go:176-204 | the variables after one polled item are those of the state machine |
| ClientSpec.AbsorbEvent | client/main.go:176-204 | one polled item; no contract of its own, its properties are UrlAndMethodMessages, IgnoredMessages and MapMessagesKeepStrings, and Absorb is proved equal to it |
| ClientProps.UrlKeptWithoutUrlMessage | client/main.go:166-205 | a batch without a valid URL message leaves the URL as it was |
| ClientProps.LastUrlMessageWins | client/main.go:166-205 | the last valid URL message of a batch decides the URL |
| ClientSpec.AbsorbAll | client/main.go:166-205 | the items of one poll in order; no contract of its own, its properties are UrlKeptWithoutUrlMessage and LastUrlMessageWins |
| ClientProps.PollFailureKeeps | client/main.go:161-165 | a failed poll changes nothing and sends nothing |
| ClientProps.AttemptOnlyWhenReady | client/main.go:207-209 | a request is made only on ready values; otherwise the values carry over and nothing is sent |
| ClientSpec.Ready | client/main.go:207-209 | the readiness test; no contract of its own, AttemptOnlyWhenReady states its role |
| ClientProps.AttemptFailures | client/main.go:211-219 | NewRequest rejecting the method or URL exits, and a header without values panics, exactly on those inputs and sending nothing; in every other case a request is made |
| ClientProps.RequestShape | client/main.go:211-219 | the request carries the collected method (a valid token) and URL, a body exactly when form data is present, and the first value of each header key |
| ClientSpec.Attempt | client/main.go:211-268 | one attempt on ready values; no contract of its own, its properties are AttemptFailures, RequestShape and ResetAfterAttempt |
| HttpClient.BuildHeader | client/main.go:217-219 | panics exactly when some header key has no value; otherwise the header holds each key with its first value |
| ClientProps.ResetAfterAttempt | client/main.go:221-268 | after every attempt the four variables are reset, whatever the outcome |
| ClientProps.ErrorsGoToErr | client/main.go:221-256 | each of the three failures sends its message to err when that port is connected, and nothing elsewhere |
| ClientProps.RepliesGoToRespAndBody | client/main.go:258-263 | a reply sends the encoded response to resp and the body alone to body, each when connected |
| ClientSpec.Outputs | client/main.go:222-263 | the packets sent for an outcome; no contract of its own, its properties are SuccessReachesOutput, ErrorsGoToErr and RepliesGoToRespAndBody |
| HttpClient.Client.Step | client/main.go:160-268 | one iteration of the object is the state machine's step |
| ClientSpec.Next | client/main.go:160-268 | one iteration of the client loop; no contract of its own, its properties are PollFailureKeeps, AttemptOnlyWhenReady, RequestShape and ResetAfterAttempt, and Client.Step is proved equal to it |

## Left out

- Sockets are opaque identities. Creating, polling, receiving, sending and
  closing them, ZeroMQ errors, `SetupShutdownByDisconnect`, signal handling
  and the deferred closes are I/O, so they are not modelled. The poll outcome
  and the received packet are inputs of a step.
- JSON encoding and decoding (`IP2Request`, `Request2IP`, `Response2IP`,
  `json.Unmarshal`) are a `decode` parameter or a record value. A failure to
  encode an outgoing request or response in the router is not modelled,
  because the code ignores that error. Go's partial fill of a map on a type
  mismatch is not modelled either: a decoding error leaves the variable as it
  was.
- `Router.Route` and the router's matching are not part of this model. Route
  is an arbitrary function of the registration log, the method and the URI.
  Registration keeps only the log of `(method, pattern, index)`.
- `http.NewRequest`'s URL parsing is an `urlOk` predicate. `client.Do`,
  `Response2Response` and `Response2IP` together are a `perform` function
  returning one of the four outcomes. The TLS configuration and the timeout
  are not modelled.
- ClientSpec.ClientRequest: the body is the form data itself, not its URL
  encoding (`data.Encode()`). `Header.Add`'s canonicalisation of header keys
  is not modelled, so two keys that differ only in case stay apart.
- GoStrings.ToUpper: models `unicode.ToUpper` only for the runes whose upper
  case is ASCII (a-z, U+0131, U+017F); every other rune is left as it is.
- Payloads are text (sequences of runes). Invalid UTF-8 is not modelled.
- Logging, the `-json` and `-debug` flags and the usage message are not
  modelled.
- The infinite `for` loop of each node is modelled as one iteration, a
  `Step`; the invariant proofs cover any number of them.
