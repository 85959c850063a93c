/**
 The client object and its `api(path: ...)` methods: the endpoint chosen at
 construction, the URL join, and the routing of a transport outcome through
 a parser into a fresh Response that is handed to the completion.

 The HTTP call itself, the encoding of `parameters` into the request and the
 queue hops are outside this model: the transport outcome is an input, and
 the order of events (parse, then deliver) is recorded as a trace.
 */
module Api {

  import opened Options
  import opened Parameters
  import opened Routes
  import opened Responses

  newtype byte = x: int | 0 <= x < 256

  /** A `Data` payload. */
  type Data = seq<byte>

  datatype Method = Get | Post

  /** The parser classes the endpoint methods pass to `api`. */
  datatype ParserKind =
    | TimesParser | NodeInfoParser | ValidatorsParser | PeerParser | AccountParser
    | SequenceParser | TxParser | TokenParser | MarketsParser | FeesParser
    | MarketDepthParser | TransactionsParser | CandlestickParser | OrderListParser
    | OrderParser | TickerStatisticsParser | TradeParser

  /**
   The slot each parser class fills, read off the class and slot names: the
   parser bodies are not part of this model.
   */
  function OwnedSlot(k: ParserKind): Slot {
    match k
    case TimesParser => TimesSlot
    case NodeInfoParser => NodeInfoSlot
    case ValidatorsParser => ValidatorsSlot
    case PeerParser => PeersSlot
    case AccountParser => AccountSlot
    case SequenceParser => SequenceSlot
    case TxParser => TxSlot
    case TokenParser => TokensSlot
    case MarketsParser => MarketsSlot
    case FeesParser => FeesSlot
    case MarketDepthParser => MarketDepthSlot
    case TransactionsParser => TransactionsSlot
    case CandlestickParser => CandlesticksSlot
    case OrderListParser => OrderListSlot
    case OrderParser => OrderSlot
    case TickerStatisticsParser => TickerStatisticsSlot
    case TradeParser => TradesSlot
  }

  /** Distinct parser classes fill distinct slots. */
  lemma OwnedSlotInjective(a: ParserKind, b: ParserKind)
    requires OwnedSlot(a) == OwnedSlot(b)
    ensures a == b
  {
  }

  /** The client's only state: the endpoint, fixed once it is built. */
  datatype Client = Client(endpoint: Endpoint)

  /** `init()`: the test network. */
  function Init(): (c: Client)
    ensures c.endpoint == Test
  {
    Client(Test)
  }

  /** `init(endpoint:)`: the given endpoint. */
  function InitWith(e: Endpoint): (c: Client)
    ensures c.endpoint == e
  {
    Client(e)
  }

  /** The arguments an endpoint method passes to `api(path: String, ...)`; the completion is passed to Dispatch. */
  datatype Call = Call(path: string, httpMethod: Method, parameters: Params, parser: ParserKind)

  /** `api(path: Path, ...)`: forwards the path's raw value. */
  function PathCall(p: Path, m: Method, ps: Params, parser: ParserKind): (c: Call)
    ensures c.path == PathRaw(p)
    ensures c.httpMethod == m && c.parameters == ps && c.parser == parser
  {
    Call(PathRaw(p), m, ps, parser)
  }

  /** What is handed to the HTTP library: URL, method and parameters. */
  datatype HttpRequest = HttpRequest(url: string, httpMethod: Method, parameters: Params)

  /** The URL join `"\(endpoint.rawValue)/\(path)"`; method and parameters pass through. */
  function RequestFor(c: Client, call: Call): (r: HttpRequest)
    ensures EndpointOfUrl(r.url) == Some(c.endpoint)
    ensures |r.url| > |EndpointRaw(c.endpoint)|
    ensures r.url[|EndpointRaw(c.endpoint)|..] == "/" + call.path
    ensures r.httpMethod == call.httpMethod && r.parameters == call.parameters
  {
    var url := EndpointRaw(c.endpoint) + "/" + call.path;
    EndpointPrefixUnique(c.endpoint, "/" + call.path);
    assert url == EndpointRaw(c.endpoint) + ("/" + call.path);
    HttpRequest(url, call.httpMethod, call.parameters)
  }

  /** The URL of a request is the endpoint's base URL, a slash and the path, and it determines both. */
  lemma UrlDeterminesEndpointAndPath(c1: Client, call1: Call, c2: Client, call2: Call)
    requires RequestFor(c1, call1).url == RequestFor(c2, call2).url
    ensures c1 == c2 && call1.path == call2.path
  {
    var r1, r2 := RequestFor(c1, call1), RequestFor(c2, call2);
    assert c1.endpoint == c2.endpoint;
    assert "/" + call1.path == "/" + call2.path;
    assert call1.path == ("/" + call1.path)[1..];
  }

  // ----- result unification -----

  /** Alamofire's `Result<Data>`: the payload or the transport's error. */
  datatype Transport = Success(data: Data) | Failure(fault: Fault)

  /**
   What one run of `parser.parse(response:data:)` on a fresh response does:
   it returns having written `slots`, or it throws `fault` after writing
   `slots`. The parser is assumed to write the payload slots only.
   */
  datatype ParseRun = Parsed(slots: Slots) | Threw(slots: Slots, fault: Fault)

  /** A parser: the run it makes on each payload. */
  type Parser = Data -> ParseRun

  /** The observable steps of one request, in order. */
  datatype Event = ParserInvoked(data: Data) | CompletionInvoked(response: Response)

  datatype Run = Run(response: Response, events: seq<Event>)

  /**
   `error as? Error`: the type `Error` names is not part of this model, so
   `conforms` says which faults the conditional cast keeps.
   */
  function Caught(f: Fault, conforms: Fault -> bool): (r: Option<Fault>)
    ensures r.Some? <==> conforms(f)
    ensures r.Some? ==> r.value == f
  {
    if conforms(f) then Some(f) else None
  }

  function Deliveries(events: seq<Event>): nat
    decreases |events|
  {
    if |events| == 0 then 0
    else (if events[0].CompletionInvoked? then 1 else 0) + Deliveries(events[1..])
  }

  function Invocations(events: seq<Event>): nat
    decreases |events|
  {
    if |events| == 0 then 0
    else (if events[0].ParserInvoked? then 1 else 0) + Invocations(events[1..])
  }

  /** `if let completion = completion { completion(response) }`. */
  function Deliver(hasCompletion: bool, r: Response): (events: seq<Event>)
    ensures Deliveries(events) == if hasCompletion then 1 else 0
    ensures Invocations(events) == 0
    ensures forall i :: 0 <= i < |events| ==> events[i] == CompletionInvoked(r)
  {
    if hasCompletion then [CompletionInvoked(r)] else []
  }

  lemma CountsAppend(a: seq<Event>, b: seq<Event>)
    ensures Deliveries(a + b) == Deliveries(a) + Deliveries(b)
    ensures Invocations(a + b) == Invocations(a) + Invocations(b)
    decreases |a|
  {
    if |a| > 0 {
      assert (a + b)[1..] == a[1..] + b;
      CountsAppend(a[1..], b);
    } else {
      assert a + b == b;
    }
  }

  /**
   The body of the `responseData` handler: a fresh response, the parser run
   on a payload (its throw caught into the error slot), the transport's
   error recorded otherwise, then one delivery to the completion if there is one.
   */
  function Dispatch(t: Transport, parser: Parser, conforms: Fault -> bool, hasCompletion: bool): (run: Run)
    // no failure is swallowed: the flag is clear only when both the transport and the parse succeed
    ensures !run.response.isError <==> t.Success? && parser(t.data).Parsed?
    ensures t.Failure? ==> run.response.slots == Defaults && run.response.error == Caught(t.fault, conforms)
    ensures t.Success? ==> run.response.slots == parser(t.data).slots
    ensures t.Success? && parser(t.data).Parsed? ==> run.response.error == None
    ensures t.Success? && parser(t.data).Threw? ==> run.response.error == Caught(parser(t.data).fault, conforms)
    // the parser runs once on the payload, and never without one
    ensures Invocations(run.events) == if t.Success? then 1 else 0
    ensures t.Success? ==> run.events[0] == ParserInvoked(t.data)
    // the completion fires once when present, never when absent, last, with the final response
    ensures Deliveries(run.events) == if hasCompletion then 1 else 0
    ensures hasCompletion ==> run.events[|run.events| - 1] == CompletionInvoked(run.response)
    ensures forall i :: 0 <= i < |run.events| && run.events[i].CompletionInvoked? ==>
              i == |run.events| - 1 && run.events[i].response == run.response
  {
    match t
    case Failure(f) =>
      var response := Fresh().(isError := true, error := Caught(f, conforms));
      Run(response, Deliver(hasCompletion, response))
    case Success(data) =>
      var response := match parser(data)
        case Parsed(s) => Fresh().(slots := s)
        case Threw(s, f) => Fresh().(slots := s, isError := true, error := Caught(f, conforms));
      var events := [ParserInvoked(data)] + Deliver(hasCompletion, response);
      CountsAppend([ParserInvoked(data)], Deliver(hasCompletion, response));
      Run(response, events)
  }

  /** On a transport failure the parser is never consulted: any two parsers give the same run. */
  lemma FailureIgnoresParser(f: Fault, p1: Parser, p2: Parser, conforms: Fault -> bool, hasCompletion: bool)
    ensures Dispatch(Failure(f), p1, conforms, hasCompletion) == Dispatch(Failure(f), p2, conforms, hasCompletion)
  {
  }

  /** With a cast that keeps every fault, a response carries an error exactly when it is flagged. */
  lemma ErrorPresentIffFlagged(t: Transport, parser: Parser, conforms: Fault -> bool, hasCompletion: bool)
    requires forall f :: conforms(f)
    ensures var r := Dispatch(t, parser, conforms, hasCompletion).response;
            r.isError <==> r.error.Some?
  {
  }

  /** A parser that throws before writing anything leaves every slot at its default. */
  lemma EarlyThrowKeepsDefaults(data: Data, parser: Parser, conforms: Fault -> bool, hasCompletion: bool)
    requires parser(data).Threw? && parser(data).slots == Defaults
    ensures var r := Dispatch(Success(data), parser, conforms, hasCompletion).response;
            r.isError && r.slots == Defaults
  {
  }

  /** A parser that writes only the slot it owns yields a response with at most one populated slot. */
  lemma OwningParserOneSlot(t: Transport, parser: Parser, kind: ParserKind, conforms: Fault -> bool, hasCompletion: bool)
    requires forall d :: OnlySlot(parser(d).slots, OwnedSlot(kind))
    ensures var r := Dispatch(t, parser, conforms, hasCompletion).response;
            OnlySlot(r.slots, OwnedSlot(kind)) && AtMostOnePopulated(r.slots)
  {
    var r := Dispatch(t, parser, conforms, hasCompletion).response;
    if t.Success? {
      assert OnlySlot(parser(t.data).slots, OwnedSlot(kind));
    }
    OnlySlotAtMostOne(r.slots, OwnedSlot(kind));
  }

  /** One exchange of `api(path: String, ...)`: the request handed out and the run its outcome causes. */
  datatype Exchange = Exchange(request: HttpRequest, run: Run)

  /**
   `api(path: String, ...)` on a call: the request is built from the call,
   and the outcome is run through the parser of the class the call names;
   `parsers` gives each parser class's behaviour.
   */
  function Perform(c: Client, call: Call, t: Transport, parsers: ParserKind -> Parser,
                   conforms: Fault -> bool, hasCompletion: bool): (x: Exchange)
    ensures EndpointOfUrl(x.request.url) == Some(c.endpoint)
    ensures x.request.url[|EndpointRaw(c.endpoint)|..] == "/" + call.path
    ensures x.request.httpMethod == call.httpMethod && x.request.parameters == call.parameters
    ensures !x.run.response.isError <==> t.Success? && parsers(call.parser)(t.data).Parsed?
    ensures t.Success? ==> x.run.response.slots == parsers(call.parser)(t.data).slots
    ensures Deliveries(x.run.events) == if hasCompletion then 1 else 0
  {
    Exchange(RequestFor(c, call), Dispatch(t, parsers(call.parser), conforms, hasCompletion))
  }

  /**
   When every parser class writes only the slot it owns, the response to a
   call has at most one populated slot, the one of the call's parser class.
   */
  lemma PerformFillsOwnedSlot(c: Client, call: Call, t: Transport, parsers: ParserKind -> Parser,
                              conforms: Fault -> bool, hasCompletion: bool)
    requires forall k, d :: OnlySlot(parsers(k)(d).slots, OwnedSlot(k))
    ensures var r := Perform(c, call, t, parsers, conforms, hasCompletion).run.response;
            OnlySlot(r.slots, OwnedSlot(call.parser)) && AtMostOnePopulated(r.slots)
  {
    OwningParserOneSlot(t, parsers(call.parser), call.parser, conforms, hasCompletion);
  }
}
