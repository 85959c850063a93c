/**
 The endpoint methods of the client (the "HTTP API" section): each picks a
 route, an HTTP method, a parameter dictionary and a parser, and passes them
 to `api`. Optional arguments enter the dictionary only when supplied.

 A `TimeInterval` or `Double` argument is given as the text Swift renders
 it to (DoubleText), because floating-point formatting is not modelled.
 */
module Endpoints {

  import opened Options
  import opened Text
  import opened Parameters
  import Routes
  import opened Api
  import opened Responses

  /** A `TimeInterval` or `Double`, as the text `"\(x)"` gives. */
  type DoubleText = string

  function StrIf(o: Option<string>): Option<Value> {
    if o.Some? then Some(Str(o.value)) else None
  }

  function IntIf(o: Option<int>): Option<Value> {
    if o.Some? then Some(Int(o.value)) else None
  }

  function FloatIf(o: Option<DoubleText>): Option<Value> {
    if o.Some? then Some(Float(o.value)) else None
  }

  /** `x.rawValue` of an optional enumeration argument. */
  function RawIf(o: Option<Choice>): Option<Value> {
    if o.Some? then Some(Raw(o.value)) else None
  }

  /** An optional enumeration argument stored as itself. */
  function EnumIf(o: Option<Choice>): Option<Value> {
    if o.Some? then Some(Enum(o.value)) else None
  }

  // ----- endpoints with a fixed route -----

  function Time(): (c: Call)
    ensures c == Call("time", Get, [], TimesParser)
  {
    PathCall(Routes.Time, Get, [], TimesParser)
  }

  function NodeInfo(): (c: Call)
    ensures c == Call("node-info", Get, [], NodeInfoParser)
  {
    PathCall(Routes.NodeInfo, Get, [], NodeInfoParser)
  }

  function Validators(): (c: Call)
    ensures c == Call("validators", Get, [], ValidatorsParser)
  {
    PathCall(Routes.Validators, Get, [], ValidatorsParser)
  }

  function Peers(): (c: Call)
    ensures c == Call("peers", Get, [], PeerParser)
  {
    PathCall(Routes.Peers, Get, [], PeerParser)
  }

  function Fees(): (c: Call)
    ensures c == Call("fees", Get, [], FeesParser)
  {
    PathCall(Routes.Fees, Get, [], FeesParser)
  }

  /**
   When every parser class writes only the slot it owns, `time()` yields a
   response whose only populated slot, if any, is `times`.
   */
  lemma TimeFillsTimesSlot(c: Client, t: Transport, parsers: ParserKind -> Parser,
                           conforms: Fault -> bool, hasCompletion: bool)
    requires forall k, d :: OnlySlot(parsers(k)(d).slots, OwnedSlot(k))
    ensures OnlySlot(Perform(c, Time(), t, parsers, conforms, hasCompletion).run.response.slots, TimesSlot)
  {
    PerformFillsOwnedSlot(c, Time(), t, parsers, conforms, hasCompletion);
  }

  // ----- endpoints whose argument is part of the route -----

  function Account(address: string): (c: Call)
    ensures c == Call("account/" + address, Get, [], AccountParser)
  {
    Call(Routes.PathRaw(Routes.Account) + "/" + address, Get, [], AccountParser)
  }

  function Sequence(address: string): (c: Call)
    ensures c.path == "account/" + address + "/sequence"
    ensures c.httpMethod == Get && c.parser == SequenceParser
    ensures c.parameters == [("format", Str("json"))]
    ensures Keys(c.parameters) == {"format"} && Lookup(c.parameters, "format") == Some(Str("json"))
  {
    var ps := Put([], "format", Str("json"));
    Call(Routes.PathRaw(Routes.Account) + "/" + address + "/" + Routes.PathRaw(Routes.Sequence), Get, ps, SequenceParser)
  }

  function Tx(hash: string): (c: Call)
    ensures c == Call("tx/" + hash + "?format=json", Get, [], TxParser)
  {
    Call(Routes.PathRaw(Routes.Tx) + "/" + hash + "?format=json", Get, [], TxParser)
  }

  function Order(id: string): (c: Call)
    ensures c == Call("orders/" + id, Get, [], OrderParser)
  {
    Call(Routes.PathRaw(Routes.Orders) + "/" + id, Get, [], OrderParser)
  }

  function Ticker(symbol: string): (c: Call)
    ensures c == Call("ticker/24hr/?symbol=" + symbol, Get, [], TickerStatisticsParser)
  {
    Call(Routes.PathRaw(Routes.Ticker) + "/?symbol=" + symbol, Get, [], TickerStatisticsParser)
  }

  /** `broadcast(sync:body:)`: a POST whose body is never attached; `sync` defaults to true. */
  function Broadcast(sync: bool := true, body: Data): (c: Call)
    ensures c.path == if sync then "broadcast/?sync=1" else "broadcast"
    ensures c.httpMethod == Post && c.parameters == [] && c.parser == TransactionsParser
  {
    var path := Routes.PathRaw(Routes.Broadcast);
    var path := if sync then path + "/?sync=1" else path;
    Call(path, Post, [], TransactionsParser)
  }

  /** Without a `sync` argument the broadcast is synchronous. */
  lemma BroadcastSyncByDefault(body: Data)
    ensures Broadcast(body := body).path == "broadcast/?sync=1"
  {
  }

  /** The body argument has no effect on the request. */
  lemma BroadcastIgnoresBody(sync: bool, b1: Data, b2: Data)
    ensures Broadcast(sync, b1) == Broadcast(sync, b2)
  {
  }

  // ----- endpoints with a parameter dictionary -----

  function TokensFields(limit: Option<Choice>, offset: Option<int>): (r: seq<Field>)
    ensures DistinctFields(r)
  {
    [("limit", RawIf(limit)), ("offset", IntIf(offset))]
  }

  function Tokens(limit: Option<Choice>, offset: Option<int>): (c: Call)
    ensures c.path == "tokens" && c.httpMethod == Get && c.parser == TokenParser
    ensures HoldsExactly(c.parameters, TokensFields(limit, offset))
  {
    CollectFresh(TokensFields(limit, offset));
    PathCall(Routes.Tokens, Get, Collect([], TokensFields(limit, offset)), TokenParser)
  }

  function Markets(limit: Option<Choice>, offset: Option<int>): (c: Call)
    ensures c.path == "markets" && c.httpMethod == Get && c.parser == MarketsParser
    ensures HoldsExactly(c.parameters, TokensFields(limit, offset))
  {
    CollectFresh(TokensFields(limit, offset));
    PathCall(Routes.Markets, Get, Collect([], TokensFields(limit, offset)), MarketsParser)
  }

  function MarketDepthFields(symbol: string, limit: Option<Choice>): (r: seq<Field>)
    ensures DistinctFields(r)
  {
    [("symbol", Some(Str(symbol))), ("limit", RawIf(limit))]
  }

  function MarketDepth(symbol: string, limit: Option<Choice>): (c: Call)
    ensures c.path == "depth" && c.httpMethod == Get && c.parser == MarketDepthParser
    ensures HoldsExactly(c.parameters, MarketDepthFields(symbol, limit))
    ensures Lookup(c.parameters, "symbol") == Some(Str(symbol))
  {
    CollectFresh(MarketDepthFields(symbol, limit));
    PathCall(Routes.Depth, Get, Collect([], MarketDepthFields(symbol, limit)), MarketDepthParser)
  }

  /** Note that `limit` is stored as the enumeration value, not its raw value. */
  function KlinesFields(symbol: string, interval: Option<Choice>, limit: Option<Choice>,
                        startTime: Option<DoubleText>, endTime: Option<DoubleText>): (r: seq<Field>)
    ensures DistinctFields(r)
  {
    [ ("symbol", Some(Str(symbol))), ("interval", RawIf(interval)), ("limit", EnumIf(limit)),
      ("startTime", FloatIf(startTime)), ("endTime", FloatIf(endTime)) ]
  }

  function Klines(symbol: string, interval: Option<Choice>, limit: Option<Choice>,
                  startTime: Option<DoubleText>, endTime: Option<DoubleText>): (c: Call)
    ensures c.path == "klines" && c.httpMethod == Get && c.parser == CandlestickParser
    ensures HoldsExactly(c.parameters, KlinesFields(symbol, interval, limit, startTime, endTime))
    ensures Lookup(c.parameters, "symbol") == Some(Str(symbol))
  {
    var fields := KlinesFields(symbol, interval, limit, startTime, endTime);
    CollectFresh(fields);
    PathCall(Routes.Klines, Get, Collect([], fields), CandlestickParser)
  }

  /**
   The steps of `trades`: `address` first, assigned as an optional (nil
   stores nothing), then the others; there is no step for `buyerOrderId`.
   */
  function TradesFields(address: Option<string>, end: Option<DoubleText>, height: Option<DoubleText>,
                        offset: Option<int>, quoteAsset: Option<string>, sellerOrderId: Option<string>,
                        side: Option<Choice>, start: Option<DoubleText>, symbol: Option<string>,
                        total: Option<Choice>): (r: seq<Field>)
    ensures DistinctFields(r)
  {
    [ ("address", StrIf(address)), ("end", FloatIf(end)), ("height", FloatIf(height)), ("offset", IntIf(offset)),
      ("quoteAsset", StrIf(quoteAsset)), ("sellerOrderId", StrIf(sellerOrderId)), ("side", RawIf(side)),
      ("start", FloatIf(start)), ("symbol", StrIf(symbol)), ("total", RawIf(total)) ]
  }

  lemma TradesFieldsShape(address: Option<string>, end: Option<DoubleText>, height: Option<DoubleText>,
                          offset: Option<int>, quoteAsset: Option<string>, sellerOrderId: Option<string>,
                          side: Option<Choice>, start: Option<DoubleText>, symbol: Option<string>,
                          total: Option<Choice>)
    ensures var fields := TradesFields(address, end, height, offset, quoteAsset, sellerOrderId, side, start, symbol, total);
            && DistinctFields(fields)
            && fields[0] == ("address", StrIf(address))
            && "buyerOrderId" !in FieldKeys(fields)
  {
    var fields := TradesFields(address, end, height, offset, quoteAsset, sellerOrderId, side, start, symbol, total);
    forall i | 0 <= i < |fields| ensures fields[i].0 != "buyerOrderId" {
      assert |fields[i].0| != |"buyerOrderId"|;
    }
  }

  /** The dictionary `trades` builds. */
  function TradesQuery(address: Option<string>, end: Option<DoubleText>, height: Option<DoubleText>,
                       offset: Option<int>, quoteAsset: Option<string>, sellerOrderId: Option<string>,
                       side: Option<Choice>, start: Option<DoubleText>, symbol: Option<string>,
                       total: Option<Choice>): (ps: Params)
    ensures HoldsExactly(ps, TradesFields(address, end, height, offset, quoteAsset, sellerOrderId, side, start, symbol, total))
  {
    var fields := TradesFields(address, end, height, offset, quoteAsset, sellerOrderId, side, start, symbol, total);
    TradesFieldsShape(address, end, height, offset, quoteAsset, sellerOrderId, side, start, symbol, total);
    var f := fields[0];
    var first := Assign([], "address", StrIf(address));
    assert HoldsExactly(first, [f]) by {
      FieldKeysAppend([], f);
      assert [] + [f] == [f];
    }
    assert [f] + fields[1..] == fields;
    CollectHolds(first, [f], fields[1..]);
    Collect(first, fields[1..])
  }

  lemma TradesQueryLookups(ps: Params, address: Option<string>, end: Option<DoubleText>, height: Option<DoubleText>,
                           offset: Option<int>, quoteAsset: Option<string>, sellerOrderId: Option<string>,
                           side: Option<Choice>, start: Option<DoubleText>, symbol: Option<string>,
                           total: Option<Choice>)
    requires HoldsExactly(ps, TradesFields(address, end, height, offset, quoteAsset, sellerOrderId, side, start, symbol, total))
    ensures Lookup(ps, "address") == StrIf(address)
    ensures Lookup(ps, "buyerOrderId") == None
  {
    TradesFieldsShape(address, end, height, offset, quoteAsset, sellerOrderId, side, start, symbol, total);
  }

  function Trades(address: Option<string>, buyerOrderId: Option<string>, end: Option<DoubleText>,
                  height: Option<DoubleText>, offset: Option<int>, quoteAsset: Option<string>,
                  sellerOrderId: Option<string>, side: Option<Choice>, start: Option<DoubleText>,
                  symbol: Option<string>, total: Option<Choice>): (c: Call)
    ensures c.path == "trades" && c.httpMethod == Get && c.parser == TradeParser
    ensures HoldsExactly(c.parameters, TradesFields(address, end, height, offset, quoteAsset, sellerOrderId, side, start, symbol, total))
    ensures Lookup(c.parameters, "address") == StrIf(address)
    ensures Lookup(c.parameters, "buyerOrderId") == None
  {
    var route := Routes.PathRaw(Routes.Trades);
    assert route == "trades";
    var fields := TradesFields(address, end, height, offset, quoteAsset, sellerOrderId, side, start, symbol, total);
    var ps := TradesQuery(address, end, height, offset, quoteAsset, sellerOrderId, side, start, symbol, total);
    assert HoldsExactly(ps, fields);
    TradesQueryLookups(ps, address, end, height, offset, quoteAsset, sellerOrderId, side, start, symbol, total);
    Call(route, Get, ps, TradeParser)
  }

  /** Supplying `buyerOrderId` changes nothing about the request. */
  lemma TradesIgnoresBuyerOrderId(address: Option<string>, b1: Option<string>, b2: Option<string>,
                                  end: Option<DoubleText>, height: Option<DoubleText>, offset: Option<int>,
                                  quoteAsset: Option<string>, sellerOrderId: Option<string>, side: Option<Choice>,
                                  start: Option<DoubleText>, symbol: Option<string>, total: Option<Choice>)
    ensures Trades(address, b1, end, height, offset, quoteAsset, sellerOrderId, side, start, symbol, total)
         == Trades(address, b2, end, height, offset, quoteAsset, sellerOrderId, side, start, symbol, total)
  {
  }

  /** As in `klines`, `limit` is stored as the enumeration value. */
  function TransactionsFields(address: string, blockHeight: Option<DoubleText>, endTime: Option<DoubleText>,
                              limit: Option<Choice>, offset: Option<int>, side: Option<Choice>,
                              startTime: Option<DoubleText>, txAsset: Option<string>, txType: Option<Choice>): (r: seq<Field>)
    ensures DistinctFields(r)
  {
    [ ("address", Some(Str(address))), ("blockHeight", FloatIf(blockHeight)), ("endTime", FloatIf(endTime)),
      ("limit", EnumIf(limit)), ("offset", IntIf(offset)), ("side", RawIf(side)),
      ("startTime", FloatIf(startTime)), ("txAsset", StrIf(txAsset)), ("txType", RawIf(txType)) ]
  }

  function Transactions(address: string, blockHeight: Option<DoubleText>, endTime: Option<DoubleText>,
                        limit: Option<Choice>, offset: Option<int>, side: Option<Choice>,
                        startTime: Option<DoubleText>, txAsset: Option<string>, txType: Option<Choice>): (c: Call)
    ensures c.path == "transactions" && c.httpMethod == Get && c.parser == TransactionsParser
    ensures HoldsExactly(c.parameters, TransactionsFields(address, blockHeight, endTime, limit, offset, side, startTime, txAsset, txType))
    ensures Lookup(c.parameters, "address") == Some(Str(address))
  {
    var fields := TransactionsFields(address, blockHeight, endTime, limit, offset, side, startTime, txAsset, txType);
    CollectFresh(fields);
    PathCall(Routes.Transactions, Get, Collect([], fields), TransactionsParser)
  }

  // ----- endpoints whose dictionary is encoded into the route -----

  /** The dictionary `closedOrders` encodes; `total` defaults to `.required` at the call site. */
  function ClosedOrdersFields(address: string, endTime: Option<DoubleText>, limit: Option<Choice>,
                              offset: Option<int>, side: Option<Choice>, startTime: Option<DoubleText>,
                              status: Option<Choice>, symbol: Option<string>, total: Choice): (r: seq<Field>)
    ensures DistinctFields(r)
  {
    [ ("address", Some(Str(address))), ("total", Some(Raw(total))), ("endTime", FloatIf(endTime)),
      ("limit", RawIf(limit)), ("offset", IntIf(offset)), ("side", RawIf(side)),
      ("startTime", FloatIf(startTime)), ("status", RawIf(status)), ("symbol", StrIf(symbol)) ]
  }

  function ClosedOrdersQuery(address: string, endTime: Option<DoubleText>, limit: Option<Choice>,
                             offset: Option<int>, side: Option<Choice>, startTime: Option<DoubleText>,
                             status: Option<Choice>, symbol: Option<string>, total: Choice): (ps: Params)
    ensures HoldsExactly(ps, ClosedOrdersFields(address, endTime, limit, offset, side, startTime, status, symbol, total))
    ensures Lookup(ps, "address") == Some(Str(address)) && Lookup(ps, "total") == Some(Raw(total))
  {
    var fields := ClosedOrdersFields(address, endTime, limit, offset, side, startTime, status, symbol, total);
    CollectFresh(fields);
    assert fields[0].0 == "address" && fields[1].0 == "total";
    Collect([], fields)
  }

  /** `closedOrders`: the encoded dictionary goes into the route and nothing is passed as parameters. */
  function ClosedOrders(address: string, endTime: Option<DoubleText>, limit: Option<Choice>,
                        offset: Option<int>, side: Option<Choice>, startTime: Option<DoubleText>,
                        status: Option<Choice>, symbol: Option<string>, total: Choice): (c: Call)
    ensures c.path == "orders/closed/?" + UrlEncoded(ClosedOrdersQuery(address, endTime, limit, offset, side, startTime, status, symbol, total))
    ensures c.httpMethod == Get && c.parameters == [] && c.parser == OrderListParser
  {
    var query := ClosedOrdersQuery(address, endTime, limit, offset, side, startTime, status, symbol, total);
    var route := Routes.PathRaw(Routes.ClosedOrders) + "/?";
    assert route == "orders/closed/?";
    Call(route + UrlEncoded(query), Get, [], OrderListParser)
  }

  /** The dictionary `openOrders` encodes; `total` defaults to `.required` at the call site. */
  function OpenOrdersFields(address: string, limit: Option<Choice>, offset: Option<int>,
                            symbol: Option<string>, total: Choice): (r: seq<Field>)
    ensures DistinctFields(r)
  {
    [ ("address", Some(Str(address))), ("total", Some(Raw(total))), ("limit", RawIf(limit)),
      ("offset", IntIf(offset)), ("symbol", StrIf(symbol)) ]
  }

  function OpenOrdersQuery(address: string, limit: Option<Choice>, offset: Option<int>,
                           symbol: Option<string>, total: Choice): (ps: Params)
    ensures HoldsExactly(ps, OpenOrdersFields(address, limit, offset, symbol, total))
    ensures Lookup(ps, "address") == Some(Str(address)) && Lookup(ps, "total") == Some(Raw(total))
  {
    var fields := OpenOrdersFields(address, limit, offset, symbol, total);
    CollectFresh(fields);
    assert fields[0].0 == "address" && fields[1].0 == "total";
    Collect([], fields)
  }

  /** `openOrders`: the encoded dictionary goes into the route and nothing is passed as parameters. */
  function OpenOrders(address: string, limit: Option<Choice>, offset: Option<int>,
                      symbol: Option<string>, total: Choice): (c: Call)
    ensures c.path == "orders/open/?" + UrlEncoded(OpenOrdersQuery(address, limit, offset, symbol, total))
    ensures c.httpMethod == Get && c.parameters == [] && c.parser == OrderListParser
  {
    var query := OpenOrdersQuery(address, limit, offset, symbol, total);
    var route := Routes.PathRaw(Routes.OpenOrders) + "/?";
    assert route == "orders/open/?";
    Call(route + UrlEncoded(query), Get, [], OrderListParser)
  }

  // ----- reading an encoded route back -----

  /** Text that holds neither of the query separators `&` and `=`. */
  predicate PlainText(s: string) {
    '&' !in s && '=' !in s
  }

  lemma OpenOrdersFieldsPlain(address: string, limit: Option<Choice>, offset: Option<int>,
                              symbol: Option<string>, total: Choice)
    requires PlainText(address) && PlainText(total.rawValue)
    requires limit.Some? ==> PlainText(limit.value.rawValue)
    requires symbol.Some? ==> PlainText(symbol.value)
    ensures var fields := OpenOrdersFields(address, limit, offset, symbol, total);
            forall i :: 0 <= i < |fields| ==> PlainField(fields[i])
  {
    var fields := OpenOrdersFields(address, limit, offset, symbol, total);
    forall i | 0 <= i < |fields| ensures PlainField(fields[i]) {
      if i == 3 && offset.Some? {
        IntToStringNoSeparators(offset.value);
        assert fields[i] == ("offset", Some(Int(offset.value)));
      }
    }
  }

  lemma OpenOrdersFieldKeys(address: string, limit: Option<Choice>, offset: Option<int>,
                            symbol: Option<string>, total: Choice)
    ensures FieldKeys(OpenOrdersFields(address, limit, offset, symbol, total)) == {"address", "total", "limit", "offset", "symbol"}
  {
    var fields := OpenOrdersFields(address, limit, offset, symbol, total);
    assert fields[0].0 == "address" && fields[1].0 == "total" && fields[2].0 == "limit";
    assert fields[3].0 == "offset" && fields[4].0 == "symbol";
  }

  /**
   When no supplied argument holds `&` or `=`, the query after `orders/open/?`
   splits on `&` and then `=` into one pair per supplied field, key and
   rendered value, no pair for a field not supplied and no other key.
   */
  lemma OpenOrdersReadsBack(address: string, limit: Option<Choice>, offset: Option<int>,
                            symbol: Option<string>, total: Choice)
    requires PlainText(address) && PlainText(total.rawValue)
    requires limit.Some? ==> PlainText(limit.value.rawValue)
    requires symbol.Some? ==> PlainText(symbol.value)
    ensures var path := OpenOrders(address, limit, offset, symbol, total).path;
            |path| >= 13 && path[..13] == "orders/open/?" && DecodeQuery(path[13..]).Some?
    ensures var fields := OpenOrdersFields(address, limit, offset, symbol, total);
            var d := DecodeQuery(OpenOrders(address, limit, offset, symbol, total).path[13..]).value;
            && ("address", address) in d
            && ("total", total.rawValue) in d
            && (forall i :: 0 <= i < |fields| && fields[i].1.Some? ==> (fields[i].0, Render(fields[i].1.value)) in d)
            && (forall i :: 0 <= i < |fields| && fields[i].1.None? ==> !HasKey(d, fields[i].0))
            && (forall j :: 0 <= j < |d| ==> d[j].0 in FieldKeys(fields))
  {
    var fields := OpenOrdersFields(address, limit, offset, symbol, total);
    var q := OpenOrdersQuery(address, limit, offset, symbol, total);
    var path := OpenOrders(address, limit, offset, symbol, total).path;
    assert path[13..] == UrlEncoded(q);
    OpenOrdersFieldsPlain(address, limit, offset, symbol, total);
    DecodeHolds(q, fields);
    assert fields[0] == ("address", Some(Str(address))) && fields[1] == ("total", Some(Raw(total)));
  }

  lemma ClosedOrdersFieldsPlain(
                  address: string, endTime: Option<DoubleText>, limit: Option<Choice>, offset: Option<int>, side: Option<Choice>,
                  startTime: Option<DoubleText>, status: Option<Choice>, symbol: Option<string>, total: Choice)
    requires PlainText(address) && PlainText(total.rawValue)
    requires endTime.Some? ==> PlainText(endTime.value)
    requires limit.Some? ==> PlainText(limit.value.rawValue)
    requires side.Some? ==> PlainText(side.value.rawValue)
    requires startTime.Some? ==> PlainText(startTime.value)
    requires status.Some? ==> PlainText(status.value.rawValue)
    requires symbol.Some? ==> PlainText(symbol.value)
    ensures var fields := ClosedOrdersFields(address, endTime, limit, offset, side, startTime, status, symbol, total);
            forall i :: 0 <= i < |fields| ==> PlainField(fields[i])
  {
    var fields := ClosedOrdersFields(address, endTime, limit, offset, side, startTime, status, symbol, total);
    forall i | 0 <= i < |fields| ensures PlainField(fields[i]) {
      if i == 4 && offset.Some? {
        IntToStringNoSeparators(offset.value);
        assert fields[i] == ("offset", Some(Int(offset.value)));
      }
    }
  }

  lemma ClosedOrdersFieldKeys(
                  address: string, endTime: Option<DoubleText>, limit: Option<Choice>, offset: Option<int>, side: Option<Choice>,
                  startTime: Option<DoubleText>, status: Option<Choice>, symbol: Option<string>, total: Choice)
    ensures FieldKeys(ClosedOrdersFields(address, endTime, limit, offset, side, startTime, status, symbol, total))
            == {"address", "total", "endTime", "limit", "offset", "side", "startTime", "status", "symbol"}
  {
    var fields := ClosedOrdersFields(address, endTime, limit, offset, side, startTime, status, symbol, total);
    assert fields[0].0 == "address" && fields[1].0 == "total" && fields[2].0 == "endTime";
    assert fields[3].0 == "limit" && fields[4].0 == "offset" && fields[5].0 == "side";
    assert fields[6].0 == "startTime" && fields[7].0 == "status" && fields[8].0 == "symbol";
  }

  /**
   When no supplied argument holds `&` or `=`, the query after `orders/closed/?`
   splits on `&` and then `=` into one pair per supplied field, key and
   rendered value, no pair for a field not supplied and no other key.
   */
  lemma ClosedOrdersReadsBack(
                  address: string, endTime: Option<DoubleText>, limit: Option<Choice>, offset: Option<int>, side: Option<Choice>,
                  startTime: Option<DoubleText>, status: Option<Choice>, symbol: Option<string>, total: Choice)
    requires PlainText(address) && PlainText(total.rawValue)
    requires endTime.Some? ==> PlainText(endTime.value)
    requires limit.Some? ==> PlainText(limit.value.rawValue)
    requires side.Some? ==> PlainText(side.value.rawValue)
    requires startTime.Some? ==> PlainText(startTime.value)
    requires status.Some? ==> PlainText(status.value.rawValue)
    requires symbol.Some? ==> PlainText(symbol.value)
    ensures var path := ClosedOrders(address, endTime, limit, offset, side, startTime, status, symbol, total).path;
            |path| >= 15 && path[..15] == "orders/closed/?" && DecodeQuery(path[15..]).Some?
    ensures var fields := ClosedOrdersFields(address, endTime, limit, offset, side, startTime, status, symbol, total);
            var d := DecodeQuery(ClosedOrders(address, endTime, limit, offset, side, startTime, status, symbol, total).path[15..]).value;
            && ("address", address) in d
            && ("total", total.rawValue) in d
            && (forall i :: 0 <= i < |fields| && fields[i].1.Some? ==> (fields[i].0, Render(fields[i].1.value)) in d)
            && (forall i :: 0 <= i < |fields| && fields[i].1.None? ==> !HasKey(d, fields[i].0))
            && (forall j :: 0 <= j < |d| ==> d[j].0 in FieldKeys(fields))
  {
    var fields := ClosedOrdersFields(address, endTime, limit, offset, side, startTime, status, symbol, total);
    var q := ClosedOrdersQuery(address, endTime, limit, offset, side, startTime, status, symbol, total);
    var path := ClosedOrders(address, endTime, limit, offset, side, startTime, status, symbol, total).path;
    assert path[15..] == UrlEncoded(q);
    ClosedOrdersFieldsPlain(address, endTime, limit, offset, side, startTime, status, symbol, total);
    DecodeHolds(q, fields);
    assert fields[0] == ("address", Some(Str(address))) && fields[1] == ("total", Some(Raw(total)));
  }
}
