# BinanceChain client core, modelled in Dafny

This project models the request-building and result-handling core of the
Swift `BinanceChain` client for the Binance Chain DEX HTTP API
(`BinanceChain/Sources/Core/BinanceChain.swift`):

- the `Endpoint` and `Path` raw-value enumerations (module `Routes`);
- the `Response` record and its default slots (module `Responses`);
- the client's endpoint choice, `api(path: Path, ...)`, the URL join and the
  routing of a transport outcome through a parser into a fresh `Response`
  handed to the completion (module `Api`);
- every endpoint method of the "HTTP API" section, as the route, HTTP method,
  parameter dictionary and parser it passes to `api` (module `Endpoints`);
- the `Dictionary.urlEncoded` extension, unescaped as the code writes it
  (module `Parameters`, with joining, splitting and `Int` rendering in `Text`,
  and general facts about mapping and permuting lists in `Seqs`).

A Swift `Parameters` dictionary is an association list with distinct keys.
`d[k] = v` is `Put`, `d[k] = nil` is `Remove`, `d[k] = optional` is `Assign`
and `if let x = arg { d[k] = x }` is `PutIfPresent`. A run of such steps is
`Collect` over a list of fields. Its meaning is `HoldsExactly`: the dictionary
holds each supplied field's value, nothing for a field not supplied, and no
other key. Dictionary iteration order is not fixed in Swift. So `UrlEncoded`
encodes the entries in list order. `SameDictionarySamePieceMultiset` shows
that any two orders of the same dictionary give the same `key=value` pieces,
each as often. `SameDictionarySamePieces` shows that splitting the two
encodings on `&` gives the same pieces, each as often, whatever the keys and
values hold.

A parser is a function from the payload to a `ParseRun`, and `Perform` runs
the one the call's parser class names. A run either returns
having written some slots, or throws a fault after writing some slots.
`error as? Error` is
modelled by a `conforms` predicate, because the type it casts to is not part
of this model. The order of the parse and the delivery to the completion is
recorded as a trace of events.

Behaviour of the result handling and the encoding that the model keeps as
the code writes it:

- Keys and values are copied into the query string without percent-encoding,
  as the TODO at `BinanceChain.swift:264` admits. `UnescapedCollision` shows
  the consequence: two different dictionaries can encode to the same string.
- A parser that throws keeps the slots it wrote before the throw
  (`BinanceChain.swift:234-239`). `EarlyThrowKeepsDefaults` gives the case in
  which every slot stays at its default.
- The stored error is `error as? Error`, which is nil when the cast fails.
  `ErrorPresentIffFlagged` gives the case in which a flagged response always
  carries an error.

Other behaviour of the code that the model keeps:

- `trades` takes a `buyerOrderId` argument and never uses it
  (`TradesIgnoresBuyerOrderId`).
- `trades` assigns `address` as an optional, so a nil address stores nothing.
- `klines` and `transactions` store the `limit` enumeration value itself rather
  than its raw value, so it is rendered by its case name (`Value.Enum`).
- `broadcast` never attaches its body (`BroadcastIgnoresBody`), and its
  `sync` argument defaults to true (`BroadcastSyncByDefault`).
- `closedOrders` and `openOrders` put the encoded dictionary into the route
  and pass no parameters to `api`.

## Model

| member | source | states |
|---|---|---|
| Routes.EndpointRaw | BinanceChain/Sources/Core/BinanceChain.swift:10-13 | The production and test base URLs as written; each is an HTTPS URL of version 1 of the API without a trailing slash |
| Routes.EndpointOfUrl | BinanceChain/Sources/Core/BinanceChain.swift:10-13 | An endpoint is recognised in a URL only when its base URL is a prefix of the URL |
| Routes.EndpointPrefixUnique | BinanceChain/Sources/Core/BinanceChain.swift:10-13 | Neither base URL is a prefix of the other, so a URL built on one endpoint names exactly that endpoint |
| Routes.PathRaw | BinanceChain/Sources/Core/BinanceChain.swift:15-35 | The nineteen route segments as written; each is relative, has no trailing slash and holds no query |
| Routes.PathRawInjective | BinanceChain/Sources/Core/BinanceChain.swift:15-35 | Distinct paths have distinct raw values, as a raw-value enumeration requires |
| Responses.Fresh | BinanceChain/Sources/Core/BinanceChain.swift:37-57 | A new response is not flagged, has no error, and holds 0, empty lists and freshly constructed objects in its slots, so every slot is at its default |
| Responses.OnlySlotAtMostOne | BinanceChain/Sources/Core/BinanceChain.swift:40-56 | A response whose only non-default slot is one given slot has at most one populated slot |
| Api.OwnedSlotInjective | BinanceChain/Sources/Core/BinanceChain.swift:40-56 | Distinct parser classes fill distinct response slots |
| Api.Init | BinanceChain/Sources/Core/BinanceChain.swift:61-64 | A client built with no argument talks to the test network |
| Api.InitWith | BinanceChain/Sources/Core/BinanceChain.swift:66-69 | A client built with an endpoint talks to that endpoint |
| Api.PathCall | BinanceChain/Sources/Core/BinanceChain.swift:216-218 | `api(path: Path, ...)` forwards the path's raw value and passes method, parameters and parser through unchanged |
| Api.RequestFor | BinanceChain/Sources/Core/BinanceChain.swift:223-226 | The URL starts with the client's base URL and names that endpoint; after the base URL comes a slash and the path; method and parameters go to the request unchanged |
| Api.UrlDeterminesEndpointAndPath | BinanceChain/Sources/Core/BinanceChain.swift:223 | Two requests with the same URL come from the same endpoint and the same path |
| Api.Caught | BinanceChain/Sources/Core/BinanceChain.swift:237-243 | The cast keeps a fault exactly when it conforms, and keeps it unchanged |
| Api.Deliver | BinanceChain/Sources/Core/BinanceChain.swift:246-250 | The completion is called once with the response when present, and never when absent |
| Api.CountsAppend | BinanceChain/Sources/Core/BinanceChain.swift:229-250 | Deliveries and parser invocations of a trace add up over its parts |
| Api.Dispatch | BinanceChain/Sources/Core/BinanceChain.swift:229-250 | The flag is clear exactly when the transport and the parse both succeed. A transport failure leaves every slot at its default and records the cast error. A successful transport keeps the parser's slots, and records the cast error of a throw. The parser runs once, first, and only on a payload. The completion runs once, last, with the final response, exactly when present |
| Api.FailureIgnoresParser | BinanceChain/Sources/Core/BinanceChain.swift:241-243 | On a transport failure the outcome does not depend on the parser |
| Api.ErrorPresentIffFlagged | BinanceChain/Sources/Core/BinanceChain.swift:234-243 | When the cast keeps every fault, a response carries an error exactly when it is flagged |
| Api.EarlyThrowKeepsDefaults | BinanceChain/Sources/Core/BinanceChain.swift:234-239 | A parser that throws before writing leaves a flagged response with every slot at its default |
| Api.OwningParserOneSlot | BinanceChain/Sources/Core/BinanceChain.swift:229-244 | A parser that writes only its own slot yields a response with at most one populated slot, and it is that one |
| Api.Perform | BinanceChain/Sources/Core/BinanceChain.swift:221-257 | One exchange: the URL names the client's endpoint and ends in a slash and the path; the request carries the call's method and parameters; the outcome runs through the parser class the call names, whose slots the response keeps on success; the response is unflagged exactly when transport and parse succeed; the completion runs once exactly when present |
| Api.PerformFillsOwnedSlot | BinanceChain/Sources/Core/BinanceChain.swift:216-250 | When every parser class writes only its own slot, the response to a call has at most one populated slot, the one of the call's parser class |
| Text.Join | BinanceChain/Sources/Core/BinanceChain.swift:265 | Joining no parts gives the empty string, and joining one part gives that part |
| Text.JoinStartsWithFirst | BinanceChain/Sources/Core/BinanceChain.swift:265 | A joined string starts with its first part |
| Text.SplitJoin | BinanceChain/Sources/Core/BinanceChain.swift:265 | Splitting a joined string on the separator gives back the parts, when no part holds the separator |
| Text.SplitConcat | BinanceChain/Sources/Core/BinanceChain.swift:265 | Splitting two strings joined by the separator gives the pieces of the first followed by the pieces of the second |
| Text.SplitJoinEach | BinanceChain/Sources/Core/BinanceChain.swift:265 | Whatever the parts hold, splitting their join on the separator gives the pieces of each part, in order |
| Text.NatToString | BinanceChain/Sources/Core/BinanceChain.swift:265 | A natural number renders as decimal digits with no leading zero |
| Text.NatToStringValue | BinanceChain/Sources/Core/BinanceChain.swift:265 | The digits of a rendered natural number read back as that number |
| Text.IntToString | BinanceChain/Sources/Core/BinanceChain.swift:265 | An `Int` renders as digits, with a leading minus sign exactly for a negative value |
| Text.IntToStringRoundTrip | BinanceChain/Sources/Core/BinanceChain.swift:265 | Reading a rendered `Int` back gives the same `Int` |
| Text.IntToStringNoSeparators | BinanceChain/Sources/Core/BinanceChain.swift:265 | A rendered `Int` holds neither `&` nor `=` |
| Parameters.Raw | BinanceChain/Sources/Core/BinanceChain.swift:108 | An enumeration argument stored by its raw value interpolates to that raw value |
| Parameters.Render | BinanceChain/Sources/Core/BinanceChain.swift:265 | A stored value interpolates to: a string as itself, an `Int` as decimal text that reads back as it and holds no separator, a `Double` as its rendered text, an enumeration value stored itself as its case name |
| Parameters.LookupFinds | BinanceChain/Sources/Core/BinanceChain.swift:95-96 | A dictionary lookup finds nothing exactly when the key is absent, and finds a stored entry otherwise |
| Parameters.LookupEntry | BinanceChain/Sources/Core/BinanceChain.swift:95-96 | Each stored entry is what a lookup of its key finds |
| Parameters.Put | BinanceChain/Sources/Core/BinanceChain.swift:96 | `d[k] = v`: a lookup of `k` finds `v` and every other key is unchanged. The key set gains `k`. A new key is appended. The keys stay distinct |
| Parameters.Remove | BinanceChain/Sources/Core/BinanceChain.swift:186 | `d[k] = nil`: a lookup of `k` finds nothing and every other key is unchanged. The key set loses `k`. An absent key leaves the dictionary as it was. The keys stay distinct |
| Parameters.Assign | BinanceChain/Sources/Core/BinanceChain.swift:186 | `d[k] = optional`: a lookup of `k` finds the optional. Other keys are unchanged. The key is present exactly when a value was given |
| Parameters.PutIfPresent | BinanceChain/Sources/Core/BinanceChain.swift:108-109 | `if let`: a supplied value is stored, and a missing one leaves the dictionary's lookups and keys unchanged |
| Parameters.Collect | BinanceChain/Sources/Core/BinanceChain.swift:107-109 | A run of `if let` steps keeps a dictionary a dictionary and leaves every key no step names untouched |
| Parameters.CollectHolds | BinanceChain/Sources/Core/BinanceChain.swift:107-109 | Running distinct steps on a dictionary that holds exactly some fields gives one that holds exactly those fields and the new ones |
| Parameters.CollectFresh | BinanceChain/Sources/Core/BinanceChain.swift:107-109 | Running distinct steps on an empty dictionary gives one that holds exactly the supplied fields |
| Parameters.Piece | BinanceChain/Sources/Core/BinanceChain.swift:265 | The `"\(key)=\(value)"` piece: the key, then `=`, then the rendered value |
| Parameters.Pieces | BinanceChain/Sources/Core/BinanceChain.swift:265 | The `compactMap`: one piece per entry, in order |
| Seqs.Map | BinanceChain/Sources/Core/BinanceChain.swift:265 | Mapping keeps the length and applies the function to each element in place |
| Parameters.UrlEncoded | BinanceChain/Sources/Core/BinanceChain.swift:263-265 | The query string is empty exactly for an empty dictionary, and otherwise starts with the first entry's piece |
| Parameters.PieceSplits | BinanceChain/Sources/Core/BinanceChain.swift:265 | A piece without `&` or `=` in key or value splits on `=` into the key and the rendered value |
| Parameters.EncodedPieces | BinanceChain/Sources/Core/BinanceChain.swift:263-265 | For a non-empty dictionary in which no key or value holds `&`, splitting the query string on `&` gives exactly one piece per entry, in order (`[:]` encodes to "", which splits into one empty piece) |
| Parameters.DecodePiecesOfPlain | BinanceChain/Sources/Core/BinanceChain.swift:265 | Decoding the pieces of entries without separators gives the rendered entries |
| Parameters.DecodeUrlEncoded | BinanceChain/Sources/Core/BinanceChain.swift:263-265 | Splitting the query string on `&` and `=` gives back the keys and rendered values in order, when none of them holds a separator |
| Parameters.UnescapedCollision | BinanceChain/Sources/Core/BinanceChain.swift:264-265 | Without escaping, a one-entry dictionary whose value holds `&k=v` encodes exactly like a different, two-entry dictionary with distinct keys |
| Parameters.SameEntries | BinanceChain/Sources/Core/BinanceChain.swift:263-265 | Two dictionaries with the same lookups store the same entries |
| Parameters.SameDictionaryPermuted | BinanceChain/Sources/Core/BinanceChain.swift:263-265 | Two dictionaries with the same lookups are permutations of each other |
| Seqs.MapPermuted | BinanceChain/Sources/Core/BinanceChain.swift:265 | Mapping two permutations of each other gives permutations of each other |
| Parameters.SameDictionarySamePieceMultiset | BinanceChain/Sources/Core/BinanceChain.swift:263-265 | Any two iteration orders of one dictionary give the same pieces, each as often, whatever the keys and values hold |
| Seqs.FlattenPermuted | BinanceChain/Sources/Core/BinanceChain.swift:263-265 | Concatenating the lists of two permutations of each other gives permutations of each other |
| Parameters.SameDictionarySamePieces | BinanceChain/Sources/Core/BinanceChain.swift:263-265 | Any two iteration orders of one dictionary have the same number of entries and encode to query strings that split on `&` into the same pieces, each as often, whatever the keys and values hold |
| Parameters.HoldsPlain | BinanceChain/Sources/Core/BinanceChain.swift:263-265 | A dictionary holding exactly fields without separators has only entries without separators |
| Parameters.DecodeHolds | BinanceChain/Sources/Core/BinanceChain.swift:263-265 | When no key or rendered value holds `&` or `=`, the decoded query has each supplied field's key and rendered value, no pair for a field not supplied, and no other key |
| Endpoints.Time | BinanceChain/Sources/Core/BinanceChain.swift:73-75 | `time` is a GET of `time` with no parameters, read by the times parser |
| Endpoints.TimeFillsTimesSlot | BinanceChain/Sources/Core/BinanceChain.swift:73-75 | When every parser class writes only its own slot, `time()` yields a response whose only populated slot, if any, is `times` |
| Endpoints.NodeInfo | BinanceChain/Sources/Core/BinanceChain.swift:77-79 | `nodeInfo` is a GET of `node-info` with no parameters, read by the node-info parser |
| Endpoints.Validators | BinanceChain/Sources/Core/BinanceChain.swift:81-83 | `validators` is a GET of `validators` with no parameters |
| Endpoints.Peers | BinanceChain/Sources/Core/BinanceChain.swift:85-87 | `peers` is a GET of `peers` with no parameters |
| Endpoints.Account | BinanceChain/Sources/Core/BinanceChain.swift:89-92 | `account` is a GET of `account/<address>` with no parameters |
| Endpoints.Sequence | BinanceChain/Sources/Core/BinanceChain.swift:94-99 | `sequence` is a GET of `account/<address>/sequence` whose only parameter is `format=json` |
| Endpoints.Tx | BinanceChain/Sources/Core/BinanceChain.swift:101-104 | `tx` is a GET of `tx/<hash>?format=json` with no parameters |
| Endpoints.TokensFields | BinanceChain/Sources/Core/BinanceChain.swift:106-109 | The steps of `tokens` and `markets`: `limit` by raw value and `offset` as an `Int`, under distinct keys |
| Endpoints.Tokens | BinanceChain/Sources/Core/BinanceChain.swift:106-111 | `tokens` is a GET of `tokens` whose parameters hold exactly the supplied `limit` raw value and `offset` |
| Endpoints.Markets | BinanceChain/Sources/Core/BinanceChain.swift:113-118 | `markets` is a GET of `markets` whose parameters hold exactly the supplied `limit` raw value and `offset` |
| Endpoints.Fees | BinanceChain/Sources/Core/BinanceChain.swift:120-122 | `fees` is a GET of `fees` with no parameters |
| Endpoints.MarketDepthFields | BinanceChain/Sources/Core/BinanceChain.swift:125-127 | The steps of `marketDepth`: `symbol` always, `limit` by raw value, under distinct keys |
| Endpoints.MarketDepth | BinanceChain/Sources/Core/BinanceChain.swift:124-129 | `marketDepth` is a GET of `depth` whose parameters hold `symbol` always and the `limit` raw value when supplied, and nothing else |
| Endpoints.Broadcast | BinanceChain/Sources/Core/BinanceChain.swift:131-136 | `broadcast` is a POST of `broadcast`, with `/?sync=1` appended exactly when synchronous (the default), and no parameters |
| Endpoints.BroadcastIgnoresBody | BinanceChain/Sources/Core/BinanceChain.swift:131-135 | The body argument has no effect on the call |
| Endpoints.BroadcastSyncByDefault | BinanceChain/Sources/Core/BinanceChain.swift:131-133 | Without a `sync` argument the broadcast goes to `broadcast/?sync=1` |
| Endpoints.KlinesFields | BinanceChain/Sources/Core/BinanceChain.swift:139-144 | The steps of `klines`: `symbol` always, `interval` by raw value, `limit` as the enumeration value itself, both times as rendered `Double` text, under distinct keys |
| Endpoints.Klines | BinanceChain/Sources/Core/BinanceChain.swift:138-146 | `klines` is a GET of `klines` whose parameters hold `symbol` and exactly the supplied interval, limit, start and end time |
| Endpoints.ClosedOrdersFields | BinanceChain/Sources/Core/BinanceChain.swift:149-158 | The steps of `closedOrders`: `address` and the `total` raw value always, the times as rendered text, `offset` as an `Int`, `symbol` as text, the other enumerations by raw value, under distinct keys |
| Endpoints.ClosedOrdersQuery | BinanceChain/Sources/Core/BinanceChain.swift:149-158 | The dictionary `closedOrders` builds holds `address` and `total` always and exactly the supplied optional arguments |
| Endpoints.ClosedOrders | BinanceChain/Sources/Core/BinanceChain.swift:159-160 | `closedOrders` is a GET of `orders/closed/?` followed by the encoded dictionary, with no parameters |
| Endpoints.ClosedOrdersFieldsPlain | BinanceChain/Sources/Core/BinanceChain.swift:149-158 | When no supplied text holds `&` or `=`, no field of `closedOrders` does |
| Endpoints.ClosedOrdersFieldKeys | BinanceChain/Sources/Core/BinanceChain.swift:149-158 | `closedOrders` sets exactly the keys address, total, endTime, limit, offset, side, startTime, status and symbol |
| Endpoints.ClosedOrdersReadsBack | BinanceChain/Sources/Core/BinanceChain.swift:148-160 | When no supplied text holds `&` or `=`, the query in the route decodes to the address, the total and each supplied argument, with no pair for an argument not supplied and no other key |
| Endpoints.OpenOrdersFields | BinanceChain/Sources/Core/BinanceChain.swift:164-169 | The steps of `openOrders`: `address` and the `total` raw value always, `limit` by raw value, `offset` as an `Int`, `symbol` as text, under distinct keys |
| Endpoints.OpenOrdersQuery | BinanceChain/Sources/Core/BinanceChain.swift:164-169 | The dictionary `openOrders` builds holds `address` and `total` always and exactly the supplied optional arguments |
| Endpoints.OpenOrders | BinanceChain/Sources/Core/BinanceChain.swift:170-171 | `openOrders` is a GET of `orders/open/?` followed by the encoded dictionary, with no parameters |
| Endpoints.OpenOrdersFieldsPlain | BinanceChain/Sources/Core/BinanceChain.swift:164-169 | When no supplied text holds `&` or `=`, no field of `openOrders` does |
| Endpoints.OpenOrdersFieldKeys | BinanceChain/Sources/Core/BinanceChain.swift:164-169 | `openOrders` sets exactly the keys address, total, limit, offset and symbol |
| Endpoints.OpenOrdersReadsBack | BinanceChain/Sources/Core/BinanceChain.swift:163-171 | When no supplied text holds `&` or `=`, the query in the route decodes to the address, the total and each supplied argument, with no pair for an argument not supplied and no other key |
| Endpoints.Order | BinanceChain/Sources/Core/BinanceChain.swift:174-177 | `order` is a GET of `orders/<id>` with no parameters |
| Endpoints.Ticker | BinanceChain/Sources/Core/BinanceChain.swift:179-182 | `ticker` is a GET of `ticker/24hr/?symbol=<symbol>` with no parameters |
| Endpoints.TradesFields | BinanceChain/Sources/Core/BinanceChain.swift:185-195 | The steps of `trades`: `address` as an optional, the times and height as rendered text, `offset` as an `Int`, `side` and `total` by raw value, the rest as text, under distinct keys |
| Endpoints.TradesFieldsShape | BinanceChain/Sources/Core/BinanceChain.swift:184-195 | The steps of `trades` have distinct keys, begin with `address`, and include no `buyerOrderId` |
| Endpoints.TradesQuery | BinanceChain/Sources/Core/BinanceChain.swift:185-195 | The dictionary `trades` builds holds exactly the supplied arguments, `address` included only when given |
| Endpoints.TradesQueryLookups | BinanceChain/Sources/Core/BinanceChain.swift:184-195 | In that dictionary `address` is the optional argument and `buyerOrderId` is never present |
| Endpoints.Trades | BinanceChain/Sources/Core/BinanceChain.swift:184-197 | `trades` is a GET of `trades` whose parameters hold exactly the supplied arguments and never `buyerOrderId` |
| Endpoints.TradesIgnoresBuyerOrderId | BinanceChain/Sources/Core/BinanceChain.swift:184-196 | The `buyerOrderId` argument has no effect on the call |
| Endpoints.TransactionsFields | BinanceChain/Sources/Core/BinanceChain.swift:200-209 | The steps of `transactions`: `address` always, `limit` as the enumeration value itself, `offset` as an `Int`, `side` and `txType` by raw value, the rest as text, under distinct keys |
| Endpoints.Transactions | BinanceChain/Sources/Core/BinanceChain.swift:199-211 | `transactions` is a GET of `transactions` whose parameters hold `address` and exactly the supplied optional arguments |

## Left out

- The HTTP call itself (Alamofire's `request` and `responseData`) is not modelled. The transport outcome is an input to `Dispatch`, and the returned `Request` handle is not modelled.
- The encoding of `parameters` into the request by `URLEncoding.default` belongs to the HTTP library and is not modelled. `RequestFor` passes the parameters on as they are.
- The queue hops (`DispatchQueue.global(...).async`, `DispatchQueue.main.async`) are not modelled. Their effect on one request, parse before delivery, is kept as the event trace.
- `print(url)` is logging and has no effect on the model.
- The parser classes and the domain types their slots hold (`Fee`, `Tx`, `Account`, ...) are not part of this model. A parser is an arbitrary function from the payload to slots written and an optional fault, and an `Entity` stands for any domain object.
- The pairing of parser classes with response slots (`OwnedSlot`) is read off their names, because the parser bodies are not part of this model.
- The `Error` type that `error as? Error` casts to is not part of this model, so the cast is the `conforms` parameter of `Caught`.
- The enumerations `Limit`, `Interval`, `Side`, `Status`, `Total` and `TxType` are not part of this model. An argument of any of them is a `Choice`: its raw value and its case name.
- The rendering of `TimeInterval` and `Double` arguments is floating-point formatting and is not modelled. Such an argument is given as the text it renders to.
- Text.IntToString: a Swift `Int` is 64 bits wide and the model's integers are unbounded. No value that a 64-bit `Int` can hold renders differently, so no wrap-around is modelled.
- Parameters.UrlEncoded: the order in which Swift iterates a dictionary is not modelled. The encoding follows the order of the list, and `SameDictionarySamePieces` states what any order shares.
- Endpoints.ClosedOrders: the default `total: Total = .required` is not modelled, because the `Total` enumeration is not part of this model and so the raw value of `.required` is unknown. Callers pass `total` explicitly.
- Endpoints.OpenOrders: the default `total: Total = .required` is not modelled, for the same reason.
- The `encoding:` argument of `api` is always the default in the code, so it is not a parameter of the model.
