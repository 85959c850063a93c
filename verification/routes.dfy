/**
 The two string enumerations of the client: `Endpoint`, the base URL of a
 deployment of the exchange's HTTP API, and `Path`, the route segments under
 it. Swift's `rawValue` is RawValue here.
 */
module Routes {

  import opened Options

  datatype Endpoint = Production | Test

  /** The base URL of a deployment: an HTTPS URL of version 1 of the API, without a trailing slash. */
  function EndpointRaw(e: Endpoint): (r: string)
    ensures |r| > 15 && r[..8] == "https://" && r[|r| - 7..] == "/api/v1"
  {
    match e
    case Production => "https://dex.binance.org/api/v1"
    case Test => "https://testnet-dex.binance.org/api/v1"
  }

  /** The prefix of a URL that names an endpoint, if any. */
  function EndpointOfUrl(url: string): (r: Option<Endpoint>)
    ensures r.Some? ==> |EndpointRaw(r.value)| <= |url| && url[..|EndpointRaw(r.value)|] == EndpointRaw(r.value)
  {
    var p, t := EndpointRaw(Production), EndpointRaw(Test);
    if |p| <= |url| && url[..|p|] == p then Some(Production)
    else if |t| <= |url| && url[..|t|] == t then Some(Test)
    else None
  }

  /** Neither base URL is a prefix of the other, so a URL names at most one endpoint. */
  lemma EndpointPrefixUnique(e: Endpoint, rest: string)
    ensures EndpointOfUrl(EndpointRaw(e) + rest) == Some(e)
  {
    var url := EndpointRaw(e) + rest;
    var p := EndpointRaw(Production);
    assert url[..|EndpointRaw(e)|] == EndpointRaw(e);
    if e == Test {
      assert url[8] == 't' && p[8] == 'd';
    }
  }

  datatype Path =
    | Time | NodeInfo | Validators | Peers | Account | Sequence | Tx | Tokens
    | Markets | Fees | Depth | Broadcast | Klines | ClosedOrders | OpenOrders
    | Orders | Ticker | Trades | Transactions

  /** A route segment: relative, without a trailing slash and without a query. */
  function PathRaw(p: Path): (r: string)
    ensures |r| >= 1 && r[0] != '/' && r[|r| - 1] != '/' && '?' !in r
  {
    match p
    case Time => "time"
    case NodeInfo => "node-info"
    case Validators => "validators"
    case Peers => "peers"
    case Account => "account"
    case Sequence => "sequence"
    case Tx => "tx"
    case Tokens => "tokens"
    case Markets => "markets"
    case Fees => "fees"
    case Depth => "depth"
    case Broadcast => "broadcast"
    case Klines => "klines"
    case ClosedOrders => "orders/closed"
    case OpenOrders => "orders/open"
    case Orders => "orders"
    case Ticker => "ticker/24hr"
    case Trades => "trades"
    case Transactions => "transactions"
  }

  /** Distinct paths have distinct raw values. */
  lemma PathRawInjective(p: Path, q: Path)
    requires PathRaw(p) == PathRaw(q)
    ensures p == q
  {
    var a, b := PathRaw(p), PathRaw(q);
    assert |a| == |b|;
    assert a[0] == b[0];
    if |a| > 1 {
      assert a[1] == b[1];
    }
    if |a| > 2 {
      assert a[2] == b[2];
    }
    if |a| > 7 {
      assert a[7] == b[7];
    }
  }
}
