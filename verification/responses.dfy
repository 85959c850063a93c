/**
 The `BinanceChain.Response` record: an error flag, an error, and one payload
 slot per result shape, each starting at the default the class declares.
 The domain classes the slots hold (`Fee`, `Tx`, `Account`, ...) are not part
 of this model; an Entity stands for one object of any of them.
 */
module Responses {

  import opened Options

  /** A domain object: Blank is a freshly constructed one (`Tx()`, `Order()`, ...). */
  datatype Entity = Blank | Decoded(fields: map<string, string>)

  /** A Swift `Error` value, reduced to its description. */
  datatype Fault = Fault(description: string)

  datatype Slots = Slots(
    sequence: int,
    fees: seq<Entity>,
    peers: seq<Entity>,
    tokens: seq<Entity>,
    trades: seq<Entity>,
    markets: seq<Entity>,
    candlesticks: seq<Entity>,
    tickerStatistics: seq<Entity>,
    tx: Entity,
    order: Entity,
    orderList: Entity,
    times: Entity,
    account: Entity,
    validators: Entity,
    marketDepth: Entity,
    nodeInfo: Entity,
    transactions: Entity)

  /** The slot values of a new `Response()`: 0, empty lists and fresh objects. */
  const Defaults: Slots := Slots(0, [], [], [], [], [], [], [], Blank, Blank, Blank, Blank, Blank, Blank, Blank, Blank, Blank)

  datatype Response = Response(isError: bool, error: Option<Fault>, slots: Slots)

  /**
   `BinanceChain.Response()`: not flagged, no error, the sequence number 0,
   every list empty and every object freshly constructed.
   */
  function Fresh(): (r: Response)
    ensures !r.isError && r.error == None
    ensures r.slots.sequence == 0
    ensures r.slots.fees == [] && r.slots.peers == [] && r.slots.tokens == [] && r.slots.trades == []
    ensures r.slots.markets == [] && r.slots.candlesticks == [] && r.slots.tickerStatistics == []
    ensures r.slots.tx == Blank && r.slots.order == Blank && r.slots.orderList == Blank
    ensures r.slots.times == Blank && r.slots.account == Blank && r.slots.validators == Blank
    ensures r.slots.marketDepth == Blank && r.slots.nodeInfo == Blank && r.slots.transactions == Blank
    ensures forall slot: Slot :: AtDefault(r.slots, slot)
  {
    Response(false, None, Defaults)
  }

  /** The names of the payload slots. */
  datatype Slot =
    | SequenceSlot | FeesSlot | PeersSlot | TokensSlot | TradesSlot | MarketsSlot
    | CandlesticksSlot | TickerStatisticsSlot | TxSlot | OrderSlot | OrderListSlot
    | TimesSlot | AccountSlot | ValidatorsSlot | MarketDepthSlot | NodeInfoSlot
    | TransactionsSlot

  /** Whether `slot` of `s` still holds the value a new response gives it. */
  predicate AtDefault(s: Slots, slot: Slot) {
    match slot
    case SequenceSlot => s.sequence == Defaults.sequence
    case FeesSlot => s.fees == Defaults.fees
    case PeersSlot => s.peers == Defaults.peers
    case TokensSlot => s.tokens == Defaults.tokens
    case TradesSlot => s.trades == Defaults.trades
    case MarketsSlot => s.markets == Defaults.markets
    case CandlesticksSlot => s.candlesticks == Defaults.candlesticks
    case TickerStatisticsSlot => s.tickerStatistics == Defaults.tickerStatistics
    case TxSlot => s.tx == Defaults.tx
    case OrderSlot => s.order == Defaults.order
    case OrderListSlot => s.orderList == Defaults.orderList
    case TimesSlot => s.times == Defaults.times
    case AccountSlot => s.account == Defaults.account
    case ValidatorsSlot => s.validators == Defaults.validators
    case MarketDepthSlot => s.marketDepth == Defaults.marketDepth
    case NodeInfoSlot => s.nodeInfo == Defaults.nodeInfo
    case TransactionsSlot => s.transactions == Defaults.transactions
  }

  /** Every slot other than `slot` is at its default. */
  predicate OnlySlot(s: Slots, slot: Slot) {
    forall other: Slot :: other != slot ==> AtDefault(s, other)
  }

  /** At most one slot differs from its default. */
  predicate AtMostOnePopulated(s: Slots) {
    forall a: Slot, b: Slot :: !AtDefault(s, a) && !AtDefault(s, b) ==> a == b
  }

  /** Slots written by one slot's owner hold at most one non-default payload. */
  lemma OnlySlotAtMostOne(s: Slots, slot: Slot)
    requires OnlySlot(s, slot)
    ensures AtMostOnePopulated(s)
  {
  }
}
