/**
 The order cache as an event-driven state machine. Each event is one handled message together
 with the answers the gateway got while handling it: what the REST fallback returned, what the
 symbol master returned, and which entries the scans of the cache happened to find.
 */
module OrderEvents {
  import opened Wrappers
  import opened DecimalText
  import opened FixTypes
  import opened Executions
  import opened OrderCache
  import opened OrderMessages
  import opened Reports
  import opened SymbolMaster
  import Convert

  /** What stays fixed during a session. */
  datatype Session = Session(account: string, table: Table, counterparty: string)

  datatype Fill = Fill(orderID: string, execution: Execution)

  /** The cache, the log of accepted trades and the trade reports sent, oldest first. */
  datatype State = State(orders: Orders, fills: seq<Fill>, reports: seq<Report>)

  const INITIAL := State(map[], [], [])

  datatype Event =
    | NewOrder(msg: OrderMessage, translated: Option<string>)
    | Replace(msg: OrderMessage)
    | Ack(order: VenueOrder, error: bool)
    | Trade(t: TradeUpdate, rest: Option<VenueOrder>, seen: string, hit: string)
    | StatusQuery(answer: Option<VenueOrder>)
    | ReadOnly

  // ----- OnFIXNewOrderSingle, OnFIXOrderCancelReplaceRequest -----

  function AfterNewOrder(orders: Orders, a: Accepted): (r: Orders) {
    orders[a.clOrdID := Entered(a.clOrdID, a.terms)]
  }

  datatype Replacement = Replacement(
    clOrdID: string, origClOrdID: string, orderID: string, venueID: int64, amount: real, terms: Terms)

  /** The identifiers of a replace request, once they are found to name a cached order. */
  datatype Target = Target(clOrdID: string, origClOrdID: string, orderID: string, venueID: int64)

  function ReplaceTarget(orders: Orders, msg: OrderMessage): (r: Result<Target, Reject>)
    ensures r.Ok? ==> r.value.origClOrdID in orders
  {
    var orig :- Required(msg.origClOrdID, 41);
    var clOrdID :- Required(msg.clOrdID, 11);
    if msg.orderID.None? && orig !in orders then Err(UnknownOrder)
    else
      var id := if msg.orderID.Some? then msg.orderID.value else orders[orig].orderID;
      if ParseInt(clOrdID).None? || ParseInt(id).None? || ParseInt(orig).None? then Err(UnknownOrder)
      else if orig !in orders || orders[orig].orderID != id then Err(UnknownOrder)
      else Ok(Target(clOrdID, orig, id, ParseInt(id).value))
  }

  /** All checks of a replace request in the order they are made; nothing is cached before they pass. */
  function AcceptReplace(orders: Orders, msg: OrderMessage, account: string): (r: Result<Replacement, Reject>) {
    var target :- ReplaceTarget(orders, msg);
    var cached := orders[target.origClOrdID].terms;
    var qty :- Required(msg.qty, 38);
    var prices :- PricesOf(msg);
    var exp :- ExpirationOf(msg);
    if msg.leverage.Malformed? then Err(ValueIncorrect(20005))
    else
      var _ :- OrderNewType(msg);
      var amount := AmountOf(cached.side, qty);
      Ok(Replacement(target.clOrdID, target.origClOrdID, target.orderID, target.venueID, amount,
                     ReplacedTerms(cached, msg, amount, prices, exp, account)))
  }

  /** Symbol, side and margin come from the cached order, everything else from the message. */
  function ReplacedTerms(cached: Terms, msg: OrderMessage, amount: real, prices: Prices, exp: int, account: string): (t: Terms) {
    Terms(prices.px, prices.aux, prices.trail, amount, cached.symbol, account, cached.side,
          prices.ordType, cached.isMargin, GoodTillCancel, exp, FlagsOf(Hidden(msg), PostOnly(msg)))
  }

  /** The update sent upstream for an accepted replace. */
  datatype OrderUpdate = OrderUpdate(
    id: int64, amount: real, px: real, aux: real, trail: real, hidden: bool, postOnly: bool, expires: int)

  function UpdateOf(p: Replacement, msg: OrderMessage): (u: OrderUpdate) {
    OrderUpdate(p.venueID, p.amount, p.terms.px, p.terms.stop, p.terms.trail, Hidden(msg), PostOnly(msg), p.terms.tifExpiration)
  }

  function AfterReplace(orders: Orders, p: Replacement): (r: Orders) {
    orders[p.clOrdID := Entered(p.clOrdID, p.terms).(orderID := p.orderID)]
  }

  // ----- Order acknowledgements, FIXNotificationHandler -----

  function AfterAck(orders: Orders, o: VenueOrder, account: string): (r: Orders) {
    var clOrdID := FormatInt(o.cid);
    if clOrdID in orders then WithOrderID(orders, clOrdID, FormatInt(o.id))
    else orders[clOrdID := VenueEntry(o, account, Convert.SideToFIX(o.amount))]
  }

  /** The entry made for an order the cache did not know. */
  function VenueEntry(o: VenueOrder, account: string, side: Side): (r: CachedOrder) {
    Entered(FormatInt(o.cid), Convert.TermsOfVenueOrder(o, account, side)).(orderID := FormatInt(o.id))
  }

  // ----- Trades, FIXTradeExecutionUpdateHandler -----

  /** The cache after the REST fallback, taken only when no entry has the trade's order id. */
  function AfterFallback(orders: Orders, t: TradeUpdate, rest: Option<VenueOrder>, account: string): (r: Orders) {
    if Known(orders, FormatInt(t.orderID)) || rest.None? then orders
    else orders[FormatInt(rest.value.cid) := VenueEntry(rest.value, account, Convert.SideToFIX(t.execAmount))]
  }

  function TradeExecution(t: TradeUpdate): (e: Execution) {
    ExecutionOf(FormatInt(t.id), t.execPrice, t.execAmount)
  }

  /** A trade is accepted, and so recorded and reported, when some entry has its order id. */
  predicate Accepts(orders: Orders, t: TradeUpdate, rest: Option<VenueOrder>, account: string) {
    Known(AfterFallback(orders, t, rest, account), FormatInt(t.orderID))
  }

  /** The entry whose terms go into the report: the one looked up, or the one just fetched. */
  function ReportedKey(orders: Orders, t: TradeUpdate, rest: Option<VenueOrder>, seen: string): (k: string) {
    if Known(orders, FormatInt(t.orderID)) || rest.None? then seen else FormatInt(rest.value.cid)
  }

  /** The scans may find any entry with the trade's order id, and find one whenever there is one. */
  predicate ScansFind(orders: Orders, t: TradeUpdate, rest: Option<VenueOrder>, seen: string, hit: string, account: string) {
    var id := FormatInt(t.orderID);
    var fetched := AfterFallback(orders, t, rest, account);
    && (Known(orders, id) ==> Holds(orders, id, seen))
    && (Known(fetched, id) ==> Holds(fetched, id, hit))
  }

  function AfterTrade(sn: Session, s: State, t: TradeUpdate, rest: Option<VenueOrder>, seen: string, hit: string): (r: State)
    requires ScansFind(s.orders, t, rest, seen, hit, sn.account)
  {
    var fetched := AfterFallback(s.orders, t, rest, sn.account);
    if !Accepts(s.orders, t, rest, sn.account) then s.(orders := fetched)
    else
      var orders := WithExecution(fetched, hit, TradeExecution(t));
      var cached := fetched[ReportedKey(s.orders, t, rest, seen)];
      var es := orders[hit].executions;
      State(orders, s.fills + [Fill(FormatInt(t.orderID), TradeExecution(t))],
            s.reports + [TradeReport(t, ReportSymbol(sn.table, sn.counterparty, t.pair), sn.account,
                                     cached.clOrdID, cached.terms, TotalQty(es), AveragePx(es))])
  }

  // ----- OnFIXOrderStatusRequest -----

  /** The answer is cached, without a server id, when no entry has its order id. */
  function AfterStatus(orders: Orders, o: VenueOrder, account: string): (r: Orders) {
    if Known(orders, FormatInt(o.id)) then orders
    else
      var clOrdID := FormatInt(o.cid);
      orders[clOrdID := Entered(clOrdID, Convert.TermsOfVenueOrder(o, account, Convert.SideToFIX(o.amount)))]
  }

  // ----- Steps and runs -----

  predicate Enabled(sn: Session, s: State, e: Event) {
    e.Trade? ==> ScansFind(s.orders, e.t, e.rest, e.seen, e.hit, sn.account)
  }

  function Apply(sn: Session, s: State, e: Event): (r: State)
    requires Enabled(sn, s, e)
  {
    match e
    case NewOrder(msg, translated) =>
      (match AcceptNewOrder(msg, translated, sn.account)
       case Ok(a) => s.(orders := AfterNewOrder(s.orders, a))
       case Err(_) => s)
    case Replace(msg) =>
      (match AcceptReplace(s.orders, msg, sn.account)
       case Ok(p) => s.(orders := AfterReplace(s.orders, p))
       case Err(_) => s)
    case Ack(o, error) => if error then s else s.(orders := AfterAck(s.orders, o, sn.account))
    case Trade(t, rest, seen, hit) => AfterTrade(sn, s, t, rest, seen, hit)
    case StatusQuery(answer) =>
      if answer.None? then s else s.(orders := AfterStatus(s.orders, answer.value, sn.account))
    case ReadOnly => s
  }
}
