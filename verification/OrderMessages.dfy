/**
 Inbound order messages: what the gateway extracts from a NewOrderSingle or an
 OrderCancelReplaceRequest (convert/websocket_order.go) and which terms it caches for it.
 */
module OrderMessages {
  import opened Wrappers
  import opened DecimalText
  import opened FixTypes
  import opened Text
  import opened Executions
  import Convert
  import opened Reports
  import opened SymbolMaster

  datatype IntField = Absent | Malformed | Present(n: int)

  /** The fields of an order message the gateway reads; `None` stands for a missing field. */
  datatype OrderMessage = OrderMessage(
    clOrdID: Option<string>, origClOrdID: Option<string>, orderID: Option<string>,
    symbol: Option<string>, side: Option<Side>, ordType: Option<OrdType>, qty: Option<real>,
    price: Option<real>, stopPx: Option<real>, pegDifference: Option<real>, execInst: Option<string>,
    tif: Option<TimeInForce>, expireTime: Option<int>, cashMargin: Option<char>,
    displayMethod: Option<string>, contingencyType: Option<char>, leverage: IntField)

  datatype Reject = MissingField(tag: int) | ValueIncorrect(tag: int) | UnknownOrder

  function Required<T>(f: Option<T>, tag: int): (r: Result<T, Reject>) {
    match f
    case Some(v) => Ok(v)
    case None => Err(MissingField(tag))
  }

  predicate HasExecInst(msg: OrderMessage, code: char) {
    msg.execInst.Some? && code in msg.execInst.value
  }

  predicate MarginOpen(msg: OrderMessage) {
    msg.cashMargin == Some('2')
  }

  predicate OneCancelsOther(msg: OrderMessage) {
    msg.contingencyType == Some('1')
  }

  predicate Hidden(msg: OrderMessage) {
    msg.displayMethod == Some("4")
  }

  predicate PostOnly(msg: OrderMessage) {
    HasExecInst(msg, '6')
  }

  predicate FillOrKillLike(msg: OrderMessage) {
    msg.tif == Some(FillOrKill) || msg.tif == Some(ImmediateOrCancel)
  }

  /** The venue's order type before the margin prefix is considered. */
  function ExchangeType(msg: OrderMessage): (typ: string) {
    if FillOrKillLike(msg) then "EXCHANGE FOK"
    else match msg.ordType
      case Some(Market) => "EXCHANGE MARKET"
      case Some(Limit) => "EXCHANGE LIMIT"
      case Some(Stop) => if HasExecInst(msg, 'R') then "EXCHANGE TRAILING STOP" else "EXCHANGE STOP"
      case Some(StopLimit) => "EXCHANGE STOP LIMIT"
      case _ => ""
  }

  function OrderNewType(msg: OrderMessage): (r: Result<string, Reject>) {
    if msg.execInst == Some("G") then Err(ValueIncorrect(18))
    else Ok(if MarginOpen(msg) then ReplaceFirst(ExchangeType(msg), "EXCHANGE", "MARGIN") else ExchangeType(msg))
  }

  datatype Prices = Prices(ordType: OrdType, px: real, aux: real, trail: real, oco: real)

  function PricesOf(msg: OrderMessage): (r: Result<Prices, Reject>) {
    var t :- Required(msg.ordType, 40);
    match t
    case Limit =>
      var px :- Required(msg.price, 44);
      if OneCancelsOther(msg) then
        var oco :- Required(msg.stopPx, 99);
        Ok(Prices(t, px, 0.0, 0.0, oco))
      else Ok(Prices(t, px, 0.0, 0.0, 0.0))
    case Stop =>
      var px :- Required(msg.stopPx, 99);
      if HasExecInst(msg, 'R') then
        var trail :- Required(msg.pegDifference, 211);
        Ok(Prices(t, px, 0.0, trail, 0.0))
      else Ok(Prices(t, px, 0.0, 0.0, 0.0))
    case StopLimit =>
      var px :- Required(msg.price, 44);
      var aux :- Required(msg.stopPx, 99);
      Ok(Prices(t, px, aux, 0.0, 0.0))
    case _ => Ok(Prices(t, 0.0, 0.0, 0.0, 0.0))
  }

  /** The expiration in milliseconds, zero unless the order is good till a date. */
  function ExpirationOf(msg: OrderMessage): (r: Result<int, Reject>) {
    if msg.tif == Some(GoodTillDate) then Required(msg.expireTime, 126) else Ok(0)
  }

  function AmountOf(side: Side, qty: real): (amount: real) {
    if side.Sell? then -qty else qty
  }

  function FlagsOf(hidden: bool, postOnly: bool): (flags: int)
    ensures HasFlag(flags, FLAG_HIDDEN) <==> hidden
    ensures HasFlag(flags, FLAG_POST_ONLY) <==> postOnly
  {
    (if postOnly then FLAG_POST_ONLY else 0) + (if hidden then FLAG_HIDDEN else 0)
  }

  datatype OrderRequest = OrderRequest(
    cid: int64, typ: string, symbol: string, amount: real, prices: Prices, hidden: bool, postOnly: bool, oco: bool,
    expires: int)

  /** OrderNewFromFIXNewOrderSingle; `translated` is the answer of the symbol master. */
  function RequestOf(msg: OrderMessage, translated: Option<string>): (r: Result<OrderRequest, Reject>) {
    var clOrdID :- Required(msg.clOrdID, 11);
    var typ :- OrderNewType(msg);
    var symbol :- Required(msg.symbol, 55);
    var prices :- PricesOf(msg);
    var side :- Required(msg.side, 54);
    var qty :- Required(msg.qty, 38);
    Ok(OrderRequest(
      CidOf(clOrdID), typ, if translated.Some? then translated.value else symbol,
      AmountOf(side, qty), prices, Hidden(msg), PostOnly(msg), OneCancelsOther(msg), 0))
  }

  /** The client id sent to the venue: the parsed ClOrdID, or zero when it is not an integer. */
  function CidOf(clOrdID: string): (cid: int64) {
    match ParseInt(clOrdID)
    case Some(n) => n
    case None => 0
  }

  datatype Accepted = Accepted(clOrdID: string, request: OrderRequest, terms: Terms)

  /** OnFIXNewOrderSingle up to the point where the order is cached and submitted. */
  function AcceptNewOrder(msg: OrderMessage, translated: Option<string>, account: string)
    : (r: Result<Accepted, Reject>)
  {
    var bo :- RequestOf(msg, translated);
    if msg.leverage.Malformed? then Err(ValueIncorrect(20005))
    else
      var exp :- ExpirationOf(msg);
      Ok(Accepted(
        msg.clOrdID.value, bo.(expires := exp),
        Terms(bo.prices.px, bo.prices.aux, bo.prices.trail, bo.amount, bo.symbol, account, msg.side.value,
              msg.ordType.value, Convert.IsMarginType(bo.typ), GoodTillCancel, exp,
              FlagsOf(bo.hidden, bo.postOnly))))
  }

  /** The symbol a report shows for a venue symbol. */
  function ReportSymbol(table: Table, cp: string, symbol: string): (s: string) {
    match FromBitfinexIn(table, symbol, cp)
    case Some(s) => s
    case None => symbol
  }

  // ----- Order types on the wire -----

  predicate KnownType(typ: string) {
    || typ == "EXCHANGE MARKET" || typ == "EXCHANGE LIMIT" || typ == "EXCHANGE STOP"
    || typ == "EXCHANGE TRAILING STOP" || typ == "EXCHANGE STOP LIMIT" || typ == "EXCHANGE FOK"
  }

  lemma MarginLetters(s: string, i: int)
    requires OccursAt(s, "MARGIN", i)
    ensures s[i] == 'M' && s[i + 3] == 'G'
  {
    assert s[i] == s[i..i + 6][0] && s[i + 3] == s[i..i + 6][3];
  }

  /** No order type without the margin prefix mentions it. */
  lemma ExchangeIsNotMargin(typ: string)
    requires KnownType(typ) || typ == ""
    ensures !Contains(typ, "MARGIN")
  {
    forall i | 0 <= i <= |typ|
      ensures !OccursAt(typ, "MARGIN", i)
    {
      if OccursAt(typ, "MARGIN", i) {
        MarginLetters(typ, i);
        assert false;
      }
    }
  }

  lemma ReplacePrefix(old_: string, rest: string, new_: string)
    requires old_ != ""
    ensures ReplaceFirst(old_ + rest, old_, new_) == new_ + rest
  {
    var s := old_ + rest;
    assert s[..|old_|] == old_ && s[|old_|..] == rest;
  }

  lemma MarginPrefix(typ: string)
    requires KnownType(typ)
    ensures ReplaceFirst(typ, "EXCHANGE", "MARGIN") == "MARGIN" + typ[8..]
    ensures Contains("MARGIN" + typ[8..], "MARGIN")
    ensures ReplaceFirst("MARGIN" + typ[8..], "MARGIN", "EXCHANGE") == typ
  {
    var rest := typ[8..];
    assert typ == "EXCHANGE" + rest;
    ReplacePrefix("EXCHANGE", rest, "MARGIN");
    ReplacePrefix("MARGIN", rest, "EXCHANGE");
    assert OccursAt("MARGIN" + rest, "MARGIN", 0);
  }

  lemma {:induction false} NoOccurrenceNoReplace(s: string, sub: string, new_: string)
    requires sub != "" && !Contains(s, sub)
    ensures ReplaceFirst(s, sub, new_) == s
  {
    if |s| >= |sub| {
      assert !OccursAt(s, sub, 0);
      forall i | 0 <= i <= |s[1..]|
        ensures !OccursAt(s[1..], sub, i)
      {
        assert !OccursAt(s, sub, i + 1);
        if i + |sub| <= |s[1..]| {
          assert s[1..][i..i + |sub|] == s[i + 1..i + 1 + |sub|];
        }
      }
      NoOccurrenceNoReplace(s[1..], sub, new_);
    }
  }

  /** The order type is one of the four the gateway knows how to send. */
  predicate KnownOrdType(msg: OrderMessage) {
    msg.ordType.Some? && !msg.ordType.value.OtherOrdType?
  }

  /**
   Decoding the order type sent to the venue. The margin marker survives exactly for orders that
   have a type on the wire at all: those of the four known types, and all fill-or-kill ones. The
   FIX order type survives exactly for limit orders and for the market and stop orders that are
   not fill-or-kill. In particular every stop-limit order decodes as a market order.
   */
  lemma TypeDecodesExactly(msg: OrderMessage)
    requires OrderNewType(msg).Ok?
    ensures Convert.IsMarginType(OrderNewType(msg).value) <==>
            MarginOpen(msg) && (FillOrKillLike(msg) || KnownOrdType(msg))
    ensures msg.ordType == Some(Convert.OrdTypeToFIX(OrderNewType(msg).value)) <==>
            msg.ordType == Some(Limit) || (!FillOrKillLike(msg) && (msg.ordType == Some(Market) || msg.ordType == Some(Stop)))
  {
    if FillOrKillLike(msg) || KnownOrdType(msg) {
      TypeOnWire(ExchangeType(msg));
    } else {
      ExchangeIsNotMargin("");
    }
  }

  /**
   The marker is lost for an order of type limit-on-close, say: the gateway accepts it, sends it
   with an empty type, and caches a margin order as one that is not.
   */
  lemma OtherTypeLosesMargin(account: string)
    ensures var msg := OrderMessage(
        Some("1"), None, None, Some("tBTCUSD"), Some(Buy), Some(OtherOrdType('5')), Some(1.0), None, None, None, None,
        None, None, Some('2'), None, None, Absent);
      && MarginOpen(msg)
      && AcceptNewOrder(msg, None, account).Ok?
      && AcceptNewOrder(msg, None, account).value.request.typ == ""
      && !AcceptNewOrder(msg, None, account).value.terms.isMargin
  {
    ExchangeIsNotMargin("");
  }

  /** With or without the margin prefix a type decodes alike, and the prefix is recognised. */
  lemma TypeOnWire(typ: string)
    requires KnownType(typ)
    ensures !Convert.IsMarginType(typ)
    ensures Convert.IsMarginType(ReplaceFirst(typ, "EXCHANGE", "MARGIN"))
    ensures Convert.OrdTypeToFIX(typ) == Convert.OrdTypeOf(typ)
    ensures Convert.OrdTypeToFIX(ReplaceFirst(typ, "EXCHANGE", "MARGIN")) == Convert.OrdTypeOf(typ)
  {
    MarginPrefix(typ);
    ExchangeIsNotMargin(typ);
    NoOccurrenceNoReplace(typ, "MARGIN", "EXCHANGE");
  }

  /** The cached terms carry the meaning of a LIMIT or STOP_LIMIT order message. */
  ghost predicate TermsCarry(msg: OrderMessage, t: Terms) {
    && msg.side == Some(t.side)
    && msg.ordType == Some(t.ordType)
    && (msg.qty.Some? && Abs(t.qty) == Abs(msg.qty.value))
    && msg.price == Some(t.px)
    && (t.ordType.StopLimit? ==> msg.stopPx == Some(t.stop))
    && (t.isMargin <==> MarginOpen(msg))
    && (HasFlag(t.flags, FLAG_HIDDEN) <==> Hidden(msg))
    && (HasFlag(t.flags, FLAG_POST_ONLY) <==> PostOnly(msg))
    && t.trail == 0.0
  }

  lemma AcceptedTermsCarry(msg: OrderMessage, translated: Option<string>, account: string)
    requires msg.ordType == Some(Limit) || msg.ordType == Some(StopLimit)
    requires AcceptNewOrder(msg, translated, account).Ok?
    ensures TermsCarry(msg, AcceptNewOrder(msg, translated, account).value.terms)
  {
    TypeDecodesExactly(msg);
  }

  /** What a report says of a LIMIT or STOP_LIMIT order besides its state of execution. */
  ghost predicate ReportCarries(msg: OrderMessage, r: Report) {
    && msg.side == Some(r.side)
    && msg.ordType == Some(r.ordType)
    && (msg.qty.Some? && r.orderQty == Abs(msg.qty.value))
    && (msg.price.Some? && r.price == NonZero(msg.price.value))
    && (r.ordType.StopLimit? ==> msg.stopPx.Some? && r.stopPx == NonZero(msg.stopPx.value))
    && (r.marginClose <==> MarginOpen(msg))
    && (r.undisclosed <==> Hidden(msg))
    && ('6' in r.execInst <==> PostOnly(msg))
    && r.pegDifference == None
  }

  /** The pending-cancel report on an order describes a message exactly when its cached terms do. */
  lemma PendingCancelCarries(
    msg: OrderMessage, t: Terms, symbol: string, clOrdID: string, orderID: string, es: seq<Execution>, text: string)
    requires msg.ordType == Some(Limit) || msg.ordType == Some(StopLimit)
    requires t.qty >= 0.0
    ensures ReportCarries(msg, PendingCancelReport(symbol, clOrdID, orderID, t, es, text)) <==> TermsCarry(msg, t)
  {
  }

  /**
   LIMIT and STOP_LIMIT orders keep their meaning from the NewOrderSingle through the request
   and the cached terms to the pending-cancel report, whatever has been filled meanwhile, and
   keep their symbol whenever the inbound translation succeeded.
   */
  lemma OrderKeepsMeaning(
    msg: OrderMessage, table: Table, cp: string, translated: Option<string>, account: string,
    orderID: string, es: seq<Execution>, text: string)
    requires msg.symbol.Some? ==> MayToBitfinex(table, msg.symbol.value, cp, translated)
    requires msg.ordType == Some(Limit) || msg.ordType == Some(StopLimit)
    requires AcceptNewOrder(msg, translated, account).Ok?
    ensures var a := AcceptNewOrder(msg, translated, account).value;
      var terms := a.terms.(qty := Abs(a.terms.qty));
      var r := PendingCancelReport(ReportSymbol(table, cp, terms.symbol), a.clOrdID, orderID, terms, es, text);
      ReportCarries(msg, r) && (translated.Some? ==> msg.symbol == Some(r.symbol))
  {
    var a := AcceptNewOrder(msg, translated, account).value;
    var terms := a.terms.(qty := Abs(a.terms.qty));
    AcceptedTermsCarry(msg, translated, account);
    assert TermsCarry(msg, terms);
    if translated.Some? {
      assert terms.symbol == translated.value;
      InboundThenOutbound(table, msg.symbol.value, cp, translated.value);
    }
    PendingCancelCarries(msg, terms, ReportSymbol(table, cp, terms.symbol), a.clOrdID, orderID, es, text);
  }

  /**
   The venue carries the side in the sign of the amount. Reading it back gives the side sent
   exactly for buys and sells of a positive quantity, and for an undisclosed side of none.
   */
  lemma SideSurvivesAmountExactly(side: Side, qty: real)
    ensures Convert.SideToFIX(AmountOf(side, qty)) == side <==>
            ((side.Buy? || side.Sell?) && qty > 0.0) || (side.UndisclosedSide? && qty == 0.0)
    ensures Abs(AmountOf(side, qty)) == Abs(qty)
  {
  }

  /**
   What a pending-cancel report does not restore. The stop price of a STOP order is cached as
   its price and comes back as tag 44, never as tag 99; and the time in force always comes back
   as good till cancel, so it is right exactly for orders sent that way.
   */
  lemma LostInCancelReport(
    msg: OrderMessage, translated: Option<string>, account: string, symbol: string, orderID: string, es: seq<Execution>, text: string)
    requires AcceptNewOrder(msg, translated, account).Ok?
    ensures var a := AcceptNewOrder(msg, translated, account).value;
      var r := PendingCancelReport(symbol, a.clOrdID, orderID, a.terms.(qty := Abs(a.terms.qty)), es, text);
      && (msg.ordType == Some(Stop) && msg.stopPx.value > 0.0 ==> r.stopPx == None && r.price == msg.stopPx)
      && (msg.tif == Some(r.tif) <==> msg.tif == Some(GoodTillCancel))
  {
    var a := AcceptNewOrder(msg, translated, account).value;
    if msg.ordType == Some(Stop) {
      assert PricesOf(msg).Ok? && PricesOf(msg).value.aux == 0.0 && msg.stopPx == Some(PricesOf(msg).value.px);
      assert a.terms.px == msg.stopPx.value && a.terms.stop == 0.0;
    }
  }
}
