/**
 What the venue makes of an order request: how it reads the order type on the wire and which of
 the prices it acts on, compared with what the FIX message asks for, field by field.
 */
module OrderWire {
  import opened Wrappers
  import opened DecimalText
  import opened FixTypes
  import opened Executions
  import opened OrderCache
  import opened OrderMessages
  import opened OrderEvents
  import opened Reports
  import Text

  /** A class of orders the venue tells apart. */
  datatype OrderClass =
    | FillOrKillOrder(margin: bool)
    | PlainOrder(kind: OrdType, trailing: bool, margin: bool)

  /** The words of an order type, with the given margin marker before them. */
  function ReadWords(words: string, margin: bool): (r: Option<OrderClass>) {
    if words == "MARKET" then Some(PlainOrder(Market, false, margin))
    else if words == "LIMIT" then Some(PlainOrder(Limit, false, margin))
    else if words == "STOP" then Some(PlainOrder(Stop, false, margin))
    else if words == "TRAILING STOP" then Some(PlainOrder(Stop, true, margin))
    else if words == "STOP LIMIT" then Some(PlainOrder(StopLimit, false, margin))
    else if words == "FOK" then Some(FillOrKillOrder(margin))
    else None
  }

  /** The order type as the venue reads it. */
  function ReadType(typ: string): (r: Option<OrderClass>) {
    if "EXCHANGE " <= typ then ReadWords(typ[9..], false)
    else if "MARGIN " <= typ then ReadWords(typ[7..], true)
    else None
  }

  predicate AsksFillOrKill(msg: OrderMessage) {
    msg.tif == Some(FillOrKill) || msg.tif == Some(ImmediateOrCancel)
  }

  predicate Asks(msg: OrderMessage, execInst: char) {
    msg.execInst.Some? && execInst in msg.execInst.value
  }

  /** The class the message asks for: by tags 59, 40, 18 and 544. */
  function AskedClass(msg: OrderMessage): (r: Option<OrderClass>) {
    var margin := msg.cashMargin == Some('2');
    if AsksFillOrKill(msg) then Some(FillOrKillOrder(margin))
    else if msg.ordType.None? || msg.ordType.value.OtherOrdType? then None
    else Some(PlainOrder(msg.ordType.value, msg.ordType == Some(Stop) && Asks(msg, 'R'), margin))
  }

  /** The two forms of a type on the wire: as it is, and with the margin prefix. */
  lemma PrefixedType(words: string)
    ensures "EXCHANGE " + words != "" && ("EXCHANGE " + words)[9..] == words
    ensures "MARGIN " + words != "" && ("MARGIN " + words)[7..] == words && !("EXCHANGE " <= "MARGIN " + words)
  {
    var typ := "MARGIN " + words;
    assert typ[0] == 'M';
  }

  /** Reading the words of a class gives the class. */
  lemma WordsRead(class_: OrderClass)
    requires Sendable(class_)
    ensures ReadWords(WordsOf(class_), class_.margin) == Some(class_)
  {
  }

  lemma ExchangeTypeWords(msg: OrderMessage)
    ensures AskedClass(msg).Some? ==> Sendable(AskedClass(msg).value)
    ensures ExchangeType(msg) == if AskedClass(msg).None? then "" else "EXCHANGE " + WordsOf(AskedClass(msg).value)
  {
    if AsksFillOrKill(msg) {
      assert "EXCHANGE " + "FOK" == "EXCHANGE FOK";
    } else if AskedClass(msg).Some? {
      match msg.ordType.value
      case Market => assert "EXCHANGE " + "MARKET" == "EXCHANGE MARKET";
      case Limit => assert "EXCHANGE " + "LIMIT" == "EXCHANGE LIMIT";
      case Stop =>
        assert "EXCHANGE " + "STOP" == "EXCHANGE STOP";
        assert "EXCHANGE " + "TRAILING STOP" == "EXCHANGE TRAILING STOP";
      case StopLimit => assert "EXCHANGE " + "STOP LIMIT" == "EXCHANGE STOP LIMIT";
    }
  }

  /** The class has a type on the wire. */
  predicate Sendable(class_: OrderClass) {
    class_.PlainOrder? ==> !class_.kind.OtherOrdType? && (class_.trailing ==> class_.kind.Stop?)
  }

  /** The words of the type sent. */
  function WordsOf(class_: OrderClass): (words: string)
    requires Sendable(class_)
  {
    match class_
    case FillOrKillOrder(_) => "FOK"
    case PlainOrder(Market, _, _) => "MARKET"
    case PlainOrder(Limit, _, _) => "LIMIT"
    case PlainOrder(Stop, trailing, _) => if trailing then "TRAILING STOP" else "STOP"
    case PlainOrder(StopLimit, _, _) => "STOP LIMIT"
  }

  lemma MarginWords(words: string)
    ensures Text.ReplaceFirst("EXCHANGE " + words, "EXCHANGE", "MARGIN") == "MARGIN " + words
  {
    ReplacePrefix("EXCHANGE", " " + words, "MARGIN");
    assert "EXCHANGE" + (" " + words) == "EXCHANGE " + words;
    assert "MARGIN" + (" " + words) == "MARGIN " + words;
  }

  /** The type sent for a message: the words of its class after the prefix that says where its margin comes from. */
  lemma TypeSent(msg: OrderMessage)
    requires OrderNewType(msg).Ok?
    ensures AskedClass(msg).Some? ==> Sendable(AskedClass(msg).value)
    ensures AskedClass(msg).None? ==> OrderNewType(msg).value == ""
    ensures AskedClass(msg).Some? ==> var c := AskedClass(msg).value;
      OrderNewType(msg).value == (if c.margin then "MARGIN " else "EXCHANGE ") + WordsOf(c)
  {
    ExchangeTypeWords(msg);
    if AskedClass(msg).Some? {
      MarginWords(WordsOf(AskedClass(msg).value));
    }
  }

  /**
   The venue reads the type sent as exactly the class asked for, and reads none when the message
   asks for none; no type is sent exactly for all-or-none orders.
   */
  lemma TypeReadsAsAsked(msg: OrderMessage)
    ensures OrderNewType(msg).Ok? <==> msg.execInst != Some("G")
    ensures OrderNewType(msg).Ok? ==> ReadType(OrderNewType(msg).value) == AskedClass(msg)
  {
    if OrderNewType(msg).Ok? {
      TypeSent(msg);
      if AskedClass(msg).Some? {
        WordsRead(AskedClass(msg).value);
        PrefixedType(WordsOf(AskedClass(msg).value));
      }
    }
  }

  /** Two messages are sent with one type exactly when they ask for the same class. */
  lemma SameTypeExactly(a: OrderMessage, b: OrderMessage)
    requires OrderNewType(a).Ok? && OrderNewType(b).Ok?
    ensures OrderNewType(a).value == OrderNewType(b).value <==> AskedClass(a) == AskedClass(b)
  {
    TypeReadsAsAsked(a);
    TypeReadsAsAsked(b);
    TypeSent(a);
    TypeSent(b);
  }

  // ----- Prices -----

  /** The prices an order is bound by. */
  datatype Levels = Levels(limit: Option<real>, stop: Option<real>, trail: Option<real>)

  const UNBOUND := Levels(None, None, None)

  /** Which of the three prices of a request the venue acts on. A fill-or-kill order is a limit order. */
  function ReadLevels(class_: OrderClass, px: real, aux: real, trail: real): (r: Levels) {
    match class_
    case FillOrKillOrder(_) => Levels(Some(px), None, None)
    case PlainOrder(kind, trailing, _) =>
      match kind
      case Limit => Levels(Some(px), None, None)
      case Stop => Levels(None, Some(px), if trailing then Some(trail) else None)
      case StopLimit => Levels(Some(px), Some(aux), None)
      case _ => UNBOUND
  }

  /** The prices the message asks for: by tags 44, 99 and 211. */
  function AskedLevels(msg: OrderMessage): (r: Levels) {
    match msg.ordType
    case Some(Limit) => Levels(msg.price, None, None)
    case Some(Stop) => Levels(None, msg.stopPx, if Asks(msg, 'R') then msg.pegDifference else None)
    case Some(StopLimit) => Levels(msg.price, msg.stopPx, None)
    case _ => UNBOUND
  }

  /** The venue acts on the prices asked for, except that it takes every fill-or-kill order for a limit order. */
  lemma LevelsReadExactly(msg: OrderMessage)
    requires PricesOf(msg).Ok? && AskedClass(msg).Some?
    ensures var p := PricesOf(msg).value;
      ReadLevels(AskedClass(msg).value, p.px, p.aux, p.trail) == AskedLevels(msg) <==>
        (AsksFillOrKill(msg) ==> msg.ordType == Some(Limit))
  {
  }

  // ----- The whole request -----

  datatype Instruction = Instruction(
    class_: OrderClass, symbol: string, amount: real, levels: Levels, ocoStop: Option<real>, hidden: bool, postOnly: bool,
    expires: int)

  /** What the venue takes a request for. */
  function Understood(r: OrderRequest): (i: Option<Instruction>) {
    match ReadType(r.typ)
    case None => None
    case Some(c) =>
      Some(Instruction(
        c, r.symbol, r.amount, ReadLevels(c, r.prices.px, r.prices.aux, r.prices.trail),
        if r.oco then Some(r.prices.oco) else None, r.hidden, r.postOnly, r.expires))
  }

  /** What the message asks for; the symbol is the venue's when the symbol master knows it. */
  function AskedFor(msg: OrderMessage, translated: Option<string>): (i: Option<Instruction>)
    requires msg.symbol.Some? && msg.side.Some? && msg.qty.Some?
  {
    match AskedClass(msg)
    case None => None
    case Some(c) =>
      Some(Instruction(
        c, if translated.Some? then translated.value else msg.symbol.value,
        if msg.side == Some(Sell) then -msg.qty.value else msg.qty.value,
        AskedLevels(msg), AskedOcoStop(msg), msg.displayMethod == Some("4"), Asks(msg, '6'),
        if msg.tif == Some(GoodTillDate) && msg.expireTime.Some? then msg.expireTime.value else 0))
  }

  /** The stop of a pair of orders that cancel each other: a limit order's tag 99, and zero for other types. */
  function AskedOcoStop(msg: OrderMessage): (stop: Option<real>) {
    if msg.contingencyType != Some('1') then None
    else if msg.ordType == Some(Limit) then msg.stopPx
    else Some(0.0)
  }

  lemma OcoStopRead(msg: OrderMessage)
    requires PricesOf(msg).Ok?
    ensures AskedOcoStop(msg) == if OneCancelsOther(msg) then Some(PricesOf(msg).value.oco) else None
  {
  }

  lemma ClientIDPrints(clOrdID: string)
    ensures FormatInt(CidOf(clOrdID)) == clOrdID <==> Canonical(clOrdID)
  {
    FormatParseExactly(clOrdID);
    if ParseInt(clOrdID).None? && FormatInt(0) == clOrdID {
      ParseFormat(0);
    }
  }

  /** The parts of the request that need no reading are those of the message. */
  predicate PlainFields(msg: OrderMessage, translated: Option<string>, r: OrderRequest) {
    && msg.symbol.Some? && msg.side.Some? && msg.qty.Some?
    && r.symbol == (if translated.Some? then translated.value else msg.symbol.value)
    && r.amount == (if msg.side == Some(Sell) then -msg.qty.value else msg.qty.value)
    && (r.hidden <==> msg.displayMethod == Some("4")) && (r.postOnly <==> Asks(msg, '6'))
    && (r.oco <==> OneCancelsOther(msg))
    && r.expires == (if msg.tif == Some(GoodTillDate) && msg.expireTime.Some? then msg.expireTime.value else 0)
  }

  lemma RequestFields(msg: OrderMessage, translated: Option<string>, account: string)
    requires AcceptNewOrder(msg, translated, account).Ok?
    ensures msg.clOrdID.Some? && OrderNewType(msg).Ok? && PricesOf(msg).Ok?
    ensures var r := AcceptNewOrder(msg, translated, account).value.request;
      && r.typ == OrderNewType(msg).value && r.prices == PricesOf(msg).value && r.cid == CidOf(msg.clOrdID.value)
      && PlainFields(msg, translated, r)
  {
  }

  lemma UnderstoodFrom(msg: OrderMessage, translated: Option<string>, r: OrderRequest)
    requires OrderNewType(msg).Ok? && PricesOf(msg).Ok? && PlainFields(msg, translated, r)
    requires r.typ == OrderNewType(msg).value && r.prices == PricesOf(msg).value
    ensures Understood(r) == AskedFor(msg, translated) <==> (AsksFillOrKill(msg) ==> msg.ordType == Some(Limit))
  {
    TypeReadsAsAsked(msg);
    OcoStopRead(msg);
    if AskedClass(msg).Some? {
      LevelsReadExactly(msg);
    }
  }

  /**
   The venue understands an accepted order exactly as the message asks for it, in every field,
   exactly when it is not fill-or-kill or is a LIMIT order. Its client id prints as the ClOrdID
   exactly when that is a canonical 64-bit integer.
   */
  lemma UnderstoodExactly(msg: OrderMessage, translated: Option<string>, account: string)
    requires AcceptNewOrder(msg, translated, account).Ok?
    ensures msg.symbol.Some? && msg.side.Some? && msg.qty.Some? && msg.clOrdID.Some?
    ensures var request := AcceptNewOrder(msg, translated, account).value.request;
      && (Understood(request) == AskedFor(msg, translated) <==>
            (AsksFillOrKill(msg) ==> msg.ordType == Some(Limit)))
      && (FormatInt(request.cid) == msg.clOrdID.value <==> Canonical(msg.clOrdID.value))
      && (ParseInt(msg.clOrdID.value).None? ==> request.cid == 0)
  {
    RequestFields(msg, translated, account);
    ClientIDPrints(msg.clOrdID.value);
    UnderstoodFrom(msg, translated, AcceptNewOrder(msg, translated, account).value.request);
  }

  /** What is cached for an accepted order is what is sent for it, for the given account. */
  lemma NewOrderCachedAsSent(msg: OrderMessage, translated: Option<string>, account: string)
    requires AcceptNewOrder(msg, translated, account).Ok?
    ensures var a := AcceptNewOrder(msg, translated, account).value;
      && msg.clOrdID == Some(a.clOrdID) && msg.side == Some(a.terms.side) && msg.ordType == Some(a.terms.ordType)
      && a.terms.account == account && a.terms.symbol == a.request.symbol && a.terms.qty == a.request.amount
      && a.terms.px == a.request.prices.px && a.terms.stop == a.request.prices.aux && a.terms.trail == a.request.prices.trail
      && a.terms.tifExpiration == a.request.expires
      && (HasFlag(a.terms.flags, FLAG_HIDDEN) <==> a.request.hidden)
      && (HasFlag(a.terms.flags, FLAG_POST_ONLY) <==> a.request.postOnly)
      && (ReadType(a.request.typ).Some? ==> (a.terms.isMargin <==> ReadType(a.request.typ).value.margin))
  {
    RequestFields(msg, translated, account);
    TypeReadsAsAsked(msg);
    TypeDecodesExactly(msg);
  }

  /** A fill-or-kill MARKET order is sent as a limit order at a price of zero. */
  lemma MarketFillOrKill(account: string)
    ensures var msg := OrderMessage(
        Some("1"), None, None, Some("tBTCUSD"), Some(Buy), Some(Market), Some(1.0), None, None, None, None,
        Some(FillOrKill), None, None, None, None, Absent);
      && AcceptNewOrder(msg, None, account).Ok?
      && Understood(AcceptNewOrder(msg, None, account).value.request).Some?
      && Understood(AcceptNewOrder(msg, None, account).value.request).value.levels == Levels(Some(0.0), None, None)
      && AskedLevels(msg) == UNBOUND
  {
    assert "EXCHANGE FOK" == "EXCHANGE " + "FOK" && "EXCHANGE FOK"[9..] == "FOK";
  }

  // ----- Which messages are accepted -----

  /** The prices an order of its type cannot do without. */
  predicate HasPrices(msg: OrderMessage) {
    match msg.ordType
    case None => false
    case Some(Limit) => msg.price.Some? && (msg.contingencyType == Some('1') ==> msg.stopPx.Some?)
    case Some(Stop) => msg.stopPx.Some? && (Asks(msg, 'R') ==> msg.pegDifference.Some?)
    case Some(StopLimit) => msg.price.Some? && msg.stopPx.Some?
    case _ => true
  }

  /** The field with the given tag is missing. */
  predicate Missing(msg: OrderMessage, tag: int) {
    || (tag == 11 && msg.clOrdID.None?) || (tag == 41 && msg.origClOrdID.None?) || (tag == 55 && msg.symbol.None?)
    || (tag == 54 && msg.side.None?) || (tag == 38 && msg.qty.None?) || (tag == 40 && msg.ordType.None?)
    || (tag == 44 && msg.price.None?) || (tag == 99 && msg.stopPx.None?) || (tag == 211 && msg.pegDifference.None?)
    || (tag == 126 && msg.expireTime.None?)
  }

  /** The reason given for a rejected message is true of it. */
  predicate TrueReason(msg: OrderMessage, e: Reject) {
    match e
    case MissingField(tag) => Missing(msg, tag)
    case ValueIncorrect(tag) => (tag == 18 && msg.execInst == Some("G")) || (tag == 20005 && msg.leverage == Malformed)
    case UnknownOrder => false
  }

  lemma PricesPresent(msg: OrderMessage)
    ensures PricesOf(msg).Ok? <==> HasPrices(msg)
    ensures PricesOf(msg).Err? ==> TrueReason(msg, PricesOf(msg).error)
  {
  }

  /**
   A NewOrderSingle is accepted exactly when it has all fields its type needs, is not all-or-none
   and has no malformed leverage; and the reason of a reject is true of the message.
   */
  lemma NewOrderAcceptedExactly(msg: OrderMessage, translated: Option<string>, account: string)
    ensures AcceptNewOrder(msg, translated, account).Ok? <==>
      && msg.clOrdID.Some? && msg.symbol.Some? && msg.side.Some? && msg.qty.Some? && HasPrices(msg)
      && (msg.tif == Some(GoodTillDate) ==> msg.expireTime.Some?)
      && msg.execInst != Some("G") && msg.leverage != Malformed
    ensures AcceptNewOrder(msg, translated, account).Err? ==>
      TrueReason(msg, AcceptNewOrder(msg, translated, account).error)
  {
    PricesPresent(msg);
  }

  /**
   A replace is accepted exactly when its OrigClOrdID names a cached order that has the server id
   given, if one is given, all three ids are integers, and the fields its type needs are there. Then
   it refers to that order; otherwise the reason given is true, or the order is not one it can name.
   */
  lemma ReplaceAcceptedExactly(orders: Orders, msg: OrderMessage, account: string)
    ensures var r := AcceptReplace(orders, msg, account);
      && (r.Ok? <==> NamesOrder(orders, msg) && msg.qty.Some? && HasPrices(msg)
                     && (msg.tif == Some(GoodTillDate) ==> msg.expireTime.Some?)
                     && msg.execInst != Some("G") && msg.leverage != Malformed)
      && (r.Err? ==> if r.error == UnknownOrder then !NamesOrder(orders, msg) else TrueReason(msg, r.error))
  {
    PricesPresent(msg);
  }

  predicate NamesOrder(orders: Orders, msg: OrderMessage) {
    && msg.origClOrdID.Some? && msg.clOrdID.Some? && msg.origClOrdID.value in orders
    && var id := orders[msg.origClOrdID.value].orderID;
       && (msg.orderID.Some? ==> msg.orderID.value == id)
       && ParseInt(id).Some? && ParseInt(msg.clOrdID.value).Some? && ParseInt(msg.origClOrdID.value).Some?
  }

  // ----- Replaces -----

  /** What the venue takes the update of an order for, which is of the type the message says. */
  function UpdatedLevels(msg: OrderMessage, u: OrderUpdate): (r: Levels)
    requires msg.ordType.Some?
  {
    ReadLevels(PlainOrder(msg.ordType.value, msg.ordType == Some(Stop) && Asks(msg, 'R'), false), u.px, u.aux, u.trail)
  }

  /** What an accepted replace is made of. */
  lemma ReplaceParts(orders: Orders, msg: OrderMessage, account: string)
    requires AcceptReplace(orders, msg, account).Ok?
    ensures msg.qty.Some? && PricesOf(msg).Ok? && ExpirationOf(msg).Ok? && NamesOrder(orders, msg)
    ensures var p := AcceptReplace(orders, msg, account).value;
      && p.origClOrdID == msg.origClOrdID.value && p.clOrdID == msg.clOrdID.value
      && var o := orders[p.origClOrdID];
         && p.orderID == o.orderID && Some(p.venueID) == ParseInt(o.orderID)
         && p.amount == (if o.terms.side == Sell then -msg.qty.value else msg.qty.value)
         && p.terms == ReplacedTerms(o.terms, msg, p.amount, PricesOf(msg).value, ExpirationOf(msg).value, account)
  {
  }

  lemma UpdateRead(p: Replacement, cached: Terms, msg: OrderMessage, account: string)
    requires PricesOf(msg).Ok? && ExpirationOf(msg).Ok?
    requires p.terms == ReplacedTerms(cached, msg, p.amount, PricesOf(msg).value, ExpirationOf(msg).value, account)
    ensures msg.ordType.Some? && SentAsAsked(msg, UpdateOf(p, msg)) && CachedAsSent(p.terms, msg, UpdateOf(p, msg), account)
  {
  }

  /** Prices, flags and expiration of an update are those of the message. */
  predicate SentAsAsked(msg: OrderMessage, u: OrderUpdate) {
    && msg.ordType.Some?
    && UpdatedLevels(msg, u) == AskedLevels(msg)
    && (u.hidden <==> msg.displayMethod == Some("4")) && (u.postOnly <==> Asks(msg, '6'))
    && u.expires == (if msg.tif == Some(GoodTillDate) && msg.expireTime.Some? then msg.expireTime.value else 0)
  }

  /** The terms cached for a replacement are those of the update sent and of the message. */
  predicate CachedAsSent(t: Terms, msg: OrderMessage, u: OrderUpdate, account: string) {
    && t.account == account
    && t.px == u.px && t.stop == u.aux && t.trail == u.trail && t.qty == u.amount && t.tifExpiration == u.expires
    && Some(t.ordType) == msg.ordType
    && (HasFlag(t.flags, FLAG_HIDDEN) <==> u.hidden) && (HasFlag(t.flags, FLAG_POST_ONLY) <==> u.postOnly)
  }

  /**
   An accepted replace sends the prices, the quantity, the flags and the expiration of its message
   for the order named, with the side of the cached order; and what is cached for it is what is sent.
   */
  lemma ReplaceUnderstood(orders: Orders, msg: OrderMessage, account: string)
    requires AcceptReplace(orders, msg, account).Ok?
    ensures NamesOrder(orders, msg) && msg.qty.Some?
    ensures var p := AcceptReplace(orders, msg, account).value;
      var u, o := UpdateOf(p, msg), orders[msg.origClOrdID.value];
      && Some(u.id) == ParseInt(o.orderID)
      && u.amount == (if o.terms.side == Sell then -msg.qty.value else msg.qty.value)
      && SentAsAsked(msg, u) && CachedAsSent(p.terms, msg, u, account)
  {
    ReplaceParts(orders, msg, account);
    UpdateRead(AcceptReplace(orders, msg, account).value, orders[msg.origClOrdID.value].terms, msg, account);
  }

  /** What a report says of a replaced LIMIT or STOP_LIMIT order: the new terms, and side and margin as they were. */
  ghost predicate ReportsReplaced(msg: OrderMessage, was: Terms, r: Report) {
    && msg.ordType == Some(r.ordType) && msg.qty.Some? && r.orderQty == Abs(msg.qty.value)
    && msg.price.Some? && r.price == NonZero(msg.price.value)
    && (r.ordType.StopLimit? ==> msg.stopPx.Some? && r.stopPx == NonZero(msg.stopPx.value))
    && (r.undisclosed <==> msg.displayMethod == Some("4")) && ('6' in r.execInst <==> Asks(msg, '6'))
    && r.side == was.side && (r.marginClose <==> was.isMargin) && r.pegDifference == None
  }

  lemma ReplacedReport(
    p: Replacement, cached: Terms, msg: OrderMessage, account: string, symbol: string, es: seq<Execution>, text: string)
    requires PricesOf(msg).Ok? && ExpirationOf(msg).Ok? && msg.qty.Some? && Abs(p.amount) == Abs(msg.qty.value)
    requires msg.ordType == Some(Limit) || msg.ordType == Some(StopLimit)
    requires p.terms == ReplacedTerms(cached, msg, p.amount, PricesOf(msg).value, ExpirationOf(msg).value, account)
    ensures ReportsReplaced(msg, cached,
              PendingCancelReport(symbol, p.clOrdID, p.orderID, Entered(p.clOrdID, p.terms).terms, es, text))
  {
  }

  /** A pending-cancel report on a replaced order describes it as the replace message did. */
  lemma ReplaceKeepsMeaning(orders: Orders, msg: OrderMessage, account: string, symbol: string, es: seq<Execution>, text: string)
    requires AcceptReplace(orders, msg, account).Ok? && (msg.ordType == Some(Limit) || msg.ordType == Some(StopLimit))
    ensures NamesOrder(orders, msg)
    ensures var p := AcceptReplace(orders, msg, account).value;
      var was, entry := orders[msg.origClOrdID.value], AfterReplace(orders, p)[p.clOrdID];
      var r := PendingCancelReport(symbol, entry.clOrdID, entry.orderID, entry.terms, es, text);
      msg.clOrdID == Some(r.clOrdID) && r.orderID == was.orderID && ReportsReplaced(msg, was.terms, r)
  {
    ReplaceParts(orders, msg, account);
    var p := AcceptReplace(orders, msg, account).value;
    ReplacedReport(p, orders[msg.origClOrdID.value].terms, msg, account, symbol, es, text);
  }
}
