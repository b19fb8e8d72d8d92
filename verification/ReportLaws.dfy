/**
 Reports on one order by different ways: straight from the venue's record of it, through the terms
 cached for it, and as an acknowledgement of what was sent.
 */
module ReportLaws {
  import opened Wrappers
  import opened DecimalText
  import opened FixTypes
  import opened Text
  import opened Executions
  import opened OrderCache
  import opened OrderMessages
  import opened Reports
  import opened OrderWire
  import Convert

  /** Two reports describe the same order, whatever has become of it. */
  predicate SameDescription(a: Report, b: Report) {
    && a.orderID == b.orderID && a.clOrdID == b.clOrdID && a.account == b.account && a.symbol == b.symbol
    && a.side == b.side && a.orderQty == b.orderQty && a.marginClose == b.marginClose && a.ordType == b.ordType
    && a.stopPx == b.stopPx && a.pegDifference == b.pegDifference && a.undisclosed == b.undisclosed
    && a.execInst == b.execInst && a.tif == b.tif && a.expiration == b.expiration
  }

  /**
   An order learned of from the venue is described alike by a report straight from the venue's
   record and by a pending-cancel report through the cache. They differ in the price alone, exactly
   when the order has one but is of a type that is not reported with it.
   */
  lemma CachedAsReported(
    o: VenueOrder, account: string, symbol: string, es: seq<Execution>, text: string,
    execType: ExecType, status: OrdStatus, text': string)
    ensures var terms := Entered(FormatInt(o.cid), Convert.TermsOfVenueOrder(o, account, Convert.SideToFIX(o.amount))).terms;
      var cached := PendingCancelReport(symbol, FormatInt(o.cid), FormatInt(o.id), terms, es, text);
      var direct := OrderReport(o, symbol, account, execType, TotalQty(es), status, text', o.flags, o.priceAuxLimit, o.priceTrailing);
      && SameDescription(cached, direct)
      && cached.ordStatus == PendingCancel && cached.execType == ExecPendingCancel && cached.text == text
      && cached.leavesQty == cached.orderQty - cached.cumQty && cached.lastShares == None
      && IsAverage(cached.avgPx, cached.cumQty, TotalCost(es))
      && direct.ordStatus == status && direct.execType == execType && direct.text == text'
      && direct.lastShares == Some(0.0) && direct.avgPx == o.priceAvg
      && (direct.tif == GoodTillDate <==> o.mtsTif > 0)
      && (direct.tif == FillOrKill <==> o.mtsTif <= 0 && (o.typ == "FOK" || o.typ == "EXCHANGE FOK"))
      && (direct.expiration.Some? <==> o.mtsTif > 0) && (direct.expiration.Some? ==> direct.expiration.value == o.mtsTif)
      && direct.cumQty == cached.cumQty == TotalQty(es)
      && direct.orderQty == Abs(o.amount)
      && (cached.price == direct.price <==> (o.price > 0.0 ==> direct.ordType == Limit || direct.ordType == StopLimit))
  {
    AverageOf(es);
  }

  /** The words of the venue's order types, without a prefix. */
  predicate TypeWords(words: string) {
    || words == "MARKET" || words == "LIMIT" || words == "STOP" || words == "TRAILING STOP"
    || words == "STOP LIMIT" || words == "FOK"
  }

  /** A type reads the same whatever its prefix, except that only a bare STOP LIMIT is read as one. */
  lemma PrefixIrrelevantExactly(words: string)
    requires TypeWords(words)
    ensures Convert.OrdTypeToFIX("EXCHANGE " + words) == Convert.OrdTypeToFIX("MARGIN " + words)
    ensures Convert.OrdTypeToFIX("EXCHANGE " + words) == Convert.OrdTypeToFIX(words) <==> words != "STOP LIMIT"
    ensures Convert.OrdTypeToFIX(words) ==
      if words == "MARKET" then Market else if words == "STOP LIMIT" then StopLimit
      else if words == "LIMIT" || words == "FOK" then Limit else Stop
    ensures Convert.IsMarginType("MARGIN " + words) && !Convert.IsMarginType(words) && !Convert.IsMarginType("EXCHANGE " + words)
  {
    PrefixedAlike(words);
    BareType(words);
  }

  lemma PrefixedAlike(words: string)
    requires TypeWords(words)
    ensures Convert.OrdTypeToFIX("EXCHANGE " + words) == Convert.OrdTypeToFIX("MARGIN " + words) == Convert.OrdTypeOf("EXCHANGE " + words)
    ensures Convert.IsMarginType("MARGIN " + words) && !Convert.IsMarginType("EXCHANGE " + words)
  {
    PrefixKnown(words);
    TypeOnWire("EXCHANGE " + words);
    MarginWords(words);
  }

  lemma BareType(words: string)
    requires TypeWords(words)
    ensures Convert.OrdTypeToFIX(words) == Convert.OrdTypeOf(words) && !Convert.IsMarginType(words)
    ensures Convert.OrdTypeOf("EXCHANGE " + words) == if words == "STOP LIMIT" then Market else Convert.OrdTypeOf(words)
  {
    NoMargin(words);
    NoOccurrenceNoReplace(words, "MARGIN", "EXCHANGE");
    PrefixKnown(words);
    assert ("EXCHANGE " + words)[9..] == words;
  }

  lemma PrefixKnown(words: string)
    requires TypeWords(words)
    ensures KnownType("EXCHANGE " + words)
  {
    assert "EXCHANGE " + "MARKET" == "EXCHANGE MARKET" && "EXCHANGE " + "LIMIT" == "EXCHANGE LIMIT";
    assert "EXCHANGE " + "STOP" == "EXCHANGE STOP" && "EXCHANGE " + "TRAILING STOP" == "EXCHANGE TRAILING STOP";
    assert "EXCHANGE " + "STOP LIMIT" == "EXCHANGE STOP LIMIT" && "EXCHANGE " + "FOK" == "EXCHANGE FOK";
  }

  lemma NoMargin(words: string)
    requires TypeWords(words)
    ensures !Contains(words, "MARGIN")
  {
    forall i | 0 <= i <= |words|
      ensures !OccursAt(words, "MARGIN", i)
    {
      if OccursAt(words, "MARGIN", i) {
        MarginLetters(words, i);
        assert false;
      }
    }
  }

  /**
   The time in force of an order told back with the type and the expiration it was sent with: good
   till date exactly when an expiration was sent, and otherwise fill-or-kill exactly when the message
   asked for it and not for margin.
   */
  lemma TimeInForceExactly(msg: OrderMessage, translated: Option<string>, account: string)
    requires AcceptNewOrder(msg, translated, account).Ok?
    ensures var r := AcceptNewOrder(msg, translated, account).value.request;
      var tif := Convert.TimeInForceToFIX(r.typ, r.expires);
      && (tif == GoodTillDate <==> r.expires > 0)
      && (r.expires <= 0 ==> (tif == FillOrKill <==> AsksFillOrKill(msg) && msg.cashMargin != Some('2')))
      && (tif == GoodTillDate || tif == FillOrKill || tif == GoodTillCancel)
  {
    RequestFields(msg, translated, account);
    TypeSent(msg);
    if AskedClass(msg).Some? {
      FillOrKillWords(AskedClass(msg).value);
    }
  }

  lemma FillOrKillWords(class_: OrderClass)
    requires Sendable(class_)
    ensures var typ := (if class_.margin then "MARGIN " else "EXCHANGE ") + WordsOf(class_);
      (typ == "FOK" || typ == "EXCHANGE FOK") <==> class_ == FillOrKillOrder(false)
  {
    var words := WordsOf(class_);
    WordsRead(class_);
    var typ := (if class_.margin then "MARGIN " else "EXCHANGE ") + words;
    assert typ[0] == (if class_.margin then 'M' else 'E');
    if !class_.margin {
      assert typ[9..] == words && "EXCHANGE FOK"[9..] == "FOK";
      assert "EXCHANGE " + "FOK" == "EXCHANGE FOK";
    }
  }

  /** A trade on an order learned of from the venue is reported under the description of the order. */
  lemma TradedAsReported(
    o: VenueOrder, t: TradeUpdate, account: string, symbol: string, cumQty: real, avgPx: real, execType: ExecType, status: OrdStatus)
    requires t.orderID == o.id && t.orderType == o.typ && Convert.SideToFIX(t.execAmount) == Convert.SideToFIX(o.amount)
    ensures var terms := Entered(FormatInt(o.cid), Convert.TermsOfVenueOrder(o, account, Convert.SideToFIX(o.amount))).terms;
      var traded := TradeReport(t, symbol, account, FormatInt(o.cid), terms, cumQty, avgPx);
      var direct := OrderReport(o, symbol, account, execType, cumQty, status, "", o.flags, o.priceAuxLimit, o.priceTrailing);
      SameDescription(traded, direct) && traded.price == direct.price && traded.avgPx == avgPx && traded.cumQty == cumQty
      && traded.text == ""
  {
  }

  /** What a report says is left: nothing once the order has left the book, else what is not filled. */
  lemma LeavesExactly(orderQty: real, cumQty: real)
    ensures forall status :: status in {Canceled, DoneForDay, Expired, Replaced, Stopped, Suspended} ==>
              LeavesQty(status, orderQty, cumQty) == 0.0
    ensures forall status :: status in {New, PartiallyFilled, Filled, PendingCancel, Rejected} ==>
              LeavesQty(status, orderQty, cumQty) + cumQty == orderQty
  {
  }

  /** What a trade report says of the trade itself. */
  lemma TradeReportTells(
    t: TradeUpdate, symbol: string, account: string, clOrdID: string, terms: Terms, cumQty: real, avgPx: real)
    ensures var r := TradeReport(t, symbol, account, clOrdID, terms, cumQty, avgPx);
      && (r.side == Buy <==> t.execAmount > 0.0) && (r.side == Sell <==> t.execAmount < 0.0)
      && (r.execType == ExecFill <==> r.ordStatus == Filled)
      && (r.execType == ExecPartialFill <==> r.ordStatus == PartiallyFilled)
      && (r.lastShares.Some? <==> t.execAmount != 0.0)
      && (r.lastShares.Some? ==> r.lastShares.value == t.execAmount || r.lastShares.value == -t.execAmount)
      && (r.lastShares.Some? ==> r.lastShares.value > 0.0)
      && SameTerms(r, terms)
  {
  }

  /** The parts of a trade report that come from the order: its quantity, prices, instructions and flags. */
  predicate SameTerms(r: Report, terms: Terms) {
    && r.orderQty == terms.qty
    && (r.ordType == Limit || r.ordType == StopLimit ==> r.price == NonZero(terms.px))
    && (r.ordType == Stop || r.ordType == StopLimit ==> r.stopPx == NonZero(terms.stop))
    && r.pegDifference == NonZero(terms.trail)
    && (r.undisclosed <==> HasFlag(terms.flags, FLAG_HIDDEN))
    && ('6' in r.execInst <==> HasFlag(terms.flags, FLAG_POST_ONLY))
    && ('R' in r.execInst <==> terms.trail != 0.0)
  }
}
