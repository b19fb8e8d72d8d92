/**
 The handlers of the order routing service as they run: step by step over the mutable cache,
 with the scans of the cache in whatever order they come. Each is proved to take the step of
 the state machine in `OrderEvents`, so the results about runs are results about them.
 */
module OrderHandlers {
  import opened Wrappers
  import opened DecimalText
  import opened FixTypes
  import opened Executions
  import opened OrderCache
  import opened OrderMessages
  import opened OrderEvents
  import opened OrderWire
  import opened Reports
  import opened SymbolMaster
  import Convert
  import Text

  class OrderSession {
    const sn: Session
    const cache: Cache
    var tradeReports: seq<Report>
    ghost var fills: seq<Fill>

    ghost function Now(): State
      reads this, cache
    {
      State(cache.orders, fills, tradeReports)
    }

    constructor (sn: Session)
      ensures this.sn == sn && fresh(cache) && Now() == INITIAL
    {
      this.sn := sn;
      cache := new Cache();
      tradeReports, fills := [], [];
    }

    method OnNewOrder(msg: OrderMessage, translated: Option<string>) returns (r: Result<OrderRequest, Reject>)
      modifies this, cache
      ensures Now() == Apply(sn, old(Now()), NewOrder(msg, translated))
      ensures r.Ok? <==> AcceptNewOrder(msg, translated, sn.account).Ok?
      ensures r.Ok? ==> r.value == AcceptNewOrder(msg, translated, sn.account).value.request
      ensures r.Err? ==> r.error == AcceptNewOrder(msg, translated, sn.account).error
      ensures r.Ok? ==> ReadType(r.value.typ) == AskedClass(msg) && PlainFields(msg, translated, r.value)
    {
      if AcceptNewOrder(msg, translated, sn.account).Ok? {
        TypeReadsAsAsked(msg);
        RequestFields(msg, translated, sn.account);
      }
      var request := RequestOf(msg, translated);
      if request.Err? {
        return request;
      }
      var bo := request.value;
      if msg.leverage.Malformed? {
        return Err(ValueIncorrect(20005));
      }
      var exp := ExpirationOf(msg);
      if exp.Err? {
        return Err(exp.error);
      }
      bo := bo.(expires := exp.value);
      var isMargin := Convert.IsMarginType(bo.typ);
      var terms := Terms(bo.prices.px, bo.prices.aux, bo.prices.trail, bo.amount, bo.symbol, sn.account,
                         msg.side.value, msg.ordType.value, isMargin, GoodTillCancel, exp.value,
                         FlagsOf(bo.hidden, bo.postOnly));
      var _ := cache.AddOrder(msg.clOrdID.value, terms);
      return Ok(bo);
    }

    /** Resolves the identifiers of a replace request against the cache. */
    method FindTarget(msg: OrderMessage) returns (r: Result<(Target, CachedOrder), Reject>)
      ensures var t := ReplaceTarget(cache.orders, msg);
              if t.Ok? then r == Ok((t.value, cache.orders[t.value.origClOrdID])) else r == Err(t.error)
    {
      if msg.origClOrdID.None? {
        return Err(MissingField(41));
      }
      if msg.clOrdID.None? {
        return Err(MissingField(11));
      }
      var orig, clOrdID := msg.origClOrdID.value, msg.clOrdID.value;
      var cached: Option<CachedOrder> := None;
      var id := "";
      if msg.orderID.Some? {
        id := msg.orderID.value;
      } else {
        cached := cache.LookupByClOrdID(orig);
        if cached.None? {
          return Err(UnknownOrder);
        }
        id := cached.value.orderID;
      }
      if ParseInt(clOrdID).None? {
        return Err(UnknownOrder);
      }
      var venueID := ParseInt(id);
      if venueID.None? || ParseInt(orig).None? {
        return Err(UnknownOrder);
      }
      if cached.None? {
        cached := cache.LookupByClOrdID(orig);
        if cached.None? || cached.value.orderID != id {
          return Err(UnknownOrder);
        }
      }
      return Ok((Target(clOrdID, orig, id, venueID.value), cached.value));
    }

    /** On success, the update sent upstream. */
    method OnReplace(msg: OrderMessage) returns (r: Result<OrderUpdate, Reject>)
      modifies this, cache
      ensures Now() == Apply(sn, old(Now()), Replace(msg))
      ensures r.Err? ==> Now() == old(Now())
      ensures var p := AcceptReplace(old(cache.orders), msg, sn.account);
              if p.Ok? then r == Ok(UpdateOf(p.value, msg)) else r == Err(p.error)
    {
      var found := FindTarget(msg);
      if found.Err? {
        return Err(found.error);
      }
      var target, terms := found.value.0, found.value.1.terms;
      if msg.qty.None? {
        return Err(MissingField(38));
      }
      var amount := AmountOf(terms.side, msg.qty.value);
      var prices := PricesOf(msg);
      if prices.Err? {
        return Err(prices.error);
      }
      var exp := ExpirationOf(msg);
      if exp.Err? {
        return Err(exp.error);
      }
      if msg.leverage.Malformed? {
        return Err(ValueIncorrect(20005));
      }
      var typ := OrderNewType(msg);
      if typ.Err? {
        return Err(typ.error);
      }
      var _ := cache.AddOrder(target.clOrdID, ReplacedTerms(terms, msg, amount, prices.value, exp.value, sn.account));
      var _ := cache.UpdateOrder(target.clOrdID, target.orderID);
      return Ok(OrderUpdate(target.venueID, amount, prices.value.px, prices.value.aux, prices.value.trail,
                            Hidden(msg), PostOnly(msg), exp.value));
    }

    /** Acknowledgement or rejection of a new order. */
    method OnAck(o: VenueOrder, error: bool, text: string) returns (report: Report)
      modifies this, cache
      ensures Now() == Apply(sn, old(Now()), Ack(o, error))
      ensures report.ordStatus == (if error then Rejected else New)
      ensures !error ==> FormatInt(o.cid) in cache.orders
                         && (report.undisclosed <==> HasFlag(cache.orders[FormatInt(o.cid)].terms.flags, FLAG_HIDDEN))
      ensures TellsOf(sn, o, report) && report.cumQty == 0.0 && (error ==> report.text == text)
    {
      var clOrdID := FormatInt(o.cid);
      if !error {
        var updated := cache.UpdateOrder(clOrdID, FormatInt(o.id));
        if updated.None? {
          var _ := cache.AddOrder(clOrdID, Convert.TermsOfVenueOrder(o, sn.account, Convert.SideToFIX(o.amount)));
          var _ := cache.UpdateOrder(clOrdID, FormatInt(o.id));
        }
      }
      report := AckReport(o, error, text);
    }

    /** Acknowledgements carry neither flags nor a peg, so both are taken from the cached order. */
    method AckReport(o: VenueOrder, error: bool, text: string) returns (report: Report)
      ensures report.ordStatus == (if error then Rejected else New)
      ensures TellsOf(sn, o, report) && report.cumQty == 0.0 && report.text == (if error then text else "")
      ensures report.execType == (if error then ExecRejected else ExecNew)
      ensures FormatInt(o.cid) in cache.orders ==>
        var cached := cache.orders[FormatInt(o.cid)].terms;
        && (report.undisclosed <==> HasFlag(cached.flags, FLAG_HIDDEN))
        && (PARTICIPATE_DONT_INITIATE[0] in report.execInst <==> HasFlag(cached.flags, FLAG_POST_ONLY))
        && report.pegDifference == NonZero(if IsTrailing(o.typ) then cached.trail else 0.0)
      ensures FormatInt(o.cid) !in cache.orders ==>
        report.pegDifference == None && (report.undisclosed <==> HasFlag(o.flags, FLAG_HIDDEN))
      ensures report.stopPx == (if Convert.OrdTypeToFIX(o.typ).Stop? || Convert.OrdTypeToFIX(o.typ).StopLimit?
                                then NonZero(if IsTrailing(o.typ) then o.price else o.priceAuxLimit) else None)
    {
      var flags, peg, stop := o.flags, 0.0, o.priceAuxLimit;
      var orig := cache.LookupByClOrdID(FormatInt(o.cid));
      if orig.Some? {
        flags := orig.value.terms.flags;
      }
      if IsTrailing(o.typ) {
        if orig.Some? {
          peg := orig.value.terms.trail;
        }
        stop := o.price;
      }
      var symbol := ReportSymbol(sn.table, sn.counterparty, o.symbol);
      OrderReportTells(sn, o, if error then ExecRejected else ExecNew, 0.0, if error then Rejected else New,
                       if error then text else "", flags, stop, peg);
      report := OrderReport(o, symbol, sn.account, if error then ExecRejected else ExecNew, 0.0,
                            if error then Rejected else New, if error then text else "", flags, stop, peg);
    }

    /** A 'tu' message: look the order up, fall back to REST, record, report. */
    method OnTrade(t: TradeUpdate, rest: Option<VenueOrder>)
      returns (report: Option<Report>, ghost seen: string, ghost hit: string)
      modifies this, cache
      ensures var e := Trade(t, rest, seen, hit);
              Enabled(sn, old(Now()), e) && Now() == Apply(sn, old(Now()), e)
      ensures report.Some? <==> Accepts(old(cache.orders), t, rest, sn.account)
      ensures report.Some? ==> tradeReports == old(tradeReports) + [report.value]
      ensures report.None? ==> tradeReports == old(tradeReports)
      ensures report.Some? ==>
        && hit in cache.orders && cache.orders[hit].orderID == FormatInt(t.orderID)
        && AppendsExecution(if hit in old(cache.orders) && old(cache.orders)[hit].orderID == FormatInt(t.orderID)
                            then old(cache.orders)[hit].executions else [],
                            cache.orders[hit].executions, FormatInt(t.id), t.execPrice, t.execAmount)
    {
      hit := "";
      var orderID, execID := FormatInt(t.orderID), FormatInt(t.id);
      var cached;
      cached, seen := cache.LookupByOrderID(orderID);
      if cached.None? {
        if rest.None? {
          return None, seen, hit;
        }
        var os := rest.value;
        var clOrdID := FormatInt(os.cid);
        var _ := cache.AddOrder(clOrdID, Convert.TermsOfVenueOrder(os, sn.account, Convert.SideToFIX(t.execAmount)));
        cached := cache.UpdateOrder(clOrdID, FormatInt(os.id));
      }
      assert cache.orders == AfterFallback(old(cache.orders), t, rest, sn.account);
      var totals;
      totals, hit := cache.AddExecution(orderID, execID, t.execPrice, t.execAmount);
      if totals.None? {
        return None, seen, hit;
      }
      var symbol := ReportSymbol(sn.table, sn.counterparty, t.pair);
      var er := TradeReport(t, symbol, sn.account, cached.value.clOrdID, cached.value.terms, totals.value.0, totals.value.1);
      tradeReports := tradeReports + [er];
      fills := fills + [Fill(orderID, TradeExecution(t))];
      return Some(er), seen, hit;
    }

    /** An order status request, once REST has answered. */
    method OnStatus(answer: Option<VenueOrder>) returns (report: Option<Report>, ghost key: string)
      modifies this, cache
      ensures Now() == Apply(sn, old(Now()), StatusQuery(answer))
      ensures report.Some? <==> answer.Some?
      ensures report.Some? ==>
        var known := Known(old(cache.orders), FormatInt(answer.value.id));
        && (if known then Holds(old(cache.orders), FormatInt(answer.value.id), key) else key == FormatInt(answer.value.cid))
        && key in cache.orders
        && report.value.cumQty == TotalQty(cache.orders[key].executions)
        && (!known ==> report.value.cumQty == 0.0)
        && StatusReport(sn, answer.value, cache.orders[key].terms, report.value)
    {
      key := "";
      if answer.None? {
        return None, key;
      }
      var o := answer.value;
      var clOrdID := FormatInt(o.cid);
      var cached;
      cached, key := cache.LookupByOrderID(FormatInt(o.id));
      if cached.None? {
        var added := cache.AddOrder(clOrdID, Convert.TermsOfVenueOrder(o, sn.account, Convert.SideToFIX(o.amount)));
        cached := Some(added);
        key := clOrdID;
      }
      var filled := FilledQty(cached.value.executions);
      var terms := cached.value.terms;
      var symbol := ReportSymbol(sn.table, sn.counterparty, o.symbol);
      StatusReportTells(sn, o, filled, terms);
      report := Some(OrderReport(o, symbol, sn.account, ExecOrderStatus, filled, Convert.OrdStatusToFIX(o.status), "",
                                 terms.flags, terms.stop, terms.trail));
    }

    /** A cancel request was taken by the venue: report the order as pending cancel. */
    method OnPendingCancel(cid: int64, text: string) returns (report: Option<Report>)
      ensures report.Some? <==> FormatInt(cid) in cache.orders
      ensures report.Some? ==>
        var o := cache.orders[FormatInt(cid)];
        report.value == PendingCancelReport(ReportSymbol(sn.table, sn.counterparty, o.terms.symbol), o.clOrdID,
                                            o.orderID, o.terms, o.executions, text)
    {
      var orig := cache.LookupByClOrdID(FormatInt(cid));
      if orig.None? {
        return None;
      }
      var o := orig.value;
      var cumQty := FilledQty(o.executions);
      var avgPx := AvgFillPx(o.executions);
      var er := ExecutionReport(
        ReportSymbol(sn.table, sn.counterparty, o.terms.symbol), o.clOrdID, o.orderID, o.terms.account,
        ExecPendingCancel, o.terms.side, o.terms.qty, 0.0, cumQty, o.terms.px, o.terms.stop, o.terms.trail, avgPx,
        PendingCancel, o.terms.ordType, o.terms.isMargin, o.terms.tif, o.terms.tifExpiration, text, o.terms.flags);
      if o.terms.px > 0.0 {
        er := er.(price := Some(o.terms.px));
      }
      return Some(er);
    }

    /** An order left the venue's book; fills are left to the trade reports. */
    method OnOrderCancel(o: VenueOrder) returns (report: Option<Report>, ghost seen: string)
      ensures report.Some? ==>
        && Holds(cache.orders, FormatInt(o.id), seen)
        && report.value.cumQty == TotalQty(cache.orders[seen].executions)
        && TellsOf(sn, o, report.value)
        && report.value.text == o.status
        && report.value.pegDifference == NonZero(cache.orders[seen].terms.trail)
        && (report.value.undisclosed <==> HasFlag(cache.orders[seen].terms.flags, FLAG_HIDDEN))
        && (report.value.ordStatus == Canceled || report.value.ordStatus == New)
        && StatusSays(o.status, report.value)
        && (report.value.execType == ExecCanceled <==>
              Text.Contains(o.status, "CANCELED") && !Text.Contains(o.status, "ACTIVE"))
        && (report.value.execType == ExecNew <==> Text.Contains(o.status, "ACTIVE"))
        && (report.value.execType == ExecCanceled || report.value.execType == ExecNew
            || report.value.execType == ExecOrderStatus)
      ensures report.Some? <==>
        Known(cache.orders, FormatInt(o.id))
        && !Text.Contains(o.status, "EXECUTED") && !Text.Contains(o.status, "PARTIALLY FILLED")
    {
      var cached;
      cached, seen := cache.LookupByOrderID(FormatInt(o.id));
      if cached.None? {
        return None, seen;
      }
      var status := Convert.OrdStatusToFIX(o.status);
      if status == Filled || status == PartiallyFilled {
        return None, seen;
      }
      var filled := FilledQty(cached.value.executions);
      var symbol := ReportSymbol(sn.table, sn.counterparty, o.symbol);
      OrderReportTells(sn, o, Convert.ExecTypeToFIX(o.status), filled, status, o.status,
                       cached.value.terms.flags, 0.0, cached.value.terms.trail);
      report := Some(OrderReport(o, symbol, sn.account, Convert.ExecTypeToFIX(o.status), filled, status, o.status,
                                 cached.value.terms.flags, 0.0, cached.value.terms.trail));
    }
  }

  /** A report tells of a venue order: its ids, its size and side, and its symbol as the counterparty knows it. */
  ghost predicate TellsOf(sn: Session, o: VenueOrder, r: Report) {
    && ParseInt(r.orderID) == Some(o.id) && ParseInt(r.clOrdID) == Some(o.cid)
    && r.account == sn.account
    && (r.orderQty == o.amount || r.orderQty == -o.amount) && r.orderQty >= 0.0
    && (r.side == Buy <==> o.amount > 0.0) && (r.side == Sell <==> o.amount < 0.0)
    && r.avgPx == o.priceAvg
    && (forall s :: MayToBitfinex(sn.table, s, sn.counterparty, Some(o.symbol)) ==> r.symbol == s)
  }

  /** The answer to a status request: the venue's record, with the flags and the peg of the cached order. */
  ghost predicate StatusReport(sn: Session, o: VenueOrder, terms: Terms, r: Report) {
    && r.execType == ExecOrderStatus && TellsOf(sn, o, r) && StatusSays(o.status, r)
    && (r.undisclosed <==> HasFlag(terms.flags, FLAG_HIDDEN))
    && r.pegDifference == NonZero(terms.trail)
    && (r.ordType == Stop || r.ordType == StopLimit ==> r.stopPx == NonZero(terms.stop))
  }

  lemma StatusReportTells(sn: Session, o: VenueOrder, filled: real, terms: Terms)
    ensures StatusReport(sn, o, terms, OrderReport(
      o, ReportSymbol(sn.table, sn.counterparty, o.symbol), sn.account, ExecOrderStatus, filled,
      Convert.OrdStatusToFIX(o.status), "", terms.flags, terms.stop, terms.trail))
  {
    OrderReportTells(sn, o, ExecOrderStatus, filled, Convert.OrdStatusToFIX(o.status), "", terms.flags, terms.stop, terms.trail);
  }

  lemma OrderReportTells(
    sn: Session, o: VenueOrder, execType: ExecType, cumQty: real, status: OrdStatus, text: string, flags: int, stop: real, peg: real)
    ensures TellsOf(sn, o, OrderReport(o, ReportSymbol(sn.table, sn.counterparty, o.symbol), sn.account,
                                       execType, cumQty, status, text, flags, stop, peg))
  {
    ParseFormat(o.id);
    ParseFormat(o.cid);
  }

  /**
   What a report makes of the venue's status text: a text that tells of an execution means filled,
   whatever else it tells of, and a canceled order has nothing left to be executed.
   */
  ghost predicate StatusSays(status: string, r: Report) {
    && (r.ordStatus == Filled <==> Text.Contains(status, "EXECUTED"))
    && (r.ordStatus == PartiallyFilled <==> Text.Contains(status, "PARTIALLY FILLED") && !Text.Contains(status, "EXECUTED"))
    && (r.ordStatus == Canceled <==>
          Text.Contains(status, "CANCELED") && !Text.Contains(status, "PARTIALLY FILLED") && !Text.Contains(status, "EXECUTED"))
    && (r.ordStatus == New <==>
          !Text.Contains(status, "CANCELED") && !Text.Contains(status, "PARTIALLY FILLED") && !Text.Contains(status, "EXECUTED"))
    && r.leavesQty == (if r.ordStatus == Canceled then 0.0 else r.orderQty - r.cumQty)
  }

  predicate IsTrailing(typ: string) {
    Text.Contains(typ, "TRAILING")
  }
}
