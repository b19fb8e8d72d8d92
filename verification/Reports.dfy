/**
 Execution reports (convert/fix_msg.go). One abstract report stands for the FIX 4.2, 4.4 and
 5.0 messages; quantities are kept exact and `Rounding` says what their printed form is.
 */
module Reports {
  import opened Wrappers
  import opened DecimalText
  import opened FixTypes
  import opened Executions
  import Convert
  import Rounding

  const PRIMARY_PEG := "R"
  const PARTICIPATE_DONT_INITIATE := "6"

  datatype Report = Report(
    orderID: string, clOrdID: string, account: string, execType: ExecType, ordStatus: OrdStatus,
    symbol: string, side: Side, leavesQty: real, cumQty: real, avgPx: real, lastShares: Option<real>,
    orderQty: real, text: string, marginClose: bool, ordType: OrdType, price: Option<real>,
    stopPx: Option<real>, pegDifference: Option<real>, undisclosed: bool, execInst: string,
    tif: TimeInForce, expiration: Option<int>)

  /** Order states in which nothing remains to be executed whatever has been filled. */
  predicate Terminal(status: OrdStatus) {
    status.Canceled? || status.DoneForDay? || status.Expired? || status.Replaced? || status.Stopped? || status.Suspended?
  }

  function LeavesQty(status: OrdStatus, orderQty: real, cumQty: real): (leaves: real) {
    if Terminal(status) then 0.0 else orderQty - cumQty
  }

  function NonZero(x: real): (r: Option<real>) {
    if x != 0.0 then Some(x) else None
  }

  function ExecInstOf(trail: real, flags: int): (s: string) {
    (if trail != 0.0 then PRIMARY_PEG else "") +
    (if HasFlag(flags, FLAG_POST_ONLY) then PARTICIPATE_DONT_INITIATE else "")
  }

  function ExecutionReport(
    symbol: string, clOrdID: string, orderID: string, account: string, execType: ExecType, side: Side,
    origQty: real, thisQty: real, cumQty: real, px: real, stop: real, trail: real, avgPx: real,
    ordStatus: OrdStatus, ordType: OrdType, isMargin: bool, tif: TimeInForce, exp: int, text: string, flags: int)
    : (r: Report)
  {
    Report(
      orderID, clOrdID, account, execType, ordStatus, symbol, side,
      LeavesQty(ordStatus, origQty, cumQty), cumQty, avgPx, NonZero(thisQty), origQty, text, isMargin, ordType,
      if ordType.Limit? || ordType.StopLimit? then NonZero(px) else None,
      if ordType.Stop? || ordType.StopLimit? then NonZero(stop) else None,
      NonZero(trail), HasFlag(flags, FLAG_HIDDEN), ExecInstOf(trail, flags), tif,
      if tif.GoodTillDate? then Some(exp) else None)
  }

  /** The report sent for one 'tu' message. */
  function TradeReport(
    t: TradeUpdate, symbol: string, account: string, clOrdID: string, terms: Terms, cumQty: real, avgPx: real)
    : (r: Report)
  {
    var filled := cumQty >= terms.qty;
    ExecutionReport(
      symbol, clOrdID, FormatInt(t.orderID), account,
      if filled then ExecFill else ExecPartialFill, Convert.SideToFIX(t.execAmount),
      terms.qty, Abs(t.execAmount), cumQty, terms.px, terms.stop, terms.trail, avgPx,
      if filled then Filled else PartiallyFilled, Convert.OrdTypeToFIX(t.orderType),
      Convert.IsMarginType(t.orderType), Convert.TimeInForceToFIX(t.orderType, terms.tifExpiration),
      terms.tifExpiration, "", terms.flags)
  }

  /** The report sent when the venue has taken a cancel request for a cached order. */
  function PendingCancelReport(
    symbol: string, clOrdID: string, orderID: string, terms: Terms, es: seq<Execution>, text: string): (r: Report)
  {
    var er := ExecutionReport(
      symbol, clOrdID, orderID, terms.account, ExecPendingCancel, terms.side, terms.qty, 0.0,
      TotalQty(es), terms.px, terms.stop, terms.trail, AveragePx(es), PendingCancel, terms.ordType,
      terms.isMargin, terms.tif, terms.tifExpiration, text, terms.flags);
    if terms.px > 0.0 then er.(price := Some(terms.px)) else er
  }

  /** Reports built from an order object of the venue. */
  function OrderReport(
    o: VenueOrder, symbol: string, account: string, execType: ExecType, cumQty: real, ordStatus: OrdStatus,
    text: string, flags: int, stop: real, peg: real): (r: Report)
  {
    var er := ExecutionReport(
      symbol, FormatInt(o.cid), FormatInt(o.id), account, execType, Convert.SideToFIX(o.amount),
      Abs(o.amount), 0.0, cumQty, o.price, stop, peg, o.priceAvg, ordStatus, Convert.OrdTypeToFIX(o.typ),
      Convert.IsMarginType(o.typ), Convert.TimeInForceToFIX(o.typ, o.mtsTif), o.mtsTif, text, flags);
    er.(lastShares := Some(0.0))
  }

  /** The average price of a trade report is printed between the printed prices of the executions behind it. */
  lemma AvgPxPrintedBetween(
    t: TradeUpdate, symbol: string, account: string, clOrdID: string, terms: Terms, es: seq<Execution>, lo: real, hi: real)
    requires NonNegative(es) && TotalQty(es) > 0.0
    requires forall i :: 0 <= i < |es| && es[i].qty > 0.0 ==> lo <= es[i].px <= hi
    ensures var r := TradeReport(t, symbol, account, clOrdID, terms, TotalQty(es), AveragePx(es));
      && Rounding.Cents(lo) <= Rounding.Cents(r.avgPx) <= Rounding.Cents(hi)
      && -0.5 <= Rounding.Cents(r.avgPx) as real - AveragePx(es) * 100.0 <= 0.5
  {
    Rounding.CentsNear(AveragePx(es));
    AverageBetween(es, lo, hi);
    Rounding.CentsBetween(lo, AveragePx(es), hi);
  }

  /**
   Quantities of a trade report: exact before printing, within one unit of the fourth decimal
   in print, and without overfill nothing remains exactly when the order is reported filled.
   */
  lemma TradeReportBalances(
    t: TradeUpdate, symbol: string, account: string, clOrdID: string, terms: Terms, cumQty: real, avgPx: real)
    ensures var r := TradeReport(t, symbol, account, clOrdID, terms, cumQty, avgPx);
      && r.orderQty == r.cumQty + r.leavesQty
      && -1 <= Rounding.Units(r.orderQty) - (Rounding.Units(r.cumQty) + Rounding.Units(r.leavesQty)) <= 1
      && (r.ordStatus == Filled || r.ordStatus == PartiallyFilled)
      && (r.ordStatus == Filled <==> r.leavesQty <= 0.0)
      && (cumQty <= terms.qty ==> r.leavesQty >= 0.0 && (r.leavesQty == 0.0 <==> r.ordStatus == Filled))
  {
    Rounding.PrintedSplit(terms.qty, cumQty);
  }
}
