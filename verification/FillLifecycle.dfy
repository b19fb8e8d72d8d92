/**
 The trade reports of one order over a whole run. Without replaces, quantities only accumulate,
 the status goes from partially filled to filled and never back, and the quantities of each
 report are those of the trades accepted so far. With replaces several entries share the order,
 and a report speaks of the one its execution went to; it is said when that makes no difference.
 */
module FillLifecycle {
  import opened Wrappers
  import opened DecimalText
  import opened FixTypes
  import opened Executions
  import opened OrderCache
  import opened OrderMessages
  import opened OrderEvents
  import opened OrderRuns
  import opened OrderTheorems
  import opened Reports
  import opened ReportLaws
  import opened SymbolMaster
  import Rounding

  lemma {:induction false} TotalQtyGrows(a: seq<Execution>, b: seq<Execution>)
    requires a <= b && NonNegative(b)
    ensures TotalQty(a) <= TotalQty(b)
  {
    assert b == a + b[|a|..];
    SumOfConcat(a, b[|a|..], QtyOf);
    TotalQtyNonNegative(b[|a|..]);
  }

  /** An entry accounts for at least what a report said of its order. */
  predicate Backs(o: CachedOrder, r: Report) {
    o.orderID == r.orderID && o.terms.qty == r.orderQty && r.cumQty <= TotalQty(o.executions)
  }

  predicate Backed(orders: Orders, r: Report) {
    exists k :: k in orders && Backs(orders[k], r)
  }

  predicate WellFormedReport(r: Report) {
    && r.orderID != ""
    && r.orderQty == r.cumQty + r.leavesQty
    && (r.ordStatus == Filled || r.ordStatus == PartiallyFilled)
    && (r.ordStatus == Filled <==> r.cumQty >= r.orderQty)
  }

  /** Two reports on one order, the earlier one first. */
  predicate Follows(r: Report, r': Report) {
    r.orderID == r'.orderID ==>
      && r.orderQty == r'.orderQty
      && r.cumQty <= r'.cumQty
      && (r.ordStatus == Filled ==> r'.ordStatus == Filled)
  }

  ghost predicate ReportsOk(orders: Orders, reports: seq<Report>) {
    && (forall i :: 0 <= i < |reports| ==> WellFormedReport(reports[i]) && Backed(orders, reports[i]))
    && (forall i, j :: 0 <= i < j < |reports| ==> Follows(reports[i], reports[j]))
  }

  lemma ReportsAppend(orders: Orders, reports: seq<Report>, r: Report)
    requires ReportsOk(orders, reports) && WellFormedReport(r) && Backed(orders, r)
    requires forall i :: 0 <= i < |reports| ==> Follows(reports[i], r)
    ensures ReportsOk(orders, reports + [r])
  {
  }

  /** What a report said stays accounted for. */
  lemma StepKeepsBacked(sn: Session, pairing: Pairing, s: State, e: Event, s': State, r: Report)
    requires Inv(pairing, s) && Inv(pairing, s') && Step(sn, pairing, s, e, s')
    requires r.orderID != "" && Backed(s.orders, r)
    ensures Backed(s'.orders, r)
  {
    var k :| k in s.orders && Backs(s.orders[k], r);
    StepStable(sn, pairing, s, e, s', k);
    assert EntryOk(pairing, k, s'.orders[k]);
    TotalQtyGrows(s.orders[k].executions, s'.orders[k].executions);
    assert Backs(s'.orders[k], r);
  }

  /** The report of an accepted trade speaks of the entry the execution went to. */
  lemma NewReport(sn: Session, pairing: Pairing, s: State, e: Event, s': State)
    requires OneToOne(pairing) && Inv(pairing, s) && AtPairedKeys(pairing, s.orders) && AtPairedKeys(pairing, s'.orders)
    requires Inv(pairing, s') && Step(sn, pairing, s, e, s')
    requires e.Trade? && Accepts(s.orders, e.t, e.rest, sn.account)
    ensures |s'.reports| == |s.reports| + 1 && s'.reports[..|s.reports|] == s.reports
    ensures var r := s'.reports[|s.reports|];
      && WellFormedReport(r)
      && r.orderID == FormatInt(e.t.orderID)
      && Holds(s'.orders, r.orderID, e.hit) && Backs(s'.orders[e.hit], r)
      && r.clOrdID == e.hit
      && r.cumQty == TotalQty(s'.orders[e.hit].executions)
      && r.avgPx == AveragePx(s'.orders[e.hit].executions)
  {
    var id := FormatInt(e.t.orderID);
    var fetched := AfterFallback(s.orders, e.t, e.rest, sn.account);
    var key := ReportedKey(s.orders, e.t, e.rest, e.seen);
    assert Holds(fetched, id, key) && Holds(fetched, id, e.hit);
    assert Holds(s'.orders, id, key) && Holds(s'.orders, id, e.hit);
    UniqueEntry(pairing, s'.orders, key, e.hit);
    assert EntryOk(pairing, key, s'.orders[key]);
  }

  /** A trade report shows the terms of its order and the symbol as the counterparty knows it. */
  ghost predicate ReportDescribes(sn: Session, orders: Orders, e: Event, r: Report)
    requires e.Trade?
  {
    && e.hit in orders && SameTerms(r, orders[e.hit].terms)
    && (forall s :: MayToBitfinex(sn.table, s, sn.counterparty, Some(e.t.pair)) ==> r.symbol == s)
  }

  ghost predicate IsReportOn(sn: Session, t: TradeUpdate, terms: Terms, r: Report) {
    var symbol := ReportSymbol(sn.table, sn.counterparty, t.pair);
    exists clOrdID, cumQty, avgPx :: r == TradeReport(t, symbol, sn.account, clOrdID, terms, cumQty, avgPx)
  }

  /** The entry reported and the one the execution went to are the same. */
  lemma ReportedIsHit(sn: Session, pairing: Pairing, s: State, e: Event, s': State)
    requires OneToOne(pairing) && Inv(pairing, s') && AtPairedKeys(pairing, s'.orders)
    requires Step(sn, pairing, s, e, s') && e.Trade? && Accepts(s.orders, e.t, e.rest, sn.account)
    ensures ReportedKey(s.orders, e.t, e.rest, e.seen) == e.hit && e.hit in s'.orders
    ensures |s'.reports| == |s.reports| + 1
    ensures IsReportOn(sn, e.t, s'.orders[e.hit].terms, s'.reports[|s.reports|])
  {
    var id := FormatInt(e.t.orderID);
    var fetched := AfterFallback(s.orders, e.t, e.rest, sn.account);
    var key := ReportedKey(s.orders, e.t, e.rest, e.seen);
    assert Holds(fetched, id, key) && Holds(fetched, id, e.hit);
    assert Holds(s'.orders, id, key) && Holds(s'.orders, id, e.hit);
    UniqueEntry(pairing, s'.orders, key, e.hit);
    assert s'.reports[|s.reports|] ==
      TradeReport(e.t, ReportSymbol(sn.table, sn.counterparty, e.t.pair), sn.account, fetched[key].clOrdID, s'.orders[e.hit].terms,
                  TotalQty(s'.orders[e.hit].executions), AveragePx(s'.orders[e.hit].executions));
  }

  lemma NewReportDescribes(sn: Session, pairing: Pairing, s: State, e: Event, s': State)
    requires OneToOne(pairing) && Inv(pairing, s') && AtPairedKeys(pairing, s'.orders)
    requires Step(sn, pairing, s, e, s') && e.Trade? && Accepts(s.orders, e.t, e.rest, sn.account)
    ensures |s'.reports| == |s.reports| + 1 && ReportDescribes(sn, s'.orders, e, s'.reports[|s.reports|])
  {
    ReportedIsHit(sn, pairing, s, e, s');
    TradeReportDescribes(sn, s'.orders, e, s'.reports[|s.reports|]);
  }

  lemma TradeReportDescribes(sn: Session, orders: Orders, e: Event, r: Report)
    requires e.Trade? && e.hit in orders
    requires IsReportOn(sn, e.t, orders[e.hit].terms, r)
    ensures ReportDescribes(sn, orders, e, r)
  {
    var symbol := ReportSymbol(sn.table, sn.counterparty, e.t.pair);
    var clOrdID, cumQty, avgPx :| r == TradeReport(e.t, symbol, sn.account, clOrdID, orders[e.hit].terms, cumQty, avgPx);
    TradeReportTells(e.t, symbol, sn.account, clOrdID, orders[e.hit].terms, cumQty, avgPx);
  }

  lemma OldReportsOk(sn: Session, pairing: Pairing, s: State, e: Event, s': State)
    requires ReportsOk(s.orders, s.reports)
    requires Inv(pairing, s) && Inv(pairing, s') && Step(sn, pairing, s, e, s')
    ensures ReportsOk(s'.orders, s.reports)
    ensures !(e.Trade? && Accepts(s.orders, e.t, e.rest, sn.account)) ==> s'.reports == s.reports
  {
    forall i | 0 <= i < |s.reports|
      ensures Backed(s'.orders, s.reports[i])
    {
      assert WellFormedReport(s.reports[i]);
      StepKeepsBacked(sn, pairing, s, e, s', s.reports[i]);
    }
  }

  lemma StepKeepsReports(sn: Session, pairing: Pairing, s: State, e: Event, s': State)
    requires OneToOne(pairing) && ReportsOk(s.orders, s.reports)
    requires Inv(pairing, s) && AtPairedKeys(pairing, s.orders)
    requires Inv(pairing, s') && AtPairedKeys(pairing, s'.orders)
    requires Step(sn, pairing, s, e, s')
    ensures ReportsOk(s'.orders, s'.reports)
  {
    OldReportsOk(sn, pairing, s, e, s');
    if e.Trade? && Accepts(s.orders, e.t, e.rest, sn.account) {
      NewReport(sn, pairing, s, e, s');
      var r := s'.reports[|s.reports|];
      NewReportsFollow(pairing, s'.orders, s.reports, e.hit, r);
      ReportsAppend(s'.orders, s.reports, r);
      assert s'.reports == s.reports + [r];
    }
  }

  lemma NewReportsFollow(pairing: Pairing, orders: Orders, reports: seq<Report>, hit: string, r: Report)
    requires OneToOne(pairing) && EntriesOk(pairing, orders) && AtPairedKeys(pairing, orders)
    requires ReportsOk(orders, reports)
    requires WellFormedReport(r) && Holds(orders, r.orderID, hit) && Backs(orders[hit], r)
    requires r.cumQty == TotalQty(orders[hit].executions)
    ensures forall i :: 0 <= i < |reports| ==> Follows(reports[i], r)
  {
    forall i | 0 <= i < |reports|
      ensures Follows(reports[i], r)
    {
      NewReportFollows(pairing, orders, hit, reports[i], r);
    }
  }

  lemma NewReportFollows(pairing: Pairing, orders: Orders, hit: string, r: Report, r': Report)
    requires OneToOne(pairing) && EntriesOk(pairing, orders) && AtPairedKeys(pairing, orders)
    requires WellFormedReport(r) && Backed(orders, r)
    requires WellFormedReport(r') && Holds(orders, r'.orderID, hit) && Backs(orders[hit], r')
    requires r'.cumQty == TotalQty(orders[hit].executions)
    ensures Follows(r, r')
  {
    if r.orderID == r'.orderID {
      var k :| k in orders && Backs(orders[k], r);
      UniqueEntry(pairing, orders, k, hit);
    }
  }

  lemma {:induction false} RunKeepsReports(sn: Session, pairing: Pairing, trace: seq<State>, events: seq<Event>, n: nat)
    requires Run(sn, pairing, trace, events) && ReplaceFree(events) && OneToOne(pairing) && n <= |events|
    ensures ReportsOk(trace[n].orders, trace[n].reports)
  {
    if n > 0 {
      RunKeepsReports(sn, pairing, trace, events, n - 1);
      RunKeepsInv(sn, pairing, trace, events, n - 1);
      RunKeepsInv(sn, pairing, trace, events, n);
      RunAtPairedKeys(sn, pairing, trace, events, n - 1);
      RunAtPairedKeys(sn, pairing, trace, events, n);
      assert StepAt(sn, pairing, trace, events, n - 1);
      StepKeepsReports(sn, pairing, trace[n - 1], events[n - 1], trace[n - 1 + 1]);
    }
  }

  lemma PrintedBalance(r: Report)
    ensures r.orderQty == r.cumQty + r.leavesQty ==>
              -1 <= Rounding.Units(r.orderQty) - (Rounding.Units(r.cumQty) + Rounding.Units(r.leavesQty)) <= 1
  {
    Rounding.PrintedSplit(r.orderQty, r.cumQty);
    assert r.orderQty == r.cumQty + r.leavesQty ==> r.orderQty - r.cumQty == r.leavesQty;
  }

  /**
   Over every replace-free run, any two trade reports of one order: the order quantity is the
   same, CumQty does not decrease, FILLED is never taken back, and each balances, exactly before
   printing and within one unit of the fourth decimal in print.
   */
  lemma Lifecycle(sn: Session, pairing: Pairing, trace: seq<State>, events: seq<Event>, n: nat, i: nat, j: nat)
    requires Run(sn, pairing, trace, events) && ReplaceFree(events) && OneToOne(pairing) && n <= |events|
    requires i < j < |trace[n].reports| && trace[n].reports[i].orderID == trace[n].reports[j].orderID
    ensures var r, r' := trace[n].reports[i], trace[n].reports[j];
      && r.orderQty == r'.orderQty
      && r.cumQty <= r'.cumQty
      && r'.leavesQty <= r.leavesQty
      && (r.ordStatus == Filled ==> r'.ordStatus == Filled)
      && (r'.ordStatus == PartiallyFilled ==> r.ordStatus == PartiallyFilled)
      && (r'.ordStatus == Filled <==> r'.leavesQty <= 0.0)
      && r'.orderQty == r'.cumQty + r'.leavesQty
      && -1 <= Rounding.Units(r'.orderQty) - (Rounding.Units(r'.cumQty) + Rounding.Units(r'.leavesQty)) <= 1
  {
    RunKeepsReports(sn, pairing, trace, events, n);
    PrintedBalance(trace[n].reports[j]);
    assert Follows(trace[n].reports[i], trace[n].reports[j]);
    assert WellFormedReport(trace[n].reports[i]) && WellFormedReport(trace[n].reports[j]);
  }

  /** Every accepted trade is reported once, with the totals of the trades accepted so far. */
  lemma ReportIsReplay(sn: Session, pairing: Pairing, trace: seq<State>, events: seq<Event>, n: nat, id: string)
    requires Run(sn, pairing, trace, events) && ReplaceFree(events) && OneToOne(pairing) && n < |events|
    requires AcceptedTrade(sn, trace[n], events[n], id)
    ensures |trace[n + 1].reports| == |trace[n].reports| + 1
    ensures var r := trace[n + 1].reports[|trace[n].reports|];
      var log := Replay(sn, trace, events, n + 1, id);
      && r.orderID == id && r.clOrdID == events[n].hit
      && ReportDescribes(sn, trace[n + 1].orders, events[n], r)
      && r.cumQty == TotalQty(log) && r.avgPx == AveragePx(log)
      && TotalsOfTrades(AcceptedTrades(sn, trace, events, n + 1, id), r.cumQty, r.avgPx)
  {
    RunKeepsInv(sn, pairing, trace, events, n);
    RunKeepsInv(sn, pairing, trace, events, n + 1);
    RunAtPairedKeys(sn, pairing, trace, events, n);
    RunAtPairedKeys(sn, pairing, trace, events, n + 1);
    assert StepAt(sn, pairing, trace, events, n);
    NewReport(sn, pairing, trace[n], events[n], trace[n + 1]);
    NewReportDescribes(sn, pairing, trace[n], events[n], trace[n + 1]);
    CacheRefinesLog(sn, pairing, trace, events, n + 1, events[n].hit);
  }

  /** The sum of the last shares of all trade reports on an order. */
  function SharesReported(reports: seq<Report>, id: string): (q: real) {
    if reports == [] then 0.0
    else
      var last := reports[|reports| - 1];
      SharesReported(reports[..|reports| - 1], id)
        + if last.orderID == id && last.lastShares.Some? then last.lastShares.value else 0.0
  }

  lemma StepShares(sn: Session, pairing: Pairing, s: State, e: Event, s': State, id: string)
    requires Step(sn, pairing, s, e, s')
    ensures SharesReported(s'.reports, id) == SharesReported(s.reports, id)
         + if AcceptedTrade(sn, s, e, id) then Abs(e.t.execAmount) else 0.0
  {
    if e.Trade? && Accepts(s.orders, e.t, e.rest, sn.account) {
      assert s'.reports[..|s.reports|] == s.reports;
    } else {
      assert s'.reports == s.reports;
    }
  }

  lemma RunStepShares(sn: Session, pairing: Pairing, trace: seq<State>, events: seq<Event>, i: nat, id: string)
    requires Run(sn, pairing, trace, events) && i < |events|
    ensures SharesReported(trace[i + 1].reports, id) - QtyOfTrades(AcceptedTrades(sn, trace, events, i + 1, id))
         == SharesReported(trace[i].reports, id) - QtyOfTrades(AcceptedTrades(sn, trace, events, i, id))
  {
    assert StepAt(sn, pairing, trace, events, i);
    StepShares(sn, pairing, trace[i], events[i], trace[i + 1], id);
    ReplayStep(sn, trace, events, i, id);
    if AcceptedTrade(sn, trace[i], events[i], id) {
      QtyOfTradesSnoc(AcceptedTrades(sn, trace, events, i, id), events[i].t);
    }
  }

  /** Over every run, replaces included, the last shares reported on an order add up to what was traded. */
  lemma {:induction false} SharesAddUp(sn: Session, pairing: Pairing, trace: seq<State>, events: seq<Event>, n: nat, id: string)
    requires Run(sn, pairing, trace, events) && n <= |events|
    ensures SharesReported(trace[n].reports, id) == QtyOfTrades(AcceptedTrades(sn, trace, events, n, id))
  {
    if n > 0 {
      SharesAddUp(sn, pairing, trace, events, n - 1, id);
      RunStepShares(sn, pairing, trace, events, n - 1, id);
    }
  }

  // ----- Several ClOrdIDs on one order -----

  /** Every accepted trade is reported once, with the totals of the entry its execution went to. */
  lemma ReportOfHit(sn: Session, pairing: Pairing, s: State, e: Event, s': State)
    requires Step(sn, pairing, s, e, s') && e.Trade? && Accepts(s.orders, e.t, e.rest, sn.account)
    ensures |s'.reports| == |s.reports| + 1
    ensures var id, r := FormatInt(e.t.orderID), s'.reports[|s.reports|];
      && r.orderID == id && Holds(s'.orders, id, e.hit)
      && r.cumQty == TotalQty(s'.orders[e.hit].executions)
  {
  }

  /** The other entries with the server id of a trade are those there were, and stay as they are. */
  lemma OthersUnchanged(sn: Session, pairing: Pairing, s: State, e: Event, s': State, j: string)
    requires Step(sn, pairing, s, e, s') && e.Trade? && Accepts(s.orders, e.t, e.rest, sn.account) && j != e.hit
    ensures var id := FormatInt(e.t.orderID);
      && (Holds(s'.orders, id, j) <==> Holds(s.orders, id, j))
      && (Holds(s.orders, id, j) ==> s'.orders[j].executions == s.orders[j].executions)
  {
    var id := FormatInt(e.t.orderID);
    var fetched := AfterFallback(s.orders, e.t, e.rest, sn.account);
    assert Holds(fetched, id, e.hit);
    if !Known(s.orders, id) {
      assert e.rest.Some? && e.hit == FormatInt(e.rest.value.cid);
    }
  }

  /** No entry other than the given one has filled anything of the order. */
  ghost predicate NothingElsewhere(orders: Orders, id: string, k: string) {
    forall j :: j in orders && j != k && Holds(orders, id, j) ==> TotalQty(orders[j].executions) == 0.0
  }

  lemma {:induction false} NothingFilledExactly(pairing: Pairing, orders: Orders, keys: set<string>, id: string)
    requires EntriesOk(pairing, orders) && keys <= orders.Keys
    ensures FilledSum(orders, keys, id) >= 0.0
    ensures FilledSum(orders, keys, id) == 0.0 <==>
            forall j :: j in keys && Holds(orders, id, j) ==> TotalQty(orders[j].executions) == 0.0
    decreases |keys|
  {
    if keys != {} {
      var c := Choose(keys);
      NothingFilledExactly(pairing, orders, keys - {c}, id);
      assert EntryOk(pairing, c, orders[c]);
      TotalQtyNonNegative(orders[c].executions);
      assert forall j :: j in keys <==> j in keys - {c} || j == c;
    }
  }

  /** What is filled under a server id, split into one entry and the others. */
  lemma FilledSplit(orders: Orders, k: string, id: string)
    requires Holds(orders, id, k)
    ensures TotalQty(Recorded(orders, id)) == FilledSum(orders, orders.Keys - {k}, id) + TotalQty(orders[k].executions)
  {
    var others := Pool(orders, orders.Keys - {k}, id);
    PoolSplit(orders, orders.Keys, k, id);
    TotalsOrderFree(Recorded(orders, id), others + orders[k].executions);
    SumOfConcat(others, orders[k].executions, QtyOf);
    FilledSumIsPooled(orders, orders.Keys - {k}, id);
  }

  lemma AllHereExactly(pairing: Pairing, orders: Orders, k: string, id: string)
    requires EntriesOk(pairing, orders) && Holds(orders, id, k)
    ensures TotalQty(orders[k].executions) == TotalQty(Recorded(orders, id)) <==> NothingElsewhere(orders, id, k)
  {
    FilledSplit(orders, k, id);
    NothingFilledExactly(pairing, orders, orders.Keys - {k}, id);
  }

  /**
   In every run, replaces included: CumQty of a trade report is the quantity of all trades accepted
   for the order exactly when no entry with its server id, other than the one the execution went to,
   had anything filled before.
   */
  lemma SharedReportExactly(sn: Session, pairing: Pairing, trace: seq<State>, events: seq<Event>, n: nat, id: string)
    requires Run(sn, pairing, trace, events) && n < |events| && AcceptedTrade(sn, trace[n], events[n], id)
    ensures |trace[n + 1].reports| == |trace[n].reports| + 1
    ensures var r := trace[n + 1].reports[|trace[n].reports|];
      r.cumQty == TotalQty(Replay(sn, trace, events, n + 1, id)) <==> NothingElsewhere(trace[n].orders, id, events[n].hit)
  {
    var s, e, s' := trace[n], events[n], trace[n + 1];
    assert StepAt(sn, pairing, trace, events, n);
    ReportOfHit(sn, pairing, s, e, s');
    forall j | j != e.hit
      ensures Holds(s'.orders, id, j) <==> Holds(s.orders, id, j)
      ensures Holds(s.orders, id, j) ==> s'.orders[j].executions == s.orders[j].executions
    {
      OthersUnchanged(sn, pairing, s, e, s', j);
    }
    RunKeepsInv(sn, pairing, trace, events, n + 1);
    Conservation(sn, pairing, trace, events, n + 1, id);
    TotalsOrderFree(Recorded(s'.orders, id), Replay(sn, trace, events, n + 1, id));
    AllHereExactly(pairing, s'.orders, e.hit, id);
  }

  /** Nothing but a trade accepted for its server id changes what an entry has filled. */
  lemma StepKeepsFilled(sn: Session, pairing: Pairing, s: State, e: Event, s': State, k: string, id: string)
    requires Inv(pairing, s) && Step(sn, pairing, s, e, s') && id != "" && Holds(s.orders, id, k)
    requires !AcceptedTrade(sn, s, e, id)
    ensures Holds(s'.orders, id, k) && s'.orders[k].executions == s.orders[k].executions
  {
    StepStable(sn, pairing, s, e, s', k);
  }

  lemma {:induction false} RunKeepsFilled(
    sn: Session, pairing: Pairing, trace: seq<State>, events: seq<Event>, m: nat, n: nat, k: string, id: string)
    requires Run(sn, pairing, trace, events) && m <= n <= |events| && id != "" && Holds(trace[m].orders, id, k)
    requires forall i :: m <= i < n ==> !AcceptedTrade(sn, trace[i], events[i], id)
    ensures Holds(trace[n].orders, id, k) && trace[n].orders[k].executions == trace[m].orders[k].executions
  {
    if m < n {
      RunKeepsFilled(sn, pairing, trace, events, m, n - 1, k, id);
      RunKeepsInv(sn, pairing, trace, events, n - 1);
      assert StepAt(sn, pairing, trace, events, n - 1);
      StepKeepsFilled(sn, pairing, trace[n - 1], events[n - 1], trace[n - 1 + 1], k, id);
    }
  }

  /** A trade on a known order adds its quantity to what the entry it goes to had filled. */
  lemma ReportOfKnown(sn: Session, pairing: Pairing, s: State, e: Event, s': State)
    requires Step(sn, pairing, s, e, s') && e.Trade? && Known(s.orders, FormatInt(e.t.orderID))
    ensures Holds(s.orders, FormatInt(e.t.orderID), e.hit) && |s'.reports| == |s.reports| + 1
    ensures s'.reports[|s.reports|].cumQty == TotalQty(s.orders[e.hit].executions) + Abs(e.t.execAmount)
  {
    SumOfAppend(s.orders[e.hit].executions, TradeExecution(e.t), QtyOf);
  }

  lemma RunReportOfHit(sn: Session, pairing: Pairing, trace: seq<State>, events: seq<Event>, i: nat, id: string)
    requires Run(sn, pairing, trace, events) && i < |events| && AcceptedTrade(sn, trace[i], events[i], id)
    ensures |trace[i + 1].reports| == |trace[i].reports| + 1 && Holds(trace[i + 1].orders, id, events[i].hit)
    ensures trace[i + 1].reports[|trace[i].reports|].cumQty == TotalQty(trace[i + 1].orders[events[i].hit].executions)
  {
    assert StepAt(sn, pairing, trace, events, i);
    ReportOfHit(sn, pairing, trace[i], events[i], trace[i + 1]);
  }

  lemma RunReportOfKnown(sn: Session, pairing: Pairing, trace: seq<State>, events: seq<Event>, i: nat, id: string)
    requires Run(sn, pairing, trace, events) && i < |events| && AcceptedTrade(sn, trace[i], events[i], id)
    requires Known(trace[i].orders, id)
    ensures |trace[i + 1].reports| == |trace[i].reports| + 1 && Holds(trace[i].orders, id, events[i].hit)
    ensures trace[i + 1].reports[|trace[i].reports|].cumQty
         == TotalQty(trace[i].orders[events[i].hit].executions) + Abs(events[i].t.execAmount)
  {
    assert StepAt(sn, pairing, trace, events, i);
    ReportOfKnown(sn, pairing, trace[i], events[i], trace[i + 1]);
  }

  /** The trades accepted by events m and n are consecutive ones on the order. */
  ghost predicate Consecutive(sn: Session, trace: seq<State>, events: seq<Event>, m: nat, n: nat, id: string)
    requires n < |events| < |trace|
  {
    && m < n && AcceptedTrade(sn, trace[m], events[m], id) && AcceptedTrade(sn, trace[n], events[n], id)
    && forall i :: m < i < n ==> !AcceptedTrade(sn, trace[i], events[i], id)
  }

  /**
   In every run, replaces included, for two consecutive trades on one order: CumQty does not fall
   from the first report to the second exactly when the entry the first execution went to has
   filled no more than the entry the second one goes to will have. It never falls when both go to
   one entry.
   */
  lemma CumQtyKeptExactly(sn: Session, pairing: Pairing, trace: seq<State>, events: seq<Event>, m: nat, n: nat, id: string)
    requires Run(sn, pairing, trace, events) && n < |events| && Consecutive(sn, trace, events, m, n, id)
    ensures |trace[m + 1].reports| == |trace[m].reports| + 1 && |trace[n + 1].reports| == |trace[n].reports| + 1
    ensures Holds(trace[n].orders, id, events[m].hit) && Holds(trace[n].orders, id, events[n].hit)
    ensures var r, r' := trace[m + 1].reports[|trace[m].reports|], trace[n + 1].reports[|trace[n].reports|];
      && (r.cumQty <= r'.cumQty <==>
            TotalQty(trace[n].orders[events[m].hit].executions)
              <= TotalQty(trace[n].orders[events[n].hit].executions) + Abs(events[n].t.execAmount))
      && (events[m].hit == events[n].hit ==> r.cumQty <= r'.cumQty)
  {
    RunReportOfHit(sn, pairing, trace, events, m, id);
    RunKeepsFilled(sn, pairing, trace, events, m + 1, n, events[m].hit, id);
    RunReportOfKnown(sn, pairing, trace, events, n, id);
  }

  /** A plain limit order, or the request to replace one. */
  function LimitBuy(clOrdID: string, orig: Option<string>, qty: real, px: real): (msg: OrderMessage) {
    OrderMessage(Some(clOrdID), orig, None, Some("tBTCUSD"), Some(Buy), Some(Limit), Some(qty), Some(px), None, None, None,
                 None, None, None, None, None, Absent)
  }

  lemma RunSnoc(sn: Session, pairing: Pairing, trace: seq<State>, events: seq<Event>, e: Event, s': State)
    requires Run(sn, pairing, trace, events) && Step(sn, pairing, trace[|events|], e, s')
    ensures Run(sn, pairing, trace + [s'], events + [e])
  {
    var trace', events' := trace + [s'], events + [e];
    forall i | 0 <= i < |events'|
      ensures StepAt(sn, pairing, trace', events', i)
    {
      assert i < |events| ==> StepAt(sn, pairing, trace, events, i);
    }
  }

  lemma LimitBuyEntered(sn: Session, pairing: Pairing, k: string, qty: real, px: real) returns (s': State)
    ensures Step(sn, pairing, INITIAL, NewOrder(LimitBuy(k, None, qty, px), None), s')
    ensures s'.orders.Keys == {k} && s'.orders[k].executions == [] && s'.reports == []
  {
    s' := Apply(sn, INITIAL, NewOrder(LimitBuy(k, None, qty, px), None));
  }

  lemma LimitBuyAccepted(orders: Orders, account: string, k: string, id: int64, other: int64, qty: real, px: real)
    requires k in orders && orders[k].orderID == FormatInt(id) && Canonical(k)
    ensures var r := AcceptReplace(orders, LimitBuy(FormatInt(other), Some(k), qty, px), account);
      r.Ok? && r.value.clOrdID == FormatInt(other) && r.value.orderID == FormatInt(id)
  {
    LimitBuyTarget(orders, k, id, other, LimitBuy(FormatInt(other), Some(k), qty, px));
  }

  lemma LimitBuyTarget(orders: Orders, k: string, id: int64, other: int64, msg: OrderMessage)
    requires k in orders && orders[k].orderID == FormatInt(id) && Canonical(k)
    requires msg.clOrdID == Some(FormatInt(other)) && msg.origClOrdID == Some(k) && msg.orderID == None
    ensures ReplaceTarget(orders, msg) == Ok(Target(FormatInt(other), k, FormatInt(id), id))
  {
    ParseFormat(id);
    ParseFormat(other);
    ParsedCanonical(k);
  }

  lemma LimitBuyReplaced(
    sn: Session, pairing: Pairing, s: State, k: string, id: int64, other: int64, qty: real, px: real) returns (s': State)
    requires k in s.orders && s.orders[k].orderID == FormatInt(id) && Canonical(k)
    requires FormatInt(other) !in s.orders && Agrees(pairing, FormatInt(other), FormatInt(id))
    ensures Step(sn, pairing, s, Replace(LimitBuy(FormatInt(other), Some(k), qty, px)), s')
    ensures s'.reports == s.reports && Holds(s'.orders, FormatInt(id), FormatInt(other))
    ensures s'.orders[FormatInt(other)].executions == []
  {
    LimitBuyAccepted(s.orders, sn.account, k, id, other, qty, px);
    s' := Apply(sn, s, Replace(LimitBuy(FormatInt(other), Some(k), qty, px)));
  }

  lemma TradeOn(sn: Session, pairing: Pairing, s: State, t: TradeUpdate, hit: string) returns (s': State)
    requires Holds(s.orders, FormatInt(t.orderID), hit) && s.orders[hit].executions == []
    ensures Step(sn, pairing, s, Trade(t, None, hit, hit), s')
    ensures s'.orders == WithExecution(s.orders, hit, TradeExecution(t))
    ensures |s'.reports| == |s.reports| + 1 && s.reports <= s'.reports
    ensures var r := s'.reports[|s.reports|]; r.orderID == FormatInt(t.orderID) && r.cumQty == Abs(t.execAmount)
  {
    var id := FormatInt(t.orderID);
    assert Known(s.orders, id);
    s' := Apply(sn, s, Trade(t, None, hit, hit));
    assert s'.orders[hit].executions == [TradeExecution(t)];
    SumOfAppend([], TradeExecution(t), QtyOf);
    assert [] + [TradeExecution(t)] == [TradeExecution(t)];
  }

  /** A limit order is entered, acknowledged and has its first fill. */
  lemma OneFill(sn: Session, pairing: Pairing, o: VenueOrder, qty: real, px: real, t: TradeUpdate)
    returns (trace: seq<State>, events: seq<Event>)
    requires t.orderID == o.id && Pairs(pairing, o)
    ensures Run(sn, pairing, trace, events) && |events| == 3
    ensures trace[3].orders.Keys == {FormatInt(o.cid)} && Holds(trace[3].orders, FormatInt(o.id), FormatInt(o.cid))
    ensures |trace[3].reports| == 1 && trace[3].reports[0].orderID == FormatInt(o.id)
    ensures trace[3].reports[0].cumQty == Abs(t.execAmount)
  {
    var k := FormatInt(o.cid);
    var entered := LimitBuyEntered(sn, pairing, k, qty, px);
    trace, events := [INITIAL], [];
    RunSnoc(sn, pairing, trace, events, NewOrder(LimitBuy(k, None, qty, px), None), entered);
    trace, events := trace + [entered], events + [NewOrder(LimitBuy(k, None, qty, px), None)];
    var acked := entered.(orders := WithOrderID(entered.orders, k, FormatInt(o.id)));
    RunSnoc(sn, pairing, trace, events, Ack(o, false), acked);
    trace, events := trace + [acked], events + [Ack(o, false)];
    var filled := TradeOn(sn, pairing, acked, t, k);
    RunSnoc(sn, pairing, trace, events, Trade(t, None, k, k), filled);
    trace, events := trace + [filled], events + [Trade(t, None, k, k)];
  }

  /**
   After a replace, a trade may be recorded in the entry of the replacement, which knows nothing of
   what was filled before: the next report then tells of a smaller quantity than the last one.
   */
  lemma CumQtyCanFall(
    sn: Session, o: VenueOrder, other: int64, qty: real, px: real, t: TradeUpdate, t': TradeUpdate)
    returns (trace: seq<State>, events: seq<Event>)
    requires other != o.cid && t.orderID == t'.orderID == o.id && Abs(t'.execAmount) < Abs(t.execAmount)
    ensures Run(sn, map[o.cid as int := o.id as int], trace, events) && |events| == 5
    ensures |trace[5].reports| == 2 && trace[5].reports[0].orderID == trace[5].reports[1].orderID
    ensures trace[5].reports[1].cumQty < trace[5].reports[0].cumQty
  {
    var pairing: Pairing := map[o.cid as int := o.id as int];
    var k, k' := FormatInt(o.cid), FormatInt(other);
    if k == k' {
      FormatInjective(o.cid, other);
    }
    PrintedIsCanonical(o.cid);
    trace, events := OneFill(sn, pairing, o, qty, px, t);
    var replaced := LimitBuyReplaced(sn, pairing, trace[3], k, o.id, other, qty, px);
    RunSnoc(sn, pairing, trace, events, Replace(LimitBuy(k', Some(k), qty, px)), replaced);
    trace, events := trace + [replaced], events + [Replace(LimitBuy(k', Some(k), qty, px))];
    var filled := TradeOn(sn, pairing, replaced, t', k');
    RunSnoc(sn, pairing, trace, events, Trade(t', None, k', k'), filled);
    trace, events := trace + [filled], events + [Trade(t', None, k', k')];
  }
}
