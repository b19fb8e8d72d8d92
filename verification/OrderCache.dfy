/**
 The per-peer cache (service/peer/cache.go): orders by ClOrdID, and the two maps that tie
 FIX market data request ids to symbols and to websocket subscription ids. Go ranges over a
 map in an unspecified order, so each scan below takes its next key arbitrarily.
 */
module OrderCache {
  import opened Wrappers
  import opened FixTypes
  import opened Executions

  datatype CachedOrder = CachedOrder(clOrdID: string, orderID: string, terms: Terms, executions: seq<Execution>)

  type Orders = map<string, CachedOrder>

  datatype SubIDs = SubIDs(marketData: string, trade: string)

  /** A newly cached order: no server id yet, no executions, an unsigned quantity. */
  function Entered(clOrdID: string, terms: Terms): (o: CachedOrder) {
    CachedOrder(clOrdID, "", terms.(qty := Abs(terms.qty)), [])
  }

  predicate Holds(orders: Orders, orderID: string, k: string) {
    k in orders && orders[k].orderID == orderID
  }

  predicate Known(orders: Orders, orderID: string) {
    exists k :: k in orders && Holds(orders, orderID, k)
  }

  function WithOrderID(orders: Orders, clOrdID: string, orderID: string): (r: Orders) {
    if clOrdID in orders then orders[clOrdID := orders[clOrdID].(orderID := orderID)] else orders
  }

  function WithExecution(orders: Orders, k: string, e: Execution): (r: Orders)
    requires k in orders
  {
    orders[k := orders[k].(executions := orders[k].executions + [e])]
  }

  /** The execution recorded for a trade: quantities are unsigned, the side is the order's. */
  function ExecutionOf(id: string, px: real, qty: real): (e: Execution)
    ensures e.qty >= 0.0
  {
    Execution(id, px, Abs(qty))
  }

  /** One execution was added at the end: its id, its price, and how much was traded. */
  predicate AppendsExecution(before: seq<Execution>, after: seq<Execution>, execID: string, px: real, qty: real) {
    && |after| == |before| + 1 && before <= after
    && var e := after[|before|];
       e.id == execID && e.px == px && (if qty < 0.0 then e.qty == -qty else e.qty == qty)
  }

  class Cache {
    var orders: Orders
    var mdReqIDs: map<string, SubIDs>
    var symbolToReqID: map<string, string>

    constructor ()
      ensures orders == map[] && mdReqIDs == map[] && symbolToReqID == map[]
    {
      orders, mdReqIDs, symbolToReqID := map[], map[], map[];
    }

    method AddOrder(clOrdID: string, terms: Terms) returns (order: CachedOrder)
      modifies this`orders
      ensures order == Entered(clOrdID, terms)
      ensures orders == old(orders)[clOrdID := order]
    {
      var qty := terms.qty;
      if qty < 0.0 {
        qty := -qty;
      }
      order := CachedOrder(clOrdID, "", terms.(qty := qty), []);
      orders := orders[clOrdID := order];
    }

    method UpdateOrder(clOrdID: string, orderID: string) returns (r: Option<CachedOrder>)
      modifies this`orders
      ensures orders == WithOrderID(old(orders), clOrdID, orderID)
      ensures r.Some? <==> clOrdID in old(orders)
      ensures r.Some? ==> r.value == orders[clOrdID]
    {
      if clOrdID in orders {
        var order := orders[clOrdID].(orderID := orderID);
        orders := orders[clOrdID := order];
        return Some(order);
      }
      return None;
    }

    /**
     Records an execution in some order with the given server id and returns that order's
     totals; fails, changing nothing, exactly when no order has the id.
     */
    method AddExecution(orderID: string, execID: string, px: real, qty: real)
      returns (r: Option<(real, real)>, ghost hit: string)
      modifies this`orders
      ensures r.Some? <==> Known(old(orders), orderID)
      ensures r.None? ==> orders == old(orders)
      ensures r.Some? ==>
        && Holds(old(orders), orderID, hit)
        && orders.Keys == old(orders).Keys
        && (forall k :: k in orders && k != hit ==> orders[k] == old(orders)[k])
        && orders[hit].(executions := []) == old(orders)[hit].(executions := [])
        && AppendsExecution(old(orders)[hit].executions, orders[hit].executions, execID, px, qty)
        && orders == WithExecution(old(orders), hit, ExecutionOf(execID, px, qty))
        && r.value == (TotalQty(orders[hit].executions), AveragePx(orders[hit].executions))
    {
      hit := "";
      var unseen := orders.Keys;
      while unseen != {}
        invariant unseen <= orders.Keys
        invariant orders == old(orders)
        invariant forall k :: k in orders && k !in unseen ==> !Holds(orders, orderID, k)
      {
        var k :| k in unseen;
        if orders[k].orderID == orderID {
          var e := ExecutionOf(execID, px, qty);
          var es := orders[k].executions + [e];
          orders := orders[k := orders[k].(executions := es)];
          var filled := FilledQty(es);
          var avg := AvgFillPx(es);
          assert Holds(old(orders), orderID, k);
          return Some((filled, avg)), k;
        }
        unseen := unseen - {k};
      }
      return None, hit;
    }

    method LookupByClOrdID(clOrdID: string) returns (r: Option<CachedOrder>)
      ensures r.Some? <==> clOrdID in orders
      ensures r.Some? ==> r.value == orders[clOrdID]
    {
      if clOrdID in orders {
        return Some(orders[clOrdID]);
      }
      return None;
    }

    /** Finds the key of some order with the given server id, or establishes that there is none. */
    method LookupClOrdID(orderID: string) returns (r: Option<string>)
      ensures r.Some? <==> Known(orders, orderID)
      ensures r.Some? ==> Holds(orders, orderID, r.value)
    {
      var unseen := orders.Keys;
      while unseen != {}
        invariant unseen <= orders.Keys
        invariant forall k :: k in orders && k !in unseen ==> !Holds(orders, orderID, k)
      {
        var k :| k in unseen;
        if orders[k].orderID == orderID {
          assert Holds(orders, orderID, k);
          return Some(k);
        }
        unseen := unseen - {k};
      }
      return None;
    }

    method LookupByOrderID(orderID: string) returns (r: Option<CachedOrder>, ghost seen: string)
      ensures r.Some? <==> Known(orders, orderID)
      ensures r.Some? ==> Holds(orders, orderID, seen) && r.value == orders[seen]
    {
      var k := LookupClOrdID(orderID);
      match k
      case Some(key) => return Some(orders[key]), key;
      case None => return None, "";
    }

    /** Stats: the client id, the order quantity and the two fill totals of an order. */
    method Stats(clOrdID: string) returns (r: Option<(string, real, real, real)>)
      ensures r.Some? <==> clOrdID in orders
      ensures r.Some? ==>
        var o := orders[clOrdID];
        r.value == (o.clOrdID, o.terms.qty, TotalQty(o.executions), AveragePx(o.executions))
    {
      if clOrdID !in orders {
        return None;
      }
      var o := orders[clOrdID];
      var filled := FilledQty(o.executions);
      var avg := AvgFillPx(o.executions);
      return Some((o.clOrdID, o.terms.qty, filled, avg));
    }

    method MapSymbolToReqID(symbol: string, mdReqID: string)
      modifies this`symbolToReqID
      ensures symbolToReqID == old(symbolToReqID)[symbol := mdReqID]
    {
      symbolToReqID := symbolToReqID[symbol := mdReqID];
    }

    method LookupMDReqID(symbol: string) returns (r: Option<string>)
      ensures r.Some? <==> symbol in symbolToReqID
      ensures r.Some? ==> r.value == symbolToReqID[symbol]
    {
      if symbol in symbolToReqID {
        return Some(symbolToReqID[symbol]);
      }
      return None;
    }

    method MDReqIDExists(mdReqID: string) returns (found: bool)
      ensures found <==> mdReqID in symbolToReqID.Values
    {
      var unseen := symbolToReqID.Keys;
      while unseen != {}
        invariant unseen <= symbolToReqID.Keys
        invariant forall s :: s in symbolToReqID && s !in unseen ==> symbolToReqID[s] != mdReqID
      {
        var s :| s in unseen;
        if symbolToReqID[s] == mdReqID {
          return true;
        }
        unseen := unseen - {s};
      }
      return false;
    }

    method MapMDReqIDs(mdReqID: string, bookReqID: string, tradeReqID: string)
      modifies this`mdReqIDs
      ensures mdReqIDs == old(mdReqIDs)[mdReqID := SubIDs(bookReqID, tradeReqID)]
    {
      mdReqIDs := mdReqIDs[mdReqID := SubIDs(bookReqID, tradeReqID)];
    }

    method LookupAPIReqIDs(mdReqID: string) returns (r: Option<SubIDs>)
      ensures r.Some? <==> mdReqID in mdReqIDs
      ensures r.Some? ==> r.value == mdReqIDs[mdReqID]
    {
      if mdReqID in mdReqIDs {
        return Some(mdReqIDs[mdReqID]);
      }
      return None;
    }

    /** Finds some request that uses the given subscription id, or establishes that none does. */
    method ReverseLookupAPIReqIDs(subID: string) returns (r: Option<string>)
      ensures r.Some? ==> r.value in mdReqIDs && Uses(mdReqIDs[r.value], subID)
      ensures r.None? ==> forall q :: q in mdReqIDs ==> !Uses(mdReqIDs[q], subID)
    {
      var unseen := mdReqIDs.Keys;
      while unseen != {}
        invariant unseen <= mdReqIDs.Keys
        invariant forall q :: q in mdReqIDs && q !in unseen ==> !Uses(mdReqIDs[q], subID)
      {
        var q :| q in unseen;
        if mdReqIDs[q].marketData == subID || mdReqIDs[q].trade == subID {
          return Some(q);
        }
        unseen := unseen - {q};
      }
      return None;
    }
  }

  predicate Uses(ids: SubIDs, subID: string) {
    ids.marketData == subID || ids.trade == subID
  }
}
