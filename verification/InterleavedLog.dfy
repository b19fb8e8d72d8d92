/**
 The single entries of the order cache under concurrency: over interleavings without replaces,
 each entry with a server id holds exactly what was taken on for that id and neither lost nor
 still in hand.
 */
module InterleavedLog {
  import opened Executions
  import opened OrderCache
  import opened OrderRuns
  import opened OrderTheorems
  import opened CacheInterleavings

  predicate NoReplacements(actions: seq<Action>) {
    forall i :: 0 <= i < |actions| ==> !actions[i].ReplaceAdd?
  }

  ghost predicate KeyedByVenue(pairing: Pairing, w: World) {
    AtPairedKeys(pairing, w.orders) && !w.client.ReplaceAdded?
  }

  lemma StepKeyedByVenue(account: string, pairing: Pairing, w: World, a: Action, w': World)
    requires WorldOk(pairing, w) && CacheInterleavings.Step(account, pairing, w, a, w')
    requires KeyedByVenue(pairing, w) && !a.ReplaceAdd?
    ensures KeyedByVenue(pairing, w')
  {
    match a
    case AckUpdate(o) => assert IsPairedKey(pairing, Key(o));
    case AckSetID => assert IsPairedKey(pairing, Key(w.service.o));
    case TradeSetID => assert IsPairedKey(pairing, Key(w.service.o));
    case _ =>
  }

  lemma {:induction false} RunKeyedByVenue(
    account: string, pairing: Pairing, trace: seq<World>, actions: seq<Action>, n: nat)
    requires CacheInterleavings.Run(account, pairing, trace, actions) && NoReplacements(actions) && n <= |actions|
    ensures KeyedByVenue(pairing, trace[n])
  {
    if n > 0 {
      RunKeyedByVenue(account, pairing, trace, actions, n - 1);
      InterleavedInv(account, pairing, trace, actions, n - 1);
      assert CacheInterleavings.StepAt(account, pairing, trace, actions, n - 1);
      StepKeyedByVenue(account, pairing, trace[n - 1], actions[n - 1], trace[n - 1 + 1]);
    }
  }

  lemma EntryRecordsAll(account: string, pairing: Pairing, trace: seq<World>, actions: seq<Action>, n: nat, k: string)
    requires CacheInterleavings.Run(account, pairing, trace, actions) && n <= |actions|
    requires NoReplacements(actions) && OneToOne(pairing)
    requires k in trace[n].orders && trace[n].orders[k].orderID != ""
    ensures multiset(Recorded(trace[n].orders, trace[n].orders[k].orderID)) == multiset(trace[n].orders[k].executions)
  {
    var orders := trace[n].orders;
    InterleavedInv(account, pairing, trace, actions, n);
    RunKeyedByVenue(account, pairing, trace, actions, n);
    forall j | Holds(orders, orders[k].orderID, j)
      ensures j == k
    {
      UniqueEntry(pairing, orders, j, k);
    }
    RecordedAlone(orders, k, orders[k].orderID);
  }

  /** Over all interleavings without replaces, whatever is lost: the account of one entry. */
  lemma EntryAccountedFor(account: string, pairing: Pairing, trace: seq<World>, actions: seq<Action>, n: nat, k: string)
    requires CacheInterleavings.Run(account, pairing, trace, actions) && n <= |actions|
    requires NoReplacements(actions) && OneToOne(pairing)
    requires k in trace[n].orders && trace[n].orders[k].orderID != ""
    ensures var o := trace[n].orders[k];
      multiset(o.executions) + InHand(trace[n], o.orderID) + Lost(trace, actions, n, o.orderID)
        == Taken(trace, actions, n, o.orderID)
  {
    EntryRecordsAll(account, pairing, trace, actions, n, k);
    EveryTradeAccountedFor(account, pairing, trace, actions, n, trace[n].orders[k].orderID);
  }

  /**
   The counterpart of `CacheRefinesLog`: without a harmful insertion, each entry's executions and
   both its totals are, but for a trade in hand, those of the trades taken on for its server id.
   */
  lemma InterleavedRefinesLog(account: string, pairing: Pairing, trace: seq<World>, actions: seq<Action>, n: nat, k: string)
    requires CacheInterleavings.Run(account, pairing, trace, actions) && n <= |actions|
    requires NoReplacements(actions) && OneToOne(pairing) && NoneHarmful(trace, actions, n)
    requires k in trace[n].orders && trace[n].orders[k].orderID != ""
    ensures var o := trace[n].orders[k];
      && multiset(o.executions) + InHand(trace[n], o.orderID) == Taken(trace, actions, n, o.orderID)
      && forall log :: multiset(log) == Taken(trace, actions, n, o.orderID) - InHand(trace[n], o.orderID) ==>
           TotalQty(o.executions) == TotalQty(log) && AveragePx(o.executions) == AveragePx(log)
  {
    var o := trace[n].orders[k];
    EntryRecordsAll(account, pairing, trace, actions, n, k);
    InterleavedConservation(account, pairing, trace, actions, n, o.orderID);
    forall log | multiset(log) == Taken(trace, actions, n, o.orderID) - InHand(trace[n], o.orderID)
      ensures TotalQty(o.executions) == TotalQty(log) && AveragePx(o.executions) == AveragePx(log)
    {
      assert multiset(o.executions) == multiset(log);
      TotalsOrderFree(o.executions, log);
    }
  }
}
