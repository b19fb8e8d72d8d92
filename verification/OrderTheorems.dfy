/**
 The main results about runs of the order cache: conservation of executions, refinement of
 the event log, stability of acknowledged entries, and replace chains.
 */
module OrderTheorems {
  import opened Wrappers
  import opened DecimalText
  import opened FixTypes
  import opened Executions
  import opened OrderCache
  import opened OrderMessages
  import opened OrderEvents
  import opened OrderRuns
  import Convert

  // ----- Replaying the event log -----

  /** The event was a trade for the given server id, and the gateway accepted it. */
  predicate AcceptedTrade(sn: Session, s: State, e: Event, id: string) {
    e.Trade? && FormatInt(e.t.orderID) == id && Accepts(s.orders, e.t, e.rest, sn.account)
  }

  /** Which of the first n events are accepted trades for the given server id. */
  function Verdicts(sn: Session, trace: seq<State>, events: seq<Event>, n: nat, id: string): (accepted: seq<bool>)
    requires n <= |events| < |trace|
    ensures |accepted| == n
    ensures forall i :: 0 <= i < n ==> (accepted[i] <==> AcceptedTrade(sn, trace[i], events[i], id))
  {
    seq(n, i requires 0 <= i < n => AcceptedTrade(sn, trace[i], events[i], id))
  }

  function Picked(events: seq<Event>, accepted: seq<bool>): (ts: seq<TradeUpdate>)
    requires |accepted| <= |events| && forall i :: 0 <= i < |accepted| && accepted[i] ==> events[i].Trade?
  {
    if accepted == [] then []
    else
      var last := |accepted| - 1;
      Picked(events, accepted[..last]) + if accepted[last] then [events[last].t] else []
  }

  /** The trade messages accepted for a server id among the first n events. */
  function AcceptedTrades(sn: Session, trace: seq<State>, events: seq<Event>, n: nat, id: string): (ts: seq<TradeUpdate>)
    requires n <= |events| < |trace|
  {
    Picked(events, Verdicts(sn, trace, events, n, id))
  }

  function Recordings(ts: seq<TradeUpdate>): (es: seq<Execution>) {
    if ts == [] then [] else Recordings(ts[..|ts| - 1]) + [TradeExecution(ts[|ts| - 1])]
  }

  /** Their executions. */
  function Replay(sn: Session, trace: seq<State>, events: seq<Event>, n: nat, id: string): (es: seq<Execution>)
    requires n <= |events| < |trace|
  {
    Recordings(AcceptedTrades(sn, trace, events, n, id))
  }

  lemma RecordingsSnoc(ts: seq<TradeUpdate>, t: TradeUpdate)
    ensures Recordings(ts + [t]) == Recordings(ts) + [TradeExecution(t)]
  {
    assert (ts + [t])[..|ts|] == ts;
  }

  lemma PickedSnoc(events: seq<Event>, accepted: seq<bool>, last: bool)
    requires |accepted| < |events| && forall i :: 0 <= i < |accepted| && accepted[i] ==> events[i].Trade?
    requires last ==> events[|accepted|].Trade?
    ensures Picked(events, accepted + [last])
         == if last then Picked(events, accepted) + [events[|accepted|].t] else Picked(events, accepted)
  {
    assert (accepted + [last])[..|accepted|] == accepted;
  }

  lemma TradesStep(sn: Session, trace: seq<State>, events: seq<Event>, n: nat, id: string, last: bool)
    requires n < |events| < |trace| && (last <==> AcceptedTrade(sn, trace[n], events[n], id))
    ensures AcceptedTrades(sn, trace, events, n + 1, id)
         == if last then AcceptedTrades(sn, trace, events, n, id) + [events[n].t] else AcceptedTrades(sn, trace, events, n, id)
  {
    PickedSnoc(events, Verdicts(sn, trace, events, n, id), last);
    assert Verdicts(sn, trace, events, n + 1, id) == Verdicts(sn, trace, events, n, id) + [last];
  }

  lemma ReplayStep(sn: Session, trace: seq<State>, events: seq<Event>, n: nat, id: string)
    requires n < |events| < |trace|
    ensures if AcceptedTrade(sn, trace[n], events[n], id) then
        && Replay(sn, trace, events, n + 1, id) == Replay(sn, trace, events, n, id) + [TradeExecution(events[n].t)]
        && AcceptedTrades(sn, trace, events, n + 1, id) == AcceptedTrades(sn, trace, events, n, id) + [events[n].t]
      else
        && Replay(sn, trace, events, n + 1, id) == Replay(sn, trace, events, n, id)
        && AcceptedTrades(sn, trace, events, n + 1, id) == AcceptedTrades(sn, trace, events, n, id)
  {
    var last := AcceptedTrade(sn, trace[n], events[n], id);
    TradesStep(sn, trace, events, n, id, last);
    if last {
      RecordingsSnoc(AcceptedTrades(sn, trace, events, n, id), events[n].t);
    }
  }

  lemma RunStepFills(sn: Session, pairing: Pairing, trace: seq<State>, events: seq<Event>, i: nat, id: string)
    returns (more: seq<Execution>)
    requires Run(sn, pairing, trace, events) && i < |events|
    ensures FillsOf(trace[i + 1].fills, id) == FillsOf(trace[i].fills, id) + more
    ensures Replay(sn, trace, events, i + 1, id) == Replay(sn, trace, events, i, id) + more
  {
    assert StepAt(sn, pairing, trace, events, i);
    StepFills(sn, pairing, trace[i], events[i], trace[i + 1], id);
    ReplayStep(sn, trace, events, i, id);
    more := if AcceptedTrade(sn, trace[i], events[i], id) then [TradeExecution(events[i].t)] else [];
  }

  lemma {:induction false} FillsAreReplay(sn: Session, pairing: Pairing, trace: seq<State>, events: seq<Event>, n: nat, id: string)
    requires Run(sn, pairing, trace, events) && n <= |events|
    ensures FillsOf(trace[n].fills, id) == Replay(sn, trace, events, n, id)
  {
    if n > 0 {
      FillsAreReplay(sn, pairing, trace, events, n - 1, id);
      var more := RunStepFills(sn, pairing, trace, events, n - 1, id);
    }
  }

  lemma StepFills(sn: Session, pairing: Pairing, s: State, e: Event, s': State, id: string)
    requires Step(sn, pairing, s, e, s')
    ensures FillsOf(s'.fills, id)
         == FillsOf(s.fills, id) + if AcceptedTrade(sn, s, e, id) then [TradeExecution(e.t)] else []
  {
    if e.Trade? && Accepts(s.orders, e.t, e.rest, sn.account) {
      FillsOfAppend(s.fills, Fill(FormatInt(e.t.orderID), TradeExecution(e.t)), id);
    } else {
      assert s'.fills == s.fills;
    }
  }

  /** With an honest venue a trade is refused only when its order is unknown and REST fails. */
  lemma AcceptedExactly(sn: Session, pairing: Pairing, s: State, t: TradeUpdate, rest: Option<VenueOrder>, seen: string, hit: string)
    requires Fair(sn, pairing, s, Trade(t, rest, seen, hit))
    ensures Accepts(s.orders, t, rest, sn.account) <==> Known(s.orders, FormatInt(t.orderID)) || rest.Some?
  {
    if !Known(s.orders, FormatInt(t.orderID)) && rest.Some? {
      assert Holds(AfterFallback(s.orders, t, rest, sn.account), FormatInt(t.orderID), FormatInt(rest.value.cid));
    }
  }

  /** A sum over trade messages. */
  function SumOfTrades(ts: seq<TradeUpdate>, f: TradeUpdate -> real): (total: real) {
    if ts == [] then 0.0 else SumOfTrades(ts[..|ts| - 1], f) + f(ts[|ts| - 1])
  }

  function TradedQty(t: TradeUpdate): real {
    Abs(t.execAmount)
  }

  function TradedCost(t: TradeUpdate): real {
    t.execPrice * Abs(t.execAmount)
  }

  /** How much was traded, from the trade messages themselves. */
  function QtyOfTrades(ts: seq<TradeUpdate>): (q: real) {
    SumOfTrades(ts, TradedQty)
  }

  /** What was paid for it. */
  function CostOfTrades(ts: seq<TradeUpdate>): (c: real) {
    SumOfTrades(ts, TradedCost)
  }

  lemma {:induction false} RecordingSum(ts: seq<TradeUpdate>, f: Execution -> real, g: TradeUpdate -> real)
    requires forall t: TradeUpdate :: f(TradeExecution(t)) == g(t)
    ensures Sum(Recordings(ts), f) == SumOfTrades(ts, g)
  {
    if ts != [] {
      var init, t := ts[..|ts| - 1], ts[|ts| - 1];
      RecordingSum(init, f, g);
      SumOfAppend(Recordings(init), TradeExecution(t), f);
    }
  }

  lemma RecordingTotals(ts: seq<TradeUpdate>)
    ensures TotalQty(Recordings(ts)) == QtyOfTrades(ts)
    ensures TotalCost(Recordings(ts)) == CostOfTrades(ts)
  {
    forall t: TradeUpdate
      ensures QtyOf(TradeExecution(t)) == TradedQty(t) && CostOf(TradeExecution(t)) == TradedCost(t)
    {
    }
    RecordingSum(ts, QtyOf, TradedQty);
    RecordingSum(ts, CostOf, TradedCost);
  }

  lemma QtyOfTradesSnoc(ts: seq<TradeUpdate>, t: TradeUpdate)
    ensures QtyOfTrades(ts + [t]) == QtyOfTrades(ts) + Abs(t.execAmount)
  {
    assert (ts + [t])[..|ts|] == ts;
  }

  /** A filled quantity and an average price are those of the given trades. */
  predicate TotalsOfTrades(ts: seq<TradeUpdate>, filled: real, avg: real) {
    filled == QtyOfTrades(ts) && IsAverage(avg, QtyOfTrades(ts), CostOfTrades(ts))
  }

  lemma ReplayHasTotals(sn: Session, trace: seq<State>, events: seq<Event>, n: nat, id: string)
    requires n <= |events| < |trace|
    ensures var log := Replay(sn, trace, events, n, id);
      TotalsOfTrades(AcceptedTrades(sn, trace, events, n, id), TotalQty(log), AveragePx(log))
  {
    RecordingTotals(AcceptedTrades(sn, trace, events, n, id));
    var ts := AcceptedTrades(sn, trace, events, n, id);
    AverageOfSame(Replay(sn, trace, events, n, id), QtyOfTrades(ts), CostOfTrades(ts));
  }

  // ----- Conservation -----

  /** The sum of the filled quantities of all entries with a server id. */
  ghost function FilledSum(orders: Orders, keys: set<string>, id: string): (q: real)
    requires keys <= orders.Keys
    decreases |keys|
  {
    if keys == {} then 0.0
    else
      var k := Choose(keys);
      FilledSum(orders, keys - {k}, id) + if orders[k].orderID == id then TotalQty(orders[k].executions) else 0.0
  }

  lemma {:induction false} FilledSumIsPooled(orders: Orders, keys: set<string>, id: string)
    requires keys <= orders.Keys
    ensures FilledSum(orders, keys, id) == TotalQty(Pool(orders, keys, id))
    decreases |keys|
  {
    if keys != {} {
      var k := Choose(keys);
      FilledSumIsPooled(orders, keys - {k}, id);
      SumOfConcat(Pool(orders, keys - {k}, id), Share(orders[k], id), QtyOf);
    }
  }

  /**
   In every run, replaces included: the executions recorded over all entries with a server id
   are, as a multiset, those of the trades accepted for it, and so are the filled quantities,
   whichever entries the scans found.
   */
  lemma Conservation(sn: Session, pairing: Pairing, trace: seq<State>, events: seq<Event>, n: nat, id: string)
    requires Run(sn, pairing, trace, events) && n <= |events| && id != ""
    ensures multiset(Recorded(trace[n].orders, id)) == multiset(Replay(sn, trace, events, n, id))
    ensures FilledSum(trace[n].orders, trace[n].orders.Keys, id) == TotalQty(Replay(sn, trace, events, n, id))
         == QtyOfTrades(AcceptedTrades(sn, trace, events, n, id))
  {
    RunKeepsInv(sn, pairing, trace, events, n);
    FillsAreReplay(sn, pairing, trace, events, n, id);
    FilledSumIsPooled(trace[n].orders, trace[n].orders.Keys, id);
    TotalsOrderFree(Recorded(trace[n].orders, id), Replay(sn, trace, events, n, id));
    RecordingTotals(AcceptedTrades(sn, trace, events, n, id));
  }

  /** Overwriting an entry keeps the books straight exactly when both entries record the same. */
  lemma OverwriteExactly(s: State, k: string, o: CachedOrder)
    requires Conserved(s)
    ensures Conserved(s.(orders := s.orders[k := o])) <==>
            forall id :: id != "" ==> multiset(Share(o, id)) == multiset(if k in s.orders then Share(s.orders[k], id) else [])
  {
    var after := s.(orders := s.orders[k := o]);
    forall id | id != ""
      ensures multiset(Recorded(after.orders, id)) == multiset(FillsOf(s.fills, id)) <==>
              multiset(Share(o, id)) == multiset(if k in s.orders then Share(s.orders[k], id) else [])
    {
      RecordedAfterPut(s.orders, k, o, id);
      var was := multiset(if k in s.orders then Share(s.orders[k], id) else []);
      BalanceExactly(multiset(Recorded(after.orders, id)), was, multiset(Recorded(s.orders, id)), multiset(Share(o, id)));
    }
    if Conserved(after) {
      forall id | id != ""
        ensures multiset(Share(o, id)) == multiset(if k in s.orders then Share(s.orders[k], id) else [])
      {
        assert multiset(Recorded(after.orders, id)) == multiset(FillsOf(s.fills, id));
      }
    }
  }

  lemma BalanceExactly<T>(a: multiset<T>, x: multiset<T>, b: multiset<T>, y: multiset<T>)
    requires a + x == b + y
    ensures a == b <==> x == y
  {
    if a == b {
      assert x == (a + x) - a && y == (b + y) - b;
    }
    if x == y {
      assert a == (a + x) - x && b == (b + y) - y;
    }
  }

  /** AddOrder, which overwrites silently, discards nothing exactly when the key holds no executions. */
  lemma AddOrderSafeExactly(pairing: Pairing, s: State, k: string, terms: Terms)
    requires Inv(pairing, s)
    ensures Conserved(s.(orders := s.orders[k := Entered(k, terms)])) <==> (k in s.orders ==> s.orders[k].executions == [])
  {
    OverwriteExactly(s, k, Entered(k, terms));
    if k in s.orders {
      var id := s.orders[k].orderID;
      assert EntryOk(pairing, k, s.orders[k]);
      assert Share(s.orders[k], id) == s.orders[k].executions;
      assert Share(Entered(k, terms), id) == [];
      if s.orders[k].executions != [] {
        assert s.orders[k].executions[0] in multiset(Share(s.orders[k], id));
      }
    }
  }

  /**
   The status request looks an order up and inserts it in two separate steps. If the first
   trade of the order is handled between them, the insertion discards that trade: the cache
   before it had no entry for the order, and after it the trade is recorded nowhere.
   */
  lemma SplitStatusRequestLosesTrade(sn: Session, t: TradeUpdate, o: VenueOrder)
    requires o.id == t.orderID
    ensures var k := FormatInt(o.cid);
      var e := Trade(t, Some(o), "", k);
      && !Known(INITIAL.orders, FormatInt(o.id))
      && Enabled(sn, INITIAL, e)
      && var s := Apply(sn, INITIAL, e);
         var late := Entered(k, Convert.TermsOfVenueOrder(o, sn.account, Convert.SideToFIX(o.amount)));
         Conserved(s) && !Conserved(s.(orders := s.orders[k := late]))
  {
    var k := FormatInt(o.cid);
    var e := Trade(t, Some(o), "", k);
    var pairing: Pairing := map[o.cid as int := o.id as int];
    var entry := VenueEntry(o, sn.account, Convert.SideToFIX(t.execAmount));
    assert AfterFallback(INITIAL.orders, t, Some(o), sn.account) == map[k := entry];
    assert Holds(map[k := entry], FormatInt(o.id), k);
    var s := Apply(sn, INITIAL, e);
    assert s.orders[k].executions == [TradeExecution(t)];
    InitialInv(pairing);
    StepKeepsInv(sn, pairing, INITIAL, e, s);
    AddOrderSafeExactly(pairing, s, k, Convert.TermsOfVenueOrder(o, sn.account, Convert.SideToFIX(o.amount)));
  }

  // ----- The cache refines the event log -----

  predicate ReplaceFree(events: seq<Event>) {
    forall i :: 0 <= i < |events| ==> !events[i].Replace?
  }

  ghost predicate OneToOne(pairing: Pairing) {
    forall a, b :: a in pairing && b in pairing && pairing[a] == pairing[b] ==> a == b
  }

  /** Every entry with a server id sits at the client id the venue paired it with. */
  ghost predicate AtPairedKeys(pairing: Pairing, orders: Orders) {
    forall k :: k in orders && orders[k].orderID != "" ==> IsPairedKey(pairing, k)
  }

  ghost predicate IsPairedKey(pairing: Pairing, k: string) {
    exists cid :: cid in pairing && FormatInt(cid) == k
  }

  lemma StepAtPairedKeys(sn: Session, pairing: Pairing, s: State, e: Event, s': State)
    requires AtPairedKeys(pairing, s.orders) && !e.Replace? && Step(sn, pairing, s, e, s')
    ensures AtPairedKeys(pairing, s'.orders)
  {
    match e
    case Ack(o, error) =>
      assert error || IsPairedKey(pairing, FormatInt(o.cid));
    case Trade(t, rest, seen, hit) =>
      assert rest.Some? ==> IsPairedKey(pairing, FormatInt(rest.value.cid));
    case _ =>
  }

  lemma {:induction false} RunAtPairedKeys(sn: Session, pairing: Pairing, trace: seq<State>, events: seq<Event>, n: nat)
    requires Run(sn, pairing, trace, events) && ReplaceFree(events) && n <= |events|
    ensures AtPairedKeys(pairing, trace[n].orders)
  {
    if n > 0 {
      RunAtPairedKeys(sn, pairing, trace, events, n - 1);
      assert StepAt(sn, pairing, trace, events, n - 1);
      StepAtPairedKeys(sn, pairing, trace[n - 1], events[n - 1], trace[n]);
    }
  }

  /** No two entries share a server id. */
  lemma UniqueEntry(pairing: Pairing, orders: Orders, j: string, k: string)
    requires OneToOne(pairing) && EntriesOk(pairing, orders) && AtPairedKeys(pairing, orders)
    requires j in orders && k in orders && orders[j].orderID == orders[k].orderID != ""
    ensures j == k
  {
    var a :| a in pairing && FormatInt(a) == j;
    var b :| b in pairing && FormatInt(b) == k;
    assert Agrees(pairing, j, orders[j].orderID) && Agrees(pairing, k, orders[k].orderID);
    FormatInjective(pairing[a], pairing[b]);
  }

  /** When one entry alone has a server id, what is recorded under the id is what it records. */
  lemma RecordedAlone(orders: Orders, k: string, id: string)
    requires Holds(orders, id, k)
    requires forall j :: Holds(orders, id, j) ==> j == k
    ensures multiset(Recorded(orders, id)) == multiset(orders[k].executions)
  {
    PoolSplit(orders, orders.Keys, k, id);
    assert forall j :: j in orders.Keys - {k} ==> !Holds(orders, id, j);
    PoolEmpty(orders, orders.Keys - {k}, id);
  }

  /**
   In every replace-free run in which the venue pairs client ids and order ids one to one, the
   fill totals of every entry are those recomputed from the accepted trades of its server id:
   neither the REST fallback nor a late acknowledgement nor a status request loses one.
   */
  lemma CacheRefinesLog(sn: Session, pairing: Pairing, trace: seq<State>, events: seq<Event>, n: nat, k: string)
    requires Run(sn, pairing, trace, events) && ReplaceFree(events) && OneToOne(pairing) && n <= |events|
    requires k in trace[n].orders && trace[n].orders[k].orderID != ""
    ensures var o := trace[n].orders[k];
      var log := Replay(sn, trace, events, n, o.orderID);
      && multiset(o.executions) == multiset(log)
      && TotalQty(o.executions) == TotalQty(log)
      && AveragePx(o.executions) == AveragePx(log)
      && TotalsOfTrades(AcceptedTrades(sn, trace, events, n, o.orderID), TotalQty(o.executions), AveragePx(o.executions))
  {
    var s := trace[n];
    var id := s.orders[k].orderID;
    RunKeepsInv(sn, pairing, trace, events, n);
    RunAtPairedKeys(sn, pairing, trace, events, n);
    Conservation(sn, pairing, trace, events, n, id);
    forall j | Holds(s.orders, id, j)
      ensures j == k
    {
      UniqueEntry(pairing, s.orders, j, k);
    }
    RecordedAlone(s.orders, k, id);
    TotalsOrderFree(s.orders[k].executions, Replay(sn, trace, events, n, id));
    ReplayHasTotals(sn, trace, events, n, id);
  }

  /** Every server id for which a trade was ever accepted has an entry. */
  lemma AcceptedHasEntry(sn: Session, pairing: Pairing, trace: seq<State>, events: seq<Event>, n: nat, id: string)
    requires Run(sn, pairing, trace, events) && n <= |events| && id != ""
    requires Replay(sn, trace, events, n, id) != []
    ensures Known(trace[n].orders, id)
  {
    Conservation(sn, pairing, trace, events, n, id);
    var es := Replay(sn, trace, events, n, id);
    assert es[0] in multiset(es);
    RecordedHasEntry(trace[n].orders, trace[n].orders.Keys, id);
  }

  lemma {:induction false} RecordedHasEntry(orders: Orders, keys: set<string>, id: string)
    requires keys <= orders.Keys && Pool(orders, keys, id) != []
    ensures Known(orders, id)
    decreases |keys|
  {
    var k := Choose(keys);
    if Holds(orders, id, k) {
    } else {
      RecordedHasEntry(orders, keys - {k}, id);
    }
  }

  // ----- Stability of acknowledged entries -----

  /** Nothing about the order changed except that executions were appended. */
  predicate Grows(o: CachedOrder, o': CachedOrder) {
    o' == o.(executions := o'.executions) && o.executions <= o'.executions
  }

  /** An entry at a key the venue uses is not touched on behalf of an order it does not know. */
  lemma UnknownElsewhere(pairing: Pairing, orders: Orders, o: VenueOrder, k: string)
    requires EntriesOk(pairing, orders) && Pairs(pairing, o) && !Known(orders, FormatInt(o.id))
    requires k in orders && orders[k].orderID != ""
    ensures k != FormatInt(o.cid)
  {
    UnknownHasNone(pairing, orders, o);
  }

  lemma TradeStable(sn: Session, pairing: Pairing, s: State, e: Event, k: string)
    requires e.Trade? && Inv(pairing, s) && Enabled(sn, s, e) && Fair(sn, pairing, s, e)
    requires k in s.orders && s.orders[k].orderID != ""
    ensures var s' := AfterTrade(sn, s, e.t, e.rest, e.seen, e.hit);
            k in s'.orders && Grows(s.orders[k], s'.orders[k])
  {
    if !Known(s.orders, FormatInt(e.t.orderID)) && e.rest.Some? {
      UnknownElsewhere(pairing, s.orders, e.rest.value, k);
    }
    var fetched := AfterFallback(s.orders, e.t, e.rest, sn.account);
    assert k in fetched && fetched[k] == s.orders[k];
  }

  lemma StepStable(sn: Session, pairing: Pairing, s: State, e: Event, s': State, k: string)
    requires Inv(pairing, s) && Step(sn, pairing, s, e, s')
    requires k in s.orders && s.orders[k].orderID != ""
    ensures k in s'.orders && Grows(s.orders[k], s'.orders[k])
  {
    match e
    case Ack(o, error) =>
      if !error {
        PairedKey(pairing, s.orders, o);
      }
    case Trade(t, rest, seen, hit) => TradeStable(sn, pairing, s, e, k);
    case StatusQuery(answer) =>
      if answer.Some? && !Known(s.orders, FormatInt(answer.value.id)) {
        UnknownElsewhere(pairing, s.orders, answer.value, k);
      }
    case _ =>
  }

  lemma RunStepStable(sn: Session, pairing: Pairing, trace: seq<State>, events: seq<Event>, i: nat, k: string)
    requires Run(sn, pairing, trace, events) && i < |events|
    requires k in trace[i].orders && trace[i].orders[k].orderID != ""
    ensures k in trace[i + 1].orders && Grows(trace[i].orders[k], trace[i + 1].orders[k])
  {
    RunKeepsInv(sn, pairing, trace, events, i);
    assert StepAt(sn, pairing, trace, events, i);
    StepStable(sn, pairing, trace[i], events[i], trace[i + 1], k);
  }

  /** Once an entry has its server id, its terms never change for the rest of the run. */
  lemma {:induction false} RunStable(sn: Session, pairing: Pairing, trace: seq<State>, events: seq<Event>, m: nat, n: nat, k: string)
    requires Run(sn, pairing, trace, events) && m <= n <= |events|
    requires k in trace[m].orders && trace[m].orders[k].orderID != ""
    ensures k in trace[n].orders && Grows(trace[m].orders[k], trace[n].orders[k])
  {
    if m < n {
      RunStable(sn, pairing, trace, events, m, n - 1, k);
      RunStepStable(sn, pairing, trace, events, n - 1, k);
      GrowsTransitive(trace[m].orders[k], trace[n - 1].orders[k], trace[n].orders[k]);
    }
  }

  lemma GrowsTransitive(a: CachedOrder, b: CachedOrder, c: CachedOrder)
    requires Grows(a, b) && Grows(b, c)
    ensures Grows(a, c)
  {
  }

  // ----- Replace chains -----

  /** A replacement takes side, symbol and margin from the cached order, the size from the message. */
  lemma ReplacementOf(orders: Orders, msg: OrderMessage, account: string, p: Replacement)
    requires AcceptReplace(orders, msg, account) == Ok(p)
    ensures p.origClOrdID in orders && msg.origClOrdID == Some(p.origClOrdID) && msg.clOrdID == Some(p.clOrdID)
    ensures p.orderID == orders[p.origClOrdID].orderID && ParseInt(p.orderID) == Some(p.venueID)
    ensures var o := orders[p.origClOrdID].terms;
      && p.terms.side == o.side && p.terms.symbol == o.symbol && p.terms.isMargin == o.isMargin
      && msg.qty == Some(if o.side.Sell? then -p.amount else p.amount)
      && p.terms.qty == p.amount
  {
  }

  lemma ParsedCanonical(text: string)
    requires Canonical(text)
    ensures ParseInt(text).Some? && FormatInt(ParseInt(text).value) == text
  {
    FormatParseExactly(text);
  }

  /**
   An accepted replace targets a cached order whose server id is the one sent upstream, and the
   sign of the amount follows the cached side; a rejected one changes nothing.
   */
  lemma ReplaceTargets(sn: Session, pairing: Pairing, s: State, msg: OrderMessage)
    requires Inv(pairing, s)
    ensures var r := AcceptReplace(s.orders, msg, sn.account);
      if r.Err? then Apply(sn, s, Replace(msg)) == s
      else
        && r.value.origClOrdID in s.orders
        && var o := s.orders[r.value.origClOrdID];
           && o.orderID == r.value.orderID == FormatInt(r.value.venueID)
           && SameOrder(o, AfterReplace(s.orders, r.value)[r.value.clOrdID])
           && msg.qty == Some(if o.terms.side.Sell? then -r.value.amount else r.value.amount)
  {
    var r := AcceptReplace(s.orders, msg, sn.account);
    if r.Ok? {
      ReplacementOf(s.orders, msg, sn.account, r.value);
      assert EntryOk(pairing, r.value.origClOrdID, s.orders[r.value.origClOrdID]);
      ParsedCanonical(r.value.orderID);
    }
  }

  /** The given ClOrdID replaced the other one by an accepted request among the first n events. */
  ghost predicate Link(sn: Session, trace: seq<State>, events: seq<Event>, n: nat, orig: string, next: string)
    requires n <= |events| < |trace|
  {
    exists j :: 0 <= j < n && LinkAt(sn, trace[j], events[j], orig, next)
  }

  predicate LinkAt(sn: Session, s: State, e: Event, orig: string, next: string) {
    && e.Replace?
    && var r := AcceptReplace(s.orders, e.msg, sn.account);
       r.Ok? && r.value.origClOrdID == orig && r.value.clOrdID == next
  }

  predicate SameOrder(a: CachedOrder, b: CachedOrder) {
    && a.orderID == b.orderID
    && a.terms.symbol == b.terms.symbol
    && a.terms.side == b.terms.side
    && a.terms.isMargin == b.terms.isMargin
  }

  lemma LinkKeepsOrder(sn: Session, pairing: Pairing, trace: seq<State>, events: seq<Event>, n: nat, orig: string, next: string)
    requires Run(sn, pairing, trace, events) && n <= |events|
    requires Link(sn, trace, events, n, orig, next)
    ensures orig in trace[n].orders && next in trace[n].orders
    ensures SameOrder(trace[n].orders[orig], trace[n].orders[next])
  {
    var j :| 0 <= j < n && LinkAt(sn, trace[j], events[j], orig, next);
    var s := trace[j];
    RunKeepsInv(sn, pairing, trace, events, j);
    assert StepAt(sn, pairing, trace, events, j);
    LinkMade(sn, pairing, s, events[j], trace[j + 1], orig, next);
    RunStable(sn, pairing, trace, events, j + 1, n, orig);
    RunStable(sn, pairing, trace, events, j + 1, n, next);
  }

  lemma LinkMade(sn: Session, pairing: Pairing, s: State, e: Event, s': State, orig: string, next: string)
    requires Inv(pairing, s) && Step(sn, pairing, s, e, s') && LinkAt(sn, s, e, orig, next)
    ensures orig in s'.orders && next in s'.orders
    ensures SameOrder(s'.orders[orig], s'.orders[next]) && s'.orders[orig].orderID != ""
  {
    ReplaceTargets(sn, pairing, s, e.msg);
  }

  /** In a chain of replaces of any length all ClOrdIDs resolve to the same order. */
  lemma {:induction false} ChainKeepsOrder(sn: Session, pairing: Pairing, trace: seq<State>, events: seq<Event>, n: nat, chain: seq<string>)
    requires Run(sn, pairing, trace, events) && n <= |events|
    requires |chain| >= 2
    requires forall i :: 0 <= i < |chain| - 1 ==> Link(sn, trace, events, n, chain[i], chain[i + 1])
    ensures forall i :: 0 <= i < |chain| ==>
              && chain[i] in trace[n].orders
              && chain[0] in trace[n].orders
              && SameOrder(trace[n].orders[chain[0]], trace[n].orders[chain[i]])
  {
    var last := |chain| - 1;
    assert Link(sn, trace, events, n, chain[last - 1], chain[last - 1 + 1]);
    LinkKeepsOrder(sn, pairing, trace, events, n, chain[last - 1], chain[last]);
    if last > 1 {
      ChainKeepsOrder(sn, pairing, trace, events, n, chain[..last]);
      assert chain[..last][last - 1] == chain[last - 1];
      forall i | 0 <= i < |chain|
        ensures chain[i] in trace[n].orders && SameOrder(trace[n].orders[chain[0]], trace[n].orders[chain[i]])
      {
        if i < last {
          assert chain[..last][i] == chain[i];
        }
      }
    }
  }
}
