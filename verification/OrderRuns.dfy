/**
 What every run of the order cache keeps, under the assumptions on the venue and on the
 client stated in `Fair`: no execution is ever lost or re-attributed, an entry that has its
 server id never changes except by growing executions, and the cached totals are those of
 the plain log of accepted trades.
 */
module OrderRuns {
  import opened Wrappers
  import opened DecimalText
  import opened FixTypes
  import opened Executions
  import opened OrderCache
  import opened OrderMessages
  import opened OrderEvents
  import opened Reports
  import Convert

  /** The venue's own assignment of order ids to client ids. */
  type Pairing = map<int, int>

  predicate Pairs(pairing: Pairing, o: VenueOrder) {
    o.cid in pairing && pairing[o.cid] == o.id
  }

  /** The key is not the printed form of a client id the venue pairs with another order. */
  predicate Agrees(pairing: Pairing, k: string, orderID: string) {
    forall cid :: cid in pairing && FormatInt(cid) == k ==> orderID == FormatInt(pairing[cid])
  }

  /**
   Assumptions on one event. The venue reports orders under its own pairing, and REST answers
   for the order it was asked about. The client does not reuse a ClOrdID, nor replaces an order
   under the client id of another order.
   */
  predicate Fair(sn: Session, pairing: Pairing, s: State, e: Event) {
    match e
    case NewOrder(msg, translated) =>
      var r := AcceptNewOrder(msg, translated, sn.account);
      r.Ok? ==> r.value.clOrdID !in s.orders
    case Replace(msg) =>
      var r := AcceptReplace(s.orders, msg, sn.account);
      r.Ok? ==> r.value.clOrdID !in s.orders && Agrees(pairing, r.value.clOrdID, r.value.orderID)
    case Ack(o, error) => error || Pairs(pairing, o)
    case Trade(t, rest, _, _) => rest.Some? ==> rest.value.id == t.orderID && Pairs(pairing, rest.value)
    case StatusQuery(answer) => answer.Some? ==> Pairs(pairing, answer.value)
    case ReadOnly => true
  }

  ghost predicate Run(sn: Session, pairing: Pairing, trace: seq<State>, events: seq<Event>) {
    && |trace| == |events| + 1
    && trace[0] == INITIAL
    && forall i :: 0 <= i < |events| ==> StepAt(sn, pairing, trace, events, i)
  }

  ghost predicate StepAt(sn: Session, pairing: Pairing, trace: seq<State>, events: seq<Event>, i: nat)
    requires i < |events| < |trace|
  {
    Step(sn, pairing, trace[i], events[i], trace[i + 1])
  }

  ghost predicate Step(sn: Session, pairing: Pairing, s: State, e: Event, s': State) {
    Enabled(sn, s, e) && Fair(sn, pairing, s, e) && s' == Apply(sn, s, e)
  }

  // ----- All executions recorded under one server id -----

  ghost function Choose(keys: set<string>): (k: string)
    requires keys != {}
    ensures k in keys
  {
    var k :| k in keys; k
  }

  function Share(o: CachedOrder, id: string): (es: seq<Execution>) {
    if o.orderID == id then o.executions else []
  }

  /** The executions of all entries with a server id, entry after entry. */
  ghost function Pool(orders: Orders, keys: set<string>, id: string): (es: seq<Execution>)
    requires keys <= orders.Keys
    decreases |keys|
  {
    if keys == {} then [] else Pool(orders, keys - {Choose(keys)}, id) + Share(orders[Choose(keys)], id)
  }

  ghost function Recorded(orders: Orders, id: string): (es: seq<Execution>) {
    Pool(orders, orders.Keys, id)
  }

  lemma {:induction false} PoolSplit(orders: Orders, keys: set<string>, k: string, id: string)
    requires keys <= orders.Keys && k in keys
    ensures multiset(Pool(orders, keys, id)) == multiset(Pool(orders, keys - {k}, id)) + multiset(Share(orders[k], id))
    decreases |keys|
  {
    var c := Choose(keys);
    if c != k {
      PoolSplit(orders, keys - {c}, k, id);
      PoolSplit(orders, keys - {k}, c, id);
      assert keys - {c} - {k} == keys - {k} - {c};
    }
  }

  lemma {:induction false} PoolSame(a: Orders, b: Orders, keys: set<string>, id: string)
    requires keys <= a.Keys && keys <= b.Keys
    requires forall k :: k in keys ==> Share(a[k], id) == Share(b[k], id)
    ensures Pool(a, keys, id) == Pool(b, keys, id)
    decreases |keys|
  {
    if keys != {} {
      PoolSame(a, b, keys - {Choose(keys)}, id);
    }
  }

  /** Writing one entry changes what is recorded by the difference of its shares. */
  lemma RecordedAfterPut(orders: Orders, k: string, o: CachedOrder, id: string)
    ensures multiset(Recorded(orders[k := o], id)) + multiset(if k in orders then Share(orders[k], id) else [])
         == multiset(Recorded(orders, id)) + multiset(Share(o, id))
  {
    var after := orders[k := o];
    var others := orders.Keys - {k};
    PoolSplit(after, after.Keys, k, id);
    assert after.Keys - {k} == others;
    PoolSame(after, orders, others, id);
    if k in orders {
      PoolSplit(orders, orders.Keys, k, id);
    } else {
      assert others == orders.Keys;
    }
  }

  lemma {:induction false} PoolEmpty(orders: Orders, keys: set<string>, id: string)
    requires keys <= orders.Keys
    requires forall k :: k in keys ==> Share(orders[k], id) == []
    ensures Pool(orders, keys, id) == []
    decreases |keys|
  {
    if keys != {} {
      PoolEmpty(orders, keys - {Choose(keys)}, id);
    }
  }

  /** The trades accepted for one server id, in the order they were accepted. */
  function FillsOf(fills: seq<Fill>, id: string): (es: seq<Execution>) {
    if fills == [] then []
    else
      var last := fills[|fills| - 1];
      FillsOf(fills[..|fills| - 1], id) + if last.orderID == id then [last.execution] else []
  }

  lemma FillsOfAppend(fills: seq<Fill>, f: Fill, id: string)
    ensures FillsOf(fills + [f], id) == FillsOf(fills, id) + if f.orderID == id then [f.execution] else []
  {
    assert (fills + [f])[..|fills|] == fills;
  }

  // ----- The invariant -----

  predicate EntryOk(pairing: Pairing, k: string, o: CachedOrder) {
    && o.clOrdID == k
    && (o.orderID == "" ==> o.executions == [])
    && (o.orderID != "" ==> Agrees(pairing, k, o.orderID) && Canonical(o.orderID))
    && NonNegative(o.executions)
    && o.terms.qty >= 0.0
  }

  ghost predicate EntriesOk(pairing: Pairing, orders: Orders) {
    forall k :: k in orders ==> EntryOk(pairing, k, orders[k])
  }

  /** Every accepted trade is recorded exactly once, in an entry with its server id. */
  ghost predicate Conserved(s: State) {
    forall id :: id != "" ==> multiset(Recorded(s.orders, id)) == multiset(FillsOf(s.fills, id))
  }

  ghost predicate Inv(pairing: Pairing, s: State) {
    EntriesOk(pairing, s.orders) && Conserved(s)
  }

  /** Writing an entry over nothing, over an entry without executions, or with the same share. */
  lemma PutKeepsRecorded(s: State, k: string, o: CachedOrder)
    requires Conserved(s)
    requires forall id :: id != "" ==> Share(o, id) == if k in s.orders then Share(s.orders[k], id) else []
    ensures Conserved(s.(orders := s.orders[k := o]))
  {
    forall id | id != ""
      ensures multiset(Recorded(s.orders[k := o], id)) == multiset(FillsOf(s.fills, id))
    {
      RecordedAfterPut(s.orders, k, o, id);
      Cancel(multiset(Recorded(s.orders[k := o], id)), multiset(Recorded(s.orders, id)), multiset(Share(o, id)));
    }
  }

  lemma Cancel<T>(a: multiset<T>, b: multiset<T>, c: multiset<T>)
    requires a + c == b + c
    ensures a == b
  {
    assert a == (a + c) - c && b == (b + c) - c;
  }

  /** The entry at a key the venue uses has no server id or the one the venue gave it. */
  lemma PairedKey(pairing: Pairing, orders: Orders, o: VenueOrder)
    requires EntriesOk(pairing, orders) && Pairs(pairing, o)
    ensures var k := FormatInt(o.cid); k in orders ==> orders[k].orderID == "" || Holds(orders, FormatInt(o.id), k)
  {
    var k := FormatInt(o.cid);
    if k in orders && orders[k].orderID != "" {
      assert Agrees(pairing, k, orders[k].orderID);
    }
  }

  /** A key the venue pairs with an unknown order holds no executions. */
  lemma UnknownHasNone(pairing: Pairing, orders: Orders, o: VenueOrder)
    requires EntriesOk(pairing, orders) && Pairs(pairing, o) && !Known(orders, FormatInt(o.id))
    ensures var k := FormatInt(o.cid); k in orders ==> orders[k].orderID == "" && orders[k].executions == []
  {
    PairedKey(pairing, orders, o);
  }

  lemma VenueEntryOk(pairing: Pairing, o: VenueOrder, account: string, side: Side)
    requires Pairs(pairing, o)
    ensures EntryOk(pairing, FormatInt(o.cid), VenueEntry(o, account, side))
  {
    PrintedIsCanonical(o.id);
    forall cid | cid in pairing && FormatInt(cid) == FormatInt(o.cid)
      ensures FormatInt(o.id) == FormatInt(pairing[cid])
    {
      FormatInjective(cid, o.cid);
    }
  }

  lemma AckKeepsInv(sn: Session, pairing: Pairing, s: State, o: VenueOrder)
    requires Inv(pairing, s) && Pairs(pairing, o)
    ensures Inv(pairing, s.(orders := AfterAck(s.orders, o, sn.account)))
  {
    var k := FormatInt(o.cid);
    VenueEntryOk(pairing, o, sn.account, Convert.SideToFIX(o.amount));
    if k in s.orders {
      var updated := s.orders[k].(orderID := FormatInt(o.id));
      if s.orders[k].orderID != "" {
        assert Agrees(pairing, k, s.orders[k].orderID);
      }
      PutKeepsRecorded(s, k, updated);
    } else {
      PutKeepsRecorded(s, k, VenueEntry(o, sn.account, Convert.SideToFIX(o.amount)));
    }
  }

  lemma FallbackKeepsInv(sn: Session, pairing: Pairing, s: State, t: TradeUpdate, rest: Option<VenueOrder>)
    requires Inv(pairing, s)
    requires rest.Some? ==> rest.value.id == t.orderID && Pairs(pairing, rest.value)
    ensures Inv(pairing, s.(orders := AfterFallback(s.orders, t, rest, sn.account)))
  {
    if !Known(s.orders, FormatInt(t.orderID)) && rest.Some? {
      UnknownHasNone(pairing, s.orders, rest.value);
      VenueEntryOk(pairing, rest.value, sn.account, Convert.SideToFIX(t.execAmount));
      PutKeepsRecorded(s, FormatInt(rest.value.cid), VenueEntry(rest.value, sn.account, Convert.SideToFIX(t.execAmount)));
    }
  }

  lemma ExecutionRecorded(s: State, hit: string, f: Fill, reports: seq<Report>)
    requires Conserved(s) && Holds(s.orders, f.orderID, hit)
    ensures Conserved(State(WithExecution(s.orders, hit, f.execution), s.fills + [f], reports))
  {
    var before := s.orders[hit];
    var after := before.(executions := before.executions + [f.execution]);
    forall id | id != ""
      ensures multiset(Recorded(s.orders[hit := after], id)) == multiset(FillsOf(s.fills + [f], id))
    {
      RecordedAfterPut(s.orders, hit, after, id);
      FillsOfAppend(s.fills, f, id);
      var more := if f.orderID == id then [f.execution] else [];
      assert Share(after, id) == Share(before, id) + more;
      Cancel(multiset(Recorded(s.orders[hit := after], id)),
             multiset(Recorded(s.orders, id)) + multiset(more), multiset(Share(before, id)));
    }
  }

  lemma ExecutionKeepsInv(pairing: Pairing, s: State, hit: string, f: Fill, reports: seq<Report>)
    requires Inv(pairing, s)
    requires f.orderID != "" && f.execution.qty >= 0.0 && Holds(s.orders, f.orderID, hit)
    ensures Inv(pairing, State(WithExecution(s.orders, hit, f.execution), s.fills + [f], reports))
  {
    assert EntryOk(pairing, hit, s.orders[hit]);
    ExecutionRecorded(s, hit, f, reports);
  }

  lemma StatusKeepsInv(sn: Session, pairing: Pairing, s: State, o: VenueOrder)
    requires Inv(pairing, s) && Pairs(pairing, o)
    ensures Inv(pairing, s.(orders := AfterStatus(s.orders, o, sn.account)))
  {
    if !Known(s.orders, FormatInt(o.id)) {
      UnknownHasNone(pairing, s.orders, o);
      var k := FormatInt(o.cid);
      PutKeepsRecorded(s, k, Entered(k, Convert.TermsOfVenueOrder(o, sn.account, Convert.SideToFIX(o.amount))));
    }
  }

  lemma ReplaceKeepsInv(sn: Session, pairing: Pairing, s: State, msg: OrderMessage)
    requires Inv(pairing, s) && Fair(sn, pairing, s, Replace(msg))
    ensures Inv(pairing, Apply(sn, s, Replace(msg)))
  {
    var r := AcceptReplace(s.orders, msg, sn.account);
    if r.Ok? {
      var p := r.value;
      var o := Entered(p.clOrdID, p.terms).(orderID := p.orderID);
      assert EntryOk(pairing, p.origClOrdID, s.orders[p.origClOrdID]);
      assert p.orderID == s.orders[p.origClOrdID].orderID && p.orderID != "";
      assert EntryOk(pairing, p.clOrdID, o);
      PutKeepsRecorded(s, p.clOrdID, o);
    }
  }

  lemma StepKeepsInv(sn: Session, pairing: Pairing, s: State, e: Event, s': State)
    requires Inv(pairing, s) && Step(sn, pairing, s, e, s')
    ensures Inv(pairing, s')
  {
    match e
    case NewOrder(msg, translated) =>
      var r := AcceptNewOrder(msg, translated, sn.account);
      if r.Ok? {
        PutKeepsRecorded(s, r.value.clOrdID, Entered(r.value.clOrdID, r.value.terms));
      }
    case Replace(msg) => ReplaceKeepsInv(sn, pairing, s, msg);
    case Ack(o, error) =>
      if !error {
        AckKeepsInv(sn, pairing, s, o);
      }
    case Trade(t, rest, seen, hit) =>
      FallbackKeepsInv(sn, pairing, s, t, rest);
      if Accepts(s.orders, t, rest, sn.account) {
        var fetched := s.(orders := AfterFallback(s.orders, t, rest, sn.account));
        ExecutionKeepsInv(pairing, fetched, hit, Fill(FormatInt(t.orderID), TradeExecution(t)), s'.reports);
      }
    case StatusQuery(answer) =>
      if answer.Some? {
        StatusKeepsInv(sn, pairing, s, answer.value);
      }
    case ReadOnly =>
  }

  lemma InitialInv(pairing: Pairing)
    ensures Inv(pairing, INITIAL)
  {
    forall id: string
      ensures Recorded(INITIAL.orders, id) == []
    {
      PoolEmpty(INITIAL.orders, {}, id);
    }
  }

  lemma {:induction false} RunKeepsInv(sn: Session, pairing: Pairing, trace: seq<State>, events: seq<Event>, i: nat)
    requires Run(sn, pairing, trace, events) && i < |trace|
    ensures Inv(pairing, trace[i])
  {
    if i == 0 {
      InitialInv(pairing);
    } else {
      RunKeepsInv(sn, pairing, trace, events, i - 1);
      assert StepAt(sn, pairing, trace, events, i - 1);
      StepKeepsInv(sn, pairing, trace[i - 1], events[i - 1], trace[i]);
    }
  }
}
