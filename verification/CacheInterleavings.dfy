/**
 The order cache under concurrency. The service loop handles venue messages while the FIX
 session handles client messages; the cache lock covers one cache operation at a time, so the
 two interleave between operations. Here every cache operation is a step of its own, and each
 of the two threads remembers what it has still to do.

 A trade is taken on when its order is found in the cache, or REST tells of the order. The
 results account, over every interleaving, for every trade taken on: it is recorded, still in
 the hands of the service loop, or lost; and they say exactly which steps lose one.
 */
module CacheInterleavings {
  import opened Wrappers
  import opened DecimalText
  import opened FixTypes
  import opened Executions
  import opened OrderCache
  import opened OrderEvents
  import opened OrderRuns
  import opened OrderTheorems
  import opened Ledgers
  import Convert

  /** Where the service loop is inside a handler. */
  datatype Service =
    | Idle
    | AckMissing(o: VenueOrder)                    // no entry to acknowledge; about to add one
    | AckAdded(o: VenueOrder, live: bool)          // about to set the server id of the entry added, if still cached
    | TradeMissing(t: TradeUpdate, o: VenueOrder)  // REST answered; about to add the order
    | TradeAdded(t: TradeUpdate, o: VenueOrder)    // added it; about to set its server id
    | TradeKnown(t: TradeUpdate)                   // about to record the execution

  /** Where the FIX session is inside a handler. */
  datatype Client =
    | Free
    | ReplaceFound(id: string)                     // found the order to replace; about to add the replacement
    | ReplaceAdded(k: string, id: string)          // added the replacement; about to set its server id
    | StatusMissing(o: VenueOrder)                 // looked up in vain; about to add the order

  datatype World = World(orders: Orders, service: Service, client: Client)

  const START := World(map[], Idle, Free)

  datatype Action =
    | AckUpdate(o: VenueOrder) | AckAdd | AckSetID
    | TradeLookup(t: TradeUpdate, rest: Option<VenueOrder>) | TradeAdd | TradeSetID | TradeRecord(hit: string)
    | EnterOrder(k: string, terms: Terms)
    | ReplaceLookup(orig: string) | ReplaceAdd(k: string, terms: Terms) | ReplaceSetID
    | StatusLookup(o: VenueOrder) | StatusAdd

  function Key(o: VenueOrder): (k: string) {
    FormatInt(o.cid)
  }

  function ServerID(o: VenueOrder): (id: string)
    ensures id != ""
  {
    FormatInt(o.id)
  }

  function TradeID(t: TradeUpdate): (id: string)
    ensures id != ""
  {
    FormatInt(t.orderID)
  }

  function VenueTerms(o: VenueOrder, account: string, amount: real): (t: Terms) {
    Convert.TermsOfVenueOrder(o, account, Convert.SideToFIX(amount))
  }

  /** Each thread goes on with its own handler; assumptions on venue and client as for `Fair`. */
  predicate Enabled(pairing: Pairing, w: World, a: Action) {
    match a
    case AckUpdate(o) => w.service.Idle? && Pairs(pairing, o)
    case AckAdd => w.service.AckMissing?
    case AckSetID => w.service.AckAdded?
    case TradeLookup(t, rest) =>
      w.service.Idle? && (rest.Some? ==> rest.value.id == t.orderID && Pairs(pairing, rest.value))
    case TradeAdd => w.service.TradeMissing?
    case TradeSetID => w.service.TradeAdded?
    case TradeRecord(hit) =>
      w.service.TradeKnown? && (Known(w.orders, TradeID(w.service.t)) ==> Holds(w.orders, TradeID(w.service.t), hit))
    case EnterOrder(k, _) => w.client.Free? && k !in w.orders
    case ReplaceLookup(_) => w.client.Free?
    case ReplaceAdd(k, _) => w.client.ReplaceFound? && k !in w.orders && Agrees(pairing, k, w.client.id)
    case ReplaceSetID => w.client.ReplaceAdded?
    case StatusLookup(o) => w.client.Free? && Pairs(pairing, o)
    case StatusAdd => w.client.StatusMissing?
  }

  predicate ByService(a: Action) {
    a.AckUpdate? || a.AckAdd? || a.AckSetID? || a.TradeLookup? || a.TradeAdd? || a.TradeSetID? || a.TradeRecord?
  }

  function Next(account: string, pairing: Pairing, w: World, a: Action): (r: World)
    requires Enabled(pairing, w, a)
  {
    match a
    case AckUpdate(o) =>
      if Key(o) in w.orders then w.(orders := WithOrderID(w.orders, Key(o), ServerID(o))) else w.(service := AckMissing(o))
    case AckAdd =>
      var o := w.service.o;
      Add(w, Key(o), VenueTerms(o, account, o.amount)).(service := AckAdded(o, true))
    case AckSetID =>
      // the entry added is written to directly, so the write is lost when it has been overwritten
      var o := w.service.o;
      w.(orders := if w.service.live then WithOrderID(w.orders, Key(o), ServerID(o)) else w.orders, service := Idle)
    case TradeLookup(t, rest) =>
      if Known(w.orders, TradeID(t)) then w.(service := TradeKnown(t))
      else if rest.Some? then w.(service := TradeMissing(t, rest.value))
      else w
    case TradeAdd =>
      var t, o := w.service.t, w.service.o;
      Add(w, Key(o), VenueTerms(o, account, t.execAmount)).(service := TradeAdded(t, o))
    case TradeSetID =>
      var o := w.service.o;
      w.(orders := WithOrderID(w.orders, Key(o), ServerID(o)), service := TradeKnown(w.service.t))
    case TradeRecord(hit) =>
      var t := w.service.t;
      if Known(w.orders, TradeID(t)) then w.(orders := WithExecution(w.orders, hit, TradeExecution(t)), service := Idle)
      else w.(service := Idle)
    case EnterOrder(k, terms) => Add(w, k, terms)
    case ReplaceLookup(orig) =>
      if orig in w.orders && ParseInt(w.orders[orig].orderID).Some? then w.(client := ReplaceFound(w.orders[orig].orderID))
      else w
    case ReplaceAdd(k, terms) => Add(w, k, terms).(client := ReplaceAdded(k, w.client.id))
    case ReplaceSetID => w.(orders := WithOrderID(w.orders, w.client.k, w.client.id), client := Free)
    case StatusLookup(o) => if Known(w.orders, ServerID(o)) then w else w.(client := StatusMissing(o))
    case StatusAdd =>
      var o := w.client.o;
      Add(w, Key(o), VenueTerms(o, account, o.amount)).(service := Overwritten(w.service, Key(o)), client := Free)
  }

  function Add(w: World, k: string, terms: Terms): (r: World) {
    w.(orders := w.orders[k := Entered(k, terms)])
  }

  /** The service loop keeps a reference to an entry that is no longer cached. */
  function Overwritten(service: Service, k: string): (r: Service) {
    if service.AckAdded? && Key(service.o) == k then service.(live := false) else service
  }

  // ----- What every interleaving keeps -----

  predicate HasExecutions(orders: Orders, k: string) {
    k in orders && orders[k].executions != []
  }

  predicate ServiceOk(pairing: Pairing, w: World) {
    match w.service
    case Idle => true
    case AckMissing(o) => Pairs(pairing, o) && !HasExecutions(w.orders, Key(o))
    case AckAdded(o, _) => Pairs(pairing, o) && Key(o) in w.orders
    case TradeMissing(t, o) => Pairs(pairing, o) && o.id == t.orderID && !Known(w.orders, ServerID(o))
    case TradeAdded(t, o) => Pairs(pairing, o) && o.id == t.orderID && Key(o) in w.orders
    case TradeKnown(t) => true
  }

  /** Some entry has the server id, or the service loop is just setting it. */
  predicate Backed(w: World, id: string) {
    Known(w.orders, id) || (w.service.AckAdded? && w.service.live && ServerID(w.service.o) == id)
  }

  predicate ClientOk(pairing: Pairing, w: World) {
    match w.client
    case Free => true
    case ReplaceFound(id) => id != "" && Canonical(id) && Backed(w, id)
    case ReplaceAdded(k, id) =>
      && id != "" && Canonical(id) && Backed(w, id) && Agrees(pairing, k, id)
      && k in w.orders && (w.orders[k].orderID == "" || w.orders[k].orderID == id)
    case StatusMissing(o) => Pairs(pairing, o)
  }

  ghost predicate WorldOk(pairing: Pairing, w: World) {
    EntriesOk(pairing, w.orders) && ServiceOk(pairing, w) && ClientOk(pairing, w)
  }

  /** The server id of a venue order agrees with its key. */
  lemma PairedAgrees(pairing: Pairing, o: VenueOrder)
    requires Pairs(pairing, o)
    ensures Canonical(ServerID(o)) && Agrees(pairing, Key(o), ServerID(o))
    ensures forall id :: Agrees(pairing, Key(o), id) ==> id == ServerID(o)
  {
    VenueEntryOk(pairing, o, "", Buy);
    assert EntryOk(pairing, Key(o), VenueEntry(o, "", Buy));
    forall id | Agrees(pairing, Key(o), id)
      ensures id == ServerID(o)
    {
      assert o.cid in pairing && FormatInt(o.cid) == Key(o);
    }
  }

  lemma ServiceKeepsEntries(account: string, pairing: Pairing, w: World, a: Action)
    requires WorldOk(pairing, w) && Enabled(pairing, w, a) && ByService(a)
    ensures EntriesOk(pairing, Next(account, pairing, w, a).orders)
  {
    match a
    case AckUpdate(o) => PairedAgrees(pairing, o);
    case AckSetID => PairedAgrees(pairing, w.service.o);
    case TradeSetID => PairedAgrees(pairing, w.service.o);
    case TradeRecord(hit) =>
      if Known(w.orders, TradeID(w.service.t)) {
        assert EntryOk(pairing, hit, w.orders[hit]);
      }
    case _ =>
  }

  /** What a step of the service loop leaves known: only the entry it adds anew can lose its server id. */
  lemma ServiceKeepsKnown(account: string, pairing: Pairing, w: World, a: Action, id: string)
    requires WorldOk(pairing, w) && Enabled(pairing, w, a) && ByService(a)
    requires id != "" && Backed(w, id)
    ensures Backed(Next(account, pairing, w, a), id)
  {
    var w' := Next(account, pairing, w, a);
    if Known(w.orders, id) {
      var k :| k in w.orders && Holds(w.orders, id, k);
      assert Agrees(pairing, k, id);
      if !a.TradeLookup? && !a.TradeRecord? {
        PairedAgrees(pairing, if a.AckUpdate? then a.o else w.service.o);
      }
      if !(a.AckAdd? && k == Key(w.service.o)) {
        assert Holds(w'.orders, id, k);
      }
    } else {
      assert Holds(w'.orders, id, Key(w.service.o));
    }
  }

  lemma ServiceKeepsOwnPoint(account: string, pairing: Pairing, w: World, a: Action)
    requires WorldOk(pairing, w) && Enabled(pairing, w, a) && ByService(a)
    ensures ServiceOk(pairing, Next(account, pairing, w, a))
  {
  }

  lemma ServiceKeepsClientPoint(account: string, pairing: Pairing, w: World, a: Action)
    requires WorldOk(pairing, w) && Enabled(pairing, w, a) && ByService(a)
    ensures ClientOk(pairing, Next(account, pairing, w, a))
  {
    if w.client.ReplaceFound? {
      ServiceKeepsKnown(account, pairing, w, a, w.client.id);
    } else if w.client.ReplaceAdded? {
      ServiceKeepsKnown(account, pairing, w, a, w.client.id);
      ServiceKeepsReplacement(account, pairing, w, a);
    }
  }

  lemma ServiceKeepsReplacement(account: string, pairing: Pairing, w: World, a: Action)
    requires WorldOk(pairing, w) && Enabled(pairing, w, a) && ByService(a) && w.client.ReplaceAdded?
    ensures var orders := Next(account, pairing, w, a).orders;
      w.client.k in orders && (orders[w.client.k].orderID == "" || orders[w.client.k].orderID == w.client.id)
  {
    match a
    case AckUpdate(o) => PairedAgrees(pairing, o);
    case AckSetID => PairedAgrees(pairing, w.service.o);
    case TradeSetID => PairedAgrees(pairing, w.service.o);
    case _ =>
  }

  /** A step of the FIX session makes no server id known that was not. */
  lemma ClientAddsNoID(account: string, pairing: Pairing, w: World, a: Action, id: string)
    requires WorldOk(pairing, w) && Enabled(pairing, w, a) && !ByService(a)
    requires id != "" && !Backed(w, id)
    ensures !Known(Next(account, pairing, w, a).orders, id)
  {
    var w' := Next(account, pairing, w, a);
    forall k | k in w'.orders
      ensures !Holds(w'.orders, id, k)
    {
      assert k in w.orders ==> !Holds(w.orders, id, k);
    }
  }

  lemma ClientKeepsServicePoint(account: string, pairing: Pairing, w: World, a: Action)
    requires WorldOk(pairing, w) && Enabled(pairing, w, a) && !ByService(a)
    ensures ServiceOk(pairing, Next(account, pairing, w, a))
  {
    if w.service.TradeMissing? {
      ClientAddsNoID(account, pairing, w, a, ServerID(w.service.o));
    }
  }

  lemma ClientKeepsEntries(account: string, pairing: Pairing, w: World, a: Action)
    requires WorldOk(pairing, w) && Enabled(pairing, w, a) && !ByService(a)
    ensures EntriesOk(pairing, Next(account, pairing, w, a).orders)
  {
  }

  lemma ClientKeepsOwnPoint(account: string, pairing: Pairing, w: World, a: Action)
    requires WorldOk(pairing, w) && Enabled(pairing, w, a) && !ByService(a)
    ensures ClientOk(pairing, Next(account, pairing, w, a))
  {
    var w' := Next(account, pairing, w, a);
    match a
    case ReplaceLookup(orig) =>
      if orig in w.orders {
        assert EntryOk(pairing, orig, w.orders[orig]);
        assert Holds(w.orders, w.orders[orig].orderID, orig);
      }
    case ReplaceAdd(k, terms) =>
      if Known(w.orders, w.client.id) {
        var j :| j in w.orders && Holds(w.orders, w.client.id, j);
        assert Holds(w'.orders, w.client.id, j);
      }
    case _ =>
  }

  lemma StepKeepsWorld(account: string, pairing: Pairing, w: World, a: Action)
    requires WorldOk(pairing, w) && Enabled(pairing, w, a)
    ensures WorldOk(pairing, Next(account, pairing, w, a))
  {
    if ByService(a) {
      ServiceKeepsEntries(account, pairing, w, a);
      ServiceKeepsOwnPoint(account, pairing, w, a);
      ServiceKeepsClientPoint(account, pairing, w, a);
    } else {
      ClientKeepsEntries(account, pairing, w, a);
      ClientKeepsServicePoint(account, pairing, w, a);
      ClientKeepsOwnPoint(account, pairing, w, a);
    }
  }

  // ----- Interleaved runs -----

  ghost predicate Run(account: string, pairing: Pairing, trace: seq<World>, actions: seq<Action>) {
    && |trace| == |actions| + 1
    && trace[0] == START
    && forall i :: 0 <= i < |actions| ==> StepAt(account, pairing, trace, actions, i)
  }

  ghost predicate StepAt(account: string, pairing: Pairing, trace: seq<World>, actions: seq<Action>, i: nat)
    requires i < |actions| < |trace|
  {
    Step(account, pairing, trace[i], actions[i], trace[i + 1])
  }

  ghost predicate Step(account: string, pairing: Pairing, w: World, a: Action, w': World) {
    Enabled(pairing, w, a) && w' == Next(account, pairing, w, a)
  }

  lemma {:induction false} InterleavedInv(account: string, pairing: Pairing, trace: seq<World>, actions: seq<Action>, n: nat)
    requires Run(account, pairing, trace, actions) && n <= |actions|
    ensures WorldOk(pairing, trace[n])
  {
    if n > 0 {
      InterleavedInv(account, pairing, trace, actions, n - 1);
      assert StepAt(account, pairing, trace, actions, n - 1);
      StepKeepsWorld(account, pairing, trace[n - 1], actions[n - 1]);
    }
  }

  // ----- Accounting for every trade taken on -----

  /** The trade the service loop is handling, as far as it belongs to the given order. */
  function InHand(w: World, id: string): (es: multiset<Execution>) {
    match w.service
    case TradeMissing(t, _) => OfOrder(t, id)
    case TradeAdded(t, _) => OfOrder(t, id)
    case TradeKnown(t) => OfOrder(t, id)
    case _ => multiset{}
  }

  function OfOrder(t: TradeUpdate, id: string): (es: multiset<Execution>) {
    if TradeID(t) == id then multiset{TradeExecution(t)} else multiset{}
  }

  /** The trade a step takes on: its order is known at the lookup, or REST answers for it. */
  function TakenAt(w: World, a: Action, id: string): (es: multiset<Execution>) {
    if a.TradeLookup? && (Known(w.orders, TradeID(a.t)) || a.rest.Some?) then OfOrder(a.t, id) else multiset{}
  }

  /** What a step discards: the executions of an entry overwritten, or a trade with no entry left to go to. */
  function LostAt(w: World, a: Action, id: string): (es: multiset<Execution>) {
    if a.StatusAdd? && w.client.StatusMissing? then multiset(ShareAt(w.orders, Key(w.client.o), id))
    else if a.TradeRecord? && w.service.TradeKnown? && !Known(w.orders, TradeID(w.service.t)) then OfOrder(w.service.t, id)
    else multiset{}
  }

  function ShareAt(orders: Orders, k: string, id: string): (es: seq<Execution>) {
    if k in orders then Share(orders[k], id) else []
  }

  /** All trades taken on for a server id in the first n steps. */
  ghost function Taken(trace: seq<World>, actions: seq<Action>, n: nat, id: string): (es: multiset<Execution>)
    requires n <= |actions| < |trace|
  {
    Collect(seq(n, i requires 0 <= i < n => TakenAt(trace[i], actions[i], id)))
  }

  /** All executions discarded under a server id in the first n steps. */
  ghost function Lost(trace: seq<World>, actions: seq<Action>, n: nat, id: string): (es: multiset<Execution>)
    requires n <= |actions| < |trace|
  {
    Collect(seq(n, i requires 0 <= i < n => LostAt(trace[i], actions[i], id)))
  }

  /** Writing an entry that records the same changes nothing in what is recorded. */
  lemma SameShareSameRecorded(orders: Orders, k: string, o: CachedOrder, id: string)
    requires Share(o, id) == ShareAt(orders, k, id)
    ensures multiset(Recorded(orders[k := o], id)) == multiset(Recorded(orders, id))
  {
    RecordedAfterPut(orders, k, o, id);
    Cancel(multiset(Recorded(orders[k := o], id)), multiset(Recorded(orders, id)), multiset(Share(o, id)));
  }

  lemma SetIDSameRecorded(pairing: Pairing, orders: Orders, k: string, to: string, id: string)
    requires EntriesOk(pairing, orders) && id != ""
    requires k in orders ==> orders[k].orderID == "" || orders[k].orderID == to
    ensures multiset(Recorded(WithOrderID(orders, k, to), id)) == multiset(Recorded(orders, id))
  {
    if k in orders {
      assert EntryOk(pairing, k, orders[k]);
      SameShareSameRecorded(orders, k, orders[k].(orderID := to), id);
    }
  }

  lemma PairedSetIDSameRecorded(pairing: Pairing, orders: Orders, o: VenueOrder, id: string)
    requires EntriesOk(pairing, orders) && Pairs(pairing, o) && id != ""
    ensures multiset(Recorded(WithOrderID(orders, Key(o), ServerID(o)), id)) == multiset(Recorded(orders, id))
  {
    PairedKey(pairing, orders, o);
    SetIDSameRecorded(pairing, orders, Key(o), ServerID(o), id);
  }

  /** The steps of the service loop but the last one of a trade only move a trade into its hands. */
  lemma ServiceSameRecorded(account: string, pairing: Pairing, w: World, a: Action, id: string)
    requires WorldOk(pairing, w) && Enabled(pairing, w, a) && ByService(a) && !a.TradeRecord? && id != ""
    ensures multiset(Recorded(Next(account, pairing, w, a).orders, id)) == multiset(Recorded(w.orders, id))
  {
    match a
    case AckUpdate(o) => PairedSetIDSameRecorded(pairing, w.orders, o, id);
    case AckAdd =>
      var o := w.service.o;
      SameShareSameRecorded(w.orders, Key(o), Entered(Key(o), VenueTerms(o, account, o.amount)), id);
    case AckSetID => PairedSetIDSameRecorded(pairing, w.orders, w.service.o, id);
    case TradeLookup(t, rest) =>
    case TradeAdd =>
      var t, o := w.service.t, w.service.o;
      UnknownHasNone(pairing, w.orders, o);
      SameShareSameRecorded(w.orders, Key(o), Entered(Key(o), VenueTerms(o, account, t.execAmount)), id);
    case TradeSetID => PairedSetIDSameRecorded(pairing, w.orders, w.service.o, id);
  }

  lemma RecordBalances(orders: Orders, hit: string, t: TradeUpdate, id: string)
    requires Holds(orders, TradeID(t), hit)
    ensures multiset(Recorded(WithExecution(orders, hit, TradeExecution(t)), id)) == multiset(Recorded(orders, id)) + OfOrder(t, id)
  {
    var before := orders[hit];
    var after := before.(executions := before.executions + [TradeExecution(t)]);
    RecordedAfterPut(orders, hit, after, id);
    assert multiset(Share(after, id)) == multiset(Share(before, id)) + OfOrder(t, id);
    Cancel(multiset(Recorded(orders[hit := after], id)), multiset(Recorded(orders, id)) + OfOrder(t, id), multiset(Share(before, id)));
  }

  lemma ClientSameRecorded(account: string, pairing: Pairing, w: World, a: Action, id: string)
    requires WorldOk(pairing, w) && Enabled(pairing, w, a) && !ByService(a) && !a.StatusAdd? && id != ""
    ensures multiset(Recorded(Next(account, pairing, w, a).orders, id)) == multiset(Recorded(w.orders, id))
  {
    match a
    case EnterOrder(k, terms) => SameShareSameRecorded(w.orders, k, Entered(k, terms), id);
    case ReplaceLookup(orig) =>
    case ReplaceAdd(k, terms) => SameShareSameRecorded(w.orders, k, Entered(k, terms), id);
    case ReplaceSetID => SetIDSameRecorded(pairing, w.orders, w.client.k, w.client.id, id);
    case StatusLookup(o) =>
  }

  /** What is recorded or in hand under a server id. */
  ghost function Held(w: World, id: string): (es: multiset<Execution>) {
    multiset(Recorded(w.orders, id)) + InHand(w, id)
  }

  lemma RecordStepBalances(account: string, pairing: Pairing, w: World, a: Action, id: string)
    requires Enabled(pairing, w, a) && a.TradeRecord?
    ensures Held(Next(account, pairing, w, a), id) + LostAt(w, a, id) == Held(w, id)
  {
    var t, w' := w.service.t, Next(account, pairing, w, a);
    assert InHand(w, id) == OfOrder(t, id) && InHand(w', id) == multiset{};
    if Known(w.orders, TradeID(t)) {
      RecordBalances(w.orders, a.hit, t, id);
      assert LostAt(w, a, id) == multiset{};
    } else {
      assert w'.orders == w.orders && LostAt(w, a, id) == OfOrder(t, id);
    }
  }

  lemma StatusAddBalances(account: string, pairing: Pairing, w: World, id: string)
    requires Enabled(pairing, w, StatusAdd) && id != ""
    ensures Held(Next(account, pairing, w, StatusAdd), id) + LostAt(w, StatusAdd, id) == Held(w, id)
  {
    var o := w.client.o;
    OverwriteBalances(w.orders, Key(o), VenueTerms(o, account, o.amount), id);
    OverwrittenInHand(w, Key(o), id);
  }

  lemma OverwriteBalances(orders: Orders, k: string, terms: Terms, id: string)
    requires id != ""
    ensures multiset(Recorded(orders[k := Entered(k, terms)], id)) + multiset(ShareAt(orders, k, id))
         == multiset(Recorded(orders, id))
  {
    RecordedAfterPut(orders, k, Entered(k, terms), id);
    assert Share(Entered(k, terms), id) == [];
  }

  lemma OverwrittenInHand(w: World, k: string, id: string)
    ensures forall orders, client :: InHand(World(orders, Overwritten(w.service, k), client), id) == InHand(w, id)
  {
  }

  /** Before its last step, a trade only gets into the hands of the service loop. */
  lemma InHandGrows(account: string, pairing: Pairing, w: World, a: Action, id: string)
    requires Enabled(pairing, w, a) && !a.TradeRecord? && !a.StatusAdd?
    ensures InHand(Next(account, pairing, w, a), id) == InHand(w, id) + TakenAt(w, a, id)
  {
  }

  lemma OtherStepBalances(account: string, pairing: Pairing, w: World, a: Action, id: string)
    requires WorldOk(pairing, w) && Enabled(pairing, w, a) && !a.TradeRecord? && !a.StatusAdd? && id != ""
    ensures Held(Next(account, pairing, w, a), id) == Held(w, id) + TakenAt(w, a, id)
  {
    if ByService(a) {
      ServiceSameRecorded(account, pairing, w, a, id);
    } else {
      ClientSameRecorded(account, pairing, w, a, id);
    }
    InHandGrows(account, pairing, w, a, id);
  }

  lemma StepBalances(account: string, pairing: Pairing, w: World, a: Action, w': World, id: string)
    requires WorldOk(pairing, w) && Step(account, pairing, w, a, w') && id != ""
    ensures Held(w', id) + LostAt(w, a, id) == Held(w, id) + TakenAt(w, a, id)
  {
    if a.TradeRecord? {
      RecordStepBalances(account, pairing, w, a, id);
    } else if a.StatusAdd? {
      StatusAddBalances(account, pairing, w, id);
    } else {
      OtherStepBalances(account, pairing, w, a, id);
    }
  }

  lemma RunStepBalances(account: string, pairing: Pairing, trace: seq<World>, actions: seq<Action>, i: nat, id: string)
    requires Run(account, pairing, trace, actions) && i < |actions| && id != ""
    ensures Held(trace[i + 1], id) + LostAt(trace[i], actions[i], id) == Held(trace[i], id) + TakenAt(trace[i], actions[i], id)
  {
    InterleavedInv(account, pairing, trace, actions, i);
    assert StepAt(account, pairing, trace, actions, i);
    StepBalances(account, pairing, trace[i], actions[i], trace[i + 1], id);
  }

  /** What is held under a server id step by step, what comes in and what goes out. */
  ghost predicate Journal(
    trace: seq<World>, actions: seq<Action>, n: nat, id: string,
    held: seq<multiset<Execution>>, ins: seq<multiset<Execution>>, outs: seq<multiset<Execution>>)
    requires n <= |actions| < |trace|
  {
    && |held| == n + 1 && |ins| == n && |outs| == n
    && (forall i :: 0 <= i <= n ==> held[i] == Held(trace[i], id))
    && (forall i :: 0 <= i < n ==> ins[i] == TakenAt(trace[i], actions[i], id))
    && (forall i :: 0 <= i < n ==> outs[i] == LostAt(trace[i], actions[i], id))
  }

  lemma JournalBalances(
    account: string, pairing: Pairing, trace: seq<World>, actions: seq<Action>, n: nat, id: string,
    held: seq<multiset<Execution>>, ins: seq<multiset<Execution>>, outs: seq<multiset<Execution>>)
    requires Run(account, pairing, trace, actions) && n <= |actions| && id != ""
    requires Journal(trace, actions, n, id, held, ins, outs)
    ensures forall i :: 0 <= i < n ==> held[i + 1] + outs[i] == held[i] + ins[i]
  {
    forall i | 0 <= i < n
      ensures held[i + 1] + outs[i] == held[i] + ins[i]
    {
      RunStepBalances(account, pairing, trace, actions, i, id);
    }
  }

  lemma NothingHeldAtStart(id: string)
    ensures Held(START, id) == multiset{}
  {
    PoolEmpty(START.orders, {}, id);
  }

  /**
   Over every interleaving, whatever is lost: under each server id, what is recorded, in hand and
   lost is together exactly what was taken on.
   */
  lemma EveryTradeAccountedFor(
    account: string, pairing: Pairing, trace: seq<World>, actions: seq<Action>, n: nat, id: string)
    requires Run(account, pairing, trace, actions) && n <= |actions| && id != ""
    ensures Held(trace[n], id) + Lost(trace, actions, n, id) == Taken(trace, actions, n, id)
  {
    var held := seq(n + 1, i requires 0 <= i <= n => Held(trace[i], id));
    var ins := seq(n, i requires 0 <= i < n => TakenAt(trace[i], actions[i], id));
    var outs := seq(n, i requires 0 <= i < n => LostAt(trace[i], actions[i], id));
    JournalBalances(account, pairing, trace, actions, n, id, held, ins, outs);
    Balances(held, ins, outs);
    NothingHeldAtStart(id);
  }

  // ----- Which steps lose a trade -----

  predicate OnlyHolder(orders: Orders, id: string, k: string) {
    Holds(orders, id, k) && forall j :: j in orders && Holds(orders, id, j) ==> j == k
  }

  /** A status request inserts its order over the only entry with the given server id. */
  predicate ErasesLast(w: World, a: Action, id: string) {
    a.StatusAdd? && w.client.StatusMissing? && OnlyHolder(w.orders, id, Key(w.client.o))
  }

  /**
   A status request inserts its order over an entry that has got its server id since the lookup,
   while the entry records executions, or the service loop is about to record one and finds no
   other entry for it.
   */
  predicate Harmful(w: World, a: Action) {
    && a.StatusAdd? && w.client.StatusMissing?
    && var k := Key(w.client.o);
       && k in w.orders && w.orders[k].orderID != ""
       && (w.orders[k].executions != [] || (w.service.TradeKnown? && ErasesLast(w, a, TradeID(w.service.t))))
  }

  /** From step m on, when its order was found or fetched, a trade waits to be recorded until step n. */
  ghost predicate Waits(trace: seq<World>, m: nat, n: nat) {
    && m < n < |trace| && trace[n].service.TradeKnown? && !trace[m].service.TradeKnown?
    && forall i :: m < i <= n ==> trace[i].service == trace[n].service
  }

  lemma {:induction false} WaitBegins(account: string, pairing: Pairing, trace: seq<World>, actions: seq<Action>, n: nat)
    returns (m: nat)
    requires Run(account, pairing, trace, actions) && n <= |actions| && trace[n].service.TradeKnown?
    ensures Waits(trace, m, n)
  {
    assert StepAt(account, pairing, trace, actions, n - 1);
    if trace[n - 1].service.TradeKnown? {
      m := WaitBegins(account, pairing, trace, actions, n - 1);
    } else {
      m := n - 1;
    }
  }

  /** When a trade comes to be recorded next, some entry has its server id. */
  lemma KnownAtFirst(account: string, pairing: Pairing, w: World, a: Action, w': World)
    requires WorldOk(pairing, w) && Step(account, pairing, w, a, w')
    requires !w.service.TradeKnown? && w'.service.TradeKnown?
    ensures Known(w'.orders, TradeID(w'.service.t))
  {
    if a.TradeSetID? {
      assert Holds(w'.orders, ServerID(w.service.o), Key(w.service.o));
    }
  }

  /** While a trade waits, its server id is forgotten exactly by inserting over the only entry with it. */
  lemma ForgottenExactly(account: string, pairing: Pairing, w: World, a: Action)
    requires WorldOk(pairing, w) && Enabled(pairing, w, a) && !ByService(a) && w.service.TradeKnown?
    ensures var id := TradeID(w.service.t);
      Known(Next(account, pairing, w, a).orders, id) <==> Known(w.orders, id) && !ErasesLast(w, a, id)
  {
    var id, w' := TradeID(w.service.t), Next(account, pairing, w, a);
    if !Known(w.orders, id) {
      ClientAddsNoID(account, pairing, w, a, id);
    } else if ErasesLast(w, a, id) {
      assert forall j :: j in w'.orders ==> !Holds(w'.orders, id, j);
    } else {
      var k :| k in w.orders && Holds(w.orders, id, k) && !(a.StatusAdd? && k == Key(w.client.o));
      assert Holds(w'.orders, id, k);
    }
  }

  ghost predicate ErasedBetween(trace: seq<World>, actions: seq<Action>, m: nat, n: nat, id: string)
    requires n <= |actions| < |trace|
  {
    exists e :: m < e < n && ErasesLast(trace[e], actions[e], id)
  }

  /** A step that leaves the trade waiting is one of the FIX session. */
  lemma WaitingStep(account: string, pairing: Pairing, w: World, a: Action, w': World)
    requires WorldOk(pairing, w) && Step(account, pairing, w, a, w')
    requires w.service.TradeKnown? && w'.service == w.service
    ensures var id := TradeID(w.service.t); Known(w'.orders, id) <==> Known(w.orders, id) && !ErasesLast(w, a, id)
  {
    assert !ByService(a);
    ForgottenExactly(account, pairing, w, a);
  }

  lemma WaitingAt(account: string, pairing: Pairing, trace: seq<World>, actions: seq<Action>, i: nat, id: string)
    requires Run(account, pairing, trace, actions) && i < |actions|
    requires trace[i].service.TradeKnown? && trace[i + 1].service == trace[i].service && id == TradeID(trace[i].service.t)
    ensures Known(trace[i + 1].orders, id) <==> Known(trace[i].orders, id) && !ErasesLast(trace[i], actions[i], id)
  {
    InterleavedInv(account, pairing, trace, actions, i);
    assert StepAt(account, pairing, trace, actions, i);
    WaitingStep(account, pairing, trace[i], actions[i], trace[i + 1]);
  }

  lemma KnownFrom(account: string, pairing: Pairing, trace: seq<World>, actions: seq<Action>, m: nat, id: string)
    requires Run(account, pairing, trace, actions) && m < |actions|
    requires !trace[m].service.TradeKnown? && trace[m + 1].service.TradeKnown? && id == TradeID(trace[m + 1].service.t)
    ensures Known(trace[m + 1].orders, id)
  {
    InterleavedInv(account, pairing, trace, actions, m);
    assert StepAt(account, pairing, trace, actions, m);
    KnownAtFirst(account, pairing, trace[m], actions[m], trace[m + 1]);
  }

  lemma ErasedSnoc(trace: seq<World>, actions: seq<Action>, m: nat, n: nat, id: string)
    requires m < n < |actions| < |trace|
    ensures ErasedBetween(trace, actions, m, n + 1, id) <==>
            ErasedBetween(trace, actions, m, n, id) || ErasesLast(trace[n], actions[n], id)
  {
    if ErasedBetween(trace, actions, m, n + 1, id) {
      var e :| m < e < n + 1 && ErasesLast(trace[e], actions[e], id);
    }
  }

  /** The trade is as well off as the steps so far have left it. */
  ghost predicate KnownUnlessErased(trace: seq<World>, actions: seq<Action>, m: nat, n: nat, id: string)
    requires n <= |actions| < |trace|
  {
    Known(trace[n].orders, id) <==> !ErasedBetween(trace, actions, m, n, id)
  }

  lemma WaitingExtends(account: string, pairing: Pairing, trace: seq<World>, actions: seq<Action>, m: nat, i: nat, id: string)
    requires Run(account, pairing, trace, actions) && m < i < |actions|
    requires trace[i].service.TradeKnown? && trace[i + 1].service == trace[i].service && id == TradeID(trace[i].service.t)
    requires KnownUnlessErased(trace, actions, m, i, id)
    ensures KnownUnlessErased(trace, actions, m, i + 1, id)
  {
    WaitingAt(account, pairing, trace, actions, i, id);
    ErasedSnoc(trace, actions, m, i, id);
  }

  lemma {:induction false} WaitingKnownExactly(
    account: string, pairing: Pairing, trace: seq<World>, actions: seq<Action>, m: nat, n: nat, id: string)
    requires Run(account, pairing, trace, actions) && n <= |actions|
    requires Waits(trace, m, n) && id == TradeID(trace[n].service.t)
    ensures KnownUnlessErased(trace, actions, m, n, id)
  {
    if n == m + 1 {
      KnownFrom(account, pairing, trace, actions, m, id);
    } else {
      WaitingKnownExactly(account, pairing, trace, actions, m, n - 1, id);
      WaitingExtends(account, pairing, trace, actions, m, n - 1, id);
    }
  }

  /**
   Over every interleaving: AddExecution refuses a trade whose order was found, or fetched and
   given its server id, by step m exactly when a status request has been inserted since over the
   only entry with that server id.
   */
  lemma RecordRefusedExactly(account: string, pairing: Pairing, trace: seq<World>, actions: seq<Action>, m: nat, n: nat)
    requires Run(account, pairing, trace, actions) && n < |actions| && actions[n].TradeRecord? && Waits(trace, m, n)
    ensures TradeExecution(trace[n].service.t) in LostAt(trace[n], actions[n], TradeID(trace[n].service.t)) <==>
            ErasedBetween(trace, actions, m, n, TradeID(trace[n].service.t))
  {
    WaitingKnownExactly(account, pairing, trace, actions, m, n, TradeID(trace[n].service.t));
  }

  predicate Loses(w: World, a: Action) {
    || (a.StatusAdd? && w.client.StatusMissing? && HasExecutions(w.orders, Key(w.client.o)))
    || (a.TradeRecord? && w.service.TradeKnown? && !Known(w.orders, TradeID(w.service.t)))
  }

  /** A step that discards nothing under any server id, and one that does. */
  lemma LosesShown(pairing: Pairing, w: World, a: Action)
    requires WorldOk(pairing, w)
    ensures Loses(w, a) <==> exists id :: id != "" && LostAt(w, a, id) != multiset{}
  {
    if Loses(w, a) {
      if a.StatusAdd? {
        var k := Key(w.client.o);
        assert EntryOk(pairing, k, w.orders[k]);
        assert w.orders[k].executions[0] in LostAt(w, a, w.orders[k].orderID);
      } else {
        assert TradeExecution(w.service.t) in LostAt(w, a, TradeID(w.service.t));
      }
    }
  }

  ghost predicate NoneHarmful(trace: seq<World>, actions: seq<Action>, n: nat)
    requires n <= |actions| < |trace|
  {
    forall i :: 0 <= i < n ==> !Harmful(trace[i], actions[i])
  }

  /** A loss has a harmful insertion before it, or is one. */
  lemma LossHasCause(account: string, pairing: Pairing, trace: seq<World>, actions: seq<Action>, i: nat)
    requires Run(account, pairing, trace, actions) && i < |actions| && Loses(trace[i], actions[i])
    ensures !NoneHarmful(trace, actions, i + 1)
  {
    InterleavedInv(account, pairing, trace, actions, i);
    assert StepAt(account, pairing, trace, actions, i);
    if actions[i].StatusAdd? {
      assert EntryOk(pairing, Key(trace[i].client.o), trace[i].orders[Key(trace[i].client.o)]);
      assert Harmful(trace[i], actions[i]);
    } else {
      var id := TradeID(trace[i].service.t);
      var m := WaitBegins(account, pairing, trace, actions, i);
      WaitingKnownExactly(account, pairing, trace, actions, m, i, id);
      var e :| m < e < i && ErasesLast(trace[e], actions[e], id);
      assert trace[e].service == trace[i].service;
      assert Harmful(trace[e], actions[e]);
    }
  }

  /** A trade without an entry to go to stays without one, or is lost. */
  lemma ForgottenStep(account: string, pairing: Pairing, w: World, a: Action, w': World)
    requires WorldOk(pairing, w) && Step(account, pairing, w, a, w')
    requires w.service.TradeKnown?
    requires !Known(w.orders, TradeID(w.service.t)) || ErasesLast(w, a, TradeID(w.service.t))
    ensures (w'.service == w.service && !Known(w'.orders, TradeID(w.service.t))) || Loses(w, a)
  {
    if !ByService(a) {
      ForgottenExactly(account, pairing, w, a);
    }
  }

  lemma ForgottenAt(account: string, pairing: Pairing, trace: seq<World>, actions: seq<Action>, i: nat)
    requires Run(account, pairing, trace, actions) && i < |actions| && trace[i].service.TradeKnown?
    requires var id := TradeID(trace[i].service.t); !Known(trace[i].orders, id) || ErasesLast(trace[i], actions[i], id)
    ensures (trace[i + 1].service == trace[i].service && !Known(trace[i + 1].orders, TradeID(trace[i].service.t)))
            || Loses(trace[i], actions[i])
  {
    InterleavedInv(account, pairing, trace, actions, i);
    assert StepAt(account, pairing, trace, actions, i);
    ForgottenStep(account, pairing, trace[i], actions[i], trace[i + 1]);
  }

  lemma {:induction false} ForgottenIsLost(
    account: string, pairing: Pairing, trace: seq<World>, actions: seq<Action>, e: nat, n: nat)
    requires Run(account, pairing, trace, actions) && e < n <= |actions|
    requires trace[e].service.TradeKnown? && ErasesLast(trace[e], actions[e], TradeID(trace[e].service.t))
    ensures (trace[n].service == trace[e].service && !Known(trace[n].orders, TradeID(trace[e].service.t)))
            || exists i :: e <= i < n && Loses(trace[i], actions[i])
  {
    if n == e + 1 {
      ForgottenAt(account, pairing, trace, actions, e);
    } else {
      ForgottenIsLost(account, pairing, trace, actions, e, n - 1);
      if !exists i :: e <= i < n - 1 && Loses(trace[i], actions[i]) {
        ForgottenAt(account, pairing, trace, actions, n - 1);
        assert trace[n] == trace[n - 1 + 1];
      }
    }
  }

  lemma HarmHasLoss(account: string, pairing: Pairing, trace: seq<World>, actions: seq<Action>, e: nat, n: nat)
    returns (i: nat)
    requires Run(account, pairing, trace, actions) && e < n <= |actions|
    requires Harmful(trace[e], actions[e]) && trace[n].service.Idle?
    ensures i < n && Loses(trace[i], actions[i])
  {
    if Loses(trace[e], actions[e]) {
      i := e;
    } else {
      ForgottenIsLost(account, pairing, trace, actions, e, n);
      i :| e <= i < n && Loses(trace[i], actions[i]);
    }
  }

  lemma LostThenLoses(account: string, pairing: Pairing, trace: seq<World>, actions: seq<Action>, n: nat, id: string)
    returns (i: nat)
    requires Run(account, pairing, trace, actions) && n <= |actions|
    requires id != "" && Lost(trace, actions, n, id) != multiset{}
    ensures i < n && Loses(trace[i], actions[i])
  {
    var outs := seq(n, i requires 0 <= i < n => LostAt(trace[i], actions[i], id));
    EmptyExactly(outs);
    i :| 0 <= i < n && outs[i] != multiset{};
    InterleavedInv(account, pairing, trace, actions, i);
    LosesShown(pairing, trace[i], actions[i]);
  }

  lemma LosesThenLost(account: string, pairing: Pairing, trace: seq<World>, actions: seq<Action>, n: nat, i: nat)
    returns (id: string)
    requires Run(account, pairing, trace, actions) && i < n <= |actions| && Loses(trace[i], actions[i])
    ensures id != "" && Lost(trace, actions, n, id) != multiset{}
  {
    InterleavedInv(account, pairing, trace, actions, i);
    LosesShown(pairing, trace[i], actions[i]);
    id :| id != "" && LostAt(trace[i], actions[i], id) != multiset{};
    var outs := seq(n, j requires 0 <= j < n => LostAt(trace[j], actions[j], id));
    EmptyExactly(outs);
    assert outs[i] != multiset{};
  }

  /**
   Over all interleavings, as long as no insertion was harmful: the executions recorded under a
   server id, with the trade in hand, are exactly the trades taken on for it.
   */
  lemma InterleavedConservation(
    account: string, pairing: Pairing, trace: seq<World>, actions: seq<Action>, n: nat, id: string)
    requires Run(account, pairing, trace, actions) && n <= |actions| && NoneHarmful(trace, actions, n) && id != ""
    ensures Held(trace[n], id) == Taken(trace, actions, n, id)
    ensures trace[n].service.Idle? ==>
      forall es :: multiset(es) == Taken(trace, actions, n, id) ==>
        FilledSum(trace[n].orders, trace[n].orders.Keys, id) == TotalQty(es)
  {
    EveryTradeAccountedFor(account, pairing, trace, actions, n, id);
    forall i | 0 <= i < n
      ensures !Loses(trace[i], actions[i])
    {
      if Loses(trace[i], actions[i]) {
        LossHasCause(account, pairing, trace, actions, i);
      }
    }
    if Lost(trace, actions, n, id) != multiset{} {
      var i := LostThenLoses(account, pairing, trace, actions, n, id);
    }
    if trace[n].service.Idle? {
      FilledSumIsPooled(trace[n].orders, trace[n].orders.Keys, id);
      forall es | multiset(es) == Taken(trace, actions, n, id)
        ensures FilledSum(trace[n].orders, trace[n].orders.Keys, id) == TotalQty(es)
      {
        TotalsOrderFree(Recorded(trace[n].orders, id), es);
      }
    }
  }

  ghost predicate AllRecorded(trace: seq<World>, actions: seq<Action>, n: nat)
    requires n <= |actions| < |trace|
  {
    forall id :: id != "" ==> multiset(Recorded(trace[n].orders, id)) == Taken(trace, actions, n, id)
  }

  /**
   Whenever the service loop is between two messages: every trade taken on so far is recorded,
   once and under its server id, exactly when no status request has been inserted harmfully.
   */
  lemma AllRecordedExactly(account: string, pairing: Pairing, trace: seq<World>, actions: seq<Action>, n: nat)
    requires Run(account, pairing, trace, actions) && n <= |actions| && trace[n].service.Idle?
    ensures AllRecorded(trace, actions, n) <==> NoneHarmful(trace, actions, n)
  {
    if NoneHarmful(trace, actions, n) {
      forall id | id != ""
        ensures multiset(Recorded(trace[n].orders, id)) == Taken(trace, actions, n, id)
      {
        InterleavedConservation(account, pairing, trace, actions, n, id);
      }
    } else {
      var e :| 0 <= e < n && Harmful(trace[e], actions[e]);
      var i := HarmHasLoss(account, pairing, trace, actions, e, n);
      var id := LosesThenLost(account, pairing, trace, actions, n, i);
      EveryTradeAccountedFor(account, pairing, trace, actions, n, id);
      var lost :| lost in Lost(trace, actions, n, id);
      assert multiset(Recorded(trace[n].orders, id))[lost] < Taken(trace, actions, n, id)[lost];
    }
  }

  lemma KnownAlone(k: string, o: CachedOrder, id: string)
    ensures Known(map[k := o], id) <==> o.orderID == id
  {
    if o.orderID == id {
      assert Holds(map[k := o], id, k);
    }
  }

  /**
   An order is entered, a status request looks it up in vain, the venue acknowledges it, its first
   trade finds it known, and then the status request inserts it: the trade is neither recorded
   nor reported, although no execution was ever overwritten.
   */
  lemma KnownThenErased(account: string, o: VenueOrder, t: TradeUpdate, terms: Terms)
    returns (trace: seq<World>, actions: seq<Action>)
    requires t.orderID == o.id
    ensures actions == [EnterOrder(Key(o), terms), StatusLookup(o), AckUpdate(o), TradeLookup(t, None), StatusAdd, TradeRecord("")]
    ensures Run(account, map[o.cid as int := o.id as int], trace, actions)
    ensures forall i :: 0 <= i < |trace| ==> !HasExecutions(trace[i].orders, Key(o))
    ensures TakenAt(trace[3], actions[3], ServerID(o)) == multiset{TradeExecution(t)}
    ensures trace[6].service.Idle? && !AllRecorded(trace, actions, 6)
  {
    trace, actions := ErasingTrace(account, o, t, terms), ErasingActions(o, t, terms);
    ErasingRun(account, o, t, terms);
    ErasingRunHarms(account, o, t, terms);
    AllRecordedExactly(account, map[o.cid as int := o.id as int], trace, actions, 6);
  }

  function ErasingActions(o: VenueOrder, t: TradeUpdate, terms: Terms): (actions: seq<Action>) {
    [EnterOrder(Key(o), terms), StatusLookup(o), AckUpdate(o), TradeLookup(t, None), StatusAdd, TradeRecord("")]
  }

  function ErasingTrace(account: string, o: VenueOrder, t: TradeUpdate, terms: Terms): (trace: seq<World>) {
    var k := Key(o);
    var entered, added := Entered(k, terms), Entered(k, VenueTerms(o, account, o.amount));
    var acked := entered.(orderID := ServerID(o));
    [START, World(map[k := entered], Idle, Free), World(map[k := entered], Idle, StatusMissing(o)),
     World(map[k := acked], Idle, StatusMissing(o)), World(map[k := acked], TradeKnown(t), StatusMissing(o)),
     World(map[k := added], TradeKnown(t), Free), World(map[k := added], Idle, Free)]
  }

  lemma ErasingRun(account: string, o: VenueOrder, t: TradeUpdate, terms: Terms)
    requires t.orderID == o.id
    ensures Run(account, map[o.cid as int := o.id as int], ErasingTrace(account, o, t, terms), ErasingActions(o, t, terms))
  {
    var pairing: Pairing := map[o.cid as int := o.id as int];
    var entered, added := Entered(Key(o), terms), Entered(Key(o), VenueTerms(o, account, o.amount));
    var trace, actions := ErasingTrace(account, o, t, terms), ErasingActions(o, t, terms);
    UntilAcknowledged(account, pairing, o, entered, terms);
    AfterAcknowledged(account, pairing, o, t, entered.(orderID := ServerID(o)), added);
    assert StepAt(account, pairing, trace, actions, 0) && StepAt(account, pairing, trace, actions, 1);
    assert StepAt(account, pairing, trace, actions, 2) && StepAt(account, pairing, trace, actions, 3);
    assert StepAt(account, pairing, trace, actions, 4) && StepAt(account, pairing, trace, actions, 5);
  }

  lemma ErasingRunHarms(account: string, o: VenueOrder, t: TradeUpdate, terms: Terms)
    requires t.orderID == o.id
    ensures var trace, actions := ErasingTrace(account, o, t, terms), ErasingActions(o, t, terms);
      && (forall i :: 0 <= i < |trace| ==> !HasExecutions(trace[i].orders, Key(o)))
      && TakenAt(trace[3], actions[3], ServerID(o)) == multiset{TradeExecution(t)}
      && Harmful(trace[4], actions[4])
  {
    var pairing: Pairing := map[o.cid as int := o.id as int];
    var entered, added := Entered(Key(o), terms), Entered(Key(o), VenueTerms(o, account, o.amount));
    AfterAcknowledged(account, pairing, o, t, entered.(orderID := ServerID(o)), added);
  }

  lemma UntilAcknowledged(account: string, pairing: Pairing, o: VenueOrder, entered: CachedOrder, terms: Terms)
    requires Pairs(pairing, o) && entered == Entered(Key(o), terms)
    ensures var w := World(map[Key(o) := entered], Idle, Free);
      && Step(account, pairing, START, EnterOrder(Key(o), terms), w)
      && Step(account, pairing, w, StatusLookup(o), w.(client := StatusMissing(o)))
      && Step(account, pairing, w.(client := StatusMissing(o)), AckUpdate(o),
              World(map[Key(o) := entered.(orderID := ServerID(o))], Idle, StatusMissing(o)))
  {
    KnownAlone(Key(o), entered, ServerID(o));
  }

  lemma AfterAcknowledged(
    account: string, pairing: Pairing, o: VenueOrder, t: TradeUpdate, acked: CachedOrder, added: CachedOrder)
    requires acked.orderID == ServerID(o) && added == Entered(Key(o), VenueTerms(o, account, o.amount)) && t.orderID == o.id
    ensures var w := World(map[Key(o) := acked], TradeKnown(t), StatusMissing(o));
      && Step(account, pairing, w.(service := Idle), TradeLookup(t, None), w)
      && TakenAt(w.(service := Idle), TradeLookup(t, None), ServerID(o)) == multiset{TradeExecution(t)}
      && Harmful(w, StatusAdd)
      && Step(account, pairing, w, StatusAdd, World(map[Key(o) := added], TradeKnown(t), Free))
      && Step(account, pairing, World(map[Key(o) := added], TradeKnown(t), Free), TradeRecord(""),
              World(map[Key(o) := added], Idle, Free))
  {
    KnownAlone(Key(o), acked, ServerID(o));
    KnownAlone(Key(o), added, ServerID(o));
    assert OnlyHolder(map[Key(o) := acked], ServerID(o), Key(o));
  }
}
