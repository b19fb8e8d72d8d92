/**
 The handlers as uninterrupted sequences of cache operations: each event of the state machine in
 `OrderEvents` is what the steps in `CacheInterleavings` do when nothing comes between them, so
 every run of handlers is one of the interleavings.
 */
module InterleavingEmbeds {
  import opened Wrappers
  import opened DecimalText
  import opened FixTypes
  import opened OrderCache
  import opened OrderMessages
  import Events = OrderEvents
  import Handlers = OrderRuns
  import opened CacheInterleavings
  import Convert

  /** The steps lead from one world to the other. */
  ghost predicate Leads(account: string, pairing: Handlers.Pairing, w: World, script: seq<Action>, w': World)
    decreases |script|
  {
    if script == [] then w' == w
    else Enabled(pairing, w, script[0]) && Leads(account, pairing, Next(account, pairing, w, script[0]), script[1..], w')
  }

  function AtRest(orders: Orders): (w: World) {
    World(orders, Idle, Free)
  }

  lemma LeadsOne(account: string, pairing: Handlers.Pairing, w: World, a: Action)
    requires Enabled(pairing, w, a)
    ensures Leads(account, pairing, w, [a], Next(account, pairing, w, a))
  {
  }

  lemma LeadsMore(account: string, pairing: Handlers.Pairing, w: World, a: Action, script: seq<Action>, w': World)
    requires Enabled(pairing, w, a) && Leads(account, pairing, Next(account, pairing, w, a), script, w')
    ensures Leads(account, pairing, w, [a] + script, w')
  {
    assert ([a] + script)[1..] == script;
  }

  lemma ReplaceScript(sn: Events.Session, pairing: Handlers.Pairing, orders: Orders, p: Events.Replacement)
    returns (script: seq<Action>)
    requires p.clOrdID !in orders && Handlers.Agrees(pairing, p.clOrdID, p.orderID)
    requires p.origClOrdID in orders && orders[p.origClOrdID].orderID == p.orderID && ParseInt(p.orderID).Some?
    ensures Leads(sn.account, pairing, AtRest(orders), script, AtRest(Events.AfterReplace(orders, p)))
  {
    var w := AtRest(orders);
    var found := w.(client := ReplaceFound(p.orderID));
    var added := Next(sn.account, pairing, found, ReplaceAdd(p.clOrdID, p.terms));
    LeadsOne(sn.account, pairing, added, ReplaceSetID);
    LeadsMore(sn.account, pairing, found, ReplaceAdd(p.clOrdID, p.terms), [ReplaceSetID], AtRest(Events.AfterReplace(orders, p)));
    script := [ReplaceAdd(p.clOrdID, p.terms)] + [ReplaceSetID];
    LeadsMore(sn.account, pairing, w, ReplaceLookup(p.origClOrdID), script, AtRest(Events.AfterReplace(orders, p)));
    script := [ReplaceLookup(p.origClOrdID)] + script;
  }

  lemma AckScript(sn: Events.Session, pairing: Handlers.Pairing, orders: Orders, o: VenueOrder)
    returns (script: seq<Action>)
    requires Handlers.Pairs(pairing, o)
    ensures Leads(sn.account, pairing, AtRest(orders), script, AtRest(Events.AfterAck(orders, o, sn.account)))
  {
    var w := AtRest(orders);
    if Key(o) in orders {
      LeadsOne(sn.account, pairing, w, AckUpdate(o));
      script := [AckUpdate(o)];
    } else {
      var missing := w.(service := AckMissing(o));
      var added := Next(sn.account, pairing, missing, AckAdd);
      LeadsOne(sn.account, pairing, added, AckSetID);
      LeadsMore(sn.account, pairing, missing, AckAdd, [AckSetID], AtRest(Events.AfterAck(orders, o, sn.account)));
      script := [AckAdd] + [AckSetID];
      LeadsMore(sn.account, pairing, w, AckUpdate(o), script, AtRest(Events.AfterAck(orders, o, sn.account)));
      script := [AckUpdate(o)] + script;
    }
  }

  lemma RecordScript(sn: Events.Session, pairing: Handlers.Pairing, orders: Orders, t: TradeUpdate, hit: string)
    requires Known(orders, TradeID(t)) && Holds(orders, TradeID(t), hit)
    ensures Leads(sn.account, pairing, World(orders, TradeKnown(t), Free), [TradeRecord(hit)],
                  AtRest(WithExecution(orders, hit, Events.TradeExecution(t))))
  {
    LeadsOne(sn.account, pairing, World(orders, TradeKnown(t), Free), TradeRecord(hit));
  }

  /** A trade whose order REST tells of: the order is added and given its server id, then the trade recorded. */
  lemma FetchedScript(
    sn: Events.Session, pairing: Handlers.Pairing, orders: Orders, t: TradeUpdate, o: VenueOrder, hit: string)
    returns (script: seq<Action>)
    requires o.id == t.orderID && Handlers.Pairs(pairing, o) && !Known(orders, TradeID(t))
    requires Holds(Events.AfterFallback(orders, t, Some(o), sn.account), TradeID(t), hit)
    ensures Leads(sn.account, pairing, AtRest(orders), script,
                  AtRest(WithExecution(Events.AfterFallback(orders, t, Some(o), sn.account), hit, Events.TradeExecution(t))))
  {
    var fetched := Events.AfterFallback(orders, t, Some(o), sn.account);
    var end := AtRest(WithExecution(fetched, hit, Events.TradeExecution(t)));
    var missing := World(orders, TradeMissing(t, o), Free);
    var added := Next(sn.account, pairing, missing, TradeAdd);
    RecordScript(sn, pairing, fetched, t, hit);
    FetchedWorld(sn, pairing, orders, t, o);
    LeadsMore(sn.account, pairing, added, TradeSetID, [TradeRecord(hit)], end);
    script := [TradeSetID] + [TradeRecord(hit)];
    LeadsMore(sn.account, pairing, missing, TradeAdd, script, end);
    script := [TradeAdd] + script;
    LeadsMore(sn.account, pairing, AtRest(orders), TradeLookup(t, Some(o)), script, end);
    script := [TradeLookup(t, Some(o))] + script;
  }

  lemma FetchedWorld(sn: Events.Session, pairing: Handlers.Pairing, orders: Orders, t: TradeUpdate, o: VenueOrder)
    requires o.id == t.orderID && !Known(orders, TradeID(t))
    ensures var added := Next(sn.account, pairing, World(orders, TradeMissing(t, o), Free), TradeAdd);
      Enabled(pairing, added, TradeSetID)
      && Next(sn.account, pairing, added, TradeSetID)
           == World(Events.AfterFallback(orders, t, Some(o), sn.account), TradeKnown(t), Free)
  {
  }

  lemma TradeScript(sn: Events.Session, pairing: Handlers.Pairing, s: Events.State, e: Events.Event, s': Events.State)
    returns (script: seq<Action>)
    requires Handlers.Step(sn, pairing, s, e, s') && e.Trade?
    ensures Leads(sn.account, pairing, AtRest(s.orders), script, AtRest(s'.orders))
  {
    var w := AtRest(s.orders);
    var t, rest, hit := e.t, e.rest, e.hit;
    if Known(s.orders, TradeID(t)) {
      RecordScript(sn, pairing, s.orders, t, hit);
      LeadsMore(sn.account, pairing, w, TradeLookup(t, rest), [TradeRecord(hit)], AtRest(s'.orders));
      script := [TradeLookup(t, rest)] + [TradeRecord(hit)];
    } else if rest.None? {
      LeadsOne(sn.account, pairing, w, TradeLookup(t, rest));
      script := [TradeLookup(t, rest)];
    } else {
      assert Holds(Events.AfterFallback(s.orders, t, rest, sn.account), TradeID(t), Key(rest.value));
      script := FetchedScript(sn, pairing, s.orders, t, rest.value, hit);
    }
  }

  lemma StatusScript(sn: Events.Session, pairing: Handlers.Pairing, orders: Orders, o: VenueOrder)
    returns (script: seq<Action>)
    requires Handlers.Pairs(pairing, o)
    ensures Leads(sn.account, pairing, AtRest(orders), script, AtRest(Events.AfterStatus(orders, o, sn.account)))
  {
    var w := AtRest(orders);
    if Known(orders, ServerID(o)) {
      LeadsOne(sn.account, pairing, w, StatusLookup(o));
      script := [StatusLookup(o)];
    } else {
      var missing := w.(client := StatusMissing(o));
      LeadsOne(sn.account, pairing, missing, StatusAdd);
      LeadsMore(sn.account, pairing, w, StatusLookup(o), [StatusAdd], AtRest(Events.AfterStatus(orders, o, sn.account)));
      script := [StatusLookup(o)] + [StatusAdd];
    }
  }

  /** Each event of the state machine is a sequence of cache operations with nothing in between. */
  lemma EventIsScript(sn: Events.Session, pairing: Handlers.Pairing, s: Events.State, e: Events.Event, s': Events.State)
    returns (script: seq<Action>)
    requires Handlers.Step(sn, pairing, s, e, s')
    ensures Leads(sn.account, pairing, AtRest(s.orders), script, AtRest(s'.orders))
  {
    script := [];
    match e
    case NewOrder(msg, translated) =>
      var r := AcceptNewOrder(msg, translated, sn.account);
      if r.Ok? {
        script := [EnterOrder(r.value.clOrdID, r.value.terms)];
        LeadsOne(sn.account, pairing, AtRest(s.orders), script[0]);
      }
    case Replace(msg) =>
      var r := Events.AcceptReplace(s.orders, msg, sn.account);
      if r.Ok? {
        ReplacementParts(s.orders, msg, sn.account);
        script := ReplaceScript(sn, pairing, s.orders, r.value);
      }
    case Ack(o, error) =>
      if !error {
        script := AckScript(sn, pairing, s.orders, o);
      }
    case Trade(_, _, _, _) => script := TradeScript(sn, pairing, s, e, s');
    case StatusQuery(answer) =>
      if answer.Some? {
        script := StatusScript(sn, pairing, s.orders, answer.value);
      }
    case ReadOnly =>
  }

  lemma ReplacementParts(orders: Orders, msg: OrderMessage, account: string)
    requires Events.AcceptReplace(orders, msg, account).Ok?
    ensures var p := Events.AcceptReplace(orders, msg, account).value;
      p.origClOrdID in orders && orders[p.origClOrdID].orderID == p.orderID && ParseInt(p.orderID).Some?
  {
  }

  lemma {:induction false} RunOnScript(
    account: string, pairing: Handlers.Pairing, trace: seq<World>, actions: seq<Action>, script: seq<Action>, w': World)
    returns (trace': seq<World>, actions': seq<Action>)
    requires Run(account, pairing, trace, actions) && Leads(account, pairing, trace[|actions|], script, w')
    ensures Run(account, pairing, trace', actions') && actions' == actions + script && trace'[|actions'|] == w'
    decreases |script|
  {
    trace', actions' := trace, actions;
    if script == [] {
      assert actions + script == actions;
    } else {
      var w := trace[|actions|];
      var next := Next(account, pairing, w, script[0]);
      RunSnoc(account, pairing, trace, actions, script[0]);
      trace', actions' := RunOnScript(account, pairing, trace + [next], actions + [script[0]], script[1..], w');
      assert actions + [script[0]] + script[1..] == actions + script;
    }
  }

  lemma RunSnoc(account: string, pairing: Handlers.Pairing, trace: seq<World>, actions: seq<Action>, a: Action)
    requires Run(account, pairing, trace, actions) && Enabled(pairing, trace[|actions|], a)
    ensures Run(account, pairing, trace + [Next(account, pairing, trace[|actions|], a)], actions + [a])
  {
    var trace', actions' := trace + [Next(account, pairing, trace[|actions|], a)], actions + [a];
    forall i | 0 <= i < |actions'|
      ensures StepAt(account, pairing, trace', actions', i)
    {
      assert i < |actions| ==> StepAt(account, pairing, trace, actions, i);
    }
  }

  /** Every run of handlers is an interleaving, with the same cache in the end. */
  lemma {:induction false} RunsEmbed(
    sn: Events.Session, pairing: Handlers.Pairing, trace: seq<Events.State>, events: seq<Events.Event>, n: nat)
    returns (worlds: seq<World>, actions: seq<Action>)
    requires Handlers.Run(sn, pairing, trace, events) && n <= |events|
    ensures Run(sn.account, pairing, worlds, actions) && worlds[|actions|] == AtRest(trace[n].orders)
  {
    if n == 0 {
      worlds, actions := [START], [];
    } else {
      worlds, actions := RunsEmbed(sn, pairing, trace, events, n - 1);
      assert Handlers.StepAt(sn, pairing, trace, events, n - 1);
      var script := EventIsScript(sn, pairing, trace[n - 1], events[n - 1], trace[n - 1 + 1]);
      worlds, actions := RunOnScript(sn.account, pairing, worlds, actions, script, AtRest(trace[n].orders));
    }
  }
}
