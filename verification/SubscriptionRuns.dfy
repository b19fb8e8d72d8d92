/**
 What clients and venue see of market data requests over a run, in terms of requests, answers and
 effects: who is served, who is turned away as a duplicate, and which subscriptions are left.
 */
module SubscriptionRuns {
  import opened Wrappers
  import opened DecimalText
  import opened OrderCache
  import opened Subscriptions

  // ----- Serving a symbol -----

  /** Market data of the symbol is sent to the client, or subscribed for it. */
  predicate Serving(f: Effect) {
    f.SnapshotSent? || f.BookSubscribed?
  }

  /** The request id or the symbol is taken. */
  predicate Taken(reg: Registry, mdReqID: string, symbol: string) {
    (exists s :: s in reg.symbolToReqID && reg.symbolToReqID[s] == mdReqID) || symbol in reg.symbolToReqID
  }

  lemma TakenValues(reg: Registry, mdReqID: string, symbol: string)
    ensures Taken(reg, mdReqID, symbol) <==> mdReqID in reg.symbolToReqID.Values || symbol in reg.symbolToReqID
  {
  }

  /** What a request asks for that registers its symbol. */
  predicate Registers(subType: SubType) {
    subType.Snapshot? || subType.SnapshotPlusUpdates?
  }

  /** The venue has answered the request for the symbol. */
  predicate Answered(subType: SubType, item: Item) {
    (subType.Snapshot? && item.snapshotOk) || (subType.SnapshotPlusUpdates? && item.book.Some?)
  }

  /** A list of effects serves nothing, or starts by serving the symbol and serves nothing after. */
  predicate ServesOnly(effects: seq<Effect>, served: bool, symbol: string) {
    if served then
      effects != [] && Serving(effects[0]) && effects[0].symbol == symbol && NothingServed(effects[1..])
    else NothingServed(effects)
  }

  predicate NothingServed(effects: seq<Effect>) {
    forall i :: 0 <= i < |effects| ==> !Serving(effects[i])
  }

  lemma FirstSymbol(reg: Registry, mdReqID: string, subType: SubType, item: Item)
    requires item.symbol.Some?
    ensures var r, symbol := ServeItem(reg, mdReqID, subType, item), SymbolOf(item);
      && (Taken(reg, mdReqID, symbol) ==> r == Outcome(reg, [MarketDataReject(mdReqID, DuplicateMDReqID)], false))
      && (!Taken(reg, mdReqID, symbol) ==>
            && r.reg.symbolToReqID == (if Registers(subType) then reg.symbolToReqID[symbol := mdReqID] else reg.symbolToReqID)
            && ServesOnly(r.effects, Answered(subType, item), symbol)
            && forall i :: 0 <= i < |r.effects| && r.effects[i].MarketDataReject? ==> r.effects[i].reason != DuplicateMDReqID)
  {
    TakenValues(reg, mdReqID, SymbolOf(item));
  }

  /** Requests of the other two types register nothing and serve nobody. */
  lemma {:induction false} OtherTypesServeNobody(reg: Registry, mdReqID: string, subType: SubType, items: seq<Item>)
    requires !Registers(subType)
    ensures var r := ServeItems(reg, mdReqID, subType, items); r.reg == reg && NothingServed(r.effects)
    decreases |items|
  {
    if items != [] {
      var first := ServeItem(reg, mdReqID, subType, items[0]);
      assert first.reg == reg && NothingServed(first.effects);
      if first.proceed {
        OtherTypesServeNobody(reg, mdReqID, subType, items[1..]);
      }
    }
  }

  lemma ServesFirst(effects: seq<Effect>, served: bool, symbol: string)
    requires ServesOnly(effects, served, symbol)
    ensures forall i :: 0 <= i < |effects| && Serving(effects[i]) ==> i == 0 && served
  {
    forall i | 0 < i < |effects|
      ensures !Serving(effects[i])
    {
      if served {
        assert effects[1..][i - 1] == effects[i];
      }
    }
  }

  lemma ServesThenNothing(a: seq<Effect>, b: seq<Effect>, served: bool, symbol: string)
    requires ServesOnly(a, served, symbol) && NothingServed(b)
    ensures ServesOnly(a + b, served, symbol)
  {
    if served {
      assert (a + b)[1..] == a[1..] + b;
    }
  }

  /**
   What a request does, from its first symbol: nothing but one duplicate reject when its id or that
   symbol is taken; otherwise the symbol is registered, whatever the venue answers, and served
   exactly when the venue has answered. No further symbol of the request is registered or served.
   */
  lemma RequestExactly(reg: Registry, req: Request)
    requires Admitted(req) && req.items[0].symbol.Some?
    ensures var r, id, symbol := Serve(reg, req), req.mdReqID.value, SymbolOf(req.items[0]);
      if Taken(reg, id, symbol) then r.reg == reg && r.effects == [MarketDataReject(id, DuplicateMDReqID)]
      else
        && ServesOnly(r.effects, Answered(req.subType.value, req.items[0]), symbol)
        && r.reg.symbolToReqID == (if Registers(req.subType.value) then reg.symbolToReqID[symbol := id] else reg.symbolToReqID)
  {
    var id, subType, item := req.mdReqID.value, req.subType.value, req.items[0];
    var first := ServeItem(reg, id, subType, item);
    FirstSymbol(reg, id, subType, item);
    if !Registers(subType) {
      OtherTypesServeNobody(reg, id, subType, req.items);
    } else if !Taken(reg, id, SymbolOf(item)) && first.proceed {
      assert first.reg.symbolToReqID[SymbolOf(item)] == id;
      RegisteredThenIdle(first.reg, id, subType, req.items[1..]);
      ServesThenNothing(first.effects, ServeItems(first.reg, id, subType, req.items[1..]).effects,
                        Answered(subType, item), SymbolOf(item));
    }
  }

  /** The reason a request that is no duplicate is turned away for. */
  function TurnedAway(subType: SubType): (reason: RejectReason) {
    if subType.OtherSubType? then UnsupportedSubType else UnknownSymbol
  }

  /**
   In a consistent registry a request that is no duplicate and is not answered gets a reject first,
   with the reason that fits its type.
   */
  lemma UnansweredRejected(reg: Registry, req: Request)
    requires RegistryOk(reg) && Admitted(req) && req.items[0].symbol.Some?
    requires !Taken(reg, req.mdReqID.value, SymbolOf(req.items[0])) && !Answered(req.subType.value, req.items[0])
    ensures var effects := Serve(reg, req).effects;
      effects != [] && effects[0] == MarketDataReject(req.mdReqID.value, TurnedAway(req.subType.value))
  {
    var id, subType, item := req.mdReqID.value, req.subType.value, req.items[0];
    TakenValues(reg, id, SymbolOf(item));
    var first := ServeItem(reg, id, subType, item);
    assert first.effects == [MarketDataReject(id, TurnedAway(subType))];
  }

  /** The first symbol of the request has been served with all that belongs to it. */
  predicate WentThrough(subType: SubType, item: Item) {
    || (subType.Snapshot? && item.snapshotOk && item.sendOk)
    || (subType.SnapshotPlusUpdates? && item.book.Some? && item.trades.Some?)
  }

  /**
   Of the further symbols of a request the next one alone gets a reject, as a duplicate of the
   request itself, exactly when the first symbol has gone through.
   */
  lemma FurtherSymbolsRejected(reg: Registry, req: Request)
    requires Admitted(req) && req.items[0].symbol.Some? && Registers(req.subType.value)
    requires !Taken(reg, req.mdReqID.value, SymbolOf(req.items[0]))
    ensures var id, subType := req.mdReqID.value, req.subType.value;
      Serve(reg, req).effects == ServeItem(reg, id, subType, req.items[0]).effects +
        if WentThrough(subType, req.items[0]) && |req.items| > 1 && req.items[1].symbol.Some?
        then [MarketDataReject(id, DuplicateMDReqID)] else []
  {
    var id, subType, item := req.mdReqID.value, req.subType.value, req.items[0];
    var first := ServeItem(reg, id, subType, item);
    FirstSymbol(reg, id, subType, item);
    if first.proceed && |req.items| > 1 {
      assert first.reg.symbolToReqID[SymbolOf(item)] == id;
      var rest := req.items[1..];
      assert rest[0] == req.items[1];
      if rest[0].symbol.Some? {
        FirstSymbol(first.reg, id, subType, rest[0]);
        assert Taken(first.reg, id, SymbolOf(rest[0]));
        assert ServeItems(first.reg, id, subType, rest).effects == [MarketDataReject(id, DuplicateMDReqID)];
      } else {
        assert ServeItems(first.reg, id, subType, rest).effects == [];
      }
    } else {
      assert first.proceed ==> ServeItems(first.reg, id, subType, req.items[1..]).effects == [];
      assert first.effects + [] == first.effects;
    }
  }

  /** A request is admitted exactly when it names symbols, an id, a type, and a depth and precision that exist. */
  lemma AdmittedExactly(req: Request)
    ensures Admitted(req) <==>
      && |req.items| > 0 && req.mdReqID != None && req.subType != None
      && (exists depth: nat :: req.depth == Some(depth))
      && (forall p :: req.precision == Some(p) ==> |p| == 2 && ((p[0] == 'P' && '0' <= p[1] <= '3') || (p[0] == 'R' && p[1] == '0')))
  {
    if req.precision.Some? {
      var p := req.precision.value;
      assert |p| == 2 ==> p == [p[0], p[1]];
      assert "P0" == ['P', '0'] && "P1" == ['P', '1'] && "P2" == ['P', '2'] && "P3" == ['P', '3'] && "R0" == ['R', '0'];
    }
    if req.depth.Some? && req.depth.value >= 0 {
      var depth: nat := req.depth.value;
      assert req.depth == Some(depth);
    }
  }

  /** A request without a first symbol, or not admitted, does nothing at all. */
  lemma NoSymbolNothing(reg: Registry, req: Request)
    requires !Admitted(req) || req.items[0].symbol.None?
    ensures Serve(reg, req).reg == reg && Serve(reg, req).effects == []
  {
  }

  // ----- Over a run -----

  /** Event n serves the symbol, by its effect i. */
  ghost predicate ServesAt(trace: seq<Registry>, events: seq<Event>, n: nat, i: nat, symbol: string)
    requires n < |events| < |trace|
  {
    && events[n].MarketDataRequest?
    && i < |EffectsOf(trace[n], events[n])|
    && var f := EffectsOf(trace[n], events[n])[i]; Serving(f) && f.symbol == symbol
  }

  /** The item asks for the venue symbol: its translation, or itself when the symbol master knows none. */
  predicate AsksFor(item: Item, symbol: string) {
    item.symbol.Some? && (item.translated == Some(symbol) || (item.translated.None? && item.symbol == Some(symbol)))
  }

  lemma ServedRegistered(trace: seq<Registry>, events: seq<Event>, n: nat, i: nat, symbol: string)
    requires Run(trace, events) && n < |events| && ServesAt(trace, events, n, i, symbol)
    ensures i == 0
    ensures var req := events[n].req;
      && Admitted(req) && AsksFor(req.items[0], symbol)
      && !Taken(trace[n], req.mdReqID.value, symbol)
      && trace[n + 1].symbolToReqID == trace[n].symbolToReqID[symbol := req.mdReqID.value]
  {
    var req := events[n].req;
    assert trace[n + 1] == Apply(trace[n], events[n]);
    if !Admitted(req) || req.items[0].symbol.None? {
      NoSymbolNothing(trace[n], req);
    } else {
      RequestExactly(trace[n], req);
      ServesFirst(Serve(trace[n], req).effects, Answered(req.subType.value, req.items[0]), SymbolOf(req.items[0]));
    }
  }

  /** Once a symbol has been served, it is mapped to the id of the request for the rest of the run. */
  lemma ServedStaysMapped(trace: seq<Registry>, events: seq<Event>, m: nat, i: nat, n: nat, symbol: string)
    requires Run(trace, events) && m < n <= |events| && ServesAt(trace, events, m, i, symbol)
    ensures symbol in trace[n].symbolToReqID && Some(trace[n].symbolToReqID[symbol]) == events[m].req.mdReqID
  {
    ServedRegistered(trace, events, m, i, symbol);
    WriteOnce(trace, events, m + 1, n);
  }

  /**
   From then on every admitted request with that id, or for that symbol first, yields exactly one
   reject as a duplicate, and changes nothing.
   */
  lemma ServedThenRejected(trace: seq<Registry>, events: seq<Event>, m: nat, i: nat, n: nat, symbol: string)
    requires Run(trace, events) && m < n < |events| && ServesAt(trace, events, m, i, symbol)
    requires events[n].MarketDataRequest? && Admitted(events[n].req) && events[n].req.items[0].symbol.Some?
    requires events[n].req.mdReqID == events[m].req.mdReqID || AsksFor(events[n].req.items[0], symbol)
    ensures EffectsOf(trace[n], events[n]) == [MarketDataReject(events[n].req.mdReqID.value, DuplicateMDReqID)]
    ensures trace[n + 1] == trace[n]
  {
    ServedStaysMapped(trace, events, m, i, n, symbol);
    RequestExactly(trace[n], events[n].req);
    assert trace[n + 1] == Apply(trace[n], events[n]);
  }

  /** No two servings of a run are for one symbol, or for one request id. */
  lemma NeverServedTwice(
    trace: seq<Registry>, events: seq<Event>, m: nat, i: nat, n: nat, j: nat, symbol: string, symbol': string)
    requires Run(trace, events) && m <= n < |events| && (m, i) != (n, j)
    requires ServesAt(trace, events, m, i, symbol) && ServesAt(trace, events, n, j, symbol')
    ensures symbol != symbol' && events[m].req.mdReqID != events[n].req.mdReqID
  {
    ServedRegistered(trace, events, m, i, symbol);
    ServedRegistered(trace, events, n, j, symbol');
    assert m < n;
    ServedStaysMapped(trace, events, m, i, n, symbol);
    assert symbol in trace[n].symbolToReqID;
  }

  /** A request the venue could not answer is not served when it is repeated: it has become its own duplicate. */
  lemma FailedRequestBlocksItself(trace: seq<Registry>, events: seq<Event>, m: nat, n: nat)
    requires Run(trace, events) && m < n < |events|
    requires events[m].MarketDataRequest? && Admitted(events[m].req) && events[m].req.items[0].symbol.Some?
    requires Registers(events[m].req.subType.value) && !Answered(events[m].req.subType.value, events[m].req.items[0])
    requires !Taken(trace[m], events[m].req.mdReqID.value, SymbolOf(events[m].req.items[0]))
    requires events[n].MarketDataRequest? && Admitted(events[n].req)
    requires events[n].req.mdReqID == events[m].req.mdReqID && events[n].req.items[0].symbol.Some?
    ensures NothingServed(EffectsOf(trace[m], events[m]))
    ensures EffectsOf(trace[n], events[n]) == [MarketDataReject(events[n].req.mdReqID.value, DuplicateMDReqID)]
  {
    RequestExactly(trace[m], events[m].req);
    assert trace[m + 1] == Apply(trace[m], events[m]);
    var symbol := SymbolOf(events[m].req.items[0]);
    assert symbol in trace[m + 1].symbolToReqID;
    WriteOnce(trace, events, m + 1, n);
    assert symbol in trace[n].symbolToReqID && Some(trace[n].symbolToReqID[symbol]) == events[n].req.mdReqID;
    RequestExactly(trace[n], events[n].req);
  }

  // ----- Subscriptions left -----

  /** The websocket subscriptions some request uses. */
  ghost function Used(reg: Registry): (ids: set<string>) {
    (set q | q in reg.mdReqIDs :: reg.mdReqIDs[q].marketData) + (set q | q in reg.mdReqIDs :: reg.mdReqIDs[q].trade)
  }

  ghost function SubscribedIn(effects: seq<Effect>): (ids: set<string>) {
    set f | f in effects && (f.BookSubscribed? || f.TradesSubscribed?) :: f.id
  }

  ghost function RolledBackIn(effects: seq<Effect>): (ids: set<string>) {
    set f | f in effects && f.RolledBack? :: f.id
  }

  /** The ids are nonces issued after the first and up to the second. */
  ghost predicate IssuedWithin(ids: set<string>, after: int, upTo: int) {
    forall x :: x in ids ==> exists k: nat :: after < k <= upTo && x == FormatNat(k)
  }

  /** What one request leaves subscribed is what it registers, under nonces of its own. */
  ghost predicate Balanced(reg: Registry, r: Outcome) {
    && Used(r.reg) == Used(reg) + (SubscribedIn(r.effects) - RolledBackIn(r.effects))
    && RolledBackIn(r.effects) <= SubscribedIn(r.effects)
    && IssuedWithin(SubscribedIn(r.effects), reg.last, r.reg.last)
    && reg.last <= r.reg.last
  }

  lemma UsedAfter(reg: Registry, mdReqID: string, ids: SubIDs, last: nat)
    requires mdReqID !in reg.mdReqIDs
    ensures Used(reg.(mdReqIDs := reg.mdReqIDs[mdReqID := ids], last := last)) == Used(reg) + {ids.marketData, ids.trade}
  {
    var after := reg.mdReqIDs[mdReqID := ids];
    assert forall q :: q in reg.mdReqIDs ==> q in after && after[q] == reg.mdReqIDs[q];
    assert after[mdReqID] == ids;
  }

  lemma SubscribeBalanced(reg: Registry, mdReqID: string, symbol: string, item: Item)
    requires mdReqID !in reg.mdReqIDs && FreshDraws(reg, item)
    ensures Balanced(reg, Subscribe(reg, mdReqID, symbol, item))
  {
    var r := Subscribe(reg, mdReqID, symbol, item);
    match item.book
    case None =>
      assert SubscribedIn(r.effects) == {} && RolledBackIn(r.effects) == {};
    case Some(b) =>
      var book := FormatNat(b);
      assert r.effects[0] == BookSubscribed(symbol, book);
      match item.trades
      case None =>
        assert r.effects[1] == RolledBack(book);
        assert SubscribedIn(r.effects) == {book} && RolledBackIn(r.effects) == {book};
      case Some(t) =>
        assert r.effects[1] == TradesSubscribed(symbol, FormatNat(t));
        assert SubscribedIn(r.effects) == {book, FormatNat(t)} && RolledBackIn(r.effects) == {};
        UsedAfter(reg, mdReqID, SubIDs(book, FormatNat(t)), t);
  }

  lemma ItemBalanced(reg: Registry, mdReqID: string, subType: SubType, item: Item)
    requires RegistryOk(reg) && FreshDraws(reg, item)
    ensures Balanced(reg, ServeItem(reg, mdReqID, subType, item))
  {
    var r := ServeItem(reg, mdReqID, subType, item);
    if subType.SnapshotPlusUpdates? && item.symbol.Some?
       && mdReqID !in reg.symbolToReqID.Values && SymbolOf(item) !in reg.symbolToReqID {
      var registered := reg.(symbolToReqID := reg.symbolToReqID[SymbolOf(item) := mdReqID]);
      SubscribeBalanced(registered, mdReqID, SymbolOf(item), item);
      assert Used(registered) == Used(reg);
    } else {
      assert SubscribedIn(r.effects) == {} && RolledBackIn(r.effects) == {};
      assert Used(r.reg) == Used(reg);
    }
  }

  lemma IdleBalanced(reg: Registry, r: Outcome, more: seq<Effect>)
    requires Balanced(reg, r) && forall f :: f in more ==> f.MarketDataReject?
    ensures Balanced(reg, r.(effects := r.effects + more))
    ensures Balanced(reg, r.(effects := more + r.effects))
  {
    EffectsAppend(r.effects, more);
    EffectsAppend(more, r.effects);
    assert SubscribedIn(more) == {} && RolledBackIn(more) == {};
  }

  lemma EffectsAppend(a: seq<Effect>, b: seq<Effect>)
    ensures SubscribedIn(a + b) == SubscribedIn(a) + SubscribedIn(b)
    ensures RolledBackIn(a + b) == RolledBackIn(a) + RolledBackIn(b)
  {
    assert forall f :: f in a + b <==> f in a || f in b;
  }

  lemma {:induction false} ItemsBalanced(reg: Registry, mdReqID: string, subType: SubType, items: seq<Item>)
    requires RegistryOk(reg) && forall i :: 0 <= i < |items| ==> FreshDraws(reg, items[i])
    ensures Balanced(reg, ServeItems(reg, mdReqID, subType, items))
    decreases |items|
  {
    if items == [] {
      assert SubscribedIn([]) == {} && RolledBackIn([]) == {};
    } else {
      var first := ServeItem(reg, mdReqID, subType, items[0]);
      ItemBalanced(reg, mdReqID, subType, items[0]);
      if first.proceed {
        ServeItemKeeps(reg, mdReqID, subType, items[0]);
        if first.reg == reg {
          ItemsBalanced(reg, mdReqID, subType, items[1..]);
          UnchangedOnlyRejects(reg, mdReqID, subType, items[0]);
          IdleBalanced(reg, ServeItems(reg, mdReqID, subType, items[1..]), first.effects);
        } else {
          RegisteredThenIdle(first.reg, mdReqID, subType, items[1..]);
          IdleBalanced(reg, first, ServeItems(first.reg, mdReqID, subType, items[1..]).effects);
        }
      }
    }
  }

  lemma UnchangedOnlyRejects(reg: Registry, mdReqID: string, subType: SubType, item: Item)
    requires RegistryOk(reg)
    ensures var r := ServeItem(reg, mdReqID, subType, item);
      r.reg == reg && r.proceed ==> forall f :: f in r.effects ==> f.MarketDataReject?
  {
    if item.symbol.Some? {
      var r, symbol := ServeItem(reg, mdReqID, subType, item), SymbolOf(item);
      FirstSymbol(reg, mdReqID, subType, item);
      if !Taken(reg, mdReqID, symbol) && Registers(subType) {
        assert symbol in r.reg.symbolToReqID && symbol !in reg.symbolToReqID;
      }
    }
  }

  /** All websocket subscriptions made in the first n events, and those rolled back. */
  ghost function AllSubscribed(trace: seq<Registry>, events: seq<Event>, n: nat): (ids: set<string>)
    requires n <= |events| < |trace|
  {
    if n == 0 then {} else AllSubscribed(trace, events, n - 1) + SubscribedIn(EffectsOf(trace[n - 1], events[n - 1]))
  }

  ghost function AllRolledBack(trace: seq<Registry>, events: seq<Event>, n: nat): (ids: set<string>)
    requires n <= |events| < |trace|
  {
    if n == 0 then {} else AllRolledBack(trace, events, n - 1) + RolledBackIn(EffectsOf(trace[n - 1], events[n - 1]))
  }

  /** Ids issued later are new. */
  lemma LaterIssuedApart(a: set<string>, b: set<string>, last: int, last': int)
    requires IssuedWithin(a, -1, last) && IssuedWithin(b, last, last')
    ensures a * b == {}
  {
    if x :| x in a && x in b {
      var i: nat :| i <= last && x == FormatNat(i);
      var j: nat :| last < j && x == FormatNat(j);
      FormatNatDiffers(i, j);
    }
  }

  lemma EventBalanced(reg: Registry, e: Event)
    requires RegistryOk(reg) && FreshNonces(reg, e)
    ensures Balanced(reg, Outcome(Apply(reg, e), EffectsOf(reg, e), true))
  {
    if e.MarketDataRequest? && Admitted(e.req) {
      ItemsBalanced(reg, e.req.mdReqID.value, e.req.subType.value, e.req.items);
    } else {
      assert SubscribedIn([]) == {} && RolledBackIn([]) == {};
      assert Used(Apply(reg, e)) == Used(reg);
    }
  }

  lemma {:induction false} RunBalanced(trace: seq<Registry>, events: seq<Event>, n: nat)
    requires Run(trace, events) && n <= |events|
    ensures Used(trace[n]) == AllSubscribed(trace, events, n) - AllRolledBack(trace, events, n)
    ensures AllRolledBack(trace, events, n) <= AllSubscribed(trace, events, n)
    ensures IssuedWithin(AllSubscribed(trace, events, n), -1, trace[n].last)
  {
    if n > 0 {
      var m := n - 1;
      RunBalanced(trace, events, m);
      RunKeeps(trace, events, m);
      EventBalanced(trace[m], events[m]);
      assert trace[m + 1] == Apply(trace[m], events[m]);
      LaterIssuedApart(AllSubscribed(trace, events, m), SubscribedIn(EffectsOf(trace[m], events[m])), trace[m].last, trace[n].last);
      BalanceStep(Used(trace[m]), AllSubscribed(trace, events, m), AllRolledBack(trace, events, m),
                  SubscribedIn(EffectsOf(trace[m], events[m])), RolledBackIn(EffectsOf(trace[m], events[m])));
      IssuedLater(AllSubscribed(trace, events, m), SubscribedIn(EffectsOf(trace[m], events[m])), trace[m].last, trace[n].last);
    }
  }

  lemma IssuedLater(a: set<string>, b: set<string>, last: int, last': int)
    requires IssuedWithin(a, -1, last) && IssuedWithin(b, last, last') && -1 <= last <= last'
    ensures IssuedWithin(a + b, -1, last')
  {
    forall x | x in a + b
      ensures exists k: nat :: -1 < k <= last' && x == FormatNat(k)
    {
      if x in a {
        var k: nat :| k <= last && x == FormatNat(k);
        assert -1 < k <= last';
      } else {
        var k: nat :| last < k <= last' && x == FormatNat(k);
        assert -1 < k <= last';
      }
    }
  }

  lemma BalanceStep(used: set<string>, a: set<string>, gone: set<string>, b: set<string>, goneNow: set<string>)
    requires used == a - gone && gone <= a && goneNow <= b && a * b == {}
    ensures used + (b - goneNow) == (a + b) - (gone + goneNow)
  {
    forall x
      ensures x in used + (b - goneNow) <==> x in (a + b) - (gone + goneNow)
    {
      assert x in a && x in b ==> x in a * b;
    }
  }

  /**
   Over every run, the websocket subscriptions made and not rolled back are exactly those the
   reverse lookup leads back to a request.
   */
  lemma LiveSubscriptionsExactly(trace: seq<Registry>, events: seq<Event>, n: nat, id: string)
    requires Run(trace, events) && n <= |events|
    ensures id in AllSubscribed(trace, events, n) && id !in AllRolledBack(trace, events, n) <==>
            exists q :: q in trace[n].mdReqIDs && Uses(trace[n].mdReqIDs[q], id)
  {
    RunBalanced(trace, events, n);
    assert id in Used(trace[n]) <==> exists q :: q in trace[n].mdReqIDs && Uses(trace[n].mdReqIDs[q], id);
  }
}
