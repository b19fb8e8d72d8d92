/**
 Market data subscriptions (service/fix/fix_msg.go, OnFIXMarketDataRequest): a check-then-write
 loop over the requested symbols keeps two maps, symbol to FIX request id and FIX request id
 to websocket subscription ids. Subscription ids are nonces.
 */
module Subscriptions {
  import opened Wrappers
  import opened DecimalText
  import opened OrderCache

  datatype SubType = Snapshot | SnapshotPlusUpdates | DisablePrevious | OtherSubType

  /** One requested symbol with what the outside answered while it was being served. */
  datatype Item = Item(
    symbol: Option<string>, translated: Option<string>, snapshotOk: bool,
    book: Option<nat>, trades: Option<nat>, sendOk: bool)

  datatype Request = Request(
    items: seq<Item>, mdReqID: Option<string>, subType: Option<SubType>, depth: Option<int>, precision: Option<string>)

  datatype RejectReason = DuplicateMDReqID | UnknownSymbol | UnsupportedSubType

  datatype Effect =
    | MarketDataReject(mdReqID: string, reason: RejectReason)
    | SnapshotSent(symbol: string)
    | BookSubscribed(symbol: string, id: string)
    | TradesSubscribed(symbol: string, id: string)
    | RolledBack(id: string)
    | Unsubscribed(book: string, trades: string)

  /** The two maps, and the last nonce issued in the process. */
  datatype Registry = Registry(symbolToReqID: map<string, string>, mdReqIDs: map<string, SubIDs>, last: nat)

  const EMPTY_REGISTRY := Registry(map[], map[], 0)

  datatype Outcome = Outcome(reg: Registry, effects: seq<Effect>, proceed: bool)

  function SymbolOf(item: Item): (s: string)
    requires item.symbol.Some?
  {
    if item.translated.Some? then item.translated.value else item.symbol.value
  }

  /** One round of the loop over the requested symbols. */
  function ServeItem(reg: Registry, mdReqID: string, subType: SubType, item: Item): (r: Outcome) {
    if item.symbol.None? then Outcome(reg, [], false)
    else
      var symbol := SymbolOf(item);
      if mdReqID in reg.symbolToReqID.Values || symbol in reg.symbolToReqID then
        Outcome(reg, [MarketDataReject(mdReqID, DuplicateMDReqID)], false)
      else
        var registered := reg.(symbolToReqID := reg.symbolToReqID[symbol := mdReqID]);
        match subType
        case OtherSubType => Outcome(reg, [MarketDataReject(mdReqID, UnsupportedSubType)], item.sendOk)
        case Snapshot =>
          if item.snapshotOk then Outcome(registered, [SnapshotSent(symbol)], item.sendOk)
          else Outcome(registered, [MarketDataReject(mdReqID, UnknownSymbol)], false)
        case SnapshotPlusUpdates => Subscribe(registered, mdReqID, symbol, item)
        case DisablePrevious =>
          if mdReqID in reg.mdReqIDs then
            var ids := reg.mdReqIDs[mdReqID];
            Outcome(reg, [Unsubscribed(ids.marketData, ids.trade)], false)
          else Outcome(reg, [MarketDataReject(mdReqID, UnknownSymbol)], item.sendOk)
  }

  /** Subscribe to the book, then to the trades, and roll the book back when the trades fail. */
  function Subscribe(reg: Registry, mdReqID: string, symbol: string, item: Item): (r: Outcome) {
    match item.book
    case None => Outcome(reg, [MarketDataReject(mdReqID, UnknownSymbol)], false)
    case Some(b) =>
      var book := FormatNat(b);
      match item.trades
      case None =>
        Outcome(reg.(last := b), [BookSubscribed(symbol, book), RolledBack(book), MarketDataReject(mdReqID, UnknownSymbol)], false)
      case Some(t) =>
        var trades := FormatNat(t);
        Outcome(reg.(mdReqIDs := reg.mdReqIDs[mdReqID := SubIDs(book, trades)], last := t),
                [BookSubscribed(symbol, book), TradesSubscribed(symbol, trades)], true)
  }

  function ServeItems(reg: Registry, mdReqID: string, subType: SubType, items: seq<Item>): (r: Outcome)
    decreases |items|
  {
    if items == [] then Outcome(reg, [], true)
    else
      var first := ServeItem(reg, mdReqID, subType, items[0]);
      if !first.proceed then first
      else
        var rest := ServeItems(first.reg, mdReqID, subType, items[1..]);
        Outcome(rest.reg, first.effects + rest.effects, rest.proceed)
  }

  predicate ValidPrecision(p: string) {
    p == "P0" || p == "P1" || p == "P2" || p == "P3" || p == "R0"
  }

  /** The checks made before the first symbol is looked at. */
  predicate Admitted(req: Request) {
    && req.items != []
    && req.mdReqID.Some? && req.subType.Some?
    && req.depth.Some? && req.depth.value >= 0
    && (req.precision.Some? ==> ValidPrecision(req.precision.value))
  }

  function Serve(reg: Registry, req: Request): (r: Outcome) {
    if !Admitted(req) then Outcome(reg, [], false)
    else ServeItems(reg, req.mdReqID.value, req.subType.value, req.items)
  }

  // ----- The handler as it runs -----

  class MarketDataSession {
    const cache: Cache
    ghost var last: nat

    ghost function Now(): Registry
      reads this, cache
    {
      Registry(cache.symbolToReqID, cache.mdReqIDs, last)
    }

    constructor ()
      ensures fresh(cache) && Now() == EMPTY_REGISTRY
    {
      cache := new Cache();
      last := 0;
    }

    method OnMarketDataRequest(req: Request) returns (effects: seq<Effect>)
      modifies this, cache
      ensures Now() == Serve(old(Now()), req).reg
      ensures effects == Serve(old(Now()), req).effects
    {
      effects := [];
      if req.items == [] || req.mdReqID.None? || req.subType.None? || req.depth.None? || req.depth.value < 0 {
        return;
      }
      if req.precision.Some? && !ValidPrecision(req.precision.value) {
        return;
      }
      var mdReqID, subType := req.mdReqID.value, req.subType.value;
      ghost var whole := ServeItems(Now(), mdReqID, subType, req.items);
      var i := 0;
      assert req.items[0..] == req.items;
      while i < |req.items|
        invariant 0 <= i <= |req.items|
        invariant ServeItems(Now(), mdReqID, subType, req.items[i..]).reg == whole.reg
        invariant effects + ServeItems(Now(), mdReqID, subType, req.items[i..]).effects == whole.effects
      {
        assert req.items[i..][0] == req.items[i] && req.items[i..][1..] == req.items[i + 1..];
        ghost var before := effects;
        var more, proceed := OnSymbol(mdReqID, subType, req.items[i]);
        effects := effects + more;
        if !proceed {
          return;
        }
        assert before + (more + ServeItems(Now(), mdReqID, subType, req.items[i + 1..]).effects)
            == effects + ServeItems(Now(), mdReqID, subType, req.items[i + 1..]).effects;
        i := i + 1;
      }
      assert req.items[i..] == [];
    }

    method OnSymbol(mdReqID: string, subType: SubType, item: Item) returns (effects: seq<Effect>, proceed: bool)
      modifies this, cache
      ensures Outcome(Now(), effects, proceed) == ServeItem(old(Now()), mdReqID, subType, item)
    {
      if item.symbol.None? {
        return [], false;
      }
      var symbol := item.symbol.value;
      if item.translated.Some? {
        symbol := item.translated.value;
      }
      var exists_ := cache.MDReqIDExists(mdReqID);
      if exists_ {
        return [MarketDataReject(mdReqID, DuplicateMDReqID)], false;
      }
      var has := cache.LookupMDReqID(symbol);
      if has.Some? {
        return [MarketDataReject(mdReqID, DuplicateMDReqID)], false;
      }
      match subType
      case OtherSubType => return [MarketDataReject(mdReqID, UnsupportedSubType)], item.sendOk;
      case Snapshot =>
        cache.MapSymbolToReqID(symbol, mdReqID);
        if !item.snapshotOk {
          return [MarketDataReject(mdReqID, UnknownSymbol)], false;
        }
        return [SnapshotSent(symbol)], item.sendOk;
      case SnapshotPlusUpdates =>
        cache.MapSymbolToReqID(symbol, mdReqID);
        if item.book.None? {
          return [MarketDataReject(mdReqID, UnknownSymbol)], false;
        }
        var book := FormatNat(item.book.value);
        last := item.book.value;
        if item.trades.None? {
          return [BookSubscribed(symbol, book), RolledBack(book), MarketDataReject(mdReqID, UnknownSymbol)], false;
        }
        var trades := FormatNat(item.trades.value);
        last := item.trades.value;
        cache.MapMDReqIDs(mdReqID, book, trades);
        return [BookSubscribed(symbol, book), TradesSubscribed(symbol, trades)], true;
      case DisablePrevious =>
        var ids := cache.LookupAPIReqIDs(mdReqID);
        if ids.Some? {
          return [Unsubscribed(ids.value.marketData, ids.value.trade)], false;
        }
        return [MarketDataReject(mdReqID, UnknownSymbol)], item.sendOk;
    }
  }

  // ----- What every run keeps -----

  ghost predicate InjectiveMap(m: map<string, string>) {
    forall a, b :: a in m && b in m && m[a] == m[b] ==> a == b
  }

  /** The subscription ids of a request, as numbers. */
  ghost predicate IssuedBy(ids: SubIDs, last: nat) {
    exists b: nat, t: nat :: Issued(ids, b, t) && b < t <= last
  }

  predicate Issued(ids: SubIDs, b: nat, t: nat) {
    ids == SubIDs(FormatNat(b), FormatNat(t))
  }

  ghost predicate Separate(a: SubIDs, b: SubIDs) {
    a.marketData != b.marketData && a.marketData != b.trade && a.trade != b.marketData && a.trade != b.trade
  }

  ghost predicate RegistryOk(reg: Registry) {
    && InjectiveMap(reg.symbolToReqID)
    && reg.mdReqIDs.Keys <= reg.symbolToReqID.Values
    && (forall q :: q in reg.mdReqIDs ==> IssuedBy(reg.mdReqIDs[q], reg.last))
    && (forall p, q :: p in reg.mdReqIDs && q in reg.mdReqIDs && p != q ==> Separate(reg.mdReqIDs[p], reg.mdReqIDs[q]))
  }

  /** Nonces drawn for a symbol are larger than every nonce issued before. */
  predicate FreshDraws(reg: Registry, item: Item) {
    item.book.Some? ==>
      reg.last < item.book.value && (item.trades.Some? ==> item.book.value < item.trades.value)
  }

  /** Nothing recorded is ever changed or forgotten. */
  predicate Extends(reg: Registry, reg': Registry) {
    && (forall s :: s in reg.symbolToReqID ==> s in reg'.symbolToReqID && reg'.symbolToReqID[s] == reg.symbolToReqID[s])
    && (forall q :: q in reg.mdReqIDs ==> q in reg'.mdReqIDs && reg'.mdReqIDs[q] == reg.mdReqIDs[q])
    && reg.last <= reg'.last
  }

  lemma FreshIds(ids: SubIDs, last: nat, b: nat, t: nat)
    requires IssuedBy(ids, last) && last < b < t
    ensures Separate(ids, SubIDs(FormatNat(b), FormatNat(t)))
  {
    var b': nat, t': nat :| Issued(ids, b', t') && b' < t' <= last;
    FormatNatDiffers(b', b);
    FormatNatDiffers(b', t);
    FormatNatDiffers(t', b);
    FormatNatDiffers(t', t);
  }

  lemma IssuedMonotone(ids: SubIDs, last: nat, last': nat)
    requires IssuedBy(ids, last) && last <= last'
    ensures IssuedBy(ids, last')
  {
    var b: nat, t: nat :| Issued(ids, b, t) && b < t <= last;
  }

  /** Registering a new symbol under a new request id. */
  lemma RegisterKeeps(reg: Registry, symbol: string, mdReqID: string)
    requires RegistryOk(reg) && symbol !in reg.symbolToReqID && mdReqID !in reg.symbolToReqID.Values
    ensures RegistryOk(reg.(symbolToReqID := reg.symbolToReqID[symbol := mdReqID]))
    ensures mdReqID in reg.symbolToReqID[symbol := mdReqID].Values
  {
    var m := reg.symbolToReqID;
    var m' := m[symbol := mdReqID];
    assert m'[symbol] in m'.Values;
    forall v | v in m.Values
      ensures v in m'.Values
    {
      var s :| s in m && m[s] == v;
      assert m'[s] == v;
    }
  }

  lemma SubscribeKeeps(reg: Registry, mdReqID: string, symbol: string, item: Item)
    requires RegistryOk(reg) && FreshDraws(reg, item)
    requires mdReqID in reg.symbolToReqID.Values && mdReqID !in reg.mdReqIDs
    ensures RegistryOk(Subscribe(reg, mdReqID, symbol, item).reg) && Extends(reg, Subscribe(reg, mdReqID, symbol, item).reg)
  {
    if item.book.Some? {
      var reg' := Subscribe(reg, mdReqID, symbol, item).reg;
      forall q | q in reg.mdReqIDs
        ensures IssuedBy(reg.mdReqIDs[q], reg'.last)
      {
        IssuedMonotone(reg.mdReqIDs[q], reg.last, reg'.last);
      }
      if item.trades.Some? {
        var b, t := item.book.value, item.trades.value;
        assert Issued(reg'.mdReqIDs[mdReqID], b, t);
        forall q | q in reg.mdReqIDs
          ensures Separate(reg.mdReqIDs[q], reg'.mdReqIDs[mdReqID])
        {
          FreshIds(reg.mdReqIDs[q], reg.last, b, t);
        }
      }
    }
  }

  /**
   Serving one symbol keeps the registry consistent and never overwrites; once the request id
   is registered the rest of the request is rejected; and nothing is ever unsubscribed on behalf
   of a disable-previous request.
   */
  lemma ServeItemKeeps(reg: Registry, mdReqID: string, subType: SubType, item: Item)
    requires RegistryOk(reg) && FreshDraws(reg, item)
    ensures var r := ServeItem(reg, mdReqID, subType, item);
      && RegistryOk(r.reg) && Extends(reg, r.reg)
      && (forall e :: e in r.effects ==> !e.Unsubscribed?)
      && (mdReqID in reg.symbolToReqID.Values ==> r.reg == reg)
      && (subType.DisablePrevious? ==> r.reg == reg && forall e :: e in r.effects ==> e.MarketDataReject?)
      && (r.reg == reg || mdReqID in r.reg.symbolToReqID.Values)
      && r.reg.symbolToReqID.Keys <= reg.symbolToReqID.Keys + (if item.symbol.Some? then {SymbolOf(item)} else {})
  {
    if item.symbol.Some? {
      var symbol := SymbolOf(item);
      if mdReqID !in reg.symbolToReqID.Values && symbol !in reg.symbolToReqID {
        RegisterKeeps(reg, symbol, mdReqID);
        if subType.SnapshotPlusUpdates? {
          SubscribeKeeps(reg.(symbolToReqID := reg.symbolToReqID[symbol := mdReqID]), mdReqID, symbol, item);
        }
      }
    }
  }

  /** Once a request id is registered, the remaining symbols of its request change nothing. */
  lemma {:induction false} RegisteredThenIdle(reg: Registry, mdReqID: string, subType: SubType, items: seq<Item>)
    requires mdReqID in reg.symbolToReqID.Values
    ensures ServeItems(reg, mdReqID, subType, items).reg == reg
    ensures forall e :: e in ServeItems(reg, mdReqID, subType, items).effects ==> e.MarketDataReject?
  {
  }

  lemma {:induction false} ServeItemsKeeps(reg: Registry, mdReqID: string, subType: SubType, items: seq<Item>)
    requires RegistryOk(reg) && forall i :: 0 <= i < |items| ==> FreshDraws(reg, items[i])
    ensures var r := ServeItems(reg, mdReqID, subType, items);
      && RegistryOk(r.reg) && Extends(reg, r.reg)
      && (forall e :: e in r.effects ==> !e.Unsubscribed?)
      && (subType.DisablePrevious? ==> r.reg == reg && forall e :: e in r.effects ==> e.MarketDataReject?)
      && exists s :: r.reg.symbolToReqID.Keys <= reg.symbolToReqID.Keys + {s}
    decreases |items|
  {
    if items == [] {
      assert reg.symbolToReqID.Keys <= reg.symbolToReqID.Keys + {""};
    } else {
      ServeItemKeeps(reg, mdReqID, subType, items[0]);
      var first := ServeItem(reg, mdReqID, subType, items[0]);
      if first.reg == reg {
        ServeItemsKeeps(reg, mdReqID, subType, items[1..]);
      } else {
        RegisteredThenIdle(first.reg, mdReqID, subType, items[1..]);
      }
      var s := if items[0].symbol.Some? then SymbolOf(items[0]) else "";
      assert first.reg.symbolToReqID.Keys <= reg.symbolToReqID.Keys + {s};
    }
  }

  // ----- Runs -----

  datatype Event = MarketDataRequest(req: Request) | OtherNonce(n: nat)

  function Apply(reg: Registry, e: Event): (r: Registry) {
    match e
    case MarketDataRequest(req) => Serve(reg, req).reg
    case OtherNonce(n) => reg.(last := n)
  }

  function EffectsOf(reg: Registry, e: Event): (effects: seq<Effect>) {
    if e.MarketDataRequest? then Serve(reg, e.req).effects else []
  }

  /** Every nonce is larger than all nonces before it, those of other sessions included. */
  predicate FreshNonces(reg: Registry, e: Event) {
    match e
    case MarketDataRequest(req) => forall i :: 0 <= i < |req.items| ==> FreshDraws(reg, req.items[i])
    case OtherNonce(n) => reg.last < n
  }

  ghost predicate Run(trace: seq<Registry>, events: seq<Event>) {
    && |trace| == |events| + 1
    && trace[0] == EMPTY_REGISTRY
    && forall i :: 0 <= i < |events| ==> FreshNonces(trace[i], events[i]) && trace[i + 1] == Apply(trace[i], events[i])
  }

  lemma StepKeeps(reg: Registry, e: Event)
    requires RegistryOk(reg) && FreshNonces(reg, e)
    ensures RegistryOk(Apply(reg, e)) && Extends(reg, Apply(reg, e))
    ensures forall f :: f in EffectsOf(reg, e) ==> !f.Unsubscribed?
  {
    match e
    case MarketDataRequest(req) =>
      if Admitted(req) {
        ServeItemsKeeps(reg, req.mdReqID.value, req.subType.value, req.items);
      }
    case OtherNonce(n) =>
      forall q | q in reg.mdReqIDs
        ensures IssuedBy(reg.mdReqIDs[q], n)
      {
        IssuedMonotone(reg.mdReqIDs[q], reg.last, n);
      }
  }

  /** In every run the registry stays consistent. */
  lemma {:induction false} RunKeeps(trace: seq<Registry>, events: seq<Event>, n: nat)
    requires Run(trace, events) && n <= |events|
    ensures RegistryOk(trace[n])
  {
    if n > 0 {
      RunKeeps(trace, events, n - 1);
      StepKeeps(trace[n - 1], events[n - 1]);
      assert trace[n - 1 + 1] == Apply(trace[n - 1], events[n - 1]);
    }
  }

  /** Both maps are write-once over every run: an entry made at m is the entry found at n. */
  lemma {:induction false} WriteOnce(trace: seq<Registry>, events: seq<Event>, m: nat, n: nat)
    requires Run(trace, events) && m <= n <= |events|
    ensures Extends(trace[m], trace[n])
  {
    if m < n {
      WriteOnce(trace, events, m, n - 1);
      RunKeeps(trace, events, n - 1);
      StepKeeps(trace[n - 1], events[n - 1]);
      assert trace[n - 1 + 1] == Apply(trace[n - 1], events[n - 1]);
    }
  }

  /** A request, however many symbols it names, registers at most one. */
  lemma AtMostOneSymbol(trace: seq<Registry>, events: seq<Event>, n: nat, a: string, b: string)
    requires Run(trace, events) && n < |events|
    requires a in trace[n + 1].symbolToReqID && a !in trace[n].symbolToReqID
    requires b in trace[n + 1].symbolToReqID && b !in trace[n].symbolToReqID
    ensures a == b
  {
    RunKeeps(trace, events, n);
    var req := events[n].req;
    ServeItemsKeeps(trace[n], req.mdReqID.value, req.subType.value, req.items);
  }

  /**
   In no reachable state does a disable-previous request do anything but send rejects: for a
   known id the duplicate check fires first, and for an unknown id the lookup fails. So the
   unsubscribe calls for both ids are never reached by any request; the one upstream unsubscribe
   there is, is that of the book when the trades subscription after it fails.
   */
  lemma DisableNeverUnsubscribes(trace: seq<Registry>, events: seq<Event>, n: nat)
    requires Run(trace, events) && n < |events|
    ensures forall f :: f in EffectsOf(trace[n], events[n]) ==> !f.Unsubscribed?
    ensures events[n].MarketDataRequest? && events[n].req.subType == Some(DisablePrevious) ==>
      trace[n + 1] == trace[n] && forall f :: f in EffectsOf(trace[n], events[n]) ==> f.MarketDataReject?
  {
    RunKeeps(trace, events, n);
    StepKeeps(trace[n], events[n]);
    if events[n].MarketDataRequest? && Admitted(events[n].req) {
      var req := events[n].req;
      ServeItemsKeeps(trace[n], req.mdReqID.value, req.subType.value, req.items);
    }
  }

  /**
   In every reachable registry the reverse lookup inverts the mapping for both ids of every
   request, whatever order the map is scanned in: the request that subscribed under an id is
   the only one using it.
   */
  lemma ReverseLookupInverts(trace: seq<Registry>, events: seq<Event>, n: nat, q: string, found: string, subID: string)
    requires Run(trace, events) && n <= |events|
    requires q in trace[n].mdReqIDs && found in trace[n].mdReqIDs
    requires Uses(trace[n].mdReqIDs[q], subID) && Uses(trace[n].mdReqIDs[found], subID)
    ensures found == q
    ensures exists s :: s in trace[n].symbolToReqID && trace[n].symbolToReqID[s] == q
  {
    RunKeeps(trace, events, n);
    assert q in trace[n].symbolToReqID.Values;
  }
}
