/**
 The cache entry of one order over a run: which events touch it after its NewOrderSingle, which
 of them replace the terms of the message by what the venue says of the order, when it gets its
 server id, and what a pending-cancel report makes of it.
 */
module EntryHistory {
  import opened Wrappers
  import opened DecimalText
  import opened FixTypes
  import opened Executions
  import opened OrderCache
  import opened OrderMessages
  import opened OrderEvents
  import opened OrderRuns
  import opened OrderTheorems
  import opened Reports
  import opened SymbolMaster
  import Convert

  // ----- Waiting for the acknowledgement -----

  /** The event carries a venue order under the given client id. */
  predicate Mentions(e: Event, k: string) {
    || (e.Ack? && FormatInt(e.order.cid) == k)
    || (e.Trade? && e.rest.Some? && FormatInt(e.rest.value.cid) == k)
    || (e.StatusQuery? && e.answer.Some? && FormatInt(e.answer.value.cid) == k)
  }

  /** An order waiting for its acknowledgement is not touched by events on other orders. */
  lemma StepKeepsWaiting(sn: Session, pairing: Pairing, s: State, e: Event, s': State, k: string)
    requires Step(sn, pairing, s, e, s') && !Mentions(e, k)
    requires k in s.orders && s.orders[k].orderID == ""
    ensures k in s'.orders && s'.orders[k] == s.orders[k]
  {
  }

  lemma RunStepWaiting(sn: Session, pairing: Pairing, trace: seq<State>, events: seq<Event>, i: nat, k: string)
    requires Run(sn, pairing, trace, events) && i < |events| && !Mentions(events[i], k)
    requires k in trace[i].orders && trace[i].orders[k].orderID == ""
    ensures k in trace[i + 1].orders && trace[i + 1].orders[k] == trace[i].orders[k]
  {
    assert StepAt(sn, pairing, trace, events, i);
    StepKeepsWaiting(sn, pairing, trace[i], events[i], trace[i + 1], k);
  }

  lemma {:induction false} RunKeepsWaiting(
    sn: Session, pairing: Pairing, trace: seq<State>, events: seq<Event>, m: nat, n: nat, k: string)
    requires Run(sn, pairing, trace, events) && m <= n <= |events|
    requires forall i :: m <= i < n ==> !Mentions(events[i], k)
    requires k in trace[m].orders && trace[m].orders[k].orderID == ""
    ensures k in trace[n].orders && trace[n].orders[k] == trace[m].orders[k]
  {
    if m < n {
      RunKeepsWaiting(sn, pairing, trace, events, m, n - 1, k);
      RunStepWaiting(sn, pairing, trace, events, n - 1, k);
    }
  }

  /** The event is a NewOrderSingle the gateway accepted. */
  predicate Enters(sn: Session, e: Event, a: Accepted) {
    e.NewOrder? && AcceptNewOrder(e.msg, e.translated, sn.account) == Ok(a)
  }

  lemma EntersOrder(sn: Session, pairing: Pairing, s: State, e: Event, s': State, a: Accepted)
    requires Step(sn, pairing, s, e, s') && Enters(sn, e, a)
    ensures e.msg.clOrdID == Some(a.clOrdID)
    ensures a.clOrdID in s'.orders && s'.orders[a.clOrdID] == Entered(a.clOrdID, a.terms)
  {
  }

  // ----- Entries overwritten -----

  /**
   The REST fallback of a trade or the insertion after a status request writes to the given key:
   the venue's order has that client id, and no entry has its server id.
   */
  predicate Overwrites(s: State, e: Event, k: string) {
    || (e.Trade? && e.rest.Some? && FormatInt(e.rest.value.cid) == k && !Known(s.orders, FormatInt(e.t.orderID)))
    || (e.StatusQuery? && e.answer.Some? && FormatInt(e.answer.value.cid) == k
        && !Known(s.orders, FormatInt(e.answer.value.id)))
  }

  /** What is written then. */
  function OverwritingTerms(sn: Session, e: Event): (t: Terms)
    requires (e.Trade? && e.rest.Some?) || (e.StatusQuery? && e.answer.Some?)
  {
    if e.Trade? then Convert.TermsOfVenueOrder(e.rest.value, sn.account, Convert.SideToFIX(e.t.execAmount))
    else Convert.TermsOfVenueOrder(e.answer.value, sn.account, Convert.SideToFIX(e.answer.value.amount))
  }

  function Unsigned(t: Terms): (r: Terms) {
    t.(qty := Abs(t.qty))
  }

  /** The terms an event writes over the entry at the given key, if it overwrites it. */
  function Written(sn: Session, s: State, e: Event, k: string): (r: Option<Terms>) {
    if Overwrites(s, e, k) then Some(Unsigned(OverwritingTerms(sn, e))) else None
  }

  /** A cached entry keeps its terms through every event but those that overwrite it. */
  lemma StepTerms(sn: Session, pairing: Pairing, s: State, e: Event, s': State, k: string)
    requires Step(sn, pairing, s, e, s') && k in s.orders
    ensures k in s'.orders
    ensures s'.orders[k].terms == OrElse(Written(sn, s, e, k), s.orders[k].terms)
  {
  }

  /** What the events from m to before n wrote over the entry last. */
  function LastWritten(sn: Session, trace: seq<State>, events: seq<Event>, m: nat, n: nat, k: string): (r: Option<Terms>)
    requires m <= n <= |events| < |trace|
    decreases n
  {
    if m == n then None
    else
      var last := Written(sn, trace[n - 1], events[n - 1], k);
      if last.Some? then last else LastWritten(sn, trace, events, m, n - 1, k)
  }

  /** Nothing was written exactly when no event overwrote the entry. */
  lemma {:induction false} NoneWrittenExactly(sn: Session, trace: seq<State>, events: seq<Event>, m: nat, n: nat, k: string)
    requires m <= n <= |events| < |trace|
    ensures LastWritten(sn, trace, events, m, n, k) == None <==>
            forall i :: m <= i < n ==> !Overwrites(trace[i], events[i], k)
    decreases n
  {
    if m < n {
      NoneWrittenExactly(sn, trace, events, m, n - 1, k);
    }
  }

  function OrElse(last: Option<Terms>, first: Terms): (t: Terms) {
    if last.Some? then last.value else first
  }

  /** The entry is there before and after event i, with its terms as the event leaves them. */
  ghost predicate Follows(sn: Session, trace: seq<State>, events: seq<Event>, k: string, i: nat)
    requires i < |events| < |trace|
  {
    && k in trace[i].orders && k in trace[i + 1].orders
    && trace[i + 1].orders[k].terms == OrElse(Written(sn, trace[i], events[i], k), trace[i].orders[k].terms)
  }

  lemma {:induction false} FollowedTerms(sn: Session, trace: seq<State>, events: seq<Event>, m: nat, n: nat, k: string)
    requires m <= n <= |events| < |trace| && k in trace[m].orders
    requires forall i :: m <= i < n ==> Follows(sn, trace, events, k, i)
    ensures k in trace[n].orders
    ensures trace[n].orders[k].terms == OrElse(LastWritten(sn, trace, events, m, n, k), trace[m].orders[k].terms)
    decreases n
  {
    if m < n {
      FollowedTerms(sn, trace, events, m, n - 1, k);
      assert Follows(sn, trace, events, k, n - 1);
    }
  }

  lemma RunFollows(sn: Session, pairing: Pairing, trace: seq<State>, events: seq<Event>, k: string, i: nat)
    requires Run(sn, pairing, trace, events) && i < |events| && k in trace[i].orders
    ensures Follows(sn, trace, events, k, i)
  {
    assert StepAt(sn, pairing, trace, events, i);
    StepTerms(sn, pairing, trace[i], events[i], trace[i + 1], k);
  }

  /** An entry once cached stays cached. */
  lemma {:induction false} RunKeepsEntry(
    sn: Session, pairing: Pairing, trace: seq<State>, events: seq<Event>, m: nat, n: nat, k: string)
    requires Run(sn, pairing, trace, events) && m <= n <= |events| && k in trace[m].orders
    ensures k in trace[n].orders
  {
    if m < n {
      RunKeepsEntry(sn, pairing, trace, events, m, n - 1, k);
      RunFollows(sn, pairing, trace, events, k, n - 1);
    }
  }

  /** The terms of an entry are those written over it last, or those it was first seen with. */
  lemma RunTerms(sn: Session, pairing: Pairing, trace: seq<State>, events: seq<Event>, m: nat, n: nat, k: string)
    requires Run(sn, pairing, trace, events) && m <= n <= |events| && k in trace[m].orders
    ensures k in trace[n].orders
    ensures trace[n].orders[k].terms == OrElse(LastWritten(sn, trace, events, m, n, k), trace[m].orders[k].terms)
  {
    forall i | m <= i < n
      ensures Follows(sn, trace, events, k, i)
    {
      RunKeepsEntry(sn, pairing, trace, events, m, i, k);
      RunFollows(sn, pairing, trace, events, k, i);
    }
    FollowedTerms(sn, trace, events, m, n, k);
  }

  /** Only an entry without a server id is ever overwritten. */
  lemma OverwrittenUnacknowledged(
    sn: Session, pairing: Pairing, trace: seq<State>, events: seq<Event>, i: nat, k: string)
    requires Run(sn, pairing, trace, events) && i < |events|
    requires k in trace[i].orders && Overwrites(trace[i], events[i], k)
    ensures trace[i].orders[k].orderID == ""
  {
    RunKeepsInv(sn, pairing, trace, events, i);
    assert StepAt(sn, pairing, trace, events, i);
    UnknownHasNone(pairing, trace[i].orders, if events[i].Trade? then events[i].rest.value else events[i].answer.value);
  }

  // ----- Acknowledgements -----

  lemma AcksOrder(sn: Session, pairing: Pairing, s: State, e: Event, s': State, k: string)
    requires Step(sn, pairing, s, e, s')
    requires e.Ack? && !e.error && FormatInt(e.order.cid) == k && k in s.orders
    ensures k in s'.orders && s'.orders[k] == s.orders[k].(orderID := FormatInt(e.order.id))
  {
  }

  lemma RunEnters(sn: Session, pairing: Pairing, trace: seq<State>, events: seq<Event>, m: nat, a: Accepted)
    requires Run(sn, pairing, trace, events) && m < |events| && Enters(sn, events[m], a)
    ensures events[m].msg.clOrdID == Some(a.clOrdID) && a.clOrdID in trace[m + 1].orders
    ensures trace[m + 1].orders[a.clOrdID] == Entered(a.clOrdID, a.terms)
  {
    assert StepAt(sn, pairing, trace, events, m);
    EntersOrder(sn, pairing, trace[m], events[m], trace[m + 1], a);
  }

  lemma RunAcks(sn: Session, pairing: Pairing, trace: seq<State>, events: seq<Event>, i: nat, k: string)
    requires Run(sn, pairing, trace, events) && i < |events| && k in trace[i].orders
    requires events[i].Ack? && !events[i].error && FormatInt(events[i].order.cid) == k
    ensures k in trace[i + 1].orders && trace[i + 1].orders[k].orderID == FormatInt(events[i].order.id)
  {
    assert StepAt(sn, pairing, trace, events, i);
    AcksOrder(sn, pairing, trace[i], events[i], trace[i + 1], k);
  }

  /** The acknowledgement of a cached order is there to stay. */
  lemma AcknowledgedAt(
    sn: Session, pairing: Pairing, trace: seq<State>, events: seq<Event>, m: nat, i: nat, n: nat, k: string)
    requires Run(sn, pairing, trace, events) && m <= i < n <= |events| && k in trace[m].orders
    requires events[i].Ack? && !events[i].error && FormatInt(events[i].order.cid) == k
    ensures k in trace[n].orders && trace[n].orders[k].orderID == FormatInt(events[i].order.id)
  {
    RunKeepsEntry(sn, pairing, trace, events, m, i, k);
    RunAcks(sn, pairing, trace, events, i, k);
    RunStable(sn, pairing, trace, events, i + 1, n, k);
  }

  /** No venue order is ever found under a ClOrdID that is not a canonical integer. */
  lemma NeverMentioned(e: Event, k: string)
    requires !Canonical(k)
    ensures !Mentions(e, k)
  {
    if Mentions(e, k) {
      PrintedIsCanonical(if e.Ack? then e.order.cid else if e.Trade? then e.rest.value.cid else e.answer.value.cid);
    }
  }

  lemma NoneMentions(events: seq<Event>, k: string)
    requires !Canonical(k)
    ensures forall i :: 0 <= i < |events| ==> !Mentions(events[i], k)
  {
    forall i | 0 <= i < |events|
      ensures !Mentions(events[i], k)
    {
      NeverMentioned(events[i], k);
    }
  }

  /** An order entered under such a ClOrdID is never acknowledged, filled or changed in the cache. */
  lemma NeverAcknowledged(sn: Session, pairing: Pairing, trace: seq<State>, events: seq<Event>, m: nat, n: nat, a: Accepted)
    requires Run(sn, pairing, trace, events) && m < n <= |events| && Enters(sn, events[m], a)
    requires !Canonical(a.clOrdID)
    ensures a.clOrdID in trace[n].orders && trace[n].orders[a.clOrdID] == Entered(a.clOrdID, a.terms)
  {
    RunEnters(sn, pairing, trace, events, m, a);
    NoneMentions(events, a.clOrdID);
    RunKeepsWaiting(sn, pairing, trace, events, m + 1, n, a.clOrdID);
  }

  lemma AckReachesEntry(
    sn: Session, pairing: Pairing, trace: seq<State>, events: seq<Event>, m: nat, i: nat, n: nat, a: Accepted)
    requires Run(sn, pairing, trace, events) && m < i < n <= |events| && Enters(sn, events[m], a) && Canonical(a.clOrdID)
    requires events[i].Ack? && !events[i].error && events[i].order.cid == CidOf(a.clOrdID)
    ensures a.clOrdID in trace[n].orders && trace[n].orders[a.clOrdID].orderID == FormatInt(events[i].order.id)
  {
    EnteredPresent(sn, pairing, trace, events, m, a);
    CanonicalCid(a.clOrdID);
    AcknowledgedAt(sn, pairing, trace, events, m + 1, i, n, a.clOrdID);
  }

  lemma CanonicalCid(clOrdID: string)
    requires Canonical(clOrdID)
    ensures FormatInt(CidOf(clOrdID)) == clOrdID
  {
    ParsedCanonical(clOrdID);
  }

  /**
   An order entered by event m and acknowledged by event i has the acknowledged server id in its
   own entry at every later time exactly when its ClOrdID is a canonical 64-bit integer, whatever
   else happens before, between and after; otherwise its entry stays as it was entered.
   */
  lemma AckFindsEntryExactly(
    sn: Session, pairing: Pairing, trace: seq<State>, events: seq<Event>, m: nat, i: nat, n: nat, a: Accepted)
    requires Run(sn, pairing, trace, events) && m < i < n <= |events| && Enters(sn, events[m], a)
    requires events[i].Ack? && !events[i].error && events[i].order.cid == CidOf(a.clOrdID)
    ensures a.clOrdID in trace[n].orders
    ensures trace[n].orders[a.clOrdID].orderID == FormatInt(events[i].order.id) <==> Canonical(a.clOrdID)
    ensures !Canonical(a.clOrdID) ==> trace[n].orders[a.clOrdID] == Entered(a.clOrdID, a.terms)
  {
    if Canonical(a.clOrdID) {
      AckReachesEntry(sn, pairing, trace, events, m, i, n, a);
    } else {
      NeverAcknowledged(sn, pairing, trace, events, m, n, a);
    }
  }

  // ----- From the order message to a pending-cancel report -----

  /** The pending-cancel report on a cached order. */
  function CancelReportOn(sn: Session, o: CachedOrder, text: string): (r: Report) {
    PendingCancelReport(ReportSymbol(sn.table, sn.counterparty, o.terms.symbol), o.clOrdID, o.orderID, o.terms, o.executions, text)
  }

  predicate IsLimitLike(msg: OrderMessage) {
    msg.ordType == Some(Limit) || msg.ordType == Some(StopLimit)
  }

  /** The symbol of the message was translated, and the answer is one the symbol master may give. */
  predicate TranslatedBy(sn: Session, e: Event)
    requires e.NewOrder?
  {
    e.translated.Some? && e.msg.symbol.Some? && MayToBitfinex(sn.table, e.msg.symbol.value, sn.counterparty, e.translated)
  }

  /** The entry of an accepted order at any later time. */
  lemma EntryAt(sn: Session, pairing: Pairing, trace: seq<State>, events: seq<Event>, m: nat, n: nat, a: Accepted)
    requires Run(sn, pairing, trace, events) && m < n <= |events| && Enters(sn, events[m], a)
    ensures a.clOrdID in trace[n].orders
    ensures IsEntry(a, trace[n].orders[a.clOrdID], LastWritten(sn, trace, events, m + 1, n, a.clOrdID))
    ensures events[m].msg.clOrdID == Some(a.clOrdID)
  {
    RunEnters(sn, pairing, trace, events, m, a);
    RunTerms(sn, pairing, trace, events, m + 1, n, a.clOrdID);
    RunEntryOk(sn, pairing, trace, events, n, a.clOrdID);
  }

  /**
   A LIMIT or STOP_LIMIT order is described by a pending-cancel report at any later time as its
   NewOrderSingle described it exactly when its entry has not been overwritten since, or the venue
   order that overwrote it last carries the message.
   */
  lemma CancelReportExactly(
    sn: Session, pairing: Pairing, trace: seq<State>, events: seq<Event>, m: nat, n: nat, a: Accepted, text: string)
    requires Run(sn, pairing, trace, events) && m < n <= |events|
    requires Enters(sn, events[m], a) && IsLimitLike(events[m].msg)
    ensures a.clOrdID in trace[n].orders
    ensures var msg, r := events[m].msg, CancelReportOn(sn, trace[n].orders[a.clOrdID], text);
      var last := LastWritten(sn, trace, events, m + 1, n, a.clOrdID);
      && msg.clOrdID == Some(r.clOrdID)
      && (ReportCarries(msg, r) <==> (last.Some? ==> TermsCarry(msg, last.value)))
      && (last.None? && TranslatedBy(sn, events[m]) ==> msg.symbol == Some(r.symbol))
  {
    var last := LastWritten(sn, trace, events, m + 1, n, a.clOrdID);
    EntryAt(sn, pairing, trace, events, m, n, a);
    ReportOnEntry(sn, events[m], a, trace[n].orders[a.clOrdID], last, text);
  }

  lemma RunEntryOk(sn: Session, pairing: Pairing, trace: seq<State>, events: seq<Event>, n: nat, k: string)
    requires Run(sn, pairing, trace, events) && n <= |events| && k in trace[n].orders
    ensures trace[n].orders[k].clOrdID == k && trace[n].orders[k].terms.qty >= 0.0
  {
    RunKeepsInv(sn, pairing, trace, events, n);
    assert EntryOk(pairing, k, trace[n].orders[k]);
  }

  /** The entry of an accepted order, after something was or was not written over it. */
  predicate IsEntry(a: Accepted, o: CachedOrder, last: Option<Terms>) {
    o.clOrdID == a.clOrdID && o.terms.qty >= 0.0 && o.terms == OrElse(last, Unsigned(a.terms))
  }

  lemma ReportOnEntry(sn: Session, e: Event, a: Accepted, o: CachedOrder, last: Option<Terms>, text: string)
    requires Enters(sn, e, a) && IsLimitLike(e.msg) && IsEntry(a, o, last)
    ensures var r := CancelReportOn(sn, o, text);
      && r.clOrdID == a.clOrdID
      && (ReportCarries(e.msg, r) <==> (last.Some? ==> TermsCarry(e.msg, last.value)))
      && (last.None? && TranslatedBy(sn, e) ==> e.msg.symbol == Some(r.symbol))
  {
    PendingCancelCarries(e.msg, o.terms, ReportSymbol(sn.table, sn.counterparty, o.terms.symbol), o.clOrdID, o.orderID, o.executions, text);
    AcceptedTermsCarry(e.msg, e.translated, sn.account);
    UnsignedCarries(e.msg, a.terms);
    if TranslatedBy(sn, e) {
      InboundThenOutbound(sn.table, e.msg.symbol.value, sn.counterparty, e.translated.value);
    }
  }

  lemma UnsignedCarries(msg: OrderMessage, t: Terms)
    ensures TermsCarry(msg, Unsigned(t)) <==> TermsCarry(msg, t)
  {
  }

  /** A pending-cancel report shows the totals of the trades accepted for the order so far. */
  lemma CancelReportTotals(
    sn: Session, pairing: Pairing, trace: seq<State>, events: seq<Event>, n: nat, k: string, text: string)
    requires Run(sn, pairing, trace, events) && ReplaceFree(events) && OneToOne(pairing) && n <= |events|
    requires k in trace[n].orders && trace[n].orders[k].orderID != ""
    ensures var o := trace[n].orders[k];
      var r := CancelReportOn(sn, o, text);
      && TotalsOfTrades(AcceptedTrades(sn, trace, events, n, o.orderID), r.cumQty, r.avgPx)
      && r.leavesQty == r.orderQty - r.cumQty && r.orderQty == o.terms.qty && r.text == text
  {
    CacheRefinesLog(sn, pairing, trace, events, n, k);
  }

  /** An entry with a server id is not overwritten any more. */
  lemma AcknowledgedNotOverwritten(
    sn: Session, pairing: Pairing, trace: seq<State>, events: seq<Event>, i: nat, j: nat, k: string)
    requires Run(sn, pairing, trace, events) && i <= j < |events|
    requires k in trace[i].orders && trace[i].orders[k].orderID != ""
    ensures !Overwrites(trace[j], events[j], k)
  {
    RunStable(sn, pairing, trace, events, i, j, k);
    if Overwrites(trace[j], events[j], k) {
      OverwrittenUnacknowledged(sn, pairing, trace, events, j, k);
    }
  }

  lemma OverwritesMentions(s: State, e: Event, k: string)
    ensures Overwrites(s, e, k) ==> !e.Ack? && Mentions(e, k)
  {
  }

  /** From event m on, the acknowledgement by event i is the first the venue says of the order. */
  ghost predicate AckFirst(events: seq<Event>, m: nat, i: nat, k: string)
    requires i < |events|
  {
    && m <= i && events[i].Ack? && !events[i].error && FormatInt(events[i].order.cid) == k
    && forall j :: m <= j < i ==> !Mentions(events[j], k)
  }

  lemma AckFirstNotOverwritten(
    sn: Session, pairing: Pairing, trace: seq<State>, events: seq<Event>, m: nat, i: nat, j: nat, k: string)
    requires Run(sn, pairing, trace, events) && i < |events| && AckFirst(events, m, i, k)
    requires m <= j < |events| && k in trace[m].orders
    ensures !Overwrites(trace[j], events[j], k)
  {
    if j <= i {
      OverwritesMentions(trace[j], events[j], k);
    } else {
      AcknowledgedAt(sn, pairing, trace, events, m, i, i + 1, k);
      AcknowledgedNotOverwritten(sn, pairing, trace, events, i + 1, j, k);
    }
  }

  lemma AckFirstNothingWritten(
    sn: Session, pairing: Pairing, trace: seq<State>, events: seq<Event>, m: nat, i: nat, n: nat, k: string)
    requires Run(sn, pairing, trace, events) && i < |events| && AckFirst(events, m, i, k)
    requires m <= n <= |events| && k in trace[m].orders
    ensures LastWritten(sn, trace, events, m, n, k) == None
  {
    forall j | m <= j < n
      ensures !Overwrites(trace[j], events[j], k)
    {
      AckFirstNotOverwritten(sn, pairing, trace, events, m, i, j, k);
    }
    NoneWrittenExactly(sn, trace, events, m, n, k);
  }

  /** In particular, when the acknowledgement comes first, every report afterwards is right. */
  lemma AckFirstKeepsMeaning(
    sn: Session, pairing: Pairing, trace: seq<State>, events: seq<Event>, m: nat, i: nat, n: nat, a: Accepted, text: string)
    requires Run(sn, pairing, trace, events) && m < i < n <= |events|
    requires Enters(sn, events[m], a) && IsLimitLike(events[m].msg) && AckFirst(events, m + 1, i, a.clOrdID)
    ensures a.clOrdID in trace[n].orders
    ensures ReportCarries(events[m].msg, CancelReportOn(sn, trace[n].orders[a.clOrdID], text))
  {
    assert LastWritten(sn, trace, events, m + 1, n, a.clOrdID) == None by {
      EnteredPresent(sn, pairing, trace, events, m, a);
      AckFirstNothingWritten(sn, pairing, trace, events, m + 1, i, n, a.clOrdID);
    }
    CancelReportExactly(sn, pairing, trace, events, m, n, a, text);
  }

  lemma EnteredPresent(sn: Session, pairing: Pairing, trace: seq<State>, events: seq<Event>, m: nat, a: Accepted)
    requires Run(sn, pairing, trace, events) && m < |events| && Enters(sn, events[m], a)
    ensures a.clOrdID in trace[m + 1].orders
  {
    RunEnters(sn, pairing, trace, events, m, a);
  }

  // ----- What the venue's own account of an order carries -----

  /** The venue tells an order as it was sent. */
  predicate Echoes(request: OrderRequest, o: VenueOrder) {
    && o.typ == request.typ && o.amount == request.amount
    && o.price == request.prices.px && o.priceAuxLimit == request.prices.aux && o.priceTrailing == request.prices.trail
    && (HasFlag(o.flags, FLAG_HIDDEN) <==> request.hidden)
    && (HasFlag(o.flags, FLAG_POST_ONLY) <==> request.postOnly)
  }

  /**
   Even an order told back as it was sent carries the message exactly when it is a LIMIT order,
   and the amount the side is taken from has the sign of the side: no STOP_LIMIT order does.
   */
  lemma EchoCarriesExactly(msg: OrderMessage, translated: Option<string>, account: string, o: VenueOrder, amount: real)
    requires IsLimitLike(msg) && AcceptNewOrder(msg, translated, account).Ok?
    requires Echoes(AcceptNewOrder(msg, translated, account).value.request, o)
    ensures TermsCarry(msg, Convert.TermsOfVenueOrder(o, account, Convert.SideToFIX(amount))) <==>
            msg.ordType == Some(Limit) && msg.side == Some(Convert.SideToFIX(amount))
  {
    var request := AcceptNewOrder(msg, translated, account).value.request;
    TypeDecodesExactly(msg);
    assert request.typ == OrderNewType(msg).value;
    assert request.amount == AmountOf(msg.side.value, msg.qty.value);
    SideSurvivesAmountExactly(msg.side.value, msg.qty.value);
  }

  lemma StopLimitDecodesAsMarket(typ: string)
    requires typ == "EXCHANGE STOP LIMIT"
    ensures Convert.OrdTypeToFIX(typ) == Market
  {
    TypeOnWire(typ);
  }

  /**
   The first trade of a STOP_LIMIT order outruns the acknowledgement: the fallback overwrites the
   terms of the message with a market order, and the pending-cancel report says so.
   */
  lemma StopLimitMisreported(
    sn: Session, msg: OrderMessage, translated: Option<string>, a: Accepted, o: VenueOrder, t: TradeUpdate, text: string)
    returns (trace: seq<State>, events: seq<Event>)
    requires AcceptNewOrder(msg, translated, sn.account) == Ok(a) && msg.ordType == Some(StopLimit)
    requires Canonical(a.clOrdID) && o.cid == CidOf(a.clOrdID) && o.typ == "EXCHANGE STOP LIMIT"
    requires t.orderID == o.id
    ensures events == [NewOrder(msg, translated), Trade(t, Some(o), "", a.clOrdID), Ack(o, false)]
    ensures Run(sn, map[o.cid as int := o.id as int], trace, events)
    ensures a.clOrdID in trace[3].orders && trace[3].orders[a.clOrdID].orderID == FormatInt(o.id)
    ensures var r := CancelReportOn(sn, trace[3].orders[a.clOrdID], text);
      r.ordType == Market && !ReportCarries(msg, r)
  {
    trace, events := OutrunRun(sn, msg, translated, a, o, t);
    StopLimitDecodesAsMarket(o.typ);
  }

  lemma OutrunRun(sn: Session, msg: OrderMessage, translated: Option<string>, a: Accepted, o: VenueOrder, t: TradeUpdate)
    returns (trace: seq<State>, events: seq<Event>)
    requires AcceptNewOrder(msg, translated, sn.account) == Ok(a)
    requires Canonical(a.clOrdID) && o.cid == CidOf(a.clOrdID) && t.orderID == o.id
    ensures events == [NewOrder(msg, translated), Trade(t, Some(o), "", a.clOrdID), Ack(o, false)]
    ensures Run(sn, map[o.cid as int := o.id as int], trace, events)
    ensures a.clOrdID in trace[3].orders && trace[3].orders[a.clOrdID].orderID == FormatInt(o.id)
    ensures trace[3].orders[a.clOrdID].terms.ordType == Convert.OrdTypeToFIX(o.typ)
  {
    var pairing: Pairing := map[o.cid as int := o.id as int];
    var k := a.clOrdID;
    ParsedCanonical(k);
    events := [NewOrder(msg, translated), Trade(t, Some(o), "", k), Ack(o, false)];
    var entered := State(map[k := Entered(k, a.terms)], [], []);
    var filled := Outrun(sn, pairing, entered, t, o, k);
    var acked := filled.(orders := AfterAck(filled.orders, o, sn.account));
    trace := [INITIAL, entered, filled, acked];
    assert Step(sn, pairing, trace[0], events[0], trace[1]);
    assert Step(sn, pairing, trace[2], events[2], trace[3]);
  }

  /** A trade on an order still waiting for its acknowledgement, when REST answers. */
  lemma Outrun(sn: Session, pairing: Pairing, s: State, t: TradeUpdate, o: VenueOrder, k: string) returns (s': State)
    requires k == FormatInt(o.cid) && s.orders.Keys == {k} && s.orders[k].orderID == ""
    requires t.orderID == o.id && Pairs(pairing, o)
    ensures Step(sn, pairing, s, Trade(t, Some(o), "", k), s')
    ensures s'.orders.Keys == {k} && s'.orders[k].clOrdID == k && s'.orders[k].orderID == FormatInt(o.id)
    ensures s'.orders[k].terms == Unsigned(Convert.TermsOfVenueOrder(o, sn.account, Convert.SideToFIX(t.execAmount)))
  {
    var fetched := AfterFallback(s.orders, t, Some(o), sn.account);
    assert fetched == s.orders[k := VenueEntry(o, sn.account, Convert.SideToFIX(t.execAmount))];
    assert Holds(fetched, FormatInt(t.orderID), k);
    s' := Apply(sn, s, Trade(t, Some(o), "", k));
  }
}
