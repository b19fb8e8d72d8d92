# Verification of the FIX to Bitfinex gateway

A Dafny model of the stateful parts of the gateway between FIX clients and the Bitfinex
websocket API, with machine-checked proofs about whole runs of it. `dafny verify dfyconfig.toml`
checks everything.

The model has five parts.

* **Order cache.** `OrderCache` is the per-peer cache with its loops and scans, `OrderMessages`
  what is extracted from order messages, `OrderWire` what the venue makes of the requests built
  from them, read independently and compared with what the message asks for, `OrderEvents` the effect of each handler as a step of a
  state machine, and `OrderHandlers` the handlers as mutating code, proved to take exactly those
  steps. `OrderRuns`, `OrderTheorems`, `FillLifecycle` and `EntryHistory` hold the results about
  every run: no execution is lost or counted twice, the cached fill totals are those of the plain
  log of accepted trades, acknowledged entries never change, replace chains stay one order, the
  trade reports of an order form a proper lifecycle, and a pending-cancel report describes the
  order as its message did exactly when nothing the venue said of the order has overwritten it.
  `CacheInterleavings` goes below whole handlers: each cache operation is a step, and the service
  loop and the FIX session interleave between operations. A trade is taken on when its order is
  known at the lookup or REST answers for it. Over every interleaving each trade taken on is
  recorded, still being handled, or lost, and it is shown exactly which insertions after a status
  request lose one: those over an entry with executions, and those over the last entry of an
  order whose trade has been looked up but not yet recorded. `InterleavedLog` gives the same
  account for each single entry, `InterleavingEmbeds` shows that the handlers are what these
  operations do when nothing comes between them, and `Ledgers` is the bookkeeping used.
* **Peer lifecycle.** `WebsocketFeed` is the websocket client with its reader, buffer, upstream
  goroutine and shutdown. `PeerProtocol` and `PeerProgress` treat it, the listener, the disconnect
  watcher, RemovePeer calls, service loop and other users of the service lock as interleaved
  steps, and prove channel safety, absence of spurious logouts, finiteness of all runs, and what
  keeps a removal from returning. There are two such things. One is the end of the process by a
  send on a closed channel: Close closes the read buffer and the feed without waiting for the
  goroutines that send on them. It is shown exactly which closes can end so. The other is a wait
  cycle between remover, listener and service loop, closed at one of the three waits of Close: for
  the lock of a blocked websocket reader, for someone to take the reason of the shutdown, or for
  `exit`. `PeerScenarios` has a run into each. `PeerLogout` says exactly when a session whose
  venue connection is lost has been logged out.
* **Market data subscriptions.** `Subscriptions` is the check-then-write loop over the requested
  symbols and the registry it keeps; `SubscriptionRuns` says in terms of requests and effects who is
  served, who is turned away, and which websocket subscriptions are left; `Nonces` is the generator of the subscription ids.
* **Reports and books.** `Reports`, `Rounding`, `Convert`, `Executions` and `Books` give the
  arithmetic of execution reports, the printing of decimals, and the translation of order books;
  `ReportLaws` compares the reports on one order that are made in different ways.
* **Symbol master.** `SymbolMaster` is the line-oriented parser and the two-way symbol lookup.

Floating point numbers are modelled as reals. Go ranges over a map in an unspecified order; a
scan of the cache takes its next key arbitrarily, and in the state machine an event carries the
entry a scan happened to find, so a statement about all events covers all scan orders. REST
answers, symbol translations and subscription outcomes are likewise part of the event. One
`Report` stands for the FIX 4.2, 4.4 and 5.0 execution reports; quantities in it are exact, and
`Rounding` says how they print. In `OrderEvents` the handlers of one session run one at a time;
`CacheInterleavings` drops that assumption for the conservation of executions, and
`InterleavedLog` for the totals of single entries.

Properties that turn out false of the code are kept as the code has them, with the exact
condition under which they hold: `TypeDecodesExactly`, `AckFindsEntryExactly`,
`AddOrderSafeExactly`, `RecordRefusedExactly` and `AllRecordedExactly`, `CancelReportExactly`,
`SharedReportExactly` and `CumQtyKeptExactly`, `OutboundThenInboundExactly`, `FaithfulExactly`, `FourDecimalsExactly`,
`IncreasingExactly`, `RemovalCompletesExactly`, `SideSurvivesAmountExactly`, `UnderstoodExactly`, `TimeInForceExactly`, `RequestExactly`, and the pairs
`ChannelSafety` and `HastyRemovalPanics`, `AliveWhenCareful` and `FatalStepCrashes`. Inputs that show the failure are `OtherTypeLosesMargin`,
`MarketFillOrKill`, `FailedRequestBlocksItself`, `CompositeStatus`,
`NeverAcknowledged`, `KnownThenErased`, `SplitStatusRequestLosesTrade`, `StopLimitMisreported`,
`CumQtyCanFall`, `SmallSizePrintsAsZero`, `ThousandCallsCollide`, `FeedClosedUnderHand`,
`BufferClosedUnderHand`, `ExitCycleReachable`, `TakerCycleReachable` and `ReaderCycleReachable`.

Where code and documentation disagree the code is followed: README.md:279-289 describes trailing
stops of order type Stop Limit, but only order type Stop is sent as a trailing stop
(convert/websocket_order.go:47-51); service/service.go:219 says trade updates are ignored, but
they are the ones handled.

## Model

| member | source | states |
|---|---|---|
| DecimalText.ParseFormat | service/websocket/fix_msg.go:106-107 | parsing the printed form of any 64-bit id gives the id back |
| DecimalText.FormatInjective | service/websocket/fix_msg.go:222-223 | different ids never print alike, so printed ids can serve as cache keys |
| DecimalText.FormatParseExactly | convert/websocket_order.go:187-190 | printing a parsed text restores it for canonical 64-bit decimals and for no other text |
| DecimalText.OtherSpellings | convert/websocket_order.go:187-190 | an id may also be spelled with a plus sign or leading zeros, which no printed id has |
| DecimalText.NotParsed | convert/websocket_order.go:187-190 | texts without digits, with another sign, or beyond 64 bits are no ids |
| Executions.FilledQty | service/peer/cache.go:92-98 | the loop computes the sum of the executed quantities |
| Executions.AvgFillPx | service/peer/cache.go:72-83 | the loop computes the quantity-weighted average price, zero when nothing was filled |
| Executions.TotalsOrderFree | service/peer/cache.go:72-98 | filled quantity and average price depend on the multiset of executions, not on arrival order |
| Executions.AverageTimesQty | service/peer/cache.go:79-82 | average price times filled quantity is the sum of price times quantity |
| Executions.AverageOfAppend | service/peer/cache.go:249-254 | recomputing after an append is the incremental weighted update, zero-quantity executions included, once anything is filled |
| Executions.AverageBetween | service/peer/cache.go:72-83 | the average lies between any bounds on the prices of executions with positive quantity |
| OrderCache.Cache.AddOrder | service/peer/cache.go:183-193 | the entry at the key becomes a fresh one with unsigned quantity and no executions; nothing else changes |
| OrderCache.Cache.UpdateOrder | service/peer/cache.go:196-205 | sets the server id of an existing entry and fails without effect otherwise |
| OrderCache.Cache.AddExecution | service/peer/cache.go:236-257 | appends an execution with the id, the price and the unsigned quantity given to some entry with the server id, changes nothing else, and returns the totals of that entry; fails without effect exactly when there is none |
| OrderCache.Cache.LookupByOrderID | service/peer/cache.go:268-277 | finds some entry with the server id, and finds one whenever there is one |
| OrderCache.Cache.LookupClOrdID | service/peer/cache.go:279-288 | finds the key of some entry with the server id, and finds one whenever there is one |
| OrderCache.Cache.LookupByClOrdID | service/peer/cache.go:259-266 | finds exactly the entry at the key |
| OrderCache.Cache.Stats | service/peer/cache.go:101-105 | client id, order quantity and both fill totals of the entry |
| OrderCache.Cache.MDReqIDExists | service/peer/cache.go:144-153 | true exactly when some symbol is mapped to the request id |
| OrderCache.Cache.ReverseLookupAPIReqIDs | service/peer/cache.go:171-180 | finds some request using the subscription id, or establishes that none does |
| OrderHandlers.OrderSession.OnNewOrder | service/fix/fix_msg.go:123-174 | takes the new-order step of the state machine, and returns the reject reason or the request sent, whose type the venue reads as the class of order asked for |
| OrderHandlers.OrderSession.FindTarget | service/fix/fix_msg.go:178-229 | resolves the identifiers of a replace request exactly as specified, in the order of the checks |
| OrderHandlers.OrderSession.OnReplace | service/fix/fix_msg.go:177-279 | takes the replace step and returns the update sent; a rejected request leaves the cache unchanged |
| OrderHandlers.OrderSession.OnAck | service/websocket/fix_msg.go:212-254 | takes the acknowledgement step, caching orders entered outside the session, and tells of the venue's order with its symbol as the counterparty knows it |
| OrderHandlers.OrderSession.AckReport | service/websocket/fix_msg.go:237-254 | the report has the ids and status of the acknowledgement, the flags and, for trailing stops, the peg of the cached order, which acknowledgements lack, and the stop price of stop and stop-limit types |
| OrderHandlers.OrderSession.OnTrade | service/websocket/fix_msg.go:100-137 | takes the trade step for the entries its scans found, REST fallback included; reports exactly accepted trades, and records their id, price and quantity |
| OrderHandlers.OrderSession.OnStatus | service/fix/fix_msg.go:545-582 | takes the status step and reports the venue's order, with the state its status text tells of, and filled quantity, hidden flag and peg of the entry found, or of the order just inserted, which has nothing filled |
| OrderHandlers.OrderSession.OnPendingCancel | service/websocket/fix_msg.go:196-209 | builds the pending-cancel report from the cached entry |
| OrderHandlers.OrderSession.OnOrderCancel | service/websocket/fix_msg.go:334-355 | reports known orders exactly when the status text tells of no fill, as canceled with nothing left when it tells of a cancelation and as new otherwise, with the cached filled quantity |
| Convert.CompositeStatus | convert/fix.go:23-37 | a text that tells of an execution reads as filled whatever it tells of earlier fills; a cancelation after partial fills does not read as canceled |
| Convert.PlainStatus | convert/fix.go:23-37 | the four plain status texts |
| Convert.ExecTypeExactly | convert/fix.go:39-54 | how execution type and order status read from one text go together |
| OrderRuns.RunKeepsInv | service/peer/cache.go:183-257 | over every run: entries without server id hold no executions, server ids agree with the venue's pairing, and all accepted trades are recorded |
| OrderRuns.UnknownHasNone | service/websocket/fix_msg.go:110-131 | the key overwritten by the REST fallback or a status request holds no executions |
| OrderTheorems.Conservation | service/peer/cache.go:236-257 | over every run, replaces included, the executions of all entries with a server id are as a multiset the trades accepted for it, and the filled quantities add up to the quantities of the trade messages |
| OrderTheorems.AcceptedExactly | service/websocket/fix_msg.go:108-118 | a trade is refused exactly when its order is unknown and REST fails |
| OrderTheorems.OverwriteExactly | service/peer/cache.go:190 | overwriting an entry keeps the books straight exactly when both entries record the same executions |
| OrderTheorems.AddOrderSafeExactly | service/peer/cache.go:183-193 | AddOrder discards nothing exactly when the entry it overwrites has no executions |
| OrderTheorems.SplitStatusRequestLosesTrade | service/fix/fix_msg.go:574-578 | a trade handled between the lookup and the insertion of a status request is lost |
| CacheInterleavings.InterleavedInv | service/peer/cache.go:183-257 | over all interleavings of single cache operations of the service loop and the FIX session: entries stay consistent with the venue, and the pending writes of each thread stay safe |
| CacheInterleavings.EveryTradeAccountedFor | service/websocket/fix_msg.go:100-137 | over all interleavings the trades taken on under a server id, known at the lookup or answered by REST, are as a multiset those recorded, the one in hand and those lost |
| CacheInterleavings.RecordRefusedExactly | service/websocket/fix_msg.go:108-135 | AddExecution refuses a trade whose order was found or fetched exactly when a status request has been inserted since over the only entry with that server id |
| CacheInterleavings.InterleavedConservation | service/websocket/fix_msg.go:100-137 | without a harmful insertion the executions recorded under a server id and the trade in hand are exactly the trades taken on for it, and between messages the filled quantities add up to theirs |
| CacheInterleavings.AllRecordedExactly | service/fix/fix_msg.go:574-578 | between two venue messages every trade taken on is recorded exactly when no status request was inserted over an entry with executions, or over the last entry a trade in hand could go to |
| CacheInterleavings.KnownThenErased | service/fix/fix_msg.go:574-578 | a run in which a trade finds its order known and is lost, although no execution is ever overwritten |
| InterleavedLog.EntryAccountedFor | service/peer/cache.go:183-257 | over all interleavings without replaces and with one-to-one pairing, the executions of an entry, the trade in hand and what was lost are together the trades taken on for its server id |
| InterleavedLog.InterleavedRefinesLog | service/websocket/fix_msg.go:100-137 | without a harmful insertion every entry has, but for a trade in hand, the executions, filled quantity and average price of the trades taken on for its server id |
| InterleavingEmbeds.EventIsScript | service/websocket/fix_msg.go:100-137 | each handler is a sequence of the single cache operations with nothing in between |
| InterleavingEmbeds.RunsEmbed | service/peer/cache.go:183-257 | every run of handlers is one of the interleavings, with the same cache in the end |
| OrderTheorems.CacheRefinesLog | service/websocket/fix_msg.go:100-137 | in replace-free runs with one-to-one pairing every entry's executions and totals are those of the accepted trade messages of its server id: filled quantity the sum of the amounts, and average price times it the sum of price times amount |
| OrderTheorems.UniqueEntry | service/peer/cache.go:242-245 | in such runs no two entries share a server id |
| OrderTheorems.AcceptedHasEntry | service/peer/cache.go:242-256 | every server id with an accepted trade has an entry at every later time |
| OrderTheorems.RunStable | service/peer/cache.go:196-205 | once an entry has its server id, its ids and terms never change and executions are only appended |
| OrderTheorems.ReplaceTargets | service/fix/fix_msg.go:194-267 | an accepted replace targets a cached order whose server id is the one sent, keeps symbol, side and margin, and signs the amount by the cached side; a rejected one changes nothing |
| OrderTheorems.ChainKeepsOrder | service/fix/fix_msg.go:262-267 | all ClOrdIDs of a replace chain of any length resolve to one server id, symbol, side and margin flag |
| FillLifecycle.Lifecycle | convert/fix_msg.go:374-391 | over a run, CumQty of an order's trade reports never decreases, LeavesQty never increases, FILLED is never taken back, and OrderQty is CumQty plus LeavesQty, in print within one unit of the fourth decimal |
| FillLifecycle.ReportIsReplay | service/websocket/fix_msg.go:132-136 | every accepted trade gives one report under the ClOrdID of its entry, with the terms of the entry and the symbol as the counterparty knows it, whose CumQty and AvgPx are those of the trade messages accepted so far |
| FillLifecycle.SharesAddUp | convert/fix_msg.go:374-403 | over every run, replaces included, the LastShares reported on an order add up to the quantities of the trades accepted for it |
| FillLifecycle.SharedReportExactly | service/peer/cache.go:236-257 | over every run, replaces included, CumQty of a trade report is the quantity of all trades accepted for the order exactly when no other entry with its server id had anything filled |
| FillLifecycle.CumQtyCanFall | service/peer/cache.go:242-255 | a run in which a trade after a replace is reported with a smaller CumQty than the trade before it |
| FillLifecycle.CumQtyKeptExactly | service/peer/cache.go:242-255 | over every run, replaces included, CumQty does not fall between two consecutive trades of an order exactly when the entry the first one went to has filled no more than the entry of the second one with the new execution |
| EntryHistory.RunKeepsWaiting | service/fix/fix_msg.go:161-165 | an order waiting for its acknowledgement is untouched by events on other orders |
| EntryHistory.RunTerms | service/websocket/fix_msg.go:110-131 | over every run the terms of an entry are those written over it last by the REST fallback or a status answer, or else those it was entered with |
| EntryHistory.OverwrittenUnacknowledged | service/peer/cache.go:183-193 | over every run only entries without a server id are overwritten |
| EntryHistory.AckFindsEntryExactly | service/websocket/fix_msg.go:222-233 | over every run an acknowledgement puts its server id into the entry of its NewOrderSingle, for good, exactly when the ClOrdID is a canonical 64-bit integer |
| EntryHistory.NeverAcknowledged | convert/websocket_order.go:187-190 | an order entered under any other ClOrdID keeps its entry unchanged forever, without server id and executions |
| EntryHistory.CancelReportExactly | service/websocket/fix_msg.go:196-209 | over every run a pending-cancel report describes a LIMIT or STOP_LIMIT order as its NewOrderSingle did exactly when its entry was not overwritten since, or the venue order that overwrote it last carries the message |
| EntryHistory.CancelReportTotals | service/websocket/fix_msg.go:196-209 | in replace-free runs a pending-cancel report shows the totals of the trade messages accepted for the order so far |
| EntryHistory.AckFirstKeepsMeaning | service/websocket/fix_msg.go:196-209 | when the acknowledgement is the first the venue says of the order, all later pending-cancel reports describe it as its message did |
| EntryHistory.EchoCarriesExactly | convert/fix.go:92-121 | a venue order told back as it was sent carries the message exactly for LIMIT orders whose side is that of the amount used; never for STOP_LIMIT orders |
| EntryHistory.StopLimitMisreported | service/websocket/fix_msg.go:110-131 | a run in which the first trade of a STOP_LIMIT order outruns the acknowledgement and the order is reported as a market order |
| Reports.TradeReportBalances | convert/fix_msg.go:238-260 | OrderQty is CumQty plus LeavesQty exactly, within one unit of the fourth decimal in print, and without overfill nothing is left exactly when FILLED |
| ReportLaws.TradeReportTells | convert/fix_msg.go:374-403 | side, last shares and execution type of a trade report are those of the trade, and its terms those of the order |
| ReportLaws.CachedAsReported | convert/fix_msg.go:354-371 | a venue order is described alike by a report straight from it and by one through the cache, but for a price that its type does not show |
| ReportLaws.TradedAsReported | convert/fix_msg.go:374-403 | a trade on a venue order is reported under the description of the order |
| ReportLaws.LeavesExactly | convert/fix_msg.go:246-260 | LeavesQty is zero for orders that have left the book, and what is not filled for the others |
| Reports.AvgPxPrintedBetween | convert/fix.go:86-89 | the average price, printed with two decimals, is within half a cent of the exact one and lies between the printed prices of the executions |
| Rounding.RoundExactly | vendor/github.com/shopspring/decimal/decimal.go:759-778 | rounding to any number of decimals gives the nearest unit of the last digit with ties away from zero |
| Rounding.PrintedExactly | vendor/github.com/shopspring/decimal/decimal.go:759-778 | printing leaves exactly the values of at most four decimals unchanged |
| Rounding.PrintedSplit | convert/fix_msg.go:280-281 | printed parts add up to the printed whole within one unit, and exactly for four-decimal values |
| OrderMessages.FlagsOf | service/fix/fix_msg.go:43-52 | the hidden and post-only bits are set exactly when asked for |
| OrderMessages.TypeDecodesExactly | convert/fix.go:92-121 | decoding the order type sent upstream restores the margin marker exactly for the four known order types and for fill-or-kill orders, and the FIX order type exactly for limit orders and for market and stop orders that are not fill-or-kill |
| OrderMessages.OtherTypeLosesMargin | convert/websocket_order.go:23-62 | a margin order of another order type is accepted, sent with an empty type, and cached without the marker |
| OrderMessages.AcceptedTermsCarry | service/fix/fix_msg.go:130-162 | the cached terms of a LIMIT or STOP_LIMIT order carry side, type, quantity, prices, margin and flags of the message |
| OrderMessages.PendingCancelCarries | convert/fix_msg.go:312-345 | the pending-cancel report describes the message exactly when the cached terms do |
| OrderMessages.OrderKeepsMeaning | convert/websocket_order.go:178-229 | LIMIT and STOP_LIMIT orders keep their meaning from message through request and cache to the report, and their symbol whenever it was translated inbound |
| OrderWire.TypeReadsAsAsked | convert/websocket_order.go:23-62 | the venue reads the order type sent as exactly the class of order asked for: kind, trailing, fill-or-kill and margin |
| OrderWire.SameTypeExactly | convert/websocket_order.go:23-62 | two messages are sent with one type exactly when they ask for the same class |
| OrderWire.UnderstoodExactly | convert/websocket_order.go:178-229 | the venue understands an accepted order in every field as the message asks for it, exactly when it is not fill-or-kill or is a LIMIT order |
| OrderWire.NewOrderCachedAsSent | service/fix/fix_msg.go:161-162 | what is cached for an accepted order is what is sent for it |
| OrderWire.MarketFillOrKill | convert/websocket_order.go:39-41 | a fill-or-kill MARKET order is sent as a limit order at a price of zero |
| OrderWire.NewOrderAcceptedExactly | service/fix/fix_msg.go:130-159 | a NewOrderSingle is accepted exactly when it has the fields its type needs and no bad instruction, and the reason of a reject is true of it |
| OrderWire.ReplaceAcceptedExactly | service/fix/fix_msg.go:178-260 | a replace is accepted exactly when it names a cached order by all ids given and has the fields its type needs |
| OrderWire.ReplaceUnderstood | service/fix/fix_msg.go:232-267 | an accepted replace sends prices, quantity, flags and expiration of its message for the order named, with the cached side, and caches what it sends |
| OrderWire.ReplaceKeepsMeaning | service/fix/fix_msg.go:262-267 | a pending-cancel report on a replaced LIMIT or STOP_LIMIT order describes it as the replace message did |
| ReportLaws.TimeInForceExactly | convert/fix.go:142-156 | an order told back as sent has the time in force asked for exactly as far as the venue's types can carry it |
| ReportLaws.PrefixIrrelevantExactly | convert/fix.go:92-121 | an order type reads alike with any prefix or none, except that only a bare STOP LIMIT reads as one |
| OrderMessages.SideSurvivesAmountExactly | convert/websocket_order.go:83-89 | the side is recovered from the signed amount exactly for positive buys and sells, and for an undisclosed side of zero |
| OrderMessages.LostInCancelReport | convert/websocket_order.go:143-148 | the stop price of a STOP order comes back as price, and the time in force always as good till cancel |
| Nonces.NonceGenerator.GetNonce | service/peer/nonce.go:20-32 | advances the generator and prints its value |
| Nonces.ClosedForm | service/peer/nonce.go:20-42 | the counter of a call is the number of calls in its second so far, one more in the starting second |
| Nonces.IncreasingExactly | service/peer/nonce.go:20-32 | under a clock that never goes back nonces strictly increase exactly when each counter fits into the time to the next second used |
| Nonces.DocumentedRate | service/peer/nonce.go:17-32 | at most 999 calls a second give strictly increasing, hence distinct nonces within 64 bits |
| Nonces.ThousandCallsCollide | service/peer/nonce.go:39-42 | the 1000th call in the first second returns the first nonce of the following second |
| Subscriptions.MarketDataSession.OnMarketDataRequest | service/fix/fix_msg.go:322-478 | the loop leaves the registry and the effects its recursive specification says, early returns included |
| Subscriptions.MarketDataSession.OnSymbol | service/fix/fix_msg.go:374-475 | one round of the loop: duplicate checks, then the branch of the subscription type |
| Subscriptions.RunKeeps | service/fix/fix_msg.go:391-455 | over every run symbols and request ids are one to one, every subscribed request id is registered, and no subscription id is used twice |
| Subscriptions.WriteOnce | service/peer/cache.go:131-159 | over every run neither map ever changes or forgets an entry |
| Subscriptions.AtMostOneSymbol | service/fix/fix_msg.go:374-402 | a request naming any number of symbols registers at most one |
| Subscriptions.DisableNeverUnsubscribes | service/fix/fix_msg.go:457-467 | in reachable states a disable-previous request changes nothing and sends nothing but rejects, so that its unsubscribe calls are never reached |
| Subscriptions.ReverseLookupInverts | service/peer/cache.go:171-180 | for both ids of a request the reverse lookup can only find that request |
| SubscriptionRuns.RequestExactly | service/fix/fix_msg.go:374-475 | a request is turned away as a duplicate exactly when its id or first symbol is taken; otherwise its symbol is registered whatever the venue answers, and served exactly when it answers |
| SubscriptionRuns.UnansweredRejected | service/fix/fix_msg.go:406-475 | a request that is no duplicate and is not answered gets a reject first, with the reason that fits its type |
| SubscriptionRuns.FurtherSymbolsRejected | service/fix/fix_msg.go:374-402 | of the further symbols of a request the next one alone is rejected, as a duplicate, exactly when the first has gone through |
| SubscriptionRuns.AdmittedExactly | service/fix/fix_msg.go:329-372 | which requests are looked at: symbols, id, type, non-negative depth, and one of the five precisions |
| SubscriptionRuns.ServedStaysMapped | service/fix/fix_msg.go:412-420 | over every run a symbol served stays mapped to the id of its request |
| SubscriptionRuns.ServedThenRejected | service/fix/fix_msg.go:391-402 | from then on every request with that id or first symbol gets exactly one duplicate reject and changes nothing |
| SubscriptionRuns.NeverServedTwice | service/fix/fix_msg.go:391-402 | no two servings of a run are for one symbol or one request id |
| SubscriptionRuns.FailedRequestBlocksItself | service/fix/fix_msg.go:413-424 | a request the venue could not answer is turned away as a duplicate when repeated |
| SubscriptionRuns.LiveSubscriptionsExactly | service/fix/fix_msg.go:428-455 | the websocket subscriptions made and not rolled back are exactly those the reverse lookup leads back to a request |
| PeerProtocol.RunInv | service/peer/peer.go:87-126 | the inductive invariant over lock ownership, program points and channel states |
| PeerProtocol.ChannelSafety | service/peer/peer.go:87-126 | without a hasty removal both channels are closed at most once, nobody sends on a closed disconnect, and disconnect of a started peer closes after exit |
| PeerProtocol.HastyRemovalPanics | service/peer/peer.go:83-88 | a removal that inspects a spawned but not yet started peer can always end in a send on the closed disconnect channel |
| WebsocketFeed.StepSound | vendor/github.com/bitfinexcom/bitfinex-api-go/v2/websocket/transport.go:161-211 | without a fatal close no step leaves a sender on a channel that is closed |
| WebsocketFeed.DoomAdvances | vendor/github.com/bitfinexcom/bitfinex-api-go/v2/websocket/client.go:416-437 | after a fatal close the goroutines of the client can get nearer to a send on the closed channel by themselves |
| PeerProtocol.AliveWhenCareful | vendor/github.com/bitfinexcom/bitfinex-api-go/v2/websocket/client.go:244-264 | over every run without a hasty removal and a fatal close, nobody sends on any closed channel |
| PeerProtocol.FatalStepCrashes | vendor/github.com/bitfinexcom/bitfinex-api-go/v2/websocket/client.go:244-264 | every run that closes the feed under messages read ahead, or the read buffer under a message just read, can go on to a send on the closed channel |
| PeerProtocol.OneRemoverAtATime | service/service.go:84-93 | of any number of RemovePeer calls one at a time is inside |
| PeerProtocol.LookupsExcludeRemovals | service/service.go:76-82 | the service lock passes only through being free, and every lookup of the service loop, the watcher or another user happens under it while no removal is inside |
| PeerProtocol.NoSpuriousLogout | service/fix/fix.go:91-100 | the watcher logs out at most once, and never when a removal got the lock before its lookup |
| PeerLogout.LogoutExactly | service/fix/fix.go:91-100 | in a run that has come to rest the session has been logged out, once, exactly when the listener signalled its end and the peer was in the map when the watcher had the lock |
| PeerLogout.LostConnectionLogsOut | service/fix/fix.go:91-100 | a peer whose listener ended by itself, without a removal, has had its session logged out |
| PeerLogout.ConnectionLost | service/peer/peer.go:85-107 | a run from the loss of the connection to the logout |
| PeerProgress.RunsAreFinite | service/peer/peer.go:93-107 | every run is bounded by a measure over pending messages and program points |
| PeerProgress.RestIsDoneOrCaught | service/service.go:76-93 | a living gateway in which nothing moves before something happens outside has finished every removal begun, or is in the wait cycle |
| PeerProgress.RunCaughtForever | service/service.go:112-146 | the wait cycle is never left |
| PeerProgress.RemovalCompletesExactly | service/service.go:84-93 | in a run that has come to rest, all removals begun have returned and the process lives exactly when the wait cycle was never entered and nobody came to send on a closed channel |
| PeerProgress.CarefulRemovalCompletesExactly | service/peer/peer.go:118-126 | without a fatal close, all removals begun have returned exactly when the wait cycle was never entered |
| PeerScenarios.ExitCycleReachable | service/peer/peer.go:99 | two messages in flight at the removal are enough for the wait cycle at exit |
| PeerScenarios.ForeignCycleReachable | service/service.go:112-146 | one message is enough when the service loop is busy with another session |
| PeerScenarios.TakerCycleReachable | vendor/github.com/bitfinexcom/bitfinex-api-go/v2/websocket/client.go:439-458 | with a third one in hand a shutdown that takes too long waits for someone to take its reason |
| PeerScenarios.ReaderCycleReachable | vendor/github.com/bitfinexcom/bitfinex-api-go/v2/websocket/transport.go:186-198 | with the read buffer full besides, the removal waits for the lock of the blocked reader |
| PeerScenarios.FeedClosedUnderHand | vendor/github.com/bitfinexcom/bitfinex-api-go/v2/websocket/client.go:263 | a run of three messages that never enters the wait cycle and ends in a send on the closed feed |
| PeerScenarios.BufferClosedUnderHand | vendor/github.com/bitfinexcom/bitfinex-api-go/v2/websocket/transport.go:186-204 | a run of one message that never enters the wait cycle and ends in a send on the closed read buffer |
| SymbolMaster.FileSymbology.constructor | service/symbol/file.go:65-77 | reading a file line by line gives the parse of its lines |
| SymbolMaster.FileSymbology.ParseOne | service/symbol/file.go:44-62 | one line moves the current counterparty and assigns in its set |
| SymbolMaster.FileSymbology.ToBitfinex | service/symbol/file.go:80-98 | the answer is some venue symbol mapped to the given one, and there is an answer whenever there is such a symbol |
| SymbolMaster.FileSymbology.FromBitfinex | service/symbol/file.go:101-116 | the mapped symbol; in particular it undoes every successful inbound translation |
| SymbolMaster.SectionsAlone | service/symbol/file.go:44-62 | a counterparty's set is determined by the lines of its own sections |
| SymbolMaster.LookupsLocal | service/symbol/file.go:80-116 | files that agree on a counterparty's sections answer alike for it in both directions |
| SymbolMaster.PrintParse | service/symbol/file.go:33-62 | printing a well-formed master and parsing it back gives exactly its sets |
| SymbolMaster.PassthroughIdentity | service/symbol/file.go:55-57 | a section that asks for it, in any mix of cases, lets every symbol stand for itself both ways |
| SymbolMaster.FurtherFieldsIgnored | service/symbol/file.go:48-60 | only the first two fields of a line count |
| SymbolMaster.InboundThenOutbound | service/symbol/file.go:80-116 | outbound after a successful inbound translation is the identity for every scan order |
| SymbolMaster.OutboundThenInboundExactly | service/symbol/file.go:91-95 | the converse holds for all symbols exactly when the counterparty is unknown, passes symbols through, or has an injective map |
| Books.FullRefreshFromBookSnapshot | convert/fix_msg.go:106-153 | the loop translates every level of a non-empty snapshot in order |
| Books.SizedExactly | convert/fix_msg.go:218-235 | an update is a deletion without a size exactly when it removes its level |
| Books.StreamMirrors | convert/fix_msg.go:192-235 | replaying the translated messages gives the venue's book at printed prices and sizes whenever the prices print apart |
| Books.FaithfulExactly | convert/fix_msg.go:222-231 | all streams over a set of prices are translated faithfully exactly when the prices print apart |
| Books.FourDecimalPricesFaithful | convert/fix_msg.go:144-149 | four-decimal prices print apart, so every stream over them is faithful |
| Books.FourDecimalsExactly | convert/fix_msg.go:106-153 | with four-decimal prices the replayed book is the venue's book exactly when the sizes in it have at most four decimals |
| Books.SmallSizePrintsAsZero | convert/fix_msg.go:222-231 | a level of less than half a unit is shown with size zero |

## Left out

- Atomicity of handlers: the accounting for trades is proved for interleavings of single cache operations; log refinement, stability, replace chains, the fill lifecycle and the cancel reports are stated for runs in which the handlers of a session do not interleave.
- Trades not taken on: a trade whose order is unknown at the lookup, for whatever reason, and for which REST fails is refused by the code; the interleaved accounting does not count it.
- References to entries: the Go cache holds references, and an overwritten entry lives on for who still holds it; the model stores entries by value, and `CacheInterleavings` only notes whether the entry an acknowledgement has added is still the cached one.
- FIXOrderSnapshotHandler: it records executions before it sets the server id and returns after the first order, so it is not an event of the run model.
- FIXOrderUpdateHandler: it only reads the cache, and reports a filled quantity of zero.
- CachedCancel: nothing adds one, so the map stays empty and cancel rejects are not modelled.
- OrderCancelRequest messages: they pass their ids on to the venue and change nothing in the cache.
- Assumptions on the venue and the client: results about order runs assume what `OrderRuns.Fair` states, namely that the venue reports orders under a fixed pairing of client ids and order ids, that REST answers for the order asked about, and that ClOrdIDs are not reused.
- Assumptions on sessions: the peer protocol assumes that Logon ends before the first removal begins, that there is no re-logon under the same session id, and that Stop is not called concurrently.
- Websocket client: reconnects are not modelled, nor the mutex of the client that they and book snapshots use, nor what the client does with a message besides publishing or dropping it. Steps have no duration, so a timeout may come while messages wait.
- Subscription ids: the registry results assume that nonces strictly increase over the process, which `Nonces.DocumentedRate` gives for a clock that does not go back and at most 999 calls a second.
- Clock range: clock readings are limited to those for which the 64-bit arithmetic of the generator does not wrap.
- Floating point rounding: prices and quantities are reals, so only the decimal rounding of printed fields is modelled.
- Expiry dates: formatting and parsing of ExpireTime rest on the Go time library; the expiration is a number of milliseconds taken from the message.
- Fees, last price, texts of rejects, leverage values and the per-version message constructors: copied fields that no property here depends on.
- Wallet, position, balance, ticker and public trade messages, authentication events, settings and logging: field copies and input or output only.
- Splitting of the symbol master file into lines, and case folding outside ASCII letters.
