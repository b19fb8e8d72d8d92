/**
 Translation of order book messages (convert/fix_msg.go): a Bitfinex snapshot becomes a full
 refresh, an update becomes an incremental refresh with one entry. The meaning of a stream of
 messages on either side is the price-aggregated book a reader ends up with.
 */
module Books {
  import opened Wrappers
  import opened Executions
  import opened Rounding

  datatype BookSide = Bid | Ask

  datatype BookAction = UpdateEntry | RemoveEntry

  datatype BookUpdate = BookUpdate(price: real, amount: real, side: BookSide, action: BookAction)

  datatype EntryType = BidEntry | OfferEntry

  datatype MDAction = MDNew | MDDelete

  /** An entry as printed; a deleted entry carries no size. */
  datatype MDEntry = MDEntry(kind: EntryType, action: MDAction, px: real, size: Option<real>)

  datatype VenueMessage = BookSnapshot(levels: seq<BookUpdate>) | BookChange(update: BookUpdate)

  datatype FixMessage = FullRefresh(entries: seq<MDEntry>) | Incremental(entry: MDEntry)

  type Level = (BookSide, real)

  type Book = map<Level, real>

  // ----- Translation; `print_` is how a decimal reads once printed -----

  function EntryTypeOf(side: BookSide): (t: EntryType) {
    match side
    case Bid => BidEntry
    case Ask => OfferEntry
  }

  function BookActionToFIX(action: BookAction): (a: MDAction) {
    match action
    case UpdateEntry => MDNew
    case RemoveEntry => MDDelete
  }

  function SnapshotEntry(print_: real -> real, u: BookUpdate): (e: MDEntry) {
    MDEntry(EntryTypeOf(u.side), MDNew, print_(u.price), Some(print_(Abs(u.amount))))
  }

  function ChangeEntry(print_: real -> real, u: BookUpdate): (e: MDEntry) {
    var action := BookActionToFIX(u.action);
    MDEntry(EntryTypeOf(u.side), action, print_(u.price),
            if action == MDDelete then None else Some(print_(Abs(u.amount))))
  }

  function SnapshotEntries(print_: real -> real, levels: seq<BookUpdate>): (entries: seq<MDEntry>)
    ensures |entries| == |levels|
    ensures forall i :: 0 <= i < |levels| ==> entries[i] == SnapshotEntry(print_, levels[i])
  {
    seq(|levels|, i requires 0 <= i < |levels| => SnapshotEntry(print_, levels[i]))
  }

  /** An empty snapshot is not translated; everything else becomes one message. */
  function Translate(print_: real -> real, m: VenueMessage): (r: Option<FixMessage>) {
    match m
    case BookSnapshot(levels) => if levels == [] then None else Some(FullRefresh(SnapshotEntries(print_, levels)))
    case BookChange(u) => Some(Incremental(ChangeEntry(print_, u)))
  }

  /** An update carries a size exactly when the level stays; a removal is a deletion without one. */
  lemma SizedExactly(print_: real -> real, u: BookUpdate)
    ensures var m := Translate(print_, BookChange(u));
      && m.Some? && m.value.Incremental?
      && (m.value.entry.action == MDDelete <==> u.action == RemoveEntry)
      && (m.value.entry.size.None? <==> u.action == RemoveEntry)
      && (m.value.entry.kind == BidEntry <==> u.side == Bid)
  {
  }

  method FullRefreshFromBookSnapshot(levels: seq<BookUpdate>) returns (r: Option<FixMessage>)
    ensures r == Translate(Printed, BookSnapshot(levels))
  {
    if |levels| <= 0 {
      return None;
    }
    var group: seq<MDEntry> := [];
    for i := 0 to |levels|
      invariant group == SnapshotEntries(Printed, levels[..i])
    {
      var u := levels[i];
      var amt := u.amount;
      if amt < 0.0 {
        amt := -amt;
      }
      group := group + [MDEntry(EntryTypeOf(u.side), MDNew, Printed(u.price), Some(Printed(amt)))];
    }
    assert levels[..|levels|] == levels;
    return Some(FullRefresh(group));
  }

  // ----- Meaning -----

  function ApplyLevels(levels: seq<BookUpdate>): (book: Book) {
    if levels == [] then map[]
    else
      var u := levels[|levels| - 1];
      ApplyLevels(levels[..|levels| - 1])[(u.side, u.price) := Abs(u.amount)]
  }

  function ApplyVenue(book: Book, m: VenueMessage): (r: Book) {
    match m
    case BookSnapshot(levels) => if levels == [] then book else ApplyLevels(levels)
    case BookChange(u) =>
      if u.action == UpdateEntry then book[(u.side, u.price) := Abs(u.amount)] else book - {(u.side, u.price)}
  }

  function SideOf(kind: EntryType): (s: BookSide) {
    match kind
    case BidEntry => Bid
    case OfferEntry => Ask
  }

  function ApplyEntry(book: Book, e: MDEntry): (r: Book) {
    var level := (SideOf(e.kind), e.px);
    match e.action
    case MDNew => if e.size.Some? then book[level := e.size.value] else book
    case MDDelete => book - {level}
  }

  function ApplyEntries(entries: seq<MDEntry>): (book: Book) {
    if entries == [] then map[] else ApplyEntry(ApplyEntries(entries[..|entries| - 1]), entries[|entries| - 1])
  }

  function ApplyFix(book: Book, m: FixMessage): (r: Book) {
    match m
    case FullRefresh(entries) => ApplyEntries(entries)
    case Incremental(e) => ApplyEntry(book, e)
  }

  function VenueBook(ms: seq<VenueMessage>): (book: Book) {
    if ms == [] then map[] else ApplyVenue(VenueBook(ms[..|ms| - 1]), ms[|ms| - 1])
  }

  /** The book of a client that replays the translated messages. */
  function ClientBook(print_: real -> real, ms: seq<VenueMessage>): (book: Book) {
    if ms == [] then map[]
    else
      var before := ClientBook(print_, ms[..|ms| - 1]);
      match Translate(print_, ms[|ms| - 1])
      case Some(f) => ApplyFix(before, f)
      case None => before
  }

  // ----- Fidelity -----

  predicate PricedIn(prices: set<real>, m: VenueMessage) {
    match m
    case BookSnapshot(levels) => forall i :: 0 <= i < |levels| ==> levels[i].price in prices
    case BookChange(u) => u.price in prices
  }

  predicate AllPricedIn(prices: set<real>, ms: seq<VenueMessage>) {
    forall i :: 0 <= i < |ms| ==> PricedIn(prices, ms[i])
  }

  /** Distinct prices print differently. */
  ghost predicate PrintsApart(print_: real -> real, prices: set<real>) {
    forall p, q :: p in prices && q in prices && print_(p) == print_(q) ==> p == q
  }

  predicate LevelsIn(prices: set<real>, book: Book) {
    forall l :: l in book ==> l.1 in prices
  }

  function Shown(print_: real -> real, l: Level): (r: Level) {
    (l.0, print_(l.1))
  }

  /** The client sees exactly the venue's levels, at printed prices and with printed sizes. */
  ghost predicate Mirrors(print_: real -> real, client: Book, venue: Book) {
    && (forall l :: l in venue ==> Shown(print_, l) in client && client[Shown(print_, l)] == print_(venue[l]))
    && (forall c :: c in client ==> exists l :: l in venue && Shown(print_, l) == c)
  }

  /** No other level of the book is shown where the given one is. */
  lemma ShownApart(print_: real -> real, prices: set<real>, venue: Book, at: Level)
    requires PrintsApart(print_, prices) && LevelsIn(prices, venue) && at.1 in prices
    ensures forall l :: l in venue && l != at ==> Shown(print_, l) != Shown(print_, at)
  {
    forall l | l in venue && Shown(print_, l) == Shown(print_, at)
      ensures l == at
    {
      assert Shown(print_, l) == (l.0, print_(l.1)) && Shown(print_, at) == (at.0, print_(at.1));
      var p: real, q: real := l.1, at.1;
      assert print_(p) == print_(q) && p in prices && q in prices;
      assert p == q;
      assert l.0 == at.0;
      assert l == (l.0, l.1) && at == (at.0, at.1);
    }
  }

  /** Setting one level on both sides. */
  lemma SetMirrors(print_: real -> real, prices: set<real>, client: Book, venue: Book, at: Level, size: real)
    requires PrintsApart(print_, prices) && LevelsIn(prices, venue) && at.1 in prices && Mirrors(print_, client, venue)
    ensures Mirrors(print_, client[Shown(print_, at) := print_(size)], venue[at := size])
  {
    var client', venue' := client[Shown(print_, at) := print_(size)], venue[at := size];
    ShownApart(print_, prices, venue, at);
    forall l | l in venue'
      ensures Shown(print_, l) in client' && client'[Shown(print_, l)] == print_(venue'[l])
    {
      assert l != at ==> l in venue;
    }
    forall c | c in client'
      ensures exists l :: l in venue' && Shown(print_, l) == c
    {
      if c == Shown(print_, at) {
        assert at in venue';
      } else {
        var l :| l in venue && Shown(print_, l) == c;
        assert l in venue';
      }
    }
  }

  lemma RemoveMirrors(print_: real -> real, prices: set<real>, client: Book, venue: Book, at: Level)
    requires PrintsApart(print_, prices) && LevelsIn(prices, venue) && at.1 in prices && Mirrors(print_, client, venue)
    ensures Mirrors(print_, client - {Shown(print_, at)}, venue - {at})
  {
    var client', venue' := client - {Shown(print_, at)}, venue - {at};
    ShownApart(print_, prices, venue, at);
    forall l | l in venue'
      ensures Shown(print_, l) in client' && client'[Shown(print_, l)] == print_(venue'[l])
    {
      assert l in venue && l != at;
    }
    forall c | c in client'
      ensures exists l :: l in venue' && Shown(print_, l) == c
    {
      var l :| l in venue && Shown(print_, l) == c;
      assert l in venue';
    }
  }

  lemma ApplySnoc(print_: real -> real, levels: seq<BookUpdate>, u: BookUpdate)
    ensures ApplyLevels(levels + [u]) == ApplyLevels(levels)[(u.side, u.price) := Abs(u.amount)]
    ensures ApplyEntries(SnapshotEntries(print_, levels + [u]))
         == ApplyEntries(SnapshotEntries(print_, levels))[Shown(print_, (u.side, u.price)) := print_(Abs(u.amount))]
  {
    assert (levels + [u])[..|levels|] == levels;
    assert SnapshotEntries(print_, levels + [u])[..|levels|] == SnapshotEntries(print_, levels);
  }

  lemma {:induction false} SnapshotMirrors(print_: real -> real, prices: set<real>, levels: seq<BookUpdate>)
    requires PrintsApart(print_, prices) && PricedIn(prices, BookSnapshot(levels))
    ensures LevelsIn(prices, ApplyLevels(levels))
    ensures Mirrors(print_, ApplyEntries(SnapshotEntries(print_, levels)), ApplyLevels(levels))
    decreases |levels|
  {
    if levels != [] {
      var init, u := levels[..|levels| - 1], levels[|levels| - 1];
      assert levels == init + [u];
      SnapshotMirrors(print_, prices, init);
      ApplySnoc(print_, init, u);
      SetMirrors(print_, prices, ApplyEntries(SnapshotEntries(print_, init)), ApplyLevels(init), (u.side, u.price), Abs(u.amount));
    }
  }

  lemma ChangeMirrors(print_: real -> real, prices: set<real>, client: Book, venue: Book, u: BookUpdate)
    requires PrintsApart(print_, prices) && u.price in prices
    requires LevelsIn(prices, venue) && Mirrors(print_, client, venue)
    ensures Mirrors(print_, ApplyEntry(client, ChangeEntry(print_, u)), ApplyVenue(venue, BookChange(u)))
  {
    ChangeApplied(print_, client, venue, u);
    if u.action == UpdateEntry {
      SetMirrors(print_, prices, client, venue, (u.side, u.price), Abs(u.amount));
    } else {
      RemoveMirrors(print_, prices, client, venue, (u.side, u.price));
    }
  }

  /** What an update does on both sides: set or remove one level. */
  lemma ChangeApplied(print_: real -> real, client: Book, venue: Book, u: BookUpdate)
    ensures var at := (u.side, u.price);
      if u.action == UpdateEntry then
        && ApplyEntry(client, ChangeEntry(print_, u)) == client[Shown(print_, at) := print_(Abs(u.amount))]
        && ApplyVenue(venue, BookChange(u)) == venue[at := Abs(u.amount)]
      else
        && ApplyEntry(client, ChangeEntry(print_, u)) == client - {Shown(print_, at)}
        && ApplyVenue(venue, BookChange(u)) == venue - {at}
  {
  }

  /** One more message, translated and replayed on both sides. */
  lemma MessageMirrors(print_: real -> real, prices: set<real>, client: Book, venue: Book, m: VenueMessage)
    requires PrintsApart(print_, prices) && PricedIn(prices, m)
    requires LevelsIn(prices, venue) && Mirrors(print_, client, venue)
    ensures LevelsIn(prices, ApplyVenue(venue, m))
    ensures var f := Translate(print_, m);
            Mirrors(print_, if f.Some? then ApplyFix(client, f.value) else client, ApplyVenue(venue, m))
  {
    match m
    case BookSnapshot(levels) => SnapshotMirrors(print_, prices, levels);
    case BookChange(u) => ChangeMirrors(print_, prices, client, venue, u);
  }

  lemma {:induction false} StreamMirrors(print_: real -> real, prices: set<real>, ms: seq<VenueMessage>)
    requires PrintsApart(print_, prices) && AllPricedIn(prices, ms)
    ensures LevelsIn(prices, VenueBook(ms))
    ensures Mirrors(print_, ClientBook(print_, ms), VenueBook(ms))
    decreases |ms|
  {
    if ms != [] {
      var init, m := ms[..|ms| - 1], ms[|ms| - 1];
      StreamMirrors(print_, prices, init);
      MessageMirrors(print_, prices, ClientBook(print_, init), VenueBook(init), m);
    }
  }

  /** Every stream of messages over the given prices leaves the client with the venue's book. */
  ghost predicate Faithful(print_: real -> real, prices: set<real>) {
    forall ms :: AllPricedIn(prices, ms) ==> Mirrors(print_, ClientBook(print_, ms), VenueBook(ms))
  }

  /** A level at one price is set and a level at another price is removed. */
  function SetThenRemove(p: real, q: real): (ms: seq<VenueMessage>) {
    [BookSnapshot([BookUpdate(p, 1.0, Bid, UpdateEntry)]), BookChange(BookUpdate(q, 1.0, Bid, RemoveEntry))]
  }

  /** When two prices print alike, removing the one level erases the other for the client. */
  lemma CollidingLevelsDiverge(print_: real -> real, p: real, q: real)
    requires p != q && print_(p) == print_(q)
    ensures !Mirrors(print_, ClientBook(print_, SetThenRemove(p, q)), VenueBook(SetThenRemove(p, q)))
  {
    var ms := SetThenRemove(p, q);
    var first := ms[0];
    assert ms[..1] == [first] && [first][..0] == [];
    var u := first.levels[0];
    assert first.levels == [] + [u];
    ApplySnoc(print_, [], u);
    assert ApplyLevels(first.levels) == map[(Bid, p) := 1.0];
    assert VenueBook([first]) == ApplyLevels(first.levels);
    assert (Bid, p) in VenueBook(ms);
    assert ClientBook(print_, ms) == ApplyEntry(ClientBook(print_, [first]), ChangeEntry(print_, ms[1].update));
    assert Shown(print_, (Bid, p)) !in ClientBook(print_, ms);
  }

  /** For a set of prices, every stream is translated faithfully exactly when they print apart. */
  lemma FaithfulExactly(print_: real -> real, prices: set<real>)
    ensures Faithful(print_, prices) <==> PrintsApart(print_, prices)
  {
    if PrintsApart(print_, prices) {
      forall ms | AllPricedIn(prices, ms)
        ensures Mirrors(print_, ClientBook(print_, ms), VenueBook(ms))
      {
        StreamMirrors(print_, prices, ms);
      }
    }
    if !PrintsApart(print_, prices) {
      var p, q :| p in prices && q in prices && print_(p) == print_(q) && p != q;
      CollidingLevelsDiverge(print_, p, q);
      assert AllPricedIn(prices, SetThenRemove(p, q));
    }
  }

  /** Four-decimal prices print apart, so every stream over them is translated faithfully. */
  lemma FourDecimalPricesFaithful(prices: set<real>)
    requires forall p :: p in prices ==> OnGrid(p)
    ensures Faithful(Printed, prices)
  {
    forall p, q | p in prices && q in prices && Printed(p) == Printed(q)
      ensures p == q
    {
      PrintedExactly(p);
      PrintedExactly(q);
    }
    FaithfulExactly(Printed, prices);
  }

  /** Where printing changes no price, the client's book is the venue's exactly when it changes no size. */
  lemma SameBookExactly(print_: real -> real, client: Book, venue: Book)
    requires Mirrors(print_, client, venue)
    requires forall l :: l in venue ==> Shown(print_, l) == l
    ensures client == venue <==> forall l :: l in venue ==> print_(venue[l]) == venue[l]
  {
    assert forall l :: l in venue ==> l in client && client[l] == print_(venue[l]);
    forall c | c in client
      ensures c in venue
    {
      var l :| l in venue && Shown(print_, l) == c;
    }
    if client == venue {
      forall l | l in venue
        ensures print_(venue[l]) == venue[l]
      {
        assert client[l] == print_(venue[l]);
      }
    }
  }

  /**
   With four-decimal prices, replaying the translated messages gives the very same book exactly
   when the sizes left in the venue's book have at most four decimals, too.
   */
  lemma FourDecimalsExactly(prices: set<real>, ms: seq<VenueMessage>)
    requires AllPricedIn(prices, ms)
    requires forall p :: p in prices ==> OnGrid(p)
    ensures ClientBook(Printed, ms) == VenueBook(ms) <==>
            forall l :: l in VenueBook(ms) ==> OnGrid(VenueBook(ms)[l])
  {
    var venue := VenueBook(ms);
    FourDecimalPricesFaithful(prices);
    FaithfulExactly(Printed, prices);
    StreamMirrors(Printed, prices, ms);
    forall l | l in venue
      ensures Shown(Printed, l) == l
      ensures Printed(venue[l]) == venue[l] <==> OnGrid(venue[l])
    {
      PrintedExactly(l.1);
      PrintedExactly(venue[l]);
    }
    SameBookExactly(Printed, ClientBook(Printed, ms), venue);
  }

  /** A level of less than half a unit: the client is told of a size of zero, and keeps the level. */
  lemma SmallSizePrintsAsZero()
    ensures var ms := [BookChange(BookUpdate(1.0, 0.00004, Bid, UpdateEntry))];
      && VenueBook(ms) == map[(Bid, 1.0) := 0.00004]
      && ClientBook(Printed, ms) == map[(Bid, 1.0) := 0.0]
  {
    var ms := [BookChange(BookUpdate(1.0, 0.00004, Bid, UpdateEntry))];
    assert ms[..0] == [];
    UnitsExactly(0.00004, 0);
    UnitsExactly(1.0, 10000);
  }
}
