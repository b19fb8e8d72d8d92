/** Conversions from venue vocabulary to FIX vocabulary (convert/fix.go). */
module Convert {
  import opened FixTypes
  import opened Text

  function OrdStatusToFIX(status: string): (r: OrdStatus) {
    if Contains(status, "EXECUTED") then Filled
    else if Contains(status, "PARTIALLY FILLED") then PartiallyFilled
    else if Contains(status, "CANCELED") then Canceled
    else New
  }

  /** Whatever comes with it, a text that tells of an execution, or of a partial fill. */
  lemma TellsOfFill(before: string, after: string)
    ensures OrdStatusToFIX(before + "EXECUTED" + after) == Filled
    ensures OrdStatusToFIX(before + "PARTIALLY FILLED" + after) == Filled
         || OrdStatusToFIX(before + "PARTIALLY FILLED" + after) == PartiallyFilled
  {
    ContainsPart(before, "EXECUTED", after);
    ContainsPart(before, "PARTIALLY FILLED", after);
  }

  /**
   The composite texts of the venue. An execution that completes earlier partial fills reads as
   filled. A cancelation after partial fills does not read as canceled, so the handler of order
   cancels takes it for a fill and does not report it.
   */
  lemma CompositeStatus(fill: string, earlier: string)
    ensures OrdStatusToFIX("" + "EXECUTED" + (" @ " + fill + ": was PARTIALLY FILLED @ " + earlier)) == Filled
    ensures OrdStatusToFIX("CANCELED was: " + "PARTIALLY FILLED" + (" @ " + earlier)) != Canceled
  {
    TellsOfFill("", " @ " + fill + ": was PARTIALLY FILLED @ " + earlier);
    TellsOfFill("CANCELED was: ", " @ " + earlier);
  }

  /** The texts that come alone. */
  lemma PlainStatus()
    ensures OrdStatusToFIX("ACTIVE") == New && OrdStatusToFIX("CANCELED") == Canceled
    ensures OrdStatusToFIX("PARTIALLY FILLED") == PartiallyFilled && OrdStatusToFIX("EXECUTED") == Filled
  {
    Lacks("ACTIVE", "EXECUTED");
    Lacks("CANCELED", "EXECUTED");
    Lacks("ACTIVE", "PARTIALLY FILLED");
    Lacks("CANCELED", "PARTIALLY FILLED");
    Lacks("ACTIVE", "CANCELED");
    assert OccursAt("CANCELED", "CANCELED", 0) && OccursAt("PARTIALLY FILLED", "PARTIALLY FILLED", 0);
    assert OccursAt("EXECUTED", "EXECUTED", 0);
    FilledIsNotExecuted();
  }

  lemma FilledIsNotExecuted()
    ensures !Contains("PARTIALLY FILLED", "EXECUTED")
  {
    forall i | 0 <= i <= 16
      ensures !OccursAt("PARTIALLY FILLED", "EXECUTED", i)
    {
      if OccursAt("PARTIALLY FILLED", "EXECUTED", i) {
        FirstLetter("PARTIALLY FILLED", "EXECUTED", i);
        assert false;
      }
    }
  }

  /** A text of at most the same length that is not the other one does not contain it. */
  lemma Lacks(text: string, sub: string)
    requires |text| <= |sub| && text != sub
    ensures !Contains(text, sub)
  {
    assert text[0..|text|] == text;
  }

  function ExecTypeToFIX(status: string): (r: ExecType) {
    if Contains(status, "ACTIVE") then ExecNew
    else if Contains(status, "CANCELED") then ExecCanceled
    else if Contains(status, "PARTIALLY FILLED") then ExecTrade
    else if Contains(status, "EXECUTED") then ExecTrade
    else ExecOrderStatus
  }

  /**
   How the two readings of a status text go together. Without "ACTIVE" in it, a text reads as an
   execution exactly when it reads as filled or partially filled and tells of no cancelation, and as
   a cancelation exactly when it tells of one.
   */
  lemma ExecTypeExactly(status: string)
    ensures ExecTypeToFIX(status) == ExecNew <==> Contains(status, "ACTIVE")
    ensures !Contains(status, "ACTIVE") ==>
      && (ExecTypeToFIX(status) == ExecCanceled <==> Contains(status, "CANCELED"))
      && (ExecTypeToFIX(status) == ExecTrade <==>
            !Contains(status, "CANCELED") && (OrdStatusToFIX(status) == Filled || OrdStatusToFIX(status) == PartiallyFilled))
      && (ExecTypeToFIX(status) == ExecOrderStatus <==> OrdStatusToFIX(status) == New)
  {
  }

  function SideToFIX(amount: real): (r: Side) {
    if amount > 0.0 then Buy else if amount < 0.0 then Sell else UndisclosedSide
  }

  predicate IsMarginType(typ: string) {
    Contains(typ, "MARGIN")
  }

  function OrdTypeToFIX(typ: string): (r: OrdType) {
    OrdTypeOf(ReplaceFirst(typ, "MARGIN", "EXCHANGE"))
  }

  function OrdTypeOf(t: string): (r: OrdType) {
    if t == "EXCHANGE LIMIT" || t == "LIMIT" then Limit
    else if t == "EXCHANGE MARKET" || t == "MARKET" then Market
    else if t == "STOP" || t == "TRAILING STOP" || t == "EXCHANGE TRAILING STOP" || t == "EXCHANGE STOP" then Stop
    else if t == "STOP LIMIT" then StopLimit
    else if t == "FOK" || t == "EXCHANGE FOK" then Limit
    else Market
  }

  function TimeInForceToFIX(typ: string, mtsTif: int): (r: TimeInForce) {
    if mtsTif > 0 then GoodTillDate
    else if typ == "FOK" || typ == "EXCHANGE FOK" then FillOrKill
    else GoodTillCancel
  }

  /** The terms under which the cache records an order it first learns of from the venue. */
  function TermsOfVenueOrder(o: VenueOrder, account: string, side: Side): (t: Terms) {
    Terms(o.price, o.priceAuxLimit, o.priceTrailing, o.amount, o.symbol, account, side,
          OrdTypeToFIX(o.typ), IsMarginType(o.typ), TimeInForceToFIX(o.typ, o.mtsTif), o.mtsTif, o.flags)
  }
}
