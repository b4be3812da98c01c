/**
 CreditsService as the object it is: three tables updated in place, one transaction per method.  Each
 method is proved against its function in Credits and keeps the invariant of TradeProofs.
 */
module CreditsServices {
  import opened Prelude
  import opened Ledger
  import opened Credits
  import opened TradeProofs
  import opened CoverProofs
  import opened GrantProofs
  import opened MarketProofs

  class CreditsService {
    var ledger: seq<Entry>
    var listings: seq<Listing>
    var processed: map<Uuid, EventType>
    const grants: Grants

    function Tables(): Db reads this { Db(ledger, listings, processed) }

    /** Sold listings and trade pairs correspond, and every row has the sign of its kind. */
    ghost predicate Valid() reads this { Inv(Tables()) }

    constructor (grants: Grants)
      ensures Valid() && Tables() == EMPTY_DB && this.grants == grants
    {
      ledger, listings, processed := [], [], map[];
      this.grants := grants;
    }

    method ConsumeCredits(account: Uuid, user: Uuid, amount: pos, reference: Uuid) returns (r: Result<int, Error>)
      requires Valid()
      modifies this
      ensures Valid()
      ensures Outcome(Tables(), r) == Credits.ConsumeCredits(old(Tables()), account, user, amount, reference)
      ensures r.Ok? <==> reference in old(processed) || amount <= Balance(old(ledger), account)
      ensures r.Ok? ==> r.value == Balance(ledger, account)
      ensures Balance(ledger, account) ==
              Balance(old(ledger), account) - if r.Ok? && reference !in old(processed) then amount else 0
    {
      UsageExactly(Tables(), account, user, amount, reference);
      StepKeepsInv(Tables(), grants, DoConsumeCredits(account, user, amount, reference), 0);
      var current := Balance(ledger, account);
      if reference in processed { return Ok(current); }
      if current < amount { return Err(InsufficientCredits); }
      ledger := ledger + [Entry(account, Usage, -(amount as int), UsageRef, OfUuid(reference), None, Some(user))];
      processed := processed[reference := CreditsConsumed];
      return Ok(current - amount);
    }

    /** The sweep, then the listings a buyer may choose from. */
    method Listings(now: int) returns (onSale: set<nat>)
      requires Valid()
      modifies this`listings
      ensures Valid() && Tables() == Sweep(old(Tables()), now)
      ensures forall i :: i in onSale <==> 0 <= i < |listings| && OnSale(listings[i], now)
    {
      StepKeepsInv(Tables(), grants, DoSweep, now);
      var k := 0;
      ghost var was := listings;
      while k < |listings|
        invariant 0 <= k <= |listings| == |was|
        invariant forall i :: 0 <= i < k ==> listings[i] == SweepRow(was[i], now)
        invariant forall i :: k <= i < |was| ==> listings[i] == was[i]
      {
        if Stale(listings[k], now) {
          listings := listings[k := Reopened(listings[k]).(updatedAt := now)];
        }
        k := k + 1;
      }
      onSale := set i | 0 <= i < |listings| && OnSale(listings[i], now);
    }

    method CreateListing(account: Uuid, credits: pos, price: pos, days: pos, now: int) returns (r: Result<nat, Error>)
      requires Valid()
      modifies this`listings
      ensures Valid()
      ensures Outcome(Tables(), r) == Credits.CreateListing(old(Tables()), account, credits, price, days, now)
      ensures r.Ok? <==> credits <= old(Headroom(Tables(), account, now))
      ensures r.Ok? ==> Headroom(Tables(), account, now) == old(Headroom(Tables(), account, now)) - credits
    {
      CreateExactly(Tables(), account, credits, price, days, now);
      StepKeepsInv(Tables(), grants, DoCreate(account, credits, price, days), now);
      var balance := Balance(ledger, account);
      var reserved := Committed(listings, account, now);
      if balance - reserved < credits { return Err(InsufficientCredits); }
      r := Ok(|listings|);
      listings := listings + [Listing(account, credits, price, Open, None, None, now + DAY * days, now)];
    }

    /** Flushing a changed row stamps updated_at; an unchanged row is not written. */
    method Flush(id: nat, l: Listing, now: int)
      requires id < |listings|
      modifies this`listings
      ensures Tables() == SetListing(old(Tables()), id, now, l)
    {
      if l != listings[id] {
        listings := listings[id := l.(updatedAt := now)];
      }
    }

    method CancelListing(id: nat, account: Uuid, superadmin: bool, now: int) returns (r: Result<(), Error>)
      requires Valid()
      modifies this`listings
      ensures Valid()
      ensures Outcome(Tables(), r) == Credits.CancelListing(old(Tables()), id, account, superadmin, now)
      ensures r.Ok? <==>
              old(id < |listings| && (superadmin || listings[id].seller == account) && listings[id].status == Open)
      ensures r.Ok? ==> id < |listings| && forall at :: !OnSale(listings[id], at)
    {
      CancelExactly(Tables(), id, account, superadmin, now);
      StepKeepsInv(Tables(), grants, DoCancel(id, account, superadmin), now);
      if id >= |listings| { return Err(ListingNotFound); }
      var listing := listings[id];
      if listing.seller != account && !superadmin { return Err(ListingAccessDenied); }
      if listing.status != Open { return Err(ListingNotOpen); }
      Flush(id, listing.(status := Canceled), now);
      return Ok(());
    }

    method ReservePurchase(id: nat, buyer: Uuid, now: int) returns (r: Result<Listing, Error>)
      requires Valid()
      modifies this`listings
      ensures Valid()
      ensures Outcome(Tables(), r) == Credits.ReservePurchase(old(Tables()), id, buyer, now)
      ensures r.Ok? <==> old(id < |listings| && OnSale(listings[id], now) && listings[id].seller != buyer)
      ensures r.Ok? ==> ReservedFor(Tables(), id, buyer) && r.value == listings[id]
    {
      ReserveExactly(Tables(), id, buyer, now);
      StepKeepsInv(Tables(), grants, DoReserve(id, buyer), now);
      if id >= |listings| { return Err(ListingNotFound); }
      var listing := listings[id];
      if listing.status != Open || listing.expiresAt <= now { return Err(ListingUnavailable); }
      if listing.seller == buyer { return Err(SelfPurchaseNotAllowed); }
      Flush(id, listing.(status := Reserved, buyer := Some(buyer)), now);
      return Ok(listings[id]);
    }

    method SetPaymentIntent(id: nat, intent: string, now: int) returns (r: Result<(), Error>)
      requires Valid()
      modifies this`listings
      ensures Valid()
      ensures Outcome(Tables(), r) == Credits.SetPaymentIntent(old(Tables()), id, intent, now)
      ensures r.Ok? ==> id < |listings| && listings[id].status == Reserved && listings[id].intent == Some(intent)
      ensures r.Ok? ==> forall buyer :: ReservedFor(Tables(), id, buyer) <==> old(ReservedFor(Tables(), id, buyer))
    {
      SetIntentExactly(Tables(), id, intent, now);
      StepKeepsInv(Tables(), grants, DoSetIntent(id, intent), now);
      if id >= |listings| || listings[id].status != Reserved { return Err(ListingNotReserved); }
      if exists j :: 0 <= j < |listings| && j != id && listings[j].intent == Some(intent) {
        return Err(IntegrityError);
      }
      Flush(id, listings[id].(intent := Some(intent)), now);
      return Ok(());
    }

    method ReleaseReservation(id: nat, buyer: Option<Uuid>, now: int)
      requires Valid()
      modifies this`listings
      ensures Valid() && Tables() == Credits.ReleaseReservation(old(Tables()), id, buyer, now)
      ensures Tables() == old(Tables()) || (id < |listings| && listings[id].status == Open && listings[id].buyer.None?)
      ensures buyer.Some? && !old(ReservedFor(Tables(), id, buyer.value)) ==> Tables() == old(Tables())
    {
      ReleaseExactly(Tables(), id, buyer, now);
      StepKeepsInv(Tables(), grants, DoRelease(id, buyer), now);
      if id < |listings| {
        var listing := listings[id];
        if listing.status == Reserved && (buyer == None || listing.buyer == buyer) {
          Flush(id, listing.(status := Open, buyer := None, intent := None), now);
        }
      }
    }

    method CompletePurchase(id: nat, buyer: Uuid, user: Uuid, intent: string, now: int) returns (r: Result<nat, Error>)
      requires Valid()
      modifies this
      ensures Valid()
      ensures Outcome(Tables(), r) == Credits.CompletePurchase(old(Tables()), id, buyer, user, intent, now)
      ensures old(Matching(Tables(), id, buyer, intent)) ==>
                (r.Ok? <==> old(listings[id].credits <= Balance(ledger, listings[id].seller)))
      ensures r.Ok? && old(Matching(Tables(), id, buyer, intent)) ==>
                && listings[id].status == Sold
                && forall a ::
                     Balance(ledger, a) ==
                     Balance(old(ledger), a) + (if a == buyer then listings[id].credits else 0)
                     - if a == listings[id].seller then listings[id].credits else 0
    {
      if Matching(Tables(), id, buyer, intent) {
        CompleteExactly(Tables(), id, buyer, user, intent, now);
        if listings[id].credits <= Balance(ledger, listings[id].seller) {
          SaleMovesCredits(Tables(), id, buyer, user, intent, now);
        }
      }
      StepKeepsInv(Tables(), grants, DoComplete(id, buyer, user, intent), now);
      if id >= |listings| { return Err(ListingNotFound); }
      var listing := listings[id];
      if listing.status == Sold && listing.intent == Some(intent) {
        var existing := FirstWhere(ledger, PurchaseBy(buyer, intent));
        if existing == None { return Err(TransferStateInvalid); }
        return Ok(existing.value);
      }
      if listing.status != Reserved || listing.buyer != Some(buyer) || listing.intent != Some(intent) {
        return Err(PurchaseMismatch);
      }
      if Balance(ledger, listing.seller) < listing.credits { return Err(SellerBalanceChanged); }
      r := Ok(|ledger|);
      ledger := ledger + [
        Entry(buyer, Trade, listing.credits, PurchaseRef, OfText(intent), Some(listing.seller), Some(user)),
        Entry(listing.seller, Trade, -(listing.credits as int), SaleRef, OfText(intent), Some(buyer), Some(user))];
      Flush(id, listing.(status := Sold), now);
    }

    /** The body of the transaction of consume. */
    method Record(e: Envelope) returns (r: Result<(), Error>)
      modifies this
      ensures Outcome(Tables(), r) == Credits.Consume(old(Tables()), grants, e)
    {
      if e.id in processed { return Ok(()); }
      if e.account == None { return Err(MalformedPayload); }
      var account := e.account.value;
      match e.kind {
        case InvoicePaid =>
          var amount := if e.plan in grants then grants[e.plan] else 0;
          if amount > 0 {
            if e.invoice == None { return Err(MalformedPayload); }
            ledger := ledger + [Entry(account, Grant, amount, InvoiceRef, OfText(e.invoice.value), None, None)];
          }
        case CreditsPurchased =>
          if e.credits == Unreadable { return Err(MalformedPayload); }
          var amount := if e.credits == Absent then 0 else e.credits.value;
          if amount > 0 {
            ledger := ledger + [PackRow(account, amount, e.intent)];
          }
        case RefundIssued =>
          if e.invoice == None { return Err(MalformedPayload); }
          var grant := FirstWhere(ledger, InvoiceGrant(account, e.invoice.value));
          if grant != None {
            if e.refund == None { return Err(MalformedPayload); }
            var back := -ledger[grant.value].amount;
            ledger := ledger + [Entry(account, RefundClawback, back, RefundRef, OfText(e.refund.value), None, None)];
          }
        case _ => return Err(UnsupportedEvent);
      }
      processed := processed[e.id := e.kind];
      return Ok(());
    }

    /** One delivery of a billing event.  An error rolls the transaction back. */
    method Consume(e: Envelope) returns (r: Result<(), Error>)
      requires Valid()
      modifies this
      ensures Valid()
      ensures Outcome(Tables(), r) == Credits.Consume(old(Tables()), grants, e)
      ensures r.Ok? <==> e.id in old(processed) || Processable(old(ledger), grants, e)
      ensures forall a ::
                Balance(ledger, a) ==
                Balance(old(ledger), a)
                + if r.Ok? && e.id !in old(processed) then Moved(old(ledger), grants, e, a) else 0
    {
      if e.id !in processed {
        forall a { DeliveryExactly(Tables(), grants, e, a); }
      }
      StepKeepsInv(Tables(), grants, DoEvent(e), 0);
      r := Record(e);
    }
  }
}
