/**
 What a caller gets from usage and from the market: when each operation succeeds, and what it moves, told by balances,
 by what is on sale and by what other calls then answer.
 */
module MarketProofs {
  import opened Prelude
  import opened Ledger
  import opened Credits
  import opened TradeProofs
  import opened CoverProofs

  predicate SameOthers(listings: seq<Listing>, listings': seq<Listing>, id: nat) {
    |listings'| == |listings| && forall i :: 0 <= i < |listings| && i != id ==> listings'[i] == listings[i]
  }

  /** What a listing is about, which no operation changes. */
  predicate SameOffer(l: Listing, l': Listing) {
    l'.seller == l.seller && l'.credits == l.credits && l'.price == l.price && l'.expiresAt == l.expiresAt
  }

  // ---------- usage ----------

  /**
   A charge under an unseen reference succeeds exactly when the balance suffices; it lowers that balance by the amount
   and no other, and whatever is answered is the balance after the call.  A seen reference charges nothing.
   */
  lemma UsageExactly(db: Db, account: Uuid, user: Uuid, amount: pos, reference: Uuid)
    ensures var o := ConsumeCredits(db, account, user, amount, reference);
            var charged := reference !in db.processed && amount <= Balance(db.ledger, account);
            && (o.result.Ok? <==> reference in db.processed || amount <= Balance(db.ledger, account))
            && (o.result.Ok? ==> o.result.value == Balance(o.db.ledger, account))
            && (o.result.Err? ==> o.result == Err(InsufficientCredits))
            && (!charged ==> o.db == db)
            && (charged ==> o.db.processed == db.processed[reference := CreditsConsumed])
            && o.db.listings == db.listings
            && forall a ::
                 Balance(o.db.ledger, a) == Balance(db.ledger, a) - if charged && a == account then amount else 0
  {
    var row := Entry(account, Usage, -(amount as int), UsageRef, OfUuid(reference), None, Some(user));
    forall a ensures Balance(db.ledger + [row], a) == Balance(db.ledger, a) - if a == account then amount else 0 {
      SumPush(db.ledger, row, OfAccount(a));
    }
  }

  // ---------- putting up and taking down ----------

  /**
   Listing succeeds exactly when the credits fit the headroom, which falls by them; the listing is on sale for exactly
   the given days.
   */
  lemma CreateExactly(db: Db, account: Uuid, credits: pos, price: pos, days: pos, now: int)
    ensures var o := CreateListing(db, account, credits, price, days, now);
            && (o.result.Ok? <==> credits <= Headroom(db, account, now))
            && (o.result.Err? ==> o == Outcome(db, Err(InsufficientCredits)))
            && (o.result.Ok? ==>
                  && o.result.value == |db.listings| && |o.db.listings| == |db.listings| + 1
                  && o.db.listings[..|db.listings|] == db.listings
                  && o.db.ledger == db.ledger && o.db.processed == db.processed
                  && (var l := o.db.listings[|db.listings|];
                      && l.seller == account && l.credits == credits && l.price == price && l.buyer.None?
                      && forall at :: OnSale(l, at) <==> at < now + days * 24 * 60 * 60)
                  && forall a :: Headroom(o.db, a, now) == Headroom(db, a, now) - if a == account then credits else 0)
  {
    var o := CreateListing(db, account, credits, price, days, now);
    if o.result.Ok? {
      assert o.db.listings[..|db.listings|] == db.listings;
    }
  }

  /**
   Only the seller or a super admin takes a listing down, and only an open one; it is never on sale again and its
   credits are free.
   */
  lemma CancelExactly(db: Db, id: nat, account: Uuid, superadmin: bool, now: int)
    ensures var o := CancelListing(db, id, account, superadmin, now);
            && (o.result.Ok? <==>
                  && id < |db.listings| && (superadmin || db.listings[id].seller == account)
                  && db.listings[id].status == Open)
            && (o.result == Err(ListingNotFound) <==> |db.listings| <= id)
            && (o.result == Err(ListingAccessDenied) <==>
                  id < |db.listings| && !superadmin && db.listings[id].seller != account)
            && (o.result.Err? ==> o.db == db)
            && (o.result.Ok? ==>
                  && SameOthers(db.listings, o.db.listings, id) && SameOffer(db.listings[id], o.db.listings[id])
                  && o.db.ledger == db.ledger && o.db.processed == db.processed
                  && (forall at :: !OnSale(o.db.listings[id], at))
                  && forall a, at :: Promised(o.db.listings[id], a, at) == 0)
  {}

  // ---------- reservations ----------

  predicate ReservedFor(db: Db, id: nat, buyer: Uuid) {
    id < |db.listings| && db.listings[id].status == Reserved && db.listings[id].buyer == Some(buyer)
  }

  /**
   A listing can be reserved exactly when it is on sale and not the buyer's own; then nobody can reserve it, and the
   seller's promise stays.
   */
  lemma ReserveExactly(db: Db, id: nat, buyer: Uuid, now: int)
    ensures var o := ReservePurchase(db, id, buyer, now);
            && (o.result.Ok? <==>
                  id < |db.listings| && OnSale(db.listings[id], now) && db.listings[id].seller != buyer)
            && (o.result == Err(ListingNotFound) <==> |db.listings| <= id)
            && (o.result == Err(SelfPurchaseNotAllowed) <==>
                  id < |db.listings| && OnSale(db.listings[id], now) && db.listings[id].seller == buyer)
            && (o.result.Err? ==> o.db == db)
            && (o.result.Ok? ==>
                  && ReservedFor(o.db, id, buyer) && o.result.value == o.db.listings[id]
                  && SameOthers(db.listings, o.db.listings, id) && SameOffer(db.listings[id], o.db.listings[id])
                  && o.db.listings[id].intent == db.listings[id].intent
                  && o.db.ledger == db.ledger && o.db.processed == db.processed
                  && (forall a, at :: Promised(o.db.listings[id], a, at) == Promised(db.listings[id], a, at))
                  && forall other, at :: ReservePurchase(o.db, id, other, at).result == Err(ListingUnavailable))
  {}

  /** Releasing gives back the listing that was reserved, exactly for its buyer or when no buyer is named. */
  lemma ReserveThenRelease(db: Db, id: nat, buyer: Uuid, now: int, only: Option<Uuid>, later: int)
    requires Inv(db) && ReservePurchase(db, id, buyer, now).result.Ok?
    ensures var reserved := ReservePurchase(db, id, buyer, now).db;
            var released := ReleaseReservation(reserved, id, only, later);
            if only.None? || only == Some(buyer)
            then released == db.(listings := db.listings[id := db.listings[id].(updatedAt := later)])
            else released == reserved
  {
    assert ShapeOk(db.listings[id]);
    var reserved := ReservePurchase(db, id, buyer, now).db;
    assert reserved.listings[id := db.listings[id].(updatedAt := later)] ==
           db.listings[id := db.listings[id].(updatedAt := later)];
  }

  /** A release reopens a listing exactly when it is reserved, and for the named buyer if one is named. */
  lemma ReleaseExactly(db: Db, id: nat, only: Option<Uuid>, now: int)
    ensures var after := ReleaseReservation(db, id, only, now);
            var releases := id < |db.listings| && db.listings[id].status == Reserved
                            && (only.None? || ReservedFor(db, id, only.value));
            && (!releases ==> after == db)
            && (releases ==>
                  && SameOthers(db.listings, after.listings, id) && SameOffer(db.listings[id], after.listings[id])
                  && after.ledger == db.ledger && after.processed == db.processed
                  && (forall buyer :: !ReservedFor(after, id, buyer)) && after.listings[id].intent.None?
                  && forall at :: OnSale(after.listings[id], at) <==> at < db.listings[id].expiresAt)
  {}

  /** An intent is set exactly on a reserved listing and when no other listing has it. */
  lemma SetIntentExactly(db: Db, id: nat, intent: string, now: int)
    ensures var o := SetPaymentIntent(db, id, intent, now);
            && (o.result.Ok? <==>
                  && id < |db.listings| && db.listings[id].status == Reserved
                  && forall j :: 0 <= j < |db.listings| && j != id ==> db.listings[j].intent != Some(intent))
            && (o.result.Err? ==> o.db == db)
            && (o.result == Err(ListingNotReserved) <==>
                  !(id < |db.listings| && db.listings[id].status == Reserved))
            && (o.result.Ok? ==>
                  && SameOthers(db.listings, o.db.listings, id) && SameOffer(db.listings[id], o.db.listings[id])
                  && o.db.listings[id].intent == Some(intent)
                  && (forall buyer :: ReservedFor(o.db, id, buyer) <==> ReservedFor(db, id, buyer))
                  && o.db.ledger == db.ledger && o.db.processed == db.processed)
  {}

  /** A sweep takes a reservation away exactly when the listing was left alone for more than fifteen minutes. */
  lemma SweepExactly(db: Db, now: int, id: nat)
    requires id < |db.listings|
    ensures var swept, l := Sweep(db, now), db.listings[id];
            && |swept.listings| == |db.listings| && swept.ledger == db.ledger && swept.processed == db.processed
            && SameOffer(l, swept.listings[id])
            && if l.status == Reserved && now - l.updatedAt > 15 * 60
               then swept.listings[id].status == Open && swept.listings[id].buyer.None?
                    && swept.listings[id].intent.None? && swept.listings[id].updatedAt == now
               else swept.listings[id] == l
  {}

  /** The commands that end a reservation by its own buyer or by the service itself. */
  predicate EndsReservation(cmd: Cmd, id: nat, buyer: Uuid) {
    || (cmd.DoRelease? && cmd.id == id && (cmd.buyerOnly.None? || cmd.buyerOnly == Some(buyer)))
    || (cmd.DoComplete? && cmd.id == id && cmd.buyer == buyer)
  }

  /** Reserved for the buyer, and touched at time t or later. */
  predicate HeldSince(db: Db, id: nat, buyer: Uuid, t: int) {
    ReservedFor(db, id, buyer) && t <= db.listings[id].updatedAt
  }

  lemma StepKeepsHold(db: Db, grants: Grants, cmd: Cmd, now: int, id: nat, buyer: Uuid, t: int)
    requires HeldSince(db, id, buyer, t) && t <= now <= t + 15 * 60 && !EndsReservation(cmd, id, buyer)
    ensures HeldSince(Apply(db, grants, cmd, now), id, buyer, t)
        && SameOffer(db.listings[id], Apply(db, grants, cmd, now).listings[id])
  {
    match cmd
    case DoSweep => SweepExactly(db, now, id);
    case _ =>
  }

  predicate NoneEnds(run: seq<Timed>, id: nat, buyer: Uuid) {
    forall k :: 0 <= k < |run| ==> !EndsReservation(run[k].cmd, id, buyer)
  }

  /**
   A reservation holds for fifteen minutes: whatever anyone does in that time, the listing stays reserved for its
   buyer on the same terms, unless that buyer completes it or it is released for that buyer or for all.
   */
  lemma {:induction false} ReservationHolds(
    db: Db, grants: Grants, run: seq<Timed>, t: int, id: nat, buyer: Uuid)
    requires HeldSince(db, id, buyer, t) && Ordered(run, t) && EndTime(run, t) <= t + 15 * 60
    requires NoneEnds(run, id, buyer)
    ensures HeldSince(Run(db, grants, run), id, buyer, t)
    ensures SameOffer(db.listings[id], Run(db, grants, run).listings[id])
    ensures t <= EndTime(run, t)
  {
    if run != [] {
      var n := |run| - 1;
      assert forall k :: 0 <= k < n ==> run[..n][k] == run[k];
      ReservationHolds(db, grants, run[..n], t, id, buyer);
      StepKeepsHold(Run(db, grants, run[..n]), grants, run[n].cmd, run[n].now, id, buyer, t);
    }
  }

  // ---------- sales ----------

  /** The listing is reserved for this buyer and this payment. */
  predicate Matching(db: Db, id: nat, buyer: Uuid, intent: string) {
    ReservedFor(db, id, buyer) && db.listings[id].intent == Some(intent)
  }

  /**
   A purchase of a listing that is not sold yet succeeds exactly when the listing is reserved for this buyer and payment
   and its credits are in the seller's balance, expired or not; each refusal has its own error and changes nothing.
   */
  lemma CompleteExactly(db: Db, id: nat, buyer: Uuid, user: Uuid, intent: string, now: int)
    requires id < |db.listings| ==> !SoldAs(db.listings[id], intent)
    ensures var o := CompletePurchase(db, id, buyer, user, intent, now);
            && (o.result.Ok? <==>
                  Matching(db, id, buyer, intent)
                  && db.listings[id].credits <= Balance(db.ledger, db.listings[id].seller))
            && (o.result == Err(ListingNotFound) <==> |db.listings| <= id)
            && (o.result == Err(PurchaseMismatch) <==> id < |db.listings| && !Matching(db, id, buyer, intent))
            && (o.result.Err? ==> o.db == db)
  {}

  /**
   A sale moves exactly the credits of the listing from the seller's balance to the buyer's, and nothing else; the
   listing is sold with its terms, buyer and payment, and the answer is the id of the buyer's new ledger row.
   */
  lemma SaleMovesCredits(db: Db, id: nat, buyer: Uuid, user: Uuid, intent: string, now: int)
    requires Matching(db, id, buyer, intent)
        && db.listings[id].credits <= Balance(db.ledger, db.listings[id].seller)
    ensures var o, l := CompletePurchase(db, id, buyer, user, intent, now), db.listings[id];
            && (forall a ::
                  Balance(o.db.ledger, a) ==
                  Balance(db.ledger, a)
                  + (if a == buyer then l.credits else 0) - if a == l.seller then l.credits else 0)
            && SameOthers(db.listings, o.db.listings, id) && SameOffer(l, o.db.listings[id])
            && o.db.listings[id].status == Sold
            && o.db.listings[id].buyer == Some(buyer) && o.db.listings[id].intent == Some(intent)
            && o.db.processed == db.processed
            && o.result.Ok? && |db.ledger| <= o.result.value < |o.db.ledger|
            && o.db.ledger[o.result.value].account == buyer && o.db.ledger[o.result.value].amount == l.credits
            && o.db.ledger[o.result.value].createdBy == Some(user)
            && o.db.ledger[o.result.value].counterparty == Some(l.seller)
  {
    var l := db.listings[id];
    forall a
      ensures Balance(db.ledger + [BuyerRow(l, buyer, user, intent), SellerRow(l, buyer, user, intent)], a) ==
              Balance(db.ledger, a) + (if a == buyer then l.credits else 0) - if a == l.seller then l.credits else 0
    {
      SaleMoves(db.ledger, l, buyer, user, intent, a);
    }
  }

  /** After a quiet run, completing an unexpired listing for the buyer and payment it is reserved for succeeds. */
  lemma QuietSaleSucceeds(
    grants: Grants, run: seq<Timed>, start: int, id: nat, buyer: Uuid, user: Uuid, intent: string, now: int)
    requires Ordered(run, start) && Quiet(EMPTY_DB, grants, run) && EndTime(run, start) <= now
    requires var db := Run(EMPTY_DB, grants, run);
             Matching(db, id, buyer, intent) && now < db.listings[id].expiresAt
    ensures CompletePurchase(Run(EMPTY_DB, grants, run), id, buyer, user, intent, now).result.Ok?
  {
    var db := Run(EMPTY_DB, grants, run);
    CompleteExactly(db, id, buyer, user, intent, now);
    SellerNeverShortInQuietRuns(grants, run, start, id, buyer, user, intent, now);
    hide Run, Covered, Committed, Balance, Quiet, Ordered;
  }

  /** A paid reservation that the seller can cover is completed after a sweep exactly when the sweep left it alone. */
  lemma SweepDecidesSale(db: Db, swept: int, id: nat, buyer: Uuid, user: Uuid, intent: string, now: int)
    requires Matching(db, id, buyer, intent)
        && db.listings[id].credits <= Balance(db.ledger, db.listings[id].seller)
    ensures CompletePurchase(Sweep(db, swept), id, buyer, user, intent, now).result.Ok? <==>
            swept - db.listings[id].updatedAt <= 15 * 60
  {
    SweepExactly(db, swept, id);
    CompleteExactly(Sweep(db, swept), id, buyer, user, intent, now);
  }

  lemma {:induction false} RunAppend(db: Db, grants: Grants, run: seq<Timed>, more: seq<Timed>)
    ensures Run(db, grants, run + more) == Run(Run(db, grants, run), grants, more)
  {
    if more == [] {
      assert run + more == run;
    } else {
      assert (run + more)[..|run + more| - 1] == run + more[..|more| - 1];
      RunAppend(db, grants, run, more[..|more| - 1]);
    }
  }

  lemma {:induction false} OrderedAppend(run: seq<Timed>, more: seq<Timed>, start: int)
    requires Ordered(run + more, start)
    ensures Ordered(more, EndTime(run, start)) && EndTime(run + more, start) == EndTime(more, EndTime(run, start))
  {
    if more == [] {
      assert run + more == run;
    } else {
      assert (run + more)[..|run + more| - 1] == run + more[..|more| - 1];
      OrderedAppend(run, more[..|more| - 1], start);
    }
  }

  /**
   From reservation to sale, in a run without usage, refunds and late sales: a buyer who reserves a listing and whose
   payment is on it gets the credits, whatever others do in between, if the run since then took at most fifteen minutes
   and did not release the listing, and the listing has not expired.
   */
  lemma PaidInTimeIsSold(
    grants: Grants, before: seq<Timed>, start: int, id: nat, buyer: Uuid, t: int, since: seq<Timed>, user: Uuid,
    intent: string, now: int)
    requires ReservePurchase(Run(EMPTY_DB, grants, before), id, buyer, t).result.Ok?
    requires var run := before + [Timed(t, DoReserve(id, buyer))] + since;
             && Ordered(run, start) && Quiet(EMPTY_DB, grants, run) && NoneEnds(since, id, buyer)
             && EndTime(run, start) <= now && EndTime(run, start) <= t + 15 * 60
             && id < |Run(EMPTY_DB, grants, run).listings|
             && Run(EMPTY_DB, grants, run).listings[id].intent == Some(intent)
    requires now < Run(EMPTY_DB, grants, before).listings[id].expiresAt
    ensures var run := before + [Timed(t, DoReserve(id, buyer))] + since;
            CompletePurchase(Run(EMPTY_DB, grants, run), id, buyer, user, intent, now).result.Ok?
  {
    var reserve := before + [Timed(t, DoReserve(id, buyer))];
    var db := Run(EMPTY_DB, grants, before);
    RunPush(EMPTY_DB, grants, before, Timed(t, DoReserve(id, buyer)));
    assert Run(EMPTY_DB, grants, reserve) == ReservePurchase(db, id, buyer, t).db;
    ReserveExactly(db, id, buyer, t);
    ReservedNow(db, id, buyer, t);
    RunAppend(EMPTY_DB, grants, reserve, since);
    OrderedAppend(reserve, since, start);
    hide *;
    ReservationHolds(ReservePurchase(db, id, buyer, t).db, grants, since, t, id, buyer);
    QuietSaleSucceeds(grants, reserve + since, start, id, buyer, user, intent, now);
  }

  lemma ReservedNow(db: Db, id: nat, buyer: Uuid, t: int)
    requires ReservePurchase(db, id, buyer, t).result.Ok?
    ensures HeldSince(ReservePurchase(db, id, buyer, t).db, id, buyer, t)
  {}
}
