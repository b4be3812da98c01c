/** What every run of credits-service keeps about sales, ledger signs and totals. */
module TradeProofs {
  import opened Prelude
  import opened Ledger
  import opened Credits

  // ---------- the invariant ----------

  predicate ShapeOk(l: Listing) {
    match l.status
    case Open | Canceled | Expired => l.buyer.None? && l.intent.None?
    case Reserved => l.buyer.Some? && l.buyer.value != l.seller
    case Sold => l.buyer.Some? && l.buyer.value != l.seller && l.intent.Some?
  }

  predicate SoldAs(l: Listing, intent: string) { l.status == Sold && l.intent == Some(intent) }

  function TradeRows(ledger: seq<Entry>, intent: string): seq<Entry> {
    Rows(ledger, Where(None, Some(Trade), None, Some(OfText(intent))))
  }

  /** The trade rows of one intent are one buyer row and one seller row, of opposite amounts, for listing l. */
  predicate IsPairFor(rows: seq<Entry>, l: Listing, intent: string)
    requires l.buyer.Some?
  {
    && |rows| == 2
    && rows[0].createdBy.Some?
    && rows[0] == BuyerRow(l, l.buyer.value, rows[0].createdBy.value, intent)
    && rows[1] == SellerRow(l, l.buyer.value, rows[0].createdBy.value, intent)
  }

  predicate RowOk(e: Entry) {
    && (e.kind == Trade <==> e.refType == PurchaseRef || e.refType == SaleRef)
    && (e.kind == Grant ==> e.amount > 0)
    && (e.kind == Usage ==> e.amount < 0)
    && (e.kind == RefundClawback ==> e.amount < 0)
    && e.kind != Adjustment
  }

  ghost predicate HasSale(listings: seq<Listing>, ref: Ref) {
    exists i :: 0 <= i < |listings| && listings[i].status == Sold && listings[i].intent.Some?
        && ref == OfText(listings[i].intent.value)
  }

  ghost predicate IntentsUnique(listings: seq<Listing>) {
    forall i, j :: 0 <= i < |listings| && 0 <= j < |listings| && i != j && listings[i].intent.Some?
      ==> listings[i].intent != listings[j].intent
  }

  /** Sold listings and trade pairs correspond one to one. */
  ghost predicate TradesMatchSales(db: Db) {
    && (forall i :: 0 <= i < |db.listings| ==> ShapeOk(db.listings[i]))
    && IntentsUnique(db.listings)
    && (forall i :: 0 <= i < |db.listings| && db.listings[i].status == Sold
          ==> IsPairFor(TradeRows(db.ledger, db.listings[i].intent.value), db.listings[i], db.listings[i].intent.value))
    && (forall e :: e in db.ledger && e.kind == Trade ==> HasSale(db.listings, e.ref))
  }

  ghost predicate Inv(db: Db) {
    && TradesMatchSales(db)
    && (forall e :: e in db.ledger ==> RowOk(e))
  }

  // ---------- one step ----------

  lemma NonTradeRowKeepsInv(db: Db, e: Entry)
    requires Inv(db) && RowOk(e) && e.kind != Trade
    ensures Inv(db.(ledger := db.ledger + [e]))
  {
    var after := db.(ledger := db.ledger + [e]);
    forall intent: string ensures TradeRows(after.ledger, intent) == TradeRows(db.ledger, intent) {
      RowsAppend(db.ledger, [e], Where(None, Some(Trade), None, Some(OfText(intent))));
    }
  }

  lemma ListingChangeKeepsInv(db: Db, id: nat, now: int, l: Listing)
    requires Inv(db) && id < |db.listings|
    requires db.listings[id].status != Sold && l.status != Sold && ShapeOk(l)
    requires l.intent.Some? ==> l.intent == db.listings[id].intent || !IntentTaken(db, id, l.intent.value)
    ensures Inv(SetListing(db, id, now, l))
  {
    var after := SetListing(db, id, now, l);
    forall e | e in after.ledger && e.kind == Trade ensures HasSale(after.listings, e.ref) {
      SaleSurvives(db.listings, after.listings, e.ref);
    }
  }

  lemma SaleSurvives(a: seq<Listing>, b: seq<Listing>, ref: Ref)
    requires HasSale(a, ref) && |a| <= |b|
    requires forall i :: 0 <= i < |a| && a[i].status == Sold ==> b[i].status == Sold && b[i].intent == a[i].intent
    ensures HasSale(b, ref)
  {
    var i :| 0 <= i < |a| && a[i].status == Sold && a[i].intent.Some? && ref == OfText(a[i].intent.value);
    assert b[i].status == Sold;
  }

  lemma SweepKeepsInv(db: Db, now: int)
    requires Inv(db)
    ensures Inv(Sweep(db, now))
  {
    var after := Sweep(db, now);
    forall e | e in after.ledger && e.kind == Trade ensures HasSale(after.listings, e.ref) {
      SaleSurvives(db.listings, after.listings, e.ref);
    }
  }

  lemma CreateKeepsInv(db: Db, account: Uuid, credits: pos, price: pos, days: pos, now: int)
    requires Inv(db)
    ensures Inv(CreateListing(db, account, credits, price, days, now).db)
  {
    var after := CreateListing(db, account, credits, price, days, now).db;
    forall e | e in after.ledger && e.kind == Trade ensures HasSale(after.listings, e.ref) {
      SaleSurvives(db.listings, after.listings, e.ref);
    }
  }

  /** Without a sale for the intent there is no trade row for it. */
  lemma NoSaleNoRows(db: Db, intent: string)
    requires Inv(db) && forall i :: 0 <= i < |db.listings| ==> !SoldAs(db.listings[i], intent)
    ensures TradeRows(db.ledger, intent) == []
  {
    var rows := TradeRows(db.ledger, intent);
    if rows != [] {
      RowsMembers(db.ledger, Where(None, Some(Trade), None, Some(OfText(intent))), rows[0]);
    }
  }

  lemma CompleteKeepsInv(db: Db, id: nat, buyer: Uuid, user: Uuid, intent: string, now: int)
    requires Inv(db)
    ensures Inv(CompletePurchase(db, id, buyer, user, intent, now).db)
  {
    var after := CompletePurchase(db, id, buyer, user, intent, now).db;
    if after != db {
      var l := db.listings[id];
      var pair := [BuyerRow(l, buyer, user, intent), SellerRow(l, buyer, user, intent)];
      assert after.ledger == db.ledger + pair;
      NoSaleNoRows(db, intent);
      forall p: string
        ensures TradeRows(after.ledger, p) == TradeRows(db.ledger, p) + if p == intent then pair else []
      {
        var w := Where(None, Some(Trade), None, Some(OfText(p)));
        RowsAppend(db.ledger, pair, w);
        PairRows(pair[0], pair[1], w);
      }
      forall e | e in after.ledger && e.kind == Trade ensures HasSale(after.listings, e.ref) {
        if e in db.ledger {
          SaleSurvives(db.listings, after.listings, e.ref);
        } else {
          assert SoldAs(after.listings[id], intent);
        }
      }
    }
  }

  lemma EventKeepsInv(db: Db, grants: Grants, e: Envelope)
    requires Inv(db)
    ensures Inv(Consume(db, grants, e).db)
  {
    if e.id !in db.processed && EntryFor(db, grants, e).Ok? {
      var row := EntryFor(db, grants, e).value;
      if row.Some? {
        if e.kind == RefundIssued {
          var i := FirstWhere(db.ledger, InvoiceGrant(e.account.value, e.invoice.value)).value;
          assert RowOk(db.ledger[i]);
        }
        NonTradeRowKeepsInv(db, row.value);
      } else {
        assert db.ledger + [] == db.ledger;
      }
    }
  }

  lemma StepKeepsInv(db: Db, grants: Grants, cmd: Cmd, now: int)
    requires Inv(db)
    ensures Inv(Apply(db, grants, cmd, now))
    ensures db.ledger <= Apply(db, grants, cmd, now).ledger
  {
    assert forall i :: 0 <= i < |db.listings| ==> ShapeOk(db.listings[i]);
    hide Inv, TradesMatchSales, IntentsUnique, HasSale, RowOk, TradeRows, Balance, Committed, EntryFor;
    match cmd
    case DoConsumeCredits(account, user, amount, reference) =>
      NonTradeRowKeepsInv(db, Entry(account, Usage, -(amount as int), UsageRef, OfUuid(reference), None, Some(user)));
    case DoSweep => SweepKeepsInv(db, now);
    case DoCreate(account, credits, price, days) => CreateKeepsInv(db, account, credits, price, days, now);
    case DoComplete(id, buyer, user, intent) => CompleteKeepsInv(db, id, buyer, user, intent, now);
    case DoEvent(envelope) => EventKeepsInv(db, grants, envelope);
    case DoCancel(id, _, _) =>
      if id < |db.listings| && db.listings[id].status == Open {
        ListingChangeKeepsInv(db, id, now, db.listings[id].(status := Canceled));
      }
    case DoReserve(id, buyer) =>
      if id < |db.listings| && db.listings[id].status == Open && db.listings[id].seller != buyer {
        ListingChangeKeepsInv(db, id, now, db.listings[id].(status := Reserved, buyer := Some(buyer)));
      }
    case DoSetIntent(id, intent) =>
      if id < |db.listings| && db.listings[id].status == Reserved && !IntentTaken(db, id, intent) {
        ListingChangeKeepsInv(db, id, now, db.listings[id].(intent := Some(intent)));
      }
    case DoRelease(id, _) =>
      if id < |db.listings| && db.listings[id].status == Reserved {
        ListingChangeKeepsInv(db, id, now, Reopened(db.listings[id]));
      }
  }

  // ---------- every run ----------

  /** In every reachable state sold listings and trade pairs correspond one to one, and no row is ever lost. */
  lemma {:induction false} RunKeepsTrades(db: Db, grants: Grants, run: seq<Timed>)
    requires Inv(db)
    ensures Inv(Run(db, grants, run))
    ensures db.ledger <= Run(db, grants, run).ledger
  {
    if run != [] {
      var n := |run| - 1;
      RunKeepsTrades(db, grants, run[..n]);
      StepKeepsInv(Run(db, grants, run[..n]), grants, run[n].cmd, run[n].now);
    }
  }
}
