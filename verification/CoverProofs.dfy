/**
 When are the credits a seller has on the market covered by the seller's balance?  Not always: usage,
 refunds and late sales can break it.  Here is the exact condition for each operation, and for runs.
 */
module CoverProofs {
  import opened Prelude
  import opened Ledger
  import opened Credits
  import opened TradeProofs
  import opened LedgerProofs

  /** Each account's unexpired open and reserved credits are covered by its balance. */
  ghost predicate Covered(db: Db, now: int) {
    forall a :: Committed(db.listings, a, now) <= Balance(db.ledger, a)
  }

  function Headroom(db: Db, a: Uuid, now: int): int {
    Balance(db.ledger, a) - Committed(db.listings, a, now)
  }

  // ---------- sums over listings ----------

  lemma {:induction false} CommittedUpdate(listings: seq<Listing>, i: nat, l: Listing, a: Uuid, now: int)
    requires i < |listings|
    ensures Committed(listings[i := l], a, now)
         == Committed(listings, a, now) - Promised(listings[i], a, now) + Promised(l, a, now)
  {
    var n := |listings| - 1;
    if i == n {
      assert listings[i := l][..n] == listings[..n];
    } else {
      assert listings[i := l][..n] == listings[..n][i := l];
      CommittedUpdate(listings[..n], i, l, a, now);
    }
  }

  lemma {:induction false} CommittedMonotone(x: seq<Listing>, y: seq<Listing>, a: Uuid, now: int, later: int)
    requires |x| == |y| && forall i :: 0 <= i < |x| ==> Promised(y[i], a, later) <= Promised(x[i], a, now)
    ensures Committed(y, a, later) <= Committed(x, a, now)
  {
    if x != [] {
      var n := |x| - 1;
      CommittedMonotone(x[..n], y[..n], a, now, later);
      assert Promised(y[n], a, later) <= Promised(x[n], a, now);
    }
  }

  lemma {:induction false} CommittedIncludes(listings: seq<Listing>, i: nat, a: Uuid, now: int)
    requires i < |listings|
    ensures Promised(listings[i], a, now) <= Committed(listings, a, now)
  {
    if i < |listings| - 1 {
      CommittedIncludes(listings[..|listings| - 1], i, a, now);
    }
  }

  lemma CoveredLater(db: Db, now: int, later: int)
    requires Covered(db, now) && now <= later
    ensures Covered(db, later)
  {
    forall a ensures Committed(db.listings, a, later) <= Balance(db.ledger, a) {
      CommittedMonotone(db.listings, db.listings, a, now, later);
    }
  }

  // ---------- the exact condition, one step ----------

  /** A reservation that is paid by its buyer, and covered by the seller, only after the listing has expired. */
  predicate LateSale(db: Db, id: nat, buyer: Uuid, intent: string, now: int) {
    && id < |db.listings|
    && var l := db.listings[id];
       && l.status == Reserved && l.buyer == Some(buyer) && l.intent == Some(intent)
       && l.credits <= Balance(db.ledger, l.seller) && l.expiresAt <= now
  }

  /** The account and amount a command debits without releasing an unexpired promise of that account. */
  function Unbacked(db: Db, grants: Grants, cmd: Cmd, now: int): (Uuid, int) {
    match cmd
    case DoConsumeCredits(account, _, amount, reference) =>
      if reference in db.processed || Balance(db.ledger, account) < amount then (account, 0) else (account, amount)
    case DoEvent(e) =>
      if e.kind == RefundIssued && e.id !in db.processed && EntryFor(db, grants, e).Ok?
        && EntryFor(db, grants, e).value.Some?
      then (EntryFor(db, grants, e).value.value.account, -EntryFor(db, grants, e).value.value.amount)
      else (0, 0)
    case DoComplete(id, buyer, user, intent) =>
      if LateSale(db, id, buyer, intent, now) then (db.listings[id].seller, db.listings[id].credits) else (0, 0)
    case _ => (0, 0)
  }

  /** Apart from the unbacked debit, and from new listings, a step never shrinks the headroom of account a. */
  predicate HeadroomMoves(db: Db, grants: Grants, cmd: Cmd, now: int, a: Uuid) {
    var debit := Unbacked(db, grants, cmd, now);
    var before, after := Headroom(db, a, now), Headroom(Apply(db, grants, cmd, now), a, now);
    if a == debit.0 && debit.1 > 0 then after == before - debit.1
    else after >= before || (cmd.DoCreate? && after >= 0)
  }

  lemma {:induction false} HeadroomOfUsage(db: Db, grants: Grants, cmd: Cmd, now: int, a: Uuid)
    requires cmd.DoConsumeCredits?
    ensures HeadroomMoves(db, grants, cmd, now, a)
  {
    var row := Entry(cmd.account, Usage, -(cmd.amount as int), UsageRef, OfUuid(cmd.reference), None, Some(cmd.user));
    SumPush(db.ledger, row, OfAccount(a));
  }

  lemma ClawbackIsDebit(db: Db, grants: Grants, e: Envelope)
    requires Inv(db) && e.kind == RefundIssued && EntryFor(db, grants, e).Ok? && EntryFor(db, grants, e).value.Some?
    ensures EntryFor(db, grants, e).value.value.amount < 0
  {
    assert RowOk(db.ledger[FirstWhere(db.ledger, InvoiceGrant(e.account.value, e.invoice.value)).value]);
  }

  lemma HeadroomOfEvent(db: Db, grants: Grants, cmd: Cmd, now: int, a: Uuid)
    requires Inv(db) && cmd.DoEvent?
    ensures HeadroomMoves(db, grants, cmd, now, a)
  {
    var e := cmd.envelope;
    var row := EntryFor(db, grants, e);
    if e.id !in db.processed && row.Ok? && row.value.Some? {
      SumPush(db.ledger, row.value.value, OfAccount(a));
      if e.kind == RefundIssued { ClawbackIsDebit(db, grants, e); }
    } else {
      assert db.ledger + [] == db.ledger;
    }
  }

  lemma HeadroomOfCreate(db: Db, grants: Grants, cmd: Cmd, now: int, a: Uuid)
    requires cmd.DoCreate?
    ensures HeadroomMoves(db, grants, cmd, now, a)
  {
    var l := Listing(cmd.account, cmd.credits, cmd.price, Open, None, None, now + DAY * cmd.days, now);
    assert (db.listings + [l])[..|db.listings|] == db.listings;
  }

  lemma HeadroomOfListingChange(db: Db, grants: Grants, cmd: Cmd, now: int, a: Uuid)
    requires cmd.DoSweep? || cmd.DoCancel? || cmd.DoReserve? || cmd.DoSetIntent? || cmd.DoRelease?
    ensures HeadroomMoves(db, grants, cmd, now, a)
  {
    var after := Apply(db, grants, cmd, now);
    assert forall i :: 0 <= i < |db.listings| ==>
      Promised(after.listings[i], a, now) <= Promised(db.listings[i], a, now);
    CommittedMonotone(db.listings, after.listings, a, now, now);
  }

  /** A sale moves the credits from the seller's balance to the buyer's. */
  lemma SaleMoves(ledger: seq<Entry>, l: Listing, buyer: Uuid, user: Uuid, intent: string, a: Uuid)
    ensures Balance(ledger + [BuyerRow(l, buyer, user, intent), SellerRow(l, buyer, user, intent)], a) ==
            Balance(ledger, a) + (if a == buyer then l.credits else 0) - if a == l.seller then l.credits else 0
  {
    var buys, sells := BuyerRow(l, buyer, user, intent), SellerRow(l, buyer, user, intent);
    SumAppend(ledger, [buys, sells], OfAccount(a));
    PairRows(buys, sells, OfAccount(a));
  }

  lemma HeadroomOfSale(db: Db, grants: Grants, cmd: Cmd, now: int, a: Uuid)
    requires Inv(db) && cmd.DoComplete?
    ensures HeadroomMoves(db, grants, cmd, now, a)
  {
    if Apply(db, grants, cmd, now) != db {
      var l := db.listings[cmd.id];
      SaleMoves(db.ledger, l, cmd.buyer, cmd.user, cmd.intent, a);
      CommittedUpdate(db.listings, cmd.id, Touch(l, now, l.(status := Sold)), a, now);
      hide Balance, Committed, BuyerRow, SellerRow, Inv;
    }
  }

  lemma HeadroomStep(db: Db, grants: Grants, cmd: Cmd, now: int, a: Uuid)
    requires Inv(db)
    ensures HeadroomMoves(db, grants, cmd, now, a)
  {
    match cmd
    case DoConsumeCredits(_, _, _, _) => HeadroomOfUsage(db, grants, cmd, now, a);
    case DoEvent(_) => HeadroomOfEvent(db, grants, cmd, now, a);
    case DoCreate(_, _, _, _) => HeadroomOfCreate(db, grants, cmd, now, a);
    case DoComplete(_, _, _, _) => HeadroomOfSale(db, grants, cmd, now, a);
    case _ => HeadroomOfListingChange(db, grants, cmd, now, a);
  }

  /** A step keeps every seller covered exactly when its unbacked debit fits the debited account's headroom. */
  lemma StepKeepsCoverExactly(db: Db, grants: Grants, cmd: Cmd, now: int)
    requires Inv(db) && Covered(db, now)
    ensures var debit := Unbacked(db, grants, cmd, now);
            Covered(Apply(db, grants, cmd, now), now) <==> debit.1 <= Headroom(db, debit.0, now)
  {
    var debit := Unbacked(db, grants, cmd, now);
    var after := Apply(db, grants, cmd, now);
    assert forall a :: Headroom(db, a, now) >= 0;
    HeadroomStep(db, grants, cmd, now, debit.0);
    if debit.1 <= Headroom(db, debit.0, now) {
      forall a ensures Committed(after.listings, a, now) <= Balance(after.ledger, a) {
        HeadroomStep(db, grants, cmd, now, a);
      }
    } else {
      assert Headroom(after, debit.0, now) < 0;
    }
  }

  // ---------- runs ----------

  function EndTime(run: seq<Timed>, start: int): int {
    if run == [] then start else run[|run| - 1].now
  }

  /** The clock never goes back. */
  predicate Ordered(run: seq<Timed>, start: int) {
    run == [] || (Ordered(run[..|run| - 1], start) && EndTime(run[..|run| - 1], start) <= run[|run| - 1].now)
  }

  /** Every debit of the run fitted the headroom at the moment it was made. */
  predicate Backed(db: Db, grants: Grants, run: seq<Timed>) {
    run == []
    || (var n := |run| - 1;
        var before := Run(db, grants, run[..n]);
        var debit := Unbacked(before, grants, run[n].cmd, run[n].now);
        Backed(db, grants, run[..n]) && debit.1 <= Headroom(before, debit.0, run[n].now))
  }

  ghost predicate CoveredThroughout(db: Db, grants: Grants, run: seq<Timed>, start: int) {
    && Covered(Run(db, grants, run), EndTime(run, start))
    && (run != [] ==> CoveredThroughout(db, grants, run[..|run| - 1], start))
  }

  /** Over a whole run sellers stay covered if and only if every debit was backed. */
  lemma {:induction false} RunKeepsCoverExactly(db: Db, grants: Grants, run: seq<Timed>, start: int)
    requires Inv(db) && Covered(db, start) && Ordered(run, start)
    ensures CoveredThroughout(db, grants, run, start) <==> Backed(db, grants, run)
  {
    if run != [] {
      var n := |run| - 1;
      var before := Run(db, grants, run[..n]);
      RunKeepsCoverExactly(db, grants, run[..n], start);
      RunKeepsTrades(db, grants, run[..n]);
      if CoveredThroughout(db, grants, run[..n], start) {
        assert Covered(before, EndTime(run[..n], start));
        CoveredLater(before, EndTime(run[..n], start), run[n].now);
        StepKeepsCoverExactly(before, grants, run[n].cmd, run[n].now);
      }
    }
  }

  /** No usage, no refunds, and no sale of a listing that has expired. */
  predicate Quiet(db: Db, grants: Grants, run: seq<Timed>) {
    run == []
    || (var n := |run| - 1;
        var cmd := run[n].cmd;
        && Quiet(db, grants, run[..n])
        && !cmd.DoConsumeCredits? && !IsRefund(cmd)
        && (cmd.DoComplete? ==>
              var listings := Run(db, grants, run[..n]).listings;
              cmd.id < |listings| ==> run[n].now < listings[cmd.id].expiresAt))
  }

  lemma {:induction false} QuietRunsAreBacked(db: Db, grants: Grants, run: seq<Timed>, start: int)
    requires Inv(db) && Covered(db, start) && Ordered(run, start) && Quiet(db, grants, run)
    ensures Backed(db, grants, run)
  {
    if run != [] {
      var n := |run| - 1;
      QuietRunsAreBacked(db, grants, run[..n], start);
      RunKeepsCoverExactly(db, grants, run[..n], start);
      var before := Run(db, grants, run[..n]);
      assert Covered(before, EndTime(run[..n], start));
      CoveredLater(before, EndTime(run[..n], start), run[n].now);
      assert Headroom(before, 0, run[n].now) >= 0;
    }
  }

  /** After a quiet run the sale of an unexpired listing never fails for want of seller credits. */
  lemma SellerNeverShortInQuietRuns(
    grants: Grants, run: seq<Timed>, start: int, id: nat, buyer: Uuid, user: Uuid, intent: string, now: int)
    requires Ordered(run, start) && Quiet(EMPTY_DB, grants, run) && EndTime(run, start) <= now
    requires var db := Run(EMPTY_DB, grants, run); id < |db.listings| && now < db.listings[id].expiresAt
    ensures CompletePurchase(Run(EMPTY_DB, grants, run), id, buyer, user, intent, now).result
            != Err(SellerBalanceChanged)
  {
    var db := Run(EMPTY_DB, grants, run);
    QuietRunsAreBacked(EMPTY_DB, grants, run, start);
    RunKeepsCoverExactly(EMPTY_DB, grants, run, start);
    CoveredLater(db, EndTime(run, start), now);
    CommittedIncludes(db.listings, id, db.listings[id].seller, now);
    assert Covered(db, now);
  }

  // ---------- the three ways cover is lost ----------

  function Pack(id: Uuid, account: Uuid, credits: int): Cmd {
    DoEvent(Envelope(id, CreditsPurchased, Some(account), "free", None, Number(credits), None, None))
  }

  function InvoiceEvent(id: Uuid, kind: EventType, account: Uuid): Cmd {
    DoEvent(Envelope(id, kind, Some(account), "pro", Some("in"), Absent, None, Some("re")))
  }

  lemma RunPush(db: Db, grants: Grants, run: seq<Timed>, t: Timed)
    ensures Run(db, grants, run + [t]) == Apply(Run(db, grants, run), grants, t.cmd, t.now)
  {
    assert (run + [t])[..|run|] == run;
  }

  lemma RunOfTwo(db: Db, grants: Grants, x: Timed, y: Timed)
    ensures Run(db, grants, [x, y]) == Apply(Apply(db, grants, x.cmd, x.now), grants, y.cmd, y.now)
  {
    assert [] + [x] == [x] && [x] + [y] == [x, y];
    RunPush(db, grants, [], x);
    RunPush(db, grants, [x], y);
  }

  lemma RunOfFive(db: Db, grants: Grants, v: Timed, w: Timed, x: Timed, y: Timed, z: Timed)
    ensures Run(db, grants, [v, w, x, y, z])
         == Apply(Apply(Apply(Run(db, grants, [v, w]), grants, x.cmd, x.now), grants, y.cmd, y.now),
                  grants, z.cmd, z.now)
  {
    assert [v, w] + [x] == [v, w, x] && [v, w, x] + [y] == [v, w, x, y] && [v, w, x, y] + [z] == [v, w, x, y, z];
    RunPush(db, grants, [v, w], x);
    RunPush(db, grants, [v, w, x], y);
    RunPush(db, grants, [v, w, x, y], z);
  }

  lemma OneListing(l: Listing, a: Uuid, now: int)
    ensures Committed([l], a, now) == Promised(l, a, now)
  {
    assert [l][..0] == [];
  }

  /** Usage spends credits that are on the market. */
  lemma UsageBreaksCover(user: Uuid, reference: Uuid)
    requires reference != 0
    ensures var db := Run(EMPTY_DB, map[], [Timed(0, Pack(0, 1, 10)), Timed(1, DoCreate(1, 10, 5, 1))]);
            && Inv(db) && Covered(db, 1)
            && !Covered(Apply(db, map[], DoConsumeCredits(1, user, 10, reference), 1), 1)
  {
    var run := [Timed(0, Pack(0, 1, 10)), Timed(1, DoCreate(1, 10, 5, 1))];
    var db := Run(EMPTY_DB, map[], run);
    SmallMarket(map[], Pack(0, 1, 10), PackRow(1, 10, None), map[0 := CreditsPurchased]);
    StepKeepsCoverExactly(db, map[], DoConsumeCredits(1, user, 10, reference), 1);
  }

  /** A refund claws back a whole grant, listed or not. */
  lemma RefundBreaksCover()
    ensures var grants := map["pro" := 10];
            var db := Run(EMPTY_DB, grants,
                [Timed(0, InvoiceEvent(0, InvoicePaid, 1)), Timed(1, DoCreate(1, 10, 5, 1))]);
            && Inv(db) && Covered(db, 1)
            && !Covered(Apply(db, grants, InvoiceEvent(1, RefundIssued, 1), 1), 1)
  {
    var grants: Grants := map["pro" := 10];
    var row := Entry(1, Grant, 10, InvoiceRef, OfText("in"), None, None);
    var db := Run(EMPTY_DB, grants, [Timed(0, InvoiceEvent(0, InvoicePaid, 1)), Timed(1, DoCreate(1, 10, 5, 1))]);
    SmallMarket(grants, InvoiceEvent(0, InvoicePaid, 1), row, map[0 := InvoicePaid]);
    assert Selects(InvoiceGrant(1, "in"), db.ledger[0]);
    StepKeepsCoverExactly(db, grants, InvoiceEvent(1, RefundIssued, 1), 1);
  }

  /** One account with one grant of ten credits, all of them listed for a day. */
  lemma SmallMarket(grants: Grants, grant: Cmd, row: Entry, seen: map<Uuid, EventType>)
    requires grant.DoEvent? && Apply(EMPTY_DB, grants, grant, 0) == Db([row], [], seen)
    requires row.account == 1 && row.amount == 10
    ensures var db := Run(EMPTY_DB, grants, [Timed(0, grant), Timed(1, DoCreate(1, 10, 5, 1))]);
            && db == Db([row], [Listing(1, 10, 5, Open, None, None, 1 + DAY, 1)], seen)
            && Inv(db) && Covered(db, 1) && Headroom(db, 1, 1) == 0 && Balance(db.ledger, 1) == 10
  {
    var run := [Timed(0, grant), Timed(1, DoCreate(1, 10, 5, 1))];
    var l := Listing(1, 10, 5, Open, None, None, 1 + DAY, 1);
    SumPush([], row, OfAccount(1));
    assert [] + [row] == [row];
    RunOfTwo(EMPTY_DB, grants, run[0], run[1]);
    RunKeepsTrades(EMPTY_DB, grants, run);
    forall a ensures Committed([l], a, 1) <= Balance([row], a) {
      OneListing(l, a, 1);
      SumPush([], row, OfAccount(a));
    }
    OneListing(l, 1, 1);
  }

  /** Sold too late: listed, reserved and paid on the first day, then listed again once it has expired. */
  const LATE_SALE := [
    Timed(0, Pack(0, 1, 10)), Timed(1, DoCreate(1, 10, 5, 1)),
    Timed(DAY, DoReserve(0, 2)), Timed(DAY, DoSetIntent(0, "pi")), Timed(DAY + 1, DoCreate(1, 10, 5, 1))]

  /** Account 1 holds ten credits; of its two listings only the second is still unexpired. */
  lemma TwoListings(row: Entry, late: Listing, again: Listing)
    requires row.account == 1 && row.amount == 10 && late.expiresAt == DAY + 1
    requires again.seller == 1 && again.credits == 10 && again.status == Open && again.expiresAt == DAY + DAY + 1
    ensures Covered(Db([row], [late, again], map[0 := CreditsPurchased]), DAY + 1)
    ensures Headroom(Db([row], [late, again], map[0 := CreditsPurchased]), 1, DAY + 1) == 0
  {
    forall a: Uuid
      ensures Committed([late, again], a, DAY + 1) == Balance([row], a)
    {
      assert [] + [row] == [row];
      SumPush([], row, OfAccount(a));
      assert [late, again][..1] == [late];
      OneListing(late, a, DAY + 1);
    }
    assert Committed([late, again], 1, DAY + 1) == Balance([row], 1);
  }

  const LATE_ROW := PackRow(1, 10, None)
  const LATE_SEEN: map<Uuid, EventType> := map[0 := CreditsPurchased]
  const LATE_LISTING := Listing(1, 10, 5, Reserved, Some(2), Some("pi"), 1 + DAY, DAY)
  const RELISTED := Listing(1, 10, 5, Open, None, None, 1 + DAY + DAY, DAY + 1)

  lemma ReserveAndPay(l: Listing)
    requires l == Listing(1, 10, 5, Open, None, None, 1 + DAY, 1)
    ensures var reserved := Apply(Db([LATE_ROW], [l], LATE_SEEN), map[], DoReserve(0, 2), DAY);
            Apply(reserved, map[], DoSetIntent(0, "pi"), DAY) == Db([LATE_ROW], [LATE_LISTING], LATE_SEEN)
  {
    var reserved := Apply(Db([LATE_ROW], [l], LATE_SEEN), map[], DoReserve(0, 2), DAY);
    assert reserved.listings == [LATE_LISTING.(intent := None)];
  }

  lemma ListAgain()
    ensures Apply(Db([LATE_ROW], [LATE_LISTING], LATE_SEEN), map[], DoCreate(1, 10, 5, 1), DAY + 1)
         == Db([LATE_ROW], [LATE_LISTING, RELISTED], LATE_SEEN)
  {
    OneListing(LATE_LISTING, 1, DAY + 1);
    assert [] + [LATE_ROW] == [LATE_ROW];
    SumPush([], LATE_ROW, OfAccount(1));
  }

  lemma LateSaleRelists()
    ensures Run(EMPTY_DB, map[], LATE_SALE) == Db([LATE_ROW], [LATE_LISTING, RELISTED], LATE_SEEN)
  {
    SmallMarket(map[], Pack(0, 1, 10), LATE_ROW, LATE_SEEN);
    ReserveAndPay(Listing(1, 10, 5, Open, None, None, 1 + DAY, 1));
    ListAgain();
    RunOfFive(EMPTY_DB, map[], LATE_SALE[0], LATE_SALE[1], LATE_SALE[2], LATE_SALE[3], LATE_SALE[4]);
  }

  /** A reservation may be completed after it expired, when its credits are already on the market again. */
  lemma LateSaleBreaksCover(user: Uuid)
    ensures var db := Run(EMPTY_DB, map[], LATE_SALE);
            && Inv(db) && Covered(db, DAY + 1)
            && !Covered(Apply(db, map[], DoComplete(0, 2, user, "pi"), DAY + 1), DAY + 1)
  {
    LateSaleRelists();
    TwoListings(LATE_ROW, LATE_LISTING, RELISTED);
    RunKeepsTrades(EMPTY_DB, map[], LATE_SALE);
    var db := Run(EMPTY_DB, map[], LATE_SALE);
    assert [] + [LATE_ROW] == [LATE_ROW];
    SumPush([], LATE_ROW, OfAccount(1));
    StepKeepsCoverExactly(db, map[], DoComplete(0, 2, user, "pi"), DAY + 1);
  }
}
