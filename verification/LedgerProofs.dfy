/** Idempotent sales, conservation of credits, and the floor under every balance, over every run. */
module LedgerProofs {
  import opened Prelude
  import opened Ledger
  import opened Credits
  import opened TradeProofs

  // ---------- completing a purchase twice ----------

  /** The buyer row of a sale is the only row its buyer's lookup can find, and no one else finds any. */
  lemma PurchaseLookup(db: Db, id: nat, buyer: Uuid, intent: string)
    requires Inv(db) && id < |db.listings| && SoldAs(db.listings[id], intent)
    ensures FirstWhere(db.ledger, PurchaseBy(buyer, intent)).Some? <==> db.listings[id].buyer == Some(buyer)
  {
    var l := db.listings[id];
    var w := Where(None, Some(Trade), None, Some(OfText(intent)));
    var rows := TradeRows(db.ledger, intent);
    RowsMembers(db.ledger, w, rows[0]);
    forall e | e in db.ledger && Selects(PurchaseBy(buyer, intent), e) ensures e == rows[0] {
      RowsMembers(db.ledger, w, e);
    }
    assert Selects(PurchaseBy(l.buyer.value, intent), rows[0]);
  }

  /** On a sold listing the call changes nothing; it fails exactly for an account that is not the buyer. */
  lemma CompleteOnSold(db: Db, id: nat, buyer: Uuid, user: Uuid, intent: string, now: int)
    requires Inv(db) && id < |db.listings| && SoldAs(db.listings[id], intent)
    ensures var o := CompletePurchase(db, id, buyer, user, intent, now);
            && o.db == db
            && (o.result == Err(TransferStateInvalid) <==> db.listings[id].buyer != Some(buyer))
            && (o.result.Ok? <==> db.listings[id].buyer == Some(buyer))
  {
    PurchaseLookup(db, id, buyer, intent);
  }

  /** A sold listing is never touched again. */
  lemma {:induction false} SoldForever(db: Db, grants: Grants, run: seq<Timed>, id: nat)
    requires id < |db.listings| && db.listings[id].status == Sold
    ensures var after := Run(db, grants, run); id < |after.listings| && after.listings[id] == db.listings[id]
  {
    if run != [] {
      SoldForever(db, grants, run[..|run| - 1], id);
    }
  }

  /** A completed purchase stays completed: after any run, a retry returns the same id and changes nothing. */
  lemma RetryReturnsSameId(
    db: Db, grants: Grants, id: nat, buyer: Uuid, user: Uuid, intent: string, now: int,
    run: seq<Timed>, retryUser: Uuid, retryNow: int)
    requires Inv(db) && CompletePurchase(db, id, buyer, user, intent, now).result.Ok?
    ensures var first := CompletePurchase(db, id, buyer, user, intent, now);
            var after := Run(first.db, grants, run);
            CompletePurchase(after, id, buyer, retryUser, intent, retryNow) == Outcome(after, first.result)
  {
    var first := CompletePurchase(db, id, buyer, user, intent, now);
    var w := PurchaseBy(buyer, intent);
    CompleteKeepsInv(db, id, buyer, user, intent, now);
    PurchaseLookup(first.db, id, buyer, intent);
    if first.db != db {
      NoSaleNoRows(db, intent);
      forall e | e in db.ledger ensures !Selects(w, e) {
        RowsMembers(db.ledger, Where(None, Some(Trade), None, Some(OfText(intent))), e);
      }
      assert Selects(w, first.db.ledger[|db.ledger|]);
    }
    assert FirstWhere(first.db.ledger, w) == Some(first.result.value);
    RunKeepsTrades(first.db, grants, run);
    SoldForever(first.db, grants, run, id);
    FirstWhereStable(first.db.ledger, Run(first.db, grants, run).ledger, w);
  }

  // ---------- what one step appends ----------

  predicate IsRefund(cmd: Cmd) { cmd.DoEvent? && cmd.envelope.kind == RefundIssued }

  function Appended(db: Db, grants: Grants, cmd: Cmd, now: int): seq<Entry>
    requires |db.ledger| <= |Apply(db, grants, cmd, now).ledger|
  {
    Apply(db, grants, cmd, now).ledger[|db.ledger|..]
  }

  /** A debit other than a clawback is covered by the balance it is taken from. */
  predicate Funded(db: Db, e: Entry) {
    e.amount < 0 && e.kind != RefundClawback ==> -e.amount <= Balance(db.ledger, e.account)
  }

  predicate OppositeTrades(x: Entry, y: Entry) {
    x.kind == Trade && y.kind == Trade && x.account != y.account && x.amount == -y.amount
  }

  /** What a step may append: nothing, one row that is no trade, or a pair of opposite trades; debits are funded. */
  predicate GoodAppend(db: Db, added: seq<Entry>, refund: bool) {
    && (forall e :: e in added ==> RowOk(e) && Funded(db, e))
    && |added| <= 2
    && (|added| == 1 ==> added[0].kind != Trade)
    && (|added| == 2 ==> OppositeTrades(added[0], added[1]))
    && (!refund ==> forall e :: e in added ==> e.kind != RefundClawback)
  }

  lemma SaleAppends(db: Db, id: nat, buyer: Uuid, user: Uuid, intent: string, now: int)
    requires Inv(db)
    ensures var after := CompletePurchase(db, id, buyer, user, intent, now).db;
            after == db || exists x, y :: after.ledger == db.ledger + [x, y] && GoodAppend(db, [x, y], false)
  {
    var after := CompletePurchase(db, id, buyer, user, intent, now).db;
    if after != db {
      var l := db.listings[id];
      var buys, sells := BuyerRow(l, buyer, user, intent), SellerRow(l, buyer, user, intent);
      assert after.ledger == db.ledger + [buys, sells] && GoodAppend(db, [buys, sells], false);
    }
  }

  lemma EventAppends(db: Db, grants: Grants, e: Envelope)
    requires Inv(db)
    ensures var after := Consume(db, grants, e).db;
            after.ledger == db.ledger
            || exists x :: after.ledger == db.ledger + [x] && GoodAppend(db, [x], e.kind == RefundIssued)
  {
    var row := EntryFor(db, grants, e);
    if e.id !in db.processed && row.Ok? && row.value.Some? {
      if e.kind == RefundIssued {
        assert RowOk(db.ledger[FirstWhere(db.ledger, InvoiceGrant(e.account.value, e.invoice.value)).value]);
      }
      assert GoodAppend(db, [row.value.value], e.kind == RefundIssued);
    }
  }

  lemma StepAppends(db: Db, grants: Grants, cmd: Cmd, now: int)
    requires Inv(db)
    ensures db.ledger <= Apply(db, grants, cmd, now).ledger
    ensures GoodAppend(db, Appended(db, grants, cmd, now), IsRefund(cmd))
  {
    var after := Apply(db, grants, cmd, now);
    match cmd
    case DoConsumeCredits(account, user, amount, reference) =>
      var row := Entry(account, Usage, -(amount as int), UsageRef, OfUuid(reference), None, Some(user));
      assert after == db || (after.ledger == db.ledger + [row] && after.ledger[|db.ledger|..] == [row]);
    case DoComplete(id, buyer, user, intent) =>
      SaleAppends(db, id, buyer, user, intent, now);
      if after != db {
        var x, y :| after.ledger == db.ledger + [x, y] && GoodAppend(db, [x, y], false);
        assert after.ledger[|db.ledger|..] == [x, y];
      }
    case DoEvent(e) =>
      EventAppends(db, grants, e);
      if after.ledger != db.ledger {
        var x :| after.ledger == db.ledger + [x] && GoodAppend(db, [x], e.kind == RefundIssued);
        assert after.ledger[|db.ledger|..] == [x];
      }
    case _ =>
  }

  lemma SumOfFew(added: seq<Entry>, w: Where)
    requires |added| <= 2
    ensures SumWhere(added, w) == (if |added| > 0 && Selects(w, added[0]) then added[0].amount else 0)
                                + (if |added| > 1 && Selects(w, added[1]) then added[1].amount else 0)
  {
    if |added| == 1 {
      assert added[..0] == [];
    } else if |added| == 2 {
      assert added == [added[0], added[1]];
      PairRows(added[0], added[1], w);
    }
  }

  lemma SumStep(db: Db, grants: Grants, cmd: Cmd, now: int, w: Where)
    requires Inv(db)
    ensures |db.ledger| <= |Apply(db, grants, cmd, now).ledger|
    ensures var added := Appended(db, grants, cmd, now);
            SumWhere(Apply(db, grants, cmd, now).ledger, w)
            == SumWhere(db.ledger, w) + (if |added| > 0 && Selects(w, added[0]) then added[0].amount else 0)
                                      + (if |added| > 1 && Selects(w, added[1]) then added[1].amount else 0)
  {
    hide Apply, Inv, SumWhere;
    StepAppends(db, grants, cmd, now);
    var added := Appended(db, grants, cmd, now);
    assert Apply(db, grants, cmd, now).ledger == db.ledger + added;
    SumAppend(db.ledger, added, w);
    SumOfFew(added, w);
  }

  // ---------- conservation ----------

  lemma {:induction false} TradesNetToZero(db: Db, grants: Grants, run: seq<Timed>)
    requires Inv(db)
    ensures SumWhere(Run(db, grants, run).ledger, OfKind(Trade)) == SumWhere(db.ledger, OfKind(Trade))
  {
    if run != [] {
      var n := |run| - 1;
      var before := Run(db, grants, run[..n]);
      TradesNetToZero(db, grants, run[..n]);
      RunKeepsTrades(db, grants, run[..n]);
      StepAppends(before, grants, run[n].cmd, run[n].now);
      SumStep(before, grants, run[n].cmd, run[n].now, OfKind(Trade));
    }
  }

  lemma {:induction false} NoAdjustments(rows: seq<Entry>)
    requires forall e :: e in rows ==> RowOk(e)
    ensures SumWhere(rows, OfKind(Adjustment)) == 0
  {
    if rows != [] {
      var n := |rows| - 1;
      assert RowOk(rows[n]);
      NoAdjustments(rows[..n]);
    }
  }

  /** In every reachable state the balances add up to grants, minus usage, minus clawbacks. */
  lemma CreditsAreConserved(grants: Grants, run: seq<Timed>, accounts: set<Uuid>)
    requires forall e :: e in Run(EMPTY_DB, grants, run).ledger ==> e.account in accounts
    ensures var ledger := Run(EMPTY_DB, grants, run).ledger;
            SumOfBalances(accounts, ledger)
            == SumWhere(ledger, OfKind(Grant)) + SumWhere(ledger, OfKind(Usage))
              + SumWhere(ledger, OfKind(RefundClawback))
  {
    var ledger := Run(EMPTY_DB, grants, run).ledger;
    RunKeepsTrades(EMPTY_DB, grants, run);
    TradesNetToZero(EMPTY_DB, grants, run);
    NoAdjustments(ledger);
    KindsAddUp(ledger);
    BalancesAddUp(accounts, ledger);
  }

  // ---------- the floor under a balance ----------

  function ClawedBack(rows: seq<Entry>, a: Uuid): int {
    -SumWhere(rows, Where(Some(a), Some(RefundClawback), None, None))
  }

  lemma {:induction false} ClawedBackNonNegative(rows: seq<Entry>, a: Uuid)
    requires forall e :: e in rows ==> RowOk(e)
    ensures ClawedBack(rows, a) >= 0
  {
    if rows != [] {
      var n := |rows| - 1;
      assert RowOk(rows[n]);
      ClawedBackNonNegative(rows[..n], a);
    }
  }

  lemma StepKeepsFloor(db: Db, grants: Grants, cmd: Cmd, now: int, a: Uuid)
    requires Inv(db) && Balance(db.ledger, a) >= -ClawedBack(db.ledger, a)
    ensures Balance(Apply(db, grants, cmd, now).ledger, a) >= -ClawedBack(Apply(db, grants, cmd, now).ledger, a)
  {
    StepAppends(db, grants, cmd, now);
    var added := Appended(db, grants, cmd, now);
    SumStep(db, grants, cmd, now, OfAccount(a));
    SumStep(db, grants, cmd, now, Where(Some(a), Some(RefundClawback), None, None));
    ClawedBackNonNegative(db.ledger, a);
    assert |added| > 0 ==> added[0] in added;
    assert |added| > 1 ==> added[1] in added;
  }

  /** In every reachable state a balance is at least minus what was clawed back from the account. */
  lemma {:induction false} BalanceFloor(grants: Grants, run: seq<Timed>, a: Uuid)
    ensures Balance(Run(EMPTY_DB, grants, run).ledger, a) >= -ClawedBack(Run(EMPTY_DB, grants, run).ledger, a)
  {
    if run != [] {
      var n := |run| - 1;
      BalanceFloor(grants, run[..n], a);
      RunKeepsTrades(EMPTY_DB, grants, run[..n]);
      StepKeepsFloor(Run(EMPTY_DB, grants, run[..n]), grants, run[n].cmd, run[n].now, a);
    }
  }

  lemma {:induction false} NoRefundsNoClawbacks(grants: Grants, run: seq<Timed>, a: Uuid)
    requires forall t :: t in run ==> !IsRefund(t.cmd)
    ensures ClawedBack(Run(EMPTY_DB, grants, run).ledger, a) == 0
  {
    if run != [] {
      var n := |run| - 1;
      var before := Run(EMPTY_DB, grants, run[..n]);
      NoRefundsNoClawbacks(grants, run[..n], a);
      RunKeepsTrades(EMPTY_DB, grants, run[..n]);
      StepAppends(before, grants, run[n].cmd, run[n].now);
      SumStep(before, grants, run[n].cmd, run[n].now, Where(Some(a), Some(RefundClawback), None, None));
    }
  }

  /** Without refunds no balance is ever negative. */
  lemma BalancesNonNegativeWithoutRefunds(grants: Grants, run: seq<Timed>, a: Uuid)
    requires forall t :: t in run ==> !IsRefund(t.cmd)
    ensures Balance(Run(EMPTY_DB, grants, run).ledger, a) >= 0
  {
    BalanceFloor(grants, run, a);
    NoRefundsNoClawbacks(grants, run, a);
  }

  // ---------- usage is charged once ----------

  function UsageRows(ledger: seq<Entry>, reference: Uuid): seq<Entry> {
    Rows(ledger, Where(None, Some(Usage), None, Some(OfUuid(reference))))
  }

  predicate Charged(db: Db, reference: Uuid) { reference in db.processed && db.processed[reference] == CreditsConsumed }

  /** One usage row for each charged reference, none for any other. */
  predicate ChargedOnce(db: Db, reference: Uuid) {
    |UsageRows(db.ledger, reference)| == if Charged(db, reference) then 1 else 0
  }

  lemma OtherRowKeepsCharge(ledger: seq<Entry>, e: Entry, reference: Uuid)
    requires e.kind != Usage || e.ref != OfUuid(reference)
    ensures UsageRows(ledger + [e], reference) == UsageRows(ledger, reference)
  {
    assert (ledger + [e])[..|ledger|] == ledger;
  }

  lemma ChargeOfUsage(db: Db, account: Uuid, user: Uuid, amount: pos, charged: Uuid, reference: Uuid)
    requires ChargedOnce(db, reference)
    ensures ChargedOnce(ConsumeCredits(db, account, user, amount, charged).db, reference)
  {
    var row := Entry(account, Usage, -(amount as int), UsageRef, OfUuid(charged), None, Some(user));
    assert (db.ledger + [row])[..|db.ledger|] == db.ledger;
  }

  lemma ChargeOfSale(db: Db, id: nat, buyer: Uuid, user: Uuid, intent: string, now: int, reference: Uuid)
    requires ChargedOnce(db, reference)
    ensures ChargedOnce(CompletePurchase(db, id, buyer, user, intent, now).db, reference)
  {
    var after := CompletePurchase(db, id, buyer, user, intent, now).db;
    if after != db {
      var buys, sells := BuyerRow(db.listings[id], buyer, user, intent),
          SellerRow(db.listings[id], buyer, user, intent);
      assert after.ledger == db.ledger + [buys, sells] == db.ledger + [buys] + [sells];
      OtherRowKeepsCharge(db.ledger, buys, reference);
      OtherRowKeepsCharge(db.ledger + [buys], sells, reference);
    }
  }

  lemma ChargeOfEvent(db: Db, grants: Grants, e: Envelope, reference: Uuid)
    requires ChargedOnce(db, reference)
    ensures ChargedOnce(Consume(db, grants, e).db, reference)
  {
    var row := EntryFor(db, grants, e);
    if row.Ok? && row.value.Some? {
      OtherRowKeepsCharge(db.ledger, row.value.value, reference);
    } else {
      assert db.ledger + [] == db.ledger;
    }
  }

  lemma StepChargesOnce(db: Db, grants: Grants, cmd: Cmd, now: int, reference: Uuid)
    requires ChargedOnce(db, reference)
    ensures ChargedOnce(Apply(db, grants, cmd, now), reference)
  {
    match cmd
    case DoConsumeCredits(account, user, amount, charged) =>
      ChargeOfUsage(db, account, user, amount, charged, reference);
    case DoComplete(id, buyer, user, intent) => ChargeOfSale(db, id, buyer, user, intent, now, reference);
    case DoEvent(e) => ChargeOfEvent(db, grants, e, reference);
    case _ =>
  }

  /**
   However often a charge is retried, in whatever run, a reference is debited once if it was accepted and never
   otherwise.
   */
  lemma {:induction false} UsageChargedOnce(grants: Grants, run: seq<Timed>, reference: Uuid)
    ensures ChargedOnce(Run(EMPTY_DB, grants, run), reference)
  {
    if run != [] {
      var n := |run| - 1;
      UsageChargedOnce(grants, run[..n], reference);
      StepChargesOnce(Run(EMPTY_DB, grants, run[..n]), grants, run[n].cmd, run[n].now, reference);
    }
  }
}
