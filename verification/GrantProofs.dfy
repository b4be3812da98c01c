/** Billing events may reach credits-service in any order and any number of times. */
module GrantProofs {
  import opened Prelude
  import opened Ledger
  import opened Credits

  function DeliverAll(db: Db, grants: Grants, events: seq<Envelope>): Db {
    if events == [] then db
    else Consume(DeliverAll(db, grants, events[..|events| - 1]), grants, events[|events| - 1]).db
  }

  predicate IsGrantEvent(e: Envelope) { e.kind == InvoicePaid || e.kind == CreditsPurchased }

  predicate AllGrantEvents(events: seq<Envelope>) { forall e :: e in events ==> IsGrantEvent(e) }

  /** An event id fixes the event. */
  predicate IdsFixPayload(events: seq<Envelope>) {
    forall x, y :: x in events && y in events && x.id == y.id ==> x == y
  }

  function Ids(events: seq<Envelope>): set<Uuid> { set e | e in events :: e.id }

  /** The credits that the settings give for the plan of an event, if any. */
  function PlanCredits(grants: Grants, plan: string): nat {
    if plan in grants && grants[plan] > 0 then grants[plan] else 0
  }

  /** What one grant event is worth to account a; an event that is refused is worth nothing. */
  function Worth(grants: Grants, e: Envelope, a: Uuid): nat {
    if e.account != Some(a) then 0
    else if e.kind == InvoicePaid then if e.invoice.Some? then PlanCredits(grants, e.plan) else 0
    else if e.kind == CreditsPurchased && e.credits.Number? && e.credits.value > 0 then e.credits.value
    else 0
  }

  ghost predicate HasGrant(ledger: seq<Entry>, account: Uuid, invoice: string) {
    exists row :: row in ledger && row.account == account && row.kind == Grant && row.refType == InvoiceRef
                  && row.ref == OfText(invoice)
  }

  /** The fields that an event needs are there and readable. */
  ghost predicate Processable(ledger: seq<Entry>, grants: Grants, e: Envelope) {
    && e.account.Some?
    && match e.kind
       case InvoicePaid => PlanCredits(grants, e.plan) > 0 ==> e.invoice.Some?
       case CreditsPurchased => e.credits != Unreadable
       case RefundIssued =>
         e.invoice.Some? && (HasGrant(ledger, e.account.value, e.invoice.value) ==> e.refund.Some?)
       case _ => false
  }

  lemma HasGrantIffFound(ledger: seq<Entry>, account: Uuid, invoice: string)
    ensures HasGrant(ledger, account, invoice) <==> FirstWhere(ledger, InvoiceGrant(account, invoice)).Some?
  {
    if HasGrant(ledger, account, invoice) {
      var row :| row in ledger && row.account == account && row.kind == Grant && row.refType == InvoiceRef
          && row.ref == OfText(invoice);
      var k :| 0 <= k < |ledger| && ledger[k] == row;
      assert Selects(InvoiceGrant(account, invoice), ledger[k]);
    }
  }

  /** What one refund of the invoice takes back: the amount of its first grant, or nothing without a grant. */
  function Refundable(ledger: seq<Entry>, account: Uuid, invoice: string): int {
    var grant := FirstWhere(ledger, InvoiceGrant(account, invoice));
    if grant.None? then 0 else ledger[grant.value].amount
  }

  /** What the row of an event says about where it comes from. */
  predicate RefersTo(row: Entry, e: Envelope) {
    && Some(row.account) == e.account
    && match e.kind
       case InvoicePaid => row.kind == Grant && row.refType == InvoiceRef && row.ref.OfText?
         && e.invoice == Some(row.ref.text)
       case CreditsPurchased =>
         && row.kind == Grant && row.refType == PackRef
         && row.ref == (if e.intent.Some? && e.intent.value != "" then OfText(e.intent.value) else OfUuid(row.account))
       case RefundIssued => row.kind == RefundClawback && row.refType == RefundRef && row.ref.OfText?
         && e.refund == Some(row.ref.text)
       case _ => false
  }

  /** What an event moves on account a: the worth of a grant, less the first grant of a refunded invoice. */
  function Moved(ledger: seq<Entry>, grants: Grants, e: Envelope, a: Uuid): int {
    Worth(grants, e, a)
    - if e.kind == RefundIssued && e.account == Some(a) && e.invoice.Some? then Refundable(ledger, a, e.invoice.value)
      else 0
  }

  predicate RowMoves(row: Option<Entry>, a: Uuid, amount: int) {
    amount == if row.Some? && row.value.account == a then row.value.amount else 0
  }

  lemma EntryExactly(db: Db, grants: Grants, e: Envelope, a: Uuid)
    ensures var row := EntryFor(db, grants, e);
            && (row.Ok? <==> Processable(db.ledger, grants, e))
            && (row == Err(UnsupportedEvent) <==>
                  e.account.Some? && !e.kind.InvoicePaid? && !e.kind.CreditsPurchased? && !e.kind.RefundIssued?)
            && (row.Ok? && row.value.Some? ==> RefersTo(row.value.value, e))
            && (row.Ok? ==> RowMoves(row.value, a, Moved(db.ledger, grants, e, a)))
  {
    if e.account.Some? && e.invoice.Some? { HasGrantIffFound(db.ledger, e.account.value, e.invoice.value); }
    hide FirstWhere, HasGrant;
  }

  /**
   One delivery of an unseen event succeeds exactly when its fields are in order.  Then its id is recorded with its type
   and at most one row is added, which names the event's account and object; a grant event adds its worth, and a refund
   takes back the first grant of its invoice.  A refused event changes nothing.
   */
  lemma DeliveryExactly(db: Db, grants: Grants, e: Envelope, a: Uuid)
    requires e.id !in db.processed
    ensures var o := Consume(db, grants, e);
            && (o.result.Ok? <==> Processable(db.ledger, grants, e))
            && (o.result == Err(UnsupportedEvent) <==>
                  e.account.Some? && !e.kind.InvoicePaid? && !e.kind.CreditsPurchased? && !e.kind.RefundIssued?)
            && (o.result.Err? ==> o.db == db)
            && (o.result.Ok? ==>
                  && o.db.processed == db.processed[e.id := e.kind] && o.db.listings == db.listings
                  && (o.db.ledger == db.ledger
                      || (|o.db.ledger| == |db.ledger| + 1 && o.db.ledger[..|db.ledger|] == db.ledger
                          && RefersTo(o.db.ledger[|db.ledger|], e)))
                  && Balance(o.db.ledger, a) == Balance(db.ledger, a) + Moved(db.ledger, grants, e, a))
  {
    EntryExactly(db, grants, e, a);
    var row := EntryFor(db, grants, e);
    hide EntryFor, Processable, RefersTo, Moved;
    if row.Ok? && row.value.Some? {
      SumPush(db.ledger, row.value.value, OfAccount(a));
      assert (db.ledger + [row.value.value])[..|db.ledger|] == db.ledger;
    } else {
      assert db.ledger + [] == db.ledger;
    }
  }

  ghost function AnyOf(events: set<Envelope>): (e: Envelope)
    requires events != {}
    ensures e in events
  {
    var e :| e in events;
    e
  }

  ghost function TotalWorth(grants: Grants, events: set<Envelope>, a: Uuid): int {
    if events == {} then 0
    else
      var e := AnyOf(events);
      Worth(grants, e, a) + TotalWorth(grants, events - {e}, a)
  }

  lemma {:induction false} TotalWorthAdd(grants: Grants, events: set<Envelope>, e: Envelope, a: Uuid)
    requires e !in events
    ensures TotalWorth(grants, events + {e}, a) == TotalWorth(grants, events, a) + Worth(grants, e, a)
    decreases events
  {
    var x := AnyOf(events + {e});
    if x == e {
      assert events + {e} - {e} == events;
    } else {
      assert events + {e} - {x} == (events - {x}) + {e} && (events - {x}) + {x} == events;
      TotalWorthAdd(grants, events - {x}, e, a);
      TotalWorthAdd(grants, events - {x}, x, a);
    }
  }

  ghost function Unseen(db: Db, events: seq<Envelope>): set<Envelope> {
    set e | e in events && e.id !in db.processed
  }

  /** After any deliveries the processed ids are the old ones and those of events that could be read. */
  lemma {:induction false} DeliveredIds(db: Db, grants: Grants, events: seq<Envelope>, id: Uuid)
    requires AllGrantEvents(events)
    ensures id in DeliverAll(db, grants, events).processed
       <==> id in db.processed || exists e :: e in events && e.id == id && Processable([], grants, e)
  {
    if events != [] {
      var n := |events| - 1;
      DeliveredIds(db, grants, events[..n], id);
      assert events == events[..n] + [events[n]];
    }
  }

  /** One delivery of a grant event adds its worth, once. */
  lemma DeliveryAddsWorth(db: Db, grants: Grants, e: Envelope, a: Uuid)
    requires IsGrantEvent(e)
    ensures Balance(Consume(db, grants, e).db.ledger, a) ==
            Balance(db.ledger, a) + if e.id in db.processed then 0 else Worth(grants, e, a)
  {
    if e.id !in db.processed {
      DeliveryExactly(db, grants, e, a);
    }
  }

  /** Deliveries add to a balance what the distinct unseen events are worth. */
  lemma {:induction false} DeliveriesAddWorth(db: Db, grants: Grants, events: seq<Envelope>, a: Uuid)
    requires AllGrantEvents(events) && IdsFixPayload(events)
    ensures Balance(DeliverAll(db, grants, events).ledger, a)
         == Balance(db.ledger, a) + TotalWorth(grants, Unseen(db, events), a)
  {
    if events != [] {
      var n := |events| - 1;
      var e, before := events[n], DeliverAll(db, grants, events[..n]);
      assert events == events[..n] + [e];
      DeliveriesAddWorth(db, grants, events[..n], a);
      DeliveredIds(db, grants, events[..n], e.id);
      DeliveryAddsWorth(before, grants, e, a);
      if e in events[..n] || e.id in db.processed {
        assert Unseen(db, events) == Unseen(db, events[..n]);
      } else {
        assert Unseen(db, events) == Unseen(db, events[..n]) + {e};
        TotalWorthAdd(grants, Unseen(db, events[..n]), e, a);
      }
    } else {
      assert Unseen(db, events) == {};
    }
  }

  lemma SameIdsSameEvents(xs: seq<Envelope>, ys: seq<Envelope>, e: Envelope)
    requires Ids(xs) == Ids(ys) && e in xs
    requires forall x, y :: x in xs && y in ys && x.id == y.id ==> x == y
    ensures e in ys
  {
    assert e.id in Ids(xs) && e.id in Ids(ys);
  }

  /** Any two delivery sequences with the same event ids give every account the same balance. */
  lemma OrderAndRepetitionDoNotMatter(db: Db, grants: Grants, xs: seq<Envelope>, ys: seq<Envelope>, a: Uuid)
    requires AllGrantEvents(xs) && AllGrantEvents(ys) && IdsFixPayload(xs + ys)
    requires Ids(xs) == Ids(ys)
    ensures Balance(DeliverAll(db, grants, xs).ledger, a) == Balance(DeliverAll(db, grants, ys).ledger, a)
  {
    assert forall e :: e in xs || e in ys ==> e in xs + ys;
    forall e ensures e in xs <==> e in ys {
      if e in xs { SameIdsSameEvents(xs, ys, e); }
      if e in ys { SameIdsSameEvents(ys, xs, e); }
    }
    assert Unseen(db, xs) == Unseen(db, ys);
    DeliveriesAddWorth(db, grants, xs, a);
    DeliveriesAddWorth(db, grants, ys, a);
  }

  // ---------- refunds ----------

  predicate IsRefundOf(e: Envelope, account: Uuid, invoice: string) {
    e.kind == RefundIssued && e.account == Some(account) && e.invoice == Some(invoice) && e.refund.Some?
  }

  /** Refund events of one invoice, and any that have been processed already. */
  predicate RefundsOrSeen(db: Db, events: seq<Envelope>, account: Uuid, invoice: string) {
    forall e :: e in events ==> IsRefundOf(e, account, invoice) || e.id in db.processed
  }

  lemma OneRefund(db: Db, grants: Grants, e: Envelope, account: Uuid, invoice: string)
    requires IsRefundOf(e, account, invoice) || e.id in db.processed
    ensures var after := Consume(db, grants, e).db;
            && Balance(after.ledger, account) ==
               Balance(db.ledger, account) - (if e.id in db.processed then 0
                 else Refundable(db.ledger, account, invoice))
            && Refundable(after.ledger, account, invoice) == Refundable(db.ledger, account, invoice)
            && after.processed.Keys == db.processed.Keys + {e.id}
  {
    if e.id !in db.processed {
      var grant := FirstWhere(db.ledger, InvoiceGrant(account, invoice));
      if grant.Some? {
        var back := Entry(account, RefundClawback, -db.ledger[grant.value].amount, RefundRef, OfText(e.refund.value),
            None, None);
        SumPush(db.ledger, back, OfAccount(account));
        FirstWhereStable(db.ledger, db.ledger + [back], InvoiceGrant(account, invoice));
      } else {
        assert db.ledger + [] == db.ledger;
      }
    }
  }

  /** The amount taken back by n refunds. */
  function TakenBack(n: nat, amount: int): int { if n == 0 then 0 else TakenBack(n - 1, amount) + amount }

  lemma {:induction false} TakenBackIsProduct(n: nat, amount: int)
    ensures TakenBack(n, amount) == n * amount
  {
    if n > 0 {
      TakenBackIsProduct(n - 1, amount);
    }
  }

  lemma IdsPush(events: seq<Envelope>, e: Envelope)
    ensures Ids(events + [e]) == Ids(events) + {e.id}
  {
    forall id ensures id in Ids(events + [e]) <==> id in Ids(events) || id == e.id {
      assert e in events + [e];
    }
  }

  /** How many of the ids the tables have not seen before. */
  function UnseenCount(db: Db, ids: set<Uuid>): nat { |ids - db.processed.Keys| }

  lemma UnseenPush(db: Db, ids: set<Uuid>, id: Uuid)
    ensures UnseenCount(db, ids + {id}) == UnseenCount(db, ids) + if id in db.processed || id in ids then 0 else 1
  {
    var seen := db.processed.Keys;
    if id in seen || id in ids {
      assert (ids + {id}) - seen == ids - seen;
    } else {
      assert (ids + {id}) - seen == (ids - seen) + {id};
    }
  }

  lemma TakenBackPush(n: nat, amount: int)
    ensures TakenBack(n + 1, amount) == TakenBack(n, amount) + amount
  {}

  lemma LastOfRefunds(db: Db, events: seq<Envelope>, account: Uuid, invoice: string)
    requires events != [] && RefundsOrSeen(db, events, account, invoice)
    ensures var before, e := events[..|events| - 1], events[|events| - 1];
            RefundsOrSeen(db, before, account, invoice) && (IsRefundOf(e, account, invoice) || e.id in db.processed)
  {
    assert events == events[..|events| - 1] + [events[|events| - 1]];
  }

  lemma {:induction false} RefundsAreProcessed(
    db: Db, grants: Grants, events: seq<Envelope>, account: Uuid, invoice: string)
    requires RefundsOrSeen(db, events, account, invoice)
    ensures var after := DeliverAll(db, grants, events);
            && Refundable(after.ledger, account, invoice) == Refundable(db.ledger, account, invoice)
            && after.processed.Keys == db.processed.Keys + Ids(events)
    decreases |events|
  {
    if events == [] {
      assert Ids(events) == {};
    } else {
      var before, e := events[..|events| - 1], events[|events| - 1];
      assert events == before + [e];
      RefundsAreProcessed(db, grants, before, account, invoice);
      IdsPush(before, e);
      OneRefund(DeliverAll(db, grants, before), grants, e, account, invoice);
    }
  }

  lemma SeenAfter(db: Db, grants: Grants, events: seq<Envelope>, account: Uuid, invoice: string, id: Uuid)
    requires RefundsOrSeen(db, events, account, invoice)
    ensures var after := DeliverAll(db, grants, events);
            && (id in after.processed <==> id in db.processed || id in Ids(events))
            && Refundable(after.ledger, account, invoice) == Refundable(db.ledger, account, invoice)
  {
    RefundsAreProcessed(db, grants, events, account, invoice);
  }

  lemma OneRefundMoves(db: Db, grants: Grants, e: Envelope, account: Uuid, invoice: string)
    requires IsRefundOf(e, account, invoice) || e.id in db.processed
    ensures Balance(Consume(db, grants, e).db.ledger, account) ==
            Balance(db.ledger, account) - if e.id in db.processed then 0 else Refundable(db.ledger, account, invoice)
  {
    OneRefund(db, grants, e, account, invoice);
  }

  lemma NothingTakenBack(db: Db, events: seq<Envelope>, amount: int)
    requires events == []
    ensures TakenBack(UnseenCount(db, Ids(events)), amount) == 0
  {
    assert Ids(events) == {};
    assert {} - db.processed.Keys == {};
  }

  lemma OneMoreTakenBack(db: Db, before: seq<Envelope>, e: Envelope, amount: int)
    ensures TakenBack(UnseenCount(db, Ids(before + [e])), amount) ==
            TakenBack(UnseenCount(db, Ids(before)), amount)
            + if e.id in db.processed || e.id in Ids(before) then 0 else amount
  {
    hide *;
    IdsPush(before, e);
    UnseenPush(db, Ids(before), e.id);
    TakenBackPush(UnseenCount(db, Ids(before)), amount);
  }

  /** Refund deliveries take back the first grant of the invoice once for each distinct unseen refund event. */
  lemma {:induction false} RefundsTakeBack(
    db: Db, grants: Grants, events: seq<Envelope>, account: Uuid, invoice: string)
    requires RefundsOrSeen(db, events, account, invoice)
    ensures Balance(DeliverAll(db, grants, events).ledger, account) ==
            Balance(db.ledger, account) - TakenBack(UnseenCount(db, Ids(events)),
              Refundable(db.ledger, account, invoice))
    decreases |events|
  {
    if events == [] {
      NothingTakenBack(db, events, Refundable(db.ledger, account, invoice));
    } else {
      hide *;
      var before, e := events[..|events| - 1], events[|events| - 1];
      assert events == before + [e];
      LastOfRefunds(db, events, account, invoice);
      RefundsTakeBack(db, grants, before, account, invoice);
      SeenAfter(db, grants, before, account, invoice, e.id);
      OneRefundMoves(DeliverAll(db, grants, before), grants, e, account, invoice);
      DeliverPush(db, grants, before, e);
      OneMoreTakenBack(db, before, e, Refundable(db.ledger, account, invoice));
    }
  }

  lemma DeliverPush(db: Db, grants: Grants, events: seq<Envelope>, e: Envelope)
    ensures DeliverAll(db, grants, events + [e]) == Consume(DeliverAll(db, grants, events), grants, e).db
  {
    assert (events + [e])[..|events|] == events;
  }

  lemma {:induction false} DeliverAppend(db: Db, grants: Grants, xs: seq<Envelope>, ys: seq<Envelope>)
    ensures DeliverAll(db, grants, xs + ys) == DeliverAll(DeliverAll(db, grants, xs), grants, ys)
  {
    if ys == [] {
      assert xs + ys == xs;
    } else {
      assert (xs + ys)[..|xs + ys| - 1] == xs + ys[..|ys| - 1];
      DeliverAppend(db, grants, xs, ys[..|ys| - 1]);
    }
  }

  predicate IsPaymentOf(grants: Grants, e: Envelope, account: Uuid, invoice: string) {
    && e.kind == InvoicePaid && e.account == Some(account) && e.invoice == Some(invoice)
    && e.plan in grants && grants[e.plan] > 0
  }

  lemma OnePayment(db: Db, grants: Grants, paid: Envelope, account: Uuid, invoice: string)
    requires IsPaymentOf(grants, paid, account, invoice) && paid.id !in db.processed
    requires Refundable(db.ledger, account, invoice) == 0 && FirstWhere(db.ledger, InvoiceGrant(account, invoice)).None?
    ensures var after := Consume(db, grants, paid).db;
            && Balance(after.ledger, account) == Balance(db.ledger, account) + grants[paid.plan]
            && Refundable(after.ledger, account, invoice) == grants[paid.plan]
            && after.processed.Keys == db.processed.Keys + {paid.id}
  {
    var row := Entry(account, Grant, grants[paid.plan], InvoiceRef, OfText(invoice), None, None);
    assert Consume(db, grants, paid).db.ledger == db.ledger + [row];
    SumPush(db.ledger, row, OfAccount(account));
    assert Selects(InvoiceGrant(account, invoice), (db.ledger + [row])[|db.ledger|]);
    assert FirstWhere(db.ledger + [row], InvoiceGrant(account, invoice)) == Some(|db.ledger|);
  }

  lemma {:induction false} RefundsWithoutGrant(db: Db, grants: Grants, events: seq<Envelope>, account: Uuid,
      invoice: string)
    requires RefundsOrSeen(db, events, account, invoice) && FirstWhere(db.ledger, InvoiceGrant(account, invoice)).None?
    ensures DeliverAll(db, grants, events).ledger == db.ledger
    decreases |events|
  {
    if events != [] {
      var before := DeliverAll(db, grants, events[..|events| - 1]);
      RefundsWithoutGrant(db, grants, events[..|events| - 1], account, invoice);
      RefundsAreProcessed(db, grants, events[..|events| - 1], account, invoice);
      assert before.ledger + [] == before.ledger;
    }
  }

  /** The refund ids that were first delivered after the payment. */
  function LateRefunds(db: Db, before: seq<Envelope>, paid: Envelope, after: seq<Envelope>): set<Uuid> {
    Ids(after) - (db.processed.Keys + Ids(before) + {paid.id})
  }

  /**
   A payment and any refund events of its invoice, in any order and with any repetition: each refund first delivered
   after the payment takes the whole grant back and the others nothing, so the payment is cancelled exactly if and
   only if one refund event, and only one, is first delivered after it.
   */
  lemma RefundsCancelExactly(
    db: Db, grants: Grants, before: seq<Envelope>, paid: Envelope, after: seq<Envelope>, account: Uuid, invoice: string)
    requires IsPaymentOf(grants, paid, account, invoice) && paid.id !in db.processed
    requires FirstWhere(db.ledger, InvoiceGrant(account, invoice)).None?
    requires forall e :: e in before ==> IsRefundOf(e, account, invoice) && e.id != paid.id
    requires forall e :: e in after ==> e == paid || (IsRefundOf(e, account, invoice) && e.id != paid.id)
    ensures var balance := Balance(DeliverAll(db, grants, before + [paid] + after).ledger, account);
            var late := |LateRefunds(db, before, paid, after)|;
            && balance == Balance(db.ledger, account) + grants[paid.plan] - late * grants[paid.plan]
            && (balance == Balance(db.ledger, account) <==> late == 1)
  {
    var early := DeliverAll(db, grants, before);
    var granted := Consume(early, grants, paid).db;
    var late, amount := LateRefunds(db, before, paid, after), grants[paid.plan];
    RefundsWithoutGrant(db, grants, before, account, invoice);
    RefundsAreProcessed(db, grants, before, account, invoice);
    OnePayment(early, grants, paid, account, invoice);
    DeliverPush(db, grants, before, paid);
    DeliverAppend(db, grants, before + [paid], after);
    RefundsTakeBack(granted, grants, after, account, invoice);
    assert granted.processed.Keys == db.processed.Keys + Ids(before) + {paid.id};
    TakenBackIsProduct(|late|, amount);
    CancelledOnlyByOne(|late|, amount);
  }

  lemma CancelledOnlyByOne(n: nat, amount: int)
    requires amount > 0
    ensures amount - n * amount == 0 <==> n == 1
  {
    if n == 0 {
      assert n * amount == 0;
    } else if n >= 2 {
      assert n * amount >= 2 * amount;
    }
  }

  // ---------- two such runs ----------

  const PRO_GRANT: Grants := map["pro" := 10]
  const PAID := Envelope(0, InvoicePaid, Some(1), "pro", Some("in"), Absent, None, None)
  const GRANT_ROW := Entry(1, Grant, 10, InvoiceRef, OfText("in"), None, None)
  const BACK_ROW := Entry(1, RefundClawback, -10, RefundRef, OfText("re"), None, None)

  function Refunded(id: Uuid): Envelope {
    Envelope(id, RefundIssued, Some(1), "pro", Some("in"), Absent, None, Some("re"))
  }

  lemma PaymentGrants(db: Db)
    requires 0 !in db.processed
    ensures Consume(db, PRO_GRANT, PAID).db.ledger == db.ledger + [GRANT_ROW]
    ensures Balance(db.ledger + [GRANT_ROW], 1) == Balance(db.ledger, 1) + 10
  {
    assert EntryFor(db, PRO_GRANT, PAID) == Ok(Some(GRANT_ROW));
    SumPush(db.ledger, GRANT_ROW, OfAccount(1));
  }

  lemma RefundTakesBack(db: Db, id: Uuid)
    requires id !in db.processed && [GRANT_ROW] <= db.ledger
    ensures Consume(db, PRO_GRANT, Refunded(id)).db.ledger == db.ledger + [BACK_ROW]
    ensures Balance(db.ledger + [BACK_ROW], 1) == Balance(db.ledger, 1) - 10
  {
    assert Selects(InvoiceGrant(1, "in"), db.ledger[0]);
    assert FirstWhere(db.ledger, InvoiceGrant(1, "in")) == Some(0);
    assert EntryFor(db, PRO_GRANT, Refunded(id)) == Ok(Some(BACK_ROW));
    SumPush(db.ledger, BACK_ROW, OfAccount(1));
  }

  /** A refund delivered before its grant claws back nothing; delivered after it, all of it. */
  lemma RefundOrderMatters()
    ensures Balance(DeliverAll(EMPTY_DB, PRO_GRANT, [PAID, Refunded(1)]).ledger, 1) == 0
    ensures Balance(DeliverAll(EMPTY_DB, PRO_GRANT, [Refunded(1), PAID]).ledger, 1) == 10
  {
    assert [] + [PAID] == [PAID] && [PAID] + [Refunded(1)] == [PAID, Refunded(1)];
    DeliverPush(EMPTY_DB, PRO_GRANT, [], PAID);
    DeliverPush(EMPTY_DB, PRO_GRANT, [PAID], Refunded(1));
    PaymentGrants(EMPTY_DB);
    RefundTakesBack(DeliverAll(EMPTY_DB, PRO_GRANT, [PAID]), 1);
    assert [] + [Refunded(1)] == [Refunded(1)] && [Refunded(1)] + [PAID] == [Refunded(1), PAID];
    DeliverPush(EMPTY_DB, PRO_GRANT, [], Refunded(1));
    DeliverPush(EMPTY_DB, PRO_GRANT, [Refunded(1)], PAID);
    PaymentGrants(DeliverAll(EMPTY_DB, PRO_GRANT, [Refunded(1)]));
  }

  /** Each refund event reverses the whole grant, so two partial refunds take back twice what was granted. */
  lemma TwoRefundsClawBackTwice()
    ensures Balance(DeliverAll(EMPTY_DB, PRO_GRANT, [PAID, Refunded(1), Refunded(2)]).ledger, 1) == -10
  {
    assert [] + [PAID] == [PAID] && [PAID] + [Refunded(1)] == [PAID, Refunded(1)];
    assert [PAID, Refunded(1)] + [Refunded(2)] == [PAID, Refunded(1), Refunded(2)];
    DeliverPush(EMPTY_DB, PRO_GRANT, [], PAID);
    DeliverPush(EMPTY_DB, PRO_GRANT, [PAID], Refunded(1));
    DeliverPush(EMPTY_DB, PRO_GRANT, [PAID, Refunded(1)], Refunded(2));
    PaymentGrants(EMPTY_DB);
    RefundTakesBack(DeliverAll(EMPTY_DB, PRO_GRANT, [PAID]), 1);
    RefundTakesBack(DeliverAll(EMPTY_DB, PRO_GRANT, [PAID, Refunded(1)]), 2);
  }
}
