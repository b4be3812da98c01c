/** What billing-service does with one Stripe webhook: _apply_webhook, as far as the outbox can see it. */
module Webhooks {
  import opened Prelude
  import opened Ledger
  import opened Credits
  import opened GrantProofs

  datatype HookKind =
    | CheckoutCompleted | InvoicePaidHook | InvoiceFailed | OtherInvoice
    | SubscriptionDeleted | SubscriptionChanged | OtherHook

  /** metadata.account_id: absent or empty, not the text of a UUID, or the text of one. */
  datatype MetaAccount = NoAccount | NoUuid | AccountId(id: Uuid)

  /** The fields _apply_webhook reads.  plan is the plan found from invoice lines or subscription items. */
  datatype Hook = Hook(
    kind: HookKind, objectId: Option<string>, customer: string, account: MetaAccount,
    creditPurchase: bool, credits: Field, intent: Option<string>, plan: Option<string>)

  datatype Subscription = Subscription(account: Uuid, customer: string, plan: string)

  /** The subscription rows and the Stripe ids of the stored invoices. */
  datatype Billing = Billing(subscriptions: seq<Subscription>, invoices: set<string>)

  function ByCustomer(subscriptions: seq<Subscription>, customer: string): Option<nat> {
    if i :| 0 <= i < |subscriptions| && subscriptions[i].customer == customer
            && forall j :: 0 <= j < i ==> subscriptions[j].customer != customer then Some(i) else None
  }

  function ByAccount(subscriptions: seq<Subscription>, account: Uuid): Option<nat> {
    if i :| 0 <= i < |subscriptions| && subscriptions[i].account == account
            && forall j :: 0 <= j < i ==> subscriptions[j].account != account then Some(i) else None
  }

  /** The subscription an event is about.  An unreadable account id is only an error once the customer is unknown. */
  function SubscriptionFor(b: Billing, h: Hook): Result<Option<nat>, ()> {
    match ByCustomer(b.subscriptions, h.customer)
    case Some(i) => Ok(Some(i))
    case None =>
      match h.account
      case NoAccount => Ok(None)
      case NoUuid => Err(())
      case AccountId(id) => Ok(ByAccount(b.subscriptions, id))
  }

  function Row(kind: EventType, account: Option<Uuid>): Envelope {
    Envelope(0, kind, account, "free", None, Absent, None, None)
  }

  /** The tables after the webhook and the outbox row it writes, if any. */
  datatype Written = Written(billing: Billing, row: Option<Envelope>)

  /** An invoice first seen by this webhook has no id yet when the payload is built, so its text is None. */
  function InvoiceText(b: Billing, stripeId: string): string {
    if stripeId in b.invoices then stripeId else "None"
  }

  /** The credit pack a checkout session pays for: an account id text and a positive number of credits. */
  predicate IsPack(h: Hook) {
    h.kind == CheckoutCompleted && h.creditPurchase && !h.account.NoAccount? && h.credits.Number? && h.credits.value > 0
  }

  function PackEnvelope(h: Hook): Envelope
    requires IsPack(h)
  {
    Row(CreditsPurchased, if h.account.AccountId? then Some(h.account.id) else None)
      .(credits := h.credits, intent := h.intent)
  }

  function InvoiceRow(b: Billing, h: Hook, sub: Subscription): Option<Envelope>
    requires h.objectId.Some?
  {
    if h.kind == InvoicePaidHook then
      var plan := if h.plan.Some? then h.plan.value else sub.plan;
      Some(Row(InvoicePaid, Some(sub.account)).(plan := plan, invoice := Some(InvoiceText(b, h.objectId.value))))
    else if h.kind == InvoiceFailed then Some(Row(OtherEvent("payment.failed"), Some(sub.account)))
    else None
  }

  function ApplyWebhook(b: Billing, h: Hook): Result<Written, ()> {
    match SubscriptionFor(b, h)
    case Err(_) => Err(())
    case Ok(found) =>
      match h.kind
      case InvoicePaidHook | InvoiceFailed | OtherInvoice =>
        if found.None? then Ok(Written(b, None))
        else if h.objectId.None? then Err(())
        else
          Ok(Written(
            b.(invoices := b.invoices + {h.objectId.value}),
            InvoiceRow(b, h, b.subscriptions[found.value])))
      case SubscriptionDeleted | SubscriptionChanged =>
        if found.None? then Ok(Written(b, None))
        else if h.objectId.None? then Err(())
        else
          var sub := b.subscriptions[found.value];
          var plan := if h.kind == SubscriptionDeleted then "free" else if h.plan.Some? then h.plan.value else sub.plan;
          Ok(Written(
            b.(subscriptions := b.subscriptions[found.value := sub.(plan := plan)]),
            Some(Row(OtherEvent("subscription.updated"), Some(sub.account)))))
      case CheckoutCompleted =>
        if !h.creditPurchase then Ok(Written(b, None))
        else if h.credits == Unreadable then Err(())
        else Ok(Written(b, if IsPack(h) then Some(PackEnvelope(h)) else None))
      case OtherHook => Ok(Written(b, None))
  }

  /** A webhook writes a credits.purchased row exactly when it is a completed pack checkout. */
  lemma OnlyPacksWritePurchases(b: Billing, h: Hook)
    requires ApplyWebhook(b, h).Ok?
    ensures var row := ApplyWebhook(b, h).value.row;
            && (IsPack(h) <==> row.Some? && row.value.kind == CreditsPurchased)
            && (IsPack(h) ==> row == Some(PackEnvelope(h)))
  {}

  // ---------- which subscription, which plan ----------

  predicate NoCustomer(b: Billing, customer: string) {
    forall j :: 0 <= j < |b.subscriptions| ==> b.subscriptions[j].customer != customer
  }

  predicate NoSubscriber(b: Billing, account: Uuid) {
    forall j :: 0 <= j < |b.subscriptions| ==> b.subscriptions[j].account != account
  }

  lemma {:induction false} FirstCustomer(subscriptions: seq<Subscription>, k: nat) returns (i: nat)
    requires k < |subscriptions|
    ensures i <= k && subscriptions[i].customer == subscriptions[k].customer
    ensures forall j :: 0 <= j < i ==> subscriptions[j].customer != subscriptions[k].customer
  {
    if j: nat :| j < k && subscriptions[j].customer == subscriptions[k].customer {
      i := FirstCustomer(subscriptions, j);
    } else {
      i := k;
    }
  }

  lemma {:induction false} FirstSubscriber(subscriptions: seq<Subscription>, k: nat) returns (i: nat)
    requires k < |subscriptions|
    ensures i <= k && subscriptions[i].account == subscriptions[k].account
    ensures forall j :: 0 <= j < i ==> subscriptions[j].account != subscriptions[k].account
  {
    if j: nat :| j < k && subscriptions[j].account == subscriptions[k].account {
      i := FirstSubscriber(subscriptions, j);
    } else {
      i := k;
    }
  }

  lemma CustomerFound(b: Billing, customer: string)
    ensures ByCustomer(b.subscriptions, customer).None? <==> NoCustomer(b, customer)
  {
    if k :| 0 <= k < |b.subscriptions| && b.subscriptions[k].customer == customer {
      var i := FirstCustomer(b.subscriptions, k);
    }
  }

  lemma SubscriberFound(b: Billing, account: Uuid)
    ensures ByAccount(b.subscriptions, account).None? <==> NoSubscriber(b, account)
  {
    if k :| 0 <= k < |b.subscriptions| && b.subscriptions[k].account == account {
      var i := FirstSubscriber(b.subscriptions, k);
    }
  }

  /**
   A webhook is about the subscription of its customer, or, if the customer is unknown, about that of the account in
   its metadata; it fails exactly when it would have to read an account that is no UUID.
   */
  lemma SubscriptionExactly(b: Billing, h: Hook)
    ensures var found := SubscriptionFor(b, h);
            && (found.Err? <==> NoCustomer(b, h.customer) && h.account.NoUuid?)
            && (found == Ok(None) <==>
                  && NoCustomer(b, h.customer) && !h.account.NoUuid?
                  && (h.account.AccountId? ==> NoSubscriber(b, h.account.id)))
            && (found.Ok? && found.value.Some? ==>
                  && found.value.value < |b.subscriptions|
                  && var sub := b.subscriptions[found.value.value];
                     if NoCustomer(b, h.customer) then h.account == AccountId(sub.account)
                     else sub.customer == h.customer)
  {
    CustomerFound(b, h.customer);
    if h.account.AccountId? { SubscriberFound(b, h.account.id); }
  }

  /** The same subscriptions, apart from their plans, and the same invoices. */
  predicate SameButPlans(b: Billing, c: Billing) {
    && |c.subscriptions| == |b.subscriptions| && c.invoices == b.invoices
    && forall i :: 0 <= i < |b.subscriptions| ==>
         c.subscriptions[i].account == b.subscriptions[i].account
         && c.subscriptions[i].customer == b.subscriptions[i].customer
  }

  lemma PlansDoNotMatter(b: Billing, c: Billing, h: Hook)
    requires SameButPlans(b, c)
    ensures SubscriptionFor(b, h) == SubscriptionFor(c, h)
  {
    CustomerFound(b, h.customer);
    CustomerFound(c, h.customer);
    assert ByCustomer(b.subscriptions, h.customer) == ByCustomer(c.subscriptions, h.customer);
    if h.account.AccountId? {
      SubscriberFound(b, h.account.id);
      SubscriberFound(c, h.account.id);
      assert ByAccount(b.subscriptions, h.account.id) == ByAccount(c.subscriptions, h.account.id);
    }
  }

  /** What a paid invoice is about. */
  predicate PaidInvoice(b: Billing, h: Hook, i: nat) {
    && h.kind == InvoicePaidHook && h.objectId.Some?
    && i < |b.subscriptions| && SubscriptionFor(b, h) == Ok(Some(i))
  }

  /** The plan of the invoice lines where they name one, and that of the subscription otherwise. */
  function PlanPaid(b: Billing, h: Hook, i: nat): string
    requires i < |b.subscriptions|
  {
    match h.plan
    case Some(plan) => plan
    case None => b.subscriptions[i].plan
  }

  /** A paid invoice names the account of its subscription and the plan of its lines, and is stored. */
  lemma PaidInvoiceExactly(b: Billing, h: Hook, i: nat)
    requires PaidInvoice(b, h, i)
    ensures var text := if h.objectId.value in b.invoices then h.objectId.value else "None";
            && ApplyWebhook(b, h).Ok? && ApplyWebhook(b, h).value.row.Some?
            && var e := ApplyWebhook(b, h).value.row.value;
               && e.kind == InvoicePaid && e.account == Some(b.subscriptions[i].account)
               && e.plan == (if h.plan.Some? then h.plan.value else b.subscriptions[i].plan)
               && e.invoice == Some(text)
    ensures ApplyWebhook(b, h).value.billing == b.(invoices := b.invoices + {h.objectId.value})
  {}

  /** Any other invoice event of a subscriber stores the invoice and pays nothing; a failed payment is announced. */
  lemma UnpaidInvoiceExactly(b: Billing, h: Hook, i: nat)
    requires (h.kind == InvoiceFailed || h.kind == OtherInvoice) && h.objectId.Some?
    requires i < |b.subscriptions| && SubscriptionFor(b, h) == Ok(Some(i))
    ensures var written := ApplyWebhook(b, h);
            && written.Ok? && written.value.billing == b.(invoices := b.invoices + {h.objectId.value})
            && (written.value.row.Some? <==> h.kind == InvoiceFailed)
            && (written.value.row.Some? ==>
                  && written.value.row.value.kind == OtherEvent("payment.failed")
                  && written.value.row.value.account == Some(b.subscriptions[i].account))
  {}

  /** With a plan in its lines a paid invoice writes the same row whatever plan the subscriptions have by then. */
  lemma PlanOfLinesWins(b: Billing, c: Billing, h: Hook, i: nat)
    requires PaidInvoice(b, h, i) && SameButPlans(b, c) && h.plan.Some?
    ensures ApplyWebhook(b, h).value.row == ApplyWebhook(c, h).value.row
  {
    PlansDoNotMatter(b, c, h);
  }

  /** A subscription event changes the plan of its own subscription only: to free if deleted, else to the one named. */
  lemma SubscriptionEventExactly(b: Billing, h: Hook, i: nat)
    requires h.kind == SubscriptionDeleted || h.kind == SubscriptionChanged
    requires h.objectId.Some? && i < |b.subscriptions| && SubscriptionFor(b, h) == Ok(Some(i))
    ensures ApplyWebhook(b, h).Ok? && SameButPlans(b, ApplyWebhook(b, h).value.billing)
    ensures var row := ApplyWebhook(b, h).value.row;
            row.Some? && row.value.kind == OtherEvent("subscription.updated")
            && row.value.account == Some(b.subscriptions[i].account)
    ensures var subscriptions := ApplyWebhook(b, h).value.billing.subscriptions;
            && (forall j :: 0 <= j < |subscriptions| && j != i ==> subscriptions[j] == b.subscriptions[j])
            && (h.kind == SubscriptionDeleted ==> subscriptions[i].plan == "free")
            && (h.kind == SubscriptionChanged ==>
                  subscriptions[i].plan == if h.plan.Some? then h.plan.value else b.subscriptions[i].plan)
  {}

  /**
   From a subscription event to the ledger: when the lines of the next paid invoice name no plan, the account is granted
   the credits of the plan that the event left, which are those of the free plan after a deletion.
   */
  lemma PlanFollowsSubscription(
    b: Billing, change: Hook, h: Hook, i: nat, db: Db, grants: Grants, id: Uuid, plan: string)
    requires change.kind == SubscriptionDeleted || (change.kind == SubscriptionChanged && change.plan == Some(plan))
    requires change.kind == SubscriptionDeleted ==> plan == "free"
    requires change.objectId.Some? && SubscriptionFor(b, change) == Ok(Some(i))
    requires PaidInvoice(b, h, i) && h.plan.None? && id !in db.processed
    ensures var account := b.subscriptions[i].account;
            var after := ApplyWebhook(b, change).value.billing;
            && ApplyWebhook(after, h).Ok? && ApplyWebhook(after, h).value.row.Some?
            && var e := ApplyWebhook(after, h).value.row.value.(id := id);
               Balance(Consume(db, grants, e).db.ledger, account) ==
               Balance(db.ledger, account) + PlanCredits(grants, plan)
  {
    var after := ApplyWebhook(b, change).value.billing;
    SubscriptionEventExactly(b, change, i);
    PlansDoNotMatter(b, after, h);
    PaidInvoiceExactly(after, h, i);
    var e := ApplyWebhook(after, h).value.row.value.(id := id);
    DeliveryExactly(db, grants, e, b.subscriptions[i].account);
    hide ApplyWebhook, SubscriptionFor, Consume;
  }

  /**
   A completed checkout for credits writes a purchase of the credits in its metadata for the account in its metadata,
   when both are there and the number is positive; it fails exactly when the number cannot be read.
   */
  lemma PackCheckoutExactly(b: Billing, h: Hook)
    requires h.kind == CheckoutCompleted && SubscriptionFor(b, h).Ok?
    ensures var written := ApplyWebhook(b, h);
            && (written.Err? <==> h.creditPurchase && h.credits == Unreadable)
            && (written.Ok? ==>
                  && written.value.billing == b
                  && (written.value.row.Some? <==>
                        h.creditPurchase && h.account != NoAccount && h.credits.Number? && h.credits.value > 0)
                  && (written.value.row.Some? ==>
                        && written.value.row.value.kind == CreditsPurchased
                        && written.value.row.value.credits == h.credits && written.value.row.value.intent == h.intent
                        && (forall id: Uuid ::
                              written.value.row.value.account == Some(id) <==> h.account == AccountId(id))))
  {}

  /** Whatever else it is, a webhook is refused exactly for an unreadable account, object id or number of credits. */
  lemma RefusedExactly(b: Billing, h: Hook)
    ensures ApplyWebhook(b, h).Err? <==>
            || (NoCustomer(b, h.customer) && h.account.NoUuid?)
            || (h.objectId.None? && !h.kind.CheckoutCompleted? && !h.kind.OtherHook?
                && (!NoCustomer(b, h.customer) || (h.account.AccountId? && !NoSubscriber(b, h.account.id))))
            || (h.kind == CheckoutCompleted && h.creditPurchase && h.credits == Unreadable)
  {
    SubscriptionExactly(b, h);
  }

  // ---------- refunds ----------

  lemma RefundFindsGrant(db: Db, grants: Grants, grant: Entry, refund: Envelope, account: Uuid, invoice: string)
    requires FirstWhere(db.ledger, InvoiceGrant(account, invoice)).None?
    requires grant.account == account && grant.kind == Grant && grant.refType == InvoiceRef
    requires refund.kind == RefundIssued && refund.account == Some(account) && refund.invoice == Some(invoice)
    requires refund.refund.Some? && refund.id !in db.processed
    ensures var paid := db.(ledger := db.ledger + [grant]);
            Balance(Consume(paid, grants, refund).db.ledger, account) ==
            Balance(paid.ledger, account) - if grant.ref == OfText(invoice) then grant.amount else 0
  {
    var paid := db.(ledger := db.ledger + [grant]);
    var found := FirstWhere(paid.ledger, InvoiceGrant(account, invoice));
    if grant.ref == OfText(invoice) {
      assert Selects(InvoiceGrant(account, invoice), paid.ledger[|db.ledger|]);
      assert found == Some(|db.ledger|);
      var back := Entry(account, RefundClawback, -grant.amount, RefundRef, OfText(refund.refund.value), None, None);
      SumPush(paid.ledger, back, OfAccount(account));
    } else {
      assert found.None?;
      assert paid.ledger + [] == paid.ledger;
    }
  }

  /** A grant event, and then a refund of the invoice named: they cancel when the grant was made under that name. */
  lemma PaidThenRefunded(
    db: Db, grants: Grants, paid: Envelope, refund: Envelope, account: Uuid, invoice: string)
    requires paid.kind == InvoicePaid && paid.account == Some(account) && paid.invoice.Some?
    requires paid.plan in grants && grants[paid.plan] > 0 && paid.id !in db.processed
    requires FirstWhere(db.ledger, InvoiceGrant(account, invoice)).None?
    requires refund.kind == RefundIssued && refund.account == Some(account) && refund.invoice == Some(invoice)
    requires refund.refund.Some? && refund.id !in db.processed && refund.id != paid.id
    ensures var after := Consume(db, grants, paid).db;
            && Balance(after.ledger, account) == Balance(db.ledger, account) + grants[paid.plan]
            && Balance(Consume(after, grants, refund).db.ledger, account) ==
               Balance(db.ledger, account) + if paid.invoice == Some(invoice) then 0 else grants[paid.plan]
  {
    var grant := Entry(account, Grant, grants[paid.plan], InvoiceRef, OfText(paid.invoice.value), None, None);
    var seen := db.(processed := db.processed[paid.id := InvoicePaid]);
    assert Consume(db, grants, paid).db == seen.(ledger := db.ledger + [grant]);
    hide Consume, FirstWhere;
    SumPush(db.ledger, grant, OfAccount(account));
    RefundFindsGrant(seen, grants, grant, refund, account, invoice);
  }

  /**
   From the paid invoice to its refund: the credits granted for an invoice can be found again under the
   invoice's own name, so that a refund claws them back, exactly when the invoice was stored before it was paid.
   */
  lemma RefundReachesGrantExactly(
    b: Billing, h: Hook, i: nat, db: Db, grants: Grants, paidId: Uuid, refund: Envelope)
    requires PaidInvoice(b, h, i) && h.objectId.value != "None"
    requires PlanPaid(b, h, i) in grants && grants[PlanPaid(b, h, i)] > 0 && paidId !in db.processed
    requires FirstWhere(db.ledger, InvoiceGrant(b.subscriptions[i].account, h.objectId.value)).None?
    requires refund.kind == RefundIssued && refund.account == Some(b.subscriptions[i].account)
        && refund.invoice == h.objectId && refund.refund.Some? && refund.id !in db.processed && refund.id != paidId
    ensures ApplyWebhook(b, h).Ok? && ApplyWebhook(b, h).value.row.Some?
    ensures var row := ApplyWebhook(b, h).value.row.value;
            var account, granted := b.subscriptions[i].account, grants[PlanPaid(b, h, i)];
            var paid := Consume(db, grants, row.(id := paidId)).db;
            var after := Consume(paid, grants, refund).db;
            && Balance(paid.ledger, account) == Balance(db.ledger, account) + granted
            && Balance(after.ledger, account) ==
               Balance(db.ledger, account) + if h.objectId.value in b.invoices then 0 else granted
  {
    PaidInvoiceExactly(b, h, i);
    var row := ApplyWebhook(b, h).value.row.value.(id := paidId);
    hide *;
    PaidThenRefunded(db, grants, row, refund, b.subscriptions[i].account, h.objectId.value);
  }
}
