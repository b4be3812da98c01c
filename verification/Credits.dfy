/**
 The tables of credits-service and what each operation of CreditsService does to them.  Every
 operation is one database transaction: it takes the tables before it and gives the tables after it
 together with what the caller sees.  Listing ids and ledger ids are row positions.
 */
module Credits {
  import opened Prelude
  import opened Ledger

  datatype Status = Open | Reserved | Sold | Canceled | Expired

  datatype Listing = Listing(
    seller: Uuid, credits: pos, price: pos, status: Status,
    buyer: Option<Uuid>, intent: Option<string>, expiresAt: int, updatedAt: int)

  /** The event types named in the code; every other type is unsupported here. */
  datatype EventType = InvoicePaid | CreditsPurchased | RefundIssued | CreditsConsumed | OtherEvent(name: string)

  /** The three tables.  processed_events is keyed by event_id, which is unique. */
  datatype Db = Db(ledger: seq<Entry>, listings: seq<Listing>, processed: map<Uuid, EventType>)

  const EMPTY_DB := Db([], [], map[])

  datatype Error =
    | InsufficientCredits | ListingNotFound | ListingAccessDenied | ListingNotOpen | ListingUnavailable
    | SelfPurchaseNotAllowed | ListingNotReserved | TransferStateInvalid | PurchaseMismatch
    | SellerBalanceChanged | UnsupportedEvent | MalformedPayload | IntegrityError

  datatype Outcome<T> = Outcome(db: Db, result: Result<T, Error>)

  /** Seconds a reservation may stay untouched before the sweep reopens it. */
  const STALE_AFTER := 900
  const DAY := 86400

  /** A number sent as text, read with a default of zero: no field, a field int() rejects, or the number. */
  datatype Field = Absent | Unreadable | Number(value: int)

  function AsInt(field: Field): Option<int> {
    match field
    case Absent => Some(0)
    case Unreadable => None
    case Number(value) => Some(value)
  }

  /** The fields of a billing event.  None is an absent or unreadable field; all of those are errors when needed. */
  datatype Envelope = Envelope(
    id: Uuid, kind: EventType, account: Option<Uuid>, plan: string, invoice: Option<string>,
    credits: Field, intent: Option<string>, refund: Option<string>)

  /** plan_grants of the service settings. */
  type Grants = map<string, int>

  // ---------- usage ----------

  function ConsumeCredits(db: Db, account: Uuid, user: Uuid, amount: pos, reference: Uuid): Outcome<int> {
    var current := Balance(db.ledger, account);
    if reference in db.processed then Outcome(db, Ok(current))
    else if current < amount then Outcome(db, Err(InsufficientCredits))
    else
      Outcome(
        db.(ledger := db.ledger +
              [Entry(account, Usage, -(amount as int), UsageRef, OfUuid(reference), None, Some(user))],
            processed := db.processed[reference := CreditsConsumed]),
        Ok(current - amount))
  }

  // ---------- marketplace ----------

  /** The ORM stamps updated_at only when the row really changes. */
  function Touch(was: Listing, now: int, l: Listing): Listing {
    if l == was then was else l.(updatedAt := now)
  }

  function SetListing(db: Db, id: nat, now: int, l: Listing): Db
    requires id < |db.listings|
  {
    db.(listings := db.listings[id := Touch(db.listings[id], now, l)])
  }

  function Reopened(l: Listing): Listing { l.(status := Open, buyer := None, intent := None) }

  predicate Stale(l: Listing, now: int) { l.status == Reserved && l.updatedAt < now - STALE_AFTER }

  function SweepRow(l: Listing, now: int): Listing {
    if Stale(l, now) then Reopened(l).(updatedAt := now) else l
  }

  function Sweep(db: Db, now: int): Db {
    db.(listings := seq(|db.listings|, i requires 0 <= i < |db.listings| => SweepRow(db.listings[i], now)))
  }

  predicate OnSale(l: Listing, now: int) { l.status == Open && now < l.expiresAt }

  /** Credits an unexpired listing still promises on behalf of account a. */
  function Promised(l: Listing, a: Uuid, now: int): nat {
    if l.seller == a && (l.status == Open || l.status == Reserved) && now < l.expiresAt then l.credits else 0
  }

  function Committed(listings: seq<Listing>, a: Uuid, now: int): nat {
    if listings == [] then 0
    else Committed(listings[..|listings| - 1], a, now) + Promised(listings[|listings| - 1], a, now)
  }

  function CreateListing(db: Db, account: Uuid, credits: pos, price: pos, days: pos, now: int): Outcome<nat> {
    if Balance(db.ledger, account) - Committed(db.listings, account, now) < credits then
      Outcome(db, Err(InsufficientCredits))
    else
      var l := Listing(account, credits, price, Open, None, None, now + DAY * days, now);
      Outcome(db.(listings := db.listings + [l]), Ok(|db.listings|))
  }

  function CancelListing(db: Db, id: nat, account: Uuid, superadmin: bool, now: int): Outcome<()> {
    if id >= |db.listings| then Outcome(db, Err(ListingNotFound))
    else
      var l := db.listings[id];
      if l.seller != account && !superadmin then Outcome(db, Err(ListingAccessDenied))
      else if l.status != Open then Outcome(db, Err(ListingNotOpen))
      else Outcome(SetListing(db, id, now, l.(status := Canceled)), Ok(()))
  }

  function ReservePurchase(db: Db, id: nat, buyer: Uuid, now: int): Outcome<Listing> {
    if id >= |db.listings| then Outcome(db, Err(ListingNotFound))
    else
      var l := db.listings[id];
      if l.status != Open || l.expiresAt <= now then Outcome(db, Err(ListingUnavailable))
      else if l.seller == buyer then Outcome(db, Err(SelfPurchaseNotAllowed))
      else
        var after := SetListing(db, id, now, l.(status := Reserved, buyer := Some(buyer)));
        Outcome(after, Ok(after.listings[id]))
  }

  predicate IntentTaken(db: Db, id: nat, intent: string) {
    exists j :: 0 <= j < |db.listings| && j != id && db.listings[j].intent == Some(intent)
  }

  function SetPaymentIntent(db: Db, id: nat, intent: string, now: int): Outcome<()> {
    if id >= |db.listings| || db.listings[id].status != Reserved then Outcome(db, Err(ListingNotReserved))
    else if IntentTaken(db, id, intent) then Outcome(db, Err(IntegrityError))
    else Outcome(SetListing(db, id, now, db.listings[id].(intent := Some(intent))), Ok(()))
  }

  function ReleaseReservation(db: Db, id: nat, buyer: Option<Uuid>, now: int): Db {
    if id < |db.listings| && db.listings[id].status == Reserved && (buyer.None? || db.listings[id].buyer == buyer)
    then SetListing(db, id, now, Reopened(db.listings[id]))
    else db
  }

  function BuyerRow(l: Listing, buyer: Uuid, user: Uuid, intent: string): Entry {
    Entry(buyer, Trade, l.credits, PurchaseRef, OfText(intent), Some(l.seller), Some(user))
  }

  function SellerRow(l: Listing, buyer: Uuid, user: Uuid, intent: string): Entry {
    Entry(l.seller, Trade, -(l.credits as int), SaleRef, OfText(intent), Some(buyer), Some(user))
  }

  function PurchaseBy(buyer: Uuid, intent: string): Where {
    Where(Some(buyer), None, Some(PurchaseRef), Some(OfText(intent)))
  }

  /** The result is the id of the buyer's ledger row. */
  function CompletePurchase(db: Db, id: nat, buyer: Uuid, user: Uuid, intent: string, now: int): Outcome<nat> {
    if id >= |db.listings| then Outcome(db, Err(ListingNotFound))
    else
      var l := db.listings[id];
      if l.status == Sold && l.intent == Some(intent) then
        match FirstWhere(db.ledger, PurchaseBy(buyer, intent))
        case None => Outcome(db, Err(TransferStateInvalid))
        case Some(existing) => Outcome(db, Ok(existing))
      else if l.status != Reserved || l.buyer != Some(buyer) || l.intent != Some(intent) then
        Outcome(db, Err(PurchaseMismatch))
      else if Balance(db.ledger, l.seller) < l.credits then
        Outcome(db, Err(SellerBalanceChanged))
      else
        Outcome(
          SetListing(
            db.(ledger := db.ledger + [BuyerRow(l, buyer, user, intent), SellerRow(l, buyer, user, intent)]),
            id, now, l.(status := Sold)),
          Ok(|db.ledger|))
  }

  // ---------- billing events ----------

  function InvoiceGrant(account: Uuid, invoice: string): Where {
    Where(Some(account), Some(Grant), Some(InvoiceRef), Some(OfText(invoice)))
  }

  function PackRow(account: Uuid, credits: int, intent: Option<string>): Entry {
    var ref := if intent.Some? && intent.value != "" then OfText(intent.value) else OfUuid(account);
    Entry(account, Grant, credits, PackRef, ref, None, None)
  }

  /** The ledger row an unseen event asks for, if any. */
  function EntryFor(db: Db, grants: Grants, e: Envelope): Result<Option<Entry>, Error> {
    if e.account.None? then Err(MalformedPayload)
    else
      var account := e.account.value;
      match e.kind
      case InvoicePaid =>
        var amount := if e.plan in grants then grants[e.plan] else 0;
        if amount <= 0 then Ok(None)
        else if e.invoice.None? then Err(MalformedPayload)
        else Ok(Some(Entry(account, Grant, amount, InvoiceRef, OfText(e.invoice.value), None, None)))
      case CreditsPurchased =>
        var amount := AsInt(e.credits);
        if amount.None? then Err(MalformedPayload)
        else if amount.value <= 0 then Ok(None)
        else Ok(Some(PackRow(account, amount.value, e.intent)))
      case RefundIssued =>
        if e.invoice.None? then Err(MalformedPayload)
        else
          (match FirstWhere(db.ledger, InvoiceGrant(account, e.invoice.value))
           case None => Ok(None)
           case Some(i) =>
             if e.refund.None? then Err(MalformedPayload)
             else
               Ok(Some(Entry(
                 account, RefundClawback, -db.ledger[i].amount, RefundRef, OfText(e.refund.value), None, None))))
      case _ => Err(UnsupportedEvent)
  }

  function Consume(db: Db, grants: Grants, e: Envelope): Outcome<()> {
    if e.id in db.processed then Outcome(db, Ok(()))
    else
      match EntryFor(db, grants, e)
      case Err(error) => Outcome(db, Err(error))
      case Ok(row) =>
        Outcome(
          db.(ledger := db.ledger + (if row.Some? then [row.value] else []),
              processed := db.processed[e.id := e.kind]),
          Ok(()))
  }

  // ---------- runs ----------

  datatype Cmd =
    | DoConsumeCredits(account: Uuid, user: Uuid, amount: pos, reference: Uuid)
    | DoSweep
    | DoCreate(account: Uuid, credits: pos, price: pos, days: pos)
    | DoCancel(id: nat, account: Uuid, superadmin: bool)
    | DoReserve(id: nat, buyer: Uuid)
    | DoSetIntent(id: nat, intent: string)
    | DoRelease(id: nat, buyerOnly: Option<Uuid>)
    | DoComplete(id: nat, buyer: Uuid, user: Uuid, intent: string)
    | DoEvent(envelope: Envelope)

  function Apply(db: Db, grants: Grants, cmd: Cmd, now: int): Db {
    match cmd
    case DoConsumeCredits(account, user, amount, reference) => ConsumeCredits(db, account, user, amount, reference).db
    case DoSweep => Sweep(db, now)
    case DoCreate(account, credits, price, days) => CreateListing(db, account, credits, price, days, now).db
    case DoCancel(id, account, superadmin) => CancelListing(db, id, account, superadmin, now).db
    case DoReserve(id, buyer) => ReservePurchase(db, id, buyer, now).db
    case DoSetIntent(id, intent) => SetPaymentIntent(db, id, intent, now).db
    case DoRelease(id, buyerOnly) => ReleaseReservation(db, id, buyerOnly, now)
    case DoComplete(id, buyer, user, intent) => CompletePurchase(db, id, buyer, user, intent, now).db
    case DoEvent(envelope) => Consume(db, grants, envelope).db
  }

  datatype Timed = Timed(now: int, cmd: Cmd)

  /** The tables after a run, its operations in the order their transactions commit. */
  function Run(db: Db, grants: Grants, run: seq<Timed>): Db {
    if run == [] then db
    else Apply(Run(db, grants, run[..|run| - 1]), grants, run[|run| - 1].cmd, run[|run| - 1].now)
  }
}
