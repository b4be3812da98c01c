/**
 From a Stripe webhook to a credit grant: the inbox, the outbox and its publishers, the broker queue of
 credits-service with its delivery limit, and the consumer.  Every part may be interleaved with every
 other, workers and publishers and consumers may stop anywhere, and the broker may duplicate and reorder.
 */
module Pipeline {
  import opened Prelude
  import opened Credits
  import opened Webhooks
  import Inbox
  import Outbox

  /** x-delivery-limit of the queue. */
  const DELIVERY_LIMIT := 5

  datatype Message = Message(envelope: Envelope, retries: nat)

  /** A message in a consumer's hands; handled once the transaction of consume has committed. */
  datatype Delivery = Delivery(message: Message, handled: bool)

  datatype Queue = Queue(ready: seq<Message>, inflight: map<nat, Delivery>, dead: seq<Message>)

  /**
   bindings are the event types bound to the queue so far.  Two histories: routed lists the outbox ids the broker put
   on the queue, accepted those whose consumption was committed.
   */
  datatype State = State(
    billing: Billing, inbox: Inbox.State, outbox: Outbox.State, bindings: set<EventType>, routed: seq<nat>,
    queue: Queue, db: Db, accepted: seq<nat>)

  /** The settings, and what Stripe says each event id means. */
  datatype World = World(grants: Grants, hooks: map<string, Hook>)

  function Init(billing: Billing): State {
    State(billing, Inbox.INIT, Outbox.INIT, {}, [], Queue([], map[], []), EMPTY_DB, [])
  }

  datatype Step =
    | InboxStep(inbox: Inbox.Step, began: int)   // began is the created_at of a row that its transaction writes
    | BillingWrite(envelope: Envelope, began: int)  // any other transaction that writes an outbox row
    | Bind(kind: EventType)                   // credits-service, when it starts
    | OutboxStep(outbox: Outbox.Step)
    | Duplicate(at: nat)
    | Deliver(consumer: nat, at: nat)
    | Handle(consumer: nat, fails: bool)
    | Ack(consumer: nat)
    | Return(consumer: nat)                   // requeue, connection loss or crash
    | Local(cmd: Cmd, now: int)               // any request to credits-service

  /** The event types that credits-service binds to its queue. */
  const SUBSCRIBED: set<EventType> := {InvoicePaid, RefundIssued, CreditsPurchased}

  function NextInbox(world: World, s: State, step: Inbox.Step, began: int): State {
    match Inbox.Committing(s.inbox, step)
    case None =>
      if step.Receive? && step.id !in world.hooks then s
      else s.(inbox := Inbox.Next(s.inbox, step))
    case Some(id) =>
      if id !in world.hooks then s
      else
        match ApplyWebhook(s.billing, world.hooks[id])
        case Err(_) => s.(inbox := Inbox.Next(s.inbox, step.(fails := true)))
        case Ok(written) =>
          s.(billing := written.billing,
             inbox := Inbox.Next(s.inbox, step),
             outbox := if written.row.None? then s.outbox
                       else Outbox.Next(s.outbox, Outbox.Append(NewRow(written.row.value, Some(id), began))))
  }

  function NewRow(e: Envelope, origin: Option<string>, began: int): Outbox.Row {
    Outbox.Row(e, origin, began, false, 0)
  }

  /** The broker confirms every message and drops one that no binding routes. */
  function NextOutbox(s: State, step: Outbox.Step): State {
    var sending := Outbox.Sending(s.outbox, step);
    var after := s.(outbox := Outbox.Next(s.outbox, step));
    if sending.Some? && sending.value < |s.outbox.rows| && s.outbox.rows[sending.value].envelope.kind in s.bindings
    then
      after.(routed := s.routed + [sending.value],
             queue := s.queue.(ready := s.queue.ready + [Message(s.outbox.rows[sending.value].envelope, 0)]))
    else after
  }

  function Returned(q: Queue, consumer: nat): Queue
    requires consumer in q.inflight
  {
    var m := q.inflight[consumer].message;
    var again := m.(retries := m.retries + 1);
    if m.retries >= DELIVERY_LIMIT then q.(inflight := q.inflight - {consumer}, dead := q.dead + [again])
    else q.(inflight := q.inflight - {consumer}, ready := q.ready + [again])
  }

  function NextHandle(world: World, s: State, consumer: nat, fails: bool): State {
    if consumer !in s.queue.inflight || s.queue.inflight[consumer].handled then s
    else
      var m := s.queue.inflight[consumer].message;
      var o := Consume(s.db, world.grants, m.envelope);
      if fails || o.result.Err? then s.(queue := Returned(s.queue, consumer))
      else
        s.(queue := s.queue.(inflight := s.queue.inflight[consumer := Delivery(m, true)]),
           db := o.db,
           accepted := s.accepted + if m.envelope.id in s.db.processed then [] else [m.envelope.id])
  }

  /** A step that is not enabled changes nothing. */
  function Next(world: World, s: State, step: Step): State {
    match step
    case InboxStep(inbox, began) => NextInbox(world, s, inbox, began)
    case BillingWrite(e, began) =>
      if e.kind == CreditsPurchased || e.kind == InvoicePaid then s
      else s.(outbox := Outbox.Next(s.outbox, Outbox.Append(NewRow(e, None, began))))
    case Bind(kind) => if kind !in SUBSCRIBED then s else s.(bindings := s.bindings + {kind})
    case OutboxStep(outbox) => if outbox.Append? then s else NextOutbox(s, outbox)
    case Duplicate(at) =>
      if at >= |s.queue.ready| then s
      else s.(queue := s.queue.(ready := s.queue.ready + [s.queue.ready[at]]))
    case Deliver(consumer, at) =>
      if consumer in s.queue.inflight || at >= |s.queue.ready| then s
      else
        s.(queue := s.queue.(
             ready := s.queue.ready[..at] + s.queue.ready[at + 1..],
             inflight := s.queue.inflight[consumer := Delivery(s.queue.ready[at], false)]))
    case Handle(consumer, fails) => NextHandle(world, s, consumer, fails)
    case Ack(consumer) =>
      if consumer !in s.queue.inflight || !s.queue.inflight[consumer].handled then s
      else s.(queue := s.queue.(inflight := s.queue.inflight - {consumer}))
    case Return(consumer) =>
      if consumer !in s.queue.inflight then s else s.(queue := Returned(s.queue, consumer))
    case Local(cmd, now) => if cmd.DoEvent? then s else s.(db := Apply(s.db, world.grants, cmd, now))
  }

  function RunAll(world: World, s: State, steps: seq<Step>): State {
    if steps == [] then s else Next(world, RunAll(world, s, steps[..|steps| - 1]), steps[|steps| - 1])
  }

  // ---------- where an event is ----------

  predicate InReady(q: Queue, id: Uuid) { exists k :: 0 <= k < |q.ready| && q.ready[k].envelope.id == id }

  predicate InFlight(q: Queue, id: Uuid) { exists c :: c in q.inflight && q.inflight[c].message.envelope.id == id }

  predicate DeadLettered(q: Queue, id: Uuid) { exists k :: 0 <= k < |q.dead| && q.dead[k].envelope.id == id }

  predicate AtBroker(q: Queue, id: Uuid) { InReady(q, id) || InFlight(q, id) || DeadLettered(q, id) }

  /** A message at the broker is the envelope of an outbox row that was routed. */
  predicate Genuine(rows: seq<Outbox.Row>, routed: seq<nat>, m: Message) {
    m.envelope.id < |rows| && m.envelope == rows[m.envelope.id].envelope && m.envelope.id in routed
  }

  ghost predicate AllGenuine(rows: seq<Outbox.Row>, routed: seq<nat>, q: Queue) {
    && (forall k :: 0 <= k < |q.ready| ==> Genuine(rows, routed, q.ready[k]))
    && (forall c :: c in q.inflight ==> Genuine(rows, routed, q.inflight[c].message))
    && (forall k :: 0 <= k < |q.dead| ==> Genuine(rows, routed, q.dead[k]))
  }

  /** What was routed was sent and has a subscribed type; it can have been routed only while that type was bound. */
  ghost predicate Routed(o: Outbox.State, bindings: set<EventType>, routed: seq<nat>) {
    && bindings <= SUBSCRIBED
    && forall i :: i in routed ==> i < |o.rows| && i in o.sent && o.rows[i].envelope.kind in bindings
  }

  /** What was routed is at the broker or has been processed, and what is handled has been processed. */
  ghost predicate NothingLost(routed: seq<nat>, q: Queue, processed: map<Uuid, EventType>) {
    && (forall i :: i in routed ==> AtBroker(q, i) || i in processed)
    && (forall c :: c in q.inflight && q.inflight[c].handled ==> q.inflight[c].message.envelope.id in processed)
  }
}
