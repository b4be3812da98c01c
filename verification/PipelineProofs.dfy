/** Every run of the pipeline: what the broker has routed is not lost, and what it has dropped never comes back. */
module PipelineProofs {
  import opened Prelude
  import opened Credits
  import opened Webhooks
  import opened Pipeline
  import Inbox
  import Outbox

  // ---------- what was routed ----------

  /** Moving messages about: q' keeps every id of q, and invents no message and no handling. */
  ghost predicate Moves(q: Queue, q': Queue) {
    && (forall id :: AtBroker(q, id) ==> AtBroker(q', id))
    && (forall rows: seq<Outbox.Row>, routed: seq<nat> :: AllGenuine(rows, routed, q) ==> AllGenuine(rows, routed, q'))
    && (forall c :: c in q'.inflight && q'.inflight[c].handled ==> c in q.inflight && q.inflight[c] == q'.inflight[c])
  }

  lemma DeliverMoves(q: Queue, consumer: nat, at: nat)
    requires consumer !in q.inflight && at < |q.ready|
    ensures Moves(q, q.(ready := q.ready[..at] + q.ready[at + 1..],
                        inflight := q.inflight[consumer := Delivery(q.ready[at], false)]))
  {
    var q' := q.(ready := q.ready[..at] + q.ready[at + 1..],
                 inflight := q.inflight[consumer := Delivery(q.ready[at], false)]);
    forall id | AtBroker(q, id) ensures AtBroker(q', id) {
      if InReady(q, id) {
        var k :| 0 <= k < |q.ready| && q.ready[k].envelope.id == id;
        if k == at {
          assert q'.inflight[consumer].message.envelope.id == id;
        } else {
          assert q'.ready[if k < at then k else k - 1] == q.ready[k];
        }
      } else if InFlight(q, id) {
        var c :| c in q.inflight && q.inflight[c].message.envelope.id == id;
        assert q'.inflight[c] == q.inflight[c];
      }
    }
  }

  lemma ReturnMoves(q: Queue, consumer: nat)
    requires consumer in q.inflight
    ensures Moves(q, Returned(q, consumer))
  {
    var q', m := Returned(q, consumer), q.inflight[consumer].message;
    forall id | AtBroker(q, id) ensures AtBroker(q', id) {
      if InReady(q, id) {
        var k :| 0 <= k < |q.ready| && q.ready[k].envelope.id == id;
        assert q'.ready[k] == q.ready[k];
      } else if DeadLettered(q, id) {
        var k :| 0 <= k < |q.dead| && q.dead[k].envelope.id == id;
        assert q'.dead[k] == q.dead[k];
      } else {
        var c :| c in q.inflight && q.inflight[c].message.envelope.id == id;
        if c == consumer {
          if m.retries >= DELIVERY_LIMIT {
            assert q'.dead[|q.dead|].envelope.id == id;
          } else {
            assert q'.ready[|q.ready|].envelope.id == id;
          }
        } else {
          assert q'.inflight[c] == q.inflight[c];
        }
      }
    }
  }

  /** More messages in the ready queue, none of the others touched. */
  lemma EnqueueKeeps(q: Queue, m: Message, id: Uuid)
    requires AtBroker(q, id) || m.envelope.id == id
    ensures AtBroker(q.(ready := q.ready + [m]), id)
  {
    var q' := q.(ready := q.ready + [m]);
    if m.envelope.id == id {
      assert q'.ready[|q.ready|] == m;
    } else if InReady(q, id) {
      var k :| 0 <= k < |q.ready| && q.ready[k].envelope.id == id;
      assert q'.ready[k] == q.ready[k];
    } else if InFlight(q, id) {
      var c :| c in q.inflight && q.inflight[c].message.envelope.id == id;
      assert q'.inflight[c] == q.inflight[c];
    } else {
      assert DeadLettered(q', id);
    }
  }

  ghost predicate Sound(s: State) {
    && Inbox.Inv(s.inbox)
    && Outbox.Inv(s.outbox)
    && Routed(s.outbox, s.bindings, s.routed)
    && AllGenuine(s.outbox.rows, s.routed, s.queue)
    && NothingLost(s.routed, s.queue, s.db.processed)
    && (forall i :: i in s.accepted ==> i in s.routed)
  }

  lemma MoveKeepsSound(s: State, q': Queue)
    requires Sound(s) && Moves(s.queue, q')
    ensures Sound(s.(queue := q'))
  {}

  lemma AppendKeepsSound(s: State, row: Outbox.Row, inbox: Inbox.State, billing: Billing)
    requires Sound(s) && Inbox.Inv(inbox)
    ensures Sound(s.(billing := billing, inbox := inbox, outbox := Outbox.Next(s.outbox, Outbox.Append(row))))
  {
    Outbox.StepKeepsInv(s.outbox, Outbox.Append(row));
  }

  lemma WriteKeepsSound(s: State, e: Envelope, began: int)
    requires Sound(s)
    ensures Sound(s.(outbox := Outbox.Next(s.outbox, Outbox.Append(NewRow(e, None, began)))))
  {
    AppendKeepsSound(s, NewRow(e, None, began), s.inbox, s.billing);
  }

  lemma InboxKeepsSound(world: World, s: State, step: Inbox.Step, began: int)
    requires Sound(s)
    ensures Sound(NextInbox(world, s, step, began))
  {
    Inbox.StepKeepsInv(s.inbox, step);
    match Inbox.Committing(s.inbox, step)
    case None =>
    case Some(id) =>
      Inbox.StepKeepsInv(s.inbox, step.(fails := true));
      if id in world.hooks && ApplyWebhook(s.billing, world.hooks[id]).Ok? {
        var written := ApplyWebhook(s.billing, world.hooks[id]).value;
        if written.row.Some? {
          AppendKeepsSound(s, NewRow(written.row.value, Some(id), began), Inbox.Next(s.inbox, step), written.billing);
        }
      }
  }

  predicate SameEnvelopes(rows: seq<Outbox.Row>, rows': seq<Outbox.Row>) {
    |rows'| == |rows| && forall i :: 0 <= i < |rows| ==> rows'[i].envelope == rows[i].envelope
  }

  /** Sending nothing, or a row the broker drops. */
  lemma DroppedKeepsSound(s: State, outbox: Outbox.State)
    requires Sound(s) && Outbox.Inv(outbox) && SameEnvelopes(s.outbox.rows, outbox.rows) && s.outbox.sent <= outbox.sent
    ensures Sound(s.(outbox := outbox))
  {
    assert forall i :: i in s.outbox.sent ==> i in outbox.sent;
  }

  /** Sending a row whose type is bound puts its envelope on the queue. */
  lemma RoutedKeepsSound(s: State, outbox: Outbox.State, row: nat)
    requires Sound(s) && Outbox.Inv(outbox) && SameEnvelopes(s.outbox.rows, outbox.rows)
    requires row < |outbox.rows| && outbox.rows[row].envelope.kind in s.bindings && outbox.sent == s.outbox.sent + [row]
    ensures Sound(s.(outbox := outbox, routed := s.routed + [row],
        queue := s.queue.(ready := s.queue.ready + [Message(outbox.rows[row].envelope, 0)])))
  {
    var m := Message(outbox.rows[row].envelope, 0);
    assert m.envelope.id == row;
    forall id | AtBroker(s.queue, id) || id == row ensures AtBroker(s.queue.(ready := s.queue.ready + [m]), id) {
      EnqueueKeeps(s.queue, m, id);
    }
  }

  lemma OutboxKeepsSound(s: State, step: Outbox.Step)
    requires Sound(s) && !step.Append?
    ensures Sound(NextOutbox(s, step))
  {
    Outbox.StepKeepsInv(s.outbox, step);
    var outbox, sending := Outbox.Next(s.outbox, step), Outbox.Sending(s.outbox, step);
    assert |outbox.rows| == |s.outbox.rows|;
    assert SameEnvelopes(s.outbox.rows, outbox.rows);
    if sending.Some? && s.outbox.rows[sending.value].envelope.kind in s.bindings {
      RoutedKeepsSound(s, outbox, sending.value);
    } else {
      DroppedKeepsSound(s, outbox);
    }
  }

  lemma DeliverKeepsSound(s: State, consumer: nat, at: nat)
    requires Sound(s) && consumer !in s.queue.inflight && at < |s.queue.ready|
    ensures Sound(s.(queue := s.queue.(
                       ready := s.queue.ready[..at] + s.queue.ready[at + 1..],
                       inflight := s.queue.inflight[consumer := Delivery(s.queue.ready[at], false)])))
  {
    hide Moves;
    DeliverMoves(s.queue, consumer, at);
    MoveKeepsSound(s, s.queue.(
        ready := s.queue.ready[..at] + s.queue.ready[at + 1..],
        inflight := s.queue.inflight[consumer := Delivery(s.queue.ready[at], false)]));
  }

  lemma ReturnKeepsSound(s: State, consumer: nat)
    requires Sound(s) && consumer in s.queue.inflight
    ensures Sound(s.(queue := Returned(s.queue, consumer)))
  {
    hide Moves;
    ReturnMoves(s.queue, consumer);
    MoveKeepsSound(s, Returned(s.queue, consumer));
  }

  lemma HandleKeepsSound(world: World, s: State, consumer: nat, fails: bool)
    requires Sound(s)
    ensures Sound(NextHandle(world, s, consumer, fails))
  {
    if consumer in s.queue.inflight && !s.queue.inflight[consumer].handled {
      var m := s.queue.inflight[consumer].message;
      if fails || Consume(s.db, world.grants, m.envelope).result.Err? {
        ReturnKeepsSound(s, consumer);
      } else {
        var t := NextHandle(world, s, consumer, fails);
        forall id | AtBroker(s.queue, id) ensures AtBroker(t.queue, id) {
          HandledStillThere(s.queue, consumer, id);
        }
      }
    }
  }

  lemma HandledStillThere(q: Queue, consumer: nat, id: Uuid)
    requires consumer in q.inflight && AtBroker(q, id)
    ensures AtBroker(q.(inflight := q.inflight[consumer := Delivery(q.inflight[consumer].message, true)]), id)
  {
    var q' := q.(inflight := q.inflight[consumer := Delivery(q.inflight[consumer].message, true)]);
    if InReady(q, id) {
      assert InReady(q', id);
    } else if DeadLettered(q, id) {
      assert DeadLettered(q', id);
    } else {
      var c :| c in q.inflight && q.inflight[c].message.envelope.id == id;
      assert q'.inflight[c].message == q.inflight[c].message;
    }
  }

  lemma AckKeepsSound(s: State, consumer: nat)
    requires Sound(s) && consumer in s.queue.inflight && s.queue.inflight[consumer].handled
    ensures Sound(s.(queue := s.queue.(inflight := s.queue.inflight - {consumer})))
  {
    var q, q' := s.queue, s.queue.(inflight := s.queue.inflight - {consumer});
    forall id | AtBroker(q, id) ensures AtBroker(q', id) || id in s.db.processed {
      if InReady(q, id) {
        assert InReady(q', id);
      } else if DeadLettered(q, id) {
        assert DeadLettered(q', id);
      } else {
        var c :| c in q.inflight && q.inflight[c].message.envelope.id == id;
        assert c != consumer ==> q'.inflight[c] == q.inflight[c];
      }
    }
  }

  lemma DuplicateKeepsSound(s: State, at: nat)
    requires Sound(s) && at < |s.queue.ready|
    ensures Sound(s.(queue := s.queue.(ready := s.queue.ready + [s.queue.ready[at]])))
  {
    var q' := s.queue.(ready := s.queue.ready + [s.queue.ready[at]]);
    forall id | AtBroker(s.queue, id) ensures AtBroker(q', id) {
      EnqueueKeeps(s.queue, s.queue.ready[at], id);
    }
  }

  lemma LocalKeepsSound(s: State, grants: Grants, cmd: Cmd, now: int)
    requires Sound(s)
    ensures Sound(s.(db := Apply(s.db, grants, cmd, now)))
  {
    ProcessedGrows(s.db, grants, cmd, now);
  }

  lemma BindKeepsSound(s: State, kind: EventType)
    requires Sound(s) && kind in SUBSCRIBED
    ensures Sound(s.(bindings := s.bindings + {kind}))
  {}

  /** The steps of the broker and of a consumer that end no transaction. */
  predicate QueueStep(step: Step) { step.Duplicate? || step.Deliver? || step.Ack? || step.Return? }

  lemma QueueStepKeepsSound(world: World, s: State, step: Step)
    requires Sound(s) && QueueStep(step)
    ensures Sound(Next(world, s, step))
  {
    hide Sound, Returned;
    match step
    case Duplicate(at) => if at < |s.queue.ready| { DuplicateKeepsSound(s, at); }
    case Deliver(consumer, at) =>
      if consumer !in s.queue.inflight && at < |s.queue.ready| { DeliverKeepsSound(s, consumer, at); }
    case Ack(consumer) =>
      if consumer in s.queue.inflight && s.queue.inflight[consumer].handled { AckKeepsSound(s, consumer); }
    case Return(consumer) => if consumer in s.queue.inflight { ReturnKeepsSound(s, consumer); }
  }

  lemma StepKeepsSound(world: World, s: State, step: Step)
    requires Sound(s)
    ensures Sound(Next(world, s, step))
  {
    hide Sound, AtBroker, Genuine, AllGenuine, Routed, NothingLost, Outbox.Inv, Inbox.Inv;
    hide NextInbox, NextOutbox, NextHandle, Apply, Outbox.Next;
    match step
    case InboxStep(inbox, began) => InboxKeepsSound(world, s, inbox, began);
    case BillingWrite(e, began) => WriteKeepsSound(s, e, began);
    case Bind(kind) => if kind in SUBSCRIBED { BindKeepsSound(s, kind); }
    case OutboxStep(outbox) => if !outbox.Append? { OutboxKeepsSound(s, outbox); }
    case Handle(consumer, fails) => HandleKeepsSound(world, s, consumer, fails);
    case Local(cmd, now) => if !cmd.DoEvent? { LocalKeepsSound(s, world.grants, cmd, now); }
    case _ => QueueStepKeepsSound(world, s, step);
  }

  lemma ProcessedGrows(db: Db, grants: Grants, cmd: Cmd, now: int)
    ensures forall id :: id in db.processed ==>
              id in Apply(db, grants, cmd, now).processed
                && Apply(db, grants, cmd, now).processed[id] == db.processed[id]
  {}

  lemma {:induction false} RunIsSound(world: World, billing: Billing, steps: seq<Step>)
    ensures Sound(RunAll(world, Init(billing), steps))
  {
    if steps != [] {
      var n := |steps| - 1;
      RunIsSound(world, billing, steps[..n]);
      StepKeepsSound(world, RunAll(world, Init(billing), steps[..n]), steps[n]);
    }
  }

  /**
   In every reachable state a row marked published has been handed to the broker; one that was routed is queued, in
   flight, dead-lettered or recorded as processed; and nothing else is ever at the broker or accepted.
   */
  lemma NoEventLost(world: World, billing: Billing, steps: seq<Step>, i: nat)
    requires i < |RunAll(world, Init(billing), steps).outbox.rows|
    ensures var s := RunAll(world, Init(billing), steps);
            && (s.outbox.rows[i].published ==> i in s.outbox.sent)
            && (i in s.routed ==> AtBroker(s.queue, i) || i in s.db.processed)
            && (AtBroker(s.queue, i) || i in s.accepted ==> i in s.routed)
            && (i in s.routed ==> i in s.outbox.sent && s.outbox.rows[i].envelope.kind in s.bindings)
  {
    RunIsSound(world, billing, steps);
  }

  lemma {:induction false} RunAppend(world: World, s: State, a: seq<Step>, b: seq<Step>)
    ensures RunAll(world, s, a + b) == RunAll(world, RunAll(world, s, a), b)
  {
    if b == [] {
      assert a + b == a;
    } else {
      assert (a + b)[..|a + b| - 1] == a + b[..|b| - 1];
      RunAppend(world, s, a, b[..|b| - 1]);
    }
  }

  lemma RunLast(world: World, s: State, steps: seq<Step>, more: seq<Step>)
    requires more != []
    ensures RunAll(world, s, steps + more) ==
            Next(world, RunAll(world, s, steps + more[..|more| - 1]), more[|more| - 1])
  {
    assert (steps + more)[..|steps + more| - 1] == steps + more[..|more| - 1];
  }

  /** Rows keep their envelopes and origins and stay marked, and bindings stay. */
  predicate SameStart(s: State, t: State) {
    && |s.outbox.rows| <= |t.outbox.rows| && s.bindings <= t.bindings
    && forall i :: 0 <= i < |s.outbox.rows| ==> SameRow(s.outbox.rows[i], t.outbox.rows[i])
  }

  predicate SameRow(r: Outbox.Row, r': Outbox.Row) {
    r'.envelope == r.envelope && r'.origin == r.origin && (r.published ==> r'.published)
  }

  /** A step sends no row, or one that is not yet marked, and the broker routes it if its type is bound. */
  predicate RoutesAtMost(s: State, t: State, sending: Option<nat>) {
    match sending
    case None => t.outbox.sent == s.outbox.sent && t.routed == s.routed
    case Some(i) =>
      && i < |s.outbox.rows| && !s.outbox.rows[i].published
      && t.outbox.sent == s.outbox.sent + [i]
      && t.routed == s.routed + if s.outbox.rows[i].envelope.kind in s.bindings then [i] else []
  }

  lemma InboxRoutesNothing(world: World, s: State, step: Inbox.Step, began: int)
    ensures SameStart(s, NextInbox(world, s, step, began)) && RoutesAtMost(s, NextInbox(world, s, step, began), None)
  {}

  lemma OutboxRoutes(s: State, step: Outbox.Step)
    requires Outbox.Inv(s.outbox) && !step.Append?
    ensures SameStart(s, NextOutbox(s, step)) && RoutesAtMost(s, NextOutbox(s, step), Outbox.Sending(s.outbox, step))
  {
    Outbox.StepKeepsInv(s.outbox, step);
    if Outbox.Sending(s.outbox, step).Some? {
      assert Outbox.BatchOk(s.outbox.rows, s.outbox.sent, s.outbox.batches[step.p]);
    }
  }

  lemma StepRoutes(world: World, s: State, step: Step) returns (sending: Option<nat>)
    requires Outbox.Inv(s.outbox)
    ensures SameStart(s, Next(world, s, step)) && RoutesAtMost(s, Next(world, s, step), sending)
  {
    sending := None;
    hide NextInbox, NextOutbox, Consume, Returned, Apply, Outbox.Inv, Outbox.Sending;
    match step
    case InboxStep(inbox, began) => InboxRoutesNothing(world, s, inbox, began);
    case OutboxStep(outbox) =>
      if !outbox.Append? {
        OutboxRoutes(s, outbox);
        sending := Outbox.Sending(s.outbox, outbox);
      }
    case _ =>
  }

  // ---------- rows the broker dropped ----------

  /** Marked published although the broker dropped it at every send. */
  predicate Lost(s: State, i: nat) {
    i < |s.outbox.rows| && s.outbox.rows[i].published && i !in s.routed
  }

  lemma StepKeepsLost(world: World, s: State, step: Step, i: nat)
    requires Outbox.Inv(s.outbox) && Lost(s, i)
    ensures Lost(Next(world, s, step), i) && SameRow(s.outbox.rows[i], Next(world, s, step).outbox.rows[i])
  {
    hide Next, Outbox.Inv;
    var sending := StepRoutes(world, s, step);
  }

  /** A published row that was never routed is lost for good: it is never again sent, queued or processed as itself. */
  lemma {:induction false} LostForGood(world: World, billing: Billing, steps: seq<Step>, more: seq<Step>, i: nat)
    requires Lost(RunAll(world, Init(billing), steps), i)
    ensures var s, t := RunAll(world, Init(billing), steps), RunAll(world, Init(billing), steps + more);
            && Lost(t, i) && !AtBroker(t.queue, i) && i !in t.accepted
            && t.outbox.rows[i].envelope == s.outbox.rows[i].envelope
            && t.outbox.rows[i].origin == s.outbox.rows[i].origin
  {
    hide RunAll, Next, AtBroker, Sound;
    if more == [] {
      assert steps + more == steps;
    } else {
      var n := |more| - 1;
      LostForGood(world, billing, steps, more[..n], i);
      OutboxIsSound(world, billing, steps + more[..n]);
      RunLast(world, Init(billing), steps, more);
      StepKeepsLost(world, RunAll(world, Init(billing), steps + more[..n]), more[n], i);
    }
    NoEventLost(world, billing, steps + more, i);
  }

  lemma OutboxIsSound(world: World, billing: Billing, steps: seq<Step>)
    ensures Outbox.Inv(RunAll(world, Init(billing), steps).outbox)
  {
    hide RunAll;
    RunIsSound(world, billing, steps);
  }

  /** All types are bound, and row i has been routed if it was sent. */
  predicate RoutedIfSent(s: State, i: nat) {
    && SUBSCRIBED <= s.bindings
    && (i in s.outbox.sent && i < |s.outbox.rows| && s.outbox.rows[i].envelope.kind in SUBSCRIBED ==> i in s.routed)
  }

  lemma StepKeepsRouting(world: World, s: State, step: Step, i: nat)
    requires Outbox.Inv(s.outbox) && RoutedIfSent(s, i)
    ensures RoutedIfSent(Next(world, s, step), i)
  {
    assert i in s.outbox.sent ==> i < |s.outbox.rows|;
    hide Next, Outbox.Inv;
    var sending := StepRoutes(world, s, step);
  }

  lemma {:induction false} RoutedOnceBound(world: World, billing: Billing, steps: seq<Step>, more: seq<Step>, i: nat)
    requires RoutedIfSent(RunAll(world, Init(billing), steps), i)
    ensures RoutedIfSent(RunAll(world, Init(billing), steps + more), i)
  {
    hide *;
    if more == [] {
      assert steps + more == steps;
    } else {
      var n := |more| - 1;
      RoutedOnceBound(world, billing, steps, more[..n], i);
      OutboxIsSound(world, billing, steps + more[..n]);
      RunLast(world, Init(billing), steps, more);
      StepKeepsRouting(world, RunAll(world, Init(billing), steps + more[..n]), more[n], i);
    }
  }

  /**
   Once credits-service has bound its types, nothing is lost that had not been sent before: such a row has been routed
   if it was sent, and when it is marked published it is at the broker or has been processed.
   */
  lemma NothingLostOnceBound(world: World, billing: Billing, steps: seq<Step>, more: seq<Step>, i: nat)
    requires SUBSCRIBED <= RunAll(world, Init(billing), steps).bindings
    requires i !in RunAll(world, Init(billing), steps).outbox.sent
    requires var rows := RunAll(world, Init(billing), steps + more).outbox.rows;
             i < |rows| && rows[i].envelope.kind in SUBSCRIBED
    ensures var s := RunAll(world, Init(billing), steps + more);
            && (i in s.outbox.sent <==> i in s.routed)
            && (s.outbox.rows[i].published ==> AtBroker(s.queue, i) || i in s.db.processed)
  {
    hide RunAll, AtBroker;
    RoutedOnceBound(world, billing, steps, more, i);
    NoEventLost(world, billing, steps + more, i);
  }

  // ---------- retries ----------

  predicate RetriesOk(q: Queue) {
    && (forall k :: 0 <= k < |q.ready| ==> q.ready[k].retries <= 5)
    && (forall c :: c in q.inflight ==> q.inflight[c].message.retries <= 5)
    && (forall k :: 0 <= k < |q.dead| ==> q.dead[k].retries == 6)
  }

  /**
   In every run a message is handed back at most five times and still tried; the sixth time, and not before, it goes to
   the dead letters.
   */
  lemma {:induction false} DeadAfterSixReturns(world: World, billing: Billing, steps: seq<Step>)
    ensures RetriesOk(RunAll(world, Init(billing), steps).queue)
  {
    if steps != [] {
      var n := |steps| - 1;
      DeadAfterSixReturns(world, billing, steps[..n]);
      StepKeepsRetries(world, RunAll(world, Init(billing), steps[..n]), steps[n]);
    }
  }

  lemma ReturnKeepsRetries(q: Queue, consumer: nat)
    requires RetriesOk(q) && consumer in q.inflight
    ensures RetriesOk(Returned(q, consumer))
  {}

  lemma StepKeepsRetries(world: World, s: State, step: Step)
    requires RetriesOk(s.queue)
    ensures RetriesOk(Next(world, s, step).queue)
  {
    hide NextInbox, Consume, Apply, Returned, Outbox.Next, Outbox.Sending;
    match step
    case InboxStep(inbox, began) => InboxLeavesQueue(world, s, inbox, began);
    case Handle(consumer, _) =>
      if consumer in s.queue.inflight { ReturnKeepsRetries(s.queue, consumer); }
    case Return(consumer) =>
      if consumer in s.queue.inflight { ReturnKeepsRetries(s.queue, consumer); }
    case _ =>
  }

  lemma InboxLeavesQueue(world: World, s: State, step: Inbox.Step, began: int)
    ensures NextInbox(world, s, step, began).queue == s.queue
  {}
}
