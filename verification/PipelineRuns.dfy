/**
 Two runs of the pipeline in which a paid credit pack is never granted: its row was published before credits-service
 bound its queue, and a usage reference was given the row's id.
 */
module PipelineRuns {
  import opened Prelude
  import opened Ledger
  import opened Credits
  import opened Webhooks
  import opened Pipeline
  import opened PipelineProofs
  import opened PipelineGrants
  import Inbox
  import Outbox

  lemma RunOne(world: World, s: State, a: Step)
    ensures RunAll(world, s, [a]) == Next(world, s, a)
  {
    assert [a][..0] == [];
  }

  lemma RunThree(world: World, s: State, a: Step, b: Step, c: Step)
    ensures RunAll(world, s, [a, b, c]) == Next(world, Next(world, Next(world, s, a), b), c)
  {
    RunOne(world, s, a);
    assert [a, b, c] == [a] + [b] + [c];
    RunAppend(world, s, [a], [b]);
    RunAppend(world, s, [a] + [b], [c]);
    RunOne(world, RunAll(world, s, [a]), b);
    RunOne(world, RunAll(world, s, [a] + [b]), c);
  }

  /** What credits-service does when it starts, before it consumes. */
  const STARTUP: seq<Step> := [Bind(InvoicePaid), Bind(RefundIssued), Bind(CreditsPurchased)]

  function At(step: Inbox.Step): Step { InboxStep(step, 0) }

  /** One worker takes a webhook through both transactions. */
  function Arrival(k: string): seq<Step> {
    [At(Inbox.Receive(0, k)), At(Inbox.Look(0)), At(Inbox.Insert(0))]
    + [At(Inbox.Lock(0)), At(Inbox.Apply(0, false))]
  }

  /** One publisher takes one row. */
  const PUBLICATION: seq<Step> := [OutboxStep(Outbox.Begin(0)), OutboxStep(Outbox.Send(0)),
      OutboxStep(Outbox.Commit(0))]

  /** One consumer takes one message. */
  const CONSUMPTION: seq<Step> := [Deliver(0, 0), Handle(0, false), Ack(0)]

  predicate PackOf(world: World, k: string) {
    k in world.hooks && IsPack(world.hooks[k]) && world.hooks[k].account.AccountId?
  }

  function RowOf(world: World, k: string, id: nat): (row: Outbox.Row)
    requires PackOf(world, k)
    ensures IsPurchase(row) && row.envelope.id == id && row.origin == Some(k) && !row.published
  {
    NewRow(PackEnvelope(world.hooks[k]).(id := id), Some(k), 0)
  }

  lemma Recorded(world: World, s: State, k: string)
    requires PackOf(world, k) && s.inbox.workers == map[] && k !in s.inbox.rows
    ensures RunAll(world, s, Arrival(k)[..3]) ==
            s.(inbox := Inbox.State(s.inbox.rows[k := false], map[0 := Inbox.Recorded(k)], s.inbox.effects))
  {
    var inbox := s.inbox;
    var received := inbox.(workers := map[0 := Inbox.Received(k)]);
    var looked := inbox.(workers := map[0 := Inbox.Looked(k, false)]);
    assert Arrival(k)[..3] == [At(Inbox.Receive(0, k)), At(Inbox.Look(0)), At(Inbox.Insert(0))];
    RunThree(world, s, At(Inbox.Receive(0, k)), At(Inbox.Look(0)), At(Inbox.Insert(0)));
    assert Next(world, s, At(Inbox.Receive(0, k))) == s.(inbox := received);
    assert Next(world, s.(inbox := received), At(Inbox.Look(0))) == s.(inbox := looked);
  }

  lemma Committed(world: World, s: State, k: string)
    requires PackOf(world, k) && s.inbox.workers == map[0 := Inbox.Recorded(k)] && k in s.inbox.rows && !s.inbox.rows[k]
    ensures RunAll(world, s, [At(Inbox.Lock(0)), At(Inbox.Apply(0, false))]) ==
            s.(inbox := Inbox.State(s.inbox.rows[k := true], map[], s.inbox.effects + [k]),
               outbox := s.outbox.(rows := s.outbox.rows + [RowOf(world, k, |s.outbox.rows|)]))
  {
    var lock, apply := At(Inbox.Lock(0)), At(Inbox.Apply(0, false));
    var holding := s.(inbox := s.inbox.(workers := map[0 := Inbox.Holding(k)]));
    assert [lock, apply] == [lock] + [apply];
    RunAppend(world, s, [lock], [apply]);
    RunOne(world, s, lock);
    RunOne(world, holding, apply);
    assert Next(world, s, lock) == holding;
    assert map[0 := Inbox.Holding(k)] - {0} == map[];
    assert ApplyWebhook(s.billing, world.hooks[k]) == Ok(Written(s.billing, Some(PackEnvelope(world.hooks[k]))));
  }

  lemma Arrives(world: World, s: State, k: string)
    requires PackOf(world, k) && s.inbox.workers == map[] && k !in s.inbox.rows
    ensures RunAll(world, s, Arrival(k)) ==
            s.(inbox := Inbox.State(s.inbox.rows[k := true], map[], s.inbox.effects + [k]),
               outbox := s.outbox.(rows := s.outbox.rows + [RowOf(world, k, |s.outbox.rows|)]))
  {
    var lock, apply := At(Inbox.Lock(0)), At(Inbox.Apply(0, false));
    Recorded(world, s, k);
    var recorded := RunAll(world, s, Arrival(k)[..3]);
    assert Arrival(k) == Arrival(k)[..3] + [lock, apply];
    RunAppend(world, s, Arrival(k)[..3], [lock, apply]);
    Committed(world, recorded, k);
    assert s.inbox.rows[k := false][k := true] == s.inbox.rows[k := true];
  }

  lemma Publishes(world: World, s: State, rows: seq<Outbox.Row>, row: Outbox.Row)
    requires s.outbox.rows == rows + [row] && Outbox.AllPublished(rows) && !row.published && s.outbox.batches == map[]
    ensures RunAll(world, s, PUBLICATION) ==
            var after := s.(
              outbox := Outbox.State(rows + [Outbox.MarkRow(row)], map[], s.outbox.sent + [|rows|]));
            if row.envelope.kind !in s.bindings then after
            else
              after.(routed := s.routed + [|rows|],
                     queue := s.queue.(ready := s.queue.ready + [Message(row.envelope, 0)]))
  {
    RunThree(world, s, OutboxStep(Outbox.Begin(0)), OutboxStep(Outbox.Send(0)), OutboxStep(Outbox.Commit(0)));
    Outbox.PublishesTheLast(s.outbox, rows, row);
    hide RunAll, Outbox.Next, Outbox.AllPublished;
    assert Outbox.Sending(s.outbox, Outbox.Begin(0)) == None;
  }

  lemma Consumes(world: World, s: State, e: Envelope)
    requires s.queue == Queue([Message(e, 0)], map[], []) && Consume(s.db, world.grants, e).result.Ok?
    ensures RunAll(world, s, CONSUMPTION) ==
            s.(queue := Queue([], map[], []), db := Consume(s.db, world.grants, e).db,
               accepted := s.accepted + if e.id in s.db.processed then [] else [e.id])
  {
    var m := Message(e, 0);
    var taken := s.(queue := Queue([], map[0 := Delivery(m, false)], []));
    var handled := taken.(
      queue := Queue([], map[0 := Delivery(m, true)], []), db := Consume(s.db, world.grants, e).db,
      accepted := s.accepted + if e.id in s.db.processed then [] else [e.id]);
    RunThree(world, s, Deliver(0, 0), Handle(0, false), Ack(0));
    assert [m][..0] + [m][1..] == [];
    assert Next(world, s, Deliver(0, 0)) == taken;
    assert Next(world, taken, Handle(0, false)) == handled;
    assert map[0 := Delivery(m, true)] - {0} == map[];
  }

  /** The last row alone is unpublished, its type is bound, and neither publisher nor broker is at work. */
  predicate Waiting(s: State, rows: seq<Outbox.Row>, row: Outbox.Row) {
    && s.outbox.rows == rows + [row] && Outbox.AllPublished(rows) && !row.published && s.outbox.batches == map[]
    && s.queue == Queue([], map[], []) && row.envelope.kind in s.bindings
  }

  /** A waiting row goes through the broker to credits-service. */
  lemma Carries(world: World, s: State, rows: seq<Outbox.Row>, row: Outbox.Row) returns (t: State)
    requires Waiting(s, rows, row) && Consume(s.db, world.grants, row.envelope).result.Ok?
    ensures t == RunAll(world, s, PUBLICATION + CONSUMPTION)
    ensures t.inbox == s.inbox && t.bindings == s.bindings && t.queue == s.queue
    ensures t.outbox == Outbox.State(rows + [Outbox.MarkRow(row)], map[], s.outbox.sent + [|rows|])
    ensures t.db == Consume(s.db, world.grants, row.envelope).db
  {
    Publishes(world, s, rows, row);
    var published := RunAll(world, s, PUBLICATION);
    assert [] + [Message(row.envelope, 0)] == [Message(row.envelope, 0)];
    Consumes(world, published, row.envelope);
    t := RunAll(world, published, CONSUMPTION);
    RunAppend(world, s, PUBLICATION, CONSUMPTION);
  }

  lemma StartsUp(world: World, s: State)
    requires s.bindings == {}
    ensures RunAll(world, s, STARTUP) == s.(bindings := SUBSCRIBED)
  {
    RunThree(world, s, Bind(InvoicePaid), Bind(RefundIssued), Bind(CreditsPurchased));
    assert {} + {InvoicePaid} + {RefundIssued} + {CreditsPurchased} == SUBSCRIBED;
  }

  // ---------- published too early ----------

  /**
   Reachable for any pack: its checkout is processed and its row published before credits-service has bound its types.
   Whatever happens afterwards, the row is published and nowhere, and the pack is never granted.
   */
  lemma PublishedTooEarly(world: World, billing: Billing, k: string, more: seq<Step>)
    requires PackOf(world, k)
    ensures var early := Arrival(k) + PUBLICATION + STARTUP;
            var s, t := RunAll(world, Init(billing), early), RunAll(world, Init(billing), early + more);
            && k in s.inbox.rows && s.inbox.rows[k] && PurchaseRow(s, k, 0) && s.bindings == SUBSCRIBED
            && 0 < |t.outbox.rows| && t.outbox.rows[0].published && !AtBroker(t.queue, 0) && Some(k) !in Origins(t)
  {
    var early := Arrival(k) + PUBLICATION + STARTUP;
    EarlyState(world, billing, k);
    LostForGood(world, billing, early, more, 0);
    RunKeepsGrants(world, billing, early + more);
    GrantedWhenAccepted(world, RunAll(world, Init(billing), early + more), k, 0);
  }

  lemma EarlyState(world: World, billing: Billing, k: string)
    requires PackOf(world, k)
    ensures RunAll(world, Init(billing), Arrival(k) + PUBLICATION + STARTUP) ==
            Init(billing).(
              inbox := Inbox.State(map[k := true], map[], [k]),
              outbox := Outbox.State([Outbox.MarkRow(RowOf(world, k, 0))], map[], [0]), bindings := SUBSCRIBED)
  {
    var s, row := Init(billing), RowOf(world, k, 0);
    hide RunAll, Arrival, PUBLICATION, STARTUP, IsPack, PackEnvelope;
    Arrives(world, s, k);
    var arrived := RunAll(world, s, Arrival(k));
    assert [] + [row] == [row] && [] + [k] == [k] && [] + [0] == [0];
    Publishes(world, arrived, [], row);
    var published := RunAll(world, arrived, PUBLICATION);
    StartsUp(world, published);
    RunAppend(world, s, Arrival(k), PUBLICATION);
    RunAppend(world, s, Arrival(k) + PUBLICATION, STARTUP);
  }

  // ---------- swallowed by a usage reference ----------

  /** Started up, the first pack granted, and the second one's row written. */
  function Prologue(first: string, second: string): seq<Step> {
    STARTUP + Arrival(first) + (PUBLICATION + CONSUMPTION) + Arrival(second)
  }

  lemma BothPaid(world: World, billing: Billing, first: string, second: string) returns (t: State)
    requires PackOf(world, first) && PackOf(world, second) && first != second
    ensures t == RunAll(world, Init(billing), Prologue(first, second))
    ensures second in t.inbox.rows && t.inbox.rows[second]
    ensures Waiting(t, [Outbox.MarkRow(RowOf(world, first, 0))], RowOf(world, second, 1))
    ensures t.db == Consume(EMPTY_DB, world.grants, RowOf(world, first, 0).envelope).db
  {
    hide RunAll, Consume, Arrival, PUBLICATION, CONSUMPTION, STARTUP, IsPack, PackEnvelope;
    var s, row := Init(billing), RowOf(world, first, 0);
    assert [] + [row] == [row] && [] + [Outbox.MarkRow(row)] == [Outbox.MarkRow(row)];
    StartsUp(world, s);
    var started := RunAll(world, s, STARTUP);
    Arrives(world, started, first);
    FirstPackPays(world, first, 0);
    var one := Carries(world, RunAll(world, started, Arrival(first)), [], row);
    Arrives(world, one, second);
    t := RunAll(world, one, Arrival(second));
    RunAppend(world, s, STARTUP, Arrival(first));
    RunAppend(world, s, STARTUP + Arrival(first), PUBLICATION + CONSUMPTION);
    RunAppend(world, s, STARTUP + Arrival(first) + (PUBLICATION + CONSUMPTION), Arrival(second));
  }

  /**
   Reachable for any two packs: the first is granted, the second is paid, then the account of the first spends a credit
   under a reference that is the id of the second one's outbox row, which is published and consumed, but never granted.
   */
  lemma SwallowedPack(world: World, billing: Billing, first: string, second: string, user: Uuid)
    returns (steps: seq<Step>, i: nat)
    requires PackOf(world, first) && PackOf(world, second) && first != second
    ensures var s := RunAll(world, Init(billing), steps);
            && Quiescent(s) && second in s.inbox.rows && s.inbox.rows[second]
            && PurchaseRow(s, second, i) && i in s.db.processed && s.db.processed[i] == CreditsConsumed
            && Some(second) !in Origins(s)
  {
    var charge := DoConsumeCredits(world.hooks[first].account.id, user, 1, 1);
    var prologue, row := Prologue(first, second), RowOf(world, second, 1);
    var passage := [Local(charge, 0)] + (PUBLICATION + CONSUMPTION);
    steps, i := prologue + passage, 1;
    hide RunAll, Apply, Consume, Origins, Prologue, PUBLICATION, CONSUMPTION, IsPack, PackEnvelope, RowOf;
    var paid := BothPaid(world, billing, first, second);
    FirstPackPays(world, first, user);
    var done := Swallows(world, paid, [Outbox.MarkRow(RowOf(world, first, 0))], row, charge);
    RunAppend(world, Init(billing), prologue, passage);
    NotGranted(world, billing, steps, second, 1);
  }

  /** A charge under the id of a waiting row, and then its passage. */
  lemma Swallows(world: World, s: State, rows: seq<Outbox.Row>, row: Outbox.Row, charge: Cmd) returns (t: State)
    requires Waiting(s, rows, row) && charge.DoConsumeCredits?
    requires row.envelope.id in Apply(s.db, world.grants, charge, 0).processed
    ensures t == RunAll(world, s, [Local(charge, 0)] + (PUBLICATION + CONSUMPTION))
    ensures t.inbox == s.inbox && t.queue == s.queue && t.db == Apply(s.db, world.grants, charge, 0)
    ensures t.outbox.rows == rows + [Outbox.MarkRow(row)]
  {
    hide RunAll, Apply, Consume, PUBLICATION, CONSUMPTION;
    var charged := s.(db := Apply(s.db, world.grants, charge, 0));
    assert Next(world, s, Local(charge, 0)) == charged;
    RunOne(world, s, Local(charge, 0));
    SeenIsSkipped(charged.db, world.grants, row.envelope);
    t := Carries(world, charged, rows, row);
    RunAppend(world, s, [Local(charge, 0)], PUBLICATION + CONSUMPTION);
  }

  lemma SeenIsSkipped(db: Db, grants: Grants, e: Envelope)
    requires e.id in db.processed
    ensures Consume(db, grants, e) == Outcome(db, Ok(()))
  {}

  lemma NotGranted(world: World, billing: Billing, steps: seq<Step>, k: string, i: nat)
    requires var s := RunAll(world, Init(billing), steps);
             PurchaseRow(s, k, i) && i in s.db.processed && s.db.processed[i] == CreditsConsumed
    ensures Some(k) !in Origins(RunAll(world, Init(billing), steps))
  {
    RunKeepsGrants(world, billing, steps);
    GrantedWhenAccepted(world, RunAll(world, Init(billing), steps), k, i);
  }

  /** The first grant pays for a charge of one credit, and the charge takes reference 1. */
  lemma FirstPackPays(world: World, k: string, user: Uuid)
    requires PackOf(world, k)
    ensures var db := Consume(EMPTY_DB, world.grants, RowOf(world, k, 0).envelope).db;
            var account := world.hooks[k].account.id;
            && Consume(EMPTY_DB, world.grants, RowOf(world, k, 0).envelope).result.Ok?
            && db.processed == map[0 := CreditsPurchased]
            && Apply(db, world.grants, DoConsumeCredits(account, user, 1, 1), 0).processed
               == map[0 := CreditsPurchased, 1 := CreditsConsumed]
  {
    var h := world.hooks[k];
    var row := PackRow(h.account.id, h.credits.value, h.intent);
    assert [] + [row] == [row];
    SumPush([], row, OfAccount(h.account.id));
  }
}
