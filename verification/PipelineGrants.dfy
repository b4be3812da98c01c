/** Where each credit-pack grant of the ledger comes from, in every run of the pipeline. */
module PipelineGrants {
  import opened Prelude
  import opened Ledger
  import opened Credits
  import opened Webhooks
  import opened Pipeline
  import opened PipelineProofs
  import Inbox
  import Outbox

  const PACK_GRANTS := Where(None, Some(Grant), Some(PackRef), None)

  predicate IsPurchase(r: Outbox.Row) { r.envelope.kind == CreditsPurchased }

  /** The accepted outbox ids that are purchases of a credit pack. */
  function PackLog(rows: seq<Outbox.Row>, accepted: seq<nat>): (log: seq<nat>)
    ensures forall k :: 0 <= k < |log| ==> log[k] < |rows|
  {
    if accepted == [] then []
    else
      var n := |accepted| - 1;
      var i := accepted[n];
      PackLog(rows, accepted[..n]) + if i < |rows| && IsPurchase(rows[i]) then [i] else []
  }

  lemma {:induction false} PackLogMembers(rows: seq<Outbox.Row>, accepted: seq<nat>)
    ensures forall i :: i in PackLog(rows, accepted) <==> i in accepted && i < |rows| && IsPurchase(rows[i])
  {
    if accepted != [] {
      var n := |accepted| - 1;
      PackLogMembers(rows, accepted[..n]);
      assert accepted == accepted[..n] + [accepted[n]];
    }
  }

  predicate Payable(e: Envelope) { e.account.Some? && AsInt(e.credits).Some? }

  function GrantFor(e: Envelope): Entry
    requires Payable(e)
  {
    PackRow(e.account.value, AsInt(e.credits).value, e.intent)
  }

  // ---------- the invariant ----------

  /** Purchases come from pack checkouts whose webhook has committed, at most one row per webhook. */
  ghost predicate FromWebhooks(world: World, rows: seq<Outbox.Row>, effects: seq<string>) {
    && (forall k :: k in effects ==> k in world.hooks)
    && (forall i :: 0 <= i < |rows| && IsPurchase(rows[i]) ==> FromPack(world, rows, i))
    && (forall i :: 0 <= i < |rows| && rows[i].origin.Some? ==> rows[i].origin.value in effects)
    && (forall i, j :: 0 <= i < j < |rows| && rows[i].origin.Some? ==> rows[i].origin != rows[j].origin)
    && (forall k :: k in effects && IsPack(world.hooks[k]) ==> HasPurchase(rows, k))
  }

  predicate FromPack(world: World, rows: seq<Outbox.Row>, i: nat)
    requires i < |rows|
  {
    && rows[i].origin.Some? && rows[i].origin.value in world.hooks
    && IsPack(world.hooks[rows[i].origin.value])
    && rows[i].envelope == PackEnvelope(world.hooks[rows[i].origin.value]).(id := i)
  }

  ghost predicate HasPurchase(rows: seq<Outbox.Row>, k: string) {
    exists i :: 0 <= i < |rows| && rows[i].origin == Some(k) && IsPurchase(rows[i])
  }

  /** Every accepted id is processed under its own type; any other processed id is a usage reference. */
  ghost predicate AcceptedOnce(rows: seq<Outbox.Row>, accepted: seq<nat>, processed: map<Uuid, EventType>) {
    && Inbox.Distinct(accepted)
    && (forall i :: i in accepted ==> i < |rows| && i in processed && processed[i] == rows[i].envelope.kind)
    && (forall id :: id in processed ==> processed[id] == CreditsConsumed || id in accepted)
    && (forall i :: i in accepted && IsPurchase(rows[i]) ==> Payable(rows[i].envelope))
  }

  /** The credit-pack grants of the ledger are those of the accepted purchases, in order. */
  ghost predicate LedgerMatches(rows: seq<Outbox.Row>, accepted: seq<nat>, ledger: seq<Entry>) {
    GrantsFollow(rows, PackLog(rows, accepted), Rows(ledger, PACK_GRANTS))
  }

  predicate GrantsFollow(rows: seq<Outbox.Row>, log: seq<nat>, grants: seq<Entry>) {
    && |grants| == |log|
    && forall k :: 0 <= k < |log| ==>
         log[k] < |rows| && Payable(rows[log[k]].envelope) && grants[k] == GrantFor(rows[log[k]].envelope)
  }

  ghost predicate GrantInv(world: World, s: State) {
    && Sound(s)
    && FromWebhooks(world, s.outbox.rows, s.inbox.effects)
    && AcceptedOnce(s.outbox.rows, s.accepted, s.db.processed)
    && LedgerMatches(s.outbox.rows, s.accepted, s.db.ledger)
  }

  // ---------- one step ----------

  predicate SameRows(rows: seq<Outbox.Row>, rows': seq<Outbox.Row>) {
    && |rows| <= |rows'|
    && forall i :: 0 <= i < |rows| ==> rows'[i].envelope == rows[i].envelope && rows'[i].origin == rows[i].origin
  }

  lemma {:induction false} PackLogSame(rows: seq<Outbox.Row>, rows': seq<Outbox.Row>, accepted: seq<nat>)
    requires SameRows(rows, rows') && forall i :: i in accepted ==> i < |rows|
    ensures PackLog(rows', accepted) == PackLog(rows, accepted)
  {
    if accepted != [] {
      var n := |accepted| - 1;
      assert accepted[n] in accepted && forall i :: i in accepted[..n] ==> i in accepted;
      PackLogSame(rows, rows', accepted[..n]);
      var i := accepted[n];
      assert PackLog(rows, accepted) == PackLog(rows, accepted[..n]) + if IsPurchase(rows[i]) then [i] else [];
      assert PackLog(rows', accepted) == PackLog(rows', accepted[..n]) + if IsPurchase(rows'[i]) then [i] else [];
    }
  }

  lemma RowsExtend(rows: seq<Outbox.Row>, rows': seq<Outbox.Row>, accepted: seq<nat>, db: Db)
    requires SameRows(rows, rows') && AcceptedOnce(rows, accepted, db.processed)
        && LedgerMatches(rows, accepted, db.ledger)
    ensures AcceptedOnce(rows', accepted, db.processed) && LedgerMatches(rows', accepted, db.ledger)
  {
    PackLogSame(rows, rows', accepted);
    forall k | 0 <= k < |PackLog(rows, accepted)| ensures PackLog(rows, accepted)[k] < |rows| {
      assert PackLog(rows, accepted)[k] in PackLog(rows, accepted);
    }
  }

  lemma InboxKeepsGrants(world: World, s: State, step: Inbox.Step, began: int)
    requires GrantInv(world, s)
    ensures GrantInv(world, NextInbox(world, s, step, began))
  {
    StepKeepsSound(world, s, InboxStep(step, began));
    var commit := Inbox.Committing(s.inbox, step);
    if commit.None? {
      Inbox.StepKeepsInv(s.inbox, step);
    } else if commit.value in world.hooks {
      if ApplyWebhook(s.billing, world.hooks[commit.value]).Ok? {
        WebhookKeepsGrants(world, s, step, commit.value, began);
      } else {
        Inbox.StepKeepsInv(s.inbox, step.(fails := true));
      }
    }
  }

  lemma WebhookKeepsGrants(world: World, s: State, step: Inbox.Step, id: string, began: int)
    requires GrantInv(world, s) && Sound(NextInbox(world, s, step, began))
    requires Inbox.Committing(s.inbox, step) == Some(id) && id in world.hooks
        && ApplyWebhook(s.billing, world.hooks[id]).Ok?
    ensures GrantInv(world, NextInbox(world, s, step, began))
  {
    var t := NextInbox(world, s, step, began);
    Inbox.StepKeepsInv(s.inbox, step);
    RowsExtend(s.outbox.rows, t.outbox.rows, s.accepted, s.db);
    WebhookKeepsOrigins(world, s, t, id, began);
  }

  lemma WebhookKeepsOrigins(world: World, s: State, t: State, id: string, began: int)
    requires FromWebhooks(world, s.outbox.rows, s.inbox.effects) && id in world.hooks && id !in s.inbox.effects
    requires ApplyWebhook(s.billing, world.hooks[id]).Ok? && t.inbox.effects == s.inbox.effects + [id]
    requires var row := ApplyWebhook(s.billing, world.hooks[id]).value.row;
             t.outbox.rows == s.outbox.rows + if row.None? then [] else
               [NewRow(row.value.(id := |s.outbox.rows|), Some(id), began)]
    ensures FromWebhooks(world, t.outbox.rows, t.inbox.effects)
  {
    var rows, rows' := s.outbox.rows, t.outbox.rows;
    OnlyPacksWritePurchases(s.billing, world.hooks[id]);
    forall i | 0 <= i < |rows'| && IsPurchase(rows'[i]) ensures FromPack(world, rows', i) {
      if i < |rows| {
        assert FromPack(world, rows, i);
      }
    }
    forall k | k in t.inbox.effects && IsPack(world.hooks[k]) ensures HasPurchase(rows', k) {
      if k == id {
        assert rows'[|rows|].origin == Some(k);
      } else {
        PurchaseSurvives(rows, rows', k);
      }
    }
  }

  lemma PurchaseSurvives(rows: seq<Outbox.Row>, rows': seq<Outbox.Row>, k: string)
    requires SameRows(rows, rows') && HasPurchase(rows, k)
    ensures HasPurchase(rows', k)
  {
    var i :| 0 <= i < |rows| && rows[i].origin == Some(k) && IsPurchase(rows[i]);
    assert rows'[i].origin == Some(k);
  }

  /** Outbox steps other than a webhook's append keep origins: they mark rows, or append one without an origin. */
  lemma OriginsKept(world: World, rows: seq<Outbox.Row>, rows': seq<Outbox.Row>, effects: seq<string>)
    requires FromWebhooks(world, rows, effects) && SameRows(rows, rows')
    requires forall i :: |rows| <= i < |rows'| ==> rows'[i].origin.None? && !IsPurchase(rows'[i])
    ensures FromWebhooks(world, rows', effects)
  {
    forall i | 0 <= i < |rows'| && IsPurchase(rows'[i]) ensures FromPack(world, rows', i) {
      assert FromPack(world, rows, i);
    }
    forall k | k in effects && IsPack(world.hooks[k]) ensures HasPurchase(rows', k) {
      PurchaseSurvives(rows, rows', k);
    }
  }

  lemma RowsChangeKeepsGrants(world: World, s: State, t: State)
    requires GrantInv(world, s) && Sound(t)
    requires t.inbox == s.inbox && t.db == s.db && t.accepted == s.accepted && s.routed <= t.routed
        && SameRows(s.outbox.rows, t.outbox.rows)
    requires forall i :: |s.outbox.rows| <= i < |t.outbox.rows| ==>
               t.outbox.rows[i].origin.None? && !IsPurchase(t.outbox.rows[i])
    ensures GrantInv(world, t)
  {
    RowsExtend(s.outbox.rows, t.outbox.rows, s.accepted, s.db);
    OriginsKept(world, s.outbox.rows, t.outbox.rows, s.inbox.effects);
  }

  lemma OutboxRows(s: Outbox.State, step: Outbox.Step)
    requires Outbox.Inv(s)
    ensures SameRows(s.rows, Outbox.Next(s, step).rows)
    ensures !step.Append? ==> |Outbox.Next(s, step).rows| == |s.rows|
    ensures step.Append? ==>
              && |Outbox.Next(s, step).rows| == |s.rows| + 1
              && Outbox.Next(s, step).rows[..|s.rows|] == s.rows
  {
    Outbox.StepKeepsInv(s, step);
  }

  lemma OutboxKeepsGrants(world: World, s: State, step: Outbox.Step)
    requires GrantInv(world, s) && !step.Append?
    ensures GrantInv(world, NextOutbox(s, step))
  {
    OutboxKeepsSound(s, step);
    OutboxRows(s.outbox, step);
    RowsChangeKeepsGrants(world, s, NextOutbox(s, step));
  }

  lemma BillingWriteKeepsGrants(world: World, s: State, e: Envelope, began: int)
    requires GrantInv(world, s) && e.kind != CreditsPurchased
    ensures GrantInv(world, s.(outbox := Outbox.Next(s.outbox, Outbox.Append(NewRow(e, None, began)))))
  {
    var row := NewRow(e, None, began);
    AppendKeepsSound(s, row, s.inbox, s.billing);
    OutboxRows(s.outbox, Outbox.Append(row));
    RowsChangeKeepsGrants(world, s, s.(outbox := Outbox.Next(s.outbox, Outbox.Append(row))));
  }

  /** Consuming an unseen event appends the grant of a purchase, and no other credit-pack grant. */
  lemma ConsumeAppends(db: Db, grants: Grants, e: Envelope)
    requires Consume(db, grants, e).result.Ok? && e.id !in db.processed
    ensures var rows := Rows(Consume(db, grants, e).db.ledger, PACK_GRANTS);
            if e.kind == CreditsPurchased && AsInt(e.credits).value > 0
            then Payable(e) && rows == Rows(db.ledger, PACK_GRANTS) + [GrantFor(e)]
            else rows == Rows(db.ledger, PACK_GRANTS)
  {
    var row := EntryFor(db, grants, e).value;
    if row.Some? {
      RowsAppend(db.ledger, [row.value], PACK_GRANTS);
      assert [row.value][..0] == [];
      assert Rows([row.value], PACK_GRANTS) == if Selects(PACK_GRANTS, row.value) then [row.value] else [];
    } else {
      assert db.ledger + [] == db.ledger;
    }
  }

  lemma HandleKeepsGrants(world: World, s: State, consumer: nat, fails: bool)
    requires GrantInv(world, s)
    ensures GrantInv(world, NextHandle(world, s, consumer, fails))
  {
    var t := NextHandle(world, s, consumer, fails);
    HandleKeepsSound(world, s, consumer, fails);
    if t.accepted != s.accepted {
      var e := s.queue.inflight[consumer].message.envelope;
      assert Genuine(s.outbox.rows, s.routed, s.queue.inflight[consumer].message);
      assert IsPurchase(s.outbox.rows[e.id]) ==> FromPack(world, s.outbox.rows, e.id);
      AcceptKeepsGrants(s.outbox.rows, s.accepted, s.db, world.grants, e);
    }
  }

  lemma PackLogPush(rows: seq<Outbox.Row>, accepted: seq<nat>, i: nat)
    ensures PackLog(rows, accepted + [i]) ==
            if i < |rows| && IsPurchase(rows[i]) then PackLog(rows, accepted) + [i] else PackLog(rows, accepted)
  {
    assert (accepted + [i])[..|accepted|] == accepted;
  }

  lemma AcceptKeepsOnce(rows: seq<Outbox.Row>, accepted: seq<nat>, db: Db, grants: Grants, e: Envelope)
    requires AcceptedOnce(rows, accepted, db.processed) && Consume(db, grants, e).result.Ok?
    requires e.id < |rows| && rows[e.id].envelope == e && e.id !in db.processed
    requires IsPurchase(rows[e.id]) ==> e.credits.Number? && e.credits.value > 0
    ensures AcceptedOnce(rows, accepted + [e.id], Consume(db, grants, e).db.processed)
  {
    assert Consume(db, grants, e).db.processed == db.processed[e.id := e.kind];
    ConsumeAppends(db, grants, e);
  }

  lemma FollowPush(rows: seq<Outbox.Row>, log: seq<nat>, grants: seq<Entry>, i: nat)
    requires GrantsFollow(rows, log, grants) && i < |rows| && Payable(rows[i].envelope)
    ensures GrantsFollow(rows, log + [i], grants + [GrantFor(rows[i].envelope)])
  {}

  lemma AcceptKeepsMatch(rows: seq<Outbox.Row>, accepted: seq<nat>, db: Db, grants: Grants, e: Envelope)
    requires LedgerMatches(rows, accepted, db.ledger) && Consume(db, grants, e).result.Ok?
    requires e.id < |rows| && rows[e.id].envelope == e && e.id !in db.processed
    requires IsPurchase(rows[e.id]) ==> e.credits.Number? && e.credits.value > 0
    ensures LedgerMatches(rows, accepted + [e.id], Consume(db, grants, e).db.ledger)
  {
    hide GrantsFollow, Rows, PackLog, Consume, GrantFor, Payable;
    ConsumeAppends(db, grants, e);
    PackLogPush(rows, accepted, e.id);
    if IsPurchase(rows[e.id]) {
      FollowPush(rows, PackLog(rows, accepted), Rows(db.ledger, PACK_GRANTS), e.id);
    }
  }

  lemma AcceptKeepsGrants(rows: seq<Outbox.Row>, accepted: seq<nat>, db: Db, grants: Grants, e: Envelope)
    requires AcceptedOnce(rows, accepted, db.processed) && LedgerMatches(rows, accepted, db.ledger)
    requires e.id < |rows| && rows[e.id].envelope == e && e.id !in db.processed
    requires Consume(db, grants, e).result.Ok?
    requires IsPurchase(rows[e.id]) ==> e.credits.Number? && e.credits.value > 0
    ensures AcceptedOnce(rows, accepted + [e.id], Consume(db, grants, e).db.processed)
    ensures LedgerMatches(rows, accepted + [e.id], Consume(db, grants, e).db.ledger)
  {
    hide *;
    AcceptKeepsOnce(rows, accepted, db, grants, e);
    AcceptKeepsMatch(rows, accepted, db, grants, e);
  }

  /** Requests to credits-service never touch credit-pack grants. */
  lemma LocalKeepsPackGrants(db: Db, grants: Grants, cmd: Cmd, now: int)
    requires !cmd.DoEvent?
    ensures Rows(Apply(db, grants, cmd, now).ledger, PACK_GRANTS) == Rows(db.ledger, PACK_GRANTS)
    ensures var after := Apply(db, grants, cmd, now).processed;
            forall id :: id in after ==> if id in db.processed then after[id] == db.processed[id]
                else after[id] == CreditsConsumed
  {
    match cmd
    case DoConsumeCredits(account, user, amount, reference) =>
      var row := Entry(account, Usage, -(amount as int), UsageRef, OfUuid(reference), None, Some(user));
      RowsAppend(db.ledger, [row], PACK_GRANTS);
      assert [row][..0] == [];
    case DoComplete(id, buyer, user, intent) =>
      if Apply(db, grants, cmd, now) != db {
        var l := db.listings[id];
        RowsAppend(db.ledger, [BuyerRow(l, buyer, user, intent), SellerRow(l, buyer, user, intent)], PACK_GRANTS);
        PairRows(BuyerRow(l, buyer, user, intent), SellerRow(l, buyer, user, intent), PACK_GRANTS);
      }
    case _ =>
  }

  lemma LocalKeepsGrants(world: World, s: State, cmd: Cmd, now: int)
    requires GrantInv(world, s) && !cmd.DoEvent?
    ensures GrantInv(world, Next(world, s, Local(cmd, now)))
  {
    StepKeepsSound(world, s, Local(cmd, now));
    LocalKeepsPackGrants(s.db, world.grants, cmd, now);
    ProcessedGrows(s.db, world.grants, cmd, now);
  }

  lemma BindKeepsGrants(world: World, s: State, kind: EventType)
    requires GrantInv(world, s)
    ensures GrantInv(world, Next(world, s, Bind(kind)))
  {
    if kind in SUBSCRIBED { BindKeepsSound(s, kind); }
    hide Sound;
  }

  lemma QueueStepKeepsGrants(world: World, s: State, step: Step)
    requires GrantInv(world, s) && QueueStep(step)
    ensures GrantInv(world, Next(world, s, step))
  {
    QueueStepKeepsSound(world, s, step);
    OnlyTheQueueMoves(world, s, step);
    hide Next, Sound, FromWebhooks, AcceptedOnce, LedgerMatches;
  }

  lemma OnlyTheQueueMoves(world: World, s: State, step: Step)
    requires QueueStep(step)
    ensures Next(world, s, step) == s.(queue := Next(world, s, step).queue)
  {}

  lemma StepKeepsGrants(world: World, s: State, step: Step)
    requires GrantInv(world, s)
    ensures GrantInv(world, Next(world, s, step))
  {
    hide GrantInv, Sound, NextInbox, NextOutbox, NextHandle, Returned, Apply, Outbox.Next;
    hide AtBroker, Genuine, AllGenuine, Routed, NothingLost, Outbox.Inv, Inbox.Inv;
    hide FromWebhooks, AcceptedOnce, LedgerMatches;
    match step
    case InboxStep(inbox, began) => InboxKeepsGrants(world, s, inbox, began);
    case BillingWrite(e, began) => if e.kind != CreditsPurchased { BillingWriteKeepsGrants(world, s, e, began); }
    case OutboxStep(outbox) => if !outbox.Append? { OutboxKeepsGrants(world, s, outbox); }
    case Handle(consumer, fails) => HandleKeepsGrants(world, s, consumer, fails);
    case Local(cmd, now) => if !cmd.DoEvent? { LocalKeepsGrants(world, s, cmd, now); }
    case Bind(kind) => BindKeepsGrants(world, s, kind);
    case _ => QueueStepKeepsGrants(world, s, step);
  }

  lemma {:induction false} RunKeepsGrants(world: World, billing: Billing, steps: seq<Step>)
    ensures GrantInv(world, RunAll(world, Init(billing), steps))
  {
    if steps != [] {
      var n := |steps| - 1;
      RunKeepsGrants(world, billing, steps[..n]);
      StepKeepsGrants(world, RunAll(world, Init(billing), steps[..n]), steps[n]);
    }
  }

  // ---------- the theorems ----------

  /** The webhooks behind the credit-pack grants of the ledger, grant by grant. */
  function Origins(s: State): (origins: seq<Option<string>>) {
    var log := PackLog(s.outbox.rows, s.accepted);
    assert forall k :: 0 <= k < |log| ==> log[k] in log;
    seq(|log|, k requires 0 <= k < |log| => s.outbox.rows[log[k]].origin)
  }

  lemma {:induction false} PackLogDistinct(rows: seq<Outbox.Row>, accepted: seq<nat>)
    requires Inbox.Distinct(accepted)
    ensures Inbox.Distinct(PackLog(rows, accepted))
  {
    if accepted != [] {
      var n := |accepted| - 1;
      PackLogDistinct(rows, accepted[..n]);
      PackLogMembers(rows, accepted[..n]);
      assert accepted[n] !in accepted[..n];
      var log := PackLog(rows, accepted[..n]);
      assert forall k :: 0 <= k < |log| ==> log[k] in log;
    }
  }

  /** The facts behind one grant: its outbox row is a processed pack checkout's. */
  lemma GrantFromPack(world: World, s: State, k: nat)
    requires GrantInv(world, s) && k < |PackLog(s.outbox.rows, s.accepted)|
    ensures var i := PackLog(s.outbox.rows, s.accepted)[k];
            && i < |s.outbox.rows| && s.outbox.rows[i].origin.Some?
            && var origin := s.outbox.rows[i].origin.value;
               && origin in world.hooks && origin in s.inbox.rows && s.inbox.rows[origin]
               && var h := world.hooks[origin];
                  IsPack(h) && h.account.AccountId?
                    && GrantFor(s.outbox.rows[i].envelope) == PackRow(h.account.id, h.credits.value, h.intent)
  {
    var rows, log := s.outbox.rows, PackLog(s.outbox.rows, s.accepted);
    PackLogMembers(rows, s.accepted);
    assert log[k] in log;
    assert FromPack(world, rows, log[k]);
    assert rows[log[k]].origin.value in s.inbox.effects;
  }

  /**
   End to end, exactly once in effect: in every run, with redelivered webhooks, crashes, republished batches and
   a broker that duplicates and reorders, each credit-pack grant in the ledger comes from its own processed
   checkout webhook and grants the credits of that webhook's metadata to its account.
   */
  lemma EachPackGrantedAtMostOnce(world: World, billing: Billing, steps: seq<Step>)
    ensures var s := RunAll(world, Init(billing), steps);
            var packs, origins := Rows(s.db.ledger, PACK_GRANTS), Origins(s);
            && |origins| == |packs|
            && Inbox.Distinct(origins)
            && (forall k :: 0 <= k < |packs| ==>
                  && origins[k].Some? && origins[k].value in world.hooks
                  && origins[k].value in s.inbox.rows && s.inbox.rows[origins[k].value]
                  && var h := world.hooks[origins[k].value];
                     && IsPack(h) && h.account.AccountId?
                     && packs[k] == PackRow(h.account.id, h.credits.value, h.intent)
                     && packs[k].account == h.account.id && packs[k].amount == h.credits.value > 0)
  {
    RunKeepsGrants(world, billing, steps);
    var s := RunAll(world, Init(billing), steps);
    var rows, log := s.outbox.rows, PackLog(s.outbox.rows, s.accepted);
    PackLogDistinct(rows, s.accepted);
    var packs, origins := Rows(s.db.ledger, PACK_GRANTS), Origins(s);
    forall k | 0 <= k < |packs|
      ensures && origins[k].Some? && origins[k].value in world.hooks
              && origins[k].value in s.inbox.rows && s.inbox.rows[origins[k].value]
              && var h := world.hooks[origins[k].value];
                 && IsPack(h) && h.account.AccountId? && packs[k] == PackRow(h.account.id, h.credits.value, h.intent)
                 && packs[k].account == h.account.id && packs[k].amount == h.credits.value > 0
    {
      GrantFromPack(world, s, k);
    }
  }

  /** Every outbox row has been published, and the broker holds nothing. */
  predicate Quiescent(s: State) {
    && (forall i :: 0 <= i < |s.outbox.rows| ==> s.outbox.rows[i].published)
    && s.queue == Queue([], map[], [])
  }

  /** The outbox row in which a webhook's purchase was written. */
  predicate PurchaseRow(s: State, k: string, i: nat) {
    i < |s.outbox.rows| && s.outbox.rows[i].origin == Some(k) && IsPurchase(s.outbox.rows[i])
  }

  /** A webhook's grant is in the ledger exactly when its purchase row was accepted. */
  lemma GrantedWhenAccepted(world: World, s: State, k: string, i: nat)
    requires GrantInv(world, s) && PurchaseRow(s, k, i)
    ensures Some(k) in Origins(s) <==> i in s.accepted
  {
    var rows, log := s.outbox.rows, PackLog(s.outbox.rows, s.accepted);
    PackLogMembers(rows, s.accepted);
    if Some(k) in Origins(s) {
      var g :| 0 <= g < |log| && Origins(s)[g] == Some(k);
      assert log[g] in log && rows[log[g]].origin == Some(k);
      assert log[g] == i;
    }
    if i in s.accepted {
      assert i in log;
      var g :| 0 <= g < |log| && log[g] == i;
      assert Origins(s)[g] == Some(k);
    }
  }

  /**
   At rest, with nothing dead-lettered, every processed pack checkout has one purchase row, which has been seen by
   credits-service if the broker ever routed it; its grant is in the ledger exactly when it was routed and its id had
   not been seen before as a usage reference.
   */
  lemma EachPackGrantedAtRestExactly(world: World, billing: Billing, steps: seq<Step>, k: string) returns (i: nat)
    requires var s := RunAll(world, Init(billing), steps);
             && Quiescent(s)
             && k in s.inbox.rows && s.inbox.rows[k] && k in world.hooks && IsPack(world.hooks[k])
    ensures var s := RunAll(world, Init(billing), steps);
            && PurchaseRow(s, k, i) && (forall j: nat :: PurchaseRow(s, k, j) ==> j == i)
            && (i in s.routed ==> i in s.db.processed)
            && (Some(k) in Origins(s) <==> i in s.routed && s.db.processed[i] != CreditsConsumed)
  {
    RunKeepsGrants(world, billing, steps);
    hide RunAll, GrantInv, Quiescent, PurchaseRow, IsPack, Origins;
    i := AtRest(world, RunAll(world, Init(billing), steps), k);
  }

  lemma AtRest(world: World, s: State, k: string) returns (i: nat)
    requires GrantInv(world, s) && Quiescent(s)
    requires k in s.inbox.rows && s.inbox.rows[k] && k in world.hooks && IsPack(world.hooks[k])
    ensures PurchaseRow(s, k, i) && (forall j: nat :: PurchaseRow(s, k, j) ==> j == i)
    ensures i in s.routed ==> i in s.db.processed
    ensures Some(k) in Origins(s) <==> i in s.routed && s.db.processed[i] != CreditsConsumed
  {
    assert HasPurchase(s.outbox.rows, k) by { assert k in s.inbox.effects; }
    i :| 0 <= i < |s.outbox.rows| && s.outbox.rows[i].origin == Some(k) && IsPurchase(s.outbox.rows[i]);
    assert !AtBroker(s.queue, i);
    GrantedWhenAccepted(world, s, k, i);
    hide Origins, FromPack, LedgerMatches;
  }

  /** Usage and events share one idempotency table: a charge made under an unseen event's id swallows that event. */
  lemma ReferenceShadowsEvent(db: Db, grants: Grants, account: Uuid, user: Uuid, amount: pos, e: Envelope)
    requires e.id !in db.processed
    ensures var charge := ConsumeCredits(db, account, user, amount, e.id);
            charge.result.Ok? ==>
              |charge.db.ledger| == |db.ledger| + 1 && Consume(charge.db, grants, e) == Outcome(charge.db, Ok(()))
  {}
}
