/** The tables of credits-service while the pipeline runs: what holds of runs of the service holds here. */
module PipelineCredits {
  import opened Prelude
  import opened Ledger
  import opened Credits
  import opened Webhooks
  import opened Pipeline
  import opened TradeProofs
  import opened LedgerProofs
  import opened CoverProofs
  import opened GrantProofs
  import opened PipelineProofs
  import opened PipelineGrants
  import Inbox
  import Outbox

  /** The operation of credits-service that a step runs, if it changes the tables; a delivery reads no clock. */
  function CreditsStep(world: World, s: State, step: Step, clock: int): Option<Timed> {
    if Next(world, s, step).db == s.db then None
    else if step.Local? then Some(Timed(step.now, step.cmd))
    else if step.Handle? && step.consumer in s.queue.inflight then
      Some(Timed(clock, DoEvent(s.queue.inflight[step.consumer].message.envelope)))
    else None
  }

  lemma StepIsACreditsStep(world: World, s: State, step: Step, clock: int)
    ensures Next(world, s, step).db ==
            match CreditsStep(world, s, step, clock)
            case None => s.db
            case Some(t) => Apply(s.db, world.grants, t.cmd, t.now)
  {}

  /** The time of the last request to credits-service. */
  function Clock(steps: seq<Step>, start: int): int {
    if steps == [] then start
    else
      var n := |steps| - 1;
      if steps[n].Local? then steps[n].now else Clock(steps[..n], start)
  }

  /** Requests to credits-service come in the order of their times. */
  predicate RequestsOrdered(steps: seq<Step>, start: int) {
    steps == []
    || (var n := |steps| - 1;
        RequestsOrdered(steps[..n], start) && (steps[n].Local? ==> Clock(steps[..n], start) <= steps[n].now))
  }

  /**
   The pipeline drives credits-service through its own operations only: its tables are those of a run of
   CreditsService, ordered in time if the requests were, so what is proved of such runs (trades, conservation, the
   balance floor, cover) holds here.
   */
  lemma {:induction false} PipelineIsACreditsRun(world: World, billing: Billing, steps: seq<Step>, start: int)
    returns (run: seq<Timed>)
    ensures RunAll(world, Init(billing), steps).db == Credits.Run(EMPTY_DB, world.grants, run)
    ensures RequestsOrdered(steps, start) ==> Ordered(run, start) && EndTime(run, start) <= Clock(steps, start)
  {
    if steps == [] {
      run := [];
    } else {
      var n := |steps| - 1;
      var before, step := RunAll(world, Init(billing), steps[..n]), steps[n];
      run := PipelineIsACreditsRun(world, billing, steps[..n], start);
      var last := CreditsStep(world, before, step, Clock(steps[..n], start));
      StepIsACreditsStep(world, before, step, Clock(steps[..n], start));
      if last.Some? {
        assert (run + [last.value])[..|run|] == run;
        run := run + [last.value];
      }
    }
  }

  /** Sellers are covered after every prefix of the run, at the time of the last request. */
  ghost predicate PipeCovered(world: World, billing: Billing, steps: seq<Step>, start: int) {
    && Covered(RunAll(world, Init(billing), steps).db, Clock(steps, start))
    && (steps != [] ==> PipeCovered(world, billing, steps[..|steps| - 1], start))
  }

  /** The unbacked debit of a pipeline step, if it has one, fits the headroom before it. */
  predicate Fits(world: World, s: State, step: Step, clock: int) {
    var last := CreditsStep(world, s, step, clock);
    last.Some? ==>
      var debit := Unbacked(s.db, world.grants, last.value.cmd, last.value.now);
      debit.1 <= Headroom(s.db, debit.0, last.value.now)
  }

  predicate PipeBacked(world: World, billing: Billing, steps: seq<Step>, start: int) {
    steps == []
    || (var n := |steps| - 1;
        && PipeBacked(world, billing, steps[..n], start)
        && Fits(world, RunAll(world, Init(billing), steps[..n]), steps[n], Clock(steps[..n], start)))
  }

  /** One pipeline step, any: cover is kept to the time of the step exactly when its debit fits. */
  lemma PipeStepKeepsCoverExactly(world: World, s: State, step: Step, clock: int)
    requires Inv(s.db) && Covered(s.db, clock) && (step.Local? ==> clock <= step.now)
    ensures Covered(Next(world, s, step).db, if step.Local? then step.now else clock) <==> Fits(world, s, step, clock)
  {
    var now := if step.Local? then step.now else clock;
    CoveredLater(s.db, clock, now);
    StepIsACreditsStep(world, s, step, clock);
    match CreditsStep(world, s, step, clock)
    case None =>
    case Some(t) => StepKeepsCoverExactly(s.db, world.grants, t.cmd, now);
  }

  /**
   With the pipeline running too, sellers are covered in every state the pipeline passes through exactly when every
   debit, by a request or by a delivery, fitted the headroom of the tables before it.
   */
  lemma {:induction false} PipelineKeepsCoverExactly(world: World, billing: Billing, steps: seq<Step>, start: int)
    requires RequestsOrdered(steps, start)
    ensures PipeCovered(world, billing, steps, start) <==> PipeBacked(world, billing, steps, start)
  {
    if steps != [] {
      var n := |steps| - 1;
      var before := RunAll(world, Init(billing), steps[..n]);
      PipelineKeepsCoverExactly(world, billing, steps[..n], start);
      if PipeCovered(world, billing, steps[..n], start) {
        var run := PipelineIsACreditsRun(world, billing, steps[..n], start);
        RunKeepsTrades(EMPTY_DB, world.grants, run);
        PipeStepKeepsCoverExactly(world, before, steps[n], Clock(steps[..n], start));
      }
    }
  }

  /** Conservation, with the whole pipeline running. */
  lemma PipelineConservesCredits(world: World, billing: Billing, steps: seq<Step>, accounts: set<Uuid>)
    requires forall e :: e in RunAll(world, Init(billing), steps).db.ledger ==> e.account in accounts
    ensures var ledger := RunAll(world, Init(billing), steps).db.ledger;
            && SumOfBalances(accounts, ledger)
               == SumWhere(ledger, OfKind(Grant)) + SumWhere(ledger, OfKind(Usage))
                 + SumWhere(ledger, OfKind(RefundClawback))
            && (forall a :: Balance(ledger, a) >= -ClawedBack(ledger, a))
  {
    var run := PipelineIsACreditsRun(world, billing, steps, 0);
    CreditsAreConserved(world.grants, run, accounts);
    var ledger := Credits.Run(EMPTY_DB, world.grants, run).ledger;
    forall a ensures Balance(ledger, a) >= -ClawedBack(ledger, a) {
      BalanceFloor(world.grants, run, a);
    }
  }

  // ---------- where granted credits come from ----------

  function GrantsTo(a: Uuid): Where { Where(Some(a), Some(Grant), None, None) }

  /** What the events behind these outbox rows are worth to account a. */
  function WorthOf(rows: seq<Outbox.Row>, grants: Grants, accepted: seq<nat>, a: Uuid): int {
    if accepted == [] then 0
    else
      var n := |accepted| - 1;
      WorthOf(rows, grants, accepted[..n], a)
      + if accepted[n] < |rows| then Worth(grants, rows[accepted[n]].envelope, a) else 0
  }

  predicate GrantsAddUp(world: World, s: State, a: Uuid) {
    SumWhere(s.db.ledger, GrantsTo(a)) == WorthOf(s.outbox.rows, world.grants, s.accepted, a)
  }

  lemma {:induction false} WorthStays(
    rows: seq<Outbox.Row>, rows': seq<Outbox.Row>, grants: Grants, accepted: seq<nat>, a: Uuid)
    requires SameRows(rows, rows') && forall i :: i in accepted ==> i < |rows|
    ensures WorthOf(rows', grants, accepted, a) == WorthOf(rows, grants, accepted, a)
  {
    if accepted != [] {
      var n := |accepted| - 1;
      assert accepted[n] in accepted && forall i :: i in accepted[..n] ==> i in accepted;
      WorthStays(rows, rows', grants, accepted[..n], a);
    }
  }

  lemma WorthPush(rows: seq<Outbox.Row>, grants: Grants, accepted: seq<nat>, i: nat, a: Uuid)
    requires i < |rows|
    ensures WorthOf(rows, grants, accepted + [i], a) ==
            WorthOf(rows, grants, accepted, a) + Worth(grants, rows[i].envelope, a)
  {
    assert (accepted + [i])[..|accepted|] == accepted;
  }

  lemma ConsumeGrants(db: Db, grants: Grants, e: Envelope, a: Uuid)
    requires e.id !in db.processed && Consume(db, grants, e).result.Ok?
    ensures SumWhere(Consume(db, grants, e).db.ledger, GrantsTo(a)) ==
            SumWhere(db.ledger, GrantsTo(a)) + Worth(grants, e, a)
  {
    EntryExactly(db, grants, e, a);
    var row := EntryFor(db, grants, e).value;
    hide EntryFor, Refundable;
    if row.Some? {
      SumPush(db.ledger, row.value, GrantsTo(a));
    } else {
      assert db.ledger + [] == db.ledger;
    }
  }

  /** Requests to credits-service grant nothing. */
  lemma LocalGrantsNothing(db: Db, grants: Grants, cmd: Cmd, now: int, a: Uuid)
    requires !cmd.DoEvent?
    ensures SumWhere(Apply(db, grants, cmd, now).ledger, GrantsTo(a)) == SumWhere(db.ledger, GrantsTo(a))
  {
    match cmd
    case DoConsumeCredits(account, user, amount, reference) =>
      var row := Entry(account, Usage, -(amount as int), UsageRef, OfUuid(reference), None, Some(user));
      SumPush(db.ledger, row, GrantsTo(a));
    case DoComplete(id, buyer, user, intent) =>
      if Apply(db, grants, cmd, now) != db {
        var l := db.listings[id];
        var buys, sells := BuyerRow(l, buyer, user, intent), SellerRow(l, buyer, user, intent);
        SumAppend(db.ledger, [buys, sells], GrantsTo(a));
        PairRows(buys, sells, GrantsTo(a));
      }
    case _ =>
  }

  lemma HandleAddsUp(world: World, s: State, consumer: nat, fails: bool, a: Uuid)
    requires GrantInv(world, s) && GrantsAddUp(world, s, a)
    ensures GrantsAddUp(world, NextHandle(world, s, consumer, fails), a)
  {
    var t := NextHandle(world, s, consumer, fails);
    if t.accepted != s.accepted {
      var e := s.queue.inflight[consumer].message.envelope;
      assert Genuine(s.outbox.rows, s.routed, s.queue.inflight[consumer].message);
      hide GrantInv, Worth;
      ConsumeGrants(s.db, world.grants, e, a);
      WorthPush(s.outbox.rows, world.grants, s.accepted, e.id, a);
    }
  }

  /** Steps other than a consumption and a request leave the tables of credits-service and what was accepted. */
  lemma OthersLeaveDb(world: World, s: State, step: Step)
    requires Outbox.Inv(s.outbox) && !step.Handle? && !step.Local?
    ensures var t := Next(world, s, step);
            t.db == s.db && t.accepted == s.accepted && SameRows(s.outbox.rows, t.outbox.rows)
  {
    var sending := StepRoutes(world, s, step);
    hide Outbox.Next, Outbox.Inv, ApplyWebhook, Inbox.Next, Inbox.Committing;
  }

  lemma StepAddsUp(world: World, s: State, step: Step, a: Uuid)
    requires GrantInv(world, s) && GrantsAddUp(world, s, a)
    ensures GrantsAddUp(world, Next(world, s, step), a)
  {
    assert Outbox.Inv(s.outbox) && forall i :: i in s.accepted ==> i < |s.outbox.rows|;
    hide Sound, AtBroker, Genuine, AllGenuine, Routed, NothingLost, Inbox.Inv;
    hide FromWebhooks, AcceptedOnce, LedgerMatches;
    hide GrantInv, Outbox.Inv, NextHandle, Apply;
    match step
    case Handle(consumer, fails) => HandleAddsUp(world, s, consumer, fails, a);
    case Local(cmd, now) => if !cmd.DoEvent? { LocalGrantsNothing(s.db, world.grants, cmd, now, a); }
    case _ =>
      OthersLeaveDb(world, s, step);
      hide Next;
      WorthStays(s.outbox.rows, Next(world, s, step).outbox.rows, world.grants, s.accepted, a);
  }

  /**
   In every run of the pipeline the credits ever granted to an account are what the accepted outbox rows are worth to
   it, each accepted once: plan credits for paid invoices, bought credits for checkouts, and nothing else.
   */
  lemma {:induction false} GrantsAreAcceptedWorth(world: World, billing: Billing, steps: seq<Step>, a: Uuid)
    ensures var s := RunAll(world, Init(billing), steps);
            && SumWhere(s.db.ledger, GrantsTo(a)) == WorthOf(s.outbox.rows, world.grants, s.accepted, a)
            && Inbox.Distinct(s.accepted) && forall i :: i in s.accepted ==> i < |s.outbox.rows| && i in s.routed
  {
    if steps != [] {
      var n := |steps| - 1;
      GrantsAreAcceptedWorth(world, billing, steps[..n], a);
      RunKeepsGrants(world, billing, steps[..n]);
      StepAddsUp(world, RunAll(world, Init(billing), steps[..n]), steps[n], a);
    }
    RunKeepsGrants(world, billing, steps);
  }
}
