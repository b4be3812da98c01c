/** What runs of the outbox leave on its rows, and a run in which commits and created_at disagree. */
module OutboxRuns {
  import opened Prelude
  import Credits
  import opened Outbox

  predicate AttemptsFit(row: Row) { if row.published then row.attempts == 1 else row.attempts == 0 }

  predicate AllFit(rows: seq<Row>) { forall i :: 0 <= i < |rows| ==> AttemptsFit(rows[i]) }

  lemma MarksFit(rows: seq<Row>, picked: seq<nat>)
    requires AllFit(rows) && forall i :: i in picked ==> i < |rows| && !rows[i].published
    ensures AllFit(Marked(rows, picked))
  {}

  lemma CommitFits(s: State, p: nat)
    requires Inv(s) && AllFit(s.rows)
    ensures AllFit(Next(s, Commit(p)).rows)
  {
    if p in s.batches && s.batches[p].done == |s.batches[p].picked| {
      assert BatchOk(s.rows, s.sent, s.batches[p]);
      MarksFit(s.rows, s.batches[p].picked);
    }
  }

  /** In every run a row counts one attempt once it is marked, and none before: failed batches leave no trace. */
  lemma {:induction false} AttemptsCountMarks(steps: seq<Step>)
    ensures AllFit(Run(INIT, steps).rows)
  {
    if steps != [] {
      var s, step := Run(INIT, steps[..|steps| - 1]), steps[|steps| - 1];
      AttemptsCountMarks(steps[..|steps| - 1]);
      MarkedRowsWereSent(steps[..|steps| - 1]);
      hide Inv, Pick, Marked;
      if step.Commit? { CommitFits(s, step.p); }
    }
  }

  // ---------- a late row ----------

  function NewRow(e: Credits.Envelope, createdAt: int): Row { Row(e, None, createdAt, false, 0) }

  lemma RunPush(s: State, steps: seq<Step>, step: Step)
    ensures Run(s, steps + [step]) == Next(Run(s, steps), step)
  {
    assert (steps + [step])[..|steps|] == steps;
  }

  lemma OneRowPublished(e: Credits.Envelope, createdAt: int)
    ensures Run(INIT, [Append(NewRow(e, createdAt)), Begin(0), Send(0), Commit(0)]) ==
            State([MarkRow(NewRow(e.(id := 0), createdAt))], map[], [0])
  {
    var row := NewRow(e.(id := 0), createdAt);
    var one := State([] + [row], map[], []);
    PublishesTheLast(one, [], row);
    assert Next(INIT, Append(NewRow(e, createdAt))) == one;
    assert [Append(NewRow(e, createdAt)), Begin(0), Send(0), Commit(0)] ==
           [] + [Append(NewRow(e, createdAt))] + [Begin(0)] + [Send(0)] + [Commit(0)];
    RunPush(INIT, [], Append(NewRow(e, createdAt)));
    RunPush(INIT, [] + [Append(NewRow(e, createdAt))], Begin(0));
    RunPush(INIT, [] + [Append(NewRow(e, createdAt))] + [Begin(0)], Send(0));
    RunPush(INIT, [] + [Append(NewRow(e, createdAt))] + [Begin(0)] + [Send(0)], Commit(0));
  }

  lemma LateRun(e: Credits.Envelope, early: int, late: int)
    ensures Run(INIT, [Append(NewRow(e, late)), Begin(0), Send(0), Commit(0)]
                      + [Append(NewRow(e, early)), Begin(0), Send(0)]) ==
            State([MarkRow(NewRow(e.(id := 0), late)), NewRow(e.(id := 1), early)], map[0 := Batch([1], 1)], [0, 1])
  {
    var first, append := [Append(NewRow(e, late)), Begin(0), Send(0), Commit(0)], Append(NewRow(e, early));
    var r0, r1 := MarkRow(NewRow(e.(id := 0), late)), NewRow(e.(id := 1), early);
    OneRowPublished(e, late);
    var two := State([r0] + [r1], map[], [0]);
    assert Next(State([r0], map[], [0]), append) == two;
    PublishesTheLast(two, [r0], r1);
    hide Run, Next, Pick;
    RunPush(INIT, first, append);
    RunPush(INIT, first + [append], Begin(0));
    RunPush(INIT, first + [append] + [Begin(0)], Send(0));
    assert first + [append, Begin(0), Send(0)] == first + [append] + [Begin(0)] + [Send(0)];
    assert [r0] + [r1] == [r0, r1] && [0] + [1] == [0, 1];
  }

  /**
   Two overlapping transactions: the one that began later commits first, and its row is published before the other
   commits.  The earlier row is then sent second, although its created_at is lower.
   */
  lemma LateRowIsOvertaken(e: Credits.Envelope, early: int, late: int)
    requires early < late
    ensures var steps := [Append(NewRow(e, late)), Begin(0), Send(0), Commit(0)]
                         + [Append(NewRow(e, early)), Begin(0), Send(0)];
            var s := Run(INIT, steps);
            && !AllInTime(steps) && FirstSends(s.sent) == [0, 1] && Before(s.rows, 1, 0)
  {
    hide Run, Next, InTime, AllInTime, SentIsPrefix, MarkedIsPrefix, BatchContinues;
    LateRun(e, early, late);
    FirstSendsPush([0], 1);
    FirstSendsPush([], 0);
    assert [] + [0] == [0] && [0] + [1] == [0, 1];
    var steps := [Append(NewRow(e, late)), Begin(0), Send(0), Commit(0)]
                 + [Append(NewRow(e, early)), Begin(0), Send(0)];
    FirstPublicationsKeepOrderExactly(steps, 0);
    assert !Ascending(Run(INIT, steps).rows, [0, 1]) by { assert [0, 1][0] == 0 && [0, 1][1] == 1; }
  }
}
