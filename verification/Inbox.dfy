/**
 The webhook inbox of billing-service: two transactions per delivery, a unique key on the provider event
 id, and a row lock held by the second transaction.  Any number of workers interleave, and any of them
 may stop between any two of its database statements.
 */
module Inbox {
  import opened Prelude

  type ProviderId = string

  /** Where a worker is in handle_gateway_event. */
  datatype Worker =
    | Received(id: ProviderId)              // before the first SELECT
    | Looked(id: ProviderId, found: bool)   // the first SELECT has answered
    | Recorded(id: ProviderId)              // the first transaction is over
    | Holding(id: ProviderId)               // the second one holds the row lock and read processed == false

  /**
   rows maps a stored provider event id to its processed flag; effects is the history of committed
   webhook effects, kept to state what has happened.
   */
  datatype State = State(rows: map<ProviderId, bool>, workers: map<nat, Worker>, effects: seq<ProviderId>)

  const INIT := State(map[], map[], [])

  datatype Step =
    | Receive(w: nat, id: ProviderId)
    | Look(w: nat)
    | Insert(w: nat)              // commit of the first transaction, or its IntegrityError
    | Lock(w: nat)
    | Apply(w: nat, fails: bool)  // the webhook effect, then commit; a failure rolls back
    | Crash(w: nat)

  predicate Locked(s: State, id: ProviderId) {
    exists w :: w in s.workers && s.workers[w] == Holding(id)
  }

  /** The id whose effect commits with this step. */
  function Committing(s: State, step: Step): Option<ProviderId> {
    if step.Apply? && step.w in s.workers && s.workers[step.w].Holding? && !step.fails
    then Some(s.workers[step.w].id) else None
  }

  function Without(workers: map<nat, Worker>, w: nat): map<nat, Worker> { workers - {w} }

  /** A step that is not enabled changes nothing. */
  function Next(s: State, step: Step): State {
    match step
    case Receive(w, id) =>
      if w in s.workers then s else s.(workers := s.workers[w := Received(id)])
    case Look(w) =>
      if w !in s.workers || !s.workers[w].Received? then s
      else
        var id := s.workers[w].id;
        s.(workers := s.workers[w := Looked(id, id in s.rows)])
    case Insert(w) =>
      if w !in s.workers || !s.workers[w].Looked? then s
      else
        var id := s.workers[w].id;
        // A row that appeared since the SELECT makes the insert fail; the error is swallowed.
        var rows := if s.workers[w].found || id in s.rows then s.rows else s.rows[id := false];
        s.(rows := rows, workers := s.workers[w := Recorded(id)])
    case Lock(w) =>
      if w !in s.workers || !s.workers[w].Recorded? || Locked(s, s.workers[w].id) then s
      else
        var id := s.workers[w].id;
        if id !in s.rows || s.rows[id] then s.(workers := Without(s.workers, w))
        else s.(workers := s.workers[w := Holding(id)])
    case Apply(w, fails) =>
      if w !in s.workers || !s.workers[w].Holding? then s
      else if fails then s.(workers := Without(s.workers, w))
      else
        var id := s.workers[w].id;
        State(s.rows[id := true], Without(s.workers, w), s.effects + [id])
    case Crash(w) => s.(workers := Without(s.workers, w))
  }

  function Run(s: State, steps: seq<Step>): State {
    if steps == [] then s else Next(Run(s, steps[..|steps| - 1]), steps[|steps| - 1])
  }

  predicate Distinct<T(==)>(xs: seq<T>) { forall i, j :: 0 <= i < j < |xs| ==> xs[i] != xs[j] }

  ghost predicate Inv(s: State) {
    && Distinct(s.effects)
    && (forall id :: id in s.effects <==> id in s.rows && s.rows[id])
    && (forall w :: w in s.workers && s.workers[w].Holding? ==> s.workers[w].id in s.rows && !s.rows[s.workers[w].id])
    && (forall v, w :: v in s.workers && w in s.workers && s.workers[v].Holding? ==>
          s.workers[v] == s.workers[w] ==> v == w)
    && (forall w :: w in s.workers && s.workers[w].Recorded? ==> s.workers[w].id in s.rows)
    && (forall w :: w in s.workers && s.workers[w].Looked? && s.workers[w].found ==> s.workers[w].id in s.rows)
  }

  lemma StepKeepsInv(s: State, step: Step)
    requires Inv(s)
    ensures Inv(Next(s, step))
    ensures Next(s, step).effects == s.effects + if Committing(s, step).Some? then [Committing(s, step).value] else []
    ensures Committing(s, step).Some? ==> Committing(s, step).value !in s.effects
    ensures forall id :: id in s.rows ==> id in Next(s, step).rows && (s.rows[id] ==> Next(s, step).rows[id])
  {
    var t := Next(s, step);
    if Committing(s, step).Some? {
      var id := Committing(s, step).value;
      forall k ensures k in t.effects <==> k in t.rows && t.rows[k] {
        assert k in t.effects <==> k in s.effects || k == id;
      }
    }
  }

  /**
   However deliveries interleave and wherever workers stop: the effects of one provider id commit at most
   once, and they have committed exactly when its row says processed.
   */
  lemma {:induction false} EffectsCommitAtMostOnce(steps: seq<Step>)
    ensures Inv(Run(INIT, steps))
    ensures Distinct(Run(INIT, steps).effects)
    ensures forall id :: id in Run(INIT, steps).effects <==> id in Run(INIT, steps).rows && Run(INIT, steps).rows[id]
  {
    if steps != [] {
      var n := |steps| - 1;
      EffectsCommitAtMostOnce(steps[..n]);
      StepKeepsInv(Run(INIT, steps[..n]), steps[n]);
    }
  }

  /** One uninterrupted call of handle_gateway_event by worker w. */
  function HandleAlone(s: State, id: ProviderId, w: nat, fails: bool): State {
    Next(Next(Next(Next(Next(s, Receive(w, id)), Look(w)), Insert(w)), Lock(w)), Apply(w, fails))
  }

  /**
   What one uninterrupted delivery does: nothing for a processed event; otherwise the effect commits, or,
   when it fails, the event stays recorded and unprocessed for the next delivery.
   */
  lemma UninterruptedDelivery(s: State, id: ProviderId, w: nat, fails: bool)
    requires w !in s.workers && !Locked(s, id)
    ensures var t := HandleAlone(s, id, w, fails);
            if id in s.rows && s.rows[id] then t == s
            else if fails then t == s.(rows := s.rows[id := false])
            else t == State(s.rows[id := true], s.workers, s.effects + [id])
  {
    var s1 := Next(s, Receive(w, id));
    var s2 := Next(s1, Look(w));
    var s3 := Next(s2, Insert(w));
    assert s3.workers[w] == Recorded(id) && s3.effects == s.effects;
    assert s3.rows == if id in s.rows then s.rows else s.rows[id := false];
    assert s3.workers - {w} == s.workers;
    assert !Locked(s3, id) by {
      forall v | v in s3.workers ensures s3.workers[v] != Holding(id) {
        assert v != w ==> v in s.workers && s.workers[v] == s3.workers[v];
      }
    }
    ResumeAfterRecord(s3, id, w, fails);
    if !(id in s.rows && s.rows[id]) {
      assert s3.rows == s.rows[id := false];
      assert s3.rows[id := true] == s.rows[id := true];
    }
  }

  /** The second transaction on its own. */
  lemma ResumeAfterRecord(s: State, id: ProviderId, w: nat, fails: bool)
    requires w in s.workers && s.workers[w] == Recorded(id) && id in s.rows && !Locked(s, id)
    ensures var t := Next(Next(s, Lock(w)), Apply(w, fails));
            if s.rows[id] then t == s.(workers := s.workers - {w})
            else if fails then t == s.(workers := s.workers - {w})
            else t == State(s.rows[id := true], s.workers - {w}, s.effects + [id])
  {
    assert s.workers[w := Holding(id)] - {w} == s.workers - {w};
  }
}
