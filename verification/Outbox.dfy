/**
 The transactional outbox of billing-service.  Rows are appended with the business change; a publisher
 locks a batch, hands it to the broker row by row, and marks it only when its transaction commits.
 A row's position is its id, in the order of commits; its created_at is taken earlier, when its transaction starts.
 */
module Outbox {
  import opened Prelude
  import opened Credits

  /** origin is the webhook whose effect wrote the row; it is not a column, only a record of provenance. */
  datatype Row = Row(envelope: Envelope, origin: Option<string>, createdAt: int, published: bool, attempts: nat)

  /** A publisher's open transaction: the rows it locked and how many it has handed to the broker. */
  datatype Batch = Batch(picked: seq<nat>, done: nat)

  /** sent is the history of everything handed to the broker, by row. */
  datatype State = State(rows: seq<Row>, batches: map<nat, Batch>, sent: seq<nat>)

  const INIT := State([], map[], [])

  const BATCH_LIMIT := 100

  datatype Step =
    | Append(row: Row)
    | Begin(p: nat)
    | Send(p: nat)
    | Commit(p: nat)
    | Abort(p: nat)   // a crash, or an exception from the broker

  function LockedRows(batches: map<nat, Batch>): set<nat> {
    set p, i | p in batches && i in batches[p].picked :: i
  }

  /** The order of the query: by created_at, and by position where that ties. */
  predicate Before(rows: seq<Row>, i: nat, j: nat) {
    && i < |rows| && j < |rows|
    && (rows[i].createdAt < rows[j].createdAt || (rows[i].createdAt == rows[j].createdAt && i < j))
  }

  predicate Eligible(rows: seq<Row>, locked: set<nat>, i: nat) { i < |rows| && !rows[i].published && i !in locked }

  /** The first of the eligible rows among the first n. */
  function Oldest(rows: seq<Row>, locked: set<nat>, n: nat): (oldest: Option<nat>)
    requires n <= |rows|
    ensures oldest.Some? ==> oldest.value < n && Eligible(rows, locked, oldest.value)
    ensures oldest.Some? ==>
              forall i: nat :: i < n && Eligible(rows, locked, i) ==> i == oldest.value || Before(rows, oldest.value, i)
    ensures oldest.None? ==> forall i: nat :: i < n ==> !Eligible(rows, locked, i)
  {
    if n == 0 then None
    else
      var earlier := Oldest(rows, locked, n - 1);
      if Eligible(rows, locked, n - 1) && (earlier.None? || rows[n - 1].createdAt < rows[earlier.value].createdAt)
      then Some(n - 1) else earlier
  }

  /** The oldest unpublished rows that are not locked, at most room of them, in order. */
  function Pick(rows: seq<Row>, locked: set<nat>, room: nat): (picked: seq<nat>)
    ensures forall i :: i in picked ==> Eligible(rows, locked, i)
    decreases room, |rows|
  {
    if room == 0 then []
    else
      match Oldest(rows, locked, |rows|)
      case None => []
      case Some(i) =>
        var rest := Pick(rows, locked + {i}, room - 1);
        assert forall j :: j in rest ==> Eligible(rows, locked + {i}, j);
        [i] + rest
  }

  /** The batch is in order, holds at most room rows, all of them if they fit, and none while an older one is left. */
  lemma {:induction false} PickTakesTheOldest(rows: seq<Row>, locked: set<nat>, room: nat)
    ensures var picked := Pick(rows, locked, room);
            && |picked| <= room
            && (forall j, k :: 0 <= j < k < |picked| ==> Before(rows, picked[j], picked[k]))
            && (|picked| < room ==> forall i :: Eligible(rows, locked, i) ==> i in picked)
            && (forall i, j :: j in picked && Eligible(rows, locked, i) && Before(rows, i, j) ==> i in picked)
    decreases room
  {
    if room > 0 && Oldest(rows, locked, |rows|).Some? {
      var i := Oldest(rows, locked, |rows|).value;
      PickTakesTheOldest(rows, locked + {i}, room - 1);
      var rest := Pick(rows, locked + {i}, room - 1);
      forall k | 0 <= k < |rest| ensures Before(rows, i, rest[k]) {
        assert rest[k] in rest && Eligible(rows, locked, rest[k]);
      }
      assert forall j :: Eligible(rows, locked, j) && j != i ==> Eligible(rows, locked + {i}, j);
    }
  }

  function MarkRow(r: Row): Row { r.(published := true, attempts := r.attempts + 1) }

  function Marked(rows: seq<Row>, picked: seq<nat>): seq<Row> {
    seq(|rows|, i requires 0 <= i < |rows| =>
      if i in picked then MarkRow(rows[i]) else rows[i])
  }

  /** The row handed to the broker by this step. */
  function Sending(s: State, step: Step): Option<nat> {
    if step.Send? && step.p in s.batches && s.batches[step.p].done < |s.batches[step.p].picked|
    then Some(s.batches[step.p].picked[s.batches[step.p].done]) else None
  }

  function Next(s: State, step: Step): State {
    match step
    case Append(row) =>
      s.(rows := s.rows + [row.(envelope := row.envelope.(id := |s.rows|), published := false, attempts := 0)])
    case Begin(p) =>
      if p in s.batches then s
      else s.(batches := s.batches[p := Batch(Pick(s.rows, LockedRows(s.batches), BATCH_LIMIT), 0)])
    case Send(p) =>
      if Sending(s, step).None? then s
      else
        s.(batches := s.batches[p := s.batches[p].(done := s.batches[p].done + 1)],
           sent := s.sent + [Sending(s, step).value])
    case Commit(p) =>
      if p !in s.batches || s.batches[p].done != |s.batches[p].picked| then s
      else State(Marked(s.rows, s.batches[p].picked), s.batches - {p}, s.sent)
    case Abort(p) => s.(batches := s.batches - {p})
  }

  function Run(s: State, steps: seq<Step>): State {
    if steps == [] then s else Next(Run(s, steps[..|steps| - 1]), steps[|steps| - 1])
  }

  // ---------- any number of publishers ----------

  /** A batch holds unpublished rows, and those it is done with are in the broker history. */
  ghost predicate BatchOk(rows: seq<Row>, sent: seq<nat>, b: Batch) {
    && b.done <= |b.picked|
    && (forall k :: 0 <= k < |b.picked| ==> b.picked[k] < |rows| && !rows[b.picked[k]].published)
    && (forall k :: 0 <= k < b.done ==> b.picked[k] in sent)
  }

  predicate Disjoint(b: Batch, c: Batch) { forall i :: i in b.picked ==> i !in c.picked }

  ghost predicate Inv(s: State) {
    && (forall i :: 0 <= i < |s.rows| ==> s.rows[i].envelope.id == i)
    && (forall p :: p in s.batches ==> BatchOk(s.rows, s.sent, s.batches[p]))
    && (forall p, q :: p in s.batches && q in s.batches && p != q ==> Disjoint(s.batches[p], s.batches[q]))
    && (forall i :: 0 <= i < |s.rows| && s.rows[i].published ==> i in s.sent)
    && (forall k :: 0 <= k < |s.sent| ==> s.sent[k] < |s.rows|)
  }

  lemma BeginKeepsInv(s: State, p: nat)
    requires Inv(s)
    ensures Inv(Next(s, Begin(p)))
  {
    if p !in s.batches {
      var b := Next(s, Begin(p)).batches[p];
      forall k | 0 <= k < |b.picked| ensures b.picked[k] < |s.rows| && !s.rows[b.picked[k]].published {
        assert b.picked[k] in b.picked;
      }
      forall q | q in s.batches ensures Disjoint(b, s.batches[q]) && Disjoint(s.batches[q], b) {
        forall i | i in s.batches[q].picked ensures i !in b.picked {
          assert i in LockedRows(s.batches);
        }
      }
    }
  }

  lemma SendKeepsInv(s: State, p: nat)
    requires Inv(s)
    ensures Inv(Next(s, Send(p)))
  {
    if Sending(s, Send(p)).Some? {
      var t := Next(s, Send(p));
      forall q | q in t.batches ensures BatchOk(t.rows, t.sent, t.batches[q]) {
        assert BatchOk(s.rows, s.sent, s.batches[q]);
      }
      forall q, r | q in t.batches && r in t.batches && q != r ensures Disjoint(t.batches[q], t.batches[r]) {
        assert Disjoint(s.batches[q], s.batches[r]);
      }
      assert BatchOk(s.rows, s.sent, s.batches[p]);
    }
  }

  lemma CommitKeepsInv(s: State, p: nat)
    requires Inv(s)
    ensures Inv(Next(s, Commit(p)))
  {
    if p in s.batches && s.batches[p].done == |s.batches[p].picked| {
      var t := Next(s, Commit(p));
      assert BatchOk(s.rows, s.sent, s.batches[p]);
      forall q | q in t.batches ensures BatchOk(t.rows, t.sent, t.batches[q]) {
        assert BatchOk(s.rows, s.sent, s.batches[q]) && Disjoint(s.batches[q], s.batches[p]);
        assert forall k :: 0 <= k < |s.batches[q].picked| ==> s.batches[q].picked[k] in s.batches[q].picked;
      }
    }
  }

  lemma StepKeepsInv(s: State, step: Step)
    requires Inv(s)
    ensures Inv(Next(s, step))
    ensures |s.rows| <= |Next(s, step).rows|
    ensures forall i :: 0 <= i < |s.rows| ==>
              && Next(s, step).rows[i].envelope == s.rows[i].envelope
              && Next(s, step).rows[i].origin == s.rows[i].origin
    ensures Next(s, step).sent == s.sent + if Sending(s, step).Some? then [Sending(s, step).value] else []
  {
    match step
    case Append(_) =>
      forall p | p in s.batches ensures BatchOk(Next(s, step).rows, s.sent, s.batches[p]) {
        assert BatchOk(s.rows, s.sent, s.batches[p]);
      }
    case Begin(p) => BeginKeepsInv(s, p);
    case Send(p) => SendKeepsInv(s, p);
    case Commit(p) => CommitKeepsInv(s, p);
    case Abort(_) =>
  }

  /** A row marked published has been handed to the broker, whoever published it and whoever crashed. */
  lemma {:induction false} MarkedRowsWereSent(steps: seq<Step>)
    ensures var s := Run(INIT, steps);
            Inv(s) && forall i :: 0 <= i < |s.rows| && s.rows[i].published ==> i in s.sent
  {
    if steps != [] {
      var n := |steps| - 1;
      MarkedRowsWereSent(steps[..n]);
      StepKeepsInv(Run(INIT, steps[..n]), steps[n]);
    }
  }

  // ---------- one publisher: order ----------

  predicate UsesOnly(step: Step, p: nat) { step.Append? || step.p == p }

  /** The history with repeats removed: each row where it was first sent. */
  function FirstSends(sent: seq<nat>): seq<nat> {
    if sent == [] then []
    else
      var n := |sent| - 1;
      FirstSends(sent[..n]) + if sent[n] in sent[..n] then [] else [sent[n]]
  }

  lemma {:induction false} FirstSendsMembers(sent: seq<nat>)
    ensures forall i :: i in FirstSends(sent) <==> i in sent
  {
    if sent != [] {
      var n := |sent| - 1;
      FirstSendsMembers(sent[..n]);
      assert sent == sent[..n] + [sent[n]];
    }
  }

  lemma FirstSendsPush(sent: seq<nat>, row: nat)
    ensures FirstSends(sent + [row]) == if row in sent then FirstSends(sent) else FirstSends(sent) + [row]
  {
    assert (sent + [row])[..|sent|] == sent;
  }

  predicate Ascending(rows: seq<Row>, xs: seq<nat>) { forall j, k :: 0 <= j < k < |xs| ==> Before(rows, xs[j], xs[k]) }

  /** What comes before a row that was sent has been sent. */
  ghost predicate SentIsPrefix(rows: seq<Row>, sent: seq<nat>) {
    forall i: nat, j: nat :: i in sent && Before(rows, j, i) ==> j in sent
  }

  /** What comes before a marked row is marked. */
  ghost predicate MarkedIsPrefix(rows: seq<Row>) {
    forall i: nat, j: nat :: Before(rows, j, i) && rows[i].published ==> rows[j].published
  }

  /** What comes before a row of the batch is marked or stands before it in the batch. */
  ghost predicate BatchContinues(rows: seq<Row>, picked: seq<nat>) {
    forall k: nat, j: nat :: k < |picked| && Before(rows, j, picked[k]) ==> rows[j].published || j in picked[..k]
  }

  /** First sends, sent rows and marked rows follow created_at, and an open batch continues the marked rows. */
  ghost predicate InOrder(s: State, p: nat) {
    && s.batches.Keys <= {p}
    && Ascending(s.rows, FirstSends(s.sent)) && SentIsPrefix(s.rows, s.sent) && MarkedIsPrefix(s.rows)
    && (p in s.batches ==> BatchContinues(s.rows, s.batches[p].picked))
  }

  /** A new row is not older than any row that was sent or is locked for sending. */
  predicate InTime(s: State, step: Step) {
    step.Append? ==>
      forall i :: 0 <= i < |s.rows| && (i in s.sent || i in LockedRows(s.batches)) ==>
        s.rows[i].createdAt <= step.row.createdAt
  }

  predicate SameStamps(rows: seq<Row>, rows': seq<Row>) {
    |rows| <= |rows'| && forall i :: 0 <= i < |rows| ==> rows'[i].createdAt == rows[i].createdAt
  }

  lemma SameOrder(rows: seq<Row>, rows': seq<Row>)
    requires SameStamps(rows, rows')
    ensures forall i: nat, j: nat :: i < |rows| && j < |rows| ==> (Before(rows, i, j) <==> Before(rows', i, j))
  {}

  /** An in-time row comes after everything taken so far. */
  lemma NewRowIsLast(s: State, row: Row, i: nat, j: nat)
    requires InTime(s, Append(row)) && i < |s.rows| && (i in s.sent || i in LockedRows(s.batches))
    requires Before(Next(s, Append(row)).rows, j, i)
    ensures Before(s.rows, j, i)
  {}

  lemma AppendKeepsSent(s: State, row: Row, p: nat)
    requires Inv(s) && InOrder(s, p) && InTime(s, Append(row))
    ensures var rows := Next(s, Append(row)).rows;
            Ascending(rows, FirstSends(s.sent)) && SentIsPrefix(rows, s.sent) && MarkedIsPrefix(rows)
  {
    var rows, first := Next(s, Append(row)).rows, FirstSends(s.sent);
    SameOrder(s.rows, rows);
    FirstSendsMembers(s.sent);
    forall i: nat, j: nat | i in s.sent && Before(rows, j, i) ensures j in s.sent {
      NewRowIsLast(s, row, i, j);
    }
    forall i: nat, j: nat | Before(rows, j, i) && rows[i].published ensures rows[j].published {
      NewRowIsLast(s, row, i, j);
    }
    forall j, k | 0 <= j < k < |first| ensures Before(rows, first[j], first[k]) {
      assert Before(s.rows, first[j], first[k]);
    }
  }

  lemma AppendKeepsBatch(s: State, row: Row, p: nat)
    requires Inv(s) && InOrder(s, p) && InTime(s, Append(row)) && p in s.batches
    ensures BatchContinues(Next(s, Append(row)).rows, s.batches[p].picked)
  {
    var rows, picked := Next(s, Append(row)).rows, s.batches[p].picked;
    assert BatchOk(s.rows, s.sent, s.batches[p]);
    forall k: nat, j: nat | k < |picked| && Before(rows, j, picked[k]) ensures rows[j].published || j in picked[..k] {
      assert picked[k] in picked && picked[k] in LockedRows(s.batches);
      NewRowIsLast(s, row, picked[k], j);
    }
  }

  lemma EarlyRowBreaksOrder(s: State, row: Row, p: nat)
    requires Inv(s) && InOrder(s, p) && !InTime(s, Append(row))
    ensures !InOrder(Next(s, Append(row)), p)
  {
    var t, n := Next(s, Append(row)), |s.rows|;
    var i :| 0 <= i < n && (i in s.sent || i in LockedRows(s.batches)) && row.createdAt < s.rows[i].createdAt;
    assert Before(t.rows, n, i);
    if i in s.sent {
      assert n !in t.sent;
    } else {
      var picked := s.batches[p].picked;
      var k: nat :| k < |picked| && picked[k] == i;
      assert BatchOk(s.rows, s.sent, s.batches[p]);
      assert n !in picked[..k] && !t.rows[n].published;
    }
  }

  lemma AscendingPositions(rows: seq<Row>, xs: seq<nat>, j: nat, k: nat)
    requires Ascending(rows, xs) && j < |xs| && k < |xs| && Before(rows, xs[j], xs[k])
    ensures j < k
  {}

  lemma PickContinues(rows: seq<Row>)
    ensures BatchContinues(rows, Pick(rows, {}, BATCH_LIMIT))
  {
    var picked := Pick(rows, {}, BATCH_LIMIT);
    PickTakesTheOldest(rows, {}, BATCH_LIMIT);
    forall k: nat, j: nat | k < |picked| && Before(rows, j, picked[k]) && !rows[j].published ensures j in picked[..k] {
      assert picked[k] in picked && Eligible(rows, {}, j);
      var m: nat :| m < |picked| && picked[m] == j;
      AscendingPositions(rows, picked, m, k);
      assert picked[..k][m] == j;
    }
  }

  lemma BeginKeepsOrder(s: State, p: nat)
    requires InOrder(s, p)
    ensures InOrder(Next(s, Begin(p)), p)
  {
    if p !in s.batches {
      assert LockedRows(s.batches) == {};
      PickContinues(s.rows);
      hide Pick, Ascending, SentIsPrefix, MarkedIsPrefix, BatchContinues;
    }
  }

  lemma SendAscends(rows: seq<Row>, sent: seq<nat>, row: nat)
    requires Ascending(rows, FirstSends(sent)) && SentIsPrefix(rows, sent) && row < |rows|
    requires forall i :: i in sent ==> i < |rows|
    ensures Ascending(rows, FirstSends(sent + [row]))
  {
    var first := FirstSends(sent);
    FirstSendsMembers(sent);
    FirstSendsPush(sent, row);
    if row !in sent {
      hide FirstSends;
      forall k | 0 <= k < |first| ensures Before(rows, first[k], row) {
        assert first[k] in first && first[k] in sent;
        assert !Before(rows, row, first[k]);
      }
    }
  }

  lemma SendKeepsPrefix(rows: seq<Row>, sent: seq<nat>, row: nat)
    requires SentIsPrefix(rows, sent) && forall j: nat :: Before(rows, j, row) ==> j in sent
    ensures SentIsPrefix(rows, sent + [row])
  {}

  lemma OlderWereSent(s: State, p: nat)
    requires Inv(s) && InOrder(s, p) && Sending(s, Send(p)).Some?
    ensures forall j: nat :: Before(s.rows, j, Sending(s, Send(p)).value) ==> j in s.sent
  {
    var b := s.batches[p];
    assert BatchOk(s.rows, s.sent, b);
    forall j: nat | Before(s.rows, j, b.picked[b.done]) ensures j in s.sent {
      if !s.rows[j].published {
        var k: nat :| k < b.done && b.picked[..b.done][k] == j;
        assert b.picked[k] in s.sent;
      }
    }
  }

  lemma SendKeepsOrder(s: State, p: nat)
    requires Inv(s) && InOrder(s, p) && Sending(s, Send(p)).Some?
    ensures InOrder(Next(s, Send(p)), p)
  {
    assert BatchOk(s.rows, s.sent, s.batches[p]);
    OlderWereSent(s, p);
    SendAscends(s.rows, s.sent, Sending(s, Send(p)).value);
    SendKeepsPrefix(s.rows, s.sent, Sending(s, Send(p)).value);
    hide Ascending, SentIsPrefix, MarkedIsPrefix, BatchContinues, FirstSends;
  }

  lemma MarksContinue(rows: seq<Row>, picked: seq<nat>)
    requires MarkedIsPrefix(rows) && BatchContinues(rows, picked)
    ensures MarkedIsPrefix(Marked(rows, picked))
  {
    var marked := Marked(rows, picked);
    SameOrder(rows, marked);
    forall i: nat, j: nat | Before(marked, j, i) && marked[i].published ensures marked[j].published {
      if i in picked {
        var k: nat :| k < |picked| && picked[k] == i;
        assert Before(rows, j, picked[k]);
        assert j in picked[..k] ==> j in picked;
      }
    }
  }

  lemma MarksKeepSent(rows: seq<Row>, picked: seq<nat>, sent: seq<nat>)
    requires Ascending(rows, FirstSends(sent)) && SentIsPrefix(rows, sent)
    ensures Ascending(Marked(rows, picked), FirstSends(sent)) && SentIsPrefix(Marked(rows, picked), sent)
  {
    var first := FirstSends(sent);
    SameOrder(rows, Marked(rows, picked));
    forall j, k | 0 <= j < k < |first| ensures Before(Marked(rows, picked), first[j], first[k]) {
      assert Before(rows, first[j], first[k]);
    }
  }

  lemma CommitKeepsOrder(s: State, p: nat)
    requires InOrder(s, p)
    ensures InOrder(Next(s, Commit(p)), p)
  {
    if p in s.batches && s.batches[p].done == |s.batches[p].picked| {
      MarksContinue(s.rows, s.batches[p].picked);
      MarksKeepSent(s.rows, s.batches[p].picked, s.sent);
      hide Ascending, SentIsPrefix, MarkedIsPrefix, BatchContinues, FirstSends, Marked;
    }
  }

  lemma AppendKeepsOrder(s: State, row: Row, p: nat)
    requires Inv(s) && InOrder(s, p) && InTime(s, Append(row))
    ensures InOrder(Next(s, Append(row)), p)
  {
    AppendKeepsSent(s, row, p);
    if p in s.batches { AppendKeepsBatch(s, row, p); }
    hide Ascending, SentIsPrefix, MarkedIsPrefix, BatchContinues, FirstSends, InTime;
  }

  /** A step of a lone publisher keeps the order exactly when it appends no row older than one already taken. */
  lemma StepKeepsOrderExactly(s: State, step: Step, p: nat)
    requires Inv(s) && InOrder(s, p) && UsesOnly(step, p)
    ensures InOrder(Next(s, step), p) <==> InTime(s, step)
  {
    match step
    case Append(row) =>
      if InTime(s, step) { AppendKeepsOrder(s, row, p); } else { EarlyRowBreaksOrder(s, row, p); }
    case Begin(_) => BeginKeepsOrder(s, p);
    case Send(_) => if Sending(s, step).Some? { SendKeepsOrder(s, p); }
    case Commit(_) => CommitKeepsOrder(s, p);
    case Abort(_) =>
  }

  ghost predicate OrderThroughout(steps: seq<Step>, p: nat) {
    InOrder(Run(INIT, steps), p) && (steps != [] ==> OrderThroughout(steps[..|steps| - 1], p))
  }

  predicate AllInTime(steps: seq<Step>) {
    steps == []
    || (var n := |steps| - 1; AllInTime(steps[..n]) && InTime(Run(INIT, steps[..n]), steps[n]))
  }

  /**
   With one publisher, crashing after any hand-over: at every moment the broker history with repeats removed is a
   prefix of the rows in created_at order, and so are the marked rows, exactly when no row was appended with a
   created_at before that of a row already sent or locked.
   */
  lemma {:induction false} FirstPublicationsKeepOrderExactly(steps: seq<Step>, p: nat)
    requires forall step :: step in steps ==> UsesOnly(step, p)
    ensures OrderThroughout(steps, p) <==> AllInTime(steps)
  {
    if steps == [] {
      assert InOrder(INIT, p);
    } else {
      var n := |steps| - 1;
      FirstPublicationsKeepOrderExactly(steps[..n], p);
      if OrderThroughout(steps[..n], p) {
        MarkedRowsWereSent(steps[..n]);
        StepKeepsOrderExactly(Run(INIT, steps[..n]), steps[n], p);
      }
    }
  }

  /** Rows whose created_at follow the order of their commits are always in time. */
  predicate StampsFollowCommits(steps: seq<Step>) {
    steps == []
    || (var n := |steps| - 1;
        && StampsFollowCommits(steps[..n])
        && (steps[n].Append? ==>
              forall i :: 0 <= i < |Run(INIT, steps[..n]).rows| ==>
                Run(INIT, steps[..n]).rows[i].createdAt <= steps[n].row.createdAt))
  }

  lemma {:induction false} FirstPublicationsKeepOrder(steps: seq<Step>, p: nat)
    requires forall step :: step in steps ==> UsesOnly(step, p)
    requires StampsFollowCommits(steps)
    ensures AllInTime(steps) && OrderThroughout(steps, p)
    ensures var s := Run(INIT, steps);
            && Ascending(s.rows, FirstSends(s.sent)) && SentIsPrefix(s.rows, s.sent) && MarkedIsPrefix(s.rows)
            && forall i :: 0 <= i < |s.rows| && s.rows[i].published ==> i in s.sent
  {
    InTimeWhenFollowing(steps);
    FirstPublicationsKeepOrderExactly(steps, p);
    MarkedRowsWereSent(steps);
  }

  lemma {:induction false} InTimeWhenFollowing(steps: seq<Step>)
    requires StampsFollowCommits(steps)
    ensures AllInTime(steps)
  {
    if steps != [] {
      InTimeWhenFollowing(steps[..|steps| - 1]);
    }
  }

  predicate AllPublished(rows: seq<Row>) { forall i :: 0 <= i < |rows| ==> rows[i].published }

  lemma PicksTheLast(rows: seq<Row>, row: Row)
    requires AllPublished(rows) && !row.published
    ensures Pick(rows + [row], {}, BATCH_LIMIT) == [|rows|]
  {
    var picked := Pick(rows + [row], {}, BATCH_LIMIT);
    assert Eligible(rows + [row], {}, |rows|);
    forall k | 0 <= k < |picked| ensures picked[k] == |rows| {
      assert picked[k] in picked;
    }
    PickTakesTheOldest(rows + [row], {}, BATCH_LIMIT);
    assert |picked| >= 2 ==> Before(rows + [row], picked[0], picked[1]);
    assert |rows| in picked;
  }

  lemma MarksTheLast(rows: seq<Row>, row: Row)
    ensures Marked(rows + [row], [|rows|]) == rows + [MarkRow(row)]
  {}

  /** One publisher takes one row. */
  lemma PublishesTheLast(o: State, rows: seq<Row>, row: Row)
    requires o.rows == rows + [row] && AllPublished(rows) && !row.published && o.batches == map[]
    ensures var n := |rows|;
            var begun := o.(batches := map[0 := Batch([n], 0)]);
            var sent := State(o.rows, map[0 := Batch([n], 1)], o.sent + [n]);
            && Next(o, Begin(0)) == begun
            && Sending(begun, Send(0)) == Some(n) && Next(begun, Send(0)) == sent
            && Next(sent, Commit(0)) == State(rows + [MarkRow(row)], map[], o.sent + [n])
  {
    PicksTheLast(rows, row);
    MarksTheLast(rows, row);
    hide Pick, Marked;
    assert LockedRows(o.batches) == {};
    assert map[0 := Batch([|rows|], 1)] - {0} == map[];
  }

  // ---------- publish_batch ----------

  /** Publisher p sends k rows of its open batch. */
  function SendMany(s: State, p: nat, k: nat): State {
    if k == 0 then s else Next(SendMany(s, p, k - 1), Send(p))
  }

  /** The tables after k rows of an open batch were sent. */
  function AfterSends(s: State, p: nat, k: nat): State
    requires p in s.batches && s.batches[p].done + k <= |s.batches[p].picked|
  {
    var b := s.batches[p];
    s.(batches := s.batches[p := b.(done := b.done + k)], sent := s.sent + b.picked[b.done..b.done + k])
  }

  lemma OneMoreSend(s: State, p: nat, k: nat)
    requires p in s.batches && s.batches[p].done + k < |s.batches[p].picked|
    ensures Next(AfterSends(s, p, k), Send(p)) == AfterSends(s, p, k + 1)
  {
    var b := s.batches[p];
    assert b.picked[b.done..b.done + k + 1] == b.picked[b.done..b.done + k] + [b.picked[b.done + k]];
    assert s.sent + b.picked[b.done..b.done + k + 1] ==
           s.sent + b.picked[b.done..b.done + k] + [b.picked[b.done + k]];
  }

  lemma {:induction false} SendManyFromBatch(s: State, p: nat, k: nat)
    requires p in s.batches && s.batches[p].done + k <= |s.batches[p].picked|
    ensures SendMany(s, p, k) == AfterSends(s, p, k)
  {
    if k == 0 {
      assert s.batches[p := s.batches[p]] == s.batches;
      assert s.sent + [] == s.sent;
    } else {
      hide AfterSends, Next;
      SendManyFromBatch(s, p, k - 1);
      OneMoreSend(s, p, k - 1);
    }
  }

  /** One call of publish_batch, undisturbed: it sends k rows of its batch and then commits or rolls back. */
  function PublishAlone(s: State, p: nat, k: nat, commits: bool): State {
    Next(SendMany(Next(s, Begin(p)), p, k), if commits then Commit(p) else Abort(p))
  }

  /** Rows handed over stay handed over; marks survive only a commit, which needs the whole batch sent. */
  lemma PublishAloneResult(s: State, p: nat, k: nat, commits: bool)
    requires p !in s.batches && k <= |Pick(s.rows, LockedRows(s.batches), BATCH_LIMIT)|
    requires commits ==> k == |Pick(s.rows, LockedRows(s.batches), BATCH_LIMIT)|
    ensures var picked := Pick(s.rows, LockedRows(s.batches), BATCH_LIMIT);
            PublishAlone(s, p, k, commits)
            == State(if commits then Marked(s.rows, picked) else s.rows, s.batches, s.sent + picked[..k])
  {
    var picked := Pick(s.rows, LockedRows(s.batches), BATCH_LIMIT);
    var begun := s.(batches := s.batches[p := Batch(picked, 0)]);
    assert Next(s, Begin(p)) == begun;
    SendManyFromBatch(begun, p, k);
    hide Next, Pick, SendMany, LockedRows;
    EndOfBatch(s, p, picked, k, commits);
  }

  lemma EndOfBatch(s: State, p: nat, picked: seq<nat>, k: nat, commits: bool)
    requires p !in s.batches && k <= |picked| && (commits ==> k == |picked|)
    ensures Next(AfterSends(s.(batches := s.batches[p := Batch(picked, 0)]), p, k),
                 if commits then Commit(p) else Abort(p))
            == State(if commits then Marked(s.rows, picked) else s.rows, s.batches, s.sent + picked[..k])
  {
    hide Marked;
    assert s.batches[p := Batch(picked, 0)][p := Batch(picked, k)] - {p} == s.batches;
  }

  lemma MarkOneMore(rows: seq<Row>, picked: seq<nat>, k: nat)
    requires k < |picked| && picked[k] < |rows|
    requires forall i, j :: 0 <= i < j < |picked| ==> picked[i] != picked[j]
    ensures Marked(rows, picked[..k + 1]) == Marked(rows, picked[..k])[picked[k] := MarkRow(rows[picked[k]])]
    ensures Marked(rows, picked[..k])[picked[k]] == rows[picked[k]]
  {
    assert picked[..k + 1] == picked[..k] + [picked[k]];
  }

  /** The same from tables no one else is publishing: the form in which PublishBatch below is specified. */
  lemma PublishAloneInEmpty(rows: seq<Row>, sent: seq<nat>, k: nat, commits: bool)
    requires var size := |Pick(rows, {}, BATCH_LIMIT)|; k <= size && (commits ==> k == size)
    ensures var picked := Pick(rows, {}, BATCH_LIMIT);
            PublishAlone(State(rows, map[], sent), 0, k, commits)
            == State(if commits then Marked(rows, picked) else rows, map[], sent + picked[..k])
  {
    assert LockedRows(map[]) == {};
    PublishAloneResult(State(rows, map[], sent), 0, k, commits);
  }

  class OutboxPublisher {
    var rows: seq<Row>
    var sent: seq<nat>

    /**
     failAt is the position in the batch at which the broker raises, if it is within the batch; delivered says
     whether that message reached the broker before the exception.  The new tables are those that
     PublishAlone reaches, in the form PublishAloneInEmpty gives them.
     */
    method PublishBatch(failAt: nat, delivered: bool) returns (r: Result<nat, ()>)
      modifies this
      ensures var picked := Pick(old(rows), {}, BATCH_LIMIT);
              if failAt < |picked|
              then r == Err(()) && rows == old(rows)
                   && sent == old(sent) + picked[..if delivered then failAt + 1 else failAt]
              else r == Ok(|picked|) && rows == Marked(old(rows), picked) && sent == old(sent) + picked
    {
      var picked := Pick(rows, {}, BATCH_LIMIT);
      PickTakesTheOldest(rows, {}, BATCH_LIMIT);
      var pending := rows;
      var k := 0;
      while k < |picked|
        invariant 0 <= k <= |picked| && k <= failAt
        invariant rows == old(rows) && sent == old(sent) + picked[..k]
        invariant pending == Marked(rows, picked[..k])
      {
        assert old(sent) + picked[..k + 1] == sent + [picked[k]];
        if k == failAt {
          if delivered { sent := sent + [picked[k]]; }
          return Err(());
        }
        assert picked[k] in picked;
        MarkOneMore(rows, picked, k);
        sent := sent + [picked[k]];
        pending := pending[picked[k] := MarkRow(pending[picked[k]])];
        k := k + 1;
      }
      assert picked[..|picked|] == picked;
      rows := pending;
      return Ok(|picked|);
    }
  }
}
