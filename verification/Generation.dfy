/**
 The generation job of ai-generation-service: it tries candidate models one after the other, streams
 tokens, stops when cancelled, and ends its stream with one terminal event.
 */
module Generation {
  import opened Prelude

  type Model = string

  /** The candidates: the primary model, then the fallbacks, each once, where it first occurs. */
  function Dedup(models: seq<Model>): seq<Model> {
    if models == [] then []
    else
      var n := |models| - 1;
      if models[n] in models[..n] then Dedup(models[..n]) else Dedup(models[..n]) + [models[n]]
  }

  function ModelCandidates(primary: Model, fallbacks: seq<Model>): seq<Model> { Dedup([primary] + fallbacks) }

  predicate Distinct(models: seq<Model>) { forall i, j :: 0 <= i < j < |models| ==> models[i] != models[j] }

  lemma {:induction false} DedupFacts(models: seq<Model>)
    ensures Distinct(Dedup(models))
    ensures forall m :: m in Dedup(models) <==> m in models
    ensures models != [] ==> Dedup(models) != [] && Dedup(models)[0] == models[0]
  {
    if models != [] {
      var n := |models| - 1;
      DedupFacts(models[..n]);
      assert models == models[..n] + [models[n]];
    }
  }

  /** Candidates are tried without repetition, start with the primary model, and leave out no fallback. */
  lemma CandidatesAreTheModelsOnce(primary: Model, fallbacks: seq<Model>)
    ensures var candidates := ModelCandidates(primary, fallbacks);
            && Distinct(candidates)
            && candidates != [] && candidates[0] == primary
            && (forall m :: m in candidates <==> m == primary || m in fallbacks)
  {
    DedupFacts([primary] + fallbacks);
  }

  /** A prefix of the models gives a prefix of the candidates: first occurrences keep their order. */
  lemma {:induction false} DedupKeepsOrder(models: seq<Model>, more: seq<Model>)
    ensures Dedup(models) <= Dedup(models + more)
  {
    if more == [] {
      assert models + more == models;
    } else {
      var n := |more| - 1;
      assert (models + more)[..|models + more| - 1] == models + more[..n];
      DedupKeepsOrder(models, more[..n]);
    }
  }

  // ---------- one job ----------

  /** How storing the result ends: it may fail before its transaction commits, or after (charging credits). */
  datatype Completion = Stored | FailsBefore(reason: string) | FailsAfter(reason: string)

  /**
   What the provider, the cancel flag and _complete do in one attempt: the tokens it yields, the token at
   which the job is first seen cancelled, the exception it raises after its tokens, and the completion.
   */
  datatype Attempt = Attempt(
    tokens: seq<string>, cancelAt: Option<nat>, raises: Option<string>, completion: Completion)

  datatype Verdict = WasCancelled | Finished | Broke(reason: string)

  datatype StreamEvent = Token(value: string) | Completed | Cancelled | Failed(reason: string)

  datatype Status = Queued | Streaming | JobCompleted | JobCancelled | JobFailed

  datatype Job = Job(status: Status, model: Model, response: Option<string>, error: Option<string>)

  datatype HistoryRow = HistoryRow(model: Model, response: string)

  /** The models tried, the events on the stream channel, the job row and the prompt history. */
  datatype End = End(tried: nat, stream: seq<StreamEvent>, job: Job, history: seq<HistoryRow>)

  predicate Terminal(e: StreamEvent) { !e.Token? }

  predicate SeenCancelled(a: Attempt) { a.cancelAt.Some? && a.cancelAt.value < |a.tokens| }

  /** The tokens that reach the stream: all of them, unless the job is cancelled first. */
  function Shown(a: Attempt): seq<string> {
    if SeenCancelled(a) then a.tokens[..a.cancelAt.value] else a.tokens
  }

  function VerdictOf(a: Attempt): Verdict {
    if SeenCancelled(a) then WasCancelled
    else if a.raises.Some? then Broke(a.raises.value)
    else
      match a.completion
      case Stored => Finished
      case FailsBefore(reason) => Broke(reason)
      case FailsAfter(reason) => Broke(reason)
  }

  predicate Commits(a: Attempt) { !SeenCancelled(a) && a.raises.None? && !a.completion.FailsBefore? }

  function JoinTokens(tokens: seq<string>): string {
    if tokens == [] then "" else JoinTokens(tokens[..|tokens| - 1]) + tokens[|tokens| - 1]
  }

  function TokenEvents(tokens: seq<string>): seq<StreamEvent> {
    seq(|tokens|, i requires 0 <= i < |tokens| => Token(tokens[i]))
  }

  /** The job row and the history after an attempt, before its verdict is acted on. */
  function JobAfter(a: Attempt, model: Model, job: Job): Job {
    var started := job.(status := Streaming, model := model);
    if Commits(a) then started.(status := JobCompleted, response := Some(JoinTokens(a.tokens))) else started
  }

  function HistoryAfter(a: Attempt, model: Model, history: seq<HistoryRow>): seq<HistoryRow> {
    if Commits(a) then history + [HistoryRow(model, JoinTokens(a.tokens))] else history
  }

  function RunFrom(candidates: seq<Model>, world: nat -> Attempt, k: nat, job: Job,
      history: seq<HistoryRow>): (end: End)
    requires k < |candidates|
    ensures k < end.tried <= |candidates|
    ensures end.stream != [] && Terminal(end.stream[|end.stream| - 1])
    decreases |candidates| - k
  {
    var a, model := world(k), candidates[k];
    var shown, after, rows := TokenEvents(Shown(a)), JobAfter(a, model, job), HistoryAfter(a, model, history);
    match VerdictOf(a)
    case WasCancelled => End(k + 1, shown + [Cancelled], after.(status := JobCancelled), rows)
    case Finished => End(k + 1, shown + [Completed], after, rows)
    case Broke(reason) =>
      if Shown(a) == [] && k + 1 < |candidates| then RunFrom(candidates, world, k + 1, after, rows)
      else End(k + 1, shown + [Failed(reason)], after.(status := JobFailed, error := Some(reason)), rows)
  }

  // ---------- the stream matches the record ----------

  /** The stream is tokens and then one terminal event. */
  predicate EndsOnce(stream: seq<StreamEvent>) {
    && stream != [] && Terminal(stream[|stream| - 1])
    && forall i :: 0 <= i < |stream| - 1 ==> stream[i].Token?
  }

  /** An attempt that broke off without showing anything. */
  predicate Silent(a: Attempt) { VerdictOf(a).Broke? && Shown(a) == [] }

  /** What the terminal event promises about the job row. */
  predicate Agrees(last: StreamEvent, tokens: seq<string>, model: Model, end: End) {
    match last
    case Token(_) => false
    case Completed =>
      && end.job.status == JobCompleted && end.job.response == Some(JoinTokens(tokens)) && end.job.model == model
      && end.history != [] && end.history[|end.history| - 1] == HistoryRow(model, JoinTokens(tokens))
    case Cancelled => end.job.status == JobCancelled
    case Failed(reason) => end.job.status == JobFailed && end.job.error == Some(reason)
  }

  lemma SilentRunsOn(candidates: seq<Model>, world: nat -> Attempt, k: nat, job: Job, history: seq<HistoryRow>)
    requires k + 1 < |candidates| && Silent(world(k))
    ensures var a, model := world(k), candidates[k];
            RunFrom(candidates, world, k, job, history) ==
            RunFrom(candidates, world, k + 1, JobAfter(a, model, job), HistoryAfter(a, model, history))
  {}

  /** The attempt with which a run ends. */
  lemma LastAttemptMatches(candidates: seq<Model>, world: nat -> Attempt, k: nat, job: Job, history: seq<HistoryRow>)
    requires k < |candidates| && !(Silent(world(k)) && k + 1 < |candidates|)
    ensures var end := RunFrom(candidates, world, k, job, history);
            && end.tried == k + 1 && EndsOnce(end.stream)
            && var last, tokens := end.stream[|end.stream| - 1], Shown(world(k));
               && end.stream == TokenEvents(tokens) + [last]
               && Agrees(last, tokens, candidates[k], end)
               && (last.Failed? ==> tokens != [] || end.tried == |candidates|)
               && (last.Completed? <==> VerdictOf(world(k)).Finished?)
  {
    hide JoinTokens;
    assert VerdictOf(world(k)).Finished? ==> Shown(world(k)) == world(k).tokens;
  }

  /**
   For every provider behaviour, cancel timing and failure to store: candidates are tried in order, each at
   most once; the stream is tokens of the last one tried only and then exactly one terminal event, which
   agrees with the job row, a completed job storing exactly the tokens shown; and a job fails only when
   something was already shown or no candidate is left.
   */
  lemma {:induction false} StreamMatchesRecord(
    candidates: seq<Model>, world: nat -> Attempt, k: nat, job: Job, history: seq<HistoryRow>)
    requires k < |candidates|
    ensures var end := RunFrom(candidates, world, k, job, history);
            && k < end.tried <= |candidates|
            && EndsOnce(end.stream)
            && (forall i :: k <= i < end.tried - 1 ==> Silent(world(i)))
            && var last, tokens := end.stream[|end.stream| - 1], Shown(world(end.tried - 1));
               && end.stream == TokenEvents(tokens) + [last]
               && Agrees(last, tokens, candidates[end.tried - 1], end)
               && (last.Failed? ==> tokens != [] || end.tried == |candidates|)
               && (last.Completed? <==> VerdictOf(world(end.tried - 1)).Finished?)
    decreases |candidates| - k
  {
    hide *;
    if Silent(world(k)) && k + 1 < |candidates| {
      var a, model := world(k), candidates[k];
      var after, rows := JobAfter(a, model, job), HistoryAfter(a, model, history);
      SilentRunsOn(candidates, world, k, job, history);
      StreamMatchesRecord(candidates, world, k + 1, after, rows);
    } else {
      LastAttemptMatches(candidates, world, k, job, history);
    }
  }

  /** The result was stored, and then publishing it or charging for it failed. */
  predicate StoredThenFailed(a: Attempt) { Commits(a) && a.completion.FailsAfter? }

  /** How many of the attempts from k up to n stored their result and then failed. */
  function FailedStores(world: nat -> Attempt, k: nat, n: nat): nat
    requires k <= n
    decreases n - k
  {
    if k == n then 0 else (if StoredThenFailed(world(k)) then 1 else 0) + FailedStores(world, k + 1, n)
  }

  lemma {:induction false} NoFailedStores(world: nat -> Attempt, k: nat, n: nat)
    requires k <= n
    ensures FailedStores(world, k, n) == 0 <==> forall i :: k <= i < n ==> !StoredThenFailed(world(i))
    decreases n - k
  {
    if k < n {
      NoFailedStores(world, k + 1, n);
    }
  }

  lemma AttemptRows(a: Attempt, model: Model, history: seq<HistoryRow>)
    ensures |HistoryAfter(a, model, history)| ==
            |history| + (if VerdictOf(a).Finished? then 1 else 0) + if StoredThenFailed(a) then 1 else 0
    ensures history <= HistoryAfter(a, model, history)
  {}

  /** A run adds one history row if it completes, and one for each attempt that stored its result and then failed. */
  lemma {:induction false} HistoryRowsAdded(
    candidates: seq<Model>, world: nat -> Attempt, k: nat, job: Job, history: seq<HistoryRow>)
    requires k < |candidates|
    ensures var end := RunFrom(candidates, world, k, job, history);
            && history <= end.history
            && |end.history| == |history| + FailedStores(world, k, end.tried)
                              + if end.stream[|end.stream| - 1].Completed? then 1 else 0
    decreases |candidates| - k
  {
    var a, model := world(k), candidates[k];
    AttemptRows(a, model, history);
    if Silent(a) && k + 1 < |candidates| {
      HistoryRowsAdded(candidates, world, k + 1, JobAfter(a, model, job), HistoryAfter(a, model, history));
    } else {
      var end := RunFrom(candidates, world, k, job, history);
      assert end.tried == k + 1 && FailedStores(world, k + 1, k + 1) == 0;
    }
  }

  /**
   The history records a completed job once and any other not at all exactly when no attempt stored and then failed.
   */
  lemma OneRowExactly(candidates: seq<Model>, world: nat -> Attempt, job: Job, history: seq<HistoryRow>)
    requires candidates != []
    ensures var end := RunFrom(candidates, world, 0, job, history);
            |end.history| == |history| + (if end.stream[|end.stream| - 1].Completed? then 1 else 0) <==>
            forall i :: 0 <= i < end.tried ==> !StoredThenFailed(world(i))
  {
    var end := RunFrom(candidates, world, 0, job, history);
    HistoryRowsAdded(candidates, world, 0, job, history);
    NoFailedStores(world, 0, end.tried);
  }

  /** The first attempt stores an empty result that cannot be charged for; the second succeeds. */
  function ChargeFails(token: string): nat -> Attempt {
    k => if k == 0 then Attempt([], None, None, FailsAfter("charge")) else Attempt([token], None, None, Stored)
  }

  /** Such a run: two history rows for one job. */
  lemma ChargeFailureRecordsTwice(models: seq<Model>, job: Job, token: string)
    requires |models| == 2
    ensures var end := RunFrom(models, ChargeFails(token), 0, job, []);
            && end.stream == [Token(token), Completed]
            && end.history == [HistoryRow(models[0], ""), HistoryRow(models[1], token)]
  {
    assert [token][..0] == [] && "" + token == token;
    assert JoinTokens([token]) == token;
    var stored := job.(status := JobCompleted, model := models[0], response := Some(""));
    assert RunFrom(models, ChargeFails(token), 0, job, [])
        == RunFrom(models, ChargeFails(token), 1, stored, [HistoryRow(models[0], "")]);
  }

  // ---------- what an attempt decides ----------

  /** An attempt after which the next model is tried: no token came, and the provider or the storing failed. */
  predicate PassedOver(a: Attempt) { a.tokens == [] && (a.raises.Some? || a.completion != Stored) }

  /** A model that was passed over leaves a row with an empty result if that was stored before the failure. */
  function RowOfPassedOver(a: Attempt, model: Model): seq<HistoryRow> {
    if a.raises.None? && a.completion.FailsAfter? then [HistoryRow(model, "")] else []
  }

  /** The rows left by the models that were passed over. */
  function EarlierRows(candidates: seq<Model>, world: nat -> Attempt, k: nat, n: nat): seq<HistoryRow>
    requires k <= n <= |candidates|
    decreases n - k
  {
    if k == n then []
    else
      RowOfPassedOver(world(k), candidates[k]) + EarlierRows(candidates, world, k + 1, n)
  }

  predicate HasFailed(end: End, tokens: seq<string>, reason: string) {
    end.stream == TokenEvents(tokens) + [Failed(reason)] && end.job.status == JobFailed && end.job.error == Some(reason)
  }

  /**
   What the last attempt made of a run that had these history rows before it.  A cancellation stops the stream before
   the token at which it is seen; nothing is stored then, nor when the provider fails or the storing fails first.
   */
  predicate EndsAs(a: Attempt, model: Model, before: seq<HistoryRow>, end: End) {
    var row := HistoryRow(model, JoinTokens(a.tokens));
    && end.job.model == model
    && if a.cancelAt.Some? && a.cancelAt.value < |a.tokens| then
         && end.stream == TokenEvents(a.tokens[..a.cancelAt.value]) + [Cancelled]
         && end.job.status == JobCancelled && end.history == before
       else if a.raises.Some? then
         HasFailed(end, a.tokens, a.raises.value) && end.history == before
       else
         match a.completion
         case Stored =>
           && end.stream == TokenEvents(a.tokens) + [Completed] && end.job.status == JobCompleted
           && end.job.response == Some(JoinTokens(a.tokens)) && end.history == before + [row]
         case FailsBefore(reason) => HasFailed(end, a.tokens, reason) && end.history == before
         case FailsAfter(reason) => HasFailed(end, a.tokens, reason) && end.history == before + [row]
  }

  /** From model k on, attempt n decides: those before it were passed over, and it was not, unless it is the last. */
  predicate Decides(candidates: seq<Model>, world: nat -> Attempt, k: nat, n: nat, history: seq<HistoryRow>, end: End) {
    && k <= n < |candidates| && (forall i :: k <= i < n ==> PassedOver(world(i)))
    && (PassedOver(world(n)) ==> n == |candidates| - 1)
    && EndsAs(world(n), candidates[n], history + EarlierRows(candidates, world, k, n), end)
  }

  lemma AttemptEndsAs(candidates: seq<Model>, world: nat -> Attempt, k: nat, job: Job, history: seq<HistoryRow>)
    requires k < |candidates| && (PassedOver(world(k)) ==> k == |candidates| - 1)
    ensures RunFrom(candidates, world, k, job, history).tried == k + 1
    ensures EndsAs(world(k), candidates[k], history, RunFrom(candidates, world, k, job, history))
  {
    hide JoinTokens;
  }

  lemma AttemptDecides(candidates: seq<Model>, world: nat -> Attempt, k: nat, job: Job, history: seq<HistoryRow>)
    requires k < |candidates| && (PassedOver(world(k)) ==> k == |candidates| - 1)
    ensures var end := RunFrom(candidates, world, k, job, history);
            end.tried == k + 1 && Decides(candidates, world, k, k, history, end)
  {
    AttemptEndsAs(candidates, world, k, job, history);
    hide EndsAs, RunFrom, PassedOver;
    assert history + [] == history;
  }

  lemma PassedOverIsSilent(candidates: seq<Model>, world: nat -> Attempt, k: nat, job: Job, history: seq<HistoryRow>)
    requires k + 1 < |candidates| && PassedOver(world(k))
    ensures && RunFrom(candidates, world, k, job, history) ==
               RunFrom(candidates, world, k + 1, JobAfter(world(k), candidates[k], job),
                       HistoryAfter(world(k), candidates[k], history))
            && HistoryAfter(world(k), candidates[k], history) == history + RowOfPassedOver(world(k), candidates[k])
  {
    assert history + [] == history;
  }

  lemma DecidesEarlier(
    candidates: seq<Model>, world: nat -> Attempt, k: nat, n: nat, history: seq<HistoryRow>, end: End)
    requires k < |candidates| && PassedOver(world(k))
    requires Decides(candidates, world, k + 1, n, history + RowOfPassedOver(world(k), candidates[k]), end)
    ensures Decides(candidates, world, k, n, history, end)
  {
    hide EndsAs, PassedOver;
    var row, rest := RowOfPassedOver(world(k), candidates[k]), EarlierRows(candidates, world, k + 1, n);
    assert history + (row + rest) == (history + row) + rest;
  }

  /**
   For every provider behaviour, cancel timing and failure to store, in terms of the attempts alone: models are passed
   over until one shows a token, completes or is the last; that one's attempt decides stream, job row and history.
   */
  lemma {:induction false} RunEndsExactly(
    candidates: seq<Model>, world: nat -> Attempt, k: nat, job: Job, history: seq<HistoryRow>)
    requires k < |candidates|
    ensures var end := RunFrom(candidates, world, k, job, history);
            Decides(candidates, world, k, end.tried - 1, history, end)
    decreases |candidates| - k
  {
    hide *;
    if PassedOver(world(k)) && k + 1 < |candidates| {
      var a, model, end := world(k), candidates[k], RunFrom(candidates, world, k, job, history);
      PassedOverIsSilent(candidates, world, k, job, history);
      RunEndsExactly(candidates, world, k + 1, JobAfter(a, model, job), HistoryAfter(a, model, history));
      DecidesEarlier(candidates, world, k, end.tried - 1, history, end);
    } else {
      AttemptDecides(candidates, world, k, job, history);
    }
  }

  /** How the run from model k goes on after its attempt. */
  lemma AfterAttempt(candidates: seq<Model>, world: nat -> Attempt, k: nat, job: Job, history: seq<HistoryRow>)
    requires k < |candidates|
    ensures var a, model := world(k), candidates[k];
            var shown, after, rows := TokenEvents(Shown(a)), JobAfter(a, model, job), HistoryAfter(a, model, history);
            RunFrom(candidates, world, k, job, history) ==
            match VerdictOf(a)
            case WasCancelled => End(k + 1, shown + [Cancelled], after.(status := JobCancelled), rows)
            case Finished => End(k + 1, shown + [Completed], after, rows)
            case Broke(reason) =>
              if Shown(a) == [] && k + 1 < |candidates| then RunFrom(candidates, world, k + 1, after, rows)
              else End(k + 1, shown + [Failed(reason)], after.(status := JobFailed, error := Some(reason)), rows)
  {}

  class GenerationService {
    var job: Option<Job>
    var stream: seq<StreamEvent>
    var history: seq<HistoryRow>

    /** Publishes tokens as the provider yields them, until it ends or the job is seen cancelled. */
    method StreamTokens(a: Attempt) returns (output: seq<string>, cancelled: bool)
      modifies this`stream
      ensures cancelled == SeenCancelled(a) && output == Shown(a)
      ensures stream == old(stream) + TokenEvents(output)
      ensures a.cancelAt.Some? && a.cancelAt.value < |a.tokens| ==>
                && cancelled && output == a.tokens[..a.cancelAt.value]
                && stream == old(stream) + TokenEvents(a.tokens[..a.cancelAt.value])
      ensures a.cancelAt.None? || |a.tokens| <= a.cancelAt.value ==>
                !cancelled && output == a.tokens && stream == old(stream) + TokenEvents(a.tokens)
    {
      output := [];
      var i := 0;
      while i < |a.tokens|
        invariant 0 <= i <= |a.tokens| && (a.cancelAt.Some? ==> i <= a.cancelAt.value || |a.tokens| <= a.cancelAt.value)
        invariant output == a.tokens[..i] && stream == old(stream) + TokenEvents(output)
      {
        if a.cancelAt == Some(i) { return output, true; }
        output := output + [a.tokens[i]];
        stream := stream + [Token(a.tokens[i])];
        i := i + 1;
      }
      return output, false;
    }

    /** One candidate: mark the job streaming, stream its tokens, and store the result if they all came. */
    method TryModel(model: Model, a: Attempt) returns (verdict: Verdict, output: seq<string>)
      requires job.Some?
      modifies this
      ensures verdict == VerdictOf(a) && output == Shown(a)
      ensures stream == old(stream) + TokenEvents(output)
      ensures job == Some(JobAfter(a, model, old(job).value)) && history == HistoryAfter(a, model, old(history))
    {
      job := Some(job.value.(status := Streaming, model := model));
      var cancelled: bool;
      output, cancelled := StreamTokens(a);
      if cancelled { return WasCancelled, output; }
      if a.raises.Some? { return Broke(a.raises.value), output; }
      if a.completion.FailsBefore? { return Broke(a.completion.reason), output; }
      job := Some(job.value.(status := JobCompleted, response := Some(JoinTokens(output))));
      history := history + [HistoryRow(model, JoinTokens(output))];
      if a.completion.FailsAfter? { return Broke(a.completion.reason), output; }
      return Finished, output;
    }

    /** The result is Err for a missing job and for a failed one, whose exception is raised again. */
    method RunJob(candidates: seq<Model>, world: nat -> Attempt) returns (r: Result<(), string>)
      requires candidates != [] && Distinct(candidates)
      modifies this
      ensures old(job).None? ==> r.Err? && job == None && stream == old(stream) && history == old(history)
      ensures old(job).Some? ==>
                var end := RunFrom(candidates, world, 0, old(job).value, old(history));
                && job == Some(end.job) && stream == old(stream) + end.stream && history == end.history
                && (r.Err? <==> end.stream != [] && end.stream[|end.stream| - 1].Failed?)
                && Decides(candidates, world, 0, end.tried - 1, old(history), end)
    {
      hide RunFrom, JobAfter, HistoryAfter, VerdictOf, Shown, Decides, EndsAs, PassedOver, HasFailed, EarlierRows;
      if job == None { return Err("Generation job was not found"); }
      ghost var whole := RunFrom(candidates, world, 0, job.value, history);
      RunEndsExactly(candidates, world, 0, job.value, history);
      var k := 0;
      while k < |candidates|
        invariant 0 <= k < |candidates|
        invariant job.Some? && stream == old(stream)
        invariant whole == RunFrom(candidates, world, k, job.value, history)
        decreases |candidates| - k
      {
        AfterAttempt(candidates, world, k, job.value, history);
        var verdict, output := TryModel(candidates[k], world(k));
        match verdict {
          case WasCancelled =>
            job := Some(job.value.(status := JobCancelled));
            stream := stream + [Cancelled];
            return Ok(());
          case Finished =>
            stream := stream + [Completed];
            return Ok(());
          case Broke(reason) =>
            if output != [] || candidates[k] == candidates[|candidates| - 1] {
              job := Some(job.value.(status := JobFailed, error := Some(reason)));
              stream := stream + [Failed(reason)];
              return Err(reason);
            }
        }
        assert TokenEvents([]) == [];
        k := k + 1;
      }
    }
  }
}
