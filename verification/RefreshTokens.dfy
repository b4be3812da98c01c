/** Refresh-token rotation.  A token's jti is the position of its row. */
module RefreshTokens {
  import opened Prelude

  datatype Row = Row(user: Uuid, expiresAt: int, revokedAt: Option<int>, replacedBy: Option<nat>)

  datatype Error = InvalidRefreshToken | InvalidToken

  /** The deadline and user state a request meets are part of the step. */
  datatype Step =
    | Issue(user: Uuid, expiresAt: int)                                // login, switch_account
    | Exchange(jti: nat, now: int, userActive: bool, expiresAt: int)   // refresh
    | Logout(accessUser: Uuid, jti: nat, now: int)
    | ResetPassword(user: Uuid, now: int)

  /** The row the refresh query finds: present, not revoked and not expired. */
  predicate Usable(rows: seq<Row>, jti: nat, now: int) {
    jti < |rows| && rows[jti].revokedAt.None? && now < rows[jti].expiresAt
  }

  predicate Exchanges(rows: seq<Row>, step: Step) {
    step.Exchange? && Usable(rows, step.jti, step.now) && step.userActive
  }

  /** The bulk update of a password reset. */
  function RevokeAll(rows: seq<Row>, user: Uuid, now: int): (next: seq<Row>)
    ensures |next| == |rows|
    ensures forall k :: 0 <= k < |rows| ==>
              next[k] ==
              if rows[k].user == user && rows[k].revokedAt.None? then rows[k].(revokedAt := Some(now)) else rows[k]
  {
    if rows == [] then []
    else
      var n := |rows| - 1;
      RevokeAll(rows[..n], user, now) +
      [if rows[n].user == user && rows[n].revokedAt.None? then rows[n].(revokedAt := Some(now)) else rows[n]]
  }

  function Next(rows: seq<Row>, step: Step): seq<Row> {
    match step
    case Issue(user, expiresAt) => rows + [Row(user, expiresAt, None, None)]
    case Exchange(jti, now, userActive, expiresAt) =>
      if Usable(rows, jti, now) && userActive then
        rows[jti := rows[jti].(revokedAt := Some(now), replacedBy := Some(|rows|))]
          + [Row(rows[jti].user, expiresAt, None, None)]
      else rows
    case Logout(accessUser, jti, now) =>
      if jti < |rows| && rows[jti].user == accessUser && rows[jti].revokedAt.None? then
        rows[jti := rows[jti].(revokedAt := Some(now))]
      else rows
    case ResetPassword(user, now) => RevokeAll(rows, user, now)
  }

  function RunAll(rows: seq<Row>, steps: seq<Step>): seq<Row> {
    if steps == [] then rows else Next(RunAll(rows, steps[..|steps| - 1]), steps[|steps| - 1])
  }

  /** How often a token was exchanged in a run. */
  function Count(rows: seq<Row>, steps: seq<Step>, jti: nat): nat {
    if steps == [] then 0
    else
      var n := |steps| - 1;
      Count(rows, steps[..n], jti)
      + if Exchanges(RunAll(rows, steps[..n]), steps[n]) && steps[n].jti == jti then 1 else 0
  }

  // ---------- chains ----------

  /** A link goes to a later row of the same user, only from a revoked row, and no two rows share a target. */
  predicate Chained(rows: seq<Row>) {
    && (forall a :: 0 <= a < |rows| && rows[a].replacedBy.Some? ==>
          && rows[a].revokedAt.Some?
          && a < rows[a].replacedBy.value < |rows|
          && rows[rows[a].replacedBy.value].user == rows[a].user)
    && (forall a, b :: 0 <= a < b < |rows| && rows[a].replacedBy.Some? ==> rows[b].replacedBy != rows[a].replacedBy)
  }

  lemma StepKeepsChained(rows: seq<Row>, step: Step)
    requires Chained(rows)
    ensures Chained(Next(rows, step))
  {
    match step
    case Exchange(jti, now, userActive, expiresAt) => ExchangeKeepsChained(rows, jti, now, userActive, expiresAt);
    case Issue(user, expiresAt) => assert forall k :: 0 <= k < |rows| ==> Next(rows, step)[k] == rows[k];
    case _ =>
      assert forall k :: 0 <= k < |rows| ==>
        Next(rows, step)[k].user == rows[k].user && Next(rows, step)[k].replacedBy == rows[k].replacedBy;
  }

  lemma ExchangeKeepsChained(rows: seq<Row>, jti: nat, now: int, userActive: bool, expiresAt: int)
    requires Chained(rows)
    ensures Chained(Next(rows, Exchange(jti, now, userActive, expiresAt)))
  {
    if Usable(rows, jti, now) && userActive {
      var next := Next(rows, Exchange(jti, now, userActive, expiresAt));
      assert next[jti].replacedBy == Some(|rows|) && next[|rows|].user == rows[jti].user;
      assert forall k :: 0 <= k < |rows| && k != jti ==> next[k] == rows[k];
    }
  }

  lemma {:induction false} RunKeepsChained(steps: seq<Step>)
    ensures Chained(RunAll([], steps))
  {
    if steps != [] {
      RunKeepsChained(steps[..|steps| - 1]);
      StepKeepsChained(RunAll([], steps[..|steps| - 1]), steps[|steps| - 1]);
    }
  }

  /** The row n links on from a row. */
  function Follow(rows: seq<Row>, jti: nat, n: nat): (end: Option<nat>)
    requires Chained(rows) && jti < |rows|
    ensures end.Some? ==> jti + n <= end.value < |rows| && rows[end.value].user == rows[jti].user
    ensures end.Some? && 0 < n ==> rows[jti].revokedAt.Some?
    decreases n
  {
    if n == 0 then Some(jti)
    else if rows[jti].replacedBy.None? then None
    else Follow(rows, rows[jti].replacedBy.value, n - 1)
  }

  lemma {:induction false} FollowLast(rows: seq<Row>, jti: nat, n: nat)
    requires Chained(rows) && jti < |rows| && 0 < n
    ensures Follow(rows, jti, n) ==
            var before := Follow(rows, jti, n - 1); if before.None? then None else rows[before.value].replacedBy
    decreases n
  {
    if n > 1 && rows[jti].replacedBy.Some? {
      FollowLast(rows, rows[jti].replacedBy.value, n - 1);
    }
  }

  /** Chains never merge: if two rows reach the same row, one of them is on the way from the other. */
  lemma {:induction false} ChainsNeverMerge(rows: seq<Row>, a: nat, m: nat, b: nat, n: nat)
    requires Chained(rows) && a < |rows| && b < |rows| && m <= n
    requires Follow(rows, a, m).Some? && Follow(rows, a, m) == Follow(rows, b, n)
    ensures Follow(rows, b, n - m) == Some(a)
    decreases m
  {
    if m > 0 {
      FollowLast(rows, a, m);
      FollowLast(rows, b, n);
      var x, y := Follow(rows, a, m - 1).value, Follow(rows, b, n - 1).value;
      assert rows[x].replacedBy == rows[y].replacedBy;
      assert x == y;
      ChainsNeverMerge(rows, a, m - 1, b, n - 1);
    }
  }

  /** In every run the links are acyclic, and only the end of a chain can be unrevoked. */
  lemma ChainsAreSimple(steps: seq<Step>, jti: nat, n: nat)
    requires jti < |RunAll([], steps)|
    ensures Chained(RunAll([], steps))
    ensures 0 < n ==> Follow(RunAll([], steps), jti, n) != Some(jti)
    ensures RunAll([], steps)[jti].revokedAt.None? ==> Follow(RunAll([], steps), jti, 1).None?
  {
    RunKeepsChained(steps);
  }

  // ---------- what a token can still do ----------

  /** Rows are never removed or moved, and a revoked row never changes again. */
  lemma {:induction false} RevokedRowsAreFinal(rows: seq<Row>, steps: seq<Step>, jti: nat)
    requires jti < |rows|
    ensures |rows| <= |RunAll(rows, steps)| && RunAll(rows, steps)[jti].user == rows[jti].user
    ensures rows[jti].revokedAt.Some? ==> RunAll(rows, steps)[jti] == rows[jti] && Count(rows, steps, jti) == 0
  {
    if steps != [] {
      RevokedRowsAreFinal(rows, steps[..|steps| - 1], jti);
    }
  }

  /** Over every run, a token was exchanged once if its row names a replacement and never otherwise. */
  lemma {:induction false} ExchangedAtMostOnce(steps: seq<Step>, jti: nat)
    ensures Count([], steps, jti) ==
            if jti < |RunAll([], steps)| && RunAll([], steps)[jti].replacedBy.Some? then 1 else 0
  {
    if steps != [] {
      var before, step := RunAll([], steps[..|steps| - 1]), steps[|steps| - 1];
      ExchangedAtMostOnce(steps[..|steps| - 1], jti);
      RunKeepsChained(steps[..|steps| - 1]);
      if jti < |before| && before[jti].replacedBy.Some? {
        assert before[jti].revokedAt.Some?;
      }
    }
  }

  /** The steps that end a token of this user and deadline: its own exchange, its logout, and a reset of its user. */
  predicate Ends(step: Step, jti: nat, user: Uuid, expiresAt: int) {
    match step
    case Issue(_, _) => false
    case Exchange(j, now, userActive, _) => j == jti && userActive && now < expiresAt
    case Logout(u, j, _) => j == jti && u == user
    case ResetPassword(u, _) => u == user
  }

  lemma StepEndsExactly(rows: seq<Row>, step: Step, jti: nat)
    requires jti < |rows| && rows[jti].revokedAt.None?
    ensures var next := Next(rows, step);
            && jti < |next| && next[jti].user == rows[jti].user && next[jti].expiresAt == rows[jti].expiresAt
            && (next[jti].revokedAt.None? <==> !Ends(step, jti, rows[jti].user, rows[jti].expiresAt))
  {}

  /**
   A token that is not revoked can be used, after any run, exactly until its own deadline and as long as it was not
   exchanged, logged out or ended by a reset of its user's password.
   */
  lemma {:induction false} TokenLivesExactly(rows: seq<Row>, steps: seq<Step>, jti: nat, at: int)
    requires jti < |rows| && rows[jti].revokedAt.None?
    ensures var after := RunAll(rows, steps);
            && jti < |after| && after[jti].user == rows[jti].user && after[jti].expiresAt == rows[jti].expiresAt
            && (Usable(after, jti, at) <==>
                  && at < rows[jti].expiresAt
                  && forall k :: 0 <= k < |steps| ==> !Ends(steps[k], jti, rows[jti].user, rows[jti].expiresAt))
    ensures RunAll(rows, steps)[jti].revokedAt.None? <==>
            forall k :: 0 <= k < |steps| ==> !Ends(steps[k], jti, rows[jti].user, rows[jti].expiresAt)
  {
    if steps != [] {
      var n := |steps| - 1;
      var before := RunAll(rows, steps[..n]);
      TokenLivesExactly(rows, steps[..n], jti, at);
      assert forall k :: 0 <= k < n ==> steps[..n][k] == steps[k];
      if before[jti].revokedAt.None? {
        StepEndsExactly(before, steps[n], jti);
      } else {
        RevokedRowsAreFinal(before, [steps[n]], jti);
        assert [steps[n]][..0] == [] && RunAll(before, [steps[n]]) == Next(before, steps[n]);
      }
    }
  }

  /**
   A login of any kind gives its user a token of the deadline asked for, and touches no other; an exchange does so
   for the user of a token that can be used, and ends that token.  Nothing else gives tokens.
   */
  lemma NewTokensExactly(rows: seq<Row>, step: Step)
    ensures var next := Next(rows, step);
            && |rows| <= |next| <= |rows| + 1
            && (|next| == |rows| + 1 <==>
                  step.Issue?
                  || (step.Exchange? && step.userActive && step.jti < |rows| && rows[step.jti].revokedAt.None?
                      && step.now < rows[step.jti].expiresAt))
            && (|next| == |rows| + 1 ==>
                  && next[|rows|].user == (if step.Issue? then step.user else rows[step.jti].user)
                  && next[|rows|].replacedBy.None?
                  && (forall at :: Usable(next, |rows|, at) <==> at < step.expiresAt)
                  && (forall k :: 0 <= k < |rows| && (step.Exchange? ==> k != step.jti) ==> next[k] == rows[k])
                  && (step.Exchange? ==>
                        && next[step.jti].replacedBy == Some(|rows|) && next[step.jti].revokedAt == Some(step.now)
                        && forall at :: !Usable(next, step.jti, at)))
  {}

  lemma {:induction false} RunKeepsChainedFrom(rows: seq<Row>, steps: seq<Step>)
    requires Chained(rows)
    ensures Chained(RunAll(rows, steps))
  {
    if steps != [] {
      RunKeepsChainedFrom(rows, steps[..|steps| - 1]);
      StepKeepsChained(RunAll(rows, steps[..|steps| - 1]), steps[|steps| - 1]);
    }
  }

  lemma {:induction false} OldChainsStayOld(reset: seq<Row>, steps: seq<Step>, user: Uuid, jti: nat, n: nat)
    requires Chained(reset) && Chained(RunAll(reset, steps)) && jti < |reset| <= |RunAll(reset, steps)|
        && reset[jti].user == user
    requires forall k :: 0 <= k < |reset| && reset[k].user == user ==> reset[k].revokedAt.Some?
    ensures var end := Follow(RunAll(reset, steps), jti, n); end.Some? ==> end.value < |reset|
    decreases n
  {
    RevokedRowsAreFinal(reset, steps, jti);
    if n > 0 && reset[jti].replacedBy.Some? {
      OldChainsStayOld(reset, steps, user, reset[jti].replacedBy.value, n - 1);
    }
  }

  /**
   After a password reset no row of the user that existed before is exchanged or changes, and the chains of
   those rows stay among them: whatever the user can still refresh comes from a login after the reset.
   */
  lemma ResetEndsOldChains(rows: seq<Row>, user: Uuid, now: int, steps: seq<Step>, jti: nat, n: nat)
    requires Chained(rows) && jti < |rows| && rows[jti].user == user
    ensures var reset := RevokeAll(rows, user, now);
            var after := RunAll(reset, steps);
            && Count(reset, steps, jti) == 0
            && |rows| <= |after| && after[jti] == reset[jti]
            && Chained(after) && (Follow(after, jti, n).Some? ==> Follow(after, jti, n).value < |rows|)
  {
    var reset := RevokeAll(rows, user, now);
    StepKeepsChained(rows, ResetPassword(user, now));
    RunKeepsChainedFrom(reset, steps);
    RevokedRowsAreFinal(reset, steps, jti);
    OldChainsStayOld(reset, steps, user, jti, n);
  }
}
