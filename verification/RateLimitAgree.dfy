/** The script and the list answer alike, exactly as long as no admitted request repeats the member of another. */
module RateLimitAgree {
  import opened Prelude
  import opened RateLimit

  // ---------- one request ----------

  function Scores(items: seq<Member>): seq<int> {
    seq(|items|, i requires 0 <= i < |items| => items[i].score)
  }

  predicate Sorted(stamps: seq<int>) { forall i, j :: 0 <= i < j < |stamps| ==> stamps[i] <= stamps[j] }

  predicate Between(stamps: seq<int>, lo: int, hi: int) { forall i :: 0 <= i < |stamps| ==> lo <= stamps[i] <= hi }

  /** The sorted set holds the stamps of the list, and its key outlives the newest of them by one window. */
  predicate Matches(stamps: seq<int>, key: Option<ZSet>, window: pos) {
    if stamps == [] then key.None?
    else key.Some? && Scores(key.value.items) == stamps && key.value.deadline == stamps[|stamps| - 1] + window
  }

  lemma {:induction false} NewerKeepsOrder(stamps: seq<int>, cutoff: int, lo: int, hi: int)
    requires Sorted(stamps) && Between(stamps, lo, hi)
    ensures Sorted(Newer(stamps, cutoff)) && Between(Newer(stamps, cutoff), lo, hi)
        && Between(Newer(stamps, cutoff), cutoff + 1, Max(hi, cutoff + 1))
    ensures stamps != [] && stamps[|stamps| - 1] > cutoff ==>
              Newer(stamps, cutoff) != [] && Newer(stamps, cutoff)[|Newer(stamps, cutoff)| - 1] == stamps[|stamps| - 1]
    ensures stamps != [] && stamps[|stamps| - 1] <= cutoff ==> Newer(stamps, cutoff) == []
  {
    if stamps != [] {
      var n := |stamps| - 1;
      NewerKeepsOrder(stamps[..n], cutoff, lo, stamps[n]);
      assert n > 0 ==> stamps[n - 1] <= stamps[n];
    }
  }

  lemma {:induction false} RemoveMatchesNewer(items: seq<Member>, cutoff: int)
    requires forall i :: 0 <= i < |items| ==> items[i].score >= 0
    ensures Scores(RemoveByScore(items, 0, cutoff)) == Newer(Scores(items), cutoff)
  {
    if items != [] {
      var n := |items| - 1;
      RemoveMatchesNewer(items[..n], cutoff);
      assert Scores(items)[..n] == Scores(items[..n]);
    }
  }

  lemma {:induction false} RemoveMembers(items: seq<Member>, lo: int, hi: int)
    ensures forall m :: m in RemoveByScore(items, lo, hi) <==> m in items && !(lo <= m.score <= hi)
    ensures InOrder(items) ==> InOrder(RemoveByScore(items, lo, hi))
  {
    if items != [] {
      var n := |items| - 1;
      RemoveMembers(items[..n], lo, hi);
      assert items == items[..n] + [items[n]];
    }
  }

  /** The order Redis keeps: by score, then by member, no member twice. */
  predicate InOrder(items: seq<Member>) { forall i, j :: 0 <= i < j < |items| ==> Before(items[i], items[j]) }

  /** Adding a member that is there changes nothing. */
  lemma {:induction false} AddPresent(items: seq<Member>, m: Member)
    requires InOrder(items) && m in items
    ensures Add(items, m) == items
  {
    hide InOrder;
    if items[0] != m {
      var first, rest := items[0], items[1..];
      assert items == [first] + rest;
      TailInOrder(items);
      assert Before(first, m) && !Before(m, first);
      AddPresent(rest, m);
    }
  }

  lemma TailInOrder(items: seq<Member>)
    requires items != [] && InOrder(items)
    ensures InOrder(items[1..])
    ensures forall m :: m in items[1..] ==> Before(items[0], m)
  {
    forall i, j | 0 <= i < j < |items[1..]| ensures Before(items[1..][i], items[1..][j]) {
      assert items[1..][i] == items[i + 1] && items[1..][j] == items[j + 1];
    }
  }

  lemma {:induction false} AddAbsent(items: seq<Member>, m: Member)
    requires InOrder(items) && m !in items
    ensures InOrder(Add(items, m)) && forall x :: x in Add(items, m) <==> x in items || x == m
  {
    if items != [] && !Before(m, items[0]) {
      AddAbsent(items[1..], m);
      assert items == [items[0]] + items[1..];
      var rest := Add(items[1..], m);
      forall i | 0 <= i < |rest| ensures Before(items[0], rest[i]) {
        assert rest[i] in rest;
      }
    }
  }

  lemma ScoresPrepend(m: Member, items: seq<Member>)
    ensures Scores([m] + items) == [m.score] + Scores(items)
  {}

  /** A new member with the latest time goes in after all earlier times, wherever ties put it. */
  lemma {:induction false} AddAppendsScore(items: seq<Member>, m: Member)
    requires m !in items && forall i :: 0 <= i < |items| ==> items[i].score <= m.score
    requires Sorted(Scores(items))
    ensures Scores(Add(items, m)) == Scores(items) + [m.score]
  {
    if items != [] {
      var first, rest := items[0], items[1..];
      assert items == [first] + rest;
      if Before(m, first) {
        SameScores(items, m.score);
        ScoresPrepend(m, items);
      } else {
        assert Scores(items)[1..] == Scores(rest);
        assert forall i :: 0 <= i < |rest| ==> rest[i] == items[i + 1];
        AddAppendsScore(rest, m);
        ScoresPrepend(first, Add(rest, m));
        ScoresPrepend(first, rest);
        assert [first.score] + (Scores(rest) + [m.score]) == ([first.score] + Scores(rest)) + [m.score];
      }
    }
  }

  /** If the oldest of the items is as new as the newest possible, they all have that time. */
  lemma SameScores(items: seq<Member>, score: int)
    requires items != [] && items[0].score == score && Sorted(Scores(items))
    requires forall i :: 0 <= i < |items| ==> items[i].score <= score
    ensures [score] + Scores(items) == Scores(items) + [score]
  {
    forall i | 0 <= i < |items| ensures Scores(items)[i] == score {
      assert Scores(items)[0] <= Scores(items)[i];
    }
  }

  lemma CeilIsRoundedUp(x: int)
    requires x > 0
    ensures CeilThousandth(x) == (x + 999) / 1000 == Max(1, (x + 999) / 1000)
  {}

  /** What is left of the sorted set after its purge and its key expiry is what is left of the list. */
  lemma PurgeAgrees(stamps: seq<int>, key: Option<ZSet>, window: pos, last: int, now: int)
    requires Matches(stamps, key, window) && Sorted(stamps) && Between(stamps, 0, last) && last <= now
    ensures Scores(Purged(key, now, window)) == Newer(stamps, now - window)
    ensures var left := Newer(stamps, now - window);
            && Sorted(left) && Between(left, 0, now)
            && (left != [] ==> stamps != [] && left[|left| - 1] == stamps[|stamps| - 1] && left[0] > now - window)
  {
    var items := if key.None? || key.value.deadline <= now then [] else key.value.items;
    NewerKeepsOrder(stamps, now - window, 0, last);
    assert key.Some? ==>
      forall i :: 0 <= i < |key.value.items| ==> key.value.items[i].score == Scores(key.value.items)[i];
    RemoveMatchesNewer(items, now - window);
  }

  /** The members left are those of the set that are newer than the window's start, still in order. */
  lemma PurgedMembers(stamps: seq<int>, key: Option<ZSet>, window: pos, last: int, now: int)
    requires Matches(stamps, key, window) && Sorted(stamps) && Between(stamps, 0, last)
    requires key.Some? ==> InOrder(key.value.items)
    ensures InOrder(Purged(key, now, window))
    ensures forall m :: m in Purged(key, now, window) <==> key.Some? && m in key.value.items && m.score > now - window
  {
    if key.Some? {
      var items := key.value.items;
      forall m | m in items ensures 0 <= m.score <= key.value.deadline - window {
        var i :| 0 <= i < |items| && items[i] == m;
        assert m.score == Scores(items)[i] == stamps[i];
      }
      RemoveMembers(items, 0, now - window);
    }
  }

  /** A request that is let in: a new member's stamp goes last in both; one already there leaves the set as it is. */
  lemma AdmitAgrees(left: seq<int>, kept: seq<Member>, window: pos, now: int, request: nat)
    requires Scores(kept) == left && Sorted(left) && Between(left, 0, now) && now >= 0 && InOrder(kept)
    ensures Matches(left + [now], Some(ZSet(Add(kept, Member(now, request)), now + window)), window) <==>
            Member(now, request) !in kept
    ensures Sorted(left + [now]) && Between(left + [now], 0, now)
  {
    assert forall i :: 0 <= i < |kept| ==> kept[i].score == Scores(kept)[i];
    if Member(now, request) in kept {
      AddPresent(kept, Member(now, request));
      assert |Scores(kept)| == |kept|;
    } else {
      AddAppendsScore(kept, Member(now, request));
    }
  }

  /**
   One request on matching states: the same answer, whatever the member, and matching states again exactly when it
   is refused or its member is new.  The maximum with one never matters.
   */
  lemma StepAgreesExactly(stamps: seq<int>, key: Option<ZSet>, window: pos, last: int, r: Request)
    requires Matches(stamps, key, window) && Sorted(stamps) && Between(stamps, 0, last) && last <= r.now && r.now >= 0
    requires key.Some? ==> InOrder(key.value.items)
    ensures var a, b := ListEval(stamps, r.now, window, r.limit), ScriptEval(key, r.now, window, r.limit, r.id);
            && a.reply == b.reply
            && (Matches(a.state, b.state, window) <==> !(Allowed(a.reply) && MemberOf(r) in Purged(key, r.now, window)))
            && Sorted(a.state) && Between(a.state, 0, r.now)
  {
    PurgeAgrees(stamps, key, window, last, r.now);
    PurgedMembers(stamps, key, window, last, r.now);
    var kept, left := Purged(key, r.now, window), Newer(stamps, r.now - window);
    assert |kept| == |left|;
    if |left| < r.limit {
      AdmitAgrees(left, kept, window, r.now, r.id);
    } else if left != [] {
      assert kept[0].score == Scores(kept)[0] == left[0];
      CeilIsRoundedUp(left[0] + window - r.now);
    }
  }

  // ---------- which members the sorted set holds ----------

  /** The members of the requests that the list form admits. */
  function AdmittedMembers(requests: seq<Request>, window: pos): seq<Member> {
    if requests == [] then []
    else
      var n := |requests| - 1;
      if Allowed(ListReply(requests[..n], window, requests[n]))
      then AdmittedMembers(requests[..n], window) + [MemberOf(requests[n])] else AdmittedMembers(requests[..n], window)
  }

  /** No admitted request has the time and id of another one. */
  predicate NoRepeat(requests: seq<Request>, window: pos) {
    requests == []
    || (var n := |requests| - 1;
        && NoRepeat(requests[..n], window)
        && !(Allowed(ListReply(requests[..n], window, requests[n]))
             && MemberOf(requests[n]) in AdmittedMembers(requests[..n], window)))
  }

  /** The set holds admitted members only, and all of those in the window before time now. */
  ghost predicate HoldsAdmitted(key: Option<ZSet>, members: seq<Member>, now: int, window: pos) {
    && (key.Some? ==> InOrder(key.value.items) && forall m :: m in key.value.items ==> m in members)
    && (forall m :: m in members && m.score > now - window ==> key.Some? && m in key.value.items)
    && (forall m :: m in members ==> m.score <= now)
  }

  /** Where both forms stand after the same requests, the last of them at time last. */
  ghost predicate Tracked(stamps: seq<int>, key: Option<ZSet>, members: seq<Member>, window: pos, last: int) {
    && Matches(stamps, key, window) && Sorted(stamps) && Between(stamps, 0, last) && last >= 0
    && HoldsAdmitted(key, members, last, window)
  }

  /** A member of the request's own time is in the purged set exactly when it was admitted before. */
  lemma RepeatIsPresent(stamps: seq<int>, key: Option<ZSet>, members: seq<Member>, window: pos, last: int, r: Request)
    requires Tracked(stamps, key, members, window, last) && last <= r.now
    ensures MemberOf(r) in Purged(key, r.now, window) <==> MemberOf(r) in members
  {
    PurgedMembers(stamps, key, window, last, r.now);
  }

  lemma StepHoldsAdmitted(stamps: seq<int>, key: Option<ZSet>, members: seq<Member>, window: pos, last: int, r: Request)
    requires Tracked(stamps, key, members, window, last) && last <= r.now
    requires Allowed(ListEval(stamps, r.now, window, r.limit).reply) ==> MemberOf(r) !in members
    ensures var a, b := ListEval(stamps, r.now, window, r.limit), ScriptEval(key, r.now, window, r.limit, r.id);
            Tracked(a.state, b.state, if Allowed(a.reply) then members + [MemberOf(r)] else members, window, r.now)
  {
    StepAgreesExactly(stamps, key, window, last, r);
    RepeatIsPresent(stamps, key, members, window, last, r);
    PurgedMembers(stamps, key, window, last, r.now);
    var kept := Purged(key, r.now, window);
    if |kept| < r.limit {
      AddAbsent(kept, MemberOf(r));
    }
  }

  /** While no admitted request repeats a member, the states match. */
  lemma {:induction false} StatesMatch(requests: seq<Request>, window: pos)
    requires ClockOk(requests) && NoRepeat(requests, window)
    ensures Tracked(ListAfter(requests, window), ScriptAfter(requests, window), AdmittedMembers(requests, window),
                    window, LastTime(requests))
  {
    if requests != [] {
      var n := |requests| - 1;
      StatesMatch(requests[..n], window);
      StepHoldsAdmitted(ListAfter(requests[..n], window), ScriptAfter(requests[..n], window),
                        AdmittedMembers(requests[..n], window), window, LastTime(requests[..n]), requests[n]);
    }
  }

  // ---------- the two forms agree ----------

  /** The next request, whatever its limit and id, gets the same answer from both forms. */
  ghost predicate AgreeAfter(requests: seq<Request>, window: pos) {
    forall r: Request :: LastTime(requests) <= r.now
        ==> ListReply(requests, window, r) == ScriptReply(requests, window, r)
  }

  ghost predicate AgreeThroughout(requests: seq<Request>, window: pos) {
    AgreeAfter(requests, window) && (requests != [] ==> AgreeThroughout(requests[..|requests| - 1], window))
  }

  /**
   The limiters give the same decision, count and retry time to every next request, after every prefix, exactly when
   no admitted request repeats the member of another one.
   */
  lemma {:induction false} LimitersAgreeExactly(requests: seq<Request>, window: pos)
    requires ClockOk(requests)
    ensures AgreeThroughout(requests, window) <==> NoRepeat(requests, window)
  {
    if NoRepeat(requests, window) {
      AgreeWithoutRepeat(requests, window);
      if requests != [] { LimitersAgreeExactly(requests[..|requests| - 1], window); }
    } else {
      LimitersAgreeExactly(requests[..|requests| - 1], window);
      if NoRepeat(requests[..|requests| - 1], window) { DisagreeAfterRepeat(requests, window); }
    }
  }

  lemma AgreeWithoutRepeat(requests: seq<Request>, window: pos)
    requires ClockOk(requests) && NoRepeat(requests, window)
    ensures AgreeAfter(requests, window)
  {
    StatesMatch(requests, window);
    forall r: Request | LastTime(requests) <= r.now
        ensures ListReply(requests, window, r) == ScriptReply(requests, window, r) {
      StepAgreesExactly(ListAfter(requests, window), ScriptAfter(requests, window), window, LastTime(requests), r);
    }
  }

  predicate AllAbove(stamps: seq<int>, cutoff: int) { forall i :: 0 <= i < |stamps| ==> stamps[i] > cutoff }

  predicate MembersAbove(items: seq<Member>, cutoff: int) { forall m :: m in items ==> m.score > cutoff }

  /** A repeated member leaves the set as it was. */
  lemma RepeatLeavesSet(stamps: seq<int>, key: Option<ZSet>, members: seq<Member>, window: pos, last: int, r: Request)
    requires Tracked(stamps, key, members, window, last) && last <= r.now && MemberOf(r) in members
    ensures Add(Purged(key, r.now, window), MemberOf(r)) == Purged(key, r.now, window)
  {
    RepeatIsPresent(stamps, key, members, window, last, r);
    assert InOrder(Purged(key, r.now, window)) by { PurgedMembers(stamps, key, window, last, r.now); }
    AddPresent(Purged(key, r.now, window), MemberOf(r));
  }

  lemma PurgedSize(stamps: seq<int>, key: Option<ZSet>, window: pos, last: int, now: int)
    requires Matches(stamps, key, window) && Sorted(stamps) && Between(stamps, 0, last) && last <= now
    ensures |Purged(key, now, window)| == |Newer(stamps, now - window)|
  {
    PurgeAgrees(stamps, key, window, last, now);
    SizeFromScores(Purged(key, now, window), Newer(stamps, now - window));
  }

  lemma SizeFromScores(items: seq<Member>, stamps: seq<int>)
    requires Scores(items) == stamps
    ensures |items| == |stamps|
  {}

  lemma NewerIsAbove(stamps: seq<int>, last: int, cutoff: int)
    requires Sorted(stamps) && Between(stamps, 0, last)
    ensures AllAbove(Newer(stamps, cutoff), cutoff)
  {
    NewerKeepsOrder(stamps, cutoff, 0, last);
  }

  lemma PurgedIsAbove(stamps: seq<int>, key: Option<ZSet>, window: pos, last: int, now: int)
    requires Matches(stamps, key, window) && Sorted(stamps) && Between(stamps, 0, last)
    requires key.Some? ==> InOrder(key.value.items)
    ensures MembersAbove(Purged(key, now, window), now - window)
  {
    PurgedMembers(stamps, key, window, last, now);
  }

  lemma AdmittedStates(stamps: seq<int>, key: Option<ZSet>, window: pos, r: Request)
    requires |Purged(key, r.now, window)| == |Newer(stamps, r.now - window)| < r.limit
    requires Add(Purged(key, r.now, window), MemberOf(r)) == Purged(key, r.now, window)
    ensures ListEval(stamps, r.now, window, r.limit).state == Newer(stamps, r.now - window) + [r.now]
    ensures ScriptEval(key, r.now, window, r.limit, r.id).state
        == Some(ZSet(Purged(key, r.now, window), r.now + window))
  {}

  /** A limit in between reveals that the set is one short: the list refuses ... */
  lemma ListRefuses(left: seq<int>, window: pos, now: int)
    requires AllAbove(left, now - window)
    ensures !Allowed(ListEval(left + [now], now, window, |left| + 1).reply)
  {
    NewerOfNew(left + [now], now - window);
  }

  /** ... and the set admits. */
  lemma SetAdmits(kept: seq<Member>, window: pos, now: int, request: nat)
    requires MembersAbove(kept, now - window)
    ensures Allowed(ScriptEval(Some(ZSet(kept, now + window)), now, window, |kept| + 1, request).reply)
  {
    RemoveNone(kept, now - window);
  }

  lemma LastStates(requests: seq<Request>, window: pos)
    requires requests != []
    ensures var before, r := requests[..|requests| - 1], requests[|requests| - 1];
            && ListAfter(requests, window) == ListEval(ListAfter(before, window), r.now, window, r.limit).state
            && ScriptAfter(requests, window)
              == ScriptEval(ScriptAfter(before, window), r.now, window, r.limit, r.id).state
  {}

  lemma LastRepeats(requests: seq<Request>, window: pos)
    requires requests != [] && NoRepeat(requests[..|requests| - 1], window) && !NoRepeat(requests, window)
    ensures var before, r := requests[..|requests| - 1], requests[|requests| - 1];
            && |Newer(ListAfter(before, window), r.now - window)| < r.limit
            && MemberOf(r) in AdmittedMembers(before, window)
  {}

  lemma ShortSetDiffers(stamps: seq<int>, key: Option<ZSet>, window: pos, r: Request)
    requires |Purged(key, r.now, window)| == |Newer(stamps, r.now - window)| < r.limit
    requires Add(Purged(key, r.now, window), MemberOf(r)) == Purged(key, r.now, window)
    requires MembersAbove(Purged(key, r.now, window), r.now - window)
    requires AllAbove(Newer(stamps, r.now - window), r.now - window)
    ensures var a, b := ListEval(stamps, r.now, window, r.limit).state,
        ScriptEval(key, r.now, window, r.limit, r.id).state;
            var limit := |Newer(stamps, r.now - window)| + 1;
            && !Allowed(ListEval(a, r.now, window, limit).reply)
            && Allowed(ScriptEval(b, r.now, window, limit, r.id).reply)
  {
    AdmittedStates(stamps, key, window, r);
    ListRefuses(Newer(stamps, r.now - window), window, r.now);
    SetAdmits(Purged(key, r.now, window), window, r.now, r.id);
  }

  lemma RepeatDiffers(stamps: seq<int>, key: Option<ZSet>, members: seq<Member>, window: pos, last: int, r: Request)
    requires Tracked(stamps, key, members, window, last) && last <= r.now && MemberOf(r) in members
    requires |Newer(stamps, r.now - window)| < r.limit
    ensures var a, b := ListEval(stamps, r.now, window, r.limit).state,
        ScriptEval(key, r.now, window, r.limit, r.id).state;
            var limit := |Newer(stamps, r.now - window)| + 1;
            && !Allowed(ListEval(a, r.now, window, limit).reply)
            && Allowed(ScriptEval(b, r.now, window, limit, r.id).reply)
  {
    hide *;
    RepeatLeavesSet(stamps, key, members, window, last, r);
    TrackedSizes(stamps, key, members, window, last, r.now);
    ShortSetDiffers(stamps, key, window, r);
  }

  lemma TrackedSizes(stamps: seq<int>, key: Option<ZSet>, members: seq<Member>, window: pos, last: int, now: int)
    requires Tracked(stamps, key, members, window, last) && last <= now
    ensures |Purged(key, now, window)| == |Newer(stamps, now - window)|
    ensures MembersAbove(Purged(key, now, window), now - window) && AllAbove(Newer(stamps, now - window), now - window)
  {
    PurgedSize(stamps, key, window, last, now);
    PurgedIsAbove(stamps, key, window, last, now);
    NewerIsAbove(stamps, last, now - window);
  }

  lemma RepeatDiffersAfter(before: seq<Request>, window: pos, r: Request)
    requires ClockOk(before) && LastTime(before) <= r.now && NoRepeat(before, window)
    requires |Newer(ListAfter(before, window), r.now - window)| < r.limit
        && MemberOf(r) in AdmittedMembers(before, window)
    ensures var a := ListEval(ListAfter(before, window), r.now, window, r.limit).state;
            var b := ScriptEval(ScriptAfter(before, window), r.now, window, r.limit, r.id).state;
            var limit := |Newer(ListAfter(before, window), r.now - window)| + 1;
            && !Allowed(ListEval(a, r.now, window, limit).reply)
            && Allowed(ScriptEval(b, r.now, window, limit, r.id).reply)
  {
    hide *;
    StatesMatch(before, window);
    RepeatDiffers(ListAfter(before, window), ScriptAfter(before, window), AdmittedMembers(before, window),
                  window, LastTime(before), r);
  }

  lemma LastClock(requests: seq<Request>)
    requires requests != [] && ClockOk(requests)
    ensures var before, r := requests[..|requests| - 1], requests[|requests| - 1];
            ClockOk(before) && LastTime(before) <= r.now && LastTime(requests) == r.now
  {}

  lemma DisagreeAfterRepeat(requests: seq<Request>, window: pos)
    requires requests != [] && ClockOk(requests)
    requires NoRepeat(requests[..|requests| - 1], window) && !NoRepeat(requests, window)
    ensures !AgreeAfter(requests, window)
  {
    hide *;
    var before, r := requests[..|requests| - 1], requests[|requests| - 1];
    LastClock(requests);
    LastRepeats(requests, window);
    LastStates(requests, window);
    RepeatDiffersAfter(before, window, r);
    RefuteAgreement(requests, window, Request(r.now, |Newer(ListAfter(before, window), r.now - window)| + 1, r.id));
  }

  lemma RefuteAgreement(requests: seq<Request>, window: pos, r: Request)
    requires LastTime(requests) <= r.now
    requires !Allowed(ListEval(ListAfter(requests, window), r.now, window, r.limit).reply)
    requires Allowed(ScriptEval(ScriptAfter(requests, window), r.now, window, r.limit, r.id).reply)
    ensures !AgreeAfter(requests, window)
  {
    assert Allowed(ListReply(requests, window, r)) != Allowed(ScriptReply(requests, window, r));
  }

  lemma {:induction false} NewerOfNew(stamps: seq<int>, cutoff: int)
    requires AllAbove(stamps, cutoff)
    ensures Newer(stamps, cutoff) == stamps
  {
    if stamps != [] {
      NewerOfNew(stamps[..|stamps| - 1], cutoff);
    }
  }

  lemma {:induction false} RemoveNone(items: seq<Member>, hi: int)
    requires MembersAbove(items, hi)
    ensures RemoveByScore(items, 0, hi) == items
  {
    if items != [] {
      var n := |items| - 1;
      assert items[n] in items && forall m :: m in items[..n] ==> m in items;
      RemoveNone(items[..n], hi);
    }
  }

  /** Two requests with the same id at the same time have one member between them. */
  predicate DistinctMembers(requests: seq<Request>) {
    forall i, j :: 0 <= i < j < |requests| ==> MemberOf(requests[i]) != MemberOf(requests[j])
  }

  lemma {:induction false} DistinctMembersDoNotRepeat(requests: seq<Request>, window: pos)
    requires DistinctMembers(requests)
    ensures NoRepeat(requests, window)
    ensures forall m :: m in AdmittedMembers(requests, window) ==>
              exists i :: 0 <= i < |requests| && MemberOf(requests[i]) == m
  {
    if requests != [] {
      var n := |requests| - 1;
      DistinctMembersDoNotRepeat(requests[..n], window);
      forall m | m in AdmittedMembers(requests, window)
        ensures exists i :: 0 <= i < |requests| && MemberOf(requests[i]) == m
      {
        if m in AdmittedMembers(requests[..n], window) {
          var i :| 0 <= i < n && MemberOf(requests[..n][i]) == m;
          assert MemberOf(requests[i]) == m;
        } else {
          assert MemberOf(requests[n]) == m;
        }
      }
    }
  }

  /** On every sequence of requests with distinct members the next request gets the same answer, whatever the limits. */
  lemma LimitersAgree(requests: seq<Request>, window: pos, r: Request)
    requires ClockOk(requests) && LastTime(requests) <= r.now && DistinctMembers(requests)
    ensures ListReply(requests, window, r) == ScriptReply(requests, window, r)
  {
    DistinctMembersDoNotRepeat(requests, window);
    AgreeWithoutRepeat(requests, window);
  }

  /** The times of the requests that the script admits. */
  function ScriptAdmitted(requests: seq<Request>, window: pos): seq<int> {
    if requests == [] then []
    else
      var n := |requests| - 1;
      if Allowed(ScriptReply(requests[..n], window, requests[n]))
      then ScriptAdmitted(requests[..n], window) + [requests[n].now] else ScriptAdmitted(requests[..n], window)
  }

  function Copies(r: Request, n: nat): (copies: seq<Request>)
    ensures |copies| == n
  {
    if n == 0 then [] else Copies(r, n - 1) + [r]
  }

  lemma RepeatIsAdmitted(key: Option<ZSet>, r: Request, window: pos)
    requires r.limit >= 2 && (key == None || key == Some(ZSet([MemberOf(r)], r.now + window)))
    ensures ScriptEval(key, r.now, window, r.limit, r.id).state == Some(ZSet([MemberOf(r)], r.now + window))
    ensures Allowed(ScriptEval(key, r.now, window, r.limit, r.id).reply)
  {
    RemoveNone([], r.now - window);
    RemoveNone([MemberOf(r)], r.now - window);
  }

  /** One member sent again and again in the same millisecond is let in by the script every time. */
  lemma {:induction false} RepeatsAreUnbounded(r: Request, n: nat, window: pos)
    requires r.limit >= 2
    ensures |ScriptAdmitted(Copies(r, n), window)| == n
    ensures ScriptAfter(Copies(r, n), window) == if n == 0 then None else Some(ZSet([MemberOf(r)], r.now + window))
  {
    if n > 0 {
      RepeatsAreUnbounded(r, n - 1, window);
      assert Copies(r, n)[..n - 1] == Copies(r, n - 1) && Copies(r, n)[n - 1] == r;
      RepeatIsAdmitted(ScriptAfter(Copies(r, n - 1), window), r, window);
    }
  }
}
