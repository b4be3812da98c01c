/** How many requests any window holds, and what the retry time of a refusal is worth. */
module RateLimitBounds {
  import opened Prelude
  import opened RateLimit
  import opened RateLimitAgree

  // ---------- the bound over every window ----------

  /** The times of the admitted requests. */
  function Admitted(requests: seq<Request>, window: pos): seq<int> {
    if requests == [] then []
    else
      var n := |requests| - 1;
      if Allowed(ListReply(requests[..n], window, requests[n]))
      then Admitted(requests[..n], window) + [requests[n].now] else Admitted(requests[..n], window)
  }

  /** How many stamps lie after lo and no later than hi. */
  function CountIn(stamps: seq<int>, lo: int, hi: int): nat {
    if stamps == [] then 0
    else
      var n := |stamps| - 1;
      CountIn(stamps[..n], lo, hi) + if lo < stamps[n] <= hi then 1 else 0
  }

  lemma {:induction false} CountWithinNewer(stamps: seq<int>, cutoff: int, lo: int, hi: int)
    requires cutoff <= lo
    ensures CountIn(stamps, lo, hi) <= |Newer(stamps, cutoff)|
  {
    if stamps != [] {
      CountWithinNewer(stamps[..|stamps| - 1], cutoff, lo, hi);
    }
  }

  lemma {:induction false} CountAllNewer(stamps: seq<int>, cutoff: int, hi: int)
    requires forall i :: 0 <= i < |stamps| ==> stamps[i] <= hi
    ensures CountIn(stamps, cutoff, hi) == |Newer(stamps, cutoff)|
  {
    if stamps != [] {
      CountAllNewer(stamps[..|stamps| - 1], cutoff, hi);
    }
  }

  lemma NewerPush(stamps: seq<int>, s: int, cutoff: int)
    ensures Newer(stamps + [s], cutoff) == if s > cutoff then Newer(stamps, cutoff) + [s] else Newer(stamps, cutoff)
  {
    assert (stamps + [s])[..|stamps|] == stamps;
  }

  lemma {:induction false} NewerTwice(stamps: seq<int>, earlier: int, later: int)
    requires earlier <= later
    ensures Newer(Newer(stamps, earlier), later) == Newer(stamps, later)
  {
    if stamps != [] {
      var n := |stamps| - 1;
      NewerTwice(stamps[..n], earlier, later);
      if stamps[n] > earlier {
        NewerPush(Newer(stamps[..n], earlier), stamps[n], later);
      }
    }
  }

  /** What one more request does to the list and to the admitted times. */
  lemma OneMore(requests: seq<Request>, window: pos)
    requires requests != []
    ensures var n := |requests| - 1;
            var r, before := requests[n], requests[..n];
            var kept := Newer(ListAfter(before, window), r.now - window);
            var allowed := |kept| < r.limit;
            && Allowed(ListReply(before, window, r)) == allowed
            && ListAfter(requests, window) == (if allowed then kept + [r.now] else kept)
            && Admitted(requests, window) == if allowed then Admitted(before, window) + [r.now]
              else Admitted(before, window)
  {}

  lemma PushShows(
    stamps: seq<int>, stamps': seq<int>, admitted: seq<int>, admitted': seq<int>, now: int, window: pos, cutoff: int,
      allowed: bool)
    requires Newer(stamps, cutoff) == Newer(admitted, cutoff) && now - window <= cutoff
    requires stamps' == if allowed then Newer(stamps, now - window) + [now] else Newer(stamps, now - window)
    requires admitted' == if allowed then admitted + [now] else admitted
    ensures Newer(stamps', cutoff) == Newer(admitted', cutoff)
  {
    hide Newer;
    NewerTwice(stamps, now - window, cutoff);
    NewerPush(Newer(stamps, now - window), now, cutoff);
    NewerPush(admitted, now, cutoff);
  }

  /** The list and the admitted times show the same from the cutoff on. */
  predicate SameView(requests: seq<Request>, window: pos, cutoff: int) {
    SameStamps(Newer(ListAfter(requests, window), cutoff), Newer(Admitted(requests, window), cutoff))
  }

  predicate SameStamps(x: seq<int>, y: seq<int>) { |x| == |y| && x == y }

  lemma OneMoreShows(requests: seq<Request>, window: pos, cutoff: int)
    requires requests != [] && requests[|requests| - 1].now - window <= cutoff
    requires SameView(requests[..|requests| - 1], window, cutoff)
    ensures SameView(requests, window, cutoff)
  {
    var before, r := requests[..|requests| - 1], requests[|requests| - 1];
    OneMore(requests, window);
    PushShows(ListAfter(before, window), ListAfter(requests, window),
              Admitted(before, window), Admitted(requests, window),
              r.now, window, cutoff, Allowed(ListReply(before, window, r)));
  }

  /** The list always shows the admitted requests of the last window, although it forgets older ones. */
  lemma {:induction false} ListShowsAdmitted(requests: seq<Request>, window: pos, cutoff: int)
    requires ClockOk(requests) && (requests != [] ==> LastTime(requests) - window <= cutoff)
    ensures SameView(requests, window, cutoff)
  {
    if requests != [] {
      ListShowsAdmitted(requests[..|requests| - 1], window, cutoff);
      OneMoreShows(requests, window, cutoff);
    }
  }

  predicate AtMost(stamps: seq<int>, hi: int) { forall i :: 0 <= i < |stamps| ==> stamps[i] <= hi }

  lemma {:induction false} AdmittedBy(requests: seq<Request>, window: pos)
    requires ClockOk(requests)
    ensures AtMost(Admitted(requests, window), LastTime(requests))
  {
    if requests != [] {
      var before, r := requests[..|requests| - 1], requests[|requests| - 1];
      AdmittedBy(before, window);
      var allowed := Allowed(ListReply(before, window, r));
      var admitted := Admitted(before, window);
      assert AtMost(admitted, r.now);
      assert Admitted(requests, window) == if allowed then admitted + [r.now] else admitted;
    }
  }

  lemma CountAtMost(stamps: seq<int>, hi: int, later: int, lo: int)
    requires AtMost(stamps, hi) && hi <= later
    ensures CountIn(stamps, lo, later) == |Newer(stamps, lo)|
  {
    CountAllNewer(stamps, lo, later);
  }

  lemma AdmittedCount(requests: seq<Request>, window: pos, now: int)
    requires ClockOk(requests) && LastTime(requests) <= now
    ensures CountIn(Admitted(requests, window), now - window, now) == |Newer(Admitted(requests, window), now - window)|
  {
    AdmittedBy(requests, window);
    CountAtMost(Admitted(requests, window), LastTime(requests), now, now - window);
  }

  lemma ListCount(requests: seq<Request>, window: pos, now: int)
    requires ClockOk(requests) && LastTime(requests) <= now
    ensures |Newer(ListAfter(requests, window), now - window)| == |Newer(Admitted(requests, window), now - window)|
  {
    ListShowsAdmitted(requests, window, now - window);
  }

  lemma ListCountsAdmitted(requests: seq<Request>, window: pos, now: int)
    requires ClockOk(requests) && LastTime(requests) <= now
    ensures |Newer(ListAfter(requests, window), now - window)| == CountIn(Admitted(requests, window), now - window, now)
  {
    AdmittedCount(requests, window, now);
    ListCount(requests, window, now);
  }

  lemma AllowedWhenFew(requests: seq<Request>, window: pos, r: Request)
    ensures Allowed(ListReply(requests, window, r)) <==> |Newer(ListAfter(requests, window), r.now - window)| < r.limit
  {
    hide ListAfter, Newer;
  }

  /** A request is admitted exactly when fewer than its limit were admitted in the window before it. */
  lemma AdmittedIffBelowLimit(requests: seq<Request>, window: pos, r: Request)
    requires ClockOk(requests) && LastTime(requests) <= r.now
    ensures Allowed(ListReply(requests, window, r))
        <==> CountIn(Admitted(requests, window), r.now - window, r.now) < r.limit
  {
    AllowedWhenFew(requests, window, r);
    ListCountsAdmitted(requests, window, r.now);
  }

  lemma AdmittedPush(requests: seq<Request>, window: pos, r: Request)
    ensures Allowed(ListReply(requests, window, r)) ==>
              Admitted(requests + [r], window) == Admitted(requests, window) + [r.now]
  {
    hide ListReply, Allowed;
    assert (requests + [r])[..|requests|] == requests;
  }

  lemma CountPush(stamps: seq<int>, s: int, lo: int, hi: int)
    ensures CountIn(stamps + [s], lo, hi) == CountIn(stamps, lo, hi) + if lo < s <= hi then 1 else 0
  {
    assert (stamps + [s])[..|stamps|] == stamps;
  }

  lemma CountWithThis(requests: seq<Request>, window: pos, r: Request)
    ensures Allowed(ListReply(requests, window, r)) ==>
              CountIn(Admitted(requests + [r], window), r.now - window, r.now) ==
              CountIn(Admitted(requests, window), r.now - window, r.now) + 1
  {
    hide *;
    AdmittedPush(requests, window, r);
    CountPush(Admitted(requests, window), r.now, r.now - window, r.now);
  }

  /**
   The count in an answer is the number of requests admitted in the window, with this one if it is admitted; there is
   no answer exactly when nothing may be admitted and nothing was.
   */
  lemma AnswerCountsAdmitted(requests: seq<Request>, window: pos, r: Request)
    requires ClockOk(requests) && LastTime(requests) <= r.now
    ensures var n, reply := CountIn(Admitted(requests, window), r.now - window, r.now), ListReply(requests, window, r);
            && (reply.Err? <==> r.limit <= 0 && n == 0)
            && (reply.Ok? ==> reply.value.allowed == (n < r.limit))
            && (reply.Ok? ==> reply.value.count == if reply.value.allowed then n + 1 else n)
            && (Allowed(reply) ==> CountIn(Admitted(requests + [r], window), r.now - window, r.now) == n + 1)
  {
    ListCountsAdmitted(requests, window, r.now);
    CountWithThis(requests, window, r);
    hide ListAfter, Newer, Admitted, CountIn;
  }

  /**
   Every interval as long as the window, wherever it starts, holds at most as many admitted requests as the largest
   limit.
   */
  lemma {:induction false} EveryWindowBounded(requests: seq<Request>, window: pos, largest: nat, lo: int)
    requires ClockOk(requests) && forall i :: 0 <= i < |requests| ==> requests[i].limit <= largest
    ensures CountIn(Admitted(requests, window), lo, lo + window) <= largest
  {
    if requests != [] {
      var n := |requests| - 1;
      var r, before := requests[n], requests[..n];
      var admitted := Admitted(before, window);
      EveryWindowBounded(before, window, largest, lo);
      OneMoreBounded(admitted, before, window, r, largest, lo);
      var allowed := Allowed(ListReply(before, window, r));
      assert Admitted(requests, window) == if allowed then admitted + [r.now] else admitted;
    }
  }

  lemma OneMoreBounded(admitted: seq<int>, before: seq<Request>, window: pos, r: Request, largest: nat, lo: int)
    requires ClockOk(before) && LastTime(before) <= r.now && admitted == Admitted(before, window)
    requires r.limit <= largest && CountIn(admitted, lo, lo + window) <= largest
    ensures Allowed(ListReply(before, window, r)) ==> CountIn(admitted + [r.now], lo, lo + window) <= largest
  {
    AdmittedIffBelowLimit(before, window, r);
    AdmittedBy(before, window);
    CountAllNewer(admitted, r.now - window, r.now);
    assert (admitted + [r.now])[..|admitted|] == admitted;
    if lo < r.now <= lo + window {
      CountWithinNewer(admitted, r.now - window, lo, lo + window);
    }
  }

  lemma {:induction false} ScriptAdmitsSame(requests: seq<Request>, window: pos)
    requires ClockOk(requests) && NoRepeat(requests, window)
    ensures ScriptAdmitted(requests, window) == Admitted(requests, window)
  {
    if requests != [] {
      var n := |requests| - 1;
      ScriptAdmitsSame(requests[..n], window);
      AgreeWithoutRepeat(requests[..n], window);
      assert ListReply(requests[..n], window, requests[n]) == ScriptReply(requests[..n], window, requests[n]);
    }
  }

  /** The same bound for what the script itself admits, as long as no admitted request repeats a member. */
  lemma ScriptWindowBounded(requests: seq<Request>, window: pos, largest: nat, lo: int)
    requires ClockOk(requests) && NoRepeat(requests, window)
    requires forall i :: 0 <= i < |requests| ==> requests[i].limit <= largest
    ensures CountIn(ScriptAdmitted(requests, window), lo, lo + window) <= largest
  {
    ScriptAdmitsSame(requests, window);
    EveryWindowBounded(requests, window, largest, lo);
  }

  // ---------- what the sorted set bounds, repeats or not ----------

  /** The members that the script has let in. */
  function ScriptMembers(requests: seq<Request>, window: pos): set<Member> {
    if requests == [] then {}
    else
      var n := |requests| - 1;
      if Allowed(ScriptReply(requests[..n], window, requests[n]))
      then ScriptMembers(requests[..n], window) + {MemberOf(requests[n])} else ScriptMembers(requests[..n], window)
  }

  function MembersIn(members: set<Member>, lo: int, hi: int): set<Member> {
    set m | m in members && lo < m.score <= hi
  }

  function ItemSet(items: seq<Member>): set<Member> { set m | m in items }

  lemma {:induction false} ItemsAreDistinct(items: seq<Member>)
    requires InOrder(items)
    ensures |ItemSet(items)| == |items|
  {
    if items != [] {
      var n := |items| - 1;
      ItemsAreDistinct(items[..n]);
      assert items == items[..n] + [items[n]];
      assert ItemSet(items) == ItemSet(items[..n]) + {items[n]};
    }
  }

  /** The set holds admitted members only, all of those in the window before time last, and its key outlives them. */
  ghost predicate ScriptHolds(key: Option<ZSet>, members: set<Member>, last: int, window: pos) {
    && (forall m :: m in members ==> 0 <= m.score <= last)
    && (forall m :: m in members && m.score > last - window ==> key.Some? && m in key.value.items)
    && (key.Some? ==>
          && InOrder(key.value.items)
          && forall m :: m in key.value.items ==> m in members && m.score + window <= key.value.deadline)
  }

  lemma PurgedExactly(key: Option<ZSet>, members: set<Member>, last: int, now: int, window: pos)
    requires ScriptHolds(key, members, last, window) && last <= now
    ensures InOrder(Purged(key, now, window))
    ensures ItemSet(Purged(key, now, window)) == MembersIn(members, now - window, now)
  {
    var items := if key.None? || key.value.deadline <= now then [] else key.value.items;
    RemoveMembers(items, 0, now - window);
  }

  lemma RequestHolds(key: Option<ZSet>, members: set<Member>, last: int, r: Request, window: pos)
    requires ScriptHolds(key, members, last, window) && last <= r.now && 0 <= r.now
    ensures var answer := ScriptEval(key, r.now, window, r.limit, r.id);
            ScriptHolds(answer.state, if Allowed(answer.reply) then members + {MemberOf(r)} else members, r.now, window)
  {
    var kept := Purged(key, r.now, window);
    PurgedExactly(key, members, last, r.now, window);
    assert forall m :: m in kept <==> m in ItemSet(kept);
    if |kept| < r.limit {
      if MemberOf(r) in kept { AddPresent(kept, MemberOf(r)); } else { AddAbsent(kept, MemberOf(r)); }
    } else if kept == [] {
      assert ItemSet(kept) == {};
    }
  }

  lemma {:induction false} ScriptHoldsThroughout(requests: seq<Request>, window: pos)
    requires ClockOk(requests)
    ensures ScriptHolds(ScriptAfter(requests, window), ScriptMembers(requests, window), LastTime(requests), window)
    ensures LastTime(requests) >= 0
  {
    if requests != [] {
      var n := |requests| - 1;
      ScriptHoldsThroughout(requests[..n], window);
      RequestHolds(ScriptAfter(requests[..n], window), ScriptMembers(requests[..n], window), LastTime(requests[..n]),
                   requests[n], window);
    }
  }

  lemma KeptAreCounted(requests: seq<Request>, window: pos, now: int)
    requires ClockOk(requests) && LastTime(requests) <= now
    ensures |Purged(ScriptAfter(requests, window), now, window)| ==
            |MembersIn(ScriptMembers(requests, window), now - window, now)|
  {
    hide *;
    ScriptHoldsThroughout(requests, window);
    PurgedExactly(ScriptAfter(requests, window), ScriptMembers(requests, window), LastTime(requests), now, window);
    ItemsAreDistinct(Purged(ScriptAfter(requests, window), now, window));
  }

  lemma ReplyOfScript(key: Option<ZSet>, now: int, window: pos, limit: int, request: nat)
    ensures var n, reply := |Purged(key, now, window)|, ScriptEval(key, now, window, limit, request).reply;
            && (Allowed(reply) <==> n < limit) && (reply.Err? <==> limit <= 0 && n == 0)
            && (reply.Ok? ==> reply.value.count == if reply.value.allowed then n + 1 else n)
  {
    hide Purged, Add;
  }

  /**
   The script lets a request in exactly when fewer than its limit of distinct members were let in in its window, and
   answers with their number.
   */
  lemma ScriptAdmitsExactly(requests: seq<Request>, window: pos, r: Request)
    requires ClockOk(requests) && LastTime(requests) <= r.now
    ensures Allowed(ScriptReply(requests, window, r))
        <==> |MembersIn(ScriptMembers(requests, window), r.now - window, r.now)| < r.limit
    ensures var n := |MembersIn(ScriptMembers(requests, window), r.now - window, r.now)|;
            var reply := ScriptReply(requests, window, r);
            && (reply.Err? <==> r.limit <= 0 && n == 0)
            && (reply.Ok? ==> reply.value.count == if reply.value.allowed then n + 1 else n)
  {
    hide ScriptAfter, ScriptMembers, ScriptEval, Purged, MembersIn, ClockOk, LastTime, Allowed;
    KeptAreCounted(requests, window, r.now);
    ReplyOfScript(ScriptAfter(requests, window), r.now, window, r.limit, r.id);
  }

  lemma SubsetSize(x: set<Member>, y: set<Member>)
    requires x <= y
    ensures |x| <= |y|
  {
    assert y == x + (y - x);
  }

  /**
   Every interval as long as the window holds at most as many distinct admitted members as the largest limit, whatever
   the clients send: this is all the sorted set promises when members repeat.
   */
  lemma {:induction false} ScriptMembersBounded(requests: seq<Request>, window: pos, largest: nat, lo: int)
    requires ClockOk(requests) && forall i :: 0 <= i < |requests| ==> requests[i].limit <= largest
    ensures |MembersIn(ScriptMembers(requests, window), lo, lo + window)| <= largest
  {
    if requests != [] {
      var n := |requests| - 1;
      var r, members := requests[n], ScriptMembers(requests[..n], window);
      ScriptMembersBounded(requests[..n], window, largest, lo);
      if Allowed(ScriptReply(requests[..n], window, r)) {
        ScriptAdmitsExactly(requests[..n], window, r);
        ScriptHoldsThroughout(requests[..n], window);
        OneMoreMember(members, r, lo, window);
      }
    }
  }

  lemma OneMoreMember(members: set<Member>, r: Request, lo: int, window: pos)
    requires forall m :: m in members ==> m.score <= r.now
    ensures |MembersIn(members + {MemberOf(r)}, lo, lo + window)| <=
            if lo < r.now <= lo + window then |MembersIn(members, r.now - window, r.now)| + 1
            else |MembersIn(members, lo, lo + window)|
  {
    if lo < r.now <= lo + window {
      SubsetSize(MembersIn(members + {MemberOf(r)}, lo, lo + window),
                 MembersIn(members, r.now - window, r.now) + {MemberOf(r)});
    } else {
      assert MembersIn(members + {MemberOf(r)}, lo, lo + window) == MembersIn(members, lo, lo + window);
    }
  }

  // ---------- retry_after ----------

  lemma {:induction false} NewerOfOld(stamps: seq<int>, cutoff: int)
    requires forall i :: 0 <= i < |stamps| ==> stamps[i] <= cutoff
    ensures Newer(stamps, cutoff) == []
  {
    if stamps != [] {
      NewerOfOld(stamps[..|stamps| - 1], cutoff);
    }
  }

  lemma {:induction false} NewerIsSuffix(stamps: seq<int>, cutoff: int)
    requires Sorted(stamps)
    ensures Newer(stamps, cutoff) == stamps[|stamps| - |Newer(stamps, cutoff)|..]
    ensures forall i :: 0 <= i < |stamps| ==> (stamps[i] > cutoff <==> i >= |stamps| - |Newer(stamps, cutoff)|)
  {
    if stamps != [] {
      var n := |stamps| - 1;
      if stamps[n] <= cutoff {
        NewerOfOld(stamps, cutoff);
      } else {
        NewerIsSuffix(stamps[..n], cutoff);
        var k := |Newer(stamps[..n], cutoff)|;
        assert stamps[..n][n - k..] + [stamps[n]] == stamps[n - k..];
      }
    }
  }

  /** An idle key holding at least limit stamps admits again exactly when enough of the oldest have left the window. */
  lemma AdmitsAgainWhen(stamps: seq<int>, window: pos, limit: pos, t: int)
    requires Sorted(stamps) && limit <= |stamps|
    ensures var reply := ListEval(stamps, t, window, limit).reply;
            reply.Ok? && (reply.value.allowed <==> stamps[|stamps| - limit] + window <= t)
  {
    NewerIsSuffix(stamps, t - window);
  }

  /** The whole seconds from now until a stamp has left the window, at least one. */
  function Seconds(stamp: int, now: int, window: pos): int { Max(1, (stamp + window - now + 999) / 1000) }

  lemma SecondsIsLeast(stamp: int, now: int, window: pos, seconds: nat)
    requires stamp > now - window
    ensures Seconds(stamp, now, window) <= seconds <==> stamp + window <= now + 1000 * seconds
  {}

  lemma {:induction false} ListSorted(requests: seq<Request>, window: pos)
    requires ClockOk(requests)
    ensures LastTime(requests) >= 0
    ensures Sorted(ListAfter(requests, window)) && Between(ListAfter(requests, window), 0, LastTime(requests))
  {
    if requests != [] {
      var n := |requests| - 1;
      ListSorted(requests[..n], window);
      ListStaysSorted(ListAfter(requests[..n], window), window, LastTime(requests[..n]), requests[n]);
    }
  }

  lemma ListStaysSorted(stamps: seq<int>, window: pos, last: int, r: Request)
    requires Sorted(stamps) && Between(stamps, 0, last) && 0 <= last <= r.now
    ensures var after := ListEval(stamps, r.now, window, r.limit).state; Sorted(after) && Between(after, 0, r.now)
  {
    NewerKeepsOrder(stamps, r.now - window, 0, last);
  }

  /** After a refusal, an otherwise idle key, asked again some seconds later. */
  predicate AdmitsAt(requests: seq<Request>, window: pos, r: Request, seconds: nat) {
    Allowed(ListReply(requests + [r], window, r.(now := r.now + 1000 * seconds)))
  }

  /** A refused caller is told when the oldest stamp leaves, and admitted when enough of them have left. */
  lemma RefusedStamps(stamps: seq<int>, window: pos, r: Request, seconds: nat)
    requires Sorted(stamps) && r.limit >= 1 && |Newer(stamps, r.now - window)| >= r.limit
    ensures var kept := Newer(stamps, r.now - window);
            && ListEval(stamps, r.now, window, r.limit)
              == Answer(kept, Ok(Reply(false, |kept|, Seconds(kept[0], r.now, window))))
            && (Allowed(ListEval(kept, r.now + 1000 * seconds, window, r.limit).reply) <==>
                Seconds(kept[|kept| - r.limit], r.now, window) <= seconds)
  {
    var kept := Newer(stamps, r.now - window);
    var k := |kept| - r.limit;
    hide *;
    RefusedReply(stamps, window, r);
    NewerIsSortedAbove(stamps, r.now - window, k);
    SecondsIsLeast(kept[k], r.now, window, seconds);
    AdmitsAgainWhen(kept, window, r.limit, r.now + 1000 * seconds);
    AllowedReply(ListEval(kept, r.now + 1000 * seconds, window, r.limit).reply);
  }

  lemma AllowedReply(reply: Result<Reply, NoOldest>)
    ensures Allowed(reply) <==> reply.Ok? && reply.value.allowed
  {}

  lemma RefusedReply(stamps: seq<int>, window: pos, r: Request)
    requires r.limit >= 1 && |Newer(stamps, r.now - window)| >= r.limit
    ensures var kept := Newer(stamps, r.now - window);
            ListEval(stamps, r.now, window, r.limit)
              == Answer(kept, Ok(Reply(false, |kept|, Seconds(kept[0], r.now, window))))
  {}

  lemma NewerIsSortedAbove(stamps: seq<int>, cutoff: int, k: nat)
    requires Sorted(stamps) && k < |Newer(stamps, cutoff)|
    ensures Sorted(Newer(stamps, cutoff)) && Newer(stamps, cutoff)[k] > cutoff
  {
    NewerIsSuffix(stamps, cutoff);
  }

  lemma ReplyIs(requests: seq<Request>, window: pos, r: Request)
    ensures ListReply(requests, window, r) == ListEval(ListAfter(requests, window), r.now, window, r.limit).reply
  {}

  lemma AskedAgain(requests: seq<Request>, window: pos, r: Request, seconds: nat)
    ensures var kept := ListEval(ListAfter(requests, window), r.now, window, r.limit).state;
            AdmitsAt(requests, window, r, seconds) <==>
            Allowed(ListEval(kept, r.now + 1000 * seconds, window, r.limit).reply)
  {
    hide ListEval, Newer, ListAfter;
    assert (requests + [r])[..|requests|] == requests;
    LastStates(requests + [r], window);
  }

  lemma RefusedRequest(requests: seq<Request>, window: pos, r: Request, seconds: nat)
    requires ClockOk(requests) && r.limit >= 1 && !Allowed(ListReply(requests, window, r))
    ensures var kept := Newer(ListAfter(requests, window), r.now - window);
            && r.limit <= |kept|
            && ListReply(requests, window, r) == Ok(Reply(false, |kept|, Seconds(kept[0], r.now, window)))
            && (AdmitsAt(requests, window, r, seconds) <==> Seconds(kept[|kept| - r.limit], r.now, window) <= seconds)
  {
    hide *;
    ListSorted(requests, window);
    AllowedWhenFew(requests, window, r);
    ReplyIs(requests, window, r);
    RefusedStamps(ListAfter(requests, window), window, r, seconds);
    AskedAgain(requests, window, r, seconds);
  }

  ghost predicate ToldRight(requests: seq<Request>, window: pos, r: Request, told: int) {
    forall seconds: nat :: AdmitsAt(requests, window, r, seconds) <==> told <= seconds
  }

  /**
   In every run, whatever the limits: the time a refused caller is told is the least number of seconds after which it
   is admitted exactly when the oldest stamp and the one that must leave for its own limit leave in the same second.
   */
  lemma RetryIsRightExactly(requests: seq<Request>, window: pos, r: Request)
    requires ClockOk(requests) && r.limit >= 1 && !Allowed(ListReply(requests, window, r))
    ensures var kept := Newer(ListAfter(requests, window), r.now - window);
            && r.limit <= |kept| && ListReply(requests, window, r).Ok?
            && (ToldRight(requests, window, r, ListReply(requests, window, r).value.retryAfter) <==>
                Seconds(kept[0], r.now, window) == Seconds(kept[|kept| - r.limit], r.now, window))
  {
    hide *;
    RefusedRequest(requests, window, r, 0);
    var kept := Newer(ListAfter(requests, window), r.now - window);
    var needed := Seconds(kept[|kept| - r.limit], r.now, window);
    forall seconds: nat ensures AdmitsAt(requests, window, r, seconds) <==> needed <= seconds {
      RefusedRequest(requests, window, r, seconds);
    }
    SecondsPositive(kept[0], r.now, window);
    SecondsPositive(kept[|kept| - r.limit], r.now, window);
    ToldRightExactly(requests, window, r, Seconds(kept[0], r.now, window), needed);
  }

  lemma SecondsPositive(stamp: int, now: int, window: pos)
    ensures Seconds(stamp, now, window) >= 1
  {}

  lemma ToldRightExactly(requests: seq<Request>, window: pos, r: Request, told: int, needed: int)
    requires forall seconds: nat :: AdmitsAt(requests, window, r, seconds) <==> needed <= seconds
    requires told >= 1 && needed >= 1
    ensures ToldRight(requests, window, r, told) <==> told == needed
  {
    hide AdmitsAt;
    assert AdmitsAt(requests, window, r, told) <==> needed <= told;
    assert AdmitsAt(requests, window, r, needed);
  }

  /** With one limit the list never holds more than the limit. */
  lemma {:induction false} ListNeverExceedsLimit(requests: seq<Request>, window: pos, limit: nat)
    requires ClockOk(requests) && forall i :: 0 <= i < |requests| ==> requests[i].limit == limit
    ensures |ListAfter(requests, window)| <= limit
  {
    if requests != [] {
      ListNeverExceedsLimit(requests[..|requests| - 1], window, limit);
    }
  }

  /** With one limit per key every refusal of every run tells the least number of seconds after which it is admitted. */
  lemma RetryAfterIsLeast(requests: seq<Request>, window: pos, r: Request)
    requires ClockOk(requests) && r.limit >= 1 && forall i :: 0 <= i < |requests| ==> requests[i].limit == r.limit
    requires !Allowed(ListReply(requests, window, r))
    ensures ListReply(requests, window, r).Ok?
    ensures ToldRight(requests, window, r, ListReply(requests, window, r).value.retryAfter)
  {
    hide *;
    ListNeverExceedsLimit(requests, window, r.limit);
    NewerIsNoLonger(ListAfter(requests, window), r.now - window);
    RetryIsRightExactly(requests, window, r);
  }

  lemma NewerIsNoLonger(stamps: seq<int>, cutoff: int)
    ensures |Newer(stamps, cutoff)| <= |stamps|
  {}

  lemma FirstIn(r: Request, window: pos)
    requires r.limit >= 1 && r.now >= 0
    ensures ClockOk([r]) && ListAfter([r], window) == [r.now]
  {
    assert [r][..0] == [];
  }

  lemma SecondIn(a: Request, b: Request, window: pos)
    requires 0 <= a.now <= b.now < a.now + window && a.limit >= 1 && b.limit >= 2
    ensures ClockOk([a, b]) && ListAfter([a, b], window) == [a.now, b.now]
  {
    FirstIn(a, window);
    assert [a, b][..1] == [a];
    NewerOfNew([a.now], b.now - window);
    hide Newer;
    assert ListAfter([a, b], window) == ListEval([a.now], b.now, window, b.limit).state;
  }

  lemma TwoStamps()
    ensures var requests := [Request(0, 2, 0), Request(9000, 2, 1)];
            ClockOk(requests) && ListAfter(requests, 10000) == [0, 9000] == Newer(ListAfter(requests, 10000), -500)
  {
    hide ClockOk, ListAfter, Newer;
    SecondIn(Request(0, 2, 0), Request(9000, 2, 1), 10000);
    NewerOfNew([0, 9000], -500);
  }

  /**
   Two requests under a limit of two, then one under a limit of one: it is told a time at which it is still refused.
   */
  lemma SharedKeyRetryTooEarly()
    ensures var requests, r := [Request(0, 2, 0), Request(9000, 2, 1)], Request(9500, 1, 2);
            ListReply(requests, 10000, r) == Ok(Reply(false, 2, 1)) && !AdmitsAt(requests, 10000, r, 1)
  {
    hide ListAfter, ListReply, ClockOk, Newer, AdmitsAt, ListEval;
    var requests, r := [Request(0, 2, 0), Request(9000, 2, 1)], Request(9500, 1, 2);
    TwoStamps();
    AllowedWhenFew(requests, 10000, r);
    RefusedRequest(requests, 10000, r, 1);
  }
}
