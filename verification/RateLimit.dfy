/**
 The sliding-window limiter of the API gateway, for one key: the Lua script over a Redis sorted set, and
 the list-based form used without Redis.  Times are milliseconds.
 */
module RateLimit {
  import opened Prelude

  datatype Reply = Reply(allowed: bool, count: nat, retryAfter: int)

  /** With nothing to count and a limit below one, both forms fail looking for the oldest stamp. */
  datatype NoOldest = NoOldest

  /** The state after a call, and the answer. */
  datatype Answer<S> = Answer(state: S, reply: Result<Reply, NoOldest>)

  function Max(x: int, y: int): int { if x >= y then x else y }

  // ---------- the list form ----------

  function Newer(stamps: seq<int>, cutoff: int): (kept: seq<int>)
    ensures |kept| <= |stamps|
  {
    if stamps == [] then []
    else
      var n := |stamps| - 1;
      if stamps[n] > cutoff then Newer(stamps[..n], cutoff) + [stamps[n]] else Newer(stamps[..n], cutoff)
  }

  function ListEval(stamps: seq<int>, now: int, window: pos, limit: int): Answer<seq<int>> {
    var kept := Newer(stamps, now - window);
    if |kept| < limit then Answer(kept + [now], Ok(Reply(true, |kept| + 1, 0)))
    else if kept == [] then Answer(kept, Err(NoOldest))
    else Answer(kept, Ok(Reply(false, |kept|, Max(1, (kept[0] + window - now + 999) / 1000))))
  }

  // ---------- the Lua form ----------

  /** A member carries the time in its text; request stands for the rest, ordered as the text is. */
  datatype Member = Member(score: int, request: nat)

  /** A sorted set in Redis order, by score and then by member, and the deadline of its key. */
  datatype ZSet = ZSet(items: seq<Member>, deadline: int)

  function RemoveByScore(items: seq<Member>, lo: int, hi: int): seq<Member> {
    if items == [] then []
    else
      var n := |items| - 1;
      if lo <= items[n].score <= hi then RemoveByScore(items[..n], lo, hi)
      else RemoveByScore(items[..n], lo, hi) + [items[n]]
  }

  predicate Before(x: Member, y: Member) { x.score < y.score || (x.score == y.score && x.request < y.request) }

  function Add(items: seq<Member>, m: Member): seq<Member> {
    if items == [] then [m]
    else if items[0] == m then items
    else if Before(m, items[0]) then [m] + items
    else [items[0]] + Add(items[1..], m)
  }

  function CeilThousandth(x: int): int { -((-x) / 1000) }

  /** A key past its deadline, and an empty sorted set, do not exist. */
  function Purged(key: Option<ZSet>, now: int, window: pos): seq<Member> {
    RemoveByScore(if key.None? || key.value.deadline <= now then [] else key.value.items, 0, now - window)
  }

  function ScriptEval(key: Option<ZSet>, now: int, window: pos, limit: int, request: nat): Answer<Option<ZSet>> {
    var kept := Purged(key, now, window);
    if |kept| < limit then
      Answer(Some(ZSet(Add(kept, Member(now, request)), now + window)), Ok(Reply(true, |kept| + 1, 0)))
    else if kept == [] then Answer(None, Err(NoOldest))
    else
      Answer(Some(ZSet(kept, key.value.deadline)),
             Ok(Reply(false, |kept|, CeilThousandth(kept[0].score + window - now))))
  }

  // ---------- request sequences on one key ----------

  /** limit may differ from request to request: one address shares its key between two limits. */
  datatype Request = Request(now: int, limit: int, id: nat)

  /** What the list form holds after the requests, starting with nothing. */
  function ListAfter(requests: seq<Request>, window: pos): seq<int> {
    if requests == [] then []
    else
      var n := |requests| - 1;
      ListEval(ListAfter(requests[..n], window), requests[n].now, window, requests[n].limit).state
  }

  function ListReply(before: seq<Request>, window: pos, r: Request): Result<Reply, NoOldest> {
    ListEval(ListAfter(before, window), r.now, window, r.limit).reply
  }

  function ScriptAfter(requests: seq<Request>, window: pos): Option<ZSet> {
    if requests == [] then None
    else
      var n := |requests| - 1;
      ScriptEval(ScriptAfter(requests[..n], window), requests[n].now, window, requests[n].limit, requests[n].id).state
  }

  function ScriptReply(before: seq<Request>, window: pos, r: Request): Result<Reply, NoOldest> {
    ScriptEval(ScriptAfter(before, window), r.now, window, r.limit, r.id).reply
  }

  /** The clock starts at zero or later and never goes back. */
  predicate ClockOk(requests: seq<Request>) {
    requests == []
    || (var n := |requests| - 1;
        ClockOk(requests[..n]) && LastTime(requests[..n]) <= requests[n].now)
  }

  function LastTime(requests: seq<Request>): int { if requests == [] then 0 else requests[|requests| - 1].now }

  predicate Allowed(reply: Result<Reply, NoOldest>) { reply.Ok? && reply.value.allowed }

  function MemberOf(r: Request): Member { Member(r.now, r.id) }
}
