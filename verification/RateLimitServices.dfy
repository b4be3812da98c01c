/** The two limiter back ends as objects that keep one window per key, and the check made through them. */
module RateLimitServices {
  import opened Prelude
  import opened RateLimit

  class InMemoryRedisService {
    var windows: map<string, seq<int>>

    function Window(key: string): seq<int> reads this { if key in windows then windows[key] else [] }

    constructor ()
      ensures windows == map[]
    {
      windows := map[];
    }

    method Eval(key: string, now: int, window: pos, limit: int) returns (r: Result<Reply, NoOldest>)
      modifies this
      ensures Answer(Window(key), r) == ListEval(old(Window(key)), now, window, limit)
      ensures forall other :: other != key ==> Window(other) == old(Window(other))
    {
      windows := windows[key := Newer(Window(key), now - window)];
      var count := |windows[key]|;
      if count >= limit {
        if count == 0 { return Err(NoOldest); }
        return Ok(Reply(false, count, Max(1, (windows[key][0] + window - now + 999) / 1000)));
      }
      windows := windows[key := windows[key] + [now]];
      return Ok(Reply(true, |windows[key]|, 0));
    }
  }

  class RedisScript {
    var keys: map<string, ZSet>

    function Key(key: string): Option<ZSet> reads this { if key in keys then Some(keys[key]) else None }

    constructor ()
      ensures keys == map[]
    {
      keys := map[];
    }

    method Eval(key: string, now: int, window: pos, limit: int, request: nat) returns (r: Result<Reply, NoOldest>)
      modifies this
      ensures Answer(Key(key), r) == ScriptEval(old(Key(key)), now, window, limit, request)
      ensures forall other :: other != key ==> Key(other) == old(Key(other))
    {
      if key in keys && keys[key].deadline <= now {
        keys := keys - {key};
      }
      var deadline := 0;
      var items: seq<Member> := [];
      if key in keys {
        items, deadline := RemoveByScore(keys[key].items, 0, now - window), keys[key].deadline;
      }
      keys := if items == [] then keys - {key} else keys[key := ZSet(items, deadline)];
      var count := |items|;
      if count >= limit {
        if count == 0 { return Err(NoOldest); }
        return Ok(Reply(false, count, CeilThousandth(items[0].score + window - now)));
      }
      keys := keys[key := ZSet(Add(items, Member(now, request)), now + window)];
      return Ok(Reply(true, count + 1, 0));
    }
  }

  datatype RateLimitResult = RateLimitResult(allowed: bool, limit: int, remaining: int, retryAfter: int)

  class RateLimiter {
    const redis: InMemoryRedisService

    constructor (redis: InMemoryRedisService)
      ensures this.redis == redis
    {
      this.redis := redis;
    }

    /** An admitted caller has what is left of its limit; a refused one has nothing left and must wait. */
    method Check(key: string, limit: int, windowSeconds: pos, now: int) returns (r: Result<RateLimitResult, NoOldest>)
      modifies redis
      ensures var stamps := Newer(old(redis.Window("rate:" + key)), now - windowSeconds * 1000);
              && (r.Err? <==> limit <= 0 && stamps == [])
              && (r.Ok? ==> (r.value.allowed <==> |stamps| < limit) && r.value.limit == limit)
              && (r.Ok? && r.value.allowed ==>
                    redis.Window("rate:" + key) == stamps + [now] && r.value.remaining == limit - |stamps| - 1 >= 0)
              && (r.Ok? && !r.value.allowed ==>
                    redis.Window("rate:" + key) == stamps && r.value.remaining == 0 && r.value.retryAfter >= 1)
    {
      var reply := redis.Eval("rate:" + key, now, windowSeconds * 1000, limit);
      match reply {
        case Err(e) => return Err(e);
        case Ok(a) => return Ok(RateLimitResult(a.allowed, limit, Max(0, limit - a.count), a.retryAfter));
      }
    }
  }
}
