/**
 Access sessions, kept two ways: Redis keys with a per-user index set, and one in-memory map.  The index
 finds a user's sessions when they must all be revoked, so it must outlive every session in it.
 */
module Sessions {
  import opened Prelude

  type Jti = nat

  datatype Session = Session(user: Uuid, deadline: int)

  datatype Index = Index(members: set<Jti>, deadline: int)

  datatype Redis = Redis(keys: map<Jti, Session>, users: map<Uuid, Index>)

  type Memory = map<Jti, Session>

  function Max(a: int, b: int): int { if a < b then b else a }

  // ---------- Redis ----------

  /** A key past its deadline does not exist. */
  predicate Active(keys: map<Jti, Session>, jti: Jti, now: int) { jti in keys && now < keys[jti].deadline }

  function Members(r: Redis, user: Uuid, now: int): set<Jti> {
    if user in r.users && now < r.users[user].deadline then r.users[user].members else {}
  }

  /** SET with a deadline, SADD, and EXPIRE, which moves the index deadline even when that makes it earlier. */
  function Store(r: Redis, jti: Jti, user: Uuid, ttl: int, now: int): Redis {
    var deadline := now + Max(ttl, 1);
    Redis(r.keys[jti := Session(user, deadline)], r.users[user := Index(Members(r, user, now) + {jti}, deadline)])
  }

  /** SREM drops the set when its last member goes. */
  function Revoke(r: Redis, jti: Jti, user: Uuid, now: int): Redis {
    var left := Members(r, user, now) - {jti};
    Redis(r.keys - {jti}, if left == {} then r.users - {user} else r.users[user := r.users[user].(members := left)])
  }

  function DropKeys(r: Redis, jtis: set<Jti>): Redis { r.(keys := r.keys - jtis) }

  function DropIndex(r: Redis, user: Uuid): Redis { r.(users := r.users - {user}) }

  function RevokeUser(r: Redis, user: Uuid, now: int): Redis { DropIndex(DropKeys(r, Members(r, user, now)), user) }

  // ---------- in memory ----------

  function MemoryStore(m: Memory, jti: Jti, user: Uuid, ttl: int, now: int): Memory {
    m[jti := Session(user, now + ttl)]
  }

  function MemoryRevokeUser(m: Memory, user: Uuid): Memory { map jti | jti in m && m[jti].user != user :: m[jti] }

  // ---------- the index is complete ----------

  /** Every live session is in its user's index, and the index lives at least as long. */
  ghost predicate Covered(r: Redis, now: int) {
    forall jti :: Active(r.keys, jti, now) ==>
                    var s := r.keys[jti];
                    s.user in r.users && jti in r.users[s.user].members && s.deadline <= r.users[s.user].deadline
  }

  /** The new deadline is not before that of any other live session of the user. */
  ghost predicate NotEarlier(r: Redis, jti: Jti, user: Uuid, ttl: int, now: int) {
    forall other :: Active(r.keys, other, now) && other != jti && r.keys[other].user == user ==>
                      r.keys[other].deadline <= now + Max(ttl, 1)
  }

  lemma StoreKeepsCoverExactly(r: Redis, jti: Jti, user: Uuid, ttl: int, now: int)
    requires Covered(r, now)
    ensures Covered(Store(r, jti, user, ttl, now), now) <==> NotEarlier(r, jti, user, ttl, now)
  {
    var next := Store(r, jti, user, ttl, now);
    if Covered(next, now) {
      forall other | Active(r.keys, other, now) && other != jti && r.keys[other].user == user
        ensures r.keys[other].deadline <= now + Max(ttl, 1)
      {
        assert Active(next.keys, other, now);
      }
    }
    if NotEarlier(r, jti, user, ttl, now) {
      forall other | Active(next.keys, other, now)
        ensures var s := next.keys[other];
                s.user in next.users && other in next.users[s.user].members && s.deadline <= next.users[s.user].deadline
      {
        assert other != jti ==> Active(r.keys, other, now);
      }
    }
  }

  lemma TimeKeepsCover(r: Redis, now: int, later: int)
    requires Covered(r, now) && now <= later
    ensures Covered(r, later)
  {
    forall jti | Active(r.keys, jti, later) ensures Active(r.keys, jti, now) {
    }
  }

  lemma RevokesKeepCover(r: Redis, jti: Jti, user: Uuid, now: int)
    requires Covered(r, now)
    ensures Covered(Revoke(r, jti, user, now), now) && Covered(RevokeUser(r, user, now), now)
  {
    var revoked, gone := Revoke(r, jti, user, now), RevokeUser(r, user, now);
    forall other | Active(revoked.keys, other, now) || Active(gone.keys, other, now)
      ensures Active(r.keys, other, now)
    {
    }
  }

  /** Revoking a user's sessions leaves none active exactly when the live index held them all. */
  lemma RevokeUserExactly(r: Redis, user: Uuid, now: int)
    ensures (forall jti :: Active(RevokeUser(r, user, now).keys, jti, now) ==> r.keys[jti].user != user) <==>
            (forall jti :: Active(r.keys, jti, now) && r.keys[jti].user == user ==> jti in Members(r, user, now))
  {
    var next := RevokeUser(r, user, now);
    forall jti ensures Active(next.keys, jti, now) <==> Active(r.keys, jti, now) && jti !in Members(r, user, now) {
    }
  }

  // ---------- both back ends over a run ----------

  /** Session ids are fresh: the next one is issued. */
  datatype World = World(redis: Redis, memory: Memory, issued: nat, now: int)

  /** Callers round the lifetime up to at least one second. */
  datatype Step =
    | Login(user: Uuid, ttl: pos)
    | Logout(jti: Jti, user: Uuid)
    | Reset(user: Uuid)
    | Wait(seconds: nat)

  function Start(now: int): World { World(Redis(map[], map[]), map[], 0, now) }

  function Next(w: World, step: Step): World {
    match step
    case Login(user, ttl) =>
      World(Store(w.redis, w.issued, user, ttl, w.now), MemoryStore(w.memory, w.issued, user, ttl, w.now),
            w.issued + 1, w.now)
    case Logout(jti, user) => w.(redis := Revoke(w.redis, jti, user, w.now), memory := w.memory - {jti})
    case Reset(user) => w.(redis := RevokeUser(w.redis, user, w.now), memory := MemoryRevokeUser(w.memory, user))
    case Wait(seconds) => w.(now := w.now + seconds)
  }

  function RunAll(w: World, steps: seq<Step>): World {
    if steps == [] then w else Next(RunAll(w, steps[..|steps| - 1]), steps[|steps| - 1])
  }

  ghost predicate InOrder(w: World, step: Step) {
    step.Login? ==> NotEarlier(w.redis, w.issued, step.user, step.ttl, w.now)
  }

  ghost predicate AllInOrder(w: World, steps: seq<Step>) {
    steps == [] || (AllInOrder(w, steps[..|steps| - 1]) && InOrder(RunAll(w, steps[..|steps| - 1]), steps[|steps| - 1]))
  }

  ghost predicate AlwaysCovered(w: World, steps: seq<Step>) {
    Covered(RunAll(w, steps).redis, RunAll(w, steps).now) && (steps == [] || AlwaysCovered(w, steps[..|steps| - 1]))
  }

  lemma StepKeepsCoverExactly(w: World, step: Step)
    requires Covered(w.redis, w.now)
    ensures Covered(Next(w, step).redis, Next(w, step).now) <==> InOrder(w, step)
  {
    match step
    case Login(user, ttl) => StoreKeepsCoverExactly(w.redis, w.issued, user, ttl, w.now);
    case Logout(jti, user) => RevokesKeepCover(w.redis, jti, user, w.now);
    case Reset(user) => RevokesKeepCover(w.redis, 0, user, w.now);
    case Wait(seconds) => TimeKeepsCover(w.redis, w.now, w.now + seconds);
  }

  /** The index is complete at every moment of a run exactly when no login ever set an earlier deadline. */
  lemma {:induction false} RunKeepsCoverExactly(now: int, steps: seq<Step>)
    ensures AlwaysCovered(Start(now), steps) <==> AllInOrder(Start(now), steps)
  {
    if steps != [] {
      RunKeepsCoverExactly(now, steps[..|steps| - 1]);
      if AllInOrder(Start(now), steps[..|steps| - 1]) {
        CoveredNow(Start(now), steps[..|steps| - 1]);
        StepKeepsCoverExactly(RunAll(Start(now), steps[..|steps| - 1]), steps[|steps| - 1]);
      }
    }
  }

  lemma CoveredNow(w: World, steps: seq<Step>)
    requires AlwaysCovered(w, steps)
    ensures Covered(RunAll(w, steps).redis, RunAll(w, steps).now)
  {
  }

  predicate SameLive(w: World, jti: Jti) {
    && (Active(w.redis.keys, jti, w.now) <==> Active(w.memory, jti, w.now))
    && (Active(w.memory, jti, w.now) ==> w.memory[jti] == w.redis.keys[jti])
  }

  /** An index holds only issued ids, and only its own user's sessions. */
  ghost predicate Owned(w: World, user: Uuid)
    requires user in w.redis.users
  {
    forall jti :: jti in w.redis.users[user].members ==>
                    jti < w.issued && (jti in w.redis.keys ==> w.redis.keys[jti].user == user)
  }

  /** Ids in use were issued, and indexes are owned. */
  ghost predicate AllOwned(w: World) {
    && (forall jti :: jti in w.redis.keys || jti in w.memory ==> jti < w.issued)
    && (forall user :: user in w.redis.users ==> Owned(w, user))
  }

  /** Moreover live sessions are the same on both sides. */
  ghost predicate Matching(w: World) {
    AllOwned(w) && forall jti :: SameLive(w, jti)
  }

  lemma StepKeepsOwned(w: World, step: Step)
    requires AllOwned(w)
    ensures AllOwned(Next(w, step))
  {
    var next := Next(w, step);
    forall user | user in next.redis.users ensures Owned(next, user) {
      assert user in w.redis.users ==> Owned(w, user);
    }
  }

  lemma {:induction false} RunIsOwned(now: int, steps: seq<Step>)
    ensures AllOwned(RunAll(Start(now), steps))
  {
    if steps != [] {
      RunIsOwned(now, steps[..|steps| - 1]);
      StepKeepsOwned(RunAll(Start(now), steps[..|steps| - 1]), steps[|steps| - 1]);
    }
  }

  /** In every run, whatever the deadlines, a reset or a logout of one user takes no session from another. */
  lemma OthersKeepSessions(now: int, steps: seq<Step>, user: Uuid, gone: Jti, jti: Jti, at: int)
    requires var keys := RunAll(Start(now), steps).redis.keys;
             jti in keys && keys[jti].user != user && (gone in keys ==> keys[gone].user == user)
    ensures var w := RunAll(Start(now), steps);
            && (Active(Next(w, Reset(user)).redis.keys, jti, at) <==> Active(w.redis.keys, jti, at))
            && (Active(Next(w, Logout(gone, user)).redis.keys, jti, at) <==> Active(w.redis.keys, jti, at))
            && (Active(Next(w, Reset(user)).memory, jti, at) <==>
                  Active(w.memory, jti, at) && w.memory[jti].user != user)
  {
    RunIsOwned(now, steps);
    var w := RunAll(Start(now), steps);
    if user in w.redis.users { assert Owned(w, user); }
  }

  lemma LoginKeepsMatching(w: World, user: Uuid, ttl: pos)
    requires Matching(w)
    ensures Matching(Next(w, Login(user, ttl)))
  {
    var next := Next(w, Login(user, ttl));
    forall other | other in next.redis.users ensures Owned(next, other) {
      assert other in w.redis.users ==> Owned(w, other);
    }
    forall jti ensures SameLive(next, jti) {
      assert SameLive(w, jti);
    }
  }

  lemma LogoutKeepsMatching(w: World, gone: Jti, user: Uuid)
    requires Matching(w)
    ensures Matching(Next(w, Logout(gone, user)))
  {
    var next := Next(w, Logout(gone, user));
    forall other | other in next.redis.users ensures Owned(next, other) {
      assert Owned(w, other);
    }
    forall jti ensures SameLive(next, jti) {
      assert SameLive(w, jti);
    }
  }

  lemma ResetKeepsMatching(w: World, user: Uuid)
    requires Matching(w) && Covered(w.redis, w.now)
    ensures Matching(Next(w, Reset(user)))
  {
    var next := Next(w, Reset(user));
    forall other | other in next.redis.users ensures Owned(next, other) {
      assert Owned(w, other);
    }
    forall jti ensures SameLive(next, jti) {
      assert SameLive(w, jti);
      if user in w.redis.users { assert Owned(w, user); }
    }
  }

  lemma WaitKeepsMatching(w: World, seconds: nat)
    requires Matching(w)
    ensures Matching(Next(w, Wait(seconds)))
  {
    var next := Next(w, Wait(seconds));
    forall other | other in next.redis.users ensures Owned(next, other) {
      assert Owned(w, other);
    }
    forall jti ensures SameLive(next, jti) {
      assert SameLive(w, jti);
    }
  }

  lemma StepKeepsMatching(w: World, step: Step)
    requires Matching(w) && Covered(w.redis, w.now)
    ensures Matching(Next(w, step))
  {
    match step
    case Login(user, ttl) => LoginKeepsMatching(w, user, ttl);
    case Logout(jti, user) => LogoutKeepsMatching(w, jti, user);
    case Reset(user) => ResetKeepsMatching(w, user);
    case Wait(seconds) => WaitKeepsMatching(w, seconds);
  }

  /**
   In every run whose logins keep their order of deadlines, the two back ends call the same sessions active, and
   after a reset exactly the sessions of other users are.
   */
  lemma {:induction false} BackendsAgree(now: int, steps: seq<Step>)
    requires AllInOrder(Start(now), steps)
    ensures var w := RunAll(Start(now), steps);
            && Matching(w) && Covered(w.redis, w.now)
            && (forall jti :: Active(w.redis.keys, jti, w.now) <==> Active(w.memory, jti, w.now))
            && (forall user, jti ::
                  Active(Next(w, Reset(user)).redis.keys, jti, w.now) <==>
                  Active(w.redis.keys, jti, w.now) && w.redis.keys[jti].user != user)
  {
    if steps != [] {
      var before := RunAll(Start(now), steps[..|steps| - 1]);
      BackendsAgree(now, steps[..|steps| - 1]);
      StepKeepsMatching(before, steps[|steps| - 1]);
      StepKeepsCoverExactly(before, steps[|steps| - 1]);
    }
    var w := RunAll(Start(now), steps);
    forall jti ensures Active(w.redis.keys, jti, w.now) <==> Active(w.memory, jti, w.now) {
      assert SameLive(w, jti);
    }
    forall user
      ensures forall jti ::
                Active(Next(w, Reset(user)).redis.keys, jti, w.now) <==>
                Active(w.redis.keys, jti, w.now) && w.redis.keys[jti].user != user
    {
      if user in w.redis.users { assert Owned(w, user); }
      forall jti | Active(w.redis.keys, jti, w.now) && w.redis.keys[jti].user == user
        ensures jti in Members(w.redis, user, w.now)
      {
      }
      RevokeUserExactly(w.redis, user, w.now);
    }
  }

  /** A shorter second session takes the index away early: the reset then misses the first session. */
  lemma ShorterSessionHidesLonger(now: int, user: Uuid, long: pos, short: pos)
    requires short < long
    ensures var w := RunAll(Start(now), [Login(user, long), Login(user, short), Wait(short), Reset(user)]);
            Active(w.redis.keys, 0, w.now) && !Active(w.memory, 0, w.now)
  {
    var steps := [Login(user, long), Login(user, short), Wait(short), Reset(user)];
    assert steps[..3] == [Login(user, long), Login(user, short), Wait(short)];
    assert steps[..3][..2] == [Login(user, long), Login(user, short)];
    assert steps[..3][..2][..1] == [Login(user, long)];
    assert steps[..3][..2][..1][..0] == [];
    var w1 := Next(Start(now), Login(user, long));
    assert RunAll(Start(now), [Login(user, long)]) == w1;
    var w2 := Next(w1, Login(user, short));
    assert RunAll(Start(now), steps[..3][..2]) == w2;
    var w3 := Next(w2, Wait(short));
    assert RunAll(Start(now), steps[..3]) == w3;
    assert Members(w3.redis, user, w3.now) == {};
    assert Active(w3.redis.keys, 0, w3.now);
  }

  /** Where a session is stored among the three commands of a revocation: read the index, drop keys, drop the index. */
  datatype Moment = BeforeRead | BeforeKeys | BeforeIndex | AfterIndex

  function RevokeAround(r: Redis, moment: Moment, jti: Jti, user: Uuid, ttl: pos, now: int): Redis {
    match moment
    case BeforeRead => RevokeUser(Store(r, jti, user, ttl, now), user, now)
    case BeforeKeys => DropIndex(DropKeys(Store(r, jti, user, ttl, now), Members(r, user, now)), user)
    case BeforeIndex => DropIndex(Store(DropKeys(r, Members(r, user, now)), jti, user, ttl, now), user)
    case AfterIndex => Store(RevokeUser(r, user, now), jti, user, ttl, now)
  }

  /**
   A fresh session stored around a revocation escapes every further one, as long as it lives, exactly when it was
   stored after the index was read and before the index was dropped; right after, it is active unless it came first.
   */
  lemma EscapesExactly(r: Redis, moment: Moment, jti: Jti, user: Uuid, ttl: pos, now: int, at: int)
    requires jti !in Members(r, user, now) && now <= at < now + ttl
    ensures var after := RevokeAround(r, moment, jti, user, ttl, now);
            && (Active(RevokeUser(after, user, at).keys, jti, at) <==> moment.BeforeKeys? || moment.BeforeIndex?)
            && (Active(after.keys, jti, at) <==> !moment.BeforeRead?)
  {
    match moment
    case BeforeRead => assert jti in Members(Store(r, jti, user, ttl, now), user, now);
    case BeforeKeys => assert user !in RevokeAround(r, moment, jti, user, ttl, now).users;
    case BeforeIndex => assert user !in RevokeAround(r, moment, jti, user, ttl, now).users;
    case AfterIndex => assert jti in Members(RevokeAround(r, moment, jti, user, ttl, now), user, at);
  }
}
