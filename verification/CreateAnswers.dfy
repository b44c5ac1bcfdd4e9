/** What a call of CreateTask answers and leaves when it runs alone, case by case, under every fault. */
module CreateAnswers {
  import opened AppErrors
  import opened Tasks
  import opened TaskDb
  import opened IdempotencyStore
  import opened Planning
  import opened Engine
  import opened Solo
  import Answers
  import Effects

  /** The wake-up ends the wait, one way or another. */
  predicate Decisive(redis: Redis, key: Key, wake: Wake) {
    wake.Tick? ==> !wake.fault && key in redis.cache
  }

  /**
    A waiting request answers at the first wake-up that decides: with the cached response on a
    tick that sees one, with an error when it is cancelled or out of time; a tick that sees
    nothing, or fails, does not end the wait.
  */
  lemma {:induction false} WaitersAnswerExactly(db: Db, redis: Redis, p: CreateProc, wakes: seq<Wake>, k: nat)
    requires p.pc.Polling? && k <= |wakes|
    requires forall i :: 0 <= i < k ==> !Decisive(redis, p.key, wakes[i])
    requires k < |wakes| ==> Decisive(redis, p.key, wakes[k])
    ensures SoloCreate(db, redis, p, Waits(wakes))
         == Moved(db, redis,
                  if k == |wakes| then Polling
                  else match wakes[k]
                       case Cancelled => Replied(Fail(Plain(ContextCanceled)))
                       case TimedOut => Replied(Fail(Plain(WaitTimedOut)))
                       case Tick(_) => Replied(Ok(redis.cache[p.key])))
    decreases |wakes|
  {
    if wakes != [] {
      SoloFirst(db, redis, p, Wait(wakes[0]), Waits(wakes[1..]));
      if k == 0 {
        RepliedStops(db, redis, p.(pc := CreateStep(db, redis, p, Wait(wakes[0])).pc), Waits(wakes[1..]));
      } else {
        assert p.(pc := Polling) == p;
        WaitersAnswerExactly(db, redis, p, wakes[1..], k - 1);
      }
    }
  }

  /**
    The lock holder: 401, 500, 400 and success are each answered exactly in their case; the task
    is there exactly if its transaction committed, known or not; the response is cached exactly
    if it was known to commit and the cache was reached; and the lock is released on every path.
  */
  lemma HoldersAnswerExactly(db: Db, redis: Redis, p: CreateProc, env: CreateEnv)
    requires p.pc.Locked? && p.key !in redis.cache
    ensures var out := SoloCreate(db, redis, p, Waits(env.wakes) + Tail(env));
            var auth, unchecked := Authenticated(p.caller), env.check && p.req.assignee.Some?;
            var inTeam := Answers.AssigneeInTeam(db, p.caller, p.req.assignee);
            var lands := auth && !unchecked && inTeam && env.id !in db.rows && Effects.Lands(env.tx);
            var known := lands && env.tx.NoFault?;
            && out.pc.Replied?
            && (Answers.StatusOf(out.pc.reply) == 401 <==> !auth)
            && (Answers.StatusOf(out.pc.reply) == 400 <==> auth && !unchecked && !inTeam)
            && (Answers.StatusOf(out.pc.reply) == 500 <==>
                  auth && (unchecked || (inTeam && !(known && env.save.Delivered?))))
            && (out.pc.reply.Ok? <==> known && env.save.Delivered?)
            && (out.db != db <==> lands)
            && out.redis.locks == (if env.release then redis.locks else redis.locks - {p.key})
            && (p.key in out.redis.cache <==> known && !env.save.Lost?)
            && (out.pc.reply.Ok? ==> out.redis.cache[p.key] == out.pc.reply.resp)
            && out.redis.cache - {p.key} == redis.cache
  {
    HolderPath(db, redis, p, env);
    Answers.AppErrorsSurface(UNAUTHORIZED);
    Answers.AppErrorsSurface(ASSIGNEE_NOT_IN_TEAM);
    assert Outermost(Annotated(CheckingAssignee, DB_ERROR)).None?;
    var drafting := DraftTask(db, p.caller, p.req, env.check);
    if drafting.Draft? {
      CommitsAnswerExactly(db, redis, p, drafting.task, env);
    }
  }

  /** The end of a lock holder whose checks have passed. */
  lemma CommitsAnswerExactly(db: Db, redis: Redis, p: CreateProc, task: Task, env: CreateEnv)
    requires p.key !in redis.cache
    ensures var held := CommitOutcome(db, redis, p, task, env);
            var lands := env.id !in db.rows && Effects.Lands(env.tx);
            var known := lands && env.tx.NoFault?;
            && held.pc.Releasing?
            && (held.pc.pending.Ok? <==> known && env.save.Delivered?)
            && (!held.pc.pending.Ok? ==> Answers.StatusOf(held.pc.pending) == 500)
            && (held.db != db <==> lands)
            && held.redis.locks == redis.locks
            && (p.key in held.redis.cache <==> known && !env.save.Lost?)
            && (held.pc.pending.Ok? ==> held.redis.cache[p.key] == held.pc.pending.resp)
            && held.redis.cache - {p.key} == redis.cache
  {
    assert Outermost(Annotated(CreatingTask, DB_ERROR)).None?;
    assert Outermost(Annotated(SavingReply, REDIS_ERROR)).None?;
  }

  /**
    A whole call, up to the point where it holds the lock or waits for it: a failed lookup and a
    failed acquire are answered with 500, and a cached response with that response; the lock key
    is left behind if an acquire took effect unseen.
  */
  lemma CallsAnswerExactly(db: Db, redis: Redis, p: CreateProc, env: CreateEnv)
    requires p.pc.Start?
    ensures var out := SoloCreate(db, redis, p, Program(env));
            var locked := redis.(locks := redis.locks + {p.key});
            if env.firstLookup then
              out.db == db && out.redis == redis && out.pc.Replied? && Answers.StatusOf(out.pc.reply) == 500
            else if p.key in redis.cache then out == Moved(db, redis, Replied(Ok(redis.cache[p.key])))
            else match env.lock
                 case Lost =>
                   out.db == db && out.redis == redis && out.pc.Replied? && Answers.StatusOf(out.pc.reply) == 500
                 case ReplyLost =>
                   out.db == db && out.redis == locked && out.pc.Replied? && Answers.StatusOf(out.pc.reply) == 500
                 case Delivered =>
                   if p.key in redis.locks then out == SoloCreate(db, redis, p.(pc := Polling), Waits(env.wakes))
                   else out == SoloCreate(db, locked, p.(pc := Locked), Waits(env.wakes) + Tail(env))
  {
    var rest := Waits(env.wakes) + Tail(env);
    assert Program(env) == [FirstLookup(env.firstLookup)] + ([TryLock(env.lock)] + rest);
    SoloFirst(db, redis, p, FirstLookup(env.firstLookup), [TryLock(env.lock)] + rest);
    var looked := CreateStep(db, redis, p, FirstLookup(env.firstLookup));
    if looked.pc.Replied? {
      RepliedStops(db, redis, p.(pc := looked.pc), [TryLock(env.lock)] + rest);
    } else {
      LockAnswersExactly(db, redis, p.(pc := WantLock), env);
    }
  }

  lemma LockAnswersExactly(db: Db, redis: Redis, p: CreateProc, env: CreateEnv)
    requires p.pc.WantLock?
    ensures var rest := Waits(env.wakes) + Tail(env);
            var out := SoloCreate(db, redis, p, [TryLock(env.lock)] + rest);
            var locked := redis.(locks := redis.locks + {p.key});
            match env.lock
            case Lost =>
              out.db == db && out.redis == redis && out.pc.Replied? && Answers.StatusOf(out.pc.reply) == 500
            case ReplyLost =>
              out.db == db && out.redis == locked && out.pc.Replied? && Answers.StatusOf(out.pc.reply) == 500
            case Delivered =>
              if p.key in redis.locks then out == SoloCreate(db, redis, p.(pc := Polling), Waits(env.wakes))
              else out == SoloCreate(db, locked, p.(pc := Locked), rest)
  {
    var rest := Waits(env.wakes) + Tail(env);
    SoloFirst(db, redis, p, TryLock(env.lock), rest);
    var tried := CreateStep(db, redis, p, TryLock(env.lock));
    assert Outermost(Annotated(AcquiringLock, REDIS_ERROR)).None?;
    if tried.pc.Replied? {
      RepliedStops(db, tried.redis, p.(pc := tried.pc), rest);
    } else if tried.pc.Polling? {
      WaitingTailPassesBy(db, redis, p.(pc := Polling), env);
    }
  }

  /** After its waits a request that waited does nothing more. */
  lemma WaitingTailPassesBy(db: Db, redis: Redis, p: CreateProc, env: CreateEnv)
    requires p.pc.Polling?
    ensures SoloCreate(db, redis, p, Waits(env.wakes) + Tail(env)) == SoloCreate(db, redis, p, Waits(env.wakes))
  {
    SoloConcat(db, redis, p, Waits(env.wakes), Tail(env));
    WaitsEnd(db, redis, p, env.wakes);
    var mid := SoloCreate(db, redis, p, Waits(env.wakes));
    if mid.pc.Polling? {
      PollingPassesBy(db, redis, p.(pc := Polling), env);
    } else {
      RepliedStops(db, redis, p.(pc := mid.pc), Tail(env));
    }
  }

  lemma {:induction false} WaitsEnd(db: Db, redis: Redis, p: CreateProc, wakes: seq<Wake>)
    requires p.pc.Polling?
    ensures var out := SoloCreate(db, redis, p, Waits(wakes));
            out.db == db && out.redis == redis && (out.pc.Polling? || out.pc.Replied?)
    decreases |wakes|
  {
    if wakes != [] {
      SoloFirst(db, redis, p, Wait(wakes[0]), Waits(wakes[1..]));
      var woken := CreateStep(db, redis, p, Wait(wakes[0]));
      if woken.pc.Polling? {
        WaitsEnd(db, redis, p.(pc := Polling), wakes[1..]);
      } else {
        RepliedStops(db, redis, p.(pc := woken.pc), Waits(wakes[1..]));
      }
    }
  }
}
