/**
  Whose task a create request is answered with.  The cached response is given to anyone who
  presents the key, before the caller is looked at; so the answer is in the caller's team
  exactly when the key is not shared between teams.
*/
module KeySharing {
  import opened Prelude
  import opened Tasks
  import opened TaskDb
  import opened IdempotencyStore
  import opened Planning
  import opened Engine
  import opened Concurrency
  import opened Isolation
  import opened OnceOnly
  import opened Replay
  import opened Solo

  // ---- where a record comes from ---------------------------------------------------------

  /** The request that committed the record is known, and the task is in its caller's team. */
  predicate Originates(creates: map<Pid, CreateProc>, r: Record) {
    r.op.Created? ==>
      && r.pid in creates
      && creates[r.pid].key == r.op.key && creates[r.pid].caller == r.op.caller
      && Authenticated(r.op.caller)
      && r.op.task.team == r.op.caller.value.teamId
      && r.op.task.creator == r.op.caller.value.userId
  }

  ghost predicate Origins(s: State) {
    forall i :: 0 <= i < |s.history| ==> Originates(s.creates, s.history[i])
  }

  /** No request changes its key or caller. */
  lemma CreatesKeepTheirCaller(s: State, e: Event)
    ensures forall pid :: pid in s.creates ==>
              && pid in Step(s, e).creates
              && Step(s, e).creates[pid].key == s.creates[pid].key
              && Step(s, e).creates[pid].caller == s.creates[pid].caller
  {
  }

  lemma MoveCreateOrigins(s: State, s': State, pid: Pid, landed: Option<Task>)
    requires WellFormed(s) && Origins(s) && CreateEffect(s, s', pid, landed)
    ensures Origins(s')
  {
    assert CreateOk(s.db, s.creates[pid]);
    forall i | 0 <= i < |s'.history| ensures Originates(s'.creates, s'.history[i]) {
      if i < |s.history| {
        assert Originates(s.creates, s.history[i]);
      }
    }
  }

  /** The history grew, if at all, by a record that creates nothing. */
  lemma OtherOrigins(s: State, e: Event)
    requires Origins(s) && !e.MoveCreate?
    ensures Origins(Step(s, e))
  {
    CreatesKeepTheirCaller(s, e);
    var s' := Step(s, e);
    HistoryGrowsByOne(s, e);
    forall i | 0 <= i < |s'.history| ensures Originates(s'.creates, s'.history[i]) {
      if i < |s.history| {
        assert Originates(s.creates, s.history[i]);
      }
    }
  }

  lemma HistoryGrowsByOne(s: State, e: Event)
    requires !e.MoveCreate?
    ensures var h' := Step(s, e).history;
            h' == s.history || exists r :: h' == s.history + [r] && !r.op.Created?
  {
  }

  lemma {:induction false} RunOrigins(events: seq<Event>)
    ensures Origins(Run(events))
  {
    if events != [] {
      var s := Run(events[..|events| - 1]);
      RunOrigins(events[..|events| - 1]);
      RunWellFormed(events[..|events| - 1]);
      match events[|events| - 1]
      case MoveCreate(pid, m) =>
        if pid in s.creates {
          var landed := CreateMoveEffect(s, pid, m);
          MoveCreateOrigins(s, Run(events), pid, landed);
        }
      case _ =>
        OtherOrigins(s, events[|events| - 1]);
    }
  }

  lemma {:induction false} RecordOf(history: seq<Record>, key: Key, r: Response) returns (i: nat)
    requires r in Committed(history, key)
    ensures i < |history| && history[i].op.Created? && history[i].op.key == key && Compose(history[i].op.task) == r
  {
    var n := |history| - 1;
    if r in Committed(history[..n], key) {
      i := RecordOf(history[..n], key, r);
    } else {
      i := n;
    }
  }

  /**
    Every successful reply shows a task made for an authenticated request under the same key,
    in that request's team and by its caller, whatever the replied-to caller's team is.
  */
  lemma RepliesHaveAnOrigin(s: State, pid: Pid) returns (origin: Pid)
    requires Reachable(s) && Succeeded(s, pid)
    ensures origin in s.creates && s.creates[origin].key == s.creates[pid].key
    ensures Authenticated(s.creates[origin].caller)
    ensures s.creates[pid].pc.reply.resp.team == s.creates[origin].caller.value.teamId
    ensures s.creates[pid].pc.reply.resp.creator == s.creates[origin].caller.value.userId
  {
    var events :| Run(events) == s;
    RunOrigins(events);
    RepliesAreRecords(s, pid);
    var i := RecordOf(s.history, s.creates[pid].key, s.creates[pid].pc.reply.resp);
    assert Originates(s.creates, s.history[i]);
    origin := s.history[i].pid;
  }

  // ---- sharing a key ------------------------------------------------------------------------

  /** Every request under the key comes from one of two callers. */
  ghost predicate SharedBy(s: State, key: Key, a: Option<AuthUser>, b: Option<AuthUser>) {
    forall pid :: pid in s.creates && s.creates[pid].key == key ==>
      s.creates[pid].caller == a || s.creates[pid].caller == b
  }

  predicate SeesOwnTeam(s: State, pid: Pid) {
    Succeeded(s, pid) ==>
      && s.creates[pid].caller.Some?
      && s.creates[pid].pc.reply.resp.team == s.creates[pid].caller.value.teamId
  }

  predicate SameTeam(a: Option<AuthUser>, b: Option<AuthUser>) {
    a.Some? && b.Some? && a.value.teamId == b.value.teamId
  }

  /** The user the two claim to be is one and the same. */
  predicate SameUser(a: Option<AuthUser>, b: Option<AuthUser>) {
    a.Some? && b.Some? && a.value.userId == b.value.userId
  }

  const CALM := CreateEnv(false, Delivered, [], false, false, 1, NoFault, Delivered, false)
  const ANY_REQUEST := CreateRequest("t", "", "", None)

  /** A user is registered, if it is one and not registered yet. */
  lemma Enrol(s: State, user: Option<AuthUser>) returns (s': State)
    requires HonestlyReachable(s)
    requires Authenticated(user) ==> user.value.userId !in s.db.users
    ensures HonestlyReachable(s') && HonestCaller(s'.db, user)
    ensures forall u, team :: Member(s.db, u, team) ==> Member(s'.db, u, team)
    ensures forall u :: u in s'.db.users ==> u in s.db.users || (Authenticated(user) && u == user.value.userId)
    ensures s'.creates == s.creates && s'.redis == s.redis && s'.db.rows == s.db.rows
  {
    s' := s;
    if Authenticated(user) {
      var e := Register(user.value.userId, user.value.teamId);
      HonestStep(s, e);
      s' := Step(s, e);
    }
  }

  /** Two registered users, and nothing else. */
  lemma TwoUsers(a: Option<AuthUser>, b: Option<AuthUser>) returns (s: State)
    requires Authenticated(a) && !SameUser(a, b)
    ensures HonestlyReachable(s) && HonestCaller(s.db, a) && HonestCaller(s.db, b)
    ensures s.creates == map[] && s.redis == INITIAL.redis && s.db.rows == map[]
  {
    InitialIsHonest();
    s := Enrol(INITIAL, a);
    s := Enrol(s, b);
  }

  /** `a` creates a task under the key. */
  lemma FirstUse(s: State, key: Key, a: Option<AuthUser>) returns (s': State)
    requires HonestlyReachable(s) && HonestCaller(s.db, a)
    requires s.creates == map[] && s.redis == INITIAL.redis && s.db.rows == map[]
    requires key != NIL && Authenticated(a)
    ensures HonestlyReachable(s') && s'.db.users == s.db.users
    ensures s'.creates.Keys == {0} && s'.creates[0].caller == a
    ensures key in s'.redis.cache && s'.redis.cache[key].team == a.value.teamId
  {
    HonestIsReachable(s);
    var p := CreateProc(a, key, ANY_REQUEST, Start);
    assert AdmitCreate(a, Parsed(key), ANY_REQUEST, true) == p;
    s' := CreateTaskReaches(s, 0, a, Parsed(key), ANY_REQUEST, true, CALM);
    FreshCreateSucceeds(s.db, s.redis, p, CALM);
  }

  /**
    `b` presents the key after `a` has created a task with it, and is shown that task; both
    are registered users of the teams they claim.
  */
  lemma OneKeyTwoCallers(key: Key, a: Option<AuthUser>, b: Option<AuthUser>) returns (s: State)
    requires key != NIL && Authenticated(a) && !SameUser(a, b)
    ensures HonestlyReachable(s) && HonestCaller(s.db, a) && HonestCaller(s.db, b)
    ensures SharedBy(s, key, a, b)
    ensures Succeeded(s, 1) && s.creates[1].key == key && s.creates[1].caller == b
    ensures s.creates[1].pc.reply.resp.team == a.value.teamId
  {
    var s0 := TwoUsers(a, b);
    var s1 := FirstUse(s0, key, a);
    s := SecondUse(s1, key, b);
  }

  /** `b` presents a key whose response is cached. */
  lemma SecondUse(s: State, key: Key, b: Option<AuthUser>) returns (s': State)
    requires HonestlyReachable(s) && HonestCaller(s.db, b)
    requires key != NIL && key in s.redis.cache && s.creates.Keys == {0}
    ensures HonestlyReachable(s') && s'.db == s.db
    ensures s'.creates == s.creates[1 := CreateProc(b, key, ANY_REQUEST, Replied(Ok(s.redis.cache[key])))]
  {
    HonestIsReachable(s);
    var p := CreateProc(b, key, ANY_REQUEST, Start);
    assert AdmitCreate(b, Parsed(key), ANY_REQUEST, true) == p;
    s' := CreateTaskReaches(s, 1, b, Parsed(key), ANY_REQUEST, true, CALM);
    DuplicateIsReplayed(s.db, s.redis, p, CALM);
  }

  lemma HonestCallersCreate(s: State, pid: Pid)
    requires HonestlyReachable(s) && pid in s.creates
    ensures HonestCaller(s.db, s.creates[pid].caller)
  {
    var events :| HonestRun(events) && Run(events) == s;
    RunIsolated(events);
  }

  /**
    Isolation of replies, exactly, over all runs of honest callers: however two callers use a
    key, every successful reply is in its own caller's team if and only if they are of one team
    (or one user, who has one team, whatever is claimed).
  */
  lemma RepliesStayInTeamExactly(key: Key, a: Option<AuthUser>, b: Option<AuthUser>)
    requires key != NIL && Authenticated(a)
    ensures (forall s, pid | HonestlyReachable(s) && SharedBy(s, key, a, b) && pid in s.creates
                             && s.creates[pid].key == key ::
               SeesOwnTeam(s, pid))
            <==> SameTeam(a, b) || SameUser(a, b)
  {
    if SameTeam(a, b) || SameUser(a, b) {
      forall s, pid | HonestlyReachable(s) && SharedBy(s, key, a, b) && pid in s.creates && s.creates[pid].key == key
        ensures SeesOwnTeam(s, pid)
      {
        OneTeamSeesItsOwn(s, pid, a, b);
      }
    } else {
      var s := OneKeyTwoCallers(key, a, b);
      assert !SeesOwnTeam(s, 1);
    }
  }

  lemma OneTeamSeesItsOwn(s: State, pid: Pid, a: Option<AuthUser>, b: Option<AuthUser>)
    requires HonestlyReachable(s) && pid in s.creates && SharedBy(s, s.creates[pid].key, a, b)
    requires Authenticated(a) && (SameTeam(a, b) || SameUser(a, b))
    ensures SeesOwnTeam(s, pid)
  {
    if Succeeded(s, pid) {
      HonestIsReachable(s);
      var origin := RepliesHaveAnOrigin(s, pid);
      HonestCallersCreate(s, pid);
      HonestCallersCreate(s, origin);
    }
  }
}
