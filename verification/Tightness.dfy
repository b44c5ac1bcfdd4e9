/**
  The bound of OnceOnly is exact: for every fault count there is a run with exactly those
  faults that commits exactly as many records as the bound allows.  So "one record per key"
  holds of all runs with given fault counts if and only if the counts are all zero.

  The runs are built from requests 0..n-1, all of which have missed the cache once and wait
  for the lock.  Requests leave in order; at any time a <= v <= b cut them into
  finished | committed, not yet saved | holding an acquire | waiting.
*/
module Tightness {
  import opened Prelude
  import opened Tasks
  import opened TaskDb
  import opened IdempotencyStore
  import opened Planning
  import opened Engine
  import opened OnceOnly

  const CALLER := Some(AuthUser(1, 1))
  const REQUEST := CreateRequest("t", "", "", None)

  predicate Mine(p: CreateProc, key: Key) {
    p.key == key && p.caller == CALLER && p.req == REQUEST
  }

  datatype Cut = Cut(n: nat, a: nat, v: nat, b: nat, locked: bool, cached: bool, commits: nat, faults: Faults)

  predicate Unused(db: Db, pid: Pid) {
    pid + 1 !in db.rows
  }

  /** Where request `pid` stands in a cut. */
  predicate Stands(c: Cut, pid: Pid, pc: CreatePc) {
    && (c.a <= pid < c.v ==> pc.Saving?)
    && (c.v <= pid < c.b ==> pc.Locked?)
    && (c.b <= pid < c.n ==> pc.WantLock?)
  }

  ghost predicate Placed(s: State, key: Key, c: Cut, pid: Pid) {
    pid in s.creates && Mine(s.creates[pid], key) && Stands(c, pid, s.creates[pid].pc)
    && (c.v <= pid ==> Unused(s.db, pid))
  }

  ghost predicate At(s: State, key: Key, c: Cut) {
    && c.a <= c.v <= c.b <= c.n
    && (key in s.redis.locks <==> c.locked)
    && (key in s.redis.cache <==> c.cached)
    && |Committed(s.history, key)| == c.commits
    && FaultsOf(s, key) == c.faults
    && (forall pid: Pid | pid < c.n :: Placed(s, key, c, pid))
  }

  // ---- single moves: what they make of a cut --------------------------------------------

  function Grabbed(c: Cut): Cut {
    c.(b := c.b + 1, locked := true)
  }

  function Expired(c: Cut): Cut {
    c.(locked := false, faults := c.faults.(expiries := c.faults.expiries + 1))
  }

  function Evicted(c: Cut): Cut {
    c.(cached := false, faults := c.faults.(evictions := c.faults.evictions + 1))
  }

  function Worked(c: Cut): Cut {
    c.(v := c.v + 1, commits := c.commits + 1,
       faults := if c.cached then c.faults.(masked := c.faults.masked + 1) else c.faults)
  }

  function Finished(c: Cut): Cut {
    c.(a := c.a + 1, locked := false, cached := true)
  }

  function SaveLost(c: Cut): Cut {
    c.(a := c.a + 1, locked := false, faults := c.faults.(lostSaves := c.faults.lostSaves + 1))
  }

  /** A move that changes nothing but the request itself and Redis. */
  lemma QuietMove(s: State, pid: Pid, m: CreateMove)
    requires pid in s.creates && PlainMove(s.creates[pid], m)
    ensures var moved := CreateStep(s.db, s.redis, s.creates[pid], m);
            var s' := Step(s, MoveCreate(pid, m));
            && s'.db == s.db && s'.redis == moved.redis && s'.history == s.history && s'.edits == s.edits
            && s'.creates == s.creates[pid := s.creates[pid].(pc := moved.pc)]
            && forall key :: FaultsOf(s', key) == FaultsOf(s, key)
  {
    PlainStep(s.db, s.redis, s.creates[pid], m);
  }

  lemma GrabAt(s: State, key: Key, c: Cut)
    requires At(s, key, c) && !c.locked && c.b < c.n
    ensures At(Step(s, MoveCreate(c.b, TryLock(Delivered))), key, Grabbed(c))
  {
    var s' := Step(s, MoveCreate(c.b, TryLock(Delivered)));
    assert Placed(s, key, c, c.b);
    QuietMove(s, c.b, TryLock(Delivered));
    forall pid: Pid | pid < c.n ensures Placed(s', key, Grabbed(c), pid) {
      assert Placed(s, key, c, pid);
    }
  }

  /** The lock expires while request a is still inside. */
  lemma ExpireAt(s: State, key: Key, c: Cut)
    requires At(s, key, c) && c.locked && c.a < c.b
    ensures At(Step(s, LockExpires(key)), key, Expired(c))
  {
    assert Placed(s, key, c, c.a);
    assert c.a in InsideFor(s.creates, key);
    forall pid: Pid | pid < c.n ensures Placed(Step(s, LockExpires(key)), key, Expired(c), pid) {
      assert Placed(s, key, c, pid);
    }
  }

  lemma EvictAt(s: State, key: Key, c: Cut)
    requires At(s, key, c) && c.cached
    ensures At(Step(s, CacheExpires(key)), key, Evicted(c))
  {
    forall pid: Pid | pid < c.n ensures Placed(Step(s, CacheExpires(key)), key, Evicted(c), pid) {
      assert Placed(s, key, c, pid);
    }
  }

  /** The second lookup of a request inside, failing if there is something to see. */
  lemma LookAgain(s: State, pid: Pid, key: Key)
    requires pid in s.creates && Mine(s.creates[pid], key) && s.creates[pid].pc.Locked?
    ensures var cached := key in s.redis.cache;
            var s' := Step(s, MoveCreate(pid, SecondLookup(cached)));
            && s'.db == s.db && s'.redis == s.redis && s'.history == s.history
            && s'.creates == s.creates[pid := s.creates[pid].(pc := Admitted)]
            && FaultsOf(s', key) == (if cached then FaultsOf(s, key).(masked := FaultsOf(s, key).masked + 1)
                                     else FaultsOf(s, key))
  {
  }

  lemma DraftCommits(db: Db, redis: Redis, p: CreateProc, id: Id)
    requires p.pc.Drafted? && id !in db.rows
    ensures var task := p.pc.task.(id := id);
            CreateStep(db, redis, p, Commit(id, NoFault))
            == Moved(Put(db, Row(task, false), CreateEntry(task)), redis, Saving(Compose(task)))
  {
  }

  lemma CommitDraft(s: State, pid: Pid, key: Key)
    requires pid in s.creates && Mine(s.creates[pid], key) && s.creates[pid].pc.Drafted?
    requires Unused(s.db, pid)
    ensures var s' := Step(s, MoveCreate(pid, Commit(pid + 1, NoFault)));
            && s'.db.rows.Keys == s.db.rows.Keys + {pid + 1} && s'.redis == s.redis
            && |Committed(s'.history, key)| == |Committed(s.history, key)| + 1
            && pid in s'.creates && s'.creates[pid].pc.Saving?
            && s'.creates == s.creates[pid := s.creates[pid].(pc := s'.creates[pid].pc)]
            && FaultsOf(s', key) == FaultsOf(s, key)
  {
    var task := s.creates[pid].pc.task.(id := pid + 1);
    DraftCommits(s.db, s.redis, s.creates[pid], pid + 1);
    assert TookEffect(s.db, Put(s.db, Row(task, false), CreateEntry(task)));
    CommittedAppend(s.history, Record(pid, Created(key, CALLER, REQUEST, task)), key);
  }

  /** What a commit by request `pid` under `key` leaves behind, however it was reached. */
  ghost predicate OneMore(s: State, s': State, pid: Pid, key: Key, faults: Faults) {
    && s'.db.rows.Keys == s.db.rows.Keys + {pid + 1} && s'.redis == s.redis
    && |Committed(s'.history, key)| == |Committed(s.history, key)| + 1
    && pid in s.creates && pid in s'.creates && s'.creates[pid].pc.Saving?
    && s'.creates == s.creates[pid := s.creates[pid].(pc := s'.creates[pid].pc)]
    && FaultsOf(s', key) == faults
  }

  /** Request `pid` looks up again, finds nothing (or fails to see the entry) and commits. */
  lemma WorkEffect(s0: State, s1: State, s2: State, s3: State, pid: Pid, key: Key, cached: bool)
    requires pid in s0.creates && Mine(s0.creates[pid], key) && s0.creates[pid].pc.Locked?
    requires cached == (key in s0.redis.cache) && Unused(s0.db, pid)
    requires s1 == Step(s0, MoveCreate(pid, SecondLookup(cached)))
    requires s2 == Step(s1, MoveCreate(pid, Check(false)))
    requires s3 == Step(s2, MoveCreate(pid, Commit(pid + 1, NoFault)))
    ensures OneMore(s0, s3, pid, key,
                    if cached then FaultsOf(s0, key).(masked := FaultsOf(s0, key).masked + 1) else FaultsOf(s0, key))
  {
    LookAgain(s0, pid, key);
    CheckDraft(s1, pid, key);
    CommitDraft(s2, pid, key);
  }

  lemma WorkAt(s: State, s': State, key: Key, c: Cut)
    requires At(s, key, c) && c.v < c.b
    requires OneMore(s, s', c.v, key, Worked(c).faults)
    ensures At(s', key, Worked(c))
  {
    forall q: Pid | q < c.n ensures Placed(s', key, Worked(c), q) {
      assert Placed(s, key, c, q);
    }
  }

  lemma CheckDraft(s: State, pid: Pid, key: Key)
    requires pid in s.creates && Mine(s.creates[pid], key) && s.creates[pid].pc.Admitted?
    ensures var s' := Step(s, MoveCreate(pid, Check(false)));
            && s'.db == s.db && s'.redis == s.redis && s'.history == s.history
            && pid in s'.creates && s'.creates[pid].pc.Drafted?
            && s'.creates == s.creates[pid := s.creates[pid].(pc := s'.creates[pid].pc)]
            && FaultsOf(s', key) == FaultsOf(s, key)
  {
    QuietMove(s, pid, Check(false));
  }

  lemma SaveMove(s: State, pid: Pid, key: Key, lost: bool)
    requires pid in s.creates && Mine(s.creates[pid], key) && s.creates[pid].pc.Saving?
    ensures var s' := Step(s, MoveCreate(pid, SaveReply(if lost then Lost else Delivered)));
            && s'.db == s.db && s'.redis.locks == s.redis.locks && s'.history == s.history
            && (key in s'.redis.cache <==> key in s.redis.cache || !lost)
            && pid in s'.creates && s'.creates[pid].pc.Releasing?
            && s'.creates == s.creates[pid := s.creates[pid].(pc := s'.creates[pid].pc)]
            && FaultsOf(s', key) == (if lost then FaultsOf(s, key).(lostSaves := FaultsOf(s, key).lostSaves + 1)
                                     else FaultsOf(s, key))
  {
  }

  /** Request a saves its response, or loses the save, and releases the lock, whoever holds it. */
  lemma FinishAt(s0: State, s1: State, s2: State, key: Key, c: Cut, lost: bool)
    requires At(s0, key, c) && c.a < c.v
    requires s1 == Step(s0, MoveCreate(c.a, SaveReply(if lost then Lost else Delivered)))
    requires s2 == Step(s1, MoveCreate(c.a, ReleaseLock(false)))
    ensures At(s2, key, AfterFinish(c, lost))
  {
    var pid := c.a;
    assert Placed(s0, key, c, pid);
    SaveMove(s0, pid, key, lost);
    QuietMove(s1, pid, ReleaseLock(false));
    forall q: Pid | q < c.n ensures Placed(s2, key, AfterFinish(c, lost), q) {
      assert Placed(s0, key, c, q);
    }
  }

  function AfterFinish(c: Cut, lost: bool): Cut {
    if lost then SaveLost(c) else Finished(c)
  }

  // ---- the cuts that runs reach -----------------------------------------------------------

  /** `r` is kept by every event of an honest run. */
  ghost predicate Kept(r: State -> bool) {
    forall s, e {:trigger Step(s, e)} :: r(s) && HonestEvent(s, e) ==> r(Step(s, e))
  }

  ghost predicate StepClosed(r: State -> bool) {
    r(INITIAL) && Kept(r)
  }

  ghost predicate Reached(r: State -> bool, key: Key, c: Cut) {
    exists s :: r(s) && At(s, key, c)
  }

  /** `g` holds of the cuts that the moves lead to from cuts it holds of. */
  ghost predicate Closed(g: Cut -> bool) {
    && (forall c {:trigger Grabbed(c)} :: g(c) && !c.locked && c.b < c.n ==> g(Grabbed(c)))
    && (forall c {:trigger Expired(c)} :: g(c) && c.locked && c.a < c.b ==> g(Expired(c)))
    && (forall c {:trigger Evicted(c)} :: g(c) && c.cached ==> g(Evicted(c)))
    && (forall c {:trigger Worked(c)} :: g(c) && c.v < c.b ==> g(Worked(c)))
    && (forall c {:trigger Finished(c)} :: g(c) && c.a < c.v ==> g(Finished(c)))
    && (forall c {:trigger SaveLost(c)} :: g(c) && c.a < c.v ==> g(SaveLost(c)))
  }

  /** The three moves of a commit, one after another. */
  lemma WorkSteps(r: State -> bool, s: State, pid: Pid, key: Key, cached: bool, faults: Faults) returns (s': State)
    requires StepClosed(r) && r(s)
    requires pid in s.creates && Mine(s.creates[pid], key) && s.creates[pid].pc.Locked?
    requires cached == (key in s.redis.cache) && Unused(s.db, pid)
    requires faults == if cached then FaultsOf(s, key).(masked := FaultsOf(s, key).masked + 1) else FaultsOf(s, key)
    ensures r(s') && OneMore(s, s', pid, key, faults)
  {
    var s1 := Step(s, MoveCreate(pid, SecondLookup(cached)));
    var s2 := Step(s1, MoveCreate(pid, Check(false)));
    s' := Step(s2, MoveCreate(pid, Commit(pid + 1, NoFault)));
    WorkEffect(s, s1, s2, s', pid, key, cached);
  }

  lemma ReachedByWork(r: State -> bool, key: Key, c: Cut)
    requires StepClosed(r) && Reached(r, key, c) && c.v < c.b
    ensures Reached(r, key, Worked(c))
  {
    var s :| r(s) && At(s, key, c);
    assert Placed(s, key, c, c.v);
    var s' := WorkSteps(r, s, c.v, key, c.cached, Worked(c).faults);
    WorkAt(s, s', key, c);
  }

  lemma ReachedByFinish(r: State -> bool, key: Key, c: Cut, lost: bool)
    requires StepClosed(r) && Reached(r, key, c) && c.a < c.v
    ensures Reached(r, key, AfterFinish(c, lost))
  {
    var s :| r(s) && At(s, key, c);
    var s1 := Step(s, MoveCreate(c.a, SaveReply(if lost then Lost else Delivered)));
    var s2 := Step(s1, MoveCreate(c.a, ReleaseLock(false)));
    FinishAt(s, s1, s2, key, c, lost);
  }

  lemma ReachedByGrab(r: State -> bool, key: Key, c: Cut)
    requires StepClosed(r) && Reached(r, key, c) && !c.locked && c.b < c.n
    ensures Reached(r, key, Grabbed(c))
  {
    var s :| r(s) && At(s, key, c);
    GrabAt(s, key, c);
  }

  lemma ReachedByExpiry(r: State -> bool, key: Key, c: Cut)
    requires StepClosed(r) && Reached(r, key, c)
    ensures c.locked && c.a < c.b ==> Reached(r, key, Expired(c))
    ensures c.cached ==> Reached(r, key, Evicted(c))
  {
    var s :| r(s) && At(s, key, c);
    if c.locked && c.a < c.b {
      ExpireAt(s, key, c);
    }
    if c.cached {
      EvictAt(s, key, c);
    }
  }

  lemma ReachedIsClosed(r: State -> bool, key: Key, g: Cut -> bool)
    requires StepClosed(r)
    requires forall c :: g(c) <==> Reached(r, key, c)
    ensures Closed(g)
  {
    forall c | g(c) && !c.locked && c.b < c.n ensures g(Grabbed(c)) {
      ReachedByGrab(r, key, c);
    }
    forall c | g(c) ensures c.locked && c.a < c.b ==> g(Expired(c)) ensures c.cached ==> g(Evicted(c)) {
      ReachedByExpiry(r, key, c);
    }
    forall c | g(c) && c.v < c.b ensures g(Worked(c)) {
      ReachedByWork(r, key, c);
    }
    forall c | g(c) && c.a < c.v ensures g(Finished(c)) && g(SaveLost(c)) {
      ReachedByFinish(r, key, c, false);
      ReachedByFinish(r, key, c, true);
    }
  }

  // ---- building blocks ------------------------------------------------------------------

  /** Request `pid` arrives and misses the cache. */
  lemma Arrive(s: State, pid: Pid, key: Key)
    requires key != NIL && pid !in s.creates && key !in s.redis.cache
    ensures var s1 := Step(s, SubmitCreate(pid, CALLER, Parsed(key), REQUEST, true));
            var s2 := Step(s1, MoveCreate(pid, FirstLookup(false)));
            && s2.db == s.db && s2.redis == s.redis && s2.history == s.history && s2.edits == s.edits
            && s2.creates == s.creates[pid := CreateProc(CALLER, key, REQUEST, WantLock)]
            && FaultsOf(s2, key) == FaultsOf(s, key)
  {
    var s1 := Step(s, SubmitCreate(pid, CALLER, Parsed(key), REQUEST, true));
    assert s1.creates[pid] == CreateProc(CALLER, key, REQUEST, Start);
    QuietMove(s1, pid, FirstLookup(false));
  }

  lemma Arrival(r: State -> bool, s: State, pid: Pid, key: Key) returns (s': State)
    requires StepClosed(r) && r(s) && HonestCaller(s.db, CALLER)
    requires key != NIL && pid !in s.creates && key !in s.redis.cache
    ensures r(s') && s'.db == s.db && s'.redis == s.redis && s'.history == s.history && s'.edits == s.edits
    ensures s'.creates == s.creates[pid := CreateProc(CALLER, key, REQUEST, WantLock)]
    ensures FaultsOf(s', key) == FaultsOf(s, key)
  {
    var s1 := Step(s, SubmitCreate(pid, CALLER, Parsed(key), REQUEST, true));
    s' := Step(s1, MoveCreate(pid, FirstLookup(false)));
    Arrive(s, pid, key);
  }

  /** Requests 0..n-1 have all missed the cache, and nothing else has happened. */
  ghost predicate Gathered(s: State, key: Key, n: nat) {
    && At(s, key, Cut(n, 0, 0, 0, false, false, 0, NONE))
    && s.db.rows == map[] && HonestCaller(s.db, CALLER)
    && forall pid: Pid :: pid >= n ==> pid !in s.creates
  }

  lemma {:induction false} Gather(r: State -> bool, key: Key, n: nat) returns (s: State)
    requires StepClosed(r) && key != NIL
    ensures r(s) && Gathered(s, key, n)
  {
    if n == 0 {
      s := Step(INITIAL, Register(1, 1));
      assert Committed([], key) == [];
      CommittedAppend([], Record(0, Registered(1, 1)), key);
    } else {
      var s0 := Gather(r, key, n - 1);
      s := Arrival(r, s0, n - 1, key);
      forall pid: Pid | pid < n ensures Placed(s, key, Cut(n, 0, 0, 0, false, false, 0, NONE), pid) {
        assert pid < n - 1 ==> Placed(s0, key, Cut(n - 1, 0, 0, 0, false, false, 0, NONE), pid);
      }
    }
  }

  /** The cut moved on by `k` requests that each left a record. */
  function Served(c: Cut, k: nat): Cut {
    c.(a := c.a + k, v := c.v + k, b := c.b + k, commits := c.commits + k)
  }

  function AddLost(c: Cut, k: nat): Cut {
    c.(faults := c.faults.(lostSaves := c.faults.lostSaves + k))
  }

  function AddExpiries(c: Cut, k: nat): Cut {
    c.(faults := c.faults.(expiries := c.faults.expiries + k))
  }

  function AddEvictions(c: Cut, k: nat): Cut {
    c.(faults := c.faults.(evictions := c.faults.evictions + k))
  }

  function AddMasked(c: Cut, k: nat): Cut {
    c.(faults := c.faults.(masked := c.faults.masked + k))
  }

  /** f records whose save is lost, one request after another. */
  lemma {:induction false} LoseSaves(g: Cut -> bool, c: Cut, f: nat)
    requires Closed(g) && g(c) && !c.locked && !c.cached && c.a == c.v == c.b && c.b + f <= c.n
    ensures g(AddLost(Served(c, f), f))
  {
    if f == 0 {
      assert AddLost(Served(c, f), f) == c;
    } else {
      LoseSaves(g, c, f - 1);
      var c' := AddLost(Served(c, f - 1), f - 1);
      assert g(Grabbed(c'));
      assert g(Worked(Grabbed(c')));
      assert SaveLost(Worked(Grabbed(c'))) == AddLost(Served(c, f), f);
    }
  }

  /** e requests acquire the lock one after another, each losing it to expiry, and stall. */
  lemma {:induction false} Stall(g: Cut -> bool, c: Cut, e: nat)
    requires Closed(g) && g(c) && !c.locked && c.a <= c.b && c.b + e <= c.n
    ensures g(AddExpiries(c.(b := c.b + e), e))
  {
    if e == 0 {
      assert AddExpiries(c.(b := c.b + e), e) == c;
    } else {
      Stall(g, c, e - 1);
      var c' := AddExpiries(c.(b := c.b + (e - 1)), e - 1);
      assert g(Grabbed(c'));
      assert Expired(Grabbed(c')) == AddExpiries(c.(b := c.b + e), e);
    }
  }

  /** w stalled requests look up again and commit. */
  lemma {:induction false} WorkAll(g: Cut -> bool, c: Cut, w: nat)
    requires Closed(g) && g(c) && !c.cached && c.v + w <= c.b
    ensures g(c.(v := c.v + w, commits := c.commits + w))
  {
    if w == 0 {
      assert c.(v := c.v + w, commits := c.commits + w) == c;
    } else {
      WorkAll(g, c, w - 1);
      var c' := c.(v := c.v + (w - 1), commits := c.commits + (w - 1));
      assert Worked(c') == c.(v := c.v + w, commits := c.commits + w);
    }
  }

  function Rotated(c: Cut, k: nat): Cut {
    if k == 0 then c else c.(a := c.a + k, b := c.b + k, locked := true, cached := true)
  }

  /** k requests finish, each release letting the next waiting request in. */
  lemma {:induction false} Rotate(g: Cut -> bool, c: Cut, k: nat)
    requires Closed(g) && g(c) && c.a + k <= c.v && c.b + k <= c.n
    ensures g(Rotated(c, k))
  {
    if k > 0 {
      Rotate(g, c, k - 1);
      var c' := Rotated(c, k - 1);
      assert g(Finished(c'));
      assert Grabbed(Finished(c')) == Rotated(c, k);
    }
  }

  /** From e stalled requests and no cached response: e + 1 records, and e stalled requests again. */
  lemma Era(g: Cut -> bool, c: Cut, e: nat)
    requires Closed(g) && g(c) && !c.locked && !c.cached
    requires c.v == c.a && c.b == c.a + e && c.b + 1 + e <= c.n
    ensures g(Served(c, 1 + e).(cached := true))
  {
    assert g(Grabbed(c));
    WorkAll(g, Grabbed(c), 1 + e);
    var c' := Grabbed(c).(v := c.v + (1 + e), commits := c.commits + (1 + e));
    Rotate(g, c', e);
    assert Finished(Rotated(c', e)) == Served(c, 1 + e).(cached := true);
  }

  lemma {:induction false} Eras(g: Cut -> bool, c: Cut, e: nat, x: nat)
    requires Closed(g) && g(c) && !c.locked && !c.cached
    requires c.v == c.a && c.b == c.a + e && c.b + Budget(e, x) <= c.n
    ensures g(AddEvictions(Served(c, Budget(e, x)).(cached := true), x))
  {
    if x == 0 {
      Era(g, c, e);
      assert AddEvictions(Served(c, Budget(e, x)).(cached := true), x) == Served(c, 1 + e).(cached := true);
    } else {
      Eras(g, c, e, x - 1);
      var c' := AddEvictions(Served(c, Budget(e, x - 1)).(cached := true), x - 1);
      assert g(Evicted(c'));
      Era(g, Evicted(c'), e);
      assert Served(Evicted(c'), 1 + e).(cached := true)
          == AddEvictions(Served(c, Budget(e, x)).(cached := true), x);
    }
  }

  /** m records committed because a failed second lookup hides the cached response. */
  lemma {:induction false} Mask(g: Cut -> bool, c: Cut, m: nat)
    requires Closed(g) && g(c) && !c.locked && c.cached && c.v == c.a <= c.b && c.b + m <= c.n
    ensures g(AddMasked(Served(c, m), m))
  {
    if m == 0 {
      assert AddMasked(Served(c, m), m) == c;
    } else {
      Mask(g, c, m - 1);
      var c' := AddMasked(Served(c, m - 1), m - 1);
      assert g(Grabbed(c'));
      assert g(Worked(Grabbed(c')));
      assert Finished(Worked(Grabbed(c'))) == AddMasked(Served(c, m), m);
    }
  }

  /** From the start to the bound, on cuts alone. */
  lemma CutsReachTheBound(g: Cut -> bool, f: Faults, n: nat) returns (c: Cut)
    requires Closed(g) && g(Cut(n, 0, 0, 0, false, false, 0, NONE))
    requires n == f.lostSaves + f.expiries + Budget(f.expiries, f.evictions) + f.masked
    ensures g(c) && c.faults == f
    ensures c.commits == Budget(f.expiries, f.evictions) + f.lostSaves + f.masked
  {
    var e, x := f.expiries, f.evictions;
    c := Cut(n, 0, 0, 0, false, false, 0, NONE);
    LoseSaves(g, c, f.lostSaves);
    c := AddLost(Served(c, f.lostSaves), f.lostSaves);
    Stall(g, c, e);
    c := AddExpiries(c.(b := c.b + e), e);
    Eras(g, c, e, x);
    c := AddEvictions(Served(c, Budget(e, x)).(cached := true), x);
    Mask(g, c, f.masked);
    c := AddMasked(Served(c, f.masked), f.masked);
  }

  // ---- the theorems ------------------------------------------------------------------------

  lemma ReachTheBound(r: State -> bool, key: Key, f: Faults) returns (s: State)
    requires StepClosed(r) && key != NIL
    ensures r(s) && FaultsOf(s, key) == f
    ensures |Committed(s.history, key)| == (1 + f.expiries) * (1 + f.evictions) + f.lostSaves + f.masked
  {
    var n := f.lostSaves + f.expiries + Budget(f.expiries, f.evictions) + f.masked;
    var g := (c: Cut) => Reached(r, key, c);
    ReachedIsClosed(r, key, g);
    var start := Gather(r, key, n);
    var c := CutsReachTheBound(g, f, n);
    BudgetIsProduct(f.expiries, f.evictions);
    s :| r(s) && At(s, key, c);
  }

  lemma HonestRunsAreClosed(r: State -> bool)
    requires forall s :: r(s) <==> HonestlyReachable(s)
    ensures StepClosed(r)
  {
    InitialIsHonest();
    forall s, e | r(s) && HonestEvent(s, e) ensures r(Step(s, e)) {
      HonestStep(s, e);
    }
  }

  /** Every fault count has a run of honest callers that reaches the bound. */
  lemma BoundIsReached(key: Key, f: Faults) returns (s: State)
    requires key != NIL
    ensures Reachable(s) && HonestlyReachable(s) && FaultsOf(s, key) == f
    ensures |Committed(s.history, key)| == (1 + f.expiries) * (1 + f.evictions) + f.lostSaves + f.masked
  {
    var r := (s: State) => HonestlyReachable(s);
    HonestRunsAreClosed(r);
    s := ReachTheBound(r, key, f);
    HonestIsReachable(s);
  }

  /**
    Exactly one record per key: the promise holds of all runs with the given fault counts, or
    only of those with honest callers, if and only if there are no faults.
  */
  lemma OneRecordExactlyWithoutFaults(key: Key, f: Faults)
    requires key != NIL
    ensures (forall s | Reachable(s) && FaultsOf(s, key) == f :: |Committed(s.history, key)| <= 1)
            <==> f == NONE
    ensures (forall s | HonestlyReachable(s) && FaultsOf(s, key) == f :: |Committed(s.history, key)| <= 1)
            <==> f == NONE
  {
    if f == NONE {
      forall s | Reachable(s) && FaultsOf(s, key) == f ensures |Committed(s.history, key)| <= 1 {
        AtMostOneRecord(s, key);
      }
      forall s | HonestlyReachable(s) && FaultsOf(s, key) == f ensures Reachable(s) {
        HonestIsReachable(s);
      }
    }
    if f != NONE {
      var s := BoundIsReached(key, f);
      BoundExceedsOne(f);
    }
  }

  lemma BoundExceedsOne(f: Faults)
    requires f != NONE
    ensures (1 + f.expiries) * (1 + f.evictions) + f.lostSaves + f.masked >= 2
  {
    var e, x: nat := f.expiries, f.evictions;
    assert (1 + e) * (1 + x) == 1 + e + x + e * x;
    assert f == Faults(e, f.lostSaves, f.masked, x);
  }
}
