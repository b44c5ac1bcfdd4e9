/**
  The idempotent create protocol: how many records one key can get, over every
  interleaving of any number of requests and every combination of faults.

  Each key is watched through a handful of counters (`Tally`).  Every event of the engine is
  one of a few moves of those counters, and the bound is an invariant of the moves.
*/
module OnceOnly {
  import opened Prelude
  import opened Tasks
  import opened TaskDb
  import opened IdempotencyStore
  import opened Engine

  /** The responses of the tasks committed under a key, in commit order. */
  function Committed(history: seq<Record>, key: Key): seq<Response> {
    if history == [] then []
    else
      var earlier := Committed(history[..|history| - 1], key);
      var op := history[|history| - 1].op;
      if op.Created? && op.key == key then earlier + [Compose(op.task)] else earlier
  }

  // ---- counting requests by where they are --------------------------------------------

  datatype Zone = AtLookup | AtWork | AtSave | AtRelease | Elsewhere

  function ZoneOf(pc: CreatePc): Zone {
    match pc
    case Locked => AtLookup
    case Admitted => AtWork
    case Drafted(_) => AtWork
    case Saving(_) => AtSave
    case Releasing(_) => AtRelease
    case _ => Elsewhere
  }

  function Members(creates: map<Pid, CreateProc>, key: Key, z: Zone): set<Pid> {
    set pid | pid in creates && creates[pid].key == key && ZoneOf(creates[pid].pc) == z
  }

  datatype Tally = Tally(
    lookup: int,
    work: int,
    save: int,
    release: int,
    locked: bool,
    cached: bool,
    commits: int,
    faults: Faults)

  function TallyOf(s: State, key: Key): Tally {
    Tally(
      |Members(s.creates, key, AtLookup)|,
      |Members(s.creates, key, AtWork)|,
      |Members(s.creates, key, AtSave)|,
      |Members(s.creates, key, AtRelease)|,
      key in s.redis.locks,
      key in s.redis.cache,
      |Committed(s.history, key)|,
      FaultsOf(s, key))
  }

  function Bit(b: bool): int {
    if b then 1 else 0
  }

  function Holders(t: Tally): int {
    t.lookup + t.work + t.save + t.release
  }

  // ---- the moves of the counters ---------------------------------------------------------

  predicate SecondMiss(t: Tally, t': Tally) {
    t' == t.(lookup := t.lookup - 1, work := t.work + 1,
             faults := t.faults.(masked := t.faults.masked + Bit(t.cached)))
  }

  predicate Leaves(t: Tally, t': Tally) {
    || (t.lookup > 0 && t' == t.(lookup := t.lookup - 1))
    || (t.work > 0 && t' == t.(work := t.work - 1))
    || (t.save > 0 && t' == t.(save := t.save - 1, faults := t.faults.(lostSaves := t.faults.lostSaves + 1)))
    || (t.release > 0 && t' == t.(release := t.release - 1))
  }

  predicate GivesUp(t: Tally, t': Tally) {
    || (t.lookup > 0 && t.cached && t' == t.(lookup := t.lookup - 1, release := t.release + 1))
    || (t.work > 0 && t' == t.(work := t.work - 1, release := t.release + 1))
  }

  predicate Commits(t: Tally, t': Tally) {
    && t.work > 0
    && (|| t' == t.(work := t.work - 1, save := t.save + 1, commits := t.commits + 1)
        || t' == t.(work := t.work - 1, release := t.release + 1, commits := t.commits + 1,
                    faults := t.faults.(lostSaves := t.faults.lostSaves + 1)))
  }

  predicate Saves(t: Tally, t': Tally) {
    && t.save > 0
    && (|| t' == t.(save := t.save - 1, release := t.release + 1, cached := true)
        || ((t.cached ==> t'.cached)
            && t' == t.(save := t.save - 1, release := t.release + 1, cached := t'.cached,
                        faults := t.faults.(lostSaves := t.faults.lostSaves + 1))))
  }

  predicate Expires(t: Tally, t': Tally) {
    || (t.locked && t' == t.(locked := false,
          faults := t.faults.(expiries := t.faults.expiries + Bit(Holders(t) > 0))))
    || (t.cached && t' == t.(cached := false, faults := t.faults.(evictions := t.faults.evictions + 1)))
  }

  predicate Next(t: Tally, t': Tally) {
    || t' == t
    || (!t.locked && t' == t.(locked := true, lookup := t.lookup + 1))
    || t' == t.(locked := true)
    || (t.lookup > 0 && SecondMiss(t, t'))
    || GivesUp(t, t')
    || Commits(t, t')
    || Saves(t, t')
    || (t.release > 0 && t' == t.(release := t.release - 1, locked := t'.locked) && (t'.locked ==> t.locked))
    || Leaves(t, t')
    || Expires(t, t')
  }

  // ---- the bound, as an invariant of the moves ----------------------------------------------

  /** What `e` lock expiries may have led to by the time of the `x`-th cache eviction. */
  function Used(e: nat, x: nat): nat {
    if x == 0 then 0 else Used(e, x - 1) + 1 + e
  }

  function Budget(e: nat, x: nat): nat {
    Used(e, x) + 1 + e
  }

  lemma {:induction false} UsedGrows(e: nat, x: nat)
    ensures Used(e, x) <= Used(e + 1, x)
  {
    if x > 0 {
      UsedGrows(e, x - 1);
    }
  }

  lemma {:induction false} BudgetIsProduct(e: nat, x: nat)
    ensures Used(e, x) == (1 + e) * x
    ensures Budget(e, x) == (1 + e) * (1 + x)
  {
    if x > 0 {
      BudgetIsProduct(e, x - 1);
    }
  }

  /** Degraded mutual exclusion. */
  predicate Excluding(t: Tally) {
    Holders(t) <= t.faults.expiries + Bit(t.locked)
  }

  predicate Within(t: Tally) {
    && t.lookup >= 0 && t.work >= 0 && t.save >= 0 && t.release >= 0
    && Excluding(t)
    && var slack := t.faults.lostSaves + t.faults.masked;
       if t.cached
       then t.commits + t.work <= Budget(t.faults.expiries, t.faults.evictions) + slack
       else t.commits <= t.save + Used(t.faults.expiries, t.faults.evictions) + slack
  }

  lemma LeavingKeepsWithin(t: Tally, t': Tally)
    requires Within(t) && (Leaves(t, t') || GivesUp(t, t'))
    ensures Within(t')
  {
  }

  lemma CommitKeepsWithin(t: Tally, t': Tally)
    requires Within(t) && Commits(t, t')
    ensures Within(t')
  {
  }

  lemma SaveKeepsWithin(t: Tally, t': Tally)
    requires Within(t) && Saves(t, t')
    ensures Within(t')
  {
  }

  lemma ExpiryKeepsWithin(t: Tally, t': Tally)
    requires Within(t) && Expires(t, t')
    ensures Within(t')
  {
    UsedGrows(t.faults.expiries, t.faults.evictions);
  }

  lemma WithinKept(t: Tally, t': Tally)
    requires Within(t) && Next(t, t')
    ensures Within(t')
  {
    if Leaves(t, t') || GivesUp(t, t') {
      LeavingKeepsWithin(t, t');
    } else if Commits(t, t') {
      CommitKeepsWithin(t, t');
    } else if Saves(t, t') {
      SaveKeepsWithin(t, t');
    } else if Expires(t, t') {
      ExpiryKeepsWithin(t, t');
    }
  }

  // ---- every event is a move of every key's counters -------------------------------------------

  lemma WithoutOne(s: set<Pid>, pid: Pid)
    ensures |s - {pid}| == |s| - Bit(pid in s)
  {
  }

  lemma Shift(creates: map<Pid, CreateProc>, pid: Pid, p: CreateProc, key: Key, z: Zone)
    requires pid in creates && p.key == creates[pid].key
    ensures |Members(creates[pid := p], key, z)|
         == |Members(creates, key, z)|
            - Bit(p.key == key && ZoneOf(creates[pid].pc) == z)
            + Bit(p.key == key && ZoneOf(p.pc) == z)
  {
    var before := Members(creates, key, z);
    var after := Members(creates[pid := p], key, z);
    assert pid in before <==> p.key == key && ZoneOf(creates[pid].pc) == z;
    assert pid in after <==> p.key == key && ZoneOf(p.pc) == z;
    SameOthers(creates, pid, p, key, z);
    WithoutOne(before, pid);
    WithoutOne(after, pid);
  }

  lemma SameOthers(creates: map<Pid, CreateProc>, pid: Pid, p: CreateProc, key: Key, z: Zone)
    requires pid in creates
    ensures Members(creates, key, z) - {pid} == Members(creates[pid := p], key, z) - {pid}
  {
  }

  lemma ShiftAll(creates: map<Pid, CreateProc>, pid: Pid, p: CreateProc, key: Key)
    requires pid in creates && p.key == creates[pid].key
    ensures forall z ::
              |Members(creates[pid := p], key, z)|
              == |Members(creates, key, z)|
                 - Bit(p.key == key && ZoneOf(creates[pid].pc) == z)
                 + Bit(p.key == key && ZoneOf(p.pc) == z)
    ensures p.key == key ==> |Members(creates, key, ZoneOf(creates[pid].pc))| > 0
  {
    forall z {
      Shift(creates, pid, p, key, z);
    }
    if p.key == key {
      assert pid in Members(creates, key, ZoneOf(creates[pid].pc));
    }
  }

  lemma CommittedAppend(history: seq<Record>, r: Record, key: Key)
    ensures Committed(history + [r], key)
         == if r.op.Created? && r.op.key == key then Committed(history, key) + [Compose(r.op.task)]
            else Committed(history, key)
  {
    assert (history + [r])[..|history|] == history;
  }

  lemma CommitCounts(s: State, pid: Pid, m: CreateMove)
    requires pid in s.creates && s.creates[pid].pc.Drafted? && m.Commit?
    ensures var t, t' := TallyOf(s, s.creates[pid].key), TallyOf(AfterCreateMove(s, pid, m), s.creates[pid].key);
            Commits(t, t') || GivesUp(t, t')
  {
    var p := s.creates[pid];
    var s' := AfterCreateMove(s, pid, m);
    ShiftAll(s.creates, pid, s'.creates[pid], p.key);
    CommittedAppend(s.history, Record(pid, Created(p.key, p.caller, p.req, p.pc.task.(id := m.id))), p.key);
    CommitStep(s.db, s.redis, p, m);
    CommitShift(TallyOf(s, p.key), TallyOf(s', p.key), ZoneOf(s'.creates[pid].pc), TookEffect(s.db, s'.db));
  }

  /** Where a transaction leaves its request: to save if it is known to have committed, else to release. */
  lemma CommitStep(db: Db, redis: Redis, p: CreateProc, m: CreateMove)
    requires p.pc.Drafted? && m.Commit?
    ensures var moved := CreateStep(db, redis, p, m);
            && moved.redis == redis
            && (moved.pc.Saving? || moved.pc.Releasing?)
            && (moved.pc.Saving? ==> TookEffect(db, moved.db))
  {
  }

  /** The counters after a request at work has run its transaction. */
  lemma CommitShift(t: Tally, t': Tally, z: Zone, committed: bool)
    requires t.work > 0 && (z == AtSave || z == AtRelease) && (z == AtSave ==> committed)
    requires t'.lookup == t.lookup && t'.work == t.work - 1
    requires t'.save == t.save + Bit(z == AtSave) && t'.release == t.release + Bit(z == AtRelease)
    requires t'.locked == t.locked && t'.cached == t.cached && t'.commits == t.commits + Bit(committed)
    requires t'.faults == t.faults.(lostSaves := t.faults.lostSaves + Bit(committed && z == AtRelease))
    ensures Commits(t, t') || GivesUp(t, t')
  {
  }

  lemma SaveCounts(s: State, pid: Pid, m: CreateMove)
    requires pid in s.creates && s.creates[pid].pc.Saving? && m.SaveReply?
    ensures Saves(TallyOf(s, s.creates[pid].key), TallyOf(AfterCreateMove(s, pid, m), s.creates[pid].key))
  {
    ShiftAll(s.creates, pid, AfterCreateMove(s, pid, m).creates[pid], s.creates[pid].key);
  }

  lemma LookupCounts(s: State, pid: Pid, m: CreateMove)
    requires pid in s.creates && s.creates[pid].pc.Locked? && m.SecondLookup?
    ensures var t, t' := TallyOf(s, s.creates[pid].key), TallyOf(AfterCreateMove(s, pid, m), s.creates[pid].key);
            t.lookup > 0 && (SecondMiss(t, t') || GivesUp(t, t'))
  {
    ShiftAll(s.creates, pid, AfterCreateMove(s, pid, m).creates[pid], s.creates[pid].key);
  }

  predicate PlainMove(p: CreateProc, m: CreateMove) {
    && !(p.pc.Drafted? && m.Commit?)
    && !(p.pc.Saving? && m.SaveReply?)
    && !(p.pc.Locked? && m.SecondLookup?)
  }

  /** Every other move of a create request leaves the database and the cache alone. */
  lemma PlainStep(db: Db, redis: Redis, p: CreateProc, m: CreateMove)
    requires PlainMove(p, m)
    ensures var moved := CreateStep(db, redis, p, m);
            var z, z' := ZoneOf(p.pc), ZoneOf(moved.pc);
            && moved.db == db && moved.redis.cache == redis.cache
            && (p.pc.Saving? ==> moved.pc == p.pc) && (p.pc.Locked? ==> moved.pc == p.pc)
            && (|| (z' == z && moved.redis.locks == redis.locks)
                || (z == Elsewhere && z' == AtLookup && p.key !in redis.locks
                    && moved.redis.locks == redis.locks + {p.key})
                || (z == z' == Elsewhere && moved.redis.locks == redis.locks + {p.key})
                || (z == AtWork && z' == AtRelease && moved.redis.locks == redis.locks)
                || (z == AtRelease && z' == Elsewhere
                    && (moved.redis.locks == redis.locks || moved.redis.locks == redis.locks - {p.key})))
  {
  }

  lemma PlainMoveCounts(s: State, pid: Pid, m: CreateMove)
    requires pid in s.creates && PlainMove(s.creates[pid], m)
    ensures Next(TallyOf(s, s.creates[pid].key), TallyOf(AfterCreateMove(s, pid, m), s.creates[pid].key))
  {
    var p := s.creates[pid];
    var s' := AfterCreateMove(s, pid, m);
    PlainStep(s.db, s.redis, p, m);
    ShiftAll(s.creates, pid, s'.creates[pid], p.key);
    var t, t' := TallyOf(s, p.key), TallyOf(s', p.key);
    assert s'.history == s.history && t'.faults == t.faults && t'.cached == t.cached;
    PlainShift(t, t', ZoneOf(p.pc), ZoneOf(s'.creates[pid].pc));
  }

  /** The counters after a request has moved from zone `z` to zone `z'` in a plain step. */
  lemma PlainShift(t: Tally, t': Tally, z: Zone, z': Zone)
    requires t'.lookup == t.lookup - Bit(z == AtLookup) + Bit(z' == AtLookup)
    requires t'.work == t.work - Bit(z == AtWork) + Bit(z' == AtWork)
    requires t'.save == t.save - Bit(z == AtSave) + Bit(z' == AtSave)
    requires t'.release == t.release - Bit(z == AtRelease) + Bit(z' == AtRelease)
    requires t'.cached == t.cached && t'.commits == t.commits && t'.faults == t.faults
    requires z == AtWork ==> t.work > 0
    requires z == AtRelease ==> t.release > 0
    requires || (z' == z && t'.locked == t.locked)
             || (z == Elsewhere && z' == AtLookup && !t.locked && t'.locked)
             || (z == z' == Elsewhere && t'.locked)
             || (z == AtWork && z' == AtRelease && t'.locked == t.locked)
             || (z == AtRelease && z' == Elsewhere && (t'.locked ==> t.locked))
    ensures Next(t, t')
  {
    if z' == z {
      assert t' == t.(locked := t'.locked);
    }
  }

  /** A move of a request under one key does not touch another key's counters. */
  lemma OtherKeyCounts(s: State, pid: Pid, m: CreateMove, key: Key)
    requires pid in s.creates && s.creates[pid].key != key
    ensures TallyOf(AfterCreateMove(s, pid, m), key) == TallyOf(s, key)
  {
    var s' := AfterCreateMove(s, pid, m);
    var landed := CreateMoveEffect(s, pid, m);
    OtherKeyRedis(s.db, s.redis, s.creates[pid], m, key);
    OtherKeyHistory(s, s', pid, landed, key);
    OtherKeyMembers(s.creates, pid, s'.creates[pid], key);
    assert FaultsOf(s', key) == FaultsOf(s, key);
  }

  lemma OtherKeyMembers(creates: map<Pid, CreateProc>, pid: Pid, p: CreateProc, key: Key)
    requires pid in creates && p.key == creates[pid].key != key
    ensures forall z :: Members(creates[pid := p], key, z) == Members(creates, key, z)
  {
  }

  lemma OtherKeyRedis(db: Db, redis: Redis, p: CreateProc, m: CreateMove, key: Key)
    requires p.key != key
    ensures var after := CreateStep(db, redis, p, m).redis;
            (key in after.locks <==> key in redis.locks) && (key in after.cache <==> key in redis.cache)
  {
  }

  lemma OtherKeyHistory(s: State, s': State, pid: Pid, landed: Option<Task>, key: Key)
    requires CreateEffect(s, s', pid, landed) && s.creates[pid].key != key
    ensures Committed(s'.history, key) == Committed(s.history, key)
  {
    if landed.Some? {
      CommittedAppend(s.history, s'.history[|s.history|], key);
    }
  }

  lemma MoveCreateCounts(s: State, pid: Pid, m: CreateMove, key: Key)
    requires pid in s.creates
    ensures Next(TallyOf(s, key), TallyOf(AfterCreateMove(s, pid, m), key))
  {
    var p := s.creates[pid];
    if p.key != key {
      OtherKeyCounts(s, pid, m, key);
    } else if p.pc.Drafted? && m.Commit? {
      CommitCounts(s, pid, m);
    } else if p.pc.Saving? && m.SaveReply? {
      SaveCounts(s, pid, m);
    } else if p.pc.Locked? && m.SecondLookup? {
      LookupCounts(s, pid, m);
    } else {
      PlainMoveCounts(s, pid, m);
    }
  }

  lemma CrashCounts(s: State, pid: Pid, key: Key)
    requires pid in s.creates
    ensures Next(TallyOf(s, key), TallyOf(AfterCrash(s, pid), key))
  {
    var p := s.creates[pid];
    if !p.pc.Replied? {
      ShiftAll(s.creates, pid, p.(pc := Crashed), key);
      var t, t' := TallyOf(s, key), TallyOf(AfterCrash(s, pid), key);
      CrashLeaves(t, t', if p.key == key then ZoneOf(p.pc) else Elsewhere);
    }
  }

  /** The counters after a request in zone `z` has vanished. */
  lemma CrashLeaves(t: Tally, t': Tally, z: Zone)
    requires t'.lookup == t.lookup - Bit(z == AtLookup) && t'.work == t.work - Bit(z == AtWork)
    requires t'.save == t.save - Bit(z == AtSave) && t'.release == t.release - Bit(z == AtRelease)
    requires t'.locked == t.locked && t'.cached == t.cached && t'.commits == t.commits
    requires t'.faults == t.faults.(lostSaves := t.faults.lostSaves + Bit(z == AtSave))
    requires z == AtLookup ==> t.lookup > 0
    requires z == AtWork ==> t.work > 0
    requires z == AtSave ==> t.save > 0
    requires z == AtRelease ==> t.release > 0
    ensures Next(t, t')
  {
    assert z == Elsewhere ==> t' == t;
  }

  lemma FourParts(a: set<Pid>, b: set<Pid>, c: set<Pid>, d: set<Pid>)
    requires a !! b && c !! d && (a + b) !! (c + d)
    ensures |a + b + (c + d)| == |a| + |b| + |c| + |d|
  {
    assert |a + b| == |a| + |b| && |c + d| == |c| + |d|;
  }

  /** The holders counted zone by zone are the requests inside. */
  lemma HoldersAreInside(s: State, key: Key)
    ensures Holders(TallyOf(s, key)) == |InsideFor(s.creates, key)|
  {
    var a, b := Members(s.creates, key, AtLookup), Members(s.creates, key, AtWork);
    var c, d := Members(s.creates, key, AtSave), Members(s.creates, key, AtRelease);
    InsideByZone(s.creates, key);
    FourParts(a, b, c, d);
  }

  lemma InsideByZone(creates: map<Pid, CreateProc>, key: Key)
    ensures InsideFor(creates, key)
         == Members(creates, key, AtLookup) + Members(creates, key, AtWork)
            + (Members(creates, key, AtSave) + Members(creates, key, AtRelease))
  {
  }

  lemma LockExpiryCounts(s: State, k: Key, key: Key)
    ensures Next(TallyOf(s, key), TallyOf(AfterLockExpiry(s, k), key))
  {
    HoldersAreInside(s, k);
    var t, t' := TallyOf(s, key), TallyOf(AfterLockExpiry(s, k), key);
    assert t' == t || Expires(t, t');
  }

  lemma CacheExpiryCounts(s: State, k: Key, key: Key)
    ensures Next(TallyOf(s, key), TallyOf(AfterCacheExpiry(s, k), key))
  {
    var t, t' := TallyOf(s, key), TallyOf(AfterCacheExpiry(s, k), key);
    assert t' == t || Expires(t, t');
  }

  /** A new request is nowhere near the lock. */
  lemma ArrivalCounts(creates: map<Pid, CreateProc>, pid: Pid, p: CreateProc, key: Key)
    requires pid !in creates && ZoneOf(p.pc) == Elsewhere
    ensures forall z :: z != Elsewhere ==> Members(creates[pid := p], key, z) == Members(creates, key, z)
  {
  }

  lemma MoveEditCounts(s: State, s': State, pid: Pid, wrote: Option<Fault>, key: Key)
    requires EditEffect(s, s', pid, wrote)
    ensures TallyOf(s', key) == TallyOf(s, key)
  {
    CommittedAppend(s.history, Record(pid, Edited(s.edits[pid].caller, s.edits[pid].call)), key);
  }

  lemma StepCounts(s: State, e: Event, key: Key)
    ensures Next(TallyOf(s, key), TallyOf(Step(s, e), key))
  {
    match e
    case MoveCreate(pid, m) =>
      if pid in s.creates { MoveCreateCounts(s, pid, m, key); }
    case Crash(pid) =>
      if pid in s.creates { CrashCounts(s, pid, key); }
    case LockExpires(k) => LockExpiryCounts(s, k, key);
    case CacheExpires(k) => CacheExpiryCounts(s, k, key);
    case MoveEdit(pid, m) =>
      if pid in s.edits {
        var wrote := EditMoveEffect(s, pid, m);
        MoveEditCounts(s, Step(s, e), pid, wrote, key);
      }
    case SubmitCreate(pid, caller, header, req, titleAccepted) =>
      if pid !in s.creates { SubmitCounts(s, pid, AdmitCreate(caller, header, req, titleAccepted), key); }
    case Register(user, team) =>
      RegisterCounts(s, user, team, key);
    case SubmitEdit(_, _, _) =>
      assert TallyOf(Step(s, e), key) == TallyOf(s, key);
  }

  lemma SubmitCounts(s: State, pid: Pid, p: CreateProc, key: Key)
    requires pid !in s.creates && ZoneOf(p.pc) == Elsewhere
    ensures TallyOf(s.(creates := s.creates[pid := p]), key) == TallyOf(s, key)
  {
    ArrivalCounts(s.creates, pid, p, key);
  }

  lemma RegisterCounts(s: State, user: Id, team: Id, key: Key)
    ensures TallyOf(Step(s, Register(user, team)), key) == TallyOf(s, key)
  {
    CommittedAppend(s.history, Record(0, Registered(user, team)), key);
  }

  lemma {:induction false} RunWithin(events: seq<Event>, key: Key)
    ensures Within(TallyOf(Run(events), key))
  {
    if events == [] {
      forall z ensures Members(INITIAL.creates, key, z) == {} {
      }
    } else {
      RunWithin(events[..|events| - 1], key);
      var s := Run(events[..|events| - 1]);
      StepCounts(s, events[|events| - 1], key);
      WithinKept(TallyOf(s, key), TallyOf(Run(events), key));
    }
  }

  lemma ReachableWithin(s: State, key: Key)
    requires Reachable(s)
    ensures Within(TallyOf(s, key))
  {
    var events :| Run(events) == s;
    RunWithin(events, key);
  }

  // ---- the theorems --------------------------------------------------------------------------

  /**
    Over every run, the records committed under a key number at most
    (1 + lock expiries under a live request) * (1 + cache expiries)
    + commits whose response was not reported cached + second lookups that failed over a
    cached response.
  */
  lemma RecordsPerKey(s: State, key: Key)
    requires Reachable(s)
    ensures var f := FaultsOf(s, key);
            |Committed(s.history, key)| <= (1 + f.expiries) * (1 + f.evictions) + f.lostSaves + f.masked
  {
    ReachableWithin(s, key);
    WithinBound(TallyOf(s, key));
  }

  lemma WithinBound(t: Tally)
    requires Within(t)
    ensures t.commits <= (1 + t.faults.expiries) * (1 + t.faults.evictions) + t.faults.lostSaves + t.faults.masked
  {
    BudgetIsProduct(t.faults.expiries, t.faults.evictions);
  }

  /**
    Degraded mutual exclusion: at most one more request than there were expiries is ever
    between acquire and release, and none more than the expiries while the lock key is
    absent, although the release deletes the lock whoever owns it.
  */
  lemma DegradedMutualExclusion(s: State, key: Key)
    requires Reachable(s)
    ensures |InsideFor(s.creates, key)| <= FaultsOf(s, key).expiries + (if key in s.redis.locks then 1 else 0)
  {
    ReachableWithin(s, key);
    HoldersAreInside(s, key);
  }

  /** With none of these faults a key never gets a second record. */
  lemma AtMostOneRecord(s: State, key: Key)
    requires Reachable(s) && FaultsOf(s, key) == NONE
    ensures |Committed(s.history, key)| <= 1
    ensures |InsideFor(s.creates, key)| <= 1
  {
    ReachableWithin(s, key);
    HoldersAreInside(s, key);
  }
}
