/** Requests run alone: what a request's moves do with no other event in between. */
module Solo {
  import opened Prelude
  import opened AppErrors
  import opened Tasks
  import opened TaskDb
  import opened IdempotencyStore
  import opened Planning
  import opened Engine

  /** The moves of one create request, one after another. */
  function SoloCreate(db: Db, redis: Redis, p: CreateProc, moves: seq<CreateMove>): Moved
    decreases |moves|
  {
    if moves == [] then Moved(db, redis, p.pc)
    else
      var moved := CreateStep(db, redis, p, moves[0]);
      SoloCreate(moved.db, moved.redis, p.(pc := moved.pc), moves[1..])
  }

  /** The moves of a lock holder up to its release. */
  function Held(env: CreateEnv): seq<CreateMove> {
    [SecondLookup(env.secondLookup), Check(env.check), Commit(env.id, env.tx), SaveReply(env.save)]
  }

  /** What the environment does to one call of CreateTask. */
  datatype CreateEnv = CreateEnv(
    firstLookup: bool,
    lock: NetFault,
    wakes: seq<Wake>,
    secondLookup: bool,
    check: bool,
    id: Id,
    tx: Fault,
    save: NetFault,
    release: bool)

  function Waits(wakes: seq<Wake>): seq<CreateMove>
    ensures |Waits(wakes)| == |wakes|
  {
    if wakes == [] then [] else [Wait(wakes[0])] + Waits(wakes[1..])
  }

  function Tail(env: CreateEnv): seq<CreateMove> {
    Held(env) + [ReleaseLock(env.release)]
  }

  /** Every move of a call, in program order; the ones its path does not reach change nothing. */
  function Program(env: CreateEnv): seq<CreateMove> {
    [FirstLookup(env.firstLookup), TryLock(env.lock)] + Waits(env.wakes) + Tail(env)
  }

  function Moving(pid: Pid, moves: seq<CreateMove>): seq<Event>
    ensures |Moving(pid, moves)| == |moves|
  {
    if moves == [] then [] else [MoveCreate(pid, moves[0])] + Moving(pid, moves[1..])
  }

  /** Running a create request alone is a run of the engine. */
  lemma {:induction false} SoloCreateIsARun(s: State, pid: Pid, moves: seq<CreateMove>)
    requires pid in s.creates
    ensures var s' := RunFrom(s, Moving(pid, moves));
            var solo := SoloCreate(s.db, s.redis, s.creates[pid], moves);
            && s'.db == solo.db && s'.redis == solo.redis && s'.edits == s.edits
            && s'.creates == s.creates[pid := s.creates[pid].(pc := solo.pc)]
    decreases |moves|
  {
    if moves == [] {
      assert s.creates == s.creates[pid := s.creates[pid].(pc := s.creates[pid].pc)];
    } else {
      var s1 := AfterCreateMove(s, pid, moves[0]);
      assert Moving(pid, moves)[0] == MoveCreate(pid, moves[0]);
      assert Moving(pid, moves)[1..] == Moving(pid, moves[1..]);
      SoloCreateIsARun(s1, pid, moves[1..]);
    }
  }

  /** So is an edit. */
  lemma SerialIsARun(s: State, pid: Pid, faults: EditFaults)
    requires pid in s.edits && s.edits[pid].pc.Waiting?
    ensures var p := s.edits[pid];
            var s1 := Step(s, MoveEdit(pid, LoadRow(faults.load)));
            var s2 := Step(s1, MoveEdit(pid, PrepareWrite(faults.prepare)));
            var s3 := Step(s2, MoveEdit(pid, RunWrite(faults.write)));
            && pid in s3.edits
            && (s3.db, s3.edits[pid].pc) == SoloEdit(s.db, p, faults)
            && s3.redis == s.redis && s3.creates == s.creates
            && s3.edits == s.edits[pid := p.(pc := s3.edits[pid].pc)]
    ensures SoloEdit(s.db, s.edits[pid], faults)
         == (Serial(s.db, s.edits[pid].caller, s.edits[pid].call, faults).0,
             Answered(Serial(s.db, s.edits[pid].caller, s.edits[pid].call, faults).1))
  {
    SoloEditIsSerial(s.db, s.edits[pid], faults);
  }

  /**
    One call of CreateTask, submitted in a reachable state and run alone, ends in a reachable
    state; so every theorem about reachable states holds after it, on every path and fault.
  */
  lemma CreateTaskReaches(s: State, pid: Pid, caller: Option<AuthUser>, header: Header, req: CreateRequest,
                          titleAccepted: bool, env: CreateEnv) returns (s': State)
    requires Reachable(s) && pid !in s.creates
    ensures Reachable(s') && Leads(s, s')
    ensures HonestlyReachable(s) && HonestCaller(s.db, caller) ==> HonestlyReachable(s')
    ensures var p := AdmitCreate(caller, header, req, titleAccepted);
            var solo := SoloCreate(s.db, s.redis, p, Program(env));
            && s'.db == solo.db && s'.redis == solo.redis && s'.edits == s.edits
            && s'.creates == s.creates[pid := p.(pc := solo.pc)]
  {
    var submit := SubmitCreate(pid, caller, header, req, titleAccepted);
    var moves := Moving(pid, Program(env));
    var s0 := s.(creates := s.creates[pid := AdmitCreate(caller, header, req, titleAccepted)]);
    assert Step(s, submit) == s0;
    MovesOnly(pid, Program(env));
    s' := SubmitAndRun(s, submit, moves);
    SoloCreateIsARun(s0, pid, Program(env));
  }

  lemma {:induction false} MovesOnly(pid: Pid, moves: seq<CreateMove>)
    ensures forall e :: e in Moving(pid, moves) ==> !Submits(e)
  {
    if moves != [] {
      MovesOnly(pid, moves[1..]);
    }
  }

  /** So does one edit; it does what the serial operation does, behind the controllers' gate. */
  lemma EditReaches(s: State, pid: Pid, caller: Option<AuthUser>, call: Call, faults: EditFaults) returns (s': State)
    requires Reachable(s) && pid !in s.edits
    ensures Reachable(s') && Leads(s, s')
    ensures HonestlyReachable(s) && HonestCaller(s.db, caller) ==> HonestlyReachable(s')
    ensures var (db', reply) := if ValidCall(call) then Serial(s.db, caller, call, faults) else (s.db, BadRequest());
            && s'.db == db' && s'.redis == s.redis && s'.creates == s.creates
            && s'.edits == s.edits[pid := EditProc(caller, call, Answered(reply))]
  {
    var submit := SubmitEdit(pid, caller, call);
    var s0 := Step(s, submit);
    assert s0.edits[pid] == AdmitEdit(caller, call);
    var moves := if ValidCall(call) then EditMoves(pid, faults) else [];
    s' := SubmitAndRun(s, submit, moves);
    if ValidCall(call) {
      EditMovesAreSerial(s0, pid, faults);
    }
  }

  function EditMoves(pid: Pid, faults: EditFaults): seq<Event> {
    [MoveEdit(pid, LoadRow(faults.load)), MoveEdit(pid, PrepareWrite(faults.prepare)),
     MoveEdit(pid, RunWrite(faults.write))]
  }

  lemma EditMovesAreSerial(s: State, pid: Pid, faults: EditFaults)
    requires pid in s.edits && s.edits[pid].pc.Waiting?
    ensures var p := s.edits[pid];
            var s' := RunFrom(s, EditMoves(pid, faults));
            var (db', reply) := Serial(s.db, p.caller, p.call, faults);
            && s'.db == db' && s'.redis == s.redis && s'.creates == s.creates
            && s'.edits == s.edits[pid := p.(pc := Answered(reply))]
  {
    SerialIsARun(s, pid, faults);
    ThreeSteps(s, MoveEdit(pid, LoadRow(faults.load)), MoveEdit(pid, PrepareWrite(faults.prepare)),
               MoveEdit(pid, RunWrite(faults.write)));
  }

  lemma ThreeSteps(s: State, a: Event, b: Event, c: Event)
    ensures RunFrom(s, [a, b, c]) == Step(Step(Step(s, a), b), c)
  {
    assert [a, b, c] == [a] + ([b] + ([c] + []));
    RunFirst(s, a, [b] + ([c] + []));
    RunFirst(Step(s, a), b, [c] + []);
    RunFirst(Step(Step(s, a), b), c, []);
  }

  /** The three moves of one edit request. */
  function SoloEdit(db: Db, p: EditProc, faults: EditFaults): (Db, EditPc) {
    var one := EditStep(db, p, LoadRow(faults.load));
    var two := EditStep(one.0, p.(pc := one.1), PrepareWrite(faults.prepare));
    EditStep(two.0, p.(pc := two.1), RunWrite(faults.write))
  }

  lemma SoloEditIsSerial(db: Db, p: EditProc, faults: EditFaults)
    requires p.pc.Waiting?
    ensures SoloEdit(db, p, faults)
         == (Serial(db, p.caller, p.call, faults).0, Answered(Serial(db, p.caller, p.call, faults).1))
  {
    var loading := Load(db, p.caller, p.call, faults.load);
    if loading.Snapshot? {
      var preparing := Prepare(db, p.caller.value, p.call, loading.task, faults.prepare);
      assert preparing.Rejected? || preparing.Planned?;
    }
  }

  // ---- stepping through a program ---------------------------------------------------------

  lemma SoloFirst(db: Db, redis: Redis, p: CreateProc, m: CreateMove, rest: seq<CreateMove>)
    ensures var moved := CreateStep(db, redis, p, m);
            SoloCreate(db, redis, p, [m] + rest) == SoloCreate(moved.db, moved.redis, p.(pc := moved.pc), rest)
  {
    assert ([m] + rest)[1..] == rest;
  }

  lemma {:induction false} SoloConcat(db: Db, redis: Redis, p: CreateProc, a: seq<CreateMove>, b: seq<CreateMove>)
    ensures var mid := SoloCreate(db, redis, p, a);
            SoloCreate(db, redis, p, a + b) == SoloCreate(mid.db, mid.redis, p.(pc := mid.pc), b)
    decreases |a|
  {
    if a == [] {
      assert a + b == b;
    } else {
      assert a + b == [a[0]] + (a[1..] + b);
      SoloFirst(db, redis, p, a[0], a[1..] + b);
      var moved := CreateStep(db, redis, p, a[0]);
      SoloConcat(moved.db, moved.redis, p.(pc := moved.pc), a[1..], b);
    }
  }

  lemma {:induction false} RepliedStops(db: Db, redis: Redis, p: CreateProc, moves: seq<CreateMove>)
    requires p.pc.Replied?
    ensures SoloCreate(db, redis, p, moves) == Moved(db, redis, p.pc)
    decreases |moves|
  {
    if moves != [] {
      RepliedStops(db, redis, p, moves[1..]);
    }
  }

  /** A request about to release passes by everything but the release. */
  lemma {:induction false} ReleasingPassesBy(db: Db, redis: Redis, p: CreateProc, moves: seq<CreateMove>)
    requires p.pc.Releasing? && forall m :: m in moves ==> !m.ReleaseLock?
    ensures SoloCreate(db, redis, p, moves) == Moved(db, redis, p.pc)
    decreases |moves|
  {
    if moves != [] {
      assert moves[0] in moves;
      ReleasingPassesBy(db, redis, p, moves[1..]);
    }
  }

  /** A request that is not polling passes by the waits. */
  lemma {:induction false} WaitsPassBy(db: Db, redis: Redis, p: CreateProc, wakes: seq<Wake>, rest: seq<CreateMove>)
    requires !p.pc.Polling?
    ensures SoloCreate(db, redis, p, Waits(wakes) + rest) == SoloCreate(db, redis, p, rest)
    decreases |wakes|
  {
    if wakes == [] {
      assert Waits(wakes) + rest == rest;
    } else {
      assert Waits(wakes) + rest == [Wait(wakes[0])] + (Waits(wakes[1..]) + rest);
      SoloFirst(db, redis, p, Wait(wakes[0]), Waits(wakes[1..]) + rest);
      WaitsPassBy(db, redis, p, wakes[1..], rest);
    }
  }

  /** A request still polling passes by everything but waits. */
  lemma PollingPassesBy(db: Db, redis: Redis, p: CreateProc, env: CreateEnv)
    requires p.pc.Polling?
    ensures SoloCreate(db, redis, p, Tail(env)) == Moved(db, redis, p.pc)
  {
    var r4 := [ReleaseLock(env.release)];
    var r3 := [SaveReply(env.save)] + r4;
    var r2 := [Commit(env.id, env.tx)] + r3;
    var r1 := [Check(env.check)] + r2;
    assert Tail(env) == [SecondLookup(env.secondLookup)] + r1;
    SoloFirst(db, redis, p, SecondLookup(env.secondLookup), r1);
    SoloFirst(db, redis, p, Check(env.check), r2);
    SoloFirst(db, redis, p, Commit(env.id, env.tx), r3);
    SoloFirst(db, redis, p, SaveReply(env.save), r4);
    assert r4[1..] == [];
  }

  // ---- the lock holder's path ------------------------------------------------------------------

  /** The four moves of a lock holder before its release, spelled out. */
  function HeldOutcome(db: Db, redis: Redis, p: CreateProc, env: CreateEnv): Moved {
    match GetResponse(redis, p.key, env.secondLookup)
    case Hit(resp) => Moved(db, redis, Releasing(Ok(resp)))
    case _ =>
      match DraftTask(db, p.caller, p.req, env.check)
      case Denied(err) => Moved(db, redis, Releasing(Fail(err)))
      case Draft(task) =>
        CommitOutcome(db, redis, p, task, env)
  }

  lemma HeldPath(db: Db, redis: Redis, p: CreateProc, env: CreateEnv)
    requires p.pc.Locked?
    ensures SoloCreate(db, redis, p, Held(env)) == HeldOutcome(db, redis, p, env)
  {
    var r3 := [SaveReply(env.save)];
    var r2 := [Commit(env.id, env.tx)] + r3;
    var r1 := [Check(env.check)] + r2;
    assert Held(env) == [SecondLookup(env.secondLookup)] + r1;
    SoloFirst(db, redis, p, SecondLookup(env.secondLookup), r1);
    var found := GetResponse(redis, p.key, env.secondLookup);
    if found.Hit? {
      ReleasingPassesBy(db, redis, p.(pc := Releasing(Ok(found.resp))), r1);
    } else {
      CheckedPath(db, redis, p.(pc := Admitted), env);
    }
  }

  lemma CheckedPath(db: Db, redis: Redis, p: CreateProc, env: CreateEnv)
    requires p.pc.Admitted? && (env.secondLookup || p.key !in redis.cache)
    ensures SoloCreate(db, redis, p, [Check(env.check)] + ([Commit(env.id, env.tx)] + [SaveReply(env.save)]))
         == HeldOutcome(db, redis, p, env)
  {
    var r2 := [Commit(env.id, env.tx)] + [SaveReply(env.save)];
    SoloFirst(db, redis, p, Check(env.check), r2);
    var drafting := DraftTask(db, p.caller, p.req, env.check);
    if drafting.Denied? {
      ReleasingPassesBy(db, redis, p.(pc := Releasing(Fail(drafting.err))), r2);
    } else {
      CommittedPath(db, redis, p.(pc := Drafted(drafting.task)), env);
    }
  }

  /** How a drafted request ends, before its release. */
  function CommitOutcome(db: Db, redis: Redis, p: CreateProc, task: Task, env: CreateEnv): Moved {
    var out := Insert(db, task, env.id, env.tx);
    if out.err.Some?
    then Moved(out.db, redis, Releasing(Fail(ServiceWrap(Annotated(CreatingTask, out.err.value)))))
    else
      var saved := Save(redis, p.key, Compose(task.(id := env.id)), env.save);
      Moved(out.db, saved.0,
            Releasing(if saved.1.None? then Ok(Compose(task.(id := env.id)))
                      else Fail(ServiceWrap(Annotated(SavingReply, saved.1.value)))))
  }

  lemma CommittedPath(db: Db, redis: Redis, p: CreateProc, env: CreateEnv)
    requires p.pc.Drafted?
    ensures SoloCreate(db, redis, p, [Commit(env.id, env.tx)] + [SaveReply(env.save)])
         == CommitOutcome(db, redis, p, p.pc.task, env)
  {
    var r3 := [SaveReply(env.save)];
    var committed := CreateStep(db, redis, p, Commit(env.id, env.tx));
    SoloFirst(db, redis, p, Commit(env.id, env.tx), r3);
    if committed.pc.Releasing? {
      ReleasingPassesBy(committed.db, redis, p.(pc := committed.pc), r3);
    } else {
      SoloFirst(committed.db, redis, p.(pc := committed.pc), SaveReply(env.save), []);
      assert r3 + [] == r3;
    }
  }

  // ---- sequential duplicates -----------------------------------------------------------------

  /**
    Idempotence in sequence: once the response of a key is cached, every later call with that
    key, whatever its body and caller, answers with the cached response and changes neither
    the database nor Redis.
  */
  lemma DuplicateIsReplayed(db: Db, redis: Redis, p: CreateProc, env: CreateEnv)
    requires p.pc.Start? && p.key in redis.cache && !env.firstLookup
    ensures SoloCreate(db, redis, p, Program(env)) == Moved(db, redis, Replied(Ok(redis.cache[p.key])))
  {
    var rest := [TryLock(env.lock)] + Waits(env.wakes) + Tail(env);
    assert Program(env) == [FirstLookup(env.firstLookup)] + rest;
    SoloFirst(db, redis, p, FirstLookup(env.firstLookup), rest);
    RepliedStops(db, redis, p.(pc := Replied(Ok(redis.cache[p.key]))), rest);
  }

  predicate Undisturbed(env: CreateEnv) {
    && !env.firstLookup && env.lock.Delivered? && !env.secondLookup && !env.check
    && env.tx.NoFault? && env.save.Delivered? && !env.release
  }

  /**
    A call that nothing disturbs, with a key not seen before, creates exactly one row with
    its CREATE entry, caches the response, answers with it and leaves the lock free.
  */
  lemma FreshCreateSucceeds(db: Db, redis: Redis, p: CreateProc, env: CreateEnv)
    requires p.pc.Start? && p.key !in redis.cache && p.key !in redis.locks && Undisturbed(env)
    requires DraftTask(db, p.caller, p.req, false).Draft? && env.id !in db.rows
    ensures var task := DraftTask(db, p.caller, p.req, false).task.(id := env.id);
            SoloCreate(db, redis, p, Program(env))
            == Moved(Put(db, Row(task, false), CreateEntry(task)),
                     redis.(cache := redis.cache[p.key := Compose(task)]),
                     Replied(Ok(Compose(task))))
  {
    var rest := Waits(env.wakes) + Tail(env);
    assert Program(env) == [FirstLookup(env.firstLookup)] + ([TryLock(env.lock)] + rest);
    SoloFirst(db, redis, p, FirstLookup(env.firstLookup), [TryLock(env.lock)] + rest);
    SoloFirst(db, redis, p.(pc := WantLock), TryLock(env.lock), rest);
    FreshHolderSucceeds(db, redis.(locks := redis.locks + {p.key}), p.(pc := Locked), env);
    assert redis.locks + {p.key} - {p.key} == redis.locks;
  }

  lemma HeldSucceeds(db: Db, redis: Redis, p: CreateProc, env: CreateEnv)
    requires p.key !in redis.cache && Undisturbed(env)
    requires DraftTask(db, p.caller, p.req, false).Draft? && env.id !in db.rows
    ensures var task := DraftTask(db, p.caller, p.req, false).task.(id := env.id);
            HeldOutcome(db, redis, p, env)
            == Moved(Put(db, Row(task, false), CreateEntry(task)),
                     redis.(cache := redis.cache[p.key := Compose(task)]),
                     Releasing(Ok(Compose(task))))
  {
  }

  lemma FreshHolderSucceeds(db: Db, redis: Redis, p: CreateProc, env: CreateEnv)
    requires p.pc.Locked? && p.key !in redis.cache && Undisturbed(env)
    requires DraftTask(db, p.caller, p.req, false).Draft? && env.id !in db.rows
    ensures var task := DraftTask(db, p.caller, p.req, false).task.(id := env.id);
            SoloCreate(db, redis, p, Waits(env.wakes) + Tail(env))
            == Moved(Put(db, Row(task, false), CreateEntry(task)),
                     Redis(redis.locks - {p.key}, redis.cache[p.key := Compose(task)]),
                     Replied(Ok(Compose(task))))
  {
    HolderPath(db, redis, p, env);
    HeldSucceeds(db, redis, p, env);
  }

  /** A lock holder's whole path, release included. */
  lemma HolderPath(db: Db, redis: Redis, p: CreateProc, env: CreateEnv)
    requires p.pc.Locked?
    ensures var held := HeldOutcome(db, redis, p, env);
            && held.pc.Releasing?
            && SoloCreate(db, redis, p, Waits(env.wakes) + Tail(env))
               == Moved(held.db, Release(held.redis, p.key, env.release), Replied(held.pc.pending))
  {
    WaitsPassBy(db, redis, p, env.wakes, Tail(env));
    SoloConcat(db, redis, p, Held(env), [ReleaseLock(env.release)]);
    HeldPath(db, redis, p, env);
    var held := HeldOutcome(db, redis, p, env);
    SoloFirst(held.db, held.redis, p.(pc := held.pc), ReleaseLock(env.release), []);
    assert [ReleaseLock(env.release)] + [] == [ReleaseLock(env.release)];
  }

  /**
    Idempotence of the sequential service: an undisturbed creation followed by any further
    call with the same key, whatever its body and caller, changes nothing more and gives the
    first call's answer.
  */
  lemma CreateThenDuplicate(db: Db, redis: Redis, p: CreateProc, env: CreateEnv, q: CreateProc, again: CreateEnv)
    requires p.pc.Start? && p.key !in redis.cache && p.key !in redis.locks && Undisturbed(env)
    requires DraftTask(db, p.caller, p.req, false).Draft? && env.id !in db.rows
    requires q.pc.Start? && q.key == p.key && !again.firstLookup
    ensures var first := SoloCreate(db, redis, p, Program(env));
            SoloCreate(first.db, first.redis, q, Program(again)) == first
  {
    FreshCreateSucceeds(db, redis, p, env);
    var first := SoloCreate(db, redis, p, Program(env));
    DuplicateIsReplayed(first.db, first.redis, q, again);
  }
}
