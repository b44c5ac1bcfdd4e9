/**
  The task engine as one state machine: any number of requests, each with a program
  counter, over one database and one Redis.  A run is any sequence of events, so every
  interleaving of every set of requests is a run; an event that does not apply to the
  current state changes nothing.
*/
module Engine {
  import opened Prelude
  import opened AppErrors
  import opened Tasks
  import opened TaskDb
  import opened IdempotencyStore
  import opened Planning
  import Validations

  type Pid = nat

  // ---- CreateTask ---------------------------------------------------------------

  datatype CreatePc =
    | Start
    | WantLock
    | Polling
    | Locked                      // lock acquired, second lookup not done
    | Admitted                    // second lookup found nothing
    | Drafted(task: Task)         // checks passed, transaction not run
    | Saving(resp: Response)      // committed, response not cached
    | Releasing(pending: Reply)   // the deferred release is all that is left
    | Replied(reply: Reply)
    | Crashed

  datatype CreateProc = CreateProc(caller: Option<AuthUser>, key: Key, req: CreateRequest, pc: CreatePc)

  datatype Wake = Cancelled | TimedOut | Tick(fault: bool)

  datatype CreateMove =
    | FirstLookup(lookupFault: bool)
    | TryLock(lockFault: NetFault)
    | Wait(wake: Wake)
    | SecondLookup(lookupFault: bool)
    | Check(dbFault: bool)
    | Commit(id: Id, txFault: Fault)
    | SaveReply(saveFault: NetFault)
    | ReleaseLock(releaseFault: bool)

  datatype Moved = Moved(db: Db, redis: Redis, pc: CreatePc)

  const CANCELLED := Plain(ContextCanceled)
  const TIMED_OUT := Plain(WaitTimedOut)

  /** One atomic step of CreateTask. */
  function CreateStep(db: Db, redis: Redis, p: CreateProc, m: CreateMove): Moved {
    match (p.pc, m)
    case (Start, FirstLookup(fault)) =>
      var pc := match GetResponse(redis, p.key, fault)
                case LookupError => Replied(Fail(Annotated(CheckingCache, REDIS_ERROR)))
                case Hit(resp) => Replied(Ok(resp))
                case Miss => WantLock;
      Moved(db, redis, pc)
    case (WantLock, TryLock(fault)) =>
      var (redis', got) := Acquire(redis, p.key, fault);
      var pc := match got
                case AcquireError => Replied(Fail(Annotated(AcquiringLock, REDIS_ERROR)))
                case Taken => Polling
                case Acquired => Locked;
      Moved(db, redis', pc)
    case (Polling, Wait(wake)) =>
      var pc := match wake
                case Cancelled => Replied(Fail(CANCELLED))
                case TimedOut => Replied(Fail(TIMED_OUT))
                case Tick(fault) =>
                  match GetResponse(redis, p.key, fault)
                  case Hit(resp) => Replied(Ok(resp))
                  case _ => Polling;
      Moved(db, redis, pc)
    case (Locked, SecondLookup(fault)) =>
      var pc := match GetResponse(redis, p.key, fault)
                case Hit(resp) => Releasing(Ok(resp))
                case _ => Admitted;
      Moved(db, redis, pc)
    case (Admitted, Check(fault)) =>
      var pc := match DraftTask(db, p.caller, p.req, fault)
                case Denied(err) => Releasing(Fail(err))
                case Draft(task) => Drafted(task);
      Moved(db, redis, pc)
    case (Drafted(task), Commit(id, fault)) =>
      var out := Insert(db, task, id, fault);
      var pc := if out.err.None? then Saving(Compose(task.(id := id)))
                else Releasing(Fail(ServiceWrap(Annotated(CreatingTask, out.err.value))));
      Moved(out.db, redis, pc)
    case (Saving(resp), SaveReply(fault)) =>
      var (redis', err) := Save(redis, p.key, resp, fault);
      var pc := if err.None? then Releasing(Ok(resp))
                else Releasing(Fail(ServiceWrap(Annotated(SavingReply, err.value))));
      Moved(db, redis', pc)
    case (Releasing(reply), ReleaseLock(fault)) =>
      Moved(db, Release(redis, p.key, fault), Replied(reply))
    case (_, _) => Moved(db, redis, p.pc)
  }

  // ---- UpdateTask, AssignTask, DeleteTask -----------------------------------------

  datatype EditPc =
    | Waiting
    | Loaded(snap: Task)
    | Ready(snap: Task, plan: Plan)
    | Answered(reply: Reply)

  datatype EditProc = EditProc(caller: Option<AuthUser>, call: Call, pc: EditPc)

  datatype EditMove = LoadRow(loadFault: bool) | PrepareWrite(userFault: bool) | RunWrite(txFault: Fault)

  function EditStep(db: Db, p: EditProc, m: EditMove): (Db, EditPc) {
    match (p.pc, m)
    case (Waiting, LoadRow(fault)) =>
      (db, match Load(db, p.caller, p.call, fault)
           case Refused(err) => Answered(Fail(err))
           case Snapshot(task) => Loaded(task))
    case (Loaded(snap), PrepareWrite(fault)) =>
      if p.caller.None? then (db, p.pc)
      else
        (db, match Prepare(db, p.caller.value, p.call, snap, fault)
             case Rejected(err) => Answered(Fail(err))
             case Planned(plan) => Ready(snap, plan))
    case (Ready(_, plan), RunWrite(fault)) =>
      var out := Write(db, p.call, plan, fault);
      (out.db, Answered(AnswerWrite(p.call, plan, out.err)))
    case (_, _) => (db, p.pc)
  }

  // ---- the controllers' gate ----------------------------------------------------------

  /** The Idempotency-Key header. */
  datatype Header = Blank | Malformed | Parsed(key: Key)

  const VALIDATION_ERROR := Plain(ValidationFailed)

  function BadRequest(): Reply {
    Fail(App(Wrap(BAD_REQUEST, VALIDATION_ERROR)))
  }

  function AdmitCreate(caller: Option<AuthUser>, header: Header, req: CreateRequest, titleAccepted: bool): CreateProc {
    if header.Blank? then CreateProc(caller, NIL, req, Replied(Fail(App(INVALID_IDEMPOTENCY_KEY))))
    else if !Validations.ValidCreate(req, titleAccepted) then CreateProc(caller, NIL, req, Replied(BadRequest()))
    else if header.Malformed? || header.key == NIL
    then CreateProc(caller, NIL, req, Replied(Fail(App(INVALID_IDEMPOTENCY_KEY))))
    else CreateProc(caller, header.key, req, Start)
  }

  predicate ValidCall(call: Call) {
    && call.id != NIL
    && match call
       case Update(_, req) => Validations.ValidUpdate(req)
       case Assign(_, req) => Validations.ValidAssign(req)
       case Delete(_) => true
  }

  function AdmitEdit(caller: Option<AuthUser>, call: Call): EditProc {
    EditProc(caller, call, if ValidCall(call) then Waiting else Answered(BadRequest()))
  }

  // ---- the whole system -----------------------------------------------------------------

  /** A transaction that took effect, and the request it belongs to. */
  datatype Op =
    | Registered(user: Id, team: Id)
    | Created(key: Key, caller: Option<AuthUser>, req: CreateRequest, task: Task)
    | Edited(caller: Option<AuthUser>, call: Call)

  datatype Record = Record(pid: Pid, op: Op)

  /**
    What went wrong for one key: lock expiries while some request was between its acquire
    and its release; commits whose response was not reported as cached; second lookups
    that failed while a cached response was there; cache entries that expired.
  */
  datatype Faults = Faults(expiries: nat, lostSaves: nat, masked: nat, evictions: nat)
  const NONE := Faults(0, 0, 0, 0)

  datatype State = State(
    db: Db,
    redis: Redis,
    creates: map<Pid, CreateProc>,
    edits: map<Pid, EditProc>,
    history: seq<Record>,
    faults: map<Key, Faults>)

  const INITIAL := State(Db(map[], map[], []), Redis({}, map[]), map[], map[], [], map[])

  datatype Event =
    | Register(user: Id, team: Id)
    | SubmitCreate(pid: Pid, caller: Option<AuthUser>, header: Header, create: CreateRequest, titleAccepted: bool)
    | SubmitEdit(pid: Pid, caller: Option<AuthUser>, call: Call)
    | MoveCreate(pid: Pid, createMove: CreateMove)
    | MoveEdit(pid: Pid, editMove: EditMove)
    | Crash(pid: Pid)
    | LockExpires(key: Key)
    | CacheExpires(key: Key)

  function FaultsOf(s: State, key: Key): Faults {
    if key in s.faults then s.faults[key] else NONE
  }

  /** Between a successful acquire and the request's own release. */
  predicate Inside(pc: CreatePc) {
    pc.Locked? || pc.Admitted? || pc.Drafted? || pc.Saving? || pc.Releasing?
  }

  function InsideFor(creates: map<Pid, CreateProc>, key: Key): set<Pid> {
    set pid | pid in creates && creates[pid].key == key && Inside(creates[pid].pc)
  }

  /** Every transaction that takes effect appends exactly one audit entry. */
  predicate TookEffect(before: Db, after: Db) {
    |after.logs| > |before.logs|
  }

  function AfterCreateMove(s: State, pid: Pid, m: CreateMove): State
    requires pid in s.creates
  {
    var p := s.creates[pid];
    var moved := CreateStep(s.db, s.redis, p, m);
    var f := FaultsOf(s, p.key);
    var committed := TookEffect(s.db, moved.db);
    var lost := (committed && !moved.pc.Saving?) || (p.pc.Saving? && moved.pc.Releasing? && !moved.pc.pending.Ok?);
    var masked := p.pc.Locked? && moved.pc.Admitted? && p.key in s.redis.cache;
    State(
      moved.db,
      moved.redis,
      s.creates[pid := p.(pc := moved.pc)],
      s.edits,
      if committed && m.Commit? && p.pc.Drafted?
      then s.history + [Record(pid, Created(p.key, p.caller, p.req, p.pc.task.(id := m.id)))]
      else s.history,
      s.faults[p.key := f.(lostSaves := f.lostSaves + (if lost then 1 else 0),
                           masked := f.masked + (if masked then 1 else 0))])
  }

  function AfterEditMove(s: State, pid: Pid, m: EditMove): State
    requires pid in s.edits
  {
    var p := s.edits[pid];
    var (db', pc') := EditStep(s.db, p, m);
    s.(db := db',
       edits := s.edits[pid := p.(pc := pc')],
       history := if TookEffect(s.db, db') then s.history + [Record(pid, Edited(p.caller, p.call))] else s.history)
  }

  function AfterCrash(s: State, pid: Pid): State
    requires pid in s.creates
  {
    var p := s.creates[pid];
    if p.pc.Replied? then s
    else
      var f := FaultsOf(s, p.key);
      s.(creates := s.creates[pid := p.(pc := Crashed)],
         faults := s.faults[p.key := f.(lostSaves := f.lostSaves + (if p.pc.Saving? then 1 else 0))])
  }

  function AfterLockExpiry(s: State, key: Key): State {
    if key !in s.redis.locks then s
    else
      var f := FaultsOf(s, key);
      s.(redis := s.redis.(locks := s.redis.locks - {key}),
         faults := s.faults[key := f.(expiries := f.expiries + (if InsideFor(s.creates, key) != {} then 1 else 0))])
  }

  function AfterCacheExpiry(s: State, key: Key): State {
    if key !in s.redis.cache then s
    else
      var f := FaultsOf(s, key);
      s.(redis := s.redis.(cache := s.redis.cache - {key}),
         faults := s.faults[key := f.(evictions := f.evictions + 1)])
  }

  function Step(s: State, e: Event): State {
    match e
    case Register(user, team) =>
      if user in s.db.users then s
      else s.(db := s.db.(users := s.db.users[user := team]),
              history := s.history + [Record(0, Registered(user, team))])
    case SubmitCreate(pid, caller, header, req, titleAccepted) =>
      if pid in s.creates then s
      else s.(creates := s.creates[pid := AdmitCreate(caller, header, req, titleAccepted)])
    case SubmitEdit(pid, caller, call) =>
      if pid in s.edits then s
      else s.(edits := s.edits[pid := AdmitEdit(caller, call)])
    case MoveCreate(pid, m) => if pid in s.creates then AfterCreateMove(s, pid, m) else s
    case MoveEdit(pid, m) => if pid in s.edits then AfterEditMove(s, pid, m) else s
    case Crash(pid) => if pid in s.creates then AfterCrash(s, pid) else s
    case LockExpires(key) => AfterLockExpiry(s, key)
    case CacheExpires(key) => AfterCacheExpiry(s, key)
  }

  /** Events that concern neither the database nor the history. */
  predicate Quiet(e: Event) {
    !e.MoveCreate? && !e.MoveEdit? && !e.Register?
  }

  lemma QuietEvent(s: State, e: Event)
    requires Quiet(e)
    ensures Step(s, e).db == s.db && Step(s, e).history == s.history
    ensures forall pid :: pid in s.edits ==> pid in Step(s, e).edits && Step(s, e).edits[pid] == s.edits[pid]
    ensures forall pid :: pid in Step(s, e).edits && pid !in s.edits ==>
              Step(s, e).edits[pid].pc.Waiting? || Step(s, e).edits[pid].pc == Answered(BadRequest())
  {
  }

  // ---- what a move can change ---------------------------------------------------------------

  /** The transaction of create request `pid` took effect: one row, one entry, one record. */
  ghost predicate Landed(s: State, s': State, pid: Pid, task: Task) {
    && pid in s.creates && s.creates[pid].pc.Drafted?
    && task == s.creates[pid].pc.task.(id := task.id) && task.id !in s.db.rows
    && s'.db == Put(s.db, Row(task, false), CreateEntry(task))
    && s'.redis == s.redis
    && s'.history
       == s.history + [Record(pid, Created(s.creates[pid].key, s.creates[pid].caller, s.creates[pid].req, task))]
  }

  /** The response a create request is about to cache or to answer with. */
  function Promised(pc: CreatePc): Option<Response> {
    match pc
    case Saving(resp) => Some(resp)
    case Releasing(Ok(resp)) => Some(resp)
    case Replied(Ok(resp)) => Some(resp)
    case _ => None
  }

  /** The new program counter of a create request, and where its contents come from. */
  predicate Advances(db: Db, redis: Redis, p: CreateProc, p': CreateProc, landed: Option<Task>) {
    && p'.caller == p.caller && p'.key == p.key && p'.req == p.req
    && (p.pc.Replied? || p.pc.Crashed? ==> p' == p)
    && (p'.pc.Drafted? ==> p' == p || DraftTask(db, p.caller, p.req, false) == Draft(p'.pc.task))
    && (Promised(p'.pc).Some? ==>
          || Promised(p'.pc) == Promised(p.pc)
          || (p.key in redis.cache && Promised(p'.pc).value == redis.cache[p.key])
          || (landed.Some? && Promised(p'.pc).value == Compose(landed.value)))
  }

  /** A cached response was there before or is the one its request promised. */
  ghost predicate CacheFollows(before: Redis, after: Redis, p: CreateProc) {
    forall key :: key in after.cache ==>
      || (key in before.cache && after.cache[key] == before.cache[key])
      || (key == p.key && Promised(p.pc) == Some(after.cache[key]))
  }

  /**
    What a create move can do: advance its own request, touch Redis, and, if `landed` names
    a task, commit it; nothing else.
  */
  ghost predicate CreateEffect(s: State, s': State, pid: Pid, landed: Option<Task>) {
    && pid in s.creates && pid in s'.creates
    && s'.edits == s.edits && s'.creates == s.creates[pid := s'.creates[pid]]
    && Advances(s.db, s.redis, s.creates[pid], s'.creates[pid], landed)
    && CacheFollows(s.redis, s'.redis, s.creates[pid])
    && match landed
       case None => s'.db == s.db && s'.history == s.history
       case Some(task) => Landed(s, s', pid, task)
  }

  lemma StepAdvances(db: Db, redis: Redis, p: CreateProc, m: CreateMove)
    requires !(p.pc.Drafted? && m.Commit?)
    ensures var moved := CreateStep(db, redis, p, m);
            && moved.db == db
            && Advances(db, redis, p, p.(pc := moved.pc), None)
            && CacheFollows(redis, moved.redis, p)
  {
  }

  lemma CommitAdvances(s: State, pid: Pid, m: CreateMove) returns (landed: Option<Task>)
    requires pid in s.creates && s.creates[pid].pc.Drafted? && m.Commit?
    ensures CreateEffect(s, AfterCreateMove(s, pid, m), pid, landed)
  {
    var task := s.creates[pid].pc.task.(id := m.id);
    landed := if TookEffect(s.db, AfterCreateMove(s, pid, m).db) then Some(task) else None;
  }

  lemma CreateMoveEffect(s: State, pid: Pid, m: CreateMove) returns (landed: Option<Task>)
    requires pid in s.creates
    ensures CreateEffect(s, AfterCreateMove(s, pid, m), pid, landed)
  {
    if s.creates[pid].pc.Drafted? && m.Commit? {
      landed := CommitAdvances(s, pid, m);
    } else {
      landed := None;
      StepAdvances(s.db, s.redis, s.creates[pid], m);
    }
  }

  /** The transaction of a ready request ran with this fault, and its reply was given. */
  predicate Wrote(before: Db, after: Db, p: EditProc, p': EditProc, fault: Fault) {
    && p.pc.Ready? && p'.pc.Answered?
    && after == Write(before, p.call, p.pc.plan, fault).db
    && p'.pc.reply == AnswerWrite(p.call, p.pc.plan, Write(before, p.call, p.pc.plan, fault).err)
  }

  /** What an edit move can do: advance its own request and, when ready, run its transaction. */
  ghost predicate EditEffect(s: State, s': State, pid: Pid, wrote: Option<Fault>) {
    && pid in s.edits && pid in s'.edits
    && s'.redis == s.redis && s'.creates == s.creates && s'.faults == s.faults
    && s'.edits == s.edits[pid := s'.edits[pid]]
    && var p, p' := s.edits[pid], s'.edits[pid];
       && p'.caller == p.caller && p'.call == p.call
       && (wrote.Some? ==> Wrote(s.db, s'.db, p, p', wrote.value))
       && (wrote.None? ==> s'.db == s.db)
       && s'.history == (if TookEffect(s.db, s'.db) then s.history + [Record(pid, Edited(p.caller, p.call))]
                         else s.history)
       && (wrote.None? && p' != p ==>
             match p'.pc
             case Waiting => false
             case Loaded(snap) => p.pc.Waiting? && Load(s.db, p.caller, p.call, false) == Snapshot(snap)
             case Ready(snap, plan) =>
               && p.pc == Loaded(snap) && p.caller.Some?
               && Prepare(s.db, p.caller.value, p.call, snap, false) == Planned(plan)
             case Answered(reply) => !p.pc.Answered? && reply.Fail?)
  }

  lemma EditMoveEffect(s: State, pid: Pid, m: EditMove) returns (wrote: Option<Fault>)
    requires pid in s.edits
    ensures EditEffect(s, AfterEditMove(s, pid, m), pid, wrote)
  {
    wrote := if s.edits[pid].pc.Ready? && m.RunWrite? then Some(m.txFault) else None;
  }

  /** One event adds at most one record. */
  lemma HistoryGrows(s: State, e: Event)
    ensures var h' := Step(s, e).history;
            h' == s.history || exists r :: h' == s.history + [r]
  {
  }

  lemma AnsweredStays(s: State, e: Event, pid: Pid)
    requires pid in s.edits && s.edits[pid].pc.Answered?
    ensures pid in Step(s, e).edits && Step(s, e).edits[pid] == s.edits[pid]
  {
  }

  /** The state a run ends in, from the empty system. */
  function Run(events: seq<Event>): State {
    if events == [] then INITIAL
    else Step(Run(events[..|events| - 1]), events[|events| - 1])
  }

  /** The same, from any state. */
  function RunFrom(s: State, events: seq<Event>): State
    decreases |events|
  {
    if events == [] then s else RunFrom(Step(s, events[0]), events[1..])
  }

  lemma RunFirst(s: State, e: Event, rest: seq<Event>)
    ensures RunFrom(s, [e] + rest) == RunFrom(Step(s, e), rest)
  {
    assert ([e] + rest)[1..] == rest;
  }

  /** Some run ends in this state. */
  ghost predicate Reachable(s: State) {
    exists events :: Run(events) == s
  }

  /** Some sequence of events leads from one state to the other. */
  ghost predicate Leads(s: State, s': State) {
    exists events :: RunFrom(s, events) == s'
  }

  lemma {:induction false} RunFromLast(s: State, events: seq<Event>, e: Event)
    ensures RunFrom(s, events + [e]) == Step(RunFrom(s, events), e)
    decreases |events|
  {
    if events == [] {
      assert [] + [e] == [e] + [];
      RunFirst(s, e, []);
    } else {
      assert events + [e] == [events[0]] + (events[1..] + [e]);
      RunFirst(s, events[0], events[1..] + [e]);
      RunFromLast(Step(s, events[0]), events[1..], e);
    }
  }

  lemma {:induction false} RunAppend(before: seq<Event>, after: seq<Event>)
    ensures Run(before + after) == RunFrom(Run(before), after)
    decreases |after|
  {
    if after == [] {
      assert before + after == before;
    } else {
      var longer := before + [after[0]];
      assert longer[..|longer| - 1] == before;
      assert before + after == longer + after[1..];
      RunAppend(longer, after[1..]);
    }
  }

  lemma LeadsOn(s0: State, s: State, e: Event)
    requires Leads(s0, s)
    ensures Leads(s0, Step(s, e))
  {
    var events :| RunFrom(s0, events) == s;
    RunFromLast(s0, events, e);
  }

  lemma LeadsKeepsReachable(s: State, s': State)
    requires Reachable(s) && Leads(s, s')
    ensures Reachable(s')
  {
    var before :| Run(before) == s;
    var after :| RunFrom(s, after) == s';
    RunAppend(before, after);
  }

  // ---- honest callers ----------------------------------------------------------------------

  predicate Member(db: Db, user: Id, team: Id) {
    user in db.users && db.users[user] == team
  }

  /** The caller is a registered user of the team it claims. */
  predicate HonestCaller(db: Db, caller: Option<AuthUser>) {
    Authenticated(caller) ==> Member(db, caller.value.userId, caller.value.teamId)
  }

  predicate HonestEvent(s: State, e: Event) {
    match e
    case SubmitCreate(_, caller, _, _, _) => HonestCaller(s.db, caller)
    case SubmitEdit(_, caller, _) => HonestCaller(s.db, caller)
    case _ => true
  }

  predicate HonestRun(events: seq<Event>) {
    events != [] ==>
      && HonestRun(events[..|events| - 1])
      && HonestEvent(Run(events[..|events| - 1]), events[|events| - 1])
  }

  /** Some run ends in this state in which every caller is honest. */
  ghost predicate HonestlyReachable(s: State) {
    exists events :: HonestRun(events) && Run(events) == s
  }

  lemma HonestIsReachable(s: State)
    requires HonestlyReachable(s)
    ensures Reachable(s)
  {
    var events :| HonestRun(events) && Run(events) == s;
  }

  lemma InitialIsHonest()
    ensures HonestlyReachable(INITIAL)
  {
    assert HonestRun([]) && Run([]) == INITIAL;
  }

  lemma HonestStep(s: State, e: Event)
    requires HonestlyReachable(s) && HonestEvent(s, e)
    ensures HonestlyReachable(Step(s, e))
  {
    var events :| HonestRun(events) && Run(events) == s;
    assert (events + [e])[..|events|] == events;
    assert HonestRun(events + [e]) && Run(events + [e]) == Step(s, e);
  }

  predicate Submits(e: Event) {
    e.SubmitCreate? || e.SubmitEdit?
  }

  lemma {:induction false} HonestMoves(s: State, events: seq<Event>)
    requires HonestlyReachable(s) && forall e :: e in events ==> !Submits(e)
    ensures HonestlyReachable(RunFrom(s, events))
    decreases |events|
  {
    if events != [] {
      assert events[0] in events;
      HonestStep(s, events[0]);
      HonestMoves(Step(s, events[0]), events[1..]);
    }
  }

  /** One request submitted, and its moves. */
  lemma SubmitAndRun(s: State, submit: Event, moves: seq<Event>) returns (s': State)
    requires Reachable(s) && forall e :: e in moves ==> !Submits(e)
    ensures s' == RunFrom(Step(s, submit), moves)
    ensures Reachable(s') && Leads(s, s')
    ensures HonestlyReachable(s) && HonestEvent(s, submit) ==> HonestlyReachable(s')
  {
    s' := RunFrom(Step(s, submit), moves);
    RunFirst(s, submit, moves);
    LeadsKeepsReachable(s, s');
    if HonestlyReachable(s) && HonestEvent(s, submit) {
      HonestStep(s, submit);
      HonestMoves(Step(s, submit), moves);
    }
  }
}
