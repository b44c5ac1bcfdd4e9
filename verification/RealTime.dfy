/**
  Linearizability of the edits: every answer, refusals included, is the one the operation
  gives when run alone at some place in the serial run between its submission and its answer,
  with one exception, and commits keep real-time order.
*/
module RealTime {
  import opened Prelude
  import opened AppErrors
  import opened Tasks
  import opened TaskDb
  import opened Planning
  import opened Engine
  import opened Concurrency
  import opened Serializability

  // ---- places in the serial run ---------------------------------------------------------

  /** Run alone after the first `i` committed operations, the request gives the reply it got. */
  predicate AnswersAt(history: seq<Record>, p: EditProc, i: nat) {
    && i <= |history| && p.pc.Answered?
    && Serial(SerialRun(history[..i]), p.caller, p.call, NO_EDIT_FAULTS).1 == p.pc.reply
  }

  ghost predicate AnswersSince(history: seq<Record>, from: nat, p: EditProc) {
    exists i: nat :: from <= i && AnswersAt(history, p, i)
  }

  predicate LoadsAt(history: seq<Record>, p: EditProc, loading: Loading, i: nat) {
    i <= |history| && Load(SerialRun(history[..i]), p.caller, p.call, false) == loading
  }

  ghost predicate LoadsSince(history: seq<Record>, from: nat, p: EditProc, loading: Loading) {
    exists i: nat :: from <= i && LoadsAt(history, p, loading, i)
  }

  const STALE := Refused(App(STALE_VERSION))

  /** The request's task is deleted, at the very version the request names. */
  predicate Gone(db: Db, call: Call) {
    call.id in db.rows && db.rows[call.id].deleted && Named(call) == Some(db.rows[call.id].task.version)
  }

  /** Not a 500: the answer does not report a fault. */
  predicate Definite(reply: Reply) {
    reply.Fail? ==> Surface(reply.err).httpStatus != 500
  }

  lemma LongerHistoryKeepsPlaces(h: seq<Record>, h': seq<Record>, from: nat, p: EditProc)
    requires h <= h'
    ensures AnswersSince(h, from, p) ==> AnswersSince(h', from, p)
    ensures forall loading :: LoadsSince(h, from, p, loading) ==> LoadsSince(h', from, p, loading)
  {
    if AnswersSince(h, from, p) {
      var i: nat :| from <= i && AnswersAt(h, p, i);
      assert h'[..i] == h[..i];
      assert AnswersAt(h', p, i);
    }
    forall loading | LoadsSince(h, from, p, loading) ensures LoadsSince(h', from, p, loading) {
      var i: nat :| from <= i && LoadsAt(h, p, loading, i);
      assert h'[..i] == h[..i];
      assert LoadsAt(h', p, loading, i);
    }
  }

  /** What the present state answers is answered at the end of the history. */
  lemma PresentIsAPlace(s: State, from: nat, p: EditProc)
    requires Serializable(s) && from <= |s.history|
    ensures LoadsSince(s.history, from, p, Load(s.db, p.caller, p.call, false))
    ensures p.pc.Answered? && Serial(s.db, p.caller, p.call, NO_EDIT_FAULTS).1 == p.pc.reply ==>
              AnswersSince(s.history, from, p)
  {
    var n := |s.history|;
    assert s.history[..n] == s.history;
    SerialRespectsAgreement(SerialRun(s.history), s.db, p.caller, p.call);
    assert LoadsAt(s.history, p, Load(s.db, p.caller, p.call, false), n);
    if p.pc.Answered? && Serial(s.db, p.caller, p.call, NO_EDIT_FAULTS).1 == p.pc.reply {
      assert AnswersAt(s.history, p, n);
    }
  }

  // ---- the serial run only grows --------------------------------------------------------

  ghost predicate Keyed(db: Db) {
    forall id :: id in db.rows ==> db.rows[id].task.id == id && db.rows[id].task.version >= 1
  }

  lemma EditAloneEvolves(db: Db, caller: Option<AuthUser>, call: Call)
    requires Keyed(db)
    ensures var after := Serial(db, caller, call, NO_EDIT_FAULTS).0;
            Keyed(after) && Evolves(db, after)
  {
    var loading := Load(db, caller, call, false);
    if loading.Snapshot? {
      var preparing := Prepare(db, caller.value, call, loading.task, false);
      if preparing.Planned? {
        WriteAloneEvolves(db, caller.value, call, loading.task);
      }
    }
  }

  lemma WriteAloneEvolves(db: Db, caller: AuthUser, call: Call, snap: Task)
    requires Keyed(db) && Alive(db, call.id) == Some(snap)
    requires Named(call).Some? ==> snap.version == Named(call).value
    ensures var after := Write(db, call, PlanFor(caller, call, snap), NoFault).db;
            Keyed(after) && Evolves(db, after)
  {
    if !call.Delete? {
      PlansRecordTheirChange(caller, call, snap);
    }
  }

  lemma AloneEvolves(db: Db, op: Op)
    requires Keyed(db)
    ensures Keyed(Alone(db, op)) && Evolves(db, Alone(db, op))
  {
    match op
    case Registered(_, _) =>
    case Created(_, _, _, _) =>
    case Edited(caller, call) =>
      EditAloneEvolves(db, caller, call);
  }

  lemma {:induction false} SerialRunEvolves(history: seq<Record>, i: nat)
    requires i <= |history|
    ensures Keyed(SerialRun(history))
    ensures Evolves(SerialRun(history[..i]), SerialRun(history))
  {
    if i == |history| {
      assert history[..i] == history;
      if i > 0 {
        SerialRunEvolves(history[..i - 1], i - 1);
        AloneEvolves(SerialRun(history[..i - 1]), history[i - 1].op);
      }
    } else {
      var n := |history| - 1;
      SerialRunEvolves(history[..n], i);
      assert history[..n][..i] == history[..i];
      AloneEvolves(SerialRun(history[..n]), history[n].op);
      EvolvesOn(SerialRun(history[..i]), SerialRun(history[..n]), SerialRun(history));
    }
  }

  // ---- a stale version was stale while the task was there --------------------------------

  /** The request is about a task, alive or deleted, of the caller's team. */
  predicate Owns(db: Db, p: EditProc) {
    && Authenticated(p.caller) && p.call.id in db.rows
    && db.rows[p.call.id].task.team == p.caller.value.teamId
  }

  /** The caller's own task, at the named version or past it. */
  predicate Watched(db: Db, p: EditProc) {
    && Owns(db, p)
    && (Named(p.call).Some? ==> Named(p.call).value <= db.rows[p.call.id].task.version)
  }

  /** If the task has left the named version, it was seen alive at another one. */
  ghost predicate StaleSeen(s: State, from: nat, p: EditProc) {
    && Watched(s.db, p)
    && (Named(p.call).Some? && s.db.rows[p.call.id].task.version != Named(p.call).value ==>
          LoadsSince(s.history, from, p, STALE))
  }

  /** A new version is written alive. */
  lemma NewVersionsAreAlive(s: State, e: Event, id: Id)
    requires WellFormed(s) && id in s.db.rows
    ensures var db := Step(s, e).db;
            id in db.rows && db.rows[id].task.version != s.db.rows[id].task.version ==> !db.rows[id].deleted
  {
    match e
    case MoveCreate(pid, m) =>
      if pid in s.creates {
        var landed := CreateMoveEffect(s, pid, m);
      }
    case MoveEdit(pid, m) =>
      if pid in s.edits {
        var wrote := EditMoveEffect(s, pid, m);
        EditsWriteAlive(s, Step(s, e), pid, wrote, id);
      }
    case Register(_, _) =>
    case _ =>
      QuietEvent(s, e);
  }

  lemma EditsWriteAlive(s: State, s': State, pid: Pid, wrote: Option<Fault>, id: Id)
    requires WellFormed(s) && EditEffect(s, s', pid, wrote) && id in s.db.rows
    ensures id in s'.db.rows && s'.db.rows[id].task.version != s.db.rows[id].task.version ==> !s'.db.rows[id].deleted
  {
    assert EditOk(s.db, s.edits[pid]);
    if wrote.Some? {
      WriteEffect(s.db, s.edits[pid], wrote.value);
    }
  }

  lemma StepStaleSeen(s: State, e: Event, from: nat, p: EditProc)
    requires WellFormed(s) && Serializable(s) && from <= |s.history|
    requires StaleSeen(s, from, p)
    ensures StaleSeen(Step(s, e), from, p)
  {
    var s' := Step(s, e);
    StepKeeps(s, e);
    StepSerializable(s, e);
    HistoryGrows(s, e);
    LongerHistoryKeepsPlaces(s.history, s'.history, from, p);
    NewVersionsAreAlive(s, e, p.call.id);
    assert RowEvolves(s.db.rows[p.call.id], s'.db.rows[p.call.id]);
    PresentIsAPlace(s', from, p);
  }

  // ---- where each request stands -----------------------------------------------------------

  ghost predicate InTime(s: State, from: nat, p: EditProc) {
    match p.pc
    case Waiting => true
    case Loaded(snap) => LoadsSince(s.history, from, p, Snapshot(snap)) && StaleSeen(s, from, p)
    case Ready(snap, _) => LoadsSince(s.history, from, p, Snapshot(snap)) && StaleSeen(s, from, p)
    case Answered(reply) =>
      && (ValidCall(p.call) && Definite(reply) ==>
            || AnswersSince(s.history, from, p)
            || (Gone(s.db, p.call) && IsStale(reply)))
      && (ValidCall(p.call) && IsStale(reply) ==> Owns(s.db, p) && Named(p.call).Some?)
  }

  predicate IsStale(reply: Reply) {
    reply == Fail(App(STALE_VERSION))
  }

  lemma OthersStayInTime(s: State, e: Event, from: nat, p: EditProc)
    requires WellFormed(s) && Serializable(s) && from <= |s.history|
    requires InTime(s, from, p)
    ensures InTime(Step(s, e), from, p)
  {
    var s' := Step(s, e);
    HistoryGrows(s, e);
    LongerHistoryKeepsPlaces(s.history, s'.history, from, p);
    if p.pc.Answered? {
      StepKeeps(s, e);
      assert p.call.id in s.db.rows ==> RowEvolves(s.db.rows[p.call.id], s'.db.rows[p.call.id]);
    } else if !p.pc.Waiting? {
      StepStaleSeen(s, e, from, p);
    }
  }

  // ---- one move of the request itself --------------------------------------------------------

  lemma FaultsShow500(context: Context)
    ensures Surface(ServiceWrap(Annotated(context, DB_ERROR))).httpStatus == 500
  {
    assert Outermost(Annotated(context, DB_ERROR)).None?;
  }

  lemma LoadInTime(s: State, from: nat, pid: Pid, fault: bool)
    requires WellFormed(s) && Serializable(s) && from <= |s.history|
    requires pid in s.edits && s.edits[pid].pc.Waiting?
    ensures var s' := Step(s, MoveEdit(pid, LoadRow(fault)));
            InTime(s', from, s'.edits[pid])
  {
    var p := s.edits[pid];
    var s' := Step(s, MoveEdit(pid, LoadRow(fault)));
    assert s'.db == s.db && s'.history == s.history;
    PresentIsAPlace(s, from, p);
    PresentIsAPlace(s, from, s'.edits[pid]);
    FaultsShow500(FindingTask);
    SamePlaces(s.history, from, p, s'.edits[pid]);
  }

  /** Places depend on the caller and the call only. */
  lemma SamePlaces(history: seq<Record>, from: nat, p: EditProc, p': EditProc)
    requires p'.caller == p.caller && p'.call == p.call
    ensures forall loading :: LoadsSince(history, from, p, loading) ==> LoadsSince(history, from, p', loading)
  {
    forall loading | LoadsSince(history, from, p, loading) ensures LoadsSince(history, from, p', loading) {
      var i: nat :| from <= i && LoadsAt(history, p, loading, i);
      assert LoadsAt(history, p', loading, i);
    }
  }

  lemma PrepareInTime(s: State, from: nat, pid: Pid, fault: bool)
    requires WellFormed(s) && Serializable(s) && from <= |s.history|
    requires pid in s.edits && s.edits[pid].pc.Loaded? && InTime(s, from, s.edits[pid])
    ensures var s' := Step(s, MoveEdit(pid, PrepareWrite(fault)));
            InTime(s', from, s'.edits[pid])
  {
    var p := s.edits[pid];
    var s' := Step(s, MoveEdit(pid, PrepareWrite(fault)));
    var p' := s'.edits[pid];
    assert s'.db == s.db && s'.history == s.history;
    SamePlaces(s.history, from, p, p');
    FaultsShow500(CheckingAssignee);
    assert EditOk(s.db, p);
    var objection := CheckAssignee(s.db, p.caller.value.teamId, WantedAssignee(p.call), fault);
    if objection.Some? && !fault {
      RejectedInTime(s, from, p, objection.value);
      assert p' == p.(pc := Answered(Fail(objection.value)));
    }
  }

  /** Who is not in the team now was not in it when the row was read. */
  lemma RejectedInTime(s: State, from: nat, p: EditProc, objection: Error)
    requires Serializable(s) && p.pc.Loaded? && p.caller.Some?
    requires LoadsSince(s.history, from, p, Snapshot(p.pc.snap))
    requires CheckAssignee(s.db, p.caller.value.teamId, WantedAssignee(p.call), false) == Some(objection)
    ensures AnswersSince(s.history, from, p.(pc := Answered(Fail(objection))))
  {
    var i: nat :| from <= i && LoadsAt(s.history, p, Snapshot(p.pc.snap), i);
    SerialRunEvolves(s.history, i);
    var earlier := SerialRun(s.history[..i]);
    assert CheckAssignee(earlier, p.caller.value.teamId, WantedAssignee(p.call), false) == Some(objection);
    assert AnswersAt(s.history, p.(pc := Answered(Fail(objection))), i);
  }

  lemma WriteInTime(s: State, from: nat, pid: Pid, fault: Fault)
    requires WellFormed(s) && Serializable(s) && from <= |s.history|
    requires pid in s.edits && s.edits[pid].pc.Ready? && InTime(s, from, s.edits[pid])
    ensures var s' := Step(s, MoveEdit(pid, RunWrite(fault)));
            InTime(s', from, s'.edits[pid])
  {
    var p := s.edits[pid];
    var s' := Step(s, MoveEdit(pid, RunWrite(fault)));
    if p.call.Delete? {
      DeleteInTime(s, from, pid, fault);
    } else {
      SwapInTime(s, from, pid, fault);
      SwapStaleOwns(s, pid, fault);
    }
    HistoryGrows(s, MoveEdit(pid, RunWrite(fault)));
    LongerHistoryKeepsPlaces(s.history, s'.history, from, s'.edits[pid]);
  }

  lemma SwapStaleOwns(s: State, pid: Pid, fault: Fault)
    requires WellFormed(s) && pid in s.edits && s.edits[pid].pc.Ready? && !s.edits[pid].call.Delete?
    ensures var s' := Step(s, MoveEdit(pid, RunWrite(fault)));
            IsStale(s'.edits[pid].pc.reply) ==> Owns(s'.db, s'.edits[pid])
  {
    assert EditOk(s.db, s.edits[pid]);
    FaultsShow500(WriteFailure(s.edits[pid].call));
    PlansRecordTheirChange(s.edits[pid].caller.value, s.edits[pid].call, s.edits[pid].pc.snap);
    if IsStale(Step(s, MoveEdit(pid, RunWrite(fault))).edits[pid].pc.reply) {
      RefusedSwapIsStale(s.db, s.edits[pid], fault);
    }
  }

  lemma DeleteInTime(s: State, from: nat, pid: Pid, fault: Fault)
    requires WellFormed(s) && pid in s.edits && s.edits[pid].pc.Ready? && s.edits[pid].call.Delete?
    requires InTime(s, from, s.edits[pid])
    ensures var p' := Step(s, MoveEdit(pid, RunWrite(fault))).edits[pid];
            && !IsStale(p'.pc.reply)
            && (Definite(p'.pc.reply) ==> AnswersSince(s.history, from, p'))
  {
    var p := s.edits[pid];
    var p' := Step(s, MoveEdit(pid, RunWrite(fault))).edits[pid];
    DeleteAnswers(s.db, p.call, p.pc.plan, fault);
    if p'.pc.reply.Removed? {
      RemovedInTime(s, from, p, p');
    }
  }

  lemma DeleteAnswers(db: Db, call: Call, plan: Plan, fault: Fault)
    requires call.Delete?
    ensures var reply := AnswerWrite(call, plan, Write(db, call, plan, fault).err);
            reply == Removed || (!Definite(reply) && !IsStale(reply))
  {
    FaultsShow500(DeletingTask);
  }

  /** A delete that is told of its success would have had it when it read the row. */
  lemma RemovedInTime(s: State, from: nat, p: EditProc, p': EditProc)
    requires p.pc.Ready? && p.call.Delete? && InTime(s, from, p)
    requires p' == p.(pc := Answered(Removed))
    ensures AnswersSince(s.history, from, p')
  {
    var i: nat :| from <= i && LoadsAt(s.history, p, Snapshot(p.pc.snap), i);
    assert AnswersAt(s.history, p', i);
  }

  lemma SwapInTime(s: State, from: nat, pid: Pid, fault: Fault)
    requires WellFormed(s) && Serializable(s) && from <= |s.history|
    requires pid in s.edits && s.edits[pid].pc.Ready? && !s.edits[pid].call.Delete?
    requires InTime(s, from, s.edits[pid])
    ensures var s' := Step(s, MoveEdit(pid, RunWrite(fault)));
            var p' := s'.edits[pid];
            Definite(p'.pc.reply) ==>
              || AnswersSince(s.history, from, p')
              || (Gone(s'.db, p'.call) && p'.pc.reply == Fail(App(STALE_VERSION)))
  {
    var p := s.edits[pid];
    var s' := Step(s, MoveEdit(pid, RunWrite(fault)));
    var p' := s'.edits[pid];
    assert EditOk(s.db, p);
    FaultsShow500(WriteFailure(p.call));
    PlansRecordTheirChange(p.caller.value, p.call, p.pc.snap);
    if p'.pc.reply.Ok? {
      SwapIsAlone(s.db, p, fault);
      PresentIsAPlace(s, from, p');
    } else if Definite(p'.pc.reply) {
      RefusedSwapIsStale(s.db, p, fault);
      StaleInTime(s, from, p, p');
    }
  }

  /** A swap refused without a fault is refused as stale, and changes nothing. */
  lemma RefusedSwapIsStale(db: Db, p: EditProc, fault: Fault)
    requires p.pc.Ready? && EditOk(db, p) && !p.call.Delete?
    requires var reply := AnswerWrite(p.call, p.pc.plan, Write(db, p.call, p.pc.plan, fault).err);
             reply.Fail? && Definite(reply)
    ensures Write(db, p.call, p.pc.plan, fault) == Outcome(db, Some(App(STALE_VERSION)))
    ensures AnswerWrite(p.call, p.pc.plan, Some(App(STALE_VERSION))) == Fail(App(STALE_VERSION))
    ensures Matched(db, p.call.id, Named(p.call).value).None?
  {
    FaultsShow500(WriteFailure(p.call));
    PlansRecordTheirChange(p.caller.value, p.call, p.pc.snap);
    assert Outermost(Annotated(WriteFailure(p.call), App(STALE_VERSION))) == Some(STALE_VERSION);
  }

  /** A stale answer is right at some place, unless the task has gone at the named version. */
  lemma StaleInTime(s: State, from: nat, p: EditProc, p': EditProc)
    requires Serializable(s) && from <= |s.history| && StaleSeen(s, from, p)
    requires Named(p.call).Some? && Matched(s.db, p.call.id, Named(p.call).value).None?
    requires p' == p.(pc := Answered(Fail(App(STALE_VERSION))))
    ensures AnswersSince(s.history, from, p') || Gone(s.db, p.call)
  {
    if !Gone(s.db, p.call) {
      var i: nat :| from <= i && LoadsAt(s.history, p, STALE, i);
      assert AnswersAt(s.history, p', i);
    }
  }

  // ---- every run --------------------------------------------------------------------------------

  lemma StepInTime(s: State, e: Event, from: nat, pid: Pid)
    requires WellFormed(s) && Serializable(s) && from <= |s.history|
    requires pid in s.edits ==> InTime(s, from, s.edits[pid])
    ensures var s' := Step(s, e);
            pid in s'.edits ==> InTime(s', from, s'.edits[pid])
  {
    var s' := Step(s, e);
    if pid in s'.edits {
      if pid !in s.edits {
        NewcomersAreInTime(s, e, pid);
      } else if s'.edits[pid] == s.edits[pid] {
        OthersStayInTime(s, e, from, s.edits[pid]);
      } else {
        OwnMoveInTime(s, e, from, pid);
      }
    }
  }

  lemma NewcomersAreInTime(s: State, e: Event, pid: Pid)
    requires pid !in s.edits && pid in Step(s, e).edits
    ensures var p := Step(s, e).edits[pid];
            p.pc.Waiting? || (p.pc.Answered? && !ValidCall(p.call))
  {
  }

  lemma OwnMoveInTime(s: State, e: Event, from: nat, pid: Pid)
    requires WellFormed(s) && Serializable(s) && from <= |s.history|
    requires pid in s.edits && pid in Step(s, e).edits && Step(s, e).edits[pid] != s.edits[pid]
    requires InTime(s, from, s.edits[pid])
    ensures InTime(Step(s, e), from, Step(s, e).edits[pid])
  {
    OwnMoves(s, e, pid);
    match e.editMove
    case LoadRow(fault) => LoadInTime(s, from, pid, fault);
    case PrepareWrite(fault) => PrepareInTime(s, from, pid, fault);
    case RunWrite(fault) => WriteInTime(s, from, pid, fault);
  }

  /** Only its own moves change a request, each from its own phase. */
  lemma OwnMoves(s: State, e: Event, pid: Pid)
    requires pid in s.edits && pid in Step(s, e).edits && Step(s, e).edits[pid] != s.edits[pid]
    ensures e.MoveEdit? && e.pid == pid
    ensures match e.editMove
            case LoadRow(_) => s.edits[pid].pc.Waiting?
            case PrepareWrite(_) => s.edits[pid].pc.Loaded?
            case RunWrite(_) => s.edits[pid].pc.Ready?
  {
  }

  lemma {:induction false} RunFromInTime(s: State, events: seq<Event>, from: nat, pid: Pid)
    requires WellFormed(s) && Serializable(s) && from <= |s.history|
    requires pid in s.edits ==> InTime(s, from, s.edits[pid])
    ensures var s' := RunFrom(s, events);
            pid in s'.edits ==> InTime(s', from, s'.edits[pid])
    decreases |events|
  {
    if events != [] {
      StepKeeps(s, events[0]);
      StepSerializable(s, events[0]);
      HistoryGrows(s, events[0]);
      StepInTime(s, events[0], from, pid);
      RunFromInTime(Step(s, events[0]), events[1..], from, pid);
    }
  }

  // ---- a stale version, seen from the submission ------------------------------------------------------------

  lemma LongerRun(s: State, events: seq<Event>)
    ensures s.history <= RunFrom(s, events).history
    decreases |events|
  {
    if events != [] {
      HistoryGrows(s, events[0]);
      LongerRun(Step(s, events[0]), events[1..]);
    }
  }

  lemma {:induction false} RunFromStaleSeen(s: State, events: seq<Event>, from: nat, p: EditProc)
    requires WellFormed(s) && Serializable(s) && from <= |s.history| && StaleSeen(s, from, p)
    ensures StaleSeen(RunFrom(s, events), from, p)
    decreases |events|
  {
    if events != [] {
      StepKeeps(s, events[0]);
      StepSerializable(s, events[0]);
      HistoryGrows(s, events[0]);
      StepStaleSeen(s, events[0], from, p);
      RunFromStaleSeen(Step(s, events[0]), events[1..], from, p);
    }
  }

  /** Between two places at which the task has the named version, no place answers stale. */
  lemma NeverStaleBetween(h: seq<Record>, from: nat, i: nat, p: EditProc)
    requires from <= i <= |h| && Named(p.call).Some?
    requires var id := p.call.id;
             var a, b := SerialRun(h[..from]), SerialRun(h);
             && id in a.rows && Named(p.call) == Some(a.rows[id].task.version)
             && id in b.rows && Named(p.call) == Some(b.rows[id].task.version)
    ensures !AnswersAt(h, p.(pc := Answered(Fail(App(STALE_VERSION)))), i)
  {
    SerialRunEvolves(h, i);
    SerialRunEvolves(h[..i], from);
    assert h[..i][..from] == h[..from];
    var db := SerialRun(h[..i]);
    assert RowEvolves(SerialRun(h[..from]).rows[p.call.id], db.rows[p.call.id]);
    assert RowEvolves(db.rows[p.call.id], SerialRun(h).rows[p.call.id]);
    NotStaleAlone(db, p);
  }

  lemma NotStaleAlone(db: Db, p: EditProc)
    requires p.call.id in db.rows && db.rows[p.call.id].task.id == p.call.id
    requires Named(p.call) == Some(db.rows[p.call.id].task.version)
    ensures Serial(db, p.caller, p.call, NO_EDIT_FAULTS).1 != Fail(App(STALE_VERSION))
  {
    var loading := Load(db, p.caller, p.call, false);
    if loading.Snapshot? && Prepare(db, p.caller.value, p.call, loading.task, false).Planned? {
      PlansRecordTheirChange(p.caller.value, p.call, loading.task);
    }
  }

  /** The version a task has now, or will have when it is created. */
  function FirstVersion(db: Db, id: Id): int {
    if id in db.rows then db.rows[id].task.version else 1
  }

  /**
    Since a moment when the task's version was, or was to become, `first`: a request that names
    another version has seen it alive at one it does not name, unless it was deleted throughout.
  */
  ghost predicate FirstSeen(s: State, from: nat, p: EditProc, first: int) {
    && (p.call.id !in s.db.rows ==> first == 1)
    && (Owns(s.db, p) && Named(p.call).Some? && Named(p.call).value != first ==>
          || LoadsSince(s.history, from, p, STALE)
          || (s.db.rows[p.call.id].deleted && s.db.rows[p.call.id].task.version == first))
  }

  lemma FirstSeenAtFirst(s: State, p: EditProc)
    requires WellFormed(s) && Serializable(s)
    ensures FirstSeen(s, |s.history|, p, FirstVersion(s.db, p.call.id))
  {
    PresentIsAPlace(s, |s.history|, p);
  }

  lemma NewRowsAreFresh(s: State, e: Event, id: Id)
    requires WellFormed(s) && id !in s.db.rows && id in Step(s, e).db.rows
    ensures !Step(s, e).db.rows[id].deleted && Step(s, e).db.rows[id].task.version == 1
  {
    match e
    case MoveCreate(pid, m) =>
      if pid in s.creates {
        var landed := CreateMoveEffect(s, pid, m);
        MoveCreateKeeps(s, Step(s, e), pid, landed);
      }
    case MoveEdit(pid, m) =>
      if pid in s.edits {
        var wrote := EditMoveEffect(s, pid, m);
        EditsAddNoRows(s, Step(s, e), pid, wrote);
      }
    case Register(_, _) =>
    case _ =>
      QuietEvent(s, e);
  }

  lemma EditsAddNoRows(s: State, s': State, pid: Pid, wrote: Option<Fault>)
    requires WellFormed(s) && EditEffect(s, s', pid, wrote)
    ensures s'.db.rows.Keys == s.db.rows.Keys
  {
    assert EditOk(s.db, s.edits[pid]);
    if wrote.Some? {
      WriteEffect(s.db, s.edits[pid], wrote.value);
    }
  }

  lemma StepFirstSeen(s: State, e: Event, from: nat, p: EditProc, first: int)
    requires WellFormed(s) && Serializable(s) && from <= |s.history|
    requires FirstSeen(s, from, p, first)
    ensures FirstSeen(Step(s, e), from, p, first)
  {
    var s' := Step(s, e);
    StepKeeps(s, e);
    StepSerializable(s, e);
    HistoryGrows(s, e);
    LongerHistoryKeepsPlaces(s.history, s'.history, from, p);
    PresentIsAPlace(s', from, p);
    if p.call.id in s.db.rows {
      NewVersionsAreAlive(s, e, p.call.id);
      assert RowEvolves(s.db.rows[p.call.id], s'.db.rows[p.call.id]);
    } else if p.call.id in s'.db.rows {
      NewRowsAreFresh(s, e, p.call.id);
    }
  }

  lemma {:induction false} RunFromFirstSeen(s: State, events: seq<Event>, from: nat, p: EditProc, first: int)
    requires WellFormed(s) && Serializable(s) && from <= |s.history| && FirstSeen(s, from, p, first)
    ensures FirstSeen(RunFrom(s, events), from, p, first)
    decreases |events|
  {
    if events != [] {
      StepKeeps(s, events[0]);
      StepSerializable(s, events[0]);
      HistoryGrows(s, events[0]);
      StepFirstSeen(s, events[0], from, p, first);
      RunFromFirstSeen(Step(s, events[0]), events[1..], from, p, first);
    }
  }

  /** A 409 to a request that names the first version, for a task deleted at it, fits no place. */
  lemma NeverStaleSince(s: State, s': State, p: EditProc, i: nat)
    requires Reachable(s) && Leads(s, s')
    requires Gone(s'.db, p.call) && Named(p.call) == Some(FirstVersion(s.db, p.call.id))
    requires |s.history| <= i <= |s'.history|
    ensures !AnswersAt(s'.history, p.(pc := Answered(Fail(App(STALE_VERSION)))), i)
  {
    var from := |s.history|;
    var events :| RunFrom(s, events) == s';
    LongerRun(s, events);
    LeadsKeepsReachable(s, s');
    ReachableSerializable(s);
    ReachableSerializable(s');
    assert s'.history[..from] == s.history;
    if p.call.id in s.db.rows {
      NeverStaleBetween(s'.history, from, i, p);
    } else {
      NeverStaleUpTo(s'.history, i, p);
    }
  }

  lemma NeverStaleUpTo(h: seq<Record>, i: nat, p: EditProc)
    requires i <= |h| && Named(p.call) == Some(1)
    requires p.call.id in SerialRun(h).rows && SerialRun(h).rows[p.call.id].task.version == 1
    ensures !AnswersAt(h, p.(pc := Answered(Fail(App(STALE_VERSION)))), i)
  {
    SerialRunEvolves(h, i);
    var db := SerialRun(h[..i]);
    SerialRunEvolves(h[..i], i);
    if p.call.id in db.rows {
      assert RowEvolves(db.rows[p.call.id], SerialRun(h).rows[p.call.id]);
      NotStaleAlone(db, p);
    }
  }

  /**
    Exactly when a 409 from the compare-and-swap is an answer the operation gives when run
    alone at some place since the row was read: unless the row has been deleted at the very
    version that was read.  Run alone right then, it answers 409 if and only if the row is alive.
  */
  lemma StaleExactly(read: State, s: State, pid: Pid, fault: Fault)
    requires Reachable(read) && Leads(read, s) && pid in s.edits
    requires s.edits[pid].pc.Ready? && !s.edits[pid].call.Delete?
    requires Load(read.db, s.edits[pid].caller, s.edits[pid].call, false) == Snapshot(s.edits[pid].pc.snap)
    requires !fault.WriteFails? && Matched(s.db, s.edits[pid].call.id, Named(s.edits[pid].call).value).None?
    ensures var s' := Step(s, MoveEdit(pid, RunWrite(fault)));
            var p, p' := s.edits[pid], s'.edits[pid];
            && p' == p.(pc := Answered(Fail(App(STALE_VERSION)))) && s'.db == s.db && s'.history == s.history
            && (AnswersSince(s'.history, |read.history|, p') <==> !Gone(s.db, p.call))
            && (Serial(s.db, p.caller, p.call, NO_EDIT_FAULTS).1 == p'.pc.reply <==> Alive(s.db, p.call.id).Some?)
  {
    var p := s.edits[pid];
    SwapRefused(read, s, pid, fault);
    var p' := p.(pc := Answered(Fail(App(STALE_VERSION))));
    var events :| RunFrom(read, events) == s;
    LongerRun(read, events);
    ReachableWellFormed(read);
    ReachableSerializable(read);
    ReachableSerializable(s);
    RunFromStaleSeen(read, events, |read.history|, p);
    StaleInTime(s, |read.history|, p, p');
    if Gone(s.db, p.call) && AnswersSince(s.history, |read.history|, p') {
      var i: nat :| |read.history| <= i && AnswersAt(s.history, p', i);
      assert s.history[..|read.history|] == read.history;
      NeverStaleBetween(s.history, |read.history|, i, p);
    }
  }

  lemma SwapRefused(read: State, s: State, pid: Pid, fault: Fault)
    requires Reachable(read) && Leads(read, s) && pid in s.edits
    requires s.edits[pid].pc.Ready? && !s.edits[pid].call.Delete?
    requires !fault.WriteFails? && Matched(s.db, s.edits[pid].call.id, Named(s.edits[pid].call).value).None?
    ensures Reachable(s)
    ensures var s' := Step(s, MoveEdit(pid, RunWrite(fault)));
            var p, p' := s.edits[pid], s'.edits[pid];
            && p' == p.(pc := Answered(Fail(App(STALE_VERSION)))) && s'.db == s.db && s'.history == s.history
            && (Serial(s.db, p.caller, p.call, NO_EDIT_FAULTS).1 == p'.pc.reply <==> Alive(s.db, p.call.id).Some?)
  {
    LeadsKeepsReachable(read, s);
    ReachableWellFormed(s);
    var p := s.edits[pid];
    assert EditOk(s.db, p);
    PlansRecordTheirChange(p.caller.value, p.call, p.pc.snap);
    assert Outermost(Annotated(WriteFailure(p.call), App(STALE_VERSION))) == Some(STALE_VERSION);
  }

  /**
    Linearizability of single answers, exactly.  Whatever ran in between, an answer to a valid
    update, assignment or delete that reports no fault is the answer the operation gives when
    run alone at some place in the serial run between its submission and its answer; unless
    it is a 409, the task was deleted at the version the request names, and that is the version
    it had at the submission, or was created with later.
  */
  lemma AnswersAreTimely(s: State, s': State, pid: Pid)
    requires Reachable(s) && Leads(s, s')
    requires pid !in s.edits && pid in s'.edits && s'.edits[pid].pc.Answered?
    requires ValidCall(s'.edits[pid].call) && Definite(s'.edits[pid].pc.reply)
    ensures var p := s'.edits[pid];
            AnswersSince(s'.history, |s.history|, p)
            <==> !(IsStale(p.pc.reply) && Gone(s'.db, p.call)
                   && Named(p.call) == Some(FirstVersion(s.db, p.call.id)))
  {
    var p, from, first := s'.edits[pid], |s.history|, FirstVersion(s.db, s'.edits[pid].call.id);
    ReachableWellFormed(s);
    ReachableSerializable(s);
    var events :| RunFrom(s, events) == s';
    RunFromInTime(s, events, from, pid);
    FirstSeenAtFirst(s, p);
    RunFromFirstSeen(s, events, from, p, first);
    if !AnswersSince(s'.history, from, p) {
      StaleIsSeen(s'.history, from, p);
    }
    if IsStale(p.pc.reply) && Gone(s'.db, p.call) && Named(p.call) == Some(first) {
      forall i: nat | from <= i <= |s'.history| ensures !AnswersAt(s'.history, p, i) {
        NeverStaleSince(s, s', p, i);
      }
    }
  }

  lemma StaleIsSeen(history: seq<Record>, from: nat, p: EditProc)
    requires p.pc.Answered? && IsStale(p.pc.reply)
    ensures LoadsSince(history, from, p, STALE) ==> AnswersSince(history, from, p)
  {
    if LoadsSince(history, from, p, STALE) {
      var i: nat :| from <= i && LoadsAt(history, p, STALE, i);
      assert AnswersAt(history, p, i);
    }
  }

  // ---- commits in real time ------------------------------------------------------------------------

  /** Every committed edit belongs to a request that has been submitted, and is what it asked for. */
  predicate EditorKnown(edits: map<Pid, EditProc>, r: Record) {
    r.op.Edited? ==> r.pid in edits && r.op == Edited(edits[r.pid].caller, edits[r.pid].call)
  }

  ghost predicate EditorsKnown(s: State) {
    forall i :: 0 <= i < |s.history| ==> EditorKnown(s.edits, s.history[i])
  }

  lemma EditsKeepTheirCall(s: State, e: Event)
    ensures forall pid :: pid in s.edits ==>
              && pid in Step(s, e).edits
              && Step(s, e).edits[pid].caller == s.edits[pid].caller && Step(s, e).edits[pid].call == s.edits[pid].call
  {
  }

  lemma NewEditorsAreKnown(s: State, e: Event)
    requires |Step(s, e).history| > |s.history|
    ensures EditorKnown(Step(s, e).edits, Step(s, e).history[|s.history|])
  {
  }

  lemma StepEditors(s: State, e: Event)
    requires EditorsKnown(s)
    ensures EditorsKnown(Step(s, e))
  {
    var s' := Step(s, e);
    HistoryGrows(s, e);
    EditsKeepTheirCall(s, e);
    forall i | 0 <= i < |s'.history| ensures EditorKnown(s'.edits, s'.history[i]) {
      if i < |s.history| {
        assert EditorKnown(s.edits, s.history[i]);
      } else {
        NewEditorsAreKnown(s, e);
      }
    }
  }

  lemma {:induction false} RunEditors(events: seq<Event>)
    ensures EditorsKnown(Run(events))
  {
    if events != [] {
      RunEditors(events[..|events| - 1]);
      StepEditors(Run(events[..|events| - 1]), events[|events| - 1]);
    }
  }

  lemma {:induction false} RunFromKeepsAnswer(s: State, events: seq<Event>, pid: Pid)
    requires pid in s.edits && s.edits[pid].pc.Answered?
    ensures pid in RunFrom(s, events).edits && RunFrom(s, events).edits[pid] == s.edits[pid]
    decreases |events|
  {
    if events != [] {
      AnsweredStays(s, events[0], pid);
      RunFromKeepsAnswer(Step(s, events[0]), events[1..], pid);
    }
  }

  /** The request was answered with a task. */
  predicate AnsweredOk(s: State, pid: Pid) {
    pid in s.edits && s.edits[pid].pc.Answered? && s.edits[pid].pc.reply.Ok?
  }

  /** A successful update or assignment commits after its submission and before its answer. */
  lemma CommitsInTime(s: State, s': State, pid: Pid) returns (i: nat)
    requires Reachable(s) && Leads(s, s') && pid !in s.edits && AnsweredOk(s', pid)
    ensures |s.history| <= i < |s'.history| && RepliedSerially(s'.history, pid, s'.edits[pid], i)
  {
    LeadsKeepsReachable(s, s');
    i := RepliesAreSerial(s', pid);
    var past :| Run(past) == s;
    RunEditors(past);
    var events :| RunFrom(s, events) == s';
    LongerRun(s, events);
    assert i < |s.history| ==> EditorKnown(s.edits, s.history[i]);
  }

  /**
    Real-time order: if one successful update or assignment was answered before another was
    submitted, it comes first in the serial run.
  */
  lemma RealTimeOrder(s: State, s': State, p: Pid, q: Pid) returns (i: nat, j: nat)
    requires Reachable(s) && Leads(s, s')
    requires AnsweredOk(s, p) && q !in s.edits && AnsweredOk(s', q)
    ensures i < j && AnsweredOk(s', p)
    ensures RepliedSerially(s'.history, p, s'.edits[p], i)
    ensures RepliedSerially(s'.history, q, s'.edits[q], j)
  {
    i := RepliesAreSerial(s, p);
    j := CommitsInTime(s, s', q);
    var events :| RunFrom(s, events) == s';
    LongerRun(s, events);
    RunFromKeepsAnswer(s, events, p);
    assert s'.history[..i] == s.history[..i];
  }
}
