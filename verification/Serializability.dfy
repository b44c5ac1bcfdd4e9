/**
  Any interleaved run leaves the rows that its committed operations leave when run one
  after another, in commit order, with nothing in between; and every successful reply is
  the reply of that serial execution.
*/
module Serializability {
  import opened Prelude
  import opened AppErrors
  import opened Tasks
  import opened TaskDb
  import opened Planning
  import opened Audit
  import opened Engine
  import opened Concurrency

  /** One committed operation, run alone from start to end. */
  function Alone(db: Db, op: Op): Db {
    match op
    case Registered(user, team) => if user in db.users then db else db.(users := db.users[user := team])
    case Created(_, caller, req, task) =>
      (match DraftTask(db, caller, req, false)
       case Denied(_) => db
       case Draft(draft) => Insert(db, draft, task.id, NoFault).db)
    case Edited(caller, call) => Serial(db, caller, call, NO_EDIT_FAULTS).0
  }

  function SerialRun(history: seq<Record>): Db {
    if history == [] then INITIAL.db
    else Alone(SerialRun(history[..|history| - 1]), history[|history| - 1].op)
  }

  function WithoutDeletes(logs: seq<TaskLog>): seq<TaskLog> {
    if logs == [] then []
    else
      var earlier := WithoutDeletes(logs[..|logs| - 1]);
      var e := logs[|logs| - 1];
      if e.action.DELETE? then earlier else earlier + [e]
  }

  /** Equal but for DELETE entries. */
  ghost predicate Agree(a: Db, b: Db) {
    a.users == b.users && a.rows == b.rows && WithoutDeletes(a.logs) == WithoutDeletes(b.logs)
  }

  /** The reply is the one the request's operation gives at its place in the serial run. */
  ghost predicate RepliedSerially(history: seq<Record>, pid: Pid, p: EditProc, i: nat) {
    && p.pc.Answered?
    && i < |history|
    && history[i] == Record(pid, Edited(p.caller, p.call))
    && Serial(SerialRun(history[..i]), p.caller, p.call, NO_EDIT_FAULTS).1 == p.pc.reply
  }

  ghost predicate Linearized(history: seq<Record>, pid: Pid, p: EditProc) {
    p.pc.Answered? && p.pc.reply.Ok? ==> exists i: nat :: RepliedSerially(history, pid, p, i)
  }

  ghost predicate Serializable(s: State) {
    && Agree(SerialRun(s.history), s.db)
    && forall pid :: pid in s.edits ==> Linearized(s.history, pid, s.edits[pid])
  }

  // ---- an operation's effect depends on users and rows only ------------------------------

  lemma WithoutDeletesAppend(logs: seq<TaskLog>, e: TaskLog)
    ensures WithoutDeletes(logs + [e]) == if e.action.DELETE? then WithoutDeletes(logs) else WithoutDeletes(logs) + [e]
  {
    assert (logs + [e])[..|logs|] == logs;
  }

  lemma PutRespectsAgreement(a: Db, b: Db, row: Row, e: TaskLog)
    requires Agree(a, b)
    ensures Agree(Put(a, row, e), Put(b, row, e))
  {
    WithoutDeletesAppend(a.logs, e.(taskId := row.task.id));
    WithoutDeletesAppend(b.logs, e.(taskId := row.task.id));
  }

  lemma InsertRespectsAgreement(a: Db, b: Db, draft: Task, id: Id)
    requires Agree(a, b)
    ensures Agree(Insert(a, draft, id, NoFault).db, Insert(b, draft, id, NoFault).db)
  {
    var task := draft.(id := id);
    PutRespectsAgreement(a, b, Row(task, false), CreateEntry(task));
  }

  lemma UpdateRespectsAgreement(a: Db, b: Db, task: Task, expected: int, e: TaskLog)
    requires Agree(a, b)
    ensures var x, y := UpdateWithLog(a, task, expected, e, NoFault), UpdateWithLog(b, task, expected, e, NoFault);
            Agree(x.db, y.db) && x.err == y.err
  {
    forall row { PutRespectsAgreement(a, b, row, e); }
  }

  lemma AssignRespectsAgreement(a: Db, b: Db, task: Task, expected: int, e: TaskLog)
    requires Agree(a, b)
    ensures var x, y := AssignWithLog(a, task, expected, e, NoFault), AssignWithLog(b, task, expected, e, NoFault);
            Agree(x.db, y.db) && x.err == y.err
  {
    forall row { PutRespectsAgreement(a, b, row, e); }
  }

  lemma DeleteRespectsAgreement(a: Db, b: Db, id: Id, e: TaskLog)
    requires Agree(a, b)
    ensures var x, y := DeleteWithLog(a, id, e, NoFault), DeleteWithLog(b, id, e, NoFault);
            Agree(x.db, y.db) && x.err == y.err
  {
    WithoutDeletesAppend(a.logs, e.(taskId := id));
    WithoutDeletesAppend(b.logs, e.(taskId := id));
  }

  lemma WriteRespectsAgreement(a: Db, b: Db, call: Call, plan: Plan)
    requires Agree(a, b)
    ensures Agree(Write(a, call, plan, NoFault).db, Write(b, call, plan, NoFault).db)
    ensures Write(a, call, plan, NoFault).err == Write(b, call, plan, NoFault).err
  {
    match call
    case Update(_, req) => UpdateRespectsAgreement(a, b, plan.task, req.version, plan.log);
    case Assign(_, req) => AssignRespectsAgreement(a, b, plan.task, req.version, plan.log);
    case Delete(_) => DeleteRespectsAgreement(a, b, plan.task.id, plan.log);
  }

  lemma SerialRespectsAgreement(a: Db, b: Db, caller: Option<AuthUser>, call: Call)
    requires Agree(a, b)
    ensures Agree(Serial(a, caller, call, NO_EDIT_FAULTS).0, Serial(b, caller, call, NO_EDIT_FAULTS).0)
    ensures Serial(a, caller, call, NO_EDIT_FAULTS).1 == Serial(b, caller, call, NO_EDIT_FAULTS).1
  {
    var loading := Load(a, caller, call, false);
    assert Load(b, caller, call, false) == loading;
    if loading.Snapshot? {
      var preparing := Prepare(a, caller.value, call, loading.task, false);
      assert Prepare(b, caller.value, call, loading.task, false) == preparing;
      if preparing.Planned? {
        WriteRespectsAgreement(a, b, call, preparing.plan);
      }
    }
  }

  lemma AloneRespectsAgreement(a: Db, b: Db, op: Op)
    requires Agree(a, b)
    ensures Agree(Alone(a, op), Alone(b, op))
    ensures op.Edited? ==>
              Serial(a, op.caller, op.call, NO_EDIT_FAULTS).1 == Serial(b, op.caller, op.call, NO_EDIT_FAULTS).1
  {
    match op
    case Registered(_, _) =>
    case Created(_, caller, req, task) =>
      var drafting := DraftTask(a, caller, req, false);
      assert DraftTask(b, caller, req, false) == drafting;
      if drafting.Draft? {
        InsertRespectsAgreement(a, b, drafting.task, task.id);
      }
    case Edited(caller, call) =>
      SerialRespectsAgreement(a, b, caller, call);
  }

  // ---- a commit does what the operation does alone -----------------------------------------

  lemma InsertIsAlone(s: State, s': State, pid: Pid, task: Task)
    requires Landed(s, s', pid, task) && CreateOk(s.db, s.creates[pid])
    ensures Alone(s.db, s'.history[|s.history|].op) == s'.db
  {
  }

  /**
    The heart of it: when the transaction of a prepared update or assignment takes effect,
    it does exactly what the whole operation, started only now, would do.
  */
  lemma SwapIsAlone(db: Db, p: EditProc, fault: Fault)
    requires EditOk(db, p) && p.pc.Ready? && !p.call.Delete?
    requires TookEffect(db, Write(db, p.call, p.pc.plan, fault).db)
    ensures Serial(db, p.caller, p.call, NO_EDIT_FAULTS)
         == (Write(db, p.call, p.pc.plan, fault).db, AnswerWrite(p.call, p.pc.plan, None))
  {
    PlansRecordTheirChange(p.caller.value, p.call, p.pc.snap);
    SwapHitsSnapshot(db, p);
    assert Load(db, p.caller, p.call, false) == Snapshot(p.pc.snap);
    assert Prepare(db, p.caller.value, p.call, p.pc.snap, false) == Planned(p.pc.plan);
  }

  /** A delete agrees with its serial self up to the entry it writes. */
  lemma DeleteAgreesAlone(db: Db, p: EditProc, fault: Fault)
    requires EditOk(db, p) && p.pc.Ready? && p.call.Delete?
    requires TookEffect(db, Write(db, p.call, p.pc.plan, fault).db)
    ensures Agree(Alone(db, Edited(p.caller, p.call)), Write(db, p.call, p.pc.plan, fault).db)
  {
    DeleteAlone(db, p);
    WithoutDeletesAppend(db.logs, p.pc.plan.log);
    var row := Alive(db, p.call.id);
    if row.Some? {
      WithoutDeletesAppend(db.logs, DeleteEntry(row.value, p.caller.value.userId));
    }
  }

  /** What a delete does when run alone: nothing to a task that is gone already. */
  lemma DeleteAlone(db: Db, p: EditProc)
    requires EditOk(db, p) && p.pc.Ready? && p.call.Delete?
    ensures var alone := Alone(db, Edited(p.caller, p.call));
            match Alive(db, p.call.id)
            case None => alone == db
            case Some(t) => alone == DeleteWithLog(db, p.call.id, DeleteEntry(t, p.caller.value.userId), NoFault).db
  {
    var row := Alive(db, p.call.id);
    if row.Some? {
      assert Load(db, p.caller, p.call, false) == Snapshot(row.value);
      assert Prepare(db, p.caller.value, p.call, row.value, false)
          == Planned(Plan(row.value, DeleteEntry(row.value, p.caller.value.userId)));
    }
  }

  // ---- every run ---------------------------------------------------------------------------

  lemma LongerHistory(h: seq<Record>, r: Record)
    ensures SerialRun(h + [r]) == Alone(SerialRun(h), r.op)
  {
    assert (h + [r])[..|h|] == h;
  }

  lemma LinearizedStays(h: seq<Record>, r: Record, pid: Pid, p: EditProc)
    requires Linearized(h, pid, p)
    ensures Linearized(h + [r], pid, p)
  {
    if p.pc.Answered? && p.pc.reply.Ok? {
      var i: nat :| RepliedSerially(h, pid, p, i);
      assert (h + [r])[..i] == h[..i];
      assert RepliedSerially(h + [r], pid, p, i);
    }
  }

  /** One more committed operation on both sides. */
  lemma CommitSerializable(s: State, s': State, r: Record)
    requires Serializable(s)
    requires s'.history == s.history + [r] && Agree(Alone(s.db, r.op), s'.db)
    ensures Agree(SerialRun(s'.history), s'.db)
    ensures forall pid :: pid in s.edits ==> Linearized(s'.history, pid, s.edits[pid])
  {
    LongerHistory(s.history, r);
    AloneRespectsAgreement(SerialRun(s.history), s.db, r.op);
    forall pid | pid in s.edits ensures Linearized(s'.history, pid, s.edits[pid]) {
      LinearizedStays(s.history, r, pid, s.edits[pid]);
    }
  }

  lemma MoveCreateSerializable(s: State, s': State, pid: Pid, landed: Option<Task>)
    requires WellFormed(s) && Serializable(s) && CreateEffect(s, s', pid, landed)
    ensures Serializable(s')
  {
    assert CreateOk(s.db, s.creates[pid]);
    if landed.Some? {
      InsertIsAlone(s, s', pid, landed.value);
      CommitSerializable(s, s', s'.history[|s.history|]);
    }
  }

  lemma MoveEditSerializable(s: State, s': State, pid: Pid, wrote: Option<Fault>)
    requires WellFormed(s) && Serializable(s) && EditEffect(s, s', pid, wrote)
    ensures Serializable(s')
  {
    var p, p' := s.edits[pid], s'.edits[pid];
    assert EditOk(s.db, p);
    if TookEffect(s.db, s'.db) {
      var r := Record(pid, Edited(p.caller, p.call));
      if p.call.Delete? {
        DeleteAgreesAlone(s.db, p, wrote.value);
        CommitSerializable(s, s', r);
      } else {
        SwapIsAlone(s.db, p, wrote.value);
        CommitSerializable(s, s', r);
        ReplyIsSerial(s, s', pid, wrote.value);
      }
    } else {
      NoEffectNoReply(s, s', pid, wrote);
    }
    assert Linearized(s'.history, pid, p');
  }

  /** The reply of a committed update or assignment is the serial one. */
  lemma ReplyIsSerial(s: State, s': State, pid: Pid, fault: Fault)
    requires Serializable(s) && EditEffect(s, s', pid, Some(fault)) && TookEffect(s.db, s'.db)
    requires EditOk(s.db, s.edits[pid]) && !s.edits[pid].call.Delete?
    ensures Linearized(s'.history, pid, s'.edits[pid])
  {
    var p, p' := s.edits[pid], s'.edits[pid];
    SwapIsAlone(s.db, p, fault);
    if p'.pc.reply.Ok? {
      assert s'.history[..|s.history|] == s.history;
      SerialRespectsAgreement(SerialRun(s.history), s.db, p.caller, p.call);
      assert RepliedSerially(s'.history, pid, p', |s.history|);
    }
  }

  lemma NoEffectNoReply(s: State, s': State, pid: Pid, wrote: Option<Fault>)
    requires WellFormed(s) && EditEffect(s, s', pid, wrote)
    requires !TookEffect(s.db, s'.db)
    ensures s'.db == s.db && s'.history == s.history
    ensures var p' := s'.edits[pid];
            p'.pc.Answered? && p'.pc.reply.Ok? ==> p' == s.edits[pid]
  {
    assert EditOk(s.db, s.edits[pid]);
    if wrote.Some? {
      WriteEffect(s.db, s.edits[pid], wrote.value);
    }
  }

  lemma StepSerializable(s: State, e: Event)
    requires WellFormed(s) && Serializable(s)
    ensures Serializable(Step(s, e))
  {
    match e
    case MoveCreate(pid, m) =>
      if pid in s.creates {
        var landed := CreateMoveEffect(s, pid, m);
        MoveCreateSerializable(s, Step(s, e), pid, landed);
      }
    case MoveEdit(pid, m) =>
      if pid in s.edits {
        var wrote := EditMoveEffect(s, pid, m);
        MoveEditSerializable(s, Step(s, e), pid, wrote);
      }
    case Register(user, team) =>
      RegisterSerializable(s, user, team);
    case _ =>
      QuietEvent(s, e);
      QuietSerializable(s, Step(s, e));
  }

  lemma RegisterSerializable(s: State, user: Id, team: Id)
    requires Serializable(s)
    ensures Serializable(Step(s, Register(user, team)))
  {
    if user !in s.db.users {
      CommitSerializable(s, Step(s, Register(user, team)), Record(0, Registered(user, team)));
    }
  }

  lemma QuietSerializable(s: State, s': State)
    requires Serializable(s) && s'.db == s.db && s'.history == s.history
    requires forall pid :: pid in s'.edits ==>
               if pid in s.edits then s'.edits[pid] == s.edits[pid]
               else s'.edits[pid].pc.Waiting? || s'.edits[pid].pc == Answered(BadRequest())
    ensures Serializable(s')
  {
    forall pid | pid in s'.edits ensures Linearized(s'.history, pid, s'.edits[pid]) {
      assert pid in s.edits ==> Linearized(s.history, pid, s.edits[pid]);
    }
  }

  lemma {:induction false} RunSerializable(events: seq<Event>)
    ensures Serializable(Run(events))
  {
    if events != [] {
      RunSerializable(events[..|events| - 1]);
      RunWellFormed(events[..|events| - 1]);
      StepSerializable(Run(events[..|events| - 1]), events[|events| - 1]);
    }
  }

  lemma ReachableSerializable(s: State)
    requires Reachable(s)
    ensures Serializable(s)
  {
    var events :| Run(events) == s;
    RunSerializable(events);
  }

  /**
    Serializability.  In every reachable state the users and rows are those of the serial
    run of the committed operations, and the audit log is its log up to DELETE entries.
  */
  lemma RowsAreSerial(s: State)
    requires Reachable(s)
    ensures s.db.rows == SerialRun(s.history).rows
    ensures s.db.users == SerialRun(s.history).users
    ensures WithoutDeletes(s.db.logs) == WithoutDeletes(SerialRun(s.history).logs)
  {
    ReachableSerializable(s);
  }

  /** Every successful UpdateTask and AssignTask reply is the serial run's reply. */
  lemma RepliesAreSerial(s: State, pid: Pid) returns (i: nat)
    requires Reachable(s)
    requires pid in s.edits
    requires s.edits[pid].pc.Answered? && s.edits[pid].pc.reply.Ok?
    ensures RepliedSerially(s.history, pid, s.edits[pid], i)
  {
    ReachableSerializable(s);
    assert Linearized(s.history, pid, s.edits[pid]);
    i :| RepliedSerially(s.history, pid, s.edits[pid], i);
  }

  // ---- deletes ---------------------------------------------------------------------------------

  /**
    A delete that takes effect writes from-values equal to the replayed state if and only if
    the row's status and assignee are still those it read; that is so whenever no update or
    assignment committed in between.
  */
  lemma DeleteEntryExact(s: State, pid: Pid, fault: Fault)
    requires Reachable(s)
    requires pid in s.edits
    requires s.edits[pid].pc.Ready? && s.edits[pid].call.Delete?
    requires TookEffect(s.db, Step(s, MoveEdit(pid, RunWrite(fault))).db)
    ensures var logs := Step(s, MoveEdit(pid, RunWrite(fault))).db.logs;
            var e := logs[|s.db.logs|];
            var p := s.edits[pid];
            var now := TrailOf(s.db.logs, e.taskId).view;
            && e.taskId == p.call.id && e.action == DELETE && e.taskId in s.db.rows
            && (e.fromStatus == Some(now.status) && e.fromAssignee == now.assignee
                <==> ViewOf(s.db.rows[e.taskId].task) == ViewOf(p.pc.snap))
            && (s.db.rows[e.taskId].task.version == p.pc.snap.version ==>
                  e.fromStatus == Some(now.status) && e.fromAssignee == now.assignee)
  {
    ReachableWellFormed(s);
    assert EditOk(s.db, s.edits[pid]);
    assert ExplainedIn(s.db, s.edits[pid].call.id);
  }

  /**
    The reply of a delete: success whenever its transaction succeeds, whether or not a row was
    there to delete; the same operation run alone succeeds if and only if the task is alive,
    and otherwise finds no task.
  */
  lemma DeleteReplyExact(s: State, pid: Pid, fault: Fault)
    requires Reachable(s)
    requires pid in s.edits
    requires s.edits[pid].pc.Ready? && s.edits[pid].call.Delete?
    ensures var p := s.edits[pid];
            var s' := Step(s, MoveEdit(pid, RunWrite(fault)));
            var alone := Serial(s.db, p.caller, p.call, NO_EDIT_FAULTS).1;
            && (s'.edits[pid].pc.reply == Removed <==> fault.NoFault?)
            && (alone == Removed <==> Alive(s.db, p.call.id).Some?)
            && (alone == Fail(App(TASK_NOT_FOUND)) <==> Alive(s.db, p.call.id).None?)
  {
    ReachableWellFormed(s);
    assert EditOk(s.db, s.edits[pid]);
    DeleteAlone(s.db, s.edits[pid]);
  }

  /**
    A delete also agrees with its serial self in the entry, and so in the whole database, if
    and only if the row is still alive with the status and assignee it read.
  */
  lemma DeleteSerialExactly(s: State, pid: Pid, fault: Fault)
    requires Reachable(s)
    requires pid in s.edits
    requires s.edits[pid].pc.Ready? && s.edits[pid].call.Delete?
    requires TookEffect(s.db, Step(s, MoveEdit(pid, RunWrite(fault))).db)
    ensures var p := s.edits[pid];
            var row := Alive(s.db, p.call.id);
            Step(s, MoveEdit(pid, RunWrite(fault))).db == Alone(s.db, Edited(p.caller, p.call))
            <==> row.Some? && ViewOf(row.value) == ViewOf(p.pc.snap)
  {
    ReachableWellFormed(s);
    var p := s.edits[pid];
    assert EditOk(s.db, p);
    DeleteAlone(s.db, p);
    var row := Alive(s.db, p.call.id);
    if row.Some? {
      var actor := p.caller.value.userId;
      assert (s.db.logs + [DeleteEntry(p.pc.snap, actor)])[|s.db.logs|] == DeleteEntry(p.pc.snap, actor);
      assert (s.db.logs + [DeleteEntry(row.value, actor)])[|s.db.logs|] == DeleteEntry(row.value, actor);
    }
  }
}
