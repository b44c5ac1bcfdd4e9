/**
  The audit log is the history: in every reachable state there is one entry for every
  committed create, update, assignment and delete, in commit order, and it names the user
  whose request it was.
*/
module Accountability {
  import opened Prelude
  import opened Tasks
  import opened TaskDb
  import opened Planning
  import opened Engine
  import opened Concurrency
  import opened RealTime
  import opened KeySharing

  /** The committed operations that are audited. */
  function Audited(history: seq<Record>): seq<Record> {
    if history == [] then []
    else
      var earlier := Audited(history[..|history| - 1]);
      var r := history[|history| - 1];
      if r.op.Registered? then earlier else earlier + [r]
  }

  /** The entry is of this operation: its task, its kind, and its caller as actor. */
  predicate Signs(e: TaskLog, op: Op) {
    match op
    case Registered(_, _) => false
    case Created(_, caller, req, task) =>
      && caller.Some?
      && e == TaskLog(task.id, CREATE, caller.value.userId, None, req.assignee, None, Some(task.status))
    case Edited(caller, call) =>
      && caller.Some? && e.actor == caller.value.userId && e.taskId == call.id
      && match call
         case Update(_, _) => e.action == UPDATE || e.action == STATUS_UPDATE || e.action == ASSIGN
         case Assign(_, req) => e.action == ASSIGN && e.toAssignee == Some(req.assignee)
         case Delete(_) => e.action == DELETE
  }

  ghost predicate Signed(s: State) {
    && |s.db.logs| == |Audited(s.history)|
    && forall i :: 0 <= i < |s.db.logs| ==> Signs(s.db.logs[i], Audited(s.history)[i].op)
  }

  lemma AuditedAppend(history: seq<Record>, r: Record)
    ensures Audited(history + [r]) == if r.op.Registered? then Audited(history) else Audited(history) + [r]
  {
    assert (history + [r])[..|history|] == history;
  }

  /** One more entry for one more operation. */
  lemma OneMoreSigned(s: State, s': State, e: TaskLog, r: Record)
    requires Signed(s) && Signs(e, r.op)
    requires s'.db.logs == s.db.logs + [e] && s'.history == s.history + [r]
    ensures Signed(s')
  {
    AuditedAppend(s.history, r);
  }

  lemma MoveCreateSigned(s: State, s': State, pid: Pid, landed: Option<Task>)
    requires WellFormed(s) && Signed(s) && CreateEffect(s, s', pid, landed)
    ensures Signed(s')
  {
    assert CreateOk(s.db, s.creates[pid]);
    if landed.Some? {
      OneMoreSigned(s, s', CreateEntry(landed.value), s'.history[|s.history|]);
    }
  }

  lemma MoveEditSigned(s: State, s': State, pid: Pid, wrote: Option<Fault>)
    requires WellFormed(s) && Signed(s) && EditEffect(s, s', pid, wrote)
    ensures Signed(s')
  {
    var p := s.edits[pid];
    assert EditOk(s.db, p);
    if wrote.Some? {
      WriteEffect(s.db, p, wrote.value);
    }
    if TookEffect(s.db, s'.db) {
      var r := Record(pid, Edited(p.caller, p.call));
      PlansSign(p.caller.value, p.call, p.pc.snap);
      OneMoreSigned(s, s', s'.db.logs[|s.db.logs|], r);
    }
  }

  lemma PlansSign(caller: AuthUser, call: Call, snap: Task)
    requires snap.id == call.id
    ensures Signs(PlanFor(caller, call, snap).log, Edited(Some(caller), call))
    ensures PlanFor(caller, call, snap).log.taskId == call.id && PlanFor(caller, call, snap).task.id == call.id
  {
  }

  lemma StepSigned(s: State, e: Event)
    requires WellFormed(s) && Signed(s)
    ensures Signed(Step(s, e))
  {
    match e
    case MoveCreate(pid, m) =>
      if pid in s.creates {
        var landed := CreateMoveEffect(s, pid, m);
        MoveCreateSigned(s, Step(s, e), pid, landed);
      }
    case MoveEdit(pid, m) =>
      if pid in s.edits {
        var wrote := EditMoveEffect(s, pid, m);
        MoveEditSigned(s, Step(s, e), pid, wrote);
      }
    case Register(user, team) =>
      AuditedAppend(s.history, Record(0, Registered(user, team)));
    case _ =>
      QuietEvent(s, e);
  }

  lemma {:induction false} RunSigned(events: seq<Event>)
    ensures Signed(Run(events))
  {
    if events != [] {
      RunSigned(events[..|events| - 1]);
      RunWellFormed(events[..|events| - 1]);
      StepSigned(Run(events[..|events| - 1]), events[|events| - 1]);
    }
  }

  /**
    Accountability: over every interleaving the audit log and the committed operations match
    one to one and in order, and each entry names its operation's task, kind and caller.
  */
  lemma AuditLogIsTheHistory(s: State)
    requires Reachable(s)
    ensures |s.db.logs| == |Audited(s.history)|
    ensures forall i :: 0 <= i < |s.db.logs| ==> Signs(s.db.logs[i], Audited(s.history)[i].op)
  {
    var events :| Run(events) == s;
    RunSigned(events);
  }

  // ---- back to the requests --------------------------------------------------------------

  lemma {:induction false} AuditedIsHistory(history: seq<Record>, i: nat) returns (j: nat)
    requires i < |Audited(history)|
    ensures j < |history| && history[j] == Audited(history)[i] && !history[j].op.Registered?
  {
    var n := |history| - 1;
    if i < |Audited(history[..n])| {
      j := AuditedIsHistory(history[..n], i);
    } else {
      j := n;
    }
  }

  /** The request the entry is about: its caller is the actor, its task the entry's task. */
  ghost predicate EntryOfEdit(s: State, e: TaskLog, pid: Pid) {
    && pid in s.edits && s.edits[pid].caller.Some?
    && e.actor == s.edits[pid].caller.value.userId && e.taskId == s.edits[pid].call.id
    && (e.action == DELETE <==> s.edits[pid].call.Delete?)
  }

  ghost predicate EntryOfCreate(s: State, e: TaskLog, pid: Pid) {
    && pid in s.creates && s.creates[pid].caller.Some?
    && e.actor == s.creates[pid].caller.value.userId
  }

  /** Every audit entry is some request's, and its actor is the user who made that request. */
  lemma EntriesNameTheirRequest(s: State, i: nat) returns (pid: Pid)
    requires Reachable(s) && i < |s.db.logs|
    ensures if s.db.logs[i].action == CREATE then EntryOfCreate(s, s.db.logs[i], pid)
            else EntryOfEdit(s, s.db.logs[i], pid)
  {
    var events :| Run(events) == s;
    RunSigned(events);
    RunEditors(events);
    RunOrigins(events);
    var j := AuditedIsHistory(s.history, i);
    assert EditorKnown(s.edits, s.history[j]) && Originates(s.creates, s.history[j]);
    pid := s.history[j].pid;
  }
}
