/** Invariants over row contents: teams never mix, and statuses stay workflow codes. */
module Isolation {
  import opened Prelude
  import opened Tasks
  import opened TaskDb
  import opened Planning
  import opened Audit
  import opened Engine
  import opened Concurrency
  import Validations

  // ---- team isolation -----------------------------------------------------------------

  predicate MaybeMember(db: Db, user: Option<Id>, team: Id) {
    user.Some? ==> Member(db, user.value, team)
  }

  predicate TaskInTeam(db: Db, t: Task) {
    Member(db, t.creator, t.team) && MaybeMember(db, t.assignee, t.team)
  }

  predicate EntryInTeam(db: Db, e: TaskLog) {
    && e.taskId in db.rows
    && var team := db.rows[e.taskId].task.team;
       Member(db, e.actor, team) && MaybeMember(db, e.fromAssignee, team) && MaybeMember(db, e.toAssignee, team)
  }

  ghost predicate DbInTeams(db: Db) {
    && (forall id :: id in db.rows ==> TaskInTeam(db, db.rows[id].task))
    && (forall i :: 0 <= i < |db.logs| ==> EntryInTeam(db, db.logs[i]))
  }

  ghost predicate EditInTeam(db: Db, p: EditProc) {
    && HonestCaller(db, p.caller)
    && (p.pc.Loaded? || p.pc.Ready? ==> MaybeMember(db, p.pc.snap.assignee, p.pc.snap.team))
  }

  ghost predicate Isolated(s: State) {
    && DbInTeams(s.db)
    && (forall pid :: pid in s.edits ==> EditInTeam(s.db, s.edits[pid]))
    && (forall pid :: pid in s.creates ==> HonestCaller(s.db, s.creates[pid].caller))
  }

  lemma MembershipEvolves(s: State, db: Db)
    requires Isolated(s) && Evolves(s.db, db)
    ensures forall pid :: pid in s.edits ==> EditInTeam(db, s.edits[pid])
    ensures forall pid :: pid in s.creates ==> HonestCaller(db, s.creates[pid].caller)
    ensures forall i :: 0 <= i < |s.db.logs| ==> EntryInTeam(db, s.db.logs[i])
  {
    forall pid | pid in s.edits ensures EditInTeam(db, s.edits[pid]) {
      assert EditInTeam(s.db, s.edits[pid]);
    }
    forall i | 0 <= i < |s.db.logs| ensures EntryInTeam(db, s.db.logs[i]) {
      assert EntryInTeam(s.db, s.db.logs[i]);
      assert RowEvolves(s.db.rows[s.db.logs[i].taskId], db.rows[s.db.logs[i].taskId]);
    }
  }

  /** One row written with one entry, both in the team. */
  lemma PutInTeam(s: State, row: Row, e: TaskLog)
    requires Isolated(s) && Evolves(s.db, Put(s.db, row, e))
    requires e.taskId == row.task.id
    requires TaskInTeam(s.db, row.task)
    requires Member(s.db, e.actor, row.task.team)
    requires MaybeMember(s.db, e.fromAssignee, row.task.team) && MaybeMember(s.db, e.toAssignee, row.task.team)
    ensures DbInTeams(Put(s.db, row, e))
  {
    MembershipEvolves(s, Put(s.db, row, e));
  }

  lemma MoveCreateIsolated(s: State, s': State, pid: Pid, landed: Option<Task>)
    requires WellFormed(s) && Isolated(s) && CreateEffect(s, s', pid, landed)
    ensures Isolated(s')
  {
    assert CreateOk(s.db, s.creates[pid]);
    MoveCreateKeeps(s, s', pid, landed);
    if landed.Some? {
      PutInTeam(s, Row(landed.value, false), CreateEntry(landed.value));
    }
    MembershipEvolves(s, s'.db);
  }

  lemma MoveEditIsolated(s: State, s': State, pid: Pid, wrote: Option<Fault>)
    requires WellFormed(s) && Isolated(s) && EditEffect(s, s', pid, wrote)
    ensures Isolated(s')
  {
    var p := s.edits[pid];
    assert EditOk(s.db, p) && EditInTeam(s.db, p);
    MoveEditKeeps(s, s', pid, wrote);
    MembershipEvolves(s, s'.db);
    if wrote.Some? {
      WriteEffect(s.db, p, wrote.value);
      if s'.db != s.db {
        if p.call.Delete? {
          DeleteInTeam(s, p, wrote.value);
        } else {
          EditKeepsTeam(s, p);
          PutInTeam(s, Row(p.pc.plan.task, false), p.pc.plan.log);
        }
      }
    } else {
      assert p.call.id in s.db.rows ==> TaskInTeam(s.db, s.db.rows[p.call.id].task);
    }
    assert EditInTeam(s'.db, s'.edits[pid]);
  }

  lemma EditKeepsTeam(s: State, p: EditProc)
    requires Isolated(s) && EditOk(s.db, p) && EditInTeam(s.db, p) && p.pc.Ready? && !p.call.Delete?
    requires Alive(s.db, p.call.id) == Some(p.pc.snap)
    ensures TaskInTeam(s.db, p.pc.plan.task)
    ensures p.pc.plan.log.taskId == p.pc.plan.task.id
    ensures Member(s.db, p.pc.plan.log.actor, p.pc.plan.task.team)
    ensures MaybeMember(s.db, p.pc.plan.log.fromAssignee, p.pc.plan.task.team)
    ensures MaybeMember(s.db, p.pc.plan.log.toAssignee, p.pc.plan.task.team)
  {
    assert TaskInTeam(s.db, p.pc.snap);
  }

  lemma DeleteInTeam(s: State, p: EditProc, fault: Fault)
    requires Isolated(s) && EditOk(s.db, p) && EditInTeam(s.db, p) && p.pc.Ready? && p.call.Delete?
    requires Evolves(s.db, Write(s.db, p.call, p.pc.plan, fault).db)
    ensures DbInTeams(Write(s.db, p.call, p.pc.plan, fault).db)
  {
    var db := Write(s.db, p.call, p.pc.plan, fault).db;
    MembershipEvolves(s, db);
    forall id | id in db.rows ensures TaskInTeam(db, db.rows[id].task) {
      assert TaskInTeam(s.db, s.db.rows[id].task);
    }
  }

  lemma StepIsolated(s: State, e: Event)
    requires WellFormed(s) && Isolated(s) && HonestEvent(s, e)
    ensures Isolated(Step(s, e))
  {
    match e
    case MoveCreate(pid, m) =>
      if pid in s.creates {
        var landed := CreateMoveEffect(s, pid, m);
        MoveCreateIsolated(s, Step(s, e), pid, landed);
      }
    case MoveEdit(pid, m) =>
      if pid in s.edits {
        var wrote := EditMoveEffect(s, pid, m);
        MoveEditIsolated(s, Step(s, e), pid, wrote);
      }
    case Register(user, team) =>
      RegisterIsolated(s, user, team);
    case SubmitEdit(pid, caller, call) =>
      assert EditInTeam(s.db, AdmitEdit(caller, call));
    case _ =>
      QuietEvent(s, e);
  }

  lemma RegisterIsolated(s: State, user: Id, team: Id)
    requires WellFormed(s) && Isolated(s)
    ensures Isolated(Step(s, Register(user, team)))
  {
    var db := Step(s, Register(user, team)).db;
    RegisterKeeps(s, user, team);
    MembershipEvolves(s, db);
    forall id | id in db.rows ensures TaskInTeam(db, db.rows[id].task) {
      assert TaskInTeam(s.db, s.db.rows[id].task);
    }
  }

  lemma {:induction false} RunIsolated(events: seq<Event>)
    requires HonestRun(events)
    ensures Isolated(Run(events))
  {
    if events != [] {
      RunIsolated(events[..|events| - 1]);
      RunWellFormed(events[..|events| - 1]);
      StepIsolated(Run(events[..|events| - 1]), events[|events| - 1]);
    }
  }

  /**
    Team isolation: if every caller's claimed team is the caller's team, then in every
    reachable state each task's creator and assignee, and every actor and assignee its log
    mentions, belong to the task's team.
  */
  lemma TeamsNeverMix(s: State)
    requires HonestlyReachable(s)
    ensures forall id :: id in s.db.rows ==> TaskInTeam(s.db, s.db.rows[id].task)
    ensures forall i :: 0 <= i < |s.db.logs| ==> EntryInTeam(s.db, s.db.logs[i])
  {
    var events :| HonestRun(events) && Run(events) == s;
    RunIsolated(events);
  }

  // ---- status closure --------------------------------------------------------------------

  predicate MaybeWorkflow(status: Option<string>) {
    status.Some? ==> IsWorkflow(status.value)
  }

  predicate EntryCoded(e: TaskLog) {
    MaybeWorkflow(e.fromStatus) && MaybeWorkflow(e.toStatus)
  }

  ghost predicate EditCoded(p: EditProc) {
    && (!p.pc.Answered? ==> ValidCall(p.call))
    && (p.pc.Loaded? || p.pc.Ready? ==> IsWorkflow(p.pc.snap.status))
  }

  ghost predicate CreateCoded(p: CreateProc) {
    p.pc.Replied? || p.pc.Crashed? || Validations.InWorkflow(p.req.status)
  }

  ghost predicate Coded(s: State) {
    && (forall id :: id in s.db.rows ==> IsWorkflow(s.db.rows[id].task.status))
    && (forall i :: 0 <= i < |s.db.logs| ==> EntryCoded(s.db.logs[i]))
    && (forall pid :: pid in s.edits ==> EditCoded(s.edits[pid]))
    && (forall pid :: pid in s.creates ==> CreateCoded(s.creates[pid]))
  }

  /** Trimming, the default on create and the skip of an empty status all stay in the workflow. */
  lemma StatusesStayCoded(old_: string, created: string, wanted: Option<string>)
    requires IsWorkflow(old_)
    requires Validations.InWorkflow(created)
    requires wanted.Some? ==> Validations.InWorkflow(Trim(wanted.value))
    ensures IsWorkflow(DefaultStatus(created))
    ensures IsWorkflow(Replacing(old_, wanted))
  {
    if created != "" {
      Validations.WorkflowCodesAreTrimmed(created);
    }
  }

  lemma PlanCoded(p: EditProc)
    requires p.pc.Ready? && EditCoded(p) && p.caller.Some?
    requires p.pc.plan == PlanFor(p.caller.value, p.call, p.pc.snap)
    ensures IsWorkflow(p.pc.plan.task.status) && EntryCoded(p.pc.plan.log)
  {
    if p.call.Update? {
      StatusesStayCoded(p.pc.snap.status, "", p.call.upd.status);
    }
  }

  lemma DraftCoded(db: Db, p: CreateProc)
    requires CreateCoded(p) && CreateOk(db, p) && p.pc.Drafted?
    ensures IsWorkflow(p.pc.task.status)
  {
    assert IsWorkflow(TODO);
    StatusesStayCoded(TODO, p.req.status, None);
  }

  lemma StepCoded(s: State, e: Event)
    requires WellFormed(s) && Coded(s)
    ensures Coded(Step(s, e))
  {
    match e
    case MoveCreate(pid, m) =>
      if pid in s.creates {
        var landed := CreateMoveEffect(s, pid, m);
        MoveCreateCoded(s, Step(s, e), pid, landed);
      }
    case MoveEdit(pid, m) =>
      if pid in s.edits {
        var wrote := EditMoveEffect(s, pid, m);
        MoveEditCoded(s, Step(s, e), pid, wrote);
      }
    case _ =>
      OthersCoded(s, e);
  }

  lemma OthersCoded(s: State, e: Event)
    requires Coded(s) && !e.MoveCreate? && !e.MoveEdit?
    ensures Coded(Step(s, e))
  {
    match e
    case SubmitCreate(pid, caller, header, req, titleAccepted) =>
      assert CreateCoded(AdmitCreate(caller, header, req, titleAccepted));
    case SubmitEdit(pid, caller, call) =>
      assert EditCoded(AdmitEdit(caller, call));
    case _ =>
  }

  lemma MoveCreateCoded(s: State, s': State, pid: Pid, landed: Option<Task>)
    requires WellFormed(s) && Coded(s) && CreateEffect(s, s', pid, landed)
    ensures Coded(s')
  {
    var p := s.creates[pid];
    assert CreateCoded(p) && CreateOk(s.db, p);
    if landed.Some? {
      DraftCoded(s.db, p);
      assert EntryCoded(CreateEntry(landed.value));
    }
    assert CreateCoded(s'.creates[pid]);
  }

  lemma MoveEditCoded(s: State, s': State, pid: Pid, wrote: Option<Fault>)
    requires WellFormed(s) && Coded(s) && EditEffect(s, s', pid, wrote)
    ensures Coded(s')
  {
    var p := s.edits[pid];
    assert EditCoded(p) && EditOk(s.db, p);
    if wrote.Some? {
      PlanCoded(p);
      WriteCoded(s.db, s'.db, p, wrote.value);
    }
    assert EditCoded(s'.edits[pid]);
  }

  lemma WriteCoded(db: Db, after: Db, p: EditProc, fault: Fault)
    requires Consistent(db) && p.pc.Ready? && EditOk(db, p)
    requires after == Write(db, p.call, p.pc.plan, fault).db
    requires IsWorkflow(p.pc.plan.task.status) && EntryCoded(p.pc.plan.log)
    requires forall id :: id in db.rows ==> IsWorkflow(db.rows[id].task.status)
    requires forall i :: 0 <= i < |db.logs| ==> EntryCoded(db.logs[i])
    ensures forall id :: id in after.rows ==> IsWorkflow(after.rows[id].task.status)
    ensures forall i :: 0 <= i < |after.logs| ==> EntryCoded(after.logs[i])
  {
    WriteEffect(db, p, fault);
  }

  lemma {:induction false} RunCoded(events: seq<Event>)
    ensures Coded(Run(events))
  {
    if events != [] {
      RunCoded(events[..|events| - 1]);
      RunWellFormed(events[..|events| - 1]);
      StepCoded(Run(events[..|events| - 1]), events[|events| - 1]);
    }
  }

  lemma ReachableCoded(s: State)
    requires Reachable(s)
    ensures Coded(s)
  {
    var events :| Run(events) == s;
    RunCoded(events);
  }

  /**
    Status closure: behind the controllers' validation every row's status and every log
    entry's from- and to-status is one of the five workflow codes, in every reachable state.
  */
  lemma StatusesAreWorkflowCodes(s: State)
    requires Reachable(s)
    ensures forall id :: id in s.db.rows ==> IsWorkflow(s.db.rows[id].task.status)
    ensures forall i :: 0 <= i < |s.db.logs| ==>
              MaybeWorkflow(s.db.logs[i].fromStatus) && MaybeWorkflow(s.db.logs[i].toStatus)
  {
    ReachableCoded(s);
  }
}
