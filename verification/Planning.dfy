/**
  What each service operation of internal/services/task_service.go decides from what it
  reads: the phases between two visits to the database, as functions, plus the in-place
  edit of a loaded task.  `Serial` runs the phases of one operation with nothing between.
*/
module Planning {
  import opened Prelude
  import opened AppErrors
  import opened Tasks
  import opened TaskDb

  datatype Reply = Ok(resp: Response) | Removed | Fail(err: Error)

  datatype Call =
    | Update(id: Id, upd: UpdateRequest)
    | Assign(id: Id, asg: AssignRequest)
    | Delete(id: Id)

  /** The version a call names, if it names one. */
  function Named(call: Call): Option<int> {
    match call
    case Update(_, req) => Some(req.version)
    case Assign(_, req) => Some(req.version)
    case Delete(_) => None
  }

  function WantedAssignee(call: Call): Option<Id> {
    match call
    case Update(_, req) => req.assignee
    case Assign(_, req) => Some(req.assignee)
    case Delete(_) => None
  }

  predicate Authenticated(caller: Option<AuthUser>) {
    caller.Some? && caller.value.userId != NIL
  }

  // ---- the task a successful edit leaves --------------------------------------

  /** A requested text replaces the old one unless it is absent or trims to nothing. */
  function Replacing(old_: string, wanted: Option<string>): string {
    if wanted.Some? && Trim(wanted.value) != "" then Trim(wanted.value) else old_
  }

  function Updated(t: Task, req: UpdateRequest): Task {
    t.(title := Replacing(t.title, req.title),
       description := if req.description.Some? then Trim(req.description.value) else t.description,
       status := Replacing(t.status, req.status),
       assignee := if req.assignee.Some? then req.assignee else t.assignee,
       version := req.version + 1)
  }

  function Assigned(t: Task, req: AssignRequest): Task {
    t.(assignee := Some(req.assignee), version := req.version + 1)
  }

  // ---- the audit entry it leaves ------------------------------------------------

  predicate SameDetails(a: Task, b: Task) {
    a.title == b.title && a.description == b.description
  }

  predicate OnlyStatusDiffers(a: Task, b: Task) {
    a.status != b.status && a.assignee == b.assignee && SameDetails(a, b)
  }

  predicate OnlyAssigneeDiffers(a: Task, b: Task) {
    a.assignee != b.assignee && a.status == b.status && SameDetails(a, b)
  }

  function UpdateEntry(before: Task, after: Task, actor: Id): TaskLog {
    var status := before.status != after.status;
    var assignee := before.assignee != after.assignee;
    TaskLog(
      before.id,
      if OnlyStatusDiffers(before, after) then STATUS_UPDATE
      else if OnlyAssigneeDiffers(before, after) then ASSIGN
      else UPDATE,
      actor,
      if assignee then before.assignee else None,
      if assignee then after.assignee else None,
      if status then Some(before.status) else None,
      if status then Some(after.status) else None)
  }

  function AssignEntry(before: Task, after: Task, actor: Id): TaskLog {
    TaskLog(before.id, Action.ASSIGN, actor, before.assignee, after.assignee, None, None)
  }

  function DeleteEntry(t: Task, actor: Id): TaskLog {
    TaskLog(t.id, DELETE, actor, t.assignee, None, Some(t.status), None)
  }

  function CreateEntry(t: Task): TaskLog {
    TaskLog(t.id, CREATE, t.creator, None, t.assignee, None, Some(t.status))
  }

  // ---- phases of UpdateTask, AssignTask and DeleteTask -----------------------------

  datatype Loading = Refused(err: Error) | Snapshot(task: Task)
  datatype Plan = Plan(task: Task, log: TaskLog)
  datatype Preparing = Rejected(err: Error) | Planned(plan: Plan)

  /** Authenticate, read the row, check team and version. */
  function Load(db: Db, caller: Option<AuthUser>, call: Call, fault: bool): Loading {
    if !Authenticated(caller) then Refused(ServiceWrap(App(UNAUTHORIZED)))
    else if fault then Refused(ServiceWrap(Annotated(FindingTask, DB_ERROR)))
    else
      var row := Alive(db, call.id);
      if row.None? || row.value.team != caller.value.teamId then Refused(App(TASK_NOT_FOUND))
      else if Named(call).Some? && row.value.version != Named(call).value then Refused(App(STALE_VERSION))
      else Snapshot(row.value)
  }

  function CheckAssignee(db: Db, team: Id, wanted: Option<Id>, fault: bool): Option<Error> {
    if wanted.None? then None
    else if fault then Some(ServiceWrap(Annotated(CheckingAssignee, DB_ERROR)))
    else if FindUser(db, wanted.value) != Some(team) then Some(App(ASSIGNEE_NOT_IN_TEAM))
    else None
  }

  function PlanFor(caller: AuthUser, call: Call, snap: Task): Plan {
    match call
    case Update(_, req) =>
      var after := Updated(snap, req);
      Plan(after, UpdateEntry(snap, after, caller.userId))
    case Assign(_, req) =>
      var after := Assigned(snap, req);
      Plan(after, AssignEntry(snap, after, caller.userId))
    case Delete(_) =>
      Plan(snap, DeleteEntry(snap, caller.userId))
  }

  function Prepare(db: Db, caller: AuthUser, call: Call, snap: Task, fault: bool): Preparing {
    var objection := CheckAssignee(db, caller.teamId, WantedAssignee(call), fault);
    if objection.Some? then Rejected(objection.value)
    else Planned(PlanFor(caller, call, snap))
  }

  /** The transaction of the call, with what the repository answers. */
  function Write(db: Db, call: Call, plan: Plan, fault: Fault): Outcome {
    match call
    case Update(_, req) => UpdateWithLog(db, plan.task, req.version, plan.log, fault)
    case Assign(_, req) => AssignWithLog(db, plan.task, req.version, plan.log, fault)
    case Delete(_) => DeleteWithLog(db, plan.task.id, plan.log, fault)
  }

  function WriteFailure(call: Call): Context {
    match call
    case Update(_, _) => UpdatingTask
    case Assign(_, _) => AssigningTask
    case Delete(_) => DeletingTask
  }

  function AnswerWrite(call: Call, plan: Plan, err: Option<Error>): Reply {
    if err.Some? then Fail(ServiceWrap(Annotated(WriteFailure(call), err.value)))
    else if call.Delete? then Removed
    else Ok(Compose(plan.task))
  }

  datatype EditFaults = EditFaults(load: bool, prepare: bool, write: Fault)
  const NO_EDIT_FAULTS := EditFaults(false, false, NoFault)

  /** One edit run from start to end with no other request in between. */
  function Serial(db: Db, caller: Option<AuthUser>, call: Call, faults: EditFaults): (Db, Reply) {
    match Load(db, caller, call, faults.load)
    case Refused(err) => (db, Fail(err))
    case Snapshot(snap) =>
      match Prepare(db, caller.value, call, snap, faults.prepare)
      case Rejected(err) => (db, Fail(err))
      case Planned(plan) =>
        var out := Write(db, call, plan, faults.write);
        (out.db, AnswerWrite(call, plan, out.err))
  }

  // ---- phases of CreateTask around its transaction ----------------------------------

  datatype Drafting = Denied(err: Error) | Draft(task: Task)

  function DefaultStatus(status: string): string {
    if Trim(status) == "" then TODO else Trim(status)
  }

  /** Authentication, assignee check and the new task, still without an id. */
  function DraftTask(db: Db, caller: Option<AuthUser>, req: CreateRequest, fault: bool): Drafting {
    if !Authenticated(caller) then Denied(ServiceWrap(App(UNAUTHORIZED)))
    else
      var objection := CheckAssignee(db, caller.value.teamId, req.assignee, fault);
      if objection.Some? then Denied(objection.value)
      else Draft(Task(NIL, Trim(req.title), Trim(req.description), DefaultStatus(req.status),
                      caller.value.userId, req.assignee, caller.value.teamId, 1))
  }

  function Insert(db: Db, draft: Task, id: Id, fault: Fault): Outcome {
    var task := draft.(id := id);
    CreateWithLog(db, task, CreateEntry(task), fault)
  }

  // ---- what the entries mean ------------------------------------------------------

  /** The audited part of a task. */
  datatype View = View(status: string, assignee: Option<Id>)

  function ViewOf(t: Task): View {
    View(t.status, t.assignee)
  }

  /** A present to-field overrides. */
  function Advance(v: View, e: TaskLog): View {
    View(
      if e.toStatus.Some? then e.toStatus.value else v.status,
      if e.toAssignee.Some? then e.toAssignee else v.assignee)
  }

  /** The from-fields of an edit entry agree with the view it was written against. */
  predicate Chained(v: View, e: TaskLog) {
    && (e.toStatus.Some? ==> e.fromStatus == Some(v.status))
    && (e.toStatus.None? ==> e.fromStatus.None?)
    && (e.toAssignee.Some? ==> e.fromAssignee == v.assignee)
    && (e.toAssignee.None? ==> e.fromAssignee.None?)
  }

  /** `log` records the edit of `before` into `after`. */
  predicate Records(log: TaskLog, before: Task, after: Task) {
    && log.taskId == before.id
    && IsEdit(log.action)
    && Advance(ViewOf(before), log) == ViewOf(after)
    && Chained(ViewOf(before), log)
  }

  /**
    Whatever an update or an assignment asks for, its entry records the change, and the
    task keeps its id, creator and team and moves to the next version.
  */
  lemma PlansRecordTheirChange(caller: AuthUser, call: Call, snap: Task)
    requires !call.Delete?
    ensures var plan := PlanFor(caller, call, snap);
            && Records(plan.log, snap, plan.task)
            && plan.log.actor == caller.userId
            && plan.task.id == snap.id && plan.task.creator == snap.creator
            && plan.task.team == snap.team
            && plan.task.version == Named(call).value + 1
  {
  }

  /**
    Label faithfulness of UpdateTask: the action says exactly which parts of the task
    changed, and from/to fields are present exactly for the parts that changed.
  */
  lemma LabelsAreFaithful(caller: AuthUser, id: Id, req: UpdateRequest, snap: Task)
    ensures var plan := PlanFor(caller, Update(id, req), snap);
            var e := plan.log;
            && (e.action == STATUS_UPDATE <==> OnlyStatusDiffers(snap, plan.task))
            && (e.action == ASSIGN <==> OnlyAssigneeDiffers(snap, plan.task))
            && (e.action == UPDATE <==> !OnlyStatusDiffers(snap, plan.task) && !OnlyAssigneeDiffers(snap, plan.task))
            && (e.toStatus.Some? <==> snap.status != plan.task.status)
            && (e.fromStatus.Some? <==> snap.status != plan.task.status)
            && (e.toAssignee.Some? <==> snap.assignee != plan.task.assignee)
            && (e.fromAssignee.Some? <==> snap.assignee != plan.task.assignee && snap.assignee.Some?)
  {
  }

  // ---- the loaded task, edited in place ------------------------------------------------

  class LoadedTask {
    const id: Id
    const creator: Id
    const team: Id
    var title: string
    var description: string
    var status: string
    var assignee: Option<Id>
    var version: int

    function Value(): Task
      reads this
    {
      Task(id, title, description, status, creator, assignee, team, version)
    }

    constructor (t: Task)
      ensures Value() == t
    {
      id, creator, team := t.id, t.creator, t.team;
      title, description, status := t.title, t.description, t.status;
      assignee, version := t.assignee, t.version;
    }

    method ApplyDetails(req: UpdateRequest) returns (detailsChanged: bool)
      modifies this`title, this`description
      ensures title == Replacing(old(title), req.title)
      ensures description == if req.description.Some? then Trim(req.description.value) else old(description)
      ensures detailsChanged <==> title != old(title) || description != old(description)
    {
      detailsChanged := false;
      if req.title.Some? {
        var cleanTitle := Trim(req.title.value);
        if cleanTitle != "" && cleanTitle != title {
          detailsChanged := true;
          title := cleanTitle;
        }
      }
      if req.description.Some? {
        var cleanDescription := Trim(req.description.value);
        if cleanDescription != description {
          detailsChanged := true;
          description := cleanDescription;
        }
      }
    }

    /** The in-place half of UpdateTask: mutate the task and raise a flag per kind of change. */
    method ApplyChanges(req: UpdateRequest)
      returns (statusChanged: bool, assigneeChanged: bool, detailsChanged: bool)
      modifies this`title, this`description, this`status, this`assignee, this`version
      ensures Value() == Updated(old(Value()), req)
      ensures statusChanged <==> status != old(status)
      ensures assigneeChanged <==> assignee != old(assignee)
      ensures detailsChanged <==> !SameDetails(old(Value()), Value())
    {
      statusChanged := false;
      if req.status.Some? {
        var cleanStatus := Trim(req.status.value);
        if cleanStatus != "" && cleanStatus != status {
          statusChanged := true;
          status := cleanStatus;
        }
      }

      assigneeChanged := false;
      if req.assignee.Some? {
        if assignee.None? || assignee.value != req.assignee.value {
          assigneeChanged := true;
          assignee := req.assignee;
        }
      }

      detailsChanged := ApplyDetails(req);
      version := req.version + 1;
    }

    /** The change tracking of UpdateTask: apply the changes, label the entry by the flags. */
    method ApplyUpdate(req: UpdateRequest, caller: AuthUser) returns (log: TaskLog)
      modifies this`title, this`description, this`status, this`assignee, this`version
      ensures Plan(Value(), log) == PlanFor(caller, Update(id, req), old(Value()))
    {
      var oldStatus := status;
      var oldAssignee := assignee;
      var statusChanged, assigneeChanged, detailsChanged := ApplyChanges(req);

      var action := Action.UPDATE;
      if statusChanged && !assigneeChanged && !detailsChanged {
        action := STATUS_UPDATE;
      } else if assigneeChanged && !statusChanged && !detailsChanged {
        action := Action.ASSIGN;
      }

      log := TaskLog(id, action, caller.userId, None, None, None, None);
      if statusChanged {
        log := log.(fromStatus := Some(oldStatus), toStatus := Some(status));
      }
      if assigneeChanged {
        log := log.(fromAssignee := oldAssignee, toAssignee := assignee);
      }
    }

    method ApplyAssignment(req: AssignRequest, caller: AuthUser) returns (log: TaskLog)
      modifies this`assignee, this`version
      ensures Plan(Value(), log) == PlanFor(caller, Assign(id, req), old(Value()))
    {
      var oldAssignee := assignee;
      assignee := Some(req.assignee);
      version := req.version + 1;
      log := TaskLog(id, Action.ASSIGN, caller.userId, oldAssignee, assignee, None, None);
    }
  }
}
