/** What an operation run alone answers, case by case, and what its request means. */
module Answers {
  import opened Prelude
  import opened AppErrors
  import opened Tasks
  import opened TaskDb
  import opened Planning

  /** The caller's own live task, if `id` names one. */
  predicate Owned(db: Db, caller: Option<AuthUser>, id: Id) {
    caller.Some? && Alive(db, id).Some? && Alive(db, id).value.team == caller.value.teamId
  }

  predicate VersionAgrees(db: Db, call: Call) {
    Named(call).Some? ==> Alive(db, call.id).Some? && Alive(db, call.id).value.version == Named(call).value
  }

  predicate AssigneeInTeam(db: Db, caller: Option<AuthUser>, wanted: Option<Id>) {
    wanted.Some? ==> caller.Some? && FindUser(db, wanted.value) == Some(caller.value.teamId)
  }

  function StatusOf(reply: Reply): int {
    match reply
    case Fail(err) => Surface(err).httpStatus
    case _ => 200
  }

  /** The database fails the operation on its way: at the read, at the user check, or at the write. */
  predicate Breaks(db: Db, caller: Option<AuthUser>, call: Call, faults: EditFaults) {
    || faults.load
    || (Owned(db, caller, call.id) && VersionAgrees(db, call)
        && if WantedAssignee(call).Some? && faults.prepare then true
           else AssigneeInTeam(db, caller, WantedAssignee(call)) && !faults.write.NoFault?)
  }

  /**
    UpdateTask, AssignTask and DeleteTask run alone: each answer is given exactly in its case,
    in this order of precedence, and every refusal leaves the database as it was, except that
    of a transaction whose success was lost on the way back.
  */
  lemma EditAnswersExactly(db: Db, caller: Option<AuthUser>, call: Call, faults: EditFaults)
    requires Alive(db, call.id).Some? ==> Alive(db, call.id).value.id == call.id
    ensures var (db', reply) := Serial(db, caller, call, faults);
            var owned := Owned(db, caller, call.id);
            var agrees := VersionAgrees(db, call);
            var inTeam := AssigneeInTeam(db, caller, WantedAssignee(call));
            var breaks := Breaks(db, caller, call, faults);
            && (reply.Fail? && !faults.write.Unacknowledged? ==> db' == db)
            && (StatusOf(reply) == 401 <==> !Authenticated(caller))
            && (StatusOf(reply) == 500 <==> Authenticated(caller) && breaks)
            && (StatusOf(reply) == 404 <==> Authenticated(caller) && !breaks && !owned)
            && (StatusOf(reply) == 409 <==> Authenticated(caller) && !breaks && owned && !agrees)
            && (StatusOf(reply) == 400 <==> Authenticated(caller) && !breaks && owned && agrees && !inTeam)
            && (!reply.Fail? <==> Authenticated(caller) && !breaks && owned && agrees && inTeam)
  {
    assert INTERNAL.httpStatus == 500;
    assert Outermost(DB_ERROR).None?;
    assert UNAUTHORIZED.httpStatus == 401 && TASK_NOT_FOUND.httpStatus == 404;
    assert STALE_VERSION.httpStatus == 409 && ASSIGNEE_NOT_IN_TEAM.httpStatus == 400;
    AppErrorsSurface(UNAUTHORIZED);
    AppErrorsSurface(TASK_NOT_FOUND);
    AppErrorsSurface(STALE_VERSION);
    AppErrorsSurface(ASSIGNEE_NOT_IN_TEAM);
    var loading := Load(db, caller, call, faults.load);
    if loading.Snapshot? {
      var preparing := Prepare(db, caller.value, call, loading.task, faults.prepare);
      if preparing.Planned? {
        assert preparing.plan.task.id == call.id;
      }
    }
  }

  lemma AppErrorsSurface(a: AppError)
    ensures Surface(App(a)) == Show(a) && Surface(ServiceWrap(App(a))) == Show(a)
  {
    assert Outermost(App(a)) == Some(a);
  }

  /** To an authenticated caller another team's task is indistinguishable from no task at all. */
  lemma OtherTeamsTasksAreInvisible(db: Db, caller: Option<AuthUser>, call: Call, faults: EditFaults)
    requires call.id in db.rows && Authenticated(caller)
    requires db.rows[call.id].task.team != caller.value.teamId
    ensures var without := db.(rows := db.rows - {call.id});
            && Serial(db, caller, call, faults).1 == Serial(without, caller, call, faults).1
            && Serial(db, caller, call, faults).0 == db
  {
  }

  /**
    A create request is refused exactly when the caller or the assignee is not acceptable, or
    the assignee cannot be checked.
  */
  lemma DraftExactly(db: Db, caller: Option<AuthUser>, req: CreateRequest, fault: bool)
    ensures var drafting := DraftTask(db, caller, req, fault);
            var breaks := fault && req.assignee.Some?;
            && (drafting.Draft? <==> Authenticated(caller) && !breaks && AssigneeInTeam(db, caller, req.assignee))
            && (drafting.Denied? ==>
                  Surface(drafting.err) == Show(if !Authenticated(caller) then UNAUTHORIZED
                                                else if breaks then INTERNAL
                                                else ASSIGNEE_NOT_IN_TEAM))
            && (drafting.Draft? ==>
                  && drafting.task.version == 1 && drafting.task.team == caller.value.teamId
                  && drafting.task.creator == caller.value.userId && drafting.task.assignee == req.assignee
                  && Trimmed(drafting.task.title) && Trimmed(drafting.task.description)
                  && Trimmed(drafting.task.status) && drafting.task.status != "")
  {
    AppErrorsSurface(UNAUTHORIZED);
    AppErrorsSurface(ASSIGNEE_NOT_IN_TEAM);
    assert Outermost(Annotated(CheckingAssignee, DB_ERROR)).None?;
    TrimIsProjection(req.title);
    TrimIsProjection(req.description);
    TrimIsProjection(req.status);
    assert Trimmed(TODO);
  }

  /** The content of a task: everything but its version. */
  predicate SameContent(a: Task, b: Task) {
    a.(version := 0) == b.(version := 0)
  }

  /**
    Repeating a request that succeeded: a second identical update or assignment is refused as
    stale, a second delete finds no task, and neither changes anything.
  */
  lemma RepeatIsRefused(db: Db, caller: Option<AuthUser>, call: Call)
    requires Alive(db, call.id).Some? ==> Alive(db, call.id).value.id == call.id
    requires !Serial(db, caller, call, NO_EDIT_FAULTS).1.Fail?
    ensures var after := Serial(db, caller, call, NO_EDIT_FAULTS).0;
            Serial(after, caller, call, NO_EDIT_FAULTS)
            == (after, Fail(App(if call.Delete? then TASK_NOT_FOUND else STALE_VERSION)))
  {
    var task := Load(db, caller, call, false).task;
    assert Prepare(db, caller.value, call, task, false) == Planned(PlanFor(caller.value, call, task));
  }

  /**
    As content, an update settles: applied twice it changes nothing the second time; an
    assignee is never cleared and title and status never emptied; and a request that asks for
    what is already there leaves the content alone.
  */
  lemma UpdatesSettle(t: Task, req: UpdateRequest)
    ensures SameContent(Updated(Updated(t, req), req), Updated(t, req))
    ensures t.assignee.Some? ==> Updated(t, req).assignee.Some?
    ensures t.title != "" ==> Updated(t, req).title != ""
    ensures t.status != "" ==> Updated(t, req).status != ""
    ensures Trimmed(t.title) && Trimmed(t.status) ==>
              SameContent(Updated(t, UpdateRequest(req.version, Some(t.title), None, Some(t.status), t.assignee)), t)
  {
    TrimIsProjection(t.title);
    TrimIsProjection(t.status);
  }
}
