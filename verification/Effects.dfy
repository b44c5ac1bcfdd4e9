/**
  What the operations write and answer, in the terms of their requests: the row, the audit
  entry and the response are spelled out field by field, first for every transaction of every
  run, then for the operations run alone.
*/
module Effects {
  import opened Prelude
  import opened Tasks
  import opened TaskDb
  import opened IdempotencyStore
  import opened Planning
  import opened Engine
  import opened Concurrency
  import opened Solo

  /** The transaction commits, whether or not it is known to. */
  predicate Lands(fault: Fault) {
    fault == NoFault || fault == Unacknowledged
  }

  // ---- transactions, over every run ----------------------------------------------------

  /**
    The transaction of CreateTask: if the id is new and no statement fails, one live row and one
    CREATE entry with the request's trimmed texts, its status or else "todo", its assignee,
    and the caller as creator and actor, in the caller's team at version 1; else nothing.
  */
  lemma CreateCommitsExactly(s: State, pid: Pid, id: Id, fault: Fault)
    requires Reachable(s) && pid in s.creates && s.creates[pid].pc.Drafted?
    ensures var s' := Step(s, MoveCreate(pid, Commit(id, fault)));
            var req, pc' := s.creates[pid].req, s'.creates[pid].pc;
            && s.creates[pid].caller.Some?
            && var user := s.creates[pid].caller.value;
               var title, description := Trim(req.title), Trim(req.description);
               var status := if Trim(req.status) == "" then "todo" else Trim(req.status);
               && (req.assignee.Some? ==> Member(s.db, req.assignee.value, user.teamId))
               && s'.db == (if id in s.db.rows || !Lands(fault) then s.db
                            else Db(s.db.users,
                                    s.db.rows[id := Row(Task(id, title, description, status, user.userId, req.assignee,
                                                             user.teamId, 1), false)],
                                    s.db.logs + [TaskLog(id, CREATE, user.userId, None, req.assignee,
                                                         None, Some(status))]))
               && (pc'.Saving? <==> id !in s.db.rows && fault.NoFault?)
               && (pc'.Saving? ==>
                     pc'.resp == Response(id, title, description, status, user.userId, req.assignee, user.teamId, 1))
               && (!pc'.Saving? ==> pc'.Releasing? && pc'.pending.Fail?)
  {
    ReachableWellFormed(s);
    assert CreateOk(s.db, s.creates[pid]);
    DraftSpelledOut(s.db, s.creates[pid].caller, s.creates[pid].req);
  }

  lemma DraftSpelledOut(db: Db, caller: Option<AuthUser>, req: CreateRequest)
    requires DraftTask(db, caller, req, false).Draft?
    ensures caller.Some?
    ensures req.assignee.Some? ==> Member(db, req.assignee.value, caller.value.teamId)
    ensures DraftTask(db, caller, req, false).task
         == Task(NIL, Trim(req.title), Trim(req.description),
                 if Trim(req.status) == "" then "todo" else Trim(req.status),
                 caller.value.userId, req.assignee, caller.value.teamId, 1)
  {
  }

  /**
    The transaction of UpdateTask: if the row is alive at the requested version and no statement
    fails, the requested title and status unless they trim to nothing, the requested trimmed
    description, the requested assignee, and the next version; with one entry by the caller that
    says what changed; else nothing.
  */
  lemma UpdateCommitsExactly(s: State, pid: Pid, fault: Fault)
    requires Reachable(s) && pid in s.edits && s.edits[pid].pc.Ready? && s.edits[pid].call.Update?
    ensures var s' := Step(s, MoveEdit(pid, RunWrite(fault)));
            var id, req, reply := s.edits[pid].call.id, s.edits[pid].call.upd, s'.edits[pid].pc.reply;
            var row := Alive(s.db, id);
            && s.edits[pid].caller.Some?
            && (row.Some? && row.value.version == req.version && Lands(fault) ==>
                  UpdateWrote(s.db, s'.db, s.edits[pid].caller.value.userId, row.value, req))
            && (!(row.Some? && row.value.version == req.version && Lands(fault)) ==> s'.db == s.db)
            && (reply.Ok? <==> row.Some? && row.value.version == req.version && fault.NoFault?)
            && (reply.Ok? ==> UpdateShown(reply.resp, row.value, req))
  {
    ReachableWellFormed(s);
    assert EditOk(s.db, s.edits[pid]);
    PlansRecordTheirChange(s.edits[pid].caller.value, s.edits[pid].call, s.edits[pid].pc.snap);
  }

  /** The response to an update of row `a`. */
  predicate UpdateShown(r: Response, a: Task, req: UpdateRequest) {
    && r.id == a.id && r.creator == a.creator && r.team == a.team && r.version == a.version + 1
    && r.title == (if req.title.Some? && Trim(req.title.value) != "" then Trim(req.title.value) else a.title)
    && r.description == (if req.description.Some? then Trim(req.description.value) else a.description)
    && r.status == (if req.status.Some? && Trim(req.status.value) != "" then Trim(req.status.value) else a.status)
    && r.assignee == (if req.assignee.Some? then req.assignee else a.assignee)
  }

  /** One row changed from `a` as requested, and one entry of `actor` says exactly what changed. */
  predicate UpdateWrote(before: Db, after: Db, actor: Id, a: Task, req: UpdateRequest) {
    && |after.logs| == |before.logs| + 1 && a.id in after.rows
    && var b, e := after.rows[a.id].task, after.logs[|before.logs|];
       && after == Db(before.users, before.rows[a.id := Row(b, false)], before.logs + [e])
       && UpdateShown(Response(b.id, b.title, b.description, b.status, b.creator, b.assignee, b.team, b.version),
                      a, req)
       && e.taskId == a.id && e.actor == actor
       && var details := b.title != a.title || b.description != a.description;
          && (e.action == STATUS_UPDATE <==> b.status != a.status && b.assignee == a.assignee && !details)
          && (e.action == ASSIGN <==> b.assignee != a.assignee && b.status == a.status && !details)
          && (e.action != STATUS_UPDATE && e.action != ASSIGN ==> e.action == UPDATE)
          && e.fromStatus == (if b.status != a.status then Some(a.status) else None)
          && e.toStatus == (if b.status != a.status then Some(b.status) else None)
          && e.fromAssignee == (if b.assignee != a.assignee then a.assignee else None)
          && e.toAssignee == (if b.assignee != a.assignee then b.assignee else None)
  }

  /**
    The transaction of AssignTask: if the row is alive at the requested version and no statement
    fails, the requested assignee and the next version, with an ASSIGN entry by the caller from
    the old assignee to the new one; else nothing.
  */
  lemma AssignCommitsExactly(s: State, pid: Pid, fault: Fault)
    requires Reachable(s) && pid in s.edits && s.edits[pid].pc.Ready? && s.edits[pid].call.Assign?
    ensures var s' := Step(s, MoveEdit(pid, RunWrite(fault)));
            var id, req, reply := s.edits[pid].call.id, s.edits[pid].call.asg, s'.edits[pid].pc.reply;
            var row := Alive(s.db, id);
            && s.edits[pid].caller.Some?
            && (row.Some? && row.value.version == req.version && Lands(fault) ==>
                  AssignWrote(s.db, s'.db, s.edits[pid].caller.value.userId, row.value, req.assignee))
            && (!(row.Some? && row.value.version == req.version && Lands(fault)) ==> s'.db == s.db)
            && (reply.Ok? <==> row.Some? && row.value.version == req.version && fault.NoFault?)
            && (reply.Ok? ==> AssignShown(reply.resp, row.value, req.assignee))
  {
    ReachableWellFormed(s);
    assert EditOk(s.db, s.edits[pid]);
  }

  predicate AssignShown(r: Response, a: Task, assignee: Id) {
    r == Response(a.id, a.title, a.description, a.status, a.creator, Some(assignee), a.team, a.version + 1)
  }

  predicate AssignWrote(before: Db, after: Db, actor: Id, a: Task, assignee: Id) {
    after == Db(before.users,
                before.rows[a.id := Row(Task(a.id, a.title, a.description, a.status, a.creator, Some(assignee),
                                             a.team, a.version + 1), false)],
                before.logs + [TaskLog(a.id, ASSIGN, actor, a.assignee, Some(assignee), None, None)])
  }

  /**
    The transaction of DeleteTask: if no statement fails, the row is marked deleted, if it is
    not already, and a DELETE entry by the caller records the status and assignee that were
    read; else nothing.
  */
  lemma DeleteCommitsExactly(s: State, pid: Pid, fault: Fault)
    requires Reachable(s) && pid in s.edits && s.edits[pid].pc.Ready? && s.edits[pid].call.Delete?
    ensures var s' := Step(s, MoveEdit(pid, RunWrite(fault)));
            var id, snap := s.edits[pid].call.id, s.edits[pid].pc.snap;
            && s.edits[pid].caller.Some? && id in s.db.rows
            && s'.db == (if !Lands(fault) then s.db
                         else Db(s.db.users, s.db.rows[id := Row(s.db.rows[id].task, true)],
                                 s.db.logs + [TaskLog(id, DELETE, s.edits[pid].caller.value.userId, snap.assignee, None,
                                                      Some(snap.status), None)]))
            && (s'.edits[pid].pc.reply == Removed <==> fault.NoFault?)
  {
    ReachableWellFormed(s);
    assert EditOk(s.db, s.edits[pid]);
  }

  // ---- operations run alone --------------------------------------------------------------

  /** Rows are stored under their own ids. */
  predicate Filed(db: Db, id: Id) {
    id in db.rows ==> db.rows[id].task.id == id
  }

  /** An UpdateTask that changes anything, or succeeds, makes the requested change of the live row. */
  lemma UpdateAloneWrites(db: Db, caller: Option<AuthUser>, id: Id, req: UpdateRequest, faults: EditFaults)
    requires Filed(db, id)
    ensures var (db', reply) := Serial(db, caller, Update(id, req), faults);
            db' != db || reply.Ok? ==>
              && caller.Some? && Alive(db, id).Some?
              && UpdateWrote(db, db', caller.value.userId, Alive(db, id).value, req)
              && (reply.Ok? ==> UpdateShown(reply.resp, Alive(db, id).value, req))
  {
  }

  lemma AssignAloneWrites(db: Db, caller: Option<AuthUser>, id: Id, req: AssignRequest, faults: EditFaults)
    requires Filed(db, id)
    ensures var (db', reply) := Serial(db, caller, Assign(id, req), faults);
            db' != db || reply.Ok? ==>
              && caller.Some? && Alive(db, id).Some?
              && AssignWrote(db, db', caller.value.userId, Alive(db, id).value, req.assignee)
              && (reply.Ok? ==> AssignShown(reply.resp, Alive(db, id).value, req.assignee))
  {
  }

  lemma DeleteAloneWrites(db: Db, caller: Option<AuthUser>, id: Id, faults: EditFaults)
    requires Filed(db, id)
    ensures var (db', reply) := Serial(db, caller, Delete(id), faults);
            db' != db || reply.Removed? ==>
              && caller.Some? && Alive(db, id).Some?
              && var a := Alive(db, id).value;
                 db' == Db(db.users, db.rows[id := Row(a, true)],
                           db.logs + [TaskLog(id, DELETE, caller.value.userId, a.assignee, None, Some(a.status), None)])
  {
  }

  /**
    An undisturbed CreateTask with a new key, a caller and an acceptable assignee leaves exactly
    the requested row, its CREATE entry and its cached response, and answers with that response.
  */
  lemma CreateAloneWrites(db: Db, redis: Redis, p: CreateProc, env: CreateEnv)
    requires p.pc.Start? && p.key !in redis.cache && p.key !in redis.locks && Undisturbed(env)
    requires Authenticated(p.caller) && env.id !in db.rows
    requires p.req.assignee.Some? ==> Member(db, p.req.assignee.value, p.caller.value.teamId)
    ensures var user, req := p.caller.value, p.req;
            var status := if Trim(req.status) == "" then "todo" else Trim(req.status);
            var title, description := Trim(req.title), Trim(req.description);
            var resp := Response(env.id, title, description, status, user.userId, req.assignee, user.teamId, 1);
            SoloCreate(db, redis, p, Program(env))
            == Moved(Db(db.users,
                        db.rows[env.id := Row(Task(env.id, title, description, status, user.userId, req.assignee,
                                                   user.teamId, 1), false)],
                        db.logs + [TaskLog(env.id, CREATE, user.userId, None, req.assignee, None, Some(status))]),
                     Redis(redis.locks, redis.cache[p.key := resp]),
                     Replied(Ok(resp)))
  {
    FreshCreateSucceeds(db, redis, p, env);
  }
}
