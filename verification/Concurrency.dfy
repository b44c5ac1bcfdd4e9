/**
  What optimistic locking guarantees over every interleaving: snapshots stay honest, the
  audit log explains the rows, history only grows, no update is lost, and losers leave no
  trace.
*/
module Concurrency {
  import opened Prelude
  import opened AppErrors
  import opened Tasks
  import opened TaskDb
  import opened Planning
  import opened Audit
  import opened Engine

  // ---- the invariant ----------------------------------------------------------------

  /** A row read earlier: the row now has a later version, or has not changed at all. */
  ghost predicate StillHonest(db: Db, p: EditProc, snap: Task) {
    && Authenticated(p.caller)
    && snap.id == p.call.id && snap.team == p.caller.value.teamId
    && (Named(p.call).Some? ==> snap.version == Named(p.call).value)
    && snap.id in db.rows
    && db.rows[snap.id].task.id == snap.id && db.rows[snap.id].task.team == snap.team
    && db.rows[snap.id].task.version >= snap.version
    && (db.rows[snap.id].task.version == snap.version ==> db.rows[snap.id].task == snap)
  }

  ghost predicate EditOk(db: Db, p: EditProc) {
    match p.pc
    case Loaded(snap) => StillHonest(db, p, snap)
    case Ready(snap, plan) =>
      && StillHonest(db, p, snap)
      && plan == PlanFor(p.caller.value, p.call, snap)
      && CheckAssignee(db, p.caller.value.teamId, WantedAssignee(p.call), false).None?
    case _ => true
  }

  ghost predicate CreateOk(db: Db, p: CreateProc) {
    p.pc.Drafted? ==> DraftTask(db, p.caller, p.req, false) == Draft(p.pc.task)
  }

  ghost predicate WellFormed(s: State) {
    && Consistent(s.db)
    && (forall pid :: pid in s.edits ==> EditOk(s.db, s.edits[pid]))
    && (forall pid :: pid in s.creates ==> CreateOk(s.db, s.creates[pid]))
  }

  /** How the database may change over time. */
  ghost predicate RowEvolves(a: Row, b: Row) {
    && b.task.id == a.task.id && b.task.creator == a.task.creator && b.task.team == a.task.team
    && b.task.version >= a.task.version
    && (b.task.version == a.task.version ==> b.task == a.task)
    && (a.deleted ==> b == a)
  }

  ghost predicate Evolves(a: Db, b: Db) {
    && (forall u :: u in a.users ==> u in b.users && b.users[u] == a.users[u])
    && (forall id :: id in a.rows ==> id in b.rows && RowEvolves(a.rows[id], b.rows[id]))
    && a.logs <= b.logs
  }

  // ---- one event -----------------------------------------------------------------------

  lemma InsertEvolves(db: Db, task: Task)
    requires task.id !in db.rows
    ensures Evolves(db, Put(db, Row(task, false), CreateEntry(task)))
  {
  }

  /** The compare-and-swap hits only a row that is still exactly the snapshot. */
  lemma SwapHitsSnapshot(db: Db, p: EditProc)
    requires p.pc.Ready? && EditOk(db, p) && !p.call.Delete?
    requires Matched(db, p.pc.plan.task.id, Named(p.call).value).Some?
    ensures Alive(db, p.call.id) == Some(p.pc.snap)
  {
    PlansRecordTheirChange(p.caller.value, p.call, p.pc.snap);
  }

  /** What a ready request's transaction does to the database, if anything. */
  lemma WriteEffect(db: Db, p: EditProc, fault: Fault)
    requires Consistent(db) && p.pc.Ready? && EditOk(db, p)
    ensures var out := Write(db, p.call, p.pc.plan, fault);
            && Consistent(out.db) && Evolves(db, out.db)
            && out.db.users == db.users
            && (out.db != db ==> TookEffect(db, out.db))
            && (!p.call.Delete? && out.db != db ==>
                  && Alive(db, p.call.id) == Some(p.pc.snap)
                  && out.db == Put(db, Row(p.pc.plan.task, false), p.pc.plan.log))
  {
    var plan := p.pc.plan;
    var out := Write(db, p.call, plan, fault);
    if p.call.Delete? {
      DeleteConsistent(db, p.call.id, plan.log, fault);
    } else {
      PlansRecordTheirChange(p.caller.value, p.call, p.pc.snap);
      if out.db != db {
        SwapHitsSnapshot(db, p);
        EditConsistent(db, plan.task, plan.log);
      }
    }
  }

  lemma EvolutionKeepsProcs(s: State, db: Db)
    requires WellFormed(s) && Evolves(s.db, db)
    ensures forall pid :: pid in s.edits ==> EditOk(db, s.edits[pid])
    ensures forall pid :: pid in s.creates ==> CreateOk(db, s.creates[pid])
  {
    forall pid | pid in s.edits ensures EditOk(db, s.edits[pid]) {
      assert EditOk(s.db, s.edits[pid]);
    }
    forall pid | pid in s.creates ensures CreateOk(db, s.creates[pid]) {
      assert CreateOk(s.db, s.creates[pid]);
    }
  }

  lemma MoveCreateKeeps(s: State, s': State, pid: Pid, landed: Option<Task>)
    requires WellFormed(s) && CreateEffect(s, s', pid, landed)
    ensures WellFormed(s') && Evolves(s.db, s'.db)
    ensures landed.Some? ==> landed.value.version == 1
  {
    assert CreateOk(s.db, s.creates[pid]);
    if landed.Some? {
      InsertConsistent(s.db, landed.value);
      InsertEvolves(s.db, landed.value);
    }
    EvolutionKeepsProcs(s, s'.db);
    assert CreateOk(s'.db, s'.creates[pid]);
  }

  lemma MoveEditKeeps(s: State, s': State, pid: Pid, wrote: Option<Fault>)
    requires WellFormed(s) && EditEffect(s, s', pid, wrote)
    ensures WellFormed(s') && Evolves(s.db, s'.db)
  {
    var p := s.edits[pid];
    assert EditOk(s.db, p);
    if wrote.Some? {
      WriteEffect(s.db, p, wrote.value);
    } else {
      assert ExplainedIn(s.db, p.call.id);
    }
    EvolutionKeepsProcs(s, s'.db);
    assert EditOk(s'.db, s'.edits[pid]);
  }

  lemma StepKeeps(s: State, e: Event)
    requires WellFormed(s)
    ensures WellFormed(Step(s, e))
    ensures Evolves(s.db, Step(s, e).db)
  {
    match e
    case MoveCreate(pid, m) =>
      if pid in s.creates {
        var landed := CreateMoveEffect(s, pid, m);
        MoveCreateKeeps(s, Step(s, e), pid, landed);
      }
    case MoveEdit(pid, m) =>
      if pid in s.edits {
        var wrote := EditMoveEffect(s, pid, m);
        MoveEditKeeps(s, Step(s, e), pid, wrote);
      }
    case Register(user, team) =>
      RegisterKeeps(s, user, team);
    case _ =>
      assert Step(s, e).db == s.db;
  }

  lemma RegisterKeeps(s: State, user: Id, team: Id)
    requires WellFormed(s)
    ensures WellFormed(Step(s, Register(user, team)))
    ensures Evolves(s.db, Step(s, Register(user, team)).db)
  {
    var db := Step(s, Register(user, team)).db;
    assert db.rows == s.db.rows && db.logs == s.db.logs;
    forall id ensures ExplainedIn(db, id) {
      assert ExplainedIn(s.db, id);
    }
    EvolutionKeepsProcs(s, db);
  }

  // ---- every run -------------------------------------------------------------------------

  lemma {:induction false} RunWellFormed(events: seq<Event>)
    ensures WellFormed(Run(events))
  {
    if events != [] {
      RunWellFormed(events[..|events| - 1]);
      StepKeeps(Run(events[..|events| - 1]), events[|events| - 1]);
    }
  }

  lemma ReachableWellFormed(s: State)
    requires Reachable(s)
    ensures WellFormed(s)
  {
    var events :| Run(events) == s;
    RunWellFormed(events);
  }

  lemma {:induction false} RunFromEvolves(s: State, events: seq<Event>)
    requires WellFormed(s)
    ensures Evolves(s.db, RunFrom(s, events).db)
    decreases |events|
  {
    if events != [] {
      StepKeeps(s, events[0]);
      RunFromEvolves(Step(s, events[0]), events[1..]);
      EvolvesOn(s.db, Step(s, events[0]).db, RunFrom(s, events).db);
    }
  }

  lemma EvolvesOn(a: Db, b: Db, c: Db)
    requires Evolves(a, b) && Evolves(b, c)
    ensures Evolves(a, c)
  {
    forall id | id in a.rows ensures id in c.rows && RowEvolves(a.rows[id], c.rows[id]) {
      assert RowEvolves(a.rows[id], b.rows[id]) && RowEvolves(b.rows[id], c.rows[id]);
    }
  }

  /**
    Over every run and every continuation of it: no task changes its id, creator or team,
    versions never decrease, a deleted row never changes again, and the audit log is
    append-only.
  */
  lemma HistoryOnlyGrows(s: State, s': State)
    requires Reachable(s) && Leads(s, s')
    ensures Evolves(s.db, s'.db)
  {
    ReachableWellFormed(s);
    var events :| RunFrom(s, events) == s';
    RunFromEvolves(s, events);
  }

  /** Audit replay and version count, in every reachable state. */
  lemma AuditReplays(s: State, id: Id)
    requires Reachable(s)
    ensures var db := s.db;
            var trail := TrailOf(db.logs, id);
            id in db.rows ==>
              && trail.view == ViewOf(db.rows[id].task)
              && db.rows[id].task.version == 1 + trail.edits
              && trail.creates == 1
              && (db.rows[id].deleted <==> trail.deletes > 0)
  {
    ReachableWellFormed(s);
    assert ExplainedIn(s.db, id);
  }

  /**
    Audit chain, in every reachable state: each UPDATE, STATUS_UPDATE or ASSIGN entry
    records as its from-values exactly what the earlier entries of the task replay to, for
    the parts it changes, and nothing for the others.
  */
  lemma AuditChains(s: State, i: nat)
    requires Reachable(s)
    requires i < |s.db.logs| && IsEdit(s.db.logs[i].action)
    ensures var logs := s.db.logs;
            var before := TrailOf(logs[..i], logs[i].taskId);
            && Chained(before.view, logs[i])
            && before.creates == 1 && before.deletes == 0
  {
    ReachableWellFormed(s);
    assert FollowsAt(s.db.logs, i);
  }

  /**
    Delete is final: a task is soft-deleted if and only if its log holds a DELETE entry, and
    after its first DELETE only further DELETEs follow, also for requests that had read the
    row before.
  */
  lemma DeleteIsFinal(s: State, id: Id)
    requires Reachable(s)
    ensures var db := s.db;
            && (id in db.rows && db.rows[id].deleted
                <==> exists i :: 0 <= i < |db.logs| && db.logs[i].taskId == id && db.logs[i].action == DELETE)
            && (forall i, j | 0 <= i < j < |db.logs| && db.logs[i].taskId == id && db.logs[j].taskId == id ::
                  db.logs[i].action == DELETE ==> db.logs[j].action == DELETE)
  {
    ReachableWellFormed(s);
    var db := s.db;
    assert ExplainedIn(db, id);
    if TrailOf(db.logs, id).deletes > 0 {
      var i := DeleteWitness(db.logs, id);
    }
    forall i | 0 <= i < |db.logs| && db.logs[i].taskId == id && db.logs[i].action == DELETE
      ensures TrailOf(db.logs, id).deletes > 0
    {
      assert db.logs[..|db.logs|] == db.logs;
      TrailCounts(db.logs, |db.logs|, i);
    }
    forall i, j | 0 <= i < j < |db.logs| && db.logs[i].taskId == id && db.logs[j].taskId == id
                  && db.logs[i].action == DELETE
      ensures db.logs[j].action == DELETE
    {
      DeleteIsLast(db.logs, i, j);
    }
  }

  /**
    No lost update.  After any run, if the next transaction of an UpdateTask or AssignTask
    request affects a row, that row still is, in every field, the one the request read; the
    committed row is the one the request planned, and the reply shows exactly that row.
  */
  lemma NoLostUpdate(s: State, pid: Pid, fault: Fault)
    requires Reachable(s)
    requires pid in s.edits
    requires s.edits[pid].pc.Ready? && !s.edits[pid].call.Delete?
    ensures var s' := Step(s, MoveEdit(pid, RunWrite(fault)));
            var p := s.edits[pid];
            var reply := s'.edits[pid].pc.reply;
            && p.caller.Some? && p.pc.plan == PlanFor(p.caller.value, p.call, p.pc.snap)
            && (s'.db != s.db ==>
                  && Alive(s.db, p.call.id) == Some(p.pc.snap)
                  && Alive(s'.db, p.call.id) == Some(p.pc.plan.task))
            && (reply.Ok? ==>
                  && s'.db != s.db
                  && Alive(s'.db, p.call.id).Some?
                  && reply.resp == Compose(Alive(s'.db, p.call.id).value))
  {
    ReachableWellFormed(s);
    assert EditOk(s.db, s.edits[pid]);
    WriteEffect(s.db, s.edits[pid], fault);
    PlansRecordTheirChange(s.edits[pid].caller.value, s.edits[pid].call, s.edits[pid].pc.snap);
  }

  /**
    A loser leaves no trace: a transaction that fails without being lost on the way back
    changes neither rows nor log; and when it lost the race for its version, the client
    sees 409 although two layers wrapped the error.
  */
  lemma LosersLeaveNoTrace(s: State, pid: Pid, fault: Fault)
    requires Reachable(s)
    requires pid in s.edits && s.edits[pid].pc.Ready?
    ensures var s' := Step(s, MoveEdit(pid, RunWrite(fault)));
            var p := s.edits[pid];
            var reply := s'.edits[pid].pc.reply;
            && (reply.Fail? && fault != Unacknowledged ==> s'.db == s.db)
            && (Named(p.call).Some? && !fault.WriteFails? && Matched(s.db, p.call.id, Named(p.call).value).None? ==>
                  s'.db == s.db && reply.Fail? && Surface(reply.err) == Show(STALE_VERSION))
  {
    ReachableWellFormed(s);
    var p := s.edits[pid];
    assert EditOk(s.db, p);
    StaleSurfaces(WriteFailure(p.call));
    if !p.call.Delete? {
      PlansRecordTheirChange(p.caller.value, p.call, p.pc.snap);
    }
  }

  lemma StaleSurfaces(context: Context)
    ensures Surface(ServiceWrap(Annotated(context, App(STALE_VERSION)))) == Show(STALE_VERSION)
  {
    assert Outermost(Annotated(context, App(STALE_VERSION))) == Outermost(App(STALE_VERSION)) == Some(STALE_VERSION);
  }

  /**
    Label faithfulness on the database: the entry an UpdateTask commit appends is labelled
    STATUS_UPDATE or ASSIGN if and only if the committed row differs from its predecessor in
    just that, UPDATE otherwise, and carries from- and to-values for exactly what changed.
  */
  lemma CommittedLabels(s: State, pid: Pid, fault: Fault)
    requires Reachable(s)
    requires pid in s.edits
    requires s.edits[pid].pc.Ready? && s.edits[pid].call.Update?
    requires TookEffect(s.db, Step(s, MoveEdit(pid, RunWrite(fault))).db)
    ensures var db := Step(s, MoveEdit(pid, RunWrite(fault))).db;
            var id := s.edits[pid].call.id;
            && |db.logs| == |s.db.logs| + 1 && Alive(s.db, id).Some? && Alive(db, id).Some?
            && var e := db.logs[|s.db.logs|];
               var before, after := Alive(s.db, id).value, Alive(db, id).value;
               && e.taskId == id
               && (e.action == STATUS_UPDATE <==> OnlyStatusDiffers(before, after))
               && (e.action == ASSIGN <==> OnlyAssigneeDiffers(before, after))
               && (e.action == UPDATE <==> !OnlyStatusDiffers(before, after) && !OnlyAssigneeDiffers(before, after))
               && (e.toStatus.Some? <==> before.status != after.status)
               && (e.fromStatus.Some? <==> before.status != after.status)
               && (e.toStatus.Some? ==> e.fromStatus == Some(before.status) && e.toStatus == Some(after.status))
               && (e.toAssignee.Some? <==> before.assignee != after.assignee)
               && (e.fromAssignee.Some? <==> before.assignee != after.assignee && before.assignee.Some?)
               && (e.toAssignee.Some? ==> e.fromAssignee == before.assignee && e.toAssignee == after.assignee)
  {
    ReachableWellFormed(s);
    var p := s.edits[pid];
    assert EditOk(s.db, p);
    WriteEffect(s.db, p, fault);
    PlansRecordTheirChange(p.caller.value, p.call, p.pc.snap);
    LabelsAreFaithful(p.caller.value, p.call.id, p.call.upd, p.pc.snap);
  }
}
