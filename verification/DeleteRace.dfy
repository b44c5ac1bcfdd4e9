/**
  What DeleteTask does not promise, because it writes its entry from a snapshot without
  checking the version or the number of rows affected.  An edit that commits in between makes
  the entry's from-values wrong, and a delete that commits in between is repeated, with
  success and an entry of its own; and an update caught by a delete is refused as stale.
  Serializability.DeleteEntryExact, DeleteReplyExact and RealTime.StaleExactly say exactly
  when all is well; here are runs,
  of registered users, in which it is not.
*/
module DeleteRace {
  import opened Prelude
  import opened AppErrors
  import opened Tasks
  import opened TaskDb
  import opened IdempotencyStore
  import opened Planning
  import opened Audit
  import opened Engine
  import opened Concurrency
  import opened Tightness
  import opened RealTime
  import Validations

  const FINISH := UpdateRequest(1, None, None, Some(DONE), None)

  /** Task 1 of team 1 exists, live and todo. */
  lemma OneTask(r: State -> bool) returns (s: State)
    requires StepClosed(r)
    ensures r(s) && s.edits == map[] && s.db.users == map[1 := 1]
    ensures Alive(s.db, 1) == Some(Task(1, Trim("t"), Trim(""), TODO, 1, None, 1, 1))
  {
    var s1 := Step(INITIAL, Register(1, 1));
    var s2 := Arrival(r, s1, 0, 1);
    var s3 := Step(s2, MoveCreate(0, TryLock(Delivered)));
    QuietMove(s2, 0, TryLock(Delivered));
    assert s3.creates[0].pc.Locked?;
    var s4 := Step(s3, MoveCreate(0, SecondLookup(false)));
    LookAgain(s3, 0, 1);
    var s5 := Step(s4, MoveCreate(0, Check(false)));
    QuietMove(s4, 0, Check(false));
    s := Step(s5, MoveCreate(0, Commit(1, NoFault)));
    assert r(s3) && r(s4) && r(s5);
    DraftOfRequest(s4.db);
    DraftCommits(s5.db, s5.redis, s5.creates[0], 1);
    EditsUntouched(s5, 0, Commit(1, NoFault));
  }

  lemma DraftOfRequest(db: Db)
    ensures DraftTask(db, CALLER, REQUEST, false) == Draft(Task(NIL, Trim("t"), Trim(""), TODO, 1, None, 1, 1))
  {
  }

  lemma EditsUntouched(s: State, pid: Pid, m: CreateMove)
    ensures Step(s, MoveCreate(pid, m)).edits == s.edits
  {
  }

  function ReadyFor(call: Call, t: Task): EditProc {
    EditProc(CALLER, call, Ready(t, PlanFor(CALLER.value, call, t)))
  }

  /** A new edit request reads and plans. */
  lemma ReadAndPlan(r: State -> bool, s: State, pid: Pid, call: Call, t: Task) returns (s': State)
    requires Kept(r) && r(s) && HonestCaller(s.db, CALLER) && pid !in s.edits && ValidCall(call)
    requires Load(s.db, CALLER, call, false) == Snapshot(t)
    requires WantedAssignee(call).None?
    ensures r(s') && s'.db == s.db && s'.edits == s.edits[pid := ReadyFor(call, t)]
  {
    var s1 := Step(s, SubmitEdit(pid, CALLER, call));
    assert s1.edits[pid] == EditProc(CALLER, call, Waiting);
    var s2 := Step(s1, MoveEdit(pid, LoadRow(false)));
    assert s2.edits[pid] == EditProc(CALLER, call, Loaded(t)) && s2.db == s.db;
    s' := Step(s2, MoveEdit(pid, PrepareWrite(false)));
  }

  lemma FinishIsValid()
    ensures ValidCall(Update(1, FINISH))
    ensures Trim(DONE) == DONE && DONE != "" && DONE != TODO
  {
    assert IsWorkflow(DONE);
    Validations.WorkflowCodesAreTrimmed(DONE);
    assert |DONE| == 4 && DONE[0] == 'd' && TODO[0] == 't';
  }

  /** Request 1 reads the task for deletion, then request 2 reads it, and neither has written yet. */
  lemma TwoReaders(r: State -> bool, s0: State, t: Task, second: Call) returns (s: State)
    requires Kept(r) && r(s0) && HonestCaller(s0.db, CALLER) && s0.edits == map[]
    requires Alive(s0.db, 1) == Some(t) && t.team == 1
    requires ValidCall(second) && WantedAssignee(second).None?
    requires Load(s0.db, CALLER, second, false) == Snapshot(t)
    ensures r(s) && s.db == s0.db
    ensures s.edits == map[1 := ReadyFor(Delete(1), t), 2 := ReadyFor(second, t)]
  {
    var s1 := ReadAndPlan(r, s0, 1, Delete(1), t);
    s := ReadAndPlan(r, s1, 2, second, t);
  }

  lemma DeleteRuns(s: State, pid: Pid, t: Task)
    requires t.id == 1 && pid in s.edits && s.edits[pid] == ReadyFor(Delete(1), t)
    ensures var s' := Step(s, MoveEdit(pid, RunWrite(NoFault)));
            && s'.edits == s.edits[pid := EditProc(CALLER, Delete(1), Answered(Removed))]
            && s'.db.logs == s.db.logs + [DeleteEntry(t, 1)]
            && s'.db.rows == (if Alive(s.db, 1).Some? then s.db.rows[1 := s.db.rows[1].(deleted := true)]
                              else s.db.rows)
  {
  }

  // ---- a wrong entry -------------------------------------------------------------------------

  /** A DELETE entry of task 1 that says it was still to do. */
  predicate DeletesTodo(e: TaskLog) {
    e.taskId == 1 && e.action == DELETE && e.fromStatus == Some(TODO)
  }

  lemma FinishRuns(s: State, t: Task)
    requires 1 in s.edits && 2 in s.edits && s.edits[2] == ReadyFor(Update(1, FINISH), t)
    requires Alive(s.db, 1) == Some(t) && t.id == 1 && t.version == 1
    ensures var s' := Step(s, MoveEdit(2, RunWrite(NoFault)));
            && 1 in s'.edits && s'.edits[1] == s.edits[1]
            && 1 in s'.db.rows && s'.db.rows[1].task.status == DONE
  {
    FinishIsValid();
  }

  /** Request 2 finishes the task between the read and the write of request 1's delete. */
  lemma Race(r: State -> bool) returns (s: State, s': State)
    requires StepClosed(r)
    ensures r(s) && r(s')
    ensures 1 in s.db.rows && s.db.rows[1].task.status == DONE
    ensures exists e :: s'.db.logs == s.db.logs + [e] && DeletesTodo(e)
  {
    var s0 := OneTask(r);
    var t := Alive(s0.db, 1).value;
    FinishIsValid();
    var s1 := TwoReaders(r, s0, t, Update(1, FINISH));
    s := Step(s1, MoveEdit(2, RunWrite(NoFault)));
    FinishRuns(s1, t);
    s' := Step(s, MoveEdit(1, RunWrite(NoFault)));
    DeleteRuns(s, 1, t);
  }

  /** Some run leaves a DELETE entry whose from-status is not the state its predecessors replay to. */
  lemma ADeleteEntryCanBeWrong() returns (s: State, i: nat)
    ensures HonestlyReachable(s)
    ensures var logs := s.db.logs;
            && i < |logs| && logs[i].action == DELETE
            && logs[i].fromStatus != Some(TrailOf(logs[..i], logs[i].taskId).view.status)
  {
    var r := (s: State) => HonestlyReachable(s);
    HonestRunsAreClosed(r);
    var before, after := Race(r);
    HonestIsReachable(before);
    WrongAfterRace(before, after);
    s, i := after, |before.db.logs|;
  }

  lemma WrongAfterRace(s: State, s': State)
    requires Reachable(s) && 1 in s.db.rows && s.db.rows[1].task.status == DONE
    requires exists e :: s'.db.logs == s.db.logs + [e] && DeletesTodo(e)
    ensures var logs := s'.db.logs;
            var i := |s.db.logs|;
            && i < |logs| && logs[i].action == DELETE
            && logs[i].fromStatus != Some(TrailOf(logs[..i], logs[i].taskId).view.status)
  {
    AuditReplays(s, 1);
    FinishIsValid();
    assert s'.db.logs[..|s.db.logs|] == s.db.logs;
  }

  // ---- a second delete -------------------------------------------------------------------------

  /** The request deleted task 1 and was told so. */
  predicate ToldRemoved(s: State, pid: Pid) {
    pid in s.edits && s.edits[pid] == EditProc(CALLER, Delete(1), Answered(Removed))
  }

  /** Two deletes of one task both succeed, and both leave an entry. */
  lemma TwoDeletesSucceed() returns (s: State, n: nat)
    ensures HonestlyReachable(s) && ToldRemoved(s, 1) && ToldRemoved(s, 2)
    ensures |s.db.logs| == n + 2
    ensures forall i | n <= i < n + 2 :: s.db.logs[i].taskId == 1 && s.db.logs[i].action == DELETE
  {
    var r := (s: State) => HonestlyReachable(s);
    HonestRunsAreClosed(r);
    var s0 := OneTask(r);
    var t := Alive(s0.db, 1).value;
    var s1 := TwoReaders(r, s0, t, Delete(1));
    n := |s1.db.logs|;
    s := BothDelete(r, s1, t);
  }

  lemma BothDelete(r: State -> bool, s: State, t: Task) returns (s': State)
    requires Kept(r) && r(s) && t.id == 1
    requires s.edits == map[1 := ReadyFor(Delete(1), t), 2 := ReadyFor(Delete(1), t)]
    ensures r(s') && ToldRemoved(s', 1) && ToldRemoved(s', 2)
    ensures s'.db.logs == s.db.logs + [DeleteEntry(t, 1), DeleteEntry(t, 1)]
  {
    var s1 := Step(s, MoveEdit(1, RunWrite(NoFault)));
    DeleteRuns(s, 1, t);
    s' := Step(s1, MoveEdit(2, RunWrite(NoFault)));
    DeleteRuns(s1, 2, t);
  }

  // ---- a refusal out of time ---------------------------------------------------------------------

  lemma LeadsIsKept(s0: State, r: State -> bool)
    requires HonestlyReachable(s0)
    requires forall s :: r(s) <==> Leads(s0, s) && HonestlyReachable(s)
    ensures Kept(r) && r(s0)
  {
    assert RunFrom(s0, []) == s0;
    forall s, e | r(s) && HonestEvent(s, e) ensures r(Step(s, e)) {
      LeadsOn(s0, s, e);
      HonestStep(s, e);
    }
  }

  /** Request 2 reads the task, request 1 deletes it, request 2 writes: the row is not found. */
  lemma DeletedUnderneath(s0: State, t: Task) returns (s: State)
    requires HonestlyReachable(s0) && HonestCaller(s0.db, CALLER) && s0.edits == map[]
    requires Alive(s0.db, 1) == Some(t) && t.id == 1 && t.team == 1 && t.version == 1
    ensures Leads(s0, s) && HonestlyReachable(s)
    ensures 2 in s.edits && s.edits[2] == ReadyFor(Update(1, FINISH), t)
    ensures Gone(s.db, Update(1, FINISH))
    ensures Load(s0.db, CALLER, Update(1, FINISH), false) == Snapshot(t)
  {
    var r := (s: State) => Leads(s0, s) && HonestlyReachable(s);
    LeadsIsKept(s0, r);
    FinishIsValid();
    var s1 := TwoReaders(r, s0, t, Update(1, FINISH));
    s := Step(s1, MoveEdit(1, RunWrite(NoFault)));
    DeleteRuns(s1, 1, t);
  }

  /** Some 409 is an answer the operation gives at no place between its submission and its answer. */
  lemma ARefusalCanBeOutOfTime() returns (s: State, s': State)
    ensures HonestlyReachable(s) && HonestlyReachable(s') && Leads(s, s') && 2 !in s.edits && 2 in s'.edits
    ensures s'.edits[2].pc == Answered(Fail(App(STALE_VERSION)))
    ensures !AnswersSince(s'.history, |s.history|, s'.edits[2])
  {
    var r := (s: State) => HonestlyReachable(s);
    HonestRunsAreClosed(r);
    s := OneTask(r);
    var t := Alive(s.db, 1).value;
    var s1 := DeletedUnderneath(s, t);
    s' := RefusedOutOfTime(s, s1, 2);
  }

  lemma RefusedOutOfTime(s0: State, s: State, pid: Pid) returns (s': State)
    requires HonestlyReachable(s0) && Leads(s0, s) && HonestlyReachable(s)
    requires pid in s.edits && s.edits[pid].pc.Ready?
    requires Load(s0.db, s.edits[pid].caller, s.edits[pid].call, false) == Snapshot(s.edits[pid].pc.snap)
    requires Gone(s.db, s.edits[pid].call)
    ensures Leads(s0, s') && HonestlyReachable(s') && pid in s'.edits
    ensures s'.edits[pid].pc == Answered(Fail(App(STALE_VERSION)))
    ensures !AnswersSince(s'.history, |s0.history|, s'.edits[pid])
  {
    var last := MoveEdit(pid, RunWrite(NoFault));
    s' := Step(s, last);
    HonestIsReachable(s0);
    HonestStep(s, last);
    StaleExactly(s0, s, pid, NoFault);
    LeadsOn(s0, s, last);
  }
}
