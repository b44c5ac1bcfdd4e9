/** Each version of a task is claimed by exactly one request. */
module Winners {
  import opened Prelude
  import opened Tasks
  import opened TaskDb
  import opened Planning
  import opened Audit
  import opened Engine
  import opened Concurrency
  import opened Serializability

  /** The `i`-th committed operation is an update or assignment naming version `v` of task `id`. */
  predicate WinsAt(history: seq<Record>, i: nat, id: Id, v: int) {
    && i < |history|
    && history[i].op.Edited?
    && history[i].op.call.id == id
    && Named(history[i].op.call) == Some(v)
  }

  ghost predicate Won(history: seq<Record>, id: Id, v: int) {
    exists i: nat :: WinsAt(history, i, id, v)
  }

  /** Version `v` of task `id` existed and is not the current one. */
  predicate Passed(db: Db, id: Id, v: int) {
    id in db.rows && 1 <= v < db.rows[id].task.version
  }

  /** The versions claimed so far are those below the current one, each of them once. */
  ghost predicate Claimed(history: seq<Record>, db: Db) {
    && (forall i: nat, id, v | WinsAt(history, i, id, v) :: Passed(db, id, v))
    && (forall i: nat, j: nat, id, v | WinsAt(history, i, id, v) && WinsAt(history, j, id, v) :: i == j)
    && (forall id, v | Passed(db, id, v) :: Won(history, id, v))
  }

  lemma WinsStay(history: seq<Record>, r: Record)
    ensures forall i: nat, id, v :: WinsAt(history, i, id, v) ==> WinsAt(history + [r], i, id, v)
    ensures forall i: nat, id, v :: i < |history| && WinsAt(history + [r], i, id, v) ==> WinsAt(history, i, id, v)
  {
  }

  /** A record that names no version, with no version moved. */
  lemma ClaimedIdle(history: seq<Record>, r: Record, a: Db, b: Db)
    requires Claimed(history, a)
    requires !r.op.Edited? || Named(r.op.call).None?
    requires forall id :: id in a.rows ==> id in b.rows && b.rows[id].task.version == a.rows[id].task.version
    requires forall id :: id in b.rows && id !in a.rows ==> b.rows[id].task.version == 1
    ensures Claimed(history + [r], b)
  {
    WinsStay(history, r);
    forall id, v | Passed(b, id, v) ensures Won(history + [r], id, v) {
      assert Passed(a, id, v);
      var i: nat :| WinsAt(history, i, id, v);
      assert WinsAt(history + [r], i, id, v);
    }
  }

  /** A record that claims the current version of one task and moves it on by one. */
  lemma ClaimedMore(history: seq<Record>, r: Record, a: Db, b: Db, id: Id)
    requires Claimed(history, a)
    requires r.op.Edited? && r.op.call.id == id && id in a.rows
    requires Named(r.op.call) == Some(a.rows[id].task.version) && a.rows[id].task.version >= 1
    requires b.rows.Keys == a.rows.Keys
    requires forall x :: x in a.rows ==>
               b.rows[x].task.version == a.rows[x].task.version + (if x == id then 1 else 0)
    ensures Claimed(history + [r], b)
  {
    var h := history + [r];
    WinsStay(history, r);
    assert WinsAt(h, |history|, id, a.rows[id].task.version);
    forall x, v | Passed(b, x, v) ensures Won(h, x, v) {
      if Passed(a, x, v) {
        var i: nat :| WinsAt(history, i, x, v);
        assert WinsAt(h, i, x, v);
      }
    }
  }

  lemma MoveEditClaims(s: State, s': State, pid: Pid, wrote: Option<Fault>)
    requires WellFormed(s) && Claimed(s.history, s.db) && EditEffect(s, s', pid, wrote)
    ensures Claimed(s'.history, s'.db)
  {
    var p := s.edits[pid];
    assert EditOk(s.db, p);
    if TookEffect(s.db, s'.db) {
      var r := Record(pid, Edited(p.caller, p.call));
      assert ExplainedIn(s.db, p.call.id);
      if p.call.Delete? {
        ClaimedIdle(s.history, r, s.db, s'.db);
      } else {
        WriteEffect(s.db, p, wrote.value);
        PlansRecordTheirChange(p.caller.value, p.call, p.pc.snap);
        ClaimedMore(s.history, r, s.db, s'.db, p.call.id);
      }
    } else {
      NoEffectNoReply(s, s', pid, wrote);
    }
  }

  lemma MoveCreateClaims(s: State, s': State, pid: Pid, landed: Option<Task>)
    requires WellFormed(s) && Claimed(s.history, s.db) && CreateEffect(s, s', pid, landed)
    ensures Claimed(s'.history, s'.db)
  {
    MoveCreateKeeps(s, s', pid, landed);
    if landed.Some? {
      ClaimedIdle(s.history, s'.history[|s.history|], s.db, s'.db);
    }
  }

  lemma StepClaims(s: State, e: Event)
    requires WellFormed(s) && Claimed(s.history, s.db)
    ensures Claimed(Step(s, e).history, Step(s, e).db)
  {
    match e
    case MoveEdit(pid, m) =>
      if pid in s.edits {
        var wrote := EditMoveEffect(s, pid, m);
        MoveEditClaims(s, Step(s, e), pid, wrote);
      }
    case MoveCreate(pid, m) =>
      if pid in s.creates {
        var landed := CreateMoveEffect(s, pid, m);
        MoveCreateClaims(s, Step(s, e), pid, landed);
      }
    case Register(user, team) =>
      if user !in s.db.users {
        ClaimedIdle(s.history, Record(0, Registered(user, team)), s.db, Step(s, e).db);
      }
    case _ =>
      assert Step(s, e).db == s.db && Step(s, e).history == s.history;
  }

  lemma {:induction false} RunClaims(events: seq<Event>)
    ensures Claimed(Run(events).history, Run(events).db)
  {
    if events != [] {
      RunClaims(events[..|events| - 1]);
      RunWellFormed(events[..|events| - 1]);
      StepClaims(Run(events[..|events| - 1]), events[|events| - 1]);
    }
  }

  lemma ReachableClaims(s: State)
    requires Reachable(s)
    ensures Claimed(s.history, s.db)
  {
    var events :| Run(events) == s;
    RunClaims(events);
  }

  /**
    In every reachable state each version below a task's current one was claimed by exactly
    one committed update or assignment naming it, and no other version was claimed.
  */
  lemma EachVersionWonOnce(s: State, id: Id, v: int)
    requires Reachable(s)
    ensures Passed(s.db, id, v) <==> Won(s.history, id, v)
    ensures forall i: nat, j: nat ::
              WinsAt(s.history, i, id, v) && WinsAt(s.history, j, id, v) ==> i == j
  {
    ReachableClaims(s);
  }

  /**
    Single winner: two successful UpdateTask or AssignTask requests for the same task that
    name the same version are one and the same request.
  */
  lemma SingleWinner(s: State, p: Pid, q: Pid)
    requires Reachable(s)
    requires var edits := s.edits;
             && p in edits && q in edits
             && edits[p].pc.Answered? && edits[p].pc.reply.Ok?
             && edits[q].pc.Answered? && edits[q].pc.reply.Ok?
             && edits[p].call.id == edits[q].call.id
             && Named(edits[p].call) == Named(edits[q].call)
    ensures p == q
  {
    ReachableClaims(s);
    var i := RepliesAreSerial(s, p);
    var j := RepliesAreSerial(s, q);
    OkNamesVersion(SerialRun(s.history[..i]), s.edits[p]);
    var v := Named(s.edits[p].call).value;
    assert WinsAt(s.history, i, s.edits[p].call.id, v);
    assert WinsAt(s.history, j, s.edits[p].call.id, v);
  }

  /** Only updates and assignments answer with a task. */
  lemma OkNamesVersion(db: Db, p: EditProc)
    requires p.pc.Answered? && p.pc.reply.Ok?
    requires Serial(db, p.caller, p.call, NO_EDIT_FAULTS).1 == p.pc.reply
    ensures Named(p.call).Some?
  {
  }
}
