/**
  What the answers of CreateTask are worth: every row was committed under exactly one key,
  and every successful reply is the version-1 response of a record committed under its key.
*/
module Replay {
  import opened Prelude
  import opened Tasks
  import opened TaskDb
  import opened Engine
  import opened Concurrency
  import opened OnceOnly

  // ---- the ledger: rows and keys ------------------------------------------------------

  predicate IssuedAt(history: seq<Record>, key: Key, i: nat, id: Id) {
    i < |Committed(history, key)| && Committed(history, key)[i].id == id
  }

  ghost predicate Issued(history: seq<Record>, id: Id) {
    exists key, i: nat :: IssuedAt(history, key, i, id)
  }

  ghost predicate SameOrigin(db: Db, r: Response) {
    && r.id in db.rows && r.version == 1
    && r.creator == db.rows[r.id].task.creator && r.team == db.rows[r.id].task.team
  }

  ghost predicate Ledger(s: State) {
    && (forall key, r | r in Committed(s.history, key) :: SameOrigin(s.db, r))
    && (forall k, i: nat, k', i': nat, id | IssuedAt(s.history, k, i, id) && IssuedAt(s.history, k', i', id) ::
          k == k' && i == i')
    && (forall id | id in s.db.rows :: Issued(s.history, id))
  }

  ghost predicate CreateKnown(history: seq<Record>, p: CreateProc) {
    Promised(p.pc).Some? ==> Promised(p.pc).value in Committed(history, p.key)
  }

  ghost predicate Known(s: State) {
    && (forall pid :: pid in s.creates ==> CreateKnown(s.history, s.creates[pid]))
    && (forall key :: key in s.redis.cache ==> s.redis.cache[key] in Committed(s.history, key))
  }

  // ---- the log of commits only grows ------------------------------------------------------

  lemma LongerKnown(s: State, r: Record)
    requires Known(s)
    ensures forall key :: Committed(s.history, key) <= Committed(s.history + [r], key)
    ensures forall pid :: pid in s.creates ==> CreateKnown(s.history + [r], s.creates[pid])
    ensures forall key :: key in s.redis.cache ==> s.redis.cache[key] in Committed(s.history + [r], key)
  {
    forall key ensures Committed(s.history, key) <= Committed(s.history + [r], key) {
      CommittedAppend(s.history, r, key);
    }
    forall pid | pid in s.creates ensures CreateKnown(s.history + [r], s.creates[pid]) {
      assert CreateKnown(s.history, s.creates[pid]);
      assert Committed(s.history, s.creates[pid].key) <= Committed(s.history + [r], s.creates[pid].key);
    }
    forall key | key in s.redis.cache ensures s.redis.cache[key] in Committed(s.history + [r], key) {
      assert Committed(s.history, key) <= Committed(s.history + [r], key);
    }
  }

  lemma MoveCreateKnown(s: State, s': State, pid: Pid, landed: Option<Task>)
    requires Known(s) && CreateEffect(s, s', pid, landed)
    ensures Known(s')
  {
    assert CreateKnown(s.history, s.creates[pid]);
    if landed.Some? {
      var r := s'.history[|s.history|];
      LongerKnown(s, r);
      CommittedAppend(s.history, r, s.creates[pid].key);
    }
    assert CreateKnown(s'.history, s'.creates[pid]);
  }

  lemma StepKnown(s: State, e: Event)
    requires Known(s)
    ensures Known(Step(s, e))
  {
    match e
    case MoveCreate(pid, m) =>
      if pid in s.creates {
        var landed := CreateMoveEffect(s, pid, m);
        MoveCreateKnown(s, Step(s, e), pid, landed);
      }
    case MoveEdit(pid, m) =>
      if pid in s.edits { LongerKnown(s, Record(pid, Edited(s.edits[pid].caller, s.edits[pid].call))); }
    case Register(user, team) =>
      LongerKnown(s, Record(0, Registered(user, team)));
    case SubmitCreate(pid, caller, header, req, titleAccepted) =>
      assert CreateKnown(s.history, AdmitCreate(caller, header, req, titleAccepted));
    case Crash(pid) =>
      assert pid in s.creates ==> CreateKnown(s.history, s.creates[pid].(pc := Crashed));
    case _ =>
  }

  // ---- the ledger is kept -------------------------------------------------------------------

  lemma LedgerIdle(s: State, s': State)
    requires Ledger(s) && Evolves(s.db, s'.db)
    requires forall key :: Committed(s'.history, key) == Committed(s.history, key)
    requires s'.db.rows.Keys == s.db.rows.Keys
    ensures Ledger(s')
  {
    forall key, i: nat, id ensures IssuedAt(s'.history, key, i, id) <==> IssuedAt(s.history, key, i, id) {
      assert Committed(s'.history, key) == Committed(s.history, key);
    }
    forall key, r | r in Committed(s'.history, key) ensures SameOrigin(s'.db, r) {
      assert r in Committed(s.history, key);
      assert SameOrigin(s.db, r);
      assert RowEvolves(s.db.rows[r.id], s'.db.rows[r.id]);
    }
    forall id | id in s'.db.rows ensures Issued(s'.history, id) {
      var key, i: nat :| IssuedAt(s.history, key, i, id);
      assert IssuedAt(s'.history, key, i, id);
    }
  }

  lemma LedgerMore(s: State, s': State, r: Record, task: Task)
    requires Ledger(s) && Evolves(s.db, s'.db)
    requires r.op.Created? && r.op.task == task && s'.history == s.history + [r]
    requires task.id !in s.db.rows && task.version == 1
    requires s'.db.rows == s.db.rows[task.id := Row(task, false)]
    ensures Ledger(s')
  {
    var k0 := r.op.key;
    forall key ensures Committed(s'.history, key)
      == if key == k0 then Committed(s.history, key) + [Compose(task)] else Committed(s.history, key) {
      CommittedAppend(s.history, r, key);
    }
    forall key, i: nat, id | IssuedAt(s.history, key, i, id)
      ensures IssuedAt(s'.history, key, i, id) && id in s.db.rows
    {
      assert SameOrigin(s.db, Committed(s.history, key)[i]);
    }
    forall key, i: nat, id | IssuedAt(s'.history, key, i, id)
      ensures IssuedAt(s.history, key, i, id) || (key == k0 && i == |Committed(s.history, k0)| && id == task.id)
    {
    }
    forall key, x | x in Committed(s'.history, key) ensures SameOrigin(s'.db, x) {
      if x in Committed(s.history, key) {
        assert SameOrigin(s.db, x);
      }
    }
    assert IssuedAt(s'.history, k0, |Committed(s.history, k0)|, task.id);
    forall id | id in s'.db.rows ensures Issued(s'.history, id) {
      if id in s.db.rows {
        assert Issued(s.history, id);
        var key, i: nat :| IssuedAt(s.history, key, i, id);
        assert IssuedAt(s'.history, key, i, id);
      }
    }
  }

  lemma StepLedger(s: State, e: Event)
    requires WellFormed(s) && Ledger(s)
    ensures Ledger(Step(s, e))
  {
    var s' := Step(s, e);
    StepKeeps(s, e);
    match e
    case MoveCreate(pid, m) =>
      if pid in s.creates {
        var landed := CreateMoveEffect(s, pid, m);
        MoveCreateLedger(s, s', pid, landed);
      }
    case MoveEdit(pid, m) =>
      if pid in s.edits {
        var wrote := EditMoveEffect(s, pid, m);
        MoveEditLedger(s, s', pid, wrote);
      }
    case Register(user, team) =>
      RegisterLedger(s, user, team);
    case _ =>
      QuietEvent(s, e);
      LedgerIdle(s, s');
  }

  lemma RegisterLedger(s: State, user: Id, team: Id)
    requires WellFormed(s) && Ledger(s)
    ensures Ledger(Step(s, Register(user, team)))
  {
    var s' := Step(s, Register(user, team));
    RegisterKeeps(s, user, team);
    forall key ensures Committed(s'.history, key) == Committed(s.history, key) {
      CommittedAppend(s.history, Record(0, Registered(user, team)), key);
    }
    LedgerIdle(s, s');
  }

  lemma MoveCreateLedger(s: State, s': State, pid: Pid, landed: Option<Task>)
    requires WellFormed(s) && Ledger(s) && CreateEffect(s, s', pid, landed)
    ensures Ledger(s')
  {
    MoveCreateKeeps(s, s', pid, landed);
    if landed.Some? {
      LedgerMore(s, s', s'.history[|s.history|], landed.value);
    } else {
      LedgerIdle(s, s');
    }
  }

  lemma MoveEditLedger(s: State, s': State, pid: Pid, wrote: Option<Fault>)
    requires WellFormed(s) && Ledger(s) && EditEffect(s, s', pid, wrote)
    ensures Ledger(s')
  {
    var p := s.edits[pid];
    MoveEditKeeps(s, s', pid, wrote);
    forall key ensures Committed(s'.history, key) == Committed(s.history, key) {
      CommittedAppend(s.history, Record(pid, Edited(p.caller, p.call)), key);
    }
    assert EditOk(s.db, p);
    LedgerIdle(s, s');
  }

  lemma {:induction false} RunKnown(events: seq<Event>)
    ensures Known(Run(events)) && Ledger(Run(events))
  {
    if events != [] {
      var earlier := events[..|events| - 1];
      RunKnown(earlier);
      RunWellFormed(earlier);
      StepKnown(Run(earlier), events[|events| - 1]);
      StepLedger(Run(earlier), events[|events| - 1]);
    }
  }

  lemma ReachableKnown(s: State)
    requires Reachable(s)
    ensures Known(s) && Ledger(s)
  {
    var events :| Run(events) == s;
    RunKnown(events);
  }

  // ---- the theorems ------------------------------------------------------------------------------

  function RowsUnder(history: seq<Record>, key: Key): set<Id> {
    set r | r in Committed(history, key) :: r.id
  }

  lemma {:induction false} DistinctIds(s: seq<Response>)
    requires forall i, j :: 0 <= i < j < |s| ==> s[i].id != s[j].id
    ensures |(set r | r in s :: r.id)| == |s|
  {
    var ids := set r | r in s :: r.id;
    if s != [] {
      var n := |s| - 1;
      DistinctIds(s[..n]);
      var fewer := set r | r in s[..n] :: r.id;
      assert s == s[..n] + [s[n]];
      assert ids == fewer + {s[n].id};
      assert s[n].id !in fewer;
    }
  }

  lemma IndexOf(s: seq<Response>, id: Id) returns (i: nat)
    requires exists r :: r in s && r.id == id
    ensures i < |s| && s[i].id == id
  {
    var r :| r in s && r.id == id;
    i :| 0 <= i < |s| && s[i] == r;
  }

  lemma KeyCountsItsRows(s: State, key: Key)
    requires Ledger(s)
    ensures RowsUnder(s.history, key) <= s.db.rows.Keys
    ensures |RowsUnder(s.history, key)| == |Committed(s.history, key)|
  {
    var mine := Committed(s.history, key);
    forall i, j | 0 <= i < j < |mine| ensures mine[i].id != mine[j].id {
      assert IssuedAt(s.history, key, i, mine[i].id);
      assert IssuedAt(s.history, key, j, mine[j].id);
    }
    DistinctIds(mine);
    forall r | r in mine ensures r.id in s.db.rows {
      assert SameOrigin(s.db, r);
    }
  }

  lemma OneKeyPerRow(s: State, k: Key, key: Key, id: Id)
    requires Ledger(s) && id in RowsUnder(s.history, k) && id in RowsUnder(s.history, key)
    ensures k == key
  {
    var i := IndexOf(Committed(s.history, k), id);
    var j := IndexOf(Committed(s.history, key), id);
    assert IssuedAt(s.history, k, i, id);
    assert IssuedAt(s.history, key, j, id);
  }

  lemma SomeKeyPerRow(s: State, id: Id) returns (key: Key)
    requires Ledger(s) && id in s.db.rows
    ensures id in RowsUnder(s.history, key)
  {
    assert Issued(s.history, id);
    var k, i: nat :| IssuedAt(s.history, k, i, id);
    assert Committed(s.history, k)[i] in Committed(s.history, k);
    key := k;
  }

  /**
    Conservation: in every reachable state the rows are exactly the records committed under
    the keys, no row under two keys or twice under one; so counting commits under a key
    counts its rows.
  */
  lemma RowsBelongToOneKey(s: State, key: Key, id: Id)
    requires Reachable(s)
    ensures RowsUnder(s.history, key) <= s.db.rows.Keys
    ensures |RowsUnder(s.history, key)| == |Committed(s.history, key)|
    ensures id in s.db.rows ==> exists k :: id in RowsUnder(s.history, k)
    ensures forall k | id in RowsUnder(s.history, k) && id in RowsUnder(s.history, key) :: k == key
  {
    ReachableKnown(s);
    KeyCountsItsRows(s, key);
    if id in s.db.rows {
      var k := SomeKeyPerRow(s, id);
    }
    forall k | id in RowsUnder(s.history, k) && id in RowsUnder(s.history, key) ensures k == key {
      OneKeyPerRow(s, k, key, id);
    }
  }

  /** A request that has answered with a task. */
  predicate Succeeded(s: State, pid: Pid) {
    pid in s.creates && s.creates[pid].pc.Replied? && s.creates[pid].pc.reply.Ok?
  }

  /**
    Every successful reply is the version-1 response of a record committed under its key,
    whatever faults occurred and whatever edits hit the task meanwhile.
  */
  lemma RepliesAreRecords(s: State, pid: Pid)
    requires Reachable(s)
    requires Succeeded(s, pid)
    ensures var r := s.creates[pid].pc.reply.resp;
            && r in Committed(s.history, s.creates[pid].key)
            && r.version == 1 && r.id in s.db.rows
            && r.creator == s.db.rows[r.id].task.creator && r.team == s.db.rows[r.id].task.team
  {
    ReachableKnown(s);
    assert CreateKnown(s.history, s.creates[pid]);
    assert SameOrigin(s.db, s.creates[pid].pc.reply.resp);
  }

  /**
    Replay stability: under the no-fault hypotheses, as soon as one request for a key has
    succeeded the key has exactly one record, and every successful reply for it, be it the
    lock holder's, a second-lookup hit or a polling waiter's, is that record's response.
  */
  lemma RepliesAreStable(s: State, p: Pid, q: Pid)
    requires Reachable(s)
    requires Succeeded(s, p) && Succeeded(s, q)
    requires s.creates[p].key == s.creates[q].key
    requires FaultsOf(s, s.creates[p].key) == NONE
    ensures s.creates[p].pc.reply == s.creates[q].pc.reply
    ensures Committed(s.history, s.creates[p].key) == [s.creates[p].pc.reply.resp]
  {
    RepliesAreRecords(s, p);
    RepliesAreRecords(s, q);
    AtMostOneRecord(s, s.creates[p].key);
    OnlyElement(Committed(s.history, s.creates[p].key),
                s.creates[p].pc.reply.resp, s.creates[q].pc.reply.resp);
  }

  lemma OnlyElement(s: seq<Response>, a: Response, b: Response)
    requires |s| <= 1 && a in s && b in s
    ensures a == b && s == [a]
  {
  }

  /** A reply, once given, is never taken back or changed. */
  lemma RepliesArePermanent(s: State, s': State, pid: Pid)
    requires Leads(s, s') && Succeeded(s, pid)
    ensures pid in s'.creates && s'.creates[pid] == s.creates[pid]
  {
    var events :| RunFrom(s, events) == s';
    RunFromKeepsReply(s, events, pid);
  }

  lemma {:induction false} RunFromKeepsReply(s: State, events: seq<Event>, pid: Pid)
    requires pid in s.creates && s.creates[pid].pc.Replied?
    ensures pid in RunFrom(s, events).creates && RunFrom(s, events).creates[pid] == s.creates[pid]
    decreases |events|
  {
    if events != [] {
      RepliedStays(s, events[0], pid);
      RunFromKeepsReply(Step(s, events[0]), events[1..], pid);
    }
  }

  lemma RepliedStays(s: State, e: Event, pid: Pid)
    requires pid in s.creates && s.creates[pid].pc.Replied?
    ensures pid in Step(s, e).creates && Step(s, e).creates[pid] == s.creates[pid]
  {
  }
}
