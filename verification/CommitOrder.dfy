/**
  Who commits, how often and in which order: every request, of any kind, commits at most
  once, every edit that reports success has committed, and the commits of requests that do
  not overlap in time stand in the serial run in the order of the requests.
*/
module CommitOrder {
  import opened TaskDb
  import opened Engine
  import opened Concurrency
  import opened RealTime

  datatype Who = Creator(pid: Pid) | Editor(pid: Pid)

  /** The record is of a transaction of this request. */
  predicate Made(r: Record, who: Who) {
    && r.pid == who.pid
    && match who
       case Creator(_) => r.op.Created?
       case Editor(_) => r.op.Edited?
  }

  predicate Submitted(s: State, who: Who) {
    match who
    case Creator(pid) => pid in s.creates
    case Editor(pid) => pid in s.edits
  }

  /** The request is past its transaction, or will never run one. */
  predicate Settled(s: State, who: Who) {
    && Submitted(s, who)
    && match who
       case Creator(pid) =>
         var pc := s.creates[pid].pc;
         pc.Saving? || pc.Releasing? || pc.Replied? || pc.Crashed?
       case Editor(pid) => s.edits[pid].pc.Answered?
  }

  // ---- one event ---------------------------------------------------------------------------

  lemma SettledStays(s: State, e: Event, who: Who)
    requires Settled(s, who)
    ensures Settled(Step(s, e), who)
  {
  }

  lemma SubmittedStays(s: State, e: Event, who: Who)
    requires Submitted(s, who)
    ensures Submitted(Step(s, e), who)
  {
  }

  /** A request that commits had not settled before, and has settled then. */
  lemma CommittingSettles(s: State, e: Event, who: Who)
    requires |Step(s, e).history| > |s.history| && Made(Step(s, e).history[|s.history|], who)
    ensures Submitted(s, who) && !Settled(s, who) && Settled(Step(s, e), who)
  {
  }

  // ---- every run ---------------------------------------------------------------------------

  /** Whoever has committed has settled, and has committed once. */
  ghost predicate Ordered(s: State) {
    && (forall i, who | 0 <= i < |s.history| && Made(s.history[i], who) :: Settled(s, who))
    && (forall i, j, who | 0 <= i < j < |s.history| && Made(s.history[i], who) :: !Made(s.history[j], who))
  }

  lemma StepOrdered(s: State, e: Event)
    requires Ordered(s)
    ensures Ordered(Step(s, e))
  {
    var s' := Step(s, e);
    HistoryGrows(s, e);
    forall i, who | 0 <= i < |s'.history| && Made(s'.history[i], who) ensures Settled(s', who) {
      if i < |s.history| {
        SettledStays(s, e, who);
      } else {
        CommittingSettles(s, e, who);
      }
    }
    forall i, j, who | 0 <= i < j < |s'.history| && Made(s'.history[i], who) ensures !Made(s'.history[j], who) {
      if j == |s.history| && Made(s'.history[j], who) {
        CommittingSettles(s, e, who);
      }
    }
  }

  lemma {:induction false} RunOrdered(events: seq<Event>)
    ensures Ordered(Run(events))
  {
    if events != [] {
      RunOrdered(events[..|events| - 1]);
      StepOrdered(Run(events[..|events| - 1]), events[|events| - 1]);
    }
  }

  /** A settled request commits no more. */
  lemma {:induction false} NoLaterCommits(s: State, events: seq<Event>, who: Who, i: nat)
    requires Settled(s, who) && |s.history| <= i < |RunFrom(s, events).history|
    ensures !Made(RunFrom(s, events).history[i], who)
    decreases |events|
  {
    if events != [] {
      var s1 := Step(s, events[0]);
      SettledStays(s, events[0], who);
      HistoryGrows(s, events[0]);
      LongerRun(s1, events[1..]);
      if i < |s1.history| {
        if Made(s1.history[i], who) {
          CommittingSettles(s, events[0], who);
        }
      } else {
        NoLaterCommits(s1, events[1..], who, i);
      }
    }
  }

  /** In every reachable state each request has committed at most once. */
  lemma CommitsOnce(s: State, who: Who, i: nat, j: nat)
    requires Reachable(s)
    requires i < |s.history| && j < |s.history| && Made(s.history[i], who) && Made(s.history[j], who)
    ensures i == j
  {
    var events :| Run(events) == s;
    RunOrdered(events);
  }

  /**
    Real-time order of all commits, creates, updates, assignments and deletes alike, whatever
    their replies: what a request committed that had settled (in particular, was answered)
    before another was submitted comes first in the serial run.
  */
  lemma CommitsKeepRealTime(s: State, s': State, p: Who, q: Who, i: nat, j: nat)
    requires Reachable(s) && Leads(s, s')
    requires Settled(s, p) && !Submitted(s, q)
    requires i < |s'.history| && Made(s'.history[i], p)
    requires j < |s'.history| && Made(s'.history[j], q)
    ensures i < |s.history| <= j
  {
    var events :| RunFrom(s, events) == s';
    LongerRun(s, events);
    if i >= |s.history| {
      NoLaterCommits(s, events, p, i);
    }
    if j < |s.history| {
      NoEarlierCommits(s, q, j);
    }
  }

  /** A request does not commit before it is submitted. */
  lemma NoEarlierCommits(s: State, who: Who, j: nat)
    requires Reachable(s) && !Submitted(s, who) && j < |s.history|
    ensures !Made(s.history[j], who)
  {
    var events :| Run(events) == s;
    RunOrdered(events);
    assert Made(s.history[j], who) ==> Settled(s, who);
  }

  // ---- success means commit ----------------------------------------------------------------

  ghost predicate HasRecord(history: seq<Record>, pid: Pid, p: EditProc) {
    exists i :: 0 <= i < |history| && history[i] == Record(pid, Edited(p.caller, p.call))
  }

  ghost predicate Recorded(s: State) {
    forall pid :: pid in s.edits && s.edits[pid].pc.Answered? && !s.edits[pid].pc.reply.Fail? ==>
      HasRecord(s.history, pid, s.edits[pid])
  }

  lemma LongerHistoryHasRecord(h: seq<Record>, h': seq<Record>, pid: Pid, p: EditProc)
    requires h <= h' && HasRecord(h, pid, p)
    ensures HasRecord(h', pid, p)
  {
    var i :| 0 <= i < |h| && h[i] == Record(pid, Edited(p.caller, p.call));
    assert h'[i] == h[i];
  }

  lemma SuccessTakesEffect(s: State, pid: Pid, fault: Fault)
    requires WellFormed(s) && pid in s.edits && s.edits[pid].pc.Ready?
    ensures var s' := Step(s, MoveEdit(pid, RunWrite(fault)));
            !s'.edits[pid].pc.reply.Fail? ==> HasRecord(s'.history, pid, s'.edits[pid])
  {
    var p := s.edits[pid];
    var s' := Step(s, MoveEdit(pid, RunWrite(fault)));
    if !s'.edits[pid].pc.reply.Fail? {
      assert TookEffect(s.db, s'.db);
      assert s'.history[|s.history|] == Record(pid, Edited(p.caller, p.call));
    }
  }

  lemma StepRecorded(s: State, e: Event)
    requires WellFormed(s) && Recorded(s)
    ensures Recorded(Step(s, e))
  {
    var s' := Step(s, e);
    HistoryGrows(s, e);
    forall pid | pid in s'.edits && s'.edits[pid].pc.Answered? && !s'.edits[pid].pc.reply.Fail?
      ensures HasRecord(s'.history, pid, s'.edits[pid])
    {
      if pid !in s.edits {
        SubmissionsFail(s, e, pid);
      } else if s'.edits[pid] == s.edits[pid] {
        LongerHistoryHasRecord(s.history, s'.history, pid, s.edits[pid]);
      } else {
        OnlyWritesSucceed(s, e, pid);
        SuccessTakesEffect(s, pid, e.editMove.txFault);
      }
    }
  }

  lemma SubmissionsFail(s: State, e: Event, pid: Pid)
    requires pid !in s.edits && pid in Step(s, e).edits
    ensures var pc := Step(s, e).edits[pid].pc;
            pc.Answered? ==> pc.reply.Fail?
  {
  }

  lemma OnlyWritesSucceed(s: State, e: Event, pid: Pid)
    requires pid in s.edits && pid in Step(s, e).edits && Step(s, e).edits[pid] != s.edits[pid]
    requires Step(s, e).edits[pid].pc.Answered? && !Step(s, e).edits[pid].pc.reply.Fail?
    ensures e.MoveEdit? && e.pid == pid && e.editMove.RunWrite? && s.edits[pid].pc.Ready?
  {
  }

  lemma {:induction false} RunRecorded(events: seq<Event>)
    ensures Recorded(Run(events))
  {
    if events != [] {
      RunRecorded(events[..|events| - 1]);
      RunWellFormed(events[..|events| - 1]);
      StepRecorded(Run(events[..|events| - 1]), events[|events| - 1]);
    }
  }

  /** Every update, assignment or delete that reports success has committed, exactly once. */
  lemma SuccessesHaveCommitted(s: State, pid: Pid) returns (i: nat)
    requires Reachable(s)
    requires pid in s.edits && s.edits[pid].pc.Answered? && !s.edits[pid].pc.reply.Fail?
    ensures i < |s.history| && s.history[i] == Record(pid, Edited(s.edits[pid].caller, s.edits[pid].call))
    ensures forall j :: 0 <= j < |s.history| && Made(s.history[j], Editor(pid)) ==> j == i
  {
    var events :| Run(events) == s;
    RunRecorded(events);
    assert HasRecord(s.history, pid, s.edits[pid]);
    i :| 0 <= i < |s.history| && s.history[i] == Record(pid, Edited(s.edits[pid].caller, s.edits[pid].call));
    RunOrdered(events);
  }
}
