/**
  The fault counters of the create protocol count faults: what happens in a run is counted
  only when the environment fails a request, and so the bound on records can be read off the
  events of the run.
*/
module FaultEvents {
  import opened Tasks
  import opened TaskDb
  import opened IdempotencyStore
  import opened Engine
  import opened OnceOnly

  /** Four kinds of events: lock expiries and evictions of a key, lost commits or saves, failed lookups. */
  datatype Kind = Expiry(key: Key) | Eviction(key: Key) | Loss | Blindness

  /**
    A loss is a create transaction that reports failure, a save that reports failure, or a crash;
    blindness is a failed second lookup.
  */
  predicate IsOf(e: Event, kind: Kind) {
    match kind
    case Expiry(key) => e == LockExpires(key)
    case Eviction(key) => e == CacheExpires(key)
    case Loss =>
      || e.Crash?
      || (e.MoveCreate? && e.createMove.Commit? && e.createMove.txFault == Unacknowledged)
      || (e.MoveCreate? && e.createMove.SaveReply? && e.createMove.saveFault != Delivered)
    case Blindness => e.MoveCreate? && e.createMove == SecondLookup(true)
  }

  function Count(events: seq<Event>, kind: Kind): nat {
    if events == [] then 0
    else Count(events[..|events| - 1], kind) + if IsOf(events[|events| - 1], kind) then 1 else 0
  }

  function One(b: bool): nat {
    if b then 1 else 0
  }

  /** One event moves each counter by at most one, and only if it is of the counter's kind. */
  lemma StepCountsFaults(s: State, e: Event, key: Key)
    ensures var f, f' := FaultsOf(s, key), FaultsOf(Step(s, e), key);
            && f'.expiries <= f.expiries + One(IsOf(e, Expiry(key)))
            && f'.evictions <= f.evictions + One(IsOf(e, Eviction(key)))
            && f'.lostSaves <= f.lostSaves + One(IsOf(e, Loss))
            && f'.masked <= f.masked + One(IsOf(e, Blindness))
  {
    if e.MoveCreate? && e.pid in s.creates {
      MovesCountFaults(s, e.pid, e.createMove, key);
    }
  }

  lemma MovesCountFaults(s: State, pid: Pid, m: CreateMove, key: Key)
    requires pid in s.creates
    ensures var f, f' := FaultsOf(s, key), FaultsOf(AfterCreateMove(s, pid, m), key);
            && f'.expiries == f.expiries && f'.evictions == f.evictions
            && f'.lostSaves <= f.lostSaves + One(IsOf(MoveCreate(pid, m), Loss))
            && f'.masked <= f.masked + One(IsOf(MoveCreate(pid, m), Blindness))
  {
    MovesLoseOnlyByFault(s.db, s.redis, s.creates[pid], m);
  }

  lemma MovesLoseOnlyByFault(db: Db, redis: Redis, p: CreateProc, m: CreateMove)
    ensures var moved := CreateStep(db, redis, p, m);
            && (TookEffect(db, moved.db) && !moved.pc.Saving? ==> m.Commit? && m.txFault == Unacknowledged)
            && (p.pc.Saving? && moved.pc.Releasing? && !moved.pc.pending.Ok? ==>
                  m.SaveReply? && m.saveFault != Delivered)
            && (p.pc.Locked? && moved.pc.Admitted? && p.key in redis.cache ==> m == SecondLookup(true))
  {
  }

  lemma {:induction false} FaultsAreCounted(events: seq<Event>, key: Key)
    ensures var f := FaultsOf(Run(events), key);
            && f.expiries <= Count(events, Expiry(key)) && f.evictions <= Count(events, Eviction(key))
            && f.lostSaves <= Count(events, Loss) && f.masked <= Count(events, Blindness)
  {
    if events != [] {
      FaultsAreCounted(events[..|events| - 1], key);
      StepCountsFaults(Run(events[..|events| - 1]), events[|events| - 1], key);
    }
  }

  lemma BoundGrows(f: Faults, e: nat, x: nat, l: nat, m: nat)
    requires f.expiries <= e && f.evictions <= x && f.lostSaves <= l && f.masked <= m
    ensures (1 + f.expiries) * (1 + f.evictions) + f.lostSaves + f.masked <= (1 + e) * (1 + x) + l + m
  {
    assert (1 + f.expiries) * (1 + f.evictions) <= (1 + e) * (1 + f.evictions);
    assert (1 + e) * (1 + f.evictions) <= (1 + e) * (1 + x);
  }

  /** The run ends in this state. */
  ghost predicate EndsIn(events: seq<Event>, s: State) {
    Run(events) == s
  }

  lemma CountersWithin(events: seq<Event>, s: State, key: Key)
    requires EndsIn(events, s)
    ensures Reachable(s)
    ensures var f := FaultsOf(s, key);
            && f.expiries <= Count(events, Expiry(key)) && f.evictions <= Count(events, Eviction(key))
            && f.lostSaves <= Count(events, Loss) && f.masked <= Count(events, Blindness)
  {
    FaultsAreCounted(events, key);
  }

  lemma RecordsWithin(s: State, key: Key, e: nat, x: nat, l: nat, m: nat)
    requires Reachable(s)
    requires var f := FaultsOf(s, key);
             f.expiries <= e && f.evictions <= x && f.lostSaves <= l && f.masked <= m
    ensures |Committed(s.history, key)| <= (1 + e) * (1 + x) + l + m
  {
    ReachableWithin(s, key);
    TallyWithin(TallyOf(s, key), e, x, l, m);
  }

  lemma TallyWithin(t: Tally, e: nat, x: nat, l: nat, m: nat)
    requires Within(t)
    requires t.faults.expiries <= e && t.faults.evictions <= x && t.faults.lostSaves <= l && t.faults.masked <= m
    ensures t.commits <= (1 + e) * (1 + x) + l + m
  {
    WithinBound(t);
    BoundGrows(t.faults, e, x, l, m);
  }

  /**
    The bound in terms of what happens: the records a run leaves under a key number at most
    (1 + lock expiries of the key) * (1 + evictions of the key) + lost commits, saves and
    crashes + failed second lookups.
  */
  lemma RecordsPerKeyByEvents(events: seq<Event>, s: State, key: Key)
    requires EndsIn(events, s)
    ensures |Committed(s.history, key)|
            <= (1 + Count(events, Expiry(key))) * (1 + Count(events, Eviction(key)))
               + Count(events, Loss) + Count(events, Blindness)
  {
    CountersWithin(events, s, key);
    RecordsWithin(s, key, Count(events, Expiry(key)), Count(events, Eviction(key)),
                  Count(events, Loss), Count(events, Blindness));
  }

  /** The run has none of the events that the key's counters count. */
  predicate Smooth(events: seq<Event>, key: Key) {
    forall e :: e in events ==>
      !IsOf(e, Expiry(key)) && !IsOf(e, Eviction(key)) && !IsOf(e, Loss) && !IsOf(e, Blindness)
  }

  /** A run without such events leaves at most one record under the key. */
  lemma SmoothRunsLeaveOneRecord(events: seq<Event>, s: State, key: Key)
    requires EndsIn(events, s) && Smooth(events, key)
    ensures |Committed(s.history, key)| <= 1
  {
    NoneCounted(events, key);
    CountersWithin(events, s, key);
    var f := FaultsOf(s, key);
    assert f == Faults(f.expiries, f.lostSaves, f.masked, f.evictions);
    AtMostOneRecord(s, key);
  }

  lemma NoneCounted(events: seq<Event>, key: Key)
    requires Smooth(events, key)
    ensures Count(events, Expiry(key)) == Count(events, Eviction(key)) == 0
    ensures Count(events, Loss) == Count(events, Blindness) == 0
  {
    NothingToCount(events, Expiry(key));
    NothingToCount(events, Eviction(key));
    NothingToCount(events, Loss);
    NothingToCount(events, Blindness);
  }

  lemma {:induction false} NothingToCount(events: seq<Event>, kind: Kind)
    requires forall e :: e in events ==> !IsOf(e, kind)
    ensures Count(events, kind) == 0
  {
    if events != [] {
      NothingToCount(events[..|events| - 1], kind);
    }
  }
}
