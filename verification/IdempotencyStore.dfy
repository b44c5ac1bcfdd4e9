/**
  The idempotency lock and cache (internal/repositories/idempotency_repository.go).
  Time is abstract: an entry whose TTL runs out is removed by a step of the environment.
*/
module IdempotencyStore {
  import opened Prelude
  import opened AppErrors
  import opened Tasks

  datatype Redis = Redis(locks: set<Key>, cache: map<Key, Response>)

  /** A command may be lost, or take effect while its reply is lost. */
  datatype NetFault = Delivered | Lost | ReplyLost

  datatype Lookup = Hit(resp: Response) | Miss | LookupError

  const REDIS_ERROR := Plain(RedisFailure)

  function GetResponse(r: Redis, key: Key, fault: bool): Lookup {
    if fault then LookupError
    else if key in r.cache then Hit(r.cache[key])
    else Miss
  }

  datatype Acquisition = Acquired | Taken | AcquireError

  function Acquire(r: Redis, key: Key, fault: NetFault): (Redis, Acquisition) {
    match fault
    case Lost => (r, AcquireError)
    case ReplyLost => (r.(locks := r.locks + {key}), AcquireError)
    case Delivered => if key in r.locks then (r, Taken) else (r.(locks := r.locks + {key}), Acquired)
  }

  function Release(r: Redis, key: Key, fault: bool): Redis {
    if fault then r else r.(locks := r.locks - {key})
  }

  function Save(r: Redis, key: Key, resp: Response, fault: NetFault): (Redis, Option<Error>) {
    match fault
    case Lost => (r, Some(REDIS_ERROR))
    case ReplyLost => (r.(cache := r.cache[key := resp]), Some(REDIS_ERROR))
    case Delivered => (r.(cache := r.cache[key := resp]), None)
  }

  class IdempotencyRepository {
    var locks: set<Key>
    var cache: map<Key, Response>

    function Value(): Redis
      reads this
    {
      Redis(locks, cache)
    }

    constructor ()
      ensures Value() == Redis({}, map[])
    {
      locks, cache := {}, map[];
    }

    /** SETNX: a false answer never changes the lock. */
    method AcquireIdempotencyLock(key: Key, fault: NetFault) returns (got: Acquisition)
      modifies this`locks
      ensures (Value(), got) == Acquire(old(Value()), key, fault)
      ensures got.Acquired? ==> key !in old(locks) && key in locks
      ensures got.Taken? ==> key in old(locks) && locks == old(locks)
    {
      if fault.Lost? {
        return AcquireError;
      }
      var free := key !in locks;
      if free {
        locks := locks + {key};
      }
      assert free || locks + {key} == locks;
      if fault.ReplyLost? {
        return AcquireError;
      }
      got := if free then Acquired else Taken;
    }

    /** DEL: removes the lock whoever holds it. */
    method ReleaseIdempotencyLock(key: Key, fault: bool)
      modifies this`locks
      ensures Value() == Release(old(Value()), key, fault)
    {
      if !fault {
        locks := locks - {key};
      }
    }

    method GetIdempotencyResponse(key: Key, fault: bool) returns (found: Lookup)
      ensures found == GetResponse(Value(), key, fault)
    {
      if fault {
        return LookupError;
      }
      if key !in cache {
        return Miss;
      }
      return Hit(cache[key]);
    }

    method SaveIdempotencyResponse(key: Key, resp: Response, fault: NetFault) returns (err: Option<Error>)
      modifies this`cache
      ensures (Value(), err) == Save(old(Value()), key, resp, fault)
    {
      if fault.Lost? {
        return Some(REDIS_ERROR);
      }
      cache := cache[key := resp];
      err := if fault.ReplyLost? then Some(REDIS_ERROR) else None;
    }
  }
}
