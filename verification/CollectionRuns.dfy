/** The per-source collection lock and the collection_runs table. */
module CollectionRuns {
  import opened Common

  const DEFAULT_LOCK_TTL: Time := 600_000_000_000
  const DEFAULT_STALE_RUN_TIMEOUT: Time := 1_800_000_000_000

  /** A lock key's value: the holder's token, gone at `expiresAt`. */
  datatype Held = Held(token: string, expiresAt: Time)

  type Keys = map<int, Held>

  predicate Free(keys: Keys, sourceId: int, now: Time) {
    sourceId !in keys || keys[sourceId].expiresAt <= now
  }

  function EffectiveTTL(ttl: Time): Time {
    if ttl <= 0 then DEFAULT_LOCK_TTL else ttl
  }

  /** GET == token, then DEL, in one script. */
  function Released(keys: Keys, sourceId: int, token: string, now: Time): Keys {
    if !Free(keys, sourceId, now) && keys[sourceId].token == token then keys - {sourceId} else keys
  }

  class RedisCollectionLock {
    var keys: Keys

    constructor ()
      ensures keys == map[]
    {
      keys := map[];
    }

    /** SET NX with a TTL; `token` is a fresh UUID. */
    method Acquire(sourceId: int, ttl: Time, token: string, now: Time) returns (acquired: bool)
      modifies this
      ensures acquired <==> sourceId !in old(keys) || now >= old(keys)[sourceId].expiresAt
      ensures acquired ==>
                keys == old(keys)[sourceId := Held(token, now + if ttl > 0 then ttl else DEFAULT_LOCK_TTL)]
      ensures acquired ==> keys == old(keys)[sourceId := Held(token, now + EffectiveTTL(ttl))]
      ensures acquired <==> Free(old(keys), sourceId, now)
      ensures !acquired ==> keys == old(keys)
    {
      if !Free(keys, sourceId, now) {
        return false;
      }
      keys := keys[sourceId := Held(token, now + if ttl <= 0 then DEFAULT_LOCK_TTL else ttl)];
      return true;
    }

    method Release(sourceId: int, token: string, now: Time)
      modifies this
      ensures keys == Released(old(keys), sourceId, token, now)
      ensures keys - {sourceId} == old(keys) - {sourceId}
      ensures sourceId in keys && now < keys[sourceId].expiresAt ==> keys[sourceId].token != token
      ensures keys != old(keys) ==>
                sourceId in old(keys) && old(keys)[sourceId].token == token && now < old(keys)[sourceId].expiresAt
    {
      if !Free(keys, sourceId, now) && keys[sourceId].token == token {
        keys := keys - {sourceId};
      }
    }
  }

  datatype RunStatus = Running | Success | Failed

  datatype CollectionRun = CollectionRun(
    sourceId: int,
    status: RunStatus,
    startedAt: Time,
    finishedAt: Option<Time>,
    fetched: int,
    inserted: int,
    duplicated: int,
    message: string,
    createdAt: Time)

  /** Run i has id i. */
  type Runs = seq<CollectionRun>

  datatype Completion = Completion(
    status: RunStatus, at: Time, fetched: int, inserted: int, duplicated: int, message: string)

  function NewRun(sourceId: int, at: Time): CollectionRun {
    CollectionRun(sourceId, Running, at, None, 0, 0, 0, "", at)
  }

  /** Finish writes by id only: it does not look at the status it replaces. */
  function Finished(r: CollectionRun, f: Completion): CollectionRun {
    r.(status := f.status, finishedAt := Some(f.at), fetched := f.fetched, inserted := f.inserted,
       duplicated := f.duplicated, message := f.message)
  }

  predicate Stale(r: CollectionRun, sourceId: int, startedBefore: Time) {
    r.sourceId == sourceId && r.status.Running? && r.startedAt < startedBefore
  }

  function SweptRun(r: CollectionRun, at: Time, message: string): CollectionRun {
    r.(status := Failed, finishedAt := Some(at), message := message)
  }

  function Swept(runs: Runs, sourceId: int, startedBefore: Time, at: Time, message: string): (r: Runs)
    ensures |r| == |runs|
  {
    seq(|runs|, i requires 0 <= i < |runs| =>
      if Stale(runs[i], sourceId, startedBefore) then SweptRun(runs[i], at, message) else runs[i])
  }

  function StaleIds(runs: Runs, sourceId: int, startedBefore: Time): set<nat> {
    set i | 0 <= i < |runs| && Stale(runs[i], sourceId, startedBefore)
  }

  class RunRepository {
    var runs: Runs

    constructor ()
      ensures runs == []
    {
      runs := [];
    }

    method Create(sourceId: int, at: Time) returns (id: nat)
      modifies this
      ensures id == |old(runs)| && runs == old(runs) + [NewRun(sourceId, at)]
      ensures runs[id].sourceId == sourceId && runs[id].status.Running? && runs[id].startedAt == at
      ensures runs[id].finishedAt.None? && runs[id].createdAt == at && runs[id].message == ""
      ensures runs[id].fetched == runs[id].inserted == runs[id].duplicated == 0
    {
      id := |runs|;
      runs := runs + [NewRun(sourceId, at)];
    }

    method Finish(id: nat, f: Completion) returns (notFound: bool)
      modifies this
      ensures notFound <==> id >= |old(runs)|
      ensures runs == if notFound then old(runs) else old(runs)[id := Finished(old(runs)[id], f)]
      ensures !notFound ==>
                var was, run := old(runs)[id], runs[id];
                && run.status == f.status && run.finishedAt == Some(f.at) && run.fetched == f.fetched
                && run.inserted == f.inserted && run.duplicated == f.duplicated && run.message == f.message
                && run.sourceId == was.sourceId && run.startedAt == was.startedAt && run.createdAt == was.createdAt
    {
      notFound := id >= |runs|;
      if !notFound {
        runs := runs[id := Finished(runs[id], f)];
      }
    }

    method MarkStaleRunningFailed(sourceId: int, startedBefore: Time, at: Time, message: string) returns (marked: nat)
      modifies this
      ensures runs == Swept(old(runs), sourceId, startedBefore, at, message)
      ensures marked == |StaleIds(old(runs), sourceId, startedBefore)|
      ensures |runs| == |old(runs)|
      ensures forall i :: 0 <= i < |runs| ==>
                var was, run := old(runs)[i], runs[i];
                if was.sourceId == sourceId && was.status.Running? && was.startedAt < startedBefore then
                  run == was.(status := Failed, finishedAt := Some(at), message := message)
                else run == was
    {
      marked := |StaleIds(runs, sourceId, startedBefore)|;
      runs := Swept(runs, sourceId, startedBefore, at, message);
    }
  }
}
