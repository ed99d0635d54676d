/** CollectSource: sweep, lock, run, collect, finalize in one transaction, release. */
module CollectionService {
  import opened Common
  import opened Clocks
  import opened CollectionRuns
  import opened CollectionProtocol
  import opened CollectionSafety
  import Articles

  datatype Source = Source(
    id: int,
    userId: int,
    config: string,
    lastFetchedAt: Option<Time>,
    status: string,
    message: string,
    updatedAt: Time)

  type Sources = map<int, Source>

  predicate CanUpdate(sources: Sources, src: Source) {
    src.id in sources && sources[src.id].userId == src.userId
  }

  function Touched(src: Source, status: string, message: string, at: Time): Source {
    src.(lastFetchedAt := Some(at), status := status, message := message, updatedAt := at)
  }

  /** What the collector did; it may have advanced the source's in-memory configuration. */
  datatype Fetch = Fetched(items: seq<Articles.CollectedItem>, config: string) | FetchFailed(message: string,
        config: string)

  /** Which database and Redis calls fail; a lock that cannot be released stays until it expires. */
  datatype Faults = Faults(
    sweep: bool, lock: bool, release: bool, createRun: bool,
    brokenItem: Option<nat>, finish: bool, update: bool, commit: bool,
    failedFinish: bool, failedUpdate: bool, failedCommit: bool)

  const NO_FAULTS := Faults(false, false, false, false, None, false, false, false, false, false, false)

  datatype Finalization =
    | Done(inserted: nat, duplicated: nat, at: Time)
    | Rejected(message: string, at: Time)
    | Aborted

  datatype Response =
    | SourceNotAccessible
    | SweepFailed
    | CollectorNotFound
    | InProgress
    | LockFailed
    | RunNotCreated
    | Collected(runId: nat, fetched: nat, inserted: nat, duplicated: nat)
    | CollectionFailed(runId: nat, fetched: nat, message: string)
    | FinalizationFailed

  class Service {
    const c: Config
    const p: nat
    const clock: Clock
    const lock: RedisCollectionLock
    const runRepo: RunRepository
    const articleService: Articles.ArticleService
    var sources: Sources
    /** The protocol state these objects represent, and the run that led to it since `origin`. */
    ghost var view: State
    ghost var origin: State
    ghost var trace: seq<Action>

    constructor (c: Config, p: nat, clock: Clock, lock: RedisCollectionLock, runRepo: RunRepository,
                 articleService: Articles.ArticleService, sources: Sources)
      ensures Valid() && this.sources == sources && this.c == c && this.p == p
      ensures view == State(lock.keys, runRepo.runs, clock.now, map[], {}, {})
    {
      this.c, this.p, this.clock, this.lock, this.runRepo := c, p, clock, lock, runRepo;
      this.articleService, this.sources := articleService, sources;
      view := State(lock.keys, runRepo.runs, clock.now, map[], {}, {});
      origin := State(lock.keys, runRepo.runs, clock.now, map[], {}, {});
      trace := [];
    }

    ghost predicate Valid()
      reads this, clock, lock, runRepo
    {
      && view.keys == lock.keys && view.runs == runRepo.runs && view.now == clock.now
      && Reaches(c, origin, trace, view)
    }

    ghost method Take(a: Action)
      requires Reaches(c, origin, trace, view) && Enabled(c, view, a)
      modifies this`view, this`trace
      ensures view == Apply(c, old(view), a) && Reaches(c, origin, trace, view)
    {
      assert (trace + [a])[..|trace|] == trace;
      trace := trace + [a];
      view := Apply(c, view, a);
    }

    method Now() returns (t: Time)
      requires Valid()
      modifies this`view, this`trace, clock
      ensures Valid() && t == view.now >= old(view.now) && view == old(view).(now := t)
    {
      t := clock.Now();
      Take(Tick(t));
    }

    /** One finalization transaction: the run row and the source row are written together or not at all. */
    method WriteOutcome(runId: nat, src: Source, f: Completion, status: string, failsFinish: bool, failsUpdate: bool,
                        failsCommit: bool)
      returns (committed: bool)
      modifies runRepo, this`sources
      ensures committed <==> runId < |old(runRepo.runs)| && CanUpdate(old(sources), src)
                             && !failsFinish && !failsUpdate && !failsCommit
      ensures committed ==> src.id in old(sources) && old(sources)[src.id].userId == src.userId
      ensures src.id in old(sources) && old(sources)[src.id].userId == src.userId && !committed ==>
                runId >= |old(runRepo.runs)| || failsFinish || failsUpdate || failsCommit
      ensures committed ==>
                && runRepo.runs == old(runRepo.runs)[runId := Finished(old(runRepo.runs)[runId], f)]
                && sources == old(sources)[src.id := Touched(src, status, f.message, f.at)]
                && var row := sources[src.id];
                   && row.id == src.id && row.userId == src.userId && row.config == src.config
                   && row.lastFetchedAt == Some(f.at) && row.status == status && row.message == f.message
                   && row.updatedAt == f.at
      ensures !committed ==> runRepo.runs == old(runRepo.runs) && sources == old(sources)
    {
      var runsBefore, sourcesBefore := runRepo.runs, sources;
      committed := false;
      if !failsFinish {
        var notFound := runRepo.Finish(runId, f);
        if !notFound && !failsUpdate && CanUpdate(sources, src) {
          sources := sources[src.id := Touched(src, status, f.message, f.at)];
          committed := !failsCommit;
        }
      }
      if !committed {
        runRepo.runs, sources := runsBefore, sourcesBefore;
      }
    }

    /** finishFailed. */
    method FinishFailed(runId: nat, src: Source, at: Time, fetched: nat, message: string, faults: Faults)
      returns (committed: bool)
      modifies runRepo, this`sources
      ensures committed <==> runId < |old(runRepo.runs)| && CanUpdate(old(sources), src)
                             && !faults.failedFinish && !faults.failedUpdate && !faults.failedCommit
      ensures committed ==>
                && runRepo.runs == old(runRepo.runs)[runId :=
                     Finished(old(runRepo.runs)[runId], Completion(Failed, at, fetched, 0, 0, message))]
                && sources == old(sources)[src.id := Touched(src, "failed", message, at)]
      ensures !committed ==> runRepo.runs == old(runRepo.runs) && sources == old(sources)
    {
      committed := WriteOutcome(runId, src, Completion(Failed, at, fetched, 0, 0, message), "failed",
                                faults.failedFinish, faults.failedUpdate, faults.failedCommit);
    }

    /**
     finishSuccess: articles, run and source commit together. An article error rolls the articles back
     and fails run and source together; any other error leaves all three untouched.
     */
    method FinishSuccess(runId: nat, src: Source, items: seq<Articles.CollectedItem>, stamps: nat -> Time, at: Time,
                         faults: Faults)
      returns (out: Finalization)
      modifies runRepo, articleService, this`sources
      ensures out.Done? ==>
                && out.at == at && |items| == out.inserted + out.duplicated
                && |articleService.articles| == |old(articleService.articles)| + out.inserted
                && old(articleService.articles) <= articleService.articles
                && Articles.Saved(old(articleService.articles), items, stamps)
                   == Some(Articles.Saving(articleService.articles, out.inserted, out.duplicated,
                         articleService.invalidated))
                && Articles.Extends(old(articleService.articles), items, stamps, |items|, articleService.articles)
                && runId < |old(runRepo.runs)|
                && runRepo.runs == old(runRepo.runs)[runId := Finished(old(runRepo.runs)[runId],
                     Completion(Success, at, |items|, out.inserted, out.duplicated, ""))]
                && sources == old(sources)[src.id := Touched(src, "success", "", at)]
      ensures out.Rejected? ==>
                && out.at == at
                && articleService.articles == old(articleService.articles)
                && runId < |old(runRepo.runs)|
                && runRepo.runs == old(runRepo.runs)[runId :=
                     Finished(old(runRepo.runs)[runId], Completion(Failed, at, |items|, 0, 0, out.message))]
                && sources == old(sources)[src.id := Touched(src, "failed", out.message, at)]
      ensures out.Aborted? ==>
                && articleService.articles == old(articleService.articles)
                && runRepo.runs == old(runRepo.runs) && sources == old(sources)
      ensures Articles.Saved(old(articleService.articles), items, stamps).None? ==> !out.Done?
      ensures faults == NO_FAULTS && runId < |old(runRepo.runs)| && CanUpdate(old(sources), src) ==>
                if Articles.Saved(old(articleService.articles), items, stamps).Some? then out.Done? else out.Rejected?
    {
      var articlesBefore := articleService.articles;
      var inserted, duplicated, error := articleService.SaveCollectedItems(items, stamps, faults.brokenItem);
      if error.Some? {
        assert error.value.InvalidItem? || error.value.StorageFailed?;
        articleService.articles := articlesBefore;
        var message := if error == Some(Articles.InvalidItem) then "invalid collected item" else "save collected item";
        var committed := FinishFailed(runId, src, at, |items|, message, faults);
        return if committed then Rejected(message, at) else Aborted;
      }
      Articles.SavedConserves(articlesBefore, items, stamps);
      Articles.SavedStoresNew(articlesBefore, items, stamps, |items|);
      var committed := WriteOutcome(runId, src, Completion(Success, at, |items|, inserted, duplicated, ""), "success",
                                    faults.finish, faults.update, faults.commit);
      if !committed {
        articleService.articles := articlesBefore;
        return Aborted;
      }
      return Done(inserted, duplicated, at);
    }

    /** The sweep's transaction: stale runs and the source row are failed together or not at all. */
    method FailStaleRuns(src: Source, now: Time, fails: bool) returns (failed: bool, swept: Source)
      modifies runRepo, this`sources
      ensures var runs := CollectionRuns.Swept(old(runRepo.runs), src.id, now - c.staleRunTimeout, now,
                                               "collection run timed out");
              && (failed <==> fails || (runs != old(runRepo.runs) && !CanUpdate(old(sources), src)))
              && runRepo.runs == if failed then old(runRepo.runs) else runs
      ensures if runRepo.runs == old(runRepo.runs) then sources == old(sources) && swept == src
              else
                && CanUpdate(old(sources), src) && sources == old(sources)[src.id := swept]
                && swept == Touched(src, "failed", "collection run timed out", now)
    {
      failed, swept := false, src;
      var before := runRepo.runs;
      var marked := runRepo.MarkStaleRunningFailed(src.id, now - c.staleRunTimeout, now, "collection run timed out");
      MarkedIffChanged(before, src.id, now - c.staleRunTimeout, now, "collection run timed out");
      if fails || (marked > 0 && !CanUpdate(sources, src)) {
        runRepo.runs := before;
        return true, src;
      }
      if marked > 0 {
        swept := Touched(src, "failed", "collection run timed out", now);
        sources := sources[src.id := swept];
      }
    }

    /** markStaleRunningRunsFailed, outside the lock. */
    method SweepStaleRuns(src: Source, fails: bool) returns (failed: bool, swept: Source)
      requires Valid() && p !in view.calls
      modifies this`view, this`trace, this`sources, clock, runRepo
      ensures Valid() && view.now >= old(view.now) && view.keys == old(view.keys) && view.issued == old(view.issued)
      ensures swept.id == src.id && swept.userId == src.userId && swept.config == src.config
      ensures failed ==> view.runs == old(view.runs) && sources == old(sources) && view.calls == old(view.calls)
      ensures failed <==>
                && c.staleRunTimeout > 0
                && (fails || (!CanUpdate(old(sources), src)
                              && CollectionRuns.Swept(old(view.runs), src.id, view.now - c.staleRunTimeout, view.now,
                                                      "collection run timed out") != old(view.runs)))
      ensures !failed ==> view.calls == old(view.calls)[p := Ready(src.id)]
      ensures !failed ==>
                if view.runs == old(view.runs) then sources == old(sources) && swept == src
                else CanUpdate(old(sources), src) && sources == old(sources)[src.id := swept]
                     && swept == Touched(src, "failed", "collection run timed out", view.now)
      ensures !failed ==>
                view.runs == if c.staleRunTimeout <= 0 then old(view.runs)
                             else CollectionRuns.Swept(old(view.runs), src.id, view.now - c.staleRunTimeout, view.now,
                                                       "collection run timed out")
    {
      Take(Begin(p, src.id));
      if c.staleRunTimeout <= 0 {
        Take(Sweep(p, view.now, ""));
        return false, src;
      }
      failed, swept := SweepNow(src, fails);
    }

    /** The sweep with a stale timeout. */
    method SweepNow(src: Source, fails: bool) returns (failed: bool, swept: Source)
      requires Valid() && p in view.calls && view.calls[p] == Starting(src.id) && c.staleRunTimeout > 0
      modifies this`view, this`trace, this`sources, clock, runRepo
      ensures Valid() && view.now >= old(view.now) && view.keys == old(view.keys) && view.issued == old(view.issued)
      ensures swept.id == src.id && swept.userId == src.userId && swept.config == src.config
      ensures view.calls == if failed then old(view.calls) - {p} else old(view.calls)[p := Ready(src.id)]
      ensures var runs := CollectionRuns.Swept(old(view.runs), src.id, view.now - c.staleRunTimeout, view.now,
                                               "collection run timed out");
              && (failed <==> fails || (runs != old(view.runs) && !CanUpdate(old(sources), src)))
              && view.runs == if failed then old(view.runs) else runs
      ensures if view.runs == old(view.runs) then sources == old(sources) && swept == src
              else
                && CanUpdate(old(sources), src) && sources == old(sources)[src.id := swept]
                && swept == Touched(src, "failed", "collection run timed out", view.now)
    {
      var now := Now();
      failed, swept := FailStaleRuns(src, now, fails);
      Take(if failed then Stop(p) else Sweep(p, now, "collection run timed out"));
    }

    /** The locked part of CollectSource after the run row exists: collect, then finalize. */
    method CollectAndFinish(runId: nat, src: Source, fetch: Fetch, stamps: nat -> Time, faults: Faults)
      returns (r: Response)
      requires Valid() && p in view.calls && view.calls[p].Collecting? && view.calls[p].runId == runId
      requires view.calls[p].sourceId == src.id && runId < |view.runs|
      modifies this`view, this`trace, this`sources, clock, runRepo, articleService
      ensures Valid() && view.now >= old(view.now) && view.keys == old(view.keys) && |view.runs| == |old(view.runs)|
      ensures view.calls == old(view.calls)[p := Ending(src.id, old(view.calls)[p].token)]
      ensures Finishes(r, runId, src, fetch, stamps, view.now, old(view.runs), view.runs, old(sources), sources,
                       old(articleService.articles), articleService.articles)
      ensures faults == NO_FAULTS && CanUpdate(old(sources), src) ==> r.Collected? || r.CollectionFailed?
    {
      match fetch
      case FetchFailed(message, config) =>
        var at := Now();
        var committed := FinishFailed(runId, src.(config := config), at, 0, message, faults);
        if !committed {
          Take(Fail(p));
          return FinalizationFailed;
        }
        Take(Finish(p, Completion(Failed, at, 0, 0, 0, message)));
        return CollectionFailed(runId, 0, message);
      case Fetched(items, config) =>
        var at := Now();
        var out := FinishSuccess(runId, src.(config := config), items, stamps, at, faults);
        match out
        case Done(inserted, duplicated, _) =>
          Take(Finish(p, Completion(Success, at, |items|, inserted, duplicated, "")));
          return Collected(runId, |items|, inserted, duplicated);
        case Rejected(message, _) =>
          Take(Finish(p, Completion(Failed, at, |items|, 0, 0, message)));
          return CollectionFailed(runId, |items|, message);
        case Aborted =>
          Take(Fail(p));
          return FinalizationFailed;
    }

    /** Under the lock: create the run, collect, finalize. */
    method CollectHeld(src: Source, token: string, fetch: Fetch, stamps: nat -> Time, faults: Faults)
      returns (r: Response)
      requires Valid() && p in view.calls && view.calls[p] == Locked(src.id, token, view.now)
      modifies this`view, this`trace, this`sources, clock, runRepo, articleService
      ensures Valid() && view.now >= old(view.now) && view.keys == old(view.keys)
      ensures view.calls == old(view.calls)[p := Ending(src.id, token)]
      ensures r.Collected? || r.CollectionFailed? || r.FinalizationFailed? || r.RunNotCreated?
      ensures r.RunNotCreated? ==> faults.createRun && view.runs == old(view.runs) && sources == old(sources)
      ensures Tells(r, src.id, fetch, stamps, view.runs, sources, old(articleService.articles), articleService.articles)
      ensures faults == NO_FAULTS && CanUpdate(old(sources), src) ==> r.Collected? || r.CollectionFailed?
    {
      var at := Now();
      if faults.createRun {
        Take(Fail(p));
        return RunNotCreated;
      }
      var runId := runRepo.Create(src.id, at);
      Take(CreateRun(p, at));
      ghost var runs, before := view.runs, sources;
      r := CollectAndFinish(runId, src, fetch, stamps, faults);
      FinishesTells(r, runId, src, fetch, stamps, view.now, runs, view.runs, before, sources,
                    old(articleService.articles), articleService.articles);
    }

    /** From the lock on: acquire, collect, and always release. */
    method CollectLocked(src: Source, token: string, fetch: Fetch, stamps: nat -> Time, faults: Faults)
      returns (r: Response)
      requires Valid() && p in view.calls && view.calls[p] == Ready(src.id) && token !in view.issued
      modifies this`view, this`trace, this`sources, clock, lock, runRepo, articleService
      ensures Valid() && view.now >= old(view.now) && view.calls == old(view.calls) - {p}
      ensures r.LockFailed? <==> faults.lock
      ensures r.InProgress? <==> !faults.lock && !Free(old(view.keys), src.id, old(view.now))
      ensures r.InProgress? || r.LockFailed? || r.RunNotCreated?
            ==> view.runs == old(view.runs) && sources == old(sources)
      ensures r.InProgress? || r.LockFailed? ==> view.keys == old(view.keys)
      ensures r.RunNotCreated? ==> faults.createRun
      ensures HeldLock(r) && !faults.release ==> Free(view.keys, src.id, view.now) || view.keys[src.id].token != token
      ensures r.InProgress? || r.LockFailed? || HeldLock(r)
      ensures Tells(r, src.id, fetch, stamps, view.runs, sources, old(articleService.articles), articleService.articles)
      ensures faults == NO_FAULTS && CanUpdate(old(sources), src)
            ==> r.InProgress? || r.Collected? || r.CollectionFailed?
    {
      if faults.lock {
        Take(Stop(p));
        return LockFailed;
      }
      var acquired := TakeLock(src.id, token);
      if !acquired {
        return InProgress;
      }
      r := CollectHeld(src, token, fetch, stamps, faults);
      GiveBack(src.id, token, faults.release);
    }

    method TakeLock(sourceId: int, token: string) returns (acquired: bool)
      requires Valid() && p in view.calls && view.calls[p] == Ready(sourceId) && token !in view.issued
      modifies this`view, this`trace, lock
      ensures Valid() && view.now == old(view.now) && view.runs == old(view.runs)
      ensures acquired <==> Free(old(view.keys), sourceId, old(view.now))
      ensures acquired ==> view.calls == old(view.calls)[p := Locked(sourceId, token, view.now)]
      ensures !acquired ==> view.keys == old(view.keys) && view.calls == old(view.calls) - {p}
    {
      acquired := lock.Acquire(sourceId, c.lockTTL, token, clock.now);
      Take(Acquire(p, token));
    }

    /** The deferred release; an error is only logged. */
    method GiveBack(sourceId: int, token: string, fails: bool)
      requires Valid() && p in view.calls && view.calls[p] == Ending(sourceId, token)
      modifies this`view, this`trace, lock
      ensures Valid() && view == old(view).(keys := view.keys, calls := old(view).calls - {p})
      ensures view.keys == if fails then old(view.keys) else Released(old(view.keys), sourceId, token, view.now)
    {
      if fails {
        Take(Stop(p));
      } else {
        lock.Release(sourceId, token, clock.now);
        Take(Release(p));
      }
    }

    /** CollectSource once the source was found. */
    method CollectFound(found: Source, token: string, knownType: bool, fetch: Fetch, stamps: nat -> Time,
          faults: Faults)
      returns (r: Response)
      requires Valid() && p !in view.calls && token !in view.issued && CanUpdate(sources, found)
      modifies this`view, this`trace, this`sources, clock, lock, runRepo, articleService
      ensures Valid() && view.calls == old(view.calls) && view.now >= old(view.now)
      ensures !r.SourceNotAccessible? && (r.SweepFailed? <==> c.staleRunTimeout > 0 && faults.sweep)
      ensures Tells(r, found.id, fetch, stamps, view.runs, sources, old(articleService.articles),
            articleService.articles)
      ensures if HeldLock(r) then
                !faults.release ==> Free(view.keys, found.id, view.now) || view.keys[found.id].token != token
              else view.keys == old(view.keys)
      ensures faults == NO_FAULTS ==> r.Collected? || r.CollectionFailed? || r.InProgress? || r.CollectorNotFound?
    {
      var failed, src := SweepStaleRuns(found, faults.sweep);
      if failed {
        return SweepFailed;
      }
      if !knownType {
        Take(Stop(p));
        return CollectorNotFound;
      }
      r := CollectLocked(src, token, fetch, stamps, faults);
    }

    /**
     CollectSource executed alone: a run of the collection protocol, with all-or-nothing finalization
     and its own lock given back whatever happened after it was acquired.
     */
    method CollectSource(userId: int, sourceId: int, token: string, knownType: bool, fetch: Fetch,
                         stamps: nat -> Time, faults: Faults)
      returns (r: Response)
      requires Valid() && p !in view.calls && token !in view.issued
      requires forall id :: id in sources ==> sources[id].id == id
      modifies this`view, this`trace, this`origin, this`sources, clock, lock, runRepo, articleService
      ensures Valid() && origin == old(view) && view.calls == old(view.calls) && view.now >= old(view.now)
      ensures r.SourceNotAccessible? <==> !(sourceId in old(sources) && old(sources)[sourceId].userId == userId)
      ensures r.SourceNotAccessible? ==> view == old(view)
      ensures r.SweepFailed? <==> !r.SourceNotAccessible? && c.staleRunTimeout > 0 && faults.sweep
      ensures Tells(r, sourceId, fetch, stamps, view.runs, sources, old(articleService.articles),
            articleService.articles)
      ensures if HeldLock(r) then
                !faults.release ==> Free(view.keys, sourceId, view.now) || view.keys[sourceId].token != token
              else view.keys == old(view.keys)
      ensures faults == NO_FAULTS && !r.SourceNotAccessible? ==>
                r.Collected? || r.CollectionFailed? || r.InProgress? || r.CollectorNotFound?
    {
      origin, trace := view, [];
      if sourceId !in sources || sources[sourceId].userId != userId {
        return SourceNotAccessible;
      }
      r := CollectFound(sources[sourceId], token, knownType, fetch, stamps, faults);
    }
  }

  /** The responses of a call that held the lock. */
  predicate HeldLock(r: Response) {
    r.Collected? || r.CollectionFailed? || r.FinalizationFailed? || r.RunNotCreated?
  }

  /**
   What a response says about the tables: the counters of a success, the message of a failure, no articles
   otherwise.
   */
  ghost predicate Tells(r: Response, sourceId: int, fetch: Fetch, stamps: nat -> Time, runs: Runs, sources: Sources,
                        articles: Articles.Table, articles': Articles.Table)
  {
    && (r.Collected? ==>
          && fetch.Fetched? && r.fetched == |fetch.items| == r.inserted + r.duplicated
          && Stored(fetch.items, stamps, articles, articles') && |articles'| == |articles| + r.inserted
          && r.inserted == |Articles.NewItems(articles, fetch.items, |fetch.items|)|
          && r.runId < |runs| && runs[r.runId].status.Success? && runs[r.runId].fetched == r.fetched
          && runs[r.runId].inserted == r.inserted && runs[r.runId].duplicated == r.duplicated
          && sourceId in sources && sources[sourceId].status == "success" && sources[sourceId].config == fetch.config)
    && (r.CollectionFailed? ==>
          && r.runId < |runs| && runs[r.runId].status.Failed? && runs[r.runId].message == r.message
          && (fetch.FetchFailed? ==> r.message == fetch.message)
          && sourceId in sources && sources[sourceId].status == "failed" && sources[sourceId].message == r.message
          && sources[sourceId].config == fetch.config)
    && (!r.Collected? ==> articles' == articles)
  }

  /** The articles table after this batch was saved. */
  ghost predicate Stored(items: seq<Articles.CollectedItem>, stamps: nat -> Time, articles: Articles.Table,
                         articles': Articles.Table)
  {
    && Articles.Saved(articles, items, stamps).Some?
    && Articles.Saved(articles, items, stamps).value.articles == articles'
    && Articles.Extends(articles, items, stamps, |items|, articles')
  }

  lemma FinishesTells(r: Response, runId: nat, src: Source, fetch: Fetch, stamps: nat -> Time, at: Time, runs: Runs,
                      runs': Runs, sources: Sources, sources': Sources, articles: Articles.Table,
                            articles': Articles.Table)
    requires Finishes(r, runId, src, fetch, stamps, at, runs, runs', sources, sources', articles, articles')
    ensures Tells(r, src.id, fetch, stamps, runs', sources', articles, articles')
  {
    if r.Collected? {
      Articles.SavedConserves(articles, fetch.items, stamps);
      Articles.SavedStoresNew(articles, fetch.items, stamps, |fetch.items|);
    }
  }

  /** Articles, run and source after the locked part of a collection, for each way it can end. */
  ghost predicate Finishes(r: Response, runId: nat, src: Source, fetch: Fetch, stamps: nat -> Time, at: Time,
        runs: Runs,
                           runs': Runs, sources: Sources, sources': Sources, articles: Articles.Table,
                           articles': Articles.Table)
  {
    && |runs'| == |runs| && runId < |runs|
    && (r.Collected? || r.CollectionFailed? || r.FinalizationFailed?)
    && (r.Collected? ==>
          && fetch.Fetched? && r.runId == runId && r.fetched == |fetch.items| == r.inserted + r.duplicated
          && Stored(fetch.items, stamps, articles, articles') && |articles'| == |articles| + r.inserted
          && runs' == runs[runId := Finished(runs[runId], Completion(Success, at, r.fetched, r.inserted,
                r.duplicated, ""))]
          && sources' == sources[src.id := Touched(src.(config := fetch.config), "success", "", at)])
    && (r.CollectionFailed? ==>
          && r.runId == runId && articles' == articles
          && (if fetch.Fetched? then r.fetched == |fetch.items| else r.fetched == 0 && r.message == fetch.message)
          && runs' == runs[runId := Finished(runs[runId], Completion(Failed, at, r.fetched, 0, 0, r.message))]
          && sources' == sources[src.id := Touched(src.(config := fetch.config), "failed", r.message, at)])
    && (r.FinalizationFailed? ==> articles' == articles && runs' == runs && sources' == sources)
  }

  lemma MarkedIffChanged(runs: Runs, sourceId: int, before: Time, at: Time, message: string)
    ensures |StaleIds(runs, sourceId, before)| == 0
          <==> CollectionRuns.Swept(runs, sourceId, before, at, message) == runs
  {
    var swept := CollectionRuns.Swept(runs, sourceId, before, at, message);
    if StaleIds(runs, sourceId, before) != {} {
      var i :| i in StaleIds(runs, sourceId, before);
      assert swept[i] != runs[i];
    } else {
      forall i | 0 <= i < |runs| ensures swept[i] == runs[i] {
        assert i !in StaleIds(runs, sourceId, before);
      }
    }
  }
}
