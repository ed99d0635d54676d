/** Which tasks every drain ends, and a drain that leaves all the others as it found them. */
module WorkerDrain {
  import opened Common
  import opened Events
  import opened JobExecutions
  import opened Text
  import opened WorkerProtocol
  import opened WorkerSafety
  import opened WorkerEffects

  const DONE := Collected(Some(Reply(1, 0, 0, 0)))

  /** At least one claim id for every message still to come. */
  ghost predicate Unused(s: State, claimIds: nat -> string, n: nat) {
    forall i :: i >= n ==> claimIds(i) != "" && claimIds(i) !in s.issued
  }

  /** Worker `w` reads a request for an unclaimable row at time `at`. */
  lemma Skips(c: Config, s: State, w: nat, e: CollectionRequested, claimId: string, at: Time) returns (s': State)
    requires c.hasExecutions && w !in s.workers && RequestedEvent(e) in s.log && ValidEvent(e) && Due(e, at)
    requires s.now <= at && claimId != "" && claimId !in s.issued && !Claimable(s.rows, e, at)
    ensures CanReach(c, s, s') && s' == s.(now := at, issued := s.issued + {claimId})
  {
    StaysPut(c, s);
    OneMoreAction(c, s, s, Tick(at));
    s' := Apply(c, s, Tick(at));
    OneMoreAction(c, s, s', Receive(w, e));
    s' := Apply(c, s', Receive(w, e));
    OneMoreAction(c, s, s', Claim(w, claimId, at));
    s' := Apply(c, s', Claim(w, claimId, at));
    assert s'.workers == s.workers;
  }

  /** Worker `w` claims a row at time `at`. */
  lemma Claims(c: Config, s: State, w: nat, e: CollectionRequested, claimId: string, at: Time) returns (s': State)
    requires c.hasExecutions && w !in s.workers && RequestedEvent(e) in s.log && ValidEvent(e) && Due(e, at)
    requires s.now <= at && claimId != "" && claimId !in s.issued && Claimable(s.rows, e, at)
    ensures CanReach(c, s, s')
    ensures s' == s.(now := at, issued := s.issued + {claimId}, workers := s.workers[w := Claimed(e, claimId)],
                     rows := JobExecutions.Claimed(s.rows, e, claimId, at, at + c.claimTTL))
  {
    StaysPut(c, s);
    OneMoreAction(c, s, s, Tick(at));
    s' := Apply(c, s, Tick(at));
    OneMoreAction(c, s, s', Receive(w, e));
    s' := Apply(c, s', Receive(w, e));
    OneMoreAction(c, s, s', Claim(w, claimId, at));
    s' := Apply(c, s', Claim(w, claimId, at));
    assert s'.workers == s.workers[w := Claimed(e, claimId)];
  }

  /** It then collects, publishes and records, all in one moment. */
  lemma Completes(c: Config, s: State, w: nat, e: CollectionRequested, claimId: string) returns (s': State)
    requires c.hasExecutions && w in s.workers && s.workers[w] == Claimed(e, claimId)
    requires HoldsRow(s.rows, e.taskId, claimId) && s.rows[e.taskId].attempt == e.attempt
    ensures CanReach(c, s, s') && Processed(c, s, s', e, DONE)
    ensures s'.now == s.now && s'.issued == s.issued && s'.workers == s.workers - {w}
    ensures s'.log == s.log + [CompletedFor(e, DONE.reply.value, s.now)]
  {
    StaysPut(c, s);
    OneMoreAction(c, s, s, Collect(w, DONE));
    s' := Apply(c, s, Collect(w, DONE));
    OneMoreAction(c, s, s', SendCompleted(w, s.now));
    s' := Apply(c, s', SendCompleted(w, s.now));
    OneMoreAction(c, s, s', Mark(w, s.now));
    s' := Apply(c, s', Mark(w, s.now));
    assert s'.log[|s.log|..] == [CompletedFor(e, DONE.reply.value, s.now)];
    assert s'.workers == s.workers - {w};
  }

  /** One request, read at exactly time `at` and, if it may be claimed, collected with success. */
  lemma HandlesAt(c: Config, s: State, w: nat, e: CollectionRequested, claimId: string, at: Time,
                  calls: seq<CollectionRequested>) returns (s': State, calls': seq<CollectionRequested>)
    requires c.hasExecutions && w !in s.workers && RequestedEvent(e) in s.log && ValidEvent(e) && Due(e, at)
    requires s.now <= at && claimId != "" && claimId !in s.issued
    ensures CanReach(c, s, s') && Handled(c, s, s', calls, calls', e, DONE, at)
    ensures s'.now == at && s'.workers == s.workers && s'.issued == s.issued + {claimId}
    ensures Completions(s.log, s'.log)
  {
    if Claimable(s.rows, e, at) {
      var m := Claims(c, s, w, e, claimId, at);
      s' := Completes(c, m, w, e, claimId);
      calls' := calls + [e];
      CanReachOn(c, s, m, s');
      ProcessedIsHandled(c, s, m, s', calls, calls', e, DONE, claimId, at);
      assert s'.workers == s.workers;
    } else {
      s' := Skips(c, s, w, e, claimId, at);
      calls' := calls;
    }
  }

  /** What was published since is completions only. */
  ghost predicate Completions(log: seq<Entry>, log': seq<Entry>) {
    log <= log' && forall i :: |log| <= i < |log'| ==> log'[i].CompletedEvent?
  }

  lemma CompletionsOn(log: seq<Entry>, log': seq<Entry>, log'': seq<Entry>)
    requires Completions(log, log') && Completions(log', log'')
    ensures Completions(log, log'')
  {
    forall i | |log| <= i < |log''| ensures log''[i].CompletedEvent? {
      assert i < |log'| ==> log''[i] == log'[i];
    }
  }

  /** A drain that has read every record at its floor, and published nothing but completions. */
  ghost predicate FloorDrain(c: Config, first: State, s: State, d: Drain, calls: seq<CollectionRequested>) {
    && Drains(c, first, s, d, calls) && AtFloor(d, s.log, first.now)
    && s.now == Floor(s.log, d.from, first.now, d.offset) && s.workers == first.workers
    && Completions(first.log, s.log)
  }

  lemma FloorAdvances(d: Drain, log: seq<Entry>, log': seq<Entry>, since: Time, at: Time)
    requires d.from <= d.offset < |log| && log <= log' && AtFloor(d, log, since)
    requires at == Floor(log, d.from, since, d.offset + 1)
    ensures AtFloor(Advance(d, at), log', since) && at == Floor(log', d.from, since, d.offset + 1)
  {
    FloorKept(log, log', d.from, since, d.offset + 1);
    forall i | d.from <= i < d.offset && i in d.readAt
      ensures Floor(log', d.from, since, i + 1) == Floor(log, d.from, since, i + 1)
    {
      FloorKept(log, log', d.from, since, i + 1);
    }
  }

  /** The next record, read at its floor. */
  lemma NextAtFloor(c: Config, first: State, s: State, d: Drain, calls: seq<CollectionRequested>, w: nat,
                    claimId: string)
    returns (s': State, d': Drain, calls': seq<CollectionRequested>)
    requires c.hasExecutions && c.Valid() && FloorDrain(c, first, s, d, calls) && d.offset < |s.log|
    requires InBound(c, s.log) && w !in s.workers && claimId != "" && claimId !in s.issued
    ensures FloorDrain(c, first, s', d', calls') && InBound(c, s'.log)
    ensures w !in s'.workers && s'.issued <= s.issued + {claimId}
    ensures d' == Advance(d, s'.now)
    ensures Work(c, s'.log[d'.offset..]) < Work(c, s.log[d.offset..])
  {
    if s.log[d.offset].RequestedEvent? && ValidEvent(s.log[d.offset].event) {
      s', calls' := RequestAtFloor(c, first, s, d, calls, w, claimId);
    } else {
      s', calls' := s, calls;
      IgnoredAtFloor(c, first, s, d, calls);
    }
    d' := Advance(d, s'.now);
  }

  lemma IgnoredAtFloor(c: Config, first: State, s: State, d: Drain, calls: seq<CollectionRequested>)
    requires FloorDrain(c, first, s, d, calls) && d.offset < |s.log|
    requires !(s.log[d.offset].RequestedEvent? && ValidEvent(s.log[d.offset].event))
    ensures FloorDrain(c, first, s, Advance(d, s.now), calls)
    ensures Work(c, s.log[d.offset + 1..]) < Work(c, s.log[d.offset..])
  {
    DrainIgnores(c, first, s, d, calls);
    IgnoredLowersWork(c, s.log, d.offset);
    FloorAdvances(d, s.log, s.log, first.now, s.now);
  }

  lemma RequestAtFloor(c: Config, first: State, s: State, d: Drain, calls: seq<CollectionRequested>, w: nat,
                       claimId: string)
    returns (s': State, calls': seq<CollectionRequested>)
    requires c.hasExecutions && c.Valid() && FloorDrain(c, first, s, d, calls) && d.offset < |s.log|
    requires InBound(c, s.log) && w !in s.workers && claimId != "" && claimId !in s.issued
    requires s.log[d.offset].RequestedEvent? && ValidEvent(s.log[d.offset].event)
    ensures FloorDrain(c, first, s', Advance(d, s'.now), calls') && InBound(c, s'.log)
    ensures w !in s'.workers && s'.issued == s.issued + {claimId}
    ensures Work(c, s'.log[d.offset + 1..]) < Work(c, s.log[d.offset..])
  {
    var e := s.log[d.offset].event;
    s', calls' := HandlesAt(c, s, w, e, claimId, Floor(s.log, d.from, first.now, d.offset + 1), calls);
    HandledAtFloor(c, first, s, s', d, calls, calls', e);
  }

  lemma HandledAtFloor(c: Config, first: State, s: State, s': State, d: Drain, calls: seq<CollectionRequested>,
                       calls': seq<CollectionRequested>, e: CollectionRequested)
    requires c.Valid() && FloorDrain(c, first, s, d, calls) && d.offset < |s.log|
    requires s.log[d.offset] == RequestedEvent(e) && ValidEvent(e) && InBound(c, s.log)
    requires s'.now == Floor(s.log, d.from, first.now, d.offset + 1) && s'.workers == s.workers
    requires CanReach(c, s, s') && Handled(c, s, s', calls, calls', e, DONE, s'.now)
    requires Completions(s.log, s'.log)
    ensures FloorDrain(c, first, s', Advance(d, s'.now), calls') && InBound(c, s'.log)
    ensures Work(c, s'.log[d.offset + 1..]) < Work(c, s.log[d.offset..])
  {
    DrainTurn(c, first, s, s', d, calls, calls', e, DONE, s'.now);
    CompletionsOn(first.log, s.log, s'.log);
    FloorAdvances(d, s.log, s'.log, first.now, s'.now);
  }

  lemma {:induction false} ReadsOnAtFloor(c: Config, first: State, s: State, d: Drain, calls: seq<CollectionRequested>,
                                          w: nat, claimIds: nat -> string, n: nat)
    returns (s': State, d': Drain, calls': seq<CollectionRequested>)
    requires c.hasExecutions && c.Valid() && FloorDrain(c, first, s, d, calls) && InBound(c, s.log)
    requires w !in s.workers && Unused(s, claimIds, n)
    requires forall i, j :: i != j ==> claimIds(i) != claimIds(j)
    ensures FloorDrain(c, first, s', d', calls') && d'.start == d.start && d'.from == d.from && d'.offset == |s'.log|
    decreases Work(c, s.log[d.offset..])
  {
    if d.offset == |s.log| {
      s', d', calls' := s, d, calls;
    } else {
      s', d', calls' := NextAtFloor(c, first, s, d, calls, w, claimIds(n));
      s', d', calls' := ReadsOnAtFloor(c, first, s', d', calls', w, claimIds, n + 1);
    }
  }

  /** From every state in which worker `w` is free it can drain the log reading every record at its floor. */
  lemma FloorDrainExists(c: Config, s: State, from: nat, w: nat, claimIds: nat -> string)
    returns (s': State, d: Drain, calls: seq<CollectionRequested>)
    requires c.hasExecutions && Inv(c, s) && from <= |s.log| && w !in s.workers && Unused(s, claimIds, 0)
    requires forall i, j :: i != j ==> claimIds(i) != claimIds(j)
    ensures FloorDrain(c, s, s', d, calls) && d.from == from && d.offset == |s'.log|
  {
    DrainStarts(c, s, from);
    InvBounds(c, s);
    s', d, calls := ReadsOnAtFloor(c, s, s, Drain(s.rows, from, from, map[]), [], w, claimIds, 0);
  }

  /** Task `t` has ended whenever a drain of the log from `from` on has come to its end. */
  ghost predicate AlwaysEnds(c: Config, s: State, from: nat, t: string) {
    forall s', d, calls :: Drains(c, s, s', d, calls) && d.from == from && d.offset == |s'.log|
      ==> t in s'.rows && Terminal(s'.rows[t])
  }

  /**
   Exactly which unfinished tasks a drain is sure to end, told from the state it starts in: those for which
   some request in the log may take the row over as early as it can be read.
   */
  lemma EndsInEveryDrainIffResumable(c: Config, s: State, from: nat, t: string, w: nat, claimIds: nat -> string)
    requires c.hasExecutions && Inv(c, s) && from <= |s.log| && w !in s.workers && Unused(s, claimIds, 0)
    requires forall i, j :: i != j ==> claimIds(i) != claimIds(j)
    requires t in s.rows && !Terminal(s.rows[t])
    ensures AlwaysEnds(c, s, from, t) <==> CanResume(s.rows[t], s.log, from, s.now, t)
  {
    if CanResume(s.rows[t], s.log, from, s.now, t) {
      forall s', d, calls | Drains(c, s, s', d, calls) && d.from == from && d.offset == |s'.log|
        ensures t in s'.rows && Terminal(s'.rows[t])
      {
        DrainEnds(c, s, s', d, calls);
      }
    } else {
      var s', d, calls := LeftBehind(c, s, from, t, w, claimIds);
    }
  }

  /** A drain that leaves a task behind. */
  lemma LeftBehind(c: Config, s: State, from: nat, t: string, w: nat, claimIds: nat -> string)
    returns (s': State, d: Drain, calls: seq<CollectionRequested>)
    requires c.hasExecutions && Inv(c, s) && from <= |s.log| && w !in s.workers && Unused(s, claimIds, 0)
    requires forall i, j :: i != j ==> claimIds(i) != claimIds(j)
    requires t in s.rows && !Terminal(s.rows[t]) && !CanResume(s.rows[t], s.log, from, s.now, t)
    ensures Drains(c, s, s', d, calls) && d.from == from && d.offset == |s'.log|
    ensures t in s'.rows && s'.rows[t] == s.rows[t] && s'.workers == s.workers
  {
    s', d, calls := FloorDrainExists(c, s, from, w, claimIds);
    DrainEnds(c, s, s', d, calls);
    FloorRevivesOnlyResumable(d, s.log, s'.log, s.now, t);
  }

  /** The input: a worker claims the only message and crashes; the log is read again before the lease runs out. */
  lemma CrashStrandsTask(c: Config, claimIds: nat -> string)
    returns (s: State, s': State, d: Drain, calls: seq<CollectionRequested>, t: string)
    requires c.Valid() && c.hasExecutions
    requires forall i :: claimIds(i) != "" && claimIds(i) != "first"
    requires forall i, j :: i != j ==> claimIds(i) != claimIds(j)
    ensures CanReach(c, Init(0), s) && |s.log| == 1 && Requests(s.log[0], t)
    ensures Drains(c, s, s', d, calls) && d.from == 0 && d.offset == |s'.log|
    ensures t in s'.rows && s'.rows[t].status.Processing? && s'.workers == map[]
  {
    t := "t";
    var e := CollectionRequested(t, 1, 1, "k", 0, Some(0), None);
    NotBlank("t");
    NotBlank("k");
    var actions;
    actions, s := ClaimsOnce(c, e);
    s, actions := Extend(c, s, actions, Stop(0));
    ReachableInv(c, 0, actions, s);
    assert s.rows[t] == FreshRow(e, "first", 0, c.claimTTL) && s.log[0] == RequestedEvent(e);
    assert Floor(s.log, 0, 0, 1) == LaterDue(Floor(s.log, 0, 0, 0), s.log[0]) == 0;
    s', d, calls := LeftBehind(c, s, 0, t, 1, claimIds);
  }
}
