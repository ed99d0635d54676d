/** Mutual exclusion of collections, and when a run's final status is really final. */
module CollectionSafety {
  import opened Common
  import opened CollectionRuns
  import opened CollectionProtocol

  ghost predicate Reaches(c: Config, s: State, actions: seq<Action>, t: State) {
    After(c, s, actions) == Some(t)
  }

  lemma Reached(c: Config, start: Time, actions: seq<Action>, s: State)
    requires Reaches(c, Init(start), actions, s)
    ensures Inv(c, s)
  {
    InvInit(c, start);
    InvRun(c, Init(start), actions);
  }

  /** Two calls that are both within their lock's lifetime never execute the same source's body at once. */
  lemma BodiesNeverOverlap(c: Config, start: Time, actions: seq<Action>, s: State, p: nat, q: nat)
    requires Reaches(c, Init(start), actions, s) && p in s.calls && q in s.calls
    requires InBody(s.calls[p]) && InBody(s.calls[q]) && s.calls[p].sourceId == s.calls[q].sourceId
    requires Live(c, s, s.calls[p]) && Live(c, s, s.calls[q])
    ensures p == q
  {
    Reached(c, start, actions, s);
    assert CallOk(c, s, s.calls[p]) && CallOk(c, s, s.calls[q]) && Distinct(s, p, q);
  }

  /** A release removes the lock only when it is the releasing call's own; every live call keeps its lock. */
  lemma ReleaseOnlyOwnLock(c: Config, start: Time, actions: seq<Action>, s: State, p: nat, q: nat)
    requires Reaches(c, Init(start), actions, s) && Enabled(c, s, Release(p))
    requires q in s.calls && q != p && InBody(s.calls[q]) && Live(c, s, s.calls[q])
    ensures Apply(c, s, Release(p)).keys != s.keys ==>
              && s.calls[p].sourceId in s.keys && s.keys[s.calls[p].sourceId].token == s.calls[p].token
              && Apply(c, s, Release(p)).keys == s.keys - {s.calls[p].sourceId}
    ensures s.calls[q].sourceId in Apply(c, s, Release(p)).keys
    ensures Apply(c, s, Release(p)).keys[s.calls[q].sourceId].token == s.calls[q].token
  {
    Reached(c, start, actions, s);
    assert CallOk(c, s, s.calls[p]) && CallOk(c, s, s.calls[q]) && Distinct(s, p, q);
  }

  /** With Timed settings the sweep never touches the run of a call that is still within its lock's lifetime. */
  lemma SweepSparesExecutingRuns(c: Config, s: State, a: Action, p: nat)
    requires Inv(c, s) && c.Timed() && a.Sweep? && Enabled(c, s, a)
    requires p in s.calls && s.calls[p].Collecting? && Live(c, s, s.calls[p])
    ensures |Apply(c, s, a).runs| == |s.runs| && s.calls[p].runId < |s.runs|
    ensures Apply(c, s, a).runs[s.calls[p].runId] == s.runs[s.calls[p].runId]
    ensures s.calls[p].runId in Apply(c, s, a).swept ==> s.calls[p].runId in s.swept
  {
    assert CallOk(c, s, s.calls[p]);
  }

  // ---------------------------------------------------------------- final statuses

  /** Every executing call ends before its lock runs out. */
  ghost predicate Timely(c: Config, s: State) {
    forall p :: p in s.calls ==> Live(c, s, s.calls[p])
  }

  /** The run happens, and every state on the way is timely. */
  ghost predicate TimelyRun(c: Config, s: State, actions: seq<Action>, t: State) {
    && Reaches(c, s, actions, t)
    && Timely(c, t)
    && (actions != [] ==>
          After(c, s, actions[..|actions| - 1]).Some?
          && TimelyRun(c, s, actions[..|actions| - 1], After(c, s, actions[..|actions| - 1]).value))
  }

  ghost predicate ExecutingRunsOpen(s: State) {
    forall p :: p in s.calls && s.calls[p].Collecting? && s.calls[p].runId < |s.runs|
      ==> s.runs[s.calls[p].runId].status.Running?
  }

  lemma OpenStep(c: Config, s: State, a: Action, s': State)
    requires Inv(c, s) && c.Timed() && Timely(c, s) && ExecutingRunsOpen(s) && Enabled(c, s, a) && s' == Apply(c, s, a)
    ensures ExecutingRunsOpen(s')
  {
    forall p | p in s'.calls && s'.calls[p].Collecting? && s'.calls[p].runId < |s'.runs|
      ensures s'.runs[s'.calls[p].runId].status.Running?
    {
      if p in s.calls && s.calls[p].Collecting? {
        assert CallOk(c, s, s.calls[p]);
        if a.Sweep? {
          SweepSparesExecutingRuns(c, s, a, p);
        } else if !a.Tick? && a.p in s.calls {
          assert Distinct(s, a.p, p);
        }
      }
    }
  }

  lemma {:induction false} OpenRun(c: Config, start: Time, actions: seq<Action>, t: State)
    requires c.Timed() && TimelyRun(c, Init(start), actions, t)
    ensures Inv(c, t) && ExecutingRunsOpen(t)
  {
    Reached(c, start, actions, t);
    if actions != [] {
      var last := |actions| - 1;
      var m := After(c, Init(start), actions[..last]).value;
      OpenRun(c, start, actions[..last], m);
      OpenStep(c, m, actions[last], t);
    }
  }

  /** After a timely run some action changes a run that already had a final status. */
  ghost predicate Overwrites(c: Config, start: Time, actions: seq<Action>, s: State, a: Action, i: nat) {
    && TimelyRun(c, Init(start), actions, s)
    && Enabled(c, s, a)
    && i < |s.runs| && !s.runs[i].status.Running?
    && i < |Apply(c, s, a).runs| && Apply(c, s, a).runs[i] != s.runs[i]
  }

  lemma {:induction false} TimedKeepsFinalStatus(c: Config, start: Time, actions: seq<Action>, s: State, a: Action,
        i: nat)
    requires c.Timed() && TimelyRun(c, Init(start), actions, s) && Enabled(c, s, a)
    requires i < |s.runs| && !s.runs[i].status.Running?
    ensures i < |Apply(c, s, a).runs| && Apply(c, s, a).runs[i] == s.runs[i]
  {
    OpenRun(c, start, actions, s);
    if a.Finish? {
      assert CallOk(c, s, s.calls[a.p]);
    }
  }

  lemma {:induction false} TimelyStep(c: Config, s: State, actions: seq<Action>, t: State, a: Action)
    requires TimelyRun(c, s, actions, t) && Enabled(c, t, a) && Timely(c, Apply(c, t, a))
    ensures TimelyRun(c, s, actions + [a], Apply(c, t, a))
  {
    assert (actions + [a])[..|actions|] == actions;
  }

  /** One collection of source 1, started at time 0 and still running when it is old enough to be swept. */
  lemma SlowCollection(c: Config) returns (actions: seq<Action>, s: State)
    requires !c.Timed()
    ensures TimelyRun(c, Init(0), actions, s)
    ensures s == State(map[1 := Held("token", c.TTL())], [NewRun(1, 0)], c.staleRunTimeout + 1,
                       map[0 := Collecting(1, "token", 0, 0)], {"token"}, {})
  {
    actions, s := FirstLock(c);
    s, actions := Extend(c, s, actions, CreateRun(0, 0));
    s, actions := Extend(c, s, actions, Tick(c.staleRunTimeout + 1));
  }

  lemma FirstLock(c: Config) returns (actions: seq<Action>, s: State)
    ensures TimelyRun(c, Init(0), actions, s)
    ensures s == State(map[1 := Held("token", c.TTL())], [], 0, map[0 := Locked(1, "token", 0)], {"token"}, {})
  {
    s, actions := Init(0), [];
    assert Swept([], 1, 0 - c.staleRunTimeout, 0, "") == [];
    s, actions := Extend(c, s, actions, Begin(0, 1));
    s, actions := Extend(c, s, actions, Sweep(0, 0, ""));
    assert s == State(map[], [], 0, map[0 := Call.Ready(1)], {}, {});
    s, actions := Extend(c, s, actions, Acquire(0, "token"));
  }

  /** The counterexample: a slow but punctual collection is swept, and then finishes all the same. */
  lemma UntimedOverwrites(c: Config) returns (actions: seq<Action>, s: State, a: Action)
    requires !c.Timed()
    ensures Overwrites(c, 0, actions, s, a, 0)
  {
    var later := c.staleRunTimeout + 1;
    actions, s := SlowCollection(c);
    s, actions := Extend(c, s, actions, Begin(1, 1));
    s, actions := Extend(c, s, actions, Sweep(1, later, "timed out"));
    a := Finish(0, Completion(Success, later, 0, 0, 0, ""));
  }

  lemma Extend(c: Config, s: State, actions: seq<Action>, a: Action) returns (s': State, actions': seq<Action>)
    requires TimelyRun(c, Init(0), actions, s) && Enabled(c, s, a) && Timely(c, Apply(c, s, a))
    ensures s' == Apply(c, s, a) && TimelyRun(c, Init(0), actions', s')
  {
    TimelyStep(c, Init(0), actions, s, a);
    s', actions' := Apply(c, s, a), actions + [a];
  }

  /** If every collection ends within its lock's lifetime, success and failed are final exactly for Timed settings. */
  lemma StatusesFinalIffTimed(c: Config)
    ensures c.Timed() <==>
              forall start, actions, s, a, i :: !Overwrites(c, start, actions, s, a, i)
  {
    forall start, actions, s, a, i | c.Timed() && Overwrites(c, start, actions, s, a, i) ensures false {
      TimedKeepsFinalStatus(c, start, actions, s, a, i);
    }
    if !c.Timed() {
      var actions, s, a := UntimedOverwrites(c);
    }
  }

  /**
   Whatever the timing, a final status is changed only by the run's own collection, and only after a sweep failed
   it.
   */
  lemma OverwriteOnlyAfterSweep(c: Config, s: State, a: Action, s': State, i: nat)
    requires Inv(c, s) && Enabled(c, s, a) && s' == Apply(c, s, a)
    requires i < |s.runs| && !s.runs[i].status.Running?
    ensures i < |s'.runs|
    ensures s'.runs[i] != s.runs[i] ==>
              a.Finish? && a.p in s.calls && s.calls[a.p].Collecting? && s.calls[a.p].runId == i && i in s.swept
  {
    if a.Finish? {
      assert CallOk(c, s, s.calls[a.p]);
    }
  }

  /** The default settings are Timed: a ten-minute lock, a thirty-minute timeout. */
  lemma DefaultsAreTimed()
    ensures Config(DEFAULT_LOCK_TTL, DEFAULT_STALE_RUN_TIMEOUT).Timed()
  {
  }
}
