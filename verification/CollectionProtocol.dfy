/**
 Any number of concurrent CollectSource calls: sweep of stale runs outside the lock, TTL lock, run row,
 collection, finish, release. Any call may stop at any point without releasing.
 */
module CollectionProtocol {
  import opened Common
  import opened CollectionRuns

  datatype Config = Config(lockTTL: Time, staleRunTimeout: Time) {
    /** The lock's lifetime after the default is applied. */
    function TTL(): Time { EffectiveTTL(lockTTL) }

    /**
     Either runs are never swept, or no run gets older than the timeout while its lock lives. The sweep
     takes only runs strictly older than the timeout, hence the extra tick.
     */
    predicate Timed() { staleRunTimeout <= 0 || TTL() <= staleRunTimeout + 1 }
  }

  datatype Call =
    | Starting(sourceId: int)
    | Ready(sourceId: int)
    | Locked(sourceId: int, token: string, acquiredAt: Time)
    | Collecting(sourceId: int, token: string, acquiredAt: Time, runId: nat)
    | Ending(sourceId: int, token: string)

  /** `swept` is history: the runs some sweep failed. */
  datatype State = State(
    keys: Keys,
    runs: Runs,
    now: Time,
    calls: map<nat, Call>,
    issued: set<string>,
    swept: set<nat>)

  datatype Action =
    | Tick(to: Time)
    | Begin(p: nat, sourceId: int)
    | Sweep(p: nat, at: Time, message: string)
    | Acquire(p: nat, token: string)
    | CreateRun(p: nat, at: Time)
    | Finish(p: nat, f: Completion)
    | Fail(p: nat)
    | Release(p: nat)
    | Stop(p: nat)

  function Init(now: Time): State {
    State(map[], [], now, map[], {}, {})
  }

  predicate Final(f: Completion) {
    !f.status.Running?
  }

  predicate Enabled(c: Config, s: State, a: Action) {
    match a
    case Tick(to) => s.now <= to
    case Begin(p, _) => p !in s.calls
    case Sweep(p, at, _) => p in s.calls && s.calls[p].Starting? && at <= s.now
    case Acquire(p, token) => p in s.calls && s.calls[p].Ready? && token !in s.issued
    case CreateRun(p, at) => p in s.calls && s.calls[p].Locked? && s.calls[p].acquiredAt <= at <= s.now
    case Finish(p, f) => p in s.calls && s.calls[p].Collecting? && Final(f)
    case Fail(p) => p in s.calls && (s.calls[p].Locked? || s.calls[p].Collecting?)
    case Release(p) => p in s.calls && s.calls[p].Ending?
    case Stop(p) => p in s.calls
  }

  function Apply(c: Config, s: State, a: Action): State
    requires Enabled(c, s, a)
  {
    match a
    case Tick(to) => s.(now := to)
    case Begin(p, sourceId) => s.(calls := s.calls[p := Starting(sourceId)])
    case Sweep(p, at, message) =>
      var src := s.calls[p].sourceId;
      var t := s.(calls := s.calls[p := Ready(src)]);
      if c.staleRunTimeout <= 0 then t
      else t.(runs := Swept(s.runs, src, at - c.staleRunTimeout, at, message),
              swept := s.swept + StaleIds(s.runs, src, at - c.staleRunTimeout))
    case Acquire(p, token) =>
      var src := s.calls[p].sourceId;
      if !Free(s.keys, src, s.now) then s.(calls := s.calls - {p}, issued := s.issued + {token})
      else s.(keys := s.keys[src := Held(token, s.now + c.TTL())],
              issued := s.issued + {token},
              calls := s.calls[p := Locked(src, token, s.now)])
    case CreateRun(p, at) =>
      var Locked(src, token, acquiredAt) := s.calls[p];
      s.(runs := s.runs + [NewRun(src, at)], calls := s.calls[p := Collecting(src, token, acquiredAt, |s.runs|)])
    case Finish(p, f) =>
      var Collecting(src, token, _, id) := s.calls[p];
      s.(runs := if id < |s.runs| then s.runs[id := Finished(s.runs[id], f)] else s.runs,
         calls := s.calls[p := Ending(src, token)])
    case Fail(p) => s.(calls := s.calls[p := Ending(s.calls[p].sourceId, s.calls[p].token)])
    case Release(p) =>
      var Ending(src, token) := s.calls[p];
      s.(keys := Released(s.keys, src, token, s.now), calls := s.calls - {p})
    case Stop(p) => s.(calls := s.calls - {p})
  }

  function After(c: Config, s: State, actions: seq<Action>): Option<State> {
    if actions == [] then Some(s)
    else
      var last := |actions| - 1;
      match After(c, s, actions[..last])
      case None => None
      case Some(m) => if Enabled(c, m, actions[last]) then Some(Apply(c, m, actions[last])) else None
  }

  /** The call is executing the part the lock is meant to protect. */
  predicate InBody(q: Call) {
    q.Locked? || q.Collecting?
  }

  predicate HasToken(q: Call) {
    InBody(q) || q.Ending?
  }

  /** The call's lock, if it took one, has not run out yet. */
  predicate Live(c: Config, s: State, q: Call) {
    InBody(q) ==> s.now < q.acquiredAt + c.TTL()
  }

  ghost predicate CallOk(c: Config, s: State, q: Call) {
    && (HasToken(q) ==> q.token in s.issued)
    && (InBody(q) ==>
          && q.acquiredAt <= s.now
          && (Live(c, s, q) ==> q.sourceId in s.keys && s.keys[q.sourceId] == Held(q.token, q.acquiredAt + c.TTL())))
    && (q.Collecting? ==>
          && q.runId < |s.runs|
          && s.runs[q.runId].sourceId == q.sourceId
          && q.acquiredAt <= s.runs[q.runId].startedAt
          && (s.runs[q.runId].status.Running? || q.runId in s.swept))
  }

  ghost predicate Distinct(s: State, p: nat, q: nat)
    requires p in s.calls && q in s.calls
  {
    p != q ==>
      && (HasToken(s.calls[p]) && HasToken(s.calls[q]) ==> s.calls[p].token != s.calls[q].token)
      && (s.calls[p].Collecting? && s.calls[q].Collecting? ==> s.calls[p].runId != s.calls[q].runId)
  }

  ghost predicate Inv(c: Config, s: State) {
    && (forall p :: p in s.calls ==> CallOk(c, s, s.calls[p]))
    && (forall p, q :: p in s.calls && q in s.calls ==> Distinct(s, p, q))
    && (forall src :: src in s.keys ==> s.keys[src].token in s.issued)
  }

  lemma CallPreserved(c: Config, s: State, a: Action, s': State, p: nat)
    requires Enabled(c, s, a) && s' == Apply(c, s, a) && p in s'.calls
    requires p in s.calls ==> CallOk(c, s, s.calls[p])
    requires p in s.calls && !a.Tick? && a.p in s.calls ==> Distinct(s, a.p, p)
    ensures CallOk(c, s', s'.calls[p])
  {
  }

  lemma DistinctPreserved(c: Config, s: State, a: Action, s': State, p: nat, q: nat)
    requires Enabled(c, s, a) && s' == Apply(c, s, a) && p in s'.calls && q in s'.calls
    requires p in s.calls ==> CallOk(c, s, s.calls[p])
    requires q in s.calls ==> CallOk(c, s, s.calls[q])
    requires p in s.calls && q in s.calls ==> Distinct(s, p, q)
    ensures Distinct(s', p, q)
  {
  }

  lemma InvInit(c: Config, now: Time)
    ensures Inv(c, Init(now))
  {
  }

  /** Every action of every call keeps the invariant; no timing is assumed. */
  lemma InvStep(c: Config, s: State, a: Action)
    requires Inv(c, s) && Enabled(c, s, a)
    ensures Inv(c, Apply(c, s, a))
  {
    var s' := Apply(c, s, a);
    forall p | p in s'.calls ensures CallOk(c, s', s'.calls[p]) {
      assert p in s.calls ==> CallOk(c, s, s.calls[p]);
      assert p in s.calls && !a.Tick? && a.p in s.calls ==> Distinct(s, a.p, p);
      CallPreserved(c, s, a, s', p);
    }
    forall p, q | p in s'.calls && q in s'.calls ensures Distinct(s', p, q) {
      assert p in s.calls ==> CallOk(c, s, s.calls[p]);
      assert q in s.calls ==> CallOk(c, s, s.calls[q]);
      DistinctPreserved(c, s, a, s', p, q);
    }
  }

  lemma {:induction false} InvRun(c: Config, s: State, actions: seq<Action>)
    requires Inv(c, s) && After(c, s, actions).Some?
    ensures Inv(c, After(c, s, actions).value)
  {
    if actions != [] {
      var last := |actions| - 1;
      InvRun(c, s, actions[..last]);
      InvStep(c, After(c, s, actions[..last]).value, actions[last]);
    }
  }
}
