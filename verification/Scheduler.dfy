/** RunOnce: a producer hands the listed sources to a pool of workers over an unbuffered channel. */
module Scheduler {
  import opened Common

  /** A pool goroutine: receiving from the channel, collecting one source, or gone after the close. */
  datatype PoolWorker = Receiving | Collecting(job: nat) | Gone

  datatype Phase = Sending | Closed(cancelled: bool) | Returned(cancelled: bool)

  /** `jobs` sources, `next` the one the producer offers; `collected` lists finished collections in order. */
  datatype State = State(
    jobs: nat,
    next: nat,
    phase: Phase,
    cancelled: bool,
    workers: seq<PoolWorker>,
    collected: seq<nat>)

  datatype Action =
    | Cancel
    | Send(w: nat)
    | GiveUp
    | Close
    | Finish(w: nat)
    | Exit(w: nat)
    | Return

  function PoolSize(jobs: nat, concurrency: int): nat {
    var workers := if concurrency <= 0 then 1 else concurrency;
    if workers > jobs then jobs else workers
  }

  function Init(jobs: nat, concurrency: int): State {
    State(jobs, 0, Sending, false, seq(PoolSize(jobs, concurrency), _ => Receiving), [])
  }

  predicate Enabled(s: State, a: Action) {
    match a
    case Cancel => !s.cancelled
    case Send(w) => s.phase.Sending? && s.next < s.jobs && w < |s.workers| && s.workers[w].Receiving?
    case GiveUp => s.phase.Sending? && s.next < s.jobs && s.cancelled
    case Close => s.phase.Sending? && s.next == s.jobs
    case Finish(w) => w < |s.workers| && s.workers[w].Collecting?
    case Exit(w) => s.phase.Closed? && w < |s.workers| && s.workers[w].Receiving?
    case Return => s.phase.Closed? && forall w :: 0 <= w < |s.workers| ==> s.workers[w].Gone?
  }

  function Apply(s: State, a: Action): State
    requires Enabled(s, a)
  {
    match a
    case Cancel => s.(cancelled := true)
    case Send(w) => s.(next := s.next + 1, workers := s.workers[w := Collecting(s.next)])
    case GiveUp => s.(phase := Closed(true))
    case Close => s.(phase := Closed(false))
    case Finish(w) => s.(workers := s.workers[w := Receiving], collected := s.collected + [s.workers[w].job])
    case Exit(w) => s.(workers := s.workers[w := Gone])
    case Return => s.(phase := Returned(s.phase.cancelled))
  }

  predicate Busy(s: State, job: nat) {
    exists w :: 0 <= w < |s.workers| && s.workers[w] == Collecting(job)
  }

  /** Every source handed out is being collected or was collected, and never twice. */
  ghost predicate Inv(s: State) {
    && s.next <= s.jobs
    && (forall w :: 0 <= w < |s.workers| && s.workers[w].Collecting? ==> s.workers[w].job < s.next)
    && (forall v, w :: 0 <= v < w < |s.workers| && s.workers[v].Collecting? && s.workers[w].Collecting?
          ==> s.workers[v].job != s.workers[w].job)
    && (forall i, j :: 0 <= i < j < |s.collected| ==> s.collected[i] != s.collected[j])
    && (forall i :: 0 <= i < |s.collected| ==> s.collected[i] < s.next && !Busy(s, s.collected[i]))
    && (forall job: nat :: job < s.next ==> job in s.collected || Busy(s, job))
    && (s.phase.Sending? ==> forall w :: 0 <= w < |s.workers| ==> !s.workers[w].Gone?)
    && (!s.phase.Sending? ==> if s.phase.cancelled then s.cancelled && s.next < s.jobs else s.next == s.jobs)
    && (s.phase.Returned? ==> forall w :: 0 <= w < |s.workers| ==> s.workers[w].Gone?)
    && (s.jobs > 0 ==> |s.workers| > 0)
  }

  lemma InvInit(jobs: nat, concurrency: int)
    ensures Inv(Init(jobs, concurrency))
  {
  }

  lemma BusyKept(s: State, w: nat, q: PoolWorker, job: nat)
    requires w < |s.workers| && Busy(s, job) && s.workers[w] != Collecting(job)
    ensures Busy(s.(workers := s.workers[w := q]), job)
  {
    var v :| 0 <= v < |s.workers| && s.workers[v] == Collecting(job);
    assert s.workers[w := q][v] == Collecting(job);
  }

  lemma SendKeepsInv(s: State, w: nat)
    requires Inv(s) && Enabled(s, Send(w))
    ensures Inv(Apply(s, Send(w)))
  {
    var s' := Apply(s, Send(w));
    assert s'.workers[w] == Collecting(s.next);
    forall job: nat | job < s'.next ensures job in s'.collected || Busy(s', job) {
      if job < s.next && Busy(s, job) {
        BusyKept(s, w, Collecting(s.next), job);
      }
    }
  }

  lemma FinishKeepsInv(s: State, w: nat)
    requires Inv(s) && Enabled(s, Finish(w))
    ensures Inv(Apply(s, Finish(w)))
  {
    var s' := Apply(s, Finish(w));
    var done := s.workers[w].job;
    assert Busy(s, done);
    assert !Busy(s', done);
    assert s'.collected[|s.collected|] == done;
    forall job: nat | job < s'.next ensures job in s'.collected || Busy(s', job) {
      if job != done && Busy(s, job) {
        BusyKept(s, w, Receiving, job);
      }
    }
  }

  /** Every action of every schedule keeps the invariant. */
  lemma InvStep(s: State, a: Action)
    requires Inv(s) && Enabled(s, a)
    ensures Inv(Apply(s, a))
    ensures Apply(s, a).jobs == s.jobs && |Apply(s, a).workers| == |s.workers|
  {
    match a {
      case Send(w) => SendKeepsInv(s, w);
      case Finish(w) => FinishKeepsInv(s, w);
      case Exit(w) =>
        forall job: nat | Busy(s, job) ensures Busy(Apply(s, a), job) {
          BusyKept(s, w, Gone, job);
        }
        forall job: nat | Busy(Apply(s, a), job) ensures Busy(s, job) {
          var v :| 0 <= v < |s.workers| && Apply(s, a).workers[v] == Collecting(job);
          assert s.workers[v] == Collecting(job);
        }
      case _ =>
        assert forall job: nat :: Busy(Apply(s, a), job) == Busy(s, job);
    }
  }

  // ---------------------------------------------------------------- no deadlock, no endless run

  function FindCollecting(workers: seq<PoolWorker>): (r: Option<nat>)
    ensures r.Some? ==> r.value < |workers| && workers[r.value].Collecting?
    ensures r.None? ==> forall w :: 0 <= w < |workers| ==> !workers[w].Collecting?
  {
    if workers == [] then None
    else if workers[|workers| - 1].Collecting? then Some(|workers| - 1)
    else FindCollecting(workers[..|workers| - 1])
  }

  function FindReceiving(workers: seq<PoolWorker>): (r: Option<nat>)
    ensures r.Some? ==> r.value < |workers| && workers[r.value].Receiving?
    ensures r.None? ==> forall w :: 0 <= w < |workers| ==> !workers[w].Receiving?
  {
    if workers == [] then None
    else if workers[|workers| - 1].Receiving? then Some(|workers| - 1)
    else FindReceiving(workers[..|workers| - 1])
  }

  /** An action of the program itself that can happen now: no schedule gets stuck before the return. */
  function Progress(s: State): (a: Action)
    requires Inv(s) && s.jobs > 0 && !s.phase.Returned?
    ensures Enabled(s, a) && !a.Cancel?
  {
    var busy, free := FindCollecting(s.workers), FindReceiving(s.workers);
    if busy.Some? then Finish(busy.value)
    else if s.phase.Sending? then
      assert s.workers[0].Receiving?;
      if s.next == s.jobs then Close else Send(0)
    else if free.Some? then Exit(free.value)
    else Return
  }

  function Weight(w: PoolWorker): nat {
    match w case Receiving => 1 case Collecting(_) => 2 case Gone => 0
  }

  function Load(workers: seq<PoolWorker>): nat {
    if workers == [] then 0 else Weight(workers[0]) + Load(workers[1..])
  }

  lemma {:induction false} LoadUpdate(workers: seq<PoolWorker>, w: nat, q: PoolWorker)
    requires w < |workers|
    ensures Load(workers[w := q]) == Load(workers) - Weight(workers[w]) + Weight(q)
  {
    if w == 0 {
      assert workers[0 := q][1..] == workers[1..];
    } else {
      assert workers[w := q][1..] == workers[1..][w - 1 := q];
      LoadUpdate(workers[1..], w - 1, q);
    }
  }

  function Remaining(s: State): int {
    2 * (s.jobs - s.next) + Load(s.workers)
    + (if s.cancelled then 0 else 1)
    + (match s.phase case Sending => 2 case Closed(_) => 1 case Returned(_) => 0)
  }

  /** Every action lowers the work left, so every schedule ends. */
  lemma ActionsRunOut(s: State, a: Action)
    requires Inv(s) && Enabled(s, a)
    ensures 0 <= Remaining(Apply(s, a)) < Remaining(s)
  {
    InvStep(s, a);
    if a.Send? || a.Finish? || a.Exit? {
      LoadUpdate(s.workers, a.w, Apply(s, a).workers[a.w]);
    }
  }

  // ---------------------------------------------------------------- what RunOnce guarantees

  /** `collected` holds exactly the first m sources, each once. */
  ghost predicate ExactlyFirst(collected: seq<nat>, m: nat) {
    && (forall i, j :: 0 <= i < j < |collected| ==> collected[i] != collected[j])
    && (forall job: nat :: job in collected <==> job < m)
  }

  /** In any state at most min(concurrency, n) sources are being collected, each by one worker. */
  lemma ConcurrencyBound(s: State, concurrency: int)
    requires Inv(s) && |s.workers| == PoolSize(s.jobs, concurrency)
    ensures |set w | 0 <= w < |s.workers| && s.workers[w].Collecting?| <= Min(Max(concurrency, 1), s.jobs)
  {
    BoundedSize(set w | 0 <= w < |s.workers| && s.workers[w].Collecting?, |s.workers|);
  }

  /**
   RunOnce under an arbitrary schedule, with cancellation at an arbitrary moment. A nil return means
   every listed source was collected exactly once; a cancelled return means exactly a proper prefix was;
   nothing is still being collected at the return; and the return is always reached.
   */
  method RunOnce(jobs: nat, concurrency: int) returns (cancelled: bool, collected: seq<nat>, ghost last: State)
    ensures !cancelled ==> ExactlyFirst(collected, jobs)
    ensures cancelled ==> last.cancelled && last.next < jobs && ExactlyFirst(collected, last.next)
    ensures forall job: nat :: !Busy(last, job)
    ensures |last.workers| == PoolSize(jobs, concurrency) == Min(Max(concurrency, 1), jobs)
  {
    var s := Init(jobs, concurrency);
    InvInit(jobs, concurrency);
    if jobs == 0 {
      return false, [], s;
    }
    while !s.phase.Returned?
      invariant Inv(s) && s.jobs == jobs && |s.workers| == PoolSize(jobs, concurrency)
      decreases Remaining(s)
    {
      var a: Action := *;
      if !Enabled(s, a) {
        a := Progress(s);
      }
      InvStep(s, a);
      ActionsRunOut(s, a);
      s := Apply(s, a);
    }
    return s.phase.cancelled, s.collected, s;
  }

  function After(s: State, actions: seq<Action>): Option<State> {
    if actions == [] then Some(s)
    else
      var last := |actions| - 1;
      match After(s, actions[..last])
      case None => None
      case Some(m) => if Enabled(m, actions[last]) then Some(Apply(m, actions[last])) else None
  }

  /** The first k workers are each collecting the source of their number, the others are waiting. */
  ghost predicate FirstBusy(s: State, jobs: nat, size: nat, k: nat) {
    && s.phase.Sending? && s.jobs == jobs && s.next == k && |s.workers| == size && k <= size
    && forall w :: 0 <= w < size ==> s.workers[w] == if w < k then Collecting(w) else Receiving
  }

  lemma {:induction false} SendsToFirst(jobs: nat, concurrency: int, k: nat) returns (actions: seq<Action>, s: State)
    requires k <= PoolSize(jobs, concurrency)
    ensures After(Init(jobs, concurrency), actions) == Some(s)
    ensures FirstBusy(s, jobs, PoolSize(jobs, concurrency), k)
  {
    if k == 0 {
      actions, s := [], Init(jobs, concurrency);
    } else {
      var before, m := SendsToFirst(jobs, concurrency, k - 1);
      actions, s := before + [Send(k - 1)], Apply(m, Send(k - 1));
      assert actions[..|before|] == before;
    }
  }

  /** The pool can be busy to the last worker: min(concurrency, n) sources, at least one, at the same time. */
  lemma PoolCanBeFull(jobs: nat, concurrency: int) returns (actions: seq<Action>, s: State)
    ensures After(Init(jobs, concurrency), actions) == Some(s)
    ensures |s.workers| == Min(Max(concurrency, 1), jobs)
    ensures forall w :: 0 <= w < |s.workers| ==> s.workers[w] == Collecting(w)
  {
    actions, s := SendsToFirst(jobs, concurrency, PoolSize(jobs, concurrency));
  }
}
