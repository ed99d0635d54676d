/** The dispatcher and the producer, amid whatever other participants do between their steps. */
module OutboxDispatch {
  import opened Common
  import opened Text
  import opened Events
  import opened OutboxTable
  import opened OutboxProtocol
  import opened OutboxSafety
  import Backoff

  function RoundOutcome(c: Config, r: OutboxEvent, now: Time, fails: bool): Outcome {
    if fails then ToFailed(r.attempts + 1, now + Backoff.Delay(c.backoff, r.attempts + 1), "write failed")
    else ToSent(now)
  }

  /** The table after one undisturbed round: the batch is sent or rescheduled, nothing else changes. */
  function Dispatched(c: Config, rows: Table, now: Time, broken: nat -> bool): (r: Table)
    ensures |r| == |rows|
  {
    seq(|rows|, i requires 0 <= i < |rows| =>
      if i in Batch(rows, now, c.limit, {}) then MarkedRow(rows[i], RoundOutcome(c, rows[i], now, broken(i)))
      else rows[i])
  }

  function Record(e: OutboxEvent): Published {
    Published(e.topic, e.key, e.value)
  }

  /**
   What an undisturbed round does to each row, from its columns: the events the broker took are sent, those it
   did not take have failed once more and wait for their backoff from the start of the round.
   */
  ghost predicate RoundDone(c: Config, rows: Table, ids: seq<nat>, now: Time, broken: nat -> bool, rows': Table) {
    && |rows'| == |rows|
    && forall i :: 0 <= i < |rows| ==> if i in ids then RowDone(c, rows[i], now, broken(i), rows'[i])
                                       else rows'[i] == rows[i]
  }

  ghost predicate RowDone(c: Config, was: OutboxEvent, now: Time, broken: bool, row: OutboxEvent) {
    && row.topic == was.topic && row.key == was.key && row.value == was.value
    && row.claimId == "" && row.lockedUntil.None?
    && if broken then
         && row.status.Failed? && row.attempts == was.attempts + 1
         && (was.attempts >= 0 ==> Backoff.Waits(c.backoff, was.attempts + 1, row.nextAttemptAt - now))
       else row.status.Sent? && row.sentAt == Some(now) && row.attempts == was.attempts
  }

  lemma DispatchedIsDone(c: Config, rows: Table, now: Time, broken: nat -> bool)
    ensures RoundDone(c, rows, Batch(rows, now, c.limit, {}), now, broken, Dispatched(c, rows, now, broken))
  {
    var ids, rows' := Batch(rows, now, c.limit, {}), Dispatched(c, rows, now, broken);
    forall i | 0 <= i < |rows| && i in ids ensures RowDone(c, rows[i], now, broken(i), rows'[i]) {
      if rows[i].attempts >= 0 {
        Backoff.DelayWaits(c.backoff, rows[i].attempts + 1);
      }
    }
  }

  /** What a batch delivers to the broker, in batch order. */
  function Delivered(rows: Table, ids: seq<nat>, broken: nat -> bool): seq<Published>
    requires forall k :: 0 <= k < |ids| ==> ids[k] < |rows|
  {
    if ids == [] then []
    else
      var id := ids[|ids| - 1];
      Delivered(rows, ids[..|ids| - 1], broken)
      + if broken(id) then [] else [Record(rows[id])]
  }

  /** The table in the middle of a round: the first `k` items of the batch are marked. */
  ghost predicate MidRound(c: Config, rows: Table, cur: Table, ids: seq<nat>, k: nat, claimId: string, now: Time,
                           broken: nat -> bool)
  {
    && |cur| == |rows|
    && (forall j :: 0 <= j < |ids| ==> ids[j] < |rows|)
    && (forall j :: 0 <= j < k && j < |ids| ==>
          cur[ids[j]] == MarkedRow(rows[ids[j]], RoundOutcome(c, rows[ids[j]], now, broken(ids[j]))))
    && (forall j :: k <= j < |ids| ==> cur[ids[j]] == ClaimedRow(rows[ids[j]], claimId, now, now + c.claimTTL))
    && (forall i :: 0 <= i < |rows| && i !in ids ==> cur[i] == rows[i])
  }

  lemma MidRoundStep(c: Config, rows: Table, cur: Table, ids: seq<nat>, k: nat, claimId: string, now: Time,
                     broken: nat -> bool, cur': Table)
    requires MidRound(c, rows, cur, ids, k, claimId, now, broken) && k < |ids|
    requires forall i, j :: 0 <= i < j < |ids| ==> ids[i] != ids[j]
    requires cur' == Marked(cur, ids[k], claimId, RoundOutcome(c, rows[ids[k]], now, broken(ids[k])))
    ensures MidRound(c, rows, cur', ids, k + 1, claimId, now, broken)
  {
    assert cur' == cur[ids[k] := MarkedRow(cur[ids[k]], RoundOutcome(c, rows[ids[k]], now, broken(ids[k])))];
  }

  /** The events are the rows of `ids` as claimed, each once. */
  ghost predicate Aligned(c: Config, rows: Table, ids: seq<nat>, events: seq<Item>, claimId: string, now: Time) {
    && |events| == |ids|
    && (forall j :: 0 <= j < |ids| ==> ids[j] < |rows|)
    && (forall j :: 0 <= j < |ids|
          ==> events[j] == Item(ids[j], ClaimedRow(rows[ids[j]], claimId, now, now + c.claimTTL)))
    && (forall i, j :: 0 <= i < j < |ids| ==> ids[i] != ids[j])
  }

  /** k items of the batch are marked, and delivered in batch order since the log was `log`. */
  ghost predicate Standing(c: Config, rows: Table, cur: Table, ids: seq<nat>, k: nat, claimId: string, now: Time,
                           broken: nat -> bool, log: seq<Published>, log': seq<Published>)
  {
    && k <= |ids| && (forall j :: 0 <= j < |ids| ==> ids[j] < |rows|)
    && MidRound(c, rows, cur, ids, k, claimId, now, broken)
    && log' == log + Delivered(rows, ids[..k], broken)
  }

  lemma RoundStarts(c: Config, rows: Table, cur: Table, ids: seq<nat>, events: seq<Item>, claimId: string, now: Time,
                    broken: nat -> bool, log: seq<Published>)
    requires cur == Claimed(rows, ids, claimId, now, now + c.claimTTL)
    requires forall k :: 0 <= k < |ids| ==> ids[k] < |rows|
    requires forall j, k :: 0 <= j < k < |ids| ==> ids[j] != ids[k]
    requires events == Items(cur, ids)
    ensures Standing(c, rows, cur, ids, 0, claimId, now, broken, log, log)
    ensures Aligned(c, rows, ids, events, claimId, now)
  {
    assert ids[..0] == [];
  }

  lemma StandingHolds(c: Config, rows: Table, cur: Table, ids: seq<nat>, events: seq<Item>, k: nat, claimId: string,
                      now: Time, broken: nat -> bool, log: seq<Published>, log': seq<Published>)
    requires Aligned(c, rows, ids, events, claimId, now) && k < |ids|
    requires Standing(c, rows, cur, ids, k, claimId, now, broken, log, log')
    ensures events[k].id == ids[k] && Holds(cur, ids[k], claimId)
    ensures RoundOutcome(c, events[k].event, now, broken(ids[k])) == RoundOutcome(c, rows[ids[k]], now, broken(ids[k]))
    ensures Record(events[k].event) == Record(rows[ids[k]])
  {
  }

  lemma StandingAdvances(c: Config, rows: Table, cur: Table, cur': Table, ids: seq<nat>, events: seq<Item>, k: nat,
                         claimId: string, now: Time, broken: nat -> bool, log: seq<Published>, log': seq<Published>,
                         log'': seq<Published>)
    requires Aligned(c, rows, ids, events, claimId, now) && k < |ids|
    requires Standing(c, rows, cur, ids, k, claimId, now, broken, log, log')
    requires cur' == Marked(cur, events[k].id, claimId, RoundOutcome(c, events[k].event, now, broken(events[k].id)))
    requires log'' == log' + if broken(events[k].id) then [] else [Record(events[k].event)]
    ensures Standing(c, rows, cur', ids, k + 1, claimId, now, broken, log, log'')
  {
    StandingHolds(c, rows, cur, ids, events, k, claimId, now, broken, log, log');
    MidRoundStep(c, rows, cur, ids, k, claimId, now, broken, cur');
    assert ids[..k + 1][..k] == ids[..k];
  }

  /** The first k events that the broker took are in the log. */
  ghost predicate Took(events: seq<Item>, k: nat, broken: nat -> bool, log: seq<Published>) {
    forall j :: 0 <= j < k && j < |events| && !broken(events[j].id) ==> Record(events[j].event) in log
  }

  lemma TookKept(events: seq<Item>, k: nat, broken: nat -> bool, log: seq<Published>, log': seq<Published>)
    requires Took(events, k, broken, log) && log <= log'
    requires k < |events| && !broken(events[k].id) ==> Record(events[k].event) in log'
    ensures Took(events, k + 1, broken, log')
  {
    LogKeeps(log, log');
  }

  /** The batch as the table named it before the claim. */
  lemma TookBatch(c: Config, rows: Table, ids: seq<nat>, events: seq<Item>, claimId: string, now: Time,
                  broken: nat -> bool, log: seq<Published>)
    requires Aligned(c, rows, ids, events, claimId, now) && Took(events, |events|, broken, log)
    ensures forall i :: i in ids && !broken(i) ==> i < |rows| && Record(rows[i]) in log
  {
    forall i | i in ids && !broken(i) ensures i < |rows| && Record(rows[i]) in log {
      var k :| 0 <= k < |ids| && ids[k] == i;
      assert events[k].id == i && Record(events[k].event) == Record(rows[i]);
    }
  }

  lemma RoundEnds(c: Config, rows: Table, cur: Table, claimId: string, now: Time, broken: nat -> bool)
    requires MidRound(c, rows, cur, Batch(rows, now, c.limit, {}), |Batch(rows, now, c.limit, {})|, claimId, now,
          broken)
    ensures cur == Dispatched(c, rows, now, broken)
  {
    var ids, done := Batch(rows, now, c.limit, {}), Dispatched(c, rows, now, broken);
    forall i | 0 <= i < |rows| ensures cur[i] == done[i] {
      if i in ids {
        var j :| 0 <= j < |ids| && ids[j] == i;
      }
    }
  }

  // ---------------------------------------------------------------- the shared tables

  datatype Participant = TheDispatcher(d: nat) | TheCreator(p: nat)

  predicate By(me: Participant, a: Action) {
    match me
    case TheDispatcher(d) => (a.Claim? || a.Write? || a.MarkSent? || a.MarkFailed? || a.Stop?) && a.d == d
    case TheCreator(p) => (a.Begin? || a.Look? || a.Insert? || a.LookAgain? || a.Leave?) && a.p == p
  }

  predicate SamePosition(me: Participant, s: State, s': State) {
    match me
    case TheDispatcher(d) => if d in s.dispatchers then d in s'.dispatchers && s'.dispatchers[d] == s.dispatchers[d]
                             else d !in s'.dispatchers
    case TheCreator(p) => if p in s.creators then p in s'.creators && s'.creators[p] == s.creators[p]
                          else p !in s'.creators
  }

  /** What other participants' steps leave `me`. */
  ghost predicate Meanwhile(me: Participant, s: State, s': State) {
    && SamePosition(me, s, s') && Evolves(s.rows, s'.rows)
    && s.log <= s'.log && s.issued <= s'.issued && s.now <= s'.now
  }

  lemma OthersStep(c: Config, s: State, a: Action, me: Participant)
    requires Enabled(c, s, a) && !By(me, a)
    ensures Meanwhile(me, s, Apply(c, s, a))
  {
    StepEvolves(c, s, a, Apply(c, s, a));
  }

  class Broker {
    var log: seq<Published>

    constructor ()
      ensures log == []
    {
      log := [];
    }

    method Write(x: Published, fails: bool)
      modifies this
      ensures log == if fails then old(log) else old(log) + [x]
    {
      if !fails {
        log := log + [x];
      }
    }
  }

  /** The states a run goes through, one more than its actions. */
  ghost predicate Passes(c: Config, start: Time, actions: seq<Action>, states: seq<State>) {
    && |states| == |actions| + 1 && states[0] == Init(start)
    && forall k {:trigger actions[k]} :: 0 <= k < |actions| ==>
         Enabled(c, states[k], actions[k]) && states[k + 1] == Apply(c, states[k], actions[k])
  }

  lemma {:induction false} PassesReaches(c: Config, start: Time, actions: seq<Action>, states: seq<State>, k: nat)
    requires Passes(c, start, actions, states) && k <= |actions|
    ensures Reaches(c, Init(start), actions[..k], states[k])
  {
    if k > 0 {
      PassesReaches(c, start, actions, states, k - 1);
      assert actions[..k][..k - 1] == actions[..k - 1];
      assert actions[..k][k - 1] == actions[k - 1];
    }
  }

  /** The table and the broker as all participants share them; `view` is the protocol state they are in. */
  class SharedOutbox {
    const c: Config
    const repo: OutboxRepository
    const broker: Broker
    const start: Time
    var view: State
    ghost var trace: seq<Action>
    ghost var states: seq<State>

    constructor (c: Config, repo: OutboxRepository, broker: Broker, start: Time)
      requires c.Valid() && repo.rows == [] && broker.log == []
      ensures Valid() && this.c == c && this.repo == repo && this.broker == broker && view == Init(start)
    {
      this.c, this.repo, this.broker, this.start := c, repo, broker, start;
      view, trace, states := Init(start), [], [Init(start)];
    }

    /** Everything that happened since the start is a run of the protocol. */
    ghost predicate Valid()
      reads this, repo, broker
    {
      c.Valid() && view.rows == repo.rows && view.log == broker.log && OnTrack()
    }

    ghost predicate OnTrack()
      reads this
    {
      Passes(c, start, trace, states) && states[|trace|] == view
    }

    /** So every theorem about reachable states holds of the present one. */
    lemma Reached()
      requires Valid()
      ensures Reaches(c, Init(start), trace, view) && Inv(c, view)
    {
      PassesReaches(c, start, trace, states, |trace|);
      assert trace[..|trace|] == trace;
      OutboxSafety.Reached(c, start, trace, view);
    }

    method Take(a: Action)
      requires OnTrack() && Enabled(c, view, a)
      modifies this
      ensures view == Apply(c, old(view), a) && trace == old(trace) + [a] && OnTrack()
    {
      view := Apply(c, view, a);
      trace, states := trace + [a], states + [view];
    }

    /** Other participants take these actions, as far as they are possible. */
    method Others(me: Participant, actions: seq<Action>)
      requires Valid()
      modifies this, repo, broker
      ensures Valid() && old(trace) <= trace && Meanwhile(me, old(view), view)
      ensures actions == [] ==> view == old(view)
    {
      for k := 0 to |actions|
        invariant Valid() && old(trace) <= trace && Meanwhile(me, old(view), view)
        invariant k == 0 ==> view == old(view)
      {
        if !By(me, actions[k]) && Enabled(c, view, actions[k]) {
          OthersStep(c, view, actions[k], me);
          Take(actions[k]);
          repo.rows, broker.log := view.rows, view.log;
        }
      }
    }
  }

  // ---------------------------------------------------------------- the dispatcher

  datatype DispatchResult = Done | ClaimFailed | MarkLost | MarkFailed

  /** Nobody else acts and no mark fails in the database. */
  ghost predicate Quiet(others: nat -> seq<Action>, markFails: nat -> bool) {
    forall k :: others(k) == [] && !markFails(k)
  }

  class OutboxDispatcher {
    const shared: SharedOutbox
    const id: nat

    constructor (shared: SharedOutbox, id: nat)
      ensures this.shared == shared && this.id == id
    {
      this.shared, this.id := shared, id;
    }

    ghost predicate At(phase: Phase, claimId: string, now: Time, pending: seq<Item>)
      reads shared
    {
      id in shared.view.dispatchers && shared.view.dispatchers[id] == Dispatcher(phase, claimId, now, pending)
    }

    ghost predicate Gone()
      reads shared
    {
      id !in shared.view.dispatchers
    }

    /**
     Publish one claimed event, then mark it by what the broker said. `others` act in between. The dispatch
     goes on only if the mark was accepted.
     */
    method DispatchOne(item: Item, claimId: string, now: Time, fails: bool, markFails: bool, others: seq<Action>,
                       ghost rest: seq<Item>)
      returns (r: DispatchResult)
      requires shared.Valid() && At(Writing, claimId, now, [item] + rest)
      modifies shared, shared.repo, shared.broker
      ensures shared.Valid() && old(shared.trace) <= shared.trace && old(shared.broker.log) <= shared.broker.log
      ensures r.Done? ==> At(Writing, claimId, now, rest)
      ensures r.Done? || r.MarkLost? || r.MarkFailed?
      ensures !r.Done? ==> Gone()
      ensures !fails ==> Record(item.event) in shared.broker.log
      ensures r.MarkFailed? <==> markFails
      ensures others == [] && !markFails ==>
                && (r.MarkLost? <==> !Holds(old(shared.repo.rows), item.id, claimId))
                && shared.repo.rows
                   == Marked(old(shared.repo.rows), item.id, claimId, RoundOutcome(shared.c, item.event, now, fails))
                && shared.broker.log == old(shared.broker.log) + if fails then [] else [Record(item.event)]
    {
      Publish(item, claimId, now, fails, others, rest);
      if markFails {
        Retire();
        return DispatchResult.MarkFailed;
      }
      var lost := Mark(item, claimId, now, fails, rest);
      return if lost then MarkLost else Done;
    }

    /** Leaves the dispatch, whatever is still pending. */
    method Retire()
      requires shared.Valid() && id in shared.view.dispatchers
      modifies shared
      ensures shared.Valid() && Gone() && old(shared.trace) <= shared.trace
    {
      shared.Take(Stop(id));
    }

    /** The broker write, and what others do before the mark. */
    method Publish(item: Item, claimId: string, now: Time, fails: bool, others: seq<Action>, ghost rest: seq<Item>)
      requires shared.Valid() && At(Writing, claimId, now, [item] + rest)
      modifies shared, shared.repo, shared.broker
      ensures shared.Valid() && old(shared.trace) <= shared.trace && old(shared.broker.log) <= shared.broker.log
      ensures At(if fails then WriteFailed else Written, claimId, now, [item] + rest)
      ensures !fails ==> Record(item.event) in shared.broker.log
      ensures others == [] ==>
                && shared.repo.rows == old(shared.repo.rows)
                && shared.broker.log == old(shared.broker.log) + if fails then [] else [Record(item.event)]
    {
      shared.broker.Write(Record(item.event), fails);
      shared.Take(Write(id, !fails));
      ghost var log := shared.broker.log;
      assert !fails ==> log[|log| - 1] == Record(item.event);
      shared.Others(TheDispatcher(id), others);
      LogKeeps(log, shared.broker.log);
    }

    /** The mark that follows a broker write. */
    method Mark(item: Item, claimId: string, now: Time, fails: bool, ghost rest: seq<Item>) returns (lost: bool)
      requires shared.Valid() && At(if fails then WriteFailed else Written, claimId, now, [item] + rest)
      modifies shared, shared.repo
      ensures shared.Valid() && old(shared.trace) <= shared.trace
      ensures lost <==> !Holds(old(shared.repo.rows), item.id, claimId)
      ensures if lost then Gone() else At(Writing, claimId, now, rest)
      ensures shared.repo.rows
              == Marked(old(shared.repo.rows), item.id, claimId, RoundOutcome(shared.c, item.event, now, fails))
    {
      assert ([item] + rest)[1..] == rest;
      if fails {
        var attempts := item.event.attempts + 1;
        var backoff := Backoff.RetryBackoff(shared.c.backoff, attempts);
        lost := shared.repo.UpdateClaimed(item.id, claimId, ToFailed(attempts, now + backoff, "write failed"));
        shared.Take(Action.MarkFailed(id, "write failed"));
      } else {
        lost := shared.repo.UpdateClaimed(item.id, claimId, ToSent(now));
        shared.Take(MarkSent(id));
      }
    }

    /** The round so far, when nobody interferes. */
    ghost predicate RoundSoFar(rows: Table, ids: seq<nat>, k: nat, claimId: string, now: Time, broken: nat -> bool,
                               log: seq<Published>)
      reads shared, shared.repo, shared.broker
    {
      Standing(shared.c, rows, shared.repo.rows, ids, k, claimId, now, broken, log, shared.broker.log)
    }

    /** One turn of the loop. */
    method DispatchNext(events: seq<Item>, k: nat, claimId: string, now: Time, broken: nat -> bool, markFails: bool,
                        others: seq<Action>, ghost rows: Table, ghost ids: seq<nat>, ghost log: seq<Published>)
      returns (r: DispatchResult)
      requires shared.Valid() && k < |events| && At(Writing, claimId, now, events[k..])
      requires Aligned(shared.c, rows, ids, events, claimId, now) && Took(events, k, broken, shared.broker.log)
      modifies shared, shared.repo, shared.broker
      ensures shared.Valid() && old(shared.trace) <= shared.trace && old(shared.broker.log) <= shared.broker.log
      ensures r.Done? || r.MarkLost? || r.MarkFailed?
      ensures if r.Done? then At(Writing, claimId, now, events[k + 1..]) else Gone()
      ensures Took(events, k + 1, broken, shared.broker.log)
      ensures r.MarkFailed? <==> markFails
      ensures others == [] && !markFails && old(RoundSoFar(rows, ids, k, claimId, now, broken, log)) ==>
                r.Done? && RoundSoFar(rows, ids, k + 1, claimId, now, broken, log)
    {
      ghost var before, cur := shared.broker.log, shared.repo.rows;
      ghost var quiet := others == [] && !markFails && RoundSoFar(rows, ids, k, claimId, now, broken, log);
      assert events[k..] == [events[k]] + events[k + 1..];
      r := DispatchOne(events[k], claimId, now, broken(events[k].id), markFails, others, events[k + 1..]);
      TookKept(events, k, broken, before, shared.broker.log);
      if quiet {
        StandingHolds(shared.c, rows, cur, ids, events, k, claimId, now, broken, log, before);
        StandingAdvances(shared.c, rows, cur, shared.repo.rows, ids, events, k, claimId, now, broken, log, before,
                         shared.broker.log);
      }
    }

    /** The loop of DispatchReady over the claimed events; a mark that is refused or fails ends it. */
    method DispatchBatch(events: seq<Item>, claimId: string, now: Time, broken: nat -> bool, markFails: nat -> bool,
                         others: nat -> seq<Action>, ghost rows: Table, ghost ids: seq<nat>)
      returns (r: DispatchResult)
      requires shared.Valid() && At(Writing, claimId, now, events)
      requires Aligned(shared.c, rows, ids, events, claimId, now)
      modifies shared, shared.repo, shared.broker
      ensures shared.Valid() && Gone() && old(shared.trace) <= shared.trace
      ensures old(shared.broker.log) <= shared.broker.log
      ensures r.Done? || r.MarkLost? || r.MarkFailed?
      ensures r.Done? ==> Took(events, |events|, broken, shared.broker.log)
      ensures r.MarkFailed? ==> exists k :: markFails(k)
      ensures Quiet(others, markFails) && old(RoundSoFar(rows, ids, 0, claimId, now, broken, shared.broker.log)) ==>
                r.Done? && RoundSoFar(rows, ids, |ids|, claimId, now, broken, old(shared.broker.log))
    {
      ghost var log := shared.broker.log;
      ghost var quiet := Quiet(others, markFails) && RoundSoFar(rows, ids, 0, claimId, now, broken, log);
      for k := 0 to |events|
        invariant shared.Valid() && At(Writing, claimId, now, events[k..]) && old(shared.trace) <= shared.trace
        invariant log <= shared.broker.log && Took(events, k, broken, shared.broker.log)
        invariant quiet ==> RoundSoFar(rows, ids, k, claimId, now, broken, log)
      {
        r := DispatchNext(events, k, claimId, now, broken, markFails(k), others(k), rows, ids, log);
        if !r.Done? {
          return;
        }
      }
      Retire();
      return Done;
    }

    /**
     One round, amid any actions of other participants: a run of the protocol. When it is done every
     event of the batch that the broker took is in the log. Without interference exactly the batch is sent
     or rescheduled, and nothing else changes.
     */
    method DispatchReady(now: Time, claimId: string, locked: set<nat>, claimFails: bool, broken: nat -> bool,
                         markFails: nat -> bool, others: nat -> seq<Action>)
      returns (r: DispatchResult)
      requires shared.Valid() && Gone() && now <= shared.view.now && claimId != "" && claimId !in shared.view.issued
      modifies shared, shared.repo, shared.broker
      ensures shared.Valid() && Gone() && old(shared.trace) <= shared.trace
      ensures old(shared.broker.log) <= shared.broker.log
      ensures r.ClaimFailed? <==> claimFails
      ensures r.ClaimFailed? ==> shared.view == old(shared.view)
      ensures r.MarkFailed? ==> exists k :: markFails(k)
      ensures r.Done? ==>
                forall i :: i in Batch(old(shared.repo.rows), now, shared.c.limit, locked) && !broken(i) ==>
                  i < |old(shared.repo.rows)| && Record(old(shared.repo.rows)[i]) in shared.broker.log
      ensures FirstCandidates(old(shared.repo.rows), now, shared.c.limit, locked,
                              Batch(old(shared.repo.rows), now, shared.c.limit, locked))
      ensures Quiet(others, markFails) && locked == {} && !claimFails ==>
                && r.Done?
                && shared.repo.rows == Dispatched(shared.c, old(shared.repo.rows), now, broken)
                && RoundDone(shared.c, old(shared.repo.rows), Batch(old(shared.repo.rows), now, shared.c.limit, {}),
                             now, broken, shared.repo.rows)
                && shared.broker.log == old(shared.broker.log)
                     + Delivered(old(shared.repo.rows), Batch(old(shared.repo.rows), now, shared.c.limit, {}), broken)
    {
      BatchIsFirst(shared.repo.rows, now, shared.c.limit, locked);
      if claimFails {
        return ClaimFailed;
      }
      ghost var rows, log := shared.repo.rows, shared.broker.log;
      ghost var ids := Batch(rows, now, shared.c.limit, locked);
      var events := Claim(now, claimId, locked, broken);
      r := DispatchBatch(events, claimId, now, broken, markFails, others, rows, ids);
      if r.Done? {
        TookBatch(shared.c, rows, ids, events, claimId, now, broken, shared.broker.log);
      }
      if Quiet(others, markFails) && locked == {} {
        assert ids[..|ids|] == ids;
        RoundEnds(shared.c, rows, shared.repo.rows, claimId, now, broken);
        DispatchedIsDone(shared.c, rows, now, broken);
      }
    }

    method Claim(now: Time, claimId: string, locked: set<nat>, ghost broken: nat -> bool) returns (events: seq<Item>)
      requires shared.Valid() && Gone() && now <= shared.view.now && claimId != "" && claimId !in shared.view.issued
      modifies shared, shared.repo
      ensures shared.Valid() && old(shared.trace) <= shared.trace && At(Writing, claimId, now, events)
      ensures Aligned(shared.c, old(shared.repo.rows), Batch(old(shared.repo.rows), now, shared.c.limit, locked),
            events,
                      claimId, now)
      ensures RoundSoFar(old(shared.repo.rows), Batch(old(shared.repo.rows), now, shared.c.limit, locked), 0, claimId,
                         now, broken, shared.broker.log)
    {
      ghost var rows, ids := shared.repo.rows, Batch(shared.repo.rows, now, shared.c.limit, locked);
      events := ClaimEvents(now, claimId, locked);
      BatchIsReady(shared.c, rows, now, locked);
      RoundStarts(shared.c, rows, shared.repo.rows, ids, events, claimId, now, broken, shared.broker.log);
    }

    /** The claim transaction as a step of the protocol. */
    method ClaimEvents(now: Time, claimId: string, locked: set<nat>) returns (events: seq<Item>)
      requires shared.Valid() && Gone() && now <= shared.view.now && claimId != "" && claimId !in shared.view.issued
      modifies shared, shared.repo
      ensures shared.Valid() && old(shared.trace) <= shared.trace && At(Writing, claimId, now, events)
      ensures shared.repo.rows == Claimed(old(shared.repo.rows), Batch(old(shared.repo.rows), now, shared.c.limit,
            locked),
                                          claimId, now, now + shared.c.claimTTL)
      ensures forall i :: i in Batch(old(shared.repo.rows), now, shared.c.limit, locked) ==> i < |shared.repo.rows|
      ensures events == Items(shared.repo.rows, Batch(old(shared.repo.rows), now, shared.c.limit, locked))
    {
      BatchIsReady(shared.c, shared.repo.rows, now, locked);
      var emptyClaim, total;
      emptyClaim, events, total :=
        shared.repo.ClaimReady(now, shared.c.limit, claimId, now + shared.c.claimTTL, locked);
      TakeClaim(now, claimId, locked);
    }

    /** The claim of rows that the table has already written. */
    method TakeClaim(now: Time, claimId: string, locked: set<nat>)
      requires shared.c.Valid() && shared.OnTrack() && shared.view.log == shared.broker.log && Gone()
      requires now <= shared.view.now && claimId != "" && claimId !in shared.view.issued
      requires shared.repo.rows == Claimed(shared.view.rows, Batch(shared.view.rows, now, shared.c.limit, locked),
                                           claimId, now, now + shared.c.claimTTL)
      requires forall i :: i in Batch(shared.view.rows, now, shared.c.limit, locked) ==> i < |shared.view.rows|
      modifies shared
      ensures shared.Valid() && old(shared.trace) <= shared.trace
      ensures At(Writing, claimId, now,
                 Items(shared.repo.rows, Batch(old(shared.view.rows), now, shared.c.limit, locked)))
    {
      shared.Take(Action.Claim(id, claimId, now, locked));
    }
  }

  // ---------------------------------------------------------------- the producer

  function IdempotencyKey(sourceId: int): string {
    "collection:source:" + Itoa(sourceId)
  }

  lemma KeysPerSource(a: int, b: int)
    requires IdempotencyKey(a) == IdempotencyKey(b)
    ensures a == b
  {
    var prefix := "collection:source:";
    assert IdempotencyKey(a)[|prefix|..] == Itoa(a) && IdempotencyKey(b)[|prefix|..] == Itoa(b);
    ItoaInjective(a, b);
  }

  /** An active event under `key` whose task id is `taskId`; an event without one yields the caller's own. */
  predicate Hands(r: OutboxEvent, key: string, taskId: string) {
    Matches(r, TOPIC_COLLECTION_REQUESTED, key) && (r.value.taskId == taskId || r.value.taskId == "")
  }

  class OutboxProducer {
    const shared: SharedOutbox
    const id: nat

    constructor (shared: SharedOutbox, id: nat)
      ensures this.shared == shared && this.id == id
    {
      this.shared, this.id := shared, id;
    }

    ghost predicate Gone()
      reads shared
    {
      id !in shared.view.creators
    }

    /**
     Create of the repository: check, insert, and look again after a duplicate, with other participants
     acting before the insert and before the second look. A run of the protocol; whatever it returns is
     active when it returns.
     */
    method Create(topic: string, key: string, value: CollectionRequested, at: Time, before: seq<Action>,
                  again: seq<Action>)
      returns (found: Option<nat>)
      requires shared.Valid() && Gone() && at <= shared.view.now
      modifies shared, shared.repo, shared.broker
      ensures shared.Valid() && Gone() && old(shared.trace) <= shared.trace
      ensures found.Some? ==> found.value < |shared.repo.rows| && Matches(shared.repo.rows[found.value], topic, key)
      ensures found.None? ==> before != [] && again != []
      ensures FindActive(old(shared.repo.rows), topic, key).Some? ==>
                found == FindActive(old(shared.repo.rows), topic, key) && shared.repo.rows == old(shared.repo.rows)
      ensures FindActive(old(shared.repo.rows), topic, key).None? && before == [] ==>
                && found == Some(|old(shared.repo.rows)|)
                && shared.repo.rows == old(shared.repo.rows) + [NewEvent(topic, key, value, at)]
    {
      shared.Take(Begin(id, topic, key, value, at));
      var existing := shared.repo.FindActiveByTopicKey(topic, key);
      shared.Take(Look(id));
      if existing.Some? {
        shared.Take(Leave(id));
        return existing;
      }
      shared.Others(TheCreator(id), before);
      found := InsertOrLookAgain(topic, key, value, at, again);
    }

    method InsertOrLookAgain(topic: string, key: string, value: CollectionRequested, at: Time, again: seq<Action>)
      returns (found: Option<nat>)
      requires shared.Valid()
      requires id in shared.view.creators && shared.view.creators[id] == Inserting(topic, key, value, at)
      modifies shared, shared.repo, shared.broker
      ensures shared.Valid() && Gone() && old(shared.trace) <= shared.trace
      ensures found.Some? ==> found.value < |shared.repo.rows| && Matches(shared.repo.rows[found.value], topic, key)
      ensures found.None? ==> FindActive(old(shared.repo.rows), topic, key).Some? && again != []
      ensures FindActive(old(shared.repo.rows), topic, key).None? ==>
                && found == Some(|old(shared.repo.rows)|)
                && shared.repo.rows == old(shared.repo.rows) + [NewEvent(topic, key, value, at)]
    {
      var duplicate := InsertNew(topic, key, value, at);
      if !duplicate {
        return Some(|shared.repo.rows| - 1);
      }
      shared.Others(TheCreator(id), again);
      found := SecondLook(topic, key, value, at);
    }

    method InsertNew(topic: string, key: string, value: CollectionRequested, at: Time) returns (duplicate: bool)
      requires shared.Valid()
      requires id in shared.view.creators && shared.view.creators[id] == Inserting(topic, key, value, at)
      modifies shared, shared.repo
      ensures shared.Valid() && old(shared.trace) <= shared.trace
      ensures duplicate <==> FindActive(old(shared.repo.rows), topic, key).Some?
      ensures if duplicate then
                && shared.repo.rows == old(shared.repo.rows)
                && id in shared.view.creators && shared.view.creators[id] == LookingAgain(topic, key, value, at)
              else
                Gone() && shared.repo.rows == old(shared.repo.rows) + [NewEvent(topic, key, value, at)]
    {
      duplicate := shared.repo.Insert(topic, key, value, at);
      shared.Take(Action.Insert(id));
      if !duplicate {
        shared.Take(Leave(id));
      }
    }

    method SecondLook(topic: string, key: string, ghost value: CollectionRequested, ghost at: Time)
      returns (found: Option<nat>)
      requires shared.Valid()
      requires id in shared.view.creators && shared.view.creators[id] == LookingAgain(topic, key, value, at)
      modifies shared
      ensures shared.Valid() && Gone() && old(shared.trace) <= shared.trace
            && found == FindActive(shared.repo.rows, topic, key)
    {
      found := shared.repo.FindActiveByTopicKey(topic, key);
      shared.Take(LookAgain(id));
      if found.Some? {
        shared.Take(Leave(id));
      }
    }

    /** The task id handed to the requester is that of an active event for the source. */
    method RequestCollection(userId: int, sourceId: int, taskId: string, requestedAt: Time, createdAt: Time,
                             before: seq<Action>, again: seq<Action>)
      returns (queued: Option<string>)
      requires shared.Valid() && Gone() && createdAt <= shared.view.now
      modifies shared, shared.repo, shared.broker
      ensures shared.Valid() && Gone() && old(shared.trace) <= shared.trace
      ensures queued.None? ==> before != [] && again != []
      ensures queued.Some? ==>
                exists i :: 0 <= i < |shared.repo.rows|
                      && Hands(shared.repo.rows[i], IdempotencyKey(sourceId), queued.value)
      ensures FindActive(old(shared.repo.rows), TOPIC_COLLECTION_REQUESTED, IdempotencyKey(sourceId)).Some? ==>
                shared.repo.rows == old(shared.repo.rows)
      ensures before == []
              && FindActive(old(shared.repo.rows), TOPIC_COLLECTION_REQUESTED, IdempotencyKey(sourceId)).None? ==>
                && queued == Some(taskId)
                && |shared.repo.rows| == |old(shared.repo.rows)| + 1 && old(shared.repo.rows) <= shared.repo.rows
                && var row := shared.repo.rows[|old(shared.repo.rows)|];
                   && Queued(row, createdAt) && row.topic == TOPIC_COLLECTION_REQUESTED
                   && row.key == IdempotencyKey(sourceId) && row.value.key == IdempotencyKey(sourceId)
                   && row.value.taskId == taskId && row.value.userId == userId && row.value.sourceId == sourceId
                   && row.value.attempt == 0 && row.value.requestedAt == Some(requestedAt)
                   && row.value.nextAttemptAt.None?
                   && (userId > 0 && sourceId > 0 && !Blank(taskId) ==>
                         ValidMessage(Message(row.topic, row.key, Some(row.value))))
    {
      PayloadIsAccepted(userId, sourceId, taskId, requestedAt);
      var key := IdempotencyKey(sourceId);
      var payload := Request(userId, sourceId, taskId, requestedAt);
      var found := Create(TOPIC_COLLECTION_REQUESTED, key, payload, createdAt, before, again);
      if found.None? {
        return None;
      }
      var event := shared.repo.rows[found.value];
      return Some(if event.value.taskId != "" then event.value.taskId else taskId);
    }
  }

  /** An event as it is first stored: nobody has tried it, and it is due when it was created. */
  predicate Queued(r: OutboxEvent, at: Time) {
    && r.status.Pending? && r.attempts == 0 && r.nextAttemptAt == at && r.lastError == ""
    && r.claimId == "" && r.lockedUntil.None? && r.createdAt == at && r.updatedAt == at && r.sentAt.None?
  }

  /** What the producer queues, the worker accepts. */
  lemma PayloadIsAccepted(userId: int, sourceId: int, taskId: string, requestedAt: Time)
    ensures userId > 0 && sourceId > 0 && !Blank(taskId) ==>
              ValidMessage(Message(TOPIC_COLLECTION_REQUESTED, IdempotencyKey(sourceId),
                                   Some(Request(userId, sourceId, taskId, requestedAt))))
  {
    assert IdempotencyKey(sourceId)[0] == 'c';
    NotBlank(IdempotencyKey(sourceId));
  }

  function Request(userId: int, sourceId: int, taskId: string, requestedAt: Time): CollectionRequested {
    CollectionRequested(taskId, userId, sourceId, IdempotencyKey(sourceId), 0, Some(requestedAt), None)
  }
}
