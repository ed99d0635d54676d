/**
 Any number of dispatchers and check-then-insert creators over one outbox table and one broker.
 Every transaction and every broker write is one atomic action; a participant may stop between any two.
 */
module OutboxProtocol {
  import opened Common
  import opened Events
  import opened OutboxTable
  import Backoff

  datatype Config = Config(limit: int, backoff: Time, claimTTL: Time) {
    predicate Valid() {
      0 < backoff <= Backoff.MAX_INT64 && claimTTL > 0
    }
  }

  datatype Published = Published(topic: string, key: string, value: CollectionRequested)

  /** A dispatcher inside DispatchReady: `pending` is the part of its batch not yet marked. */
  datatype Phase = Writing | Written | WriteFailed
  datatype Dispatcher = Dispatcher(phase: Phase, claimId: string, at: Time, pending: seq<Item>)

  /** A creator inside Create; `Returned` is the event it hands back. */
  datatype Creator =
    | Looking(topic: string, key: string, value: CollectionRequested, at: Time)
    | Inserting(topic: string, key: string, value: CollectionRequested, at: Time)
    | LookingAgain(topic: string, key: string, value: CollectionRequested, at: Time)
    | Returned(topic: string, key: string, id: nat)

  /** `failMarks` is history: how often each row's MarkFailed was accepted. */
  datatype State = State(
    rows: Table,
    log: seq<Published>,
    now: Time,
    dispatchers: map<nat, Dispatcher>,
    creators: map<nat, Creator>,
    issued: set<string>,
    failMarks: multiset<nat>)

  datatype Action =
    | Tick(to: Time)
    | Begin(p: nat, topic: string, key: string, value: CollectionRequested, at: Time)
    | Look(p: nat)
    | Insert(p: nat)
    | LookAgain(p: nat)
    | Leave(p: nat)
    | Claim(d: nat, claimId: string, at: Time, locked: set<nat>)
    | Write(d: nat, ok: bool)
    | MarkSent(d: nat)
    | MarkFailed(d: nat, message: string)
    | Stop(d: nat)

  function Init(now: Time): State {
    State([], [], now, map[], map[], {}, multiset{})
  }

  predicate Enabled(c: Config, s: State, a: Action) {
    match a
    case Tick(to) => s.now <= to
    case Begin(p, _, _, _, at) => p !in s.creators && at <= s.now
    case Look(p) => p in s.creators && s.creators[p].Looking?
    case Insert(p) => p in s.creators && s.creators[p].Inserting?
    case LookAgain(p) => p in s.creators && s.creators[p].LookingAgain?
    case Leave(p) => p in s.creators
    case Claim(d, id, at, _) => d !in s.dispatchers && id != "" && id !in s.issued && at <= s.now
    case Write(d, _) => d in s.dispatchers && s.dispatchers[d].phase.Writing? && s.dispatchers[d].pending != []
    case MarkSent(d) => d in s.dispatchers && s.dispatchers[d].phase.Written? && s.dispatchers[d].pending != []
    case MarkFailed(d, _) => d in s.dispatchers && s.dispatchers[d].phase.WriteFailed? && s.dispatchers[d].pending != []
    case Stop(d) => d in s.dispatchers
  }

  /** A creator that found event `r`, or goes on to `next`. */
  function Found(s: State, p: nat, r: Option<nat>, next: map<nat, Creator>): map<nat, Creator>
    requires p in s.creators
  {
    if r.Some? then s.creators[p := Returned(s.creators[p].topic, s.creators[p].key, r.value)] else next
  }

  function MarkOf(c: Config, g: Dispatcher, message: string): Outcome
    requires g.pending != []
  {
    var n := g.pending[0].event.attempts + 1;
    if g.phase.Written? then ToSent(g.at) else ToFailed(n, g.at + Backoff.Delay(c.backoff, n), message)
  }

  /** Marks the head of the batch; a refused mark ends the dispatch. */
  function AfterMark(c: Config, s: State, d: nat, message: string): State
    requires d in s.dispatchers && s.dispatchers[d].pending != []
  {
    var g := s.dispatchers[d];
    var id := g.pending[0].id;
    if !Holds(s.rows, id, g.claimId) then s.(dispatchers := s.dispatchers - {d})
    else s.(rows := Marked(s.rows, id, g.claimId, MarkOf(c, g, message)),
            failMarks := if g.phase.Written? then s.failMarks else s.failMarks + multiset{id},
            dispatchers := s.dispatchers[d := g.(phase := Writing, pending := g.pending[1..])])
  }

  function Apply(c: Config, s: State, a: Action): State
    requires Enabled(c, s, a)
  {
    match a
    case Tick(to) => s.(now := to)
    case Begin(p, topic, key, value, at) => s.(creators := s.creators[p := Looking(topic, key, value, at)])
    case Look(p) =>
      var q := s.creators[p];
      s.(creators := Found(s, p, FindActive(s.rows, q.topic, q.key),
                           s.creators[p := Inserting(q.topic, q.key, q.value, q.at)]))
    case Insert(p) =>
      var q := s.creators[p];
      if FindActive(s.rows, q.topic, q.key).Some?
      then s.(creators := s.creators[p := LookingAgain(q.topic, q.key, q.value, q.at)])
      else s.(rows := s.rows + [NewEvent(q.topic, q.key, q.value, q.at)],
              creators := s.creators[p := Returned(q.topic, q.key, |s.rows|)])
    case LookAgain(p) =>
      s.(creators := Found(s, p, FindActive(s.rows, s.creators[p].topic, s.creators[p].key), s.creators - {p}))
    case Leave(p) => s.(creators := s.creators - {p})
    case Claim(d, id, at, locked) =>
      var ids := Batch(s.rows, at, c.limit, locked);
      var rows := Claimed(s.rows, ids, id, at, at + c.claimTTL);
      s.(rows := rows, issued := s.issued + {id},
         dispatchers := s.dispatchers[d := Dispatcher(Writing, id, at, Items(rows, ids))])
    case Write(d, ok) =>
      var g := s.dispatchers[d];
      var e := g.pending[0].event;
      if ok then s.(log := s.log + [Published(e.topic, e.key, e.value)],
                    dispatchers := s.dispatchers[d := g.(phase := Written)])
      else s.(dispatchers := s.dispatchers[d := g.(phase := WriteFailed)])
    case MarkSent(d) => AfterMark(c, s, d, "")
    case MarkFailed(d, message) => AfterMark(c, s, d, message)
    case Stop(d) => s.(dispatchers := s.dispatchers - {d})
  }

  function After(c: Config, s: State, actions: seq<Action>): Option<State> {
    if actions == [] then Some(s)
    else
      var last := |actions| - 1;
      match After(c, s, actions[..last])
      case None => None
      case Some(m) => if Enabled(c, m, actions[last]) then Some(Apply(c, m, actions[last])) else None
  }

  // ---------------------------------------------------------------- the invariant

  ghost predicate RowOk(c: Config, s: State, i: nat)
    requires i < |s.rows|
  {
    var r := s.rows[i];
    && (r.status.Processing? <==> r.claimId != "")
    && (r.status.Processing? <==> r.lockedUntil.Some?)
    && (r.claimId != "" ==> r.claimId in s.issued)
    && (r.status.Processing? ==> r.nextAttemptAt <= r.lockedUntil.value - c.claimTTL)
    && (r.status.Sent? ==> Published(r.topic, r.key, r.value) in s.log)
    && r.attempts == s.failMarks[i]
  }

  ghost predicate Unique(rows: Table) {
    forall i, j :: 0 <= i < j < |rows| && Active(rows[i]) && Active(rows[j])
      ==> rows[i].topic != rows[j].topic || rows[i].key != rows[j].key
  }

  /** A batch item still names its row, and while the claim stands it is an accurate copy. */
  ghost predicate ItemOk(c: Config, s: State, g: Dispatcher, x: Item) {
    && x.id < |s.rows|
    && s.rows[x.id].topic == x.event.topic && s.rows[x.id].key == x.event.key && s.rows[x.id].value == x.event.value
    && (Holds(s.rows, x.id, g.claimId) ==>
          && s.rows[x.id].attempts == x.event.attempts
          && s.rows[x.id].nextAttemptAt <= g.at
          && s.rows[x.id].lockedUntil == Some(g.at + c.claimTTL))
    && (g.at + c.claimTTL > s.now ==> Holds(s.rows, x.id, g.claimId))
  }

  ghost predicate DispatcherOk(c: Config, s: State, g: Dispatcher) {
    && g.claimId != "" && g.claimId in s.issued && g.at <= s.now
    && |g.pending| <= Limit(c.limit)
    && (forall k :: 0 <= k < |g.pending| ==> ItemOk(c, s, g, g.pending[k]))
    && (forall j, k :: 0 <= j < k < |g.pending| ==> g.pending[j].id != g.pending[k].id)
    && (g.phase.Written? ==>
          && g.pending != []
          && Published(g.pending[0].event.topic, g.pending[0].event.key, g.pending[0].event.value) in s.log)
  }

  ghost predicate CreatorOk(s: State, q: Creator) {
    q.Returned? ==> q.id < |s.rows| && s.rows[q.id].topic == q.topic && s.rows[q.id].key == q.key
  }

  ghost predicate Distinct(s: State, d: nat, e: nat)
    requires d in s.dispatchers && e in s.dispatchers
  {
    d != e ==> s.dispatchers[d].claimId != s.dispatchers[e].claimId
  }

  ghost predicate Inv(c: Config, s: State) {
    && c.Valid()
    && (forall i :: 0 <= i < |s.rows| ==> RowOk(c, s, i))
    && Unique(s.rows)
    && (forall i: nat :: i in s.failMarks ==> i < |s.rows|)
    && (forall d :: d in s.dispatchers ==> DispatcherOk(c, s, s.dispatchers[d]))
    && (forall d, e :: d in s.dispatchers && e in s.dispatchers ==> Distinct(s, d, e))
    && (forall p :: p in s.creators ==> CreatorOk(s, s.creators[p]))
  }

  /** Rows are never removed and never renamed; a sent row is never touched again. */
  ghost predicate Evolves(rows: Table, rows': Table) {
    && |rows| <= |rows'|
    && forall i :: 0 <= i < |rows| ==>
         && rows'[i].topic == rows[i].topic && rows'[i].key == rows[i].key && rows'[i].value == rows[i].value
         && (rows[i].status.Sent? ==> rows'[i] == rows[i])
         && (Active(rows'[i]) ==> Active(rows[i]))
  }

  lemma BatchIsReady(c: Config, rows: Table, at: Time, locked: set<nat>)
    ensures var batch := Batch(rows, at, c.limit, locked);
            && (forall i :: i in batch ==> i < |rows| && Ready(rows[i], at))
            && |batch| <= Limit(c.limit)
            && (forall j, k :: 0 <= j < k < |batch| ==> batch[j] != batch[k])
  {
    SelectIsFirst(rows, ReadyIds(rows, at) - locked, Limit(c.limit));
  }

  lemma ClaimEvolves(c: Config, rows: Table, id: string, at: Time, locked: set<nat>)
    ensures Evolves(rows, Claimed(rows, Batch(rows, at, c.limit, locked), id, at, at + c.claimTTL))
  {
    BatchIsReady(c, rows, at, locked);
  }

  lemma MarkEvolves(rows: Table, id: nat, claimId: string, o: Outcome)
    ensures Evolves(rows, Marked(rows, id, claimId, o))
  {
  }

  lemma StepEvolves(c: Config, s: State, a: Action, s': State)
    requires Enabled(c, s, a) && s' == Apply(c, s, a)
    ensures Evolves(s.rows, s'.rows)
    ensures s.log <= s'.log && s.issued <= s'.issued && s.now <= s'.now
  {
    match a {
      case Claim(_, id, at, locked) => ClaimEvolves(c, s.rows, id, at, locked);
      case MarkSent(d) =>
        MarkEvolves(s.rows, s.dispatchers[d].pending[0].id, s.dispatchers[d].claimId, MarkOf(c, s.dispatchers[d], ""));
      case MarkFailed(d, m) =>
        MarkEvolves(s.rows, s.dispatchers[d].pending[0].id, s.dispatchers[d].claimId, MarkOf(c, s.dispatchers[d], m));
      case _ =>
    }
  }

  lemma LogKeeps(log: seq<Published>, log': seq<Published>)
    requires log <= log'
    ensures forall x :: x in log ==> x in log'
  {
    forall x | x in log ensures x in log' {
      var i :| 0 <= i < |log| && log[i] == x;
      assert log'[i] == x;
    }
  }

  /** What a claim does to one row. */
  lemma ClaimRow(c: Config, s: State, a: Action, s': State, i: nat)
    requires a.Claim? && Enabled(c, s, a) && s' == Apply(c, s, a) && i < |s.rows| && RowOk(c, s, i) && c.Valid()
    ensures |s'.rows| == |s.rows| && RowOk(c, s', i)
    ensures s'.rows[i] == s.rows[i]
            || (Ready(s.rows[i], a.at) && s'.rows[i] == ClaimedRow(s.rows[i], a.claimId, a.at, a.at + c.claimTTL))
  {
    BatchIsReady(c, s.rows, a.at, a.locked);
  }

  lemma MarkRow(c: Config, s: State, d: nat, message: string, s': State, i: nat)
    requires d in s.dispatchers && s.dispatchers[d].pending != [] && s' == AfterMark(c, s, d, message)
    requires DispatcherOk(c, s, s.dispatchers[d]) && i < |s.rows| && RowOk(c, s, i)
    ensures |s'.rows| == |s.rows| && RowOk(c, s', i)
  {
    assert ItemOk(c, s, s.dispatchers[d], s.dispatchers[d].pending[0]);
  }

  lemma RowPreserved(c: Config, s: State, a: Action, s': State, i: nat)
    requires Inv(c, s) && Enabled(c, s, a) && s' == Apply(c, s, a) && i < |s'.rows|
    ensures RowOk(c, s', i)
  {
    if i < |s.rows| {
      assert RowOk(c, s, i);
      if a.Claim? {
        ClaimRow(c, s, a, s', i);
      } else if a.MarkSent? || a.MarkFailed? {
        assert DispatcherOk(c, s, s.dispatchers[a.d]);
        MarkRow(c, s, a.d, if a.MarkSent? then "" else a.message, s', i);
      } else {
        StepEvolves(c, s, a, s');
        LogKeeps(s.log, s'.log);
      }
    } else {
      assert a.Insert? || (a.Claim? && i < |s.rows|);
    }
  }

  lemma UniquePreserved(c: Config, s: State, a: Action, s': State)
    requires Unique(s.rows) && Enabled(c, s, a) && s' == Apply(c, s, a)
    ensures Unique(s'.rows)
  {
    StepEvolves(c, s, a, s');
    if a.Insert? {
      var q := s.creators[a.p];
      assert FindActive(s.rows, q.topic, q.key).None? ==>
               forall i :: 0 <= i < |s.rows| ==> !Matches(s.rows[i], q.topic, q.key);
    } else {
      assert |s'.rows| == |s.rows|;
    }
  }

  lemma CreatorPreserved(c: Config, s: State, a: Action, s': State, p: nat)
    requires Enabled(c, s, a) && s' == Apply(c, s, a) && p in s'.creators
    requires p in s.creators ==> CreatorOk(s, s.creators[p])
    ensures CreatorOk(s', s'.creators[p])
  {
    StepEvolves(c, s, a, s');
  }

  lemma DistinctPreserved(c: Config, s: State, a: Action, s': State, d: nat, e: nat)
    requires Enabled(c, s, a) && s' == Apply(c, s, a) && d in s'.dispatchers && e in s'.dispatchers
    requires d in s.dispatchers ==> s.dispatchers[d].claimId in s.issued
    requires e in s.dispatchers ==> s.dispatchers[e].claimId in s.issued
    requires d in s.dispatchers && e in s.dispatchers ==> Distinct(s, d, e)
    ensures Distinct(s', d, e)
  {
  }

  lemma ItemAfterClaim(c: Config, s: State, a: Action, s': State, g: Dispatcher, x: Item)
    requires c.Valid() && a.Claim? && Enabled(c, s, a) && s' == Apply(c, s, a)
    requires ItemOk(c, s, g, x) && g.claimId in s.issued && RowOk(c, s, x.id)
    ensures ItemOk(c, s', g, x)
  {
    ClaimRow(c, s, a, s', x.id);
  }

  lemma ItemAfterMark(c: Config, s: State, d: nat, message: string, s': State, g: Dispatcher, x: Item)
    requires d in s.dispatchers && s.dispatchers[d].pending != [] && s' == AfterMark(c, s, d, message)
    requires ItemOk(c, s, g, x) && g.claimId != "" && s.dispatchers[d].claimId != g.claimId
    ensures ItemOk(c, s', g, x)
  {
  }

  /** An item of a dispatcher that does not act stays accurate. */
  lemma ItemPreserved(c: Config, s: State, a: Action, s': State, g: Dispatcher, x: Item)
    requires c.Valid() && Enabled(c, s, a) && s' == Apply(c, s, a)
    requires ItemOk(c, s, g, x) && g.claimId in s.issued && g.claimId != "" && RowOk(c, s, x.id)
    requires (a.MarkSent? || a.MarkFailed?) ==> s.dispatchers[a.d].claimId != g.claimId
    ensures ItemOk(c, s', g, x)
  {
    match a {
      case Claim(_, _, _, _) => ItemAfterClaim(c, s, a, s', g, x);
      case MarkSent(d) => ItemAfterMark(c, s, d, "", s', g, x);
      case MarkFailed(d, message) => ItemAfterMark(c, s, d, message, s', g, x);
      case _ =>
    }
  }

  lemma ClaimedItemOk(c: Config, s: State, a: Action, s': State, g: Dispatcher, k: nat)
    requires c.Valid() && a.Claim? && Enabled(c, s, a) && s' == Apply(c, s, a) && g == s'.dispatchers[a.d]
    requires k < |Batch(s.rows, a.at, c.limit, a.locked)|
    requires Batch(s.rows, a.at, c.limit, a.locked)[k] < |s.rows|
          && Ready(s.rows[Batch(s.rows, a.at, c.limit, a.locked)[k]], a.at)
    requires RowOk(c, s, Batch(s.rows, a.at, c.limit, a.locked)[k])
    ensures ItemOk(c, s', g, g.pending[k])
  {
  }

  lemma NewDispatcherOk(c: Config, s: State, a: Action, s': State)
    requires Inv(c, s) && a.Claim? && Enabled(c, s, a) && s' == Apply(c, s, a)
    ensures DispatcherOk(c, s', s'.dispatchers[a.d])
  {
    var g := s'.dispatchers[a.d];
    BatchIsReady(c, s.rows, a.at, a.locked);
    forall k | 0 <= k < |g.pending| ensures ItemOk(c, s', g, g.pending[k]) {
      assert RowOk(c, s, Batch(s.rows, a.at, c.limit, a.locked)[k]);
      ClaimedItemOk(c, s, a, s', g, k);
    }
  }

  lemma WriterOk(c: Config, s: State, a: Action, s': State)
    requires a.Write? && Enabled(c, s, a) && s' == Apply(c, s, a) && DispatcherOk(c, s, s.dispatchers[a.d])
    ensures DispatcherOk(c, s', s'.dispatchers[a.d])
  {
    var g, g' := s.dispatchers[a.d], s'.dispatchers[a.d];
    LogKeeps(s.log, s'.log);
    forall k | 0 <= k < |g'.pending| ensures ItemOk(c, s', g', g'.pending[k]) {
      assert ItemOk(c, s, g, g.pending[k]);
    }
    var e := g.pending[0].event;
    if a.ok {
      assert s'.log[|s.log|] == Published(e.topic, e.key, e.value);
    }
  }

  lemma MarkerOk(c: Config, s: State, d: nat, message: string, s': State)
    requires d in s.dispatchers && s.dispatchers[d].pending != [] && s' == AfterMark(c, s, d, message)
    requires DispatcherOk(c, s, s.dispatchers[d]) && d in s'.dispatchers
    ensures DispatcherOk(c, s', s'.dispatchers[d])
  {
    var g, g' := s.dispatchers[d], s'.dispatchers[d];
    forall k | 0 <= k < |g'.pending| ensures ItemOk(c, s', g', g'.pending[k]) {
      assert g'.pending[k] == g.pending[k + 1];
      assert ItemOk(c, s, g, g.pending[k + 1]);
      assert g.pending[k + 1].id != g.pending[0].id;
    }
  }

  lemma DispatcherPreserved(c: Config, s: State, a: Action, s': State, d: nat)
    requires Inv(c, s) && Enabled(c, s, a) && s' == Apply(c, s, a) && d in s'.dispatchers
    ensures DispatcherOk(c, s', s'.dispatchers[d])
  {
    if a.Claim? && a.d == d {
      NewDispatcherOk(c, s, a, s');
    } else {
      assert DispatcherOk(c, s, s.dispatchers[d]);
      if a.Write? && a.d == d {
        WriterOk(c, s, a, s');
      } else if a.MarkSent? && a.d == d {
        MarkerOk(c, s, d, "", s');
      } else if a.MarkFailed? && a.d == d {
        MarkerOk(c, s, d, a.message, s');
      } else {
        assert (a.MarkSent? || a.MarkFailed?) ==> Distinct(s, a.d, d);
        HeldRowsOk(c, s, d);
        BystanderOk(c, s, a, s', d);
      }
    }
  }

  lemma HeldRowsOk(c: Config, s: State, d: nat)
    requires Inv(c, s) && d in s.dispatchers
    ensures forall k :: 0 <= k < |s.dispatchers[d].pending| ==>
              s.dispatchers[d].pending[k].id < |s.rows| && RowOk(c, s, s.dispatchers[d].pending[k].id)
  {
    var pending := s.dispatchers[d].pending;
    assert DispatcherOk(c, s, s.dispatchers[d]);
    forall k | 0 <= k < |pending| ensures pending[k].id < |s.rows| && RowOk(c, s, pending[k].id) {
      assert ItemOk(c, s, s.dispatchers[d], pending[k]);
    }
  }

  lemma BystanderOk(c: Config, s: State, a: Action, s': State, d: nat)
    requires c.Valid() && Enabled(c, s, a) && s' == Apply(c, s, a) && d in s.dispatchers && d in s'.dispatchers
    requires forall k :: 0 <= k < |s.dispatchers[d].pending| ==>
               s.dispatchers[d].pending[k].id < |s.rows| && RowOk(c, s, s.dispatchers[d].pending[k].id)
    requires (a.Claim? || a.Write? || a.MarkSent? || a.MarkFailed?) ==> a.d != d
    requires (a.MarkSent? || a.MarkFailed?) ==> Distinct(s, a.d, d)
    requires DispatcherOk(c, s, s.dispatchers[d])
    ensures DispatcherOk(c, s', s'.dispatchers[d])
  {
    StepEvolves(c, s, a, s');
    ItemsPreserved(c, s, a, s', s.dispatchers[d]);
    DispatcherStays(c, s, s', s.dispatchers[d]);
  }

  /** A dispatcher that others acted beside is still in order if the items of its batch are. */
  lemma DispatcherStays(c: Config, s: State, s': State, g: Dispatcher)
    requires DispatcherOk(c, s, g) && s.log <= s'.log && s.issued <= s'.issued && s.now <= s'.now
    requires forall k :: 0 <= k < |g.pending| ==> ItemOk(c, s', g, g.pending[k])
    ensures DispatcherOk(c, s', g)
  {
    LogKeeps(s.log, s'.log);
  }

  lemma ItemsPreserved(c: Config, s: State, a: Action, s': State, g: Dispatcher)
    requires c.Valid() && Enabled(c, s, a) && s' == Apply(c, s, a) && g.claimId in s.issued && g.claimId != ""
    requires forall k :: 0 <= k < |g.pending| ==>
               ItemOk(c, s, g, g.pending[k]) && g.pending[k].id < |s.rows| && RowOk(c, s, g.pending[k].id)
    requires (a.MarkSent? || a.MarkFailed?) ==> s.dispatchers[a.d].claimId != g.claimId
    ensures forall k :: 0 <= k < |g.pending| ==> ItemOk(c, s', g, g.pending[k])
  {
    forall k | 0 <= k < |g.pending| ensures ItemOk(c, s', g, g.pending[k]) {
      ItemPreserved(c, s, a, s', g, g.pending[k]);
    }
  }

  lemma CountsPreserved(c: Config, s: State, a: Action, s': State)
    requires Inv(c, s) && Enabled(c, s, a) && s' == Apply(c, s, a)
    ensures forall i: nat :: i in s'.failMarks ==> i < |s'.rows|
  {
    StepEvolves(c, s, a, s');
  }

  lemma InvInit(c: Config, now: Time)
    requires c.Valid()
    ensures Inv(c, Init(now))
  {
  }

  /** Every action of every participant keeps the invariant. */
  lemma InvStep(c: Config, s: State, a: Action)
    requires Inv(c, s) && Enabled(c, s, a)
    ensures Inv(c, Apply(c, s, a))
  {
    var s' := Apply(c, s, a);
    UniquePreserved(c, s, a, s');
    CountsPreserved(c, s, a, s');
    forall i | 0 <= i < |s'.rows| ensures RowOk(c, s', i) {
      RowPreserved(c, s, a, s', i);
    }
    forall d | d in s'.dispatchers ensures DispatcherOk(c, s', s'.dispatchers[d]) {
      DispatcherPreserved(c, s, a, s', d);
    }
    forall p | p in s'.creators ensures CreatorOk(s', s'.creators[p]) {
      assert p in s.creators ==> CreatorOk(s, s.creators[p]);
      CreatorPreserved(c, s, a, s', p);
    }
    forall d, e | d in s'.dispatchers && e in s'.dispatchers ensures Distinct(s', d, e) {
      assert d in s.dispatchers ==> DispatcherOk(c, s, s.dispatchers[d]);
      assert e in s.dispatchers ==> DispatcherOk(c, s, s.dispatchers[e]);
      DistinctPreserved(c, s, a, s', d, e);
    }
  }

  lemma {:induction false} InvRun(c: Config, s: State, actions: seq<Action>)
    requires Inv(c, s) && After(c, s, actions).Some?
    ensures Inv(c, After(c, s, actions).value)
  {
    if actions != [] {
      var last := |actions| - 1;
      InvRun(c, s, actions[..last]);
      InvStep(c, After(c, s, actions[..last]).value, actions[last]);
    }
  }
}
