/** What every run of the outbox guarantees: at-least-once, exclusive claims, one active event per key. */
module OutboxSafety {
  import opened Common
  import opened Events
  import opened OutboxTable
  import opened OutboxProtocol

  ghost predicate Reaches(c: Config, s: State, actions: seq<Action>, t: State) {
    After(c, s, actions) == Some(t)
  }

  lemma Reached(c: Config, start: Time, actions: seq<Action>, s: State)
    requires c.Valid() && Reaches(c, Init(start), actions, s)
    ensures Inv(c, s)
  {
    InvInit(c, start);
    InvRun(c, Init(start), actions);
  }

  /** A sent row was written to the broker first, with its own topic, key and value. */
  lemma SentWasPublished(c: Config, start: Time, actions: seq<Action>, s: State, i: nat)
    requires c.Valid() && Reaches(c, Init(start), actions, s) && i < |s.rows| && s.rows[i].status.Sent?
    ensures Published(s.rows[i].topic, s.rows[i].key, s.rows[i].value) in s.log
  {
    Reached(c, start, actions, s);
    assert RowOk(c, s, i);
  }

  /** When the row becomes claimable: its next attempt, or the end of its lease. */
  function WakesAt(r: OutboxEvent): Time {
    if r.status.Processing? && r.lockedUntil.Some? then r.lockedUntil.value else r.nextAttemptAt
  }

  /** No event is ever stuck: every row not sent is claimable exactly from its wake-up time on. */
  lemma NeverStuck(c: Config, start: Time, actions: seq<Action>, s: State, i: nat, now: Time)
    requires c.Valid() && Reaches(c, Init(start), actions, s) && i < |s.rows| && !s.rows[i].status.Sent?
    ensures Ready(s.rows[i], now) <==> now >= WakesAt(s.rows[i])
  {
    Reached(c, start, actions, s);
    assert RowOk(c, s, i);
  }

  /** Two dispatchers whose leases are both live never share an event, and no batch exceeds the limit. */
  lemma LiveBatchesDisjoint(c: Config, start: Time, actions: seq<Action>, s: State, d: nat, e: nat, j: nat, k: nat)
    requires c.Valid() && Reaches(c, Init(start), actions, s)
    requires d in s.dispatchers && e in s.dispatchers && d != e
    requires s.dispatchers[d].at + c.claimTTL > s.now && s.dispatchers[e].at + c.claimTTL > s.now
    requires j < |s.dispatchers[d].pending| && k < |s.dispatchers[e].pending|
    ensures s.dispatchers[d].pending[j].id != s.dispatchers[e].pending[k].id
    ensures |s.dispatchers[d].pending| <= Limit(c.limit)
  {
    Reached(c, start, actions, s);
    assert DispatcherOk(c, s, s.dispatchers[d]) && DispatcherOk(c, s, s.dispatchers[e]) && Distinct(s, d, e);
    assert ItemOk(c, s, s.dispatchers[d], s.dispatchers[d].pending[j]);
    assert ItemOk(c, s, s.dispatchers[e], s.dispatchers[e].pending[k]);
  }

  /** A row's attempts counter is the number of accepted MarkFailed calls on it. */
  lemma AttemptsCountFailures(c: Config, start: Time, actions: seq<Action>, s: State, i: nat)
    requires c.Valid() && Reaches(c, Init(start), actions, s) && i < |s.rows|
    ensures s.rows[i].attempts == s.failMarks[i]
  {
    Reached(c, start, actions, s);
    assert RowOk(c, s, i);
  }

  /** At most one active event per topic and key. */
  lemma OneActivePerKey(c: Config, start: Time, actions: seq<Action>, s: State, i: nat, j: nat)
    requires c.Valid() && Reaches(c, Init(start), actions, s) && i < |s.rows| && j < |s.rows|
    requires !s.rows[i].status.Sent? && !s.rows[j].status.Sent?
    requires s.rows[i].topic == s.rows[j].topic && s.rows[i].key == s.rows[j].key
    ensures i == j
  {
    Reached(c, start, actions, s);
  }

  lemma {:induction false} RowsEvolve(c: Config, s: State, actions: seq<Action>, t: State)
    requires Reaches(c, s, actions, t)
    ensures Evolves(s.rows, t.rows)
  {
    if actions != [] {
      var last := |actions| - 1;
      var m := After(c, s, actions[..last]).value;
      RowsEvolve(c, s, actions[..last], m);
      StepEvolves(c, m, actions[last], t);
    }
  }

  /** Sent is absorbing: the row never changes again in any run. */
  lemma SentForever(c: Config, s: State, actions: seq<Action>, t: State, i: nat)
    requires Reaches(c, s, actions, t) && i < |s.rows| && s.rows[i].status.Sent?
    ensures i < |t.rows| && t.rows[i] == s.rows[i]
  {
    RowsEvolve(c, s, actions, t);
  }

  /** The claim was issued but the row is now held by somebody else, or by nobody. */
  ghost predicate Replaced(s: State, i: nat, claimId: string) {
    claimId != "" && claimId in s.issued && i < |s.rows| && s.rows[i].claimId != claimId
  }

  lemma ReplacedStep(c: Config, s: State, a: Action, s': State, i: nat, claimId: string)
    requires Enabled(c, s, a) && s' == Apply(c, s, a) && Replaced(s, i, claimId)
    ensures Replaced(s', i, claimId)
  {
    if a.Claim? {
      BatchIsReady(c, s.rows, a.at, a.locked);
    }
  }

  lemma {:induction false} ReplacedForever(c: Config, s: State, actions: seq<Action>, t: State, i: nat, claimId: string)
    requires Reaches(c, s, actions, t) && Replaced(s, i, claimId)
    ensures Replaced(t, i, claimId)
  {
    if actions != [] {
      var last := |actions| - 1;
      var m := After(c, s, actions[..last]).value;
      ReplacedForever(c, s, actions[..last], m, i, claimId);
      ReplacedStep(c, m, actions[last], t, i, claimId);
    }
  }

  /** A late mark by a replaced claim is refused and ends that dispatch, however late it comes. */
  lemma LateMarkRefused(c: Config, s: State, actions: seq<Action>, t: State, d: nat, a: Action)
    requires Reaches(c, s, actions, t) && (a.MarkSent? || a.MarkFailed?) && a.d == d && Enabled(c, t, a)
    requires Replaced(s, t.dispatchers[d].pending[0].id, t.dispatchers[d].claimId)
    ensures Apply(c, t, a).rows == t.rows && d !in Apply(c, t, a).dispatchers
  {
    ReplacedForever(c, s, actions, t, t.dispatchers[d].pending[0].id, t.dispatchers[d].claimId);
  }

  /** In `s` creator `p` is inside its call and event `id` is active under the key it asked for. */
  ghost predicate ActiveDuringCall(s: State, p: nat, q: Creator, id: nat) {
    && p in s.creators && s.creators[p].topic == q.topic && s.creators[p].key == q.key
    && id < |s.rows| && Matches(s.rows[id], q.topic, q.key)
  }

  lemma ReturnStep(c: Config, s: State, a: Action, s': State, p: nat)
    requires Enabled(c, s, a) && s' == Apply(c, s, a) && p in s'.creators && s'.creators[p].Returned?
    requires !(p in s.creators && s.creators[p] == s'.creators[p])
    ensures ActiveDuringCall(s', p, s'.creators[p], s'.creators[p].id)
  {
  }

  /** From state k of the run to its end creator `p` is inside one and the same call. */
  ghost predicate SameCallFrom(c: Config, s: State, actions: seq<Action>, p: nat, q: Creator, k: nat) {
    forall m :: k <= m <= |actions| ==>
      && After(c, s, actions[..m]).Some?
      && p in After(c, s, actions[..m]).value.creators && After(c, s, actions[..m]).value.creators[p] == q
  }

  /** Whatever event a creator hands back was active at some moment during that very call. */
  lemma {:induction false} ReturnedWasActive(c: Config, s: State, actions: seq<Action>, t: State, p: nat)
        returns (k: nat)
    requires Reaches(c, s, actions, t) && p !in s.creators && p in t.creators && t.creators[p].Returned?
    ensures k <= |actions| && SameCallFrom(c, s, actions, p, t.creators[p], k)
    ensures ActiveDuringCall(After(c, s, actions[..k]).value, p, t.creators[p], t.creators[p].id)
  {
    var last := |actions| - 1;
    var m := After(c, s, actions[..last]).value;
    assert actions[..|actions|] == actions;
    if p in m.creators && m.creators[p] == t.creators[p] {
      k := ReturnedWasActive(c, s, actions[..last], m, p);
      assert actions[..last][..k] == actions[..k];
      SameCallExtends(c, s, actions, t, p, k);
    } else {
      ReturnStep(c, m, actions[last], t, p);
      k := |actions|;
    }
  }

  lemma SameCallExtends(c: Config, s: State, actions: seq<Action>, t: State, p: nat, k: nat)
    requires actions != [] && Reaches(c, s, actions, t) && p in t.creators && k <= |actions| - 1
    requires SameCallFrom(c, s, actions[..|actions| - 1], p, t.creators[p], k)
    ensures SameCallFrom(c, s, actions, p, t.creators[p], k)
  {
    var front := actions[..|actions| - 1];
    forall m | k <= m <= |actions|
      ensures After(c, s, actions[..m]).Some? && p in After(c, s, actions[..m]).value.creators
              && After(c, s, actions[..m]).value.creators[p] == t.creators[p]
    {
      if m == |actions| {
        assert actions[..m] == actions;
      } else {
        assert front[..m] == actions[..m];
      }
    }
  }
}
