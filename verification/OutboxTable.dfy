/** The outbox_events table: ids are insertion order, claims are leased, marks are fenced. */
module OutboxTable {
  import opened Common
  import opened Events

  datatype OutboxStatus = Pending | Processing | Sent | Failed

  /** An empty `claimId` is the column's default. */
  datatype OutboxEvent = OutboxEvent(
    topic: string,
    key: string,
    value: CollectionRequested,
    status: OutboxStatus,
    attempts: int,
    nextAttemptAt: Time,
    lastError: string,
    claimId: string,
    lockedUntil: Option<Time>,
    createdAt: Time,
    updatedAt: Time,
    sentAt: Option<Time>)

  /** Row i has id i: ids are handed out in insertion order. */
  type Table = seq<OutboxEvent>

  predicate Active(r: OutboxEvent) {
    r.status.Pending? || r.status.Failed? || r.status.Processing?
  }

  /** outboxReadyForClaimFilter; a NULL lease never compares. */
  predicate Ready(r: OutboxEvent, now: Time) {
    || ((r.status.Pending? || r.status.Failed?) && r.nextAttemptAt <= now)
    || (r.status.Processing? && r.lockedUntil.Some? && r.lockedUntil.value <= now)
  }

  predicate Matches(r: OutboxEvent, topic: string, key: string) {
    Active(r) && r.topic == topic && r.key == key
  }

  /** ORDER BY next_attempt_at ASC, id ASC. */
  predicate Before(rows: Table, i: nat, j: nat)
    requires i < |rows| && j < |rows|
  {
    rows[i].nextAttemptAt < rows[j].nextAttemptAt || (rows[i].nextAttemptAt == rows[j].nextAttemptAt && i < j)
  }

  /** findActiveByTopicKey: the active row of lowest id. */
  function FindActive(rows: Table, topic: string, key: string): (r: Option<nat>)
    ensures r.Some? ==> r.value < |rows| && Matches(rows[r.value], topic, key)
    ensures r.None? ==> forall i :: 0 <= i < |rows| ==> !Matches(rows[i], topic, key)
    ensures r.Some? ==> forall i :: 0 <= i < r.value ==> !Matches(rows[i], topic, key)
  {
    if rows == [] then None
    else
      var last := |rows| - 1;
      match FindActive(rows[..last], topic, key)
      case Some(i) => Some(i)
      case None => if Matches(rows[last], topic, key) then Some(last) else None
  }

  function NewEvent(topic: string, key: string, value: CollectionRequested, at: Time): OutboxEvent {
    OutboxEvent(topic, key, value, Pending, 0, at, "", "", None, at, at, None)
  }

  // ---------------------------------------------------------------- selecting a batch

  function ReadyIds(rows: Table, now: Time): set<nat> {
    set i | 0 <= i < |rows| && Ready(rows[i], now)
  }

  predicate Leads(rows: Table, ids: set<nat>, m: nat)
    requires m < |rows| && forall i :: i in ids ==> i < |rows|
  {
    forall i :: i in ids && i != m ==> Before(rows, m, i)
  }

  lemma {:induction false} FirstExists(rows: Table, ids: set<nat>) returns (m: nat)
    requires ids != {} && forall i :: i in ids ==> i < |rows|
    ensures m in ids && Leads(rows, ids, m)
    decreases |ids|
  {
    m :| m in ids;
    if ids != {m} {
      var r := FirstExists(rows, ids - {m});
      assert ids == (ids - {m}) + {m};
      if Before(rows, r, m) {
        m := r;
      }
    }
  }

  function First(rows: Table, ids: set<nat>): (m: nat)
    requires ids != {} && forall i :: i in ids ==> i < |rows|
    ensures m in ids && Leads(rows, ids, m)
  {
    assert exists m :: m in ids && Leads(rows, ids, m) by {
      var m := FirstExists(rows, ids);
    }
    var m :| m in ids && Leads(rows, ids, m);
    m
  }

  /** ORDER BY ... LIMIT: the first `limit` of the candidate ids, in order. */
  function Select(rows: Table, ids: set<nat>, limit: nat): (batch: seq<nat>)
    requires forall i :: i in ids ==> i < |rows|
    ensures forall k :: 0 <= k < |batch| ==> batch[k] in ids
    decreases |ids|
  {
    if limit == 0 || ids == {} then []
    else
      var m := First(rows, ids);
      [m] + Select(rows, ids - {m}, limit - 1)
  }

  /** Full up to the limit, only candidates, in order, and nothing left out comes before anything taken. */
  lemma {:induction false} SelectIsFirst(rows: Table, ids: set<nat>, limit: nat)
    requires forall i :: i in ids ==> i < |rows|
    ensures var batch := Select(rows, ids, limit);
            && |batch| == Min(limit, |ids|)
            && (forall j, k :: 0 <= j < k < |batch| ==> Before(rows, batch[j], batch[k]))
            && (forall i, k :: i in ids && i !in batch && 0 <= k < |batch| ==> Before(rows, batch[k], i))
    decreases |ids|
  {
    if limit > 0 && ids != {} {
      SelectIsFirst(rows, ids - {First(rows, ids)}, limit - 1);
    }
  }

  function Limit(limit: int): nat {
    if limit <= 0 then 100 else limit
  }

  /** FOR UPDATE SKIP LOCKED: rows some other open transaction has locked are passed over. */
  function Batch(rows: Table, now: Time, limit: int, locked: set<nat>): seq<nat> {
    Select(rows, ReadyIds(rows, now) - locked, Limit(limit))
  }

  /** What a dispatcher may claim now, from the row's columns. */
  predicate Claimable(r: OutboxEvent, now: Time) {
    match r.status
    case Sent => false
    case Pending => now >= r.nextAttemptAt
    case Failed => now >= r.nextAttemptAt
    case Processing => r.lockedUntil.Some? && now >= r.lockedUntil.value
  }

  /** The claimable rows that nobody has locked. */
  function Candidates(rows: Table, now: Time, locked: set<nat>): set<nat> {
    set i | 0 <= i < |rows| && Claimable(rows[i], now) && i !in locked
  }

  predicate ComesFirst(x: OutboxEvent, i: nat, y: OutboxEvent, j: nat) {
    x.nextAttemptAt < y.nextAttemptAt || (x.nextAttemptAt == y.nextAttemptAt && i < j)
  }

  /** The ids are those of the candidates that come first, in order and up to the limit (100 if none is set). */
  ghost predicate FirstCandidates(rows: Table, now: Time, limit: int, locked: set<nat>, ids: seq<nat>) {
    var all := Candidates(rows, now, locked);
    && |ids| == Min(if limit > 0 then limit else 100, |all|)
    && (forall k :: 0 <= k < |ids| ==> ids[k] in all)
    && (forall j, k :: 0 <= j < k < |ids| ==> ComesFirst(rows[ids[j]], ids[j], rows[ids[k]], ids[k]))
    && (forall i, k :: i in all && i !in ids && 0 <= k < |ids| ==> ComesFirst(rows[ids[k]], ids[k], rows[i], i))
  }

  /** The rows of these ids are processing under the claim, nothing else has changed. */
  ghost predicate RowsClaimed(rows: Table, ids: seq<nat>, claimId: string, now: Time, lockedUntil: Time, rows': Table) {
    && |rows'| == |rows|
    && forall i :: 0 <= i < |rows| ==>
         rows'[i] == if i !in ids then rows[i]
                     else rows[i].(status := Processing, claimId := claimId, lockedUntil := Some(lockedUntil),
                                   updatedAt := now)
  }

  lemma BatchIsFirst(rows: Table, now: Time, limit: int, locked: set<nat>)
    ensures FirstCandidates(rows, now, limit, locked, Batch(rows, now, limit, locked))
    ensures ReadyIds(rows, now) == Candidates(rows, now, {})
  {
    SelectIsFirst(rows, ReadyIds(rows, now) - locked, Limit(limit));
    assert ReadyIds(rows, now) == Candidates(rows, now, {});
    assert ReadyIds(rows, now) - locked == Candidates(rows, now, locked);
  }

  function ClaimedRow(r: OutboxEvent, claimId: string, now: Time, lockedUntil: Time): OutboxEvent {
    r.(status := Processing, claimId := claimId, lockedUntil := Some(lockedUntil), updatedAt := now)
  }

  /** The committed effect of a claim transaction. */
  function Claimed(rows: Table, ids: seq<nat>, claimId: string, now: Time, lockedUntil: Time): (r: Table)
    ensures |r| == |rows|
  {
    seq(|rows|, i requires 0 <= i < |rows| =>
      if i in ids then ClaimedRow(rows[i], claimId, now, lockedUntil) else rows[i])
  }

  // ---------------------------------------------------------------- marking

  datatype Outcome = ToSent(at: Time) | ToFailed(attempts: int, next: Time, message: string)

  function MarkedRow(r: OutboxEvent, o: Outcome): OutboxEvent {
    match o
    case ToSent(at) =>
      r.(status := Sent, sentAt := Some(at), updatedAt := at, lastError := "", claimId := "", lockedUntil := None)
    case ToFailed(attempts, next, message) =>
      r.(status := Failed, attempts := attempts, nextAttemptAt := next, lastError := message, updatedAt := next,
         claimId := "", lockedUntil := None)
  }

  predicate Holds(rows: Table, id: nat, claimId: string) {
    id < |rows| && rows[id].status == Processing && rows[id].claimId == claimId
  }

  function Marked(rows: Table, id: nat, claimId: string, o: Outcome): (r: Table)
    ensures |r| == |rows|
  {
    if Holds(rows, id, claimId) then rows[id := MarkedRow(rows[id], o)] else rows
  }

  /** A row as a dispatcher read it when it claimed it. */
  datatype Item = Item(id: nat, event: OutboxEvent)

  function Items(rows: Table, ids: seq<nat>): (r: seq<Item>)
    requires forall k :: 0 <= k < |ids| ==> ids[k] < |rows|
  {
    seq(|ids|, k requires 0 <= k < |ids| => Item(ids[k], rows[ids[k]]))
  }

  class OutboxRepository {
    var rows: Table

    constructor ()
      ensures rows == []
    {
      rows := [];
    }

    /** INSERT under the unique index on active (topic, key). */
    method Insert(topic: string, key: string, value: CollectionRequested, at: Time) returns (duplicate: bool)
      modifies this
      ensures duplicate <==>
                exists i :: 0 <= i < |old(rows)| && !old(rows)[i].status.Sent?
                            && old(rows)[i].topic == topic && old(rows)[i].key == key
      ensures rows == if duplicate then old(rows) else old(rows) + [NewEvent(topic, key, value, at)]
    {
      duplicate := FindActive(rows, topic, key).Some?;
      assert forall i :: 0 <= i < |rows| ==>
               (Matches(rows[i], topic, key)
                <==> !rows[i].status.Sent? && rows[i].topic == topic && rows[i].key == key);
      if !duplicate {
        rows := rows + [NewEvent(topic, key, value, at)];
      }
    }

    /** findActiveByTopicKey. */
    method FindActiveByTopicKey(topic: string, key: string) returns (found: Option<nat>)
      ensures found == FindActive(rows, topic, key)
    {
      return FindActive(rows, topic, key);
    }

    /** The batch and the number of ready rows; the latter counts locked rows too. */
    method ClaimReady(now: Time, limit: int, claimId: string, lockedUntil: Time, locked: set<nat>)
      returns (emptyClaim: bool, events: seq<Item>, total: nat)
      modifies this
      ensures emptyClaim <==> claimId == ""
      ensures emptyClaim ==> rows == old(rows) && events == [] && total == 0
      ensures !emptyClaim ==>
                && total == |Candidates(old(rows), now, {})|
                && rows == Claimed(old(rows), Batch(old(rows), now, limit, locked), claimId, now, lockedUntil)
                && events == Items(rows, Batch(old(rows), now, limit, locked))
                && FirstCandidates(old(rows), now, limit, locked, Batch(old(rows), now, limit, locked))
                && RowsClaimed(old(rows), Batch(old(rows), now, limit, locked), claimId, now, lockedUntil, rows)
    {
      if claimId == "" {
        return true, [], 0;
      }
      BatchIsFirst(rows, now, limit, locked);
      total := |ReadyIds(rows, now)|;
      var ids := Batch(rows, now, limit, locked);
      rows := Claimed(rows, ids, claimId, now, lockedUntil);
      events := ReadItems(ids);
      return false, events, total;
    }

    /** The claimed events, in batch order. */
    method ReadItems(ids: seq<nat>) returns (events: seq<Item>)
      requires forall k :: 0 <= k < |ids| ==> ids[k] < |rows|
      ensures events == Items(rows, ids)
    {
      events := [];
      for k := 0 to |ids|
        invariant events == Items(rows, ids[..k])
      {
        events := events + [Item(ids[k], rows[ids[k]])];
      }
      assert ids[..|ids|] == ids;
    }

    /** updateClaimed: `lost` is ErrOutboxClaimLost. */
    method UpdateClaimed(id: nat, claimId: string, o: Outcome) returns (lost: bool)
      modifies this
      ensures rows == Marked(old(rows), id, claimId, o)
      ensures lost <==> !Holds(old(rows), id, claimId)
      ensures lost <==>
                !(id < |old(rows)| && old(rows)[id].status.Processing? && old(rows)[id].claimId == claimId)
      ensures |rows| == |old(rows)| && forall i :: 0 <= i < |rows| && (lost || i != id) ==> rows[i] == old(rows)[i]
      ensures !lost ==>
                var was, row := old(rows)[id], rows[id];
                && row.claimId == "" && row.lockedUntil.None?
                && row.topic == was.topic && row.key == was.key && row.value == was.value
                && row.createdAt == was.createdAt
                && match o
                   case ToSent(at) =>
                     && row.status.Sent? && row.sentAt == Some(at) && row.lastError == "" && row.updatedAt == at
                     && row.attempts == was.attempts && row.nextAttemptAt == was.nextAttemptAt
                   case ToFailed(attempts, next, message) =>
                     && row.status.Failed? && row.attempts == attempts && row.nextAttemptAt == next
                     && row.lastError == message && row.sentAt == was.sentAt
    {
      if id >= |rows| || rows[id].status != Processing || rows[id].claimId != claimId {
        return true;
      }
      rows := rows[id := MarkedRow(rows[id], o)];
      return false;
    }
  }
}
