/** The cached source listing refines the uncached one, in every sequential run of the service's operations. */
module SourceListing {
  import opened Common
  import opened CacheKeys
  import opened Redaction
  import opened SourceTable

  /**
   History, per cached key: `origins` has the table its entry was computed from, `missed` the keys that a
   deletion of their user failed to remove.
   */
  datatype State = State(rows: Table, cache: map<string, Response>, missed: set<string>, origins: map<string, Table>)

  function Init(rows: Table): State { State(rows, map[], {}, map[]) }

  /**
   Any change of the table that concerns one user, followed by the deletion of that user's entries (of
   which Redis may only remove some); a listing; an entry reaching its TTL.
   */
  datatype Op =
    | Mutate(userId: int, rows: Table, removed: set<string>)
    | List(request: SourceRequest, getFails: bool, setFails: bool)
    | Expire(key: string)

  function Key(r: SourceRequest): string { SourceKey(SOURCES, r) }

  predicate MatchesUser(userId: int, key: string) {
    PlainPrefixes();
    Matches(SOURCES, userId, key)
  }

  function OwnKeys(cache: map<string, Response>, userId: int): set<string> {
    set key | key in cache && MatchesUser(userId, key)
  }

  ghost predicate Enabled(s: State, op: Op) {
    op.Mutate? ==> OnlyTouches(s.rows, op.rows, op.userId) && op.removed <= OwnKeys(s.cache, op.userId)
  }

  function RedactedDTO(d: SourceDTO): SourceDTO { d.(config := RedactConfig(d.config)) }

  function RedactedResponse(resp: Response): Response {
    resp.(sources := seq(|resp.sources|, i requires 0 <= i < |resp.sources| => RedactedDTO(resp.sources[i])))
  }

  /** A hit is redacted again; a miss or a failing cache goes to the table. */
  function Reply(s: State, r: SourceRequest, getFails: bool): Response {
    if !getFails && Key(r) in s.cache then RedactedResponse(s.cache[Key(r)]) else Uncached(s.rows, r)
  }

  function Apply(s: State, op: Op): State {
    match op
    case Mutate(u, rows, removed) =>
      State(rows, s.cache - removed, s.missed + OwnKeys(s.cache, u) - removed, s.origins)
    case List(r, getFails, setFails) =>
      if (!getFails && Key(r) in s.cache) || setFails then s
      else State(s.rows, s.cache[Key(r) := Uncached(s.rows, r)], s.missed - {Key(r)}, s.origins[Key(r) := s.rows])
    case Expire(key) => s.(cache := s.cache - {key}, missed := s.missed - {key})
  }

  ghost function After(s: State, ops: seq<Op>): Option<State> {
    if ops == [] then Some(s)
    else
      var last := |ops| - 1;
      match After(s, ops[..last])
      case None => None
      case Some(m) => if Enabled(m, ops[last]) then Some(Apply(m, ops[last])) else None
  }

  /** The entry of `r` is the uncached listing of its origin up to redaction, and still that of now unless missed. */
  ghost predicate EntryOk(s: State, r: SourceRequest)
    requires Key(r) in s.cache
  {
    && Key(r) in s.origins
    && RedactedResponse(s.cache[Key(r)]) == Uncached(s.origins[Key(r)], r)
    && (Key(r) !in s.missed ==> Uncached(s.origins[Key(r)], r) == Uncached(s.rows, r))
  }

  ghost predicate Coherent(s: State) {
    && (forall r: SourceRequest :: Key(r) in s.cache ==> EntryOk(s, r))
    && s.missed <= s.cache.Keys
  }

  lemma UncachedIsRedacted(rows: Table, r: SourceRequest)
    ensures RedactedResponse(Uncached(rows, r)) == Uncached(rows, r)
  {
    var resp := Uncached(rows, r);
    forall i | 0 <= i < |resp.sources| ensures RedactedDTO(resp.sources[i]) == resp.sources[i] {
      var page := Page(Listing(rows, r.userId, r.sourceType), Max(0, r.offset), NormalizeLimit(r.limit, 20, 100));
      assert resp.sources[i] == ToDTO(page[i]);
      RedactConfigIdempotent(page[i].config);
    }
    assert RedactedResponse(resp).sources == resp.sources;
  }

  lemma SameRowsSameListing(rows: Table, rows': Table, r: SourceRequest)
    requires SameFor(rows, rows', r.userId)
    ensures Uncached(rows, r) == Uncached(rows', r)
  {
  }

  lemma OwnKeyIsMatched(u: int, r: SourceRequest)
    ensures MatchesUser(u, Key(r)) <==> r.userId == u
  {
    PlainPrefixes();
    PatternMatchesOwnSources(SOURCES, u, r);
  }

  lemma EntryStep(s: State, op: Op, r: SourceRequest)
    requires Coherent(s) && Enabled(s, op) && Key(r) in Apply(s, op).cache
    ensures EntryOk(Apply(s, op), r)
  {
    match op
    case Mutate(u, rows, removed) =>
      assert EntryOk(s, r);
      OwnKeyIsMatched(u, r);
      if r.userId != u {
        SameRowsSameListing(s.rows, rows, r);
      }
    case List(q, getFails, setFails) =>
      SourceKeyInjective(SOURCES, q, r);
      UncachedIsRedacted(s.rows, q);
      assert Key(r) in s.cache ==> EntryOk(s, r);
    case Expire(key) =>
      assert EntryOk(s, r);
  }

  lemma CoherentStep(s: State, op: Op)
    requires Coherent(s) && Enabled(s, op)
    ensures Coherent(Apply(s, op))
  {
    forall r: SourceRequest | Key(r) in Apply(s, op).cache ensures EntryOk(Apply(s, op), r) {
      EntryStep(s, op, r);
    }
  }

  lemma {:induction false} CoherentRun(s: State, ops: seq<Op>)
    requires Coherent(s) && After(s, ops).Some?
    ensures Coherent(After(s, ops).value)
  {
    if ops != [] {
      var last := |ops| - 1;
      CoherentRun(s, ops[..last]);
      CoherentStep(After(s, ops[..last]).value, ops[last]);
    }
  }

  /**
   In every run from an empty cache a request gets exactly the uncached listing, hit or miss, whether or not
   Redis fails, unless its entry outlived a deletion of its user.
   */
  lemma {:induction false} CachedRefinesUncached(rows: Table, ops: seq<Op>, s: State, r: SourceRequest, getFails: bool)
    requires After(Init(rows), ops) == Some(s) && Key(r) !in s.missed
    ensures Reply(s, r, getFails) == Uncached(s.rows, r)
  {
    CoherentRun(Init(rows), ops);
    assert Key(r) in s.cache ==> EntryOk(s, r);
  }

  /**
   In every run, exactly: the reply is right if and only if it is no hit, or the listing is as it was when the entry
   was stored.
   */
  lemma {:induction false} FreshIffUnchanged(rows: Table, ops: seq<Op>, s: State, r: SourceRequest, getFails: bool)
    requires After(Init(rows), ops) == Some(s)
    ensures Key(r) in s.cache ==> Key(r) in s.origins
    ensures Reply(s, r, getFails) == Uncached(s.rows, r)
            <==> getFails || Key(r) !in s.cache || Uncached(s.origins[Key(r)], r) == Uncached(s.rows, r)
  {
    CoherentRun(Init(rows), ops);
    assert Key(r) in s.cache ==> EntryOk(s, r);
  }

  ghost predicate Fresh(s: State, r: SourceRequest) {
    Reply(s, r, false) == Uncached(s.rows, r)
  }

  /** The entry of a request that a deletion of its user's entries failed to remove. */
  predicate Survives(s: State, op: Op, r: SourceRequest)
    requires op.Mutate?
  {
    r.userId == op.userId && Key(r) in s.cache && Key(r) !in op.removed
  }

  lemma FreshAfterMutation(s: State, op: Op, r: SourceRequest)
    requires Enabled(s, op) && op.Mutate? && Fresh(s, r)
    ensures Fresh(Apply(s, op), r) <==> (Survives(s, op, r) ==> Uncached(op.rows, r) == Uncached(s.rows, r))
  {
    OwnKeyIsMatched(op.userId, r);
    if r.userId != op.userId {
      SameRowsSameListing(s.rows, op.rows, r);
    }
  }

  /**
   One change, told from the moment it is made: if all replies were right before it, all are right after it
   exactly if every own entry that was not removed belongs to a request whose listing did not change.
   */
  lemma StaysFreshIffSurvivorsUnchanged(s: State, op: Op)
    requires Enabled(s, op) && op.Mutate? && forall r :: Fresh(s, r)
    ensures (forall r :: Fresh(Apply(s, op), r))
            <==> forall r :: Survives(s, op, r) ==> Uncached(op.rows, r) == Uncached(s.rows, r)
  {
    forall r
      ensures Fresh(Apply(s, op), r) <==> (Survives(s, op, r) ==> Uncached(op.rows, r) == Uncached(s.rows, r))
    {
      FreshAfterMutation(s, op, r);
    }
  }

  /**
   The input, for any visible row: its user lists no sources, the row is created, and Redis removes nothing;
   the user is still told that there are none.
   */
  lemma FailedDeletionServesOldListing(row: Source) returns (ops: seq<Op>, s: State, r: SourceRequest)
    requires row.deletedAt.None?
    ensures After(Init([]), ops) == Some(s) && s.rows == [row] && r.userId == row.userId
    ensures Reply(s, r, false).total == 0 && Uncached(s.rows, r).total == 1
  {
    r := SourceRequest(row.userId, "", 20, 0);
    var list, create := List(r, false, false), Mutate(row.userId, [row], {});
    var listed := Apply(Init([]), list);
    s := Apply(listed, create);
    ops := [list, create];
    ListStores([], r);
    CreationEnabled(listed, row);
    AfterTwo(Init([]), list, create);
    FailedDeletion(listed, create);
    HitKeepsTotal(s, r);
    OneSourceListed(row, r);
  }

  lemma ListStores(rows: Table, r: SourceRequest)
    ensures var s := Apply(Init(rows), List(r, false, false));
            s.rows == rows && Key(r) in s.cache && s.cache[Key(r)] == Uncached(rows, r)
  {
  }

  lemma CreationEnabled(s: State, row: Source)
    requires s.rows == []
    ensures Enabled(s, Mutate(row.userId, [row], {}))
  {
    AppendTouches([], row);
    assert [] + [row] == [row];
  }

  lemma FailedDeletion(s: State, op: Op)
    requires op.Mutate? && op.removed == {}
    ensures Apply(s, op).rows == op.rows && Apply(s, op).cache == s.cache
  {
  }

  lemma HitKeepsTotal(s: State, r: SourceRequest)
    requires Key(r) in s.cache
    ensures Reply(s, r, false).total == s.cache[Key(r)].total
  {
  }

  lemma AfterTwo(s: State, a: Op, b: Op)
    requires Enabled(s, a) && Enabled(Apply(s, a), b)
    ensures After(s, [a, b]) == Some(Apply(Apply(s, a), b))
  {
    assert [a, b][..1] == [a] && [a][..0] == [];
    assert After(s, []) == Some(s);
    assert After(s, [a]) == Some(Apply(s, a));
  }

  lemma OneSourceListed(row: Source, r: SourceRequest)
    requires row.deletedAt.None? && r.userId == row.userId && r.sourceType == ""
    ensures Uncached([], r).total == 0 && Uncached([row], r).total == 1
  {
    ListingIsExact([], row.userId, "");
    ListingIsExact([row], row.userId, "");
    assert ListedIds([row], row.userId, "") == {0};
  }

  /** Without a single failing deletion no entry is ever missed. */
  lemma {:induction false} NothingMissed(s: State, ops: seq<Op>)
    requires s.missed == {} && After(s, ops).Some?
    requires forall i :: 0 <= i < |ops| && ops[i].Mutate? ==>
               After(s, ops[..i]).Some? && ops[i].removed == OwnKeys(After(s, ops[..i]).value.cache, ops[i].userId)
    ensures After(s, ops).value.missed == {}
  {
    if ops != [] {
      var last := |ops| - 1;
      forall i | 0 <= i < last ensures ops[..last][..i] == ops[..i] {}
      NothingMissed(s, ops[..last]);
      assert ops[last].Mutate? ==> ops[last].removed == OwnKeys(After(s, ops[..last]).value.cache, ops[last].userId);
    }
  }

  /** No reply carries a secret, whatever older versions left in the cache. */
  lemma RepliesHaveNoSecrets(s: State, r: SourceRequest, getFails: bool, i: nat)
    requires i < |Reply(s, r, getFails).sources|
    ensures Reply(s, r, getFails).sources[i].config.Parsed? && NoSecrets(Reply(s, r, getFails).sources[i].config.value)
  {
    UncachedIsRedacted(s.rows, r);
    var resp := if !getFails && Key(r) in s.cache then s.cache[Key(r)] else Uncached(s.rows, r);
    assert Reply(s, r, getFails).sources[i] == RedactedDTO(resp.sources[i]);
    RedactConfigIdempotent(resp.sources[i].config);
  }
}
