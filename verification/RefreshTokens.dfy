/**
 Refresh-token rotation: find, revoke, create as separate steps, in any interleaving of logins, refreshes and
 logouts.
 */
module RefreshTokens {
  import opened Common

  datatype Token = Token(userId: int, expiresAt: Time, revokedAt: Option<Time>)

  /** Rows by token hash, which is unique. */
  type Table = map<string, Token>

  predicate Usable(tokens: Table, hash: string, now: Time) {
    hash in tokens && tokens[hash].revokedAt.None? && tokens[hash].expiresAt > now
  }

  /** RevokeByHash looks at revoked_at only, not at the expiry. */
  predicate Revocable(tokens: Table, hash: string) {
    hash in tokens && tokens[hash].revokedAt.None?
  }

  function Revoked(tokens: Table, hash: string, at: Time): Table {
    if Revocable(tokens, hash) then tokens[hash := tokens[hash].(revokedAt := Some(at))] else tokens
  }

  class RefreshTokenRepository {
    var tokens: Table

    constructor ()
      ensures tokens == map[]
    {
      tokens := map[];
    }

    method Create(hash: string, token: Token) returns (duplicate: bool)
      modifies this
      ensures duplicate <==> hash in old(tokens)
      ensures tokens == if duplicate then old(tokens) else old(tokens)[hash := token]
    {
      duplicate := hash in tokens;
      if !duplicate {
        tokens := tokens[hash := token];
      }
    }

    method FindValidByHash(hash: string, now: Time) returns (found: Option<Token>)
      ensures found == if Usable(tokens, hash, now) then Some(tokens[hash]) else None
      ensures found.Some? <==> hash in tokens && tokens[hash].revokedAt.None? && now < tokens[hash].expiresAt
    {
      if hash in tokens && tokens[hash].revokedAt.None? && tokens[hash].expiresAt > now {
        return Some(tokens[hash]);
      }
      return None;
    }

    method RevokeByHash(hash: string, at: Time) returns (notFound: bool)
      modifies this
      ensures notFound <==> !Revocable(old(tokens), hash)
      ensures tokens == Revoked(old(tokens), hash, at)
      ensures notFound <==> !(hash in old(tokens) && old(tokens)[hash].revokedAt.None?)
      ensures notFound ==> tokens == old(tokens)
      ensures !notFound ==> tokens == old(tokens)[hash := old(tokens)[hash].(revokedAt := Some(at))]
    {
      if hash !in tokens || tokens[hash].revokedAt.Some? {
        return true;
      }
      tokens := tokens[hash := tokens[hash].(revokedAt := Some(at))];
      return false;
    }
  }

  /** A Refresh between its steps. */
  datatype Call = Found(hash: string, userId: int) | Exchanging(userId: int)

  /**
   History, per user: accepted logins and logouts, and refreshes that stopped after revoking; and, per
   token hash, how often it was consumed.
   */
  datatype State = State(
    tokens: Table,
    now: Time,
    calls: map<nat, Call>,
    logins: multiset<int>,
    logouts: multiset<int>,
    lost: multiset<int>,
    consumed: multiset<string>)

  datatype Action =
    | Tick(to: Time)
    | Login(userId: int, hash: string, expiresAt: Time)
    | Find(p: nat, hash: string, at: Time)
    | Revoke(p: nat, at: Time)
    | Exchange(p: nat, hash: string, expiresAt: Time)
    | Stop(p: nat)
    | Logout(hash: string, at: Time)

  function Init(now: Time): State {
    State(map[], now, map[], multiset{}, multiset{}, multiset{}, multiset{})
  }

  predicate Enabled(s: State, a: Action) {
    match a
    case Tick(to) => s.now <= to
    case Login(_, hash, _) => hash !in s.tokens
    case Find(p, hash, at) => p !in s.calls && at <= s.now && Usable(s.tokens, hash, at)
    case Revoke(p, at) => p in s.calls && s.calls[p].Found? && at <= s.now
    case Exchange(p, hash, _) => p in s.calls && s.calls[p].Exchanging? && hash !in s.tokens
    case Stop(p) => p in s.calls
    case Logout(_, at) => at <= s.now
  }

  function Apply(s: State, a: Action): State
    requires Enabled(s, a)
  {
    match a
    case Tick(to) => s.(now := to)
    case Login(u, hash, expiresAt) =>
      s.(tokens := s.tokens[hash := Token(u, expiresAt, None)], logins := s.logins + multiset{u})
    case Find(p, hash, _) => s.(calls := s.calls[p := Found(hash, s.tokens[hash].userId)])
    case Revoke(p, at) =>
      var Found(hash, u) := s.calls[p];
      if !Revocable(s.tokens, hash) then s.(calls := s.calls - {p})
      else s.(tokens := Revoked(s.tokens, hash, at), consumed := s.consumed + multiset{hash},
              calls := s.calls[p := Exchanging(u)])
    case Exchange(p, hash, expiresAt) =>
      s.(tokens := s.tokens[hash := Token(s.calls[p].userId, expiresAt, None)], calls := s.calls - {p})
    case Stop(p) =>
      s.(calls := s.calls - {p},
         lost := if s.calls[p].Exchanging? then s.lost + multiset{s.calls[p].userId} else s.lost)
    case Logout(hash, at) =>
      if !Revocable(s.tokens, hash) then s
      else s.(tokens := Revoked(s.tokens, hash, at), consumed := s.consumed + multiset{hash},
              logouts := s.logouts + multiset{s.tokens[hash].userId})
  }

  function After(s: State, actions: seq<Action>): Option<State> {
    if actions == [] then Some(s)
    else
      var last := |actions| - 1;
      match After(s, actions[..last])
      case None => None
      case Some(m) => if Enabled(m, actions[last]) then Some(Apply(m, actions[last])) else None
  }

  function Unrevoked(s: State, u: int): set<string> {
    set hash | hash in s.tokens && s.tokens[hash].userId == u && s.tokens[hash].revokedAt.None?
  }

  /** The user's refreshes between revoke and create. */
  function InFlight(s: State, u: int): set<nat> {
    set p | p in s.calls && s.calls[p] == Exchanging(u)
  }

  /** Every login is accounted for exactly once. */
  ghost predicate Balanced(s: State, u: int) {
    |Unrevoked(s, u)| + |InFlight(s, u)| + s.lost[u] + s.logouts[u] == s.logins[u]
  }

  ghost predicate ConsumedOk(s: State, hash: string) {
    s.consumed[hash] == if hash in s.tokens && s.tokens[hash].revokedAt.Some? then 1 else 0
  }

  predicate CallOk(s: State, q: Call) {
    q.Found? ==> q.hash in s.tokens && s.tokens[q.hash].userId == q.userId
  }

  ghost predicate Inv(s: State) {
    && (forall u :: Balanced(s, u))
    && (forall hash :: ConsumedOk(s, hash))
    && (forall p :: p in s.calls ==> CallOk(s, s.calls[p]))
  }

  /** A new token of user v adds one to v's live tokens and touches nobody else's. */
  lemma CreateAdds(s: State, s': State, hash: string, v: int, expiresAt: Time, u: int)
    requires hash !in s.tokens && s'.tokens == s.tokens[hash := Token(v, expiresAt, None)]
    ensures |Unrevoked(s', u)| == |Unrevoked(s, u)| + if u == v then 1 else 0
  {
    assert Unrevoked(s', u) == Unrevoked(s, u) + if u == v then {hash} else {};
  }

  lemma RevokeRemoves(s: State, s': State, hash: string, at: Time, u: int)
    requires Revocable(s.tokens, hash) && s'.tokens == Revoked(s.tokens, hash, at)
    ensures |Unrevoked(s', u)| == |Unrevoked(s, u)| - if u == s.tokens[hash].userId then 1 else 0
  {
    if u == s.tokens[hash].userId {
      assert Unrevoked(s', u) == Unrevoked(s, u) - {hash};
    } else {
      assert Unrevoked(s', u) == Unrevoked(s, u);
    }
  }

  lemma FlightEnds(s: State, s': State, p: nat, u: int)
    requires p in s.calls && s'.calls == s.calls - {p}
    ensures |InFlight(s', u)| == |InFlight(s, u)| - if s.calls[p] == Exchanging(u) then 1 else 0
  {
    assert InFlight(s', u) == InFlight(s, u) - {p};
  }

  lemma FlightMoves(s: State, s': State, p: nat, q: Call, u: int)
    requires (p in s.calls ==> !s.calls[p].Exchanging?) && s'.calls == s.calls[p := q]
    ensures |InFlight(s', u)| == |InFlight(s, u)| + if q == Exchanging(u) then 1 else 0
  {
    assert InFlight(s', u) == InFlight(s, u) + if q == Exchanging(u) then {p} else {};
  }

  lemma BalanceStep(s: State, a: Action, s': State, u: int)
    requires Inv(s) && Enabled(s, a) && s' == Apply(s, a)
    ensures Balanced(s', u)
  {
    assert Balanced(s, u);
    match a {
      case Login(v, hash, expiresAt) => CreateAdds(s, s', hash, v, expiresAt, u);
      case Find(p, hash, _) => FlightMoves(s, s', p, s'.calls[p], u);
      case Revoke(p, at) =>
        if Revocable(s.tokens, s.calls[p].hash) {
          RevokeRemoves(s, s', s.calls[p].hash, at, u);
          FlightMoves(s, s', p, s'.calls[p], u);
        } else {
          FlightEnds(s, s', p, u);
        }
      case Exchange(p, hash, expiresAt) =>
        CreateAdds(s, s', hash, s.calls[p].userId, expiresAt, u);
        FlightEnds(s, s', p, u);
      case Stop(p) => FlightEnds(s, s', p, u);
      case Logout(hash, at) =>
        if Revocable(s.tokens, hash) {
          RevokeRemoves(s, s', hash, at, u);
        }
      case Tick(_) =>
    }
  }

  lemma InvInit(now: Time)
    ensures Inv(Init(now))
  {
  }

  lemma InvStep(s: State, a: Action)
    requires Inv(s) && Enabled(s, a)
    ensures Inv(Apply(s, a))
  {
    var s' := Apply(s, a);
    forall u ensures Balanced(s', u) {
      BalanceStep(s, a, s', u);
    }
    forall hash ensures ConsumedOk(s', hash) {
      assert ConsumedOk(s, hash);
    }
    forall p | p in s'.calls ensures CallOk(s', s'.calls[p]) {
      assert p in s.calls ==> CallOk(s, s.calls[p]);
    }
  }

  lemma {:induction false} InvRun(s: State, actions: seq<Action>)
    requires Inv(s) && After(s, actions).Some?
    ensures Inv(After(s, actions).value)
  {
    if actions != [] {
      var last := |actions| - 1;
      InvRun(s, actions[..last]);
      InvStep(After(s, actions[..last]).value, actions[last]);
    }
  }

  /** In any interleaving each stored token is consumed by at most one refresh or logout. */
  lemma {:induction false} ConsumedAtMostOnce(start: Time, actions: seq<Action>, s: State, hash: string)
    requires After(Init(start), actions) == Some(s)
    ensures s.consumed[hash] <= 1
    ensures s.consumed[hash] == 1 <==> hash in s.tokens && s.tokens[hash].revokedAt.Some?
  {
    InvInit(start);
    InvRun(Init(start), actions);
    assert ConsumedOk(s, hash);
  }

  /**
   Conservation: a user's live tokens, refreshes in flight, refreshes that stopped half way and logouts
   add up to the logins. So live sessions never exceed logins minus logouts.
   */
  lemma {:induction false} SessionsConserved(start: Time, actions: seq<Action>, s: State, u: int)
    requires After(Init(start), actions) == Some(s)
    ensures |Unrevoked(s, u)| + |InFlight(s, u)| + s.lost[u] + s.logouts[u] == s.logins[u]
    ensures |Unrevoked(s, u)| + |InFlight(s, u)| <= s.logins[u] - s.logouts[u]
  {
    InvInit(start);
    InvRun(Init(start), actions);
    assert Balanced(s, u);
  }

  // ---------------------------------------------------------------- the service methods

  datatype AuthError = InvalidRefreshToken | StorageFailed | TokenFailed

  class AuthService {
    const repo: RefreshTokenRepository
    const refreshTTL: Time
    const id: nat
    /** The protocol state this service's table represents, and the run that led to it since `origin`. */
    ghost var view: State
    ghost var origin: State
    ghost var trace: seq<Action>

    constructor (repo: RefreshTokenRepository, refreshTTL: Time, id: nat, now: Time)
      ensures Valid() && this.repo == repo && view == Init(now).(tokens := repo.tokens)
    {
      this.repo, this.refreshTTL, this.id := repo, refreshTTL, id;
      view := Init(now).(tokens := repo.tokens);
      origin := Init(now).(tokens := repo.tokens);
      trace := [];
    }

    ghost predicate Valid()
      reads this, repo
    {
      view.tokens == repo.tokens && After(origin, trace) == Some(view) && id !in view.calls
    }

    ghost method Take(a: Action)
      requires After(origin, trace) == Some(view) && Enabled(view, a)
      modifies this`view, this`trace
      ensures view == Apply(old(view), a) && After(origin, trace) == Some(view)
    {
      assert (trace + [a])[..|trace|] == trace;
      trace := trace + [a];
      view := Apply(view, a);
    }

    /** Login after the credentials were accepted for `userId`; `hash` is that of a new random token. */
    method Login(userId: int, hash: string, now: Time) returns (error: Option<AuthError>)
      requires Valid()
      modifies repo, this`view, this`trace, this`origin
      ensures Valid() && origin == old(view)
      ensures error.Some? <==> hash in old(repo.tokens)
      ensures repo.tokens == if error.Some? then old(repo.tokens)
                             else old(repo.tokens)[hash := Token(userId, now + refreshTTL, None)]
      ensures view.logins == old(view.logins) + if error.Some? then multiset{} else multiset{userId}
    {
      origin, trace := view, [];
      var duplicate := repo.Create(hash, Token(userId, now + refreshTTL, None));
      if duplicate {
        return Some(StorageFailed);
      }
      Take(Action.Login(userId, hash, now + refreshTTL));
      return None;
    }

    /**
     Refresh executed alone; `users` are the accounts that exist. On success the old token is revoked and
     exactly one new one exists; once the old one is revoked a failure leaves the user with neither.
     */
    method Refresh(hash: string, newHash: string, now: Time, users: set<int>, tokenFails: bool)
      returns (error: Option<AuthError>)
      requires Valid() && now <= view.now
      modifies repo, this`view, this`trace, this`origin
      ensures Valid() && origin == old(view)
      ensures error == Some(InvalidRefreshToken) <==>
                !Usable(old(repo.tokens), hash, now) || old(repo.tokens)[hash].userId !in users
      ensures error == Some(InvalidRefreshToken) <==>
                !(hash in old(repo.tokens) && old(repo.tokens)[hash].revokedAt.None?
                  && now < old(repo.tokens)[hash].expiresAt && old(repo.tokens)[hash].userId in users)
      ensures error.None? ==>
                && hash in old(repo.tokens) && newHash !in old(repo.tokens)
                && newHash in repo.tokens
                && repo.tokens[newHash] == Token(old(repo.tokens)[hash].userId, now + refreshTTL, None)
                && hash in repo.tokens && repo.tokens[hash].revokedAt == Some(now)
                && repo.tokens - {hash, newHash} == old(repo.tokens) - {hash}
      ensures error == Some(InvalidRefreshToken) ==> repo.tokens == old(repo.tokens)
      ensures error != Some(InvalidRefreshToken) ==>
                Exchanged(error, hash, newHash, now, old(view), view) && (error == Some(TokenFailed) ==> tokenFails)
    {
      origin, trace := view, [];
      var found := repo.FindValidByHash(hash, now);
      if found.None? {
        return Some(InvalidRefreshToken);
      }
      Take(Find(id, hash, now));
      if found.value.userId !in users {
        Take(Stop(id));
        return Some(InvalidRefreshToken);
      }
      error := RevokeAndCreate(hash, newHash, found.value.userId, now, tokenFails);
    }

    /** What a refresh of a usable token leaves, by its result. */
    ghost predicate Exchanged(error: Option<AuthError>, hash: string, newHash: string, now: Time, s: State, s': State) {
      && hash in s.tokens
      && var u := s.tokens[hash].userId;
         var revoked := Revoked(s.tokens, hash, now);
         match error
         case None =>
           && newHash !in s.tokens && s'.tokens == revoked[newHash := Token(u, now + refreshTTL, None)]
           && s'.lost == s.lost
         case Some(StorageFailed) =>
           newHash in s.tokens && s'.tokens == revoked && s'.lost == s.lost + multiset{u}
         case Some(TokenFailed) => s'.tokens == revoked && s'.lost == s.lost + multiset{u}
         case Some(InvalidRefreshToken) => false
    }

    /** The steps of Refresh after its token was found. */
    method RevokeAndCreate(hash: string, newHash: string, userId: int, now: Time, tokenFails: bool)
      returns (error: Option<AuthError>)
      requires view.tokens == repo.tokens && After(origin, trace) == Some(view) && now <= view.now
      requires id in view.calls && view.calls[id] == Found(hash, userId)
      requires Revocable(repo.tokens, hash) && repo.tokens[hash].userId == userId
      modifies repo, this`view, this`trace
      ensures Valid() && Exchanged(error, hash, newHash, now, old(view), view)
      ensures error == Some(TokenFailed) ==> tokenFails
    {
      RevokeFound(hash, userId, now);
      if tokenFails {
        Take(Stop(id));
        return Some(TokenFailed);
      }
      var duplicate := repo.Create(newHash, Token(userId, now + refreshTTL, None));
      if duplicate {
        Take(Stop(id));
        return Some(StorageFailed);
      }
      Take(Exchange(id, newHash, now + refreshTTL));
      return None;
    }

    method RevokeFound(hash: string, userId: int, now: Time)
      requires view.tokens == repo.tokens && After(origin, trace) == Some(view) && now <= view.now
      requires id in view.calls && view.calls[id] == Found(hash, userId) && Revocable(repo.tokens, hash)
      modifies repo, this`view, this`trace
      ensures view.tokens == repo.tokens == Revoked(old(repo.tokens), hash, now)
      ensures After(origin, trace) == Some(view) && view.lost == old(view.lost)
      ensures view.calls == old(view.calls)[id := Exchanging(userId)]
    {
      var notFound := repo.RevokeByHash(hash, now);
      Take(Revoke(id, now));
    }

    method Logout(hash: string, now: Time) returns (error: Option<AuthError>)
      requires Valid() && now <= view.now
      modifies repo, this`view, this`trace, this`origin
      ensures Valid() && origin == old(view)
      ensures error == if Revocable(old(repo.tokens), hash) then None else Some(InvalidRefreshToken)
      ensures repo.tokens == Revoked(old(repo.tokens), hash, now)
      ensures error.None? <==> hash in old(repo.tokens) && old(repo.tokens)[hash].revokedAt.None?
    {
      origin, trace := view, [];
      var notFound := repo.RevokeByHash(hash, now);
      Take(Action.Logout(hash, now));
      return if notFound then Some(InvalidRefreshToken) else None;
    }
  }
}
