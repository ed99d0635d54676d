/** Cache keys: the article and source list keys, glob patterns, and the per-user deletion both caches use. */
module CacheKeys {
  import opened Common
  import opened Text

  datatype ArticleRequest = ArticleRequest(
    userId: int, sourceId: int, query: string, isRead: Option<bool>, isSaved: Option<bool>, limit: int, offset: int)

  datatype SourceRequest = SourceRequest(userId: int, sourceType: string, limit: int, offset: int)

  function BoolKey(value: Option<bool>): string {
    match value
    case None => "any"
    case Some(b) => if b then "true" else "false"
  }

  /** Every key of one user starts like this. */
  function UserPrefix(prefix: string, userId: int): string {
    prefix + ":user:" + Itoa(userId) + ":"
  }

  /** What follows the user in an article key: bounded fields on both sides of the arbitrary query. */
  function ArticleFields(r: ArticleRequest): string {
    "source:" + (Itoa(r.sourceId) + (":q:" +
    (r.query + ":read:" + BoolKey(r.isRead) + ":saved:" + BoolKey(r.isSaved) +
     ":limit:" + Itoa(r.limit) + ":offset:" + Itoa(r.offset))))
  }

  function ArticleKey(prefix: string, r: ArticleRequest): string {
    UserPrefix(prefix, r.userId) + ArticleFields(r)
  }

  function SourceFields(r: SourceRequest): string {
    "type:" + r.sourceType + ":limit:" + Itoa(r.limit) + ":offset:" + Itoa(r.offset)
  }

  function SourceKey(prefix: string, r: SourceRequest): string {
    UserPrefix(prefix, r.userId) + SourceFields(r)
  }

  // ---------------------------------------------------------------- splitting a key again

  /** A field without ':' that is followed by a separator starting with ':' can be read off the front. */
  lemma FrontField(a: string, b: string, sep: string, x: string, y: string)
    requires ':' !in a && ':' !in b && sep != "" && sep[0] == ':'
    requires a + (sep + x) == b + (sep + y)
    ensures a == b && x == y
  {
    var s, t := a + (sep + x), b + (sep + y);
    assert s[|a|] == ':' && t[|b|] == ':';
    assert |a| == |b|;
    assert a == s[..|a|] && b == t[..|b|];
    assert x == s[|a| + |sep|..] && y == t[|b| + |sep|..];
  }

  /** A field without ':' that follows a separator ending in ':' can be read off the back. */
  lemma BackField(a: string, b: string, sep: string, x: string, y: string)
    requires ':' !in a && ':' !in b && sep != "" && sep[|sep| - 1] == ':'
    requires x + sep + a == y + sep + b
    ensures a == b && x == y
  {
    var s, t := x + sep + a, y + sep + b;
    var i, j := |s| - |a| - 1, |t| - |b| - 1;
    assert s[i] == ':' && t[j] == ':';
    assert i == j;
    assert a == s[i + 1..] && b == t[j + 1..];
    assert x == s[..|x|] && y == t[..|y|];
  }

  lemma CommonPrefix(p: string, x: string, y: string)
    requires p + x == p + y
    ensures x == y
  {
    assert x == (p + x)[|p|..] && y == (p + y)[|p|..];
  }

  lemma BoolKeyInjective(a: Option<bool>, b: Option<bool>)
    ensures ':' !in BoolKey(a)
    ensures BoolKey(a) == BoolKey(b) ==> a == b
  {
    assert BoolKey(a) == BoolKey(b) ==> |BoolKey(a)| == |BoolKey(b)| && BoolKey(a)[0] == BoolKey(b)[0];
  }

  /** If a key starts with a user's prefix, the user is determined. */
  lemma UserOfKey(prefix: string, u: int, v: int, x: string, y: string)
    requires UserPrefix(prefix, u) + x == UserPrefix(prefix, v) + y
    ensures u == v && x == y
  {
    HeadField(prefix + ":user:", Itoa(u), Itoa(v), ":", x, y);
    ItoaInjective(u, v);
  }

  lemma HeadField(head: string, a: string, b: string, sep: string, x: string, y: string)
    requires ':' !in a && ':' !in b && sep != "" && sep[0] == ':'
    requires head + a + sep + x == head + b + sep + y
    ensures a == b && x == y
  {
    assert head + a + sep + x == head + (a + (sep + x));
    assert head + b + sep + y == head + (b + (sep + y));
    CommonPrefix(head, a + (sep + x), b + (sep + y));
    FrontField(a, b, sep, x, y);
  }

  lemma ArticleFieldsInjective(p: ArticleRequest, q: ArticleRequest)
    requires p.userId == q.userId && ArticleFields(p) == ArticleFields(q)
    ensures p == q
  {
    var a4, b4 := p.query, q.query;
    var a3, b3 := a4 + ":read:" + BoolKey(p.isRead), b4 + ":read:" + BoolKey(q.isRead);
    var a2, b2 := a3 + ":saved:" + BoolKey(p.isSaved), b3 + ":saved:" + BoolKey(q.isSaved);
    var a1, b1 := a2 + ":limit:" + Itoa(p.limit), b2 + ":limit:" + Itoa(q.limit);
    var a0, b0 := a1 + ":offset:" + Itoa(p.offset), b1 + ":offset:" + Itoa(q.offset);
    CommonPrefix("source:", Itoa(p.sourceId) + (":q:" + a0), Itoa(q.sourceId) + (":q:" + b0));
    FrontField(Itoa(p.sourceId), Itoa(q.sourceId), ":q:", a0, b0);
    ItoaInjective(p.sourceId, q.sourceId);
    BackField(Itoa(p.offset), Itoa(q.offset), ":offset:", a1, b1);
    ItoaInjective(p.offset, q.offset);
    BackField(Itoa(p.limit), Itoa(q.limit), ":limit:", a2, b2);
    ItoaInjective(p.limit, q.limit);
    BoolKeyInjective(p.isSaved, q.isSaved);
    BoolKeyInjective(q.isSaved, p.isSaved);
    BackField(BoolKey(p.isSaved), BoolKey(q.isSaved), ":saved:", a3, b3);
    BoolKeyInjective(p.isRead, q.isRead);
    BoolKeyInjective(q.isRead, p.isRead);
    BackField(BoolKey(p.isRead), BoolKey(q.isRead), ":read:", a4, b4);
  }

  /** Two article list requests share a key only if they are the same request, whatever the query contains. */
  lemma ArticleKeyInjective(prefix: string, p: ArticleRequest, q: ArticleRequest)
    ensures ArticleKey(prefix, p) == ArticleKey(prefix, q) <==> p == q
  {
    if ArticleKey(prefix, p) == ArticleKey(prefix, q) {
      UserOfKey(prefix, p.userId, q.userId, ArticleFields(p), ArticleFields(q));
      ArticleFieldsInjective(p, q);
    }
  }

  /** The same for source lists; the type may even be arbitrary text. */
  lemma SourceKeyInjective(prefix: string, p: SourceRequest, q: SourceRequest)
    ensures SourceKey(prefix, p) == SourceKey(prefix, q) <==> p == q
  {
    if SourceKey(prefix, p) == SourceKey(prefix, q) {
      UserOfKey(prefix, p.userId, q.userId, SourceFields(p), SourceFields(q));
      var a2, b2 := "type:" + p.sourceType, "type:" + q.sourceType;
      var a1, b1 := a2 + ":limit:" + Itoa(p.limit), b2 + ":limit:" + Itoa(q.limit);
      BackField(Itoa(p.offset), Itoa(q.offset), ":offset:", a1, b1);
      ItoaInjective(p.offset, q.offset);
      BackField(Itoa(p.limit), Itoa(q.limit), ":limit:", a2, b2);
      ItoaInjective(p.limit, q.limit);
      CommonPrefix("type:", p.sourceType, q.sourceType);
    }
  }

  // ---------------------------------------------------------------- Redis patterns

  /** Redis' glob matching of '*', '?' and backslash escapes; bracket classes are not modelled. */
  predicate Glob(pattern: string, s: string)
    requires '[' !in pattern
    decreases |pattern| + |s|
  {
    if pattern == "" then s == ""
    else if pattern[0] == '*' then Glob(pattern[1..], s) || (s != "" && Glob(pattern, s[1..]))
    else if pattern[0] == '?' then s != "" && Glob(pattern[1..], s[1..])
    else if pattern[0] == '\\' && |pattern| >= 2 then s != "" && s[0] == pattern[1] && Glob(pattern[2..], s[1..])
    else s != "" && s[0] == pattern[0] && Glob(pattern[1..], s[1..])
  }

  /** No pattern character; both prefixes the server uses are plain. */
  predicate Plain(s: string) {
    forall c :: c in s ==> c !in {'*', '?', '\\', '['}
  }

  lemma {:induction false} StarMatchesAll(s: string)
    ensures Glob("*", s)
  {
    if s != "" {
      StarMatchesAll(s[1..]);
    }
  }

  /** A plain text followed by '*' matches exactly the strings that start with it. */
  lemma {:induction false} GlobIsPrefix(p: string, s: string)
    requires Plain(p)
    ensures Glob(p + "*", s) <==> p <= s
  {
    if p == "" {
      assert p + "*" == "*";
      StarMatchesAll(s);
    } else {
      assert (p + "*")[1..] == p[1..] + "*";
      assert p[0] in p && forall c :: c in p[1..] ==> c in p;
      if s != "" {
        GlobIsPrefix(p[1..], s[1..]);
        assert p == [p[0]] + p[1..] && s == [s[0]] + s[1..];
      }
    }
  }

  lemma {:induction false} ItoaNatPlain(n: nat)
    ensures Plain(ItoaNat(n))
  {
    assert Digits(ItoaNat(n));
  }

  lemma UserPrefixPlain(prefix: string, userId: int)
    requires Plain(prefix)
    ensures Plain(UserPrefix(prefix, userId))
  {
    ItoaNatPlain(if userId < 0 then -userId else userId);
  }

  predicate Matches(prefix: string, userId: int, key: string)
    requires Plain(prefix)
  {
    UserPrefixPlain(prefix, userId);
    Glob(UserPrefix(prefix, userId) + "*", key)
  }

  /**
   The deletion pattern of a user matches an article list key exactly if the key is that user's: 1 never matches 10.
   */
  lemma PatternMatchesOwnArticles(prefix: string, userId: int, r: ArticleRequest)
    requires Plain(prefix)
    ensures Matches(prefix, userId, ArticleKey(prefix, r)) <==> r.userId == userId
  {
    OwnKey(prefix, userId, r.userId, ArticleFields(r));
  }

  lemma PatternMatchesOwnSources(prefix: string, userId: int, r: SourceRequest)
    requires Plain(prefix)
    ensures Matches(prefix, userId, SourceKey(prefix, r)) <==> r.userId == userId
  {
    OwnKey(prefix, userId, r.userId, SourceFields(r));
  }

  lemma OwnKey(prefix: string, u: int, v: int, fields: string)
    requires Plain(prefix)
    ensures Matches(prefix, u, UserPrefix(prefix, v) + fields) <==> u == v
  {
    var key := UserPrefix(prefix, v) + fields;
    UserPrefixPlain(prefix, u);
    GlobIsPrefix(UserPrefix(prefix, u), key);
    if UserPrefix(prefix, u) <= key {
      assert key == UserPrefix(prefix, u) + key[|UserPrefix(prefix, u)|..];
      UserOfKey(prefix, u, v, key[|UserPrefix(prefix, u)|..], fields);
    }
  }

  const ARTICLES := "cache:articles"
  const SOURCES := "cache:sources"

  lemma PlainPrefixes()
    ensures Plain(ARTICLES) && Plain(SOURCES) && ARTICLES[6] != SOURCES[6]
  {
  }

  /**
   The two caches share one Redis: clearing a user's article lists leaves every source list alone, and the reverse.
   */
  lemma CachesDisjoint(userId: int, a: ArticleRequest, b: SourceRequest)
    ensures Plain(ARTICLES) && Plain(SOURCES)
    ensures !Matches(ARTICLES, userId, SourceKey(SOURCES, b))
    ensures !Matches(SOURCES, userId, ArticleKey(ARTICLES, a))
  {
    PlainPrefixes();
    OtherPrefix(ARTICLES, SOURCES, 6, userId, b.userId, SourceFields(b));
    OtherPrefix(SOURCES, ARTICLES, 6, userId, a.userId, ArticleFields(a));
  }

  /** Prefixes that differ at some position are never confused. */
  lemma OtherPrefix(p: string, q: string, i: nat, u: int, v: int, fields: string)
    requires Plain(p) && i < |p| && i < |q| && p[i] != q[i]
    ensures !Matches(p, u, UserPrefix(q, v) + fields)
  {
    UserPrefixPlain(p, u);
    GlobIsPrefix(UserPrefix(p, u), UserPrefix(q, v) + fields);
    assert UserPrefix(p, u)[i] == p[i] && (UserPrefix(q, v) + fields)[i] == q[i];
  }

  // ---------------------------------------------------------------- the cache

  /** Redis under one prefix; an entry that reaches its TTL disappears. */
  class RedisListCache<V> {
    const prefix: string
    var entries: map<string, V>

    constructor (prefix: string)
      ensures this.prefix == prefix && entries == map[]
    {
      this.prefix := prefix;
      entries := map[];
    }

    method Get(key: string, fails: bool) returns (hit: Option<V>)
      ensures hit == if fails || key !in entries then None else Some(entries[key])
    {
      return if fails || key !in entries then None else Some(entries[key]);
    }

    method Set(key: string, value: V, fails: bool)
      modifies this
      ensures entries == if fails then old(entries) else old(entries)[key := value]
    {
      if !fails {
        entries := entries[key := value];
      }
    }

    method Expire(key: string)
      modifies this
      ensures entries == old(entries) - {key}
    {
      entries := entries - {key};
    }

    /**
     Scan the user's pattern and delete key by key, in whatever order the scan returns them. Redis fails
     after `patience` deletions. Only keys matching the pattern go, all of them unless Redis failed.
     */
    method DeleteUser(userId: int, patience: nat) returns (failed: bool, ghost removed: set<string>)
      requires Plain(prefix)
      modifies this
      ensures removed <= set key | key in old(entries) && Matches(prefix, userId, key)
      ensures entries == old(entries) - removed
      ensures !failed ==> removed == set key | key in old(entries) && Matches(prefix, userId, key)
      ensures failed <==> |set key | key in old(entries) && Matches(prefix, userId, key)| > patience
    {
      failed, removed := DeleteKeys((set key | key in entries && Matches(prefix, userId, key)), patience);
    }

    /** Delete the scanned keys one by one. */
    method DeleteKeys(keys: set<string>, patience: nat) returns (failed: bool, ghost removed: set<string>)
      modifies this
      ensures removed <= keys && entries == old(entries) - removed
      ensures !failed ==> removed == keys
      ensures failed <==> |keys| > patience
    {
      var scan, deletions := keys, 0;
      removed := {};
      while scan != {}
        invariant removed <= keys && scan == keys - removed
        invariant entries == old(entries) - removed
        invariant deletions == |removed| <= patience
        decreases |scan|
      {
        var key :| key in scan;
        if deletions == patience {
          RestSize(keys, removed);
          return true, removed;
        }
        entries := entries - {key};
        removed := removed + {key};
        scan := scan - {key};
        deletions := deletions + 1;
      }
      assert removed == keys;
      return false, removed;
    }
  }

  lemma RestSize(all: set<string>, part: set<string>)
    requires part <= all
    ensures |all| == |part| + |all - part|
  {
    assert all == part + (all - part);
  }
}
