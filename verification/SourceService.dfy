/** The source service: validated mutations, each invalidating its user's cached lists, and the cached listing. */
module SourceService {
  import opened Common
  import opened CacheKeys
  import opened Redaction
  import opened SourceListing
  import opened SourceTable
  import opened Text

  datatype Error = InvalidName | InvalidType | InvalidURL | InvalidConfig | AlreadyExists | NotAccessible

  datatype Result<+T> = Ok(value: T) | Err(error: Error)

  datatype CreateRequest = CreateRequest(
    userId: int, name: string, sourceType: string, url: Option<string>, config: RawConfig)

  datatype UpdateRequest = UpdateRequest(
    userId: int, sourceId: int, name: Option<string>, url: Option<string>, config: Option<RawConfig>,
    isActive: Option<bool>)

  predicate IsValidType(t: string) { t == "rss" || t == "email" }

  function NormalizeType(raw: string): string { TrimSpace(ToLower(raw)) }

  function NormalizeName(raw: string): Result<string> {
    var name := TrimSpace(raw);
    if name == "" || ByteLength(name) > 200 then Err(InvalidName) else Ok(name)
  }

  /** `accepts` stands for URL parsing and the network guard. */
  function NormalizeURL(raw: Option<string>, accepts: string -> bool): Result<Option<string>> {
    if raw.None? || Blank(raw.value) then Ok(None)
    else if accepts(TrimSpace(raw.value)) then Ok(Some(TrimSpace(raw.value)))
    else Err(InvalidURL)
  }

  predicate HasPlaintextPassword(config: RawConfig) {
    && config.Parsed? && config.value.Obj? && "password" in config.value.fields
    && var password := config.value.fields["password"];
       password != Null && (password.Str? ==> !Blank(password.s))
  }

  function NormalizeConfig(sourceType: string, raw: RawConfig): Result<RawConfig> {
    var config := if raw.Empty? then Parsed(Obj(map[])) else raw;
    if config.Invalid? || (sourceType == "email" && HasPlaintextPassword(config)) then Err(InvalidConfig)
    else Ok(config)
  }

  /** The row a create request asks for, or the first validation error. */
  function Created(req: CreateRequest, accepts: string -> bool, now: Time): Result<Source> {
    var name, sourceType, url := NormalizeName(req.name), NormalizeType(req.sourceType), NormalizeURL(req.url, accepts);
    if name.Err? then Err(name.error)
    else if !IsValidType(sourceType) then Err(InvalidType)
    else if url.Err? then Err(url.error)
    else if sourceType == "rss" && url.value.None? then Err(InvalidURL)
    else
      var config := NormalizeConfig(sourceType, req.config);
      if config.Err? then Err(config.error)
      else Ok(Source(0, req.userId, name.value, sourceType, url.value, config.value, true, Fetch(None, "", ""),
                     now, now, None))
  }

  /** The row an update request asks for: only the fields it sets, each validated. */
  function Patched(src: Source, req: UpdateRequest, accepts: string -> bool, now: Time): Result<Source> {
    var name := if req.name.None? then Ok(src.name) else NormalizeName(req.name.value);
    var url := if req.url.None? then Ok(src.url) else NormalizeURL(req.url, accepts);
    var config := if req.config.None? then Ok(src.config) else NormalizeConfig(src.sourceType, req.config.value);
    if name.Err? then Err(name.error)
    else if url.Err? then Err(url.error)
    else if req.url.Some? && src.sourceType == "rss" && url.value.None? then Err(InvalidURL)
    else if config.Err? then Err(config.error)
    else Ok(src.(name := name.value, url := url.value, config := config.value, updatedAt := now,
                 isActive := if req.isActive.None? then src.isActive else req.isActive.value))
  }

  /** The source may have this config: JSON, and without a plaintext password if it is an email source. */
  predicate ConfigAllowed(rows: Table, id: int, config: RawConfig) {
    config.Parsed? && (0 <= id < |rows| && rows[id].sourceType == "email" ==> !HasPlaintextPassword(config))
  }

  /** What every accepted source satisfies. */
  ghost predicate WellFormed(name: string, sourceType: string, url: Option<string>, config: RawConfig,
                             accepts: string -> bool)
  {
    && name != "" && TrimSpace(name) == name && ByteLength(name) <= 200
    && IsValidType(sourceType)
    && (url.Some? ==> url.value != "" && accepts(url.value))
    && (sourceType == "rss" ==> url.Some?)
    && config.Parsed?
    && (sourceType == "email" ==> !HasPlaintextPassword(config))
  }

  ghost predicate TableWellFormed(rows: Table, accepts: string -> bool) {
    forall i :: 0 <= i < |rows| ==> RowWellFormed(rows[i], accepts)
  }

  /** The unique index holds: no user has two visible sources with one URL. */
  ghost predicate UrlsUnique(rows: Table) {
    forall i, j :: 0 <= i < j < |rows| && rows[i].userId == rows[j].userId
                   && rows[i].url.Some? && rows[i].url == rows[j].url
      ==> rows[i].deletedAt.Some? || rows[j].deletedAt.Some?
  }

  lemma AppendKeepsUnique(rows: Table, row: Source)
    requires UrlsUnique(rows) && !UrlTaken(rows, row.userId, row.url, -1)
    ensures UrlsUnique(rows + [row])
  {
    forall i | 0 <= i < |rows| && rows[i].userId == row.userId && row.url.Some? && rows[i].url == row.url
      ensures rows[i].deletedAt.Some?
    {
      assert !Visible(rows, row.userId, i);
    }
  }

  /** A visible row never stands in its own way. */
  lemma OwnUrlIsFree(rows: Table, userId: int, id: nat)
    requires UrlsUnique(rows) && Visible(rows, userId, id)
    ensures !UrlTaken(rows, userId, rows[id].url, id)
  {
  }

  /** A row may be written if it is hidden afterwards, or if no other visible row of its user has its URL. */
  lemma WriteKeepsUnique(rows: Table, id: nat, row: Source)
    requires UrlsUnique(rows) && id < |rows|
    requires row.deletedAt.Some? || !UrlTaken(rows, row.userId, row.url, id)
    ensures UrlsUnique(rows[id := row])
  {
    if row.deletedAt.None? {
      forall i | 0 <= i < |rows| && i != id && rows[i].userId == row.userId && row.url.Some? && rows[i].url == row.url
        ensures rows[i].deletedAt.Some?
      {
        assert !Visible(rows, row.userId, i);
      }
    }
  }

  ghost predicate RowWellFormed(row: Source, accepts: string -> bool) {
    WellFormed(row.name, row.sourceType, row.url, row.config, accepts)
  }

  /** The optional URL as it is stored: trimmed, and none if it is blank. */
  predicate UrlAs(raw: Option<string>, stored: Option<string>) {
    if raw.Some? && TrimSpace(raw.value) != "" then stored == Some(TrimSpace(raw.value)) else stored.None?
  }

  /** A config as it is stored: an empty one becomes an empty object. */
  predicate ConfigAs(raw: RawConfig, stored: RawConfig) {
    stored == if raw.Empty? then Parsed(Obj(map[])) else raw
  }

  /** The row has what the request asked for. */
  predicate AsCreated(row: Source, req: CreateRequest, now: Time) {
    && row.userId == req.userId && row.name == TrimSpace(req.name)
    && row.sourceType == TrimSpace(ToLower(req.sourceType)) && UrlAs(req.url, row.url)
    && ConfigAs(req.config, row.config) && row.isActive && row.fetch == Fetch(None, "", "")
    && row.createdAt == now && row.updatedAt == now && row.deletedAt.None?
  }

  /** The row has what the request asked for, and what it had wherever the request asked for nothing. */
  predicate AsUpdated(row: Source, was: Source, req: UpdateRequest, now: Time) {
    && row.name == (if req.name.Some? then TrimSpace(req.name.value) else was.name)
    && (if req.url.Some? then UrlAs(req.url, row.url) else row.url == was.url)
    && (if req.config.Some? then ConfigAs(req.config.value, row.config) else row.config == was.config)
    && row.isActive == (if req.isActive.Some? then req.isActive.value else was.isActive)
    && row.updatedAt == now && row.id == was.id && row.userId == was.userId && row.sourceType == was.sourceType
    && row.fetch == was.fetch && row.createdAt == was.createdAt && row.deletedAt == was.deletedAt
  }

  predicate NameRefused(name: string) {
    TrimSpace(name) == "" || ByteLength(TrimSpace(name)) > 200
  }

  /** A URL that is not blank and does not pass, or none where an RSS source needs one. */
  predicate UrlRefused(url: Option<string>, sourceType: string, accepts: string -> bool) {
    if url.Some? && TrimSpace(url.value) != "" then !accepts(TrimSpace(url.value)) else sourceType == "rss"
  }

  /** No JSON, or a password in the clear. */
  predicate ConfigRefused(config: RawConfig, sourceType: string) {
    config.Invalid? || (sourceType == "email" && ShowsPassword(config))
  }

  predicate ShowsPassword(config: RawConfig) {
    && config.Parsed? && config.value.Obj? && "password" in config.value.fields
    && match config.value.fields["password"]
       case Null => false
       case Str(s) => TrimSpace(s) != ""
       case _ => true
  }

  lemma CreatedIsAsRequested(req: CreateRequest, accepts: string -> bool, now: Time)
    ensures var r, sourceType := Created(req, accepts, now), TrimSpace(ToLower(req.sourceType));
            if NameRefused(req.name) then r == Err(InvalidName)
            else if sourceType != "rss" && sourceType != "email" then r == Err(InvalidType)
            else if UrlRefused(req.url, sourceType, accepts) then r == Err(InvalidURL)
            else if ConfigRefused(req.config, sourceType) then r == Err(InvalidConfig)
            else r.Ok? && AsCreated(r.value, req, now)
  {
  }

  lemma PatchedIsAsRequested(was: Source, req: UpdateRequest, accepts: string -> bool, now: Time)
    ensures var r := Patched(was, req, accepts, now);
            if req.name.Some? && NameRefused(req.name.value) then r == Err(InvalidName)
            else if req.url.Some? && UrlRefused(req.url, was.sourceType, accepts) then r == Err(InvalidURL)
            else if req.config.Some? && ConfigRefused(req.config.value, was.sourceType) then r == Err(InvalidConfig)
            else r.Ok? && AsUpdated(r.value, was, req, now)
  {
  }

  /** Validation accepts only well-formed rows. */
  lemma CreatedIsWellFormed(req: CreateRequest, accepts: string -> bool, now: Time)
    ensures Created(req, accepts, now).Ok? ==> RowWellFormed(Created(req, accepts, now).value, accepts)
  {
    TrimSpaceIdempotent(req.name);
  }

  /** And an update never turns a well-formed row into another. */
  lemma PatchedIsWellFormed(src: Source, req: UpdateRequest, accepts: string -> bool, now: Time)
    requires RowWellFormed(src, accepts)
    ensures Patched(src, req, accepts, now).Ok? ==> RowWellFormed(Patched(src, req, accepts, now).value, accepts)
  {
    if req.name.Some? {
      TrimSpaceIdempotent(req.name.value);
    }
  }

  lemma OwnKeysMatch(entries: map<string, Response>, userId: int)
    ensures OwnKeys(entries, userId) == (PlainPrefixes(); set key | key in entries && Matches(SOURCES, userId, key))
  {
  }

  class Service {
    const repo: SourceRepository
    const cache: RedisListCache<Response>
    const accepts: string -> bool
    /** History of the cached keys, as in SourceListing.State. */
    ghost var missed: set<string>
    ghost var origins: map<string, Table>

    constructor (repo: SourceRepository, cache: RedisListCache<Response>, accepts: string -> bool)
      requires cache.prefix == SOURCES && cache.entries == map[]
      requires UrlsUnique(repo.rows) && Numbered(repo.rows)
      ensures Valid() && this.repo == repo && this.cache == cache && View() == Init(repo.rows)
    {
      this.repo, this.cache, this.accepts := repo, cache, accepts;
      missed, origins := {}, map[];
    }

    ghost function View(): State
      reads this, repo, cache
    {
      State(repo.rows, cache.entries, missed, origins)
    }

    ghost predicate Valid()
      reads this, repo, cache
    {
      cache.prefix == SOURCES && Coherent(View()) && UrlsUnique(repo.rows) && Numbered(repo.rows)
    }

    /** The service took one mutation step from `before` that concerned this user. */
    ghost predicate Mutated(before: State, userId: int)
      reads this, repo, cache
    {
      var op := Mutate(userId, repo.rows, before.cache.Keys - cache.entries.Keys);
      Enabled(before, op) && View() == Apply(before, op)
    }

    /** deleteUserListCache after a write; Redis fails after `patience` deletions and the error is ignored. */
    method DeleteUserListCache(userId: int, patience: nat, ghost before: State)
      requires cache.prefix == SOURCES && Coherent(before)
      requires before.cache == cache.entries && before.missed == missed && before.origins == origins
      requires OnlyTouches(before.rows, repo.rows, userId)
      modifies cache, this`missed
      ensures Mutated(before, userId) && Coherent(View())
      ensures |OwnKeys(before.cache, userId)| <= patience ==> missed == before.missed - OwnKeys(before.cache, userId)
    {
      PlainPrefixes();
      ghost var own := OwnKeys(cache.entries, userId);
      OwnKeysMatch(cache.entries, userId);
      var _, removed := cache.DeleteUser(userId, patience);
      missed := missed + own - removed;
      assert before.cache.Keys - cache.entries.Keys == removed;
      CoherentStep(before, Mutate(userId, repo.rows, removed));
    }

    method CreateSource(req: CreateRequest, now: Time, patience: nat) returns (r: Result<SourceDTO>)
      requires Valid()
      modifies repo, cache, this`missed
      ensures Valid()
      ensures old(TableWellFormed(repo.rows, accepts)) ==> TableWellFormed(repo.rows, accepts)
      ensures r.Err? ==> View() == old(View())
      ensures var src := Created(req, accepts, now);
              if src.Err? then r == Err(src.error)
              else if UrlTaken(old(repo.rows), req.userId, src.value.url, -1) then r == Err(AlreadyExists)
              else
                var row := src.value.(id := |old(repo.rows)|);
                r == Ok(ToDTO(row)) && repo.rows == old(repo.rows) + [row] && Mutated(old(View()), req.userId)
      ensures var sourceType := TrimSpace(ToLower(req.sourceType));
              if NameRefused(req.name) then r == Err(InvalidName)
              else if sourceType != "rss" && sourceType != "email" then r == Err(InvalidType)
              else if UrlRefused(req.url, sourceType, accepts) then r == Err(InvalidURL)
              else if ConfigRefused(req.config, sourceType) then r == Err(InvalidConfig)
              else r.Err? ==> r == Err(AlreadyExists)
      ensures r.Ok? ==>
                && |repo.rows| == |old(repo.rows)| + 1 && AsCreated(repo.rows[|old(repo.rows)|], req, now)
                && Displays(r.value, repo.rows[|old(repo.rows)|])
    {
      CreatedIsAsRequested(req, accepts, now);
      var name := NormalizeName(req.name);
      if name.Err? {
        return Err(name.error);
      }
      var sourceType := NormalizeType(req.sourceType);
      if !IsValidType(sourceType) {
        return Err(InvalidType);
      }
      var url := NormalizeURL(req.url, accepts);
      if url.Err? {
        return Err(url.error);
      }
      if sourceType == "rss" && url.value.None? {
        return Err(InvalidURL);
      }
      var config := NormalizeConfig(sourceType, req.config);
      if config.Err? {
        return Err(config.error);
      }
      var src := Source(0, req.userId, name.value, sourceType, url.value, config.value, true, Fetch(None, "", ""),
                        now, now, None);
      CreatedIsWellFormed(req, accepts, now);
      var duplicated := Insert(src, patience);
      if duplicated {
        return Err(AlreadyExists);
      }
      ToDTODisplays(repo.rows[|repo.rows| - 1]);
      return Ok(ToDTO(repo.rows[|repo.rows| - 1]));
    }

    /** repo.Create, and the invalidation after it. */
    method Insert(src: Source, patience: nat) returns (duplicated: bool)
      requires Valid() && src.deletedAt.None?
      modifies repo, cache, this`missed
      ensures Valid()
      ensures duplicated <==> UrlTaken(old(repo.rows), src.userId, src.url, -1)
      ensures duplicated ==> View() == old(View())
      ensures !duplicated ==>
                && repo.rows == old(repo.rows) + [src.(id := |old(repo.rows)|)]
                && Mutated(old(View()), src.userId)
    {
      ghost var before := View();
      duplicated := repo.Create(src);
      if duplicated {
        return;
      }
      AppendTouches(before.rows, src.(id := |before.rows|));
      AppendKeepsUnique(before.rows, src.(id := |before.rows|));
      DeleteUserListCache(src.userId, patience, before);
    }

    method UpdateSource(req: UpdateRequest, now: Time, patience: nat) returns (r: Result<SourceDTO>)
      requires Valid()
      modifies repo, cache, this`missed
      ensures Valid()
      ensures old(TableWellFormed(repo.rows, accepts)) ==> TableWellFormed(repo.rows, accepts)
      ensures r.Err? ==> View() == old(View())
      ensures if !Visible(old(repo.rows), req.userId, req.sourceId) then r == Err(NotAccessible)
              else
                var was := old(repo.rows)[req.sourceId];
                var src := Patched(was, req, accepts, now);
                if src.Err? then r == Err(src.error)
                else if UrlTaken(old(repo.rows), req.userId, src.value.url, req.sourceId) then r == Err(AlreadyExists)
                else r == Ok(ToDTO(src.value)) && repo.rows == old(repo.rows)[req.sourceId := src.value]
                     && Mutated(old(View()), req.userId)
      ensures r.Ok? ==>
                && 0 <= req.sourceId < |old(repo.rows)| == |repo.rows|
                && AsUpdated(repo.rows[req.sourceId], old(repo.rows)[req.sourceId], req, now)
                && Displays(r.value, repo.rows[req.sourceId])
    {
      var found := repo.FindByUserIDAndID(req.userId, req.sourceId);
      if found.None? {
        return Err(NotAccessible);
      }
      var patched := Patch(found.value, req, now);
      if patched.Err? {
        return Err(patched.error);
      }
      if RowWellFormed(found.value, accepts) {
        PatchedIsWellFormed(found.value, req, accepts, now);
      }
      PatchedIsAsRequested(found.value, req, accepts, now);
      ToDTODisplays(patched.value);
      var duplicated := WriteBack(req.userId, req.sourceId, patched.value, patience);
      return if duplicated then Err(AlreadyExists) else Ok(ToDTO(patched.value));
    }

    /** repo.Update of a row that was found, and the invalidation after it. */
    method WriteBack(userId: int, id: nat, src: Source, patience: nat) returns (duplicated: bool)
      requires Valid() && Visible(repo.rows, userId, id)
      modifies repo, cache, this`missed
      ensures Valid()
      ensures duplicated <==> UrlTaken(old(repo.rows), userId, src.url, id)
      ensures duplicated ==> View() == old(View())
      ensures !duplicated ==>
                && repo.rows == old(repo.rows)[id := Overwritten(old(repo.rows)[id], src)]
                && Mutated(old(View()), userId)
    {
      ghost var before := View();
      var notFound;
      notFound, duplicated := repo.Update(userId, id, src);
      if duplicated {
        return;
      }
      Invalidate(userId, id, patience, before);
    }

    /** What follows a write of one row: the row's user loses the cached lists. */
    method Invalidate(userId: int, id: nat, patience: nat, ghost before: State)
      requires cache.prefix == SOURCES && Coherent(before) && UrlsUnique(before.rows)
      requires before.cache == cache.entries && before.missed == missed && before.origins == origins
      requires id < |before.rows| == |repo.rows| && repo.rows == before.rows[id := repo.rows[id]]
      requires Numbered(repo.rows)
      requires before.rows[id].userId == repo.rows[id].userId == userId
      requires repo.rows[id].deletedAt.Some? || !UrlTaken(before.rows, userId, repo.rows[id].url, id)
      modifies cache, this`missed
      ensures Valid() && Mutated(before, userId)
    {
      WriteTouches(before.rows, id, repo.rows[id]);
      WriteKeepsUnique(before.rows, id, repo.rows[id]);
      DeleteUserListCache(userId, patience, before);
    }

    /** The fields an update request sets, validated one after the other. */
    method Patch(src: Source, req: UpdateRequest, now: Time) returns (r: Result<Source>)
      ensures r == Patched(src, req, accepts, now)
    {
      var s := src;
      if req.name.Some? {
        var name := NormalizeName(req.name.value);
        if name.Err? {
          return Err(name.error);
        }
        s := s.(name := name.value);
      }
      if req.url.Some? {
        var url := NormalizeURL(req.url, accepts);
        if url.Err? {
          return Err(url.error);
        }
        if s.sourceType == "rss" && url.value.None? {
          return Err(InvalidURL);
        }
        s := s.(url := url.value);
      }
      if req.config.Some? {
        var config := NormalizeConfig(s.sourceType, req.config.value);
        if config.Err? {
          return Err(config.error);
        }
        s := s.(config := config.value);
      }
      if req.isActive.Some? {
        s := s.(isActive := req.isActive.value);
      }
      return Ok(s.(updatedAt := now));
    }

    method DeleteSource(userId: int, sourceId: int, now: Time, patience: nat) returns (r: Result<()>)
      requires Valid()
      modifies repo, cache, this`missed
      ensures Valid()
      ensures old(TableWellFormed(repo.rows, accepts)) ==> TableWellFormed(repo.rows, accepts)
      ensures r == (if Visible(old(repo.rows), userId, sourceId) then Ok(()) else Err(NotAccessible))
      ensures r.Err? ==> View() == old(View())
      ensures r.Ok? ==>
                && Mutated(old(View()), userId)
                && !Visible(repo.rows, userId, sourceId) && |repo.rows| == |old(repo.rows)|
                && forall i :: 0 <= i < |repo.rows| && i != sourceId ==> repo.rows[i] == old(repo.rows)[i]
    {
      ghost var before := View();
      var notFound := repo.SoftDelete(userId, sourceId, now);
      if notFound {
        return Err(NotAccessible);
      }
      Invalidate(userId, sourceId, patience, before);
      return Ok(());
    }

    /** What a finished collection or a sweep writes to its source, followed by the same invalidation. */
    method RecordFetch(userId: int, sourceId: int, fetch: Fetch, config: RawConfig, now: Time, patience: nat)
      returns (r: Result<()>)
      requires Valid()
      modifies repo, cache, this`missed
      ensures Valid()
      ensures old(TableWellFormed(repo.rows, accepts)) && ConfigAllowed(old(repo.rows), sourceId, config) ==>
                TableWellFormed(repo.rows, accepts)
      ensures r == (if Visible(old(repo.rows), userId, sourceId) then Ok(()) else Err(NotAccessible))
      ensures r.Err? ==> View() == old(View())
      ensures r.Ok? ==>
                && Mutated(old(View()), userId)
                && repo.rows == old(repo.rows)[sourceId :=
                     old(repo.rows)[sourceId].(config := config, fetch := fetch, updatedAt := now)]
    {
      var found := repo.FindByUserIDAndID(userId, sourceId);
      if found.None? {
        return Err(NotAccessible);
      }
      var src := found.value.(config := config, fetch := fetch, updatedAt := now);
      var duplicated := WriteBack(userId, sourceId, src, patience);
      OwnUrlIsFree(old(repo.rows), userId, sourceId);
      return Ok(());
    }

    method RedactListResponse(resp: Response) returns (r: Response)
      ensures r == RedactedResponse(resp)
    {
      r := resp;
      for i := 0 to |resp.sources|
        invariant r.sources == RedactedResponse(resp).sources[..i] + resp.sources[i..]
        invariant r == resp.(sources := r.sources)
      {
        var dto := r.sources[i];
        r := r.(sources := r.sources[i := dto.(config := RedactConfig(dto.config))]);
      }
    }

    /** The cached listing: equal to the uncached one unless its entry outlived a deletion of its user. */
    method ListSources(req: SourceRequest, getFails: bool, setFails: bool) returns (r: Result<Response>)
      requires Valid()
      modifies cache, this`missed, this`origins
      ensures Valid()
      ensures r.Err? <==> NormalizeType(req.sourceType) != "" && !IsValidType(NormalizeType(req.sourceType))
      ensures r.Err? ==> r.error == InvalidType && View() == old(View())
      ensures var q := NormalizeRequest(req, NormalizeType(req.sourceType));
              r.Ok? ==>
                && r.value == Reply(old(View()), q, getFails)
                && View() == Apply(old(View()), List(q, getFails, setFails))
                && (Key(q) !in old(missed) ==> r.value == Uncached(repo.rows, q) && Answers(repo.rows, q, r.value))
    {
      var sourceType := NormalizeType(req.sourceType);
      if sourceType != "" && !IsValidType(sourceType) {
        return Err(InvalidType);
      }
      var q := NormalizeRequest(req, sourceType);
      CoherentStep(View(), List(q, getFails, setFails));
      UncachedAnswers(repo.rows, q);
      var hit := cache.Get(Key(q), getFails);
      if hit.Some? {
        var redacted := RedactListResponse(hit.value);
        return Ok(redacted);
      }
      var resp := Load(q);
      cache.Set(Key(q), resp, setFails);
      if !setFails {
        missed, origins := missed - {Key(q)}, origins[Key(q) := repo.rows];
      }
      return Ok(resp);
    }

    /** A cache miss: the page from the table, turned into redacted DTOs. */
    method Load(q: SourceRequest) returns (resp: Response)
      ensures resp == Uncached(repo.rows, q)
    {
      var rows, total := repo.ListByUserID(q.userId, q.sourceType, q.limit, q.offset);
      var dtos := Redacted(rows);
      ListingIsExact(repo.rows, q.userId, q.sourceType);
      return Response(dtos, total, q.limit, q.offset);
    }

    method Redacted(rows: seq<Source>) returns (dtos: seq<SourceDTO>)
      ensures dtos == ToDTOs(rows)
    {
      dtos := [];
      for i := 0 to |rows|
        invariant dtos == ToDTOs(rows[..i])
      {
        dtos := dtos + [ToDTO(rows[i])];
      }
      assert rows[..|rows|] == rows;
    }

    /** An entry reaches its TTL. */
    method Expire(key: string)
      requires Valid()
      modifies cache, this`missed, this`origins
      ensures Valid() && View() == Apply(old(View()), SourceListing.Expire(key))
    {
      CoherentStep(View(), SourceListing.Expire(key));
      cache.Expire(key);
      missed := missed - {key};
    }
  }
}
