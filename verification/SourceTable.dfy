/** The sources table and the uncached listing of one user's sources. */
module SourceTable {
  import opened Common
  import opened CacheKeys
  import opened Redaction
  import opened Sorting

  datatype Fetch = Fetch(at: Option<Time>, status: string, message: string)

  datatype Source = Source(
    id: nat,
    userId: int,
    name: string,
    sourceType: string,
    url: Option<string>,
    config: RawConfig,
    isActive: bool,
    fetch: Fetch,
    createdAt: Time,
    updatedAt: Time,
    deletedAt: Option<Time>)

  /** Rows are never physically removed, so a row's id is its position. */
  type Table = seq<Source>

  datatype SourceDTO = SourceDTO(
    id: nat, name: string, sourceType: string, url: Option<string>, config: RawConfig,
    isActive: bool, fetch: Fetch, createdAt: Time, updatedAt: Time)

  datatype Response = Response(sources: seq<SourceDTO>, total: nat, limit: int, offset: int)

  predicate Visible(rows: Table, userId: int, id: int) {
    0 <= id < |rows| && rows[id].userId == userId && rows[id].deletedAt.None?
  }

  /** The unique index on (user, url) of rows that are not deleted; `except` is the row being written. */
  predicate UrlTaken(rows: Table, userId: int, url: Option<string>, except: int) {
    url.Some? && exists i :: 0 <= i < |rows| && i != except && Visible(rows, userId, i) && rows[i].url == url
  }

  /** What an update writes: type, owner and creation time stay. */
  function Overwritten(row: Source, src: Source): Source {
    row.(name := src.name, url := src.url, config := src.config, isActive := src.isActive, fetch := src.fetch,
         updatedAt := src.updatedAt)
  }

  class SourceRepository {
    var rows: Table

    constructor ()
      ensures rows == []
    {
      rows := [];
    }

    method Create(src: Source) returns (duplicated: bool)
      modifies this
      ensures duplicated <==> UrlTaken(old(rows), src.userId, src.url, -1)
      ensures duplicated <==>
                src.url.Some? && exists i :: 0 <= i < |old(rows)| && old(rows)[i].userId == src.userId
                                             && old(rows)[i].deletedAt.None? && old(rows)[i].url == src.url
      ensures rows == if duplicated then old(rows) else old(rows) + [src.(id := |old(rows)|, deletedAt := None)]
    {
      duplicated := UrlTaken(rows, src.userId, src.url, -1);
      if !duplicated {
        rows := rows + [src.(id := |rows|, deletedAt := None)];
      }
    }

    method FindByUserIDAndID(userId: int, id: int) returns (found: Option<Source>)
      ensures found == if Visible(rows, userId, id) then Some(rows[id]) else None
      ensures found.Some? <==> 0 <= id < |rows| && rows[id].userId == userId && rows[id].deletedAt.None?
    {
      return if Visible(rows, userId, id) then Some(rows[id]) else None;
    }

    method Update(userId: int, id: int, src: Source) returns (notFound: bool, duplicated: bool)
      modifies this
      ensures notFound <==> !Visible(old(rows), userId, id)
      ensures duplicated <==> !notFound && UrlTaken(old(rows), userId, src.url, id)
      ensures rows == if notFound || duplicated then old(rows) else old(rows)[id := Overwritten(old(rows)[id], src)]
      ensures !notFound && !duplicated ==>
                var was, row := old(rows)[id], rows[id];
                && row.name == src.name && row.url == src.url && row.config == src.config
                && row.isActive == src.isActive && row.fetch == src.fetch && row.updatedAt == src.updatedAt
                && row.id == was.id && row.userId == was.userId && row.sourceType == was.sourceType
                && row.createdAt == was.createdAt && row.deletedAt == was.deletedAt
    {
      if !Visible(rows, userId, id) {
        return true, false;
      }
      if UrlTaken(rows, userId, src.url, id) {
        return false, true;
      }
      rows := rows[id := Overwritten(rows[id], src)];
      return false, false;
    }

    method SoftDelete(userId: int, id: int, at: Time) returns (notFound: bool)
      modifies this
      ensures notFound <==> !Visible(old(rows), userId, id)
      ensures rows == if notFound then old(rows)
                      else old(rows)[id := old(rows)[id].(deletedAt := Some(at), updatedAt := at, isActive := false)]
    {
      if !Visible(rows, userId, id) {
        return true;
      }
      rows := rows[id := rows[id].(deletedAt := Some(at), updatedAt := at, isActive := false)];
      return false;
    }

    /**
     Count, then newest first, LIMIT and OFFSET. The total is the number of the user's visible rows of the
     type; the page holds only such rows, newest first, and is as long as the limit and the total allow.
     */
    method ListByUserID(userId: int, sourceType: string, limit: int, offset: int)
      returns (page: seq<Source>, total: nat)
      ensures total == |ListedIds(rows, userId, sourceType)|
      ensures |page| == Min(NormalizeLimit(limit, 20, 100), Max(0, total - Max(0, offset)))
      ensures OnlyListed(page, rows, userId, sourceType) && Descending(page, CreatedKey)
      ensures page == Page(Listing(rows, userId, sourceType), Max(0, offset), NormalizeLimit(limit, 20, 100))
    {
      PageIsExact(rows, userId, sourceType, NormalizeLimit(limit, 20, 100), Max(0, offset));
      var matching := Matching(rows, userId, sourceType);
      return Page(SortDescending(matching, CreatedKey), Max(0, offset), NormalizeLimit(limit, 20, 100)), |matching|;
    }
  }

  // ---------------------------------------------------------------- the uncached listing

  /** The user's rows that are not deleted, among the first n. */
  function Live(rows: Table, userId: int, n: nat): seq<Source>
    requires n <= |rows|
  {
    if n == 0 then []
    else Live(rows, userId, n - 1) + if Visible(rows, userId, n - 1) then [rows[n - 1]] else []
  }

  predicate IsType(s: Source, sourceType: string) {
    sourceType == "" || s.sourceType == sourceType
  }

  function OfType(rows: Table, sourceType: string, n: nat): seq<Source>
    requires n <= |rows|
  {
    if n == 0 then []
    else OfType(rows, sourceType, n - 1) + if IsType(rows[n - 1], sourceType) then [rows[n - 1]] else []
  }

  function Matching(rows: Table, userId: int, sourceType: string): seq<Source> {
    var live := Live(rows, userId, |rows|);
    OfType(live, sourceType, |live|)
  }

  /** The user's visible rows of the type, newest first. */
  function Listing(rows: Table, userId: int, sourceType: string): seq<Source> {
    SortDescending(Matching(rows, userId, sourceType), CreatedKey)
  }

  /** The rows a listing is about, by id. */
  function ListedIds(rows: Table, userId: int, sourceType: string): set<nat> {
    set i: nat | i < |rows| && Listed(rows, userId, sourceType, i)
  }

  function ListedAmong(rows: Table, userId: int, sourceType: string, n: nat): set<nat> {
    set i: nat | i < n && Listed(rows, userId, sourceType, i)
  }

  lemma {:induction false} OfTypeConcat(a: seq<Source>, x: Source, sourceType: string, n: nat)
    requires n <= |a|
    ensures OfType(a + [x], sourceType, n) == OfType(a, sourceType, n)
  {
    if n > 0 {
      OfTypeConcat(a, x, sourceType, n - 1);
    }
  }

  predicate Listed(rows: Table, userId: int, sourceType: string, i: nat) {
    i < |rows| && Visible(rows, userId, i) && IsType(rows[i], sourceType)
  }

  /** Both filters at once. */
  function Filtered(rows: Table, userId: int, sourceType: string, n: nat): seq<Source>
    requires n <= |rows|
  {
    if n == 0 then []
    else Filtered(rows, userId, sourceType, n - 1) +
         if Listed(rows, userId, sourceType, n - 1) then [rows[n - 1]] else []
  }

  lemma {:induction false} FilteredTwice(rows: Table, userId: int, sourceType: string, n: nat)
    requires n <= |rows|
    ensures var live := Live(rows, userId, n);
            OfType(live, sourceType, |live|) == Filtered(rows, userId, sourceType, n)
  {
    if n > 0 {
      FilteredTwice(rows, userId, sourceType, n - 1);
      var before := Live(rows, userId, n - 1);
      if Visible(rows, userId, n - 1) {
        assert Live(rows, userId, n) == before + [rows[n - 1]];
        OfTypeConcat(before, rows[n - 1], sourceType, |before|);
      } else {
        assert Live(rows, userId, n) == before;
      }
    }
  }

  lemma AmongStep(rows: Table, userId: int, sourceType: string, n: nat)
    ensures ListedAmong(rows, userId, sourceType, n + 1)
            == ListedAmong(rows, userId, sourceType, n) + if Listed(rows, userId, sourceType, n) then {n} else {}
  {
  }

  lemma {:induction false} FilteredSize(rows: Table, userId: int, sourceType: string, n: nat)
    requires n <= |rows|
    ensures |Filtered(rows, userId, sourceType, n)| == |ListedAmong(rows, userId, sourceType, n)|
  {
    if n > 0 {
      FilteredSize(rows, userId, sourceType, n - 1);
      AmongStep(rows, userId, sourceType, n - 1);
    }
  }

  lemma {:induction false} FilteredHas(rows: Table, userId: int, sourceType: string, n: nat, x: Source)
    requires n <= |rows|
    ensures x in Filtered(rows, userId, sourceType, n)
            <==> exists i :: i in ListedAmong(rows, userId, sourceType, n) && rows[i] == x
  {
    if n > 0 {
      FilteredHas(rows, userId, sourceType, n - 1, x);
      AmongStep(rows, userId, sourceType, n - 1);
    }
  }

  /** Filtering keeps exactly the listed rows, each once. */
  lemma FilteredIsExact(rows: Table, userId: int, sourceType: string, n: nat)
    requires n <= |rows|
    ensures |Filtered(rows, userId, sourceType, n)| == |ListedAmong(rows, userId, sourceType, n)|
    ensures forall x :: x in Filtered(rows, userId, sourceType, n)
                        <==> exists i :: i in ListedAmong(rows, userId, sourceType, n) && rows[i] == x
  {
    FilteredSize(rows, userId, sourceType, n);
    forall x
      ensures x in Filtered(rows, userId, sourceType, n)
              <==> exists i :: i in ListedAmong(rows, userId, sourceType, n) && rows[i] == x
    {
      FilteredHas(rows, userId, sourceType, n, x);
    }
  }

  /** x is one of the listed rows. */
  ghost predicate IsListed(x: Source, rows: Table, userId: int, sourceType: string) {
    exists i :: i in ListedIds(rows, userId, sourceType) && rows[i] == x
  }

  ghost predicate OnlyListed(page: seq<Source>, rows: Table, userId: int, sourceType: string) {
    forall x :: x in page ==> IsListed(x, rows, userId, sourceType)
  }

  lemma MatchingIsExact(rows: Table, userId: int, sourceType: string)
    ensures |Matching(rows, userId, sourceType)| == |ListedIds(rows, userId, sourceType)|
    ensures forall x :: x in Matching(rows, userId, sourceType) <==> IsListed(x, rows, userId, sourceType)
  {
    FilteredTwice(rows, userId, sourceType, |rows|);
    FilteredIsExact(rows, userId, sourceType, |rows|);
    assert ListedAmong(rows, userId, sourceType, |rows|) == ListedIds(rows, userId, sourceType);
  }

  lemma SameElements<T>(xs: seq<T>, ys: seq<T>)
    requires multiset(xs) == multiset(ys)
    ensures |xs| == |ys| && forall x :: x in xs <==> x in ys
  {
    assert |multiset(xs)| == |xs| && |multiset(ys)| == |ys|;
    forall x ensures x in xs <==> x in ys {
      assert x in multiset(xs) <==> x in multiset(ys);
    }
  }

  /** A listing holds exactly the user's visible rows of the type, as many as there are, newest first. */
  lemma ListingIsExact(rows: Table, userId: int, sourceType: string)
    ensures |Listing(rows, userId, sourceType)| == |ListedIds(rows, userId, sourceType)|
    ensures forall x :: x in Listing(rows, userId, sourceType) <==> IsListed(x, rows, userId, sourceType)
    ensures Descending(Listing(rows, userId, sourceType), CreatedKey)
  {
    MatchingIsExact(rows, userId, sourceType);
    SortedAndStable(Matching(rows, userId, sourceType), CreatedKey, 0.0);
    SameElements(Listing(rows, userId, sourceType), Matching(rows, userId, sourceType));
  }

  /** A page is a stretch of the list, cut at its end. */
  lemma PageOf(xs: seq<Source>, offset: nat, limit: nat)
    requires Descending(xs, CreatedKey)
    ensures |Page(xs, offset, limit)| == Min(limit, Max(0, |xs| - offset))
    ensures forall x :: x in Page(xs, offset, limit) ==> x in xs
    ensures Descending(Page(xs, offset, limit), CreatedKey)
  {
    var page, low := Page(xs, offset, limit), Min(offset, |xs|);
    assert forall i :: 0 <= i < |page| ==> page[i] == xs[low + i];
  }

  /** A page holds only listed rows, newest first, and is as long as the limit and their number allow. */
  lemma PageIsExact(rows: Table, userId: int, sourceType: string, limit: nat, offset: nat)
    ensures |Listing(rows, userId, sourceType)| == |ListedIds(rows, userId, sourceType)|
    ensures var page := Page(Listing(rows, userId, sourceType), offset, limit);
            && |page| == Min(limit, Max(0, |ListedIds(rows, userId, sourceType)| - offset))
            && OnlyListed(page, rows, userId, sourceType) && Descending(page, CreatedKey)
  {
    ListingIsExact(rows, userId, sourceType);
    PageOf(Listing(rows, userId, sourceType), offset, limit);
  }

  /** Consecutive pages lose nothing and repeat nothing. */
  lemma PagesTile<T>(xs: seq<T>, offset: nat, limit: nat, more: nat)
    ensures Page(xs, offset, limit) + Page(xs, offset + limit, more) == Page(xs, offset, limit + more)
  {
  }

  function CreatedKey(s: Source): real { s.createdAt as real }

  function Page<T>(xs: seq<T>, offset: nat, limit: nat): seq<T> {
    xs[Min(offset, |xs|)..Min(offset + limit, |xs|)]
  }

  function ToDTO(s: Source): SourceDTO {
    SourceDTO(s.id, s.name, s.sourceType, s.url, RedactConfig(s.config), s.isActive, s.fetch, s.createdAt, s.updatedAt)
  }

  function ToDTOs(rows: seq<Source>): seq<SourceDTO> {
    seq(|rows|, i requires 0 <= i < |rows| => ToDTO(rows[i]))
  }

  function NormalizeRequest(r: SourceRequest, sourceType: string): SourceRequest {
    SourceRequest(r.userId, sourceType, NormalizeLimit(r.limit, 20, 100), Max(0, r.offset))
  }

  /** What the listing is without any cache, for a normalized request. */
  function Uncached(rows: Table, r: SourceRequest): Response {
    var listing := Listing(rows, r.userId, r.sourceType);
    Response(ToDTOs(Page(listing, Max(0, r.offset), NormalizeLimit(r.limit, 20, 100))), |listing|, r.limit, r.offset)
  }

  // ---------------------------------------------------------------- what a listing shows, row by row

  /** A row's id is its position. */
  predicate Numbered(rows: Table) {
    forall i :: 0 <= i < |rows| ==> rows[i].id == i
  }

  ghost predicate Displays(d: SourceDTO, row: Source) {
    && d.id == row.id && d.name == row.name && d.sourceType == row.sourceType && d.url == row.url
    && d.isActive == row.isActive && d.fetch == row.fetch && d.createdAt == row.createdAt
    && d.updatedAt == row.updatedAt && Shows(d.config, row.config)
  }

  predicate Wanted(row: Source, userId: int, sourceType: string) {
    row.userId == userId && row.deletedAt.None? && (sourceType == "" || row.sourceType == sourceType)
  }

  /**
   The right answer to a listing: the number of the user's rows of the type that are not deleted, and a page of
   them as they are stored, each once and newest first.
   */
  ghost predicate Answers(rows: Table, r: SourceRequest, resp: Response) {
    var limit := if r.limit <= 0 then 20 else if r.limit > 100 then 100 else r.limit;
    && resp.total == |set i | 0 <= i < |rows| && Wanted(rows[i], r.userId, r.sourceType)|
    && |resp.sources| == Min(limit, Max(0, resp.total - Max(0, r.offset)))
    && (forall k :: 0 <= k < |resp.sources| ==>
          && resp.sources[k].id < |rows| && Wanted(rows[resp.sources[k].id], r.userId, r.sourceType)
          && Displays(resp.sources[k], rows[resp.sources[k].id]))
    && (forall j, k :: 0 <= j < k < |resp.sources| ==>
          resp.sources[j].id != resp.sources[k].id && resp.sources[j].createdAt >= resp.sources[k].createdAt)
  }

  lemma ToDTODisplays(row: Source)
    ensures Displays(ToDTO(row), row)
  {
    RedactConfigShows(row.config);
  }

  /** Ids below n, each larger than the one before. */
  predicate Rising(xs: seq<Source>, n: nat) {
    && (forall k :: 0 <= k < |xs| ==> xs[k].id < n)
    && (forall j, k :: 0 <= j < k < |xs| ==> xs[j].id < xs[k].id)
  }

  lemma RisingSnoc(xs: seq<Source>, last: Source, n: nat)
    requires Rising(xs, n) && last.id == n
    ensures Rising(xs, n + 1) && Rising(xs + [last], n + 1)
  {
  }

  lemma {:induction false} FilteredIdsRise(rows: Table, userId: int, sourceType: string, n: nat)
    requires n <= |rows| && Numbered(rows)
    ensures Rising(Filtered(rows, userId, sourceType, n), n)
  {
    if n > 0 {
      FilteredIdsRise(rows, userId, sourceType, n - 1);
      var before := Filtered(rows, userId, sourceType, n - 1);
      RisingSnoc(before, rows[n - 1], n - 1);
      assert before + [] == before;
    }
  }

  lemma MatchingDistinct(rows: Table, userId: int, sourceType: string)
    requires Numbered(rows)
    ensures var xs := Matching(rows, userId, sourceType); forall j, k :: 0 <= j < k < |xs| ==> xs[j] != xs[k]
  {
    FilteredTwice(rows, userId, sourceType, |rows|);
    FilteredIdsRise(rows, userId, sourceType, |rows|);
  }

  lemma {:induction false} CountPositions<T>(xs: seq<T>, j: nat, k: nat)
    requires j < k < |xs| && xs[j] == xs[k]
    ensures multiset(xs)[xs[j]] >= 2
  {
    assert xs == xs[..k] + xs[k..];
    assert xs[..k][j] == xs[j] && xs[k..][0] == xs[k];
    assert multiset(xs) == multiset(xs[..k]) + multiset(xs[k..]);
    assert xs[j] in multiset(xs[..k]) && xs[k] in multiset(xs[k..]);
  }

  lemma {:induction false} DistinctCounts<T>(xs: seq<T>, x: T)
    requires forall j, k :: 0 <= j < k < |xs| ==> xs[j] != xs[k]
    ensures multiset(xs)[x] <= 1
  {
    if xs != [] {
      var last := |xs| - 1;
      DistinctCounts(xs[..last], x);
      assert xs == xs[..last] + [xs[last]];
      assert xs[last] !in multiset(xs[..last]);
    }
  }

  /** Sorting a list without repetitions yields one. */
  lemma SortedDistinct(xs: seq<Source>, j: nat, k: nat)
    requires forall i, m :: 0 <= i < m < |xs| ==> xs[i] != xs[m]
    requires j < k < |xs|
    ensures SortDescending(xs, CreatedKey)[j] != SortDescending(xs, CreatedKey)[k]
  {
    var sorted := SortDescending(xs, CreatedKey);
    if sorted[j] == sorted[k] {
      CountPositions(sorted, j, k);
      DistinctCounts(xs, sorted[j]);
    }
  }

  lemma ListingDistinct(rows: Table, userId: int, sourceType: string, j: nat, k: nat)
    requires Numbered(rows) && j < k < |Listing(rows, userId, sourceType)|
    ensures Listing(rows, userId, sourceType)[j] != Listing(rows, userId, sourceType)[k]
  {
    MatchingDistinct(rows, userId, sourceType);
    SortedDistinct(Matching(rows, userId, sourceType), j, k);
  }

  lemma ListedDistinct(rows: Table, userId: int, sourceType: string, x: Source, y: Source)
    requires Numbered(rows) && x != y && IsListed(x, rows, userId, sourceType) && IsListed(y, rows, userId, sourceType)
    ensures x.id != y.id
  {
    ListedIsWanted(rows, userId, sourceType, x);
    ListedIsWanted(rows, userId, sourceType, y);
  }

  lemma ListedIsWanted(rows: Table, userId: int, sourceType: string, x: Source)
    requires Numbered(rows) && IsListed(x, rows, userId, sourceType)
    ensures x.id < |rows| && rows[x.id] == x && Wanted(x, userId, sourceType)
  {
  }

  lemma ListedCount(rows: Table, userId: int, sourceType: string)
    ensures ListedIds(rows, userId, sourceType) == set i | 0 <= i < |rows| && Wanted(rows[i], userId, sourceType)
  {
  }

  /** One entry of a page. */
  lemma EntryIsRight(rows: Table, r: SourceRequest, x: Source)
    requires Numbered(rows) && IsListed(x, rows, r.userId, r.sourceType)
    ensures x.id < |rows| && Wanted(rows[x.id], r.userId, r.sourceType) && Displays(ToDTO(x), rows[x.id])
  {
    ListedIsWanted(rows, r.userId, r.sourceType, x);
    ToDTODisplays(x);
  }

  /** Two entries of a page. */
  lemma EntriesInOrder(rows: Table, r: SourceRequest, j: nat, k: nat)
    requires Numbered(rows) && j < k < |Listing(rows, r.userId, r.sourceType)|
    ensures var xs := Listing(rows, r.userId, r.sourceType); xs[j].id != xs[k].id && xs[j].createdAt >= xs[k].createdAt
  {
    var xs := Listing(rows, r.userId, r.sourceType);
    ListingIsExact(rows, r.userId, r.sourceType);
    assert xs[j] in xs && xs[k] in xs;
    ListingDistinct(rows, r.userId, r.sourceType, j, k);
    ListedDistinct(rows, r.userId, r.sourceType, xs[j], xs[k]);
    assert CreatedKey(xs[j]) >= CreatedKey(xs[k]);
  }

  lemma PageAt<T>(xs: seq<T>, offset: nat, limit: nat, k: nat)
    requires k < |Page(xs, offset, limit)|
    ensures Min(offset, |xs|) + k < |xs| && Page(xs, offset, limit)[k] == xs[Min(offset, |xs|) + k]
  {
  }

  ghost predicate EntriesRight(rows: Table, r: SourceRequest, page: seq<Source>) {
    forall k :: 0 <= k < |page| ==>
      && page[k].id < |rows| && Wanted(rows[page[k].id], r.userId, r.sourceType)
      && Displays(ToDTO(page[k]), rows[page[k].id])
  }

  ghost predicate InOrder(page: seq<Source>) {
    forall j, k :: 0 <= j < k < |page| ==> page[j].id != page[k].id && page[j].createdAt >= page[k].createdAt
  }

  lemma PageEntriesRight(rows: Table, r: SourceRequest, page: seq<Source>)
    requires Numbered(rows) && OnlyListed(page, rows, r.userId, r.sourceType)
    ensures EntriesRight(rows, r, page)
  {
    forall k | 0 <= k < |page|
      ensures page[k].id < |rows| && Wanted(rows[page[k].id], r.userId, r.sourceType)
      ensures Displays(ToDTO(page[k]), rows[page[k].id])
    {
      assert page[k] in page;
      EntryIsRight(rows, r, page[k]);
    }
  }

  lemma PageInOrder(rows: Table, r: SourceRequest, low: nat, limit: nat)
    requires Numbered(rows)
    ensures InOrder(Page(Listing(rows, r.userId, r.sourceType), low, limit))
  {
    var xs := Listing(rows, r.userId, r.sourceType);
    var page := Page(xs, low, limit);
    forall j, k | 0 <= j < k < |page|
      ensures page[j].id != page[k].id && page[j].createdAt >= page[k].createdAt
    {
      PageAt(xs, low, limit, j);
      PageAt(xs, low, limit, k);
      EntriesInOrder(rows, r, Min(low, |xs|) + j, Min(low, |xs|) + k);
    }
  }

  lemma PageAnswers(rows: Table, r: SourceRequest, page: seq<Source>, resp: Response)
    requires EntriesRight(rows, r, page) && InOrder(page) && resp.sources == ToDTOs(page)
    requires resp.total == |set i | 0 <= i < |rows| && Wanted(rows[i], r.userId, r.sourceType)|
    requires |page| == Min(NormalizeLimit(r.limit, 20, 100), Max(0, resp.total - Max(0, r.offset)))
    ensures Answers(rows, r, resp)
  {
  }

  /** The uncached listing is the right answer. */
  lemma UncachedAnswers(rows: Table, r: SourceRequest)
    requires Numbered(rows)
    ensures Answers(rows, r, Uncached(rows, r))
  {
    var low, limit := Max(0, r.offset), NormalizeLimit(r.limit, 20, 100);
    var page := Page(Listing(rows, r.userId, r.sourceType), low, limit);
    PageIsExact(rows, r.userId, r.sourceType, limit, low);
    ListedCount(rows, r.userId, r.sourceType);
    PageEntriesRight(rows, r, page);
    PageInOrder(rows, r, low, limit);
    PageAnswers(rows, r, page, Uncached(rows, r));
  }

  /** Two tables show a user the same sources. */
  ghost predicate SameFor(rows: Table, rows': Table, userId: int) {
    Live(rows, userId, |rows|) == Live(rows', userId, |rows'|)
  }

  /** Only this user's rows differ. */
  ghost predicate OnlyTouches(rows: Table, rows': Table, userId: int) {
    forall v :: v != userId ==> SameFor(rows, rows', v)
  }

  lemma {:induction false} LiveUntouched(rows: Table, rows': Table, v: int, n: nat)
    requires n <= |rows| <= |rows'|
    requires forall k :: 0 <= k < n ==> rows[k] == rows'[k] || (rows[k].userId != v && rows'[k].userId != v)
    ensures Live(rows, v, n) == Live(rows', v, n)
  {
    if n > 0 {
      LiveUntouched(rows, rows', v, n - 1);
    }
  }

  /** Writing one row in place only concerns its owner. */
  lemma WriteTouches(rows: Table, id: nat, row: Source)
    requires id < |rows| && row.userId == rows[id].userId
    ensures OnlyTouches(rows, rows[id := row], row.userId)
  {
    var rows' := rows[id := row];
    forall v | v != row.userId ensures SameFor(rows, rows', v) {
      LiveUntouched(rows, rows', v, |rows|);
    }
  }

  /** So does adding one. */
  lemma AppendTouches(rows: Table, row: Source)
    ensures OnlyTouches(rows, rows + [row], row.userId)
  {
    var rows' := rows + [row];
    forall v | v != row.userId ensures SameFor(rows, rows', v) {
      LiveUntouched(rows, rows', v, |rows|);
    }
  }
}
