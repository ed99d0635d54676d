/** Saving collected items: normalisation, the two unique keys of the articles table, and the batch counters. */
module Articles {
  import opened Common
  import opened Text

  datatype CollectedItem = CollectedItem(
    userId: int,
    sourceId: int,
    sourceType: string,
    externalId: Option<string>,
    title: string,
    url: Option<string>,
    originalUrl: Option<string>,
    author: string,
    summary: string,
    content: string,
    contentHash: string,
    publishedAt: Option<Time>)

  datatype Article = Article(
    sourceId: int,
    sourceType: string,
    externalId: Option<string>,
    title: string,
    url: Option<string>,
    originalUrl: Option<string>,
    author: string,
    summary: string,
    content: string,
    contentHash: string,
    publishedAt: Option<Time>,
    createdAt: Time,
    updatedAt: Time)

  type Table = seq<Article>

  function NormalizeOptional(value: Option<string>): Option<string> {
    if value.None? || Blank(value.value) then None else Some(TrimSpace(value.value))
  }

  /** toArticle; None is ErrInvalidCollectedItem. */
  function ToArticle(item: CollectedItem, now: Time): Option<Article> {
    if item.sourceId <= 0 || Blank(item.sourceType) || Blank(item.title) || Blank(item.contentHash) then None
    else Some(Article(
      item.sourceId, TrimSpace(item.sourceType), NormalizeOptional(item.externalId), TrimSpace(item.title),
      NormalizeOptional(item.url), NormalizeOptional(item.originalUrl), TrimSpace(item.author),
      TrimSpace(item.summary), TrimSpace(item.content), TrimSpace(item.contentHash), item.publishedAt, now, now))
  }

  /** The unique indexes: (source, content hash), and (source, external id) where there is one. */
  predicate Conflicts(a: Article, b: Article) {
    && a.sourceId == b.sourceId
    && (a.contentHash == b.contentHash || (a.externalId.Some? && a.externalId == b.externalId))
  }

  predicate Known(articles: Table, a: Article) {
    exists i :: 0 <= i < |articles| && Conflicts(articles[i], a)
  }

  /** The batch so far: table, counters and the users whose lists changed. */
  datatype Saving = Saving(articles: Table, inserted: nat, duplicated: nat, users: set<int>)

  function SaveOne(s: Saving, userId: int, a: Article): Saving {
    if Known(s.articles, a) then s.(duplicated := s.duplicated + 1)
    else s.(articles := s.articles + [a], inserted := s.inserted + 1,
            users := if userId > 0 then s.users + {userId} else s.users)
  }

  /** An item as it reaches the table: its owner and its article, None if the item is invalid. */
  datatype Row = Row(userId: int, article: Option<Article>)

  function RowOf(item: CollectedItem, now: Time): Row {
    Row(item.userId, ToArticle(item, now))
  }

  /** `stamps` are the clock readings, one per item. */
  function Rows(items: seq<CollectedItem>, stamps: nat -> Time): (r: seq<Row>)
    ensures |r| == |items|
  {
    seq(|items|, i requires 0 <= i < |items| => RowOf(items[i], stamps(i)))
  }

  /** Saving the first k rows; None when one of them is invalid. */
  function SavedTo(articles: Table, rows: seq<Row>, k: nat): Option<Saving>
    requires k <= |rows|
  {
    if k == 0 then Some(Saving(articles, 0, 0, {}))
    else
      var before := SavedTo(articles, rows, k - 1);
      if before.None? || rows[k - 1].article.None? then None
      else Some(SaveOne(before.value, rows[k - 1].userId, rows[k - 1].article.value))
  }

  /** Saving a whole batch. */
  function Saved(articles: Table, items: seq<CollectedItem>, stamps: nat -> Time): Option<Saving> {
    SavedTo(articles, Rows(items, stamps), |items|)
  }

  datatype SaveError = InvalidItem | StorageFailed

  class ArticleService {
    var articles: Table
    /** The users whose cached lists were dropped by the last save. */
    var invalidated: set<int>

    constructor ()
      ensures articles == [] && invalidated == {}
    {
      articles, invalidated := [], {};
    }

    /** INSERT ... ON CONFLICT DO NOTHING. */
    method CreateIfNotExists(a: Article) returns (created: bool)
      modifies this`articles
      ensures created <==>
                !exists i :: 0 <= i < |old(articles)| && old(articles)[i].sourceId == a.sourceId
                             && (old(articles)[i].contentHash == a.contentHash
                                 || (a.externalId.Some? && old(articles)[i].externalId == a.externalId))
      ensures articles == if created then old(articles) + [a] else old(articles)
    {
      created := !Known(articles, a);
      if created {
        articles := articles + [a];
      }
    }

    /** One turn of the loop, for a valid item: insert and count. */
    method SaveItem(userId: int, a: Article, inserted: nat, duplicated: nat, changed: set<int>)
      returns (inserted': nat, duplicated': nat, changed': set<int>)
      modifies this`articles
      ensures Saving(articles, inserted', duplicated', changed')
              == SaveOne(Saving(old(articles), inserted, duplicated, changed), userId, a)
    {
      inserted', duplicated', changed' := inserted, duplicated, changed;
      var created := CreateIfNotExists(a);
      if created {
        inserted' := inserted + 1;
        if userId > 0 {
          changed' := changed + {userId};
        }
      } else {
        duplicated' := duplicated + 1;
      }
    }

    /** The loop of SaveCollectedItems over the converted items, stopping at the first invalid one. */
    method SaveRows(rows: seq<Row>, brokenAt: Option<nat>)
      returns (inserted: nat, duplicated: nat, changed: set<int>, error: Option<SaveError>)
      modifies this`articles
      ensures error.None? ==>
                && SavedTo(old(articles), rows, |rows|) == Some(Saving(articles, inserted, duplicated, changed))
                && (brokenAt.Some? ==> brokenAt.value >= |rows|)
      ensures error == Some(InvalidItem) ==> SavedTo(old(articles), rows, |rows|).None?
      ensures error == Some(StorageFailed) ==> brokenAt.Some? && brokenAt.value < |rows|
    {
      inserted, duplicated, changed, error := 0, 0, {}, None;
      for i := 0 to |rows|
        invariant SavedTo(old(articles), rows, i) == Some(Saving(articles, inserted, duplicated, changed))
        invariant brokenAt.Some? ==> brokenAt.value >= i
      {
        if rows[i].article.None? {
          SavedFailsEarly(old(articles), rows, i + 1);
          return 0, 0, {}, Some(InvalidItem);
        }
        if brokenAt == Some(i) {
          return 0, 0, {}, Some(StorageFailed);
        }
        inserted, duplicated, changed := SaveItem(rows[i].userId, rows[i].article.value, inserted, duplicated, changed);
      }
    }

    /** `brokenAt` is the item whose insert fails in the database, if any. */
    method SaveCollectedItems(items: seq<CollectedItem>, stamps: nat -> Time, brokenAt: Option<nat>)
      returns (inserted: nat, duplicated: nat, error: Option<SaveError>)
      modifies this
      ensures error.None? ==>
                && Saved(old(articles), items, stamps) == Some(Saving(articles, inserted, duplicated, invalidated))
                && (brokenAt.Some? ==> brokenAt.value >= |items|)
      ensures error.None? ==>
                && (forall i :: 0 <= i < |items| ==> Acceptable(items[i]))
                && Extends(old(articles), items, stamps, |items|, articles)
                && inserted == |NewItems(old(articles), items, |items|)| && inserted + duplicated == |items|
                && invalidated == NewUsers(old(articles), items, |items|)
      ensures error == Some(InvalidItem) ==>
                Saved(old(articles), items, stamps).None? && exists i :: 0 <= i < |items| && !Acceptable(items[i])
      ensures error == Some(StorageFailed) ==> brokenAt.Some? && brokenAt.value < |items|
      ensures error.Some? ==> invalidated == old(invalidated)
    {
      SavedStoresNew(articles, items, stamps, |items|);
      var changed;
      inserted, duplicated, changed, error := SaveRows(Rows(items, stamps), brokenAt);
      if error.None? {
        invalidated := changed;
      }
    }
  }

  lemma {:induction false} SavedFailsEarly(articles: Table, rows: seq<Row>, k: nat)
    requires k <= |rows| && SavedTo(articles, rows, k).None?
    ensures SavedTo(articles, rows, |rows|).None?
    decreases |rows| - k
  {
    if k < |rows| {
      SavedFailsEarly(articles, rows, k + 1);
    }
  }

  ghost predicate NoConflicts(articles: Table) {
    forall i, j :: 0 <= i < j < |articles| ==> !Conflicts(articles[i], articles[j])
  }

  /** fetched = inserted + duplicated, the table grows by exactly inserted, and stays free of conflicts. */
  lemma SavedConserves(articles: Table, items: seq<CollectedItem>, stamps: nat -> Time)
    requires Saved(articles, items, stamps).Some?
    ensures var s := Saved(articles, items, stamps).value;
            && s.inserted + s.duplicated == |items|
            && |s.articles| == |articles| + s.inserted
            && articles <= s.articles
            && (NoConflicts(articles) ==> NoConflicts(s.articles))
  {
    SavedToConserves(articles, Rows(items, stamps), |items|);
  }

  lemma {:induction false} SavedToConserves(articles: Table, rows: seq<Row>, k: nat)
    requires k <= |rows| && SavedTo(articles, rows, k).Some?
    ensures var s := SavedTo(articles, rows, k).value;
            && s.inserted + s.duplicated == k
            && |s.articles| == |articles| + s.inserted
            && articles <= s.articles
            && (NoConflicts(articles) ==> NoConflicts(s.articles))
  {
    if k > 0 {
      SavedToConserves(articles, rows, k - 1);
    }
  }

  /** Validity and the unique keys of an article do not depend on when it is converted. */
  lemma KeysIgnoreClock(item: CollectedItem, now: Time, later: Time)
    ensures ToArticle(item, now).Some? <==> ToArticle(item, later).Some?
    ensures ToArticle(item, now).Some? ==>
              forall b :: Conflicts(b, ToArticle(item, now).value) <==> Conflicts(b, ToArticle(item, later).value)
  {
  }

  lemma KnownKeeps(articles: Table, articles': Table, a: Article)
    requires articles <= articles' && Known(articles, a)
    ensures Known(articles', a)
  {
    var i :| 0 <= i < |articles| && Conflicts(articles[i], a);
    assert Conflicts(articles'[i], a);
  }

  lemma SaveOneCovers(s: Saving, userId: int, a: Article)
    ensures s.articles <= SaveOne(s, userId, a).articles && Known(SaveOne(s, userId, a).articles, a)
  {
    if !Known(s.articles, a) {
      assert Conflicts(SaveOne(s, userId, a).articles[|s.articles|], a);
    }
  }

  /** After a save every row of the batch conflicts with some stored article. */
  lemma {:induction false} SavedCovers(articles: Table, rows: seq<Row>, k: nat, i: nat)
    requires i < k <= |rows| && SavedTo(articles, rows, k).Some?
    ensures rows[i].article.Some? && Known(SavedTo(articles, rows, k).value.articles, rows[i].article.value)
  {
    var before := SavedTo(articles, rows, k - 1).value;
    SaveOneCovers(before, rows[k - 1].userId, rows[k - 1].article.value);
    if i < k - 1 {
      SavedCovers(articles, rows, k - 1, i);
      KnownKeeps(before.articles, SavedTo(articles, rows, k).value.articles, rows[i].article.value);
    }
  }

  lemma KnownIgnoresClock(articles: Table, a: Article, b: Article)
    requires Known(articles, a) && forall x :: Conflicts(x, a) <==> Conflicts(x, b)
    ensures Known(articles, b)
  {
  }

  lemma {:induction false} CoveredSavesNothing(articles: Table, rows: seq<Row>, k: nat)
    requires k <= |rows|
    requires forall i :: 0 <= i < k ==> rows[i].article.Some? && Known(articles, rows[i].article.value)
    ensures SavedTo(articles, rows, k) == Some(Saving(articles, 0, k, {}))
  {
    if k > 0 {
      CoveredSavesNothing(articles, rows, k - 1);
    }
  }

  /** Saving the same batch again, at any later time, inserts nothing and reports every item a duplicate. */
  lemma SaveTwiceInsertsNothing(articles: Table, items: seq<CollectedItem>, stamps: nat -> Time, later: nat -> Time)
    requires Saved(articles, items, stamps).Some?
    ensures var first := Saved(articles, items, stamps).value;
            Saved(first.articles, items, later) == Some(Saving(first.articles, 0, |items|, {}))
  {
    var rows, again := Rows(items, stamps), Rows(items, later);
    var stored := Saved(articles, items, stamps).value.articles;
    forall i | 0 <= i < |items| ensures again[i].article.Some? && Known(stored, again[i].article.value) {
      SavedCovers(articles, rows, |items|, i);
      KeysIgnoreClock(items[i], stamps(i), later(i));
      KnownIgnoresClock(stored, rows[i].article.value, again[i].article.value);
    }
    CoveredSavesNothing(stored, again, |items|);
  }

  // ---------------------------------------------------------------- which items of a batch are stored, and as what

  /** The value of an optional column as it is stored. */
  predicate StoredAs(raw: Option<string>, stored: Option<string>) {
    if raw.Some? && TrimSpace(raw.value) != "" then stored == Some(TrimSpace(raw.value)) else stored.None?
  }

  /** What an item needs to be saved: a source, and a type, a title and a hash that are not blank. */
  predicate Acceptable(item: CollectedItem) {
    && item.sourceId > 0 && TrimSpace(item.sourceType) != "" && TrimSpace(item.title) != ""
    && TrimSpace(item.contentHash) != ""
  }

  /** The stored article is the item with its texts trimmed, stamped with the clock reading. */
  predicate Represents(a: Article, item: CollectedItem, now: Time) {
    && a.sourceId == item.sourceId && a.sourceType == TrimSpace(item.sourceType) && a.title == TrimSpace(item.title)
    && StoredAs(item.externalId, a.externalId) && StoredAs(item.url, a.url)
    && StoredAs(item.originalUrl, a.originalUrl)
    && a.author == TrimSpace(item.author) && a.summary == TrimSpace(item.summary)
    && a.content == TrimSpace(item.content) && a.contentHash == TrimSpace(item.contentHash)
    && a.publishedAt == item.publishedAt && a.createdAt == now && a.updatedAt == now
  }

  /** An article has the source of the item, and its trimmed hash or its trimmed external id that is not blank. */
  predicate KeyTaken(a: Article, item: CollectedItem) {
    && a.sourceId == item.sourceId
    && (a.contentHash == TrimSpace(item.contentHash)
        || (item.externalId.Some? && TrimSpace(item.externalId.value) != ""
            && a.externalId == Some(TrimSpace(item.externalId.value))))
  }

  /** Two items of one source have the same trimmed hash or the same trimmed external id that is not blank. */
  predicate KeysMeet(x: CollectedItem, y: CollectedItem) {
    && x.sourceId == y.sourceId
    && (TrimSpace(x.contentHash) == TrimSpace(y.contentHash)
        || (x.externalId.Some? && y.externalId.Some? && TrimSpace(x.externalId.value) != ""
            && TrimSpace(x.externalId.value) == TrimSpace(y.externalId.value)))
  }

  lemma ArticleRepresents(item: CollectedItem, now: Time)
    ensures ToArticle(item, now).Some? <==> Acceptable(item)
    ensures ToArticle(item, now).Some? ==> Represents(ToArticle(item, now).value, item, now)
    ensures ToArticle(item, now).Some? ==> forall a :: Conflicts(a, ToArticle(item, now).value) <==> KeyTaken(a, item)
  {
  }

  lemma ConflictIsMeeting(x: CollectedItem, y: CollectedItem, a: Article, at: Time)
    requires Represents(a, x, at)
    ensures KeyTaken(a, y) <==> KeysMeet(x, y)
  {
  }

  /**
   Which items of a batch are new, told from the items and the old table alone: those of which no stored article
   and no earlier new item of the same source has the trimmed hash or the trimmed external id.
   */
  predicate New(articles: Table, items: seq<CollectedItem>, k: nat)
    requires k < |items|
  {
    && (forall i :: 0 <= i < |articles| ==> !KeyTaken(articles[i], items[k]))
    && (forall j :: 0 <= j < k && New(articles, items, j) ==> !KeysMeet(items[j], items[k]))
  }

  /** The chosen positions below k, in order. */
  function Positions(chosen: nat -> bool, k: nat): (r: seq<nat>)
    ensures forall m :: 0 <= m < |r| ==> r[m] < k
  {
    if k == 0 then [] else Positions(chosen, k - 1) + if chosen(k - 1) then [k - 1] else []
  }

  lemma {:induction false} PositionsAreChosen(chosen: nat -> bool, k: nat, j: nat)
    ensures j in Positions(chosen, k) <==> j < k && chosen(j)
  {
    if k > 0 {
      PositionsAreChosen(chosen, k - 1, j);
    }
  }

  /** The new items among the first k, in order. */
  function NewItems(articles: Table, items: seq<CollectedItem>, k: nat): (r: seq<nat>)
    requires k <= |items|
    ensures forall m :: 0 <= m < |r| ==> r[m] < k
  {
    Positions((j: nat) => j < |items| && New(articles, items, j), k)
  }

  lemma NewItemsAreNew(articles: Table, items: seq<CollectedItem>, k: nat, j: nat)
    requires k <= |items|
    ensures j in NewItems(articles, items, k) <==> j < k && New(articles, items, j)
  {
    PositionsAreChosen((i: nat) => i < |items| && New(articles, items, i), k, j);
  }

  /** The old table, and then one article for each new item, in order and as the item says. */
  ghost predicate Extends(articles: Table, items: seq<CollectedItem>, stamps: nat -> Time, k: nat, articles': Table)
    requires k <= |items|
  {
    var added := NewItems(articles, items, k);
    && |articles'| == |articles| + |added| && articles <= articles'
    && forall m :: 0 <= m < |added| ==> StandsFor(articles'[|articles| + m], items, stamps, added[m])
  }

  predicate StandsFor(a: Article, items: seq<CollectedItem>, stamps: nat -> Time, j: nat) {
    j < |items| && Represents(a, items[j], stamps(j))
  }

  lemma KnownIffNotNew(articles: Table, items: seq<CollectedItem>, stamps: nat -> Time, k: nat, articles': Table,
                       a: Article)
    requires k < |items| && Extends(articles, items, stamps, k, articles')
    requires forall x :: Conflicts(x, a) <==> KeyTaken(x, items[k])
    ensures Known(articles', a) <==> !New(articles, items, k)
  {
    var added := NewItems(articles, items, k);
    if Known(articles', a) {
      var i :| 0 <= i < |articles'| && Conflicts(articles'[i], a);
      TakenIsNotNew(articles, items, stamps, k, articles', i);
    } else {
      forall j | 0 <= j < k && New(articles, items, j) ensures !KeysMeet(items[j], items[k]) {
        NewItemsAreNew(articles, items, k, j);
        var m :| 0 <= m < |added| && added[m] == j;
        assert StandsFor(articles'[|articles| + m], items, stamps, added[m]);
        ConflictIsMeeting(items[j], items[k], articles'[|articles| + m], stamps(j));
      }
      forall i | 0 <= i < |articles| ensures !KeyTaken(articles[i], items[k]) {
        assert articles'[i] == articles[i];
      }
    }
  }

  lemma TakenIsNotNew(articles: Table, items: seq<CollectedItem>, stamps: nat -> Time, k: nat, articles': Table, i: nat)
    requires k < |items| && Extends(articles, items, stamps, k, articles')
    requires i < |articles'| && KeyTaken(articles'[i], items[k])
    ensures !New(articles, items, k)
  {
    if i < |articles| {
      assert articles'[i] == articles[i];
    } else {
      var added := NewItems(articles, items, k);
      var j := added[i - |articles|];
      assert StandsFor(articles'[i], items, stamps, j);
      ConflictIsMeeting(items[j], items[k], articles'[i], stamps(j));
      NewItemsAreNew(articles, items, k, j);
    }
  }

  function NewUsers(articles: Table, items: seq<CollectedItem>, k: nat): set<int>
    requires k <= |items|
  {
    set j | 0 <= j < k && New(articles, items, j) && items[j].userId > 0 :: items[j].userId
  }

  /** What saving the first k items of a batch does, in terms of the items. */
  ghost predicate SavesNew(articles: Table, items: seq<CollectedItem>, stamps: nat -> Time, k: nat, s: Saving)
    requires k <= |items|
  {
    && Extends(articles, items, stamps, k, s.articles)
    && s.inserted == |NewItems(articles, items, k)| && s.duplicated == k - |NewItems(articles, items, k)|
    && s.users == NewUsers(articles, items, k)
  }

  lemma SaveOneSavesNew(articles: Table, items: seq<CollectedItem>, stamps: nat -> Time, k: nat, s: Saving, a: Article)
    requires k < |items| && SavesNew(articles, items, stamps, k, s)
    requires Represents(a, items[k], stamps(k)) && forall x :: Conflicts(x, a) <==> KeyTaken(x, items[k])
    ensures SavesNew(articles, items, stamps, k + 1, SaveOne(s, items[k].userId, a))
  {
    KnownIffNotNew(articles, items, stamps, k, s.articles, a);
    NewUsersStep(articles, items, k);
    if New(articles, items, k) {
      NewOneExtends(articles, items, stamps, k, s.articles, a);
    }
  }

  lemma NewUsersStep(articles: Table, items: seq<CollectedItem>, k: nat)
    requires k < |items|
    ensures NewUsers(articles, items, k + 1) == NewUsers(articles, items, k)
        + if New(articles, items, k) && items[k].userId > 0 then {items[k].userId} else {}
  {
  }

  lemma NewOneExtends(articles: Table, items: seq<CollectedItem>, stamps: nat -> Time, k: nat, articles': Table,
                      a: Article)
    requires k < |items| && Extends(articles, items, stamps, k, articles') && New(articles, items, k)
    requires Represents(a, items[k], stamps(k))
    ensures Extends(articles, items, stamps, k + 1, articles' + [a])
  {
    var before, added := NewItems(articles, items, k), NewItems(articles, items, k + 1);
    assert added == before + [k];
    forall m | 0 <= m < |added|
      ensures StandsFor((articles' + [a])[|articles| + m], items, stamps, added[m])
    {
      assert m < |before| ==> StandsFor(articles'[|articles| + m], items, stamps, before[m]);
    }
  }

  /** A batch is saved exactly if every item is acceptable, and then precisely its new items are stored. */
  lemma {:induction false} SavedStoresNew(articles: Table, items: seq<CollectedItem>, stamps: nat -> Time, k: nat)
    requires k <= |items|
    ensures SavedTo(articles, Rows(items, stamps), k).Some? <==> forall i :: 0 <= i < k ==> Acceptable(items[i])
    ensures SavedTo(articles, Rows(items, stamps), k).Some? ==>
              SavesNew(articles, items, stamps, k, SavedTo(articles, Rows(items, stamps), k).value)
  {
    if k > 0 {
      SavedStoresNew(articles, items, stamps, k - 1);
      ArticleRepresents(items[k - 1], stamps(k - 1));
      var row := Rows(items, stamps)[k - 1];
      assert row == RowOf(items[k - 1], stamps(k - 1));
      if SavedTo(articles, Rows(items, stamps), k).Some? {
        SaveOneSavesNew(articles, items, stamps, k - 1, SavedTo(articles, Rows(items, stamps), k - 1).value,
                        row.article.value);
      }
    }
  }

  /** Whether an item is new never depends on the articles of other sources. */
  lemma {:induction false} OtherSourcesDoNotMatter(articles: Table, others: Table, items: seq<CollectedItem>, k: nat)
    requires k < |items|
    requires forall a: Article :: a.sourceId == items[k].sourceId ==> (a in articles <==> a in others)
    ensures New(articles, items, k) <==> New(others, items, k)
    decreases k
  {
    forall j | 0 <= j < k && KeysMeet(items[j], items[k])
      ensures New(articles, items, j) <==> New(others, items, j)
    {
      OtherSourcesDoNotMatter(articles, others, items, j);
    }
    assert forall i :: 0 <= i < |articles| && KeyTaken(articles[i], items[k]) ==> articles[i] in others;
    assert forall i :: 0 <= i < |others| && KeyTaken(others[i], items[k]) ==> others[i] in articles;
  }

  /**
   An earlier item only stands in the way if it was new itself: one that was dropped for its hash does not
   reserve its external id for the rest of the batch.
   */
  lemma DroppedItemReservesNothing(item: CollectedItem, stored: Article, now: Time)
    requires item.externalId == Some("g") && item.contentHash == "h"
    requires stored.sourceId == item.sourceId && stored.contentHash == "h" && stored.externalId.None?
    ensures var items := [item, item.(contentHash := "k")];
            KeysMeet(items[0], items[1]) && !New([stored], items, 0) && New([stored], items, 1)
  {
    assert TrimSpace("g") == "g" && TrimSpace("h") == "h" && TrimSpace("k") == "k" by {
      OneLetterTrimmed("g");
      OneLetterTrimmed("h");
      OneLetterTrimmed("k");
    }
    var items := [item, item.(contentHash := "k")];
    assert KeyTaken([stored][0], items[0]);
  }

  lemma OneLetterTrimmed(s: string)
    requires |s| == 1 && !IsSpace(s[0])
    ensures TrimSpace(s) == s
  {
    assert SkipSpace(s, 0) == 0 && DropSpace(s, 0, 1) == 1;
  }
}
