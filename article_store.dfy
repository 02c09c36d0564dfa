// The client-side article store: an in-memory sequence of articles that the
// mutators replace wholesale (`set(state => ({ articles: ... }))`) and that the
// getters read with `filter` and `find`. The random id and the clock are inputs.

module ArticleStore {
  import opened Seqs
  import opened Entities

  /**
   * The record `addArticle` builds from a draft, a fresh id and two readings
   * of the clock: `createdAt` and `updatedAt` each call `new Date()`.
   */
  function NewArticle(d: ArticleDraft, id: string, created: Timestamp, updated: Timestamp): (a: Article)
    ensures a.id == id && a.createdAt == created && a.updatedAt == updated
    ensures a.folderId == d.folderId && a.title == d.title && a.content == d.content &&
      a.category == d.category && a.images == d.images && a.videos == d.videos
  {
    Article(id, d.folderId, d.title, d.content, d.category, d.images, d.videos, created, updated)
  }

  /** `{ ...article, ...patch, updatedAt: now }`: every present field overwrites, nothing is guarded. */
  function Merge(a: Article, p: ArticlePatch, now: Timestamp): (r: Article)
    ensures r.updatedAt == now
    ensures r.id == (if p.id.Some? then p.id.value else a.id)
    ensures r.folderId == (if p.folderId.Some? then p.folderId else a.folderId)
    ensures r.title == (if p.title.Some? then p.title.value else a.title)
    ensures r.content == (if p.content.Some? then p.content.value else a.content)
    ensures r.category == (if p.category.Some? then p.category.value else a.category)
    ensures r.images == (if p.images.Some? then p.images.value else a.images)
    ensures r.videos == (if p.videos.Some? then p.videos.value else a.videos)
    ensures r.createdAt == (if p.createdAt.Some? then p.createdAt.value else a.createdAt)
    ensures p == NoArticleChange ==> r == a.(updatedAt := now)
  {
    Article(
      Patched(p.id, a.id),
      if p.folderId.Some? then p.folderId else a.folderId,
      Patched(p.title, a.title),
      Patched(p.content, a.content),
      Patched(p.category, a.category),
      Patched(p.images, a.images),
      Patched(p.videos, a.videos),
      Patched(p.createdAt, a.createdAt),
      now)
  }

  /** The new `articles` after `updateArticle(id, p)`: every record with that id is merged. */
  function Updated(s: seq<Article>, id: string, p: ArticlePatch, now: Timestamp): (r: seq<Article>)
    ensures |r| == |s|
    ensures forall i :: 0 <= i < |s| && s[i].id == id ==> r[i] == Merge(s[i], p, now)
    ensures forall i :: 0 <= i < |s| && s[i].id != id ==> r[i] == s[i]
    ensures (forall a :: a in s ==> a.id != id) ==> r == s
  {
    Map(s, (a: Article) => if a.id == id then Merge(a, p, now) else a)
  }

  /** The new `articles` after `deleteArticle(id)`. */
  function Removed(s: seq<Article>, id: string): (r: seq<Article>)
    ensures forall a :: multiset(r)[a] == if a.id == id then 0 else multiset(s)[a]
    ensures Subsequence(r, s)
    ensures (forall a :: a in s ==> a.id != id) ==> r == s
  {
    var keep := (a: Article) => a.id != id;
    FilterMultiset(s, keep);
    FilterSubsequence(s, keep);
    if forall a :: a in s ==> a.id != id then FilterAll(s, keep); Filter(s, keep)
    else Filter(s, keep)
  }

  /** `getArticlesByCategory(c)`: the records of that category with their multiplicities. */
  function ByCategory(s: seq<Article>, c: Category): (r: seq<Article>)
    ensures forall a :: a in r <==> a in s && a.category == c
    ensures forall a :: multiset(r)[a] == if a.category == c then multiset(s)[a] else 0
    ensures Subsequence(r, s)
  {
    var inCategory := (a: Article) => a.category == c;
    FilterMultiset(s, inCategory);
    FilterSubsequence(s, inCategory);
    Filter(s, inCategory)
  }

  /** `getArticleById(id)`: the first record with that id, if any. */
  function FindById(s: seq<Article>, id: string): (r: Option<Article>)
    ensures r.None? <==> forall a :: a in s ==> a.id != id
    ensures r.Some? ==> exists i :: (0 <= i < |s| && s[i] == r.value && r.value.id == id &&
      forall j :: 0 <= j < i ==> s[j].id != id)
  {
    Find(s, (a: Article) => a.id == id)
  }

  /** The store. */
  class Store {
    var articles: seq<Article>

    constructor ()
      ensures articles == []
    {
      articles := [];
    }

    /**
     * `addArticle(d)`. `uuid` is what `crypto.randomUUID()` returns, or None
     * where the page has no such function (a page not served over HTTPS): the
     * call then throws before `set`, and the store is unchanged.
     * `created` and `updated` are the two `new Date()` readings.
     */
    method AddArticle(d: ArticleDraft, uuid: Option<string>, created: Timestamp, updated: Timestamp)
      returns (added: bool)
      modifies this
      ensures added <==> uuid.Some?
      ensures uuid.Some? ==> articles == old(articles) + [NewArticle(d, uuid.value, created, updated)]
      ensures uuid.None? ==> articles == old(articles)
    {
      match uuid {
        case None =>
          added := false;
        case Some(id) =>
          articles := articles + [NewArticle(d, id, created, updated)];
          added := true;
      }
    }

    method UpdateArticle(id: string, p: ArticlePatch, now: Timestamp)
      modifies this
      ensures articles == Updated(old(articles), id, p, now)
    {
      articles := Updated(articles, id, p, now);
    }

    method DeleteArticle(id: string)
      modifies this
      ensures articles == Removed(old(articles), id)
    {
      articles := Removed(articles, id);
    }

    function GetArticlesByCategory(c: Category): (r: seq<Article>)
      reads this
      ensures forall a :: a in r <==> a in articles && a.category == c
    {
      ByCategory(articles, c)
    }

    function GetArticleById(id: string): (r: Option<Article>)
      reads this
      ensures r.Some? ==> r.value in articles && r.value.id == id
      ensures r.None? <==> forall a :: a in articles ==> a.id != id
    {
      FindById(articles, id)
    }
  }

  /**
   * After `addArticle(d)` with an id no stored record has, looking that id up
   * yields the new record, which carries every field of `d`.
   */
  lemma AddThenFind(s: seq<Article>, d: ArticleDraft, id: string, created: Timestamp, updated: Timestamp)
    requires forall a :: a in s ==> a.id != id
    ensures FindById(s + [NewArticle(d, id, created, updated)], id).Some?
    ensures var a := FindById(s + [NewArticle(d, id, created, updated)], id).value;
      a.id == id && a.folderId == d.folderId && a.title == d.title && a.content == d.content &&
      a.category == d.category && a.images == d.images && a.videos == d.videos &&
      a.createdAt == created && a.updatedAt == updated
  {
    var t := s + [NewArticle(d, id, created, updated)];
    forall j | 0 <= j < |s| ensures t[j].id != id {
      assert t[j] == s[j] && s[j] in s;
    }
    assert t[|s|] in t;
    var r := FindById(t, id);
    var i :| 0 <= i < |t| && t[i] == r.value && r.value.id == id;
    assert i == |s|;
  }

  /** The lookup yields the record at the first position holding the id. */
  lemma FindByIdIsFirst(s: seq<Article>, id: string, i: nat)
    requires i < |s| && s[i].id == id
    requires forall j :: 0 <= j < i ==> s[j].id != id
    ensures FindById(s, id) == Some(s[i])
  {
    assert s[i] in s;
    var r := FindById(s, id);
    var k :| 0 <= k < |s| && s[k] == r.value && r.value.id == id &&
      forall j :: 0 <= j < k ==> s[j].id != id;
    assert k == i;
  }

  /** Updating an id that is absent leaves it absent. */
  lemma UpdateKeepsAbsent(s: seq<Article>, id: string, p: ArticlePatch, now: Timestamp)
    requires forall a :: a in s ==> a.id != id
    ensures FindById(Updated(s, id, p, now), id).None?
  {
    assert Updated(s, id, p, now) == s;
  }

  /**
   * Looking an id up after `updateArticle` on that same id (with a patch that
   * leaves `id` alone or sets it to the same value) yields the merge of what was
   * found before; an id that was absent stays absent.
   */
  lemma UpdateThenFind(s: seq<Article>, id: string, p: ArticlePatch, now: Timestamp)
    requires p.id.None? || p.id == Some(id)
    ensures FindById(Updated(s, id, p, now), id) ==
      match FindById(s, id)
      case Some(a) => Some(Merge(a, p, now))
      case None => None
  {
    var before := FindById(s, id);
    if before.Some? {
      var i :| 0 <= i < |s| && s[i] == before.value && before.value.id == id &&
        forall j :: 0 <= j < i ==> s[j].id != id;
      UpdateFindsMerged(s, id, p, now, i);
    } else {
      UpdateKeepsAbsent(s, id, p, now);
    }
  }

  /** The first record with the id, merged, is the first record with the id after the update. */
  lemma UpdateFindsMerged(s: seq<Article>, id: string, p: ArticlePatch, now: Timestamp, i: nat)
    requires p.id.None? || p.id == Some(id)
    requires i < |s| && s[i].id == id
    requires forall j :: 0 <= j < i ==> s[j].id != id
    ensures FindById(Updated(s, id, p, now), id) == Some(Merge(s[i], p, now))
  {
    var t := Updated(s, id, p, now);
    assert t[i] == Merge(s[i], p, now);
    assert t[i].id == id;
    forall j | 0 <= j < i ensures t[j].id != id {
      assert t[j] == s[j];
    }
    FindByIdIsFirst(t, id, i);
  }

  /** A patch holding only a title changes the title and `updatedAt` and nothing else. */
  lemma MergeTitleOnly(a: Article, title: string, now: Timestamp)
    ensures Merge(a, NoArticleChange.(title := Some(title)), now) == a.(title := title, updatedAt := now)
  {
  }

  /** The merge does not protect `id` or `category`: a patch carrying them overwrites them. */
  lemma MergeIsUnguarded(a: Article, p: ArticlePatch, now: Timestamp)
    requires p.id.Some? && p.category.Some?
    ensures Merge(a, p, now).id == p.id.value && Merge(a, p, now).category == p.category.value
    ensures Merge(a, p, now).updatedAt == now
  {
  }

  /** Applying the same patch twice is applying it once, at the later time. */
  lemma MergeIdempotent(a: Article, p: ArticlePatch, t1: Timestamp, t2: Timestamp)
    ensures Merge(Merge(a, p, t1), p, t2) == Merge(a, p, t2)
  {
  }
}
