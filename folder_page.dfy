// The folder page's list of articles (`folderArticles`): the articles whose
// `folderId` is the route's, narrowed by the search box, newest first. It is
// computed from the store's sequence as a value, so the store keeps its order.

module FolderPage {
  import opened Seqs
  import opened Entities
  import opened ArticleViews

  /** The route has a folder id (`if (!folderId) return []` rejects a missing or empty one). */
  predicate HasRoute(folderId: Option<string>) {
    folderId.Some? && folderId.value != ""
  }

  /** An article the page lists: in the route's folder and matching the search, if any. */
  predicate Listed(a: Article, folderId: Option<string>, query: string) {
    HasRoute(folderId) && a.folderId == folderId && (query == "" || MatchesQuery(a, query))
  }

  /** The `folderArticles` memo: filter by folder, then search, then newest first. */
  function FolderArticles(articles: seq<Article>, folderId: Option<string>, query: string): (r: seq<Article>)
    ensures !HasRoute(folderId) ==> r == []
    ensures forall a :: a in r ==> a.folderId == folderId
    ensures forall a :: multiset(r)[a] == if Listed(a, folderId, query) then multiset(articles)[a] else 0
    ensures NewestFirst(r)
  {
    if !HasRoute(folderId) then []
    else
      PageListing(articles, (a: Article) => a.folderId == folderId, query)
  }

  /** The storage order the page starts from: every article it may list, as the store holds them. */
  function ListedInStorageOrder(articles: seq<Article>, folderId: Option<string>, query: string): seq<Article> {
    Filter(articles, (a: Article) => Listed(a, folderId, query))
  }

  /**
   * Articles updated at the same instant appear in the order the store holds
   * them: the sort is stable.
   */
  lemma FolderArticlesStable(articles: seq<Article>, folderId: Option<string>, query: string, t: Timestamp)
    ensures WithStamp(FolderArticles(articles, folderId, query), t) ==
      WithStamp(ListedInStorageOrder(articles, folderId, query), t)
  {
    var listed := (a: Article) => Listed(a, folderId, query);
    if !HasRoute(folderId) {
      assert forall a :: a in articles ==> !listed(a);
      FilterAll(articles, (a: Article) => !listed(a));
      FilterPartition(articles, listed, (a: Article) => !listed(a));
      assert ListedInStorageOrder(articles, folderId, query) == [];
    } else {
      var inFolder := (a: Article) => a.folderId == folderId;
      var searched := Search(Filter(articles, inFolder), query);
      if query == "" {
        FilterFilter(articles, inFolder, (a: Article) => true, listed);
        FilterAll(Filter(articles, inFolder), (a: Article) => true);
      } else {
        FilterFilter(articles, inFolder, (a: Article) => MatchesQuery(a, query), listed);
      }
      assert searched == ListedInStorageOrder(articles, folderId, query);
      SortStable(searched, t);
    }
  }
}
