// The solution page: the route names a category; the page lists that
// category's articles, narrowed by the search box, newest first, and shows a
// not-found message for any route that is not `pabx` or `omni`.

module SolutionPage {
  import opened Seqs
  import opened Entities
  import opened ArticleViews

  /** What the page renders. */
  datatype Outcome = NotFound | Listing(articles: seq<Article>)

  /** The category a route names, if it names one (`category !== 'pabx' && category !== 'omni'`). */
  function RouteCategory(route: Option<string>): (c: Option<Category>)
    ensures c.Some? <==> route == Some("pabx") || route == Some("omni")
    ensures c.Some? ==> route == Some(CategoryName(c.value))
  {
    if route == Some("pabx") then Some(Pabx)
    else if route == Some("omni") then Some(Omni)
    else None
  }

  /** `a.category === category`, where the route's category is a plain string. */
  predicate InRouteCategory(a: Article, route: Option<string>) {
    route == Some(CategoryName(a.category))
  }

  /** An article the page lists: in the route's category and matching the search, if any. */
  predicate Listed(a: Article, route: Option<string>, query: string) {
    InRouteCategory(a, route) && (query == "" || MatchesQuery(a, query))
  }

  /** The `categoryArticles` memo: filter by category, then search, then newest first. */
  function CategoryArticles(articles: seq<Article>, route: Option<string>, query: string): (r: seq<Article>)
    ensures forall a :: a in r ==> InRouteCategory(a, route)
    ensures forall a :: multiset(r)[a] == if Listed(a, route, query) then multiset(articles)[a] else 0
    ensures NewestFirst(r)
  {
    PageListing(articles, (a: Article) => InRouteCategory(a, route), query)
  }

  /** The page: the listing for a known category, the not-found message otherwise. */
  function SolutionView(articles: seq<Article>, route: Option<string>, query: string): (o: Outcome)
    ensures o.NotFound? <==> route != Some("pabx") && route != Some("omni")
    ensures o.Listing? ==> forall a :: a in o.articles ==> a.category == RouteCategory(route).value
  {
    var listing := CategoryArticles(articles, route, query);
    if RouteCategory(route).None? then NotFound
    else
      assert forall a :: InRouteCategory(a, route) ==> a.category == RouteCategory(route).value by {
        forall a | InRouteCategory(a, route) ensures a.category == RouteCategory(route).value {
          CategoryNameInjective(a.category, RouteCategory(route).value);
        }
      }
      Listing(listing)
  }

  lemma CategoryNameInjective(c: Category, d: Category)
    requires CategoryName(c) == CategoryName(d)
    ensures c == d
  {
  }

  /** Within one `updatedAt`, the listing keeps the store's order. */
  lemma CategoryArticlesStable(articles: seq<Article>, route: Option<string>, query: string, t: Timestamp)
    ensures WithStamp(CategoryArticles(articles, route, query), t) ==
      WithStamp(Filter(articles, (a: Article) => Listed(a, route, query)), t)
  {
    var inCategory := (a: Article) => InRouteCategory(a, route);
    var listed := (a: Article) => Listed(a, route, query);
    var searched := Search(Filter(articles, inCategory), query);
    if query == "" {
      FilterFilter(articles, inCategory, (a: Article) => true, listed);
      FilterAll(Filter(articles, inCategory), (a: Article) => true);
    } else {
      FilterFilter(articles, inCategory, (a: Article) => MatchesQuery(a, query), listed);
    }
    assert searched == Filter(articles, listed);
    SortStable(searched, t);
  }
}
