// The home page's two counters: how many articles each solution holds.

module IndexPage {
  import opened Seqs
  import opened Entities
  import ArticleStore

  /** `articles.filter(a => a.category === c).length`. */
  function CategoryCount(articles: seq<Article>, c: Category): (n: nat)
    ensures n == |ArticleStore.ByCategory(articles, c)|
    ensures n <= |articles|
  {
    var inCategory := (a: Article) => a.category == c;
    FilterMultiset(articles, inCategory);
    assert multiset(Filter(articles, inCategory)) == multiset(ArticleStore.ByCategory(articles, c));
    assert |multiset(Filter(articles, inCategory))| == |Filter(articles, inCategory)|;
    |Filter(articles, inCategory)|
  }

  /** `pabxCount`. */
  function PabxCount(articles: seq<Article>): (n: nat)
    ensures n == |ArticleStore.ByCategory(articles, Pabx)|
  {
    CategoryCount(articles, Pabx)
  }

  /** `omniCount`. */
  function OmniCount(articles: seq<Article>): (n: nat)
    ensures n == |ArticleStore.ByCategory(articles, Omni)|
  {
    CategoryCount(articles, Omni)
  }

  /** Every article is counted exactly once: the category has only two values. */
  lemma CountsPartition(articles: seq<Article>)
    ensures PabxCount(articles) + OmniCount(articles) == |articles|
  {
    FilterPartition(articles, (a: Article) => a.category == Pabx, (a: Article) => a.category == Omni);
  }
}
