// The two steps the folder page and the solution page share once they have
// narrowed the articles down: the case-insensitive search over title and
// content, and the sort that puts the most recently updated article first.
// `Array.prototype.sort` is stable, so the sort is modelled as a stable
// insertion sort on a fresh sequence.

module ArticleViews {
  import opened Seqs
  import opened Text
  import opened Entities

  /** `a.title.toLowerCase().includes(q) || a.content.toLowerCase().includes(q)`, q lower-cased. */
  predicate MatchesQuery(a: Article, query: string) {
    Includes(Lower(a.title), Lower(query)) || Includes(Lower(a.content), Lower(query))
  }

  /** `if (searchQuery) { filtered = filtered.filter(...) }`: an empty query filters nothing. */
  function Search(s: seq<Article>, query: string): (r: seq<Article>)
    ensures forall a :: a in r <==> a in s && (query == "" || MatchesQuery(a, query))
    ensures forall a ::
      multiset(r)[a] == if query == "" || MatchesQuery(a, query) then multiset(s)[a] else 0
  {
    if query == "" then s
    else
      var matches := (a: Article) => MatchesQuery(a, query);
      FilterMultiset(s, matches);
      Filter(s, matches)
  }

  /**
   * Skipping the filter for an empty query changes nothing: every article
   * matches the empty query, since the empty string is included in any string.
   */
  lemma EmptyQueryMatchesAll(s: seq<Article>)
    ensures Filter(s, (a: Article) => MatchesQuery(a, "")) == s
  {
    forall a | a in s ensures MatchesQuery(a, "") {
      IncludesEmpty(Lower(a.title));
    }
    FilterAll(s, (a: Article) => MatchesQuery(a, ""));
  }

  /** Most recently updated first. */
  predicate NewestFirst(s: seq<Article>) {
    forall i, j :: 0 <= i < j < |s| ==> s[i].updatedAt >= s[j].updatedAt
  }

  /** Places `a` before the first article updated no later than it. */
  function Insert(a: Article, s: seq<Article>): (r: seq<Article>)
    requires NewestFirst(s)
    ensures NewestFirst(r)
    ensures multiset(r) == multiset(s) + multiset{a}
    ensures |r| == |s| + 1
  {
    if s == [] then [a]
    else if a.updatedAt >= s[0].updatedAt then [a] + s
    else
      var rest := Insert(a, s[1..]);
      InsertBehindHead(a, s, rest);
      [s[0]] + rest
  }

  /** Keeping the head of `s` in front of `a` inserted into the tail keeps the order and the contents. */
  lemma InsertBehindHead(a: Article, s: seq<Article>, rest: seq<Article>)
    requires s != [] && NewestFirst(s) && a.updatedAt < s[0].updatedAt
    requires NewestFirst(rest) && multiset(rest) == multiset(s[1..]) + multiset{a}
    ensures NewestFirst([s[0]] + rest)
    ensures multiset([s[0]] + rest) == multiset(s) + multiset{a}
  {
    assert s == [s[0]] + s[1..];
    forall x | x in rest ensures x.updatedAt <= s[0].updatedAt {
      assert x in multiset(rest);
      if x != a {
        assert x in multiset(s[1..]);
      }
    }
    PrependNewest(s[0], rest);
  }

  lemma PrependNewest(x: Article, s: seq<Article>)
    requires NewestFirst(s)
    requires forall y :: y in s ==> y.updatedAt <= x.updatedAt
    ensures NewestFirst([x] + s)
  {
    forall i, j | 0 <= i < j < |s| + 1 ensures ([x] + s)[i].updatedAt >= ([x] + s)[j].updatedAt {
      assert ([x] + s)[j] == s[j - 1];
      if i > 0 {
        assert ([x] + s)[i] == s[i - 1];
      }
    }
  }

  /**
   * `filtered.sort((a, b) => b.updatedAt - a.updatedAt)`: newest first, and a
   * permutation of its input.
   */
  function SortByRecency(s: seq<Article>): (r: seq<Article>)
    ensures NewestFirst(r)
    ensures multiset(r) == multiset(s)
    ensures |r| == |s|
  {
    if s == [] then []
    else
      assert s == [s[0]] + s[1..];
      Insert(s[0], SortByRecency(s[1..]))
  }

  /**
   * The listing both pages build: the articles `keep` selects, narrowed by
   * the search, newest first.
   */
  function PageListing(s: seq<Article>, keep: Article -> bool, query: string): (r: seq<Article>)
    ensures forall a :: a in r ==> keep(a)
    ensures forall a :: multiset(r)[a] ==
                        if keep(a) && (query == "" || MatchesQuery(a, query)) then multiset(s)[a] else 0
    ensures NewestFirst(r)
  {
    FilterMultiset(s, keep);
    var r := SortByRecency(Search(Filter(s, keep), query));
    assert forall a :: a in r ==> a in multiset(r);
    r
  }

  /** The articles whose `updatedAt` is `t`. */
  function StampIs(t: Timestamp): Article -> bool {
    (a: Article) => a.updatedAt == t
  }

  function WithStamp(s: seq<Article>, t: Timestamp): seq<Article> {
    Filter(s, StampIs(t))
  }

  lemma {:induction false} InsertStable(a: Article, s: seq<Article>, t: Timestamp)
    requires NewestFirst(s)
    ensures WithStamp(Insert(a, s), t) ==
      if a.updatedAt == t then [a] + WithStamp(s, t) else WithStamp(s, t)
  {
    if s == [] {
    } else if a.updatedAt >= s[0].updatedAt {
      assert ([a] + s)[1..] == s;
    } else {
      var rest := Insert(a, s[1..]);
      assert ([s[0]] + rest)[1..] == rest;
      InsertStable(a, s[1..], t);
    }
  }

  /**
   * The sort is stable: among articles with the same `updatedAt`, the result
   * keeps their storage order.
   */
  lemma {:induction false} SortStable(s: seq<Article>, t: Timestamp)
    ensures WithStamp(SortByRecency(s), t) == WithStamp(s, t)
  {
    if s != [] {
      SortStable(s[1..], t);
      InsertStable(s[0], SortByRecency(s[1..]), t);
    }
  }
}
