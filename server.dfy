// The REST server's logic: the SQL text and parameter list of the two list
// endpoints, the article insert with its media inside one transaction, the
// article update, and the name an uploaded file is stored under. The database
// is a value: what a statement does to it is written out, and whether a
// statement fails is an input (`failAt`, `fails`), since that is decided by
// the database (constraints, connectivity) and not by this code.

module Server {
  import opened Seqs
  import opened Text
  import opened Sql
  import opened Entities

  /** A query-string value is truthy when it is present and not empty. */
  predicate Truthy(v: Option<string>) {
    v.Some? && v.value != ""
  }

  // ---- GET /api/folders

  const FoldersSelect := "SELECT * FROM folders"
  const FoldersWhere := " WHERE category = $1"
  const FoldersOrder := " ORDER BY name ASC"
  const FoldersCategoryColumn := "category"

  /** The folder list's one possible filter. */
  function CategoryFilter(category: Option<string>): (fs: seq<QueryFilter>)
    ensures |fs| == if Truthy(category) then 1 else 0
  {
    if Truthy(category) then [QueryFilter(FoldersCategoryColumn, category.value)] else []
  }

  lemma FoldersWhereIsCondition(c: string)
    ensures WhereClause(Conditions([QueryFilter(FoldersCategoryColumn, c)], 1)) == FoldersWhere
  {
    assert Decimal(1) == "1";
  }

  lemma FoldersQueryParts()
    ensures QueryParts(FoldersSelect, FoldersOrder) && DollarFree(FoldersCategoryColumn)
  {
  }

  /** The folder list query: filtered by category only when one is given, always ordered by name. */
  method FoldersQuery(category: Option<string>) returns (sql: string, params: seq<string>)
    ensures params == if Truthy(category) then [category.value] else []
    ensures sql == FoldersSelect + (if Truthy(category) then FoldersWhere else "") + FoldersOrder
    ensures sql == FilteredQuery(FoldersSelect, CategoryFilter(category), FoldersOrder)
    ensures Placeholders(sql) == Numbering(1, |params|)
  {
    sql := FoldersSelect;
    params := [];
    if Truthy(category) {
      sql := sql + FoldersWhere;
      params := params + [category.value];
      FoldersWhereIsCondition(category.value);
    }
    sql := sql + FoldersOrder;
    FoldersQueryParts();
    FilteredQueryPlaceholders(FoldersSelect, CategoryFilter(category), FoldersOrder);
  }

  // ---- GET /api/articles

  // The lines of the article list query, each cut into short literals.
  const SelectLine := "\n      SELECT a.*, \n"
  const ImagesLine := "             " + "COALESCE(json_agg(" + "DISTINCT ai.url) " + "FILTER (WHERE " + "ai.url IS NOT NULL), " + "'[]') as images,\n"
  const VideosLine := "             " + "COALESCE(json_agg(" + "DISTINCT av.url) " + "FILTER (WHERE " + "av.url IS NOT NULL), " + "'[]') as videos\n"
  const FromLine := "      FROM articles a\n"
  const ImagesJoinLine := "      LEFT JOIN " + "article_images ai " + "ON a.id = ai.article_id\n"
  const VideosJoinLine := "      LEFT JOIN " + "article_videos av " + "ON a.id = av.article_id\n    "

  /** The article list query before its conditions: every article with its media aggregated. */
  const ArticlesSelect := SelectLine + ImagesLine + VideosLine + FromLine + ImagesJoinLine + VideosJoinLine
  const ArticlesOrder := " GROUP BY a.id ORDER BY a.created_at DESC"
  const FolderColumn := "a.folder_id"
  const CategoryColumn := "a.category"

  /** The grouping and the order do not begin like a WHERE clause. */
  lemma ArticlesOrderIsNotWhere()
    ensures !StartsWith(ArticlesOrder, WhereKeyword)
  {
    assert ArticlesOrder[1] != WhereKeyword[1];
  }

  /**
   * Texts that can stand before and after the conditions without changing the
   * parameters: no `$` in either, and no digit where the conditions end.
   */
  predicate QueryParts(select: string, order: string) {
    DollarFree(select) && DollarFree(order) && NoLeadingDigit(order)
  }

  /** A filter the query applies: a column and the value bound to it. */
  datatype QueryFilter = QueryFilter(column: string, value: string)

  /** The filters in the order the handler adds them: the folder first, then the category. */
  function ActiveFilters(folderId: Option<string>, category: Option<string>): (fs: seq<QueryFilter>)
    ensures |fs| == (if Truthy(folderId) then 1 else 0) + (if Truthy(category) then 1 else 0)
    ensures Truthy(folderId) ==> fs[0] == QueryFilter(FolderColumn, folderId.value)
    ensures Truthy(category) ==> fs[|fs| - 1] == QueryFilter(CategoryColumn, category.value)
  {
    (if Truthy(folderId) then [QueryFilter(FolderColumn, folderId.value)] else []) +
    (if Truthy(category) then [QueryFilter(CategoryColumn, category.value)] else [])
  }

  const Equals := " = "

  /** The condition testing `column` against parameter `k`. */
  function Condition(column: string, k: nat): string {
    column + Equals + "$" + Decimal(k)
  }

  /** The conditions of `fs`, numbered from `start`. */
  function Conditions(fs: seq<QueryFilter>, start: nat): (r: seq<string>)
    ensures |r| == |fs| && forall i :: 0 <= i < |fs| ==> r[i] == Condition(fs[i].column, start + i)
    decreases |fs|
  {
    if fs == [] then [] else [Condition(fs[0].column, start)] + Conditions(fs[1..], start + 1)
  }

  /** The values bound to the parameters, in order. */
  function Values(fs: seq<QueryFilter>): (r: seq<string>)
    ensures |r| == |fs| && forall i :: 0 <= i < |fs| ==> r[i] == fs[i].value
  {
    Map(fs, (f: QueryFilter) => f.value)
  }

  const WhereKeyword := " WHERE "
  const AndKeyword := " AND "

  lemma KeywordsHaveNoDollar()
    ensures DollarFree(WhereKeyword) && DollarFree(AndKeyword)
    ensures WhereKeyword[0] == ' '
  {
  }

  /** ` WHERE ` and the conditions joined by ` AND `, or nothing when there is no condition. */
  function WhereClause(conditions: seq<string>): string {
    if conditions == [] then "" else WhereKeyword + Join(conditions, AndKeyword)
  }

  /** `select`, then the conditions of `fs` under one WHERE, then `order`. */
  function FilteredQuery(select: string, fs: seq<QueryFilter>, order: string): string {
    select + WhereClause(Conditions(fs, 1)) + order
  }

  /** The article list query for the filters `fs`. */
  function ArticlesSql(fs: seq<QueryFilter>): string {
    FilteredQuery(ArticlesSelect, fs, ArticlesOrder)
  }

  /** A column name that can precede ` = $k` without changing the parameters: no `$`, not starting with a digit. */
  predicate PlainColumn(c: string) {
    c != [] && !IsDigit(c[0]) && DollarFree(c)
  }

  /** Every filter's column is plain. */
  predicate PlainColumns(fs: seq<QueryFilter>) {
    forall f :: f in fs ==> PlainColumn(f.column)
  }

  lemma ColumnsArePlain()
    ensures PlainColumn(FolderColumn) && PlainColumn(CategoryColumn)
  {
  }

  /** A condition refers to exactly the parameter it is numbered with. */
  lemma ConditionPlaceholders(c: string, k: nat)
    requires DollarFree(c)
    ensures Placeholders(Condition(c, k)) == [k]
  {
    assert Condition(c, k) == (c + Equals) + ("$" + Decimal(k));
    assert DollarFree(c + Equals);
    TextThenParameter(c + Equals, k);
  }

  /** The joined conditions refer to parameters start, start + 1, ... in order. */
  lemma {:induction false} JoinedConditionsPlaceholders(fs: seq<QueryFilter>, start: nat)
    requires PlainColumns(fs)
    ensures Placeholders(Join(Conditions(fs, start), AndKeyword)) == Numbering(start, |fs|)
    ensures NoLeadingDigit(Join(Conditions(fs, start), AndKeyword))
    decreases |fs|
  {
    var cs := Conditions(fs, start);
    if fs != [] {
      assert fs[0] in fs;
      ConditionPlaceholders(fs[0].column, start);
      var head := Condition(fs[0].column, start);
      assert head[0] == fs[0].column[0];
      if |fs| == 1 {
        assert Join(cs, AndKeyword) == head;
      } else {
        assert cs[1..] == Conditions(fs[1..], start + 1);
        assert forall f :: f in fs[1..] ==> f in fs;
        JoinedConditionsPlaceholders(fs[1..], start + 1);
        JoinedTail(head, Join(cs[1..], AndKeyword));
        assert Join(cs, AndKeyword) == head + (AndKeyword + Join(cs[1..], AndKeyword));
      }
    }
  }

  lemma JoinedTail(head: string, rest: string)
    requires NoLeadingDigit(rest)
    ensures Placeholders(head + (AndKeyword + rest)) == Placeholders(head) + Placeholders(rest)
  {
    KeywordsHaveNoDollar();
    PrefixedPlaceholders(AndKeyword, rest);
    PlaceholdersAppend(head, AndKeyword + rest);
  }

  /** The WHERE clause refers to parameters 1, 2, ..., one per filter, and starts with no digit. */
  lemma WhereClausePlaceholders(fs: seq<QueryFilter>)
    requires PlainColumns(fs)
    ensures Placeholders(WhereClause(Conditions(fs, 1))) == Numbering(1, |fs|)
    ensures NoLeadingDigit(WhereClause(Conditions(fs, 1)))
  {
    if fs != [] {
      JoinedConditionsPlaceholders(fs, 1);
      KeywordsHaveNoDollar();
      PrefixedPlaceholders(WhereKeyword, Join(Conditions(fs, 1), AndKeyword));
    }
  }

  /** Conditions between two texts without a `$` are the only parameters of the query. */
  lemma FilteredQueryPlaceholders(select: string, fs: seq<QueryFilter>, order: string)
    requires QueryParts(select, order)
    requires PlainColumns(fs)
    ensures Placeholders(FilteredQuery(select, fs, order)) == Numbering(1, |fs|)
  {
    WhereClausePlaceholders(fs);
    SurroundedPlaceholders(select, WhereClause(Conditions(fs, 1)), order);
  }

  lemma SelectLineHasNoDollar()
    ensures DollarFree(SelectLine)
  {
  }

  lemma ImagesLineHasNoDollar()
    ensures DollarFree(ImagesLine)
  {
  }

  lemma VideosLineHasNoDollar()
    ensures DollarFree(VideosLine)
  {
  }

  lemma FromLineHasNoDollar()
    ensures DollarFree(FromLine)
  {
  }

  lemma ImagesJoinLineHasNoDollar()
    ensures DollarFree(ImagesJoinLine)
  {
  }

  lemma VideosJoinLineHasNoDollar()
    ensures DollarFree(VideosJoinLine)
  {
  }

  /** The fixed texts of the article list query refer to no parameter, and the text after the conditions starts with no digit. */
  lemma ArticlesQueryParts()
    ensures QueryParts(ArticlesSelect, ArticlesOrder)
  {
    SelectLineHasNoDollar();
    ImagesLineHasNoDollar();
    VideosLineHasNoDollar();
    FromLineHasNoDollar();
    ImagesJoinLineHasNoDollar();
    VideosJoinLineHasNoDollar();
  }

  /** The whole article list query refers to parameters 1, 2, ..., one per filter, in order. */
  lemma ArticlesSqlPlaceholders(fs: seq<QueryFilter>)
    requires PlainColumns(fs)
    ensures Placeholders(ArticlesSql(fs)) == Numbering(1, |fs|)
  {
    ArticlesQueryParts();
    FilteredQueryPlaceholders(ArticlesSelect, fs, ArticlesOrder);
  }

  /** What follows `select` is a WHERE clause exactly when there is a filter. */
  lemma WhereIffFiltered(fs: seq<QueryFilter>, order: string)
    requires !StartsWith(order, WhereKeyword)
    ensures StartsWith(WhereClause(Conditions(fs, 1)) + order, WhereKeyword) <==> fs != []
  {
    var w := WhereClause(Conditions(fs, 1));
    if fs != [] {
      assert (w + order)[..|WhereKeyword|] == WhereKeyword;
    } else {
      assert w + order == order;
    }
  }

  /** The query is `select`, the WHERE clause and `order`, laid end to end. */
  lemma FilteredQueryParts(select: string, fs: seq<QueryFilter>, order: string)
    ensures var q := FilteredQuery(select, fs, order);
      |select| + |order| <= |q| &&
      q[..|select|] == select &&
      q[|select|..] == WhereClause(Conditions(fs, 1)) + order &&
      q[|q| - |order|..] == order
  {
  }

  /** The query starts with `select` and ends with `order`; a WHERE follows `select` exactly when there is a filter. */
  lemma FilteredQueryShape(select: string, fs: seq<QueryFilter>, order: string)
    requires !StartsWith(order, WhereKeyword)
    ensures var q := FilteredQuery(select, fs, order);
      |select| + |order| <= |q| &&
      q[..|select|] == select &&
      q[|q| - |order|..] == order &&
      (StartsWith(q[|select|..], WhereKeyword) <==> fs != [])
  {
    FilteredQueryParts(select, fs, order);
    WhereIffFiltered(fs, order);
  }

  /** A WHERE clause follows the SELECT exactly when a filter is given; the query always ends with the grouping and the order. */
  lemma ArticlesWhereIffFiltered(folderId: Option<string>, category: Option<string>)
    ensures var sql := ArticlesSql(ActiveFilters(folderId, category));
      |ArticlesSelect| + |ArticlesOrder| <= |sql| &&
      sql[..|ArticlesSelect|] == ArticlesSelect &&
      sql[|sql| - |ArticlesOrder|..] == ArticlesOrder &&
      (StartsWith(sql[|ArticlesSelect|..], WhereKeyword) <==> Truthy(folderId) || Truthy(category))
  {
    ArticlesOrderIsNotWhere();
    FilteredQueryShape(ArticlesSelect, ActiveFilters(folderId, category), ArticlesOrder);
  }

  /** The handler's two `if`s: a condition numbered after the parameters so far, and its value, per truthy filter. */
  method CollectFilters(folderId: Option<string>, category: Option<string>) returns (conditions: seq<string>, params: seq<string>)
    ensures conditions == Conditions(ActiveFilters(folderId, category), 1)
    ensures params == Values(ActiveFilters(folderId, category))
  {
    conditions, params := [], [];
    if Truthy(folderId) {
      conditions := conditions + [Condition(FolderColumn, |params| + 1)];
      params := params + [folderId.value];
    }
    if Truthy(category) {
      conditions := conditions + [Condition(CategoryColumn, |params| + 1)];
      params := params + [category.value];
    }
  }

  /** `if (conditions.length > 0) sql += ' WHERE ' + conditions.join(' AND ')`. */
  method AppendWhere(sql: string, conditions: seq<string>) returns (r: string)
    ensures r == sql + WhereClause(conditions)
    ensures conditions != [] ==> |sql| < |r| && r[..|sql|] == sql && r[|sql|..] == WhereKeyword + Join(conditions, AndKeyword)
    ensures conditions == [] ==> r == sql
  {
    r := sql;
    if |conditions| > 0 {
      r := r + WhereKeyword + Join(conditions, AndKeyword);
    }
  }

  /** The article list query: conditions numbered as the parameters grow, joined under one WHERE. */
  method ArticlesQuery(folderId: Option<string>, category: Option<string>) returns (sql: string, params: seq<string>)
    ensures params == Values(ActiveFilters(folderId, category))
    ensures sql == ArticlesSql(ActiveFilters(folderId, category))
    ensures Placeholders(sql) == Numbering(1, |params|)
  {
    var conditions;
    conditions, params := CollectFilters(folderId, category);
    sql := ArticlesSelect;
    sql := AppendWhere(sql, conditions);
    sql := sql + ArticlesOrder;
    ColumnsArePlain();
    ArticlesSqlPlaceholders(ActiveFilters(folderId, category));
  }

  /** The k-th condition tests the k-th filter's column against `$k`, and `$k` is bound to that filter's value. */
  lemma ConditionBindsItsValue(folderId: Option<string>, category: Option<string>, k: nat)
    requires 1 <= k <= |ActiveFilters(folderId, category)|
    ensures var fs := ActiveFilters(folderId, category);
      Conditions(fs, 1)[k - 1] == Condition(fs[k - 1].column, k) &&
      Placeholders(Conditions(fs, 1)[k - 1]) == [k] &&
      Values(fs)[k - 1] == fs[k - 1].value
  {
    var fs := ActiveFilters(folderId, category);
    assert fs[k - 1].column == FolderColumn || fs[k - 1].column == CategoryColumn;
    ColumnsArePlain();
    ConditionPlaceholders(fs[k - 1].column, k);
  }

  /** With both filters, the folder condition is `$1` and the category condition `$2`. */
  lemma BothFiltersOrder(folderId: string, category: string)
    requires folderId != "" && category != ""
    ensures Conditions(ActiveFilters(Some(folderId), Some(category)), 1) == [Condition(FolderColumn, 1), Condition(CategoryColumn, 2)]
    ensures Values(ActiveFilters(Some(folderId), Some(category))) == [folderId, category]
  {
  }

  // ---- POST /api/articles

  /**
   * A text column that may hold SQL NULL (None). A field missing from a JSON
   * body destructures to `undefined`, which pg binds as NULL; whether the
   * table's constraints then reject the statement is the database's answer,
   * modelled as the statement failing.
   */
  type Nullable = Option<string>

  /** A row of `articles`. */
  datatype ArticleRow = ArticleRow(
    id: string,
    folderId: Nullable,
    title: Nullable,
    content: Nullable,
    category: Nullable,
    createdAt: Timestamp,
    updatedAt: Timestamp)

  /** A row of `article_images` or `article_videos`. */
  datatype MediaRow = MediaRow(articleId: string, url: string)

  datatype Tables = Tables(articles: seq<ArticleRow>, images: seq<MediaRow>, videos: seq<MediaRow>)

  /** The request body; a missing field is None. */
  datatype ArticleBody = ArticleBody(
    folderId: Nullable,
    title: Nullable,
    content: Nullable,
    category: Nullable,
    images: Option<seq<string>>,
    videos: Option<seq<string>>)

  /** 201 with the created article and its media, or 500. */
  datatype CreateResponse = Created(article: ArticleRow, images: seq<string>, videos: seq<string>) | CreateFailed

  /** `list || []`. */
  function OrEmpty(list: Option<seq<string>>): seq<string> {
    if list.Some? then list.value else []
  }

  /**
   * The row the article insert returns. The insert names neither stamp, so
   * both come from the table's column defaults, taken here to be one `now`.
   */
  function NewRow(body: ArticleBody, id: string, now: Timestamp): (r: ArticleRow)
    ensures r.id == id && r.createdAt == now && r.updatedAt == now
    ensures r.folderId == body.folderId && r.title == body.title && r.content == body.content && r.category == body.category
  {
    ArticleRow(id, body.folderId, body.title, body.content, body.category, now, now)
  }

  function MediaRows(articleId: string, urls: seq<string>): (r: seq<MediaRow>)
    ensures |r| == |urls| && forall i :: 0 <= i < |urls| ==> r[i] == MediaRow(articleId, urls[i])
  {
    Map(urls, (u: string) => MediaRow(articleId, u))
  }

  /** The tables after a committed insert: the article row, then one row per image and per video, in order. */
  function Committed(db: Tables, body: ArticleBody, id: string, now: Timestamp): (t: Tables)
    ensures |t.articles| == |db.articles| + 1 && t.articles[..|db.articles|] == db.articles
    ensures t.articles[|db.articles|] == NewRow(body, id, now)
    ensures t.images == db.images + MediaRows(id, OrEmpty(body.images))
    ensures t.videos == db.videos + MediaRows(id, OrEmpty(body.videos))
  {
    Tables(
      db.articles + [NewRow(body, id, now)],
      db.images + MediaRows(id, OrEmpty(body.images)),
      db.videos + MediaRows(id, OrEmpty(body.videos)))
  }

  /** The statements of the transaction: BEGIN, the article insert, the media inserts, COMMIT. */
  function StatementCount(body: ArticleBody): (n: nat)
    ensures n >= 3 && n - 3 == |OrEmpty(body.images)| + |OrEmpty(body.videos)|
  {
    2 + |OrEmpty(body.images)| + |OrEmpty(body.videos)| + 1
  }

  /**
   * One media insert per url, in order, numbered from `step`; `failAt` is the
   * number of the statement that fails, if any. Stops at the failing one.
   */
  method InsertMedia(rows: seq<MediaRow>, articleId: string, urls: seq<string>, step: nat, failAt: Option<nat>)
    returns (after: seq<MediaRow>, next: nat, failed: bool)
    requires failAt.None? || failAt.value >= step
    ensures failed <==> failAt.Some? && failAt.value < step + |urls|
    ensures !failed ==> after == rows + MediaRows(articleId, urls) && next == step + |urls|
    ensures !failed ==> failAt.None? || failAt.value >= next
  {
    after, next, failed := rows, step, false;
    var i := 0;
    while i < |urls| && !failed
      invariant 0 <= i <= |urls|
      invariant failed ==> failAt.Some? && failAt.value < step + |urls|
      invariant !failed ==> next == step + i && (failAt.None? || failAt.value >= next)
      invariant !failed ==> after == rows + MediaRows(articleId, urls[..i])
      decreases |urls| - i + (if failed then 0 else 1)
    {
      if failAt == Some(next) {
        failed := true;
      } else {
        assert urls[..i + 1] == urls[..i] + [urls[i]];
        after := after + [MediaRow(articleId, urls[i])];
        next := next + 1;
        i := i + 1;
      }
    }
    if !failed {
      assert urls[..i] == urls;
    }
  }

  /**
   * The article insert. Statements are numbered from 0 in the order they are
   * issued: BEGIN, the article row, its images, its videos, COMMIT; `failAt` is
   * the number of the statement that fails, if any. A failure rolls
   * everything back and answers 500; otherwise the article and all its media
   * are committed together.
   */
  method CreateArticle(db: Tables, body: ArticleBody, articleId: string, now: Timestamp, failAt: Option<nat>)
    returns (after: Tables, response: CreateResponse)
    ensures response.CreateFailed? <==> failAt.Some? && failAt.value < StatementCount(body)
    ensures response.CreateFailed? ==> after == db
    ensures response.Created? ==> after == Committed(db, body, articleId, now)
    ensures response.Created? ==>
      response == Created(NewRow(body, articleId, now), OrEmpty(body.images), OrEmpty(body.videos))
  {
    var images := OrEmpty(body.images);
    var videos := OrEmpty(body.videos);
    var failed := failAt == Some(0) || failAt == Some(1);
    var work := db;
    if !failed {
      work := work.(articles := work.articles + [NewRow(body, articleId, now)]);
      var rows, step;
      rows, step, failed := InsertMedia(work.images, articleId, images, 2, failAt);
      if !failed {
        work := work.(images := rows);
        rows, step, failed := InsertMedia(work.videos, articleId, videos, step, failAt);
        if !failed {
          work := work.(videos := rows);
          // The COMMIT is the last statement.
          failed := failAt == Some(step);
        }
      }
    }
    if failed {
      // ROLLBACK: nothing the transaction did remains.
      after, response := db, CreateFailed;
    } else {
      after, response := work, Created(NewRow(body, articleId, now), images, videos);
    }
  }

  /** `url` of every row attached to article `id`, in table order. */
  function MediaOf(rows: seq<MediaRow>, id: string): seq<string> {
    Map(Filter(rows, (r: MediaRow) => r.articleId == id), (r: MediaRow) => r.url)
  }

  lemma {:induction false} MediaOfRows(id: string, urls: seq<string>)
    ensures MediaOf(MediaRows(id, urls), id) == urls
    decreases |urls|
  {
    var p := (r: MediaRow) => r.articleId == id;
    if urls != [] {
      assert MediaRows(id, urls) == [MediaRow(id, urls[0])] + MediaRows(id, urls[1..]);
      FilterAppend([MediaRow(id, urls[0])], MediaRows(id, urls[1..]), p);
      MediaOfRows(id, urls[1..]);
    }
  }

  /**
   * After a committed insert under a fresh id, the media attached to the new
   * article are exactly the request's images and videos, in request order.
   */
  lemma CommittedMediaAreTheRequest(db: Tables, body: ArticleBody, id: string, now: Timestamp)
    requires forall r :: r in db.images ==> r.articleId != id
    requires forall r :: r in db.videos ==> r.articleId != id
    ensures MediaOf(Committed(db, body, id, now).images, id) == OrEmpty(body.images)
    ensures MediaOf(Committed(db, body, id, now).videos, id) == OrEmpty(body.videos)
  {
    MediaOfAppended(db.images, id, OrEmpty(body.images));
    MediaOfAppended(db.videos, id, OrEmpty(body.videos));
  }

  /** Rows appended for an id no earlier row has are all the media of that id. */
  lemma MediaOfAppended(rows: seq<MediaRow>, id: string, urls: seq<string>)
    requires forall r :: r in rows ==> r.articleId != id
    ensures MediaOf(rows + MediaRows(id, urls), id) == urls
  {
    var p := (r: MediaRow) => r.articleId == id;
    FilterAppend(rows, MediaRows(id, urls), p);
    FilterNone(rows, p);
    MediaOfRows(id, urls);
  }

  // ---- PUT /api/articles/:id

  /** 200 with the first updated row (no body when no row has the id), or 500. */
  datatype PutResponse = PutDone(row: Option<ArticleRow>) | PutFailed

  /** `UPDATE articles SET title = $1, content = $2, updated_at = NOW() WHERE id = $3`. */
  function UpdatedRows(rows: seq<ArticleRow>, id: string, title: Nullable, content: Nullable, now: Timestamp): (r: seq<ArticleRow>)
    ensures |r| == |rows|
    ensures forall i :: 0 <= i < |rows| ==>
      r[i] == if rows[i].id == id then rows[i].(title := title, content := content, updatedAt := now) else rows[i]
  {
    Map(rows, (a: ArticleRow) => if a.id == id then a.(title := title, content := content, updatedAt := now) else a)
  }

  /**
   * The update endpoint. `title` and `content` are the body's fields, None
   * when the body lacks them: the column is then set to NULL. `fails` says
   * whether the statement fails, a NOT NULL constraint among the reasons.
   */
  function Put(db: Tables, id: string, title: Nullable, content: Nullable, now: Timestamp, fails: bool): (r: (Tables, PutResponse))
    ensures fails ==> r == (db, PutFailed)
    ensures !fails ==> r.0 == db.(articles := UpdatedRows(db.articles, id, title, content, now))
    ensures !fails ==> r.1.PutDone? && (r.1.row.None? <==> forall a :: a in db.articles ==> a.id != id)
  {
    if fails then (db, PutFailed)
    else
      var rows := UpdatedRows(db.articles, id, title, content, now);
      assert forall a :: a in rows && a.id == id ==> exists b :: b in db.articles && b.id == id by {
        forall a | a in rows && a.id == id ensures exists b :: b in db.articles && b.id == id {
          var i :| 0 <= i < |rows| && rows[i] == a;
          assert db.articles[i] in db.articles;
        }
      }
      assert forall b :: b in db.articles && b.id == id ==> exists a :: a in rows && a.id == id by {
        forall b | b in db.articles && b.id == id ensures exists a :: a in rows && a.id == id {
          var i :| 0 <= i < |db.articles| && db.articles[i] == b;
          assert rows[i] in rows;
        }
      }
      (db.(articles := rows), PutDone(Find(rows, (a: ArticleRow) => a.id == id)))
  }

  /**
   * The update touches only the title, the content and `updated_at` of the
   * article's row: its folder, category and creation time stay, and the
   * media tables are not changed.
   */
  lemma PutChangesOnlyText(db: Tables, id: string, title: Nullable, content: Nullable, now: Timestamp)
    ensures var after := Put(db, id, title, content, now, false).0;
      after.images == db.images && after.videos == db.videos &&
      |after.articles| == |db.articles| &&
      forall i :: 0 <= i < |db.articles| ==>
        after.articles[i].id == db.articles[i].id &&
        after.articles[i].folderId == db.articles[i].folderId &&
        after.articles[i].category == db.articles[i].category &&
        after.articles[i].createdAt == db.articles[i].createdAt &&
        (db.articles[i].id != id ==> after.articles[i] == db.articles[i])
  {
  }

  /** The response carries the new title and content. */
  lemma PutReturnsUpdatedRow(db: Tables, id: string, title: Nullable, content: Nullable, now: Timestamp)
    ensures var response := Put(db, id, title, content, now, false).1;
      response.PutDone? && response.row.Some? ==>
        response.row.value.id == id && response.row.value.title == title &&
        response.row.value.content == content && response.row.value.updatedAt == now
  {
    var rows := UpdatedRows(db.articles, id, title, content, now);
    var found := Find(rows, (a: ArticleRow) => a.id == id);
    if found.Some? {
      var i :| 0 <= i < |rows| && rows[i] == found.value && rows[i].id == id;
    }
  }

  // ---- POST /api/upload

  /** The length of `p[..n]` once its trailing '/' characters are removed. */
  function ContentEnd(p: string, n: nat): (m: nat)
    requires n <= |p|
    ensures m <= n && (m == 0 || p[m - 1] != '/')
    ensures forall k :: m <= k < n ==> p[k] == '/'
    decreases n
  {
    if n > 0 && p[n - 1] == '/' then ContentEnd(p, n - 1) else n
  }

  /** Where the path component ending at `end` starts: just after the '/' before it, or at 0. */
  function ComponentStart(p: string, end: nat): (s: nat)
    requires end <= |p|
    ensures s <= end && (s == 0 || p[s - 1] == '/')
    ensures forall k :: s <= k < end ==> p[k] != '/'
    decreases end
  {
    if end == 0 || p[end - 1] == '/' then end else ComponentStart(p, end - 1)
  }

  /** The position of the last '.' in `p[start..end]`, if any. */
  function LastDot(p: string, start: nat, end: nat): (r: Option<nat>)
    requires start <= end <= |p|
    ensures r.Some? ==> start <= r.value < end && p[r.value] == '.' && forall k :: r.value < k < end ==> p[k] != '.'
    ensures r.None? ==> forall k :: start <= k < end ==> p[k] != '.'
    decreases end - start
  {
    if start == end then None
    else if p[end - 1] == '.' then Some(end - 1)
    else LastDot(p, start, end - 1)
  }

  /**
   * `path.extname` (POSIX): in the last component, trailing '/' ignored, the
   * text from its last '.' to its end, unless that '.' starts the component or
   * the component is "..".
   */
  function ExtName(p: string): (e: string)
    ensures e == "" || (e[0] == '.' && forall k :: 1 <= k < |e| ==> e[k] != '.')
    ensures forall k :: 0 <= k < |e| ==> e[k] != '/'
  {
    var end := ContentEnd(p, |p|);
    var start := ComponentStart(p, end);
    match LastDot(p, start, end)
    case None => ""
    case Some(d) =>
      if d == start || (d == start + 1 && end == start + 2 && p[start] == '.') then ""
      else p[d..end]
  }

  /** A name with one '.' has the text from it as its extension. */
  lemma ExtNameOfPlainName()
    ensures ExtName("a.png") == ".png"
  {
    var n := "a.png";
    assert ContentEnd(n, 5) == 5;
    assert ComponentStart(n, 5) == 0;
    assert LastDot(n, 0, 5) == Some(1);
  }

  /** Of two extensions only the last counts. */
  lemma ExtNameOfDoubleExtension()
    ensures ExtName("a.b.gz") == ".gz"
  {
    var n := "a.b.gz";
    assert ContentEnd(n, 6) == 6;
    assert ComponentStart(n, 6) == 0;
    assert LastDot(n, 0, 6) == Some(3);
  }

  /** A '.' that starts the name does not begin an extension. */
  lemma ExtNameOfDotFile()
    ensures ExtName(".rc") == ""
  {
    var n := ".rc";
    assert ContentEnd(n, 3) == 3;
    assert ComponentStart(n, 3) == 0;
    assert LastDot(n, 0, 3) == Some(0);
  }

  /** Trailing '/' are ignored and only the last component counts. */
  lemma ExtNameOfDirectory()
    ensures ExtName("x.d/a.b/") == ".b"
  {
    var n := "x.d/a.b/";
    assert ContentEnd(n, 8) == 7;
    assert ComponentStart(n, 7) == 4;
    assert LastDot(n, 4, 7) == Some(5);
  }

  /** The component ".." has no extension. */
  lemma ExtNameOfParent()
    ensures ExtName("..") == ""
  {
    var n := "..";
    assert ContentEnd(n, 2) == 2;
    assert ComponentStart(n, 2) == 0;
    assert LastDot(n, 0, 2) == Some(1);
  }

  /** `Date.now() + '-' + Math.round(Math.random() * 1E9) + path.extname(originalname)`. */
  function StoredName(originalName: string, now: nat, draw: nat): (r: string)
    ensures var t := Decimal(now) + "-"; |t| <= |r| && r[..|t|] == t
    ensures var e := ExtName(originalName); |e| <= |r| && r[|r| - |e|..] == e
  {
    Decimal(now) + "-" + Decimal(draw) + ExtName(originalName)
  }

  /** A name made of a stem without '/' or '.' and then an extension has that extension. */
  lemma StemThenExtension(stem: string, e: string)
    requires |stem| > 1 && forall k :: 0 <= k < |stem| ==> stem[k] != '/' && stem[k] != '.'
    requires e == "" || (e[0] == '.' && forall k :: 1 <= k < |e| ==> e[k] != '.')
    requires forall k :: 0 <= k < |e| ==> e[k] != '/'
    ensures ExtName(stem + e) == e
  {
    var s := stem + e;
    assert forall k :: 0 <= k < |s| ==> s[k] != '/' by {
      forall k | 0 <= k < |s| ensures s[k] != '/' {
        if k >= |stem| {
          assert s[k] == e[k - |stem|];
        }
      }
    }
    assert ContentEnd(s, |s|) == |s|;
    assert ComponentStart(s, |s|) == 0;
    if e == "" {
      assert s == stem;
    } else {
      assert s[|stem|] == '.';
      assert forall k :: |stem| < k < |s| ==> s[k] != '.' by {
        forall k | |stem| < k < |s| ensures s[k] != '.' {
          assert s[k] == e[k - |stem|];
        }
      }
      assert LastDot(s, 0, |s|) == Some(|stem|);
      assert s[|stem|..] == e;
    }
  }

  /** The stored file keeps the uploaded file's extension. */
  lemma StoredNameKeepsExtension(originalName: string, now: nat, draw: nat)
    ensures ExtName(StoredName(originalName, now, draw)) == ExtName(originalName)
  {
    var a, b := Decimal(now), Decimal(draw);
    var stem := a + "-" + b;
    forall k | 0 <= k < |stem| ensures stem[k] != '/' && stem[k] != '.' {
      if k < |a| {
        assert stem[k] == a[k];
      } else if k > |a| {
        assert stem[k] == b[k - |a| - 1];
      }
    }
    StemThenExtension(stem, ExtName(originalName));
  }

  datatype UploadedFile = UploadedFile(originalName: string)

  /** 400 when the request carries no file, else 200 with the URL the file is served at. */
  datatype UploadResponse = NoFileUploaded | FileUrl(url: string)

  /** The upload endpoint; `now` and `draw` are the clock and the rounded random number. */
  function Upload(file: Option<UploadedFile>, protocol: string, host: string, now: nat, draw: nat): (r: UploadResponse)
    ensures r.NoFileUploaded? <==> file.None?
    ensures r.FileUrl? ==>
      var prefix := protocol + "://" + host + "/uploads/";
      |prefix| <= |r.url| && r.url[..|prefix|] == prefix &&
      ExtName(r.url[|prefix|..]) == ExtName(file.value.originalName)
  {
    match file
    case None => NoFileUploaded
    case Some(f) =>
      var prefix := protocol + "://" + host + "/uploads/";
      var name := StoredName(f.originalName, now, draw);
      assert (prefix + name)[|prefix|..] == name;
      StoredNameKeepsExtension(f.originalName, now, draw);
      FileUrl(prefix + name)
  }
}
