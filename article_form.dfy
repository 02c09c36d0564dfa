// The article form: the fields the author edits, the two media lists with
// their pending inputs, and the submit that hands the result to the article
// store, as an update when an article is being edited and as a new article
// otherwise. The handlers overwrite the component's state; the new lists are
// computed from the old ones as values.

module ArticleForm {
  import opened Seqs
  import opened Text
  import opened Entities
  import ArticleStore

  /**
   * `[...list, input.trim()]` when the trimmed input is not empty, the list
   * as it is otherwise; the second component is what the input is left holding.
   */
  function AddEntry(list: seq<string>, input: string): (r: (seq<string>, string))
    ensures |list| <= |r.0| <= |list| + 1 && r.0[..|list|] == list
    ensures |r.0| == |list| + 1 <==> Trim(input) != ""
    ensures |r.0| == |list| + 1 ==> r.0[|list|] == Trim(input) && r.1 == ""
    ensures |r.0| == |list| ==> r.1 == input
  {
    if Trim(input) != "" then (list + [Trim(input)], "") else (list, input)
  }

  /** An entry the form adds is never blank and has no surrounding whitespace. */
  lemma AddedEntryIsTrimmed(list: seq<string>, input: string)
    requires |AddEntry(list, input).0| > |list|
    ensures var e := AddEntry(list, input).0[|list|]; e != "" && Trim(e) == e
  {
    TrimIdempotent(input);
  }

  /** The elements of `s`, whose first sits at position `start`, other than the one at `index`. */
  function WithoutIndex<T>(s: seq<T>, index: int, start: nat): seq<T>
    decreases |s|
  {
    if s == [] then []
    else (if start == index then [] else [s[0]]) + WithoutIndex(s[1..], index, start + 1)
  }

  lemma {:induction false} WithoutIndexSlices<T>(s: seq<T>, index: int, start: nat)
    ensures start <= index < start + |s| ==> WithoutIndex(s, index, start) == s[..index - start] + s[index - start + 1..]
    ensures !(start <= index < start + |s|) ==> WithoutIndex(s, index, start) == s
    decreases |s|
  {
    if s != [] {
      WithoutIndexSlices(s[1..], index, start + 1);
      if start == index {
        assert WithoutIndex(s[1..], index, start + 1) == s[1..];
      } else if start < index < start + |s| {
        var k := index - start;
        assert s[1..][..k - 1] == s[1..k];
        assert s[1..][k..] == s[k + 1..];
        assert [s[0]] + s[1..k] == s[..k];
      }
    }
  }

  /** `list.filter((_, i) => i !== index)`: the entry at `index` goes, the rest keep their order. */
  function RemoveAt<T>(list: seq<T>, index: int): (r: seq<T>)
    ensures 0 <= index < |list| ==> r == list[..index] + list[index + 1..] && |r| == |list| - 1
    ensures !(0 <= index < |list|) ==> r == list
  {
    WithoutIndexSlices(list, index, 0);
    WithoutIndex(list, index, 0)
  }

  /** Adding an entry and then removing it by the index it was given restores the list. */
  lemma RemoveUndoesAdd(list: seq<string>, input: string)
    requires Trim(input) != ""
    ensures RemoveAt(AddEntry(list, input).0, |list|) == list
  {
    var r := AddEntry(list, input).0;
    assert r[..|list|] == list;
  }

  /** The patch the form submits for an article it edits: `{ title, content, images, videos }`. */
  function EditPatch(title: string, content: string, images: seq<string>, videos: seq<string>): (p: ArticlePatch)
    ensures p.title == Some(title) && p.content == Some(content) && p.images == Some(images) && p.videos == Some(videos)
    ensures p.id.None? && p.folderId.None? && p.category.None? && p.createdAt.None? && p.updatedAt.None?
  {
    NoArticleChange.(title := Some(title), content := Some(content), images := Some(images), videos := Some(videos))
  }

  /**
   * Editing through the form changes the four edited fields and `updatedAt`;
   * the id, the folder, the category and `createdAt` stay.
   */
  lemma EditKeepsIdentity(a: Article, title: string, content: string, images: seq<string>, videos: seq<string>, now: Timestamp)
    ensures ArticleStore.Merge(a, EditPatch(title, content, images, videos), now) ==
      a.(title := title, content := content, images := images, videos := videos, updatedAt := now)
  {
  }

  /** The draft the form submits for a new article: no folder, the form's category. */
  function NewDraft(category: Category, title: string, content: string, images: seq<string>, videos: seq<string>): (d: ArticleDraft)
    ensures d.folderId.None? && d.category == category
    ensures d.title == title && d.content == content && d.images == images && d.videos == videos
  {
    ArticleDraft(None, title, content, category, images, videos)
  }

  class Form {
    const category: Category
    /** The article being edited, if any. */
    const article: Option<Article>
    var title: string
    var content: string
    var images: seq<string>
    var videos: seq<string>
    var newImage: string
    var newVideo: string

    /** The initial state: the edited article's fields, or empty ones. */
    constructor (category: Category, article: Option<Article>)
      ensures this.category == category && this.article == article
      ensures article.Some? ==>
        title == article.value.title && content == article.value.content &&
        images == article.value.images && videos == article.value.videos
      ensures article.None? ==> title == "" && content == "" && images == [] && videos == []
      ensures newImage == "" && newVideo == ""
    {
      this.category := category;
      this.article := article;
      match article {
        case Some(a) =>
          title, content, images, videos := a.title, a.content, a.images, a.videos;
        case None =>
          title, content, images, videos := "", "", [], [];
      }
      newImage, newVideo := "", "";
    }

    /** `handleAddImage`. */
    method AddImage()
      modifies this
      ensures (images, newImage) == AddEntry(old(images), old(newImage))
      ensures Trim(old(newImage)) != "" ==> images == old(images) + [Trim(old(newImage))] && newImage == ""
      ensures Trim(old(newImage)) == "" ==> images == old(images) && newImage == old(newImage)
      ensures title == old(title) && content == old(content) && videos == old(videos) && newVideo == old(newVideo)
    {
      images, newImage := AddEntry(images, newImage).0, AddEntry(images, newImage).1;
    }

    /** `handleAddVideo`. */
    method AddVideo()
      modifies this
      ensures (videos, newVideo) == AddEntry(old(videos), old(newVideo))
      ensures Trim(old(newVideo)) != "" ==> videos == old(videos) + [Trim(old(newVideo))] && newVideo == ""
      ensures Trim(old(newVideo)) == "" ==> videos == old(videos) && newVideo == old(newVideo)
      ensures title == old(title) && content == old(content) && images == old(images) && newImage == old(newImage)
    {
      videos, newVideo := AddEntry(videos, newVideo).0, AddEntry(videos, newVideo).1;
    }

    /** `handleRemoveImage(index)`. */
    method RemoveImage(index: int)
      modifies this
      ensures images == RemoveAt(old(images), index)
      ensures title == old(title) && content == old(content) && videos == old(videos)
      ensures newImage == old(newImage) && newVideo == old(newVideo)
    {
      images := RemoveAt(images, index);
    }

    /** `handleRemoveVideo(index)`. */
    method RemoveVideo(index: int)
      modifies this
      ensures videos == RemoveAt(old(videos), index)
      ensures title == old(title) && content == old(content) && images == old(images)
      ensures newImage == old(newImage) && newVideo == old(newVideo)
    {
      videos := RemoveAt(videos, index);
    }

    /**
     * `handleSubmit`: update the edited article with the four edited fields,
     * or add a new article in the form's category; then go to the solution
     * page. An edit reads the clock once (`now`); an add reads it twice (`now`,
     * then `later`). When `crypto.randomUUID` is missing (`uuid` is None),
     * `addArticle` throws, the store is unchanged and no navigation happens.
     * The title and content inputs are `required`, so the browser submits
     * only when both are non-empty (whitespace alone still passes).
     */
    method Submit(store: ArticleStore.Store, uuid: Option<string>, now: Timestamp, later: Timestamp)
      returns (route: Option<string>)
      requires title != "" && content != ""
      modifies store
      ensures article.Some? ==>
        store.articles == ArticleStore.Updated(old(store.articles), article.value.id, EditPatch(title, content, images, videos), now)
      ensures article.None? && uuid.Some? ==>
        store.articles == old(store.articles) + [ArticleStore.NewArticle(NewDraft(category, title, content, images, videos), uuid.value, now, later)]
      ensures article.None? && uuid.None? ==> store.articles == old(store.articles)
      ensures route.None? <==> article.None? && uuid.None?
      ensures route.Some? ==> route.value == "/solucao/" + CategoryName(category)
    {
      match article {
        case Some(a) =>
          store.UpdateArticle(a.id, EditPatch(title, content, images, videos), now);
        case None =>
          var added := store.AddArticle(NewDraft(category, title, content, images, videos), uuid, now, later);
          if !added {
            return None;
          }
      }
      route := Some("/solucao/" + CategoryName(category));
    }
  }

  /**
   * After submitting a new article under a fresh id, the store finds it with
   * the form's contents, the form's category and no folder.
   */
  lemma SubmitNewThenFind(s: seq<Article>, category: Category, title: string, content: string,
                          images: seq<string>, videos: seq<string>, id: string, now: Timestamp, later: Timestamp)
    requires forall a :: a in s ==> a.id != id
    ensures var found := ArticleStore.FindById(s + [ArticleStore.NewArticle(NewDraft(category, title, content, images, videos), id, now, later)], id);
      found.Some? && found.value.title == title && found.value.content == content &&
      found.value.images == images && found.value.videos == videos &&
      found.value.category == category && found.value.folderId.None?
  {
    ArticleStore.AddThenFind(s, NewDraft(category, title, content, images, videos), id, now, later);
  }

  /**
   * After submitting an edit, the store finds the edited article with the
   * form's contents and its own id, folder, category and creation time.
   */
  lemma SubmitEditThenFind(s: seq<Article>, a: Article, title: string, content: string,
                           images: seq<string>, videos: seq<string>, now: Timestamp)
    requires ArticleStore.FindById(s, a.id) == Some(a)
    ensures ArticleStore.FindById(ArticleStore.Updated(s, a.id, EditPatch(title, content, images, videos), now), a.id) ==
      Some(a.(title := title, content := content, images := images, videos := videos, updatedAt := now))
  {
    ArticleStore.UpdateThenFind(s, a.id, EditPatch(title, content, images, videos), now);
    EditKeepsIdentity(a, title, content, images, videos, now);
  }
}
