// The records the knowledge base keeps: articles and the folders that group them.

module Entities {
  import opened Seqs

  /** The two solutions an article or folder belongs to (`'pabx' | 'omni'`). */
  datatype Category = Pabx | Omni

  /** A `Date`, as the milliseconds `getTime()` returns. */
  type Timestamp = int

  /**
   * An article. `folderId` is optional: the pages read it, but the form that
   * creates articles does not set it.
   */
  datatype Article = Article(
    id: string,
    folderId: Option<string>,
    title: string,
    content: string,
    category: Category,
    images: seq<string>,
    videos: seq<string>,
    createdAt: Timestamp,
    updatedAt: Timestamp)

  /** The argument of `addArticle`: an article without `id`, `createdAt` and `updatedAt`. */
  datatype ArticleDraft = ArticleDraft(
    folderId: Option<string>,
    title: string,
    content: string,
    category: Category,
    images: seq<string>,
    videos: seq<string>)

  /** A `Partial<Article>`: each field is either absent (None) or present with a value. */
  datatype ArticlePatch = ArticlePatch(
    id: Option<string>,
    folderId: Option<string>,
    title: Option<string>,
    content: Option<string>,
    category: Option<Category>,
    images: Option<seq<string>>,
    videos: Option<seq<string>>,
    createdAt: Option<Timestamp>,
    updatedAt: Option<Timestamp>)

  /** The patch with no field present. */
  const NoArticleChange := ArticlePatch(None, None, None, None, None, None, None, None, None)

  /** A folder of articles within one category. */
  datatype Folder = Folder(
    id: string,
    name: string,
    category: Category,
    createdAt: Timestamp,
    updatedAt: Timestamp)

  /** The argument of `addFolder`. */
  datatype FolderDraft = FolderDraft(name: string, category: Category)

  /** A `Partial<Folder>`. */
  datatype FolderPatch = FolderPatch(
    id: Option<string>,
    name: Option<string>,
    category: Option<Category>,
    createdAt: Option<Timestamp>,
    updatedAt: Option<Timestamp>)

  const NoFolderChange := FolderPatch(None, None, None, None, None)

  /** A present field's value, or the current one. */
  function Patched<T>(field: Option<T>, current: T): T {
    match field
    case Some(v) => v
    case None => current
  }

  /** The string a category is spelled as in routes and records. */
  function CategoryName(c: Category): string {
    match c
    case Pabx => "pabx"
    case Omni => "omni"
  }
}
