# Omni Knowledge Hub — a Dafny model

Omni Knowledge Hub is an internal knowledge base. Articles carry a title, a body and lists of image and video links. They are grouped in folders under one of two solutions, PABX and Omni. This project models the application's core and proves what it promises.

The model covers:

- **The two client-side stores** (`articleStore`, `folderStore`).
  - Each is a class whose `seq` field the mutators replace: `addArticle`/`addFolder`, `updateArticle`/`updateFolder` (a merge patch) and `deleteArticle`/`deleteFolder`.
  - The getters `getArticlesByCategory`/`getFoldersByCategory` and `getArticleById`/`getFolderById` are functions over that field.
  - `generateUUID` is modelled too. It either returns the platform's UUID or fills the version-4 template `xxxxxxxx-xxxx-4xxx-yxxx-xxxxxxxxxxxx` from random nibbles.
- **The views the pages compute** from the stores' contents:
  - the folder page's list and the solution page's list (filter, case-insensitive search, newest first);
  - the solution page's not-found check;
  - the home page's per-solution counts;
  - the article card's media badge and tag-stripped 150-character excerpt.
- **The video embed.** The YouTube, Vimeo and Google Drive patterns are written out as matchers plus a leftmost scan, with the rewrite to a player URL. The direct-video test decides between a `<video>` element and an `<iframe>`.
- **The article form** as a class: its initial state, adding and removing image and video links, and the submit that updates the edited article or adds a new one.
- **The REST server:**
  - the SQL text and parameter list of `GET /api/folders` and `GET /api/articles`, checked against how PostgreSQL reads `$k` placeholders (module `Sql`);
  - the all-or-nothing insert of an article with its media in `POST /api/articles`;
  - the `PUT /api/articles/:id` update;
  - the name an upload is stored under, including POSIX `path.extname`, and the upload endpoint's 400/URL answer.

Randomness and the clock are parameters: fresh ids, `now`, the UUID nibbles, `Date.now()` and `Math.random()`. The database is a value (`Server.Tables`). Whether a statement fails is an input (`failAt`, `fails`), because the database decides that and this code does not.

A few behaviours of the code are worth stating outright, because the model follows them as written:

- Nothing guards `id` and `category`: the stores' merge is a plain spread, so a patch that carries them overwrites them (`ArticleStore.MergeIsUnguarded`).
- The article store has no operation by folder, and `deleteFolder` removes folders only and never touches articles.
- `Article` (src/types/article.ts:1-10) declares no `folderId`, yet src/pages/FolderPage.tsx:25 and src/components/FolderCard.tsx:15 read it, and the form creates articles without one. It is modelled as `Option<string>`.

Files, one module each: `seqs.dfy` (generic filter, map and find), `text.dfy` (JavaScript string operations), `entities.dfy`, `article_store.dfy`, `folder_store.dfy`, `article_views.dfy` (the search and the sort both pages share), `folder_page.dfy`, `solution_page.dfy`, `index_page.dfy`, `article_card.dfy`, `video_embed.dfy`, `article_form.dfy`, `sql.dfy` and `server.dfy`.

## Model

| member | source | states |
|---|---|---|
| ArticleStore.Store.constructor | src/stores/articleStore.ts:17 | the store starts empty |
| ArticleStore.Store.AddArticle | src/stores/articleStore.ts:18-26 | when `crypto.randomUUID` yields an id, appends exactly one record at the end with that id, `createdAt` from the first clock reading and `updatedAt` from the second; earlier records unchanged and in order. When the function is missing, the call throws before `set`: nothing is added, and the result says so |
| ArticleStore.NewArticle | src/stores/articleStore.ts:19-24 | the record carries every field of the draft, the fresh id and the two clock readings |
| ArticleStore.Merge | src/stores/articleStore.ts:31 | every field present in the patch wins, every absent field keeps its value, and `updatedAt` is the clock reading; an empty patch only refreshes `updatedAt` |
| ArticleStore.Store.UpdateArticle | src/stores/articleStore.ts:27-35 | the new sequence is `Updated` of the old one |
| ArticleStore.Updated | src/stores/articleStore.ts:27-35 | same length; every record with the id is merged with the patch and gets `updatedAt = now`; every other record is unchanged; an absent id leaves the sequence identical |
| ArticleStore.UpdateKeepsAbsent | src/stores/articleStore.ts:28-34 | updating an absent id leaves it absent, with no error |
| ArticleStore.MergeTitleOnly | src/stores/articleStore.ts:31 | a patch holding only a title changes the title and `updatedAt` and nothing else |
| ArticleStore.MergeIsUnguarded | src/stores/articleStore.ts:31 | a patch carrying `id` or `category` overwrites them: nothing guards those fields |
| ArticleStore.MergeIdempotent | src/stores/articleStore.ts:31 | applying the same patch twice equals applying it once at the later time |
| ArticleStore.Store.DeleteArticle | src/stores/articleStore.ts:36-40 | the new sequence is `Removed` of the old one |
| ArticleStore.Removed | src/stores/articleStore.ts:36-40 | every record with the id is gone, every other record keeps its multiplicity, the rest stay in storage order (a subsequence), and an absent id changes nothing |
| ArticleStore.ByCategory | src/stores/articleStore.ts:41-43 | exactly the records of that category, with their multiplicities, in storage order |
| ArticleStore.Store.GetArticlesByCategory | src/stores/articleStore.ts:41-43 | exactly the stored records of that category; reads the store without changing it |
| ArticleStore.FindById | src/stores/articleStore.ts:44-46 | None exactly when no record has the id; otherwise the record at the first position holding the id |
| ArticleStore.Store.GetArticleById | src/stores/articleStore.ts:44-46 | a stored record with the id, or None exactly when there is none |
| ArticleStore.FindByIdIsFirst | src/stores/articleStore.ts:45 | the record at the first position holding the id is the one found |
| ArticleStore.AddThenFind | src/stores/articleStore.ts:18-26 | after adding under an unused id, looking it up yields a record carrying every field of the draft, the id and both clock readings |
| ArticleStore.UpdateThenFind | src/stores/articleStore.ts:27-35 | looking an id up after updating it yields the merge of what was found before; an absent id stays absent |
| ArticleStore.UpdateFindsMerged | src/stores/articleStore.ts:27-35 | the first record with the id, merged, is the one found after the update |
| FolderStore.Fill | src/stores/folderStore.ts:19-23 | same length as the template; each 'x' becomes a lower-case hex digit, each 'y' one of 8, 9, a, b, and every other character is kept |
| FolderStore.TemplatePlaceholders | src/stores/folderStore.ts:19 | the template has 31 'x'/'y' positions, so the fallback takes 31 draws |
| FolderStore.FallbackUuidShape | src/stores/folderStore.ts:15-24 | the fallback id has 36 characters, '-' at 8, 13, 18 and 23, '4' at 14, one of 8, 9, a, b at 19, and lower-case hex elsewhere |
| FolderStore.Store.constructor | src/stores/folderStore.ts:29 | the store starts empty |
| FolderStore.GenerateUuid | src/stores/folderStore.ts:15-24 | the platform's id when `crypto.randomUUID` exists; otherwise the template filled in: same length, 'x' positions lower-case hex, 'y' positions one of 8, 9, a, b, every other character kept |
| FolderStore.Store.AddFolder | src/stores/folderStore.ts:30-38 | appends exactly one folder whose id is `generateUUID`'s, with `createdAt` from the first clock reading and `updatedAt` from the second; earlier folders unchanged |
| FolderStore.NewFolder | src/stores/folderStore.ts:31-36 | the folder carries the draft's name and category, the id and the two clock readings |
| FolderStore.Merge | src/stores/folderStore.ts:43 | every field present in the patch wins, every absent field keeps its value, and `updatedAt` is the clock reading; an empty patch only refreshes `updatedAt` |
| FolderStore.Store.UpdateFolder | src/stores/folderStore.ts:39-47 | the new sequence is `Updated` of the old one |
| FolderStore.Updated | src/stores/folderStore.ts:39-47 | matching folders are merged and refreshed, the others are unchanged, the length is kept, and an unknown id changes nothing |
| FolderStore.MergeNameOnly | src/stores/folderStore.ts:43 | a patch holding only a name changes the name and `updatedAt` and nothing else |
| FolderStore.Store.DeleteFolder | src/stores/folderStore.ts:48-52 | the new sequence is `Removed` of the old one; only this store is modified, so nothing cascades to articles |
| FolderStore.Removed | src/stores/folderStore.ts:48-52 | only folders with the id go; the rest keep their multiplicities and storage order |
| FolderStore.ByCategory | src/stores/folderStore.ts:53-55 | exactly the folders of that category, with their multiplicities, in storage order |
| FolderStore.Store.GetFoldersByCategory | src/stores/folderStore.ts:53-55 | exactly the stored folders of that category |
| FolderStore.FindById | src/stores/folderStore.ts:56-58 | None exactly when no folder has the id; otherwise the first folder with it |
| FolderStore.Store.GetFolderById | src/stores/folderStore.ts:56-58 | a stored folder with the id, or None exactly when there is none |
| FolderStore.AddThenFind | src/stores/folderStore.ts:30-38 | after adding under an unused id, looking it up yields the new folder with the draft's name and category |
| Seqs.FilterSubsequence | src/stores/articleStore.ts:38 | `filter` only leaves elements out; what it keeps stays in order |
| Text.Lower | src/pages/FolderPage.tsx:28 | same length; each character is lower-cased on its own, and no ASCII capital is left |
| Text.Includes | src/pages/FolderPage.tsx:30-31 | true exactly when the query occurs at some position |
| Text.IncludesEmpty | src/pages/FolderPage.tsx:27 | the empty query is included in every string |
| Text.Trim | src/components/ArticleForm.tsx:30-31 | `trim()` never lengthens, and what it keeps neither starts nor ends with JavaScript whitespace |
| Text.TrimEmptyIffAllWhitespace | src/components/ArticleForm.tsx:30 | `trim()` is empty exactly when every character is JavaScript whitespace |
| Text.TrimIsSlice | src/components/ArticleForm.tsx:31 | what `trim()` keeps is the contiguous slice of the input that starts where the leading whitespace ends |
| Text.TrimIdempotent | src/components/ArticleForm.tsx:31 | trimming twice equals trimming once |
| ArticleViews.Search | src/pages/FolderPage.tsx:27-33 | an empty query filters nothing; otherwise exactly the articles whose lower-cased title or content contains the lower-cased query, with their multiplicities |
| ArticleViews.EmptyQueryMatchesAll | src/pages/FolderPage.tsx:27 | skipping the search for an empty query gives what the filter would give |
| ArticleViews.Insert | src/pages/FolderPage.tsx:35-37 | inserting into a newest-first list keeps it newest first and adds exactly one element |
| ArticleViews.SortByRecency | src/pages/FolderPage.tsx:35-37 | the result is ordered by non-increasing `updatedAt` and is a permutation of the input |
| ArticleViews.InsertStable | src/pages/FolderPage.tsx:35-37 | an insert places an article in front of those with the same `updatedAt` and leaves their order alone |
| ArticleViews.SortStable | src/pages/FolderPage.tsx:35-37 | among articles with equal `updatedAt`, the sort keeps storage order |
| ArticleViews.PageListing | src/pages/FolderPage.tsx:25-37 | exactly the kept articles matching the search, with their multiplicities, newest first |
| FolderPage.FolderArticles | src/pages/FolderPage.tsx:22-38 | empty when the route has no folder id; every result is in the route's folder; a permutation of the articles passing both filters; newest first |
| FolderPage.FolderArticlesStable | src/pages/FolderPage.tsx:35-37 | ties in `updatedAt` appear in the store's order |
| SolutionPage.RouteCategory | src/pages/SolutionPage.tsx:40 | a category exactly for the routes `pabx` and `omni`, and the one spelled by the route |
| SolutionPage.CategoryArticles | src/pages/SolutionPage.tsx:17-31 | every result has the route's category; a permutation of the articles passing both filters; newest first |
| SolutionPage.SolutionView | src/pages/SolutionPage.tsx:40-42 | not found exactly for a route other than `pabx` and `omni`; otherwise a listing whose articles all have the route's category |
| SolutionPage.CategoryArticlesStable | src/pages/SolutionPage.tsx:28-30 | ties in `updatedAt` appear in the store's order |
| IndexPage.CategoryCount | src/pages/Index.tsx:9-10 | the count is the length of `getArticlesByCategory` for that category, and at most the total |
| IndexPage.PabxCount | src/pages/Index.tsx:9 | the number of PABX articles: the length of the store's category filter for PABX |
| IndexPage.OmniCount | src/pages/Index.tsx:10 | the number of Omni articles: the length of the store's category filter for Omni |
| IndexPage.CountsPartition | src/pages/Index.tsx:9-10 | `pabxCount + omniCount` is the number of articles |
| ArticleCard.HasMedia | src/components/ArticleCard.tsx:13 | true exactly when the article has an image or a video |
| ArticleCard.FirstClose | src/components/ArticleCard.tsx:34 | the position of the first '>', or None exactly when there is none |
| ArticleCard.StripTags | src/components/ArticleCard.tsx:34 | stripping never lengthens the content |
| ArticleCard.StripTagsKeepsText | src/components/ArticleCard.tsx:34 | text before any '<' is kept unchanged, ahead of what the rest strips to |
| ArticleCard.StripTagsDropsTag | src/components/ArticleCard.tsx:34 | a tag, from '<' to the first '>', is dropped whole and the text after it is stripped on |
| ArticleCard.StripParagraph | src/components/ArticleCard.tsx:34 | `<p>Hi</p>` strips to `Hi` |
| ArticleCard.StripTagsKeepsChars | src/components/ArticleCard.tsx:34 | every character left was in the content |
| ArticleCard.StripTagsLeavesNoTag | src/components/ArticleCard.tsx:34 | no remaining '<' has a '>' anywhere after it |
| ArticleCard.StripTagsWithoutOpen | src/components/ArticleCard.tsx:34 | content without '<' is left as it is |
| ArticleCard.Excerpt | src/components/ArticleCard.tsx:34 | the first min(150, length) characters of the stripped content, then "..." |
| VideoEmbed.Run | src/components/VideoEmbed.tsx:19-25 | the greedy `+`/`*` run: a slice of matching characters that cannot be extended |
| VideoEmbed.RunIs | src/components/VideoEmbed.tsx:19-25 | a run of matching characters followed by a non-matching one or the end is the greedy run |
| VideoEmbed.Scan | src/components/VideoEmbed.tsx:11-13 | `match` on an unanchored pattern: None exactly when no position matches, otherwise the match at the leftmost matching position |
| VideoEmbed.ScanFindsFirst | src/components/VideoEmbed.tsx:11-13 | a match with nothing matching before it is the result |
| VideoEmbed.YouTubeAt | src/components/VideoEmbed.tsx:12 | matches exactly when one of the four prefixes is followed by 11 id characters; the capture is those 11 characters |
| VideoEmbed.YouTubeId | src/components/VideoEmbed.tsx:11-13 | None exactly when the pattern matches nowhere; otherwise an 11-character id of id characters |
| VideoEmbed.YouTubeCapture | src/components/VideoEmbed.tsx:12 | the capture of one alternative is the 11 id characters after its prefix |
| VideoEmbed.VimeoAt | src/components/VideoEmbed.tsx:19 | matches exactly when `vimeo.com/` is followed by a digit; the capture is the maximal digit run |
| VideoEmbed.VimeoId | src/components/VideoEmbed.tsx:19-20 | None exactly when the pattern matches nowhere; otherwise a non-empty run of digits |
| VideoEmbed.DriveAt | src/components/VideoEmbed.tsx:25 | matches exactly when `drive.google.com/file/d/` is followed by an id character; the capture is the maximal id run |
| VideoEmbed.DriveId | src/components/VideoEmbed.tsx:25-26 | None exactly when the pattern matches nowhere; otherwise a non-empty run of id characters |
| VideoEmbed.EmbedUrl | src/components/VideoEmbed.tsx:9-32 | YouTube wins over Vimeo and Vimeo over Drive; a recognised link becomes that service's player URL around its id, and any other URL is returned unchanged; `EmbedUrlIdempotent` proves the result a fixed point |
| VideoEmbed.NoMatchAt | src/components/VideoEmbed.tsx:11-25 | no pattern matches where neither "yo", "vi" nor "dr" starts |
| VideoEmbed.YouTubeMatchesId | src/components/VideoEmbed.tsx:12-15 | inside a YouTube embed URL the pattern captures the same id |
| VideoEmbed.YouTubeOutputIsFixed | src/components/VideoEmbed.tsx:14-16 | a YouTube embed URL rewrites to itself |
| VideoEmbed.VimeoPlayerNoMatch | src/components/VideoEmbed.tsx:19-21 | no pattern matches inside the Vimeo player prefix |
| VideoEmbed.VimeoOutputIsFixed | src/components/VideoEmbed.tsx:19-22 | a Vimeo player URL matches no pattern, so it rewrites to itself |
| VideoEmbed.DriveTailNoMatch | src/components/VideoEmbed.tsx:25-27 | no pattern matches after the Drive prefix |
| VideoEmbed.DriveHeadNoMatch | src/components/VideoEmbed.tsx:25-27 | inside the Drive prefix no YouTube or Vimeo match starts, and no Drive match starts before "drive" |
| VideoEmbed.DriveMatchesId | src/components/VideoEmbed.tsx:25-27 | in a Drive preview URL the pattern captures the same id, stopping at "/preview" |
| VideoEmbed.DriveOutputNotYouTubeOrVimeo | src/components/VideoEmbed.tsx:11-27 | a Drive preview URL matches neither the YouTube nor the Vimeo pattern |
| VideoEmbed.DriveOutputDriveId | src/components/VideoEmbed.tsx:25-27 | a Drive preview URL yields its own id |
| VideoEmbed.DriveOutputIsFixed | src/components/VideoEmbed.tsx:25-31 | a Drive preview URL rewrites to itself |
| VideoEmbed.EmbedUrlIdempotent | src/components/VideoEmbed.tsx:9-32 | rewriting twice equals rewriting once |
| VideoEmbed.DirectFrom | src/components/VideoEmbed.tsx:34 | true exactly when the pattern matches at some position from the start index on |
| VideoEmbed.IsDirectVideo | src/components/VideoEmbed.tsx:34 | true exactly when, with case folded, `.mp4`, `.webm` or `.ogg` occurs followed by '?' or the end |
| VideoEmbed.DirectAtHead | src/components/VideoEmbed.tsx:34 | a match starts with '.' followed by 'm', 'w' or 'o' |
| VideoEmbed.EndsWithExtensionIsDirect | src/components/VideoEmbed.tsx:34 | a URL ending in one of the extensions, in any case, is a direct video |
| VideoEmbed.ExtensionBeforeQueryIsDirect | src/components/VideoEmbed.tsx:34 | so is one where the extension is followed by a query string |
| VideoEmbed.NoDotIsNotDirect | src/components/VideoEmbed.tsx:34 | a URL without '.' is never a direct video |
| VideoEmbed.NotDirectAt | src/components/VideoEmbed.tsx:34 | no match starts at a non-dot, or at a dot followed by a letter other than m, w and o |
| VideoEmbed.YouTubeOutputNotDirect | src/components/VideoEmbed.tsx:15 | the YouTube player URL is not a direct video |
| VideoEmbed.VimeoOutputNotDirect | src/components/VideoEmbed.tsx:21 | the Vimeo player URL is not a direct video |
| VideoEmbed.DriveOutputNotDirect | src/components/VideoEmbed.tsx:27 | the Drive preview URL is not a direct video |
| VideoEmbed.Render | src/components/VideoEmbed.tsx:34-59 | plays the rewritten URL, in a `<video>` exactly when it is a direct video |
| VideoEmbed.RecognisedLinkPlaysInFrame | src/components/VideoEmbed.tsx:14-59 | a recognised YouTube, Vimeo or Drive link always plays in a frame |
| VideoEmbed.UnrecognisedLinkPlaysAsIs | src/components/VideoEmbed.tsx:30-59 | an unrecognised link is played unchanged, as a video exactly when it is a direct video |
| ArticleForm.AddEntry | src/components/ArticleForm.tsx:29-34 | appends the trimmed input and clears it exactly when the trimmed input is non-empty; otherwise list and input are unchanged |
| ArticleForm.AddedEntryIsTrimmed | src/components/ArticleForm.tsx:30-31 | an added entry is non-empty and has no surrounding whitespace |
| ArticleForm.RemoveAt | src/components/ArticleForm.tsx:43-49 | the list without position `index`, the rest in order; an out-of-range index leaves it unchanged |
| ArticleForm.RemoveUndoesAdd | src/components/ArticleForm.tsx:29-45 | removing an added entry by the index it got restores the list |
| ArticleForm.EditPatch | src/components/ArticleForm.tsx:55 | the patch holds exactly title, content, images and videos; every other field is absent |
| ArticleForm.EditKeepsIdentity | src/components/ArticleForm.tsx:55 | the edit patch changes exactly title, content, images, videos and `updatedAt`; id, folder, category and `createdAt` stay |
| ArticleForm.NewDraft | src/components/ArticleForm.tsx:57 | the draft has the form's four fields, the form's category and no folder |
| ArticleForm.Form.constructor | src/components/ArticleForm.tsx:22-27 | the initial state copies the edited article's fields, or starts from empty strings and lists |
| ArticleForm.Form.AddImage | src/components/ArticleForm.tsx:29-34 | `handleAddImage` follows `AddEntry` on the images and their input; the other fields are unchanged |
| ArticleForm.Form.AddVideo | src/components/ArticleForm.tsx:36-41 | the same for the videos and their input |
| ArticleForm.Form.RemoveImage | src/components/ArticleForm.tsx:43-45 | the images become `RemoveAt(images, index)`; nothing else changes |
| ArticleForm.Form.RemoveVideo | src/components/ArticleForm.tsx:47-49 | the videos become `RemoveAt(videos, index)`; nothing else changes |
| ArticleForm.Form.Submit | src/components/ArticleForm.tsx:51-61 | called only with a non-empty title and content, as the `required` inputs (lines 72 and 84) enforce; an edit updates the article with exactly the four edited fields; a new article is appended with the form's category and no folder when `crypto.randomUUID` yields an id; without one the store is unchanged and there is no navigation; otherwise the route is `/solucao/<category>` |
| ArticleForm.SubmitNewThenFind | src/components/ArticleForm.tsx:57 | after submitting a new article, the store finds it with the form's contents, the form's category and no folder |
| ArticleForm.SubmitEditThenFind | src/components/ArticleForm.tsx:55 | after submitting an edit, the store finds the article with the new contents and its own id, folder, category and `createdAt` |
| Text.DecimalRoundTrip | server/src/index.ts:98 | the decimal text of a number reads back as that number |
| Sql.LeadingDigits | server/src/index.ts:98 | the maximal run of digits at the start of the text |
| Sql.LeadingDigitsIs | server/src/index.ts:98 | a digit run that cannot be extended is the leading-digit run |
| Sql.PlaceholdersAppend | server/src/index.ts:107 | appending text that does not start with a digit keeps the placeholders of both parts, in order |
| Sql.NoDollarNoPlaceholder | server/src/index.ts:86-93 | text without `$` refers to no parameter |
| Sql.PlaceholderOf | server/src/index.ts:98 | `$k` refers to parameter k |
| Sql.SurroundedPlaceholders | server/src/index.ts:106-110 | text without `$` around a part adds no parameter |
| Sql.Numbering | server/src/index.ts:98 | the numbers start, start + 1, ... |
| Sql.Join | server/src/index.ts:107 | `join` starts with the first part |
| Server.CategoryFilter | server/src/index.ts:43-46 | one filter exactly when the category is truthy |
| Server.FoldersWhereIsCondition | server/src/index.ts:44 | ` WHERE category = $1` is the WHERE clause of the one category condition |
| Server.FoldersQuery | server/src/index.ts:40-48 | `SELECT * FROM folders`, then ` WHERE category = $1` exactly when a category is given, then ` ORDER BY name ASC`; params is `[category]` or `[]`; the placeholders are 1..params length |
| Server.ActiveFilters | server/src/index.ts:97-104 | one filter per truthy query value, the folder before the category |
| Server.Conditions | server/src/index.ts:97-104 | the i-th condition tests the i-th filter's column against `$(start + i)` |
| Server.Values | server/src/index.ts:97-104 | the i-th parameter is the i-th filter's value |
| Server.ConditionPlaceholders | server/src/index.ts:98-102 | a condition refers to exactly its own parameter |
| Server.JoinedConditionsPlaceholders | server/src/index.ts:107 | the joined conditions refer to parameters start, start + 1, ... in order |
| Server.WhereClausePlaceholders | server/src/index.ts:106-108 | the WHERE clause refers to parameters 1..n, one per filter |
| Server.FilteredQueryPlaceholders | server/src/index.ts:86-110 | a query whose fixed parts have no `$` refers to parameters 1..n, one per filter |
| Server.ArticlesQueryParts | server/src/index.ts:86-110 | the SELECT and the GROUP BY/ORDER BY texts of the article query refer to no parameter |
| Server.ArticlesSqlPlaceholders | server/src/index.ts:86-110 | the whole article query refers to parameters 1..n, one per filter |
| Server.ArticlesOrderIsNotWhere | server/src/index.ts:110 | the trailing GROUP BY/ORDER BY does not start like a WHERE |
| Server.WhereIffFiltered | server/src/index.ts:106-108 | a WHERE follows the SELECT exactly when there is a filter |
| Server.FilteredQueryParts | server/src/index.ts:106-110 | the query is the SELECT, the WHERE clause and the ORDER BY, end to end |
| Server.FilteredQueryShape | server/src/index.ts:106-110 | starts with the SELECT, ends with the ORDER BY, and has a WHERE exactly when there is a filter |
| Server.ArticlesWhereIffFiltered | server/src/index.ts:106-110 | ` WHERE ` is present exactly when a folder id or category is given; the query always ends with ` GROUP BY a.id ORDER BY a.created_at DESC` |
| Server.CollectFilters | server/src/index.ts:94-104 | the two `if`s build the conditions numbered from 1 and their values |
| Server.AppendWhere | server/src/index.ts:106-108 | adds ` WHERE ` and the conditions joined by ` AND ` exactly when there is a condition |
| Server.ArticlesQuery | server/src/index.ts:85-112 | the handler's SQL is the article query for the active filters; the placeholders are 1..params length |
| Server.ConditionBindsItsValue | server/src/index.ts:97-104 | the k-th condition uses `$k`, and `$k` is bound to `params[k-1]` |
| Server.BothFiltersOrder | server/src/index.ts:97-104 | with both filters, the folder condition is `$1` and the category condition `$2` |
| Server.NewRow | server/src/index.ts:126-130 | the inserted row carries the body's folder, title, content and category (NULL where missing), and the new id; both stamps are one `now`, under the assumed column defaults (see Left out) |
| Server.MediaRows | server/src/index.ts:132-142 | one row per url for the article, in the order the INSERT statements run |
| Server.StatementCount | server/src/index.ts:123-144 | BEGIN, the article insert and COMMIT, plus one insert per image and per video |
| Server.Committed | server/src/index.ts:126-144 | the committed tables: the old rows, then the new article row, then one media row per url |
| Server.InsertMedia | server/src/index.ts:132-142 | one insert per url in order; it fails exactly when a statement in its range fails; otherwise it appends the rows for all urls |
| Server.CreateArticle | server/src/index.ts:120-157 | fails exactly when a statement from BEGIN to COMMIT fails, and then every table is unchanged; otherwise the article row and one row per image and per video are committed together, and the response echoes the media, or `[]` when absent |
| Server.MediaOfRows | server/src/index.ts:132-142 | the media rows of an article, taken in insertion order, give back its urls |
| Server.MediaOfAppended | server/src/index.ts:132-142 | rows appended for a new id are all the media of that id |
| Server.CommittedMediaAreTheRequest | server/src/index.ts:123-149 | after a commit, the new article's image rows and video rows hold exactly the request's urls, one row per url and duplicates included, in the order the INSERT statements ran |
| Server.UpdatedRows | server/src/index.ts:166-169 | the row with the id gets the new title, content and `updated_at`; the others are unchanged |
| Server.Put | server/src/index.ts:159-175 | a failure changes nothing and answers 500; otherwise the update is applied, a title or content missing from the body setting that column to NULL, and the response has no row exactly when no row has the id |
| Server.PutChangesOnlyText | server/src/index.ts:165-168 | only title, content and `updated_at` change; folder, category, creation time and the media tables stay |
| Server.PutReturnsUpdatedRow | server/src/index.ts:166-170 | the returned row has the id, the new title and content (NULL when missing from the body), and the new `updated_at` |
| Server.ContentEnd | server/src/index.ts:29 | trailing '/' characters are cut off |
| Server.ComponentStart | server/src/index.ts:29 | the last path component starts after the last '/' |
| Server.LastDot | server/src/index.ts:29 | the last '.' in the component, or None exactly when it has none |
| Server.ExtName | server/src/index.ts:29 | `path.extname` is empty or a '.' followed by characters other than '.' and '/' |
| Server.ExtNameOfPlainName | server/src/index.ts:29 | `a.png` has extension `.png` |
| Server.ExtNameOfDoubleExtension | server/src/index.ts:29 | `a.b.gz` has extension `.gz` |
| Server.ExtNameOfDotFile | server/src/index.ts:29 | `.rc` has no extension |
| Server.ExtNameOfDirectory | server/src/index.ts:29 | `x.d/a.b/` has extension `.b` |
| Server.ExtNameOfParent | server/src/index.ts:29 | `..` has no extension |
| Server.StemThenExtension | server/src/index.ts:28-29 | a stem without '/' or '.' followed by an extension has that extension |
| Server.StoredName | server/src/index.ts:28-29 | the name starts with the decimal clock and '-', and ends with the upload's extension |
| Server.StoredNameKeepsExtension | server/src/index.ts:27-30 | the stored name `<Date.now()>-<random>` keeps the uploaded file's extension |
| Server.Upload | server/src/index.ts:189-197 | 400 exactly when no file was sent; otherwise the URL is `<protocol>://<host>/uploads/` followed by a name with the original extension |

## Left out

- Persistence: zustand's `persist` to localStorage, and the `Date` values that come back from it as strings, are not modelled. The stores are their in-memory sequences.
- Text.Lower: `toLowerCase` is modelled for the ASCII letters only, so `ArticleViews.Search` and the listings built on it (`ArticleViews.PageListing`, `FolderPage.FolderArticles`, `SolutionPage.CategoryArticles`) miss matches that differ only in the case of a non-ASCII letter, such as the query "ação" against the title "AÇÃO". The `i` flag of the direct-video pattern folds ASCII case only, which the model matches. `trim` is modelled exactly.
- Server.NewRow: the table schema is not part of this model. The insert at server/src/index.ts:126-130 names neither `created_at` nor `updated_at`, so both stamps are assumed to come from column defaults of `NOW()`, which PostgreSQL evaluates once per transaction; the model therefore gives both stamps the same `now`.
- Patches are modelled with one optional slot per field. An explicit `undefined` value inside a patch, which the spread would copy, is not modelled.
- Rendering, routing and navigation are not modelled. That covers the JSX, the dates formatted with date-fns, the folder page's "not found" branch for an unknown folder, and `navigate`. `Submit` returns the route it navigates to.
- The sort's comparator subtracts `getTime()` values. Invalid dates, which give `NaN`, are not modelled: timestamps are integers.
- Express, CORS, static serving, multer's disk storage and `fs.mkdirSync` are not modelled. Nor are the pg pool in `server/src/db.ts` and the async flow of requests.
- `POST /api/folders`, `DELETE /api/folders/:id` and `DELETE /api/articles/:id` are not modelled. Each is one fixed statement with no logic of its own.
- The database is a value, and whether a statement fails is an input. Ids made by `gen_random_uuid()` are an input `articleId`. Media row ids are not modelled.
- Server.CreateArticle: a failure of `getClient()` before BEGIN, and a failure of ROLLBACK itself, are not modelled.
- Server.FoldersQuery and Server.ArticlesQuery: query-string values are strings or absent. Arrays and objects that Express can also produce are not modelled.
- Server.CreateArticle: `images` and `videos` are lists or absent. Other JSON values in the body are not modelled.
- Server.ExtName: only the POSIX rules of `path.extname` are modelled, not the Windows ones.
- Clock and randomness are parameters: `crypto.randomUUID`, `Math.random`, `Date.now`, `new Date()` and `NOW()`. Each `new Date()` call is its own parameter. Whether `crypto.randomUUID` exists is an input too: `Native` or `Fallback` in the folder store, and a present or missing id in the article store, which has no fallback.
- ArticleCard.Excerpt: cuts at 150 characters counted as code points. `substring(0, 150)` counts UTF-16 code units, so for content with characters outside the Basic Multilingual Plane, such as emoji, the real excerpt is shorter and can split a surrogate pair.
- Server.CommittedMediaAreTheRequest: the tables are sequences that record insertion order, which PostgreSQL tables do not keep. The read path of `GET /api/articles` aggregates media with `json_agg(DISTINCT ...)`, which drops duplicate urls and does not keep their order. That aggregation is not modelled: the model promises the rows the POST inserts, not the lists a later GET returns.
- Server.Put: only missing fields are modelled, as NULL. Title or content values of another JSON type are not modelled, and the table's constraints are the database's: a rejected statement is the `fails` input.
