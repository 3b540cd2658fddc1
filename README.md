# A verified model of a Next.js publishing site's logic

The site publishes articles in two sections, Esoteriment and Lifeward, along with videos and books. It lets readers like pages and leave threaded comments. The author can heart a comment, and an admin can delete comments.

This project models the sequential logic underneath the rendering:

- **The storage layer.** `lib/storage.ts` has three parts:
  - a file backend holding a like map and a comment list;
  - a PostgreSQL backend with a one-shot, memoised initialisation;
  - a manager that re-probes the database on every call and falls back to the file.
- **The engagement API routes.** These are likes, comments, replies, the author heart and the admin delete. Each reads and rewrites its own JSON file.
- **The content scripts.** These cover `slugify`, `extractDescription`, the two frontmatter writers, the per-file validation rules, the frontmatter sync and the target path of a new file.
- **Listing, search and selection.** This covers slug listing and date ordering of MDX content, the search filter, related-article selection, the category filter and the author check.
- **The RSS feeds, the sitemap and the page metadata.**
- **The contact and subscribe validators.**
- **Four client components:**
  - the video carousel;
  - the like button;
  - the comments list;
  - the admin dashboard.

How each kind of source becomes a model:

- **State that changes becomes a class with `modifies` clauses.** This covers the storage backends and the manager, each route's JSON file (`Records.Document`), the carousel, the like button, the comments list and the dashboard.
- **Loops become methods with loop invariants.** These are the database upsert and insert loops, the frontmatter line pushes, the validation loop, the sync loop and `getAllArticles`.
- **Expression code becomes functions with lemmas.**

Failures are modelled as inputs:

- **Database failures.** `answered` is the number of queries the server answers before one fails. The environment is modelled as three booleans: the URL is set, the driver imports, and the schema can be created.
- **Write failures.** A `writable` flag says whether writes succeed.
- **Failed HTTP calls.** On the client, a fetch that throws is modelled as `None`.

Every HTTP answer is a `Response` value. It is either `Json(status, payload)` or `Error(status, message)`. `Unhandled` stands for Next's default 500 page when an exception escapes a handler.

Two backend behaviours are worth stating up front:

- **Both stores can get the write.** If a database query fails partway through a save, the manager writes the whole argument to the file store. The rows already written to the database stay there. So in that case both stores receive the data.
- **The file backend is always available.** Its reads fall back to the empty value.

Several consequences that cut across files are proved:

- **Nested replies are never listed.** The reply route nests a reply inside its parent's `replies`. The listing rebuilds `replies` only from flat entries. So a reply posted through the reply route is never listed as a thread or as a direct reply of one (`ReplyRoute.NestedReplyNeverListed`). It could only surface one level deeper, inside a flat reply's own `replies`, and no route writes flat replies.
- **The "Continue Reading" fallback can never render.** Every same-section article already counts as related (`RelatedArticles.FallbackNeverRendered`).
- **Like keys collide.** The key is `type + "-" + id`, so a '-' inside the type or the id lets two pieces of content share a counter (`LikesRoute.LikeKeyCollides`).
- **The admin link for a Lifeward article is wrong.** It points into the Esoteriment section (`AdminDashboard.ArticleLinks`).
- **The two frontmatter writers disagree on a zero price.** The content manager writes a price of 0; the content generator's template drops it (`ContentGenerator.PriceZeroDiffers`).

Three behaviours of the code worth knowing, which the model follows:

- **Replies.** The reply route nests the reply in its parent. It does not add two flat entries.
- **The comment file path.** The comment routes always use `data/comments.json`, on Vercel too. Only the likes route and the comment-heart route switch to `/tmp` there.
- **The manager "never writes to both" stores.** That holds only when the database write succeeds or the database is down, as explained above.

## Model

| member | source | states |
|---|---|---|
| Records.ReadOr | lib/storage.ts:58-69 | a stored document is returned as it is; a missing or unreadable one gives the empty value |
| Records.Document.constructor | app/api/likes/route.ts:6-8 | a route's JSON file with its write permission and the empty value it is created with |
| Records.Document.Load | app/api/likes/route.ts:19-34 | a missing file is first created holding the empty value; the read then gives the stored value or the empty one; when creating the file fails the error propagates and nothing changes |
| Records.Document.Save | app/api/likes/route.ts:36-39 | the file is overwritten with exactly the argument when writes succeed; otherwise it is unchanged and the failure is reported |
| Storage.RowRoundTrip | lib/storage.ts:226-240 | a record read back from its row equals it exactly when it has no nested replies, an explicit `authorLiked` and a truthy or absent parent id; whatever the record, id, text, date and place survive |
| Storage.RowsOf | lib/storage.ts:260-274 | one row per comment, in order, with `parentId \|\| null` and `authorLiked \|\| false` |
| Storage.RecordsOf | lib/storage.ts:231-240 | one record per row, in order |
| Storage.DbListing | lib/storage.ts:226-240 | the listing is a permutation of the stored records, newest first |
| Storage.DbRoundTrip | lib/storage.ts:252-279 | comments that can be stored come back from the table unchanged, and the listing holds exactly them |
| Storage.DbDropsNestedReplies | lib/storage.ts:231-240 | no record read from the table has nested replies |
| Storage.DistinctPrefix | lib/storage.ts:260-274 | the longest prefix of the comments with no repeated id; the next comment repeats an id of that prefix, so its insert violates the primary key |
| Storage.UniqueIdsPrefix | lib/storage.ts:260-274 | all ids are distinct exactly when the distinct prefix is the whole list |
| Storage.UpsertMeaning | lib/storage.ts:206-213 | after the upserts, each upserted key holds its given count and every other row keeps its count |
| Storage.UpsertStep | lib/storage.ts:206-213 | one more upsert sets one more key |
| Storage.FileSystemStorage.constructor | lib/storage.ts:40-52 | the backend over the likes file and the comments file |
| Storage.FileSystemStorage.IsAvailable | lib/storage.ts:54-56 | the file backend is always available |
| Storage.FileSystemStorage.GetLikes | lib/storage.ts:58-69 | the stored like map, or {} when the file is missing or unreadable |
| Storage.FileSystemStorage.SaveLikes | lib/storage.ts:71-78 | the whole file is overwritten with exactly the argument; a write error is thrown and leaves the file as it was |
| Storage.FileSystemStorage.GetComments | lib/storage.ts:80-91 | the stored comment list, or [] when the file is missing or unreadable |
| Storage.FileSystemStorage.SaveComments | lib/storage.ts:93-100 | the whole file is overwritten with exactly the argument; a write error is thrown and leaves the file as it was |
| Storage.DatabaseStorage.constructor | lib/storage.ts:109-111 | a backend not yet initialised, over the given environment and tables |
| Storage.DatabaseStorage.Initialize | lib/storage.ts:113-172 | the body runs at most once (the ghost run count stays at most 1); a second call changes nothing; after it, `initialized` holds exactly when the URL is set, the driver imports and the tables can be created, and a failure is never retried |
| Storage.DatabaseStorage.IsAvailable | lib/storage.ts:174-177 | available exactly when initialisation succeeded in this environment |
| Storage.DatabaseStorage.GetLikes | lib/storage.ts:179-197 | "Database not available" without a query when down; the whole table when the query is answered; the query error otherwise |
| Storage.DatabaseStorage.SaveLikes | lib/storage.ts:199-218 | when down it throws without touching the table; it succeeds exactly when every upsert is answered, and then each given key holds its count and the other keys keep theirs; the upserts follow the order of the map's entries, and a failed upsert leaves exactly the entries before it applied |
| Storage.DatabaseStorage.UpsertEach | lib/storage.ts:206-213 | the upsert loop over the entries in order: each answered query upserts the next entry's key; the first unanswered one stops the loop and is thrown, leaving the first `answered` entries applied |
| Storage.DatabaseStorage.GetComments | lib/storage.ts:220-245 | "Database not available" when down; the listing newest first when the query is answered; the query error otherwise |
| Storage.DatabaseStorage.SaveComments | lib/storage.ts:247-280 | when down it throws and leaves the table; otherwise it deletes every row and then inserts the comments in order; the table ends as the rows of the inserted prefix, which stops at the first unanswered query or repeated id; it succeeds exactly when every query is answered and all ids are distinct |
| Storage.DatabaseStorage.InsertEach | lib/storage.ts:260-274 | the insert loop: the table is the rows of the prefix inserted before the first failure, and the failure is thrown |
| Storage.StorageManager.constructor | lib/storage.ts:289-292 | a manager over both backends, not yet using the database |
| Storage.StorageManager.CheckDatabase | lib/storage.ts:294-303 | the probe: `useDatabase` is set to whether the database is available |
| Storage.StorageManager.GetLikes | lib/storage.ts:305-316 | the database counts when it is up and answers; otherwise the file's, with {} for a missing file |
| Storage.StorageManager.SaveLikes | lib/storage.ts:318-329 | a successful database write leaves the file untouched; when the probe fails or a query fails, the file receives the whole argument, and only a file failure reaches the caller; when the database is down its table is untouched; after a failed upsert the table holds the entries before it |
| Storage.StorageManager.GetComments | lib/storage.ts:331-342 | the database listing when it is up and answers; otherwise the file's comments, with [] for a missing file |
| Storage.StorageManager.SaveComments | lib/storage.ts:344-355 | a successful database write leaves the file untouched; otherwise the file receives the whole argument, and only a file failure reaches the caller; after a partial database write the table holds the rows of the inserted prefix |
| LikesRoute.LikeKey | app/api/likes/route.ts:51 | the key is the type, a '-' and the id |
| LikesRoute.LikeKeyCollides | app/api/likes/route.ts:71 | two different (type, id) pairs can share one key |
| LikesRoute.CountOf | app/api/likes/route.ts:52 | the stored count, or 0 for an absent key |
| LikesRoute.Step | app/api/likes/route.ts:74 | "like" adds one; "unlike" subtracts one but never goes below zero, so unlike at 0 stays 0 |
| LikesRoute.Apply | app/api/likes/route.ts:70-75 | only the targeted key changes, to its new count |
| LikesRoute.LikeThenUnlike | app/api/likes/route.ts:74 | a like followed by an unlike restores any non-negative count; the whole map is restored when the key was stored |
| LikesRoute.CountsStayNonNegative | app/api/likes/route.ts:74 | no sequence of accepted actions makes a non-negative count negative |
| LikesRoute.Get | app/api/likes/route.ts:41-55 | 400 without type or id; otherwise the stored count or 0; a missing file is created as {} |
| LikesRoute.Post | app/api/likes/route.ts:57-82 | 400 and nothing written for a missing field or an unknown action; otherwise the new map is saved and its count of the key returned; a failure answers 500 and saves nothing |
| CommentsRoute.TopLevel | app/api/comments/route.ts:61-62 | exactly the stored comments of the content with a falsy `parentId` |
| CommentsRoute.Assembled | app/api/comments/route.ts:64-71 | one entry per top-level comment, its `replies` replaced by the rebuilt flat replies |
| CommentsRoute.Listing | app/api/comments/route.ts:76 | one public entry per thread |
| CommentsRoute.AssembledComplete | app/api/comments/route.ts:61-71 | every stored top-level comment has its entry |
| CommentsRoute.AssembledSound | app/api/comments/route.ts:61-71 | every entry comes from a stored top-level comment |
| CommentsRoute.ThreadsCharacterised | app/api/comments/route.ts:61-73 | the threads are exactly the top-level comments with their replies rebuilt, one per comment, newest first |
| CommentsRoute.RepliesCharacterised | app/api/comments/route.ts:65-71 | an entry's replies are exactly the stored flat replies to it on the same content, oldest first |
| CommentsRoute.ListingIsPublicThreads | app/api/comments/route.ts:76 | each listed entry drops type, content id and parent id of its thread and keeps the rest; nested replies keep all their fields |
| CommentsRoute.Rejection | app/api/comments/route.ts:86-104 | a request is accepted exactly when all fields are present, the trimmed author has at least 2 characters and the trimmed content 3 to 1000; a missing field is reported first |
| CommentsRoute.NewComment | app/api/comments/route.ts:107-116 | the new record has the drawn id and time, trimmed author and content, no parent, `authorLiked` false and no replies |
| CommentsRoute.PostedCommentListed | app/api/comments/route.ts:62-118 | a newly posted comment is a top-level entry of the next listing of its content |
| CommentsRoute.Get | app/api/comments/route.ts:50-79 | 400 without type or id; otherwise the listing of the stored comments; a missing file is created as [] |
| CommentsRoute.Post | app/api/comments/route.ts:81-129 | a rejected request answers 400 and writes nothing; an accepted one appends exactly the new record at the end and answers 201 with its public view; a failure answers 500 and writes nothing |
| ReplyRoute.Rejection | app/api/comments/reply/route.ts:54-71 | a reply is accepted exactly when all five fields are present and the trimmed content has 3 to 500 characters |
| ReplyRoute.RejectionIgnoresAuthor | app/api/comments/reply/route.ts:59-71 | the author's length is not checked: any non-empty author gives the same verdict |
| ReplyRoute.NewReply | app/api/comments/reply/route.ts:82-90 | the reply carries `parentId` = commentId, trimmed author and content, the request's type and content id, and neither a heart nor replies |
| ReplyRoute.FindById | app/api/comments/reply/route.ts:76-79 | the first comment with the id, by id alone, ignoring type and content id; none exactly when no comment has it |
| ReplyRoute.Nested | app/api/comments/reply/route.ts:93-96 | the parent with the reply pushed at the end of its replies, a missing list counting as empty; nothing else changes |
| ReplyRoute.Attach | app/api/comments/reply/route.ts:92-101 | the saved list has the same length and id order; entries without the parent's id are unchanged; the parent gets the reply nested |
| ReplyRoute.ReplyNotFlat | app/api/comments/reply/route.ts:92-103 | the reply is not added as a flat entry |
| ReplyRoute.NestedReplyNeverListed | app/api/comments/route.ts:64-71 | after a reply is nested, no thread of any listing is the reply or holds it as a direct reply |
| ReplyRoute.Post | app/api/comments/reply/route.ts:49-113 | 400 for a rejected request; 404 and nothing saved when the parent is missing; otherwise the list with the reply nested is saved and the reply answered with 201 without type, content id and parent id; a failure answers 500 |
| CommentLikeRoute.Flip | app/api/comments/like/route.ts:63-71 | the flag is negated, an absent one counting as false; nothing else changes |
| CommentLikeRoute.Toggled | app/api/comments/like/route.ts:63-71 | entries whose id, type and content id all match are flipped; all others are unchanged; length and order are kept |
| CommentLikeRoute.ToggleTwice | app/api/comments/like/route.ts:63-71 | toggling twice restores every flag, an absent one as false; the list comes back exactly when every target had a flag |
| CommentLikeRoute.Answer | app/api/comments/like/route.ts:75-82 | the response's flag is true exactly when the first targeted entry of the saved list is liked; false when nothing matched |
| CommentLikeRoute.AnswerIsFirstFlipped | app/api/comments/like/route.ts:63-82 | the answered flag is the negation of the first targeted comment's old flag, that is its new value |
| CommentLikeRoute.NoMatchChangesNothing | app/api/comments/like/route.ts:73-82 | when nothing matches, the list is saved unchanged and the answer is false |
| CommentLikeRoute.Post | app/api/comments/like/route.ts:51-87 | 400 for a missing field; otherwise the toggled list is saved, changed or not, and the first target's new flag answered |
| AdminCommentsRoute.DeleteCascade | app/api/admin/comments/route.ts:45-47 | no kept comment has the id or replies to it; every other comment is kept, as often as stored and in its relative order |
| AdminCommentsRoute.DeleteIdempotent | app/api/admin/comments/route.ts:45-47 | deleting twice deletes nothing more |
| AdminCommentsRoute.DeleteUnknown | app/api/admin/comments/route.ts:45-51 | an id nobody has or replies to leaves the list unchanged |
| AdminCommentsRoute.OnlyDirectReplies | app/api/admin/comments/route.ts:45-47 | a direct reply is removed, but a reply to that reply survives |
| AdminCommentsRoute.Get | app/api/admin/comments/route.ts:9-22 | 401 without reading storage when not authenticated; otherwise every comment the manager reads |
| AdminCommentsRoute.Delete | app/api/admin/comments/route.ts:28-56 | 401 and no storage access when not authenticated; 400 without an id; otherwise the cascade is saved through the manager and success reported, or 500 when the fallback write fails; after a partial database write the table holds the rows of the inserted prefix of the kept list |
| ContentText.KeepAllowed | scripts/content-manager.ts:23 | only word characters, white space and '-' remain, all from the input |
| ContentText.Collapse | scripts/content-manager.ts:24 | runs of separators become one '-': no two hyphens in a row, and the first character is '-' exactly when the input starts with a separator |
| ContentText.CollapseAlphabet | scripts/content-manager.ts:24 | a filtered lower-case title folds into lowercase letters, digits and '-' |
| ContentText.TrimDashes | scripts/content-manager.ts:25 | an infix of the input with no '-' at either end |
| ContentText.TrimLeadingDashes | scripts/content-manager.ts:25 | a suffix of the input that does not start with '-'; an input not starting with '-' is kept |
| ContentText.TrimTrailingDashes | scripts/content-manager.ts:25 | a prefix of the input that does not end with '-'; an input not ending with '-' is kept |
| ContentText.SlugifyIsSlug | scripts/content-manager.ts:19-26 | a slug holds only [a-z0-9-], no leading or trailing '-' and no two '-' in a row |
| ContentText.SlugIsFixedPoint | scripts/content-generator.ts:8-15 | a well-formed slug is its own slug |
| ContentText.SlugifyIdempotent | scripts/content-manager.ts:19-26 | slugifying twice equals slugifying once |
| ContentText.NonBlankLines | scripts/content-manager.ts:30 | the lines of the trimmed text that are not blank |
| ContentText.ChosenLineCharacterised | scripts/content-manager.ts:30-36 | the first prose line (trimmed longer than 20, not '#', '>' or a list marker followed by white space) when one exists; otherwise the first non-blank line, otherwise "" |
| ContentText.Prefix | scripts/content-manager.ts:43 | `substring(0, end)` with its end clamped into range |
| ContentText.Truncate | scripts/content-manager.ts:42-44 | a text within the limit is kept; a longer one becomes a prefix plus "...", exactly `maxLength` long when `maxLength` ≥ 3 |
| ContentText.TruncateAddsOnlyDots | scripts/content-manager.ts:42-44 | truncating adds no character except '.' |
| ContentText.PlainDescription | scripts/content-generator.ts:18-32 | the chosen line, trimmed, kept as it is when short and at most `maxLength` when `maxLength` ≥ 3 |
| ContentText.QuotedList | scripts/content-manager.ts:76 | the bracketed list of quoted items |
| ContentManager.RemoveStars | scripts/content-manager.ts:40 | no '*' remains |
| ContentManager.DoubleStarsRedundant | scripts/content-manager.ts:40 | removing "**" before removing '*' changes nothing |
| ContentManager.LinkAt | scripts/content-manager.ts:40 | a match of the link pattern: '[' then a non-empty text without ']', and a match of at least 4 characters |
| ContentManager.StripLinks | scripts/content-manager.ts:40 | replacing links by their text never lengthens the text |
| ContentManager.StripLinksWithoutBrackets | scripts/content-manager.ts:40 | a text without '[' holds no link and is unchanged |
| ContentManager.StripLinksAddsNothing | scripts/content-manager.ts:40 | stripping links adds no character |
| ContentManager.Unformatted | scripts/content-manager.ts:38-40 | the chosen line with emphasis and links removed has no '*' |
| ContentManager.Description | scripts/content-manager.ts:29-46 | at most `maxLength` characters when `maxLength` ≥ 3, no '*', and the unformatted line itself when it fits |
| ContentManager.AutoDescription | scripts/content-manager.ts:370 | the default-length description: at most 160 characters and no '*' |
| ContentManager.KeyName | scripts/content-manager.ts:66-131 | a field's name has no ':' and is not the fence |
| ContentManager.KeyNameRoundTrip | scripts/content-manager.ts:66-131 | every field name reads back as its field |
| ContentManager.KeyNameInjective | scripts/content-manager.ts:66-131 | no two fields share a name |
| ContentManager.LineKey | scripts/content-manager.ts:66-131 | a line's key is the text before its first ':' |
| ContentManager.Render | scripts/content-manager.ts:66-131 | every written line is non-empty, and its key is its field's name |
| ContentManager.RenderedKeys | scripts/content-manager.ts:66-131 | a field is present exactly when some written line carries its name as key |
| ContentManager.KeysMeaning | scripts/content-manager.ts:66-131 | the collected fields are exactly those some line is written under |
| ContentManager.PushIf | scripts/content-manager.ts:74 | a conditional push appends the line exactly when its condition holds, adding its field |
| ContentManager.ArticleFields | scripts/content-manager.ts:74-79 | category, tags, image and foundational are each written exactly when given; non-empty tags appear as a quoted list |
| ContentManager.FunnelFields | scripts/content-manager.ts:80-84 | a funnel writes its parent line and book, then the call to action when given |
| ContentManager.ArticleLines | scripts/content-manager.ts:65-88 | the article block: a fence; title, description, date and section (defaulting to "esoteriment"); the optional fields exactly when given; a closing fence |
| ContentManager.VideoLines | scripts/content-manager.ts:90-106 | the video block, with platform, embed URL and section defaulting to "youtube", "" and "lifeward"; related article and thumbnail exactly when given |
| ContentManager.BookFields | scripts/content-manager.ts:114-122 | subtitle, cover and themes each when given; the price whenever it is set, 0 included |
| ContentManager.BookShopFields | scripts/content-manager.ts:123-128 | the shop fields when truthy; the excerpt whenever it is set |
| ContentManager.BookLines | scripts/content-manager.ts:108-132 | the book block; the price and the excerpt appear whenever they are set |
| ContentManager.FrontmatterLines | scripts/content-manager.ts:49-135 | the lines of each kind follow its layout; any other kind gets only its title and date |
| ContentManager.GenerateFrontmatter | scripts/content-manager.ts:49-135 | the text starts with "---\n", ends with "\n---\n" and has no empty line |
| ContentManager.FencedText | scripts/content-manager.ts:86-87 | lines between two fences are written as a text opening with "---\n" and closing with "\n---\n" |
| ContentManager.SyncContent | scripts/content-manager.ts:306-398 | a cancelled choice syncs nothing; otherwise each file is synced with the choice's options until one throws; `synced` counts the files rewritten; "specific" rewrites nothing |
| ContentGenerator.OptionalLine | scripts/content-generator.ts:57 | an optional field leaves an empty line exactly when absent |
| ContentGenerator.FunnelLines | scripts/content-generator.ts:60 | the funnel slot is empty exactly when there is no funnel |
| ContentGenerator.TemplateFrontmatter | scripts/content-generator.ts:35-103 | the template starts with "---\n" and ends with "\n---\n" |
| ContentGenerator.ArticleTemplate | scripts/content-generator.ts:52-62 | eight slots; category, tags, image and funnel slots are empty exactly when absent; the section defaults to "esoteriment" |
| ContentGenerator.VideoTemplate | scripts/content-generator.ts:66-76 | eight slots, with defaults "youtube", "" and "lifeward"; related article and thumbnail slots are empty exactly when absent |
| ContentGenerator.BookTemplate | scripts/content-generator.ts:80-95 | thirteen slots; the price slot is empty for no price and for 0; the excerpt slot only when unset |
| ContentGenerator.UnknownTemplate | scripts/content-generator.ts:98-102 | any other kind yields only title and date between fences |
| ContentGenerator.PriceZeroDiffers | scripts/content-generator.ts:87 | a price of 0 is dropped by the template but written by the content manager |
| ContentGenerator.TargetPath | scripts/content-generator.ts:236-248 | content/\<section\>/\<slug\>.mdx for an article, content/videos for a video, content/books for anything else; an article without a section throws |
| ContentGenerator.InitialContent | scripts/content-generator.ts:265 | the body is the frontmatter followed by "\n\nStart writing here...\n" |
| ContentGenerator.CreateContent | scripts/content-generator.ts:233-267 | nothing is written when the file exists and overwriting is declined; otherwise the slug's path receives the initial body |
| ContentGenerator.CreatedNameMatchesSlug | scripts/content-generator.ts:248 | the file name of a created entry, without ".mdx", is its title's slug |
| ContentSync.OptionsFor | scripts/content-sync.ts:115-118 | "all" turns on both options, "description" and "date" one each, "specific" neither |
| ContentSync.AutoDescription | scripts/content-sync.ts:9-23 | this script's description has at most 160 characters |
| ContentSync.DescriptionMissing | scripts/content-sync.ts:36 | missing when absent, falsy or blank; a truthy non-string throws |
| ContentSync.KeepsDescription | scripts/content-sync.ts:34-40 | a non-blank description is never overwritten |
| ContentSync.FillsDescriptionOnlyWhenMissing | scripts/content-sync.ts:34-40 | the description changes only when the option is on, the body is non-blank and it was missing, and it then becomes the extracted one |
| ContentSync.DateRule | scripts/content-sync.ts:43-50 | with the option on, the written date is the modification date; without the rule applying the date is kept |
| ContentSync.OtherFieldsKept | scripts/content-sync.ts:31 | every other field is written back unchanged |
| ContentSync.WrittenIffChanged | scripts/content-sync.ts:52-63 | a file is written exactly when a rule applies, and then its frontmatter differs |
| ContentSync.SpecificNeverRewrites | scripts/content-sync.ts:115-118 | with the "specific" options a file is never rewritten |
| ContentSync.IntendedOptionsFor | scripts/content-sync.ts:115-118 | the corrected options: "specific" syncs like "all"; the other choices are unchanged |
| ContentSync.IntendedSpecificSyncsDate | scripts/content-sync.ts:115-118 | with the corrected options, a chosen file with a stale date is rewritten with the modification date |
| ContentSync.Rewritten | scripts/content-sync.ts:57-63 | a file takes its new frontmatter only when one was written; body and date are kept |
| ContentSync.FirstFailure | scripts/content-sync.ts:120-126 | the index of the first file whose sync throws; every file before it syncs |
| ContentSync.CountWritten | scripts/content-sync.ts:120-126 | the number of files rewritten, at most the number of files |
| ContentSync.SyncEach | scripts/content-sync.ts:120-126 | the loop syncs every file up to the first failure, counting exactly the rewritten ones; the failure's message ends the run and later files are untouched |
| ContentSync.SyncAll | scripts/content-sync.ts:120-126 | the loop with fixed options and description extractor |
| ContentSync.SyncAllContent | scripts/content-sync.ts:66-129 | a cancelled choice syncs nothing; "specific" rewrites and counts nothing |
| ContentSync.SpecificCountsNothing | scripts/content-sync.ts:115-126 | with "specific" no file throws, none is rewritten and the count is 0 |
| ContentValidation.OfField | scripts/content-manager.ts:419-423 | exactly the issues about a field, in order |
| ContentValidation.TitleIssues | scripts/content-manager.ts:451-453 | a title error exactly when the title is not a non-blank string |
| ContentValidation.DateIssues | scripts/content-manager.ts:455-469 | a date error exactly when the date is not a string of the form YYYY-MM-DD that reads as a date |
| ContentValidation.SectionIssues | scripts/content-manager.ts:473-479 | a section error exactly when the section is neither "esoteriment" nor "lifeward" |
| ContentValidation.MismatchIssues | scripts/content-manager.ts:482-488 | an error exactly when a truthy section differs from the directory |
| ContentValidation.EmbedUrlIssues | scripts/content-manager.ts:517-519 | an error exactly when the embed URL is not a non-blank string |
| ContentValidation.BookDescriptionIssues | scripts/content-manager.ts:528-530 | an error exactly when a book's description is not a non-blank string |
| ContentValidation.DescriptionNotices | scripts/content-manager.ts:490-492 | a warning exactly when the description is missing |
| ContentValidation.ThemesNotices | scripts/content-manager.ts:532-534 | a warning exactly when there is no non-empty themes list |
| ContentValidation.ContentNotices | scripts/content-manager.ts:538-540 | a warning exactly when the body is blank |
| ContentValidation.RemoveFirst | scripts/content-manager.ts:495 | only the first occurrence is removed |
| ContentValidation.RemoveFirstSuffix | scripts/content-manager.ts:495 | a name whose only '.' starts its ".mdx" ending loses exactly that ending |
| ContentValidation.SlugNotices | scripts/content-manager.ts:494-504 | a warning only when a string title's slug differs from the file name; a truthy non-string title throws |
| ContentValidation.TitleSlugNotices | scripts/content-manager.ts:497-503 | a warning exactly when the slugs differ |
| ContentValidation.DirectoryChecks | scripts/content-manager.ts:446-540 | the directory rules' errors, and warnings about the file only |
| ContentValidation.SlugMismatch | scripts/content-manager.ts:497-503 | the slug warning is about the file checked |
| ContentValidation.ParseIssue | scripts/content-manager.ts:542-548 | a failure inside a file's checks is a "parse" error about that file |
| ContentValidation.ThrownIssues | scripts/content-manager.ts:495-548 | one "parse" error exactly when the title check throws, carrying its message |
| ContentValidation.ArticleField | scripts/content-manager.ts:472-505 | an article directory's errors about a field: section and mismatch errors, then a "parse" error when the title check throws |
| ContentValidation.VideoField | scripts/content-manager.ts:508-524 | a video directory's errors: section errors, then the embed URL error |
| ContentValidation.OtherField | scripts/content-manager.ts:527-535 | a book's only directory error is its description; other directories have none |
| ContentValidation.DirectoryField | scripts/content-manager.ts:472-535 | articles get section, mismatch and thrown-title errors; videos section and embed URL errors; books a description error; other directories none |
| ContentValidation.ParsedField | scripts/content-manager.ts:451-535 | a parsed file's errors about a field are those of the title and date rules, then of its directory |
| ContentValidation.TitleRule | scripts/content-manager.ts:451-453 | the title is flagged once, exactly when it is not a non-blank string |
| ContentValidation.DateRule | scripts/content-manager.ts:455-469 | the date is flagged once, exactly when it is not a valid YYYY-MM-DD string |
| ContentValidation.SectionRule | scripts/content-manager.ts:472-515 | an article is flagged exactly when its section is not its directory; a video when its section is unknown; nothing else is |
| ContentValidation.EmbedUrlRule | scripts/content-manager.ts:517-519 | only a video without an embed URL is flagged |
| ContentValidation.BookDescriptionRule | scripts/content-manager.ts:528-530 | only a book without a description is flagged |
| ContentValidation.ParseRule | scripts/content-manager.ts:542-548 | a parse error exactly when the file cannot be parsed or an article's truthy title is not a string |
| ContentValidation.CleanDirectory | scripts/content-manager.ts:472-535 | no directory error exactly when the file passes its directory's rules |
| ContentValidation.CleanFile | scripts/content-manager.ts:441-548 | a file has no error exactly when it passes every rule; warnings never count |
| ContentValidation.Checks | scripts/content-manager.ts:436-549 | one check per file, in order |
| ContentValidation.ValidateContent | scripts/content-manager.ts:430-579 | errors and warnings are those of the files in order; the exit code is 1 exactly when there is an error, 0 otherwise |
| ContentValidation.NoErrors | scripts/content-manager.ts:569-579 | no error in the run exactly when no file has one |
| ContentValidation.NoErrorsIffAllAcceptable | scripts/content-manager.ts:569-579 | the run exits 0 exactly when every file passes every rule |
| ContentValidation.ErrorsOfTheRun | scripts/content-manager.ts:436-552 | every reported error belongs to some file, and every file error is reported |
| Mdx.StripMdx | lib/mdx.ts:16 | the slug plus ".mdx" is the file name |
| Mdx.SlugsOf | lib/mdx.ts:13-16 | each slug comes from a listed ".mdx" entry |
| Mdx.Slugs | lib/mdx.ts:9-17 | a missing directory gives no slugs |
| Mdx.SlugsRoundTrip | lib/mdx.ts:9-17 | adding ".mdx" back gives exactly the ".mdx" entries, in listing order |
| Mdx.SourceOf | lib/mdx.ts:23-25 | a file is found exactly when it exists |
| Mdx.ArticleBySlug | lib/mdx.ts:19-42 | null exactly when the file is missing; title and description default to "", tags to [] and otherwise pass through; slug and section come from the arguments; category, date and body are the file's |
| Mdx.VideoBySlug | lib/mdx.ts:71-90 | null exactly when missing; title and description default to "", platform, embed URL and section to "youtube", "" and "lifeward"; the related article and the body are the file's |
| Mdx.BookBySlug | lib/mdx.ts:112-131 | null exactly when missing; title and description default to "", themes to []; cover, sample chapter, download and purchase links are the file's |
| Mdx.Present | lib/mdx.ts:50-52 | the readable articles of the section, from its slugs |
| Mdx.SectionsFor | lib/mdx.ts:45 | the given section, or both |
| Mdx.Collected | lib/mdx.ts:48-54 | only articles of the given sections |
| Mdx.GetAllArticles | lib/mdx.ts:44-59 | the loop gathers each section's articles, then sorts them newest first |
| Mdx.AllArticlesOfSections | lib/mdx.ts:44-59 | the result holds exactly the gathered articles, each as often as gathered, by non-increasing date |
| Mdx.OneSection | lib/mdx.ts:45-54 | with a section, only that section's articles |
| Mdx.BothSections | lib/mdx.ts:45 | without a section, both sections, Esoteriment first |
| Mdx.NoneDropped | lib/mdx.ts:50-52 | when every slug can be read, no article is dropped |
| Mdx.ListedFilesRead | lib/mdx.ts:50-52 | when every listed ".mdx" entry is a readable file, a section yields one article per slug |
| Mdx.NewestFirst | lib/mdx.ts:56-58 | the sorted list is ordered by non-increasing date |
| Mdx.GetAllVideos | lib/mdx.ts:92-100 | the readable videos, newest first |
| Mdx.AllVideosOf | lib/mdx.ts:93-96 | at most one video per slug, each read from a listed slug |
| Mdx.GetAllBooks | lib/mdx.ts:133-141 | the readable books, newest first |
| Mdx.AllBooksOf | lib/mdx.ts:134-137 | at most one book per slug, each read from a listed slug |
| SearchRoute.Search | app/api/search/route.ts:4-23 | an empty query gives nothing; at most 5 results, each an article whose title, description, a tag or the category contains the lowercased query; results keep input order |
| SearchRoute.FirstMatches | app/api/search/route.ts:14-20 | the results are the first matches: all of them when fewer than 5 |
| SearchRoute.BlankQuerySearched | app/api/search/route.ts:6-10 | the query is not trimmed: " " finds a title with a space |
| RelatedArticles.Related | components/article/RelatedArticles.tsx:14-22 | the first `maxItems` other articles sharing the section, an equal category or a tag, in input order, or all of them when there are fewer (`slice(0, maxItems)`); with a positive bound it is empty exactly when no article is related |
| RelatedArticles.Fallback | components/article/RelatedArticles.tsx:26-28 | the first `maxItems` other articles of the same section, in input order, or all of them when there are fewer; with a positive bound it is empty exactly when no article is of the same section |
| RelatedArticles.Render | components/article/RelatedArticles.tsx:12-52 | the related block, or otherwise the fallback, with `maxItems` defaulting to 3; the related list exactly when the related list is non-empty, which for a positive bound is exactly when some article is related; nothing exactly when neither list has an article |
| RelatedArticles.RenderIsRelatedOrNothing | components/article/RelatedArticles.tsx:12-52 | the block is the related list when some article is related and nothing otherwise, since the fallback is empty whenever the related list is |
| RelatedArticles.FallbackWithinRelated | components/article/RelatedArticles.tsx:14-28 | the fallback predicate implies the related one, so the fallback is never longer |
| RelatedArticles.FallbackNeverRendered | components/article/RelatedArticles.tsx:24-30 | the "Continue Reading" block is never rendered |
| RelatedArticles.CurrentNeverShown | components/article/RelatedArticles.tsx:14-28 | the current article never appears |
| ArticleFilters.Filtered | app/esoteriment/EsoterimentPageClient.tsx:16-19 | no selection keeps the list; a selection keeps exactly the articles of that category; always a subsequence |
| ArticleFilters.EmptySelectionShowsAll | app/lifeward/LifewardPageClient.tsx:16-17 | an empty selection behaves as none |
| ArticleFilters.FilterTwice | app/lifeward/LifewardPageClient.tsx:18 | filtering again by the same category changes nothing |
| ArticleFilters.UnknownCategoryShowsNone | app/esoteriment/EsoterimentPageClient.tsx:18 | a category no article has shows nothing |
| RssFeed.Entity | app/rss/route.ts:45-49 | the entity text of a character is never empty |
| RssFeed.EscapeChars | app/rss.xml/route.ts:40-47 | the reference escape, character by character, never shorter than its input |
| RssFeed.EscapeXmlConcat | app/rss/route.ts:43-50 | escaping distributes over concatenation |
| RssFeed.EscapeXmlChar | app/rss/route.ts:45-49 | one character escapes to its entity |
| RssFeed.EscapeXmlIsPerCharacter | app/rss/route.ts:43-50 | the chain of replacements equals the per-character escape |
| RssFeed.NoMarkup | app/rss/route.ts:43-50 | the output has no '<', '>', '"' or "'" |
| RssFeed.PlainUnchanged | app/rss/route.ts:43-50 | a string without the five special characters is unchanged |
| RssFeed.NeverShorter | app/rss/route.ts:43-50 | escaping never shortens |
| RssFeed.AmpersandsBeginEntities | app/rss/route.ts:45 | every '&' of the reference escape begins one of the five entities of section 4.6 of XML 1.0 |
| RssFeed.Ampersands | app/rss/route.ts:45-49 | every '&' of the output begins one of the five entities |
| RssFeed.DecodeEscaped | app/rss.xml/route.ts:40-47 | decoding the five entities gives the input back |
| RssFeed.SiteUrl | app/rss/route.ts:6 | the environment's URL, or the route's default |
| RssFeed.CategoryElement | app/rss/route.ts:29 | the second category appears exactly when the article has a truthy one |
| RssFeed.ItemLines | app/rss/route.ts:22-30 | link and guid are both siteUrl/section/slug, and the section category is always present |
| RssFeed.Items | app/rss.xml/route.ts:17-29 | one item per article, in order |
| RssFeed.Preamble | app/rss/route.ts:8-12 | five lines opening with the XML declaration |
| RssFeed.Trailer | app/rss/route.ts:16-19 | the build date line, plus editor, webmaster and copyright for `/rss` only |
| RssFeed.ChannelHead | app/rss.xml/route.ts:8-16 | the channel links to the site and its self link is the site URL plus the route's path |
| RssFeed.Feed | app/rss/route.ts:4-34 | the document starts with the declaration, ends with the closing tags, and holds every article's link |
| RssFeed.ItemsLinked | app/rss/route.ts:20-32 | every article's link line occurs among the items |
| RssFeed.DefaultSelfLinks | app/rss.xml/route.ts:6-14 | without the variable, `/rss` links to https://albertblibo.com/rss and `/rss.xml` to https://yourname.com/rss.xml |
| RssFeed.TitleEscaped | app/rss/route.ts:23 | an item's title shows no '<' of the article's title |
| Sitemap.BaseUrl | app/sitemap.ts:5 | the environment's URL or https://albertblibo.com |
| Sitemap.StaticPages | app/sitemap.ts:14-51 | exactly six static entries, all modified now: the base, /esoteriment, /lifeward, /books, /videos and /about in that order, daily, daily, daily, weekly, weekly and monthly, with priorities from 1 down to 0.7 and never rising |
| Sitemap.ArticlePages | app/sitemap.ts:54-59 | one entry per article at base/section/slug, modified at its date |
| Sitemap.VideoPages | app/sitemap.ts:62-67 | one entry per video at base/videos/slug |
| Sitemap.BookPages | app/sitemap.ts:70-75 | one entry per book at base/books/slug, modified now |
| Sitemap.Sitemap | app/sitemap.ts:77 | the static pages, then articles, videos and books; 6 + articles + videos + books entries |
| Sitemap.EveryArticleListed | app/sitemap.ts:54-59 | every article has an entry at the address its feed item links to |
| Sitemap.AllUnderBase | app/sitemap.ts:14-77 | every address starts with the base URL |
| Sitemap.ArticleEntriesNewestFirst | app/sitemap.ts:54-59 | over sorted articles, entries are newest first |
| Metadata.Capitalize | lib/metadata.ts:5 | the first character upper-cased and the rest unchanged |
| Metadata.ArticleMetadata | lib/metadata.ts:3-15 | the title is title + " \| " + the capitalised section; the open graph copies title and description, with type "article", the date and the tags |
| Metadata.VideoMetadata | lib/metadata.ts:17-27 | title + " \| Videos", open graph type "video.other" |
| Metadata.BookMetadata | lib/metadata.ts:29-39 | title + " \| Books", open graph type "book" |
| Metadata.TitlesLead | lib/metadata.ts:3-39 | every page title begins with the record's title and ends with its section |
| Metadata.SectionTitles | lib/metadata.ts:5 | the two sections' pages end with " \| Esoteriment" and " \| Lifeward" |
| Metadata.CapitalizeIdempotent | lib/metadata.ts:5 | capitalising twice is capitalising once |
| Metadata.CapitalizedEsoteriment | lib/metadata.ts:5 | the Esoteriment section's title suffix is "Esoteriment" |
| Metadata.CapitalizedLifeward | lib/metadata.ts:5 | the Lifeward section's title suffix is "Lifeward" |
| Author.AuthorName | lib/author.ts:3 | the variable, or "Your Name" when unset |
| Author.AuthorEmail | lib/author.ts:4 | empty exactly when the variable is unset |
| Author.DisplayName | lib/author.ts:16-18 | the author name |
| Author.NameOnly | lib/author.ts:6-14 | without an email or a configured email, the check is trimmed, case-insensitive name equality |
| Author.NameAndEmail | lib/author.ts:10-12 | with both emails, name and email must both match |
| Author.EmailIsStricter | lib/author.ts:9-13 | supplying an email can only make the check stricter |
| Author.DisplayNameIsAuthor | lib/author.ts:6-18 | the displayed name always passes |
| Author.CaseInsensitive | lib/author.ts:9 | the check ignores the name's case |
| Author.DefaultAuthor | lib/author.ts:3-14 | unset, any spelling of "Your Name" passes |
| ContactRoute.MatchesEmailShape | app/api/contact/route.ts:17 | the matcher accepts exactly a non-empty local part, one '@', and a domain with a '.' that has text on both sides, with no white space and no second '@' |
| ContactRoute.TwoAtsRejected | app/api/contact/route.ts:17-18 | an address with two '@' is refused |
| ContactRoute.NoWhiteSpace | app/api/contact/route.ts:17 | an accepted address has no white space |
| ContactRoute.AcceptsPlainAddress | app/api/contact/route.ts:17 | "a@b.c" is accepted |
| ContactRoute.AcceptsSubdomains | app/api/contact/route.ts:17 | several dots in the domain are accepted |
| ContactRoute.RefusesTrailingDot | app/api/contact/route.ts:17 | a '.' needs text after it |
| ContactRoute.Post | app/api/contact/route.ts:3-70 | 400 for a missing field before any email check; 400 for a bad email; 200 exactly when both checks pass; 500 for an unreadable body |
| SubscribeRoute.Post | app/api/email/subscribe/route.ts:6-61 | 200 with `success` exactly when the email contains '@'; 400 otherwise; 500 for an unreadable body |
| SubscribeRoute.BookIgnored | app/api/email/subscribe/route.ts:9-52 | the answer does not depend on the book's slug or title |
| SubscribeRoute.LooserThanContact | app/api/email/subscribe/route.ts:12 | "@" alone is accepted here while the contact form's matcher refuses it |
| VideoCarousel.MaxIndex | components/video/VideoCarousel.tsx:19-20 | max(0, n − 2) |
| VideoCarousel.Next | components/video/VideoCarousel.tsx:22-24 | one further, stopping at `maxIndex` |
| VideoCarousel.Prev | components/video/VideoCarousel.tsx:26-28 | one back, stopping at 0 |
| VideoCarousel.ReplayInRange | components/video/VideoCarousel.tsx:22-76 | no series of next, prev or dot clicks leaves [0, maxIndex] |
| VideoCarousel.VisibleFrom | components/video/VideoCarousel.tsx:30 | at most 2 consecutive videos from the index, exactly 2 when n ≥ 2 and the index is in range |
| VideoCarousel.Carousel.constructor | components/video/VideoCarousel.tsx:12 | the index starts at 0 |
| VideoCarousel.Carousel.GoNext | components/video/VideoCarousel.tsx:22-24 | the index moves to `Next` |
| VideoCarousel.Carousel.GoPrev | components/video/VideoCarousel.tsx:26-28 | the index moves to `Prev` |
| VideoCarousel.Carousel.GoTo | components/video/VideoCarousel.tsx:67-76 | a dot click sets the index |
| VideoCarousel.Carousel.Render | components/video/VideoCarousel.tsx:14-40 | nothing for no video, one card for one; otherwise the two videos from the index, with navigation exactly when n > 2 and then n − 1 dots |
| LikeButton.Flag | components/article/LikeButton.tsx:20-39 | the stored flag, false when absent |
| LikeButton.Shown | components/article/LikeButton.tsx:25-33 | the server's count; 0 for an error body; the count unchanged when the fetch or the parse fails |
| LikeButton.ActionFor | components/article/LikeButton.tsx:57 | "unlike" exactly when the item was liked |
| LikeButton.Button.ItemKey | components/article/LikeButton.tsx:20-37 | the flag key is the server's counter key |
| LikeButton.Button.constructor | components/article/LikeButton.tsx:14-16 | no likes, not liked, loading |
| LikeButton.Button.Load | components/article/LikeButton.tsx:18-34 | the flag comes from local storage, the count from the server, and loading ends |
| LikeButton.Button.HandleLike | components/article/LikeButton.tsx:36-66 | the action follows the stored flag; the flag is flipped in local storage; a request that throws restores `isLiked` and the count but not the stored flag; otherwise both move by one |
| LikeButton.TwoClicksRestore | components/article/LikeButton.tsx:39-57 | after two clicks that reach the server the stored flag is back, the two count changes cancel, and the actions sent are opposite |
| LikeButton.OtherItemsKept | components/article/LikeButton.tsx:46 | other items' stored flags are untouched |
| CommentsSection.FromPublic | components/article/CommentsSection.tsx:7-14 | the browser keeps each field of the API's entry, with its replies one for one |
| CommentsSection.AddReply | components/article/CommentsSection.tsx:76-87 | the reply is appended to the matching comments' replies, the list created when absent; others unchanged |
| CommentsSection.ToggleLiked | components/article/CommentsSection.tsx:91-101 | only matching comments have their flag negated |
| CommentsSection.ReplyAppends | components/article/CommentsSection.tsx:82 | ids are kept and the reply ends the grown list |
| CommentsSection.ToggleTwice | components/article/CommentsSection.tsx:97 | toggling twice restores each flag's truthiness |
| CommentsSection.Section.constructor | components/article/CommentsSection.tsx:22-26 | an empty, loading list with an empty closed form |
| CommentsSection.Section.HeaderCount | components/article/CommentsSection.tsx:110 | the heading counts the top-level comments in state |
| CommentsSection.Section.Fetch | components/article/CommentsSection.tsx:32-42 | an answer replaces the list; an error body empties it; a failed fetch keeps it; loading ends |
| CommentsSection.Section.Outgoing | components/article/CommentsSection.tsx:46-58 | nothing is sent when the trimmed author or content is empty; otherwise the trimmed values |
| CommentsSection.Section.HandleSubmit | components/article/CommentsSection.tsx:44-74 | on an ok answer the new comment is prepended and the form reset and closed; otherwise only the submitting flag changes; the failure alert is shown exactly when the request throws |
| CommentsSection.Section.HandleReply | components/article/CommentsSection.tsx:76-89 | the list becomes `AddReply` of it |
| CommentsSection.Section.HandleAuthorLike | components/article/CommentsSection.tsx:91-104 | the list becomes `ToggleLiked` of it |
| CommentsSection.ServerStricterThanForm | app/api/comments/route.ts:91-93 | a one-letter name passes the form but is refused by the server |
| AdminDashboard.ContentLink | app/admin/dashboard/AdminDashboardClient.tsx:87-96 | "article" links to /esoteriment/\<id\>, "video" to /videos/\<id\>, anything else to "#" |
| AdminDashboard.VideoLinkIsPage | app/admin/dashboard/AdminDashboardClient.tsx:92-93 | a video's link is its sitemap address |
| AdminDashboard.ArticleLinks | app/admin/dashboard/AdminDashboardClient.tsx:88-91 | an Esoteriment article's link is its page; a Lifeward article's link is not |
| AdminDashboard.LocalDelete | app/admin/dashboard/AdminDashboardClient.tsx:64 | the local filter is the server's cascade |
| AdminDashboard.Dashboard.constructor | app/admin/dashboard/AdminDashboardClient.tsx:17-19 | no comments, loading, nothing being deleted |
| AdminDashboard.Dashboard.Fetch | app/admin/dashboard/AdminDashboardClient.tsx:26-40 | a 401 redirects and leaves the list unset; an answer replaces it; an error body empties it; loading ends |
| AdminDashboard.Dashboard.HandleDelete | app/admin/dashboard/AdminDashboardClient.tsx:52-74 | unconfirmed does nothing; an ok answer removes the comment and its direct replies; anything else keeps the list and alerts |
| AdminDashboard.Dashboard.Display | app/admin/dashboard/AdminDashboardClient.tsx:124-125 | the state list is sorted in place into a permutation by non-increasing date, and that list is shown |

## Left out

- **File and network I/O.** `fs`, `JSON.parse`/`JSON.stringify`, the `@vercel/postgres` `sql` tag and its dynamic import are not modelled. Each store is an in-memory value:
  - a missing, unreadable or unparseable file is one `JsonFile` state;
  - directory creation failing is folded into `writable`;
  - the database answering is the `answered` count.
- **The Vercel choice of file path.** Which file a route uses under Vercel is not modelled; each route is given its own `Document`.
- **JSON fields that are not strings.** A request field is present-and-string or absent. A non-string value that makes `trim` or `includes` throw is not modelled, except for the frontmatter title and description, where the throw is modelled.
- **Concurrency.** Overlapping calls sharing `initPromise`, and lost updates between concurrent read-modify-write requests, are not modelled. Every call is sequential, and async code runs in order.
- **The clock, randomness and the environment.** Each is an input:
  - comment ids and timestamps are `newId` and `now`;
  - `toISOString`, `toUTCString` and `getFullYear` results are `today`, `buildDate`, `utc` and `year`;
  - file modification dates are `modified`;
  - environment variables are `Option<string>` parameters.
- **Date parsing.** Dates are integer timestamps compared as `new Date(x).getTime()` would compare them. `isNaN(new Date(s).getTime())` is the `validDate` parameter. The dashboard's `toLocaleDateString` formatting is not modelled.
- **Foreign libraries.**
  - gray-matter parsing and `matter.stringify`: the validator is given a file's frontmatter as parsed or as the parse error. The sync script and the page readers (`MdxFile` and `Source`) have no parse-error state, so a malformed frontmatter that makes gray-matter throw and aborts `syncContent` or a page build is not represented.
  - `prompts`: its answers are parameters.
  - `reading-time` and the `content` and `readingTime` fields of records.
  - react-markdown and all rendering markup.
- **Directory walks.** `findMdxFiles` is not modelled; the files come as a list. A directory whose name ends in ".mdx" is not distinguished from a file when listing slugs.
- **Path normalisation.** `path.join` normalisation beyond joining with '/', and `path.relative`/`basename`: `ContentFile` carries path, name and directory.
- **The sitemap's float priorities.** These are written in tenths (0.8 is 8), and `lastModified` is a timestamp.
- **Frontmatter numbers.** A numeric frontmatter value is an integer (`Value.Num`); a fractional one such as `price: 9.99` is not represented.
- **Full Unicode.** `toLowerCase`, `toUpperCase`, `trim` and the regular expression classes `\s` and `\w` are modelled on ASCII.
- **UTF-16 lengths.** JavaScript's `length`, `substring` and `slice` count UTF-16 code units; the model's `|s|` counts characters. A text with characters outside the Basic Multilingual Plane is measured and cut differently by the model. This touches CommentsRoute.Rejection (the bounds 2, 3 and 1000), ReplyRoute.Rejection (3 and 500), ContentText.Truncate, ContentText.PlainDescription and ContentManager.Description (the limit of 160 and the `> 20` line test).
- **Client side.**
  - A fetch's outcome is a parameter, with `None` for one that throws.
  - The refresh that follows submit, reply and heart is a separate `Fetch` call.
  - `alert` is an `alerted` result of AdminDashboard.Dashboard.HandleDelete and CommentsSection.Section.HandleSubmit; `console` output is not modelled; `confirm` is a `confirmed` input.
  - The form's text inputs are modelled as the `author` and `content` fields.
- **The likes response's error body.** The like button's reading of a 2xx answer with an error body is not modelled: a `Json` answer always carries the count.
- **Admin authentication.** Logout and the login, check and auth-status routes are not modelled; authentication is an `authenticated` input.
- **Shared models for duplicated code.** The two category pages, `app/esoteriment/EsoterimentPageClient.tsx` and `app/lifeward/LifewardPageClient.tsx`, share `ArticleFilters`. The two feeds, `app/rss/route.ts` and `app/rss.xml/route.ts`, share `RssFeed`, which is parameterised by the route. The two `slugify` copies share `ContentText`. The two plain `extractDescription` copies, in scripts/content-generator.ts and scripts/content-sync.ts, share `ContentText.PlainDescription`.
- Storage.StorageManager.CheckDatabase: the `catch` branch is never modelled as taken, because `isAvailable` cannot throw (`initialize` catches every failure).
- Storage.DbListing: among comments with the same date, the model fixes an order; the database does not promise one.
- Storage.DatabaseStorage.SaveComments: the schema's `id` primary key is the only insert failure besides an unanswered query; other constraint errors are not modelled.
- Mdx.GetAllVideos: states a permutation of the readable videos ordered newest first; it does not say which of two videos with the same date comes first.
- Mdx.GetAllBooks: states a permutation of the readable books ordered newest first; it does not say which of two books with the same date comes first.
- RssFeed.Feed: states the document's first line, its closing tags and one link per article; the full text is stated line by line by `ItemLines`, `Preamble`, `Trailer` and `ChannelHead`.
- ContentManager.StripLinks: its contract states only that the result is never longer; what it keeps is stated by `StripLinksWithoutBrackets` and `StripLinksAddsNothing`.

## Findings

| source | as written | input that shows it | evidently intended | confidence | as-written member | corrected member |
|---|---|---|---|---|---|---|
| scripts/content-sync.ts:115-118 | the "Sync specific file" choice turns on neither `autoDescription` nor `updateDate`, so the chosen file is read and never rewritten (scripts/content-manager.ts:356-359 repeats this) | choosing "specific" for a file whose date differs from its modification date: `Synced 0 file(s)` | the chosen file is synced the way "all" syncs every file | not executed | ContentSync.SpecificNeverRewrites | ContentSync.IntendedSpecificSyncsDate |
