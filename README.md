# Whisper — storage, routes and star display, in Dafny

Whisper is an anonymous posting board. Visitors write short posts, comment on them and give
them one to five stars. This project models three parts of it and proves properties of them:

- **Storage** (`storage.dfy`). This is the `DatabaseStorage` class. It holds the posts, comments
  and ratings tables as sequences, each with its own serial-id counter, plus a logical clock that
  stands in for `defaultNow()`. The queries are `reads this` functions over the tables: all posts
  newest first, one post by id, a post's comments newest first, and a session's rating. The
  operations that create a post, a comment or a rating are methods that append a row. Creating a
  rating also re-reads every rating of the post and writes their count and rounded mean onto the
  post. The proofs show that creating a rating keeps every post's aggregates in step with the
  ratings table. Creating a post keeps the store in step only when no stored rating already names
  the new post's id: `createRating` does not check that its post exists.
- **Routes** (`routes.dfy`). This covers the shared route table's paths and `buildUrl`, modelled
  as a method with the source's loop. It follows JavaScript's `includes` and first-occurrence
  `replace`, including how `replace` expands `$&`, `$$`, `` $` `` and `$'` in a string value. It
  also covers the request bodies the rating and content routes accept.
- **StarRating** (`star_rating.dfy`). This is how the stored 0..100 average is shown: the star
  count, the five-star row, and the caption beside it.

`text.dfy` holds JavaScript's `String(n)` for integers, and `schema.dfy` the row shapes. Lookups
that bind `const [row] = await ...` are modelled as the first row of the filtered table.

## Model

| member | source | states |
|---|---|---|
| Storage.Where | server/storage.ts:31 | a `WHERE` keeps exactly the rows that satisfy the condition |
| Storage.WhereMultiplicity | server/storage.ts:31 | each kept row appears as often as in the table, each other row never |
| Storage.WhereAppend | server/storage.ts:40-43 | re-reading a table after an append gives the old result plus the new row if it qualifies |
| Storage.First | server/storage.ts:21-22 | the bound row is absent iff no row qualifies, and otherwise is the first qualifying row |
| Storage.InsertDesc | server/storage.ts:17 | inserting into a newest-first list keeps it newest first and adds exactly that row |
| Storage.SortDesc | server/storage.ts:17 | `orderBy(desc(...))` returns a permutation of its input, ordered non-increasingly |
| Storage.Total | server/storage.ts:44 | the `reduce` that sums the star values from 0; a sum of 1..5-star ratings lies between the count and five times the count |
| Storage.RoundedAverage | server/storage.ts:45 | `Math.round(total / count * 20)` is the integer within one half of `20 * total / count` |
| Storage.AverageInStoredRange | server/storage.ts:44-45 | ratings of 1..5 stars always store an average between 20 and 100 |
| Storage.SingleRatingAverage | server/storage.ts:45 | one rating of `v` stars stores `20 * v` |
| Storage.Reaggregate | server/storage.ts:47-52 | the update rewrites the aggregates of the rows with the id, and nothing else |
| Storage.RatedPosts | server/storage.ts:43-52 | the posts table after the re-read of the post's ratings and the `update` of its aggregates; `Storage.RatedPostsSpec` states what it holds |
| Storage.RatedPostsSpec | server/storage.ts:43-52 | after the recompute, the rated post has count ≥ 1 and aggregates that match its stored ratings; every other post and field is unchanged |
| Storage.EveryRatingCounts | server/storage.ts:40-43 | every stored rating adds one to its post's count: there is no per-session deduplication |
| Storage.RepeatRatingCountsTwice | server/storage.ts:39-52 | a session rating one post 5 and then 3 leaves 80 over 2 ratings |
| Storage.CreateRatingPreservesSync | server/storage.ts:39-55 | storing a rating and recomputing keeps every post's aggregates in step with the ratings table |
| Storage.OtherPostUnaffected | server/storage.ts:43 | a rating for another post does not change a post's rating set |
| Storage.CreatePostSyncedIff | server/storage.ts:25-28 | a new post joins an in-step table in step iff no stored rating already names its id |
| Storage.OrphanRatingDesyncsNewPost | server/storage.ts:25-28 | a rating stored before its post exists leaves that post, once created, out of step |
| Storage.FreshPostFound | server/storage.ts:20-28 | a post created under a fresh id is what a lookup of that id returns |
| Storage.UserRatingAsWritten | server/storage.ts:57-61 | as written, the lookup returns a rating by the session for any post (see Findings) |
| Storage.UserRatingAsWrittenIgnoresPost | server/storage.ts:59 | the as-written lookup returns a rating of post 2 when asked about post 1 |
| Storage.UserRating | server/storage.ts:57-61 | the corrected lookup returns nothing iff the session never rated the post, and otherwise the first such rating |
| Storage.PostsTableAppend | server/storage.ts:26 | a row stamped with the next id and the current time keeps ids increasing and fresh |
| Storage.CommentsTableAppend | server/storage.ts:35 | the same for comments |
| Storage.RatingsTableAppend | server/storage.ts:40 | the same for ratings |
| Storage.ReaggregateKeepsTable | server/storage.ts:47-52 | the aggregate update changes no id and no timestamp |
| Storage.DatabaseStorage.constructor | server/storage.ts:64 | the store starts with empty tables, in step |
| Storage.DatabaseStorage.GetPosts | server/storage.ts:16-18 | every post exactly once, newest first |
| Storage.DatabaseStorage.GetPost | server/storage.ts:20-23 | nothing iff no post has the id, otherwise the post with it, unique in a valid store |
| Storage.DatabaseStorage.GetComments | server/storage.ts:30-32 | exactly the post's comments, each as often as stored, newest first |
| Storage.DatabaseStorage.GetUserRating | server/storage.ts:57-61 | the corrected lookup (see Findings): the session's rating of that post, if any; the code as written is `Storage.UserRatingAsWritten` |
| Storage.DatabaseStorage.CreatePost | server/storage.ts:25-28 | appends one post with a fresh id, the current time and zero likes and aggregates; other tables unchanged; if the store was in step, it stays in step iff no rating already names the id |
| Storage.DatabaseStorage.CreateComment | server/storage.ts:34-37 | appends one comment with a fresh id, even for a post that does not exist; it is then among that post's comments |
| Storage.DatabaseStorage.CreateRating | server/storage.ts:39-55 | appends the rating, then sets the post's aggregates from all its ratings; an in-step store stays in step |
| Text.NatToText | shared/routes.ts:85 | `String(n)` for a whole number: at least one digit, and a leading zero only for 0 |
| Text.IntToText | shared/routes.ts:85 | `String(n)` for an integer: a minus sign exactly for negative numbers, then digits |
| Text.NatToTextRoundTrip | shared/routes.ts:85 | `String(n)` of a whole number reads back as `n` |
| Text.IntToTextInjective | shared/routes.ts:85 | different integers have different decimal texts |
| Text.IntToTextHasNoDollar | shared/routes.ts:85 | a number's text holds no `$`, so `replace` inserts it literally |
| Routes.IndexOf | shared/routes.ts:84-85 | finds the first position where the pattern occurs, or reports none |
| Routes.Includes | shared/routes.ts:84 | `url.includes(placeholder)` holds iff the placeholder occurs somewhere in the url |
| Routes.FirstIndex | shared/routes.ts:85 | an occurrence with none before it is the one found |
| Routes.Expand | shared/routes.ts:85 | the `$` patterns of `replace`'s replacement string (`$$`, `$&`, `` $` ``, `$'`); `Routes.ExpandLiteral` and `Routes.ExpandWholeMatch` state its behaviour |
| Routes.ExpandLiteral | shared/routes.ts:85 | a replacement without `$` is inserted as it is |
| Routes.ExpandWholeMatch | shared/routes.ts:85 | `$&` in the replacement stands for the matched text |
| Routes.ReplaceFirst | shared/routes.ts:85 | `url.replace(placeholder, text)`: only the first occurrence is replaced; `Routes.ReplaceFirstFound` states the splice |
| Routes.ValueText | shared/routes.ts:85 | `String(value)` for a string or an integral number |
| Routes.Substitute | shared/routes.ts:84-86 | one iteration of the `forEach`: the `includes` guard and the `replace`; `Routes.SubstituteAbsent` and `Routes.SubstituteFound` state both branches |
| Routes.SubstituteAll | shared/routes.ts:83-87 | the whole `forEach` over the entries, each acting on the url the one before left |
| Routes.BuildUrl | shared/routes.ts:80-90 | returns the path when there are no params, and otherwise the path with every entry applied in order |
| Routes.SubstituteAllSplit | shared/routes.ts:83-87 | applying the entries in two parts is the same as applying them all at once |
| Routes.SubstituteAllPair | shared/routes.ts:83-87 | the second entry acts on the output of the first |
| Routes.SubstituteAbsent | shared/routes.ts:84 | an entry whose placeholder does not occur leaves the url unchanged |
| Routes.ReplaceFirstFound | shared/routes.ts:85 | proof step: unfolds `replace` at the position `indexOf` found; the first-occurrence property is `Routes.SubstituteFirstOccurrence` |
| Routes.SubstituteFound | shared/routes.ts:84-85 | proof step: unfolds one entry where its placeholder is first found; the first-occurrence property is `Routes.SubstituteFirstOccurrence` |
| Routes.SubstituteFirstOccurrence | shared/routes.ts:84-85 | a `$`-free value replaces exactly the first occurrence; everything else, later occurrences included, is kept |
| Routes.NumberTextIsLiteral | shared/routes.ts:85 | number values are inserted literally |
| Routes.SubstituteAfterPrefix | shared/routes.ts:84-85 | a placeholder after a prefix without `:` is replaced by the expanded value |
| Routes.SubstituteLiteralAfterPrefix | shared/routes.ts:84-85 | the same, for a `$`-free value inserted as it is |
| Routes.FillOnlyPlaceholderExpanded | shared/routes.ts:80-90 | one entry filling a path's only placeholder, with `$` patterns expanded |
| Routes.FillOnlyPlaceholder | shared/routes.ts:80-90 | one `$`-free entry filling a path's only placeholder |
| Routes.PathShapes | shared/routes.ts:37-66 | each path is a `:`-free prefix, one placeholder, and a rest |
| Routes.PlaceholderFreePathUnchanged | shared/routes.ts:80-90 | a path without `:` comes back unchanged, whatever the params |
| Routes.ListPathUnchanged | shared/routes.ts:21 | `buildUrl` of the posts list path returns that path |
| Routes.PostUrl | shared/routes.ts:80-90 | filling `/api/posts/:id` with a number gives `/api/posts/` followed by its digits |
| Routes.CommentsUrl | shared/routes.ts:80-90 | filling `/api/posts/:postId/comments` with a number gives `/api/posts/`, its digits and `/comments` |
| Routes.PrefixKeyMatches | shared/routes.ts:84-85 | a key that only starts a placeholder's name still matches, and leaves the rest of the name behind |
| Routes.OnlyFirstOccurrenceReplaced | shared/routes.ts:85 | with two equal placeholders, only the first is filled |
| Routes.ExpandsToPlaceholderKeepsPath | shared/routes.ts:85 | a value that expands to the placeholder itself leaves the path unchanged |
| Routes.DollarAmpersandKeepsPlaceholder | shared/routes.ts:85 | the string value `$&` leaves the placeholder in place |
| Routes.LaterEntryFillsEarlierValue | shared/routes.ts:83-87 | a value that spells a later key's placeholder is filled by that later entry |
| Routes.EarlierEntryMissesLaterValue | shared/routes.ts:83-87 | in the reverse order, the placeholder it spells stays unfilled |
| Routes.ParseRatingInput | shared/routes.ts:67-70 | accepts iff the body is an object whose `rating` is a number in 1..5 and whose `userSession` is a string; reports the first failing field |
| Routes.FractionalRatingAccepted | shared/routes.ts:68 | 2.5 stars passes the bounds check |
| Routes.RatingInputIgnoresOtherFields | shared/routes.ts:67-70 | extra fields do not change the outcome |
| Routes.ParseContentInput | shared/routes.ts:29-55 | accepts iff the body is an object whose `content` is a string |
| Routes.ContentHasNoLengthLimit | shared/routes.ts:55 | content of any length, empty included, is accepted |
| StarRating.DisplayRating | client/src/components/StarRating.tsx:9 | the star value is the stored average divided by 20, rounded half up |
| StarRating.Stars | client/src/components/StarRating.tsx:10 | the row has five stars |
| StarRating.FilledStarsFormPrefix | client/src/components/StarRating.tsx:10 | filled stars come first |
| StarRating.FilledCountOfRow | client/src/components/StarRating.tsx:10 | a row of `n` with those left of `d` filled has `d` stars filled, cut to 0..n |
| StarRating.FilledStarsShowDisplayRating | client/src/components/StarRating.tsx:9-10 | the filled count is the displayed rating, cut to 0..5 |
| StarRating.DisplayRatingMonotone | client/src/components/StarRating.tsx:9 | a higher average never shows fewer stars |
| StarRating.FilledStarsMonotone | client/src/components/StarRating.tsx:9-10 | a higher average never fills fewer stars |
| StarRating.DisplayRatingInRange | client/src/components/StarRating.tsx:9 | averages in 0..100 show 0..5 stars, and 0 stars iff the average is below 10 |
| StarRating.SingleRatingShowsItsStars | client/src/components/StarRating.tsx:9-10 | a post rated once with `v` stars shows exactly `v` filled stars |
| StarRating.DisplayedNearMean | client/src/components/StarRating.tsx:9 | the shown star value is within 21/40 of a star of the true mean |
| StarRating.DoubleRoundingExample | client/src/components/StarRating.tsx:9 | 40 ratings summing to 99 (a mean of 2.475) show 3 stars |
| StarRating.SyncedPostDisplay | client/src/components/StarRating.tsx:9 | when every stored rating is 1..5 stars, an in-step post shows no stars when unrated, and 1..5 stars when rated |
| StarRating.RatingLabel | client/src/components/StarRating.tsx:27 | the label is "rating" iff the count is exactly 1, and "ratings" otherwise |
| StarRating.ShownRating | client/src/components/StarRating.tsx:27 | `toFixed(1)` of a whole number ends in `.0` |
| StarRating.ShownRatingDistinguishes | client/src/components/StarRating.tsx:27 | different displayed ratings are shown as different texts |
| StarRating.Caption | client/src/components/StarRating.tsx:27 | the caption is the shown rating, then ` (`, the count's decimal text, a space, the label and `)` |
| StarRating.CaptionShowsCount | client/src/components/StarRating.tsx:27 | the count in the caption reads back as the post's rating count |

## Left out

- Storage.DatabaseStorage.GetUserRating: models the corrected lookup on both the post and the session, not the session-only query at server/storage.ts:59. The code as written is `Storage.UserRatingAsWritten`; see Findings.
- Storage.RoundedAverage: does not model the floating-point error of `totalRating / postRatings.length`; the quotient is exact.
- Storage.DatabaseStorage.CreatePost: the contract does not state `GetPost(post.id) == Some(post)` itself. `Storage.FreshPostFound` states it for the appended table, and the method's ensures supply its premises.
- Timestamps are a logical clock that every post or comment insert advances (ratings carry no timestamp), so `createdAt` values never tie. With real `defaultNow()`, rows stamped in the same instant would come back in an order the database picks.
- `averageRating` and `ratingCount` are not declared on `posts` in shared/schema.ts, and no `ratings` table is declared there either. The model assumes the columns the storage code writes, with defaults of 0 for a new post.
- The `rating` column is taken to be an integer. The input check accepts fractional numbers (`Routes.FractionalRatingAccepted`), and what the database does with 2.5 is not modelled. `InsertRating.rating` is an `int`.
- `Object.entries` lists integer-like keys first, in ascending order, and the others in insertion order. The model takes the entries in the order given.
- Routes.ValueText: `String(value)` is modelled for integers and for strings. Integers of magnitude 10^21 or more are written here in plain digits, where `String` switches to exponent form (`1e+21`), and integers beyond 2^53 are taken exactly, though a JavaScript number cannot hold them; `Routes.PostUrl` and `Routes.CommentsUrl` inherit this. Fractional and non-finite numbers are not modelled.
- Validation failures are reported as the first failing field and a kind. Zod's message wording and the `errorSchemas` response shapes are not modelled.
- The 280-character limit is enforced only by the `maxLength` of the page's text boxes (client/src/components/CreatePostForm.tsx:57, client/src/pages/PostDetail.tsx:141), not in the route inputs. `Routes.ContentHasNoLengthLimit` records the missing server-side check.
- Concurrency: every storage call runs to completion alone. Interleaved `createRating` calls, which can each recompute from a different set of rows, are not modelled.
- server/routes.ts (HTTP handlers, `Number(req.params...)` conversion), likes, site ratings, the GIF search and the React pages are not part of this model. Neither is the `toFixed` display of site ratings in SiteRatingInput.tsx.
- Icons, CSS classes and the rest of the rendering in StarRating.tsx are left out. Only the values it shows are modelled.

## Findings

| source | as written | input that shows it | evidently intended | confidence | as-written member | corrected member |
|---|---|---|---|---|---|---|
| server/storage.ts:59 | `eq(ratings.postId, postId) && eq(ratings.userSession, userSession)` is a JavaScript `&&` on two truthy SQL objects, so it evaluates to the second one: only the session is filtered on | ratings `[Rating(1, 2, 4, "s")]`, `getUserRating(1, "s")` returns the rating of post 2 | `and(eq(...), eq(...))`: the session's rating of that post | not executed | Storage.UserRatingAsWritten, Storage.UserRatingAsWrittenIgnoresPost | Storage.UserRating, Storage.DatabaseStorage.GetUserRating |
