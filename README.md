# Book quote shorts: a Dafny model of the quote store and its client logic

The application serves short book quotes. An administrator curates the
quotes, readers page through them or draw random ones, signed-in users like
and unlike them, and a dashboard shows per-category statistics. This
project models the server's quote store and like ledger, with the schemas
behind them. It also models the small pieces of pure logic around them:
- the request validator;
- the registration form's password rules;
- the carousel's index stepping;
- the admin dashboard's figures;
- the authentication reducer;
- the response normaliser of the quotes hook.

Module by module:

- `Basics` (basics.dfy): `Option` and `Result`, plus `Min` and `Abs`.
- `Text` (text.dfy): JavaScript `String.prototype.trim`, over the whitespace set of the ECMAScript specification.
- `QuoteSchema` (quote_schema.dfy): the quote document. It covers the required, trimmed and length-bounded text paths, the category enumeration, the defaults, create and update validation, and the `popularityScore` virtual.
- `LikeSchema` (like_schema.dfy): the like document, the ledger of like documents, its unique (user, quote) index and the per-quote like count.
- `QuoteFeed` (quote_feed.dfy): the query part of `getQuotes`, as pure functions. It covers page and limit defaults, the category filter, the sort orders, skip/limit, the page count and the `$sample` branch.
- `QuoteStats` (quote_stats.dfy): the `$group` pipeline of `getQuoteStats`.
- `QuoteStore` (quote_store.dfy): the store as a class `Store`. Its fields are a map from id to quote, the collection's natural order, the like ledger and the next id. Each controller action is a method on it. Pure functions and lemmas state what each action does to the collections.
- `Validation` (validation.dfy): the `validateQuote` middleware chain.
- `Register` (register.dfy): the password checks and submit guards of the registration page.
- `ClientData` (client_data.dfy): the response shapes, the `useQuotes` normalisation, and the list fallbacks of the carousel and the dashboard.
- `QuoteCarousel` (carousel.dfy): a class `Carousel` holding `currentIndex` with the next, previous and dot-select methods.
- `Admin` (admin.dfy): the dashboard guard and its four aggregates.
- `Auth` (auth.dfy): the authentication reducer and its initial state.

Modelling choices that run through the project:

- The clock is a parameter `now` of every writing operation. The model stamps `createdAt` and `updatedAt` with it on create, and `updatedAt` on every later write, as Mongoose's `timestamps` do for a body that carries neither.
- The randomness of `$sample` is a parameter `draws`, a sequence of naturals. Each draw picks one of the remaining matching documents.
- Ids are naturals handed out by the store in increasing order. The feed's input is the collection in insertion order.
- Page and limit arrive already parsed: `parseInt(x) || d` is modelled as an optional integer that falls back to `d` when it is missing or zero.
- The store keeps a like counter on each quote and a ledger of like documents. "The counter equals the number of like documents of its quote" is not part of the store's invariant, because create and update accept counters from the request body. The toggle, the feed, single get and delete preserve it; the lemmas and method contracts say so.

## Model

| member | source | states |
|---|---|---|
| Text.Trim | server/models/Quote.js:7 | the result is the input with a whitespace-only prefix and a whitespace-only suffix cut off, has no whitespace at either end, and is empty exactly when the input is all whitespace |
| Text.TrimStartShape | server/models/Quote.js:7 | trimming the start keeps the longest suffix that begins with a non-space; everything dropped is whitespace |
| Text.TrimEndShape | server/models/Quote.js:7 | trimming the end keeps the longest prefix that ends with a non-space; everything dropped is whitespace |
| Text.TrimIgnoresPadding | server/models/Quote.js:7 | whitespace added at either end does not change the trimmed value |
| Text.TrimFixedPoint | server/models/Quote.js:7 | a string is its own trim exactly when it has no whitespace at either end |
| Text.TrimIdempotent | server/models/Quote.js:7 | trimming twice is trimming once |
| QuoteSchema.ParseCategory | server/models/Quote.js:26-30 | a string is admitted exactly when it is the stored name of a category, and it maps to that category |
| QuoteSchema.CategoryRoundTrip | server/models/Quote.js:28 | every category's stored name parses back to that category |
| QuoteSchema.TextViolationsEmpty | server/models/Quote.js:4-21 | a text path raises no violation exactly when it is absent on update, or when its trimmed value has length 1..max |
| QuoteSchema.ViolationsEmpty | server/models/Quote.js:4-30 | a body passes the schema exactly when each present text path trims to length 1..max, the three text paths are present on create, and a given category is in the enumeration |
| QuoteSchema.TrimmedIsStored | server/models/Quote.js:4-21 | a value accepted by a text path is stored trimmed, non-empty and within its maximum |
| QuoteSchema.TrimAllTrimmed | server/models/Quote.js:31-34 | every stored tag is trimmed |
| QuoteSchema.AppliedWellFormed | server/models/Quote.js:3-46 | writing a body that passes validation keeps a stored document within the schema's constraints |
| QuoteSchema.NewQuote | server/models/Quote.js:3-51 | creation succeeds exactly when the body has no violations; a failure reports exactly those violations; a created document meets the schema and carries the assigned id |
| QuoteSchema.NewQuoteAccepts | server/models/Quote.js:4-30 | creation succeeds exactly when quote, bookTitle and author are present and trim to 1..500, 1..200 and 1..100 characters, and any given category is in the enumeration; a failure lists at least one violation |
| QuoteSchema.NewQuoteFields | server/models/Quote.js:22-48 | a created document has both timestamps at the creation time (a body's own timestamps are not modelled), trimmed text, bgColor `#4F46E5`, category fiction, no tags, likes 0, views 0 and isActive true unless the body gives them, and trimmed tags when it does |
| QuoteSchema.UpdatedQuote | server/controllers/quoteController.js:127-130 | an update succeeds exactly when the paths it sets pass their validators, reports exactly the violations otherwise, keeps the id, and keeps a well-formed document well-formed |
| QuoteSchema.Violations | server/models/Quote.js:4-30 | the violations come in schema path order (quote, bookTitle, author, category) with at most one per path, and a create body missing any of the three required paths has at least one |
| QuoteSchema.Apply | server/controllers/quoteController.js:127 | writing a body keeps the id and createdAt, stamps updatedAt, and leaves the counters alone unless the body sets them |
| QuoteSchema.UpdatedQuoteAccepts | server/controllers/quoteController.js:127-130 | with `runValidators`, an update succeeds exactly when each text path it sets trims to length 1..max and any category it sets is in the enumeration |
| QuoteSchema.UpdatedQuoteFields | server/controllers/quoteController.js:127-130 | each path the body sets is overwritten, counters included; each path it leaves out keeps its value; createdAt is kept and updatedAt is the write time |
| QuoteSchema.EmptyUpdateTouchesOnlyTimestamp | server/models/Quote.js:48 | an update with an empty body changes nothing but updatedAt |
| QuoteSchema.PopularityTracksCounters | server/models/Quote.js:59-61 | the popularity score moves by twice the change in likes plus the change in views |
| QuoteSchema.NewQuoteScoresZero | server/models/Quote.js:35-61 | a quote created without counters in the body has popularity score 0 |
| QuoteSchema.PopularityScore | server/models/Quote.js:59-61 | with non-negative counters the score is at least the views and at least twice the likes |
| LikeSchema.CreateLike | server/models/Like.js:4-19 | creating a like succeeds exactly when user and quote are both given and the pair is new. Then it appends one timestamped document, adds exactly that pair, and keeps pairs unique. Otherwise it fails with the reason and leaves the ledger as it was |
| LikeSchema.FindLike | server/controllers/quoteController.js:174 | the lookup finds a document exactly when the pair is in the ledger, and the one it returns has that pair |
| LikeSchema.CountFor | server/models/Like.js:9-13 | a quote's like count is at most the number of like documents, and is zero exactly when no like document references it |
| LikeSchema.RemoveAtPairs | server/controllers/quoteController.js:178 | deleting one like document of a unique ledger removes exactly its pair and keeps the rest unique |
| LikeSchema.CountIsPairCount | server/models/Like.js:19 | under the unique index, a quote's number of like documents is the number of distinct users who like it |
| LikeSchema.UniquenessIsPerPair | server/models/Like.js:19 | the same user may like another quote and another user the same quote; only the same pair again is refused |
| QuoteFeed.LimitNonZero | server/controllers/quoteController.js:9-11 | limit and page are never zero; without query values they are 10 and 1, and skip is 0 |
| QuoteFeed.CeilDivIsCeiling | server/controllers/quoteController.js:62 | the page count is the ceiling of total / limit, for either sign of the limit |
| QuoteFeed.Filter | server/controllers/quoteController.js:15-18 | the query keeps exactly the active documents, of the given category when one is given and is not `all` |
| QuoteFeed.FilterDistinct | server/controllers/quoteController.js:15-18 | filtering a collection with distinct ids keeps them distinct |
| QuoteFeed.SortDesc | server/controllers/quoteController.js:20-44 | the sort result is in descending order of the key and is a permutation of its input |
| QuoteFeed.InsertSorted | server/controllers/quoteController.js:44 | one insertion into a descending sequence keeps it descending |
| QuoteFeed.InsertMultiset | server/controllers/quoteController.js:44 | one insertion adds exactly the inserted document |
| QuoteFeed.SortDistinct | server/controllers/quoteController.js:44 | sorting keeps ids distinct |
| QuoteFeed.Window | server/controllers/quoteController.js:45-46 | skip/limit yields the documents at positions skip up to skip + n, none when skip is past the end, and never more than n |
| QuoteFeed.Sample | server/controllers/quoteController.js:30-33 | the sample has min(size, number of matches) documents, all drawn from the matches without repetition |
| QuoteFeed.SampleDistinct | server/controllers/quoteController.js:30-33 | a sample from documents with distinct ids has distinct ids |
| QuoteFeed.Feed | server/controllers/quoteController.js:7-68 | the query fails exactly when the sample size is negative (random) or skip is negative (otherwise) |
| QuoteFeed.UnknownSortIsLatest | server/controllers/quoteController.js:13-41 | a sortBy other than `popular` and `random`, a missing one included, gives the same response as `latest` |
| QuoteFeed.ListingBounds | server/controllers/quoteController.js:43-64 | a listing holds at most limit documents and at most total; a non-empty page starts inside the matches |
| QuoteFeed.FeedPagedWindow | server/controllers/quoteController.js:43-64 | a non-random listing has the skip..skip+limit slice of the sorted matches, the number of matches as total, the page number, and pages = ceil(total / limit); count is within the limit |
| QuoteFeed.FeedPagedOrder | server/controllers/quoteController.js:20-46 | a non-random listing is sorted by the requested key, holds only active matching documents, and repeats none |
| QuoteFeed.FeedSampledContract | server/controllers/quoteController.js:28-38 | a random response is a sample of min(limit, matches) distinct active matching documents, carries no total or pages, and does not depend on the page |
| QuoteFeed.PageArithmetic | server/controllers/quoteController.js:11-62 | position i lies on page i / limit + 1, at offset i mod limit, and that page is within the page count |
| QuoteFeed.PageCoverage | server/controllers/quoteController.js:9-62 | with a positive limit, every match in sorted position i is returned on page i / limit + 1 at offset i mod limit, and that page is within the reported page count |
| QuoteFeed.WindowCovers | server/controllers/quoteController.js:43-62 | a listing whose window spans position i returns the i-th sorted match at offset i - skip |
| QuoteStats.StatFor | server/controllers/quoteController.js:209-215 | a group of a category that occurs has a positive count, and its average likes times its count is its total likes |
| QuoteStats.AverageTimesCount | server/controllers/quoteController.js:214 | the average times the count is the total |
| QuoteStats.CountInPositive | server/controllers/quoteController.js:210-211 | a category has a positive count exactly when some quote has it |
| QuoteStats.StatsSound | server/controllers/quoteController.js:207-217 | every group reports a positive count and the exact sums of likes and views of its category, over all quotes, active or not |
| QuoteStats.StatsAverageExact | server/controllers/quoteController.js:214 | in every group, avgLikes times count equals totalLikes |
| QuoteStats.StatsComplete | server/controllers/quoteController.js:209-210 | there is a group for a category exactly when some quote has that category |
| QuoteStats.StatsOverMembers | server/controllers/quoteController.js:209-215 | every group comes from a category in the list and is that category's group |
| QuoteStats.StatsIgnoreOtherFields | server/controllers/quoteController.js:207-217 | the statistics depend only on each quote's category, likes and views; isActive plays no part |
| QuoteStats.StatsPartition | server/controllers/quoteController.js:211 | the group counts add up to the number of quotes |
| QuoteStats.StatsExample | server/controllers/quoteController.js:207-217 | two fiction quotes with 3 and 5 likes and a poetry quote with none give fiction {2, 8, 4.0} and poetry {1, 0, 0.0} |
| QuoteStore.ConsistentAfterCreate | server/controllers/quoteController.js:102 | adding a well-formed document under the next id keeps the store's invariant |
| QuoteStore.ConsistentAfterDelete | server/controllers/quoteController.js:155 | removing a document keeps the store's invariant while its like documents stay |
| QuoteStore.ConsistentUnderCounters | server/controllers/quoteController.js:53 | changing counters and timestamps only keeps the store's invariant |
| QuoteStore.ViewAllShape | server/controllers/quoteController.js:51-55 | the view increments keep every id; they change nothing but views and updatedAt |
| QuoteStore.ViewAll | server/controllers/quoteController.js:51-55 | the increments keep the set of stored ids and leave every unlisted quote as it was |
| QuoteStore.ViewAllEffect | server/controllers/quoteController.js:51-55 | with distinct ids, each listed quote gets exactly one more view and every other quote stays as it was |
| QuoteStore.ListingViews | server/controllers/quoteController.js:43-63 | after a paged listing, each returned quote has exactly one more view and every other quote is unchanged; a sampled or failed query changes no quote |
| QuoteStore.ApplyViews | server/controllers/quoteController.js:51-55 | the loop of increments produces the stated map of views |
| QuoteStore.TogglePairs | server/controllers/quoteController.js:174-189 | the toggle removes the caller's pair if present and adds it otherwise, and keeps pairs unique |
| QuoteStore.ToggleTwice | server/controllers/quoteController.js:174-189 | toggling the same pair twice restores the set of pairs |
| QuoteStore.ToggleCount | server/controllers/quoteController.js:174-189 | the toggle changes the like count of the caller's quote by one, down if the pair was there and up otherwise, and no other count |
| QuoteStore.LikeStepConsistent | server/controllers/quoteController.js:169-200 | the toggle keeps pairs unique and keeps every counter equal to its like count; `liked` holds exactly when the pair was absent before, and exactly when it is present after |
| QuoteStore.LikeStep | server/controllers/quoteController.js:169-200 | a toggle never adds or removes a quote, changes no quote but the caller's, and moves that quote's count up by one when it reports liked and down by one otherwise |
| QuoteStore.LikeStepTwice | server/controllers/quoteController.js:174-196 | two toggles by the same user give opposite flags, restore the pairs, and restore every quote's likes, with nothing but updatedAt changed |
| QuoteStore.LikeSequenceExample | server/controllers/quoteController.js:174-196 | like, like by another user, unlike gives flags true, true, false, one like left and only the second user's pair |
| QuoteStore.RemoveId | server/controllers/quoteController.js:155 | deleting from the order removes exactly that id |
| QuoteStore.DocumentsDistinct | server/controllers/quoteController.js:43 | under the store invariant, the scan of the collection holds every stored document, each with its own id |
| QuoteStore.DocumentCount | server/controllers/quoteController.js:207 | the documents the store holds are as many as the ids it maps |
| QuoteStore.Store.GetQuotes | server/controllers/quoteController.js:7-68 | the response is the feed of the collection before the call; the quotes are then those with the returned ones viewed; and nothing else changes |
| QuoteStore.Store.GetQuote | server/controllers/quoteController.js:73-95 | a missing or inactive id is not found and changes nothing; otherwise views rise by one, updatedAt is set, and the response shows the new value; like counters that matched the like documents still match |
| QuoteStore.Store.CreateQuote | server/controllers/quoteController.js:100-111 | the response is schema creation under the next id; a created quote is added at the end of the order; a rejected body changes nothing |
| QuoteStore.Store.UpdateQuote | server/controllers/quoteController.js:116-139 | a missing id is not found; otherwise the body is validated and written as a whole, or rejected with its violations, and nothing else changes |
| QuoteStore.Store.DeleteQuote | server/controllers/quoteController.js:144-164 | a missing id is not found and changes nothing; otherwise exactly that quote goes while all like documents stay |
| QuoteStore.Store.LikeQuote | server/controllers/quoteController.js:169-200 | the new quotes, ledger and flag are one toggle step of the old ones; the counter equals the like count afterwards if it did before |
| QuoteStore.Store.GetQuoteStats | server/controllers/quoteController.js:205-226 | the response is the grouping of all stored quotes, and the group counts add up to the number of quotes |
| Validation.ValidateQuote | server/middleware/validation.js:3-25 | a rejection has status 400 and at least one error; a request passed on carries the trimmed values of the three checked paths |
| Validation.ValidateAccepts | server/middleware/validation.js:4-15 | the request is passed on exactly when quote, bookTitle and author are present and trim to 1..500, 1..200 and 1..100 characters |
| Validation.ErrorsNameFailingFields | server/middleware/validation.js:4-21 | a path appears in the error list, with its sanitised value and its own message, exactly when its check fails; there are at most three errors |
| Validation.WhitespaceRejected | server/middleware/validation.js:5-6 | a whitespace-only quote is rejected, with an error for the quote path |
| Validation.PaddingIgnored | server/middleware/validation.js:5-6 | whitespace around the quote changes neither the decision nor the body passed on |
| Validation.ValidateIdempotent | server/middleware/validation.js:4-15 | a body the validator passed on passes again unchanged |
| Validation.ValidatedCreate | server/middleware/validation.js:16-24 | a body the validator passes on can fail creation only on the category enumeration |
| Validation.Sanitised | server/middleware/validation.js:5 | the sanitised value is trimmed, and a missing path reads as the empty string |
| Register.HasDigit | client/src/pages/Register.jsx:32 | the test holds exactly when the password contains an ASCII digit |
| Register.HasSpecial | client/src/pages/Register.jsx:33 | the test holds exactly when the password contains one of ``!@#$%^&*(),.?":{}\|<>`` |
| Register.Checks | client/src/pages/Register.jsx:30-35 | minLength holds exactly for six or more characters, hasNumber exactly when the password contains a digit, hasSpecialChar exactly when it contains a special character, passwordsMatch exactly for equal non-empty entries, and when all four pass the entries are equal and the password has a digit and a special character |
| Register.SubmitDecision | client/src/pages/Register.jsx:37-45 | registration proceeds exactly when the password has six characters, a digit and a special character, and the confirmation equals it; every other submission stops at the requirements guard |
| Register.MismatchGuardUnreachable | client/src/pages/Register.jsx:47-50 | the passwords-differ guard never fires |
| Register.SubmitExamples | client/src/pages/Register.jsx:30-50 | `abc1!x` twice registers; a different confirmation, a password without a digit, or one of four characters does not |
| Register.HandleSubmit | client/src/pages/Register.jsx:39-50 | a submission never stops at the passwords-differ guard, and one that goes on to registration has equal entries of six or more characters |
| ClientData.Normalise | client/src/hooks/useQuotes.js:12-18 | the result's data field is always an array |
| ClientData.NormaliseCases | client/src/hooks/useQuotes.js:12-17 | a body with a data array is returned unchanged; a bare array becomes data with its length as total; anything else becomes empty data with total 0 |
| ClientData.NormaliseIdempotent | client/src/hooks/useQuotes.js:12-18 | normalising a normalised value changes nothing |
| ClientData.NormalisedListsAgree | client/src/components/QuoteCarousel.jsx:19-23 | after the hook the carousel and the dashboard read the same list, the one the carousel's fallbacks find in the raw body |
| ClientData.RawArrayNeedsHook | client/src/pages/Admin.jsx:68 | on a raw bare array the dashboard's fallback finds no quotes; behind the hook it finds them all |
| QuoteCarousel.StepsInRange | client/src/components/QuoteCarousel.jsx:28-36 | next and previous land inside a non-empty list from any index |
| QuoteCarousel.Next | client/src/components/QuoteCarousel.jsx:28-31 | on a non-empty list the next index is inside it; on an empty list the index does not move |
| QuoteCarousel.Prev | client/src/components/QuoteCarousel.jsx:33-36 | on a non-empty list the previous index is inside it; on an empty list the index does not move |
| QuoteCarousel.NextClosed | client/src/components/QuoteCarousel.jsx:30 | inside the list, next moves one place on and wraps from the last to the first |
| QuoteCarousel.PrevClosed | client/src/components/QuoteCarousel.jsx:35 | inside the list, previous moves one place back and wraps from the first to the last |
| QuoteCarousel.PrevNextInverse | client/src/components/QuoteCarousel.jsx:28-36 | from a position in the list, previous undoes next and next undoes previous |
| QuoteCarousel.AdvanceWithin | client/src/components/QuoteCarousel.jsx:30 | short of the end of the list, k next steps move exactly k places |
| QuoteCarousel.FullCircle | client/src/components/QuoteCarousel.jsx:30 | n next steps on a list of n quotes return to the starting index |
| QuoteCarousel.Carousel.Reload | client/src/components/QuoteCarousel.jsx:19-23 | new data replaces the list through the carousel's fallbacks and keeps the index |
| QuoteCarousel.Carousel.NextQuote | client/src/components/QuoteCarousel.jsx:28-31 | the index becomes (i + 1) mod n, does not change on an empty list, and stays in range |
| QuoteCarousel.Carousel.PrevQuote | client/src/components/QuoteCarousel.jsx:33-36 | the index becomes (i - 1 + n) mod n, does not change on an empty list, and stays in range |
| QuoteCarousel.Carousel.SelectDot | client/src/components/QuoteCarousel.jsx:139-142 | a dot sets the index to its own position, which is in range |
| QuoteCarousel.Carousel.Indicator | client/src/components/QuoteCarousel.jsx:152 | while the index is in range of a non-empty list, the indicator shows currentIndex + 1 of n, a value in 1..n |
| QuoteCarousel.NextThenPrev | client/src/components/QuoteCarousel.jsx:28-36 | pressing next then previous leaves the carousel where it was |
| QuoteCarousel.ShrinkingReload | client/src/components/QuoteCarousel.jsx:19-30 | after showing the third of three quotes, a reload with one quote leaves the index at 2, past the end of the list |
| Admin.SignedOutDenied | client/src/pages/Admin.jsx:23 | after a logout the dashboard is denied |
| Admin.DashboardNeedsSignIn | client/src/pages/Admin.jsx:23-32 | in every session that starts signed out, a visitor shown the dashboard is authenticated |
| Admin.DashboardAfterLogin | client/src/pages/Admin.jsx:23-32 | after a login the dashboard opens exactly for an account whose role is `admin` |
| Admin.ZeroTotalFallsBack | client/src/pages/Admin.jsx:69 | a total of 0 or a missing total is replaced by the number of quotes |
| Admin.TotalQuotesAfterHook | client/src/pages/Admin.jsx:68-69 | behind the hook, the figure is the server's non-zero total, and otherwise the number of quotes the body held |
| Admin.MostLiked | client/src/pages/Admin.jsx:71 | the figure is at least every quote's likes and is one of them, or 0 for an empty list |
| Admin.TotalLikesBound | client/src/pages/Admin.jsx:70-71 | the total likes is at most the number of quotes times the most likes |
| Admin.SumBelow | client/src/pages/Admin.jsx:70 | a bound on every quote's likes bounds the total by the count times the bound |
| Admin.TotalLikesAtLeastMost | client/src/pages/Admin.jsx:70-71 | without negative counts, the total likes is at least the most likes |
| Admin.TotalLikesSnoc | client/src/pages/Admin.jsx:70 | one more quote adds its likes, or 0 if it has none, to the total |
| Admin.TotalLikes | client/src/pages/Admin.jsx:70 | without negative counts the total likes is not negative |
| Admin.CategorySetMembers | client/src/pages/Admin.jsx:72 | the set holds exactly the non-empty categories present in the list |
| Admin.CategoriesAtMostQuotes | client/src/pages/Admin.jsx:72 | there are never more distinct categories than quotes |
| Auth.InitialSignedOut | client/src/contexts/AuthContext.jsx:30-33 | the initial state has no user and is not authenticated |
| Auth.LoginEffect | client/src/contexts/AuthContext.jsx:7-12 | LOGIN sets the user to the payload's user and authenticates |
| Auth.LogoutResets | client/src/contexts/AuthContext.jsx:13-18 | LOGOUT from any state is the initial state, so a second LOGOUT changes nothing |
| Auth.LoadUserEffect | client/src/contexts/AuthContext.jsx:19-24 | LOAD_USER sets the user to the payload and authenticates exactly when there is one |
| Auth.UnrecognisedIgnored | client/src/contexts/AuthContext.jsx:25-26 | an action of any other type leaves the state unchanged |
| Auth.Reduce | client/src/contexts/AuthContext.jsx:5-28 | every action keeps "a recorded user is authenticated", and LOGOUT yields the initial state |
| Auth.ReducePreservesCoherent | client/src/contexts/AuthContext.jsx:5-28 | every action keeps "a recorded user is authenticated" |
| Auth.RunPreservesCoherent | client/src/contexts/AuthContext.jsx:5-33 | every sequence of actions keeps "a recorded user is authenticated" |
| Auth.RunAppend | client/src/contexts/AuthContext.jsx:5-28 | dispatching a then b is dispatching a, then b from the state a reached |
| Auth.EndsWithLogout | client/src/contexts/AuthContext.jsx:13-18 | a session that ends with LOGOUT ends in the initial state |
| Auth.LoginWithoutUser | client/src/contexts/AuthContext.jsx:7-12 | a LOGIN whose payload has no user leaves the state authenticated with no user |

## Left out

- Network and HTTP are left out: routing, response framing, status codes other than the validator's 400, the `success` and `message` fields, `next(error)` propagation, the admin and authentication route guards, rate limiting, and process setup. The store methods are callable by anyone.
- Concurrency is left out. The view increments of `Promise.all` run one after another, and overlapping toggles are not modelled. A duplicate-like race, where the unique index rejects the second `Like.create`, cannot arise sequentially.
- MongoDB ObjectIds are replaced by natural ids from a counter. Casting a malformed id, which makes the driver throw, is not modelled. Because liking never checks that the quote exists, a like may name an id the store has not issued yet, and a quote created later under that id starts with 0 likes but a positive like count. Real ObjectIds are fresh, so this cannot happen in the program.
- QuoteSchema.NewQuoteFields: a body's own `createdAt`, `updatedAt` and `_id` are not modelled. `Quote.create(req.body)` (server/controllers/quoteController.js:102) hands them to Mongoose, whose timestamps hook keeps a `createdAt` the new document already has, so the program can store a backdated creation time that the `latest` sort then uses. The model always stamps the write time and assigns the next id. Mongoose's own code is not part of this model.
- Sort ties are left open in MongoDB. The model sorts with a stable insertion sort over the collection's natural order. The proved properties (descending order, permutation, window) do not depend on tie order.
- QuoteFeed.Sample: `$sample` is one deterministic choice per `draws` sequence, not a probability distribution. Only the size, membership and distinctness of the sample are stated.
- QuoteStats.StatFor: `$avg` is a real-valued exact average, not a double, and the order of the groups is the enumeration's order rather than MongoDB's unspecified group order.
- JavaScript `parseInt` is not modelled. The query's page and limit arrive as optional integers, so NaN and strings such as `"3abc"` are outside the model.
- String lengths count characters, not UTF-16 code units. Express-validator's handling of non-string body values (numbers, arrays) is not modelled: every body value is a string or absent.
- Mongoose's casting of body values and `null` or `$unset` in an update body are not modelled. The `toJSON` virtuals, including `popularityScore` in responses, are not modelled either: the score is a function of the document.
- QuoteStore.Store.UpdateQuote: it does not promise that likes equal the like count afterwards, because the body may overwrite the counter. The same holds for QuoteStore.Store.CreateQuote unless the body's likes already equal the count.
- The registration page's form state, `authAPI.register`, the toasts and the navigation after a decision are UI and network, and are left out.
- The carousel's autoplay timer (lines 38-43 of QuoteCarousel.jsx) is left out. Each tick would be a call of `NextQuote`. Swipes map to `NextQuote` and `PrevQuote`. Loading, error and empty screens are rendering.
- The dashboard's create and delete handlers and its loading spinner are network calls and rendering. A `likes` value that is not a number (NaN) is not modelled.
- The authentication provider's local-storage effect and its `login`/`logout` helpers (lines 35-63 of AuthContext.jsx) are left out. The state holds only `user` and `isAuthenticated`, the two fields the reducer ever sets.
- The `useQuotes` hook's caching and stale time are library behaviour of react-query.

## Behaviour worth noting

These are facts about the program that the model keeps as they are:

- Deleting a quote leaves its like documents in place (server/controllers/quoteController.js:155).
- Liking never checks that the quote exists: with no quote, a like document is still created and no counter moves (server/controllers/quoteController.js:169-196).
- The statistics group every quote, inactive ones included, because the pipeline has no `$match` stage (server/controllers/quoteController.js:207-217).
- An update writes every path of the body, counters included (server/controllers/quoteController.js:127-130).
- Creation passes the whole body to the schema, so likes and views start at the body's values when it gives them and at 0 otherwise (server/controllers/quoteController.js:102).
- The random branch returns before any view increment and without total or pages (server/controllers/quoteController.js:28-38).
- After a reload that shrinks the list below the current index, the carousel renders `quotes[currentIndex]`, which is undefined (client/src/components/QuoteCarousel.jsx:104), and the card then reads `quote.bgColor` (client/src/components/QuoteCard.jsx:62). QuoteCarousel.ShrinkingReload exhibits the index that gets there; the model's Indicator requires the index to be in range.
