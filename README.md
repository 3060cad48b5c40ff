# Tier Master, modelled in Dafny

Tier Master is a voting-based ranking site. Users browse items grouped by category and cast at most one vote per category. Every category's items are sorted into relative tiers S, A, B, C and D by where their vote counts fall between the category's minimum and maximum. Users can suggest new items, at most two per month, and an administrator approves or rejects those suggestions.

This project models the server routes and client handlers that carry these rules. The database is one object, `DataStore.Store`, whose fields are the tables:

- `users`, keyed by e-mail;
- `categories`;
- `items`, each with a cached vote counter;
- `votes`;
- `item_suggestions`;
- the id sequences.

The database's queries are functions over those fields: equality filters, `order by` as a stable sort, `limit`, and lookups by key. Every remote call that may fail gets a boolean in a `*Faults` argument. Each route is one method; each page is a class holding its React state.

Two invariants of the vote ledger are stated in `Ledger`:

- at most one vote per (user, category);
- every item's counter equals the number of its vote rows.

`VoteRoute.Post` keeps both. `VoteRoute.Delete` keeps both when its two steps succeed. When the decrement fails after the delete, the method proves that the counter is off by one. Approving a suggestion inserts an item with zero votes, which keeps the counters exact.

The classifier (`Tiers`) compares integers: `5 * (votes - min) >= 4 * range` and so on. `Tiers.TierOfIsScoreTier` proves this equal to the source's comparison of `(votes - min) / range` with 0.8, 0.6, 0.4 and 0.2, read as exact rationals. The ranking route and the popular-tiers route contain two identical copies of the classification loop. Both call the one method `Tiers.ClassifyItems`.

Some behaviour of the code that the model keeps as it is:

- The monthly limit is a fixed 2 suggestions for every user. The per-tier table in lib/constants.ts is not consulted.
- A suggestion that is already processed gets 400.
- A retract is two separate store steps: delete, then decrement.
- The ranking route answers 400 when the category id is missing.
- DELETE `/api/vote` answers 400 when the user is unknown.

## Model

| member | source | states |
|---|---|---|
| `Entities.AdjustVotes` | app/vote/page.tsx:194-198 | only the item with the matching id gets `delta` more votes; every other item, all ids, names and categories, and the order are unchanged |
| `Entities.AdjustVotesInverse` | app/vote/page.tsx:253-257 | raising a count and lowering it again restores the item list |
| `Ledger.VotesInCategory` | app/api/vote/route.ts:75-81 | the existing-vote query: exactly the rows of this user in this category |
| `Ledger.VotesOfUserForItem` | app/api/vote/route.ts:160-165 | the retract check query: exactly the rows of this user for this item (matched on the item, not the category) |
| `Ledger.OneVotePerItem` | app/api/vote/route.ts:160-165 | under the per-category rule a user has at most one row for any item, so the `maybeSingle` read returns that row or none |
| `Ledger.CastKeepsCounters` | app/api/vote/route.ts:91-120 | inserting a new row and adding one to that item's counter keeps every counter equal to its row count |
| `Ledger.CastKeepsOneVotePerCategory` | app/api/vote/route.ts:75-89 | a cast passed by the existing-vote check keeps at most one vote per (user, category) |
| `Ledger.CastKeepsVotesMatchItems` | app/api/vote/route.ts:116-120 | a cast for an existing item keeps every vote row pointing at an item of its own category |
| `Ledger.AdjustKeepsVotesMatchItems` | app/api/vote/route.ts:188-190 | changing one counter keeps the item ids distinct and every vote row linked to its item |
| `Ledger.RetractKeepsCounters` | app/api/vote/route.ts:176-194 | deleting the row and then lowering that item's counter by one keeps every counter exact |
| `Ledger.DeleteWithoutDecrementMiscounts` | app/api/vote/route.ts:188-194 | when the decrement fails after the delete, that item's counter is one above its row count |
| `Ledger.RemoveKeepsWellFormed` | app/api/vote/route.ts:176-180 | deleting rows keeps the per-category rule and the row-to-item links |
| `Ledger.AddItemKeepsCounters` | app/api/admin/process-suggestion/route.ts:61-70 | a new item with zero votes, whose id no row refers to, keeps every counter exact |
| `Ledger.AddItemKeepsVotesMatchItems` | app/api/admin/process-suggestion/route.ts:61-70 | a new item keeps every row linked to its item |
| `Ledger.RetractFacts` | app/api/vote/route.ts:160-194 | under the invariants the retract matches exactly one row; removing it keeps the rules; with the decrement the counters are exact again, and without it they are not |
| `Ledger.CastFacts` | app/api/vote/route.ts:75-120 | a user without a vote in the item's category casts a new row; the cast keeps the per-category rule, the links, the item key and exact counters |
| `DataStore.ItemsInCategory` | app/api/ranking/get-items/route.ts:32-35 | an item is in the result exactly when it is in the table and has the category |
| `DataStore.InsertDescMultiset` | app/api/ranking/get-items/route.ts:36 | one insertion step of the sort adds exactly the inserted row |
| `DataStore.InsertDescAtMost` | app/api/ranking/get-items/route.ts:36 | an insertion step keeps an upper bound on the keys |
| `DataStore.InsertDescSorted` | app/api/ranking/get-items/route.ts:36 | an insertion step keeps the order descending |
| `DataStore.SortDescFacts` | app/api/ranking/get-items/route.ts:36 | `order(..., descending)` returns the same rows as a permutation, keys not increasing |
| `DataStore.Take` | app/api/home/get-popular-tiers/route.ts:44 | `limit(n)` returns a prefix of exactly `n` rows, or all rows when there are at most `n` |
| `DataStore.TakeDropsOnlyLower` | app/api/home/get-popular-tiers/route.ts:43-44 | on rows in descending order, the limit keeps a sub-bag and no dropped row has a larger key than a kept one |
| `DataStore.TakeKeepsSorted` | app/api/home/get-popular-tiers/route.ts:43-44 | a limit keeps the descending order |
| `DataStore.TopByKey` | app/api/home/get-popular-tiers/route.ts:43-44 | `order(key, desc).limit(n)`: exactly `min(n, rows)` of the rows, as a sub-bag, keys descending, and no row left out has a larger key than a row kept |
| `DataStore.TopItems` | app/api/home/get-popular-tiers/route.ts:39-44 | exactly `min(n, count)` rows of the category, a sub-bag of its rows, votes descending, and no row of the category left out has more votes than a row kept: its `n` most-voted items |
| `DataStore.CategoryItems` | app/api/ranking/get-items/route.ts:32-36 | the category's items, votes descending, as a permutation of the filtered rows |
| `DataStore.FirstCategories` | app/api/home/get-popular-tiers/route.ts:20-29 | exactly `min(n, rows)` categories of the table, as a sub-bag, ids ascending, and every category left out has an id at least that of every one kept: the `n` smallest ids |
| `DataStore.FindItem` | app/api/vote/route.ts:55-59 | the index of the row with the id, or none when no row has it |
| `DataStore.FindCategory` | app/api/ranking/get-items/route.ts:20-24 | the category row with the id, or none when no row has it |
| `Tiers.MaxVotes` | app/api/ranking/get-items/route.ts:54 | an upper bound of the counts that one of the items attains |
| `Tiers.MinVotes` | app/api/ranking/get-items/route.ts:55 | a lower bound of the counts that one of the items attains |
| `Tiers.Range` | app/api/ranking/get-items/route.ts:56 | `max - min`, or 1 when they are equal; always positive |
| `Tiers.TierOfIsScoreTier` | app/api/ranking/get-items/route.ts:60-72 | the integer comparison gives the same tier as comparing `(votes - min) / range` with 0.8, 0.6, 0.4 and 0.2, inclusive, first match winning |
| `Tiers.TierOfMonotone` | app/api/ranking/get-items/route.ts:60-72 | more votes never give a lower tier |
| `Tiers.ClassifyItems` | app/api/ranking/get-items/route.ts:43-73 | the bucket loop computes the classification specified by `Classify` |
| `Tiers.PutFacts` | app/api/ranking/get-items/route.ts:62-72 | one `push` adds exactly one item to the buckets |
| `Tiers.PutBucket` | app/api/ranking/get-items/route.ts:62-72 | one `push` changes only the chosen bucket |
| `Tiers.FillContents` | app/api/ranking/get-items/route.ts:59-73 | pushing every item puts each one into the buckets exactly once |
| `Tiers.FillMembers` | app/api/ranking/get-items/route.ts:59-73 | an item is in bucket `t` exactly when it is one of the items and its tier is `t` |
| `Tiers.ClassifyPartitions` | app/api/ranking/get-items/route.ts:53-73 | the five buckets together are a permutation of the items, their sizes sum to the item count, and every item is in the bucket of its tier and no other |
| `Tiers.ClassifyEmpty` | app/api/ranking/get-items/route.ts:44-53 | no items give five empty buckets |
| `Tiers.FillAllInOneTier` | app/api/ranking/get-items/route.ts:59-73 | when every item has the same count, the bucket of that count's tier is the whole list in order and the others are empty |
| `Tiers.ClassifyTied` | app/api/ranking/get-items/route.ts:56-72 | equal counts: the range falls back to 1 and every item is in D |
| `Tiers.ClassifyExtremes` | app/api/ranking/get-items/route.ts:54-72 | with two distinct counts, the items with the maximum are in S and those with the minimum in D, so neither bucket is empty |
| `Tiers.ClassifyMonotone` | app/api/ranking/get-items/route.ts:60-72 | within a category an item with more votes never lands in a lower tier |
| `Tiers.FillKeepsOrder` | app/api/ranking/get-items/route.ts:59-73 | each bucket keeps the order of the input |
| `Tiers.ClassifyKeepsOrder` | app/api/ranking/get-items/route.ts:36-73 | a votes-descending input gives votes-descending buckets |
| `Tiers.ScoreExamples` | app/api/ranking/get-items/route.ts:62-72 | counts 0, 25, 50, 75, 100 give D, C, B, A, S; equal counts give range 1 and D |
| `RankingRoute.GetItems` | app/api/ranking/get-items/route.ts:9-86 | 400 without a category id, 404 when the category read fails or finds nothing, 500 when the items read fails; otherwise the category, its items votes descending, and their classification, whose buckets are a permutation of the items and keep the order |
| `PopularTiersRoute.Entry` | app/api/home/get-popular-tiers/route.ts:38-92 | a failed items read gives `items: []` and no `tieredItems`; otherwise the top five items and their classification relative to those five only |
| `PopularTiersRoute.BuildEntry` | app/api/home/get-popular-tiers/route.ts:38-91 | the per-category callback computes exactly the entry `Entry` specifies, running the classification loop on the top five |
| `PopularTiersRoute.MapAllIndex` | app/api/home/get-popular-tiers/route.ts:37-93 | the mapped list has one element per category, element `k` being the image of category `k` |
| `PopularTiersRoute.BuildEntries` | app/api/home/get-popular-tiers/route.ts:37-93 | `categories.map(...)` yields one entry per category, in category order, each the one `Entry` specifies |
| `PopularTiersRoute.EntryIsGood` | app/api/home/get-popular-tiers/route.ts:39-91 | every entry has at most five items of its category, votes descending; an entry that was read holds exactly `min(5, count)` of its category's items, none left out having more votes than one kept, and its buckets hold exactly those items |
| `PopularTiersRoute.EntriesFacts` | app/api/home/get-popular-tiers/route.ts:20-93 | entries built in order from the selected categories keep ascending ids and are all good, and no category without an entry has a smaller id than one with an entry |
| `PopularTiersRoute.GetPopularTiers` | app/api/home/get-popular-tiers/route.ts:17-95 | 500 exactly when the categories read fails; otherwise `min(3, categories)` entries in ascending id order, and every category without an entry has an id at least that of every entry (the three smallest ids, not the most popular); each entry that was read holds its category's five most-voted items (all when fewer), votes descending, classified by the same loop as the ranking route |
| `VoteRoute.Post` | app/api/vote/route.ts:6-129 | 401 without an e-mail, 400 exactly for a failed or empty user or item read, 409 exactly when the existing-vote read succeeds and finds a vote in the item's category, 500 exactly when that read fails or, with no vote found, the procedure call fails; only 200 changes the store: one new row and that item's counter +1; the per-category rule and the links always hold afterwards, and exact counters stay exact |
| `VoteRoute.IncrementVotesAndInsertVote` | app/api/vote/route.ts:116-125 | the cast procedure, called with no vote of the user in the category, adds exactly the new row and raises exactly that counter by one; the store invariants hold after it and exact counters stay exact |
| `VoteRoute.Delete` | app/api/vote/route.ts:132-197 | 401, 400 for an unknown user, 404 exactly when the user has no vote for the item; 200 exactly when the vote exists and neither the delete nor the decrement fails; a failed check read or a failed delete gives 500 and changes nothing; a failed decrement after the delete gives 500 with the row deleted, the counter as it was, and the counters inexact; 200 removes the one row and lowers that counter by one, keeping the counters exact |
| `VoteRoute.DeleteVote` | app/api/vote/route.ts:175-184 | the delete removes exactly one row, the user's row for the item; afterwards the counters are inexact until the decrement, which would make them exact again |
| `VoteRoute.DecrementVotes` | app/api/vote/route.ts:187-194 | the decrement lowers that item's counter by one and changes nothing else; the invariants hold after it |
| `VotePage.RemoveId` | app/vote/page.tsx:200 | the id list without the given id, duplicates still absent |
| `VotePage.FindOtherVoted` | app/vote/page.tsx:177-181 | finds a voted item of the same category with another id, or proves there is none |
| `VotePage.AdjustKeepsClientValid` | app/vote/page.tsx:194-198 | count updates keep the client invariant |
| `VotePage.RemoveKeepsClientValid` | app/vote/page.tsx:200 | dropping a voted id keeps the client invariant |
| `VotePage.AppendKeepsClientValid` | app/vote/page.tsx:259 | appending the clicked item's id keeps the ids distinct and at most one per category when no other voted item is in its category |
| `VotePage.RetractClearsCategory` | app/vote/page.tsx:214-230 | after the other vote is retracted no voted item is left in its category |
| `VotePage.RetractLeavesNoVote` | app/vote/page.tsx:214-230 | after the retract of the other vote the clicked item is still listed and not voted, and no voted item is left in its category |
| `VotePage.FilteredCategories` | app/vote/page.tsx:122 | exactly the categories of the selected group, none when no group is selected |
| `VotePage.FilteredItems` | app/vote/page.tsx:124-126 | exactly the items of the selected category, empty when none is selected |
| `VotePage.Page.constructor` | app/vote/page.tsx:52-57 | the loaded page: items and voted ids given, no click in progress |
| `VotePage.Page.HandleVote` | app/vote/page.tsx:162-279 | ignored while `isVoting`; a voted item sends only its DELETE and an ok answer lowers its count and drops its id; otherwise the other voted item of the category is retracted first, a failed retract stops without a POST, and an ok POST raises the clicked count and appends its id; the client invariant is kept |
| `VotePage.Page.ApplyRetract` | app/vote/page.tsx:191-200 | an ok DELETE lowers only that item's count and drops its id; a failed one changes nothing; the client invariant is kept |
| `VotePage.Page.ApplyCast` | app/vote/page.tsx:250-259 | an ok POST raises only the clicked item's count and appends its id; a failed one changes nothing; the client invariant is kept when no other vote is left in the category |
| `VotePage.Page.FinishCooldown` | app/vote/page.tsx:274-277 | the cooldown clears `isVoting` and the loading id and changes nothing else |
| `ModerationRoute.ReasonOrDefault` | app/api/admin/process-suggestion/route.ts:114 | the given reason, or the default text when it is empty; never empty |
| `ModerationRoute.ApprovedRecord` | app/api/admin/process-suggestion/route.ts:82-90 | approved with the time, the moderator and the new item id; no other field changes |
| `ModerationRoute.RejectedRecord` | app/api/admin/process-suggestion/route.ts:108-116 | rejected with the time, the moderator and the reason or its default; no other field changes |
| `ModerationRoute.Process` | app/api/admin/process-suggestion/route.ts:7-139 | 401 without a session, 400 for an invalid request or a suggestion not pending, 404 when it is not found; 500 exactly when, for a pending suggestion, the item insert or the update fails on approve, or the update fails on reject; approve inserts an item with the suggestion's name and category and zero votes, then updates the row, and a failed update leaves the item and a pending suggestion; reject updates the row only; a 200 leaves the row not pending, so a repeat gets 400; the store invariants are kept |
| `ModerationRoute.InsertItem` | app/api/admin/process-suggestion/route.ts:61-70 | the insert adds one item with the given name and category, zero votes and the next id; the invariants hold and exact counters stay exact |
| `ModerationRoute.UpdateSuggestion` | app/api/admin/process-suggestion/route.ts:82-90 | the update replaces the one row with that id and leaves the rest of the table |
| `ModerationRoute.AddItemFacts` | app/api/admin/process-suggestion/route.ts:61-70 | an item inserted under the next id keeps the item key, the id bound, the links and exact counters |
| `SuggestionsPage.FilteredSuggestions` | app/admin/suggestions/page.tsx:76-79 | tab "all" shows the whole list; another tab shows exactly the suggestions with that status |
| `SuggestionsPage.CountIsTabLength` | app/admin/suggestions/page.tsx:214-226 | the count on a status tab is the length of that tab's list |
| `SuggestionsPage.TabCountsSum` | app/admin/suggestions/page.tsx:214-232 | the pending, approved and rejected counts add up to the "all" count |
| `SuggestionsPage.EmailOrNull` | app/admin/suggestions/page.tsx:105 | the e-mail, or null when it is empty |
| `SuggestionsPage.MarkApproved` | app/admin/suggestions/page.tsx:102-108 | the suggestion with the id becomes approved with time and moderator; the others stay |
| `SuggestionsPage.MarkRejected` | app/admin/suggestions/page.tsx:150-162 | the suggestion with the id becomes rejected with time, moderator and reason; the others stay |
| `SuggestionsPage.ApproveMovesOne` | app/admin/suggestions/page.tsx:102-108 | approving a pending suggestion moves one count from the pending tab to the approved tab |
| `SuggestionsPage.MoveOne` | app/admin/suggestions/page.tsx:214-226 | changing one status from pending moves exactly one count |
| `SuggestionsPage.SameStatuses` | app/admin/suggestions/page.tsx:214-226 | lists with the same statuses have the same tab counts |
| `SuggestionsPage.Page.constructor` | app/admin/suggestions/page.tsx:32-40 | the loaded page: nothing in progress, no modal, no message |
| `SuggestionsPage.Page.HandleApprove` | app/admin/suggestions/page.tsx:82-119 | a no-op while a request is in flight; otherwise one approve request; only `success` updates the list; the message is shown; `processingId` is cleared |
| `SuggestionsPage.Page.OpenRejectModal` | app/admin/suggestions/page.tsx:122-126 | remembers the suggestion, clears the reason, shows the modal |
| `SuggestionsPage.Page.EditReason` | app/admin/suggestions/page.tsx:348 | the reason box sets the reason and nothing else |
| `SuggestionsPage.Page.HandleReject` | app/admin/suggestions/page.tsx:129-174 | a no-op without a current suggestion or while a request is in flight; otherwise one reject request with the entered reason or the default; only `success` updates the list and closes the modal; `processingId` is cleared |
| `SubmitRoute.SuggestionsInWindow` | app/api/submit/route.ts:41-46 | the user's suggestions created between the two window bounds, both inclusive |
| `SubmitRoute.QuotaExceededAtLimit` | app/api/submit/route.ts:57-58 | `count && count >= 2` is exceeded exactly at a count of 2 or more |
| `SubmitRoute.FixedLimitIsFreeLimit` | app/api/submit/route.ts:56-58 | the fixed limit is the free tier's; the premium tier's larger limit is not used |
| `SubmitRoute.NewSuggestion` | app/api/submit/route.ts:66-78 | the inserted row: pending, description null when empty, user name '익명' when missing |
| `SubmitRoute.InsertCount` | app/api/submit/route.ts:41-78 | a new row adds one to the window count exactly when it is the user's and falls inside the window |
| `SubmitRoute.Submit` | app/api/submit/route.ts:7-101 | 401 without a session, 400 without a name or category, 500 exactly when the count read fails or, under the quota, the insert fails, 403 at two suggestions in the window; 200 adds one pending row, and only then does the store change |
| `RemainingRoute.Remaining` | app/api/submit/remaining/route.ts:46-47 | `max(0, 2 - count)` with a null count read as 0; between 0 and 2 |
| `RemainingRoute.RemainingAgreesWithQuota` | app/api/submit/remaining/route.ts:45-47 | something remains exactly when the submit route's quota check admits |
| `RemainingRoute.RemainingAfterSubmit` | app/api/submit/remaining/route.ts:47 | one more suggestion lowers what remains by one, down to zero |
| `RemainingRoute.GetRemaining` | app/api/submit/remaining/route.ts:7-61 | 401 without a session, 500 on a failed count; otherwise the remaining quota and limit 2, with remaining > 0 exactly when a submission would be admitted; read-only |
| `Constants.TierFromId` | lib/constants.ts:2-7 | an id names the tier whose id it is |
| `Constants.TierIdsDistinct` | lib/constants.ts:2-7 | the four tier ids are pairwise distinct, and each one names its tier back |
| `Constants.MonthlySubmissionLimit` | lib/constants.ts:10-15 | a limit exists exactly for the four tier ids |
| `Constants.LimitsOrdered` | lib/constants.ts:10-15 | free 2, premium 10, pro 999, admin 999, non-decreasing in that order |
| `Constants.PricesOfPaidTiers` | lib/constants.ts:18-21 | prices exist only for premium and pro, and premium is cheaper |
| `Constants.BenefitCounts` | lib/constants.ts:24-44 | benefit lists exist for free (3 lines), premium (4) and pro (6), and not for admin |
| `HomePage.PreviewTier` | app/page.tsx:103-105 | the first non-empty tier among S, A and B, otherwise C; never D |
| `HomePage.PreviewOf` | app/page.tsx:103-109 | nothing exactly when the chosen tier is empty; otherwise a prefix of that tier of exactly `min(3, size)` items: its first three, in order |
| `HomePage.RenderTierPreviewAsWritten` | app/page.tsx:101-109 | the page as written throws exactly when the entry has no `tieredItems` |
| `HomePage.RenderTierPreview` | app/page.tsx:101-109 | the corrected preview never throws, shows nothing for an entry without tiers, and otherwise agrees with the page |
| `HomePage.FailedEntryCrashes` | app/page.tsx:103 | the route's entry for a failed items read makes the page as written throw; the corrected preview shows nothing |
| `HomePage.PreviewOfClassified` | app/page.tsx:103-109 | a classified category with two distinct counts previews S; an all-tied one renders nothing |
| `HomePage.PreviewOfEntry` | app/page.tsx:101-109 | a successful popular entry with two distinct counts among its five items previews the top of its S tier |
| `RegisterUserRoute.Register` | app/api/auth/register-user/route.ts:50-99 | a user without a row gets a new one; an existing user is updated only when a provider id is given that differs in id or type; otherwise the row and all other rows stay |
| `RegisterUserRoute.RegisterIdempotent` | app/api/auth/register-user/route.ts:51-99 | repeating a successful registration changes nothing |
| `RegisterUserRoute.RegisterUser` | app/api/auth/register-user/route.ts:6-107 | 400 without an e-mail; 500 exactly when the lookup fails or the insert (new user) or update (changed provider) it leads to fails, with no change; otherwise 200 with the table as `Register` gives it and the id sequence advanced only for a new user |
| `Middleware.AnyPrefix` | middleware.ts:31-33 | true exactly when one of the listed paths is a prefix of the request path |
| `Middleware.Decide` | middleware.ts:19-43 | the callback passed to `auth(...)`: redirect to `/login` exactly when the path is protected and there is no token; otherwise pass |
| `Middleware.ProtectedPrefixes` | middleware.ts:28-33 | a path is protected exactly when it starts with `/vote` or `/submit` |
| `Middleware.LoggedInPasses` | middleware.ts:36-42 | logged-in users are never redirected |
| `Middleware.PrefixExamples` | middleware.ts:28-51 | `/voteX` is protected by the callback's plain prefix test; `/api/vote`, though in the matcher, is not, so the callback lets it pass |
| `AuthConfig.Redirect` | lib/auth-config.ts:20-25 | a url starting with the base url is returned unchanged, any other becomes the base url; the result always starts with the base url |
| `AuthConfig.RedirectIdempotent` | lib/auth-config.ts:23-24 | applying the guard twice equals applying it once |
| `AuthConfig.RedirectKeepsSuffix` | lib/auth-config.ts:23 | the base url followed by any suffix is accepted |
| `AuthConfig.SignIn` | lib/auth-config.ts:28-42 | sign-in is admitted with or without an e-mail |
| `AuthConfig.PrefixAdmitsOtherHost` | lib/auth-config.ts:22-24 | a url on another host whose text begins with the base url is kept |
| `AuthConfig.RedirectSameOrigin` | lib/auth-config.ts:22-24 | the intended guard keeps exactly the urls on the base url's site and agrees with the prefix guard on them |
| `AuthConfig.RedirectSameOriginIdempotent` | lib/auth-config.ts:22-24 | the intended guard is idempotent |

## Left out

- Middleware.Decide: models only the callback passed to `auth(...)` (middleware.ts:19-43). The next-auth wrapper around that callback is library code and is not modelled. With its default rule that a token must be present, the wrapper itself already redirects a request without a token on every matched path, `/api/vote` included (middleware.ts:51), before the callback runs. So `Decide("/api/vote", false) == Pass` describes the callback, not the deployed middleware.
- Concurrency is not modelled; every handler is one sequential step. This leaves out races between a check and a write: the existing-vote check and the procedure call, and the pending check and the update. It also leaves out the parallel reads (`Promise.all`). Nothing is claimed about concurrent safety. The bodies of `increment_votes_and_insert_vote` and `decrement_votes` are not in the repository. They are modelled as atomic steps whose effect the call sites and the replaced two-step code show. `decrement_votes` is modelled as lowering the counter by one with no floor at zero; whether the procedure clamps at zero is not known.
- Floating point is not modelled. The normalized score is compared exactly, as a rational number.
- Calendar computation is not modelled. The month window, `now` and every `processed_at` are integer parameters. The window's end bound in the source is the last day of the month at 00:00, so suggestions made later on that day are not counted. The model counts whatever the given bounds include.
- The 300 ms cooldown timer is not modelled. `VotePage.Page.FinishCooldown` is the step that the timer fires.
- Toasts and status-banner rendering are not modelled, nor JSX, theming, the OAuth provider, Supabase client creation, configuration, and the ad components.
- The admin data plumbing (`seed-items`, `reset`) is not modelled. Neither is `add-item`, which accepts any vote count and so bypasses the counter rule. The thin read wrappers `get-categories`, `get-suggestions` and `user/info` are not modelled. The client copy of registration in `app/providers.tsx` and the form-state pages `app/submit/page.tsx` and `app/admin/seedpage/page.tsx` are not part of this model.
- The initial loads of the vote page and the suggestions page are not modelled; the constructors take the loaded lists.
- The absolute vote-count tier scheme of the item detail views is not part of this model.
- Sort order among rows with equal sort keys is left open by the database. The model fixes it: such rows keep their table order.
- Query parameters and JSON fields are typed: a present category id is an integer, and an absent or falsy field is "" or 0. A non-numeric id string is not modelled.
- VoteRoute.Post: the existing-vote read also errors when more than one row matches. That path is not separate, because under the per-category invariant, which the method requires, at most one row can match.
- VoteRoute.Delete: the check read also errors when more than one row matches. That path is not separate, because under the invariants at most one row can match (`Ledger.OneVotePerItem`).
- RankingRoute.GetItems: `.single()` also errors on a duplicate category id. The method requires the categories' primary key, so that cannot happen.
- ModerationRoute.Process: `item_id` is the new item's id, or null when the id is falsy. Under the store invariant ids are positive, so the null case never arises and is not modelled.
- No role check is added to moderation, and no tier-based quota is added to submission. Neither exists in the code.

## Findings

| source | as written | input that shows it | evidently intended | confidence | as-written member | corrected member |
|---|---|---|---|---|---|---|
| app/page.tsx:103 | the preview reads `tier.tieredItems.S` without checking that `tieredItems` exists | one popular category whose items read fails: the route returns `{category, items: []}` without `tieredItems` (app/api/home/get-popular-tiers/route.ts:46-52), and the preview throws a TypeError, which takes down the page's list | an entry without tiers shows nothing | high; not executed | `HomePage.RenderTierPreviewAsWritten` (exhibited by `HomePage.FailedEntryCrashes`) | `HomePage.RenderTierPreview` |
| lib/auth-config.ts:23 | the redirect guard keeps any url whose text starts with the base url | base url `https://tier.example` and url `https://tier.example.evil.test/`: the url is kept although it is on another host | the comment on line 22 says the guard keeps out external domains: keep only urls on the base url's own site | medium; not executed | `AuthConfig.Redirect` (exhibited by `AuthConfig.PrefixAdmitsOtherHost`) | `AuthConfig.RedirectSameOrigin` |
