# SkillSwap core, modelled in Dafny

SkillSwap is a skill-exchange marketplace: users offer skills, book each
other, and review each other after a booking. Each user has a rank and
points. This project models the parts of its Go backend and React web
client that are logic rather than glue, and proves what they promise.

- **Review aggregation.** The one-to-five star histogram, the total and the mean rating of a list of reviews (`ReviewSummaries`).
- **The review repository.** Creating, saving and deleting a review each recompute the reviewee's stored `rating` and `review_count` from that user's public reviews (`ReviewRepository`).
  - The invariant "every stored rating and count agree with the public reviews" is stated as `RatingsInSync`.
  - Each write is proved to keep it. A save that moves a review to another reviewee is the exception, and that case is shown to break it.
- **The user repository and user service** (`UserRepository`, `UserService`):
  - the selective profile update, where only non-empty fields are written;
  - the points update with its rank recomputation;
  - the profile, rank and top-users queries;
  - get-or-create on sign-in;
  - the username generator, which tries `base`, `base1` … `base999` before falling back to `base_<random>`.
- **The mock catalogue handlers.** Lookup and search over the fixed skill and user lists, with their hand-written substring test (`SkillHandlers`, `UserHandlers`).
- **Clearing the identity provider's state** from the browser's `localStorage` and `sessionStorage` (`AuthStorage`).
- **The currency utilities of the web client** (`Currency`, with worked inputs in `CurrencyExamples`):
  - locale-to-currency resolution with its language fallback;
  - the fixed symbol table;
  - the normalisation of a typed amount.
- **The rank badge and star widget logic** (`RankBadge`, `StarRating`): thresholds, progress, and star fill classification.

The database is modelled as the class `Store.Db`. It holds three tables as sequences of rows in storage order. `UPDATE … WHERE id = ?` is `Store.UpdateWhereId`, which rewrites every matching row. Operations that change a table are methods of a repository or service class whose `db` field refers to that store. Pure lookups and classifications are functions.

Shared helpers:

| module | contents |
|---|---|
| `Wrappers` | `Option`, `Result` |
| `Seqs` | filter, first match, limit, descending insertion sort |
| `Text` | ASCII lower-casing, split at a character, replace, last index, decimal rendering |
| `Models` | the stored records |

## Model

| member | source | states |
|---|---|---|
| Currency.CurrencyFor | SkillSwapWeb/src/utils/currency.ts:102-119 | the resolved code is always a currency of the table or "USD" |
| Currency.GetCurrencyForLocale | SkillSwapWeb/src/utils/currency.ts:50-120 | over the 42-entry table, the result is one of its currencies or "USD" |
| Currency.ExactLocaleMatch | SkillSwapWeb/src/utils/currency.ts:102-105 | a locale that is a key gets a currency it is paired with in the table |
| Currency.ExactPicks | SkillSwapWeb/src/utils/currency.ts:102-105 | the exact lookup returns the currency of the first entry whose key is the locale |
| Currency.LanguageFallback | SkillSwapWeb/src/utils/currency.ts:107-116 | with no exact key, the currency comes from the first entry in declaration order whose key starts with the locale's language and '-' |
| Currency.FallbackPicks | SkillSwapWeb/src/utils/currency.ts:107-116 | the fallback returns the currency of entry i when i is the first entry of the language and no key is the locale |
| Currency.UnknownLanguageIsUsd | SkillSwapWeb/src/utils/currency.ts:118-119 | when no key starts with the locale's language and '-', the result is "USD" |
| CurrencyExamples.EnGbIsGbp | SkillSwapWeb/src/utils/currency.ts:56 | 'en-GB' resolves to GBP by exact match |
| CurrencyExamples.EnZzIsUsd | SkillSwapWeb/src/utils/currency.ts:107-116 | 'en-ZZ' falls back to the first English entry, USD |
| CurrencyExamples.PtBrIsEur | SkillSwapWeb/src/utils/currency.ts:107-116 | 'pt-BR' falls back to 'pt-PT', EUR |
| CurrencyExamples.EmptyLocaleIsUsd | SkillSwapWeb/src/utils/currency.ts:118-119 | the empty locale resolves to USD |
| CurrencyExamples.TableKeysHaveLanguage | SkillSwapWeb/src/utils/currency.ts:52-100 | every key of the table is a two-letter language, '-', and a region |
| Currency.CurrencySymbolFallback | SkillSwapWeb/src/utils/currency.ts:139-157 | a listed code gets its fixed symbol; any other code is its own symbol |
| CurrencyExamples.UsdSymbol | SkillSwapWeb/src/utils/currency.ts:142 | USD's fallback symbol is "$" |
| CurrencyExamples.UnknownCodeIsItsOwnSymbol | SkillSwapWeb/src/utils/currency.ts:157 | an unlisted code falls back to itself |
| Currency.CleanAmount | SkillSwapWeb/src/utils/currency.ts:185 | only digits, '.' and ',' survive, and every one of them survives, so a '-' never does |
| Currency.ParseFloat | SkillSwapWeb/src/utils/currency.ts:201-202 | parsing gives NaN exactly when the string starts neither with a digit nor with '.' and a digit; a parsed value is never negative |
| Currency.ParseCurrencyInput | SkillSwapWeb/src/utils/currency.ts:183-203 | the parsed amount is never negative |
| Currency.NormalizeKeepsDigits | SkillSwapWeb/src/utils/currency.ts:187-199 | normalisation introduces no digit |
| Currency.NoDigitsParsesToZero | SkillSwapWeb/src/utils/currency.ts:201-202 | an input with no digit parses to 0 |
| Currency.CommaDecimalBranch | SkillSwapWeb/src/utils/currency.ts:192-195 | when the last ',' follows the last '.', the result is the period-free string with its first comma, and only that one, turned into the single '.'; commas before it cannot exist, later commas stay, and the digits keep their order |
| Currency.PeriodDecimalBranch | SkillSwapWeb/src/utils/currency.ts:196-199 | otherwise the result is the input with exactly its commas dropped: no comma remains, and the periods and the digits keep their order |
| Currency.NormalizeKeepsDigitOrder | SkillSwapWeb/src/utils/currency.ts:187-199 | in either branch the digits of the normalised string are those of the cleaned string, in the same order |
| Text.IndexOf | SkillSwapWeb/src/utils/currency.ts:194 | the index of the first occurrence, -1 exactly when the character is absent, with no occurrence before it |
| Text.ReplaceFirstChangesFirstOnly | SkillSwapWeb/src/utils/currency.ts:194 | a non-global replace changes the character at the first occurrence and no other position; a string without the character is returned unchanged |
| Text.RemoveAllIsFilter | SkillSwapWeb/src/utils/currency.ts:194-198 | a global replace by the empty string keeps exactly the other characters, in order |
| Text.RemoveAllKeeps | SkillSwapWeb/src/utils/currency.ts:194-198 | deleting a non-digit separator keeps the digits (or the other separator) in order |
| Text.ReplaceFirstKeeps | SkillSwapWeb/src/utils/currency.ts:194 | replacing one separator by another keeps the digits in order |
| CurrencyExamples.ParsePlain | SkillSwapWeb/src/utils/currency.ts:201 | "1234.56" parses to 1234.56 |
| CurrencyExamples.SampleClean | SkillSwapWeb/src/utils/currency.ts:185 | a sample amount made only of digits, '.' and ',' is kept whole by cleaning, whichever separator plays which role |
| CurrencyExamples.SeparatorAfterFirstDigitDropped | SkillSwapWeb/src/utils/currency.ts:194-198 | a thousands separator after the first digit, absent from the rest, is removed and nothing else is |
| CurrencyExamples.ThousandsSeparatorDropped | SkillSwapWeb/src/utils/currency.ts:194-198 | "1,234.56" loses its comma and "1.234,56" its period, one proof for both conventions |
| CurrencyExamples.EuropeanDecimalComma | SkillSwapWeb/src/utils/currency.ts:194 | "1234,56" has its comma turned into the decimal point |
| CurrencyExamples.UsNormalized | SkillSwapWeb/src/utils/currency.ts:187-199 | "1,234.56" takes the period branch and normalises to "1234.56" |
| CurrencyExamples.EuropeanNormalized | SkillSwapWeb/src/utils/currency.ts:187-199 | "1.234,56" takes the comma branch and normalises to "1234.56" |
| CurrencyExamples.SeparatorConventions | SkillSwapWeb/src/utils/currency.ts:183-203 | "1,234.56" and "1.234,56" both parse to 1234.56 |
| CurrencyExamples.Letters | SkillSwapWeb/src/utils/currency.ts:201-202 | "abc" parses to 0 |
| ReviewSummaries.ReviewSummary.GetRatingBreakdown | internal/models/review.go:42-58 | the histogram is rebuilt from scratch as the count of each rating, the total is the number of reviews, and the mean is the sum over the count for a non-empty list and untouched for an empty one; so a repeated call gives the same summary |
| ReviewSummaries.EmptyBreakdown | internal/models/review.go:43-46 | before counting, keys 1..5 are present at zero and nothing else is |
| ReviewSummaries.BreakdownSnoc | internal/models/review.go:49-51 | counting one more review adds one to its rating's bar (creating it if absent) and changes no other bar |
| ReviewSummaries.TallyIsBreakdown | internal/models/review.go:43-52 | counting the reviews one by one from the zeroed five stars gives, for every key, the number of reviews with that rating |
| ReviewSummaries.BreakdownSnocAt | internal/models/review.go:50 | after one more review, a key's bar is its old count plus one exactly when it is the new review's rating |
| ReviewSummaries.BreakdownKeysSnoc | internal/models/review.go:50 | one more review adds exactly its rating to the histogram's keys |
| ReviewSummaries.CountRatingSnoc | internal/models/review.go:50 | one more review adds one to the count of its own rating only |
| ReviewSummaries.AbsentKeyCountsZero | internal/models/review.go:50 | a rating with no bar occurs in no review |
| ReviewSummaries.EveryStarHasItsCount | internal/models/review.go:43-51 | each of the five stars has a bar equal to the number of reviews with that rating, 0 when none has it |
| ReviewSummaries.StarCountsSumToTotal | internal/models/review.go:43-54 | with ratings in 1..5, the five star counts add up to the number of reviews |
| ReviewSummaries.BreakdownSumsToTotal | internal/models/review.go:43-54 | with ratings in 1..5, the five bars add up to the total |
| ReviewSummaries.SumRatingsBounds | internal/models/review.go:13 | with ratings in 1..5, the sum lies between the count and five times the count |
| ReviewSummaries.MeanInStarRange | internal/models/review.go:55-57 | with ratings in 1..5 (the check constraint on line 13), the mean lies in [1, 5] |
| ReviewRepository.ReviewRepo.UpdateUserRating | internal/repository/review_repository.go:95-117 | every users row with the id gets the number and mean of that user's public reviews; no other row, column or table changes |
| ReviewRepository.AsInserted | internal/models/review.go:15 | the inserted row is always public (the column default replaces a false `is_public`), and every other field is stored as given |
| ReviewRepository.ReviewRepo.CreateReview | internal/repository/review_repository.go:16-27 | a rating outside 1..5 or a taken id fails with both tables unchanged; otherwise the review is appended as a public row, the reviewee is recomputed (so the new review always counts), and the invariants are kept |
| ReviewRepository.ReviewRepo.UpdateReview | internal/repository/review_repository.go:66-76 | a rating outside 1..5 fails with nothing changed; otherwise the row with the id is replaced, or the review inserted as a public row when no row has the id, and the new reviewee recomputed; the invariants are kept when the review keeps its reviewee |
| ReviewRepository.ReviewRepo.DeleteReview | internal/repository/review_repository.go:78-93 | an unknown id fails with nothing changed; otherwise the rows with the id are deleted, the reviewee of the first row with the id, the one `First` loads, is recomputed, and the invariants are kept |
| ReviewRepository.ReviewRepo.GetReviewsByUser | internal/repository/review_repository.go:29-40 | the result is a permutation of the reviewee's reviews (public ones only when asked), ordered newest first |
| ReviewRepository.ReviewRepo.GetReviewSummary | internal/repository/review_repository.go:52-64 | a fresh summary of exactly the user's public reviews, whose total and mean are what the recomputation stores |
| ReviewRepository.ReviewRepo.HasUserReviewedBooking | internal/repository/review_repository.go:128-135 | true exactly when some review has both the reviewer and the booking |
| ReviewRepository.ReplaceWhereId | internal/repository/review_repository.go:69 | saving over an existing id rewrites every row with that id to the review and keeps all other rows |
| ReviewRepository.RecomputeSyncsReviewee | internal/repository/review_repository.go:110-116 | after the recomputation, the user's rows agree with the reviews table and every other row is unchanged |
| ReviewRepository.RecomputeRestoresSync | internal/repository/review_repository.go:96-117 | if a change to the reviews table altered only one user's public reviews, recomputing that user restores the invariant |
| ReviewRepository.InsertTouchesOnlyReviewee | internal/repository/review_repository.go:20 | inserting a review leaves every other user's public reviews unchanged |
| ReviewRepository.UpsertTouchesOnlyReviewee | internal/repository/review_repository.go:69 | a save that keeps the reviewee leaves every other user's public reviews unchanged |
| ReviewRepository.SaveOfNewIdIsPublic | internal/repository/review_repository.go:69 | a save of a review whose id has no row adds it, as a public row, to its reviewee's public reviews, even when it was sent private |
| ReviewRepository.DeleteTouchesOnlyReviewee | internal/repository/review_repository.go:86 | deleting rows that belong to one reviewee leaves every other user's public reviews unchanged |
| ReviewRepository.FilterUniqueIds | internal/repository/review_repository.go:86 | deleting rows keeps review ids unique |
| ReviewRepository.FilterKeepsKeysAndRange | internal/repository/review_repository.go:86 | deleting rows keeps ids unique and ratings in 1..5 |
| ReviewRepository.CreateKeepsInvariants | internal/repository/review_repository.go:17-27 | a successful create keeps ids unique, ratings in 1..5 and every stored rating in sync |
| ReviewRepository.UpdateKeepsInvariants | internal/repository/review_repository.go:67-76 | a successful save that keeps the reviewee keeps the same three invariants |
| ReviewRepository.DeleteKeepsInvariants | internal/repository/review_repository.go:79-93 | a successful delete keeps the same three invariants |
| ReviewRepository.StoredRowMatchesSummary | internal/repository/review_repository.go:53-117 | while in sync, a stored review_count is the summary's total, and the stored rating is 0 with no public review and in [1, 5] otherwise |
| ReviewRepository.MovedReviewLeavesOldRevieweeStale | internal/repository/review_repository.go:66-76 | a save that moves a review to another reviewee leaves the old reviewee's stored count and rating out of sync |
| Store.UpdateWhereId | SkillSwapBE/internal/repository/user_repository.go:71 | an update by id rewrites exactly the rows with that id |
| Store.NoRowNoChange | SkillSwapBE/internal/services/user_service.go:100-107 | an update that matches no row changes nothing |
| Models.ApplyColumns | SkillSwapBE/internal/repository/user_repository.go:52-71 | each profile column takes the update set's value when present and keeps its value otherwise; id, auth0 id, email, points, rank, rating and review count never change |
| UserRepository.BuildUpdateSet | SkillSwapBE/internal/repository/user_repository.go:52-70 | a column is in the update set exactly when its request field is non-empty, and then holds that field's value |
| UserRepository.UserRepo.UpdateUser | SkillSwapBE/internal/repository/user_repository.go:51-72 | only rows with the id change, only in the non-empty request fields; points, rank, rating, email and auth0 id never change |
| UserRepository.ApplyColumnsIdempotent | SkillSwapBE/internal/repository/user_repository.go:51-72 | applying the same update twice gives the same row as once |
| UserRepository.AddPoints | SkillSwapBE/internal/repository/user_repository.go:101-102 | points grow by exactly the amount and rank is recomputed from the updated row; nothing else changes |
| UserRepository.UserRepo.UpdateUserPoints | SkillSwapBE/internal/repository/user_repository.go:93-106 | an unknown id fails without saving; otherwise the first row with the id, with points added and rank recomputed, is saved over the rows with that id |
| UserRepository.UserRepo.GetUserProfile | SkillSwapBE/internal/repository/user_repository.go:79-91 | the user's skills are exactly their active ones and their reviews exactly the public reviews they received, each in table order |
| UserRepository.UserRepo.GetUsersByRank | SkillSwapBE/internal/repository/user_repository.go:108-113 | the leading users of that rank, in table order: exactly `limit` of them when more match, all of them otherwise or when the limit is negative |
| UserRepository.UserRepo.GetTopUsers | SkillSwapBE/internal/repository/user_repository.go:115-120 | min(limit, table size) users in non-increasing order of points, and no user left out has more points than one returned |
| UserRepository.TopPrefix | SkillSwapBE/internal/repository/user_repository.go:118 | a prefix of a list sorted by descending points leaves out nobody with more points than a kept user |
| UserRepository.UserRepo.GetUserByAuth0ID | SkillSwapBE/internal/repository/user_repository.go:31-39 | the first row with the auth0 id, or none when there is none |
| UserRepository.UserRepo.GetUserByEmail | SkillSwapBE/internal/repository/user_repository.go:41-49 | the first row with the email, or none when there is none |
| UserService.UsernameBase | SkillSwapBE/internal/services/user_service.go:62-69 | the stem has no '.', '+', '-' or ASCII capital, and keeps every other character of the lower-cased local part |
| UserService.BaseIsFilter | SkillSwapBE/internal/services/user_service.go:62-69 | the stem is exactly the lower-cased local part with its '.', '+' and '-' deleted, the other characters in their order and number |
| UserService.Candidate | SkillSwapBE/internal/services/user_service.go:72-85 | candidate 0 is the base itself; every candidate starts with the base |
| UserService.FirstFree | SkillSwapBE/internal/services/user_service.go:75-93 | the index of the first untaken candidate, every earlier one being taken, or 1000 when all are |
| UserService.FirstFreeIs | SkillSwapBE/internal/services/user_service.go:75-93 | the first-free index is the only index with those properties |
| UserService.ChosenUsername | SkillSwapBE/internal/services/user_service.go:71-95 | the first free name among base, base1 … base999, or base_<random> when all are taken |
| UserService.Service.GenerateUsername | SkillSwapBE/internal/services/user_service.go:60-96 | the loop settles on the chosen username after at most 1000 existence checks |
| UserService.NewFullName | SkillSwapBE/internal/services/user_service.go:35-39 | the claimed name when given, else the email's text before its first '@' |
| UserService.NewUser | SkillSwapBE/internal/services/user_service.go:41-49 | a new account has the auth0 id, points 0, rank novice, rating 0, review count 0, and no email |
| UserService.Service.GetOrCreateUser | SkillSwapBE/internal/services/user_service.go:17-58 | an existing auth0 id returns its first row and creates nothing; otherwise exactly the new account is appended, or a taken id fails with nothing changed |
| UserService.Service.GetOrCreateUserTwice | SkillSwapBE/internal/services/user_service.go:17-58 | two calls with one auth0 id add at most one user, and after a success the second returns the same user |
| UserService.Service.UpdateUserProfile | SkillSwapBE/internal/services/user_service.go:98-110 | the columns are written to the rows with the id; "user not found" exactly when no row matched, and then nothing changed |
| SkillHandlers.FindInString | SkillSwapBE/internal/handlers/skills.go:135-142 | the scan finds a hit exactly when the substring occurs at some offset |
| SkillHandlers.Contains | SkillSwapBE/internal/handlers/skills.go:128-133 | for a non-empty substring, true exactly when it occurs; for the empty one, true exactly when the string is empty; false when the substring is longer |
| SkillHandlers.GetSkillByID | SkillSwapBE/internal/handlers/skills.go:79-92 | the first catalogue skill with the id, or not-found when none has it |
| SkillHandlers.SearchSkills | SkillSwapBE/internal/handlers/skills.go:94-126 | exactly the catalogue skills that pass every non-empty filter (category, location, query in title or description), in catalogue order |
| SkillHandlers.EmptySearchIsCatalogue | SkillSwapBE/internal/handlers/skills.go:101-122 | with all filters empty, the whole catalogue is returned |
| SkillHandlers.NarrowerSearch | SkillSwapBE/internal/handlers/skills.go:104-106 | adding a category filter only removes skills from the result |
| UserHandlers.MockUserIdsDistinct | internal/handlers/users.go:11-42 | the mock users' ids are pairwise distinct |
| UserHandlers.GetUsers | internal/handlers/users.go:44-47 | the mock user list unchanged |
| UserHandlers.GetUserByID | internal/handlers/users.go:49-62 | the mock user with the id, the only one with it, or not-found when none has it |
| UserHandlers.GetUserSkills | internal/handlers/users.go:64-77 | exactly the catalogue skills with that owner, in catalogue order; empty for an id that owns none |
| AuthStorage.Storage.RemoveItem | SkillSwapWeb/src/utils/auth-debug.ts:15-16 | removes the key and nothing else |
| AuthStorage.Storage.Keys | SkillSwapWeb/src/utils/auth-debug.ts:20 | the snapshot holds exactly the store's keys |
| AuthStorage.StripAuth | SkillSwapWeb/src/utils/auth-debug.ts:20-30 | no key with either prefix remains, and every other key keeps its value |
| AuthStorage.Sweep | SkillSwapWeb/src/utils/auth-debug.ts:20-30 | a sweep over a snapshot removes exactly the snapshot's prefixed keys |
| AuthStorage.ClearAuth0State | SkillSwapWeb/src/utils/auth-debug.ts:3-33 | each store ends as exactly itself less every key starting with "auth0" or "a0.spajs" |
| AuthStorage.SweepStrips | SkillSwapWeb/src/utils/auth-debug.ts:14-30 | removing the listed keys and then sweeping gives the stripped store |
| AuthStorage.ListedKeysAreAuthKeys | SkillSwapWeb/src/utils/auth-debug.ts:5-12 | each of the six listed keys carries one of the two prefixes |
| AuthStorage.ListedKeysGone | SkillSwapWeb/src/utils/auth-debug.ts:5-17 | none of the six listed keys survives |
| AuthStorage.StripAuthIdempotent | SkillSwapWeb/src/utils/auth-debug.ts:3-33 | clearing twice gives the same stores as clearing once |
| RankBadge.NextRankThreshold | SkillSwapWeb/src/components/RankBadge.tsx:48-65 | no next threshold exactly for "master" in any case; any threshold is at least 100 |
| RankBadge.ThresholdValues | SkillSwapWeb/src/components/RankBadge.tsx:49-61 | novice 100, beginner 500, intermediate 2000, advanced 5000, expert 10000, master none; strictly increasing from novice to expert |
| RankBadge.LookupsIgnoreCase | SkillSwapWeb/src/components/RankBadge.tsx:10-65 | colour, icon and threshold depend only on the lower-cased rank |
| RankBadge.UnknownRankIsNovice | SkillSwapWeb/src/components/RankBadge.tsx:10-65 | an unknown rank gets the novice colour, icon and threshold |
| RankBadge.Progress | SkillSwapWeb/src/components/RankBadge.tsx:73-74 | progress never exceeds 100, is 100 with no next threshold, and is non-negative for non-negative points |
| RankBadge.RemainingMeansBarNotFull | SkillSwapWeb/src/components/RankBadge.tsx:87-101 | the points still needed are positive exactly when the bar is short of full |
| StarRating.FilledBelowFloor | SkillSwapWeb/src/components/StarRating.tsx:31 | star k is filled exactly when k is at most the rating's floor |
| StarRating.FilledExcludesPartial | SkillSwapWeb/src/components/StarRating.tsx:31-32 | no star is both filled and partly filled |
| StarRating.PartialIsAboveFloor | SkillSwapWeb/src/components/StarRating.tsx:32 | star k is partly filled exactly when the rating is fractional and k is its floor plus one |
| StarRating.AtMostOnePartial | SkillSwapWeb/src/components/StarRating.tsx:30-32 | at most one star is partly filled |
| StarRating.FilledCountIsFloor | SkillSwapWeb/src/components/StarRating.tsx:30-32 | among stars 1..n, min(n, floor(rating)) are filled |
| StarRating.FiveStarsShowFloor | SkillSwapWeb/src/components/StarRating.tsx:30-32 | for a rating from 0 to 5, floor(rating) stars are filled |
| StarRating.ClipInset | SkillSwapWeb/src/components/StarRating.tsx:64 | the partly filled star's clip inset lies strictly between 0 and 100 percent |
| StarRating.HandleStarClick | SkillSwapWeb/src/components/StarRating.tsx:22-26 | a click reports the star's number exactly when the widget is not read-only and has a handler |

## Left out

- `formatCurrency`, `formatCurrencyInput` and the `Intl.NumberFormat` path of `getCurrencySymbol` are left out: they depend on the platform's locale data and `navigator.language`. Only the fallback symbol table is modelled.
- The locale table is a plain list of pairs. JavaScript's inherited object keys (such as `constructor`) are not modelled.
- Numbers are `real` and `int`, so IEEE rounding, NaN beyond `parseFloat`'s failure case, and Go's 64-bit integer overflow are not modelled. This affects points, sums of ratings and counters.
- Currency.ParseFloat covers only strings of digits, '.' and ',', the only ones `parseCurrencyInput` passes to it. Exponents, signs and "Infinity" do not arise and are not modelled.
- Strings are sequences of characters: Go's byte-wise comparison in `contains` and the substring search is modelled on characters. Lower-casing covers ASCII letters only.
- ORM mechanics are abstracted to in-memory tables:
  - A transaction is modelled as all-or-nothing. The only failures are the rating check constraint and duplicate primary keys.
  - `Preload` of related records is not modelled, so reviewer and reviewee records are not loaded.
  - A soft delete is modelled as removing the row.
  - `First` is modelled as the first row in storage order rather than in primary-key order.
  - `Find` and `Preload` without `ORDER BY` are modelled in storage order: the order of a user's preloaded skills and reviews in UserRepository.UserRepo.GetUserProfile, and which users `Limit` keeps in UserRepository.UserRepo.GetUsersByRank, are left to the database by the source and fixed to storage order here.
  - The one column default that matters here, `is_public`, is modelled wherever a row is inserted, by ReviewRepository.AsInserted: in CreateReview, and in the insert fallback of `Save` in UpdateReview when no row has the id. When `Save` updates an existing row it writes every field, so a false `is_public` is stored as given there.
- ReviewRepository.StoredRating is 0 for a user with no public review. What `AVG` over zero rows yields, and how scanning it into a float behaves, is outside the model.
- UserRepository.UserRepo.GetUserProfile returns none for an unknown id. What gorm's `Find` gives for a missing row is outside the model.
- UserRepository.UserRepo.GetTopUsers states the order by points and which users are kept, not how ties are broken, which the query leaves to the database. The same holds for `created_at` ties in ReviewRepository.ReviewRepo.GetReviewsByUser.
- `limit` follows gorm's convention that a negative limit means no limit; a non-negative limit caps the result.
- Rank recomputation (`User.UpdateRank`) and `models.GenerateRandomInt` are parameters (`rankOf`, `random`), because their code is not part of this model.
- Database-generated values are parameters or fields supplied by the caller: the new user's id (`newId`), review ids and `created_at`. `updated_at` is not modelled.
- Uniqueness constraints on users other than the primary key are not modelled: the users model with its tags is not part of this model.
- UserService.Service.UpdateUserProfile takes updates of the five text profile columns, not an arbitrary column map. gorm's behaviour for an empty update map is not modelled.
- The mock catalogue's embedded seller records and the `time.Now()`-based timestamps of the mock data are left out, as are HTTP routing, JSON encoding (including a nil slice encoding as `null`) and the 404 responses, which are modelled as `None`.
- The mock lists are constants, so no lookup can modify them.
- The order of `Object.keys` is not modelled: the sweep's result does not depend on it.
- `console.log`, `debugAuth0State` and `resetAuth0` only log or navigate and are left out.
- Rendering in `RankBadge.tsx` and `StarRating.tsx` is left out: class names, size classes, whether the progress block is shown, and SVG markup.
- Operations outside the modelled core are not modelled:
  - `GetReviewByID`, `GetReviewsByBooking`, `CreateUser`, `SaveUser` and `GetUserByID` of the repositories;
  - the service's own `GetUserByAuth0ID` and `GetUserByID`;
  - the HTTP handlers' `GetSkills`.
- Tables are sequences rather than maps keyed by id, because row order and duplicate matches are visible to `First`, `Limit` and `UPDATE … WHERE`.
