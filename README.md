# Recommendation service core, modelled in Dafny

The service fetches posts, users and interactions from an upstream API. It builds a
`RecommendationEngine` from that snapshot and answers recommendation queries. A small
SQLite-backed `DatabaseService` records the interactions users submit. This project
models the parts of the service that decide what comes out:

- **Response normalisation** (`response_shape.dfy`, module `ResponseShape`):
  `DataFetcher.fetch_data` turns any decoded JSON body into a list of objects.
  - An object with `posts` or `data` is unwrapped.
  - Any other non-empty object becomes a one-element list.
  - A list is filtered to its objects.
  - Everything else, including every failure, gives `[]`.
- **Snapshot records** (`records.dfy`, module `Records`): posts and interaction events
  as datatypes. A field the engine reads loosely (`float(...)`, `.get(...)`,
  `.lower()`) has a constructor for each case the code treats differently. That includes
  the values that make the code raise. The one exception is a numeric `created_at`
  outside the range of `datetime`: it is a number like any other, and the score's
  raise condition tells it apart.
- **Scoring** (`scoring.dfy`, module `Scoring`):
  - the post score: the engagement part, times a mood factor, times a recency factor;
  - the mood compatibility score;
  - the recency boost;
  - the quality score of a recommendation list.
- **Interest profiles** (`profiles.dfy`, module `Profiles`): the specification of
  `_build_user_profiles` as a fold over the events. Reference definitions beside it
  give the sum of weights per (user, post) pair.
- **Ranking** (`ranking.dfy`, module `Ranking`): the pipeline of `get_recommendations`
  as a specification. It runs the category filter, scores each candidate, sorts stably
  by descending score, and applies Python's `[:limit]` slice.
- **The engine** (`engine.dfy`, module `Engine`): the class `RecommendationEngine`. Its
  fields are set once by the constructor. The profile builder is the nested loop of
  `_build_user_profiles`, proved equal to the fold. `get_recommendations` and `is_personalized` are
  loops proved against their specifications.
- **The interaction store** (`store.dfy`, module `Store`): `DatabaseService` as a class.
  It holds the user table, the interaction table and the preference table as fields.
  - It covers validation, recording, the category-1 preference counter, the per-type
    history and the preference lookup.
  - Its invariant ties every preference score to the number of recorded interactions
    that bumped it.
- `wrappers.dfy` (module `Wrappers`) holds `Option`.

A few behaviours of the code are easy to misread, and the model follows the code:
- A post whose `post_summary` has no `emotions` field gets mood score 0.5, not the mood
  table value. The table value is used only when `emotions` is present and is not a
  list.
- The quality of a single recommendation is `min(1, 0.7·engagement + 0.3)`, because its
  diversity term is 1.
- The profile key of an event is its `id` field, not its user id.
- `get_recommendations` never reads the profiles or the user name.

## Model

| member | source | states |
|---|---|---|
| ResponseShape.ObjectsIn | app/services/data_fetcher.py:44-45 | the filtered list is no longer than the input, and holds only objects taken from it |
| ResponseShape.KeepObjects | app/services/data_fetcher.py:43-47 | the result holds only objects, and is empty when the selected value is not a list |
| ResponseShape.Normalise | app/services/data_fetcher.py:28-47 | whatever the body's shape, the result is a list of objects |
| ResponseShape.FetchData | app/services/data_fetcher.py:18-54 | a failed request (transport, status, JSON) gives `[]`; otherwise the result is a list of objects |
| ResponseShape.ObjectsInAppend | app/services/data_fetcher.py:45 | the filter distributes over concatenation, so it keeps the input order |
| ResponseShape.ObjectsInCounts | app/services/data_fetcher.py:45 | each object appears in the result exactly as often as in the input; non-objects never appear |
| ResponseShape.ObjectsInAllObjects | app/services/data_fetcher.py:45 | a list made only of objects passes through unchanged |
| ResponseShape.ObjectsInIdempotent | app/services/data_fetcher.py:45 | filtering twice is filtering once |
| ResponseShape.NormaliseEmptyObject | app/services/data_fetcher.py:29-31 | the empty object gives `[]` |
| ResponseShape.NormalisePostsFirst | app/services/data_fetcher.py:32-33 | with a `posts` key the result is that value's objects, and a `data` key beside it changes nothing |
| ResponseShape.NormaliseDataKey | app/services/data_fetcher.py:34-35 | without `posts`, the `data` value's objects are used |
| ResponseShape.NormaliseBareObject | app/services/data_fetcher.py:36-37 | a non-empty object with neither key is the one element of the result |
| ResponseShape.NormaliseList | app/services/data_fetcher.py:38-39 | a top-level list gives its objects in order |
| ResponseShape.NormaliseScalar | app/services/data_fetcher.py:40-41 | a scalar body gives `[]`, truthy or not |
| ResponseShape.NormaliseSelectedNotList | app/services/data_fetcher.py:32-47 | a selected value that is not a list gives `[]`, whether `posts` or `data` selected it; only those two keys can select one |
| ResponseShape.NormaliseBounded | app/services/data_fetcher.py:43-47 | the result is never longer than the selected list |
| ResponseShape.ResponseFormatWrapped | app/services/data_fetcher.py:28-37 | `{"posts": [o]}` gives 1 item and `{"data": [o, o]}` gives 2 |
| ResponseShape.ResponseFormatBare | app/services/data_fetcher.py:28-47 | `[o, o, o]` gives 3, `o` gives 1, `{}` and `[]` give 0 |
| Scoring.Lower | app/services/recommendation_engine.py:168 | lower-casing keeps the length and maps each character on its own |
| Scoring.MoodTable | app/services/recommendation_engine.py:160-168 | table values lie in [0, 1]; `happy` is 1; any other mood gets 0.5 |
| Scoring.MatchCount | app/services/recommendation_engine.py:174-175 | the number of matching emotions never exceeds the number of emotions |
| Scoring.MoodScore | app/services/recommendation_engine.py:157-182 | the mood score always lies in [0, 1], on the error paths too |
| Scoring.LowerIdempotent | app/services/recommendation_engine.py:168 | lower-casing twice is lower-casing once |
| Scoring.LowerOfLowercase | app/services/recommendation_engine.py:168 | a string without upper-case letters is unchanged by lower-casing |
| Scoring.MatchCountCaseInsensitive | app/services/recommendation_engine.py:174-175 | two moods equal up to case match the same emotions |
| Scoring.MoodScoreCaseInsensitive | app/services/recommendation_engine.py:168-176 | the mood score ignores the case of the requested mood |
| Scoring.MoodScoreFromTags | app/services/recommendation_engine.py:173-176 | a non-empty list of emotion strings gives the share that match; all matching gives 1, none gives 0 |
| Scoring.AllMatch | app/services/recommendation_engine.py:174-175 | when every emotion matches, the count is the list length |
| Scoring.NoneMatch | app/services/recommendation_engine.py:174-175 | when no emotion matches, the count is 0 |
| Scoring.MoodScoreTagExamples | app/services/recommendation_engine.py:173-176 | `["happy"]` scores 1 for happy, `["calm"]` scores 0, `["Happy", "calm"]` scores 0.5 |
| Scoring.MoodScoreDefaults | app/services/recommendation_engine.py:169-182 | for every mood, an empty list, a missing `emotions`, a missing or unreadable summary all give 0.5 |
| Scoring.MoodScoreUsesTable | app/services/recommendation_engine.py:168-178 | for every mood, a non-list `emotions` gives the table value of the lower-cased mood; any other summary that scores other than 0.5 is a non-empty list of strings |
| Scoring.MoodScoreTableExamples | app/services/recommendation_engine.py:160-178 | a non-list `emotions` uses the table: happy 1, `Calm` 0.6, unknown 0.5 |
| Scoring.RecencyBoost | app/services/recommendation_engine.py:148 | the boost is never negative |
| Scoring.RecencyBoostShape | app/services/recommendation_engine.py:147-148 | the boost is 1 at day 0 and 0 from day 30; it never exceeds 1 for a past date; it exceeds 1 for a future date; it never rises with age |
| Scoring.MoodFactor | app/services/recommendation_engine.py:139-142 | the mood factor lies in [1, 2], and is 1 when no mood or an empty mood is given |
| Scoring.RecencyFactor | app/services/recommendation_engine.py:144-149 | the recency factor is at least 1, and is 1 when `created_at` is absent or 0 |
| Scoring.PostScore | app/services/recommendation_engine.py:129-155 | a post whose fields make the computation raise scores 0, including a `created_at` that `datetime.fromtimestamp` rejects |
| Scoring.RecencyDoublesFreshPosts | app/services/recommendation_engine.py:144-155 | a post less than a day old scores twice its undated score; one 30 or more days old scores the same; one dated outside the range of `datetime` scores 0 |
| Scoring.ScoreIsProduct | app/services/recommendation_engine.py:132-151 | without an exception the score is the engagement part times both factors |
| Scoring.ScoreMonotoneInUpvotes | app/services/recommendation_engine.py:132-155 | for every post, more upvotes never lower the score |
| Scoring.ScoreFollowsBase | app/services/recommendation_engine.py:132-151 | two posts with the same factors are ordered as their engagement parts |
| Scoring.MoodNeverLowers | app/services/recommendation_engine.py:139-142 | with a non-negative engagement part, asking for a mood never lowers the score |
| Scoring.Quality | app/services/recommendation_engine.py:24-47 | quality never exceeds 1, and an empty list has quality 0 |
| Scoring.CategorySetBounds | app/services/recommendation_engine.py:38-39 | the number of distinct categories is at most the list length, and at least 1 for a non-empty list |
| Scoring.EngagementTotalNonNegative | app/services/recommendation_engine.py:31-34 | non-negative engagement scores sum to a non-negative total |
| Scoring.QualityPositive | app/services/recommendation_engine.py:29-43 | with non-negative engagement, readable categories and nothing raising, a non-empty list has positive quality |
| Scoring.QualitySingle | app/services/recommendation_engine.py:24-47 | a single post has quality `min(1, 0.7·engagement + 0.3)`, with a missing engagement score read as 0, and 0 when a value raises |
| Profiles.BaseWeight | app/services/recommendation_engine.py:52-61 | every type weighs at least 1; an unknown type weighs 1 |
| Profiles.RatedWeight | app/services/recommendation_engine.py:73-76 | a `rated` event fails exactly when its rating is unreadable; otherwise it weighs `2·(1 + rating/100)`, with a missing rating read as 0 |
| Profiles.TagEvents | app/services/recommendation_engine.py:60-63 | each event of a list is paired with the list's type name, in order |
| Profiles.AccumulateFailsIff | app/services/recommendation_engine.py:59-88 | building fails exactly when some counted event has an unreadable rating |
| Profiles.AccumulateSnoc | app/services/recommendation_engine.py:63-80 | one more event is one more step of the fold |
| Profiles.AddWeightAfterCreate | app/services/recommendation_engine.py:69-80 | creating the empty profile first does not change what adding the weight gives |
| Profiles.StepEffect | app/services/recommendation_engine.py:63-80 | one event adds its weight to its own (user, post) entry and touches no other |
| Profiles.AccumulateKeys | app/services/recommendation_engine.py:59-80 | the profile keys are exactly the user keys, and the entries exactly the pairs, of counted events |
| Profiles.AccumulateIsSum | app/services/recommendation_engine.py:59-80 | each entry equals the total weight of the events on its pair; a pair without an entry has total 0 |
| Profiles.AccumulatePositive | app/services/recommendation_engine.py:72-80 | with every rating above -100, every entry is positive |
| Profiles.AccumulateGrows | app/services/recommendation_engine.py:59-80 | with ratings of at least -100, later events keep every earlier key and never lower an entry |
| Profiles.RepeatedEventAddsUp | app/services/recommendation_engine.py:77-80 | the same event twice adds its weight twice |
| Profiles.BuildProfilesSpec | app/services/recommendation_engine.py:49-88 | an unreadable rating anywhere gives `{}`; otherwise the users are those of counted events and each entry is the total weight on its pair |
| Profiles.BuildProfilesEntries | app/services/recommendation_engine.py:49-88 | when no event raises, the profiles are the fold's result, with the keys and sums of `BuildProfilesSpec` |
| Profiles.FlattenStep | app/services/recommendation_engine.py:60-63 | the events of one more list follow those of the earlier lists |
| Profiles.FlattenPrefix | app/services/recommendation_engine.py:60-63 | the events of the first lists are a prefix of all events |
| Profiles.AccumulateNoneExtends | app/services/recommendation_engine.py:85-88 | once an event raised, later events cannot undo it |
| Ranking.InCategory | app/services/recommendation_engine.py:105-109 | the filter fails exactly when some post's category is not an object; otherwise it keeps exactly the posts of the category |
| Ranking.InCategoryAppend | app/services/recommendation_engine.py:106-109 | the filter distributes over concatenation, so it keeps the snapshot order |
| Ranking.InCategoryCounts | app/services/recommendation_engine.py:106-109 | each post of the category is kept exactly as often as it occurs; no other post is kept |
| Ranking.KeepCategoryMembers | app/services/recommendation_engine.py:106-109 | a post is kept exactly when it is in the list and has the category |
| Ranking.KeepCategoryAppend | app/services/recommendation_engine.py:106-109 | keeping the posts of a category distributes over concatenation |
| Ranking.KeepCategoryCounts | app/services/recommendation_engine.py:106-109 | each post of the category is kept exactly as often as it occurs |
| Ranking.FilterRaisesAppend | app/services/recommendation_engine.py:106-109 | the filter raises on a concatenation exactly when it raises on one of the parts |
| Ranking.ScoreAll | app/services/recommendation_engine.py:113-116 | each candidate is paired with its own score, in order |
| Ranking.PostsOf | app/services/recommendation_engine.py:120 | the posts of the pairs, in order |
| Ranking.Insert | app/services/recommendation_engine.py:119 | insertion adds exactly one element: the result is a permutation of the input plus it |
| Ranking.InsertBounded | app/services/recommendation_engine.py:119 | insertion keeps a common upper bound on the scores |
| Ranking.InsertSorted | app/services/recommendation_engine.py:119 | insertion into a descending list keeps it descending |
| Ranking.SortedCons | app/services/recommendation_engine.py:119 | a head no lower than the rest extends a descending list |
| Ranking.SortByScore | app/services/recommendation_engine.py:119 | the sort is a permutation of its input, in descending order of score |
| Ranking.WithScoreAppend | app/services/recommendation_engine.py:119 | the elements with one score distribute over concatenation |
| Ranking.InsertStable | app/services/recommendation_engine.py:119 | the inserted element goes before the elements with its own score |
| Ranking.SortStable | app/services/recommendation_engine.py:119 | the sort is stable: the elements with each score keep their input order |
| Ranking.Take | app/services/recommendation_engine.py:120 | `s[:limit]` is a prefix of length `min(limit, len)`, or `len + limit` clamped at 0 for a negative limit |
| Ranking.RecommendEmpty | app/services/recommendation_engine.py:99-102 | no posts give no recommendations |
| Ranking.RecommendMembers | app/services/recommendation_engine.py:104-120 | every recommendation is a post of the snapshot, occurring no more often than there, and, when a category is asked for, of that category |
| Ranking.PostsOfInsert | app/services/recommendation_engine.py:119 | insertion adds exactly the inserted post to the posts |
| Ranking.PostsOfSort | app/services/recommendation_engine.py:119 | sorting permutes the posts |
| Ranking.PostsOfInsertCons | app/services/recommendation_engine.py:119 | inserting the head into a permutation of the tail permutes the posts of the whole list |
| Ranking.TakePostsBound | app/services/recommendation_engine.py:120 | `[:limit]` keeps each post at most as often as the sorted list holds it |
| Ranking.CandidatesBound | app/services/recommendation_engine.py:104-109 | each candidate occurs at most as often as in the snapshot |
| Ranking.RecommendNoFallback | app/services/recommendation_engine.py:105-109 | a category without posts gives `[]`, with no fallback to the other posts |
| Ranking.RecommendLength | app/services/recommendation_engine.py:119-120 | for a non-negative limit, the length is `min(limit, number of candidates)` |
| Ranking.RecommendOrdered | app/services/recommendation_engine.py:119-120 | scores never increase along the result |
| Ranking.RecommendStable | app/services/recommendation_engine.py:119-120 | for each score, the recommended posts with it are the first candidates with it, in input order |
| Ranking.PostsOfPrefix | app/services/recommendation_engine.py:120 | the posts of a prefix are a prefix of the posts |
| Ranking.ScoresConsistent | app/services/recommendation_engine.py:113-116 | every stored score is the post's own score |
| Ranking.PostsScoringOf | app/services/recommendation_engine.py:113-120 | selecting by stored score and by recomputed score agree |
| Ranking.PostsOfAppend | app/services/recommendation_engine.py:120 | taking the posts distributes over concatenation |
| Ranking.WithScorePrefix | app/services/recommendation_engine.py:119-120 | truncation keeps a prefix of the elements of each score |
| Engine.PostLookup | app/services/recommendation_engine.py:12 | the lookup's keys are exactly the post ids, each mapped to a post of the snapshot with that id |
| Engine.PostLookupKeepsLast | app/services/recommendation_engine.py:12 | for a repeated id, the last post with it wins |
| Engine.BuildUserProfiles | app/services/recommendation_engine.py:49-88 | the nested loops build exactly the fold `BuildProfiles`, including `{}` when a rating raises |
| Engine.ApplyEvent | app/services/recommendation_engine.py:64-80 | one iteration of the inner loop is one step of the fold: skip, add the weight, or raise |
| Engine.AddToEntry | app/services/recommendation_engine.py:77-80 | the in-place `+=` adds the weight to the entry, created at 0 |
| Engine.EventStep | app/services/recommendation_engine.py:63-80 | the loop's prefix of events grows by one step per iteration |
| Engine.RaisedEventEmptiesProfiles | app/services/recommendation_engine.py:74-88 | a counted event with an unreadable rating makes the whole build return `{}` |
| Engine.RecommendationEngine.constructor | app/services/recommendation_engine.py:8-13 | the engine keeps the snapshot, its profiles and its post lookup |
| Engine.RecommendationEngine.IsPersonalized | app/services/recommendation_engine.py:15-22 | true exactly when some event of some list carries the user name |
| Engine.RecommendationEngine.GetRecommendations | app/services/recommendation_engine.py:90-127 | the loop and sort return exactly the ranking pipeline's result |
| Engine.RecommendationEngine.GetRecommendationQuality | app/services/recommendation_engine.py:24-47 | returns the quality score, which never exceeds 1 |
| Store.ValidateInteraction | app/database/database.py:28-38 | accepted exactly for a known type, with a rating in [0, 5] required for `rate`; an unknown type and a missing rating are rejected with their reasons |
| Store.PrefsAfterAppend | app/database/database.py:64-94 | recording one interaction, and bumping when the rule says so, keeps each score equal to the count of bumping interactions |
| Store.RecordKeepsValid | app/database/database.py:40-69 | recording an accepted interaction of a known user keeps the store invariant |
| Store.ForUser | app/database/database.py:112-113 | the result holds exactly the interactions of the store that belong to the user |
| Store.ForUserAppend | app/database/database.py:112-113 | selecting distributes over concatenation, so it keeps the recording order |
| Store.ForUserCounts | app/database/database.py:112-113 | each interaction of the user is selected exactly as often as it was recorded; no other one is |
| Store.Reverse | app/database/database.py:114 | newest first: the reversed list has the same length, with element `i` taken from the end |
| Store.ReverseAppend | app/database/database.py:114 | reversing a concatenation swaps and reverses its parts |
| Store.EntryOf | app/database/database.py:124-129 | the entry keeps post id and timestamp; its rating is present exactly for a present non-zero rating |
| Store.EntriesOfKind | app/database/database.py:123-136 | a bucket is never longer than the interactions it is drawn from |
| Store.EntriesCount | app/database/database.py:131-136 | a bucket holds one entry per interaction of its type |
| Store.BucketsPartition | app/database/database.py:123-136 | the three buckets together hold every interaction except the `inspire` ones |
| Store.EntriesOfReverse | app/database/database.py:112-136 | each bucket of the newest-first list is the reverse of the bucket in recording order |
| Store.EntriesOfAppend | app/database/database.py:123-136 | buckets distribute over concatenation |
| Store.BucketStep | app/database/database.py:123-136 | one more interaction adds its entry to the bucket of its own type only |
| Store.FirstNamed | app/database/database.py:48 | the lookup finds a user exactly when one has the name, and returns such a user |
| Store.FirstNamedAppend | app/database/database.py:48-52 | a user appended when none had the name is the one found |
| Store.DatabaseService.constructor | app/database/database.py:13-26 | the store starts from the rows already in the database file, which satisfy the invariant; a new file gives the empty store |
| Store.DatabaseService.FindUser | app/database/database.py:48 | a user is found exactly when one has the name; it is stored, carries the name and has an id in range |
| Store.DatabaseService.RecordInteraction | app/database/database.py:40-76 | a rejected call changes nothing; an accepted one creates the user if absent, appends one interaction and bumps the preference exactly when the rule says so, keeping the invariant |
| Store.DatabaseService.GetOrCreateUser | app/database/database.py:47-52 | an existing user is reused; otherwise a new user gets the next id |
| Store.DatabaseService.UpdateUserPreferences | app/database/database.py:78-98 | the user's category-1 score becomes 1 when absent and grows by 1 otherwise; nothing else changes |
| Store.DatabaseService.GetUserHistory | app/database/database.py:100-144 | an unknown user gets three empty lists; otherwise each list is the user's interactions of its type, newest first |
| Store.DatabaseService.GetUserPreferences | app/database/database.py:146-167 | an unknown user gets `{}`; otherwise category 1 maps to the number of bumping interactions, or the map is empty; every score is at least 1 |

## Left out

- HTTP transport, `async`, logging, the `httpx` client and `get_all_data`. Every failure
  inside `fetch_data` is one `Response.Failed`. The `httpx` library is not part of this
  model.
- SQLAlchemy, sessions, commits and rollbacks are replaced by an in-memory store. A
  database error other than a validation failure is not modelled. The ORM models are
  not part of this model.
- The clock is a parameter: `nowMs` for `datetime.now()` and `now` for
  `datetime.utcnow()`.
  - Local-time conversion and daylight-saving shifts in `fromtimestamp` are not modelled.
  - Timestamps are modelled as numbers, not ISO strings.
- Scoring.PostScore: reals are exact, so floating-point rounding of the score is not
  modelled.
- Scoring.PostScore: the range `datetime.fromtimestamp` accepts is taken in UTC. The
  local time zone shifts its ends by less than a day, and that shift is not modelled.
- Scoring.Lower: lower-cases ASCII letters only, not the full Unicode case mapping of
  `str.lower()`.
- Records.Post: only integer category ids are modelled. A post's `id` is required,
  because a post without one makes the constructor raise.
- Store.DatabaseService.GetUserHistory: newest-first is modelled as reverse recording
  order. Interactions recorded with equal `created_at` may come back in another order
  from the database.
- The upstream `users` list is kept in the snapshot but never read, as the engine never reads it.
- Store.DatabaseService.constructor: the rows already in the database file are assumed
  to satisfy the store invariant, as rows written by this service do. Rows that another
  program wrote into the file are not modelled.
- Store.DatabaseService.RecordInteraction: the exception that `validate_interaction`
  raises is modelled as a returned `Rejected(reason)`.
