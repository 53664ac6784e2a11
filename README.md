# AI marketing content service: a verified model of its core

This project models the computational core of a marketing-content web service. It has five parts:

- **TTL cache.** An in-memory cache with time-to-live expiry, size-bounded eviction of the oldest
  entries, and hit/miss statistics (`SimpleCache`). A specialisation caches generated content under a
  key made from the generation parameters (`ContentCache`).
- **Rate limiter.** A sliding-window rate limiter keyed by client address. It keeps per-minute and
  per-hour request counts and runs a clean-up of old timestamps at most every ten minutes.
- **Content analytics.** The service computes a syllable estimate, a Flesch-style readability score, an
  engagement score, keyword density and frequency, and SEO recommendations, and combines them into a
  content report with an overall score.
- **Helper utilities.** These sanitise input (recursively through nested objects and lists), make URL
  slugs, validate e-mail addresses against a fixed pattern, and split and flatten lists.
- **Content-route helpers.** These compute a quality score, an SEO score and a word-list sentiment,
  generate text from templates with per-platform formatting, and select the best content in a
  comparison of stored items.

Modules and files:

| file | module | what it holds |
|---|---|---|
| `wrappers.dfy` | `Wrappers` | `Option`, `Result` |
| `time.dfy` | `Time` | an instant is whole microseconds; `timedelta.seconds` arithmetic |
| `text.dfy` | `Text` | ASCII `lower`, Python whitespace, `str.split`, `strip`, `str.count`, `in`, `join`, `str(int)`, string order |
| `seqs.dfy` | `Seqs` | distinctness, elements, filtering |
| `sorting.dfy` | `Sorting` | the stable sort that Python's `sorted(..., key=...)` performs |
| `dicts.dfy` | `Dicts` | a dictionary that remembers insertion order |
| `cache.dfy` | `Cache` | `CacheEntry`, the `SimpleCache` and `ContentCache` classes, and their specification functions |
| `rate_limiter.dfy` | `RateLimiting` | the `RateLimiter` class and its specification functions |
| `analytics.dfy` | `Analytics` | the content-analytics service |
| `helpers.dfy` | `Helpers` | sanitising, slugs, e-mail validation, chunking and flattening |
| `content_routes.dfy` | `ContentRoutes` | the content-route helpers and the comparison |

**How state is modelled.**

- The stateful parts are classes with the source's fields: `SimpleCache`, `ContentCache` and
  `RateLimiter`. Each method states its whole new state as a function of the old state.
- Loops in the source are `while`/`for` loops with invariants, proved against specification functions:
  - the syllable counter;
  - the keyword-density loop;
  - the recommendation builder;
  - the cache clean-up and eviction;
  - the rate limiter's clean-up;
  - the comparison loop.
- The properties the source relies on are lemmas about those functions.

**Parameters in place of system calls.**

- The clock (`datetime.now()`) is an explicit `now` parameter. An operation that reads the clock
  several times gets one `now` for all its reads; "## Left out" names those operations.
- The template that `random.choice` picks is the parameter `choice`.
- `SimpleCache` hashes each key with MD5 and `ContentCache` builds its key with `json.dumps`. Both are
  treated as injective: the model keys its dictionary by the key value itself.

**Numbers and text.**

- Scores that the source computes as floats but that only take whole values are integers: the engagement
  score, the quality score and the SEO score.
- Averages, densities, the reading-ease score, the overall score and the sentiment confidence are exact
  rationals (`real`).

## Model

| member | source | states |
|---|---|---|
| Cache.NewEntry | src/services/cache_service.py:15-22 | a new entry is created now and expires `ttl` seconds later; it is expired at `t` exactly when more than `ttl` seconds have passed, and it is fresh at creation iff the ttl is not negative |
| Cache.EffectiveTtl | src/services/cache_service.py:113 | `ttl or default_ttl`: no ttl and a ttl of 0 both fall back to the default; any other ttl is used as given |
| Cache.EvictCount | src/services/cache_service.py:71 | `max(1, max_size // 10)`: at least one; at most `max_size` when that is positive; exactly a tenth from 10 on |
| Cache.Lookup | src/services/cache_service.py:75-101 | a lookup hits exactly when the key is present and not expired, and a hit returns the stored value |
| Cache.Purge | src/services/cache_service.py:54-61 | clean-up keeps exactly the unexpired entries, unchanged, and never grows the cache |
| Cache.ExpiredAmong | src/services/cache_service.py:56-59 | the expired-key list holds exactly the listed keys whose entries are expired |
| Cache.ExpiredAmongOrder | src/services/cache_service.py:56-61 | the keys deleted are exactly the set of expired keys |
| Cache.Keys | src/services/cache_service.py:72 | the keys of the sorted item pairs, position by position |
| Cache.Evict | src/services/cache_service.py:63-73 | eviction leaves a well-formed store (order and entries agree) |
| Cache.AfterSet | src/services/cache_service.py:103-120 | `set` (clean-up, eviction, store) leaves a well-formed store |
| Cache.AfterGet | src/services/cache_service.py:88-98 | a `get` removes at most the requested key, and removes it exactly when the lookup misses; other entries are unchanged |
| Cache.HitRate | src/services/cache_service.py:153-154 | the hit rate is a percentage in [0, 100]; it is 0 with no requests or no hits and 100 with hits only |
| Cache.ByAgeEntries | src/services/cache_service.py:67-70 | every sorted pair is a present key with its own entry |
| Cache.ByAgeCovers | src/services/cache_service.py:67-70 | every present key appears among the sorted pairs |
| Cache.ByAgeFacts | src/services/cache_service.py:67-70 | the items sorted by creation time are all the entries, each once, in non-decreasing age order |
| Cache.VictimsShape | src/services/cache_service.py:71-72 | the victims are distinct present keys, `min(n, len)` of them |
| Cache.PrefixIsOlder | src/services/cache_service.py:67-72 | in a list sorted by creation time, every key in a prefix was created no later than every key after it |
| Cache.VictimsOldest | src/services/cache_service.py:67-73 | no victim is younger than any entry that stays |
| Cache.EvictLen | src/services/cache_service.py:63-73 | a full cache loses exactly `min(max(1, max_size // 10), len)` entries |
| Cache.EvictRemovesOldest | src/services/cache_service.py:63-73 | eviction only removes entries, keeps the rest unchanged, and every removed entry is at least as old as every kept one |
| Cache.EvictBelowCapacity | src/services/cache_service.py:65 | below capacity eviction changes nothing |
| Cache.SetKeepsBound | src/services/cache_service.py:103-120 | a `set` on a cache within its bound leaves it within its bound |
| Cache.GetAfterSet | src/services/cache_service.py:103-120 | reading a key right after setting it returns the value, unless the ttl is negative |
| Cache.SetKeepsOthers | src/services/cache_service.py:103-120 | after a `set` the key is present and every other entry is an unexpired one from before, unchanged |
| Cache.SimpleCache.constructor | src/services/cache_service.py:36-48 | an empty cache with the given ttl and size and zero counters |
| Cache.SimpleCache.CleanupExpired | src/services/cache_service.py:54-61 | the loop deletes the expired keys one by one and leaves the purged store |
| Cache.SimpleCache.EvictOldest | src/services/cache_service.py:63-73 | the loop deletes the oldest tenth and leaves the evicted store |
| Cache.SimpleCache.Get | src/services/cache_service.py:75-101 | returns the lookup result, removes an expired entry, and counts exactly one hit or one miss |
| Cache.SimpleCache.Set | src/services/cache_service.py:103-120 | the new store is clean-up, then eviction, then the new entry with the effective ttl |
| Cache.SimpleCache.Delete | src/services/cache_service.py:122-136 | reports whether the key was present and removes exactly that key |
| Cache.SimpleCache.Clear | src/services/cache_service.py:138-142 | empties the store and zeroes both counters |
| Cache.SimpleCache.GetStats | src/services/cache_service.py:144-163 | purges first; then the reported size, limits, counters, total and hit rate describe the purged cache, which holds only unexpired entries |
| Cache.SetThenGet | src/services/cache_service.py:103-120 | with a positive ttl, a `get` right after a `set` hits and returns the value |
| Cache.SortedKeywords | src/services/cache_service.py:179 | `sorted(keywords)` is an ordered permutation of the keywords |
| Cache.StrLeIsTotalOrder | src/services/cache_service.py:179 | Python's string comparison is a total order, so the sort is well defined |
| Cache.SortedKeywordsPermutation | src/services/cache_service.py:179 | two keyword lists sort alike iff they are permutations of each other |
| Cache.GenerateContentKey | src/services/cache_service.py:172-182 | the key of a content request, keywords sorted and missing keywords as `[]`; ContentKeyEquality and ContentKeyNoKeywords state when two requests share it |
| Cache.ContentKeyEquality | src/services/cache_service.py:172-182 | two requests share a content key iff they agree on prompt, tone, length and platform and their keywords are permutations (no keywords counting as `[]`) |
| Cache.ContentKeyNoKeywords | src/services/cache_service.py:179 | no keyword list and an empty one give the same key |
| Cache.ContentCache.constructor | src/services/cache_service.py:169-170 | wraps an empty cache of size 500 with the given ttl |
| Cache.ContentCache.GetContent | src/services/cache_service.py:184-188 | a `get` on the inner cache under the content key |
| Cache.ContentCache.CacheContent | src/services/cache_service.py:190-195 | a `set` on the inner cache under the content key, counters unchanged |
| Cache.ContentCache.GetStats | src/services/cache_service.py:197-199 | the inner cache's statistics: purges first; holds only unexpired entries; reports size, limit 500, the hit and miss counters, their total and the hit rate; leaves both counters unchanged |
| Cache.ContentCache.Clear | src/services/cache_service.py:201-203 | empties the inner cache and its counters |
| Cache.CachedContentIsServedForPermutedKeywords | src/services/cache_service.py:172-195 | content cached for one keyword order is served for any permutation of it |
| RateLimiting.KeepAfter | src/middleware/rate_limiter.py:48-51 | the filter keeps exactly the instants after the cutoff |
| RateLimiting.KeepAfterTwice | src/middleware/rate_limiter.py:44-51 | filtering by an earlier cutoff and then a later one equals filtering by the later one |
| RateLimiting.KeepAfterAppend | src/middleware/rate_limiter.py:101 | filtering distributes over appending new requests |
| RateLimiting.CountAfterMonotone | src/middleware/rate_limiter.py:77-86 | a longer window never counts fewer requests |
| RateLimiting.RecordCounts | src/middleware/rate_limiter.py:93-101 | a recorded request adds one to every window that contains `now` |
| RateLimiting.Decide | src/middleware/rate_limiter.py:59-91 | limited iff the minute count reaches its limit or the hour count reaches its limit; the minute message wins; an allowed request has an empty reason |
| RateLimiting.LimitedStaysLimited | src/middleware/rate_limiter.py:59-101 | a limited client stays limited after recording another request |
| RateLimiting.AllowedBelowLimits | src/middleware/rate_limiter.py:77-91 | with room for one more request in both windows the request is allowed |
| RateLimiting.InfoOf | src/middleware/rate_limiter.py:103-130 | minute count ≤ hour count ≤ history length; the remaining counts are the limits minus the counts, never below zero |
| RateLimiting.InfoAgreesWithDecide | src/middleware/rate_limiter.py:59-130 | a request would be limited exactly when the info reports zero remaining in either window |
| RateLimiting.Touch | src/middleware/rate_limiter.py:75 | reading a `defaultdict` adds the address with an empty history and changes no other entry |
| RateLimiting.PruneSome | src/middleware/rate_limiter.py:46-55 | pruning some addresses never adds an address |
| RateLimiting.PruneNone | src/middleware/rate_limiter.py:46 | before the loop nothing has been pruned |
| RateLimiting.PruneStep | src/middleware/rate_limiter.py:46-55 | one loop step filters one address's history and deletes it when empty |
| RateLimiting.Prune | src/middleware/rate_limiter.py:44-55 | after clean-up every address left has a non-empty history of instants after the cutoff |
| RateLimiting.CleanupDue | src/middleware/rate_limiter.py:41-42 | clean-up runs when the `.seconds` field of the time since the last one is at least 600; CleanupIgnoresDays shows that whole days are dropped |
| RateLimiting.AfterCleanup | src/middleware/rate_limiter.py:36-57 | the history after `_cleanup_old_entries`: pruned at one hour before `now` when clean-up is due, else unchanged; Prune, PruneKeepsWindows and CleanupKeepsDecisions state what it keeps |
| RateLimiting.PruneKeepsWindows | src/middleware/rate_limiter.py:36-91 | clean-up changes no count in any window starting at the cutoff or later |
| RateLimiting.CleanupKeepsDecisions | src/middleware/rate_limiter.py:36-130 | whether or not clean-up runs, every limit decision and every info report is unchanged |
| Time.SecondsField | src/middleware/rate_limiter.py:41 | `timedelta.seconds` lies in [0, 86400), and any difference, negative ones included, is whole days plus that many seconds plus a sub-second rest |
| RateLimiting.CleanupIgnoresDays | src/middleware/rate_limiter.py:41 | `.seconds` drops whole days, so a clean-up is skipped again whole days later |
| RateLimiting.RateLimiter.constructor | src/middleware/rate_limiter.py:19-34 | the limits as given, an empty history, and the last clean-up now |
| RateLimiting.RateLimiter.CleanupOldEntries | src/middleware/rate_limiter.py:36-57 | the loop prunes every address and leaves the clean-up result; the last clean-up instant moves only when clean-up ran |
| RateLimiting.RateLimiter.IsRateLimited | src/middleware/rate_limiter.py:59-91 | cleans up, touches the address, and returns the decision on the cleaned history |
| RateLimiting.RateLimiter.RecordRequest | src/middleware/rate_limiter.py:93-101 | appends `now` to this address's history and to no other |
| RateLimiting.RateLimiter.GetRateLimitInfo | src/middleware/rate_limiter.py:103-130 | touches the address and reports the info for its history |
| RateLimiting.CheckThenRecord | src/middleware/rate_limiter.py:59-130 | after an allowed request is recorded, each window holds at least one request and no more than its limit |
| Analytics.Syllables | src/services/content_analytics.py:223-247 | the syllable estimate is at least one |
| Analytics.FinalEHasGroup | src/services/content_analytics.py:239-241 | a word ending in `e` has a vowel group to take away, so the count never goes negative |
| Analytics.GroupStartsStep | src/services/content_analytics.py:233-237 | one more character adds one vowel group exactly when a vowel follows a non-vowel |
| Analytics.SyllablesIgnoreCase | src/services/content_analytics.py:228 | the estimate does not depend on letter case |
| Analytics.CountSyllables | src/services/content_analytics.py:223-247 | the loop counts the vowel groups, then makes the `e` and at-least-one adjustments |
| Analytics.Fragments | src/services/content_analytics.py:37 | splitting at terminators gives one piece per terminator plus one, and no piece holds a terminator |
| Analytics.NonBlank | src/services/content_analytics.py:38 | only non-empty stripped pieces are kept |
| Analytics.SentencesBound | src/services/content_analytics.py:37-38 | there are at most one more sentences than terminators |
| Analytics.OneSentence | src/services/content_analytics.py:37-38 | a text without terminators that is not blank is one sentence |
| Analytics.SumSyllables | src/services/content_analytics.py:47 | every word contributes at least one syllable |
| Analytics.Clamp | src/services/content_analytics.py:52 | the result lies in the bounds and equals the input when that already does |
| Analytics.SentenceCount | src/services/content_analytics.py:41 | the sentence count is at least one |
| Analytics.ReadingEase | src/services/content_analytics.py:44-52 | the reading ease lies in [0, 100] |
| Analytics.ReadabilityOf | src/services/content_analytics.py:29-59 | the readability report has its reading ease in [0, 100] |
| Analytics.ReadabilityCounts | src/services/content_analytics.py:36-41 | the report counts the words and at least one sentence, one per non-blank sentence |
| Analytics.AverageAbove | src/services/content_analytics.py:44 | the average sentence length exceeds `k` iff words > `k` × sentences |
| Analytics.AverageSyllablesAtLeastOne | src/services/content_analytics.py:46-48 | a text with words averages at least one syllable per word |
| Analytics.CountPresent | src/services/content_analytics.py:71-75 | the count is the number of list positions whose word occurs; it is zero iff no listed word occurs, and full iff every listed word occurs |
| Analytics.CountPresentDistinct | src/services/content_analytics.py:71-75 | on a list without repeats the count is the number of distinct listed words that occur |
| Analytics.EngagementListsDistinct | src/services/content_analytics.py:16-27 | none of the positive, negative and action word lists repeats a word |
| Analytics.HasDigitIff | src/services/content_analytics.py:82 | the digit search succeeds iff some character is a digit |
| Analytics.EngagementOf | src/services/content_analytics.py:61-102 | the engagement score lies in [50, 100]; each word count is the number of positions of its list whose word occurs in the lower-cased text, so at most the list's length; the question count is the number of `?`; the number flag is set iff there is a digit |
| Analytics.EngagementCountsWords | src/services/content_analytics.py:70-75 | the action, positive and negative counts are the numbers of distinct words of their lists that occur; no action words counted iff none occurs; all positive words counted iff all occur |
| Analytics.FoundFacts | src/services/content_analytics.py:130-136 | the found list holds exactly the keywords that occur |
| Analytics.TotalAtLeastFound | src/services/content_analytics.py:130-136 | the total counts at least one occurrence per found keyword |
| Analytics.FrequencyFacts | src/services/content_analytics.py:130-136 | the frequency map's keys are the found keywords, each mapped to its positive count |
| Analytics.Density | src/services/content_analytics.py:138 | the density is never negative |
| Analytics.KeywordAnalysisOf | src/services/content_analytics.py:104-145 | the analysis has a non-negative density |
| Analytics.KeywordAnalysisShape | src/services/content_analytics.py:115-145 | without keywords the analysis is empty and has no total; with keywords the total is present and covers the found list; the frequency keys are the found keywords |
| Analytics.TotalAppend | src/services/content_analytics.py:130-136 | the total over two keyword lists is the sum of their totals |
| Analytics.TotalCountsRepeats | src/services/content_analytics.py:130-136 | a repeated keyword is counted once per repeat |
| Analytics.EmptyKeywordIsFound | src/services/content_analytics.py:132 | an empty keyword is found, counted once per position plus one |
| Analytics.DensityOverWords | src/services/content_analytics.py:123-138 | with words, the density is occurrences per word times 100 |
| Analytics.KeywordStep | src/services/content_analytics.py:130-136 | one loop iteration extends the found list, the total and the map by that keyword |
| Analytics.AnalyzeKeywordDensity | src/services/content_analytics.py:104-145 | the loop computes exactly the keyword analysis |
| Analytics.SelectFacts | src/services/content_analytics.py:154-191 | the selected recommendations are exactly the applicable checks, in order |
| Analytics.SelectSnoc | src/services/content_analytics.py:154-188 | one more check appends its recommendation when it applies |
| Analytics.IssuesAreSelected | src/services/content_analytics.py:154-188 | the recommendations appended in the source's order are the applicable checks in their fixed order |
| Analytics.Recommendations | src/services/content_analytics.py:147-193 | the recommendations for a text's signals: the messages of the checks that fire, or "looks good" alone; its properties are RecommendationsShape and RecommendationsConditions, and GenerateSeoRecommendations is proved to build it |
| Analytics.RecommendationsShape | src/services/content_analytics.py:147-193 | the list is never empty; "looks good" appears only alone; the order is fixed; short and very long never both appear, nor low and high density |
| Analytics.RecommendationsConditions | src/services/content_analytics.py:154-191 | each check is listed iff its condition holds, and "looks good" iff none holds |
| Analytics.SignalsMeaning | src/services/content_analytics.py:156-187 | the signals are the word count, the presence of `?` and of a digit, and whether some keyword is missing |
| Analytics.MissingNamesAreMissing | src/services/content_analytics.py:174-176 | at most three distinct keyword names are listed, and each is a keyword that does not occur |
| Analytics.Enumerate | src/services/content_analytics.py:176 | listing a set gives each member exactly once |
| Analytics.LengthRecommendations | src/services/content_analytics.py:156-162 | the word-count section appends exactly its applicable recommendation |
| Analytics.AddKeywordRecommendations | src/services/content_analytics.py:165-176 | the keyword section appends its applicable density and missing-keyword recommendations |
| Analytics.AddStructureRecommendations | src/services/content_analytics.py:179-183 | the structure section appends its applicable recommendations |
| Analytics.AddReadabilityRecommendation | src/services/content_analytics.py:186-188 | the readability section appends its applicable recommendation |
| Analytics.GenerateSeoRecommendations | src/services/content_analytics.py:147-193 | the list built step by step is the recommendation list for the content's signals; the missing names are valid |
| Analytics.OverallScore | src/services/content_analytics.py:207-212 | the overall score lies in [35, 100] |
| Analytics.NoKeywordsScore | src/services/content_analytics.py:204-212 | without keywords the overall score is at most 85 |
| Analytics.GenerateContentReport | src/services/content_analytics.py:195-221 | the report holds the readability, engagement, keyword analysis and recommendations of the content, and an overall score in [35, 100] |
| Helpers.SanitizeText | src/utils/helpers.py:36-39 | a string with the harmful characters removed and stripped; SanitizeTextShape and SanitizeTextIdempotent state what it holds |
| Helpers.Sanitize | src/utils/helpers.py:26-47 | `sanitize_input` on strings, dictionaries, lists and other values; SanitizeShape and SanitizeIdempotent state its shape and idempotence |
| Helpers.SanitizeTextShape | src/utils/helpers.py:36-39 | a sanitised string holds no harmful character, only characters of the input, and no space at either end |
| Helpers.SanitizeTextIdempotent | src/utils/helpers.py:36-39 | sanitising a string twice equals sanitising it once |
| Helpers.SanitizeShape | src/utils/helpers.py:26-47 | strings stay strings; objects keep their keys and sanitise each value; lists sanitise each item; other values are unchanged |
| Helpers.SanitizeEntriesShape | src/utils/helpers.py:42 | each dictionary entry keeps its key and gets its value sanitised |
| Helpers.SanitizeItemsShape | src/utils/helpers.py:45 | each list item is sanitised in place |
| Helpers.SanitizeIdempotent | src/utils/helpers.py:26-47 | sanitising any value twice equals sanitising it once |
| Helpers.SanitizeEntriesIdempotent | src/utils/helpers.py:42 | the same for the entries of an object |
| Helpers.SanitizeItemsIdempotent | src/utils/helpers.py:45 | the same for the items of a list |
| Helpers.Slug | src/utils/helpers.py:107-120 | `generate_slug`; SlugChars, SlugFixpoint and SlugIdempotent state its characters, its fixpoints and its idempotence |
| Helpers.KeepSlugSourceChars | src/utils/helpers.py:118 | the first substitution leaves only word characters, whitespace and `-`, all from the input |
| Helpers.DropSpacesShape | src/utils/helpers.py:119 | a run of whitespace is consumed whole |
| Helpers.DashRunsChars | src/utils/helpers.py:119 | after the second substitution no whitespace is left |
| Helpers.SlugChars | src/utils/helpers.py:107-120 | a slug holds only lower-case letters, digits, `_` and `-` |
| Helpers.SlugFixpoint | src/utils/helpers.py:107-120 | a string made of slug characters is its own slug |
| Helpers.SlugIdempotent | src/utils/helpers.py:107-120 | slugging a slug changes nothing |
| Helpers.IndexOf | src/utils/helpers.py:134 | the index is the first occurrence of the character, or none when it does not occur |
| Helpers.IsValidEmail | src/utils/helpers.py:124-135 | `is_valid_email`, a full match or one before a final newline; FullMatchIsPattern and ValidEmailShape state which addresses it accepts |
| Helpers.FullMatchIsPattern | src/utils/helpers.py:134-135 | the matcher accepts a string iff it is local part, `@`, host, `.` and suffix, each non-empty and from its character class |
| Helpers.FullMatchShape | src/utils/helpers.py:134-135 | an accepted address has exactly one `@`, not first, and a `.` after the host |
| Helpers.ValidEmailShape | src/utils/helpers.py:124-135 | the same holds for every address `is_valid_email` accepts, a trailing newline included |
| Helpers.Flatten | src/utils/helpers.py:156-165 | `flatten_list`; FlattenLength, FlattenAppend and FlattenChunks state its length, its distribution over concatenation and that it undoes chunking |
| Helpers.FlattenLength | src/utils/helpers.py:156-165 | the flattened list is as long as all the parts together |
| Helpers.FlattenAppend | src/utils/helpers.py:156-165 | flattening distributes over concatenation |
| Helpers.Chunks | src/utils/helpers.py:152 | the slices of `chunk_list`; ChunksShape and FlattenChunks state their sizes and that they cover the data in order |
| Helpers.ChunkList | src/utils/helpers.py:139-152 | `chunk_list`, failing for a size below 1; ChunkListRoundTrip and ChunkListRefuses state when it fails and what it returns |
| Helpers.ChunksShape | src/utils/helpers.py:152 | every chunk but the last has exactly `chunk_size` items; the last has between 1 and `chunk_size`; no chunks iff no data |
| Helpers.FlattenChunks | src/utils/helpers.py:152-165 | flattening the chunks gives back the data |
| Helpers.ChunkListRoundTrip | src/utils/helpers.py:139-165 | a positive chunk size succeeds, flattening restores the data, and there are ⌈len / chunk_size⌉ chunks |
| Helpers.ChunkListRefuses | src/utils/helpers.py:150-151 | `chunk_list` fails iff the chunk size is not positive |
| ContentRoutes.QualityScore | src/routes/content.py:68-89 | the quality score lies in [50, 100] |
| ContentRoutes.QualityScoreIsSum | src/routes/content.py:68-89 | the cap at 100 never takes effect: the score is 50 plus the length, word-length and keyword bonuses |
| ContentRoutes.WordLengthBonusIff | src/routes/content.py:78-80 | the word-length bonus is earned iff there are words and 4·words ≤ letters ≤ 6·words |
| ContentRoutes.PresentIffOccurs | src/routes/content.py:84 | a keyword is present iff the keyword analysis counts an occurrence of it |
| ContentRoutes.KeywordsPresentIsFound | src/routes/content.py:84 | the keywords the quality score counts are the keywords the analysis service reports as found |
| ContentRoutes.KeywordBonusMeaning | src/routes/content.py:83-85 | with keywords, the bonus is full iff three are present and zero iff none is |
| ContentRoutes.SeoScore | src/routes/content.py:91-108 | the SEO score is 50, 60, 70 or 90, and 50 exactly when no keywords are given |
| ContentRoutes.SeoScoreBands | src/routes/content.py:96-108 | in integers: 90 iff words ≤ 100·occurrences ≤ 3·words, 60 iff below, 70 iff above |
| ContentRoutes.SeoDensityIsAnalyticsDensity | src/routes/content.py:96-101 | the SEO density is the analysis service's keyword density |
| ContentRoutes.AnalyzeSentiment | src/routes/content.py:110-129 | positive iff more positive words, negative iff more negative words, neutral iff tied; neutral has confidence 0.5, others between 0.3 and 0.95 |
| ContentRoutes.ConfidenceMeaning | src/routes/content.py:119-123 | confidence never drops as the count grows and reaches 0.95 iff the count is at least four |
| ContentRoutes.SentimentFullConfidence | src/routes/content.py:116-123 | a decided sentiment has confidence 0.95 iff its side has at least four words present |
| ContentRoutes.Template | src/routes/content.py:134-140 | every template starts with the prompt and ` - ` |
| ContentRoutes.FirstThree | src/routes/content.py:146 | `keywords[:3]` is all the keywords when there are no more than three, and exactly the first three otherwise |
| ContentRoutes.PyPrefix | src/routes/content.py:160 | `s[:n]` is a prefix of `s` of length `min(n, len)` for `n ≥ 0`, and of `max(0, len + n)` for negative `n` |
| ContentRoutes.GenerateAiContent | src/routes/content.py:131-160 | the text built step by step is the formatted template cut to `length`, so it never exceeds `length` |
| ContentRoutes.FormatForPlatform | src/routes/content.py:148-158 | the platform step is the platform formatting of the text |
| ContentRoutes.OnlyFirstThreeKeywords | src/routes/content.py:145-146 | keywords after the third never affect the text |
| ContentRoutes.TwitterShape | src/routes/content.py:152-154 | for Twitter the text is at most 280 characters of the base plus the tags, 300 characters in all |
| ContentRoutes.UntruncatedShape | src/routes/content.py:142-158 | on other platforms the text is template, keyword phrase and platform suffix, in that order, and starts with the prompt |
| ContentRoutes.ComparisonOf | src/routes/content.py:396-405 | the row for one stored content, read off the analytics report; BestIsBest and ComparisonsFacts use it |
| ContentRoutes.Comparisons | src/routes/content.py:392-405 | the rows of the stored requested ids in request order; ComparisonsSnoc and ComparisonsFacts state what it holds, and CollectComparisons is proved to build it |
| ContentRoutes.StoredIds | src/routes/content.py:392-394 | the stored requested ids are requested, stored, and no more than the requests |
| ContentRoutes.StoredIdsEmpty | src/routes/content.py:392-405 | there are no stored ids iff no requested id is stored |
| ContentRoutes.StoredIdsHas | src/routes/content.py:392-394 | every stored requested id is among them |
| ContentRoutes.ComparisonsSnoc | src/routes/content.py:392-402 | one more id appends its row exactly when it is stored |
| ContentRoutes.ComparisonsFacts | src/routes/content.py:392-405 | every row describes a requested, stored id's content report; there are no rows iff no requested id is stored |
| ContentRoutes.Best | src/routes/content.py:411-413 | `max(..., key=...)` returns a row whose score is maximal and is strictly above every earlier row's score (the first maximum) |
| ContentRoutes.CollectComparisons | src/routes/content.py:392-405 | the loop produces one row per stored requested id, in request order |
| ContentRoutes.CompareOne | src/routes/content.py:394-405 | a row reads the overall, reading-ease, engagement and density figures off the content report |
| ContentRoutes.CompareContent | src/routes/content.py:384-423 | fewer than two ids is insufficient data; no stored id is not-found; otherwise the rows, their count and the first best id for each metric |
| ContentRoutes.BestIsBest | src/routes/content.py:392-413 | for each metric, the best id is requested and stored, and no stored requested content scores higher |

## Left out

- The clock, `random.choice`, logging, file I/O (`load_json`, `save_json`, `configure_logging`), the
  `handle_errors` decorator, the rate-limit middleware and the HTTP route glue are outside the model.
  The clock and the random choice are parameters.
- `CacheEntry.get_age_seconds` is not modelled: no modelled operation uses it.
- The MD5 hashing and the `json.dumps` key are treated as injective functions of the key, and are not
  computed.
- `round(..., 2)` is not modelled: reports carry exact values. The places where the source uses a
  rounded value and the model the exact one:
  - the keyword density compared in the SEO recommendations (`content_analytics.py:141`, used at
    `:165-171`);
  - the average sentence length compared with 20 (`content_analytics.py:56`, used at `:187`);
  - the parts of the overall score (`content_analytics.py:55`, `:95`, `:141`, `:215`);
  - the `max` over the rounded overall and reading-ease scores in `compare_content`
    (`content.py:411-412`). Rounding can make two rows tie. Python then returns the first of them,
    while `ContentRoutes.Best` on exact values may return a later one.
- Python floats are exact rationals. This matters for the `0.3` and `1.015` factors and for divisions.
- Text handling is ASCII. `lower()` only maps `A`–`Z`; `\w` is ASCII letters, digits and `_`; the
  whitespace set is the ASCII part of Python's.
- `re.split(r'[.!?]+', ...)` is modelled as a split at each terminator. Runs of terminators then give
  empty pieces, which the blank filter drops, so the sentence list is the same.
- `Analytics.AddKeywordRecommendations`: the three missing keywords shown are taken in an unspecified
  order. The source takes them in Python's set iteration order, which depends on string hashing, so the
  model states only which names may appear.
- `None` keyword lists are modelled as `[]`, which the source treats alike at every modelled call.
- `sanitize_input`: dictionary keys are not sanitised, as in the source. The scalar kinds other than
  strings are reduced to numbers, booleans and null, which pass through unchanged.
- `chunk_list`'s comprehension over `range(0, len, size)` is modelled as the equivalent recursion.
- Cache.SetKeepsBound: stated for a positive `max_size` only. With a limit of 0 or less no
  non-empty cache is within its bound, so there is nothing to keep.
- `RateLimiting.RateLimiter.IsRateLimited`: the source reads the clock twice (once itself and once in
  the clean-up). The model uses one `now` for both.
- `Cache.SimpleCache.Get`, `Cache.SimpleCache.Set`, `Cache.SimpleCache.GetStats`: the source reads the clock
  once per entry for `is_expired` and again when `set` creates the `CacheEntry`. The model uses one `now` for
  all the reads of one call.
- `ContentRoutes.GenerateAiContent`: `tone` is accepted and unused, as in the source.
- `ContentRoutes.CompareContent`: the content store is a parameter (a map from id to stored text and
  keywords) rather than the module-level dictionary.
