# KfzLotti data layer in Dafny

This project models the offline-first data layer of *KfzLotti Explorer*, a
German licence-plate ("Kfz-Kennzeichen") lookup app, and proves properties
about it. It covers:

- input normalisation of plate prefixes and parsing of code lists (`Normalize`);
- the table of the sixteen federal states (`Bundeslaender`);
- exact search, prefix autocomplete, the sorted code list and the random
  discovery picks over the prebuilt index (`Search`, with the two string
  orders in `Ordering`);
- the structural validators and HTTP loaders for the index and the district
  geometry (`Validators`, `Loaders`);
- the persistent cache and the progress/badge ledger (`Storage`);
- the three dataset synchronisers (index, geometry, code details) and the
  combined data state (`Synchronisers`, `DataFacade`);
- the build-time transform from the raw district list to the index
  (`Transform`) and the rule-by-rule validator of the raw list
  (`DataValidation`);
- the platform tests and the install prompt of the progressive web app (`Pwa`).

JavaScript values the code inspects at run time are the datatype
`JsonValues.Json`, with `undefined` as its own constructor and JavaScript
truthiness as `Truthy`. The store is an explicit value (`Storage.Store`): a
map from key to entry, the optional progress record, and two flags saying
whether reads and writes succeed. Each asynchronous operation becomes a
function from the store before to its result and the store after. Clocks,
`Math.random()`, `fetch`, `navigator.onLine`, the user agent, the display
mode and the storage functions the hooks call but `storage.ts` does not define
are all parameters.

Modules and files:

| file | module | source |
|---|---|---|
| wrappers.dfy | Wrappers | `Option` / `Result` |
| text.dfy | Text | decimal rendering, prefixes, substrings |
| json.dfy | JsonValues | JavaScript values and truthiness |
| normalize.dfy | Normalize | src/lib/normalize.ts |
| bundeslaender.dfy | Bundeslaender | src/data/bundeslaender.ts |
| order.dfy | Ordering | `sort()` and `localeCompare` as used by src/lib/search.ts |
| search.dfy | Search | src/lib/search.ts |
| loaders.dfy | Validators, Loaders | src/lib/data-validators.ts, src/lib/data-loaders.ts |
| storage.dfy | Storage | src/lib/storage.ts, badge catalogue of src/data/schema.ts |
| sync.dfy | Synchronisers, DataFacade | src/hooks/useKfzIndex.ts, useTopoJson.ts, useKfzCodeDetails.ts, useKfzData.ts |
| transform.dfy | Transform | scripts/transform-index.ts |
| validate.dfy | DataValidation | scripts/validate-data.ts |
| pwa.dfy | Pwa | src/lib/pwa.ts |

Where the code and its documentation disagree, the model follows the code:

- `normalizeKfzCode` cuts to three letters, so `isValidKfzCode("TOOLONG")`
  holds.
- `getAllBundeslaender` returns the states in `Object.values` order. The keys
  "10".."16" are array indices, so they come first: Saarland leads and
  Bayern is last.
- The geometry query fetches whenever its cache is empty, even in offline
  mode.
- The validator's bounding box is latitude 46–56 and longitude 5–16. The
  centre is read as `[lng, lat]`.
- The code-format rule passes a one-element array around a good code,
  because `RegExp.prototype.test` converts its argument to a string.
- `storage.ts` is an older version than the hooks expect. `setCachedData`
  takes no options, so the metadata and TTL the hooks pass are recorded but
  never stored. `getCacheMetadata`, `migrateDataSchema`, `getUserSettings`
  and `CACHE_KEYS.CODE_DETAILS` are not defined there and enter as inputs.

## Model

| member | source | states |
|---|---|---|
| Normalize.NormalizeKfzCode | src/lib/normalize.ts:13-21 | the normalised code has at most three characters, each A–Z, Ä, Ö or Ü |
| Normalize.NormalizeIsFirstThreeLetters | src/lib/normalize.ts:16-20 | the code is the first min(3, n) of the n allowed letters of the trimmed, uppercased input |
| Normalize.NormalizeValue | src/lib/normalize.ts:13-14 | null, undefined, numbers and the empty string normalise to '' |
| Normalize.TrimStart | src/lib/normalize.ts:17 | drops exactly the leading white space and keeps the rest |
| Normalize.TrimEnd | src/lib/normalize.ts:17 | drops exactly the trailing white space and keeps the rest |
| Normalize.KeepCodeLetters | src/lib/normalize.ts:19 | only allowed letters remain, and the result is no longer than the input |
| Normalize.KeepCodeLettersAppend | src/lib/normalize.ts:19 | filtering distributes over concatenation: each part is filtered on its own and the results are joined in order |
| Normalize.KeepCodeLettersChar | src/lib/normalize.ts:19 | a single character is kept iff it is A–Z, Ä, Ö or Ü; with the append law, exactly the allowed letters survive, in order |
| Normalize.IsValidKfzCode | src/lib/normalize.ts:43-47 | a value is valid iff it is a string whose normalisation is non-empty |
| Normalize.NormalizeFixedPoints | src/lib/normalize.ts:16-20 | normalisation leaves a string unchanged iff it is empty or 1–3 allowed letters |
| Normalize.NormalizeIdempotent | src/lib/normalize.ts:16-20 | normalising a normalised code changes nothing |
| Normalize.ValidIffYieldsCodeLetter | src/lib/normalize.ts:43-47 | a string is valid iff some character of it uppercases to (or into text containing) an allowed letter, however long it is |
| Normalize.NormalizeExampleLower | src/lib/normalize.ts:16-20 | 'hh' normalises to 'HH' |
| Normalize.NormalizeExampleDigits | src/lib/normalize.ts:16-20 | 'H1H2' normalises to 'HH': digits are dropped before cutting |
| Normalize.NormalizeExampleDash | src/lib/normalize.ts:16-20 | 'M-123' normalises to 'M' |
| Normalize.NormalizeExampleLong | src/lib/normalize.ts:20 | 'HAMBURG' normalises to 'HAM' |
| Normalize.SplitWhitespace | src/lib/normalize.ts:31 | the split yields at least one piece, and no piece contains white space |
| Normalize.WhitespaceRuns | src/lib/normalize.ts:31 | the separators the split cuts at are non-empty runs of white space |
| Normalize.SplitWhitespaceJoin | src/lib/normalize.ts:31 | there is one more piece than separator, and joining the pieces with the separators gives back the input: nothing is lost or reordered |
| Normalize.CandidateCodes | src/lib/normalize.ts:32-34 | every surviving candidate has one to three allowed letters, and there are no more candidates than pieces |
| Normalize.FilterMapMembers | src/lib/normalize.ts:32-34 | after a map and a filter, a value survives iff it passes the filter and is the image of some element |
| Normalize.CandidateCodesMembers | src/lib/normalize.ts:32-34 | exactly the trimmed, uppercased pieces with 1–3 allowed letters survive; over-long pieces are dropped, not cut |
| Normalize.Dedupe | src/lib/normalize.ts:37 | the distinct elements, each once, with the same members, in first-occurrence order |
| Normalize.ParseKfzCodes | src/lib/normalize.ts:27-38 | parsed codes are distinct and well-formed, and '' gives [] |
| Normalize.ParseKfzCodesMembers | src/lib/normalize.ts:27-38 | the parsed codes are exactly the trimmed, uppercased whitespace-separated pieces that have 1–3 allowed letters |
| Normalize.ParseKfzCodesValue | src/lib/normalize.ts:27-28 | a non-string gives [] |
| Normalize.ParseKeepsFirstOccurrenceOrder | src/lib/normalize.ts:36-37 | parsed codes come out in the order of their first occurrence |
| Bundeslaender.TableWellFormed | src/data/bundeslaender.ts:8-25 | sixteen entries, each entry's code equals its key, and keys are distinct |
| Bundeslaender.TableNamesNonEmpty | src/data/bundeslaender.ts:8-25 | every state has a non-empty name and short name |
| Bundeslaender.KeysAreStateNumbers | src/data/bundeslaender.ts:8-25 | the keys are exactly "01".."16" |
| Bundeslaender.Lookup | src/data/bundeslaender.ts:35 | a key resolves iff it is a table key, to the entry with that code |
| Bundeslaender.GetFromArs | src/data/bundeslaender.ts:32-36 | an ARS shorter than two characters gives undefined, otherwise the entry keyed by its first two characters |
| Bundeslaender.GetFromArsCharacterised | src/data/bundeslaender.ts:32-36 | an ARS resolves iff its first two characters are a state number, to the state with that code |
| Bundeslaender.LookupBayern | src/data/bundeslaender.ts:17 | "09" is Bayern, BY |
| Bundeslaender.GetFromArsExample | src/data/bundeslaender.ts:32-36 | a Munich-area key resolves to Bayern |
| Bundeslaender.GetFromArsUnknownExample | src/data/bundeslaender.ts:33-35 | "17" and a one-character key resolve to nothing |
| Bundeslaender.NumberKeyIsIndex | src/data/bundeslaender.ts:42 | "10".."16" are array-index keys and "01".."09" are not |
| Bundeslaender.ObjectValuesSplit | src/data/bundeslaender.ts:42 | `Object.values` lists the array-index keys' values first, then the rest in declaration order |
| Bundeslaender.GetAll | src/data/bundeslaender.ts:41-43 | `getAllBundeslaender`: the table's values with the array-index keys "10".."16" first, then "01".."09"; `GetAllIsObjectValues` proves this is `Object.values` of the table |
| Bundeslaender.GetAllIsObjectValues | src/data/bundeslaender.ts:41-43 | `getAllBundeslaender` is `Object.values` of the table |
| Bundeslaender.GetAllContents | src/data/bundeslaender.ts:41-43 | it returns sixteen states, exactly the table's values |
| Bundeslaender.GetAllCodesDistinct | src/data/bundeslaender.ts:41-43 | no state appears twice |
| Bundeslaender.GetAllCodes | src/data/bundeslaender.ts:41-43 | the codes returned are exactly the sixteen keys |
| Bundeslaender.HasCodeIffKey | src/data/bundeslaender.ts:51 | a code is among the states iff it is a table key |
| Bundeslaender.Available | src/data/bundeslaender.ts:51 | the available states are exactly those whose code differs from `exclude` |
| Bundeslaender.FilterCode | src/data/bundeslaender.ts:51 | filtering keeps exactly the states whose code differs from `exclude` |
| Bundeslaender.FilterCodeDistinct | src/data/bundeslaender.ts:51 | filtering states with distinct codes keeps them distinct |
| Bundeslaender.FilterCodeLength | src/data/bundeslaender.ts:51 | filtering distinct states removes exactly one state iff the code occurs, none otherwise |
| Bundeslaender.AvailableCount | src/data/bundeslaender.ts:51 | excluding a state number leaves 15 states, anything else 16 |
| Bundeslaender.PickShuffled | src/data/bundeslaender.ts:52-53 | the pick has `slice(0, count)` length, draws from the available states and repeats none |
| Bundeslaender.GetRandom | src/data/bundeslaender.ts:50-54 | never returns the excluded code, only table states, each at most once, `slice(0, count)` many |
| Bundeslaender.GetRandomLength | src/data/bundeslaender.ts:51-53 | with count ≥ 0 the result has min(count, available) states |
| Ordering.LexLessTransitive | src/lib/search.ts:88 | code-unit order is transitive |
| Ordering.LexLessTotal | src/lib/search.ts:88 | code-unit order is total on distinct strings |
| Ordering.CollateLessIrreflexive | src/lib/search.ts:78 | the collation order is irreflexive |
| Ordering.CollateLessTransitive | src/lib/search.ts:78 | the collation order is transitive |
| Ordering.CollateLessTotal | src/lib/search.ts:78 | the collation order is total on distinct strings |
| Ordering.CollateExample | src/lib/search.ts:78 | collation puts "BÜD" before "BUL", and code-unit order puts it after |
| Ordering.LessTransitive | src/lib/search.ts:76-79 | the suggestion order (shorter first, then collation) is transitive |
| Ordering.LessTotal | src/lib/search.ts:76-79 | the suggestion order is total on distinct strings |
| Ordering.SortSet | src/lib/search.ts:76-79 | sorting a set yields every element once, strictly ascending |
| Ordering.SortedNoDup | src/lib/search.ts:88 | a strictly sorted list repeats nothing |
| Search.ResolveState | src/lib/search.ts:39-43 | the state comes from the ARS when it resolves, else from the short-name lookup |
| Search.MakeResult | src/lib/search.ts:45-54 | a result copies id, name, ars, codes and centre, carries the query code, and falls back to 'Unbekannt'/'??' without a state |
| Search.KnownIds | src/lib/search.ts:34-36 | the ids with a feature, in list order |
| Search.ResultsFor | src/lib/search.ts:34-55 | the result ids are exactly the known ids in order, each result built from its feature |
| Search.SearchKfzCode | src/lib/search.ts:25-56 | an empty normalised code, an absent code or an empty id list gives []; otherwise one result per id with a feature, in order |
| Search.SearchResultsCarryQuery | src/lib/search.ts:45-49 | every result's kfzCode is the normalised query, 1–3 allowed letters |
| Search.SearchWithoutFeatures | src/lib/search.ts:35-36 | a code none of whose ids has a feature finds nothing |
| Search.StateFromArs | src/lib/search.ts:39-52 | a feature whose ARS starts with a state number shows that state's name and short name |
| Search.PrefixMatches | src/lib/search.ts:70-73 | the matches are exactly the index codes starting with the prefix |
| Search.AutocompleteSuggestions | src/lib/search.ts:61-82 | empty input gives []; otherwise at most `limit` prefix matches, sorted shorter-first then by collation, and every omitted match sorts after every returned one |
| Search.DefaultAutocompleteSuggestions | src/lib/search.ts:64 | without a limit, at most five suggestions: the first five prefix matches, or all of them when there are fewer |
| Search.GetAllKfzCodes | src/lib/search.ts:87-89 | every index code exactly once, in ascending code-unit order |
| Search.GetRandomKfzCode | src/lib/search.ts:94-97 | with u in [0, 1) a code is returned iff the index has one, and it is an index code |
| Search.FloorInRange | src/lib/search.ts:96 | `Math.floor(u * n)` is a valid index |
| Search.FirstHit | src/lib/search.ts:111-114 | a code contributes its first search result iff it has one |
| Search.HitsAppend | src/lib/search.ts:108-115 | the hits of two code lists are the hits of each, concatenated |
| Search.CollectHits | src/lib/search.ts:106-117 | the loop returns the hits of the codes it walked, at most `count`, and stops early only once it has `count` |
| Search.GetRandomResults | src/lib/search.ts:102-118 | the result is the first min(count, hits) hits of the shuffled codes, and [] for count ≤ 0 |
| Search.DefaultRandomResults | src/lib/search.ts:102 | without a count, the first min(3, hits) hits of the shuffled codes |
| Validators.IsValidTopoJson | src/lib/data-validators.ts:21-37 | valid iff an object whose `objects.kreise.geometries` is a non-empty array |
| Validators.IsValidIndex | src/lib/data-validators.ts:51-68 | valid iff an object with non-empty string `dataVersion` and `buildHash` and object-typed `codeToIds` and `features` |
| Validators.ValidatorsRejectNonObjects | src/lib/data-validators.ts:22-24 | null, undefined, strings, numbers, booleans and arrays fail both checks |
| Validators.TopoTypeIgnored | src/lib/data-validators.ts:28-36 | the top-level `type` does not affect the geometry check |
| Validators.IndexContentsIgnored | src/lib/data-validators.ts:63-66 | the contents of `codeToIds` and `features` do not affect the index check |
| Validators.EmptyGeometriesRejected | src/lib/data-validators.ts:35 | an empty geometry array is rejected |
| Validators.IndexNeedsStringVersion | src/lib/data-validators.ts:58-60 | an empty or non-string `dataVersion` is rejected |
| Loaders.MergeOptions | src/lib/data-loaders.ts:54-57 | the caller's `cache` overrides the default and the caller's headers are passed on |
| Loaders.IndexRequest | src/lib/data-loaders.ts:54-57 | the index is fetched from the given URL with 'no-cache', unless the caller's options set a cache mode, which then wins; the caller's headers are passed on |
| Loaders.TopoRequest | src/lib/data-loaders.ts:93-96 | the geometry is fetched from the given URL with 'default', unless the caller's options set a cache mode, which then wins; the caller's headers are passed on |
| Loaders.LoadChecked | src/lib/data-loaders.ts:54-69 | success iff the response is ok, parses and validates, returning the parsed body; otherwise the network error, the status message, the parse error or the invalid-data message |
| Loaders.LoadIndexData | src/lib/data-loaders.ts:50-70 | the load succeeds iff the response is ok, its body parses and passes `isValidIndex`, and then returns that body; a bad status gives "Failed to fetch index: <status> <statusText>", an invalid body "Invalid index data structure", and a network or parse error passes through |
| Loaders.LoadTopoData | src/lib/data-loaders.ts:89-109 | the load succeeds iff the response is ok, its body parses and passes `isValidTopoJson`, and then returns that body; a bad status gives "Failed to fetch TopoJSON: <status> <statusText>", an invalid body "Invalid or empty TopoJSON data", and a network or parse error passes through |
| Loaders.IndexNotFoundExample | src/lib/data-loaders.ts:59-61 | a 404 fails with "Failed to fetch index: 404 Not Found" whatever the body |
| Loaders.CallerCacheWins | src/lib/data-loaders.ts:54-57 | a caller's cache directive replaces the default for both loaders |
| Storage.GetCachedData | src/lib/storage.ts:37-45 | a value is read iff the store is readable and holds a truthy payload under the key, and that payload is returned |
| Storage.SetCachedData | src/lib/storage.ts:50-60 | a working store gets the entry under the key; a failing one is left unchanged |
| Storage.ClearCache | src/lib/storage.ts:65-67 | succeeds iff the store is writable, emptying the cache; a failure is not caught |
| Storage.CacheRoundTrip | src/lib/storage.ts:37-60 | a written payload reads back unchanged if truthy, as null otherwise |
| Storage.CacheWriteIsolated | src/lib/storage.ts:50-60 | a write to one key leaves every other key's reading unchanged |
| Storage.ClearCacheEmpties | src/lib/storage.ts:65-67 | after a successful clear every key reads null |
| Storage.UnreadableReadsNull | src/lib/storage.ts:41-44 | a failing read gives null |
| Storage.DefaultProgress | src/lib/storage.ts:81-91 | the default record has id 'user-progress' and all counters, lists and dates empty |
| Storage.GetUserProgress | src/lib/storage.ts:75-110 | returns the stored record, else the default, persisted only when the store could be read and written |
| Storage.GetUserProgressSettles | src/lib/storage.ts:75-110 | reading twice gives the same record and the second read changes nothing |
| Storage.Merge | src/lib/storage.ts:119-123 | every given field overrides, every absent one is kept, the id is kept and the timestamp renewed |
| Storage.UpdateProgress | src/lib/storage.ts:115-127 | succeeds iff the store is writable, storing and returning the merge of the current record |
| Storage.UpdateProgressIdempotent | src/lib/storage.ts:115-127 | applying the same update twice stores the same record |
| Storage.FindBadge | src/lib/storage.ts:160 | the badge found has the id asked for; none is found iff no badge has it |
| Storage.FindBadgeUnique | src/lib/storage.ts:160 | with distinct ids, finding a badge by its id gives that badge |
| Storage.CatalogueIdsDistinct | src/data/schema.ts:112-121 | badge ids in the catalogue are distinct |
| Storage.AwardedBadgesFound | src/data/schema.ts:112-121 | every id the ledger looks up is found in the catalogue |
| Storage.BadgeIds | src/lib/storage.ts:156 | the ids of the badges, position by position |
| Storage.AwardIf | src/lib/storage.ts:159-162 | a badge is earned iff its rule fires and it is not held yet |
| Storage.SearchBadges | src/lib/storage.ts:156-185 | only badges not held yet, stamped now |
| Storage.SearchBadgesDistinct | src/lib/storage.ts:156-185 | a search never awards the same badge id twice |
| Storage.SearchBadgeRules | src/lib/storage.ts:158-185 | first_search iff the count is 1, ten_searches from 10, fifty_searches from 50, streak_3 from a streak of 3, streak_7 from 7, each only if not held, and nothing else |
| Storage.QuizBadges | src/lib/storage.ts:209-221 | only badges not held yet, stamped now, no id twice |
| Storage.QuizBadgeRules | src/lib/storage.ts:211-221 | first_quiz iff the new total is 1, quiz_master iff at least ten correct, each only if not held, and nothing else |
| Storage.NextStreak | src/lib/storage.ts:148-153 | active yesterday adds one, active today keeps the streak, anything else restarts at one |
| Storage.Consecutive | src/lib/storage.ts:145-146 | the k consecutive days from d |
| Storage.StreakCountsConsecutiveDays | src/lib/storage.ts:145-153 | searching on k consecutive days after a pause gives a streak of k |
| Storage.ContinueStreak | src/lib/storage.ts:148-150 | each further consecutive day adds one to the streak |
| Storage.SameDayKeepsStreak | src/lib/storage.ts:151 | a second search on the same day leaves the streak |
| Storage.Discover | src/lib/storage.ts:140-142 | the district is added iff absent, so a duplicate-free list stays duplicate-free |
| Storage.RecordSearch | src/lib/storage.ts:132-197 | succeeds iff writable; the count goes up by one, the district is discovered, the streak advances, today is recorded, and exactly the returned badges are appended |
| Storage.RecordQuizAnswer | src/lib/storage.ts:202-230 | succeeds iff writable; the total goes up by one, the correct count iff correct, and exactly the returned badges are appended |
| Storage.AppendFreshBadges | src/lib/storage.ts:193 | appending distinct new badges keeps badge ids unique |
| Storage.DefaultProgressValid | src/lib/storage.ts:81-91 | the default record satisfies the ledger invariant |
| Storage.RecordSearchPreservesValid | src/lib/storage.ts:132-197 | a search keeps counts non-negative, discovered districts and badge ids duplicate-free |
| Storage.RecordQuizAnswerPreservesValid | src/lib/storage.ts:202-230 | an answer keeps correct ≤ total and badge ids unique |
| Storage.NoBadgeTwice | src/lib/storage.ts:156-185 | a badge already held is never returned again |
| Storage.RecordsTouchOwnFields | src/lib/storage.ts:188-194 | a quiz answer leaves the search fields alone, a search the quiz fields |
| Storage.FirstSearchExample | src/lib/storage.ts:132-197 | the first search on an empty store earns exactly first_search, with count 1, one district and streak 1 |
| Storage.AllStatesNeverAwarded | src/lib/storage.ts:132-230 | the all-states badge is never awarded by either operation |
| Synchronisers.AfterMigration | src/hooks/useKfzIndex.ts:60 | a migration may drop the index entry and touches nothing else |
| Synchronisers.ConditionalHeaders | src/hooks/useKfzIndex.ts:73-77 | If-None-Match is sent iff the cached metadata has a truthy dataVersion, carrying it |
| Synchronisers.WithFallback | src/hooks/useKfzIndex.ts:97-103 | the value in hand wins, else the fallback |
| Synchronisers.SyncIndex | src/hooks/useKfzIndex.ts:57-104 | the loader is called iff online and not in offline mode; the cache is written iff the fetch succeeds and there is no metadata or the version differs; the error and fallback paths |
| Synchronisers.SyncIndexKeepsCacheValid | src/hooks/useKfzIndex.ts:80-88 | the index query only ever stores a validated index |
| Synchronisers.LoaderFailureFallsBack | src/hooks/useKfzIndex.ts:92-101 | a loader failure is swallowed and the cached value or the fallback is used |
| Synchronisers.IsNewer | src/hooks/useKfzIndex.ts:80 | fetched data replaces the cache iff there is no cached metadata or its dataVersion differs, by strict inequality, from the cached one |
| Synchronisers.SameVersionDropsFreshIndex | src/hooks/useKfzIndex.ts:80-91 | with an unchanged version the fetched payload is dropped, and an empty cache then leads to the fallback |
| Synchronisers.MigrationPrecedesCacheRead | src/hooks/useKfzIndex.ts:60-67 | an index dropped by the migration is not read back |
| Synchronisers.IndexSyncRoundTrip | src/hooks/useKfzIndex.ts:67-88 | what an online query stored is what a later offline query returns |
| Synchronisers.SyncTopo | src/hooks/useTopoJson.ts:53-81 | the loader runs iff the cache is empty or online and not offline mode; success writes and returns the geometry, failure returns the cache or null |
| Synchronisers.SyncTopoValid | src/hooks/useTopoJson.ts:64-70 | the geometry query only ever stores and returns validated geometry |
| Synchronisers.OfflineTopoUsesCache | src/hooks/useTopoJson.ts:62 | offline mode with cached geometry makes no request and returns the cache |
| Synchronisers.TopoWithoutAnything | src/hooks/useTopoJson.ts:72-80 | no cache and a failed fetch settle with null |
| Synchronisers.Settled | src/hooks/useKfzCodeDetails.ts:61-66 | the error is cleared iff code details are present, else the unavailable message |
| Synchronisers.LoadCodeDetails | src/hooks/useKfzCodeDetails.ts:28-85 | fetches iff online and not offline mode; writes iff the response is ok, with a thirty-day TTL; no state update after unmount; the outer failure state |
| Synchronisers.DetailsErrorIffMissing | src/hooks/useKfzCodeDetails.ts:61-66 | the final error is null iff code details are present |
| Synchronisers.NullDetailsCached | src/hooks/useKfzCodeDetails.ts:47-54 | a null body is cached without validation and reported as missing |
| DataFacade.CombinedError | src/hooks/useKfzData.ts:68-74 | an index error wins (its message, or the generic text); a geometry error gives the map message; else no error |
| DataFacade.Combine | src/hooks/useKfzData.ts:65-77 | loading iff either query loads, map available iff the geometry is valid |
| DataFacade.NoGeometryNoMap | src/hooks/useKfzData.ts:77 | without geometry there is no map |
| DataFacade.IndexErrorFirst | src/hooks/useKfzData.ts:68-74 | an index error hides a geometry error |
| DataFacade.OnConnectivity | src/hooks/useKfzData.ts:86-96 | going online clears the flag and refetches both queries; going offline only sets the flag |
| DataFacade.ReplayFollowsLastEvent | src/hooks/useKfzData.ts:46 | after any events the offline flag reflects the last one, or the initial connectivity |
| DataFacade.ReplayFrom | src/hooks/useKfzData.ts:86-96 | after a non-empty event sequence the flag is set by the last event |
| Transform.DistrictId | scripts/transform-index.ts:54 | ids start with "district_" |
| Transform.DistrictIdInjective | scripts/transform-index.ts:54 | different districts get different ids |
| Transform.ArsOrState | scripts/transform-index.ts:59 | the feature's ars is the district's ARS if non-empty, else its state |
| Transform.FeatureOf | scripts/transform-index.ts:57-62 | the feature copies name and original codes and centre |
| Transform.TransformToKfzIndex | scripts/transform-index.ts:74-80 | version 1, generated from the raw version, source copied |
| Transform.CodeMapAt | scripts/transform-index.ts:65-71 | each code's list is exactly the reference list of districts using it, once per use |
| Transform.CodeIndicesShape | scripts/transform-index.ts:53-71 | the reference lists name real districts in ascending order and include every district using the code |
| Transform.FeatureMapKeys | scripts/transform-index.ts:53-62 | the features are keyed by exactly the district ids |
| Transform.FeatureMapValues | scripts/transform-index.ts:57-62 | each district's feature sits under its own id |
| Transform.EveryCodeListsItsDistrict | scripts/transform-index.ts:65-71 | every code of every district lists that district under the uppercased code |
| Transform.IdsResolve | scripts/transform-index.ts:53-71 | every id in any code list is a feature key |
| Transform.ListsInDistrictOrder | scripts/transform-index.ts:67-70 | each list is non-empty and in ascending district order |
| Transform.OneFeaturePerDistrict | scripts/transform-index.ts:53-63 | one feature per district, copied from it, with as many features as districts |
| Transform.RepeatedCodeListedTwice | scripts/transform-index.ts:67-70 | a code given twice by one district lists that district twice |
| DataValidation.TopLevelErrors | scripts/validate-data.ts:27-35 | one error for each of version, source and license that is missing, and nothing else |
| DataValidation.CodeMatches | scripts/validate-data.ts:67 | `/^[A-ZÄÖÜ]{1,3}$/.test(code)` after `test`'s string conversion: a string of one to three allowed letters, or a one-element array whose element matches; no other value matches |
| DataValidation.CodeFormatErrors | scripts/validate-data.ts:65-69 | only format errors for this district, no more than there are codes |
| DataValidation.OneErrorPerBadCode | scripts/validate-data.ts:65-69 | exactly one error per code that does not match the pattern |
| DataValidation.CodesErrors | scripts/validate-data.ts:60-78 | a missing or non-array codes value gives the invalid-codes error, an empty array the no-codes error, otherwise one format error per bad code; `CodesErrorsEmptyIff` proves it is clean iff the codes are a non-empty array of matching codes |
| DataValidation.CenterErrors | scripts/validate-data.ts:81-93 | at most one error per centre; the invalid-centre error exactly for a missing or wrong-length centre; no error iff both coordinates are numbers inside the box |
| DataValidation.CenterErrorKinds | scripts/validate-data.ts:84-91 | non-number coordinates give their own error before the position is checked; numeric ones are reported outside Germany exactly when they leave the box |
| DataValidation.StateErrors | scripts/validate-data.ts:96-102 | no error iff the state is one of the sixteen abbreviations; a missing state gives its own error |
| DataValidation.DistrictErrors | scripts/validate-data.ts:51-108 | every error of a district names that district |
| DataValidation.CodeFormatErrorsEmptyIff | scripts/validate-data.ts:65-69 | the format rule reports nothing iff every code matches the pattern |
| DataValidation.CodesErrorsEmptyIff | scripts/validate-data.ts:60-78 | the codes rules report nothing iff the codes are a non-empty array of matching codes |
| DataValidation.ValidDistrict | scripts/validate-data.ts:54-107 | the reference definition of an accepted district, stated field by field without the rules' order: a non-empty string name, a non-empty array of matching codes, a two-element numeric centre inside the box, a listed state, and an ars that is falsy or a string |
| DataValidation.AcceptableIndex | scripts/validate-data.ts:23-108 | the reference definition of an accepted input: not null or undefined, truthy version, source and license, and a non-empty districts array whose elements are all present and valid districts |
| DataValidation.DistrictErrorsEmptyIff | scripts/validate-data.ts:54-107 | a district passes every rule iff it is a valid district: a non-empty string name, a non-empty array of matching codes, a numeric centre inside the box, a listed state, and an ars that is absent or a string |
| DataValidation.AllDistrictsCleanIff | scripts/validate-data.ts:51-108 | the district loop reports nothing iff every district is valid |
| DataValidation.ValidateKfzIndex | scripts/validate-data.ts:23-118 | a nullish input or district crashes; a missing or non-array district list stops with one error, an empty list with another |
| DataValidation.ValidateMainBranch | scripts/validate-data.ts:23-118 | past the crash and early-stop cases, the header errors come first and the districts' errors follow in district order |
| DataValidation.TopLevelCleanIff | scripts/validate-data.ts:27-35 | the header rules report nothing iff version, source and license are all truthy |
| DataValidation.ValidateCleanIff | scripts/validate-data.ts:23-118 | the script returns no errors iff the header is complete, the districts are a non-empty array of present values, and the district loop reports nothing |
| DataValidation.ValidateAcceptsIff | scripts/validate-data.ts:23-118 | the script returns no errors iff its input is acceptable: truthy version, source and license, and a non-empty array of present, valid districts |
| DataValidation.DistrictErrorsCompose | scripts/validate-data.ts:51-108 | each district's errors depend on that district and its number alone |
| DataValidation.WellFormedDistrictClean | scripts/validate-data.ts:51-108 | a district with a name, a good code, a centre in Germany and a valid state has no error |
| DataValidation.CleanInputAccepted | scripts/validate-data.ts:23-118 | no top-level and no district error means an empty error list |
| DataValidation.SharedCodeAccepted | scripts/validate-data.ts:71-76 | two districts sharing a code produce no error |
| DataValidation.WrappedCodeMatches | scripts/validate-data.ts:67 | a one-element array around a good code passes, a longer array, a four-letter code and lowercase do not |
| DataValidation.ShortNamesAreValidStates | scripts/validate-data.ts:96-97 | every state table short name is on the validator's list |
| DataValidation.ValidStatesAreShortNames | scripts/validate-data.ts:96-97 | every listed abbreviation is a state table short name |
| DataValidation.CenterExamples | scripts/validate-data.ts:81-91 | a centre in the Atlantic is outside Germany, a three-element centre is invalid |
| Pwa.IsPwaInstalled | src/lib/pwa.ts:15-27 | installed iff the standalone display mode matches or `navigator.standalone` is exactly true |
| Pwa.StandaloneIsStrict | src/lib/pwa.ts:22 | a truthy `navigator.standalone` other than true does not count |
| Pwa.JsLowerIgnoresAsciiCase | src/lib/pwa.ts:33 | lower-casing ignores the case of ASCII letters |
| Pwa.IsIos | src/lib/pwa.ts:32-35 | an agent is iOS iff its lower-cased form contains "iphone", "ipad" or "ipod" |
| Pwa.IsIosSafari | src/lib/pwa.ts:40-43 | iOS Safari implies iOS, and a Chrome or Firefox iOS agent is never iOS Safari |
| Pwa.IphoneSafariDetected | src/lib/pwa.ts:40-43 | an iPhone agent naming Safari and neither CriOS nor FxiOS, such as the iPhone Safari agent, is iOS Safari |
| Pwa.UserAgentTestsIgnoreCase | src/lib/pwa.ts:32-50 | the iOS, iOS Safari and Android tests do not depend on the case of ASCII letters |
| Pwa.IphoneIsIos | src/lib/pwa.ts:32-35 | any agent naming an iPhone is iOS |
| Pwa.IsAndroid | src/lib/pwa.ts:48-50 | an agent is Android iff it contains "android" ignoring ASCII case |
| Pwa.AndroidInAnyCase | src/lib/pwa.ts:48-50 | any agent naming Android, in either case, is Android |
| Pwa.OnInstallEvent | src/lib/pwa.ts:95-103 | a prompt event defers the prompt; installation sets installed and drops the prompt |
| Pwa.PromptInstall | src/lib/pwa.ts:114-122 | without a prompt false; otherwise whether the user accepted, and the prompt is dropped |
| Pwa.PromptUsedOnce | src/lib/pwa.ts:114-122 | asking a second time reports false |
| Pwa.InstalledCannotInstall | src/lib/pwa.ts:100-103 | after installation nothing can be installed |
| Pwa.AcceptedPromptInstalls | src/lib/pwa.ts:114-125 | after a prompt event the answer is true exactly for an accepted prompt |

## Left out

- `formatDistance` and `getDistanceComparison` in normalize.ts are display helpers outside the data layer.
- Normalize.KeepCodeLetters: the character classes at src/lib/normalize.ts:19 and :34 appear as `[^A-ZÃ„Ã–Ãœ]` and `^[A-ZÃ„Ã–Ãœ]+$`, the UTF-8 bytes of Ä, Ö and Ü read as Windows-1252. Taken literally, they allow Ã, „, – and œ and reject Ä, Ö and Ü, so 'ä' would normalise to ''. The model uses the intended class A–Z, Ä, Ö, Ü, which scripts/validate-data.ts:67 also uses.
- Normalize.UpperChar: `toUpperCase` is modelled character by character. It covers ASCII, ä/ö/ü and every mapping whose result contains an allowed letter or white space. Other characters keep themselves. In the normaliser this differs from JavaScript only in characters that can never survive the letter filter; the transform has no such filter (see Transform.TransformToKfzIndex).
- Strings are sequences of code points, not UTF-16 code units. Lengths and `substring` agree for the Basic Multilingual Plane only.
- Ordering.CodeUnitLess: `getAllKfzCodes`' `sort()` compares UTF-16 code units, while the model compares code points. The two orders differ only when a character outside the Basic Multilingual Plane meets one in U+E000–U+FFFF: its surrogate code units sort below them, its code point above.
- Transform.TransformToKfzIndex: the transform uppercases codes with `toUpperCase` and no letter filter (scripts/transform-index.ts:66), and `UpperChar` only covers ASCII, ä/ö/ü and the characters listed with it. A code such as "é" becomes the key "É" in the source and stays "é" in the model, and the same holds for other accented, Greek or Cyrillic lower-case codes. The build runs the data validator first, and the validator rejects every such code.
- Ordering.CollateLess: `localeCompare` is modelled as German collation on the plate alphabet (base letter, then umlaut, then code unit). The runtime's full collation of arbitrary text is not modelled.
- Search.GetRandomResults and Bundeslaender.GetRandom: the random shuffle is a parameter. A comparator-driven `sort` with `Math.random()` is not a uniform shuffle, and its distribution is not modelled.
- Search: `getBundeslandFromShortName` is not part of this model. It enters as the parameter `byShortName`.
- Numbers are reals. NaN, Infinity, `-0` and non-integer counts are not modelled.
- JSON objects are maps. Prototype keys (`__proto__`, inherited properties) and key order are not modelled, except for the `Object.values` order of the state table.
- Loaders: `loadFallbackData` is not modelled as a function. Its bundled constant, or its failure, is the `fallback` input of the index synchroniser.
- Loaders: `fetch` is the `network` parameter and `response.json()` is the response's `body` result. Headers other than If-None-Match and all other `RequestInit` fields are not modelled.
- Storage: timestamps are the parameter `now`, and today and yesterday are parameters. The date arithmetic of `toISOString().split('T')` is not modelled.
- Storage: the database is one value with a read flag and a write flag. A store that fails only some operations, or fails between two operations, is not modelled.
- Storage: a `ProgressUpdate` field is either given or absent. A key present with value `undefined`, which the spread copies, is not modelled.
- Storage: the `seats` table and the SEATS key are declared but not used by the modelled operations.
- Synchronisers: `getCacheMetadata`, `migrateDataSchema`, `getUserSettings` and `CACHE_KEYS.CODE_DETAILS` are not defined in the modelled storage.ts. They enter as results or as the key parameter. The metadata and TTL options passed to `setCachedData` are recorded in `CacheWrite` but are ignored by the store, as the two-argument `setCachedData` ignores them.
- Synchronisers: TanStack Query options (stale time, retries, garbage collection) and the query cache are not modelled. Each query function is modelled as one run.
- Synchronisers and DataFacade: toasts, console logging and React rendering are left out. Concurrent runs of the queries and races between them are left out.
- DataFacade: `refresh` is modelled as the list of datasets refetched. The refetch itself is a new run of the query function.
- DataValidation: error message text is left out. The rules produce a datatype of errors instead, because the messages interpolate arbitrary values through JavaScript string conversion. The informational duplicate-code log is left out; it never adds an error.
- DataValidation.CodeMatches: `test` converts its argument to a string. This is modelled for strings and for one-element arrays of strings. Any other value is treated as not matching, which is what its string form gives for the pattern.
- Pwa: `matchMedia`, `navigator` and the user agent are parameters. `useOnlineStatus` and `registerServiceWorker` depend only on browser events and the service-worker API, and are not modelled.
- Pwa.JsLowerChar: `toLowerCase` is modelled on the characters whose lower case contains an ASCII letter. These are A–Z, U+0130 and U+212A. All other characters keep themselves. The tests only search for ASCII patterns, so this is exact for them.
- Pwa.PromptInstall: the user's choice is the deferred prompt's `outcome` field. Showing the browser dialog is not modelled.
