# League of Legends dashboard — a Dafny model of its core

The dashboard looks a player up by Riot ID (game name and tag). It shows their profile, rank, recent matches, champion statistics and performance charts, and keeps a list of favourite players. This project models the logic behind those screens as pure Dafny functions over immutable data, and proves what each piece promises. The modelled pieces are:

- **Cache.** A cache over a key/value storage, with per-entry expiry.
- **Lookup pipeline, three generations:**
  - the first-generation `fetch` client;
  - the uncached service over `apiRequest`;
  - the cache-first service.

  Each runs account → summoner → rank → match ids → match details. The data provider is an oracle passed in as a parameter.
- **Favourites.** The record and its case-insensitive identity, in four variants: the context store, the standalone hook, the older panel with its own timestamp refresh, and the two heart buttons.
- **Champion panels.** A per-champion rollup, the most-played list and the win-rate chart.
- **Performance charts, old and new.** Ranked-game points, five-game moving averages, trends, summary cards and stat levels. The older component's KDA is modelled both as written and as evidently intended (see Findings).
- **Match list.**
  - the advanced match filter and the choices it offers;
  - the profile container: search, refresh, the filtered list and the count shared with the filter panel;
  - the incrementally revealed list;
  - the match detail view: rosters and objectives.

JavaScript's semantics are written out where they matter:
- `Array.prototype.slice` with negative indices;
- `Math.round`, rounding halves up;
- `Number(x.toFixed(d))`, rounding halves away from zero;
- truthiness of `0`, `""` and `null`;
- `Object.values` listing string keys in insertion order;
- `Object.entries` listing integer keys in ascending order;
- the default `sort()` on strings;
- the white space that `trim()` removes.

Time is a parameter (`now`, in milliseconds). Storage is a map from keys to slots; a slot holds a parsed entry or a value that does not parse.

Reading a cache entry that does not parse returns null and leaves the entry in place (`src/lib/utils/cacheService.ts`, lines 52-55).

## Model

| member | source | states |
|---|---|---|
| CacheService.Set | src/lib/utils/cacheService.ts:16-30 | the key's slot becomes an entry with the data, the write time and expiry `now + duration`; every other key is untouched |
| CacheService.Get | src/lib/utils/cacheService.ts:35-56 | a missing or unparsable slot is a miss and leaves storage alone; an entry read after its expiry is a miss, and exactly its slot is deleted; otherwise its data is returned and storage is unchanged |
| CacheService.Remove | src/lib/utils/cacheService.ts:61-68 | only the prefixed key is dropped |
| CacheService.ClearAll | src/lib/utils/cacheService.ts:73-81 | exactly the storage keys starting with the cache prefix are dropped; all others remain |
| CacheService.SetThenGet | src/lib/utils/cacheService.ts:16-56 | a value written with duration `d` reads back at any time up to `now + d` |
| CacheService.GetAroundExpiry | src/lib/utils/cacheService.ts:46-49 | strictly after expiry the read misses and deletes the key; exactly at expiry it still hits |
| CacheService.GetAbsent | src/lib/utils/cacheService.ts:35-44 | a missing key reads as absent with storage unchanged |
| CacheService.GetCorrupt | src/lib/utils/cacheService.ts:52-55 | an unparsable slot reads as absent and stays in storage |
| CacheService.RemoveThenGet | src/lib/utils/cacheService.ts:61-68 | after `remove(key)` every later read of the key misses |
| CacheService.ClearAllThenGet | src/lib/utils/cacheService.ts:73-81 | after `clearAll()` every key read through the cache misses |
| CacheService.SetOtherKey | src/lib/utils/cacheService.ts:16-30 | writing one key never changes what another key reads |
| CacheService.CacheKeyShape | src/lib/utils/cacheService.ts:87-89 | a key is the type tag, `-`, then the parameters joined by `-`, case preserved |
| CacheService.CacheKeyKindsDisjoint | src/lib/utils/cacheService.ts:87-89 | keys of two different dash-free type tags never collide |
| CacheService.StorageKeysOfKindsDiffer | src/lib/utils/cacheService.ts:87-89 | the same for the prefixed storage keys |
| CacheService.JoinDashInjective | src/lib/utils/cacheService.ts:87-89 | with dash-free parameters, equal keys mean equal parameter lists, so names differing only in case get separate entries |
| CacheService.CacheKeyAmbiguousWithDash | src/lib/utils/cacheService.ts:87-89 | a parameter containing `-` lets two different identities share one key |
| Provider.ApiRequest | src/lib/constants/apiRoutes.ts:35-57 | a 2xx reply with a parsable body yields the body; any other reply or a transport failure yields the thrown error |
| RiotTypes.FindByPuuid | src/components/features/profile/SummonerContainer.tsx:42-44 | present exactly when some participant has the PUUID, and then it is the first such participant |
| RiotTypes.ToRankInfo | src/lib/api/riotService.ts:153-161 | the view's rank keeps tier, rank, wins and losses and renames `leaguePoints` to `lp` |
| RiotTypes.FirstEntry | src/lib/api/riotService.ts:68 | the first league entry, or none for an empty list |
| RiotService.SearchSummoners | src/lib/api/riotService.ts:18-46 | a live cached account is returned with no call; otherwise exactly one account call, and its result is cached for 15 minutes on success; null on failure |
| RiotService.GetSummonerRank | src/lib/api/riotService.ts:51-73 | the first entry of the cached or fetched list; null for an empty list or a failed request; a fetched list is cached for 15 minutes |
| RiotService.GetMatchIds | src/lib/api/riotService.ts:107-116 | the cached id list, else one call for ids 0..18 cached for 10 minutes; a failed request aborts |
| RiotService.LookupMatches | src/lib/api/riotService.ts:119-126 | every id is looked up in the cache, in order, before any detail request; one slot per id |
| RiotService.FetchMisses | src/lib/api/riotService.ts:128-143 | each miss is requested in id order and cached for an hour on success; a failure yields null for that id only |
| RiotService.LookupReadsOriginal | src/lib/api/riotService.ts:119-126 | each slot is what the cache held for that id before the fan-out; the lookups delete exactly the expired match entries |
| RiotService.FetchMissesCaches | src/lib/api/riotService.ts:128-134 | every miss that arrives is cached under its match key with a one-hour lifetime |
| RiotService.FetchMissesKeepsOthers | src/lib/api/riotService.ts:128-143 | every key other than a fetched match's is left as it was |
| RiotService.FanOutIsCachedOrFetched | src/lib/api/riotService.ts:119-145 | the fan-out yields, for each id in order, the live cached detail or else the fetched one |
| RiotService.GetSummonerData | src/lib/api/riotService.ts:78-173 | a live cached view is returned with no call; otherwise a view exactly when account, summoner record and id list succeed, and then it is the view `FetchView` assembles, after the account and summoner calls; the account request comes first exactly when no account entry is live, and a view is left cached under the summoner key |
| RiotService.FetchView | src/lib/api/riotService.ts:104-163 | rank, ids and details assembled into the view; null exactly when the id list cannot be obtained; the matches are, in id order, the cached or fetched detail of each id, with failed ones dropped |
| RiotService.ClearSummonerCache | src/lib/api/riotService.ts:178-181 | only the whole-view key is dropped |
| RiotService.CachedViewShortCircuits | src/lib/api/riotService.ts:79-85 | a live cached view is returned with no provider call and storage untouched |
| RiotService.AccountRequestedFirst | src/lib/api/riotService.ts:90-92 | whenever the pipeline runs uncached, the first provider call is the account request |
| RiotService.AccountFailureAborts | src/lib/api/riotService.ts:91-92 | an unknown account yields null and no request follows the account lookup |
| RiotService.SummonerFailureAborts | src/lib/api/riotService.ts:98-100 | a failed summoner request yields null; rank and match endpoints are never asked |
| RiotService.NoViewCachedOnFailure | src/lib/api/riotService.ts:166-172 | a lookup that yields null never caches a view |
| RiotService.FetchViewKeepsView | src/lib/api/riotService.ts:104-116 | steps 3 and 4 never touch the view's key |
| RiotService.ViewCachedOnSuccess | src/lib/api/riotService.ts:166 | a successful lookup leaves its view live under the summoner key |
| RiotService.FreshViewTtl | src/lib/api/riotService.ts:8-12 | a freshly assembled view expires exactly fifteen minutes later |
| RiotService.RepeatWithinTtlIsCached | src/lib/api/riotService.ts:79-85 | asking again within that lifetime returns the same view with no call, whatever the provider would now answer |
| RiotService.ClearThenMiss | src/lib/api/riotService.ts:178-181 | after clearing, the view misses and every other key reads as before |
| ApiRoutes.SearchSummoners | src/lib/constants/apiRoutes.ts:68-79 | the account, or null when the request throws |
| ApiRoutes.GetSummonerRank | src/lib/constants/apiRoutes.ts:84-94 | the first league entry; null for an empty list or a failed request |
| ApiRoutes.MatchDetails | src/lib/constants/apiRoutes.ts:126-140 | one detail request per id, in id order; a failed request becomes null |
| ApiRoutes.GetSummonerData | src/lib/constants/apiRoutes.ts:99-163 | null when the account, summoner record or id list fails; otherwise the view with rank or null, and its matches are exactly the details that arrived, in id order |
| ApiRoutes.FetchView | src/lib/constants/apiRoutes.ts:115-160 | steps 3 to 5 once account and summoner record are known; the matches are exactly the details that arrived, in id order |
| RiotApi.SearchSummoners | src/lib/riotApi.ts:18-36 | null when the reply is missing, not OK, or does not parse |
| RiotApi.GetSummonerRank | src/lib/riotApi.ts:41-54 | the first entry of an OK reply, else null |
| RiotApi.CollectDetails | src/lib/riotApi.ts:95-105 | the details list with null for non-OK replies, or a rejection when any fetch or parse throws |
| RiotApi.FetchView | src/lib/riotApi.ts:81-105 | the rank and id requests come first; a view exactly when the id list arrives and no match-detail fetch throws, and then its matches are the fetched details in id order |
| RiotApi.GetSummonerData | src/lib/riotApi.ts:59-128 | the account is requested first; a view exactly when the account, the summoner record and steps 3 to 5 all succeed, so one throwing match-detail fetch voids the lookup |
| ServiceAgreement.RawAgreesWithUncached | src/lib/riotApi.ts:95-105 | with no transport or parse failure among detail replies, the raw client and the uncached service return the same |
| ServiceAgreement.ViewsAgree | src/lib/riotApi.ts:81-105 | once account and summoner record are known, the raw client and the uncached service agree when no detail reply throws |
| ServiceAgreement.RawRejectsOnThrowingDetail | src/lib/riotApi.ts:95-105 | one throwing detail reply makes the raw client return null where the uncached service still returns the view without that match |
| ServiceAgreement.FanOutFromCleanStorage | src/lib/api/riotService.ts:119-145 | with no cached match for the listed ids, every id is fetched in order |
| ServiceAgreement.FetchViewFromAccountOnly | src/lib/api/riotService.ts:104-163 | steps 3 to 5 agree with the uncached service when storage holds at most the account entry |
| ServiceAgreement.CachedFromEmptyAgrees | src/lib/api/riotService.ts:78-173 | from an empty cache the cache-first service returns what the uncached service returns, with the same calls in the same order |
| Formatters.FormatGameDuration | src/lib/utils/formatters.ts:5-9 | the text is the digits of `floor(s / 60)`, `:`, then the two digits of `s % 60`, zero-padded |
| Formatters.DurationRoundTrip | src/lib/utils/formatters.ts:5-9 | parsing a formatted duration gives back its number of seconds |
| Formatters.DurationDisplayInjective | src/lib/utils/formatters.ts:5-9 | two different durations never display alike |
| Formatters.KdaRatio | src/lib/utils/formatters.ts:33 | the exact ratio: takedowns divided by deaths, with zero deaths counted as one |
| Formatters.CalculateKda | src/lib/utils/formatters.ts:28-34 | the ratio as `toFixed(2)` shows it: a multiple of 0.01 within 0.005 of the exact ratio |
| Formatters.KdaZeroDeaths | src/lib/utils/formatters.ts:28-34 | a deathless game shows kills plus assists, exactly, as a game with one death does |
| Formatters.KdaMonotone | src/lib/utils/formatters.ts:28-34 | more takedowns never lower the ratio or the shown figure; more deaths never raise them |
| Formatters.HandleApiError | src/lib/utils/formatters.ts:42-61 | the fixed message for 404, 429 and 403, `Erreur serveur (status).` for other statuses, an error's own message, else the generic text |
| Formatters.ServerMessagesDistinct | src/lib/utils/formatters.ts:51-52 | different unrecognised statuses give different messages |
| Formatters.KnownMessagesDistinct | src/lib/utils/formatters.ts:44-53 | the three known statuses and all others are told apart by their messages |
| Text.StripLeadingHash | src/context/FavoritesContext.tsx:122 | at most one leading `#` is removed, and nothing else changes |
| Text.ParseNatToString | src/lib/utils/formatters.ts:8 | the decimal rendering of a number reads back as the number |
| Rounding.Round | src/components/features/performance/PerformanceCharts.tsx:225-228 | `Math.round`: the integer within half of `x`, halves rounded up |
| Rounding.Percent | src/components/features/champions/ChampionWinRateChart.tsx:76 | a whole percentage between 0 and 100 for a share between 0 and 1 |
| Rounding.RoundUnique | src/components/features/performance/PerformanceCharts.tsx:225-228 | any integer within half of `x` (half-open) equals the rounding |
| Rounding.RoundMonotone | src/components/features/champions/ChampionWinRateChart.tsx:76-79 | rounding never reverses an order |
| Rounding.PercentOfHalf | src/components/features/champions/ChampionWinRateChart.tsx:76 | an even share of wins reads as exactly fifty per cent |
| Rounding.ToFixed | src/components/features/performance/PerformanceCharts.tsx:71 | the multiple of `10^-digits` nearest to `x`, halves away from zero |
| Rounding.ToFixedClose | src/components/features/performance/PerformanceCharts.tsx:71 | `toFixed` moves a value by at most half a unit of the last place |
| Rounding.ToFixedIdempotent | src/components/features/performance/PerformanceCharts.tsx:150-154 | rounding an already rounded value changes nothing |
| Rounding.ToFixedBelow | src/components/features/performance/PerformanceCharts.tsx:229-234 | rounding keeps a value below any bound that is itself such a multiple |
| Rounding.ToFixedWhole | src/components/features/performance/PerformanceCharts.tsx:108 | a whole number is its own `toFixed` |
| Rounding.ToFixedMonotone | src/lib/utils/formatters.ts:33 | on non-negative values `toFixed` never reverses an order |
| Rounding.ToFixedOnGrid | src/lib/utils/formatters.ts:33 | `toFixed(digits)` is a multiple of `10^-digits` |
| Rounding.ToFixedNoDigits | src/components/PerformanceCharts.tsx:442-447 | with no decimals, `toFixed` of a non-negative value is `Math.round` |
| Seqs.FilterSome | src/lib/api/riotService.ts:162 | only present values are kept, and every present value is kept |
| Seqs.FilterSomeAppend | src/lib/api/riotService.ts:162 | dropping nulls keeps the order: the present values of two runs are those of the first followed by those of the second |
| Seqs.FilterSomeAllPresent | src/lib/api/riotService.ts:162 | nothing is dropped when every value is present |
| Seqs.Filter | src/components/features/matches/MatchDetails.tsx:29-30 | the kept elements are exactly those satisfying the test, all from the input |
| Seqs.FilterAppend | src/context/FavoritesContext.tsx:43-50 | filtering distributes over concatenation, so kept elements keep their relative order |
| Seqs.FilterCongruent | src/components/features/profile/SummonerContainer.tsx:40-71 | filters agreeing on every element give the same result |
| Seqs.FilterSplit | src/components/features/matches/MatchDetails.tsx:28-32 | when each element satisfies exactly one of two tests, the two filters share out all elements |
| Seqs.JsSlice | src/components/features/performance/PerformanceCharts.tsx:167-168 | `slice` never yields more than the input |
| Seqs.SliceIndex | src/components/features/performance/PerformanceCharts.tsx:167-168 | a negative index counts from the end; the result is clamped to the length |
| Seqs.TakeSlice | src/components/features/matches/VirtualMatchList.tsx:69 | `slice(0, n)` for `n >= 0` is the first `min(n, length)` elements |
| Sorting.SortBy | src/components/features/champions/TopChampions.tsx:112-116 | the result is ordered by the key and is a permutation of the input |
| Sorting.InsertTies | src/components/features/champions/TopChampions.tsx:112-116 | an inserted element goes before every element with the same key, and those keep their order |
| Sorting.SortByStable | src/components/features/champions/TopChampions.tsx:112-116 | the sort is stable: the elements with any one key appear in input order |
| Sorting.SortBySorted | src/components/features/performance/PerformanceCharts.tsx:53-55 | sorting an already ordered sequence leaves it as it is |
| Favorites.NewFavorite | src/context/FavoritesContext.tsx:117-126 | the id is both parts lower-cased and joined by `-`; the tag loses one leading `#`; stamped with `now` |
| Favorites.FindFirst | src/components/ProfileFavoriteButton.tsx:43-83 | the index of the first entry matching the pair case-insensitively, or none |
| Favorites.RemovePair | src/context/FavoritesContext.tsx:40-51 | keeps exactly the entries not matching the pair, in order |
| Favorites.SortByRecency | src/components/Favorites.tsx:160-162 | most recent first, a missing timestamp counting as 0, and a permutation of the list |
| Favorites.IsFavoriteCaseInsensitive | src/context/FavoritesContext.tsx:141-151 | the lookup does not depend on the case the pair is written in |
| Favorites.NewFavoriteMatchesIff | src/context/FavoritesContext.tsx:115-126 | a new favourite answers its own name and tag exactly when the tag did not start with `#` |
| Favorites.RemovePairClears | src/context/FavoritesContext.tsx:40-51 | after removal no entry answers the pair |
| Favorites.RemovePairAbsent | src/context/FavoritesContext.tsx:40-51 | a list without matching entries is left as it is |
| Favorites.RemovePairIdempotent | src/context/FavoritesContext.tsx:40-51 | removing twice is removing once |
| Favorites.SortByRecencyKeepsEntries | src/components/Favorites.tsx:160-162 | sorting keeps every entry and the length |
| FavoritesContext.Reduce | src/context/FavoritesContext.tsx:30-60 | add appends the payload, remove filters the pair out, set replaces the list |
| FavoritesContext.Add | src/context/FavoritesContext.tsx:109-127 | no change when the pair is already a favourite, else exactly one new entry at the end |
| FavoritesContext.Remove | src/context/FavoritesContext.tsx:128-133 | the entries matching the pair are dropped and the others kept |
| FavoritesContext.AddThenIsFavorite | src/context/FavoritesContext.tsx:109-136 | the list grows by at most one, and with a tag without `#` the pair becomes a favourite |
| FavoritesContext.AddIdempotent | src/context/FavoritesContext.tsx:109-127 | adding the same pair again changes nothing (tag without `#`) |
| FavoritesContext.AddWithHashDuplicates | src/context/FavoritesContext.tsx:115-122 | with a `#`-prefixed tag the duplicate check misses the stored entry, so a second add appends a second copy |
| FavoritesContext.RemoveKeepsOthers | src/context/FavoritesContext.tsx:128-133 | every entry of another pair stays, in order |
| FavoritesContext.RemoveAbsent | src/context/FavoritesContext.tsx:128-133 | removing a non-favourite changes nothing |
| FavoritesContext.AddThenRemoveRestores | src/context/FavoritesContext.tsx:109-133 | adding a new pair and removing it restores the list (tag without `#`) |
| UseFavorites.AddHook | src/hooks/useFavorites.ts:36-52 | no change for an existing favourite, else one new entry at the end |
| UseFavorites.RemoveHook | src/hooks/useFavorites.ts:54-62 | keeps the entries that differ in name or in tag |
| UseFavorites.IsFavoriteAgrees | src/hooks/useFavorites.ts:28-34 | the hook's lookup is the context's lookup |
| UseFavorites.AddAgrees | src/hooks/useFavorites.ts:36-52 | the hook's add is the context's add |
| UseFavorites.RemoveAgrees | src/hooks/useFavorites.ts:54-62 | the hook's filter keeps exactly what the reducer's filter keeps |
| UseFavorites.RemoveThenNotFavorite | src/hooks/useFavorites.ts:54-62 | after removal the hook no longer reports the pair |
| FavoritesPanel.AddFromForm | src/components/Favorites.tsx:86-125 | empty fields are ignored; a duplicate only closes the form; otherwise one entry is appended and the form closes |
| FavoritesPanel.AddCurrent | src/components/Favorites.tsx:128-152 | the displayed player is appended when given and not yet a favourite |
| FavoritesPanel.Touch | src/components/Favorites.tsx:63-83 | one run of the refresh effect: the list keeps its length |
| FavoritesPanel.RemoveById | src/components/Favorites.tsx:155-157 | drops every entry with that id and keeps every entry with another id |
| FavoritesPanel.RemoveByIdCounts | src/components/Favorites.tsx:155-157 | every entry with another id stays as often as it occurred; every entry with the id is gone |
| FavoritesPanel.RemoveByIdAppend | src/components/Favorites.tsx:155-157 | removal keeps the order of the remaining entries |
| FavoritesPanel.FormIconOnlyForExactCurrent | src/components/Favorites.tsx:86-125 | the icon is attached to a form entry exactly when the form names the displayed player verbatim |
| FavoritesPanel.AddCurrentThenFavorite | src/components/Favorites.tsx:128-152 | adding the displayed player (tag without `#`) makes it the current favourite |
| FavoritesPanel.TouchChangesOnlyFirstMatch | src/components/Favorites.tsx:63-83 | the refresh changes at most the first matching entry, keeps its identity, and adds or removes nothing |
| FavoritesPanel.TouchAbsentIsNoOp | src/components/Favorites.tsx:63-83 | nothing changes when the player is not a favourite or no icon is given |
| FavoritesPanel.TouchKeepsFavorites | src/components/Favorites.tsx:63-83 | the set of favourites, as the lookup sees it, is unchanged |
| FavoritesPanel.TouchKeepsFirstMatch | src/components/Favorites.tsx:66-70 | the first entry the lookup finds is the same after a refresh |
| FavoritesPanel.TouchNeverSettles | src/components/Favorites.tsx:63-83 | as written, a run at a later time always changes the list again, so the effect that depends on the list never settles |
| FavoritesPanel.TouchSettles | src/components/Favorites.tsx:63-83 | a second run at the same time leaves the list unchanged |
| FavoritesPanel.RemoveByIdAbsent | src/components/Favorites.tsx:155-157 | removing an unknown id changes nothing |
| FavoritesPanel.SortedListing | src/components/Favorites.tsx:160-172 | the listing shows every favourite, most recent first |
| FavoritesView.Render | src/components/features/favorites/Favorites.tsx:24-56 | the empty message for no favourites, else the sorted grid with the current player highlighted case-insensitively |
| FavoritesView.GridIsSortedPermutation | src/components/features/favorites/Favorites.tsx:35-37 | the grid shows each favourite as often as it is stored, most recent first |
| FavoriteButton.HandleToggle | src/components/features/profile/ProfileFavoriteButton.tsx:20-26 | removes the pair when it is a favourite, otherwise adds it |
| FavoriteButton.ClickFlips | src/components/features/profile/ProfileFavoriteButton.tsx:20-26 | for a tag without `#`, one click flips whether the pair is a favourite |
| FavoriteButton.ClickTouchesOnlyThePair | src/components/features/profile/ProfileFavoriteButton.tsx:20-26 | every entry of another pair stays, and nothing but the new favourite is added |
| FavoriteButton.ClickTwiceRestores | src/components/features/profile/ProfileFavoriteButton.tsx:20-26 | two clicks on a non-favourite restore the list (tag without `#`) |
| LegacyFavoriteButton.Load | src/components/ProfileFavoriteButton.tsx:20-37 | an absent or unparsable stored value reads as the empty list |
| LegacyFavoriteButton.ToggleFavorite | src/components/ProfileFavoriteButton.tsx:43-83 | removes the first matching entry if any, else appends a new one; the list is always written back |
| LegacyFavoriteButton.CheckWithoutList | src/components/ProfileFavoriteButton.tsx:20-37 | with nothing or garbage stored, the button starts empty |
| LegacyFavoriteButton.ToggleOverwritesUnparsable | src/components/ProfileFavoriteButton.tsx:43-83 | an unparsable stored value is replaced by a list holding only the new entry |
| LegacyFavoriteButton.ToggleRemovesOneEntry | src/components/ProfileFavoriteButton.tsx:43-83 | exactly the first matching entry is removed; every entry before and after it, later duplicates included, keeps its order |
| LegacyFavoriteButton.ToggleTwiceRestores | src/components/ProfileFavoriteButton.tsx:43-83 | two clicks from a list without the pair give the list back (tag without `#`) |
| LegacyFavoriteButton.ToggleStateAgreesWhenUnique | src/components/ProfileFavoriteButton.tsx:20-83 | with at most one match and a tag without `#`, the state after a click is what a fresh check reports |
| LegacyFavoriteButton.ToggleStateStaleWithDuplicates | src/components/ProfileFavoriteButton.tsx:20-83 | with two matching entries, a click shows the heart empty although the pair is still stored |
| ChampionStats.PlayerRows | src/components/features/champions/TopChampions.tsx:62-67 | only the player's rows, and the row of every match with the player; matches without the player contribute nothing |
| ChampionStats.PlayerRowsAppend | src/components/features/champions/TopChampions.tsx:62-67 | the rows keep match order: the rows of two runs of matches are those of the first followed by those of the second |
| ChampionStats.TotalsFor | src/components/features/champions/TopChampions.tsx:82-105 | the reference totals of one champion, straight from the rows |
| ChampionStats.IndexOf | src/components/features/champions/TopChampions.tsx:82 | the position of the champion's entry, if there is one |
| ChampionStats.Rollup | src/components/features/champions/TopChampions.tsx:59-113 | one entry per champion played, each equal to the reference totals computed straight from the rows |
| ChampionStats.RollupFirstPlayOrder | src/components/features/champions/TopChampions.tsx:59-113 | the entries are in the order in which each champion was first played |
| ChampionStats.TotalsForAbsent | src/components/features/champions/TopChampions.tsx:82-95 | a champion nobody played has zero totals |
| ChampionStats.TotalsForSnoc | src/components/features/champions/TopChampions.tsx:97-105 | a new row adds to its own champion's totals and to no other |
| ChampionStats.RollupCountsEveryGame | src/components/features/champions/TopChampions.tsx:97 | the games over all champions add up to the number of rows |
| ChampionStats.RollupEntriesPlayed | src/components/features/champions/TopChampions.tsx:82-98 | every entry has at least one game and never more wins than games |
| ChampionStats.PlayerRowsCount | src/components/features/champions/TopChampions.tsx:62-67 | the rows number exactly the matches containing the player |
| TopChampions.FilterMatches | src/components/features/champions/TopChampions.tsx:41-56 | keeps exactly the matches of the chosen game type, in order |
| TopChampions.Top | src/components/features/champions/TopChampions.tsx:112-116 | exactly the first `min(limit, champions)` entries of the rollup sorted by games, most first |
| TopChampions.SortedPrefix | src/components/features/champions/TopChampions.tsx:114-115 | a prefix of the sorted totals stays sorted and holds only rollup entries |
| TopChampions.EmptyMessage | src/components/features/champions/TopChampions.tsx:119-123 | tells an empty filter apart from a filter keeping none of the player's games |
| TopChampions.ChampionKda | src/components/features/champions/TopChampions.tsx:126-130 | the champion's takedowns over deaths (zero deaths counted as one) as `toFixed(2)` shows it: a multiple of 0.01 within 0.005 of the ratio |
| TopChampions.WinPercent | src/components/features/champions/TopChampions.tsx:198 | a whole percentage between 0 and 100 |
| TopChampions.AllGamesKeepsEverything | src/components/features/champions/TopChampions.tsx:43 | "Tous" keeps every match |
| TopChampions.UnknownGameTypeKeepsNothing | src/components/features/champions/TopChampions.tsx:54 | any other label keeps nothing |
| TopChampions.TopAreMostPlayed | src/components/features/champions/TopChampions.tsx:112-116 | no champion left out was played more than a listed one |
| TopChampions.TopListsEveryone | src/components/features/champions/TopChampions.tsx:115 | with room for all, every champion played under the filter is listed |
| TopChampions.StatsEmptyIff | src/components/TopChampions.tsx:43-70 | the rollup is empty exactly when none of the player's games survives the filter |
| TopChampions.TopEntriesDisplayable | src/components/TopChampions.tsx:131-134 | every listed champion has at least one game and a win percentage between 0 and 100 |
| ChampionWinRate.WithRate | src/components/features/champions/ChampionWinRateChart.tsx:74-77 | the entry keeps its totals and gets the rounded win percentage |
| ChampionWinRate.Rated | src/components/features/champions/ChampionWinRateChart.tsx:45-77 | every champion played, with its win percentage, in first-appearance order |
| ChampionWinRate.ChampionRates | src/components/features/champions/ChampionWinRateChart.tsx:73-79 | a rearrangement of the entries with at least `minGames` games, one per champion, highest win percentage first |
| ChampionWinRate.ChartData | src/components/features/champions/ChampionWinRateChart.tsx:83-86 | the first ten of the sorted champions |
| ChampionWinRate.OverallWinRate | src/components/features/champions/ChampionWinRateChart.tsx:210-220 | a percentage between 0 and 100 for a non-empty list, none for an empty one |
| ChampionWinRate.OverallIsPooled | src/components/features/champions/ChampionWinRateChart.tsx:210-220 | the figure is the player's wins over the player's games on every champion with at least `minGames` games, and there is none exactly when there is no such game |
| ChampionWinRate.PooledSums | src/components/features/champions/ChampionWinRateChart.tsx:210-220 | entries with one champion each add up to the games and wins on those champions |
| ChampionWinRate.ListedAreQualifying | src/components/features/champions/ChampionWinRateChart.tsx:73-79 | the listed champions are exactly those with at least `minGames` games |
| ChampionWinRate.RatesWellFormed | src/components/features/champions/ChampionWinRateChart.tsx:73-79 | every drawn champion has a percentage between 0 and 100 and at least `minGames` games |
| ChampionWinRate.ChampionListedIff | src/components/features/champions/ChampionWinRateChart.tsx:78 | a champion reaches the data exactly when played at least `minGames` times |
| ChampionWinRate.ChartEmptyIff | src/components/features/champions/ChampionWinRateChart.tsx:111 | the "not enough data" message shows exactly when no champion has `minGames` games |
| Performance.RankedMatches | src/components/features/performance/PerformanceCharts.tsx:44-46 | exactly the solo/duo and flex games, in order |
| Performance.SortedRanked | src/components/features/performance/PerformanceCharts.tsx:53-55 | a rearrangement of the ranked games ordered by creation time, oldest first |
| Performance.ShortName | src/components/features/performance/PerformanceCharts.tsx:100-103 | names over eight characters are cut to seven plus `...`; shorter ones are kept |
| Performance.TeamDamageIncludes | src/components/features/performance/PerformanceCharts.tsx:80-87 | a player's own damage is part of the team total |
| Performance.DamageShare | src/components/features/performance/PerformanceCharts.tsx:78-97 | the player's percentage of the team's damage, between 0 and 100, and 0 when the team dealt none |
| Performance.PointKda | src/components/features/performance/PerformanceCharts.tsx:73-75 | takedowns over deaths, or 10 for a deathless game, to two decimals |
| Performance.CsPerMinute | src/components/features/performance/PerformanceCharts.tsx:66-71 | minions and monsters per minute to one decimal, never negative |
| Performance.Point | src/components/features/performance/PerformanceCharts.tsx:58-122 | a point exactly when the player took part, numbered by position and holding that game's figures; its KDA is 10 without deaths and the rounded ratio otherwise |
| Performance.PointsNumbered | src/components/features/performance/PerformanceCharts.tsx:106 | each point is the point of the game at its own position |
| Performance.PointsOrdered | src/components/features/performance/PerformanceCharts.tsx:106 | game numbers increase along the points |
| Performance.PointsComplete | src/components/features/performance/PerformanceCharts.tsx:124 | every game with the player gets a point |
| Performance.ChartData | src/components/features/performance/PerformanceCharts.tsx:40-125 | at most one point per match, all ranked, numbers increasing and times non-decreasing |
| Performance.ChartDataComplete | src/components/features/performance/PerformanceCharts.tsx:40-125 | every ranked game of the player has its point, numbered by its position in time |
| Performance.ChartKda | src/components/features/performance/PerformanceCharts.tsx:73-108 | every point's KDA is 10 for a deathless game and the ratio to two decimals otherwise |
| Performance.Window | src/components/features/performance/PerformanceCharts.tsx:134 | the five points ending at `i` |
| Performance.SmoothedAt | src/components/features/performance/PerformanceCharts.tsx:130-156 | the first four points unchanged; from the fifth on, the rounded five-game means |
| Performance.MovingAverages | src/components/features/performance/PerformanceCharts.tsx:128-158 | one smoothed point per point |
| Performance.SteadyWindowAverage | src/components/features/performance/PerformanceCharts.tsx:140-152 | when the last five games share one KDA, the plotted average is that value rounded to two decimals |
| Performance.Recent | src/components/features/performance/PerformanceCharts.tsx:167 | the last five values |
| Performance.Older | src/components/features/performance/PerformanceCharts.tsx:168 | the up to five values before the last five |
| Performance.CompareIff | src/components/features/performance/PerformanceCharts.tsx:185-190 | with a positive older mean: up exactly when the recent mean is more than 10% higher, down exactly when more than 10% lower |
| Performance.StableUnderEight | src/components/features/performance/PerformanceCharts.tsx:165-170 | fewer than eight values never show a trend |
| Performance.TrendFromEight | src/components/features/performance/PerformanceCharts.tsx:165-192 | from eight values on, the trend compares the last five with the ones before |
| Performance.AveragesOf | src/components/features/performance/PerformanceCharts.tsx:209-236 | all zero for no points; else the means to two, one and zero decimals and the wins percentage |
| Performance.AllWinsShowHundred | src/components/features/performance/PerformanceCharts.tsx:229-234 | a player who won every charted game shows 100 |
| Performance.GetStatLevel | src/components/features/performance/PerformanceCharts.tsx:698-707 | poor below the lowest threshold, then average, then good, else excellent, after sorting ascending |
| Performance.LevelOfSorted | src/components/features/performance/PerformanceCharts.tsx:702 | thresholds already ascending are compared as listed |
| Performance.LevelMonotone | src/components/features/performance/PerformanceCharts.tsx:698-707 | a higher value never gets a lower level |
| Performance.KdaBands | src/lib/constants/gameConstants.ts:82-88 | the KDA card's bands: only the three lowest thresholds matter |
| Performance.CsBands | src/lib/constants/gameConstants.ts:72-77 | the CS-per-minute card's bands |
| Performance.VisionBands | src/lib/constants/gameConstants.ts:62-67 | the vision card's bands |
| LegacyPerformance.LegacyTrend | src/components/PerformanceCharts.tsx:150-180 | stable up to five values; from six on, the comparison of the last five with the ones before |
| LegacyPerformance.TrendsAgreeUpToFive | src/components/PerformanceCharts.tsx:151 | up to five games, neither component shows a trend |
| LegacyPerformance.TrendsAgreeFromEight | src/components/PerformanceCharts.tsx:153-176 | from eight values on, both trend computations agree on the same series |
| LegacyPerformance.TrendsDifferAtSix | src/components/PerformanceCharts.tsx:156 | with six games the older component can show a trend where the newer stays stable |
| LegacyPerformance.LegacySmoothedAt | src/components/PerformanceCharts.tsx:190-212 | the raw five-game means from the fifth point on |
| LegacyPerformance.LegacyMovingAverages | src/components/PerformanceCharts.tsx:189-214 | one unrounded smoothed point per point |
| LegacyPerformance.MovingAveragesRounded | src/components/PerformanceCharts.tsx:198-211 | the newer moving averages are the older ones rounded to two, one and one decimals |
| LegacyPerformance.LegacySteadyWindow | src/components/PerformanceCharts.tsx:194-199 | when the last five games share one KDA, exactly that value is plotted |
| LegacyPerformance.MeanOrZero | src/components/PerformanceCharts.tsx:308-313 | the mean, or 0 for no values |
| LegacyPerformance.LegacyCardsOf | src/components/PerformanceCharts.tsx:724-730 | the card figures and the victory percentage of the older component |
| LegacyPerformance.CardsAgree | src/components/PerformanceCharts.tsx:308-447 | the card formulas of both components give the same figures on one list of points |
| LegacyPerformance.LegacyChartData | src/components/PerformanceCharts.tsx:26-110 | as written: the newer points with every KDA replaced by 10 |
| LegacyPerformance.LegacyKdaValue | src/components/PerformanceCharts.tsx:59-64 | as written, `kda` is a string for every game, spelling the two-decimal ratio or, without deaths, `kills + assists` |
| LegacyPerformance.Plotted | src/components/PerformanceCharts.tsx:94 | any string is plotted as 10, a number as itself |
| LegacyPerformance.LegacyKdaIgnoresDeaths | src/components/PerformanceCharts.tsx:59-94 | as written, a game whose score gives a KDA of at most 9 is plotted at 10, although the string holds the right value |
| LegacyPerformance.IntendedKdaValue | src/components/PerformanceCharts.tsx:59-64 | as evidently intended, `kda` is a number exactly for a game with deaths |
| LegacyPerformance.IntendedPointKda | src/components/PerformanceCharts.tsx:59-94 | the corrected value plots 10 only for a deathless game, otherwise stays within 0.005 of `(kills + assists) / deaths`, and equals the newer component's KDA |
| LegacyPerformance.LegacyKdaCard | src/components/PerformanceCharts.tsx:308-313 | over points that all plot 10, as the as-written points do, the KDA card shows 10.00 whenever there is a point |
| LegacyPerformance.LegacyKdaTrendStable | src/components/PerformanceCharts.tsx:184 | over points that all plot 10, the KDA trend is always stable |
| LegacyPerformance.ShownTrendsAgreeFromEight | src/components/PerformanceCharts.tsx:185-186 | from eight games on, both components show the same CS and vision trends |
| MatchFilter.Summarize | src/components/features/profile/SummonerContainer.tsx:42-46 | present exactly when the player took part, holding their champion, result and position and the match's queue and time |
| MatchFilter.NoFiltersPassEverything | src/components/features/matches/AdvancedMatchFilter.tsx:35-41 | the initial filters let every match through |
| MatchFilter.PassingMatchesMeetEachFilter | src/components/features/profile/SummonerContainer.tsx:48-70 | a passing match meets each active filter part; an empty list constrains nothing |
| MatchFilter.MeetingEachFilterPasses | src/components/features/profile/SummonerContainer.tsx:48-70 | a match meeting every active part passes |
| MatchFilter.TimeRangesSplit | src/components/features/profile/SummonerContainer.tsx:63-65 | every match is exactly one of recent and older; a game exactly fourteen days old is recent |
| MatchFilter.ResultsSplit | src/components/features/profile/SummonerContainer.tsx:59-60 | the win filter keeps exactly the wins and the loss filter exactly the losses |
| MatchFilter.EmptyRoleFiltersNothing | src/components/features/profile/SummonerContainer.tsx:68 | an empty role filters exactly like no role |
| AdvancedMatchFilter.Toggle | src/components/features/matches/AdvancedMatchFilter.tsx:83-94 | flips membership of the value; appends when absent; other values unchanged |
| AdvancedMatchFilter.ToggleTwiceRestores | src/components/features/matches/AdvancedMatchFilter.tsx:83-94 | toggling an absent value twice restores the list |
| AdvancedMatchFilter.ToggleQueueType | src/components/features/matches/AdvancedMatchFilter.tsx:83-94 | flips whether the queue is selected; nothing else changes |
| AdvancedMatchFilter.ToggleChampion | src/components/features/matches/AdvancedMatchFilter.tsx:97-108 | flips whether the champion is selected; nothing else changes |
| AdvancedMatchFilter.ToggleQueueTypeTwice | src/components/features/matches/AdvancedMatchFilter.tsx:83-94 | selecting then deselecting a queue gives back the same filters |
| AdvancedMatchFilter.ToggleChampionTwice | src/components/features/matches/AdvancedMatchFilter.tsx:97-108 | selecting then deselecting a champion gives back the same filters |
| AdvancedMatchFilter.SetResult | src/components/features/matches/AdvancedMatchFilter.tsx:111-114 | only the result filter changes |
| AdvancedMatchFilter.SetTimeRange | src/components/features/matches/AdvancedMatchFilter.tsx:116-118 | only the time range changes |
| AdvancedMatchFilter.SetRole | src/components/features/matches/AdvancedMatchFilter.tsx:120-123 | only the role changes |
| AdvancedMatchFilter.InactiveIffInitial | src/components/features/matches/AdvancedMatchFilter.tsx:166-174 | no filter is active exactly when the filters are the initial ones |
| AdvancedMatchFilter.ResetFilters | src/components/features/matches/AdvancedMatchFilter.tsx:126-134 | back to the initial filters, with none active |
| AdvancedMatchFilter.FilteredCount | src/components/features/matches/AdvancedMatchFilter.tsx:137-163 | at most the number of summaries, and all of them when no filter is active |
| AdvancedMatchFilter.EmptyRoleActiveButInert | src/components/features/matches/AdvancedMatchFilter.tsx:166-174 | an empty role marks the filters active yet lets every match through |
| AdvancedMatchFilter.QueueNamesNonEmpty | src/lib/constants/gameConstants.ts:7-36 | every queue name in the table is non-empty |
| AdvancedMatchFilter.QueueChoices | src/components/features/matches/AdvancedMatchFilter.tsx:46-51 | each named queue played, once, by ascending id |
| AdvancedMatchFilter.FilterChoices | src/components/features/matches/AdvancedMatchFilter.tsx:44-75 | champions and roles played, each once, in string order; roles never blank |
| AdvancedMatchFilter.ChampionChoicesDetermined | src/components/features/matches/AdvancedMatchFilter.tsx:54-56 | the champion choices are the only ordered, repetition-free listing of the champions played |
| AdvancedMatchFilter.NoBlankRole | src/components/features/matches/AdvancedMatchFilter.tsx:59-65 | a blank position is never offered as a role |
| OrderedSets.SortedDistinct | src/components/features/matches/AdvancedMatchFilter.tsx:54-56 | strictly increasing, with exactly the input's values |
| OrderedSets.SortedByMembers | src/components/features/matches/AdvancedMatchFilter.tsx:54-56 | two strictly sorted lists with the same values are equal |
| OrderedSets.LexOrder | src/components/features/matches/AdvancedMatchFilter.tsx:54-56 | the code-unit order `sort()` uses on strings is a strict total order |
| SummonerContainer.HandleSearch | src/components/features/profile/SummonerContainer.tsx:74-107 | an empty name or tag gives the input message with no request; otherwise the service's answer for the tag without its `#`; an error shows exactly when no profile does |
| SummonerContainer.HashPrefixIgnored | src/components/features/profile/SummonerContainer.tsx:88 | typing the tag with or without a leading `#` makes the same search |
| SummonerContainer.HandleRefresh | src/components/features/profile/SummonerContainer.tsx:110-130 | nothing before a profile is loaded; else the cached view is dropped and refetched; a null answer keeps the profile |
| SummonerContainer.RefreshBypassesViewCache | src/components/features/profile/SummonerContainer.tsx:117-120 | a refresh never answers from the view it renews |
| SummonerContainer.FilteredMatches | src/components/features/profile/SummonerContainer.tsx:40-71 | none before a profile; else exactly the matches whose player row passes the filters |
| SummonerContainer.FilteredMatchesAppend | src/components/features/profile/SummonerContainer.tsx:40-71 | the list keeps the loaded order: two runs of matches give the list of the first followed by that of the second |
| SummonerContainer.FilteredMatchesSingle | src/components/features/profile/SummonerContainer.tsx:40-71 | a single match is listed exactly when it is kept |
| SummonerContainer.NoFiltersKeepPlayerMatches | src/components/features/profile/SummonerContainer.tsx:40-71 | with the initial filters, every match the player appears in, in order |
| SummonerContainer.FilterData | src/components/features/profile/SummonerContainer.tsx:161-175 | the player's row summaries, drawn from the matches |
| SummonerContainer.FilterDataCount | src/components/features/profile/SummonerContainer.tsx:161-175 | one summary per match the player appears in |
| SummonerContainer.CountMatchesList | src/components/features/matches/AdvancedMatchFilter.tsx:137-163 | the panel's count equals the length of the container's filtered list |
| VirtualMatchList.OnIntersect | src/components/features/matches/VirtualMatchList.tsx:32-41 | while matches are hidden, a visible sentinel reveals up to `increment` more, never past the end; otherwise nothing changes |
| VirtualMatchList.VisibleMatches | src/components/features/matches/VirtualMatchList.tsx:69 | a prefix of the list; `min(count, length)` long for a count of zero or more |
| VirtualMatchList.HasMoreIffHidden | src/components/features/matches/VirtualMatchList.tsx:70 | more is offered exactly when part of the list is hidden |
| VirtualMatchList.RenderedRows | src/components/features/matches/VirtualMatchList.tsx:84-89 | exactly the visible matches the player took part in |
| VirtualMatchList.RenderedSingle | src/components/features/matches/VirtualMatchList.tsx:84-89 | one match draws a row exactly when the player took part |
| VirtualMatchList.RevealAppendsRows | src/components/features/matches/VirtualMatchList.tsx:84-89 | revealing more matches only appends the rows of the newly revealed ones, in order |
| VirtualMatchList.Step | src/components/features/matches/VirtualMatchList.tsx:65-67 | a new list resets the count to its initial value; an observation keeps the list |
| VirtualMatchList.RunStaysBounded | src/components/features/matches/VirtualMatchList.tsx:27-70 | the count stays between its initial value and the larger of that and the length |
| VirtualMatchList.ScrollingRevealsAll | src/components/features/matches/VirtualMatchList.tsx:32-41 | enough scrolls to the sentinel reveal the whole list |
| MatchDetails.QueueLabel | src/components/features/matches/MatchDetails.tsx:46 | the table's name for the queue, else "Mode inconnu"; never empty |
| MatchDetails.SortTeams | src/components/features/matches/MatchDetails.tsx:28-32 | each roster holds exactly the participants with its team id |
| MatchDetails.RostersDisjoint | src/components/features/matches/MatchDetails.tsx:28-32 | no participant is on both rosters; any other team id is on neither |
| MatchDetails.RostersAppend | src/components/features/matches/MatchDetails.tsx:28-32 | the rosters of two runs of participants are those of the first followed by those of the second, so order and repeats are kept |
| MatchDetails.RostersSingle | src/components/features/matches/MatchDetails.tsx:28-32 | one participant is on the roster of its team id, and on none for any other id |
| MatchDetails.RostersCoverMatch | src/components/features/matches/MatchDetails.tsx:28-32 | with only ids 100 and 200, the rosters together list everyone |
| MatchDetails.PlayerRowHighlighted | src/components/features/matches/MatchDetails.tsx:81-82 | the player's own row is on their team's roster and is highlighted |
| MatchDetails.FindTeam | src/components/features/matches/MatchDetails.tsx:272 | the first team record with the id, if any |
| MatchDetails.ObjectiveCount | src/components/features/matches/MatchDetails.tsx:272-315 | the first matching record's kills, or 0 without a record |
| MatchDetails.ObjectivesOfTwoTeams | src/components/features/matches/MatchDetails.tsx:272-315 | with one record per team, each side's counts come from its own record |

## Left out

- Rendering: the JSX, CSS classes, images, tooltips and charts' drawing. Only the values they display are modelled.
- I/O and time:
  - `localStorage` is a map;
  - `Date.now()` is the parameter `now`;
  - the data provider is an oracle;
  - console logging is dropped;
  - the API key, URLs and query strings are not modelled.
- Concurrency: the `Promise.all` fan-out is modelled as the synchronous cache lookups in id order, then the requests in id order. Interleavings that the event loop could produce are not modelled.
- Storage exceptions such as a full quota on `setItem`, and the value shape stored under a key by another program, are not modelled.
- Floating point: numbers are exact reals or integers. IEEE rounding errors and `NaN`/`Infinity` are not modelled.
- FavoritesView.Render: a favourite without `lastSearched` is sorted as 0. The grid's comparator `b.lastSearched - a.lastSearched` gives `NaN` for it, which leaves its place to the engine.
- Performance.CsPerMinute: a game of zero seconds gives 0 instead of the source's non-finite value.
- Date formatting (`toLocaleDateString`, `formatGameDate`) is not modelled, because it depends on the locale. The points' display date is not modelled either.
- Lower-casing folds ASCII letters only; Unicode case mapping is not modelled.
- String order is compared by character, which equals JavaScript's UTF-16 order for characters of the Basic Multilingual Plane.
- Tie order in sorts: `Sorting.SortBy` is a stable insertion sort, and `Sorting.SortByStable` states that ties keep their input order, as the stable sort of ECMAScript 2019 and later does. The tie order is not restated for each caller: where the program sorts on a key with ties, the result follows from `SortByStable` and the caller's input order.
- The loading and refreshing flags and `onProfileLoaded` in the profile container are not modelled. `handleSearch`'s generic fallback message ("Erreur lors de la récupération des données.") cannot arise, because the service catches its own failures.
- The older performance component's chart points carry the newer component's `timestamp`. The older component does not compute one (it builds a display `date` instead), and nothing in the model reads it there.
- LegacyPerformance.LegacyChartData: as written it plots a KDA of 10 for every game (see Findings). The older moving averages, trends and cards are stated over any list of points, so they hold for both the as-written points and the corrected ones (`Performance.ChartData`).
- FavoritesPanel.Touch: models one run of the refresh effect. The re-runs that the effect's dependency on the list triggers are not simulated; `TouchNeverSettles` states that they never settle.
- The API route handler (`src/app/api/summoner/route.ts`), the presentation component and `MatchDetail.tsx` are not part of this model.

## Findings

| source | as written | input that shows it | evidently intended | confidence | as-written member | corrected member |
|---|---|---|---|---|---|---|
| src/components/PerformanceCharts.tsx:59-94 | `kda` is formatted to a string on both branches, and line 94 plots 10 for any string. So every point plots 10, the KDA card shows 10.00 and the KDA trend is always stable | a ranked game where the player went 1 kill, 1 death, 0 assists is plotted at 10 instead of 1 | 10 only for a game without deaths, otherwise `(kills + assists) / deaths` to two decimals, as in the newer component | not executed | LegacyPerformance.LegacyKdaIgnoresDeaths | LegacyPerformance.IntendedPointKda |
| src/components/Favorites.tsx:63-83 | the refresh effect depends on `favorites` and always stores a new list with a new `Date.now()`, so each run triggers the next | the displayed player is a favourite and a non-zero icon is given | the entry is refreshed once per search of that player | not executed | FavoritesPanel.TouchNeverSettles | FavoritesPanel.TouchSettles |
