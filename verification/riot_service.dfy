/**
 * The cache-first aggregation service (`enhancedRiotService`). Every step reads
 * the cache before asking the provider and writes what the provider returned.
 * Each operation takes the storage, the provider oracle and the current time,
 * and returns its value, the storage afterwards and the provider calls it made.
 */
module RiotService {
  import opened Opt
  import opened RiotTypes
  import opened Provider
  import C = CacheService
  import Seqs

  /** Everything the service stores in the cache, one variant per key type. */
  datatype Cached =
    | CachedAccount(account: Account)
    | CachedRank(entries: seq<LeagueEntry>)
    | CachedSummoner(summoner: Summoner)
    | CachedMatchIds(ids: seq<string>)
    | CachedMatch(detail: Match)

  type Storage = C.Storage<Cached>

  /** An operation's outcome together with its effect on storage and its provider calls. */
  datatype Run<T> = Run(value: T, storage: Storage, calls: seq<Call>)

  /** Cache lifetimes in milliseconds: 15 minutes, 10 minutes, 1 hour. */
  const SummonerTtl: int := 15 * 60 * 1000
  const MatchHistoryTtl: int := 10 * 60 * 1000
  const MatchDetailsTtl: int := 60 * 60 * 1000

  function AccountKey(gameName: string, tagLine: string): string {
    C.GenerateCacheKey("account", [gameName, tagLine])
  }

  function RankKey(summonerId: string): string {
    C.GenerateCacheKey("rank", [summonerId])
  }

  function SummonerKey(gameName: string, tagLine: string): string {
    C.GenerateCacheKey("summoner", [gameName, tagLine])
  }

  function MatchIdsKey(puuid: string): string {
    C.GenerateCacheKey("matchIds", [puuid])
  }

  function MatchKey(matchId: string): string {
    C.GenerateCacheKey("match", [matchId])
  }

  // ---------------------------------------------------------------------------
  // Typed cache reads: a value of another shape under a key reads as a miss.

  function Peek(s: Storage, key: string, now: int): Option<Cached> {
    C.Get(s, key, now).value
  }

  predicate AccountHit(s: Storage, gameName: string, tagLine: string, now: int) {
    var v := Peek(s, AccountKey(gameName, tagLine), now);
    v.Some? && v.value.CachedAccount?
  }

  predicate RankHit(s: Storage, summonerId: string, now: int) {
    var v := Peek(s, RankKey(summonerId), now);
    v.Some? && v.value.CachedRank?
  }

  predicate SummonerHit(s: Storage, gameName: string, tagLine: string, now: int) {
    var v := Peek(s, SummonerKey(gameName, tagLine), now);
    v.Some? && v.value.CachedSummoner?
  }

  predicate MatchIdsHit(s: Storage, puuid: string, now: int) {
    var v := Peek(s, MatchIdsKey(puuid), now);
    v.Some? && v.value.CachedMatchIds?
  }

  function MatchHit(s: Storage, matchId: string, now: int): (r: Option<Match>)
    ensures r.Some? ==> C.Live(s, MatchKey(matchId), now)
  {
    var v := Peek(s, MatchKey(matchId), now);
    if v.Some? && v.value.CachedMatch? then Some(v.value.detail) else None
  }

  // ---------------------------------------------------------------------------
  // Steps

  /** `searchSummoners`: the cached account, else the provider's, cached for 15 minutes; null on failure. */
  function SearchSummoners(gameName: string, tagLine: string, s: Storage, p: Oracle, now: int): (r: Run<Option<Account>>)
    ensures AccountHit(s, gameName, tagLine, now) ==>
              r.calls == [] && r.storage == s
              && r.value == Some(Peek(s, AccountKey(gameName, tagLine), now).value.account)
    ensures !AccountHit(s, gameName, tagLine, now) ==>
              r.calls == [AccountCall(gameName, tagLine)]
              && r.value == ApiRequest(p.account(gameName, tagLine)).OrNull()
    ensures !AccountHit(s, gameName, tagLine, now) && r.value.Some? ==>
              r.storage == C.Set(C.Get(s, AccountKey(gameName, tagLine), now).storage,
                                 AccountKey(gameName, tagLine), CachedAccount(r.value.value), SummonerTtl, now)
    ensures !AccountHit(s, gameName, tagLine, now) && r.value.None? ==>
              r.storage == C.Get(s, AccountKey(gameName, tagLine), now).storage
  {
    var key := AccountKey(gameName, tagLine);
    var rd := C.Get(s, key, now);
    if rd.value.Some? && rd.value.value.CachedAccount? then
      Run(Some(rd.value.value.account), rd.storage, [])
    else
      match ApiRequest(p.account(gameName, tagLine))
      case Ok(a) => Run(Some(a), C.Set(rd.storage, key, CachedAccount(a), SummonerTtl, now), [AccountCall(gameName, tagLine)])
      case Failed(_) => Run(None, rd.storage, [AccountCall(gameName, tagLine)])
  }

  /** `getSummonerRank`: the first league entry of the cached or fetched list; null when the list is empty or the request fails. */
  function GetSummonerRank(summonerId: string, s: Storage, p: Oracle, now: int): (r: Run<Option<LeagueEntry>>)
    ensures RankHit(s, summonerId, now) ==>
              r.calls == [] && r.storage == s
              && r.value == FirstEntry(Peek(s, RankKey(summonerId), now).value.entries)
    ensures !RankHit(s, summonerId, now) ==>
              r.calls == [LeagueCall(summonerId)]
              && r.value == (match ApiRequest(p.league(summonerId))
                             case Ok(list) => FirstEntry(list)
                             case Failed(_) => None)
    ensures !RankHit(s, summonerId, now) && ApiRequest(p.league(summonerId)).Ok? ==>
              r.storage == C.Set(C.Get(s, RankKey(summonerId), now).storage, RankKey(summonerId),
                                 CachedRank(ApiRequest(p.league(summonerId)).value), SummonerTtl, now)
    ensures !RankHit(s, summonerId, now) && ApiRequest(p.league(summonerId)).Failed? ==>
              r.storage == C.Get(s, RankKey(summonerId), now).storage
  {
    var key := RankKey(summonerId);
    var rd := C.Get(s, key, now);
    if rd.value.Some? && rd.value.value.CachedRank? then
      Run(FirstEntry(rd.value.value.entries), rd.storage, [])
    else
      match ApiRequest(p.league(summonerId))
      case Ok(list) => Run(FirstEntry(list), C.Set(rd.storage, key, CachedRank(list), SummonerTtl, now), [LeagueCall(summonerId)])
      case Failed(_) => Run(None, rd.storage, [LeagueCall(summonerId)])
  }

  /** Step 4 of `getSummonerData`: the cached id list, else the provider's, cached for 10 minutes; a failed request aborts. */
  function GetMatchIds(puuid: string, s: Storage, p: Oracle, now: int): (r: Run<Option<seq<string>>>)
    ensures MatchIdsHit(s, puuid, now) ==>
              r.calls == [] && r.storage == s && r.value == Some(Peek(s, MatchIdsKey(puuid), now).value.ids)
    ensures !MatchIdsHit(s, puuid, now) ==>
              r.calls == [MatchIdsCall(puuid, MatchIdStart, MatchIdCount)]
              && r.value == ApiRequest(p.matchIds(puuid)).OrNull()
    ensures !MatchIdsHit(s, puuid, now) && r.value.Some? ==>
              r.storage == C.Set(C.Get(s, MatchIdsKey(puuid), now).storage, MatchIdsKey(puuid),
                                 CachedMatchIds(r.value.value), MatchHistoryTtl, now)
    ensures !MatchIdsHit(s, puuid, now) && r.value.None? ==>
              r.storage == C.Get(s, MatchIdsKey(puuid), now).storage
  {
    var key := MatchIdsKey(puuid);
    var rd := C.Get(s, key, now);
    if rd.value.Some? && rd.value.value.CachedMatchIds? then
      Run(Some(rd.value.value.ids), rd.storage, [])
    else
      match ApiRequest(p.matchIds(puuid))
      case Ok(ids) => Run(Some(ids), C.Set(rd.storage, key, CachedMatchIds(ids), MatchHistoryTtl, now), [MatchIdsCall(puuid, MatchIdStart, MatchIdCount)])
      case Failed(_) => Run(None, rd.storage, [MatchIdsCall(puuid, MatchIdStart, MatchIdCount)])
  }

  /**
   * The synchronous part of the per-match fan-out: every match id is looked up
   * in the cache, in order, before any detail request completes.
   */
  function LookupMatches(ids: seq<string>, s: Storage, now: int): (r: (seq<Option<Match>>, Storage))
    ensures |r.0| == |ids|
    decreases |ids|
  {
    if |ids| == 0 then ([], s)
    else
      var hit := MatchHit(s, ids[0], now);
      var rest := LookupMatches(ids[1..], C.Get(s, MatchKey(ids[0]), now).storage, now);
      ([hit] + rest.0, rest.1)
  }

  /** The storage keys of the ids' cached matches that have expired at `now`. */
  function ExpiredMatchKeys(s: Storage, ids: seq<string>, now: int): set<string> {
    set i | 0 <= i < |ids| && C.Expired(s, MatchKey(ids[i]), now) :: C.StorageKey(MatchKey(ids[i]))
  }

  /**
   * Each slot of the lookup is what the cache held for that id before the
   * fan-out started (an earlier lookup only ever deletes an expired entry,
   * which reads as a miss anyway), and the lookups together delete exactly
   * the ids' expired entries.
   */
  lemma {:induction false} LookupReadsOriginal(ids: seq<string>, s: Storage, now: int)
    ensures forall i :: 0 <= i < |ids| ==> LookupMatches(ids, s, now).0[i] == MatchHit(s, ids[i], now)
    ensures LookupMatches(ids, s, now).1 == s - ExpiredMatchKeys(s, ids, now)
    decreases |ids|
  {
    if |ids| == 0 {
      assert ExpiredMatchKeys(s, ids, now) == {};
      assert s - {} == s;
    } else {
      var k0 := C.StorageKey(MatchKey(ids[0]));
      var e0 := C.Expired(s, MatchKey(ids[0]), now);
      var s1 := C.Get(s, MatchKey(ids[0]), now).storage;
      var tail := ids[1..];
      LookupReadsOriginal(tail, s1, now);
      var r := LookupMatches(ids, s, now);
      var rest := LookupMatches(tail, s1, now);
      assert r.0 == [MatchHit(s, ids[0], now)] + rest.0 && r.1 == rest.1;
      forall i | 1 <= i < |ids|
        ensures r.0[i] == MatchHit(s, ids[i], now)
      {
        assert r.0[i] == rest.0[i - 1] && tail[i - 1] == ids[i];
        GetKeepsMatchHits(s, ids[0], ids[i], now);
      }
      ExpiredKeysCons(s, ids, now);
      ExpiredKeysAfterGet(s, ids[0], tail, now);
      var dropped := if e0 then {k0} else {};
      assert ExpiredMatchKeys(s, ids, now) == dropped + ExpiredMatchKeys(s, tail, now);
      assert ExpiredMatchKeys(s1, tail, now) == ExpiredMatchKeys(s, tail, now) - dropped;
      assert s1 == s - dropped;
      assert rest.1 == s - ExpiredMatchKeys(s, ids, now);
    }
  }

  /** Reading one match key never changes what any match id reads. */
  lemma GetKeepsMatchHits(s: Storage, id: string, x: string, now: int)
    ensures MatchHit(C.Get(s, MatchKey(id), now).storage, x, now) == MatchHit(s, x, now)
  {
  }

  lemma ExpiredKeysCons(s: Storage, ids: seq<string>, now: int)
    requires |ids| > 0
    ensures ExpiredMatchKeys(s, ids, now)
            == (if C.Expired(s, MatchKey(ids[0]), now) then {C.StorageKey(MatchKey(ids[0]))} else {})
               + ExpiredMatchKeys(s, ids[1..], now)
  {
    var tail := ids[1..];
    forall k | k in ExpiredMatchKeys(s, ids, now)
      ensures k in ExpiredMatchKeys(s, tail, now) || (C.Expired(s, MatchKey(ids[0]), now) && k == C.StorageKey(MatchKey(ids[0])))
    {
      var i :| 0 <= i < |ids| && C.Expired(s, MatchKey(ids[i]), now) && k == C.StorageKey(MatchKey(ids[i]));
      if i > 0 {
        assert tail[i - 1] == ids[i];
      }
    }
    forall k | k in ExpiredMatchKeys(s, tail, now)
      ensures k in ExpiredMatchKeys(s, ids, now)
    {
      var j :| 0 <= j < |tail| && C.Expired(s, MatchKey(tail[j]), now) && k == C.StorageKey(MatchKey(tail[j]));
      assert ids[j + 1] == tail[j];
    }
  }

  /** After reading the key of `id`, the only expired key that can have gone is the key of `id` itself. */
  lemma ExpiredKeysAfterGet(s: Storage, id: string, ids: seq<string>, now: int)
    ensures var k0 := C.StorageKey(MatchKey(id));
            ExpiredMatchKeys(C.Get(s, MatchKey(id), now).storage, ids, now)
            == ExpiredMatchKeys(s, ids, now) - (if C.Expired(s, MatchKey(id), now) then {k0} else {})
  {
    var s1 := C.Get(s, MatchKey(id), now).storage;
    var k0 := C.StorageKey(MatchKey(id));
    forall k | k in ExpiredMatchKeys(s1, ids, now)
      ensures k in ExpiredMatchKeys(s, ids, now) && !(C.Expired(s, MatchKey(id), now) && k == k0)
    {
      var i :| 0 <= i < |ids| && C.Expired(s1, MatchKey(ids[i]), now) && k == C.StorageKey(MatchKey(ids[i]));
    }
    forall k | k in ExpiredMatchKeys(s, ids, now) && !(C.Expired(s, MatchKey(id), now) && k == k0)
      ensures k in ExpiredMatchKeys(s1, ids, now)
    {
      var i :| 0 <= i < |ids| && C.Expired(s, MatchKey(ids[i]), now) && k == C.StorageKey(MatchKey(ids[i]));
      assert C.Expired(s1, MatchKey(ids[i]), now);
    }
  }

  /** One match-detail request: the match, or null when `apiRequest` throws. */
  function FetchDetail(p: Oracle, matchId: string): Option<Match> {
    ApiRequest(p.matchDetail(matchId)).OrNull()
  }

  /** The match ids among `ids` whose cache lookup missed, in order. */
  function MissedIds(ids: seq<string>, hits: seq<Option<Match>>): seq<string>
    requires |hits| == |ids|
  {
    if |ids| == 0 then []
    else (if hits[0].None? then [ids[0]] else []) + MissedIds(ids[1..], hits[1..])
  }

  function MatchCalls(ids: seq<string>): (r: seq<Call>)
    ensures |r| == |ids|
    ensures forall i :: 0 <= i < |ids| ==> r[i] == MatchCall(ids[i])
  {
    if |ids| == 0 then [] else [MatchCall(ids[0])] + MatchCalls(ids[1..])
  }

  /**
   * The asynchronous part: each miss is requested (and cached for an hour on
   * success); a hit is used as is. A failed request yields null for that id.
   */
  function FetchMisses(ids: seq<string>, hits: seq<Option<Match>>, s: Storage, p: Oracle, now: int): (r: Run<seq<Option<Match>>>)
    requires |hits| == |ids|
    ensures |r.value| == |ids|
    ensures forall i :: 0 <= i < |ids| ==> r.value[i] == (if hits[i].Some? then hits[i] else FetchDetail(p, ids[i]))
    ensures r.calls == MatchCalls(MissedIds(ids, hits))
    decreases |ids|
  {
    if |ids| == 0 then Run([], s, [])
    else if hits[0].Some? then
      var rest := FetchMisses(ids[1..], hits[1..], s, p, now);
      Run([hits[0]] + rest.value, rest.storage, rest.calls)
    else
      var d := FetchDetail(p, ids[0]);
      var s1 := if d.Some? then C.Set(s, MatchKey(ids[0]), CachedMatch(d.value), MatchDetailsTtl, now) else s;
      var rest := FetchMisses(ids[1..], hits[1..], s1, p, now);
      Run([d] + rest.value, rest.storage, [MatchCall(ids[0])] + rest.calls)
  }

  /** The storage keys of the misses whose request succeeded. */
  function FetchedKeys(ids: seq<string>, hits: seq<Option<Match>>, p: Oracle): set<string>
    requires |hits| == |ids|
  {
    set i | 0 <= i < |ids| && hits[i].None? && FetchDetail(p, ids[i]).Some? :: C.StorageKey(MatchKey(ids[i]))
  }

  /** The storage after the first id's request, before the rest of the fan-out. */
  function StoreFirst(ids: seq<string>, hits: seq<Option<Match>>, s: Storage, p: Oracle, now: int): Storage
    requires 0 < |ids| == |hits|
  {
    if hits[0].None? && FetchDetail(p, ids[0]).Some? then
      C.Set(s, MatchKey(ids[0]), CachedMatch(FetchDetail(p, ids[0]).value), MatchDetailsTtl, now)
    else s
  }

  lemma FetchMissesUnfold(ids: seq<string>, hits: seq<Option<Match>>, s: Storage, p: Oracle, now: int)
    requires 0 < |ids| == |hits|
    ensures FetchMisses(ids, hits, s, p, now).storage
            == FetchMisses(ids[1..], hits[1..], StoreFirst(ids, hits, s, p, now), p, now).storage
  {
  }

  lemma FetchedKeysCons(ids: seq<string>, hits: seq<Option<Match>>, p: Oracle)
    requires 0 < |ids| == |hits|
    ensures FetchedKeys(ids[1..], hits[1..], p) <= FetchedKeys(ids, hits, p)
    ensures hits[0].None? && FetchDetail(p, ids[0]).Some? ==> C.StorageKey(MatchKey(ids[0])) in FetchedKeys(ids, hits, p)
  {
    var tail, tailHits := ids[1..], hits[1..];
    forall k | k in FetchedKeys(tail, tailHits, p)
      ensures k in FetchedKeys(ids, hits, p)
    {
      var j :| 0 <= j < |tail| && tailHits[j].None? && FetchDetail(p, tail[j]).Some? && k == C.StorageKey(MatchKey(tail[j]));
      assert ids[j + 1] == tail[j] && hits[j + 1] == tailHits[j];
    }
  }

  /** Every miss whose request succeeded is cached under its match key for an hour from `now`. */
  lemma {:induction false} FetchMissesCaches(ids: seq<string>, hits: seq<Option<Match>>, s: Storage, p: Oracle, now: int)
    requires |hits| == |ids|
    ensures var r := FetchMisses(ids, hits, s, p, now);
            forall i :: 0 <= i < |ids| && hits[i].None? && FetchDetail(p, ids[i]).Some? ==>
              C.StorageKey(MatchKey(ids[i])) in r.storage
              && r.storage[C.StorageKey(MatchKey(ids[i]))]
                 == C.Entry(CachedMatch(FetchDetail(p, ids[i]).value), now, now + MatchDetailsTtl)
    decreases |ids|
  {
    if |ids| > 0 {
      var k0 := C.StorageKey(MatchKey(ids[0]));
      var s1 := StoreFirst(ids, hits, s, p, now);
      var tail, tailHits := ids[1..], hits[1..];
      FetchMissesCaches(tail, tailHits, s1, p, now);
      FetchMissesUnfold(ids, hits, s, p, now);
      var r := FetchMisses(ids, hits, s, p, now);
      forall i | 0 <= i < |ids| && hits[i].None? && FetchDetail(p, ids[i]).Some?
        ensures C.StorageKey(MatchKey(ids[i])) in r.storage
                && r.storage[C.StorageKey(MatchKey(ids[i]))]
                   == C.Entry(CachedMatch(FetchDetail(p, ids[i]).value), now, now + MatchDetailsTtl)
      {
        if i == 0 {
          if k0 in FetchedKeys(tail, tailHits, p) {
            var j :| 0 <= j < |tail| && tailHits[j].None? && FetchDetail(p, tail[j]).Some? && k0 == C.StorageKey(MatchKey(tail[j]));
            MatchKeyInjective(ids[0], tail[j]);
            assert tailHits[j] == hits[j + 1];
          } else {
            FetchMissesKeepsOthers(tail, tailHits, s1, p, now);
          }
        } else {
          assert tail[i - 1] == ids[i] && tailHits[i - 1] == hits[i];
        }
      }
    }
  }

  /** The fan-out writes only the keys of the misses whose request succeeded; every other key is left as it was. */
  lemma {:induction false} FetchMissesKeepsOthers(ids: seq<string>, hits: seq<Option<Match>>, s: Storage, p: Oracle, now: int)
    requires |hits| == |ids|
    ensures forall k :: k !in FetchedKeys(ids, hits, p) ==> C.SameAt(s, FetchMisses(ids, hits, s, p, now).storage, k)
    decreases |ids|
  {
    if |ids| > 0 {
      var s1 := StoreFirst(ids, hits, s, p, now);
      FetchMissesKeepsOthers(ids[1..], hits[1..], s1, p, now);
      FetchMissesUnfold(ids, hits, s, p, now);
      FetchedKeysCons(ids, hits, p);
    }
  }

  /** Different match ids are cached under different storage keys. */
  lemma MatchKeyInjective(a: string, b: string)
    requires C.StorageKey(MatchKey(a)) == C.StorageKey(MatchKey(b))
    ensures a == b
  {
    var n := |C.CachePrefix| + |"match-"|;
    assert C.StorageKey(MatchKey(a)) == C.CachePrefix + "match-" + a;
    assert C.StorageKey(MatchKey(b)) == C.CachePrefix + "match-" + b;
    assert C.StorageKey(MatchKey(a))[n..] == a;
    assert C.StorageKey(MatchKey(b))[n..] == b;
  }

  /**
   * A reference for step 5, written without the fan-out: for each id, the
   * match the cache held at the start of the step, else the provider's reply
   * (null when the request failed).
   */
  function CachedOrFetched(ids: seq<string>, s: Storage, p: Oracle, now: int): (r: seq<Option<Match>>)
    ensures |r| == |ids|
  {
    seq(|ids|, i requires 0 <= i < |ids| =>
      if MatchHit(s, ids[i], now).Some? then MatchHit(s, ids[i], now) else FetchDetail(p, ids[i]))
  }

  /** The fan-out yields, slot by slot, the cached-or-fetched reference. */
  lemma FanOutIsCachedOrFetched(ids: seq<string>, s: Storage, p: Oracle, now: int)
    ensures var looked := LookupMatches(ids, s, now);
            FetchMisses(ids, looked.0, looked.1, p, now).value == CachedOrFetched(ids, s, p, now)
  {
    LookupReadsOriginal(ids, s, now);
  }

  /**
   * `getSummonerData`: the cached view model, else the pipeline account →
   * summoner → rank → match ids → match details, with the assembled view
   * cached for 15 minutes. Null when the account, the summoner record or the
   * id list cannot be obtained.
   */
  function GetSummonerData(gameName: string, tagLine: string, s: Storage, p: Oracle, now: int): (r: Run<Option<Summoner>>)
    ensures SummonerHit(s, gameName, tagLine, now) ==>
              r == Run(Some(Peek(s, SummonerKey(gameName, tagLine), now).value.summoner), s, [])
    ensures !SummonerHit(s, gameName, tagLine, now) ==>
              var acc := SearchSummoners(gameName, tagLine, C.Get(s, SummonerKey(gameName, tagLine), now).storage, p, now);
              (r.value.Some? <==>
                 acc.value.Some? && ApiRequest(p.summoner(acc.value.value.puuid)).Ok?
                 && FetchView(acc.value.value, ApiRequest(p.summoner(acc.value.value.puuid)).value, acc.storage, p, now).value.Some?)
              && (|r.calls| >= 1 && r.calls[0] == AccountCall(gameName, tagLine) <==> !AccountHit(C.Get(s, SummonerKey(gameName, tagLine), now).storage, gameName, tagLine, now))
              && (r.value.Some? ==>
                    var a := acc.value.value;
                    var view := FetchView(a, ApiRequest(p.summoner(a.puuid)).value, acc.storage, p, now);
                    r.value == view.value && r.calls == acc.calls + [SummonerCall(a.puuid)] + view.calls)
    ensures r.value.Some? ==> Peek(r.storage, SummonerKey(gameName, tagLine), now) == Some(CachedSummoner(r.value.value))
  {
    var sk := SummonerKey(gameName, tagLine);
    var rd := C.Get(s, sk, now);
    if rd.value.Some? && rd.value.value.CachedSummoner? then
      Run(Some(rd.value.value.summoner), rd.storage, [])
    else
      var acc := SearchSummoners(gameName, tagLine, rd.storage, p, now);
      if acc.value.None? then Run(None, acc.storage, acc.calls)
      else
        var a := acc.value.value;
        var calls1 := acc.calls + [SummonerCall(a.puuid)];
        match ApiRequest(p.summoner(a.puuid))
        case Failed(_) => Run(None, acc.storage, calls1)
        case Ok(record) =>
          var view := FetchView(a, record, acc.storage, p, now);
          if view.value.None? then Run(None, view.storage, calls1 + view.calls)
          else Run(view.value, C.Set(view.storage, sk, CachedSummoner(view.value.value), SummonerTtl, now), calls1 + view.calls)
  }

  /**
   * Steps 3 to 5 of `getSummonerData` once the account and the summoner record
   * are known: rank, match ids, match details, assembled into the view. Null
   * when the id list cannot be obtained.
   */
  function FetchView(a: Account, record: SummonerRecord, s: Storage, p: Oracle, now: int): (r: Run<Option<Summoner>>)
    ensures var rank := GetSummonerRank(record.id, s, p, now);
            var ids := GetMatchIds(a.puuid, rank.storage, p, now);
            (r.value.None? <==> ids.value.None?)
            && (r.value.Some? ==>
                  r.value.value.name == a.gameName && r.value.value.tag == a.tagLine && r.value.value.puuid == a.puuid
                  && r.value.value.profileIconId == record.profileIconId
                  && r.value.value.summonerLevel == record.summonerLevel
                  && r.value.value.rank == RankOf(rank.value)
                  && r.value.value.matches == Seqs.FilterSome(CachedOrFetched(ids.value.value, ids.storage, p, now)))
  {
    var rank := GetSummonerRank(record.id, s, p, now);
    var ids := GetMatchIds(a.puuid, rank.storage, p, now);
    var calls := rank.calls + ids.calls;
    if ids.value.None? then Run(None, ids.storage, calls)
    else
      var looked := LookupMatches(ids.value.value, ids.storage, now);
      FanOutIsCachedOrFetched(ids.value.value, ids.storage, p, now);
      var fetched := FetchMisses(ids.value.value, looked.0, looked.1, p, now);
      Run(Some(BuildSummoner(a, record, rank.value, Seqs.FilterSome(fetched.value))), fetched.storage, calls + fetched.calls)
  }

  /** `clearSummonerCache`: drops the whole-view entry only. */
  function ClearSummonerCache(gameName: string, tagLine: string, s: Storage): (s': Storage)
    ensures s'.Keys == s.Keys - {C.StorageKey(SummonerKey(gameName, tagLine))}
    ensures forall k :: k in s' ==> s'[k] == s[k]
  {
    C.Remove(s, SummonerKey(gameName, tagLine))
  }

  // ---------------------------------------------------------------------------
  // Properties

  /** A live cached view answers the request without any provider call and without touching storage. */
  lemma CachedViewShortCircuits(gameName: string, tagLine: string, s: Storage, p: Oracle, now: int)
    requires SummonerHit(s, gameName, tagLine, now)
    ensures GetSummonerData(gameName, tagLine, s, p, now)
            == Run(Some(Peek(s, SummonerKey(gameName, tagLine), now).value.summoner), s, [])
  {
  }

  /** Whenever the pipeline runs, the account is requested first. */
  lemma AccountRequestedFirst(gameName: string, tagLine: string, s: Storage, p: Oracle, now: int)
    requires !SummonerHit(s, gameName, tagLine, now)
    requires !AccountHit(C.Get(s, SummonerKey(gameName, tagLine), now).storage, gameName, tagLine, now)
    ensures var r := GetSummonerData(gameName, tagLine, s, p, now);
            |r.calls| >= 1 && r.calls[0] == AccountCall(gameName, tagLine)
  {
  }

  /** An unknown account ends the pipeline: null, and nothing is requested after the account lookup. */
  lemma AccountFailureAborts(gameName: string, tagLine: string, s: Storage, p: Oracle, now: int)
    requires !SummonerHit(s, gameName, tagLine, now)
    requires !AccountHit(C.Get(s, SummonerKey(gameName, tagLine), now).storage, gameName, tagLine, now)
    requires ApiRequest(p.account(gameName, tagLine)).Failed?
    ensures GetSummonerData(gameName, tagLine, s, p, now).value.None?
    ensures GetSummonerData(gameName, tagLine, s, p, now).calls == [AccountCall(gameName, tagLine)]
  {
  }

  /** A failed summoner request also yields null; the rank and match endpoints are never asked. */
  lemma SummonerFailureAborts(gameName: string, tagLine: string, s: Storage, p: Oracle, now: int)
    requires !SummonerHit(s, gameName, tagLine, now)
    requires var acc := SearchSummoners(gameName, tagLine, C.Get(s, SummonerKey(gameName, tagLine), now).storage, p, now);
             acc.value.Some? && ApiRequest(p.summoner(acc.value.value.puuid)).Failed?
    ensures var r := GetSummonerData(gameName, tagLine, s, p, now);
            r.value.None? && r.calls[|r.calls| - 1].SummonerCall?
            && forall i :: 0 <= i < |r.calls| ==> !r.calls[i].LeagueCall? && !r.calls[i].MatchIdsCall? && !r.calls[i].MatchCall?
  {
  }

  /** The view is never cached by a request that yields null. */
  lemma {:induction false} NoViewCachedOnFailure(gameName: string, tagLine: string, s: Storage, p: Oracle, now: int)
    requires GetSummonerData(gameName, tagLine, s, p, now).value.None?
    ensures var sk := C.StorageKey(SummonerKey(gameName, tagLine));
            var r := GetSummonerData(gameName, tagLine, s, p, now);
            sk in r.storage ==> sk in s && r.storage[sk] == s[sk]
  {
    var sk := C.StorageKey(SummonerKey(gameName, tagLine));
    var rd := C.Get(s, SummonerKey(gameName, tagLine), now);
    assert sk in rd.storage ==> sk in s && rd.storage[sk] == s[sk];
    var acc := SearchSummoners(gameName, tagLine, rd.storage, p, now);
    C.StorageKeysOfKindsDiffer("account", "summoner", [gameName, tagLine], [gameName, tagLine]);
    assert sk in acc.storage ==> sk in rd.storage && acc.storage[sk] == rd.storage[sk];
    if acc.value.Some? && ApiRequest(p.summoner(acc.value.value.puuid)).Ok? {
      var record := ApiRequest(p.summoner(acc.value.value.puuid)).value;
      FetchViewKeepsView(acc.value.value, record, acc.storage, p, now, gameName, tagLine);
    }
  }

  /** Steps 3 to 4 never touch the view's key (when the id list cannot be obtained there is no step 5). */
  lemma FetchViewKeepsView(a: Account, record: SummonerRecord, s: Storage, p: Oracle, now: int, gameName: string, tagLine: string)
    requires FetchView(a, record, s, p, now).value.None?
    ensures var sk := C.StorageKey(SummonerKey(gameName, tagLine));
            var r := FetchView(a, record, s, p, now);
            sk in r.storage ==> sk in s && r.storage[sk] == s[sk]
  {
    var sk := C.StorageKey(SummonerKey(gameName, tagLine));
    var rank := GetSummonerRank(record.id, s, p, now);
    C.StorageKeysOfKindsDiffer("rank", "summoner", [record.id], [gameName, tagLine]);
    assert sk in rank.storage ==> sk in s && rank.storage[sk] == s[sk];
    C.StorageKeysOfKindsDiffer("matchIds", "summoner", [a.puuid], [gameName, tagLine]);
  }

  /** A successful request leaves its view live in the cache under the summoner key. */
  lemma ViewCachedOnSuccess(gameName: string, tagLine: string, s: Storage, p: Oracle, now: int)
    requires GetSummonerData(gameName, tagLine, s, p, now).value.Some?
    ensures var r := GetSummonerData(gameName, tagLine, s, p, now);
            SummonerHit(r.storage, gameName, tagLine, now)
            && Peek(r.storage, SummonerKey(gameName, tagLine), now) == Some(CachedSummoner(r.value.value))
  {
  }

  /** A freshly assembled view is cached for exactly fifteen minutes. */
  lemma FreshViewTtl(gameName: string, tagLine: string, s: Storage, p: Oracle, now: int)
    requires !SummonerHit(s, gameName, tagLine, now)
    requires GetSummonerData(gameName, tagLine, s, p, now).value.Some?
    ensures var r := GetSummonerData(gameName, tagLine, s, p, now);
            r.storage[C.StorageKey(SummonerKey(gameName, tagLine))]
            == C.Entry(CachedSummoner(r.value.value), now, now + SummonerTtl)
  {
  }

  /**
   * Asking again within the lifetime of a freshly cached view returns the same
   * view with no provider call, whatever the provider would now answer.
   */
  lemma RepeatWithinTtlIsCached(gameName: string, tagLine: string, s: Storage, p: Oracle, p': Oracle, now: int, later: int)
    requires !SummonerHit(s, gameName, tagLine, now)
    requires GetSummonerData(gameName, tagLine, s, p, now).value.Some?
    requires now <= later <= now + SummonerTtl
    ensures var r := GetSummonerData(gameName, tagLine, s, p, now);
            var r' := GetSummonerData(gameName, tagLine, r.storage, p', later);
            r'.value == r.value && r'.calls == [] && r'.storage == r.storage
  {
    FreshViewTtl(gameName, tagLine, s, p, now);
  }

  /** `clearSummonerCache` makes the next request miss the view cache, and leaves every other key as it was. */
  lemma ClearThenMiss(gameName: string, tagLine: string, s: Storage, now: int)
    ensures !SummonerHit(ClearSummonerCache(gameName, tagLine, s), gameName, tagLine, now)
    ensures forall k :: k != C.StorageKey(SummonerKey(gameName, tagLine)) ==>
              C.SameAt(s, ClearSummonerCache(gameName, tagLine, s), k)
  {
  }

  // ---------------------------------------------------------------------------
  // The fan-out on a storage without cached matches

  function NoHits(n: nat): (r: seq<Option<Match>>)
    ensures |r| == n && forall i :: 0 <= i < n ==> r[i].None?
  {
    seq(n, _ => None)
  }

  lemma {:induction false} LookupAllMiss(ids: seq<string>, s: Storage, now: int)
    requires forall i :: 0 <= i < |ids| ==> C.StorageKey(MatchKey(ids[i])) !in s
    ensures LookupMatches(ids, s, now) == (NoHits(|ids|), s)
    decreases |ids|
  {
    if |ids| > 0 {
      C.GetAbsent(s, MatchKey(ids[0]), now);
      assert forall i :: 0 <= i < |ids[1..]| ==> ids[1..][i] == ids[i + 1];
      LookupAllMiss(ids[1..], s, now);
      assert [None] + NoHits(|ids| - 1) == NoHits(|ids|);
    }
  }

  lemma {:induction false} MissedAll(ids: seq<string>)
    ensures MissedIds(ids, NoHits(|ids|)) == ids
    decreases |ids|
  {
    if |ids| > 0 {
      assert NoHits(|ids|)[1..] == NoHits(|ids| - 1);
      MissedAll(ids[1..]);
      assert ids == [ids[0]] + ids[1..];
    }
  }
}
