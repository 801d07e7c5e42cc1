/**
 * How the three generations of the lookup pipeline relate: the first-generation
 * `fetch` client, the uncached service over `apiRequest`, and the cache-first
 * service.
 */
module ServiceAgreement {
  import opened Opt
  import opened RiotTypes
  import opened Provider
  import C = CacheService
  import RiotApi
  import ApiRoutes
  import RiotService

  /** When no match-detail reply fails in transport or parsing, the raw client and the uncached service agree exactly. */
  lemma RawAgreesWithUncached(gameName: string, tagLine: string, p: Oracle)
    requires forall id :: !Throws(p.matchDetail(id))
    ensures RiotApi.GetSummonerData(gameName, tagLine, p) == ApiRoutes.GetSummonerData(gameName, tagLine, p)
  {
    assert RiotApi.SearchSummoners(gameName, tagLine, p) == ApiRoutes.SearchSummoners(gameName, tagLine, p).value;
    if RiotApi.SearchSummoners(gameName, tagLine, p).Some? {
      var a := RiotApi.SearchSummoners(gameName, tagLine, p).value;
      if ApiRequest(p.summoner(a.puuid)).Ok? {
        ViewsAgree(a, ApiRequest(p.summoner(a.puuid)).value, p);
      }
    }
  }

  /** Steps 3 to 5 agree between the raw client and the uncached service when no detail reply throws. */
  lemma ViewsAgree(a: Account, record: SummonerRecord, p: Oracle)
    requires forall id :: !Throws(p.matchDetail(id))
    ensures RiotApi.FetchView(a, record, p) == ApiRoutes.FetchView(a, record, p)
  {
    assert RiotApi.GetSummonerRank(record.id, p) == ApiRoutes.GetSummonerRank(record.id, p).value;
    if ApiRequest(p.matchIds(a.puuid)).Ok? {
      var ids := ApiRequest(p.matchIds(a.puuid)).value;
      DetailsAgree(ids, p);
      assert seq(|ids|, i requires 0 <= i < |ids| => MatchCall(ids[i])) == ApiRoutes.MatchCalls(ids);
    }
  }

  lemma DetailsAgree(ids: seq<string>, p: Oracle)
    requires forall id :: !Throws(p.matchDetail(id))
    ensures RiotApi.CollectDetails(RiotApi.DetailOutcomes(ids, p)) == Some(ApiRoutes.MatchDetails(ids, p))
  {
    var outcomes := RiotApi.DetailOutcomes(ids, p);
    var collected := RiotApi.CollectDetails(outcomes);
    assert forall i :: 0 <= i < |ids| ==> !outcomes[i].Thrown?;
    assert collected.value == ApiRoutes.MatchDetails(ids, p);
  }

  /**
   * A single match-detail reply that fails in transport or parsing makes the
   * raw client return null where the uncached service still returns the view
   * with that match left out.
   */
  lemma RawRejectsOnThrowingDetail(gameName: string, tagLine: string, p: Oracle, k: nat)
    requires ApiRoutes.GetSummonerData(gameName, tagLine, p).value.Some?
    requires var ids := p.matchIds(p.account(gameName, tagLine).body.value.puuid).body.value;
             k < |ids| && Throws(p.matchDetail(ids[k]))
    ensures RiotApi.GetSummonerData(gameName, tagLine, p).value.None?
  {
    var a := p.account(gameName, tagLine).body.value;
    var ids := p.matchIds(a.puuid).body.value;
    assert RiotApi.DetailOutcomes(ids, p)[k].Thrown?;
  }

  /** On a storage holding no match entry for the listed ids, the fan-out fetches every id, in order. */
  lemma FanOutFromCleanStorage(list: seq<string>, s: RiotService.Storage, p: Oracle, now: int)
    requires forall i :: 0 <= i < |list| ==> C.StorageKey(RiotService.MatchKey(list[i])) !in s
    ensures var looked := RiotService.LookupMatches(list, s, now);
            var fetched := RiotService.FetchMisses(list, looked.0, looked.1, p, now);
            fetched.value == ApiRoutes.MatchDetails(list, p) && fetched.calls == ApiRoutes.MatchCalls(list)
  {
    RiotService.LookupAllMiss(list, s, now);
    RiotService.MissedAll(list);
    var fetched := RiotService.FetchMisses(list, RiotService.NoHits(|list|), s, p, now);
    assert fetched.value == ApiRoutes.MatchDetails(list, p);
    assert RiotService.MatchCalls(list) == ApiRoutes.MatchCalls(list);
  }

  /** Steps 3 to 5 agree when the storage holds at most the account entry. */
  lemma FetchViewFromAccountOnly(gameName: string, tagLine: string, a: Account, record: SummonerRecord,
                                 s: RiotService.Storage, p: Oracle, now: int)
    requires s.Keys <= {C.StorageKey(RiotService.AccountKey(gameName, tagLine))}
    ensures RiotService.FetchView(a, record, s, p, now).value == ApiRoutes.FetchView(a, record, p).value
    ensures RiotService.FetchView(a, record, s, p, now).calls == ApiRoutes.FetchView(a, record, p).calls
  {
    AccountOnlySteps(gameName, tagLine, a, record, s, p, now);
    var rank := RiotService.GetSummonerRank(record.id, s, p, now);
    var ids := RiotService.GetMatchIds(a.puuid, rank.storage, p, now);
    if ids.value.Some? {
      FanOutFromCleanStorage(ids.value.value, ids.storage, p, now);
    }
  }

  /** From storage holding at most the account entry, the rank and id steps miss the cache and leave no match entry behind. */
  lemma AccountOnlySteps(gameName: string, tagLine: string, a: Account, record: SummonerRecord,
                         s: RiotService.Storage, p: Oracle, now: int)
    requires s.Keys <= {C.StorageKey(RiotService.AccountKey(gameName, tagLine))}
    ensures var rank := RiotService.GetSummonerRank(record.id, s, p, now);
            var ids := RiotService.GetMatchIds(a.puuid, rank.storage, p, now);
            rank.value == ApiRoutes.GetSummonerRank(record.id, p).value
            && rank.calls + ids.calls == [LeagueCall(record.id), MatchIdsCall(a.puuid, MatchIdStart, MatchIdCount)]
            && (ids.value.Some? <==> ApiRequest(p.matchIds(a.puuid)).Ok?)
            && (ids.value.Some? ==>
                  ids.value.value == p.matchIds(a.puuid).body.value
                  && forall i :: 0 <= i < |ids.value.value| ==> C.StorageKey(RiotService.MatchKey(ids.value.value[i])) !in ids.storage)
  {
    RankFromAccountOnly(gameName, tagLine, record.id, s, p, now);
    var rank := RiotService.GetSummonerRank(record.id, s, p, now);
    IdsFromAccountAndRank(gameName, tagLine, record.id, a.puuid, rank.storage, p, now);
  }

  lemma RankFromAccountOnly(gameName: string, tagLine: string, id: string, s: RiotService.Storage, p: Oracle, now: int)
    requires s.Keys <= {C.StorageKey(RiotService.AccountKey(gameName, tagLine))}
    ensures var rank := RiotService.GetSummonerRank(id, s, p, now);
            rank.value == ApiRoutes.GetSummonerRank(id, p).value && rank.calls == [LeagueCall(id)]
            && rank.storage.Keys <= {C.StorageKey(RiotService.AccountKey(gameName, tagLine)), C.StorageKey(RiotService.RankKey(id))}
  {
    C.StorageKeysOfKindsDiffer("rank", "account", [id], [gameName, tagLine]);
  }

  lemma IdsFromAccountAndRank(gameName: string, tagLine: string, id: string, puuid: string,
                              s: RiotService.Storage, p: Oracle, now: int)
    requires s.Keys <= {C.StorageKey(RiotService.AccountKey(gameName, tagLine)), C.StorageKey(RiotService.RankKey(id))}
    ensures var ids := RiotService.GetMatchIds(puuid, s, p, now);
            ids.calls == [MatchIdsCall(puuid, MatchIdStart, MatchIdCount)]
            && (ids.value.Some? <==> ApiRequest(p.matchIds(puuid)).Ok?)
            && (ids.value.Some? ==>
                  ids.value.value == p.matchIds(puuid).body.value
                  && forall i :: 0 <= i < |ids.value.value| ==> C.StorageKey(RiotService.MatchKey(ids.value.value[i])) !in ids.storage)
  {
    C.StorageKeysOfKindsDiffer("matchIds", "account", [puuid], [gameName, tagLine]);
    C.StorageKeysOfKindsDiffer("matchIds", "rank", [puuid], [id]);
    var ids := RiotService.GetMatchIds(puuid, s, p, now);
    assert ids.storage.Keys <= s.Keys + {C.StorageKey(RiotService.MatchIdsKey(puuid))};
    if ids.value.Some? {
      var list := ids.value.value;
      forall i | 0 <= i < |list|
        ensures C.StorageKey(RiotService.MatchKey(list[i])) !in ids.storage
      {
        C.StorageKeysOfKindsDiffer("match", "account", [list[i]], [gameName, tagLine]);
        C.StorageKeysOfKindsDiffer("match", "rank", [list[i]], [id]);
        C.StorageKeysOfKindsDiffer("match", "matchIds", [list[i]], [puuid]);
      }
    }
  }

  /**
   * From an empty cache, the cache-first service returns what the uncached
   * service returns and makes the same provider calls in the same order.
   */
  lemma CachedFromEmptyAgrees(gameName: string, tagLine: string, p: Oracle, now: int)
    ensures RiotService.GetSummonerData(gameName, tagLine, map[], p, now).value
            == ApiRoutes.GetSummonerData(gameName, tagLine, p).value
    ensures RiotService.GetSummonerData(gameName, tagLine, map[], p, now).calls
            == ApiRoutes.GetSummonerData(gameName, tagLine, p).calls
  {
    var s0: RiotService.Storage := map[];
    var rd := C.Get(s0, RiotService.SummonerKey(gameName, tagLine), now);
    assert rd.storage == s0;
    var acc := RiotService.SearchSummoners(gameName, tagLine, s0, p, now);
    assert acc.storage.Keys <= {C.StorageKey(RiotService.AccountKey(gameName, tagLine))};
    if acc.value.Some? && ApiRequest(p.summoner(acc.value.value.puuid)).Ok? {
      var record := ApiRequest(p.summoner(acc.value.value.puuid)).value;
      FetchViewFromAccountOnly(gameName, tagLine, acc.value.value, record, acc.storage, p, now);
    }
  }
}
