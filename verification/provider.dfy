/**
 * The Match Data Provider as an abstract oracle, and the request primitive
 * `apiRequest` over it. A reply is an HTTP status with a body that parses or
 * not, or a transport failure (the `fetch` promise rejects). No URL, query
 * string or API key is modelled.
 */
module Provider {
  import opened Opt
  import opened RiotTypes

  /** What one GET yields: a status and a body (`None` when `json()` would throw), or no response at all. */
  datatype Reply<T> = Response(status: int, body: Option<T>) | NetworkFailure

  /** `response.ok`. */
  predicate IsOk(status: int) {
    200 <= status <= 299
  }

  /** The five provider endpoints, as total functions of their path parameters. */
  datatype Oracle = Oracle(
    account: (string, string) -> Reply<Account>,
    summoner: string -> Reply<SummonerRecord>,
    league: string -> Reply<seq<LeagueEntry>>,
    matchIds: string -> Reply<seq<string>>,
    matchDetail: string -> Reply<Match>)

  /** The match-id list is always requested with `start=0&count=18`. */
  const MatchIdStart: nat := 0
  const MatchIdCount: nat := 18

  /** One provider request, recorded in the order the service issues it. */
  datatype Call =
    | AccountCall(gameName: string, tagLine: string)
    | SummonerCall(puuid: string)
    | LeagueCall(summonerId: string)
    | MatchIdsCall(puuid: string, start: nat, count: nat)
    | MatchCall(matchId: string)

  /** An outcome together with the provider calls that produced it, for the services without a cache. */
  datatype Outcome<T> = Outcome(value: T, calls: seq<Call>)

  /** The two ways `apiRequest` throws: an `APIError` with the status, or the transport/parse error rethrown. */
  datatype ApiFailure = ApiError(status: int) | RequestFailed

  datatype ApiResult<T> = Ok(value: T) | Failed(failure: ApiFailure) {
    /** What a `try { return await apiRequest(...) } catch { return null }` caller gets. */
    function OrNull(): Option<T> {
      match this
      case Ok(v) => Some(v)
      case Failed(_) => None
    }
  }

  /** `apiRequest`: the parsed body of a 2xx reply, else the error it throws. */
  function ApiRequest<T>(reply: Reply<T>): (r: ApiResult<T>)
    ensures r.Ok? <==> reply.Response? && IsOk(reply.status) && reply.body.Some?
    ensures r.Ok? ==> r.value == reply.body.value
    ensures reply.Response? && !IsOk(reply.status) ==> r == Failed(ApiError(reply.status))
    ensures reply.NetworkFailure? ==> r == Failed(RequestFailed)
  {
    match reply
    case NetworkFailure => Failed(RequestFailed)
    case Response(status, body) =>
      if !IsOk(status) then Failed(ApiError(status))
      else match body
        case None => Failed(RequestFailed)
        case Some(v) => Ok(v)
  }

  /** A reply on which the raw `fetch` code throws: no response, or a 2xx body that does not parse. */
  predicate Throws<T>(reply: Reply<T>) {
    reply.NetworkFailure? || (IsOk(reply.status) && reply.body.None?)
  }
}
