/** Display helpers: match duration, KDA ratio, and the user-facing message for a failed request. */
module Formatters {
  import opened Opt
  import opened Text
  import Rounding

  // ---------------------------------------------------------------------------
  // formatGameDuration

  /** `m:ss`: whole minutes, then the remaining seconds padded to two digits. */
  function FormatGameDuration(seconds: nat): (r: string)
    ensures |r| >= 4 && r[|r| - 3] == ':'
    ensures AllDigits(r[..|r| - 3]) && AllDigits(r[|r| - 2..])
    ensures ParseNat(r[..|r| - 3]) == seconds / 60
    ensures ParseNat(r[|r| - 2..]) == seconds % 60
  {
    var minutes := seconds / 60;
    var rest := seconds % 60;
    var m := NatToString(minutes);
    var f := (if rest < 10 then "0" else "") + NatToString(rest);
    PaddedSeconds(rest);
    ParseNatToString(minutes);
    ColonFields(m, f);
    m + ":" + f
  }

  /** The fields on either side of the colon of `m:ff` are `m` and `ff`. */
  lemma ColonFields(m: string, f: string)
    requires |f| == 2
    ensures var r := m + ":" + f;
            |r| >= 3 && r[|r| - 3] == ':' && r[..|r| - 3] == m && r[|r| - 2..] == f
  {
  }

  /** Reads `m:ss` back into seconds; anything else is rejected. */
  function ParseGameDuration(text: string): (r: Option<nat>)
    ensures r.Some? ==> |text| >= 4 && text[|text| - 3] == ':'
  {
    if |text| >= 4 && text[|text| - 3] == ':' && AllDigits(text[..|text| - 3]) && AllDigits(text[|text| - 2..])
    then Some(60 * ParseNat(text[..|text| - 3]) + ParseNat(text[|text| - 2..]))
    else None
  }

  /** Below 100 the rendering has at most two digits. */
  lemma SmallNatDigits(n: nat)
    requires n < 100
    ensures |NatToString(n)| == if n < 10 then 1 else 2
  {
  }

  /** The seconds field, padded, reads back as the remainder. */
  lemma {:induction false} PaddedSeconds(rest: nat)
    requires rest < 60
    ensures var f := (if rest < 10 then "0" else "") + NatToString(rest);
            |f| == 2 && AllDigits(f) && ParseNat(f) == rest
  {
    var f := (if rest < 10 then "0" else "") + NatToString(rest);
    SmallNatDigits(rest);
    ParseNatToString(rest);
    if rest < 10 {
      assert f == ['0', DigitChar(rest)];
      assert f[..1] == "0";
      assert f[..1][..0] == [];
    }
  }

  /** Every formatted duration reads back as the number of seconds it was made from. */
  lemma {:induction false} DurationRoundTrip(seconds: nat)
    ensures ParseGameDuration(FormatGameDuration(seconds)) == Some(seconds)
  {
    var r := FormatGameDuration(seconds);
    assert 60 * ParseNat(r[..|r| - 3]) + ParseNat(r[|r| - 2..]) == seconds;
  }

  /** The rendering is injective: two different durations never display alike. */
  lemma DurationDisplayInjective(s1: nat, s2: nat)
    requires s1 != s2
    ensures FormatGameDuration(s1) != FormatGameDuration(s2)
  {
    DurationRoundTrip(s1);
    DurationRoundTrip(s2);
  }

  // ---------------------------------------------------------------------------
  // calculateKDA

  /** The exact ratio `(kills + assists) / max(1, deaths)`. */
  function KdaRatio(kills: nat, deaths: nat, assists: nat): (r: real)
    ensures r >= 0.0
    ensures r * (if deaths == 0 then 1 else deaths) as real == (kills + assists) as real
  {
    (kills + assists) as real / (if deaths == 0 then 1 else deaths) as real
  }

  /** `calculateKDA`: the ratio as `toFixed(2)` shows it, a multiple of 0.01 within 0.005 of the exact ratio. */
  function CalculateKda(kills: nat, deaths: nat, assists: nat): (r: real)
    ensures r >= 0.0
    ensures -0.005 <= r - KdaRatio(kills, deaths, assists) <= 0.005
    ensures Rounding.IsWhole(r * 100.0)
  {
    var ratio := KdaRatio(kills, deaths, assists);
    Rounding.ToFixedClose(ratio, 2);
    Rounding.ToFixedOnGrid(ratio, 2);
    assert Rounding.Pow10(2) == 100;
    Rounding.ToFixed(ratio, 2)
  }

  /** A deathless game scores like a game with one death: the sum of kills and assists, shown without rounding. */
  lemma KdaZeroDeaths(kills: nat, assists: nat)
    ensures CalculateKda(kills, 0, assists) == CalculateKda(kills, 1, assists) == (kills + assists) as real
  {
    Rounding.ToFixedWhole(kills + assists, 2);
  }

  /** More takedowns never lower the ratio, more deaths never raise it; the shown two-decimal figure follows. */
  lemma KdaMonotone(k: nat, d: nat, a: nat, k': nat, d': nat, a': nat)
    requires k + a <= k' + a' && d' <= d
    ensures KdaRatio(k, d, a) <= KdaRatio(k', d', a')
    ensures CalculateKda(k, d, a) <= CalculateKda(k', d', a')
  {
    var m := if d == 0 then 1 else d;
    var m' := if d' == 0 then 1 else d';
    QuotientMonotone((k + a) as real, (k' + a') as real, m as real, m' as real);
    assert KdaRatio(k, d, a) == (k + a) as real / m as real;
    assert KdaRatio(k', d', a') == (k' + a') as real / m' as real;
    Rounding.ToFixedMonotone(KdaRatio(k, d, a), KdaRatio(k', d', a'), 2);
  }

  /** A larger numerator over a smaller positive denominator gives a larger quotient. */
  lemma QuotientMonotone(x: real, x': real, y: real, y': real)
    requires 0.0 <= x <= x' && 0.0 < y' <= y
    ensures x / y <= x' / y'
  {
    assert x / y <= x' / y;
    assert x' / y <= x' / y';
  }

  // ---------------------------------------------------------------------------
  // handleAPIError

  /** What a caller may have caught: an `APIError` with its status, another `Error` with its message, or a non-error value. */
  datatype Caught = ApiErrorCaught(status: int) | ErrorCaught(message: string) | OtherCaught

  // The two longer messages are written sentence by sentence: the verifier
  // reads the characters of a literal of this length only when it is split.
  const NotFoundMessage: string := "Joueur introuvable. " + "Vérifiez le nom et le tag."
  const RateLimitedMessage: string := "Trop de requêtes. " + "Veuillez réessayer dans quelques minutes."
  const ForbiddenMessage: string := "Clé API non valide ou expirée."
  const UnexpectedMessage: string := "Une erreur inattendue est survenue."

  function ServerErrorMessage(status: int): string {
    "Erreur serveur (" + IntToString(status) + ")."
  }

  /** `handleAPIError`: a user-facing French message for whatever was caught. */
  function HandleApiError(e: Caught): (r: string)
    ensures e.ApiErrorCaught? && e.status == 404 ==> r == NotFoundMessage
    ensures e.ApiErrorCaught? && e.status == 429 ==> r == RateLimitedMessage
    ensures e.ApiErrorCaught? && e.status == 403 ==> r == ForbiddenMessage
    ensures e.ApiErrorCaught? && e.status !in {403, 404, 429} ==> r == "Erreur serveur (" + IntToString(e.status) + ")."
    ensures e.ErrorCaught? ==> r == e.message
    ensures e.OtherCaught? ==> r == UnexpectedMessage
  {
    match e
    case ApiErrorCaught(status) =>
      if status == 404 then NotFoundMessage
      else if status == 429 then RateLimitedMessage
      else if status == 403 then ForbiddenMessage
      else ServerErrorMessage(status)
    case ErrorCaught(message) => message
    case OtherCaught => UnexpectedMessage
  }

  /** Different unrecognised statuses give different messages, so the status can be read back from the message. */
  lemma {:induction false} ServerMessagesDistinct(s1: nat, s2: nat)
    requires s1 != s2
    requires s1 !in {403, 404, 429} && s2 !in {403, 404, 429}
    ensures HandleApiError(ApiErrorCaught(s1)) != HandleApiError(ApiErrorCaught(s2))
  {
    var p := "Erreur serveur (";
    var m1 := HandleApiError(ApiErrorCaught(s1));
    var m2 := HandleApiError(ApiErrorCaught(s2));
    assert m1 == p + NatToString(s1) + ").";
    assert m2 == p + NatToString(s2) + ").";
    ParseNatToString(s1);
    ParseNatToString(s2);
    assert m1[|p|..|m1| - 2] == NatToString(s1);
    assert m2[|p|..|m2| - 2] == NatToString(s2);
  }

  /** The three recognised statuses and every other status are told apart by their messages. */
  lemma KnownMessagesDistinct(status: int)
    requires status !in {403, 404, 429}
    ensures HandleApiError(ApiErrorCaught(status)) !in {NotFoundMessage, RateLimitedMessage, ForbiddenMessage}
    ensures NotFoundMessage != RateLimitedMessage && RateLimitedMessage != ForbiddenMessage && NotFoundMessage != ForbiddenMessage
  {
    var m := HandleApiError(ApiErrorCaught(status));
    assert m == ServerErrorMessage(status);
    assert m[0] == 'E';
    assert NotFoundMessage[0] == 'J';
    assert RateLimitedMessage[0] == 'T';
    assert ForbiddenMessage[0] == 'C';
  }
}
