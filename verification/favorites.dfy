/**
 * The favourite-player record and the operations every favourites variant
 * shares: the case-insensitive identity test, the record a new favourite gets,
 * removal of every entry matching a name/tag pair, and the most-recent-first
 * ordering.
 */
module Favorites {
  import opened Opt
  import opened Text
  import Sorting

  /** A saved player. `lastSearched` is a millisecond timestamp. */
  datatype FavoritePlayer = FavoritePlayer(
    id: string,
    gameName: string,
    tagLine: string,
    lastSearched: Option<int>,
    profileIconId: Option<int>)

  /** `f.gameName.toLowerCase() === g.toLowerCase() && f.tagLine.toLowerCase() === t.toLowerCase()`. */
  predicate Matches(f: FavoritePlayer, gameName: string, tagLine: string) {
    EqualsIgnoringCase(f.gameName, gameName) && EqualsIgnoringCase(f.tagLine, tagLine)
  }

  /** `favorites.some(f => Matches(f, g, t))`. */
  predicate IsFavorite(favs: seq<FavoritePlayer>, gameName: string, tagLine: string) {
    exists i :: 0 <= i < |favs| && Matches(favs[i], gameName, tagLine)
  }

  /** `` `${g.toLowerCase()}-${t.toLowerCase()}` `` — the tag as typed, `#` included. */
  function FavoriteId(gameName: string, tagLine: string): string {
    Lower(gameName) + "-" + Lower(tagLine)
  }

  /** The record every add path builds: lower-cased id, tag with one leading `#` removed, stamped with `now`. */
  function NewFavorite(gameName: string, tagLine: string, now: int, icon: Option<int>): (f: FavoritePlayer)
    ensures f.id == FavoriteId(gameName, tagLine)
    ensures f.gameName == gameName
    ensures StartsWith(tagLine, "#") ==> tagLine == "#" + f.tagLine
    ensures !StartsWith(tagLine, "#") ==> f.tagLine == tagLine
    ensures f.lastSearched == Some(now) && f.profileIconId == icon
  {
    FavoritePlayer(FavoriteId(gameName, tagLine), gameName, StripLeadingHash(tagLine), Some(now), icon)
  }

  /** `favorites.findIndex(f => Matches(f, g, t))`, with `-1` as `None`. */
  function FindFirst(favs: seq<FavoritePlayer>, gameName: string, tagLine: string): (r: Option<nat>)
    ensures r.None? <==> !IsFavorite(favs, gameName, tagLine)
    ensures r.Some? ==> r.value < |favs| && Matches(favs[r.value], gameName, tagLine)
                        && forall j :: 0 <= j < r.value ==> !Matches(favs[j], gameName, tagLine)
  {
    if |favs| == 0 then None
    else if Matches(favs[0], gameName, tagLine) then Some(0)
    else
      var rest := FindFirst(favs[1..], gameName, tagLine);
      assert forall j :: 1 <= j < |favs| ==> favs[j] == favs[1..][j - 1];
      match rest
      case None => None
      case Some(k) => Some(k + 1)
  }

  /** `favorites.filter(f => !Matches(f, g, t))`. */
  function RemovePair(favs: seq<FavoritePlayer>, gameName: string, tagLine: string): (r: seq<FavoritePlayer>)
    ensures |r| <= |favs|
    ensures forall i :: 0 <= i < |r| ==> r[i] in favs && !Matches(r[i], gameName, tagLine)
    ensures forall f :: f in favs && !Matches(f, gameName, tagLine) ==> f in r
  {
    if |favs| == 0 then []
    else (if Matches(favs[0], gameName, tagLine) then [] else [favs[0]]) + RemovePair(favs[1..], gameName, tagLine)
  }

  /** `(f.lastSearched || 0)`, negated so that an ascending sort puts the most recent first. */
  function RecencyKey(f: FavoritePlayer): real {
    -(f.lastSearched.GetOr(0) as real)
  }

  /** `[...favorites].sort((a, b) => (b.lastSearched || 0) - (a.lastSearched || 0))`. */
  function SortByRecency(favs: seq<FavoritePlayer>): (r: seq<FavoritePlayer>)
    ensures multiset(r) == multiset(favs)
    ensures forall i, j :: 0 <= i < j < |r| ==> r[i].lastSearched.GetOr(0) >= r[j].lastSearched.GetOr(0)
  {
    var r := Sorting.SortBy(favs, RecencyKey);
    assert forall i, j :: 0 <= i < j < |r| ==> RecencyKey(r[i]) <= RecencyKey(r[j]);
    r
  }

  // ---------------------------------------------------------------------------
  // Properties

  lemma LowerIdempotent(s: string)
    ensures Lower(Lower(s)) == Lower(s)
  {
  }

  /** Looking up a pair does not depend on the case it is written in. */
  lemma IsFavoriteCaseInsensitive(favs: seq<FavoritePlayer>, gameName: string, tagLine: string)
    ensures IsFavorite(favs, gameName, tagLine) <==> IsFavorite(favs, Lower(gameName), Lower(tagLine))
  {
    LowerIdempotent(gameName);
    LowerIdempotent(tagLine);
  }

  /**
   * A new favourite answers the lookup by the name and tag it was added with
   * exactly when the tag did not start with `#`: the stored tag is stripped,
   * the lookup tag is not.
   */
  lemma NewFavoriteMatchesIff(gameName: string, tagLine: string, now: int, icon: Option<int>)
    ensures Matches(NewFavorite(gameName, tagLine, now, icon), gameName, tagLine) <==> !StartsWith(tagLine, "#")
  {
    var f := NewFavorite(gameName, tagLine, now, icon);
    if StartsWith(tagLine, "#") {
      assert |Lower(f.tagLine)| != |Lower(tagLine)|;
    }
  }

  /** After removal no entry answers the pair. */
  lemma RemovePairClears(favs: seq<FavoritePlayer>, gameName: string, tagLine: string)
    ensures !IsFavorite(RemovePair(favs, gameName, tagLine), gameName, tagLine)
  {
  }

  /** Removal distributes over concatenation, so the survivors keep their relative order. */
  lemma {:induction false} RemovePairAppend(a: seq<FavoritePlayer>, b: seq<FavoritePlayer>, gameName: string, tagLine: string)
    ensures RemovePair(a + b, gameName, tagLine) == RemovePair(a, gameName, tagLine) + RemovePair(b, gameName, tagLine)
  {
    if |a| > 0 {
      assert (a + b)[1..] == a[1..] + b;
      RemovePairAppend(a[1..], b, gameName, tagLine);
    } else {
      assert a + b == b;
    }
  }

  /** A list without matching entries is left exactly as it is. */
  lemma {:induction false} RemovePairAbsent(favs: seq<FavoritePlayer>, gameName: string, tagLine: string)
    requires !IsFavorite(favs, gameName, tagLine)
    ensures RemovePair(favs, gameName, tagLine) == favs
  {
    if |favs| > 0 {
      assert !IsFavorite(favs[1..], gameName, tagLine) by {
        forall i | 0 <= i < |favs[1..]|
          ensures !Matches(favs[1..][i], gameName, tagLine)
        {
          assert favs[1..][i] == favs[i + 1];
        }
      }
      RemovePairAbsent(favs[1..], gameName, tagLine);
      assert favs == [favs[0]] + favs[1..];
    }
  }

  /** Removing twice is removing once. */
  lemma RemovePairIdempotent(favs: seq<FavoritePlayer>, gameName: string, tagLine: string)
    ensures RemovePair(RemovePair(favs, gameName, tagLine), gameName, tagLine) == RemovePair(favs, gameName, tagLine)
  {
    RemovePairAbsent(RemovePair(favs, gameName, tagLine), gameName, tagLine);
  }

  /** Sorting keeps every entry and the length. */
  lemma SortByRecencyKeepsEntries(favs: seq<FavoritePlayer>)
    ensures |SortByRecency(favs)| == |favs|
    ensures forall f :: f in favs <==> f in SortByRecency(favs)
  {
    var r := SortByRecency(favs);
    assert |r| == |multiset(r)| == |multiset(favs)| == |favs|;
    forall f
      ensures f in favs <==> f in r
    {
      assert f in favs <==> f in multiset(favs);
      assert f in r <==> f in multiset(r);
    }
  }
}
