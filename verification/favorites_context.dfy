/**
 * The favourites store behind React context: the reducer and the
 * `addFavorite` / `removeFavorite` / `isFavorite` functions it hands out.
 */
module FavoritesContext {
  import opened Opt
  import opened Text
  import opened Favorites

  datatype Action =
    | AddFavorite(payload: FavoritePlayer)
    | RemoveFavorite(gameName: string, tagLine: string)
    | SetFavorites(favorites: seq<FavoritePlayer>)
    | UnknownAction

  /** `favoritesReducer`. */
  function Reduce(state: seq<FavoritePlayer>, action: Action): (r: seq<FavoritePlayer>)
    ensures action.AddFavorite? ==> |r| == |state| + 1 && r[..|state|] == state && r[|state|] == action.payload
    ensures action.RemoveFavorite? ==>
              !IsFavorite(r, action.gameName, action.tagLine)
              && forall f :: f in state && !Matches(f, action.gameName, action.tagLine) ==> f in r
    ensures action.RemoveFavorite? ==> forall f :: f in r ==> f in state
    ensures action.SetFavorites? ==> r == action.favorites
    ensures action.UnknownAction? ==> r == state
  {
    match action
    case AddFavorite(p) => state + [p]
    case RemoveFavorite(g, t) => RemovePair(state, g, t)
    case SetFavorites(list) => list
    case UnknownAction => state
  }

  /** `addFavorite(g, t, icon)` at time `now`: no-op when the pair is already a favourite, else one new entry at the end. */
  function Add(state: seq<FavoritePlayer>, gameName: string, tagLine: string, icon: Option<int>, now: int): (r: seq<FavoritePlayer>)
    ensures IsFavorite(state, gameName, tagLine) ==> r == state
    ensures !IsFavorite(state, gameName, tagLine) ==> r == state + [NewFavorite(gameName, tagLine, now, icon)]
  {
    if IsFavorite(state, gameName, tagLine) then state
    else Reduce(state, AddFavorite(NewFavorite(gameName, tagLine, now, icon)))
  }

  /** `removeFavorite(g, t)`. */
  function Remove(state: seq<FavoritePlayer>, gameName: string, tagLine: string): (r: seq<FavoritePlayer>)
    ensures !IsFavorite(r, gameName, tagLine)
  {
    Reduce(state, RemoveFavorite(gameName, tagLine))
  }

  // ---------------------------------------------------------------------------
  // Properties

  /** Adding grows the list by at most one and, for a tag without `#`, makes the pair a favourite. */
  lemma AddThenIsFavorite(state: seq<FavoritePlayer>, gameName: string, tagLine: string, icon: Option<int>, now: int)
    requires !StartsWith(tagLine, "#")
    ensures IsFavorite(Add(state, gameName, tagLine, icon, now), gameName, tagLine)
    ensures |Add(state, gameName, tagLine, icon, now)| <= |state| + 1
  {
    var r := Add(state, gameName, tagLine, icon, now);
    if !IsFavorite(state, gameName, tagLine) {
      NewFavoriteMatchesIff(gameName, tagLine, now, icon);
      assert Matches(r[|state|], gameName, tagLine);
    }
  }

  /** Adding the same pair again changes nothing (tag without `#`). */
  lemma AddIdempotent(state: seq<FavoritePlayer>, gameName: string, tagLine: string, icon: Option<int>, now: int, later: int)
    requires !StartsWith(tagLine, "#")
    ensures Add(Add(state, gameName, tagLine, icon, now), gameName, tagLine, icon, later)
            == Add(state, gameName, tagLine, icon, now)
  {
    AddThenIsFavorite(state, gameName, tagLine, icon, now);
  }

  /**
   * With a `#`-prefixed tag the duplicate check never sees the stored entry,
   * so a second add appends a second copy.
   */
  lemma AddWithHashDuplicates(state: seq<FavoritePlayer>, gameName: string, tagLine: string, icon: Option<int>, now: int, later: int)
    requires StartsWith(tagLine, "#") && !IsFavorite(state, gameName, tagLine)
    ensures |Add(Add(state, gameName, tagLine, icon, now), gameName, tagLine, icon, later)| == |state| + 2
  {
    NewFavoriteMatchesIff(gameName, tagLine, now, icon);
    var r := Add(state, gameName, tagLine, icon, now);
    assert !IsFavorite(r, gameName, tagLine) by {
      forall i | 0 <= i < |r|
        ensures !Matches(r[i], gameName, tagLine)
      {
        if i < |state| {
          assert r[i] == state[i];
        }
      }
    }
  }

  /** Removing a pair leaves every entry of another pair in place, in order. */
  lemma RemoveKeepsOthers(a: seq<FavoritePlayer>, b: seq<FavoritePlayer>, gameName: string, tagLine: string)
    ensures Remove(a + b, gameName, tagLine) == Remove(a, gameName, tagLine) + Remove(b, gameName, tagLine)
  {
    RemovePairAppend(a, b, gameName, tagLine);
  }

  /** Removing a pair that is not a favourite changes nothing. */
  lemma RemoveAbsent(state: seq<FavoritePlayer>, gameName: string, tagLine: string)
    requires !IsFavorite(state, gameName, tagLine)
    ensures Remove(state, gameName, tagLine) == state
  {
    RemovePairAbsent(state, gameName, tagLine);
  }

  /** Adding a new pair and removing it again restores the list (tag without `#`). */
  lemma AddThenRemoveRestores(state: seq<FavoritePlayer>, gameName: string, tagLine: string, icon: Option<int>, now: int)
    requires !StartsWith(tagLine, "#") && !IsFavorite(state, gameName, tagLine)
    ensures Remove(Add(state, gameName, tagLine, icon, now), gameName, tagLine) == state
  {
    var f := NewFavorite(gameName, tagLine, now, icon);
    NewFavoriteMatchesIff(gameName, tagLine, now, icon);
    RemovePairAppend(state, [f], gameName, tagLine);
    RemovePairAbsent(state, gameName, tagLine);
    assert RemovePair([f], gameName, tagLine) == [];
  }
}
