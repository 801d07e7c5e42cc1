/**
 * The standalone `useFavorites` hook: the same three operations kept in
 * component state, with removal written as a De Morgan'd filter.
 */
module UseFavorites {
  import opened Opt
  import opened Text
  import opened Favorites
  import FavoritesContext

  /** `isFavorite`. */
  predicate IsFavoriteHook(favs: seq<FavoritePlayer>, gameName: string, tagLine: string) {
    exists i :: 0 <= i < |favs| && Lower(favs[i].gameName) == Lower(gameName) && Lower(favs[i].tagLine) == Lower(tagLine)
  }

  /** `addFavorite`. */
  function AddHook(favs: seq<FavoritePlayer>, gameName: string, tagLine: string, icon: Option<int>, now: int): (r: seq<FavoritePlayer>)
    ensures |favs| <= |r| <= |favs| + 1 && r[..|favs|] == favs
    ensures |r| == |favs| + 1 <==> !IsFavoriteHook(favs, gameName, tagLine)
  {
    if IsFavoriteHook(favs, gameName, tagLine) then favs
    else favs + [NewFavorite(gameName, tagLine, now, icon)]
  }

  /** `removeFavorite`: keeps the entries that differ in name or in tag. */
  function RemoveHook(favs: seq<FavoritePlayer>, gameName: string, tagLine: string): (r: seq<FavoritePlayer>)
    ensures |r| <= |favs|
  {
    if |favs| == 0 then []
    else
      var f := favs[0];
      (if Lower(f.gameName) != Lower(gameName) || Lower(f.tagLine) != Lower(tagLine) then [f] else [])
      + RemoveHook(favs[1..], gameName, tagLine)
  }

  /** The hook's lookup is the context's lookup. */
  lemma IsFavoriteAgrees(favs: seq<FavoritePlayer>, gameName: string, tagLine: string)
    ensures IsFavoriteHook(favs, gameName, tagLine) <==> IsFavorite(favs, gameName, tagLine)
  {
  }

  /** The hook's add is the context's add. */
  lemma AddAgrees(favs: seq<FavoritePlayer>, gameName: string, tagLine: string, icon: Option<int>, now: int)
    ensures AddHook(favs, gameName, tagLine, icon, now) == FavoritesContext.Add(favs, gameName, tagLine, icon, now)
  {
    IsFavoriteAgrees(favs, gameName, tagLine);
  }

  /** The hook's filter keeps exactly what the reducer's filter keeps. */
  lemma {:induction false} RemoveAgrees(favs: seq<FavoritePlayer>, gameName: string, tagLine: string)
    ensures RemoveHook(favs, gameName, tagLine) == FavoritesContext.Remove(favs, gameName, tagLine)
  {
    if |favs| > 0 {
      RemoveAgrees(favs[1..], gameName, tagLine);
    }
  }

  /** After `removeFavorite(g, t)` the hook no longer reports the pair. */
  lemma RemoveThenNotFavorite(favs: seq<FavoritePlayer>, gameName: string, tagLine: string)
    ensures !IsFavoriteHook(RemoveHook(favs, gameName, tagLine), gameName, tagLine)
  {
    RemoveAgrees(favs, gameName, tagLine);
    IsFavoriteAgrees(RemoveHook(favs, gameName, tagLine), gameName, tagLine);
  }
}
