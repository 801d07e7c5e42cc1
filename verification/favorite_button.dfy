/** The context-backed heart button (`features/profile/ProfileFavoriteButton`). */
module FavoriteButton {
  import opened Opt
  import opened Text
  import opened Favorites
  import FavoritesContext

  /** Which context function a click calls. */
  datatype Callback = CallRemove(gameName: string, tagLine: string) | CallAdd(gameName: string, tagLine: string, icon: Option<int>)

  /** `handleToggle`: remove when the pair is a favourite, otherwise add. */
  function HandleToggle(favs: seq<FavoritePlayer>, gameName: string, tagLine: string, icon: Option<int>): (c: Callback)
    ensures c.CallRemove? <==> IsFavorite(favs, gameName, tagLine)
    ensures c == CallRemove(gameName, tagLine) || c == CallAdd(gameName, tagLine, icon)
  {
    if IsFavorite(favs, gameName, tagLine) then CallRemove(gameName, tagLine) else CallAdd(gameName, tagLine, icon)
  }

  /** The favourites after the called function has run at time `now`. */
  function Apply(favs: seq<FavoritePlayer>, c: Callback, now: int): seq<FavoritePlayer> {
    match c
    case CallRemove(g, t) => FavoritesContext.Remove(favs, g, t)
    case CallAdd(g, t, icon) => FavoritesContext.Add(favs, g, t, icon, now)
  }

  function Click(favs: seq<FavoritePlayer>, gameName: string, tagLine: string, icon: Option<int>, now: int): seq<FavoritePlayer> {
    Apply(favs, HandleToggle(favs, gameName, tagLine, icon), now)
  }

  /** For a tag without `#`, one click flips whether the pair is a favourite. */
  lemma ClickFlips(favs: seq<FavoritePlayer>, gameName: string, tagLine: string, icon: Option<int>, now: int)
    requires !StartsWith(tagLine, "#")
    ensures IsFavorite(Click(favs, gameName, tagLine, icon, now), gameName, tagLine) <==> !IsFavorite(favs, gameName, tagLine)
  {
    if !IsFavorite(favs, gameName, tagLine) {
      FavoritesContext.AddThenIsFavorite(favs, gameName, tagLine, icon, now);
    }
  }

  /** A click keeps every entry of another pair and adds nothing but the new favourite. */
  lemma ClickTouchesOnlyThePair(favs: seq<FavoritePlayer>, gameName: string, tagLine: string, icon: Option<int>, now: int)
    ensures var r := Click(favs, gameName, tagLine, icon, now);
            forall f :: f in favs && !Matches(f, gameName, tagLine) ==> f in r
    ensures var r := Click(favs, gameName, tagLine, icon, now);
            forall f :: f in r ==> f in favs || f == NewFavorite(gameName, tagLine, now, icon)
  {
  }

  /** For a tag without `#`, two clicks on a non-favourite restore the list. */
  lemma ClickTwiceRestores(favs: seq<FavoritePlayer>, gameName: string, tagLine: string, icon: Option<int>, now: int, later: int)
    requires !StartsWith(tagLine, "#") && !IsFavorite(favs, gameName, tagLine)
    ensures Click(Click(favs, gameName, tagLine, icon, now), gameName, tagLine, icon, later) == favs
  {
    FavoritesContext.AddThenIsFavorite(favs, gameName, tagLine, icon, now);
    FavoritesContext.AddThenRemoveRestores(favs, gameName, tagLine, icon, now);
  }
}
