/** The context-backed favourites grid (`features/favorites/Favorites`). */
module FavoritesView {
  import opened Opt
  import opened Text
  import opened Favorites

  /** One tile: the player and whether it is highlighted as the displayed player. */
  datatype Tile = Tile(player: FavoritePlayer, highlighted: bool)

  /** The empty-state message, or the tiles in display order. */
  datatype View = NoFavorites | Grid(tiles: seq<Tile>)

  /** `currentGameName?.toLowerCase() === f.gameName.toLowerCase() && currentTagLine?.toLowerCase() === f.tagLine.toLowerCase()`. */
  predicate Highlighted(f: FavoritePlayer, current: Option<string>, currentTag: Option<string>) {
    current.Some? && currentTag.Some? && Lower(current.value) == Lower(f.gameName) && Lower(currentTag.value) == Lower(f.tagLine)
  }

  /**
   * The grid: the empty-state message, or every favourite sorted most recent
   * first with the displayed player highlighted. The grid sorts with
   * `b.lastSearched - a.lastSearched`, without the `|| 0` of the older panel;
   * the two differ only for a missing timestamp, where the grid's comparator
   * gives `NaN`, and this reuses `SortByRecency`, which counts it as 0.
   */
  function Render(favs: seq<FavoritePlayer>, current: Option<string>, currentTag: Option<string>): (v: View)
    ensures v.NoFavorites? <==> |favs| == 0
    ensures v.Grid? ==> |v.tiles| == |favs|
    ensures v.Grid? ==> forall i :: 0 <= i < |v.tiles| ==>
              (v.tiles[i].highlighted <==> current.Some? && currentTag.Some? && Matches(v.tiles[i].player, current.value, currentTag.value))
  {
    if |favs| == 0 then NoFavorites
    else
      var sorted := SortByRecency(favs);
      SortByRecencyKeepsEntries(favs);
      Grid(seq(|sorted|, i requires 0 <= i < |sorted| => Tile(sorted[i], Highlighted(sorted[i], current, currentTag))))
  }

  function Players(tiles: seq<Tile>): seq<FavoritePlayer> {
    seq(|tiles|, i requires 0 <= i < |tiles| => tiles[i].player)
  }

  /** The grid shows each favourite exactly as often as it is stored, most recent first. */
  lemma GridIsSortedPermutation(favs: seq<FavoritePlayer>, current: Option<string>, currentTag: Option<string>)
    requires |favs| > 0
    ensures var v := Render(favs, current, currentTag);
            multiset(Players(v.tiles)) == multiset(favs)
            && forall i, j :: 0 <= i < j < |v.tiles| ==>
                 v.tiles[i].player.lastSearched.GetOr(0) >= v.tiles[j].player.lastSearched.GetOr(0)
  {
    var v := Render(favs, current, currentTag);
    assert Players(v.tiles) == SortByRecency(favs);
  }
}
