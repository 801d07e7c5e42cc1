/**
 * The first-generation favourites panel (`components/Favorites`): manual add
 * from a form, add-the-displayed-player, the timestamp refresh when the
 * displayed player is a favourite, removal by id, and the sorted listing.
 * Optional props are `Option`s; a prop is "given" when present and non-empty,
 * as JavaScript truthiness reads it.
 */
module FavoritesPanel {
  import opened Opt
  import opened Text
  import opened Favorites

  /** The add-favourite form. */
  datatype Form = Form(newGameName: string, newTagLine: string, showForm: bool)

  datatype Panel = Panel(favorites: seq<FavoritePlayer>, form: Form)

  const ClosedForm: Form := Form("", "", false)

  /** A string prop is truthy: present and non-empty. */
  predicate Given(s: Option<string>) {
    s.Some? && |s.value| > 0
  }

  /** A numeric prop is truthy: present and non-zero. */
  predicate GivenIcon(icon: Option<int>) {
    icon.Some? && icon.value != 0
  }

  /** The form's `addFavorite`: ignores empty fields, closes the form on a duplicate, else appends and closes. */
  function AddFromForm(panel: Panel, current: Option<string>, currentTag: Option<string>, icon: Option<int>, now: int): (r: Panel)
    ensures panel.form.newGameName == "" || panel.form.newTagLine == "" ==> r == panel
    ensures panel.form.newGameName != "" && panel.form.newTagLine != "" ==>
              r.form == ClosedForm
              && (IsFavorite(panel.favorites, panel.form.newGameName, panel.form.newTagLine) ==> r.favorites == panel.favorites)
              && (!IsFavorite(panel.favorites, panel.form.newGameName, panel.form.newTagLine) ==>
                    |r.favorites| == |panel.favorites| + 1 && r.favorites[..|panel.favorites|] == panel.favorites
                    && r.favorites[|panel.favorites|].id == FavoriteId(panel.form.newGameName, panel.form.newTagLine)
                    && r.favorites[|panel.favorites|].lastSearched == Some(now))
  {
    var g := panel.form.newGameName;
    var t := panel.form.newTagLine;
    if g == "" || t == "" then panel
    else if IsFavorite(panel.favorites, g, t) then Panel(panel.favorites, ClosedForm)
    else
      var attached := if current == Some(g) && currentTag == Some(t) then icon else None;
      Panel(panel.favorites + [NewFavorite(g, t, now, attached)], ClosedForm)
  }

  /** `addCurrentPlayerToFavorites`. */
  function AddCurrent(favs: seq<FavoritePlayer>, current: Option<string>, currentTag: Option<string>, icon: Option<int>, now: int): (r: seq<FavoritePlayer>)
    ensures !Given(current) || !Given(currentTag) ==> r == favs
    ensures Given(current) && Given(currentTag) && IsFavorite(favs, current.value, currentTag.value) ==> r == favs
    ensures Given(current) && Given(currentTag) && !IsFavorite(favs, current.value, currentTag.value) ==>
              r == favs + [NewFavorite(current.value, currentTag.value, now, icon)]
  {
    if !Given(current) || !Given(currentTag) then favs
    else if IsFavorite(favs, current.value, currentTag.value) then favs
    else favs + [NewFavorite(current.value, currentTag.value, now, icon)]
  }

  /**
   * One run of the refresh effect: when name, tag and a non-zero icon are
   * given and the player is a favourite, the first matching entry gets the
   * new timestamp and icon.
   */
  function Touch(favs: seq<FavoritePlayer>, current: Option<string>, currentTag: Option<string>, icon: Option<int>, now: int): (r: seq<FavoritePlayer>)
    ensures |r| == |favs|
  {
    if Given(current) && Given(currentTag) && GivenIcon(icon) then
      match FindFirst(favs, current.value, currentTag.value)
      case None => favs
      case Some(i) => favs[i := favs[i].(lastSearched := Some(now), profileIconId := icon)]
    else favs
  }

  /** `removeFavorite(id)`: drops every entry with that id. */
  function RemoveById(favs: seq<FavoritePlayer>, id: string): (r: seq<FavoritePlayer>)
    ensures forall i :: 0 <= i < |r| ==> r[i].id != id && r[i] in favs
    ensures forall f :: f in favs && f.id != id ==> f in r
  {
    if |favs| == 0 then []
    else (if favs[0].id == id then [] else [favs[0]]) + RemoveById(favs[1..], id)
  }

  /** Every entry with another id stays as often as it occurred; every entry with the id is gone. */
  lemma {:induction false} RemoveByIdCounts(favs: seq<FavoritePlayer>, id: string, f: FavoritePlayer)
    ensures f.id != id ==> multiset(RemoveById(favs, id))[f] == multiset(favs)[f]
    ensures f.id == id ==> multiset(RemoveById(favs, id))[f] == 0
  {
    if |favs| > 0 {
      var head, tail := favs[0], favs[1..];
      var rest := RemoveById(tail, id);
      RemoveByIdCounts(tail, id, f);
      assert favs == [head] + tail;
      assert multiset(favs) == multiset([head]) + multiset(tail);
      if head.id == id {
        assert RemoveById(favs, id) == rest;
      } else {
        assert RemoveById(favs, id) == [head] + rest;
        assert multiset(RemoveById(favs, id)) == multiset([head]) + multiset(rest);
      }
    }
  }

  /** Removal works piece by piece, so the entries that stay keep their relative order. */
  lemma {:induction false} RemoveByIdAppend(a: seq<FavoritePlayer>, b: seq<FavoritePlayer>, id: string)
    ensures RemoveById(a + b, id) == RemoveById(a, id) + RemoveById(b, id)
  {
    if |a| > 0 {
      var head := if a[0].id == id then [] else [a[0]];
      assert (a + b)[1..] == a[1..] + b;
      assert RemoveById(a + b, id) == head + RemoveById(a[1..] + b, id);
      assert RemoveById(a, id) == head + RemoveById(a[1..], id);
      RemoveByIdAppend(a[1..], b, id);
    } else {
      assert a + b == b;
    }
  }

  /** `isCurrentPlayerFavorite`. */
  predicate IsCurrentPlayerFavorite(favs: seq<FavoritePlayer>, current: Option<string>, currentTag: Option<string>) {
    Given(current) && Given(currentTag) && IsFavorite(favs, current.value, currentTag.value)
  }

  // ---------------------------------------------------------------------------
  // Properties

  /** The icon is attached to a form-added entry exactly when the form names the displayed player verbatim. */
  lemma FormIconOnlyForExactCurrent(panel: Panel, current: Option<string>, currentTag: Option<string>, icon: Option<int>, now: int)
    requires panel.form.newGameName != "" && panel.form.newTagLine != ""
    requires !IsFavorite(panel.favorites, panel.form.newGameName, panel.form.newTagLine)
    ensures var r := AddFromForm(panel, current, currentTag, icon, now);
            r.favorites[|panel.favorites|].profileIconId
            == (if current == Some(panel.form.newGameName) && currentTag == Some(panel.form.newTagLine) then icon else None)
  {
  }

  /** Adding the displayed player (tag without `#`) makes it the current favourite. */
  lemma AddCurrentThenFavorite(favs: seq<FavoritePlayer>, current: Option<string>, currentTag: Option<string>, icon: Option<int>, now: int)
    requires Given(current) && Given(currentTag) && !StartsWith(currentTag.value, "#")
    ensures IsCurrentPlayerFavorite(AddCurrent(favs, current, currentTag, icon, now), current, currentTag)
  {
    var r := AddCurrent(favs, current, currentTag, icon, now);
    if !IsFavorite(favs, current.value, currentTag.value) {
      NewFavoriteMatchesIff(current.value, currentTag.value, now, icon);
      assert Matches(r[|favs|], current.value, currentTag.value);
    }
  }

  /**
   * The refresh touches at most the first matching entry, keeps its identity,
   * and never adds or removes an entry.
   */
  lemma TouchChangesOnlyFirstMatch(favs: seq<FavoritePlayer>, current: Option<string>, currentTag: Option<string>, icon: Option<int>, now: int)
    requires Given(current) && Given(currentTag)
    ensures var r := Touch(favs, current, currentTag, icon, now);
            var first := FindFirst(favs, current.value, currentTag.value);
            forall i :: 0 <= i < |favs| && (first.None? || i != first.value) ==> r[i] == favs[i]
    ensures var r := Touch(favs, current, currentTag, icon, now);
            forall i :: 0 <= i < |favs| ==>
              r[i].id == favs[i].id && r[i].gameName == favs[i].gameName && r[i].tagLine == favs[i].tagLine
    ensures GivenIcon(icon) && IsFavorite(favs, current.value, currentTag.value) ==>
              var r := Touch(favs, current, currentTag, icon, now);
              var i := FindFirst(favs, current.value, currentTag.value).value;
              r[i].lastSearched == Some(now) && r[i].profileIconId == icon
  {
  }

  /** Nothing is refreshed, or added, when the displayed player is not a favourite or no icon is given. */
  lemma TouchAbsentIsNoOp(favs: seq<FavoritePlayer>, current: Option<string>, currentTag: Option<string>, icon: Option<int>, now: int)
    requires !GivenIcon(icon) || !Given(current) || !Given(currentTag) || !IsFavorite(favs, current.value, currentTag.value)
    ensures Touch(favs, current, currentTag, icon, now) == favs
  {
  }

  /** A refresh leaves the favourite set as the lookup sees it. */
  lemma TouchKeepsFavorites(favs: seq<FavoritePlayer>, current: Option<string>, currentTag: Option<string>, icon: Option<int>, now: int,
                            gameName: string, tagLine: string)
    ensures IsFavorite(Touch(favs, current, currentTag, icon, now), gameName, tagLine) <==> IsFavorite(favs, gameName, tagLine)
  {
    var r := Touch(favs, current, currentTag, icon, now);
    assert forall i :: 0 <= i < |favs| ==> (Matches(r[i], gameName, tagLine) <==> Matches(favs[i], gameName, tagLine));
  }

  /** The first entry a lookup finds is the same after a refresh. */
  lemma TouchKeepsFirstMatch(favs: seq<FavoritePlayer>, current: Option<string>, currentTag: Option<string>, icon: Option<int>, now: int,
                             gameName: string, tagLine: string)
    ensures FindFirst(Touch(favs, current, currentTag, icon, now), gameName, tagLine) == FindFirst(favs, gameName, tagLine)
  {
    var r := Touch(favs, current, currentTag, icon, now);
    assert forall i :: 0 <= i < |favs| ==> (Matches(r[i], gameName, tagLine) <==> Matches(favs[i], gameName, tagLine));
    TouchKeepsFavorites(favs, current, currentTag, icon, now, gameName, tagLine);
  }

  /**
   * As written, the refresh effect lists the favourites among its
   * dependencies and always stores a new list, so each run schedules the next.
   * The runs never settle: a run at a later time changes the list again.
   */
  lemma TouchNeverSettles(favs: seq<FavoritePlayer>, current: Option<string>, currentTag: Option<string>, icon: Option<int>, t1: int, t2: int)
    requires Given(current) && Given(currentTag) && GivenIcon(icon)
    requires IsFavorite(favs, current.value, currentTag.value)
    requires t1 != t2
    ensures Touch(Touch(favs, current, currentTag, icon, t1), current, currentTag, icon, t2) != Touch(favs, current, currentTag, icon, t1)
  {
    var r1 := Touch(favs, current, currentTag, icon, t1);
    var r2 := Touch(r1, current, currentTag, icon, t2);
    TouchKeepsFirstMatch(favs, current, currentTag, icon, t1, current.value, currentTag.value);
    TouchKeepsFavorites(favs, current, currentTag, icon, t1, current.value, currentTag.value);
    var i := FindFirst(favs, current.value, currentTag.value).value;
    TouchChangesOnlyFirstMatch(favs, current, currentTag, icon, t1);
    TouchChangesOnlyFirstMatch(r1, current, currentTag, icon, t2);
    assert r1[i].lastSearched == Some(t1) && r2[i].lastSearched == Some(t2);
  }

  /**
   * A refresh that runs once per search settles: running it again at the
   * same time leaves the list as it is.
   */
  lemma TouchSettles(favs: seq<FavoritePlayer>, current: Option<string>, currentTag: Option<string>, icon: Option<int>, now: int)
    ensures Touch(Touch(favs, current, currentTag, icon, now), current, currentTag, icon, now) == Touch(favs, current, currentTag, icon, now)
  {
    var r1 := Touch(favs, current, currentTag, icon, now);
    if Given(current) && Given(currentTag) {
      TouchKeepsFirstMatch(favs, current, currentTag, icon, now, current.value, currentTag.value);
    }
  }

  /** Removing an id that no entry has changes nothing. */
  lemma {:induction false} RemoveByIdAbsent(favs: seq<FavoritePlayer>, id: string)
    requires forall i :: 0 <= i < |favs| ==> favs[i].id != id
    ensures RemoveById(favs, id) == favs
  {
    if |favs| > 0 {
      RemoveByIdAbsent(favs[1..], id);
      assert favs == [favs[0]] + favs[1..];
    }
  }

  /** The listing shows every favourite, most recent first (a missing timestamp counts as 0). */
  lemma SortedListing(favs: seq<FavoritePlayer>)
    ensures multiset(SortByRecency(favs)) == multiset(favs)
    ensures forall i, j :: 0 <= i < j < |SortByRecency(favs)| ==>
              SortByRecency(favs)[i].lastSearched.GetOr(0) >= SortByRecency(favs)[j].lastSearched.GetOr(0)
  {
  }
}
