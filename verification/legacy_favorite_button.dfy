/**
 * The first-generation heart button (`components/ProfileFavoriteButton`),
 * which reads and writes the stored favourites list itself on every click.
 */
module LegacyFavoriteButton {
  import opened Opt
  import opened Text
  import opened Favorites
  import Seqs

  /** The stored favourites: nothing, text that does not parse, or a parsed list. */
  datatype Stored = Absent | Unparsable | Parsed(favorites: seq<FavoritePlayer>)

  /** The list a click starts from: an absent or unparsable value reads as empty. */
  function Load(stored: Stored): (r: seq<FavoritePlayer>)
    ensures !stored.Parsed? ==> r == []
  {
    match stored
    case Parsed(list) => list
    case _ => []
  }

  /** `checkIfFavorite`: whether the button starts filled. */
  predicate CheckIfFavorite(stored: Stored, gameName: string, tagLine: string) {
    stored.Parsed? && IsFavorite(stored.favorites, gameName, tagLine)
  }

  /** A click's effect: the list written back and the button's new state. */
  datatype Toggled = Toggled(stored: Stored, filled: bool)

  /** `toggleFavorite`: removes the first matching entry if any, else appends a new one; the list is always written back. */
  function ToggleFavorite(stored: Stored, gameName: string, tagLine: string, icon: Option<int>, now: int): (r: Toggled)
    ensures r.stored.Parsed?
    ensures r.filled <==> !IsFavorite(Load(stored), gameName, tagLine)
    ensures !r.filled ==>
              var i := FindFirst(Load(stored), gameName, tagLine).value;
              r.stored.favorites == Load(stored)[..i] + Load(stored)[i + 1..]
    ensures r.filled ==> r.stored.favorites == Load(stored) + [NewFavorite(gameName, tagLine, now, icon)]
  {
    var favs := Load(stored);
    match FindFirst(favs, gameName, tagLine)
    case Some(i) => Toggled(Parsed(favs[..i] + favs[i + 1..]), false)
    case None => Toggled(Parsed(favs + [NewFavorite(gameName, tagLine, now, icon)]), true)
  }

  // ---------------------------------------------------------------------------
  // Properties

  /** With nothing stored, or an unparsable value, the button starts empty. */
  lemma CheckWithoutList(gameName: string, tagLine: string)
    ensures !CheckIfFavorite(Absent, gameName, tagLine) && !CheckIfFavorite(Unparsable, gameName, tagLine)
  {
  }

  /** An unparsable stored value is replaced by a list holding only the new entry. */
  lemma ToggleOverwritesUnparsable(gameName: string, tagLine: string, icon: Option<int>, now: int)
    ensures ToggleFavorite(Unparsable, gameName, tagLine, icon, now)
            == Toggled(Parsed([NewFavorite(gameName, tagLine, now, icon)]), true)
  {
  }

  /** Removal takes out one entry only: later duplicates of the pair stay, and everything keeps its order. */
  lemma ToggleRemovesOneEntry(stored: Stored, gameName: string, tagLine: string, icon: Option<int>, now: int)
    requires IsFavorite(Load(stored), gameName, tagLine)
    ensures var favs := Load(stored);
            var i := FindFirst(favs, gameName, tagLine).value;
            var r := ToggleFavorite(stored, gameName, tagLine, icon, now).stored.favorites;
            |r| == |favs| - 1
            && multiset(r) + multiset{favs[i]} == multiset(favs)
            && (forall k :: 0 <= k < i ==> r[k] == favs[k])
            && (forall k :: i < k < |favs| ==> r[k - 1] == favs[k])
  {
    var favs := Load(stored);
    var i := FindFirst(favs, gameName, tagLine).value;
    var t := ToggleFavorite(stored, gameName, tagLine, icon, now);
    assert !t.filled;
    assert t.stored.favorites == favs[..i] + favs[i + 1..];
    Seqs.RemoveAt(favs, i);
  }

  /** Two clicks starting from a list without the pair give the list back (tag without `#`). */
  lemma ToggleTwiceRestores(favs: seq<FavoritePlayer>, gameName: string, tagLine: string, icon: Option<int>, now: int, later: int)
    requires !StartsWith(tagLine, "#") && !IsFavorite(favs, gameName, tagLine)
    ensures var once := ToggleFavorite(Parsed(favs), gameName, tagLine, icon, now);
            var twice := ToggleFavorite(once.stored, gameName, tagLine, icon, later);
            once.filled && !twice.filled && twice.stored == Parsed(favs)
  {
    var f := NewFavorite(gameName, tagLine, now, icon);
    var l := favs + [f];
    NewFavoriteMatchesIff(gameName, tagLine, now, icon);
    assert Matches(l[|favs|], gameName, tagLine);
    assert forall j :: 0 <= j < |favs| ==> !Matches(l[j], gameName, tagLine);
    assert FindFirst(l, gameName, tagLine) == Some(|favs|);
    assert l[..|favs|] + l[|favs| + 1..] == favs;
  }

  /** With at most one matching entry and a tag without `#`, the button's state after a click is what a fresh check reports. */
  lemma ToggleStateAgreesWhenUnique(favs: seq<FavoritePlayer>, gameName: string, tagLine: string, icon: Option<int>, now: int)
    requires !StartsWith(tagLine, "#")
    requires forall i, j :: 0 <= i < j < |favs| && Matches(favs[i], gameName, tagLine) ==> !Matches(favs[j], gameName, tagLine)
    ensures var r := ToggleFavorite(Parsed(favs), gameName, tagLine, icon, now);
            r.filled == CheckIfFavorite(r.stored, gameName, tagLine)
  {
    var r := ToggleFavorite(Parsed(favs), gameName, tagLine, icon, now);
    NewFavoriteMatchesIff(gameName, tagLine, now, icon);
    if r.filled {
      assert Matches(r.stored.favorites[|favs|], gameName, tagLine);
    } else {
      var i := FindFirst(favs, gameName, tagLine).value;
      var l := r.stored.favorites;
      forall k | 0 <= k < |l|
        ensures !Matches(l[k], gameName, tagLine)
      {
        if k < i {
          assert l[k] == favs[k];
        } else {
          assert l[k] == favs[k + 1];
        }
      }
    }
  }

  /** With two matching entries, a click empties the button although the pair is still stored. */
  lemma ToggleStateStaleWithDuplicates(f: FavoritePlayer, icon: Option<int>, now: int)
    ensures var r := ToggleFavorite(Parsed([f, f]), f.gameName, f.tagLine, icon, now);
            !r.filled && CheckIfFavorite(r.stored, f.gameName, f.tagLine)
  {
    var r := ToggleFavorite(Parsed([f, f]), f.gameName, f.tagLine, icon, now);
    assert r.stored.favorites == [f];
    assert Matches(r.stored.favorites[0], f.gameName, f.tagLine);
  }
}
