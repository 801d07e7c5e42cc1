/**
 * The incrementally revealed match list: a count of visible matches that
 * grows by a fixed step whenever the sentinel below the list scrolls into
 * view, is capped at the list's length, and returns to its initial value
 * whenever the parent passes a new array. The parent builds a new filtered
 * array on every render, so a `MatchesChanged` event may carry the same
 * matches.
 */
module VirtualMatchList {
  import Seqs
  import opened RiotTypes

  const DefaultInitialCount: int := 5
  const DefaultIncrement: int := 5

  function Min(a: int, b: int): int {
    if a <= b then a else b
  }

  function Max(a: int, b: int): int {
    if a <= b then b else a
  }

  /** `handleObserver`: while matches remain hidden, a visible sentinel reveals up to `increment` more, never past the end. */
  function OnIntersect(visible: int, len: nat, intersecting: bool, increment: int): (r: int)
    ensures !intersecting || len <= visible ==> r == visible
    ensures intersecting && visible < len ==> r <= len
    ensures intersecting && visible < len && 0 < increment ==> visible < r
    ensures 0 <= increment ==> visible <= r
    ensures r <= Max(visible, len)
    ensures intersecting && visible < len && visible + increment < len ==> r == visible + increment
  {
    if intersecting && visible < len then Min(visible + increment, len) else visible
  }

  /** `matches.slice(0, visibleCount)`: always a prefix; its length is the count, capped, for a count of zero or more. */
  function VisibleMatches(matches: seq<Match>, visible: int): (r: seq<Match>)
    ensures |r| <= |matches| && r == matches[..|r|]
    ensures 0 <= visible ==> |r| == Min(visible, |matches|)
    ensures visible < 0 ==> |r| == Max(|matches| + visible, 0)
  {
    Seqs.SliceFromStart(matches, visible);
    Seqs.JsSlice(matches, 0, visible)
  }

  /** `hasMoreToLoad`. */
  predicate HasMore(visible: int, len: nat) {
    visible < len
  }

  /** The sentinel is offered exactly when part of a non-empty list is hidden. */
  lemma HasMoreIffHidden(matches: seq<Match>, visible: int)
    requires 0 <= visible || |matches| > 0
    ensures HasMore(visible, |matches|) <==> |VisibleMatches(matches, visible)| < |matches|
  {
  }

  /** The rows drawn: the visible matches the player took part in, in order; the others render nothing. */
  function RenderedRows(matches: seq<Match>, visible: int, puuid: string): (r: seq<Match>)
    ensures |r| <= |VisibleMatches(matches, visible)|
    ensures forall k :: 0 <= k < |r| ==> r[k] in VisibleMatches(matches, visible) && r[k] in matches && HasPlayer(r[k], puuid)
    ensures forall k :: 0 <= k < |VisibleMatches(matches, visible)| && HasPlayer(VisibleMatches(matches, visible)[k], puuid)
              ==> VisibleMatches(matches, visible)[k] in r
  {
    var shown := VisibleMatches(matches, visible);
    var r := Seqs.Filter(shown, (m: Match) => HasPlayer(m, puuid));
    assert forall k :: 0 <= k < |r| ==> r[k] in shown && HasPlayer(r[k], puuid);
    assert forall m :: m in shown ==> m in matches;
    r
  }

  /** A single match draws a row exactly when the player took part in it. */
  lemma RenderedSingle(m: Match, puuid: string)
    ensures RenderedRows([m], 1, puuid) == if HasPlayer(m, puuid) then [m] else []
  {
    assert VisibleMatches([m], 1) == [m];
    assert [m][1..] == [];
  }

  /**
   * Revealing more matches only appends rows: the rows drawn for a smaller
   * count are followed by the rows of the newly revealed matches, so the rows
   * keep the list's order.
   */
  lemma RevealAppendsRows(matches: seq<Match>, visible: nat, more: nat, puuid: string)
    requires visible <= more
    ensures RenderedRows(matches, more, puuid)
            == RenderedRows(matches, visible, puuid)
               + Seqs.Filter(matches[Min(visible, |matches|)..Min(more, |matches|)], (m: Match) => HasPlayer(m, puuid))
  {
    var a := VisibleMatches(matches, visible);
    var b := matches[Min(visible, |matches|)..Min(more, |matches|)];
    assert VisibleMatches(matches, more) == a + b;
    Seqs.FilterAppend(a, b, (m: Match) => HasPlayer(m, puuid));
  }

  // ---------------------------------------------------------------------------
  // The list over time

  /** The list and its visible count. */
  datatype ListState = ListState(matches: seq<Match>, visible: int)

  /** What can happen to the list: the sentinel's visibility is reported, or the parent passes a new list. */
  datatype Event = Observed(intersecting: bool) | MatchesChanged(matches: seq<Match>)

  function Step(st: ListState, e: Event, initial: int, increment: int): (r: ListState)
    ensures e.Observed? ==> r.matches == st.matches
    ensures e.MatchesChanged? ==> r == ListState(e.matches, initial)
  {
    match e
    case Observed(b) => st.(visible := OnIntersect(st.visible, |st.matches|, b, increment))
    case MatchesChanged(ms) => ListState(ms, initial)
  }

  function RunEvents(st: ListState, events: seq<Event>, initial: int, increment: int): ListState
    decreases |events|
  {
    if |events| == 0 then st else RunEvents(Step(st, events[0], initial, increment), events[1..], initial, increment)
  }

  /** The count never drops below its initial value (for a non-negative step) nor rises above the larger of that value and the list's length. */
  ghost predicate Bounded(st: ListState, initial: int) {
    initial <= st.visible <= Max(initial, |st.matches|)
  }

  lemma {:induction false} RunStaysBounded(st: ListState, events: seq<Event>, initial: int, increment: int)
    requires 0 <= increment && Bounded(st, initial)
    ensures Bounded(RunEvents(st, events, initial, increment), initial)
    decreases |events|
  {
    if |events| > 0 {
      var next := Step(st, events[0], initial, increment);
      assert Bounded(next, initial);
      RunStaysBounded(next, events[1..], initial, increment);
    }
  }

  /** `n` reports of a visible sentinel. */
  function Scrolls(n: nat): (r: seq<Event>)
    ensures |r| == n && forall k :: 0 <= k < n ==> r[k] == Observed(true)
  {
    if n == 0 then [] else [Observed(true)] + Scrolls(n - 1)
  }

  /** Scrolling to the sentinel often enough reveals the whole list. */
  lemma {:induction false} ScrollingRevealsAll(st: ListState, n: nat, initial: int, increment: int)
    requires 0 < increment && st.visible <= |st.matches|
    requires |st.matches| - st.visible <= n * increment
    ensures RunEvents(st, Scrolls(n), initial, increment).visible == |st.matches|
    ensures VisibleMatches(st.matches, RunEvents(st, Scrolls(n), initial, increment).visible) == st.matches
    decreases n
  {
    var events := Scrolls(n);
    if n == 0 {
      assert st.visible == |st.matches|;
    } else {
      var next := Step(st, events[0], initial, increment);
      assert events[1..] == Scrolls(n - 1);
      if st.visible < |st.matches| {
        assert |next.matches| - next.visible <= (n - 1) * increment;
      }
      ScrollingRevealsAll(next, n - 1, initial, increment);
    }
  }
}
