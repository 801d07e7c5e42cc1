/**
 * The advanced filter panel: its state changes (toggles, setters, reset),
 * whether any filter is active, how many of the player's matches pass, and the
 * choices it offers, all computed from the match summaries it is given.
 */
module AdvancedMatchFilter {
  import opened Opt
  import Seqs
  import opened OrderedSets
  import opened MatchFilter

  // ---------------------------------------------------------------------------
  // State changes

  /** Removes every copy of `x` when present, appends it otherwise. */
  function Toggle<T(==,!new)>(xs: seq<T>, x: T): (r: seq<T>)
    ensures x in r <==> x !in xs
    ensures forall y :: y != x ==> (y in r <==> y in xs)
    ensures x !in xs ==> r == xs + [x]
    ensures x in xs ==> |r| < |xs|
  {
    if x in xs then
      var r := Seqs.Filter(xs, y => y != x);
      FilterDropsOne(xs, x);
      r
    else xs + [x]
  }

  lemma FilterDropsOne<T>(xs: seq<T>, x: T)
    requires x in xs
    ensures |Seqs.Filter(xs, y => y != x)| < |xs|
    ensures forall y :: y != x && y in xs ==> y in Seqs.Filter(xs, y => y != x)
  {
    var k :| 0 <= k < |xs| && xs[k] == x;
    assert xs == xs[..k] + [x] + xs[k + 1..];
    Seqs.FilterAppend(xs[..k] + [x], xs[k + 1..], y => y != x);
    Seqs.FilterAppend(xs[..k], [x], y => y != x);
    forall y | y != x && y in xs
      ensures y in Seqs.Filter(xs, y => y != x)
    {
      var j :| 0 <= j < |xs| && xs[j] == y;
    }
  }

  /** Toggling an absent value twice restores the list. */
  lemma ToggleTwiceRestores<T(!new)>(xs: seq<T>, x: T)
    requires x !in xs
    ensures Toggle(Toggle(xs, x), x) == xs
  {
    Seqs.FilterAppend(xs, [x], y => y != x);
    Seqs.FilterKeepsAll(xs, y => y != x);
  }

  /** `toggleQueueType`: flips whether `queueId` is selected; nothing else changes. */
  function ToggleQueueType(f: FilterOptions, queueId: int): (r: FilterOptions)
    ensures queueId in r.queueTypes <==> queueId !in f.queueTypes
    ensures forall q :: q != queueId ==> (q in r.queueTypes <==> q in f.queueTypes)
    ensures r.champions == f.champions && r.result == f.result && r.timeRange == f.timeRange && r.role == f.role
  {
    f.(queueTypes := Toggle(f.queueTypes, queueId))
  }

  /** `toggleChampion`: flips whether `name` is selected; nothing else changes. */
  function ToggleChampion(f: FilterOptions, name: string): (r: FilterOptions)
    ensures name in r.champions <==> name !in f.champions
    ensures forall c :: c != name ==> (c in r.champions <==> c in f.champions)
    ensures r.queueTypes == f.queueTypes && r.result == f.result && r.timeRange == f.timeRange && r.role == f.role
  {
    f.(champions := Toggle(f.champions, name))
  }

  /** Selecting an unselected queue and then deselecting it gives back the same filters. */
  lemma ToggleQueueTypeTwice(f: FilterOptions, queueId: int)
    requires queueId !in f.queueTypes
    ensures ToggleQueueType(ToggleQueueType(f, queueId), queueId) == f
  {
    ToggleTwiceRestores(f.queueTypes, queueId);
  }

  /** Selecting an unselected champion and then deselecting it gives back the same filters. */
  lemma ToggleChampionTwice(f: FilterOptions, name: string)
    requires name !in f.champions
    ensures ToggleChampion(ToggleChampion(f, name), name) == f
  {
    ToggleTwiceRestores(f.champions, name);
  }

  /** `handleResultChange`. */
  function SetResult(f: FilterOptions, result: ResultFilter): (r: FilterOptions)
    ensures r.result == result
    ensures r.queueTypes == f.queueTypes && r.champions == f.champions && r.timeRange == f.timeRange && r.role == f.role
  {
    f.(result := result)
  }

  /** `handleTimeRangeChange`. */
  function SetTimeRange(f: FilterOptions, timeRange: TimeRange): (r: FilterOptions)
    ensures r.timeRange == timeRange
    ensures r.queueTypes == f.queueTypes && r.champions == f.champions && r.result == f.result && r.role == f.role
  {
    f.(timeRange := timeRange)
  }

  /** `handleRoleChange`. */
  function SetRole(f: FilterOptions, role: Option<string>): (r: FilterOptions)
    ensures r.role == role
    ensures r.queueTypes == f.queueTypes && r.champions == f.champions && r.result == f.result && r.timeRange == f.timeRange
  {
    f.(role := role)
  }

  /** `hasActiveFilters`: some list is non-empty or some field is off its default. */
  predicate HasActiveFilters(f: FilterOptions) {
    |f.queueTypes| > 0 || |f.champions| > 0 || f.result != AnyResult || f.timeRange != AnyTime || f.role != None
  }

  /** No filter is active exactly when the filters are the initial ones. */
  lemma InactiveIffInitial(f: FilterOptions)
    ensures !HasActiveFilters(f) <==> f == NoFilters
  {
  }

  /** `resetFilters`: back to the initial filters, whatever they were. */
  function ResetFilters(f: FilterOptions): (r: FilterOptions)
    ensures !HasActiveFilters(r)
  {
    NoFilters
  }

  // ---------------------------------------------------------------------------
  // Counting

  function Shown(all: seq<MatchSummary>, f: FilterOptions, now: int): seq<MatchSummary> {
    Seqs.Filter(all, (s: MatchSummary) => Passes(f, s, now))
  }

  /** `filteredCount`: how many summaries pass; all of them when no filter is active. */
  function FilteredCount(all: seq<MatchSummary>, f: FilterOptions, now: int): (n: nat)
    ensures n <= |all|
    ensures !HasActiveFilters(f) ==> n == |all|
  {
    if !HasActiveFilters(f) then
      InactiveIffInitial(f);
      forall k | 0 <= k < |all|
        ensures Passes(f, all[k], now)
      {
        NoFiltersPassEverything(all[k], now);
      }
      ShownAll(all, f, now);
      |Shown(all, f, now)|
    else |Shown(all, f, now)|
  }

  lemma ShownAll(all: seq<MatchSummary>, f: FilterOptions, now: int)
    requires forall k :: 0 <= k < |all| ==> Passes(f, all[k], now)
    ensures Shown(all, f, now) == all
  {
    Seqs.FilterKeepsAll(all, (s: MatchSummary) => Passes(f, s, now));
  }

  /** An empty role marks the filters active yet lets every match through. */
  lemma EmptyRoleActiveButInert(all: seq<MatchSummary>, now: int)
    ensures HasActiveFilters(NoFilters.(role := Some("")))
    ensures FilteredCount(all, NoFilters.(role := Some("")), now) == |all|
  {
    forall k | 0 <= k < |all|
      ensures Passes(NoFilters.(role := Some("")), all[k], now)
    {
      EmptyRoleFiltersNothing(NoFilters, all[k], now);
    }
    ShownAll(all, NoFilters.(role := Some("")), now);
  }

  // ---------------------------------------------------------------------------
  // Choices offered

  /** The names of `QUEUE_TYPES`; the other ids have none. */
  function QueueName(queueId: int): Option<string> {
    if queueId == 420 then Some("Classée Solo/Duo")
    else if queueId == 440 then Some("Classée Flex")
    else if queueId == 400 then Some("Partie Normale (Draft)")
    else if queueId == 430 then Some("Partie Normale (Blind)")
    else if queueId == 450 then Some("ARAM")
    else if queueId == 900 then Some("URF")
    else if queueId == 1010 then Some("URF")
    else if queueId == 1020 then Some("One for All")
    else if queueId == 700 then Some("Clash")
    else if queueId == 830 then Some("Co-op vs IA (Intro)")
    else if queueId == 840 then Some("Co-op vs IA (Débutant)")
    else if queueId == 850 then Some("Co-op vs IA (Intermédiaire)")
    else if queueId == 1400 then Some("Ultime Spellbook")
    else if queueId == 1200 then Some("Nexus Blitz")
    else if queueId == 1300 then Some("Nexus Blitz")
    else if queueId == 1700 then Some("Arena")
    else if queueId == 1090 then Some("TFT Normal")
    else if queueId == 1100 then Some("TFT Classée")
    else if queueId == 1110 then Some("TFT Tutoriel")
    else if queueId == 1130 then Some("TFT Hyperbolic")
    else if queueId == 1160 then Some("TFT Double Up")
    else None
  }

  /** Every name in the table is a non-empty string, so the panel's truthiness test is a lookup. */
  lemma QueueNamesNonEmpty(queueId: int)
    ensures QueueName(queueId).Some? ==> |QueueName(queueId).value| > 0
  {
  }

  /** The characters `String.prototype.trim` removes: ECMAScript white space and line terminators. */
  predicate IsSpace(c: char) {
    c == ' ' || c == '\t' || c == '\n' || c == '\U{000B}' || c == '\U{000C}' || c == '\r'
    || c == '\U{00A0}' || c == '\U{1680}' || ('\U{2000}' <= c <= '\U{200A}')
    || c == '\U{2028}' || c == '\U{2029}' || c == '\U{202F}' || c == '\U{205F}'
    || c == '\U{3000}' || c == '\U{FEFF}'
  }

  /** `!(role && role.trim() !== "")`: empty, or white space only. */
  predicate Blank(s: string) {
    forall k :: 0 <= k < |s| ==> IsSpace(s[k])
  }

  datatype QueueOption = QueueOption(id: int, name: string)

  datatype Choices = Choices(queues: seq<QueueOption>, champions: seq<string>, roles: seq<string>)

  function QueueIds(all: seq<MatchSummary>): (r: seq<int>)
    ensures |r| == |all| && forall k :: 0 <= k < |r| ==> r[k] == all[k].queueId
  {
    seq(|all|, k requires 0 <= k < |all| => all[k].queueId)
  }

  function ChampionNames(all: seq<MatchSummary>): (r: seq<string>)
    ensures |r| == |all| && forall k :: 0 <= k < |r| ==> r[k] == all[k].championName
  {
    seq(|all|, k requires 0 <= k < |all| => all[k].championName)
  }

  function Positions(all: seq<MatchSummary>): (r: seq<string>)
    ensures |r| == |all| && forall k :: 0 <= k < |r| ==> r[k] == all[k].teamPosition
  {
    seq(|all|, k requires 0 <= k < |all| => all[k].teamPosition)
  }

  /** The queue choices: each named queue played, once, by ascending id (integer keys of a record enumerate in that order). */
  function QueueChoices(all: seq<MatchSummary>): (r: seq<QueueOption>)
    ensures forall k :: 0 <= k < |r| ==> QueueName(r[k].id) == Some(r[k].name) && r[k].id in QueueIds(all)
    ensures forall id :: id in QueueIds(all) && QueueName(id).Some? ==> exists k :: 0 <= k < |r| && r[k].id == id
    ensures forall k, l :: 0 <= k < l < |r| ==> r[k].id < r[l].id
  {
    IntLessOrder();
    var named := Seqs.Filter(QueueIds(all), id => QueueName(id).Some?);
    var ids := SortedDistinct(named, IntLess);
    forall k | 0 <= k < |ids|
      ensures ids[k] in named && QueueName(ids[k]).Some?
    {
      assert ids[k] in ids;
      var j :| 0 <= j < |named| && named[j] == ids[k];
    }
    var r := seq(|ids|, k requires 0 <= k < |ids| && QueueName(ids[k]).Some? => QueueOption(ids[k], QueueName(ids[k]).value));
    forall id | id in QueueIds(all) && QueueName(id).Some?
      ensures exists k :: 0 <= k < |r| && r[k].id == id
    {
      var j :| 0 <= j < |QueueIds(all)| && QueueIds(all)[j] == id;
      assert id in named;
      var k :| 0 <= k < |ids| && ids[k] == id;
      assert r[k].id == id;
    }
    forall k | 0 <= k < |r|
      ensures r[k].id in QueueIds(all)
    {
      assert ids[k] in named;
    }
    r
  }

  /** `filterOptions`: the queue, champion and role choices of the panel. */
  function FilterChoices(all: seq<MatchSummary>): (c: Choices)
    ensures forall k :: 0 <= k < |c.queues| ==> QueueName(c.queues[k].id) == Some(c.queues[k].name)
    ensures StrictlySorted(c.champions, LexLess)
    ensures forall name :: name in c.champions <==> name in ChampionNames(all)
    ensures StrictlySorted(c.roles, LexLess)
    ensures forall role :: role in c.roles <==> role in Positions(all) && !Blank(role)
  {
    LexOrder();
    var roles := Seqs.Filter(Positions(all), (role: string) => !Blank(role));
    assert forall role :: role in Positions(all) && !Blank(role) ==> role in roles by {
      forall role | role in Positions(all) && !Blank(role)
        ensures role in roles
      {
        var k :| 0 <= k < |Positions(all)| && Positions(all)[k] == role;
      }
    }
    assert forall role :: role in roles ==> role in Positions(all) && !Blank(role) by {
      forall role | role in roles
        ensures role in Positions(all) && !Blank(role)
      {
        var k :| 0 <= k < |roles| && roles[k] == role;
      }
    }
    Choices(QueueChoices(all), SortedDistinct(ChampionNames(all), LexLess), SortedDistinct(roles, LexLess))
  }

  /** The champion choices are the only ordered, repetition-free listing of the champions played. */
  lemma ChampionChoicesDetermined(all: seq<MatchSummary>, listing: seq<string>)
    requires StrictlySorted(listing, LexLess)
    requires forall name :: name in listing <==> name in ChampionNames(all)
    ensures FilterChoices(all).champions == listing
  {
    LexOrder();
    SortedByMembers(FilterChoices(all).champions, listing, LexLess);
  }

  /** A blank position is never offered as a role. */
  lemma NoBlankRole(all: seq<MatchSummary>, k: nat)
    requires k < |FilterChoices(all).roles|
    ensures FilterChoices(all).roles[k] != "" && !Blank(FilterChoices(all).roles[k])
  {
    assert FilterChoices(all).roles[k] in FilterChoices(all).roles;
  }
}
