/** `cogs/watchlist.py` over the watchlists table: the add rules (one entry per title and
    media type, a per-user limit), the listing, removal by title and marking as watched.
    The table is held in insertion order, which stands for the database's unordered
    scan where the commands do not sort. */
module Watchlist {
  import opened Wrappers
  import opened Slices
  import opened Sorting
  import opened Store
  import opened Views
  import opened Listing

  ghost predicate DistinctRowIds(rows: seq<WatchItem>)
  {
    forall i, j :: 0 <= i < j < |rows| ==> rows[i].id != rows[j].id
  }

  function SameEntry(guildId: int, userId: int, tmdbId: int, media: Media): WatchItem -> bool
  {
    (e: WatchItem) => e.guildId == guildId && e.userId == userId && e.tmdbId == tmdbId && e.media == media
  }

  function OwnedBy(guildId: int, userId: int): WatchItem -> bool
  {
    (e: WatchItem) => e.guildId == guildId && e.userId == userId
  }

  // ---- watchlist_add ----

  /** How an add ends: `scalar_one_or_none` raises on several existing entries and a title
      of None violates NOT NULL, both reported as an error. */
  datatype AddOutcome = AlreadyInWatchlist | WatchlistFull | AddFailed | Added(item: WatchItem)

  /** The decision `watchlist_add` takes once a result was picked. */
  function AddDecision(rows: seq<WatchItem>, nextId: int, guildId: int, userId: int, tmdbId: int, media: Media,
                       title: Option<string>, posterPath: Option<string>, now: int, maxItems: int): AddOutcome
  {
    var existing := |Filter(rows, SameEntry(guildId, userId, tmdbId, media))|;
    if existing > 1 then AddFailed
    else if existing == 1 then AlreadyInWatchlist
    else if |Filter(rows, OwnedBy(guildId, userId))| >= maxItems then WatchlistFull
    else if title.None? then AddFailed
    else Added(WatchItem(nextId, guildId, userId, tmdbId, media, title.value, posterPath, false, now, None))
  }

  /** Appending one row extends each comprehension by that row or not at all. */
  lemma FilterAppend(rows: seq<WatchItem>, x: WatchItem, p: WatchItem -> bool)
    ensures Filter(rows + [x], p) == Filter(rows, p) + (if p(x) then [x] else [])
  {
    assert (rows + [x])[..|rows|] == rows;
  }

  /** A successful add leaves exactly one entry for that title in the user's list, and the
      user's list never grows past the limit through an add. */
  lemma AddKeepsRules(rows: seq<WatchItem>, nextId: int, guildId: int, userId: int, tmdbId: int, media: Media,
                      title: Option<string>, posterPath: Option<string>, now: int, maxItems: int)
    requires AddDecision(rows, nextId, guildId, userId, tmdbId, media, title, posterPath, now, maxItems).Added?
    ensures var item := AddDecision(rows, nextId, guildId, userId, tmdbId, media, title, posterPath, now, maxItems).item;
      && |Filter(rows, SameEntry(guildId, userId, tmdbId, media))| == 0
      && |Filter(rows + [item], SameEntry(guildId, userId, tmdbId, media))| == 1
      && |Filter(rows + [item], OwnedBy(guildId, userId))| == |Filter(rows, OwnedBy(guildId, userId))| + 1 <= maxItems
      && !item.watched && item.watchedAt.None? && item.addedAt == now
  {
    var item := AddDecision(rows, nextId, guildId, userId, tmdbId, media, title, posterPath, now, maxItems).item;
    FilterAppend(rows, item, SameEntry(guildId, userId, tmdbId, media));
    FilterAppend(rows, item, OwnedBy(guildId, userId));
  }

  /** An entry already there, or a full list, is reported and nothing is added. */
  lemma AddRefusals(rows: seq<WatchItem>, nextId: int, guildId: int, userId: int, tmdbId: int, media: Media,
                    title: Option<string>, posterPath: Option<string>, now: int, maxItems: int)
    ensures var o := AddDecision(rows, nextId, guildId, userId, tmdbId, media, title, posterPath, now, maxItems);
      && (o == AlreadyInWatchlist <==>
            (exists k :: 0 <= k < |rows| && SameEntry(guildId, userId, tmdbId, media)(rows[k]))
            && |Filter(rows, SameEntry(guildId, userId, tmdbId, media))| == 1)
      && (o == WatchlistFull <==>
            (forall k :: 0 <= k < |rows| ==> !SameEntry(guildId, userId, tmdbId, media)(rows[k]))
            && |Filter(rows, OwnedBy(guildId, userId))| >= maxItems)
  {
    var p := SameEntry(guildId, userId, tmdbId, media);
    FilterIff(rows, p);
    var f := Filter(rows, p);
    if |f| >= 1 {
      assert f[0] in f;
    }
    if exists k :: 0 <= k < |rows| && p(rows[k]) {
      var k :| 0 <= k < |rows| && p(rows[k]);
      assert rows[k] in f;
    }
  }

  // ---- view_watchlist ----

  /** `order_by(added_at.desc())`. */
  function NewestFirst(a: WatchItem, b: WatchItem): bool { a.addedAt >= b.addedAt }

  lemma NewestFirstTotalPreorder()
    ensures TotalPreorder(NewestFirst)
  {
  }

  function Visible(guildId: int, userId: int, showWatched: bool): WatchItem -> bool
  {
    (e: WatchItem) => e.guildId == guildId && e.userId == userId && (showWatched || !e.watched)
  }

  function IsWatched(e: WatchItem): bool { e.watched }
  function IsUnwatched(e: WatchItem): bool { !e.watched }

  const MaxUnwatchedShown: nat := 15
  const MaxWatchedShown: nat := 10

  datatype WatchlistView =
    | EmptyWatchlist
    | Listed(total: nat, toWatch: Option<Section<WatchItem>>, watched: Option<Section<WatchItem>>)

  /** The items the command fetches, newest first. */
  function ViewRows(rows: seq<WatchItem>, guildId: int, userId: int, showWatched: bool): seq<WatchItem>
  {
    SortBy(Filter(rows, Visible(guildId, userId, showWatched)), NewestFirst)
  }

  function ViewWatchlist(rows: seq<WatchItem>, guildId: int, userId: int, showWatched: bool): WatchlistView
  {
    var items := ViewRows(rows, guildId, userId, showWatched);
    if items == [] then EmptyWatchlist
    else
      var unwatched := Filter(items, IsUnwatched);
      var watched := Filter(items, IsWatched);
      Listed(|items|,
             if unwatched == [] then None else Some(Capped(unwatched, MaxUnwatchedShown)),
             if watched != [] && showWatched then Some(Capped(watched, MaxWatchedShown)) else None)
  }

  lemma ViewRowsFacts(rows: seq<WatchItem>, guildId: int, userId: int, showWatched: bool)
    ensures var items := ViewRows(rows, guildId, userId, showWatched);
      && SortedBy(items, NewestFirst)
      && (forall x :: x in items ==> x in rows && Visible(guildId, userId, showWatched)(x))
  {
    var f := Filter(rows, Visible(guildId, userId, showWatched));
    NewestFirstTotalPreorder();
    SortBySorted(f, NewestFirst);
    FilterIff(rows, Visible(guildId, userId, showWatched));
    var items := SortBy(f, NewestFirst);
    forall x | x in items ensures x in rows && Visible(guildId, userId, showWatched)(x) {
      assert x in multiset(items);
      assert x in multiset(f);
    }
  }

  /** Nothing is listed exactly when none of the rows is the user's (unwatched, without
      `show_watched`) entry in this guild. */
  lemma ViewEmptyIff(rows: seq<WatchItem>, guildId: int, userId: int, showWatched: bool)
    ensures ViewWatchlist(rows, guildId, userId, showWatched).EmptyWatchlist? <==>
      forall x :: x in rows ==> !Visible(guildId, userId, showWatched)(x)
  {
    var vis := Visible(guildId, userId, showWatched);
    var f := Filter(rows, vis);
    FilterIff(rows, vis);
    if ViewRows(rows, guildId, userId, showWatched) == [] {
      assert |f| == 0;
    } else {
      assert f != [] && f[0] in f;
    }
  }

  /** Each field lists the user's entries of its kind from the table, newest first, at most
      15 unwatched and 10 watched; without `show_watched` there is no watched field. */
  lemma ViewSections(rows: seq<WatchItem>, guildId: int, userId: int, showWatched: bool)
    ensures var v := ViewWatchlist(rows, guildId, userId, showWatched);
      v.Listed? ==>
        && (!showWatched ==> v.watched.None?)
        && (v.toWatch.Some? ==>
              && |v.toWatch.value.shown| <= MaxUnwatchedShown
              && SortedBy(v.toWatch.value.shown, NewestFirst)
              && forall x :: x in v.toWatch.value.shown ==> x in rows && !x.watched && OwnedBy(guildId, userId)(x))
        && (v.watched.Some? ==>
              && |v.watched.value.shown| <= MaxWatchedShown
              && SortedBy(v.watched.value.shown, NewestFirst)
              && forall x :: x in v.watched.value.shown ==> x in rows && x.watched && OwnedBy(guildId, userId)(x))
  {
    var items := ViewRows(rows, guildId, userId, showWatched);
    if items != [] {
      ViewRowsFacts(rows, guildId, userId, showWatched);
      var unwatched := Filter(items, IsUnwatched);
      var watched := Filter(items, IsWatched);
      FilterIff(items, IsUnwatched);
      FilterIff(items, IsWatched);
      FilterSorted(items, IsUnwatched, NewestFirst);
      FilterSorted(items, IsWatched, NewestFirst);
      SortedPrefix(unwatched, MaxUnwatchedShown);
      SortedPrefix(watched, MaxWatchedShown);
    }
  }

  /** The two fields account for every listed entry: without `show_watched` the unwatched
      field counts them all. */
  lemma ViewCounts(rows: seq<WatchItem>, guildId: int, userId: int, showWatched: bool)
    ensures var v := ViewWatchlist(rows, guildId, userId, showWatched);
      v.Listed? ==>
        && (!showWatched ==> v.toWatch.Some? && v.toWatch.value.count == v.total)
        && (showWatched ==> (if v.toWatch.Some? then v.toWatch.value.count else 0)
                            + (if v.watched.Some? then v.watched.value.count else 0) == v.total)
  {
    var items := ViewRows(rows, guildId, userId, showWatched);
    if items != [] {
      ViewRowsFacts(rows, guildId, userId, showWatched);
      var unwatched := Filter(items, IsUnwatched);
      FilterSplit(items, IsWatched, IsUnwatched);
      if !showWatched {
        FilterIff(items, IsWatched);
        FilterNone(items, IsWatched);
        assert |unwatched| == |items|;
      }
    }
  }

  lemma {:induction false} FilterNone(s: seq<WatchItem>, p: WatchItem -> bool)
    requires forall x :: x in s ==> !p(x)
    ensures Filter(s, p) == []
    decreases |s|
  {
    if s != [] {
      FilterNone(s[..|s| - 1], p);
    }
  }

  lemma SortedPrefix(s: seq<WatchItem>, n: nat)
    requires SortedBy(s, NewestFirst)
    ensures SortedBy(Take(s, n), NewestFirst)
    ensures forall x :: x in Take(s, n) ==> x in s
  {
    var t := Take(s, n);
    assert forall i :: 0 <= i < |t| ==> t[i] == s[i];
  }

  // ---- Row selection by title ----

  /** Rows of the user whose title contains the query (ignoring case), optionally only
      unwatched ones, as ascending row positions. */
  function MatchingRows(rows: seq<WatchItem>, guildId: int, userId: int, query: string, unwatchedOnly: bool): (r: seq<nat>)
    ensures forall k :: 0 <= k < |r| ==> r[k] < |rows|
    ensures forall k :: 0 <= k < |r| ==> RowMatches(rows[r[k]], guildId, userId, query, unwatchedOnly)
    ensures forall i :: 0 <= i < |rows| && RowMatches(rows[i], guildId, userId, query, unwatchedOnly) ==> i in r
    ensures forall a, b :: 0 <= a < b < |r| ==> r[a] < r[b]
    decreases |rows|
  {
    if rows == [] then []
    else
      var prev := MatchingRows(rows[..|rows| - 1], guildId, userId, query, unwatchedOnly);
      if RowMatches(rows[|rows| - 1], guildId, userId, query, unwatchedOnly) then prev + [|rows| - 1] else prev
  }

  predicate RowMatches(e: WatchItem, guildId: int, userId: int, query: string, unwatchedOnly: bool)
  {
    e.guildId == guildId && e.userId == userId && (!unwatchedOnly || !e.watched) && TitleMatches(query, e.title)
  }

  /** `next(i for i in matching if i.tmdb_id == ... and i.media_type == ...)`. */
  function FirstWithKey(rows: seq<WatchItem>, idx: seq<nat>, tmdbId: int, media: Media): (k: nat)
    requires forall j :: 0 <= j < |idx| ==> idx[j] < |rows|
    requires exists j :: 0 <= j < |idx| && rows[idx[j]].tmdbId == tmdbId && rows[idx[j]].media == media
    ensures k in idx && rows[k].tmdbId == tmdbId && rows[k].media == media
    decreases |idx|
  {
    if rows[idx[0]].tmdbId == tmdbId && rows[idx[0]].media == media then idx[0]
    else FirstWithKey(rows, idx[1..], tmdbId, media)
  }

  datatype RemoveOutcome = NoMatches | SelectionTimedOut | Removed(index: nat, item: WatchItem)

  /** `watchlist_remove`: with several matches the user picks one from the menu (None is a
      timeout), and the first match with the picked title id and type is deleted. */
  function RemoveDecision(rows: seq<WatchItem>, guildId: int, userId: int, query: string, selection: Option<nat>): RemoveOutcome
    requires selection.Some? ==> selection.value < |Take(MatchingRows(rows, guildId, userId, query, false), MaxOptions)|
  {
    var matching := MatchingRows(rows, guildId, userId, query, false);
    if matching == [] then NoMatches
    else if |matching| > 1 then
      if selection.None? then SelectionTimedOut
      else
        var picked := rows[matching[selection.value]];
        var k := FirstWithKey(rows, matching, picked.tmdbId, picked.media);
        Removed(k, rows[k])
    else Removed(matching[0], rows[matching[0]])
  }

  /** The deleted row is one of the user's entries whose title contains the query; nothing
      is deleted exactly when nothing matches or the pick timed out. */
  lemma RemoveDeletesAMatch(rows: seq<WatchItem>, guildId: int, userId: int, query: string, selection: Option<nat>)
    requires selection.Some? ==> selection.value < |Take(MatchingRows(rows, guildId, userId, query, false), MaxOptions)|
    ensures var o := RemoveDecision(rows, guildId, userId, query, selection);
      && (o == NoMatches <==> forall i :: 0 <= i < |rows| ==> !RowMatches(rows[i], guildId, userId, query, false))
      && (o.Removed? ==>
            o.index < |rows| && o.item == rows[o.index]
            && o.item.guildId == guildId && o.item.userId == userId && TitleMatches(query, o.item.title))
  {
    var m := MatchingRows(rows, guildId, userId, query, false);
    if m != [] {
      assert RowMatches(rows[m[0]], guildId, userId, query, false);
    }
  }

  datatype MarkOutcome = NoUnwatchedMatch | Marked(index: nat)

  function MarkDecision(rows: seq<WatchItem>, guildId: int, userId: int, query: string): MarkOutcome
  {
    var matching := MatchingRows(rows, guildId, userId, query, true);
    if matching == [] then NoUnwatchedMatch else Marked(matching[0])
  }

  /** `mark_watched` picks the first of the user's unwatched entries whose title contains
      the query, and reports no match exactly when there is none. */
  lemma MarkPicksFirstUnwatched(rows: seq<WatchItem>, guildId: int, userId: int, query: string)
    ensures var o := MarkDecision(rows, guildId, userId, query);
      && (o.NoUnwatchedMatch? <==> forall i :: 0 <= i < |rows| ==> !RowMatches(rows[i], guildId, userId, query, true))
      && (o.Marked? ==>
            && o.index < |rows| && !rows[o.index].watched && RowMatches(rows[o.index], guildId, userId, query, true)
            && forall i :: 0 <= i < o.index ==> !RowMatches(rows[i], guildId, userId, query, true))
  {
    var m := MatchingRows(rows, guildId, userId, query, true);
    if m != [] {
      assert RowMatches(rows[m[0]], guildId, userId, query, true);
      assert forall i :: 0 <= i < m[0] ==> !RowMatches(rows[i], guildId, userId, query, true);
    }
  }

  /** The user's watchlist rows. Primary keys are distinct and below the next one. */
  class WatchlistTable {
    var rows: seq<WatchItem>
    var nextId: int

    ghost predicate Valid()
      reads this
    {
      DistinctRowIds(rows) && forall k :: 0 <= k < |rows| ==> rows[k].id < nextId
    }

    constructor ()
      ensures Valid() && rows == [] && nextId == 1
    {
      rows := [];
      nextId := 1;
    }

    /** `watchlist_add` after the pick: the duplicate check, the limit check, the insert. */
    method Add(guildId: int, userId: int, tmdbId: int, media: Media, title: Option<string>,
               posterPath: Option<string>, now: int, maxItems: int) returns (o: AddOutcome)
      requires Valid()
      modifies this
      ensures Valid()
      ensures o == AddDecision(old(rows), old(nextId), guildId, userId, tmdbId, media, title, posterPath, now, maxItems)
      ensures o.Added? ==> rows == old(rows) + [o.item] && nextId == old(nextId) + 1
      ensures !o.Added? ==> rows == old(rows) && nextId == old(nextId)
    {
      var existing := Filter(rows, SameEntry(guildId, userId, tmdbId, media));
      if |existing| > 1 {
        return AddFailed;
      }
      if |existing| == 1 {
        return AlreadyInWatchlist;
      }
      var count := |Filter(rows, OwnedBy(guildId, userId))|;
      if count >= maxItems {
        return WatchlistFull;
      }
      if title.None? {
        return AddFailed;
      }
      var item := WatchItem(nextId, guildId, userId, tmdbId, media, title.value, posterPath, false, now, None);
      rows := rows + [item];
      nextId := nextId + 1;
      o := Added(item);
    }

    /** `watchlist_remove`: deletes the decided row. */
    method Remove(guildId: int, userId: int, query: string, selection: Option<nat>) returns (o: RemoveOutcome)
      requires Valid()
      requires selection.Some? ==> selection.value < |Take(MatchingRows(rows, guildId, userId, query, false), MaxOptions)|
      modifies this
      ensures Valid() && nextId == old(nextId)
      ensures o == RemoveDecision(old(rows), guildId, userId, query, selection)
      ensures o.Removed? ==> o.index < |old(rows)| && rows == Without(old(rows), o.index)
      ensures !o.Removed? ==> rows == old(rows)
    {
      o := RemoveDecision(rows, guildId, userId, query, selection);
      RemoveDeletesAMatch(rows, guildId, userId, query, selection);
      if o.Removed? {
        var r := Without(rows, o.index);
        forall i, j | 0 <= i < j < |r| ensures r[i].id != r[j].id {
          var i' := if i < o.index then i else i + 1;
          var j' := if j < o.index then j else j + 1;
          assert r[i] == rows[i'] && r[j] == rows[j'];
        }
        forall k | 0 <= k < |r| ensures r[k].id < nextId {
          assert r[k] == rows[if k < o.index then k else k + 1];
        }
        rows := r;
      }
    }

    /** `mark_watched`: the decided row gets `watched` and a `watched_at` time; no other row
        changes. */
    method MarkWatched(guildId: int, userId: int, query: string, now: int) returns (o: MarkOutcome)
      requires Valid()
      modifies this
      ensures Valid() && nextId == old(nextId)
      ensures o == MarkDecision(old(rows), guildId, userId, query)
      ensures o.Marked? ==>
        o.index < |old(rows)|
        && rows == old(rows)[o.index := old(rows)[o.index].(watched := true, watchedAt := Some(now))]
      ensures o.NoUnwatchedMatch? ==> rows == old(rows)
    {
      var matching := MatchingRows(rows, guildId, userId, query, true);
      if matching == [] {
        return NoUnwatchedMatch;
      }
      var k := matching[0];
      rows := rows[k := rows[k].(watched := true, watchedAt := Some(now))];
      o := Marked(k);
    }
  }
}
