/** `cogs/subscriptions.py`: subscribing a guild to a picked search result, unsubscribing
    by title with a confirmation step, and the grouped listing. The table is the one the
    poller walks (Store.SubscriptionTable). */
module Subscriptions {
  import opened Wrappers
  import opened Slices
  import opened Store
  import opened Views
  import opened Listing

  // ---- subscribe ----

  /** `any(s.tmdb_id == tmdb_id and s.media_type == media_type for s in existing)`. */
  predicate HasSubscription(rows: seq<Subscription>, guildId: int, tmdbId: int, media: Media)
  {
    exists s :: s in SubsOf(rows, guildId) && s.tmdbId == tmdbId && s.media == media
  }

  /** At most one subscription per guild, title id and media type. */
  ghost predicate UniqueKeys(rows: seq<Subscription>)
  {
    forall i, j :: 0 <= i < j < |rows| && rows[i].guildId == rows[j].guildId ==>
      rows[i].tmdbId != rows[j].tmdbId || rows[i].media != rows[j].media
  }

  datatype SubscribeOutcome = NoResults | SelectionTimedOut | AlreadySubscribed | SubscribeFailed | Subscribed(row: Subscription)

  /** `subscribe` after the search: `selection` is the picked candidate, None a timeout. A
      title that is None fails the NOT NULL column. */
  function SubscribeDecision(rows: seq<Subscription>, nextId: int, guildId: int, results: seq<SearchResult>,
                             selection: Option<nat>, posterPath: Option<string>, now: int): SubscribeOutcome
    requires selection.Some? ==> selection.value < |Candidates(results)|
  {
    var candidates := Candidates(results);
    if candidates == [] then NoResults
    else if selection.None? then SelectionTimedOut
    else
      var picked := candidates[selection.value];
      var media := MediaOf(picked.mediaType.GetOr(""));
      if HasSubscription(rows, guildId, picked.id, media) then AlreadySubscribed
      else match SelectedTitle(picked)
        case None => SubscribeFailed
        case Some(title) => Subscribed(Subscription(nextId, guildId, picked.id, media, title, posterPath, now, None, true, true))
  }

  /** A new subscription is for a movie or a show of this guild, with both notifications on
      and never checked, and the table keeps one row per guild, title id and media type. */
  lemma SubscribeKeepsKeysUnique(rows: seq<Subscription>, nextId: int, guildId: int, results: seq<SearchResult>,
                                 selection: Option<nat>, posterPath: Option<string>, now: int)
    requires selection.Some? ==> selection.value < |Candidates(results)|
    requires UniqueKeys(rows)
    requires SubscribeDecision(rows, nextId, guildId, results, selection, posterPath, now).Subscribed?
    ensures var s := SubscribeDecision(rows, nextId, guildId, results, selection, posterPath, now).row;
      && (s.media == Movie || s.media == Tv) && s.guildId == guildId
      && s.notifyOnRelease && s.notifyOnUpdate && s.lastChecked.None?
      && UniqueKeys(rows + [s])
  {
    var s := SubscribeDecision(rows, nextId, guildId, results, selection, posterPath, now).row;
    SubsOfIff(rows, guildId);
    CandidatesAreMedia(results);
    var picked := Candidates(results)[selection.value];
    assert picked in Candidates(results);
    var r := rows + [s];
    forall i, j | 0 <= i < j < |r| && r[i].guildId == r[j].guildId
      ensures r[i].tmdbId != r[j].tmdbId || r[i].media != r[j].media
    {
      if j == |rows| {
        assert r[i] == rows[i] && r[i] in SubsOf(rows, guildId);
      } else {
        assert r[i] == rows[i] && r[j] == rows[j];
      }
    }
  }

  /** `subscribe`: decides, then inserts the row when the decision is to subscribe. */
  method Subscribe(table: SubscriptionTable, guildId: int, results: seq<SearchResult>, selection: Option<nat>,
                   posterPath: Option<string>, now: int) returns (o: SubscribeOutcome)
    requires table.Valid()
    requires selection.Some? ==> selection.value < |Candidates(results)|
    modifies table
    ensures table.Valid()
    ensures o == SubscribeDecision(old(table.rows), old(table.nextId), guildId, results, selection, posterPath, now)
    ensures o.Subscribed? ==> table.rows == old(table.rows) + [o.row]
    ensures !o.Subscribed? ==> table.rows == old(table.rows) && table.nextId == old(table.nextId)
  {
    o := SubscribeDecision(table.rows, table.nextId, guildId, results, selection, posterPath, now);
    if o.Subscribed? {
      var s := table.Add(guildId, o.row.tmdbId, o.row.media, o.row.title, posterPath, now);
    }
  }

  // ---- unsubscribe ----

  function TitleMatcher(query: string): Subscription -> bool
  {
    (s: Subscription) => TitleMatches(query, s.title)
  }

  /** The guild's subscriptions whose title contains the query, ignoring case. */
  function UnsubscribeMatches(rows: seq<Subscription>, guildId: int, query: string): seq<Subscription>
  {
    Filter(SubsOf(rows, guildId), TitleMatcher(query))
  }

  datatype UnsubscribeOutcome =
    | NoSubscriptions | NoMatches | UnsubscribeTimedOut | Cancelled
    | Unsubscribed(target: Subscription) | RemoveFailed | UnsubscribeError

  /** The subscription `unsubscribe` asks about, or how it stops before asking. */
  function UnsubscribeTarget(rows: seq<Subscription>, guildId: int, query: string, selection: Option<nat>)
    : Result<Subscription, UnsubscribeOutcome>
    requires selection.Some? ==> selection.value < |Take(UnsubscribeMatches(rows, guildId, query), MaxOptions)|
  {
    var matching := UnsubscribeMatches(rows, guildId, query);
    if SubsOf(rows, guildId) == [] then Err(NoSubscriptions)
    else if matching == [] then Err(NoMatches)
    else if |matching| > 1 then
      if selection.None? then Err(UnsubscribeTimedOut) else Ok(matching[selection.value])
    else Ok(matching[0])
  }

  /** The whole command: only a confirmed pick reaches `remove_subscription`, which deletes
      the one row with the pick's key, reports False with none and raises with several. */
  function UnsubscribeDecision(rows: seq<Subscription>, guildId: int, query: string, selection: Option<nat>,
                               confirmed: Option<bool>): UnsubscribeOutcome
    requires selection.Some? ==> selection.value < |Take(UnsubscribeMatches(rows, guildId, query), MaxOptions)|
  {
    match UnsubscribeTarget(rows, guildId, query, selection)
    case Err(stop) => stop
    case Ok(t) =>
      if confirmed != Some(true) then Cancelled
      else
        var hits := |KeyMatches(rows, guildId, t.tmdbId, t.media)|;
        if hits == 1 then Unsubscribed(t) else if hits == 0 then RemoveFailed else UnsubscribeError
  }

  /** The subscription asked about is one of the guild's subscriptions whose title contains
      the query. */
  lemma TargetMatches(rows: seq<Subscription>, guildId: int, query: string, selection: Option<nat>)
    requires selection.Some? ==> selection.value < |Take(UnsubscribeMatches(rows, guildId, query), MaxOptions)|
    ensures var t := UnsubscribeTarget(rows, guildId, query, selection);
      t.Ok? ==> t.value in rows && t.value.guildId == guildId && TitleMatches(query, t.value.title)
  {
    var matching := UnsubscribeMatches(rows, guildId, query);
    var t := UnsubscribeTarget(rows, guildId, query, selection);
    if t.Ok? {
      assert t.value in matching;
      SubsOfIff(rows, guildId);
      FilterIff(SubsOf(rows, guildId), TitleMatcher(query));
      assert TitleMatcher(query)(t.value);
    }
  }

  /** A subscription is removed only after the confirmation said yes, and only one of the
      guild's subscriptions whose title contains the query. */
  lemma UnsubscribeNeedsConfirmation(rows: seq<Subscription>, guildId: int, query: string, selection: Option<nat>,
                                     confirmed: Option<bool>)
    requires selection.Some? ==> selection.value < |Take(UnsubscribeMatches(rows, guildId, query), MaxOptions)|
    requires UnsubscribeDecision(rows, guildId, query, selection, confirmed).Unsubscribed?
    ensures var t := UnsubscribeDecision(rows, guildId, query, selection, confirmed).target;
      && confirmed == Some(true) && t in rows && t.guildId == guildId && TitleMatches(query, t.title)
      && |KeyMatches(rows, guildId, t.tmdbId, t.media)| == 1
  {
    TargetMatches(rows, guildId, query, selection);
  }

  /** With subscriptions but none whose title contains the query, nothing is asked or
      removed, and the other way round. */
  lemma UnsubscribeNoMatchIff(rows: seq<Subscription>, guildId: int, query: string, selection: Option<nat>,
                              confirmed: Option<bool>)
    requires selection.Some? ==> selection.value < |Take(UnsubscribeMatches(rows, guildId, query), MaxOptions)|
    ensures UnsubscribeDecision(rows, guildId, query, selection, confirmed) == NoMatches <==>
      SubsOf(rows, guildId) != [] && forall s :: s in SubsOf(rows, guildId) ==> !TitleMatches(query, s.title)
  {
    var subs := SubsOf(rows, guildId);
    var matching := UnsubscribeMatches(rows, guildId, query);
    FilterIff(subs, TitleMatcher(query));
    if matching != [] {
      assert matching[0] in matching;
    }
  }

  /** `unsubscribe` with the user's pick and confirmation as inputs. */
  method Unsubscribe(table: SubscriptionTable, guildId: int, query: string, selection: Option<nat>,
                     confirmed: Option<bool>) returns (o: UnsubscribeOutcome)
    requires table.Valid()
    requires selection.Some? ==> selection.value < |Take(UnsubscribeMatches(table.rows, guildId, query), MaxOptions)|
    modifies table
    ensures table.Valid() && table.nextId == old(table.nextId)
    ensures o == UnsubscribeDecision(old(table.rows), guildId, query, selection, confirmed)
    ensures o.Unsubscribed? ==>
      table.rows == Without(old(table.rows), KeyMatches(old(table.rows), guildId, o.target.tmdbId, o.target.media)[0])
    ensures !o.Unsubscribed? ==> table.rows == old(table.rows)
  {
    var target := UnsubscribeTarget(table.rows, guildId, query, selection);
    if target.Err? {
      return target.error;
    }
    if confirmed != Some(true) {
      return Cancelled;
    }
    var t := target.value;
    var r := table.Remove(guildId, t.tmdbId, t.media);
    if r == Ok(true) {
      o := Unsubscribed(t);
    } else if r == Ok(false) {
      o := RemoveFailed;
    } else {
      o := UnsubscribeError;
    }
  }

  // ---- subscriptions (listing) ----

  const MaxListed: nat := 10

  function IsMovie(s: Subscription): bool { s.media == Movie }
  function IsTv(s: Subscription): bool { s.media == Tv }

  datatype SubscriptionList =
    | NothingSubscribed
    | Grouped(total: nat, movies: Option<Section<Subscription>>, shows: Option<Section<Subscription>>)

  function ListSubscriptions(rows: seq<Subscription>, guildId: int): SubscriptionList
  {
    var subs := SubsOf(rows, guildId);
    if subs == [] then NothingSubscribed
    else
      var movies := Filter(subs, IsMovie);
      var shows := Filter(subs, IsTv);
      Grouped(|subs|,
              if movies == [] then None else Some(Capped(movies, MaxListed)),
              if shows == [] then None else Some(Capped(shows, MaxListed)))
  }

  /** The listing splits the guild's subscriptions into movies and shows, each field shows
      at most 10 of its group, and other media types are counted in the total only. */
  lemma ListingPartition(rows: seq<Subscription>, guildId: int)
    ensures var l := ListSubscriptions(rows, guildId);
      && (l.NothingSubscribed? <==> forall s :: s in rows ==> s.guildId != guildId)
      && (l.Grouped? ==>
            && (l.movies.Some? ==>
                  |l.movies.value.shown| <= MaxListed
                  && forall s :: s in l.movies.value.shown ==> s in rows && s.guildId == guildId && s.media == Movie)
            && (l.shows.Some? ==>
                  |l.shows.value.shown| <= MaxListed
                  && forall s :: s in l.shows.value.shown ==> s in rows && s.guildId == guildId && s.media == Tv)
            && (if l.movies.Some? then l.movies.value.count else 0)
               + (if l.shows.Some? then l.shows.value.count else 0) <= l.total)
  {
    var subs := SubsOf(rows, guildId);
    SubsOfIff(rows, guildId);
    if subs != [] {
      var movies := Filter(subs, IsMovie);
      var shows := Filter(subs, IsTv);
      FilterIff(subs, IsMovie);
      FilterIff(subs, IsTv);
      FilterSplit(subs, IsMovie, (s: Subscription) => !IsMovie(s));
      FilterSubset(subs, IsTv, (s: Subscription) => !IsMovie(s));
      assert forall s :: s in Take(movies, MaxListed) ==> s in movies;
      assert forall s :: s in Take(shows, MaxListed) ==> s in shows;
    } else {
      assert forall s :: s in rows ==> s.guildId != guildId;
    }
  }

  /** A stricter condition keeps no more elements. */
  lemma {:induction false} FilterSubset(s: seq<Subscription>, p: Subscription -> bool, q: Subscription -> bool)
    requires forall x :: p(x) ==> q(x)
    ensures |Filter(s, p)| <= |Filter(s, q)|
    decreases |s|
  {
    if s != [] {
      FilterSubset(s[..|s| - 1], p, q);
    }
  }
}
