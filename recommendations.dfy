/** `cogs/recommendations.py`: the user's preference summary, and the `recommend` command's
    pipeline from fetched result lists to the items shown. TMDB responses are inputs: a
    map from a title id to its similar-titles list, where a missing id is a failed fetch. */
module Recommendations {
  import opened Wrappers
  import opened Store
  import opened Slices

  const HighRatingThreshold: real := 7.0

  /** `_get_user_preferences`' dictionary; the genre list is never filled. */
  datatype Preferences = Preferences(genres: seq<string>, highRated: seq<(int, Media)>,
                                     mediaTypes: seq<Media>, totalItems: nat)

  function HighRated(ratings: seq<Rating>): (r: seq<(int, Media)>)
    ensures |r| <= |ratings|
    decreases |ratings|
  {
    if ratings == [] then []
    else
      var last := ratings[|ratings| - 1];
      HighRated(ratings[..|ratings| - 1]) + (if last.score >= HighRatingThreshold then [(last.tmdbId, last.media)] else [])
  }

  function MediaTypes(items: seq<WatchItem>): (r: seq<Media>)
    ensures |r| == |items|
    ensures forall k :: 0 <= k < |items| ==> r[k] == items[k].media
  {
    seq(|items|, k requires 0 <= k < |items| => items[k].media)
  }

  /** A pair is a high-rated id exactly when some rating with a score of at least 7 has it. */
  lemma {:induction false} HighRatedIff(ratings: seq<Rating>)
    ensures forall p :: p in HighRated(ratings) <==>
      exists i :: 0 <= i < |ratings| && ratings[i].score >= HighRatingThreshold && p == (ratings[i].tmdbId, ratings[i].media)
    decreases |ratings|
  {
    if ratings != [] {
      var init := ratings[..|ratings| - 1];
      HighRatedIff(init);
      forall p | p in HighRated(ratings)
        ensures exists i :: 0 <= i < |ratings| && ratings[i].score >= HighRatingThreshold && p == (ratings[i].tmdbId, ratings[i].media)
      {
        if p in HighRated(init) {
          var i :| 0 <= i < |init| && init[i].score >= HighRatingThreshold && p == (init[i].tmdbId, init[i].media);
          assert ratings[i] == init[i];
        }
      }
      forall i | 0 <= i < |ratings| && ratings[i].score >= HighRatingThreshold
        ensures (ratings[i].tmdbId, ratings[i].media) in HighRated(ratings)
      {
        if i < |init| {
          assert init[i] == ratings[i];
        }
      }
    }
  }

  /** The ids come in rating order: the high-rated list of a longer rating list extends the
      shorter one's. */
  lemma {:induction false} HighRatedInOrder(ratings: seq<Rating>, n: nat)
    requires n <= |ratings|
    ensures HighRated(ratings[..n]) <= HighRated(ratings)
    decreases |ratings| - n
  {
    if n < |ratings| {
      HighRatedInOrder(ratings, n + 1);
      assert ratings[..n + 1][..n] == ratings[..n];
    } else {
      assert ratings[..n] == ratings;
    }
  }

  /** `_get_user_preferences` over the user's watchlist rows and ratings. */
  method GetUserPreferences(watchlist: seq<WatchItem>, ratings: seq<Rating>) returns (p: Preferences)
    ensures p.genres == []
    ensures p.highRated == HighRated(ratings)
    ensures p.mediaTypes == MediaTypes(watchlist)
    ensures p.totalItems == |watchlist|
  {
    var highRated: seq<(int, Media)> := [];
    var i := 0;
    while i < |ratings|
      invariant 0 <= i <= |ratings|
      invariant highRated == HighRated(ratings[..i])
    {
      assert ratings[..i + 1][..i] == ratings[..i];
      if ratings[i].score >= 7.0 {
        highRated := highRated + [(ratings[i].tmdbId, ratings[i].media)];
      }
      i := i + 1;
    }
    assert ratings[..i] == ratings;
    var mediaTypes: seq<Media> := [];
    var j := 0;
    while j < |watchlist|
      invariant 0 <= j <= |watchlist|
      invariant mediaTypes == MediaTypes(watchlist[..j])
    {
      mediaTypes := mediaTypes + [watchlist[j].media];
      j := j + 1;
    }
    assert watchlist[..j] == watchlist;
    p := Preferences([], highRated, mediaTypes, |watchlist|);
  }

  // ---- Recommendation items and their dedup ----

  /** A TMDB result as far as `recommend` looks at it; `id` and `media_type` may be absent. */
  datatype Item = Item(id: Option<int>, mediaType: Option<string>, title: string)

  function Ids(items: seq<Item>): set<Option<int>>
    decreases |items|
  {
    if items == [] then {} else Ids(items[..|items| - 1]) + {items[|items| - 1].id}
  }

  /** An id is seen exactly when some item carries it. */
  lemma {:induction false} IdsIff(items: seq<Item>)
    ensures forall x :: x in Ids(items) <==> exists k :: 0 <= k < |items| && items[k].id == x
    decreases |items|
  {
    if items != [] {
      var init := items[..|items| - 1];
      IdsIff(init);
      forall x | x in Ids(items) ensures exists k :: 0 <= k < |items| && items[k].id == x {
        if x in Ids(init) {
          var k :| 0 <= k < |init| && init[k].id == x;
          assert items[k] == init[k];
        }
      }
      forall k | 0 <= k < |items| ensures items[k].id in Ids(items) {
        if k < |init| {
          assert init[k] == items[k];
        }
      }
    }
  }

  /** The `seen`-set loop: an item whose id (absent ids included) was already kept is
      dropped. */
  function DedupById(items: seq<Item>): (r: seq<Item>)
    ensures |r| <= |items|
    decreases |items|
  {
    if items == [] then []
    else
      var prev := DedupById(items[..|items| - 1]);
      var last := items[|items| - 1];
      if last.id in Ids(prev) then prev else prev + [last]
  }

  /** Item i is the first with its id. */
  ghost predicate IsFirst(items: seq<Item>, i: nat)
    requires i < |items|
  {
    forall j :: 0 <= j < i ==> items[j].id != items[i].id
  }

  /** Reference definition: the first occurrences, in input order. */
  ghost function FirstOccurrences(items: seq<Item>, n: nat): seq<Item>
    requires n <= |items|
  {
    if n == 0 then []
    else FirstOccurrences(items, n - 1) + (if IsFirst(items, n - 1) then [items[n - 1]] else [])
  }

  lemma IdsSnoc(items: seq<Item>, x: Item)
    ensures Ids(items + [x]) == Ids(items) + {x.id}
  {
    assert (items + [x])[..|items|] == items;
  }

  /** The dedup loses no id. */
  lemma {:induction false} DedupKeepsIds(items: seq<Item>)
    ensures Ids(DedupById(items)) == Ids(items)
    decreases |items|
  {
    if items != [] {
      var init := items[..|items| - 1];
      var last := items[|items| - 1];
      DedupKeepsIds(init);
      assert items == init + [last];
      IdsSnoc(init, last);
      IdsSnoc(DedupById(init), last);
    }
  }

  /** Item n - 1 is the first with its id exactly when no earlier item carries that id. */
  lemma IsFirstIff(items: seq<Item>, n: nat)
    requires 0 < n <= |items|
    ensures IsFirst(items, n - 1) <==> items[n - 1].id !in Ids(items[..n - 1])
  {
    var init := items[..n - 1];
    IdsIff(init);
    if items[n - 1].id in Ids(init) {
      var k :| 0 <= k < |init| && init[k].id == items[n - 1].id;
      assert items[k].id == items[n - 1].id;
    } else {
      forall j | 0 <= j < n - 1 ensures items[j].id != items[n - 1].id {
        assert init[j] == items[j];
      }
    }
  }

  /** The dedup keeps exactly the first item of each id, in order. */
  lemma {:induction false} DedupIsFirstOccurrences(items: seq<Item>, n: nat)
    requires n <= |items|
    ensures DedupById(items[..n]) == FirstOccurrences(items, n)
    decreases n
  {
    if n > 0 {
      assert items[..n][..n - 1] == items[..n - 1];
      assert items[..n][n - 1] == items[n - 1];
      DedupIsFirstOccurrences(items, n - 1);
      DedupKeepsIds(items[..n - 1]);
      IsFirstIff(items, n);
    }
  }

  /** No id is kept twice. */
  lemma {:induction false} DedupDistinct(items: seq<Item>)
    ensures forall i, j :: 0 <= i < j < |DedupById(items)| ==> DedupById(items)[i].id != DedupById(items)[j].id
    decreases |items|
  {
    if items != [] {
      var prev := DedupById(items[..|items| - 1]);
      DedupDistinct(items[..|items| - 1]);
      var last := items[|items| - 1];
      if last.id !in Ids(prev) {
        var r := prev + [last];
        IdsIff(prev);
        forall i, j | 0 <= i < j < |r| ensures r[i].id != r[j].id {
          if j < |prev| {
            assert r[i] == prev[i] && r[j] == prev[j];
          } else {
            assert r[i] == prev[i];
          }
        }
      }
    }
  }

  /** The dedup loop of `recommend`. */
  method Dedup(items: seq<Item>) returns (unique: seq<Item>)
    ensures unique == DedupById(items)
  {
    var seen: set<Option<int>> := {};
    unique := [];
    var i := 0;
    while i < |items|
      invariant 0 <= i <= |items|
      invariant unique == DedupById(items[..i])
      invariant seen == Ids(unique)
    {
      assert items[..i + 1][..i] == items[..i];
      assert items[..i + 1][i] == items[i];
      var itemId := items[i].id;
      if itemId !in seen {
        seen := seen + {itemId};
        IdsSnoc(unique, items[i]);
        unique := unique + [items[i]];
      }
      i := i + 1;
    }
    assert items[..i] == items;
  }

  // ---- The recommend command ----

  /** The `based_on` choice. */
  datatype BasedOn = FromWatchlist | Trending | Popular | TopRated

  /** The result lists the command may fetch; `similarMovies`/`similarTv` map a title id to
      its similar titles, and a missing id is a fetch that raised. */
  datatype Fetched = Fetched(
    similarMovies: map<int, seq<Item>>, similarTv: map<int, seq<Item>>,
    trending: seq<Item>, popularMovies: seq<Item>, popularTv: seq<Item>,
    topRatedMovies: seq<Item>, topRatedTv: seq<Item>)

  datatype Outcome = NotEnoughData(totalItems: nat) | NoRecommendations | Shown(items: seq<Item>)

  const MaxSources: nat := 5
  const PerSource: nat := 3
  const MaxShown: nat := 10

  /** `recommendations.extend(similar['results'][:3])` for each consulted id. */
  function SimilarOf(sources: seq<(int, Media)>, f: Fetched): (r: seq<Item>)
    ensures |r| <= PerSource * |sources|
    decreases |sources|
  {
    if sources == [] then []
    else
      var (id, media) := sources[|sources| - 1];
      var table := if media == Movie then f.similarMovies else f.similarTv;
      SimilarOf(sources[..|sources| - 1], f) + (if id in table then Take(table[id], PerSource) else [])
  }

  /** The loop over the first five high-rated ids; a failed fetch is skipped. */
  method CollectSimilar(highRated: seq<(int, Media)>, f: Fetched) returns (recs: seq<Item>)
    ensures recs == SimilarOf(Take(highRated, MaxSources), f)
    ensures |recs| <= PerSource * MaxSources
  {
    var sources := Take(highRated, MaxSources);
    recs := [];
    var i := 0;
    while i < |sources|
      invariant 0 <= i <= |sources|
      invariant recs == SimilarOf(sources[..i], f)
    {
      assert sources[..i + 1][..i] == sources[..i];
      var (tmdbId, itemType) := sources[i];
      if itemType == Movie {
        if tmdbId in f.similarMovies {
          recs := recs + Take(f.similarMovies[tmdbId], PerSource);
        }
      } else {
        if tmdbId in f.similarTv {
          recs := recs + Take(f.similarTv[tmdbId], PerSource);
        }
      }
      i := i + 1;
    }
    assert sources[..i] == sources;
  }

  /** `r.get('media_type', media_type) == media_type`: a missing type counts as the
      requested one. */
  predicate Keeps(requested: string, item: Item)
  {
    item.mediaType.GetOr(requested) == requested
  }

  function FilterMedia(requested: string, items: seq<Item>): (r: seq<Item>)
    ensures |r| <= |items|
    decreases |items|
  {
    if items == [] then []
    else
      var last := items[|items| - 1];
      FilterMedia(requested, items[..|items| - 1]) + (if Keeps(requested, last) then [last] else [])
  }

  /** The filter keeps exactly the items with the requested or no media type. */
  lemma {:induction false} FilterMediaIff(requested: string, items: seq<Item>)
    ensures forall x :: x in FilterMedia(requested, items) <==>
      x in items && (x.mediaType == None || x.mediaType == Some(requested))
    decreases |items|
  {
    if items != [] {
      var init := items[..|items| - 1];
      FilterMediaIff(requested, init);
      assert items == init + [items[|items| - 1]];
    }
  }

  function Both(want: string, media: string): bool { want == "both" || want == media }

  /** The list gathered before the media-type filter. */
  function Gathered(basedOn: BasedOn, mediaType: string, prefs: Preferences, f: Fetched): seq<Item>
  {
    match basedOn
    case FromWatchlist => Take(DedupById(SimilarOf(Take(prefs.highRated, MaxSources), f)), MaxShown)
    case Trending => Take(f.trending, MaxShown)
    case Popular =>
      (if Both(mediaType, "movie") then Take(f.popularMovies, 5) else [])
      + (if Both(mediaType, "tv") then Take(f.popularTv, 5) else [])
    case TopRated =>
      (if Both(mediaType, "movie") then Take(f.topRatedMovies, 5) else [])
      + (if Both(mediaType, "tv") then Take(f.topRatedTv, 5) else [])
  }

  /** What `recommend` shows, given the minimum-items setting. */
  function Recommend(basedOn: BasedOn, mediaType: string, prefs: Preferences, f: Fetched, minItems: int): Outcome
  {
    if basedOn == FromWatchlist && prefs.totalItems < minItems then NotEnoughData(prefs.totalItems)
    else
      var gathered := Gathered(basedOn, mediaType, prefs, f);
      var filtered := if mediaType != "both" then FilterMedia(mediaType, gathered) else gathered;
      if filtered == [] then NoRecommendations else Shown(Take(filtered, MaxShown))
  }

  ghost predicate DistinctItemIds(items: seq<Item>)
  {
    forall i, j :: 0 <= i < j < |items| ==> items[i].id != items[j].id
  }

  /** A watchlist smaller than the setting stops before any fetch, whatever was fetched. */
  lemma RecommendGate(basedOn: BasedOn, mediaType: string, prefs: Preferences, f: Fetched, minItems: int)
    ensures Recommend(basedOn, mediaType, prefs, f, minItems).NotEnoughData? <==>
      basedOn == FromWatchlist && prefs.totalItems < minItems
  {
  }

  /** At most 10 items are shown, and with a specific type requested each has that type or
      none. */
  lemma RecommendShowsFiltered(basedOn: BasedOn, mediaType: string, prefs: Preferences, f: Fetched, minItems: int)
    requires Recommend(basedOn, mediaType, prefs, f, minItems).Shown?
    ensures var shown := Recommend(basedOn, mediaType, prefs, f, minItems).items;
      && 0 < |shown| <= MaxShown
      && (mediaType != "both" ==> forall x :: x in shown ==> x.mediaType == None || x.mediaType == Some(mediaType))
  {
    var gathered := Gathered(basedOn, mediaType, prefs, f);
    if mediaType != "both" {
      FilterMediaIff(mediaType, gathered);
    }
  }

  /** From the watchlist path no id is shown twice, and every item shown is one of the
      first 3 similar titles of one of the first 5 high-rated titles. */
  lemma WatchlistRecommendDistinct(mediaType: string, prefs: Preferences, f: Fetched, minItems: int)
    requires Recommend(FromWatchlist, mediaType, prefs, f, minItems).Shown?
    ensures var shown := Recommend(FromWatchlist, mediaType, prefs, f, minItems).items;
      && DistinctItemIds(shown)
      && forall x :: x in shown ==> x in SimilarOf(Take(prefs.highRated, MaxSources), f)
  {
    var sim := SimilarOf(Take(prefs.highRated, MaxSources), f);
    DedupDistinct(sim);
    DedupFromInput(sim);
    var gathered := Take(DedupById(sim), MaxShown);
    assert DistinctItemIds(gathered);
    ShownFromGathered(mediaType, gathered);
  }

  /** The dedup only keeps input items. */
  lemma {:induction false} DedupFromInput(items: seq<Item>)
    ensures forall x :: x in DedupById(items) ==> x in items
    decreases |items|
  {
    if items != [] {
      var init := items[..|items| - 1];
      DedupFromInput(init);
      assert items == init + [items[|items| - 1]];
    }
  }

  /** The media filter and the cap of 10 keep distinct ids distinct and only keep gathered
      items. */
  lemma ShownFromGathered(mediaType: string, gathered: seq<Item>)
    requires DistinctItemIds(gathered)
    ensures var filtered := if mediaType != "both" then FilterMedia(mediaType, gathered) else gathered;
      && DistinctItemIds(Take(filtered, MaxShown))
      && forall x :: x in Take(filtered, MaxShown) ==> x in gathered
  {
    if mediaType != "both" {
      FilterMediaIff(mediaType, gathered);
      FilterKeepsDistinct(mediaType, gathered);
    }
  }

  /** Filtering drops items but never repeats an id. */
  lemma {:induction false} FilterKeepsDistinct(requested: string, items: seq<Item>)
    requires DistinctItemIds(items)
    ensures DistinctItemIds(FilterMedia(requested, items))
    decreases |items|
  {
    if items != [] {
      var init := items[..|items| - 1];
      var last := items[|items| - 1];
      var prev := FilterMedia(requested, init);
      FilterKeepsDistinct(requested, init);
      FilterMediaIff(requested, init);
      var r := FilterMedia(requested, items);
      forall i, j | 0 <= i < j < |r| ensures r[i].id != r[j].id {
        if j < |prev| {
          assert r[i] == prev[i] && r[j] == prev[j];
        } else {
          assert r[j] == last && r[i] == prev[i];
          assert prev[i] in init;
          var a :| 0 <= a < |init| && init[a] == prev[i];
          assert items[a] == init[a];
        }
      }
    }
  }
}
