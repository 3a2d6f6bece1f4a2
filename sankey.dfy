/** The Sankey charts' data preparation (cogs/sankey.py): rating bands and the aggregated
    flow map, the watchlist status flows, and the genre flows. Flow values are counts; the
    source sums whole 1.0 floats, which are exact at these sizes. */
module Sankey {
  import opened Wrappers
  import opened Store
  import opened Slices

  datatype Flow = Flow(source: nat, target: nat, value: nat)

  const ErrorMessage: string := "\U{274C} Error creating visualization."

  // ---- Aggregation of (source, target) pairs in first-seen order ----

  /** `flow_map[(s, t)] += 1` on an insertion-ordered dict. */
  function Bump(flows: seq<Flow>, s: nat, t: nat): seq<Flow>
    decreases |flows|
  {
    if flows == [] then [Flow(s, t, 1)]
    else if flows[0].source == s && flows[0].target == t then [flows[0].(value := flows[0].value + 1)] + flows[1..]
    else [flows[0]] + Bump(flows[1..], s, t)
  }

  /** The flow map after adding every pair in order. */
  function Tally(pairs: seq<(nat, nat)>): seq<Flow>
    decreases |pairs|
  {
    if pairs == [] then []
    else Bump(Tally(pairs[..|pairs| - 1]), pairs[|pairs| - 1].0, pairs[|pairs| - 1].1)
  }

  ghost predicate DistinctPairs(flows: seq<Flow>)
  {
    forall i, j :: 0 <= i < j < |flows| ==>
      flows[i].source != flows[j].source || flows[i].target != flows[j].target
  }

  function TotalValue(flows: seq<Flow>): nat
    decreases |flows|
  {
    if flows == [] then 0 else flows[0].value + TotalValue(flows[1..])
  }

  /** The value recorded for a pair, 0 when absent. */
  function ValueOf(flows: seq<Flow>, s: nat, t: nat): nat
    decreases |flows|
  {
    if flows == [] then 0
    else if flows[0].source == s && flows[0].target == t then flows[0].value
    else ValueOf(flows[1..], s, t)
  }

  function CountPair(pairs: seq<(nat, nat)>, s: nat, t: nat): nat
    decreases |pairs|
  {
    if pairs == [] then 0
    else CountPair(pairs[..|pairs| - 1], s, t) + (if pairs[|pairs| - 1] == (s, t) then 1 else 0)
  }

  /** Whether some flow already links `s` to `t`. */
  ghost predicate HasPair(flows: seq<Flow>, s: nat, t: nat)
  {
    exists m :: 0 <= m < |flows| && flows[m].source == s && flows[m].target == t
  }

  /** Adding a pair adds exactly one to the total. */
  lemma {:induction false} BumpTotal(flows: seq<Flow>, s: nat, t: nat)
    ensures TotalValue(Bump(flows, s, t)) == TotalValue(flows) + 1
    decreases |flows|
  {
    if flows != [] && !(flows[0].source == s && flows[0].target == t) {
      BumpTotal(flows[1..], s, t);
      assert Bump(flows, s, t)[1..] == Bump(flows[1..], s, t);
    } else if flows != [] {
      assert Bump(flows, s, t)[1..] == flows[1..];
    }
  }

  /** Adding a pair adds one to that pair's value and leaves every other pair's alone. */
  lemma {:induction false} BumpValue(flows: seq<Flow>, s: nat, t: nat, s': nat, t': nat)
    ensures ValueOf(Bump(flows, s, t), s', t') == ValueOf(flows, s', t') + (if (s', t') == (s, t) then 1 else 0)
    decreases |flows|
  {
    if flows != [] && !(flows[0].source == s && flows[0].target == t) {
      BumpValue(flows[1..], s, t, s', t');
      assert Bump(flows, s, t)[1..] == Bump(flows[1..], s, t);
    } else if flows != [] {
      assert Bump(flows, s, t)[1..] == flows[1..];
    }
  }

  /** Every flow after adding a pair is that pair or one that was there before. */
  lemma {:induction false} BumpOrigin(flows: seq<Flow>, s: nat, t: nat)
    ensures forall k :: 0 <= k < |Bump(flows, s, t)| ==>
      (Bump(flows, s, t)[k].source == s && Bump(flows, s, t)[k].target == t) ||
      HasPair(flows, Bump(flows, s, t)[k].source, Bump(flows, s, t)[k].target)
    decreases |flows|
  {
    var b := Bump(flows, s, t);
    if flows == [] {
    } else if flows[0].source == s && flows[0].target == t {
      forall k | 0 <= k < |b| && !(b[k].source == s && b[k].target == t)
        ensures HasPair(flows, b[k].source, b[k].target)
      {
        assert b[k] == flows[k];
      }
    } else {
      var tail := flows[1..];
      var bt := Bump(tail, s, t);
      BumpOrigin(tail, s, t);
      assert b == [flows[0]] + bt;
      forall k | 0 <= k < |b| && !(b[k].source == s && b[k].target == t)
        ensures HasPair(flows, b[k].source, b[k].target)
      {
        if k == 0 {
          assert flows[0].source == b[k].source && flows[0].target == b[k].target;
        } else {
          assert b[k] == bt[k - 1];
          var m :| 0 <= m < |tail| && tail[m].source == bt[k - 1].source && tail[m].target == bt[k - 1].target;
          assert flows[m + 1] == tail[m];
        }
      }
    }
  }

  /** Adding a pair keeps each (source, target) pair in the flow map once. */
  lemma {:induction false} BumpDistinct(flows: seq<Flow>, s: nat, t: nat)
    requires DistinctPairs(flows)
    ensures DistinctPairs(Bump(flows, s, t))
    decreases |flows|
  {
    if flows != [] {
      var tail := flows[1..];
      var b := Bump(flows, s, t);
      if flows[0].source == s && flows[0].target == t {
        forall i, j | 0 <= i < j < |b|
          ensures b[i].source != b[j].source || b[i].target != b[j].target
        {
          assert b[j] == flows[j];
          if i > 0 {
            assert b[i] == flows[i];
          }
        }
      } else {
        assert DistinctPairs(tail) by {
          forall i, j | 0 <= i < j < |tail|
            ensures tail[i].source != tail[j].source || tail[i].target != tail[j].target
          {
            assert tail[i] == flows[i + 1] && tail[j] == flows[j + 1];
          }
        }
        BumpDistinct(tail, s, t);
        BumpOrigin(tail, s, t);
        var bt := Bump(tail, s, t);
        assert b == [flows[0]] + bt;
        forall i, j | 0 <= i < j < |b|
          ensures b[i].source != b[j].source || b[i].target != b[j].target
        {
          if i == 0 {
            var k := j - 1;
            assert b[j] == bt[k];
            if !(bt[k].source == s && bt[k].target == t) {
              var m :| 0 <= m < |tail| && tail[m].source == bt[k].source && tail[m].target == bt[k].target;
              assert flows[m + 1] == tail[m];
            }
          } else {
            assert b[i] == bt[i - 1] && b[j] == bt[j - 1];
          }
        }
      }
    }
  }

  /** The aggregated flow map has each (source, target) pair once, its value for a pair is
      the number of times the pair occurred, and the values add up to the number of pairs. */
  lemma {:induction false} TallyProperties(pairs: seq<(nat, nat)>)
    ensures DistinctPairs(Tally(pairs))
    ensures TotalValue(Tally(pairs)) == |pairs|
    ensures forall s, t :: ValueOf(Tally(pairs), s, t) == CountPair(pairs, s, t)
    decreases |pairs|
  {
    if pairs != [] {
      var init := pairs[..|pairs| - 1];
      TallyProperties(init);
      var (s, t) := pairs[|pairs| - 1];
      BumpDistinct(Tally(init), s, t);
      BumpTotal(Tally(init), s, t);
      forall s': nat, t': nat
        ensures ValueOf(Tally(pairs), s', t') == CountPair(pairs, s', t')
      {
        BumpValue(Tally(init), s, t, s', t');
      }
    }
  }

  // ---- sankey_ratings ----

  /** The rating band: 0 Excellent (9 and up), 1 Great (7 and up), 2 Good (5 and up),
      3 Poor. */
  function RatingCategory(score: real): (c: nat)
    ensures c < 4
    ensures c == 0 <==> score >= 9.0
    ensures c == 1 <==> 7.0 <= score < 9.0
    ensures c == 2 <==> 5.0 <= score < 7.0
    ensures c == 3 <==> score < 5.0
  {
    if score >= 9.0 then 0 else if score >= 7.0 then 1 else if score >= 5.0 then 2 else 3
  }

  /** The target node: 4 for movies, 5 for anything else. */
  function MediaNode(m: Media): nat
  {
    if m == Movie then 4 else 5
  }

  function RatingPair(r: Rating): (nat, nat)
  {
    (RatingCategory(r.score), MediaNode(r.media))
  }

  function RatingPairs(ratings: seq<Rating>): (p: seq<(nat, nat)>)
    ensures |p| == |ratings|
    ensures forall i :: 0 <= i < |ratings| ==> p[i] == RatingPair(ratings[i])
  {
    seq(|ratings|, i requires 0 <= i < |ratings| => RatingPair(ratings[i]))
  }

  function CountCategory(ratings: seq<Rating>, c: nat): nat
    decreases |ratings|
  {
    if ratings == [] then 0
    else CountCategory(ratings[..|ratings| - 1], c) + (if RatingCategory(ratings[|ratings| - 1].score) == c then 1 else 0)
  }

  function CountMedia(ratings: seq<Rating>, m: Media): nat
    decreases |ratings|
  {
    if ratings == [] then 0
    else CountMedia(ratings[..|ratings| - 1], m) + (if ratings[|ratings| - 1].media == m then 1 else 0)
  }

  /** Every rating falls in exactly one band. */
  lemma {:induction false} CategoriesSum(ratings: seq<Rating>)
    ensures CountCategory(ratings, 0) + CountCategory(ratings, 1) + CountCategory(ratings, 2)
      + CountCategory(ratings, 3) == |ratings|
    decreases |ratings|
  {
    if ratings != [] {
      CategoriesSum(ratings[..|ratings| - 1]);
    }
  }

  datatype RatingsChart = RatingsChart(categories: seq<nat>, movies: nat, tv: nat, flows: seq<Flow>)

  /** One more rating adds one to its own band and media counts and appends its pair. */
  lemma RatingsStep(ratings: seq<Rating>, i: nat)
    requires i < |ratings|
    ensures forall c :: (CountCategory(ratings[..i + 1], c)
      == CountCategory(ratings[..i], c) + (if RatingCategory(ratings[i].score) == c then 1 else 0))
    ensures forall m :: (CountMedia(ratings[..i + 1], m)
      == CountMedia(ratings[..i], m) + (if ratings[i].media == m then 1 else 0))
    ensures RatingPairs(ratings[..i + 1]) == RatingPairs(ratings[..i]) + [RatingPair(ratings[i])]
  {
    assert ratings[..i + 1][..i] == ratings[..i];
  }

  /** The band and media counts and the (band, media node) pairs, in one pass over the
      ratings; `ok` is false as soon as a rating is neither a movie nor a tv show. */
  method CountRatings(ratings: seq<Rating>)
    returns (ok: bool, categories: seq<nat>, movies: nat, tv: nat, pairs: seq<(nat, nat)>)
    ensures ok <==> forall k :: 0 <= k < |ratings| ==> !ratings[k].media.OtherMedia?
    ensures ok ==>
      && |categories| == 4
      && (forall c :: 0 <= c < 4 ==> categories[c] == CountCategory(ratings, c))
      && movies == CountMedia(ratings, Movie) && tv == CountMedia(ratings, Tv)
      && pairs == RatingPairs(ratings)
  {
    categories, movies, tv, pairs := [0, 0, 0, 0], 0, 0, [];
    var i := 0;
    while i < |ratings|
      invariant 0 <= i <= |ratings|
      invariant |categories| == 4
      invariant forall c :: 0 <= c < 4 ==> categories[c] == CountCategory(ratings[..i], c)
      invariant movies == CountMedia(ratings[..i], Movie) && tv == CountMedia(ratings[..i], Tv)
      invariant pairs == RatingPairs(ratings[..i])
      invariant forall k :: 0 <= k < i ==> !ratings[k].media.OtherMedia?
    {
      RatingsStep(ratings, i);
      var cat := RatingCategory(ratings[i].score);
      categories := categories[cat := categories[cat] + 1];
      var node := MediaNode(ratings[i].media);
      match ratings[i].media {
        case Movie => movies := movies + 1;
        case Tv => tv := tv + 1;
        case OtherMedia(_) => return false, categories, movies, tv, pairs;
      }
      pairs := pairs + [(cat, node)];
      i := i + 1;
    }
    assert ratings[..i] == ratings;
    ok := true;
  }

  /** The flow map built by adding the pairs one at a time. */
  method TallyPairs(pairs: seq<(nat, nat)>) returns (flows: seq<Flow>)
    ensures flows == Tally(pairs)
  {
    flows := [];
    var j := 0;
    while j < |pairs|
      invariant 0 <= j <= |pairs|
      invariant flows == Tally(pairs[..j])
    {
      assert pairs[..j + 1][..j] == pairs[..j];
      flows := Bump(flows, pairs[j].0, pairs[j].1);
      j := j + 1;
    }
    assert pairs[..j] == pairs;
  }

  /** `sankey_ratings` up to the chart: band counts, media counts and the aggregated flows;
      a rating of any media type other than movie or tv raises in `media_type_counts`. */
  method SankeyRatings(ratings: seq<Rating>) returns (r: Result<RatingsChart, string>)
    ensures ratings == [] ==> r == Err("\U{274C} No ratings available.")
    ensures ratings != [] ==>
      (r.Err? <==> exists i :: 0 <= i < |ratings| && ratings[i].media.OtherMedia?)
    ensures r.Err? && ratings != [] ==> r.error == ErrorMessage
    ensures r.Ok? ==>
      && |r.value.categories| == 4
      && (forall c :: 0 <= c < 4 ==> r.value.categories[c] == CountCategory(ratings, c))
      && r.value.movies == CountMedia(ratings, Movie) && r.value.tv == CountMedia(ratings, Tv)
      && r.value.flows == Tally(RatingPairs(ratings))
  {
    if ratings == [] {
      return Err("\U{274C} No ratings available.");
    }
    var ok, categories, movies, tv, pairs := CountRatings(ratings);
    if !ok {
      return Err(ErrorMessage);
    }
    var flows := TallyPairs(pairs);
    r := Ok(RatingsChart(categories, movies, tv, flows));
  }

  // ---- sankey_watchlist ----

  /** Items of a media type with a watched state. */
  function CountStatus(items: seq<WatchItem>, m: Media, watched: bool): nat
    decreases |items|
  {
    if items == [] then 0
    else
      var last := items[|items| - 1];
      CountStatus(items[..|items| - 1], m, watched) + (if last.media == m && last.watched == watched then 1 else 0)
  }

  function CountMovieOrTv(items: seq<WatchItem>): nat
    decreases |items|
  {
    if items == [] then 0
    else CountMovieOrTv(items[..|items| - 1]) + (if items[|items| - 1].media == Movie || items[|items| - 1].media == Tv then 1 else 0)
  }

  /** The four status counts, the flows with a positive count (movies 0 and tv 1 to
      unwatched 2 and watched 3), and the two totals. */
  datatype StatusChart = StatusChart(movieUnwatched: nat, movieWatched: nat, tvUnwatched: nat, tvWatched: nat,
                                     flows: seq<Flow>, totalUnwatched: nat, totalWatched: nat)

  function PositiveFlow(s: nat, t: nat, v: nat): seq<Flow>
  {
    if v > 0 then [Flow(s, t, v)] else []
  }

  function StatusFlows(mu: nat, mw: nat, tu: nat, tw: nat): seq<Flow>
  {
    PositiveFlow(0, 2, mu) + PositiveFlow(0, 3, mw) + PositiveFlow(1, 2, tu) + PositiveFlow(1, 3, tw)
  }

  /** Only positive counts become flows, always from a media node to a status node. */
  lemma StatusFlowsShape(mu: nat, mw: nat, tu: nat, tw: nat)
    ensures forall f :: f in StatusFlows(mu, mw, tu, tw) ==> f.value > 0 && f.source <= 1 && 2 <= f.target <= 3
  {
    var a, b, c, d := PositiveFlow(0, 2, mu), PositiveFlow(0, 3, mw), PositiveFlow(1, 2, tu), PositiveFlow(1, 3, tw);
    forall f: Flow | f in a + b + c + d
      ensures f.value > 0 && f.source <= 1 && 2 <= f.target <= 3
    {
      assert f in a || f in b || f in c || f in d;
    }
  }

  /** The status flows carry every counted item. */
  lemma StatusFlowsTotal(mu: nat, mw: nat, tu: nat, tw: nat)
    ensures TotalValue(StatusFlows(mu, mw, tu, tw)) == mu + mw + tu + tw
  {
    var a, b, c, d := PositiveFlow(0, 2, mu), PositiveFlow(0, 3, mw), PositiveFlow(1, 2, tu), PositiveFlow(1, 3, tw);
    PositiveFlowTotal(0, 2, mu);
    PositiveFlowTotal(0, 3, mw);
    PositiveFlowTotal(1, 2, tu);
    PositiveFlowTotal(1, 3, tw);
    TotalAppend(a, b);
    TotalAppend(a + b, c);
    TotalAppend(a + b + c, d);
  }

  lemma PositiveFlowTotal(s: nat, t: nat, v: nat)
    ensures TotalValue(PositiveFlow(s, t, v)) == v
  {
    if v > 0 {
      assert PositiveFlow(s, t, v)[1..] == [];
    }
  }

  lemma {:induction false} TotalAppend(a: seq<Flow>, b: seq<Flow>)
    ensures TotalValue(a + b) == TotalValue(a) + TotalValue(b)
    decreases |a|
  {
    if a == [] {
      assert a + b == b;
    } else {
      assert (a + b)[1..] == a[1..] + b;
      TotalAppend(a[1..], b);
    }
  }

  /** Watched plus unwatched is the number of movie and tv items; other media types are not
      counted. */
  lemma {:induction false} StatusTotals(items: seq<WatchItem>)
    ensures CountStatus(items, Movie, false) + CountStatus(items, Tv, false)
      + CountStatus(items, Movie, true) + CountStatus(items, Tv, true) == CountMovieOrTv(items)
    decreases |items|
  {
    if items != [] {
      StatusTotals(items[..|items| - 1]);
    }
  }

  /** One more item adds one to the count of its own media type and watched state. */
  lemma StatusStep(items: seq<WatchItem>, i: nat)
    requires i < |items|
    ensures forall m, w :: (CountStatus(items[..i + 1], m, w)
      == CountStatus(items[..i], m, w) + (if items[i].media == m && items[i].watched == w then 1 else 0))
  {
    assert items[..i + 1][..i] == items[..i];
  }

  /** The `status_counts` loop: unwatched and watched movies and tv shows. */
  method CountStatuses(items: seq<WatchItem>) returns (mu: nat, mw: nat, tu: nat, tw: nat)
    ensures mu == CountStatus(items, Movie, false) && mw == CountStatus(items, Movie, true)
    ensures tu == CountStatus(items, Tv, false) && tw == CountStatus(items, Tv, true)
  {
    mu, mw, tu, tw := 0, 0, 0, 0;
    var i := 0;
    while i < |items|
      invariant 0 <= i <= |items|
      invariant mu == CountStatus(items[..i], Movie, false) && mw == CountStatus(items[..i], Movie, true)
      invariant tu == CountStatus(items[..i], Tv, false) && tw == CountStatus(items[..i], Tv, true)
    {
      StatusStep(items, i);
      var it := items[i];
      if it.media == Movie {
        if it.watched { mw := mw + 1; } else { mu := mu + 1; }
      } else if it.media == Tv {
        if it.watched { tw := tw + 1; } else { tu := tu + 1; }
      }
      i := i + 1;
    }
    assert items[..i] == items;
  }

  /** `sankey_watchlist` up to the chart. */
  method SankeyWatchlist(items: seq<WatchItem>) returns (r: Result<StatusChart, string>)
    ensures r.Err? <==> items == []
    ensures r.Err? ==> r.error == "\U{274C} No watchlist data."
    ensures r.Ok? ==>
      var c := r.value;
      && c.movieUnwatched == CountStatus(items, Movie, false) && c.movieWatched == CountStatus(items, Movie, true)
      && c.tvUnwatched == CountStatus(items, Tv, false) && c.tvWatched == CountStatus(items, Tv, true)
      && c.flows == StatusFlows(c.movieUnwatched, c.movieWatched, c.tvUnwatched, c.tvWatched)
      && c.totalUnwatched == c.movieUnwatched + c.tvUnwatched
      && c.totalWatched == c.movieWatched + c.tvWatched
  {
    if items == [] {
      return Err("\U{274C} No watchlist data.");
    }
    var mu, mw, tu, tw := CountStatuses(items);
    var flows: seq<Flow> := [];
    if mu > 0 { flows := flows + [Flow(0, 2, mu)]; }
    if mw > 0 { flows := flows + [Flow(0, 3, mw)]; }
    if tu > 0 { flows := flows + [Flow(1, 2, tu)]; }
    if tw > 0 { flows := flows + [Flow(1, 3, tw)]; }
    assert flows == StatusFlows(mu, mw, tu, tw);
    r := Ok(StatusChart(mu, mw, tu, tw, flows, mu + tu, mw + tw));
  }

  // ---- sankey_genres ----

  /** A `genre_to_media` entry. */
  datatype GenreRow = GenreRow(name: string, movie: nat, tv: nat)

  /** Genre table, `media_counts['movie']` and `media_counts['tv']`. */
  datatype GenreState = GenreState(table: seq<GenreRow>, movies: nat, tv: nat)

  ghost predicate DistinctNames(table: seq<GenreRow>)
  {
    forall i, j :: 0 <= i < j < |table| ==> table[i].name != table[j].name
  }

  function IndexOfGenre(table: seq<GenreRow>, name: string): (r: nat)
    ensures r <= |table|
    ensures r < |table| ==> table[r].name == name
    ensures r == |table| ==> forall i :: 0 <= i < |table| ==> table[i].name != name
    decreases |table|
  {
    if table == [] then 0
    else if table[0].name == name then 0
    else 1 + IndexOfGenre(table[1..], name)
  }

  /** The defaultdict access: a missing genre gets a zero entry at the end. */
  function Touch(table: seq<GenreRow>, name: string): (r: seq<GenreRow>)
    ensures DistinctNames(table) ==> DistinctNames(r)
    ensures IndexOfGenre(r, name) < |r|
    ensures |table| <= |r| <= |table| + 1 && r[..|table|] == table
  {
    if IndexOfGenre(table, name) < |table| then table
    else
      IndexOfAppended(table, GenreRow(name, 0, 0));
      table + [GenreRow(name, 0, 0)]
  }

  lemma {:induction false} IndexOfAppended(table: seq<GenreRow>, row: GenreRow)
    requires forall i :: 0 <= i < |table| ==> table[i].name != row.name
    ensures IndexOfGenre(table + [row], row.name) == |table|
    decreases |table|
  {
    if table != [] {
      assert (table + [row])[1..] == table[1..] + [row];
      IndexOfAppended(table[1..], row);
    }
  }

  /** `genre_to_media[name][media] += 1` for movie or tv. */
  function Increment(table: seq<GenreRow>, name: string, m: Media): (r: seq<GenreRow>)
    requires m == Movie || m == Tv
    ensures |r| == |table|
    ensures forall i :: 0 <= i < |table| ==> r[i].name == table[i].name
  {
    seq(|table|, i requires 0 <= i < |table| =>
      if table[i].name != name then table[i]
      else if m == Movie then table[i].(movie := table[i].movie + 1)
      else table[i].(tv := table[i].tv + 1))
  }

  /** The loop over an item's first genres: another media type raises on the first genre,
      after its zero entry has been created, and the rest of the item is skipped. */
  function AddGenres(table: seq<GenreRow>, genres: seq<string>, m: Media): (r: seq<GenreRow>)
    ensures DistinctNames(table) ==> DistinctNames(r)
    ensures |table| <= |r|
    decreases |genres|
  {
    if genres == [] then table
    else
      var t1 := Touch(table, genres[0]);
      if m.OtherMedia? then t1
      else
        var t2 := Increment(t1, genres[0], m);
        assert forall i :: 0 <= i < |t2| ==> t2[i].name == t1[i].name;
        AddGenres(t2, genres[1..], m)
  }

  /** One watchlist item: a failed fetch skips it entirely; otherwise the media counter for
      its endpoint goes up and its first two genres are recorded. */
  function GenreStep(st: GenreState, item: WatchItem, movieGenres: map<int, seq<string>>,
                     tvGenres: map<int, seq<string>>): GenreState
  {
    if item.media == Movie then
      if item.tmdbId !in movieGenres then st
      else GenreState(AddGenres(st.table, Take(movieGenres[item.tmdbId], 2), item.media), st.movies + 1, st.tv)
    else
      if item.tmdbId !in tvGenres then st
      else GenreState(AddGenres(st.table, Take(tvGenres[item.tmdbId], 2), item.media), st.movies, st.tv + 1)
  }

  function GenreFold(items: seq<WatchItem>, movieGenres: map<int, seq<string>>,
                     tvGenres: map<int, seq<string>>): GenreState
    decreases |items|
  {
    if items == [] then GenreState([], 0, 0)
    else GenreStep(GenreFold(items[..|items| - 1], movieGenres, tvGenres), items[|items| - 1], movieGenres, tvGenres)
  }

  /** Genre names are never repeated, and at most one media count per item goes up. */
  lemma {:induction false} GenreFoldDistinct(items: seq<WatchItem>, movieGenres: map<int, seq<string>>,
                                             tvGenres: map<int, seq<string>>)
    ensures DistinctNames(GenreFold(items, movieGenres, tvGenres).table)
    ensures GenreFold(items, movieGenres, tvGenres).movies + GenreFold(items, movieGenres, tvGenres).tv <= |items|
    decreases |items|
  {
    if items != [] {
      GenreFoldDistinct(items[..|items| - 1], movieGenres, tvGenres);
    }
  }

  // ---- What the genre table counts ----

  /** The genres fetched for an item: from the movie endpoint for a movie and from the tv
      endpoint for any other media type; `None` when the fetch failed. */
  function DetailsOf(item: WatchItem, movieGenres: map<int, seq<string>>,
                     tvGenres: map<int, seq<string>>): Option<seq<string>>
  {
    if item.media == Movie then
      if item.tmdbId in movieGenres then Some(movieGenres[item.tmdbId]) else None
    else if item.tmdbId in tvGenres then Some(tvGenres[item.tmdbId]) else None
  }

  /** How often `name` occurs in `names`. */
  function Occurrences(names: seq<string>, name: string): nat
    decreases |names|
  {
    if names == [] then 0 else (if names[0] == name then 1 else 0) + Occurrences(names[1..], name)
  }

  /** The items whose details were fetched from the movie endpoint (`movieEndpoint`) or
      from the tv endpoint. */
  function FetchedCount(items: seq<WatchItem>, movieGenres: map<int, seq<string>>,
                        tvGenres: map<int, seq<string>>, movieEndpoint: bool): nat
    decreases |items|
  {
    if items == [] then 0
    else
      var it := items[|items| - 1];
      FetchedCount(items[..|items| - 1], movieGenres, tvGenres, movieEndpoint)
        + (if (it.media == Movie) == movieEndpoint && DetailsOf(it, movieGenres, tvGenres).Some? then 1 else 0)
  }

  /** How often `name` is among the first two genres of a fetched item of media type `m`. */
  function GenreCount(items: seq<WatchItem>, movieGenres: map<int, seq<string>>,
                      tvGenres: map<int, seq<string>>, name: string, m: Media): nat
    decreases |items|
  {
    if items == [] then 0
    else
      var it := items[|items| - 1];
      var d := DetailsOf(it, movieGenres, tvGenres);
      GenreCount(items[..|items| - 1], movieGenres, tvGenres, name, m)
        + (if it.media == m && d.Some? then Occurrences(Take(d.value, 2), name) else 0)
  }

  /** The genre names an item gives an entry: the first two genres of a fetched movie or
      tv show, and only the first of a fetched item of another type, which raises there. */
  function Recorded(item: WatchItem, movieGenres: map<int, seq<string>>,
                    tvGenres: map<int, seq<string>>): seq<string>
  {
    var d := DetailsOf(item, movieGenres, tvGenres);
    if d.None? then [] else if item.media.OtherMedia? then Take(d.value, 1) else Take(d.value, 2)
  }

  ghost predicate GenreListed(items: seq<WatchItem>, movieGenres: map<int, seq<string>>,
                              tvGenres: map<int, seq<string>>, name: string)
  {
    exists i :: 0 <= i < |items| && name in Recorded(items[i], movieGenres, tvGenres)
  }

  predicate HasGenre(table: seq<GenreRow>, name: string)
  {
    IndexOfGenre(table, name) < |table|
  }

  /** A genre's movie (`m == Movie`) or tv count in the table; 0 when it has no entry. */
  function GenreValue(table: seq<GenreRow>, name: string, m: Media): nat
  {
    var k := IndexOfGenre(table, name);
    if k == |table| then 0 else if m == Movie then table[k].movie else table[k].tv
  }

  lemma {:induction false} IndexOfSnoc(table: seq<GenreRow>, row: GenreRow, name: string)
    ensures IndexOfGenre(table + [row], name) ==
      if HasGenre(table, name) then IndexOfGenre(table, name)
      else if row.name == name then |table| else |table| + 1
    decreases |table|
  {
    if table != [] {
      assert (table + [row])[1..] == table[1..] + [row];
      IndexOfSnoc(table[1..], row, name);
    }
  }

  lemma {:induction false} IndexOfSameNames(a: seq<GenreRow>, b: seq<GenreRow>, name: string)
    requires |a| == |b| && forall i :: 0 <= i < |a| ==> a[i].name == b[i].name
    ensures IndexOfGenre(a, name) == IndexOfGenre(b, name)
    decreases |a|
  {
    if a != [] {
      IndexOfSameNames(a[1..], b[1..], name);
    }
  }

  lemma IndexOfDistinct(table: seq<GenreRow>, i: nat)
    requires DistinctNames(table) && i < |table|
    ensures IndexOfGenre(table, table[i].name) == i
  {
  }

  /** Creating a zero entry changes no count. */
  lemma TouchValue(table: seq<GenreRow>, n: string, g: string, m: Media)
    ensures GenreValue(Touch(table, n), g, m) == GenreValue(table, g, m)
    ensures HasGenre(Touch(table, n), g) <==> HasGenre(table, g) || g == n
  {
    if !HasGenre(table, n) {
      IndexOfSnoc(table, GenreRow(n, 0, 0), g);
    }
  }

  /** Incrementing a present genre adds one to that genre's count for that media type. */
  lemma IncrementValue(table: seq<GenreRow>, n: string, mm: Media, g: string, m: Media)
    requires (mm == Movie || mm == Tv) && (m == Movie || m == Tv)
    ensures GenreValue(Increment(table, n, mm), g, m)
      == GenreValue(table, g, m) + (if g == n && mm == m && HasGenre(table, n) then 1 else 0)
    ensures HasGenre(Increment(table, n, mm), g) <==> HasGenre(table, g)
  {
    IndexOfSameNames(Increment(table, n, mm), table, g);
  }

  /** Adding an item's genres for a movie or tv show adds their occurrences to that media
      type's counts; for another type the counts stay as they are. */
  lemma {:induction false} AddGenresValue(table: seq<GenreRow>, gs: seq<string>, mm: Media, g: string, m: Media)
    requires m == Movie || m == Tv
    ensures GenreValue(AddGenres(table, gs, mm), g, m)
      == GenreValue(table, g, m) + (if mm == m then Occurrences(gs, g) else 0)
    decreases |gs|
  {
    if gs != [] {
      var t1 := Touch(table, gs[0]);
      TouchValue(table, gs[0], g, m);
      if !mm.OtherMedia? {
        var t2 := Increment(t1, gs[0], mm);
        assert AddGenres(table, gs, mm) == AddGenres(t2, gs[1..], mm);
        IncrementValue(t1, gs[0], mm, g, m);
        AddGenresValue(t2, gs[1..], mm, g, m);
      } else {
        assert AddGenres(table, gs, mm) == t1;
      }
    }
  }

  /** Every genre of a movie or tv show gets an entry; only the first for another type. */
  lemma {:induction false} AddGenresHas(table: seq<GenreRow>, gs: seq<string>, mm: Media, g: string)
    ensures !mm.OtherMedia? ==> (HasGenre(AddGenres(table, gs, mm), g) <==> HasGenre(table, g) || g in gs)
    ensures mm.OtherMedia? ==>
      (HasGenre(AddGenres(table, gs, mm), g) <==> HasGenre(table, g) || (gs != [] && g == gs[0]))
    decreases |gs|
  {
    if gs != [] {
      var t1 := Touch(table, gs[0]);
      TouchValue(table, gs[0], g, Movie);
      if !mm.OtherMedia? {
        var t2 := Increment(t1, gs[0], mm);
        assert AddGenres(table, gs, mm) == AddGenres(t2, gs[1..], mm);
        IncrementValue(t1, gs[0], mm, g, Movie);
        AddGenresHas(t2, gs[1..], mm, g);
        assert g in gs <==> g == gs[0] || g in gs[1..];
      }
    }
  }

  lemma ListedSnoc(items: seq<WatchItem>, movieGenres: map<int, seq<string>>,
                   tvGenres: map<int, seq<string>>, name: string)
    requires items != []
    ensures GenreListed(items, movieGenres, tvGenres, name) <==>
      GenreListed(items[..|items| - 1], movieGenres, tvGenres, name)
      || name in Recorded(items[|items| - 1], movieGenres, tvGenres)
  {
    var init := items[..|items| - 1];
    if GenreListed(items, movieGenres, tvGenres, name) {
      var i :| 0 <= i < |items| && name in Recorded(items[i], movieGenres, tvGenres);
      if i < |init| {
        assert init[i] == items[i];
      }
    }
    if GenreListed(init, movieGenres, tvGenres, name) {
      var i :| 0 <= i < |init| && name in Recorded(init[i], movieGenres, tvGenres);
      assert items[i] == init[i];
    }
  }

  /** One more item: its endpoint's counter, its genres' counts and its genre entries. */
  lemma GenreStepCounts(st: GenreState, item: WatchItem, movieGenres: map<int, seq<string>>,
                        tvGenres: map<int, seq<string>>, g: string, m: Media)
    requires m == Movie || m == Tv
    ensures var r := GenreStep(st, item, movieGenres, tvGenres);
      var d := DetailsOf(item, movieGenres, tvGenres);
      && r.movies == st.movies + (if item.media == Movie && d.Some? then 1 else 0)
      && r.tv == st.tv + (if item.media != Movie && d.Some? then 1 else 0)
      && GenreValue(r.table, g, m)
           == GenreValue(st.table, g, m) + (if item.media == m && d.Some? then Occurrences(Take(d.value, 2), g) else 0)
      && (HasGenre(r.table, g) <==> HasGenre(st.table, g) || g in Recorded(item, movieGenres, tvGenres))
  {
    var d := DetailsOf(item, movieGenres, tvGenres);
    if d.Some? {
      AddGenresValue(st.table, Take(d.value, 2), item.media, g, m);
      AddGenresHas(st.table, Take(d.value, 2), item.media, g);
      if item.media.OtherMedia? {
        assert d.value != [] ==> Take(d.value, 2)[0] == d.value[0] && Take(d.value, 1) == [d.value[0]];
      }
    }
  }

  /** `media_counts` counts, per endpoint, the items whose details were fetched. */
  lemma {:induction false} GenreFoldFetched(items: seq<WatchItem>, movieGenres: map<int, seq<string>>,
                                            tvGenres: map<int, seq<string>>)
    ensures var st := GenreFold(items, movieGenres, tvGenres);
      && st.movies == FetchedCount(items, movieGenres, tvGenres, true)
      && st.tv == FetchedCount(items, movieGenres, tvGenres, false)
    decreases |items|
  {
    if items != [] {
      var init := items[..|items| - 1];
      GenreFoldFetched(init, movieGenres, tvGenres);
      GenreStepCounts(GenreFold(init, movieGenres, tvGenres), items[|items| - 1], movieGenres, tvGenres, "", Movie);
    }
  }

  /** Each genre's movie and tv counts are its occurrences among the first two genres of
      the fetched items of that media type. */
  lemma {:induction false} GenreFoldValues(items: seq<WatchItem>, movieGenres: map<int, seq<string>>,
                                           tvGenres: map<int, seq<string>>, g: string, m: Media)
    requires m == Movie || m == Tv
    ensures GenreValue(GenreFold(items, movieGenres, tvGenres).table, g, m) == GenreCount(items, movieGenres, tvGenres, g, m)
    decreases |items|
  {
    if items != [] {
      var init := items[..|items| - 1];
      GenreFoldValues(init, movieGenres, tvGenres, g, m);
      GenreStepCounts(GenreFold(init, movieGenres, tvGenres), items[|items| - 1], movieGenres, tvGenres, g, m);
    }
  }

  /** The genres with an entry are exactly those some considered item records. */
  lemma {:induction false} GenreFoldNames(items: seq<WatchItem>, movieGenres: map<int, seq<string>>,
                                          tvGenres: map<int, seq<string>>, g: string)
    ensures HasGenre(GenreFold(items, movieGenres, tvGenres).table, g) <==> GenreListed(items, movieGenres, tvGenres, g)
    decreases |items|
  {
    if items != [] {
      var init := items[..|items| - 1];
      GenreFoldNames(init, movieGenres, tvGenres, g);
      GenreStepCounts(GenreFold(init, movieGenres, tvGenres), items[|items| - 1], movieGenres, tvGenres, g, Movie);
      ListedSnoc(items, movieGenres, tvGenres, g);
    }
  }

  /** What `genre_to_media` and `media_counts` hold after the loop: distinct genre names,
      one entry per recorded genre, each row's movie and tv counts being that genre's
      occurrences among the first two genres of the fetched movies and tv shows, and the
      media counts being the fetched items per endpoint. */
  lemma GenreFoldProperties(items: seq<WatchItem>, movieGenres: map<int, seq<string>>,
                            tvGenres: map<int, seq<string>>)
    ensures var st := GenreFold(items, movieGenres, tvGenres);
      && DistinctNames(st.table)
      && st.movies + st.tv <= |items|
      && st.movies == FetchedCount(items, movieGenres, tvGenres, true)
      && st.tv == FetchedCount(items, movieGenres, tvGenres, false)
      && (forall i :: 0 <= i < |st.table| ==>
            && st.table[i].movie == GenreCount(items, movieGenres, tvGenres, st.table[i].name, Movie)
            && st.table[i].tv == GenreCount(items, movieGenres, tvGenres, st.table[i].name, Tv))
      && (forall g :: HasGenre(st.table, g) <==> GenreListed(items, movieGenres, tvGenres, g))
  {
    var st := GenreFold(items, movieGenres, tvGenres);
    GenreFoldDistinct(items, movieGenres, tvGenres);
    GenreFoldFetched(items, movieGenres, tvGenres);
    forall g
      ensures HasGenre(st.table, g) <==> GenreListed(items, movieGenres, tvGenres, g)
    {
      GenreFoldNames(items, movieGenres, tvGenres, g);
    }
    forall i | 0 <= i < |st.table|
      ensures st.table[i].movie == GenreCount(items, movieGenres, tvGenres, st.table[i].name, Movie)
      ensures st.table[i].tv == GenreCount(items, movieGenres, tvGenres, st.table[i].name, Tv)
    {
      IndexOfDistinct(st.table, i);
      GenreFoldValues(items, movieGenres, tvGenres, st.table[i].name, Movie);
      GenreFoldValues(items, movieGenres, tvGenres, st.table[i].name, Tv);
      assert GenreValue(st.table, st.table[i].name, Movie) == st.table[i].movie;
      assert GenreValue(st.table, st.table[i].name, Tv) == st.table[i].tv;
    }
  }

  /** Flows of genre `i` (movies then tv), positive counts only. */
  function GenreRowFlows(i: nat, g: GenreRow, movieNode: nat): seq<Flow>
  {
    PositiveFlow(i, movieNode, g.movie) + PositiveFlow(i, movieNode + 1, g.tv)
  }

  function GenreFlowsOf(genres: seq<GenreRow>, movieNode: nat): seq<Flow>
    decreases |genres|
  {
    if genres == [] then []
    else GenreFlowsOf(genres[..|genres| - 1], movieNode) + GenreRowFlows(|genres| - 1, genres[|genres| - 1], movieNode)
  }

  /** Every genre flow is positive, leaves one of the listed genres and enters the movie
      node or the tv node right after it. */
  lemma {:induction false} GenreFlowsShape(genres: seq<GenreRow>, movieNode: nat)
    ensures forall f :: f in GenreFlowsOf(genres, movieNode) ==>
      f.value > 0 && f.source < |genres| && (f.target == movieNode || f.target == movieNode + 1)
    decreases |genres|
  {
    if genres != [] {
      GenreFlowsShape(genres[..|genres| - 1], movieNode);
    }
  }

  datatype GenreChart = GenreChart(genres: seq<GenreRow>, movieNode: nat, tvNode: nat, flows: seq<Flow>,
                                   movies: nat, tv: nat)

  const MaxGenreItems: nat := 50
  const MaxGenres: nat := 10

  /** The genre-counting loop over the considered items. */
  method CountGenres(considered: seq<WatchItem>, movieGenres: map<int, seq<string>>, tvGenres: map<int, seq<string>>)
    returns (st: GenreState)
    ensures st == GenreFold(considered, movieGenres, tvGenres)
  {
    st := GenreState([], 0, 0);
    var i := 0;
    while i < |considered|
      invariant 0 <= i <= |considered|
      invariant st == GenreFold(considered[..i], movieGenres, tvGenres)
    {
      assert considered[..i + 1][..i] == considered[..i];
      st := GenreStep(st, considered[i], movieGenres, tvGenres);
      i := i + 1;
    }
    assert considered[..i] == considered;
  }

  /** The link-building loop: genre `k` links to the movie and tv nodes by its counts. */
  method GenreLinks(genres: seq<GenreRow>, movieNode: nat) returns (flows: seq<Flow>)
    ensures flows == GenreFlowsOf(genres, movieNode)
  {
    flows := [];
    var k := 0;
    while k < |genres|
      invariant 0 <= k <= |genres|
      invariant flows == GenreFlowsOf(genres[..k], movieNode)
    {
      assert genres[..k + 1][..k] == genres[..k];
      if genres[k].movie > 0 {
        flows := flows + [Flow(k, movieNode, genres[k].movie)];
      }
      if genres[k].tv > 0 {
        flows := flows + [Flow(k, movieNode + 1, genres[k].tv)];
      }
      k := k + 1;
    }
    assert genres[..k] == genres;
  }

  /** `sankey_genres` up to the chart. */
  method SankeyGenres(items: seq<WatchItem>, movieGenres: map<int, seq<string>>, tvGenres: map<int, seq<string>>)
    returns (r: Result<GenreChart, string>)
    ensures items == [] ==> r == Err("\U{274C} No data available.")
    ensures items != [] ==>
      var st := GenreFold(Take(items, MaxGenreItems), movieGenres, tvGenres);
      && (r.Err? <==> st.table == [])
      && (r.Err? ==> r.error == "\U{274C} Could not analyze genres.")
      && (r.Ok? ==>
            && r.value.genres == Take(st.table, MaxGenres)
            && |r.value.genres| <= MaxGenres
            && r.value.movieNode == |r.value.genres| && r.value.tvNode == |r.value.genres| + 1
            && r.value.flows == GenreFlowsOf(r.value.genres, r.value.movieNode)
            && r.value.movies == st.movies && r.value.tv == st.tv)
  {
    if items == [] {
      return Err("\U{274C} No data available.");
    }
    var st := CountGenres(Take(items, MaxGenreItems), movieGenres, tvGenres);
    if st.table == [] {
      return Err("\U{274C} Could not analyze genres.");
    }
    var genres := Take(st.table, MaxGenres);
    var movieNode := |genres|;
    var flows := GenreLinks(genres, movieNode);
    r := Ok(GenreChart(genres, movieNode, movieNode + 1, flows, st.movies, st.tv));
  }

  /** An item of another media type whose details load leaves a zero-count genre entry,
      which takes a place among the listed genres without producing a flow. */
  lemma OtherMediaLeavesEmptyGenre(item: WatchItem, genres: seq<string>)
    requires item.media.OtherMedia? && |genres| >= 1
    ensures var st := GenreStep(GenreState([], 0, 0), item, map[], map[item.tmdbId := genres]);
      st.table == [GenreRow(genres[0], 0, 0)] && st.tv == 1
      && GenreFlowsOf(st.table, 1) == []
  {
    var st := GenreStep(GenreState([], 0, 0), item, map[], map[item.tmdbId := genres]);
    assert Take(genres, 2)[0] == genres[0];
    assert st.table == [GenreRow(genres[0], 0, 0)];
    assert st.table[..0] == [];
  }
}
