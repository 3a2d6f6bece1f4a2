/** Pieces the watchlist and subscription commands share: list comprehensions with a
    condition, the movie/tv search candidates, case-insensitive title matching and the
    capped listing that ends in "... and N more". */
module Listing {
  import opened Wrappers
  import opened Text
  import opened Slices
  import opened Sorting
  import opened Store
  import opened Views

  /** `[x for x in s if p(x)]`. */
  function Filter<T>(s: seq<T>, p: T -> bool): (r: seq<T>)
    ensures |r| <= |s|
    decreases |s|
  {
    if s == [] then []
    else Filter(s[..|s| - 1], p) + (if p(s[|s| - 1]) then [s[|s| - 1]] else [])
  }

  /** The comprehension keeps exactly the elements satisfying the condition. */
  lemma {:induction false} FilterIff<T>(s: seq<T>, p: T -> bool)
    ensures forall x :: x in Filter(s, p) ==> x in s && p(x)
    ensures forall x :: x in s && p(x) ==> x in Filter(s, p)
    decreases |s|
  {
    if s != [] {
      FilterIff(s[..|s| - 1], p);
      assert s == s[..|s| - 1] + [s[|s| - 1]];
    }
  }

  /** The kept elements keep their relative order: a filtered ordered list is ordered. */
  lemma {:induction false} FilterSorted<T>(s: seq<T>, p: T -> bool, before: (T, T) -> bool)
    requires SortedBy(s, before)
    ensures SortedBy(Filter(s, p), before)
    decreases |s|
  {
    if s != [] {
      var init := s[..|s| - 1];
      var last := s[|s| - 1];
      assert SortedBy(init, before);
      FilterSorted(init, p, before);
      FilterIff(init, p);
      var prev := Filter(init, p);
      var r := Filter(s, p);
      if p(last) {
        forall i, j | 0 <= i < j < |r| ensures before(r[i], r[j]) {
          if j < |prev| {
            assert r[i] == prev[i] && r[j] == prev[j];
          } else {
            assert r[i] == prev[i] && r[j] == last;
            assert prev[i] in Filter(init, p);
            assert prev[i] in init;
            var a :| 0 <= a < |init| && init[a] == prev[i];
            assert s[a] == init[a];
          }
        }
      }
    }
  }

  /** A condition and its negation split the list. */
  lemma {:induction false} FilterSplit<T>(s: seq<T>, p: T -> bool, q: T -> bool)
    requires forall x :: q(x) == !p(x)
    ensures |Filter(s, p)| + |Filter(s, q)| == |s|
    decreases |s|
  {
    if s != [] {
      FilterSplit(s[..|s| - 1], p, q);
    }
  }

  /** `query.lower() in title.lower()`. */
  predicate TitleMatches(query: string, title: string)
  {
    Contains(Lower(title), Lower(query))
  }

  /** A search result whose `media_type` is 'movie' or 'tv'. */
  predicate IsMovieOrTv(r: SearchResult)
  {
    r.mediaType == Some("movie") || r.mediaType == Some("tv")
  }

  const MaxCandidates: nat := 10

  /** The results offered in the picker: movies and shows only, the first 10 of them. */
  function Candidates(results: seq<SearchResult>): seq<SearchResult>
  {
    Take(Filter(results, IsMovieOrTv), MaxCandidates)
  }

  lemma CandidatesAreMedia(results: seq<SearchResult>)
    ensures |Candidates(results)| <= MaxCandidates
    ensures forall x :: x in Candidates(results) ==> x in results && IsMovieOrTv(x)
    ensures Candidates(results) == [] <==> forall x :: x in results ==> !IsMovieOrTv(x)
  {
    FilterIff(results, IsMovieOrTv);
    var all := Filter(results, IsMovieOrTv);
    if all != [] {
      assert all[0] in Candidates(results);
    }
  }

  /** The `media_type` string stored in a row. */
  function MediaOf(name: string): (m: Media)
    ensures MediaName(m) == name
  {
    if name == "movie" then Movie else if name == "tv" then Tv else OtherMedia(name)
  }

  /** `selected.get('title') or selected.get('name')`; None when both are falsy and the
      name key is missing, which the NOT NULL title column then rejects. */
  function SelectedTitle(r: SearchResult): Option<string>
  {
    if r.title.Some? && r.title.value != "" then r.title else r.name
  }

  /** A listing field: the first `cap` entries, how many more there are, and the total. */
  datatype Section<T> = Section(shown: seq<T>, more: nat, count: nat)

  function Capped<T>(s: seq<T>, cap: nat): Section<T>
  {
    Section(Take(s, cap), if |s| > cap then |s| - cap else 0, |s|)
  }

  /** The shown entries are the first ones, and shown plus "more" accounts for every
      entry; "... and N more" appears exactly when the list is longer than the cap. */
  lemma CappedAccounts<T>(s: seq<T>, cap: nat)
    ensures var c := Capped(s, cap);
      && |c.shown| <= cap && c.shown <= s
      && |c.shown| + c.more == c.count == |s|
      && (c.more > 0 <==> |s| > cap)
  {
  }

  /** The line appended after the shown entries. */
  function MoreLine<T>(c: Section<T>): string
  {
    if c.more > 0 then "\n... and " + NatToString(c.more) + " more" else ""
  }
}
