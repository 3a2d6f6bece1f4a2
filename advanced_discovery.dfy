/** The decade table with the release-date bounds `by_decade` queries, and the country
    autocomplete of `cogs/advanced_discovery.py`. The country table is a parameter: an
    insertion-ordered dictionary from code to name. */
module AdvancedDiscovery {
  import opened Wrappers
  import opened Text
  import opened Slices
  import opened Sorting

  // ---- DECADES and by_decade ----

  const Decades: seq<(string, (nat, nat))> := [
    ("2020s", (2020, 2029)), ("2010s", (2010, 2019)), ("2000s", (2000, 2009)), ("1990s", (1990, 1999)),
    ("1980s", (1980, 1989)), ("1970s", (1970, 1979)), ("1960s", (1960, 1969)), ("1950s", (1950, 1959))]

  function FindDecade(table: seq<(string, (nat, nat))>, decade: string): (r: Option<(nat, nat)>)
    ensures r.Some? <==> exists i :: 0 <= i < |table| && table[i].0 == decade
    ensures r.Some? ==> exists i :: 0 <= i < |table| && table[i] == (decade, r.value)
    decreases |table|
  {
    if table == [] then None
    else if table[0].0 == decade then Some(table[0].1)
    else
      var r := FindDecade(table[1..], decade);
      assert forall i :: 0 < i < |table| ==> table[i] == table[1..][i - 1];
      assert r.Some? ==> exists i :: 0 <= i < |table[1..]| && table[1..][i] == (decade, r.value);
      r
  }

  function FirstDay(year: nat): string { NatToString(year) + "-01-01" }
  function LastDay(year: nat): string { NatToString(year) + "-12-31" }

  /** The `primary_release_date` bounds for a decade name; an unknown name raises in the
      lookup and the command answers with its error message. */
  function DecadeBounds(decade: string): (r: Result<(string, string), string>)
  {
    BoundsIn(Decades, decade)
  }

  function BoundsIn(table: seq<(string, (nat, nat))>, decade: string): Result<(string, string), string>
  {
    match FindDecade(table, decade)
    case None => Err("\U{274C} Error discovering films.")
    case Some((start, end)) => Ok((FirstDay(start), LastDay(end)))
  }

  /** The name of the decade at position `i` is its first year followed by "s". */
  lemma DecadeNamed(i: nat)
    requires i < |Decades|
    ensures Decades[i].0 == NatToString(Decades[i].1.0) + "s"
  {
    var year := Decades[i].1.0;
    var century := NatToString(year / 100);
    assert century == NatToString(year / 1000) + [Digit(year / 100 % 10)];
    if year / 100 == 20 {
      assert century == "20";
    } else {
      assert century == "19";
    }
    assert NatToString(year / 10) == century + [Digit(year / 10 % 10)];
  }

  /** The decade at position `i` spans ten years from a year divisible by ten. */
  lemma DecadeSpan(i: nat)
    requires i < |Decades|
    ensures Decades[i].1.1 == Decades[i].1.0 + 9 && Decades[i].1.0 % 10 == 0
  {
  }

  /** Every decade spans ten years, starts on a year divisible by ten and is named after
      its first year. */
  lemma DecadesWellFormed()
    ensures forall i :: 0 <= i < |Decades| ==>
      && Decades[i].1.1 == Decades[i].1.0 + 9
      && Decades[i].1.0 % 10 == 0
      && Decades[i].0 == NatToString(Decades[i].1.0) + "s"
  {
    forall i | 0 <= i < |Decades|
      ensures Decades[i].1.1 == Decades[i].1.0 + 9 && Decades[i].1.0 % 10 == 0
      ensures Decades[i].0 == NatToString(Decades[i].1.0) + "s"
    {
      DecadeSpan(i);
      DecadeNamed(i);
    }
  }

  /** The year part of each bound reads back as its year. */
  lemma DayBoundsRead(start: nat, end: nat)
    ensures var lo := FirstDay(start); ParseNat(lo[..|lo| - 6]) == start
    ensures var hi := LastDay(end); ParseNat(hi[..|hi| - 6]) == end
  {
    var lo, hi := FirstDay(start), LastDay(end);
    assert lo[..|lo| - 6] == NatToString(start);
    assert hi[..|hi| - 6] == NatToString(end);
    ParseNatToString(start);
    ParseNatToString(end);
  }

  /** In a table of ten-year spans, a listed name gets bounds nine years apart whose year
      parts read back. */
  lemma BoundsInSpan(table: seq<(string, (nat, nat))>, decade: string)
    requires forall i :: 0 <= i < |table| ==> table[i].1.1 == table[i].1.0 + 9
    requires exists i :: 0 <= i < |table| && table[i].0 == decade
    ensures BoundsIn(table, decade).Ok?
    ensures var (lo, hi) := BoundsIn(table, decade).value;
      exists start: nat ::
        && lo == NatToString(start) + "-01-01" && hi == NatToString(start + 9) + "-12-31"
        && ParseNat(lo[..|lo| - 6]) == start && ParseNat(hi[..|hi| - 6]) == start + 9
  {
    var r := FindDecade(table, decade);
    var i :| 0 <= i < |table| && table[i] == (decade, r.value);
    var (start, end) := r.value;
    DayBoundsRead(start, end);
    assert BoundsIn(table, decade).value == (FirstDay(start), LastDay(start + 9));
  }

  /** The query runs from January 1 of the decade's first year to December 31 of its
      last year, nine years later; the year part of each bound reads back as that year. */
  lemma DecadeBoundsSpan(decade: string)
    requires exists i :: 0 <= i < |Decades| && Decades[i].0 == decade
    ensures DecadeBounds(decade).Ok?
    ensures var (lo, hi) := DecadeBounds(decade).value;
      exists start: nat ::
        && lo == NatToString(start) + "-01-01" && hi == NatToString(start + 9) + "-12-31"
        && ParseNat(lo[..|lo| - 6]) == start && ParseNat(hi[..|hi| - 6]) == start + 9
  {
    forall i | 0 <= i < |Decades|
      ensures Decades[i].1.1 == Decades[i].1.0 + 9
    {
      DecadeSpan(i);
    }
    BoundsInSpan(Decades, decade);
  }

  /** An unknown decade name is reported rather than queried. */
  lemma UnknownDecadeRejected(decade: string)
    requires forall i :: 0 <= i < |Decades| ==> Decades[i].0 != decade
    ensures DecadeBounds(decade) == Err("\U{274C} Error discovering films.")
  {
  }

  // ---- country_autocomplete ----

  /** Python's string `<=`: lexicographic on code points. */
  function LexLeq(a: string, b: string): bool
    decreases |a|
  {
    if a == [] then true
    else if b == [] then false
    else if a[0] != b[0] then a[0] < b[0]
    else LexLeq(a[1..], b[1..])
  }

  lemma {:induction false} LexLeqTotal(a: string, b: string)
    ensures LexLeq(a, b) || LexLeq(b, a)
    decreases |a|
  {
    if a != [] && b != [] && a[0] == b[0] {
      LexLeqTotal(a[1..], b[1..]);
    }
  }

  lemma {:induction false} LexLeqTransitive(a: string, b: string, c: string)
    requires LexLeq(a, b) && LexLeq(b, c)
    ensures LexLeq(a, c)
    decreases |a|
  {
    if a != [] && b != [] && c != [] && a[0] == b[0] && b[0] == c[0] {
      LexLeqTransitive(a[1..], b[1..], c[1..]);
    }
  }

  type Country = (string, string)

  /** `sorted(COUNTRIES.items(), key=lambda item: item[1])`'s order. */
  function ByName(x: Country, y: Country): bool { LexLeq(x.1, y.1) }

  lemma ByNameTotalPreorder()
    ensures TotalPreorder(ByName)
  {
    forall a: Country, b: Country ensures ByName(a, b) || ByName(b, a) {
      LexLeqTotal(a.1, b.1);
    }
    forall a: Country, b: Country, c: Country | ByName(a, b) && ByName(b, c) ensures ByName(a, c) {
      LexLeqTransitive(a.1, b.1, c.1);
    }
  }

  ghost predicate DistinctCodes(countries: seq<Country>)
  {
    forall i, j :: 0 <= i < j < |countries| ==> countries[i].0 != countries[j].0
  }

  function LookupName(countries: seq<Country>, code: string): (r: Option<string>)
    ensures r.Some? <==> exists i :: 0 <= i < |countries| && countries[i].0 == code
    decreases |countries|
  {
    if countries == [] then None
    else if countries[0].0 == code then Some(countries[0].1)
    else
      var r := LookupName(countries[1..], code);
      assert forall i :: 0 < i < |countries| ==> countries[i] == countries[1..][i - 1];
      r
  }

  lemma {:induction false} LookupFindsPair(countries: seq<Country>, k: nat)
    requires DistinctCodes(countries) && k < |countries|
    ensures LookupName(countries, countries[k].0) == Some(countries[k].1)
    decreases k
  {
    if k > 0 {
      assert countries[0].0 != countries[k].0;
      assert countries[1..][k - 1] == countries[k];
      LookupFindsPair(countries[1..], k - 1);
    }
  }

  datatype Choice = Choice(name: string, value: string)

  const MaxChoices: nat := 25

  /** The test in the autocomplete loop. */
  predicate CountryMatches(current: string, c: Country)
  {
    Contains(Lower(c.1), Lower(current)) || Contains(Lower(c.0), Lower(current))
  }

  /** The choices the loop would collect with no limit, in order. */
  function MatchingChoices(current: string, s: seq<Country>): (r: seq<Choice>)
    ensures |r| <= |s|
    decreases |s|
  {
    if s == [] then []
    else
      var c := s[|s| - 1];
      MatchingChoices(current, s[..|s| - 1]) + (if CountryMatches(current, c) then [Choice(c.1, c.0)] else [])
  }

  const PopularCodes: seq<string> := [
    "us", "gb", "fr", "de", "jp", "kr", "cn", "in", "ca", "au", "es", "it", "mx", "br", "ru", "ar",
    "nl", "se", "no", "dk", "fi", "be", "ch", "at", "nz"]

  /** The fallback list: the popular codes present in the table, in their listed order. */
  function PopularChoices(countries: seq<Country>, codes: seq<string>): (r: seq<Choice>)
    ensures |r| <= |codes|
    ensures forall k :: 0 <= k < |r| ==> r[k].value in codes && LookupName(countries, r[k].value) == Some(r[k].name)
    decreases |codes|
  {
    if codes == [] then []
    else
      var rest := PopularChoices(countries, codes[1..]);
      match LookupName(countries, codes[0])
      case None => rest
      case Some(name) => [Choice(name, codes[0])] + rest
  }

  /** What `country_autocomplete` returns. */
  function Autocomplete(countries: seq<Country>, current: string): seq<Choice>
  {
    var matches := MatchingChoices(current, SortBy(countries, ByName));
    if matches == [] then PopularChoices(countries, PopularCodes) else Take(matches, MaxChoices)
  }

  lemma {:induction false} MatchingPrefix(current: string, s: seq<Country>, i: nat, j: nat)
    requires i <= j <= |s|
    ensures MatchingChoices(current, s[..i]) <= MatchingChoices(current, s[..j])
    decreases j - i
  {
    if i < j {
      MatchingPrefix(current, s, i, j - 1);
      assert s[..j][..j - 1] == s[..j - 1];
    }
  }

  /** One more country extends the collected choices by itself when it matches. */
  lemma MatchingStep(current: string, s: seq<Country>, i: nat)
    requires i < |s|
    ensures MatchingChoices(current, s[..i + 1])
      == MatchingChoices(current, s[..i]) + (if CountryMatches(current, s[i]) then [Choice(s[i].1, s[i].0)] else [])
  {
    assert s[..i + 1][..i] == s[..i];
  }

  /** The scan of `country_autocomplete`: collects the matching countries of `sorted` in
      order and stops once it holds 25. */
  method ScanMatches(sorted: seq<Country>, current: string) returns (choices: seq<Choice>)
    ensures choices == Take(MatchingChoices(current, sorted), MaxChoices)
  {
    var currentLower := Lower(current);
    choices := [];
    var i := 0;
    while i < |sorted|
      invariant 0 <= i <= |sorted|
      invariant choices == MatchingChoices(current, sorted[..i])
      invariant |choices| < MaxChoices
    {
      MatchingStep(current, sorted, i);
      var (code, name) := sorted[i];
      assert CountryMatches(current, sorted[i]) <==> Contains(Lower(name), currentLower) || Contains(Lower(code), currentLower);
      if Contains(Lower(name), currentLower) || Contains(Lower(code), currentLower) {
        choices := choices + [Choice(name, code)];
        if |choices| >= MaxChoices {
          MatchingPrefix(current, sorted, i + 1, |sorted|);
          assert sorted[..|sorted|] == sorted;
          return;
        }
      }
      i := i + 1;
    }
    assert sorted[..i] == sorted;
  }

  /** `country_autocomplete`: scans the countries by name, collects matches and stops at
      25; with no match at all it falls back to the popular list. */
  method CountryAutocomplete(countries: seq<Country>, current: string) returns (choices: seq<Choice>)
    ensures choices == Autocomplete(countries, current)
  {
    var sorted := SortBy(countries, ByName);
    choices := ScanMatches(sorted, current);
    if choices == [] {
      choices := PopularChoices(countries, PopularCodes);
    }
  }

  /** At most 25 choices come back, whichever path is taken. */
  lemma AutocompleteBounded(countries: seq<Country>, current: string)
    ensures |Autocomplete(countries, current)| <= MaxChoices
  {
  }

  /** Every element of the collected choices is a matching country of the scanned list, and
      the choices keep that list's order. */
  lemma {:induction false} MatchingChoicesFrom(current: string, s: seq<Country>)
    ensures forall k :: 0 <= k < |MatchingChoices(current, s)| ==>
      exists m :: 0 <= m < |s| && MatchingChoices(current, s)[k] == Choice(s[m].1, s[m].0) && CountryMatches(current, s[m])
    ensures SortedBy(s, ByName) ==>
      forall k, l :: 0 <= k < l < |MatchingChoices(current, s)| ==>
        LexLeq(MatchingChoices(current, s)[k].name, MatchingChoices(current, s)[l].name)
    decreases |s|
  {
    if s != [] {
      var init := s[..|s| - 1];
      MatchingChoicesFrom(current, init);
      var prev := MatchingChoices(current, init);
      var r := MatchingChoices(current, s);
      var last := s[|s| - 1];
      assert r == prev + (if CountryMatches(current, last) then [Choice(last.1, last.0)] else []);
      forall k | 0 <= k < |r|
        ensures exists m :: 0 <= m < |s| && r[k] == Choice(s[m].1, s[m].0) && CountryMatches(current, s[m])
      {
        if k < |prev| {
          assert r[k] == prev[k];
          var m :| 0 <= m < |init| && prev[k] == Choice(init[m].1, init[m].0) && CountryMatches(current, init[m]);
          assert init[m] == s[m];
          assert r[k] == Choice(s[m].1, s[m].0) && CountryMatches(current, s[m]);
        } else {
          assert CountryMatches(current, last);
          assert r[k] == Choice(last.1, last.0);
          assert 0 <= |s| - 1 < |s| && r[k] == Choice(s[|s| - 1].1, s[|s| - 1].0) && CountryMatches(current, s[|s| - 1]);
        }
      }
      if SortedBy(s, ByName) {
        assert SortedBy(init, ByName);
        forall k, l | 0 <= k < l < |r| ensures LexLeq(r[k].name, r[l].name) {
          if l < |prev| {
            assert r[k] == prev[k] && r[l] == prev[l];
          } else {
            assert r[k] == prev[k];
            var m :| 0 <= m < |init| && prev[k] == Choice(init[m].1, init[m].0) && CountryMatches(current, init[m]);
            assert init[m] == s[m];
            assert ByName(s[m], s[|s| - 1]);
          }
        }
      }
    } else {
      assert MatchingChoices(current, s) == [];
    }
  }

  /** When something matches, every choice matches the input by name or code, names its
      own country, and the choices come in ascending name order. */
  lemma AutocompleteMatches(countries: seq<Country>, current: string)
    requires DistinctCodes(countries)
    requires MatchingChoices(current, SortBy(countries, ByName)) != []
    ensures var r := Autocomplete(countries, current);
      && (forall k :: 0 <= k < |r| ==>
            LookupName(countries, r[k].value) == Some(r[k].name)
            && (Contains(Lower(r[k].name), Lower(current)) || Contains(Lower(r[k].value), Lower(current))))
      && (forall k, l :: 0 <= k < l < |r| ==> LexLeq(r[k].name, r[l].name))
  {
    var sorted := SortBy(countries, ByName);
    ByNameTotalPreorder();
    SortBySorted(countries, ByName);
    MatchingChoicesFrom(current, sorted);
    var all := MatchingChoices(current, sorted);
    var r := Autocomplete(countries, current);
    assert r <= all;
    forall k | 0 <= k < |r|
      ensures LookupName(countries, r[k].value) == Some(r[k].name)
    {
      assert r[k] == all[k];
      var m :| 0 <= m < |sorted| && all[k] == Choice(sorted[m].1, sorted[m].0) && CountryMatches(current, sorted[m]);
      assert sorted[m] in multiset(countries) by {
        assert sorted[m] in multiset(sorted);
      }
      var n :| 0 <= n < |countries| && countries[n] == sorted[m];
      LookupFindsPair(countries, n);
    }
    forall k | 0 <= k < |r|
      ensures Contains(Lower(r[k].name), Lower(current)) || Contains(Lower(r[k].value), Lower(current))
    {
      assert r[k] == all[k];
      var m :| 0 <= m < |sorted| && all[k] == Choice(sorted[m].1, sorted[m].0) && CountryMatches(current, sorted[m]);
    }
    forall k, l | 0 <= k < l < |r| ensures LexLeq(r[k].name, r[l].name) {
      assert r[k] == all[k] && r[l] == all[l];
    }
  }

  /** The empty input matches every country, so it yields the first 25 countries by name
      and never the popular list. */
  lemma {:induction false} EmptyInputListsAll(s: seq<Country>)
    ensures MatchingChoices("", s) == seq(|s|, i requires 0 <= i < |s| => Choice(s[i].1, s[i].0))
    decreases |s|
  {
    if s != [] {
      EmptyInputListsAll(s[..|s| - 1]);
      EmptyContained(Lower(s[|s| - 1].1));
      assert Lower("") == "";
    }
  }

  lemma EmptyInputFirstByName(countries: seq<Country>)
    requires countries != []
    ensures var sorted := SortBy(countries, ByName);
      Autocomplete(countries, "") == Take(seq(|sorted|, i requires 0 <= i < |sorted| => Choice(sorted[i].1, sorted[i].0)), MaxChoices)
  {
    EmptyInputListsAll(SortBy(countries, ByName));
  }

  /** With no match the popular codes come back in their listed order, only those in the
      table, each with the table's name. */
  lemma NoMatchFallsBack(countries: seq<Country>, current: string)
    requires MatchingChoices(current, SortBy(countries, ByName)) == []
    ensures var r := Autocomplete(countries, current);
      && r == PopularChoices(countries, PopularCodes)
      && forall k :: 0 <= k < |r| ==> r[k].value in PopularCodes && LookupName(countries, r[k].value) == Some(r[k].name)
  {
  }

}
