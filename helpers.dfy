/** Formatting and list helpers (utils/helpers.py). */
module Helpers {
  import opened Wrappers
  import opened Text
  import opened Slices

  // ---- format_runtime ----

  /** `format_runtime`: "N/A" for a missing or zero runtime, else hours and minutes, with
      the hours left out when there are none. Python's `//` and `%` floor, as Dafny's do for
      a positive divisor. */
  function FormatRuntime(minutes: Option<int>): (r: string)
    ensures minutes.None? || minutes == Some(0) ==> r == "N/A"
    ensures minutes.Some? && minutes.value >= 60 ==>
      r == NatToString(minutes.value / 60) + "h " + NatToString(minutes.value % 60) + "m"
    ensures minutes.Some? && minutes.value != 0 && minutes.value < 60 ==> r == NatToString(minutes.value % 60) + "m"
  {
    if minutes.None? || minutes.value == 0 then "N/A"
    else
      var hours := minutes.value / 60;
      var mins := minutes.value % 60;
      if hours > 0 then IntToString(hours) + "h " + IntToString(mins) + "m"
      else IntToString(mins) + "m"
  }

  /** Position of the first `c` in `s`, or `|s|`. */
  function IndexOf(s: string, c: char): (r: nat)
    ensures r <= |s|
    ensures forall i :: 0 <= i < r ==> s[i] != c
    ensures r < |s| ==> s[r] == c
    decreases |s|
  {
    if s == [] || s[0] == c then 0 else 1 + IndexOf(s[1..], c)
  }

  lemma {:induction false} IndexOfAfterPrefix(a: string, c: char, b: string)
    requires forall i :: 0 <= i < |a| ==> a[i] != c
    ensures IndexOf(a + [c] + b, c) == |a|
    decreases |a|
  {
    if a != [] {
      assert (a + [c] + b)[1..] == a[1..] + [c] + b;
      IndexOfAfterPrefix(a[1..], c, b);
    }
  }

  /** Reads a runtime label back as minutes: "<h>h <m>m" or "<m>m". */
  function RuntimeMinutes(s: string): int
  {
    var h := IndexOf(s, 'h');
    if h < |s| && h + 2 <= |s| - 1 then ParseNat(s[..h]) * 60 + ParseNat(s[h + 2..|s| - 1])
    else if |s| >= 1 then ParseNat(s[..|s| - 1])
    else 0
  }

  lemma DigitsHaveNoH(n: nat)
    ensures forall i :: 0 <= i < |NatToString(n)| ==> NatToString(n)[i] != 'h'
  {
    NatToStringDigits(n);
  }

  /** Every positive runtime label reads back as the runtime it was made from. */
  lemma RuntimeRoundTrip(m: nat)
    requires m > 0
    ensures RuntimeMinutes(FormatRuntime(Some(m))) == m
  {
    var s := FormatRuntime(Some(m));
    var hs := NatToString(m / 60);
    var ms := NatToString(m % 60);
    ParseNatToString(m / 60);
    ParseNatToString(m % 60);
    DigitsHaveNoH(m % 60);
    if m >= 60 {
      DigitsHaveNoH(m / 60);
      assert s == hs + ['h'] + (" " + ms + "m");
      IndexOfAfterPrefix(hs, 'h', " " + ms + "m");
      assert s[..|hs|] == hs;
      assert s[|hs| + 2..|s| - 1] == ms;
    } else {
      assert s == ms + ['m'];
      assert forall i :: 0 <= i < |s| ==> s[i] != 'h';
      assert s[..|s| - 1] == ms;
    }
  }

  // ---- format_money ----

  /** Three decimal digits with leading zeros. */
  function Pad3(n: nat): (r: string)
    requires n < 1000
    ensures |r| == 3
  {
    [Digit(n / 100), Digit((n / 10) % 10), Digit(n % 10)]
  }

  /** Python's `f"{n:,}"` for a natural number: digits in groups of three, comma separated. */
  function Grouped(n: nat): (r: string)
    decreases n
  {
    if n < 1000 then NatToString(n) else Grouped(n / 1000) + "," + Pad3(n % 1000)
  }

  /** `format_money`: "N/A" for a missing or zero amount, else a dollar sign and the
      comma-grouped amount, with the minus sign first for a negative amount. */
  function FormatMoney(amount: Option<int>): (r: string)
    ensures amount.None? || amount == Some(0) ==> r == "N/A"
    ensures amount.Some? && amount.value > 0 ==> r == "$" + Grouped(amount.value)
    ensures amount.Some? && amount.value < 0 ==> r == "$-" + Grouped(-amount.value)
  {
    if amount.None? || amount.value == 0 then "N/A"
    else if amount.value > 0 then "$" + Grouped(amount.value)
    else "$-" + Grouped(-amount.value)
  }

  function RemoveCommas(s: string): (r: string)
    ensures forall i :: 0 <= i < |r| ==> r[i] != ','
    decreases |s|
  {
    if s == [] then [] else (if s[0] == ',' then [] else [s[0]]) + RemoveCommas(s[1..])
  }

  lemma {:induction false} RemoveCommasAppend(a: string, b: string)
    ensures RemoveCommas(a + b) == RemoveCommas(a) + RemoveCommas(b)
    decreases |a|
  {
    if a != [] {
      assert (a + b)[0] == a[0];
      assert (a + b)[1..] == a[1..] + b;
      RemoveCommasAppend(a[1..], b);
    } else {
      assert a + b == b;
    }
  }

  lemma {:induction false} RemoveCommasDigits(s: string)
    requires forall i :: 0 <= i < |s| ==> IsDigit(s[i])
    ensures RemoveCommas(s) == s
    decreases |s|
  {
    if s != [] {
      RemoveCommasDigits(s[1..]);
    }
  }

  function Pow10(k: nat): nat
  {
    if k == 0 then 1 else 10 * Pow10(k - 1)
  }

  lemma {:induction false} ParseNatAppend(a: string, b: string)
    ensures ParseNat(a + b) == ParseNat(a) * Pow10(|b|) + ParseNat(b)
    decreases |b|
  {
    if b != [] {
      var b' := b[..|b| - 1];
      assert (a + b)[..|a + b| - 1] == a + b';
      ParseNatAppend(a, b');
      assert ParseNat(a + b) == ParseNat(a + b') * 10 + DigitValue(b[|b| - 1]);
      assert ParseNat(b) == ParseNat(b') * 10 + DigitValue(b[|b| - 1]);
      assert Pow10(|b|) == 10 * Pow10(|b'|);
      ShiftDigit(ParseNat(a), Pow10(|b'|), ParseNat(b'), DigitValue(b[|b| - 1]));
    } else {
      assert a + b == a;
    }
  }

  lemma ShiftDigit(x: int, p: int, y: int, d: int)
    ensures (x * p + y) * 10 + d == x * (10 * p) + (y * 10 + d)
  {
  }

  lemma DigitValueOf(k: nat)
    requires k < 10
    ensures DigitValue(Digit(k)) == k
  {
  }

  lemma ParseThree(a: char, b: char, c: char)
    ensures ParseNat([a, b, c]) == (DigitValue(a) * 10 + DigitValue(b)) * 10 + DigitValue(c)
  {
    assert [a, b, c][..2] == [a, b];
    assert [a, b][..1] == [a];
    assert [a][..0] == [];
    assert ParseNat([a]) == DigitValue(a);
    assert ParseNat([a, b]) == DigitValue(a) * 10 + DigitValue(b);
  }

  lemma DecimalDigits(n: nat)
    requires n < 1000
    ensures ((n / 100) * 10 + (n / 10) % 10) * 10 + n % 10 == n
  {
    var t := n / 10;
    assert n == t * 10 + n % 10;
    assert t / 10 == n / 100;
    assert t == (t / 10) * 10 + t % 10;
  }

  lemma Pad3Reads(n: nat)
    requires n < 1000
    ensures ParseNat(Pad3(n)) == n
  {
    var d0, d1, d2 := n / 100, (n / 10) % 10, n % 10;
    DigitValueOf(d0);
    DigitValueOf(d1);
    DigitValueOf(d2);
    ParseThree(Digit(d0), Digit(d1), Digit(d2));
    DecimalDigits(n);
  }

  lemma Pad3NoCommas(n: nat)
    requires n < 1000
    ensures RemoveCommas(Pad3(n)) == Pad3(n)
  {
    RemoveCommasDigits(Pad3(n));
  }

  /** Above 999 the commas drop out between the leading groups and the last three digits. */
  lemma GroupedCommas(n: nat)
    requires n >= 1000
    ensures RemoveCommas(Grouped(n)) == RemoveCommas(Grouped(n / 1000)) + Pad3(n % 1000)
  {
    var hi := Grouped(n / 1000);
    var lo := Pad3(n % 1000);
    Pad3NoCommas(n % 1000);
    assert Grouped(n) == hi + ("," + lo);
    RemoveCommasAppend(hi, "," + lo);
    RemoveCommasAppend(",", lo);
    assert RemoveCommas(",") == [] by {
      assert ","[1..] == [];
    }
  }

  lemma Pow10Three()
    ensures Pow10(3) == 1000
  {
    assert Pow10(1) == 10;
    assert Pow10(2) == 100;
  }

  /** Dropping the commas and reading the digits gives back the amount. */
  lemma {:induction false} GroupedRoundTrip(n: nat)
    ensures ParseNat(RemoveCommas(Grouped(n))) == n
    decreases n
  {
    if n < 1000 {
      NatToStringDigits(n);
      RemoveCommasDigits(NatToString(n));
      ParseNatToString(n);
    } else {
      var h, l := n / 1000, n % 1000;
      GroupedRoundTrip(h);
      GroupedCommas(n);
      Pad3Reads(l);
      ParseNatAppend(RemoveCommas(Grouped(h)), Pad3(l));
      Pow10Three();
      assert ParseNat(RemoveCommas(Grouped(n))) == h * 1000 + l;
    }
  }

  // ---- truncate_text ----

  /** `truncate_text`: "N/A" for empty text, the text itself when it fits, otherwise the
      Python slice `text[:max_length - len(suffix)]` followed by the suffix. */
  function TruncateText(text: string, maxLength: int, suffix: string): (r: string)
    ensures text == [] ==> r == "N/A"
    ensures text != [] && |text| <= maxLength ==> r == text
    ensures text != [] && |text| > maxLength >= |suffix| ==>
      |r| == maxLength && r == text[..maxLength - |suffix|] + suffix
  {
    if text == [] then "N/A"
    else if |text| <= maxLength then text
    else Take(text, maxLength - |suffix|) + suffix
  }

  /** With a limit below the suffix length, the slice counts from the end, so the result can
      be longer than the limit and even than the text. */
  lemma TruncateBelowSuffix()
    ensures TruncateText("hello", 1, "...") == "hel..."
  {
  }

  // ---- get_rating_emoji ----

  /** The five rating emojis, from the best band to the worst. */
  datatype RatingBand = Star | GlowingStar | Sparkles | Dizzy | NewMoon

  function BandEmoji(b: RatingBand): string
  {
    match b
    case Star => "\U{2B50}"
    case GlowingStar => "\U{1F31F}"
    case Sparkles => "\U{2728}"
    case Dizzy => "\U{1F4AB}"
    case NewMoon => "\U{1F311}"
  }

  /** Position of a band, 0 for the worst. */
  function BandRank(b: RatingBand): nat
  {
    match b
    case NewMoon => 0
    case Dizzy => 1
    case Sparkles => 2
    case GlowingStar => 3
    case Star => 4
  }

  /** `get_rating_emoji`, as its band. */
  function RatingEmoji(rating: real): (r: RatingBand)
    ensures r == Star <==> rating >= 8.0
    ensures r == GlowingStar <==> 7.0 <= rating < 8.0
    ensures r == Sparkles <==> 6.0 <= rating < 7.0
    ensures r == Dizzy <==> 5.0 <= rating < 6.0
    ensures r == NewMoon <==> rating < 5.0
  {
    if rating >= 8.0 then Star
    else if rating >= 7.0 then GlowingStar
    else if rating >= 6.0 then Sparkles
    else if rating >= 5.0 then Dizzy
    else NewMoon
  }

  /** A higher rating never gets a worse emoji, and the emojis are all different. */
  lemma RatingEmojiMonotone(a: real, b: real)
    requires a <= b
    ensures BandRank(RatingEmoji(a)) <= BandRank(RatingEmoji(b))
    ensures RatingEmoji(a) != RatingEmoji(b) ==> BandEmoji(RatingEmoji(a)) != BandEmoji(RatingEmoji(b))
  {
  }

  // ---- chunk_list ----

  /** The comprehension for a positive chunk size. */
  function Chunks<T>(s: seq<T>, size: nat): (r: seq<seq<T>>)
    requires size > 0
    ensures forall k :: 0 <= k < |r| ==> 0 < |r[k]| <= size
    ensures forall k :: 0 <= k < |r| - 1 ==> |r[k]| == size
    ensures (|r| - 1) * size < |s| <= |r| * size
    decreases |s|
  {
    if s == [] then []
    else if |s| <= size then [s]
    else
      var rest := Chunks(s[size..], size);
      assert (|rest| + 1) * size == |rest| * size + size;
      [s[..size]] + rest
  }

  function Flatten<T>(chunks: seq<seq<T>>): seq<T>
    decreases |chunks|
  {
    if chunks == [] then [] else chunks[0] + Flatten(chunks[1..])
  }

  /** `chunk_list`: a zero size makes `range` raise; a negative size gives an empty range. */
  function ChunkList<T>(s: seq<T>, size: int): (r: Result<seq<seq<T>>, string>)
    ensures r.Err? <==> size == 0
    ensures size < 0 ==> r == Ok([])
    ensures size > 0 ==> r == Ok(Chunks(s, size))
  {
    if size == 0 then Err("range() arg 3 must not be zero")
    else if size < 0 then Ok([])
    else Ok(Chunks(s, size))
  }

  /** The chunks put back together are the list. */
  lemma {:induction false} ChunksFlatten<T>(s: seq<T>, size: nat)
    requires size > 0
    ensures Flatten(Chunks(s, size)) == s
    decreases |s|
  {
    if s != [] && |s| > size {
      ChunksFlatten(s[size..], size);
      assert s == s[..size] + s[size..];
    } else if s != [] {
      assert Flatten([s]) == s + Flatten([]);
    }
  }

  // ---- sanitize_filename ----

  const InvalidFilenameChars: string := "<>:\"/\\|?*"

  /** `s.replace(c, d)` for single characters. */
  function ReplaceChar(s: string, c: char, d: char): (r: string)
    ensures |r| == |s|
    ensures forall i :: 0 <= i < |s| ==> r[i] == if s[i] == c then d else s[i]
  {
    seq(|s|, i requires 0 <= i < |s| => if s[i] == c then d else s[i])
  }

  /** What the loop computes: every invalid character replaced by '_'. */
  predicate SanitizedFrom(s: string, r: string)
  {
    |r| == |s| && forall i :: 0 <= i < |s| ==> r[i] == if s[i] in InvalidFilenameChars then '_' else s[i]
  }

  /** `sanitize_filename`: one `replace` pass per invalid character. */
  method SanitizeFilename(filename: string) returns (r: string)
    ensures SanitizedFrom(filename, r)
    ensures forall i :: 0 <= i < |r| ==> r[i] !in InvalidFilenameChars
  {
    r := filename;
    var j := 0;
    while j < |InvalidFilenameChars|
      invariant 0 <= j <= |InvalidFilenameChars|
      invariant |r| == |filename|
      invariant forall i :: 0 <= i < |r| ==>
        r[i] == if filename[i] in InvalidFilenameChars[..j] then '_' else filename[i]
    {
      r := ReplaceChar(r, InvalidFilenameChars[j], '_');
      assert InvalidFilenameChars[..j + 1] == InvalidFilenameChars[..j] + [InvalidFilenameChars[j]];
      j := j + 1;
    }
    assert InvalidFilenameChars[..j] == InvalidFilenameChars;
  }

  /** Sanitising a sanitised name changes nothing. */
  lemma SanitizeIdempotent(s: string, r: string, r2: string)
    requires SanitizedFrom(s, r) && SanitizedFrom(r, r2)
    ensures r2 == r
  {
    assert '_' !in InvalidFilenameChars;
  }

  // ---- calculate_similarity_score ----

  function WordSet(s: string): set<string>
  {
    set w | w in Words(s)
  }

  /** `calculate_similarity_score`: 1 for texts equal up to case, else the Jaccard index of
      their word sets, 0 when neither has a word. */
  function SimilarityScore(text1: string, text2: string): (r: real)
  {
    var a := Lower(text1);
    var b := Lower(text2);
    if a == b then 1.0
    else
      Jaccard(WordSet(a), WordSet(b))
  }

  /** Shared words over all words, 0 when there are none. */
  function Jaccard(w1: set<string>, w2: set<string>): real
  {
    if w1 + w2 == {} then 0.0 else |w1 * w2| as real / |w1 + w2| as real
  }

  lemma FractionBounded(x: nat, y: nat)
    requires x <= y && y > 0
    ensures 0.0 <= x as real / y as real <= 1.0
  {
  }

  /** The score is a fraction, and 1 for texts equal up to case. */
  lemma SimilarityBounded(text1: string, text2: string)
    ensures 0.0 <= SimilarityScore(text1, text2) <= 1.0
    ensures Lower(text1) == Lower(text2) ==> SimilarityScore(text1, text2) == 1.0
  {
    var w1 := WordSet(Lower(text1));
    var w2 := WordSet(Lower(text2));
    SubsetCard(w1 * w2, w1 + w2);
    if w1 + w2 != {} {
      FractionBounded(|w1 * w2|, |w1 + w2|);
    }
  }

  /** The score does not depend on the order of the two texts. */
  lemma SimilaritySymmetric(text1: string, text2: string)
    ensures SimilarityScore(text1, text2) == SimilarityScore(text2, text1)
  {
    var w1 := WordSet(Lower(text1));
    var w2 := WordSet(Lower(text2));
    assert w1 * w2 == w2 * w1 && w1 + w2 == w2 + w1;
  }

  lemma SubsetCard<T>(a: set<T>, b: set<T>)
    requires a <= b
    ensures |a| <= |b|
  {
    assert b == a + (b - a);
  }

  lemma JaccardDisjoint(w1: set<string>, w2: set<string>)
    requires w1 * w2 == {}
    ensures Jaccard(w1, w2) == 0.0
  {
    assert |w1 * w2| == 0;
  }

  /** Texts with no word in common, not equal up to case, score 0. */
  lemma SimilarityDisjoint(text1: string, text2: string)
    requires Lower(text1) != Lower(text2)
    requires WordSet(Lower(text1)) * WordSet(Lower(text2)) == {}
    ensures SimilarityScore(text1, text2) == 0.0
  {
    JaccardDisjoint(WordSet(Lower(text1)), WordSet(Lower(text2)));
  }

  // ---- format_list ----

  /** `format_list` as written: the list is cut to `max_items` before the remaining count
      is taken, so the count is always `len(items[:max_items]) - max_items`. */
  function FormatListAsWritten(items: seq<string>, sep: string, maxItems: Option<int>): (r: string)
  {
    if items == [] then "N/A"
    else if maxItems.Some? && maxItems.value != 0 && |items| > maxItems.value then
      var shown := Take(items, maxItems.value);
      Join(shown, sep) + " and " + IntToString(|shown| - maxItems.value) + " more"
    else Join(items, sep)
  }

  /** Whenever the list is cut at a positive limit, the as-written text reports "0 more". */
  lemma FormatListReportsZero(items: seq<string>, sep: string, m: nat)
    requires 0 < m < |items|
    ensures FormatListAsWritten(items, sep, Some(m)) == Join(items[..m], sep) + " and 0 more"
  {
  }

  /** `format_list` with the count of items actually left out. */
  function FormatList(items: seq<string>, sep: string, maxItems: Option<int>): (r: string)
  {
    if items == [] then "N/A"
    else if maxItems.Some? && maxItems.value != 0 && |items| > maxItems.value then
      var shown := Take(items, maxItems.value);
      Join(shown, sep) + " and " + IntToString(|items| - |shown|) + " more"
    else Join(items, sep)
  }

  /** With a positive limit the text lists the first `m` items and counts the rest, so the
      shown and the counted items add up to the whole list. */
  lemma FormatListCountsRest(items: seq<string>, sep: string, m: nat)
    requires 0 < m < |items|
    ensures FormatList(items, sep, Some(m)) == Join(items[..m], sep) + " and " + NatToString(|items| - m) + " more"
    ensures |items[..m]| + (|items| - m) == |items| && |items| - m > 0
  {
  }

  // ---- get_video_url ----

  const YoutubeWatchPrefix: string := "https://www.youtube.com/watch?v="

  /** `get_video_url`: a watch link for YouTube, '' for any other site. */
  function VideoUrl(key: string, site: string): (r: string)
    ensures site != "YouTube" ==> r == ""
  {
    if site == "YouTube" then YoutubeWatchPrefix + key else ""
  }

  /** The key of a YouTube watch link. */
  function VideoKey(url: string): Option<string>
  {
    if |YoutubeWatchPrefix| <= |url| && url[..|YoutubeWatchPrefix|] == YoutubeWatchPrefix
    then Some(url[|YoutubeWatchPrefix|..]) else None
  }

  /** A YouTube link carries its key back out. */
  lemma VideoUrlRoundTrip(key: string)
    ensures VideoKey(VideoUrl(key, "YouTube")) == Some(key)
  {
    var u := VideoUrl(key, "YouTube");
    assert u[..|YoutubeWatchPrefix|] == YoutubeWatchPrefix;
    assert u[|YoutubeWatchPrefix|..] == key;
  }
}
