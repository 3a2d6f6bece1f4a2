/** The interactive views (utils/views.py): the pagination cursor and its buttons, the
    confirmation dialog, the media picker and the notification settings toggles. */
module Views {
  import opened Wrappers
  import opened Text
  import opened Slices

  // ---- Pagination ----

  /** `previous_page`: one back, never below 0. */
  function PreviousIndex(cur: int): int
  {
    if cur - 1 > 0 then cur - 1 else 0
  }

  /** `next_page`: one on, never past the last page. */
  function NextIndex(cur: int, count: nat): int
  {
    if count - 1 < cur + 1 then count - 1 else cur + 1
  }

  /** The disabled flags of first/previous/next/last and the indicator label. */
  datatype Buttons = Buttons(firstDisabled: bool, previousDisabled: bool, nextDisabled: bool,
                             lastDisabled: bool, indicator: string)

  function PageLabel(cur: int, count: nat): string
  {
    "Page " + IntToString(cur + 1) + "/" + NatToString(count)
  }

  /** The button states `update_message` sets for a cursor position. */
  function ButtonsFor(cur: int, count: nat): (r: Buttons)
    ensures r.firstDisabled <==> cur == 0
    ensures r.previousDisabled <==> cur == 0
    ensures r.nextDisabled <==> cur >= count - 1
    ensures r.lastDisabled <==> cur >= count - 1
  {
    Buttons(cur == 0, cur == 0, cur >= count - 1, cur >= count - 1, PageLabel(cur, count))
  }

  /** On a view with at least one page, previous and next keep the cursor on a page, and
      from any page but the last, next then previous comes back. */
  lemma CursorStaysInRange(cur: int, count: nat)
    requires count >= 1 && 0 <= cur < count
    ensures 0 <= PreviousIndex(cur) < count && 0 <= NextIndex(cur, count) < count
    ensures cur < count - 1 ==> PreviousIndex(NextIndex(cur, count)) == cur
    ensures cur > 0 ==> NextIndex(PreviousIndex(cur), count) == cur
  {
  }

  /** On the first page only the backward buttons are disabled, on the last page only the
      forward ones (with two or more pages). */
  lemma ButtonsAtEnds(count: nat)
    requires count >= 2
    ensures var b := ButtonsFor(0, count);
      b.firstDisabled && b.previousDisabled && !b.nextDisabled && !b.lastDisabled
    ensures var b := ButtonsFor(count - 1, count);
      !b.firstDisabled && !b.previousDisabled && b.nextDisabled && b.lastDisabled
  {
  }

  /** `PaginationView`; `EmbedPaginationView` differs only in sending the page as an embed,
      so it is the same state machine. `hasButtons` is false once `clear_items` ran. */
  class PaginationView<T> {
    const pages: seq<T>
    var currentPage: int
    var hasButtons: bool
    var buttons: Buttons
    var stopped: bool

    ghost predicate Valid()
      reads this
    {
      hasButtons == (|pages| > 1) && (hasButtons ==> 0 <= currentPage < |pages|)
    }

    constructor (pages: seq<T>)
      ensures Valid()
      ensures this.pages == pages && currentPage == 0 && !stopped
      ensures hasButtons <==> |pages| > 1
      ensures buttons == Buttons(false, false, false, false, "Page 1/1")
    {
      this.pages := pages;
      currentPage := 0;
      hasButtons := |pages| > 1;
      buttons := Buttons(false, false, false, false, "Page 1/1");
      stopped := false;
    }

    /** `update_message`: refreshes the buttons and returns the page to show. */
    method Refresh() returns (shown: T)
      requires Valid() && hasButtons
      modifies this
      ensures Valid() && hasButtons
      ensures currentPage == old(currentPage) && stopped == old(stopped)
      ensures buttons == ButtonsFor(currentPage, |pages|)
      ensures shown == pages[currentPage]
    {
      shown := pages[currentPage];
      buttons := Buttons(currentPage == 0, currentPage == 0,
                         currentPage >= |pages| - 1, currentPage >= |pages| - 1,
                         PageLabel(currentPage, |pages|));
    }

    method FirstPage() returns (shown: T)
      requires Valid() && hasButtons
      modifies this
      ensures Valid() && hasButtons && stopped == old(stopped)
      ensures currentPage == 0 && buttons == ButtonsFor(0, |pages|) && shown == pages[0]
    {
      currentPage := 0;
      shown := Refresh();
    }

    method PreviousPage() returns (shown: T)
      requires Valid() && hasButtons
      modifies this
      ensures Valid() && hasButtons && stopped == old(stopped)
      ensures currentPage == PreviousIndex(old(currentPage))
      ensures buttons == ButtonsFor(currentPage, |pages|) && shown == pages[currentPage]
    {
      currentPage := if 0 > currentPage - 1 then 0 else currentPage - 1;
      shown := Refresh();
    }

    method NextPage() returns (shown: T)
      requires Valid() && hasButtons
      modifies this
      ensures Valid() && hasButtons && stopped == old(stopped)
      ensures currentPage == NextIndex(old(currentPage), |pages|)
      ensures buttons == ButtonsFor(currentPage, |pages|) && shown == pages[currentPage]
    {
      currentPage := if |pages| - 1 < currentPage + 1 then |pages| - 1 else currentPage + 1;
      shown := Refresh();
    }

    method LastPage() returns (shown: T)
      requires Valid() && hasButtons
      modifies this
      ensures Valid() && hasButtons && stopped == old(stopped)
      ensures currentPage == |pages| - 1
      ensures buttons == ButtonsFor(|pages| - 1, |pages|) && shown == pages[|pages| - 1]
    {
      currentPage := |pages| - 1;
      shown := Refresh();
    }

    /** `delete`: the message goes away and the view stops. */
    method Delete()
      modifies this
      ensures stopped && currentPage == old(currentPage) && hasButtons == old(hasButtons)
      ensures buttons == old(buttons)
    {
      stopped := true;
    }
  }

  // ---- Confirmation ----

  /** `ConfirmView`: `value` is None until a button is pressed. */
  class ConfirmView {
    var value: Option<bool>
    var stopped: bool

    constructor ()
      ensures value == None && !stopped
    {
      value := None;
      stopped := false;
    }

    method Confirm()
      modifies this
      ensures value == Some(true) && stopped
    {
      value := Some(true);
      stopped := true;
    }

    method Cancel()
      modifies this
      ensures value == Some(false) && stopped
    {
      value := Some(false);
      stopped := true;
    }
  }

  // ---- Media picker ----

  /** The keys of a search result the picker reads; None is a missing key. */
  datatype SearchResult = SearchResult(id: int, mediaType: Option<string>, title: Option<string>,
                                       name: Option<string>, releaseDate: Option<string>,
                                       firstAirDate: Option<string>)

  datatype MediaEmoji = Clapper | Television | Person

  datatype SelectOption = SelectOption(caption: string, value: string, emoji: MediaEmoji, description: string)

  const MaxOptions: nat := 25
  const MaxLabel: nat := 100

  /** `title or name`, with 'Unknown' when there is no name key. */
  function DisplayTitle(r: SearchResult): string
  {
    if r.title.Some? && r.title.value != "" then r.title.value else r.name.GetOr("Unknown")
  }

  /** The " (YYYY)" suffix: from the release date first, then the first air date. */
  function YearSuffix(r: SearchResult): (y: string)
    ensures r.releaseDate.Some? && r.releaseDate.value != "" ==> y == " (" + Take(r.releaseDate.value, 4) + ")"
    ensures !(r.releaseDate.Some? && r.releaseDate.value != "") && r.firstAirDate.Some? && r.firstAirDate.value != ""
      ==> y == " (" + Take(r.firstAirDate.value, 4) + ")"
    ensures !(r.releaseDate.Some? && r.releaseDate.value != "") && !(r.firstAirDate.Some? && r.firstAirDate.value != "")
      ==> y == ""
  {
    if r.releaseDate.Some? && r.releaseDate.value != "" then " (" + Take(r.releaseDate.value, 4) + ")"
    else if r.firstAirDate.Some? && r.firstAirDate.value != "" then " (" + Take(r.firstAirDate.value, 4) + ")"
    else ""
  }

  function EmojiFor(mediaType: string): MediaEmoji
  {
    if mediaType == "movie" then Clapper else if mediaType == "tv" then Television else Person
  }

  /** The option built for result `i`. */
  function OptionFor(i: nat, r: SearchResult): (o: SelectOption)
    ensures |o.caption| <= MaxLabel && |o.description| <= MaxLabel
    ensures o.caption <= DisplayTitle(r) + YearSuffix(r)
    ensures o.value == NatToString(i)
  {
    var mt := r.mediaType.GetOr("unknown");
    SelectOption(Take(DisplayTitle(r) + YearSuffix(r), 100), NatToString(i), EmojiFor(mt), Take(Upper(mt), 100))
  }

  /** `f` applied to each of the first `n` elements and its index, one loop step at a time. */
  function Indexed<A, B>(f: (nat, A) -> B, xs: seq<A>, n: nat): seq<B>
    requires n <= |xs|
  {
    if n == 0 then [] else Indexed(f, xs, n - 1) + [f(n - 1, xs[n - 1])]
  }

  lemma {:induction false} IndexedAt<A, B>(f: (nat, A) -> B, xs: seq<A>, n: nat)
    requires n <= |xs|
    ensures |Indexed(f, xs, n)| == n
    ensures forall i :: 0 <= i < n ==> Indexed(f, xs, n)[i] == f(i, xs[i])
  {
    if n > 0 {
      IndexedAt(f, xs, n - 1);
    }
  }

  /** The loop over `enumerate(xs[:n])` that appends `f(i, x)` for each element. */
  method MapIndexed<A, B>(f: (nat, A) -> B, xs: seq<A>, n: nat) returns (ys: seq<B>)
    requires n <= |xs|
    ensures ys == Indexed(f, xs, n)
  {
    ys := [];
    var i := 0;
    while i < n
      invariant 0 <= i <= n
      invariant ys == Indexed(f, xs, i)
    {
      ys := ys + [f(i, xs[i])];
      i := i + 1;
    }
  }

  /** `MediaSelectView`: options for the first 25 results; `selected` is None until a
      choice is made. */
  class MediaSelectView {
    const results: seq<SearchResult>
    var options: seq<SelectOption>
    var selected: Option<SearchResult>
    var stopped: bool

    ghost predicate Valid()
      reads this
    {
      |options| <= |results| && |options| <= MaxOptions
      && forall i :: 0 <= i < |options| ==> options[i] == OptionFor(i, results[i])
    }

    constructor (results: seq<SearchResult>)
      ensures Valid()
      ensures this.results == results && selected == None && !stopped
      ensures |options| == if |results| < MaxOptions then |results| else MaxOptions
    {
      this.results := results;
      selected := None;
      stopped := false;
      var n := if |results| < MaxOptions then |results| else MaxOptions;
      var opts := MapIndexed(OptionFor, results, n);
      IndexedAt(OptionFor, results, n);
      options := opts;
    }

    /** `select_callback`: Discord sends back the value of one of the options. */
    method Select(value: string, ghost i: nat)
      requires Valid()
      requires i < |options| && options[i].value == value
      modifies this
      ensures Valid() && options == old(options)
      ensures selected == Some(results[i]) && stopped
    {
      ParseNatToString(i);
      var index := ParseNat(value);
      selected := Some(results[index]);
      stopped := true;
    }
  }

  /** Option values are distinct, so a value picks out exactly one result. */
  lemma OptionValuesDistinct(i: nat, j: nat, a: SearchResult, b: SearchResult)
    requires OptionFor(i, a).value == OptionFor(j, b).value
    ensures i == j
  {
    ParseNatToString(i);
    ParseNatToString(j);
  }

  // ---- Notification settings ----

  const ReleaseKey: string := "notify_on_release"
  const UpdateKey: string := "notify_on_update"

  /** `settings.get(key, True)`. */
  function FlagOn(settings: map<string, bool>, key: string): bool
  {
    if key in settings then settings[key] else true
  }

  function OnOff(on: bool): string
  {
    if on then "ON" else "OFF"
  }

  /** `NotificationSettingsView` with its settings dict, the two toggle labels and the
      `updated` flag. */
  class NotificationSettingsView {
    var settings: map<string, bool>
    var updated: bool
    var releaseLabel: string
    var updateLabel: string
    var stopped: bool

    constructor (current: map<string, bool>)
      ensures settings == current && !updated && !stopped
      ensures releaseLabel == "Release Notifications: " + OnOff(FlagOn(current, ReleaseKey))
      ensures updateLabel == "Update Notifications: " + OnOff(FlagOn(current, UpdateKey))
    {
      settings := current;
      updated := false;
      stopped := false;
      releaseLabel := "Release Notifications: " + OnOff(FlagOn(current, ReleaseKey));
      updateLabel := "Update Notifications: " + OnOff(FlagOn(current, UpdateKey));
    }

    /** `toggle_release`: flips the flag, a missing one counting as on. */
    method ToggleRelease()
      modifies this
      ensures settings == old(settings)[ReleaseKey := !FlagOn(old(settings), ReleaseKey)]
      ensures updated && releaseLabel == "Release Notifications: " + OnOff(settings[ReleaseKey])
      ensures updateLabel == old(updateLabel) && stopped == old(stopped)
    {
      settings := settings[ReleaseKey := !FlagOn(settings, ReleaseKey)];
      releaseLabel := "Release Notifications: " + OnOff(settings[ReleaseKey]);
      updated := true;
    }

    /** `toggle_update`: the same for update notifications. */
    method ToggleUpdate()
      modifies this
      ensures settings == old(settings)[UpdateKey := !FlagOn(old(settings), UpdateKey)]
      ensures updated && updateLabel == "Update Notifications: " + OnOff(settings[UpdateKey])
      ensures releaseLabel == old(releaseLabel) && stopped == old(stopped)
    {
      settings := settings[UpdateKey := !FlagOn(settings, UpdateKey)];
      updateLabel := "Update Notifications: " + OnOff(settings[UpdateKey]);
      updated := true;
    }

    /** `save_settings`: stops the view and keeps everything. */
    method Save()
      modifies this
      ensures stopped && settings == old(settings) && updated == old(updated)
    {
      stopped := true;
    }

    /** `cancel`: clears `updated`, though the dict keeps its toggled values. */
    method Cancel()
      modifies this
      ensures stopped && !updated && settings == old(settings)
    {
      updated := false;
      stopped := true;
    }
  }

  /** Toggling twice restores the flag's value, a missing flag coming back as an explicit
      `True`; toggling never touches the other flag. */
  lemma ToggleTwice(settings: map<string, bool>, key: string, other: string)
    requires other != key
    ensures var once := settings[key := !FlagOn(settings, key)];
      var twice := once[key := !FlagOn(once, key)];
      FlagOn(twice, key) == FlagOn(settings, key) && FlagOn(once, key) == !FlagOn(settings, key)
      && FlagOn(twice, other) == FlagOn(settings, other)
  {
  }
}
