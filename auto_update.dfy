/** The auto-update poller (cogs/auto_update.py): the decision of which notification a
    subscription earns, the per-cycle walk over guilds and subscriptions with its
    `last_checked` bookkeeping, and the resolution of where a notification goes.

    Time is integer seconds; a calendar date is the number of its day, so its midnight is
    `day * SecondsPerDay`. `(a - b).days` on datetimes is the floor of the difference in
    days, which is what Dafny's `/` gives for a positive divisor. */
module AutoUpdate {
  import opened Wrappers
  import opened Store

  const SecondsPerDay: int := 86400
  const SecondsPerHour: int := 3600

  /** A date string from the metadata: missing, None or '' (falsy); not in '%Y-%m-%d' form
      (strptime raises); or the date of day `day`. */
  datatype DateField = Absent | Unparsable | On(day: int)

  /** `next_episode_to_air`, when the metadata has a non-empty one. */
  datatype Episode = Episode(airDate: DateField, season: Option<int>, number: Option<int>, name: Option<string>)

  /** The `status` field as far as the poller distinguishes it: 'Released', 'Post Production',
      'In Production', and any other value or none at all. */
  datatype Status = Released | PostProduction | InProduction | OtherStatus

  /** The fields of a movie or TV details response that the poller reads. */
  datatype Details = Details(
    title: Option<string>, name: Option<string>, status: Status,
    releaseDate: DateField, lastAirDate: DateField, nextEpisode: Option<Episode>)

  datatype Kind = Release | Upcoming | NewEpisode | EpisodeAired

  /** The notification dict: its type, the date it is about, the title and, for a new
      episode, the episode record. */
  datatype Notification = Notification(kind: Kind, date: int, title: Option<string>, episode: Option<Episode>)

  /** The exception `_check_for_updates` lets escape: strptime's ValueError. */
  datatype EvalError = DateParseError

  /** `(now - date).days` for the midnight of `day`. */
  function DaysSince(now: int, day: int): int
  {
    (now - day * SecondsPerDay) / SecondsPerDay
  }

  /** `(date - now).days` for the midnight of `day`. */
  function DaysUntil(now: int, day: int): int
  {
    (day * SecondsPerDay - now) / SecondsPerDay
  }

  /** `0 <= days <= UPDATE_INTERVAL_HOURS / 24` with Python's true division. */
  predicate InRecentWindow(days: int, hours: nat)
  {
    0 <= days && days as real <= hours as real / 24.0
  }

  /** `_check_for_updates`: at most one notification, or the parse error. */
  function CheckForUpdates(sub: Subscription, details: Details, now: int, hours: nat): Result<Option<Notification>, EvalError>
  {
    if sub.media == Movie then
      if details.releaseDate != Absent && sub.notifyOnRelease then
        match details.releaseDate
        case Unparsable => Err(DateParseError)
        case On(d) =>
          if details.status == Released then
            if InRecentWindow(DaysSince(now, d), hours) then Ok(Some(Notification(Release, d, details.title, None)))
            else Ok(None)
          else if details.status == PostProduction || details.status == InProduction then
            var until := DaysUntil(now, d);
            if 0 <= until <= 7 then Ok(Some(Notification(Upcoming, d, details.title, None)))
            else Ok(None)
          else Ok(None)
      else Ok(None)
    else if sub.media == Tv then
      if details.nextEpisode.Some? && sub.notifyOnUpdate then
        var ep := details.nextEpisode.value;
        match ep.airDate
        case Absent => Ok(None)
        case Unparsable => Err(DateParseError)
        case On(d) =>
          if DaysUntil(now, d) == 1 then Ok(Some(Notification(NewEpisode, d, details.name, Some(ep))))
          else Ok(None)
      else if details.lastAirDate != Absent && sub.notifyOnUpdate then
        match details.lastAirDate
        case Unparsable => Err(DateParseError)
        case On(d) =>
          if InRecentWindow(DaysSince(now, d), hours) then Ok(Some(Notification(EpisodeAired, d, details.name, None)))
          else Ok(None)
      else Ok(None)
    else Ok(None)
  }

  // ---- Arithmetic of the day windows ----

  lemma DivShift(a: int, k: int)
    ensures (a + k * SecondsPerDay) / SecondsPerDay == a / SecondsPerDay + k
  {
    var q := a / SecondsPerDay;
    var r := a % SecondsPerDay;
    assert a == q * SecondsPerDay + r && 0 <= r < SecondsPerDay;
    assert a + k * SecondsPerDay == (q + k) * SecondsPerDay + r;
  }

  /** Days since a date is today's day number minus the date's. */
  lemma DaysSinceIsDayDifference(now: int, day: int)
    ensures DaysSince(now, day) == now / SecondsPerDay - day
  {
    DivShift(now, -day);
  }

  /** A whole number of days is within `hours / 24` exactly when `days * 24 <= hours`. */
  lemma WindowIsWholeDays(days: int, hours: nat)
    ensures InRecentWindow(days, hours) <==> 0 <= days && days * 24 <= hours
  {
    if 0 <= days {
      assert (days as real <= hours as real / 24.0) <==> (days as real) * 24.0 <= hours as real;
      assert (days as real) * 24.0 == (days * 24) as real;
    }
  }

  // ---- What each notification kind requires ----

  /** A movie earns `release` iff release notifications are on, the release date parses,
      the status is 'Released' and the date is at most `hours / 24` days old. */
  lemma ReleaseIff(sub: Subscription, details: Details, now: int, hours: nat)
    requires sub.media == Movie
    ensures (CheckForUpdates(sub, details, now, hours).Ok? &&
             CheckForUpdates(sub, details, now, hours).value.Some? &&
             CheckForUpdates(sub, details, now, hours).value.value.kind == Release)
      <==> (sub.notifyOnRelease && details.releaseDate.On? && details.status == Released
            && 0 <= DaysSince(now, details.releaseDate.day)
            && DaysSince(now, details.releaseDate.day) * 24 <= hours)
  {
    if details.releaseDate.On? {
      WindowIsWholeDays(DaysSince(now, details.releaseDate.day), hours);
    }
  }

  /** With the default 6-hour interval only the release day itself qualifies: `now` must fall
      in the 24 hours starting at the release date's midnight. */
  lemma DefaultReleaseWindowIsReleaseDay(sub: Subscription, details: Details, now: int)
    requires sub.media == Movie && sub.notifyOnRelease && details.status == Released
    requires details.releaseDate.On?
    ensures CheckForUpdates(sub, details, now, 6) == Ok(Some(Notification(Release, details.releaseDate.day, details.title, None)))
      <==> details.releaseDate.day * SecondsPerDay <= now < (details.releaseDate.day + 1) * SecondsPerDay
  {
    var d := details.releaseDate.day;
    DaysSinceIsDayDifference(now, d);
    WindowIsWholeDays(DaysSince(now, d), 6);
    if d * SecondsPerDay <= now < (d + 1) * SecondsPerDay {
      DivShift(now - d * SecondsPerDay, d);
    } else {
      DivShift(now - d * SecondsPerDay, d);
    }
  }

  /** A movie earns `upcoming` iff release notifications are on, the date parses, the status
      is one of the two production states and the date is 0 to 7 whole days ahead. */
  lemma UpcomingIff(sub: Subscription, details: Details, now: int, hours: nat)
    requires sub.media == Movie
    ensures (CheckForUpdates(sub, details, now, hours).Ok? &&
             CheckForUpdates(sub, details, now, hours).value.Some? &&
             CheckForUpdates(sub, details, now, hours).value.value.kind == Upcoming)
      <==> (sub.notifyOnRelease && details.releaseDate.On?
            && (details.status == PostProduction || details.status == InProduction)
            && 0 <= DaysUntil(now, details.releaseDate.day) <= 7)
  {
  }

  /** In seconds: `upcoming` covers release midnights from `now` up to but excluding
      `now` plus eight days. So at midday a date eight calendar days ahead still qualifies. */
  lemma UpcomingSpan(now: int, day: int)
    ensures 0 <= DaysUntil(now, day) <= 7 <==> now <= day * SecondsPerDay < now + 8 * SecondsPerDay
  {
  }

  /** Any status other than 'Released', 'Post Production' and 'In Production' gives no
      movie notification (a malformed date still raises). */
  lemma OtherStatusSilent(sub: Subscription, details: Details, now: int, hours: nat)
    requires sub.media == Movie
    requires details.status != Released && details.status != PostProduction
      && details.status != InProduction
    ensures CheckForUpdates(sub, details, now, hours) == Ok(None) ||
            CheckForUpdates(sub, details, now, hours) == Err(DateParseError)
  {
  }

  /** A show earns `new_episode` iff update notifications are on, a next episode with a
      parsable air date exists and that date is exactly one whole day ahead; the
      notification carries that episode. */
  lemma NewEpisodeIff(sub: Subscription, details: Details, now: int, hours: nat)
    requires sub.media == Tv
    ensures (CheckForUpdates(sub, details, now, hours).Ok? &&
             CheckForUpdates(sub, details, now, hours).value.Some? &&
             CheckForUpdates(sub, details, now, hours).value.value.kind == NewEpisode)
      <==> (sub.notifyOnUpdate && details.nextEpisode.Some? && details.nextEpisode.value.airDate.On?
            && DaysUntil(now, details.nextEpisode.value.airDate.day) == 1)
    ensures CheckForUpdates(sub, details, now, hours).Ok? &&
            CheckForUpdates(sub, details, now, hours).value.Some? &&
            CheckForUpdates(sub, details, now, hours).value.value.kind == NewEpisode
      ==> CheckForUpdates(sub, details, now, hours).value.value.episode == details.nextEpisode
  {
  }

  /** `episode_aired` never fires while a next episode is announced, even when its air date
      is missing or not tomorrow: the `elif` belongs to the next-episode test. */
  lemma EpisodeAiredNeedsNoNextEpisode(sub: Subscription, details: Details, now: int, hours: nat)
    requires sub.notifyOnUpdate && details.nextEpisode.Some?
    ensures CheckForUpdates(sub, details, now, hours).Ok? && CheckForUpdates(sub, details, now, hours).value.Some?
      ==> CheckForUpdates(sub, details, now, hours).value.value.kind != EpisodeAired
  {
  }

  /** A movie only ever gets movie kinds and a show only show kinds; other media types get
      nothing at all. */
  lemma KindMatchesMedia(sub: Subscription, details: Details, now: int, hours: nat)
    ensures var r := CheckForUpdates(sub, details, now, hours);
      r.Ok? && r.value.Some? ==>
        (sub.media == Movie && (r.value.value.kind == Release || r.value.value.kind == Upcoming))
        || (sub.media == Tv && (r.value.value.kind == NewEpisode || r.value.value.kind == EpisodeAired))
    ensures sub.media.OtherMedia? ==> CheckForUpdates(sub, details, now, hours) == Ok(None)
  {
  }

  /** Two polls six hours apart on the release day both report the release: the only guard
      against repeats is the `last_checked` interval, shorter than the one-day window. */
  lemma ReleaseRepeatsWithinDay(sub: Subscription, details: Details, day: int)
    requires sub.media == Movie && sub.notifyOnRelease && details.status == Released
    requires details.releaseDate == On(day)
    ensures CheckForUpdates(sub, details, day * SecondsPerDay, 6).Ok?
    ensures CheckForUpdates(sub, details, day * SecondsPerDay, 6).value.Some?
    ensures CheckForUpdates(sub, details, day * SecondsPerDay + 6 * SecondsPerHour, 6).value ==
            CheckForUpdates(sub, details, day * SecondsPerDay, 6).value
  {
    DefaultReleaseWindowIsReleaseDay(sub, details, day * SecondsPerDay);
    DefaultReleaseWindowIsReleaseDay(sub, details, day * SecondsPerDay + 6 * SecondsPerHour);
  }

  // ---- Destination resolution (`_send_notification`) ----

  /** What the bot can resolve inside a guild it is in. */
  datatype GuildView = GuildView(systemChannel: Option<int>, channels: set<int>, roles: set<int>)

  /** A message as handed to `channel.send`. */
  datatype Message = Message(channel: int, mention: Option<int>, subscriptionId: int, notification: Notification)

  /** The configured channel when its id is set (even if it no longer resolves), otherwise
      the guild's system channel. */
  function ResolveChannel(row: GuildRow, view: GuildView): (r: Option<int>)
    ensures IsSet(row.channelId) ==> (r.Some? <==> row.channelId.value in view.channels)
    ensures IsSet(row.channelId) && r.Some? ==> r.value == row.channelId.value
    ensures !IsSet(row.channelId) ==> r == view.systemChannel
  {
    if !IsSet(row.channelId) then view.systemChannel
    else if row.channelId.value in view.channels then Some(row.channelId.value)
    else None
  }

  /** The role to mention: only when the id is set, pinging is enabled and the role resolves. */
  function RoleMention(row: GuildRow, view: GuildView, pingRole: bool): (r: Option<int>)
    ensures r.Some? <==> IsSet(row.roleId) && pingRole && row.roleId.value in view.roles
    ensures r.Some? ==> r.value == row.roleId.value
  {
    if IsSet(row.roleId) && pingRole && row.roleId.value in view.roles then Some(row.roleId.value) else None
  }

  /** `_send_notification`: the message sent, or None when no channel resolves. */
  function Dispatch(row: GuildRow, view: GuildView, sub: Subscription, n: Notification, pingRole: bool): (r: Option<Message>)
    ensures r.Some? <==> ResolveChannel(row, view).Some?
    ensures r.Some? ==> (r.value.channel == ResolveChannel(row, view).value
      && r.value.mention == RoleMention(row, view, pingRole)
      && r.value.subscriptionId == sub.id && r.value.notification == n)
  {
    match ResolveChannel(row, view)
    case None => None
    case Some(c) => Some(Message(c, RoleMention(row, view, pingRole), sub.id, n))
  }

  /** A configured channel that no longer resolves does not fall back to the system channel:
      nothing is sent even when the guild has one. */
  lemma NoFallbackFromStaleChannel(row: GuildRow, view: GuildView, sub: Subscription, n: Notification, pingRole: bool)
    requires IsSet(row.channelId) && row.channelId.value !in view.channels
    ensures Dispatch(row, view, sub, n, pingRole).None?
  {
  }

  // ---- One cycle of `update_check` ----

  /** Which details endpoint a subscription is fetched from. */
  datatype FetchKey = MovieKey(tmdbId: int) | TvKey(tmdbId: int)

  function KeyFor(s: Subscription): FetchKey
  {
    if s.media == Movie then MovieKey(s.tmdbId) else TvKey(s.tmdbId)
  }

  /** A fetch issued for a subscription, by the `step`-th subscription the cycle handled. */
  datatype Fetch = Fetch(subscriptionId: int, key: FetchKey, step: nat)

  /** The `datetime.utcnow()` readings taken while one subscription is handled: for the
      staleness test, for the day counts in `_check_for_updates`, and the value written to
      `last_checked` once the fetch and the send are done. */
  datatype Readings = Readings(check: int, eval: int, write: int)

  /** A clock read in order. `clock(j)` are the readings for the j-th subscription a cycle
      handles: they do not go back within one subscription, and a later subscription's
      readings come no earlier than an earlier one's write. */
  ghost predicate InOrder(clock: nat -> Readings)
  {
    && (forall j: nat :: clock(j).check <= clock(j).eval <= clock(j).write)
    && (forall i: nat, j: nat :: i < j ==> clock(i).write <= clock(j).check)
  }

  lemma CheckMonotone(clock: nat -> Readings, i: nat, j: nat)
    requires InOrder(clock) && i <= j
    ensures clock(i).check <= clock(j).check
  {
    if i < j {
      assert clock(i).check <= clock(i).write <= clock(j).check;
    }
  }

  /** Checked less than one interval before `now`, so skipped. */
  predicate Recent(s: Subscription, now: int, hours: nat)
  {
    s.lastChecked.Some? && now - s.lastChecked.value < hours * SecondsPerHour
  }

  /** What handling one subscription does. `catalog` holds the details the API would return;
      a key missing from it is a failed request. */
  datatype SubStep =
    | Skipped
    | FetchFailed(key: FetchKey)
    | EvalFailed(key: FetchKey)
    | Evaluated(key: FetchKey, notification: Option<Notification>, message: Option<Message>)

  function StepSub(s: Subscription, row: GuildRow, view: GuildView, catalog: map<FetchKey, Details>,
                   r: Readings, hours: nat, pingRole: bool): SubStep
  {
    if Recent(s, r.check, hours) then Skipped
    else
      var key := KeyFor(s);
      if key !in catalog then FetchFailed(key)
      else match CheckForUpdates(s, catalog[key], r.eval, hours)
        case Err(_) => EvalFailed(key)
        case Ok(n) => Evaluated(key, n, if n.Some? then Dispatch(row, view, s, n.value, pingRole) else None)
  }

  /** A step that is not skipped fetched from the subscription's own endpoint after finding
      it stale, and a message is only sent for a notification. */
  lemma StepSubShape(s: Subscription, row: GuildRow, view: GuildView, catalog: map<FetchKey, Details>,
                     r: Readings, hours: nat, pingRole: bool)
    ensures var step := StepSub(s, row, view, catalog, r, hours, pingRole);
      && (step.Skipped? <==> Recent(s, r.check, hours))
      && (!step.Skipped? ==> step.key == KeyFor(s))
      && (step.Evaluated? && step.message.Some? ==> step.notification.Some?)
  {
  }

  /** The subscription table, the fetches issued, the messages sent, `total_updates`, and
      the number of subscriptions handled so far. */
  datatype PollState = PollState(rows: seq<Subscription>, fetched: seq<Fetch>, sent: seq<Message>, total: nat, steps: nat)

  /** Handling `s` with readings `r`: only an evaluation writes `last_checked`, and it
      writes the last reading. */
  function ApplyStep(st: PollState, s: Subscription, step: SubStep, r: Readings): PollState
  {
    var st' := st.(steps := st.steps + 1);
    match step
    case Skipped => st'
    case FetchFailed(k) => st'.(fetched := st.fetched + [Fetch(s.id, k, st.steps)])
    case EvalFailed(k) => st'.(fetched := st.fetched + [Fetch(s.id, k, st.steps)])
    case Evaluated(k, n, m) =>
      PollState(WithLastChecked(st.rows, s.id, r.write), st.fetched + [Fetch(s.id, k, st.steps)],
                st.sent + (if m.Some? then [m.value] else []), st.total + (if n.Some? then 1 else 0),
                st.steps + 1)
  }

  lemma AppendAssoc<T>(a: seq<T>, b: seq<T>, c: seq<T>)
    ensures (a + b) + c == a + (b + c)
  {
  }

  /** The inner loop over one guild's subscriptions; the j-th subscription handled in the
      cycle gets the readings `clock(j)`. */
  function RunSubs(st: PollState, subs: seq<Subscription>, row: GuildRow, view: GuildView,
                   catalog: map<FetchKey, Details>, clock: nat -> Readings, hours: nat, pingRole: bool): PollState
    decreases |subs|
  {
    if subs == [] then st
    else
      var s := subs[|subs| - 1];
      var prev := RunSubs(st, subs[..|subs| - 1], row, view, catalog, clock, hours, pingRole);
      var r := clock(prev.steps);
      ApplyStep(prev, s, StepSub(s, row, view, catalog, r, hours, pingRole), r)
  }

  lemma RunSubsSnoc(st: PollState, subs: seq<Subscription>, j: nat, row: GuildRow, view: GuildView,
                    catalog: map<FetchKey, Details>, clock: nat -> Readings, hours: nat, pingRole: bool)
    requires j < |subs|
    ensures var prev := RunSubs(st, subs[..j], row, view, catalog, clock, hours, pingRole);
      RunSubs(st, subs[..j + 1], row, view, catalog, clock, hours, pingRole)
      == ApplyStep(prev, subs[j], StepSub(subs[j], row, view, catalog, clock(prev.steps), hours, pingRole),
                   clock(prev.steps))
  {
    assert subs[..j + 1][..j] == subs[..j];
    assert subs[..j + 1][j] == subs[j];
  }

  /** One guild: skipped when the bot is not in it, otherwise its current subscriptions. */
  function RunGuild(st: PollState, g: GuildRow, discord: map<int, GuildView>,
                    catalog: map<FetchKey, Details>, clock: nat -> Readings, hours: nat, pingRole: bool): PollState
  {
    if g.id !in discord then st
    else RunSubs(st, SubsOf(st.rows, g.id), g, discord[g.id], catalog, clock, hours, pingRole)
  }

  /** The outer loop over the auto-update-enabled guilds. */
  function RunGuilds(st: PollState, guilds: seq<GuildRow>, discord: map<int, GuildView>,
                     catalog: map<FetchKey, Details>, clock: nat -> Readings, hours: nat, pingRole: bool): PollState
    decreases |guilds|
  {
    if guilds == [] then st
    else
      RunGuild(RunGuilds(st, guilds[..|guilds| - 1], discord, catalog, clock, hours, pingRole),
               guilds[|guilds| - 1], discord, catalog, clock, hours, pingRole)
  }

  lemma RunGuildsSnoc(st: PollState, guilds: seq<GuildRow>, i: nat, discord: map<int, GuildView>,
                      catalog: map<FetchKey, Details>, clock: nat -> Readings, hours: nat, pingRole: bool)
    requires i < |guilds|
    ensures RunGuilds(st, guilds[..i + 1], discord, catalog, clock, hours, pingRole)
         == RunGuild(RunGuilds(st, guilds[..i], discord, catalog, clock, hours, pingRole), guilds[i],
                     discord, catalog, clock, hours, pingRole)
  {
    assert guilds[..i + 1][..i] == guilds[..i];
    assert guilds[..i + 1][i] == guilds[i];
  }

  /** A whole cycle starting from the table `rows`. */
  function Cycle(rows: seq<Subscription>, guildRows: seq<GuildRow>, discord: map<int, GuildView>,
                 catalog: map<FetchKey, Details>, clock: nat -> Readings, hours: nat, pingRole: bool): PollState
  {
    RunGuilds(PollState(rows, [], [], 0, 0), EnabledGuilds(guildRows), discord, catalog, clock, hours, pingRole)
  }

  // ---- What a cycle does to the table ----

  /** The guilds whose subscriptions a cycle reads: auto-update enabled and known to the bot. */
  function PolledGuilds(guildRows: seq<GuildRow>, discord: map<int, GuildView>): (r: set<int>)
    ensures forall id :: id in r <==> exists g :: g in guildRows && g.autoUpdateEnabled && g.id == id && id in discord
  {
    set g | g in guildRows && g.autoUpdateEnabled && g.id in discord :: g.id
  }

  /** `lc` is a `last_checked` value the cycle wrote over row `s0`: the write reading of a
      step whose staleness test found `s0` stale, taken no later than `bound`. */
  ghost predicate Stamped(s0: Subscription, lc: Option<int>, clock: nat -> Readings, bound: int, hours: nat)
  {
    lc.Some? && lc.value <= bound &&
    exists j: nat :: lc.value == clock(j).write && !Recent(s0, clock(j).check, hours)
  }

  /** `s` is row `s0`, untouched or with only `last_checked` rewritten by the cycle. */
  ghost predicate From(s0: Subscription, s: Subscription, clock: nat -> Readings, bound: int, hours: nat)
  {
    s == s0 || (s == s0.(lastChecked := s.lastChecked) && Stamped(s0, s.lastChecked, clock, bound, hours))
  }

  ghost predicate Touched(rows0: seq<Subscription>, rows: seq<Subscription>, clock: nat -> Readings, bound: int, hours: nat)
  {
    |rows| == |rows0| && forall k :: 0 <= k < |rows| ==> From(rows0[k], rows[k], clock, bound, hours)
  }

  /** `s` is a row of `rows0`, possibly already stamped in this cycle. */
  ghost predicate Origin(rows0: seq<Subscription>, s: Subscription, clock: nat -> Readings, bound: int, hours: nat)
  {
    exists k :: 0 <= k < |rows0| && From(rows0[k], s, clock, bound, hours)
  }

  /** The fetch was issued for a row of `rows0` that belongs to a polled guild and was
      stale at the staleness test of the step that issued it, from its media type's endpoint. */
  ghost predicate FetchedFrom(rows0: seq<Subscription>, f: Fetch, ids: set<int>, clock: nat -> Readings, hours: nat)
  {
    exists k :: 0 <= k < |rows0| && rows0[k].id == f.subscriptionId && KeyFor(rows0[k]) == f.key
      && rows0[k].guildId in ids && !Recent(rows0[k], clock(f.step).check, hours)
  }

  /** What holds of the state at every point of a cycle that started from `rows0`. */
  ghost predicate CycleInv(rows0: seq<Subscription>, st: PollState, ids: set<int>, clock: nat -> Readings, hours: nat)
  {
    && Touched(rows0, st.rows, clock, clock(st.steps).check, hours)
    && (forall k :: 0 <= k < |rows0| && rows0[k].guildId !in ids ==> st.rows[k] == rows0[k])
    && |st.sent| <= st.total
    && (forall f :: f in st.fetched ==> f.step < st.steps && FetchedFrom(rows0, f, ids, clock, hours))
  }

  lemma TouchedOrigin(rows0: seq<Subscription>, rows: seq<Subscription>, s: Subscription,
                      clock: nat -> Readings, bound: int, hours: nat)
    requires Touched(rows0, rows, clock, bound, hours) && s in rows
    ensures Origin(rows0, s, clock, bound, hours)
  {
    var k :| 0 <= k < |rows| && rows[k] == s;
    assert From(rows0[k], s, clock, bound, hours);
  }

  lemma OriginWiden(rows0: seq<Subscription>, s: Subscription, clock: nat -> Readings, bound: int, bound': int, hours: nat)
    requires bound <= bound' && Origin(rows0, s, clock, bound, hours)
    ensures Origin(rows0, s, clock, bound', hours)
  {
    var k :| 0 <= k < |rows0| && From(rows0[k], s, clock, bound, hours);
    assert From(rows0[k], s, clock, bound', hours);
  }

  /** A row taken from `rows0`, found stale at `now`, was already stale in `rows0` at `now`:
      a stamp written earlier in the cycle is no later than `now`. */
  lemma StaleOrigin(s0: Subscription, s: Subscription, clock: nat -> Readings, now: int, hours: nat)
    requires InOrder(clock) && From(s0, s, clock, now, hours) && !Recent(s, now, hours)
    ensures !Recent(s0, now, hours)
  {
    if s != s0 {
      var j: nat :| s.lastChecked.value == clock(j).write && !Recent(s0, clock(j).check, hours);
      assert clock(j).check <= clock(j).write;
    }
  }

  lemma WidenTouched(rows0: seq<Subscription>, rows: seq<Subscription>, clock: nat -> Readings,
                     bound: int, bound': int, hours: nat)
    requires bound <= bound' && Touched(rows0, rows, clock, bound, hours)
    ensures Touched(rows0, rows, clock, bound', hours)
  {
    forall k | 0 <= k < |rows|
      ensures From(rows0[k], rows[k], clock, bound', hours)
    {
      assert From(rows0[k], rows[k], clock, bound, hours);
    }
  }

  /** Writing the stamp `t` over the row with `s0`'s id rewrites only that row, and only its
      `last_checked`, when `t` is a stamp the cycle may write over `s0`. */
  lemma StampKeepsTouched(rows0: seq<Subscription>, rows: seq<Subscription>, k0: int, t: int,
                          ids: set<int>, clock: nat -> Readings, bound: int, hours: nat)
    requires DistinctIds(rows0) && 0 <= k0 < |rows0| && rows0[k0].guildId in ids
    requires Touched(rows0, rows, clock, bound, hours)
    requires forall k :: 0 <= k < |rows0| && rows0[k].guildId !in ids ==> rows[k] == rows0[k]
    requires Stamped(rows0[k0], Some(t), clock, bound, hours)
    ensures var rows' := WithLastChecked(rows, rows0[k0].id, t);
      && Touched(rows0, rows', clock, bound, hours)
      && forall k :: 0 <= k < |rows0| && rows0[k].guildId !in ids ==> rows'[k] == rows0[k]
  {
    var rows' := WithLastChecked(rows, rows0[k0].id, t);
    forall k | 0 <= k < |rows0|
      ensures From(rows0[k], rows'[k], clock, bound, hours)
      ensures rows0[k].guildId !in ids ==> rows'[k] == rows0[k]
    {
      assert From(rows0[k], rows[k], clock, bound, hours);
      if rows[k].id == rows0[k0].id {
        assert k == k0;
        assert rows'[k] == rows0[k0].(lastChecked := Some(t));
      }
    }
  }

  /** Logging the fetch of a row of a polled guild, stale at the test of step `n`, keeps
      every logged fetch accounted for. */
  lemma FetchKeepsLog(rows0: seq<Subscription>, fetched: seq<Fetch>, k0: int, n: nat,
                      ids: set<int>, clock: nat -> Readings, hours: nat)
    requires 0 <= k0 < |rows0| && rows0[k0].guildId in ids && !Recent(rows0[k0], clock(n).check, hours)
    requires forall f :: f in fetched ==> f.step < n && FetchedFrom(rows0, f, ids, clock, hours)
    ensures forall f :: f in fetched + [Fetch(rows0[k0].id, KeyFor(rows0[k0]), n)] ==>
      f.step < n + 1 && FetchedFrom(rows0, f, ids, clock, hours)
  {
    var f0 := Fetch(rows0[k0].id, KeyFor(rows0[k0]), n);
    assert FetchedFrom(rows0, f0, ids, clock, hours);
  }

  /** The invariant after a step that fetched row `k0` of `rows0` at step `n`, logged the
      fetch, and either left the rows alone or stamped that row with `t`. */
  lemma FetchedStepKeepsInv(rows0: seq<Subscription>, st: PollState, st': PollState, k0: int, t: Option<int>,
                            ids: set<int>, clock: nat -> Readings, hours: nat)
    requires DistinctIds(rows0) && 0 <= k0 < |rows0| && rows0[k0].guildId in ids
    requires CycleInv(rows0, st, ids, clock, hours)
    requires Touched(rows0, st.rows, clock, clock(st.steps + 1).check, hours)
    requires !Recent(rows0[k0], clock(st.steps).check, hours)
    requires t.Some? ==> Stamped(rows0[k0], t, clock, clock(st.steps + 1).check, hours)
    requires st'.rows == (if t.Some? then WithLastChecked(st.rows, rows0[k0].id, t.value) else st.rows)
    requires st'.fetched == st.fetched + [Fetch(rows0[k0].id, KeyFor(rows0[k0]), st.steps)]
    requires st'.steps == st.steps + 1 && |st'.sent| <= st'.total
    ensures CycleInv(rows0, st', ids, clock, hours)
  {
    FetchKeepsLog(rows0, st.fetched, k0, st.steps, ids, clock, hours);
    if t.Some? {
      StampKeepsTouched(rows0, st.rows, k0, t.value, ids, clock, clock(st.steps + 1).check, hours);
    }
  }

  /** One subscription step keeps the cycle invariant. */
  lemma StepKeepsInv(rows0: seq<Subscription>, st: PollState, s: Subscription, r: Readings, step: SubStep,
                     ids: set<int>, clock: nat -> Readings, hours: nat)
    requires InOrder(clock) && DistinctIds(rows0)
    requires CycleInv(rows0, st, ids, clock, hours)
    requires r == clock(st.steps)
    requires Origin(rows0, s, clock, r.check, hours) && s.guildId in ids
    requires !step.Skipped? ==> step.key == KeyFor(s) && !Recent(s, r.check, hours)
    requires step.Evaluated? && step.message.Some? ==> step.notification.Some?
    ensures CycleInv(rows0, ApplyStep(st, s, step, r), ids, clock, hours)
  {
    var n := st.steps;
    var st' := ApplyStep(st, s, step, r);
    var k0 :| 0 <= k0 < |rows0| && From(rows0[k0], s, clock, r.check, hours);
    assert s.id == rows0[k0].id && KeyFor(s) == KeyFor(rows0[k0]) && s.guildId == rows0[k0].guildId;
    var bound := clock(n + 1).check;
    assert r.check <= r.write <= bound;
    WidenTouched(rows0, st.rows, clock, r.check, bound, hours);
    if !step.Skipped? {
      StaleOrigin(rows0[k0], s, clock, r.check, hours);
      var t := if step.Evaluated? then Some(r.write) else None;
      if step.Evaluated? {
        assert Stamped(rows0[k0], t, clock, bound, hours) by {
          assert r.write == clock(n).write && !Recent(rows0[k0], clock(n).check, hours);
        }
      }
      FetchedStepKeepsInv(rows0, st, st', k0, t, ids, clock, hours);
    }
  }

  lemma {:induction false} RunSubsInv(rows0: seq<Subscription>, st: PollState, subs: seq<Subscription>,
                                      g: GuildRow, view: GuildView, catalog: map<FetchKey, Details>,
                                      ids: set<int>, clock: nat -> Readings, hours: nat, pingRole: bool)
    requires InOrder(clock) && DistinctIds(rows0) && g.id in ids
    requires CycleInv(rows0, st, ids, clock, hours)
    requires forall s :: s in subs ==> s.guildId == g.id && Origin(rows0, s, clock, clock(st.steps).check, hours)
    ensures var res := RunSubs(st, subs, g, view, catalog, clock, hours, pingRole);
      CycleInv(rows0, res, ids, clock, hours) && res.steps == st.steps + |subs|
    decreases |subs|
  {
    if subs != [] {
      var s := subs[|subs| - 1];
      var init := subs[..|subs| - 1];
      assert forall x :: x in init ==> x in subs;
      RunSubsInv(rows0, st, init, g, view, catalog, ids, clock, hours, pingRole);
      var prev := RunSubs(st, init, g, view, catalog, clock, hours, pingRole);
      var r := clock(prev.steps);
      CheckMonotone(clock, st.steps, prev.steps);
      OriginWiden(rows0, s, clock, clock(st.steps).check, r.check, hours);
      StepSubShape(s, g, view, catalog, r, hours, pingRole);
      StepKeepsInv(rows0, prev, s, r, StepSub(s, g, view, catalog, r, hours, pingRole), ids, clock, hours);
    }
  }

  lemma {:induction false} RunGuildsInv(rows0: seq<Subscription>, st: PollState, guilds: seq<GuildRow>,
                                        discord: map<int, GuildView>, catalog: map<FetchKey, Details>,
                                        ids: set<int>, clock: nat -> Readings, hours: nat, pingRole: bool)
    requires InOrder(clock) && DistinctIds(rows0)
    requires CycleInv(rows0, st, ids, clock, hours)
    requires forall g :: g in guilds && g.id in discord ==> g.id in ids
    ensures CycleInv(rows0, RunGuilds(st, guilds, discord, catalog, clock, hours, pingRole), ids, clock, hours)
    decreases |guilds|
  {
    if guilds != [] {
      var g := guilds[|guilds| - 1];
      var init := guilds[..|guilds| - 1];
      assert forall x :: x in init ==> x in guilds;
      RunGuildsInv(rows0, st, init, discord, catalog, ids, clock, hours, pingRole);
      var prev := RunGuilds(st, init, discord, catalog, clock, hours, pingRole);
      if g.id in discord {
        var subs := SubsOf(prev.rows, g.id);
        SubsOfIff(prev.rows, g.id);
        forall s | s in subs
          ensures s.guildId == g.id && Origin(rows0, s, clock, clock(prev.steps).check, hours)
        {
          TouchedOrigin(rows0, prev.rows, s, clock, clock(prev.steps).check, hours);
        }
        RunSubsInv(rows0, prev, subs, g, discord[g.id], catalog, ids, clock, hours, pingRole);
      }
    }
  }

  /** One cycle over a table with distinct ids, on a clock read in order:
      - a row changes at most by having `last_checked` rewritten, and the value written is
        the write reading of a step whose staleness test found the row stale, so no earlier
        than the cycle's first reading;
      - rows of guilds that are not polled do not change;
      - every fetch is for a row of a polled guild that was stale at the test of the step
        that issued it, from its media type's endpoint;
      - at most `total_updates` messages are sent (fewer when no channel resolves). */
  lemma CycleEffects(rows: seq<Subscription>, guildRows: seq<GuildRow>, discord: map<int, GuildView>,
                     catalog: map<FetchKey, Details>, clock: nat -> Readings, hours: nat, pingRole: bool)
    requires DistinctIds(rows) && InOrder(clock)
    ensures var c := Cycle(rows, guildRows, discord, catalog, clock, hours, pingRole);
      && |c.rows| == |rows|
      && (forall k :: 0 <= k < |rows| && c.rows[k] != rows[k] ==>
            && c.rows[k] == rows[k].(lastChecked := c.rows[k].lastChecked)
            && c.rows[k].lastChecked.Some?
            && clock(0).check <= c.rows[k].lastChecked.value
            && exists j: nat :: c.rows[k].lastChecked.value == clock(j).write && !Recent(rows[k], clock(j).check, hours))
      && (forall k :: 0 <= k < |rows| && rows[k].guildId !in PolledGuilds(guildRows, discord) ==> c.rows[k] == rows[k])
      && (forall f :: f in c.fetched ==> FetchedFrom(rows, f, PolledGuilds(guildRows, discord), clock, hours))
      && |c.sent| <= c.total
  {
    var ids := PolledGuilds(guildRows, discord);
    var st0 := PollState(rows, [], [], 0, 0);
    assert CycleInv(rows, st0, ids, clock, hours);
    RunGuildsInv(rows, st0, EnabledGuilds(guildRows), discord, catalog, ids, clock, hours, pingRole);
    var c := Cycle(rows, guildRows, discord, catalog, clock, hours, pingRole);
    forall k | 0 <= k < |rows| && c.rows[k] != rows[k]
      ensures clock(0).check <= c.rows[k].lastChecked.value
    {
      assert From(rows[k], c.rows[k], clock, clock(c.steps).check, hours);
      var j: nat :| c.rows[k].lastChecked.value == clock(j).write && !Recent(rows[k], clock(j).check, hours);
      CheckMonotone(clock, 0, j);
    }
  }

  /** A cycle over a single enabled guild the bot is in, whose table holds only that guild's
      subscriptions, walks the whole table in order. */
  lemma SingleGuildCycle(rows: seq<Subscription>, guild: GuildRow, discord: map<int, GuildView>,
                         catalog: map<FetchKey, Details>, clock: nat -> Readings, hours: nat, pingRole: bool)
    requires guild.autoUpdateEnabled && guild.id in discord
    requires forall s :: s in rows ==> s.guildId == guild.id
    ensures Cycle(rows, [guild], discord, catalog, clock, hours, pingRole)
         == RunSubs(PollState(rows, [], [], 0, 0), rows, guild, discord[guild.id], catalog, clock, hours, pingRole)
  {
    var st0 := PollState(rows, [], [], 0, 0);
    assert [guild][..0] == [];
    assert EnabledGuilds([guild]) == [guild];
    assert RunGuilds(st0, [guild], discord, catalog, clock, hours, pingRole)
        == RunGuild(RunGuilds(st0, [], discord, catalog, clock, hours, pingRole), guild, discord, catalog, clock, hours, pingRole);
    SubsOfAll(rows, guild.id);
  }

  lemma {:induction false} SubsOfAll(rows: seq<Subscription>, guildId: int)
    requires forall s :: s in rows ==> s.guildId == guildId
    ensures SubsOf(rows, guildId) == rows
    decreases |rows|
  {
    if rows != [] {
      var init := rows[..|rows| - 1];
      assert forall s :: s in init ==> s in rows;
      SubsOfAll(init, guildId);
      assert rows == init + [rows[|rows| - 1]];
    }
  }

  /** Running the inner loop over one subscription is one step, with the next readings. */
  lemma RunSubsSingle(st: PollState, s: Subscription, g: GuildRow, view: GuildView,
                      catalog: map<FetchKey, Details>, clock: nat -> Readings, hours: nat, pingRole: bool)
    ensures RunSubs(st, [s], g, view, catalog, clock, hours, pingRole)
         == ApplyStep(st, s, StepSub(s, g, view, catalog, clock(st.steps), hours, pingRole), clock(st.steps))
  {
    assert [s][..0] == [];
  }

  function ScenarioGuild(): GuildRow { GuildRow(1, "g", "!", Some(10), None, true, "en-US") }
  function ScenarioDiscord(): map<int, GuildView> { map[1 := GuildView(None, {10}, {})] }
  function ScenarioSub(): Subscription { Subscription(7, 1, 550, Movie, "Film", None, 0, None, true, true) }
  /** A movie released on day 100. */
  function ScenarioCatalog(): map<FetchKey, Details>
  {
    map[MovieKey(550) := Details(Some("Film"), None, Released, On(100), Absent, None)]
  }
  /** One hour into day 100. */
  function ScenarioNow(): int { 100 * SecondsPerDay + SecondsPerHour }
  /** A cycle starting at `start` in which each subscription is tested and evaluated at
      once and stamped one second later, after its fetch and send. */
  function ScenarioClock(start: int): nat -> Readings
  {
    (j: nat) => Readings(start + 2 * j, start + 2 * j, start + 2 * j + 1)
  }
  function ScenarioMessage(): Message { Message(10, None, 7, Notification(Release, 100, Some("Film"), None)) }

  /** Handling the scenario's movie on its release day, when the row is stale, announces the
      release in the configured channel. */
  lemma ScenarioReleaseStep(s: Subscription, r: Readings)
    requires s == ScenarioSub().(lastChecked := s.lastChecked) && !Recent(s, r.check, 6)
    requires 100 * SecondsPerDay <= r.eval < 101 * SecondsPerDay
    ensures StepSub(s, ScenarioGuild(), ScenarioDiscord()[1], ScenarioCatalog(), r, 6, true)
         == Evaluated(MovieKey(550), Some(ScenarioMessage().notification), Some(ScenarioMessage()))
  {
    var n := ScenarioMessage().notification;
    DaysSinceIsDayDifference(r.eval, 100);
    assert DaysSince(r.eval, 100) == 0;
    assert CheckForUpdates(s, ScenarioCatalog()[MovieKey(550)], r.eval, 6) == Ok(Some(n));
    assert Dispatch(ScenarioGuild(), ScenarioDiscord()[1], s, n, true) == Some(ScenarioMessage());
  }

  /** The first cycle on the release day sends the release message to the configured channel,
      without a mention, and stamps the row with the time of the write, one second after the
      staleness test. */
  lemma ScenarioFirstCycle()
    ensures var c := Cycle([ScenarioSub()], [ScenarioGuild()], ScenarioDiscord(), ScenarioCatalog(),
                           ScenarioClock(ScenarioNow()), 6, true);
      && c.total == 1
      && c.sent == [ScenarioMessage()]
      && c.fetched == [Fetch(7, MovieKey(550), 0)]
      && c.rows == [ScenarioSub().(lastChecked := Some(ScenarioNow() + 1))]
  {
    var sub := ScenarioSub();
    var clock := ScenarioClock(ScenarioNow());
    var r := clock(0);
    assert r == Readings(ScenarioNow(), ScenarioNow(), ScenarioNow() + 1);
    SingleGuildCycle([sub], ScenarioGuild(), ScenarioDiscord(), ScenarioCatalog(), clock, 6, true);
    RunSubsSingle(PollState([sub], [], [], 0, 0), sub, ScenarioGuild(), ScenarioDiscord()[1], ScenarioCatalog(), clock, 6, true);
    ScenarioReleaseStep(sub, r);
    var st0 := PollState([sub], [], [], 0, 0);
    var step := StepSub(sub, ScenarioGuild(), ScenarioDiscord()[1], ScenarioCatalog(), r, 6, true);
    assert WithLastChecked([sub], 7, r.write) == [sub.(lastChecked := Some(r.write))];
    assert ApplyStep(st0, sub, step, r)
        == PollState([sub.(lastChecked := Some(r.write))], [Fetch(7, MovieKey(550), 0)], [ScenarioMessage()], 1, 1);
  }

  /** The table the first cycle leaves behind. */
  function ScenarioStamped(): seq<Subscription> { [ScenarioSub().(lastChecked := Some(ScenarioNow() + 1))] }

  /** A cycle an hour later finds the stamped row within the interval: nothing is fetched,
      sent or written. */
  lemma ScenarioSecondCycleSkips()
    ensures var c := Cycle(ScenarioStamped(), [ScenarioGuild()], ScenarioDiscord(), ScenarioCatalog(),
                           ScenarioClock(ScenarioNow() + SecondsPerHour), 6, true);
      c.total == 0 && c.sent == [] && c.fetched == [] && c.rows == ScenarioStamped()
  {
    var clock := ScenarioClock(ScenarioNow() + SecondsPerHour);
    var s := ScenarioStamped()[0];
    assert clock(0).check == ScenarioNow() + SecondsPerHour;
    SingleGuildCycle(ScenarioStamped(), ScenarioGuild(), ScenarioDiscord(), ScenarioCatalog(), clock, 6, true);
    RunSubsSingle(PollState([s], [], [], 0, 0), s, ScenarioGuild(), ScenarioDiscord()[1], ScenarioCatalog(), clock, 6, true);
  }

  /** The next tick of the six-hourly loop, six hours after the first, still skips the row:
      its stamp was written a second after its test, so it is one second short of the
      interval. */
  lemma ScenarioNextTickSkips()
    ensures var c := Cycle(ScenarioStamped(), [ScenarioGuild()], ScenarioDiscord(), ScenarioCatalog(),
                           ScenarioClock(ScenarioNow() + 6 * SecondsPerHour), 6, true);
      c.total == 0 && c.sent == [] && c.fetched == [] && c.rows == ScenarioStamped()
  {
    var clock := ScenarioClock(ScenarioNow() + 6 * SecondsPerHour);
    var s := ScenarioStamped()[0];
    assert clock(0).check == ScenarioNow() + 6 * SecondsPerHour;
    assert Recent(s, clock(0).check, 6);
    SingleGuildCycle(ScenarioStamped(), ScenarioGuild(), ScenarioDiscord(), ScenarioCatalog(), clock, 6, true);
    RunSubsSingle(PollState([s], [], [], 0, 0), s, ScenarioGuild(), ScenarioDiscord()[1], ScenarioCatalog(), clock, 6, true);
  }

  /** The tick after that, twelve hours after the first and still on the release day, sends
      the same release message again and stamps the row anew. */
  lemma ScenarioLaterTickRepeats()
    ensures var start := ScenarioNow() + 12 * SecondsPerHour;
      var c := Cycle(ScenarioStamped(), [ScenarioGuild()], ScenarioDiscord(), ScenarioCatalog(),
                     ScenarioClock(start), 6, true);
      && c.total == 1 && c.sent == [ScenarioMessage()]
      && c.rows == [ScenarioSub().(lastChecked := Some(start + 1))]
  {
    var start := ScenarioNow() + 12 * SecondsPerHour;
    var clock := ScenarioClock(start);
    var r := clock(0);
    assert r == Readings(start, start, start + 1);
    assert start == 8686800;
    var s := ScenarioStamped()[0];
    SingleGuildCycle(ScenarioStamped(), ScenarioGuild(), ScenarioDiscord(), ScenarioCatalog(), clock, 6, true);
    RunSubsSingle(PollState([s], [], [], 0, 0), s, ScenarioGuild(), ScenarioDiscord()[1], ScenarioCatalog(), clock, 6, true);
    assert !Recent(s, r.check, 6);
    ScenarioReleaseStep(s, r);
    assert WithLastChecked([s], 7, r.write) == [ScenarioSub().(lastChecked := Some(start + 1))];
  }

  /** The poller object: the fetches it has issued and the messages it has sent. */
  class AutoUpdater {
    var fetchLog: seq<Fetch>
    var outbox: seq<Message>
    const hours: nat
    const pingRole: bool

    constructor (hours: nat, pingRole: bool)
      ensures this.hours == hours && this.pingRole == pingRole
      ensures fetchLog == [] && outbox == []
    {
      this.hours := hours;
      this.pingRole := pingRole;
      fetchLog := [];
      outbox := [];
    }

    /** One subscription of the inner loop, the `tick`-th of the cycle, with clock readings
        `r`: the staleness test, the fetch, the evaluation, the notification and the
        `last_checked` write. Returns whether `total_updates` grows. */
    method PollSubscription(s: Subscription, g: GuildRow, view: GuildView, table: SubscriptionTable,
                            catalog: map<FetchKey, Details>, r: Readings, tick: nat) returns (counted: bool)
      requires table.Valid()
      modifies this, table
      ensures table.Valid()
      ensures var step := StepSub(s, g, view, catalog, r, hours, pingRole);
        && table.rows == (if step.Evaluated? then WithLastChecked(old(table.rows), s.id, r.write) else old(table.rows))
        && fetchLog == old(fetchLog) + (if step.Skipped? then [] else [Fetch(s.id, step.key, tick)])
        && outbox == old(outbox) + (if step.Evaluated? && step.message.Some? then [step.message.value] else [])
        && counted == (step.Evaluated? && step.notification.Some?)
    {
      counted := false;
      if !Recent(s, r.check, hours) {
        var key := KeyFor(s);
        fetchLog := fetchLog + [Fetch(s.id, key, tick)];
        if key in catalog {
          var ev := CheckForUpdates(s, catalog[key], r.eval, hours);
          if ev.Ok? {
            if ev.value.Some? {
              var m := Dispatch(g, view, s, ev.value.value, pingRole);
              if m.Some? {
                outbox := outbox + [m.value];
              }
              counted := true;
            }
            table.SetLastChecked(s.id, r.write);
          }
        }
      }
    }

    /** The table, the logs, the running count and the number of subscriptions handled are
        those of poll state `st`, with the logs continuing `log0` and `out0`. */
    ghost predicate Mirrors(table: SubscriptionTable, st: PollState, log0: seq<Fetch>, out0: seq<Message>,
                            total: nat, ticks: nat)
      reads this, table
    {
      && table.rows == st.rows && fetchLog == log0 + st.fetched && outbox == out0 + st.sent
      && total == st.total && ticks == st.steps
    }

    /** One turn of the inner loop, stated against the poll state before it. */
    method PollNext(s: Subscription, g: GuildRow, view: GuildView, table: SubscriptionTable,
                    catalog: map<FetchKey, Details>, clock: nat -> Readings, ghost prev: PollState,
                    ghost log0: seq<Fetch>, ghost out0: seq<Message>, total0: nat, ticks0: nat)
      returns (total: nat, ticks: nat)
      requires table.Valid() && Mirrors(table, prev, log0, out0, total0, ticks0)
      modifies this, table
      ensures table.Valid()
      ensures Mirrors(table, ApplyStep(prev, s, StepSub(s, g, view, catalog, clock(ticks0), hours, pingRole), clock(ticks0)),
                      log0, out0, total, ticks)
    {
      var r := clock(ticks0);
      ghost var step := StepSub(s, g, view, catalog, r, hours, pingRole);
      ghost var addF := if step.Skipped? then [] else [Fetch(s.id, step.key, ticks0)];
      ghost var addM := if step.Evaluated? && step.message.Some? then [step.message.value] else [];
      var counted := PollSubscription(s, g, view, table, catalog, r, ticks0);
      AppendAssoc(log0, prev.fetched, addF);
      AppendAssoc(out0, prev.sent, addM);
      total := if counted then total0 + 1 else total0;
      ticks := ticks0 + 1;
    }

    /** The inner loop of `update_check` for one guild the bot is in: the guild's
        subscriptions as read at the start of the loop, one after the other. */
    method PollGuild(g: GuildRow, view: GuildView, table: SubscriptionTable, catalog: map<FetchKey, Details>,
                     clock: nat -> Readings, ghost st: PollState, ghost log0: seq<Fetch>, ghost out0: seq<Message>,
                     total0: nat, ticks0: nat) returns (total: nat, ticks: nat)
      requires table.Valid()
      requires Mirrors(table, st, log0, out0, total0, ticks0)
      modifies this, table
      ensures table.Valid()
      ensures Mirrors(table, RunSubs(st, SubsOf(st.rows, g.id), g, view, catalog, clock, hours, pingRole),
                      log0, out0, total, ticks)
    {
      var subs := SubsOf(table.rows, g.id);
      total, ticks := total0, ticks0;
      var j := 0;
      while j < |subs|
        invariant 0 <= j <= |subs|
        invariant table.Valid()
        invariant Mirrors(table, RunSubs(st, subs[..j], g, view, catalog, clock, hours, pingRole), log0, out0, total, ticks)
      {
        RunSubsSnoc(st, subs, j, g, view, catalog, clock, hours, pingRole);
        ghost var prev := RunSubs(st, subs[..j], g, view, catalog, clock, hours, pingRole);
        total, ticks := PollNext(subs[j], g, view, table, catalog, clock, prev, log0, out0, total, ticks);
        j := j + 1;
      }
      assert subs[..|subs|] == subs;
    }

    /** `update_check`: walks the enabled guilds and their subscriptions, reading the clock
        `clock(j)` for the j-th subscription it handles, and returns `total_updates`. */
    method UpdateCheck(guildRows: seq<GuildRow>, discord: map<int, GuildView>, table: SubscriptionTable,
                       catalog: map<FetchKey, Details>, clock: nat -> Readings) returns (total: nat)
      requires table.Valid()
      modifies this, table
      ensures table.Valid()
      ensures var c := Cycle(old(table.rows), guildRows, discord, catalog, clock, hours, pingRole);
        && table.rows == c.rows
        && fetchLog == old(fetchLog) + c.fetched
        && outbox == old(outbox) + c.sent
        && total == c.total
    {
      var guilds := EnabledGuilds(guildRows);
      ghost var st0 := PollState(table.rows, [], [], 0, 0);
      ghost var log0 := fetchLog;
      ghost var out0 := outbox;
      total := 0;
      var ticks := 0;
      var i := 0;
      while i < |guilds|
        invariant 0 <= i <= |guilds|
        invariant table.Valid()
        invariant Mirrors(table, RunGuilds(st0, guilds[..i], discord, catalog, clock, hours, pingRole), log0, out0, total, ticks)
      {
        var g := guilds[i];
        ghost var st := RunGuilds(st0, guilds[..i], discord, catalog, clock, hours, pingRole);
        RunGuildsSnoc(st0, guilds, i, discord, catalog, clock, hours, pingRole);
        if g.id in discord {
          total, ticks := PollGuild(g, discord[g.id], table, catalog, clock, st, log0, out0, total, ticks);
        }
        i := i + 1;
      }
      assert guilds[..|guilds|] == guilds;
    }
  }
}
