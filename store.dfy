/** The bot's database tables (guilds, subscriptions, watchlists, ratings), held in memory as
    sequences of rows. Each table is an object whose rows the commands update in place. */
module Store {
  import opened Wrappers

  /** The `media_type` column: 'movie', 'tv', or any other string stored there. */
  datatype Media = Movie | Tv | OtherMedia(name: string)

  function MediaName(m: Media): string
  {
    match m
    case Movie => "movie"
    case Tv => "tv"
    case OtherMedia(n) => n
  }

  /** A guild's interest in one title. Times are seconds; `lastChecked` is NULL until the
      poller has evaluated the subscription once. */
  datatype Subscription = Subscription(
    id: int, guildId: int, tmdbId: int, media: Media, title: string,
    posterPath: Option<string>, subscribedAt: int, lastChecked: Option<int>,
    notifyOnRelease: bool, notifyOnUpdate: bool)

  /** Per-guild settings. A channel or role id of None or 0 counts as not set. */
  datatype GuildRow = GuildRow(
    id: int, name: string, prefix: string, channelId: Option<int>, roleId: Option<int>,
    autoUpdateEnabled: bool, language: string)

  datatype WatchItem = WatchItem(
    id: int, guildId: int, userId: int, tmdbId: int, media: Media, title: string,
    posterPath: Option<string>, watched: bool, addedAt: int, watchedAt: Option<int>)

  datatype Rating = Rating(userId: int, tmdbId: int, media: Media, score: real)

  /** An id column value that Python treats as truthy. */
  predicate IsSet(id: Option<int>)
  {
    id.Some? && id.value != 0
  }

  /** `get_subscriptions(guild_id)`: the guild's rows in table order. */
  function SubsOf(rows: seq<Subscription>, guildId: int): (r: seq<Subscription>)
    ensures |r| <= |rows|
  {
    if rows == [] then []
    else if rows[|rows| - 1].guildId == guildId then SubsOf(rows[..|rows| - 1], guildId) + [rows[|rows| - 1]]
    else SubsOf(rows[..|rows| - 1], guildId)
  }

  /** A guild's subscriptions are exactly the rows carrying its id. */
  lemma {:induction false} SubsOfIff(rows: seq<Subscription>, guildId: int)
    ensures forall s :: s in SubsOf(rows, guildId) <==> s in rows && s.guildId == guildId
  {
    if rows != [] {
      var init := rows[..|rows| - 1];
      SubsOfIff(init, guildId);
      assert rows == init + [rows[|rows| - 1]];
    }
  }

  ghost predicate DistinctIds(rows: seq<Subscription>)
  {
    forall i, j :: 0 <= i < j < |rows| ==> rows[i].id != rows[j].id
  }

  /** The UPDATE ... SET last_checked = t WHERE id = i statement. */
  function WithLastChecked(rows: seq<Subscription>, id: int, t: int): (r: seq<Subscription>)
    ensures |r| == |rows|
    ensures forall k :: 0 <= k < |rows| ==>
      r[k] == if rows[k].id == id then rows[k].(lastChecked := Some(t)) else rows[k]
  {
    seq(|rows|, k requires 0 <= k < |rows| =>
      if rows[k].id == id then rows[k].(lastChecked := Some(t)) else rows[k])
  }

  class SubscriptionTable {
    var rows: seq<Subscription>
    var nextId: int

    /** Primary keys are distinct and below the next one handed out. */
    ghost predicate Valid()
      reads this
    {
      DistinctIds(rows) && forall k :: 0 <= k < |rows| ==> rows[k].id < nextId
    }

    constructor ()
      ensures Valid() && rows == [] && nextId == 1
    {
      rows := [];
      nextId := 1;
    }

    /** `add_subscription`: a new row with the column defaults (both notify flags on,
        never checked). The table itself does not reject duplicates. */
    method Add(guildId: int, tmdbId: int, media: Media, title: string, posterPath: Option<string>, now: int)
      returns (s: Subscription)
      requires Valid()
      modifies this
      ensures Valid()
      ensures s == Subscription(old(nextId), guildId, tmdbId, media, title, posterPath, now, None, true, true)
      ensures rows == old(rows) + [s] && nextId == old(nextId) + 1
    {
      s := Subscription(nextId, guildId, tmdbId, media, title, posterPath, now, None, true, true);
      rows := rows + [s];
      nextId := nextId + 1;
    }

    /** `remove_subscription`: deletes the one row with this key. With no such row it
        reports False; with several, `scalar_one_or_none` raises and nothing is deleted. */
    method Remove(guildId: int, tmdbId: int, media: Media) returns (r: Result<bool, string>)
      requires Valid()
      modifies this
      ensures Valid() && nextId == old(nextId)
      ensures r == Ok(true) <==> |KeyMatches(old(rows), guildId, tmdbId, media)| == 1
      ensures r == Ok(false) <==> |KeyMatches(old(rows), guildId, tmdbId, media)| == 0
      ensures r.Ok? && r.value ==> rows == Without(old(rows), KeyMatches(old(rows), guildId, tmdbId, media)[0])
      ensures !(r.Ok? && r.value) ==> rows == old(rows)
    {
      var m := KeyMatches(rows, guildId, tmdbId, media);
      if |m| == 0 {
        r := Ok(false);
      } else if |m| == 1 {
        WithoutKeepsDistinct(rows, m[0]);
        rows := Without(rows, m[0]);
        r := Ok(true);
      } else {
        r := Err("MultipleResultsFound");
      }
    }

    /** The poller's write-back of `last_checked`. */
    method SetLastChecked(id: int, t: int)
      requires Valid()
      modifies this
      ensures Valid() && nextId == old(nextId)
      ensures rows == WithLastChecked(old(rows), id, t)
    {
      rows := WithLastChecked(rows, id, t);
    }
  }

  /** Rows whose (guild, tmdb id, media type) equal the given key, in table order. */
  function KeyMatches(rows: seq<Subscription>, guildId: int, tmdbId: int, media: Media): (r: seq<int>)
    ensures forall k :: 0 <= k < |r| ==> 0 <= r[k] < |rows|
    ensures forall k :: 0 <= k < |r| ==>
      rows[r[k]].guildId == guildId && rows[r[k]].tmdbId == tmdbId && rows[r[k]].media == media
    ensures forall i ::
      (0 <= i < |rows| && rows[i].guildId == guildId && rows[i].tmdbId == tmdbId && rows[i].media == media)
      ==> i in r
    decreases |rows|
  {
    if rows == [] then []
    else
      var prev := KeyMatches(rows[..|rows| - 1], guildId, tmdbId, media);
      var last := rows[|rows| - 1];
      if last.guildId == guildId && last.tmdbId == tmdbId && last.media == media
      then prev + [|rows| - 1] else prev
  }

  /** The table with row k deleted. */
  function Without<T>(rows: seq<T>, k: int): (r: seq<T>)
    requires 0 <= k < |rows|
    ensures |r| == |rows| - 1
    ensures forall i :: 0 <= i < k ==> r[i] == rows[i]
    ensures forall i :: k <= i < |r| ==> r[i] == rows[i + 1]
  {
    rows[..k] + rows[k + 1..]
  }

  lemma WithoutKeepsDistinct(rows: seq<Subscription>, k: int)
    requires 0 <= k < |rows| && DistinctIds(rows)
    ensures DistinctIds(Without(rows, k))
    ensures forall i :: 0 <= i < |Without(rows, k)| ==> Without(rows, k)[i] in rows
  {
    var r := Without(rows, k);
    forall i, j | 0 <= i < j < |r| ensures r[i].id != r[j].id {
      var i' := if i < k then i else i + 1;
      var j' := if j < k then j else j + 1;
      assert r[i] == rows[i'] && r[j] == rows[j'];
    }
  }

  /** The column a `/config` command writes; NoChange is `update_guild` with no columns. */
  datatype GuildUpdate =
    | SetAutoUpdate(enabled: bool) | SetChannel(channelId: int) | SetRole(roleId: int)
    | SetPrefix(prefix: string) | SetLanguage(language: string) | NoChange

  /** One guild row after the update: the named column takes the value, the others keep
      theirs. */
  function ApplyUpdate(g: GuildRow, u: GuildUpdate): (r: GuildRow)
    ensures r.id == g.id && r.name == g.name
    ensures u.SetAutoUpdate? ==> r == g.(autoUpdateEnabled := u.enabled)
    ensures u.SetChannel? ==> r == g.(channelId := Some(u.channelId))
    ensures u.SetRole? ==> r == g.(roleId := Some(u.roleId))
    ensures u.SetPrefix? ==> r == g.(prefix := u.prefix)
    ensures u.SetLanguage? ==> r == g.(language := u.language)
    ensures u.NoChange? ==> r == g
  {
    match u
    case SetAutoUpdate(e) => g.(autoUpdateEnabled := e)
    case SetChannel(c) => g.(channelId := Some(c))
    case SetRole(r) => g.(roleId := Some(r))
    case SetPrefix(p) => g.(prefix := p)
    case SetLanguage(l) => g.(language := l)
    case NoChange => g
  }

  /** The guilds table. `update_guild` sets the given columns on the row with that id. */
  class GuildTable {
    var rows: seq<GuildRow>

    constructor (rows: seq<GuildRow>)
      ensures this.rows == rows
    {
      this.rows := rows;
    }

    /** `update_guild(guild_id, **updates)`; rows of other guilds are untouched. */
    method Update(id: int, u: GuildUpdate)
      modifies this
      ensures |rows| == |old(rows)|
      ensures forall k :: 0 <= k < |rows| ==>
        rows[k] == if old(rows)[k].id == id then ApplyUpdate(old(rows)[k], u) else old(rows)[k]
    {
      var before := rows;
      rows := seq(|before|, k requires 0 <= k < |before| =>
        if before[k].id == id then ApplyUpdate(before[k], u) else before[k]);
    }
  }

  /** `get_guild`: the first row with that primary key, if any. */
  function FindGuild(rows: seq<GuildRow>, id: int): (r: Option<GuildRow>)
    ensures r.Some? ==> r.value in rows && r.value.id == id
    ensures r.None? ==> forall g :: g in rows ==> g.id != id
  {
    if rows == [] then None
    else if rows[0].id == id then Some(rows[0])
    else FindGuild(rows[1..], id)
  }

  /** `select(Guild).where(Guild.auto_update_enabled == True)`, in table order. */
  function EnabledGuilds(rows: seq<GuildRow>): (r: seq<GuildRow>)
    ensures forall g :: g in r <==> g in rows && g.autoUpdateEnabled
  {
    if rows == [] then []
    else if rows[|rows| - 1].autoUpdateEnabled then EnabledGuilds(rows[..|rows| - 1]) + [rows[|rows| - 1]]
    else EnabledGuilds(rows[..|rows| - 1])
  }
}
