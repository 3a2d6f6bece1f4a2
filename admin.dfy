/** The `/config` command of `cogs/admin.py`: show the guild's settings, or parse and store
    one of them. The channel and role converters are inputs: the id they resolved, or None
    when conversion failed. */
module Admin {
  import opened Wrappers
  import opened Text
  import opened Store

  /** The values that turn auto-update on, compared after lower-casing. */
  const TruthyValues: set<string> := {"true", "yes", "on", "1", "enable", "enabled"}

  function ParseEnabled(value: string): bool
  {
    Lower(value) in TruthyValues
  }

  lemma {:induction false} LowerUpperChar(c: char)
    ensures LowerChar(UpperChar(c)) == LowerChar(c)
  {
  }

  lemma LowerOfUpper(s: string)
    ensures Lower(Upper(s)) == Lower(s)
  {
    forall i | 0 <= i < |s| ensures Lower(Upper(s))[i] == Lower(s)[i] {
      LowerUpperChar(s[i]);
    }
  }

  /** Case does not matter ("TRUE", "Yes" and "On" enable), and every other value disables. */
  lemma ParseEnabledIgnoresCase(value: string)
    ensures ParseEnabled(Upper(value)) == ParseEnabled(value)
    ensures ParseEnabled(value) <==> Lower(value) in TruthyValues
  {
    LowerOfUpper(value);
  }

  const MaxPrefixLength: nat := 10

  /** The settings `/config` offers as choices. */
  const ConfigSettings: set<string> := {"auto_update", "notification_channel", "notification_role", "prefix", "language"}

  /** The settings field shown when no value is given; a channel or role that is not set
      or no longer resolves shows as not set. */
  datatype SettingsView = SettingsView(autoUpdate: string, channel: Option<int>, role: Option<int>,
                                       prefix: string, language: string)

  datatype ConfigOutcome =
    | NotSetUp | ShowSettings(view: SettingsView) | InvalidChannel | InvalidRole | InvalidPrefix
    | Updated(settingName: string, newValue: string) | ConfigError

  function EnabledText(on: bool): string { if on then "Enabled" else "Disabled" }

  function Resolved(id: Option<int>, existing: set<int>): Option<int>
  {
    if IsSet(id) && id.value in existing then id else None
  }

  /** What `/config` answers and which column it writes. An unknown setting reaches
      `update_guild` with no columns and then fails on the unset message variables. */
  function ConfigDecision(guild: Option<GuildRow>, setting: string, value: Option<string>,
                          channel: Option<int>, role: Option<int>,
                          channels: set<int>, roles: set<int>): (r: (ConfigOutcome, GuildUpdate))
    // Nothing is written for a guild that was never set up, when only showing, for an
    // unresolved channel or role, a prefix over 10 characters, or an unknown setting; a
    // written column holds the parsed or verbatim value.
    ensures r.1 != NoChange <==> r.0.Updated?
    ensures guild.None? ==> r.0 == NotSetUp
    ensures guild.Some? && value.None? ==> r.0.ShowSettings?
    ensures r.0.ShowSettings? ==>
      guild.Some? && r.0.view.prefix == guild.value.prefix && r.0.view.language == guild.value.language
      && (r.0.view.autoUpdate == "Enabled" <==> guild.value.autoUpdateEnabled)
      && (r.0.view.channel.Some? <==> IsSet(guild.value.channelId) && guild.value.channelId.value in channels)
      && (r.0.view.role.Some? <==> IsSet(guild.value.roleId) && guild.value.roleId.value in roles)
    ensures r.1.SetPrefix? ==> setting == "prefix" && value == Some(r.1.prefix) && |r.1.prefix| <= MaxPrefixLength
    ensures guild.Some? && setting == "prefix" && value.Some? && |value.value| > MaxPrefixLength ==> r.0 == InvalidPrefix
    ensures r.1.SetLanguage? ==> setting == "language" && value == Some(r.1.language)
    ensures r.1.SetAutoUpdate? ==> setting == "auto_update" && value.Some? && r.1.enabled == (Lower(value.value) in TruthyValues)
    ensures r.1.SetChannel? ==> setting == "notification_channel" && channel == Some(r.1.channelId)
    ensures r.1.SetRole? ==> setting == "notification_role" && role == Some(r.1.roleId)
    ensures guild.Some? && value.Some? && setting == "notification_channel" && channel.None? ==> r.0 == InvalidChannel
    ensures guild.Some? && value.Some? && setting == "notification_role" && role.None? ==> r.0 == InvalidRole
    ensures (guild.Some? && value.Some? && setting !in ConfigSettings) ==> r.0 == ConfigError
  {
    if guild.None? then (NotSetUp, NoChange)
    else if value.None? then
      var g := guild.value;
      (ShowSettings(SettingsView(EnabledText(g.autoUpdateEnabled), Resolved(g.channelId, channels),
                                 Resolved(g.roleId, roles), g.prefix, g.language)), NoChange)
    else
      var v := value.value;
      if setting == "auto_update" then
        (Updated("Auto-update", EnabledText(ParseEnabled(v))), SetAutoUpdate(ParseEnabled(v)))
      else if setting == "notification_channel" then
        if channel.None? then (InvalidChannel, NoChange)
        else (Updated("Notification channel", "<#" + IntToString(channel.value) + ">"), SetChannel(channel.value))
      else if setting == "notification_role" then
        if role.None? then (InvalidRole, NoChange)
        else (Updated("Notification role", "<@&" + IntToString(role.value) + ">"), SetRole(role.value))
      else if setting == "prefix" then
        if |v| > MaxPrefixLength then (InvalidPrefix, NoChange)
        else (Updated("Command prefix", v), SetPrefix(v))
      else if setting == "language" then (Updated("Language", v), SetLanguage(v))
      else (ConfigError, NoChange)
  }

  /** `/config` against the guilds table. */
  method Configure(table: GuildTable, guildId: int, setting: string, value: Option<string>,
                   channel: Option<int>, role: Option<int>, channels: set<int>, roles: set<int>)
    returns (o: ConfigOutcome)
    modifies table
    ensures var (d, u) := ConfigDecision(FindGuild(old(table.rows), guildId), setting, value, channel, role, channels, roles);
      && o == d
      && |table.rows| == |old(table.rows)|
      && forall k :: 0 <= k < |table.rows| ==>
           table.rows[k] == if old(table.rows)[k].id == guildId then ApplyUpdate(old(table.rows)[k], u) else old(table.rows)[k]
  {
    var guild := FindGuild(table.rows, guildId);
    var decision := ConfigDecision(guild, setting, value, channel, role, channels, roles);
    table.Update(guildId, decision.1);
    o := decision.0;
  }
}
