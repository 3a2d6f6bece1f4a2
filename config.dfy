/** Environment-driven settings (core/config.py). The environment is a map from variable
    name to value; a missing variable takes the default written in the source. */
module Config {
  import opened Wrappers
  import Text

  type Env = map<string, string>

  function Getenv(env: Env, name: string, default: string): (r: string)
    ensures name in env ==> r == env[name]
    ensures name !in env ==> r == default
  {
    if name in env then env[name] else default
  }

  /** `os.getenv(NAME, default).lower() == 'true'`. */
  function Flag(env: Env, name: string, default: string): bool
  {
    Text.Lower(Getenv(env, name, default)) == "true"
  }

  /** Only the four spellings of "true" that lower-case to it switch a flag on. */
  lemma FlagIffTrue(env: Env, name: string, default: string)
    ensures Flag(env, name, default) <==>
      var v := Getenv(env, name, default);
      |v| == 4 && Text.LowerChar(v[0]) == 't' && Text.LowerChar(v[1]) == 'r'
      && Text.LowerChar(v[2]) == 'u' && Text.LowerChar(v[3]) == 'e'
  {
    var v := Getenv(env, name, default);
    if |v| == 4 && Text.LowerChar(v[0]) == 't' && Text.LowerChar(v[1]) == 'r'
      && Text.LowerChar(v[2]) == 'u' && Text.LowerChar(v[3]) == 'e' {
      assert Text.Lower(v) == "true";
    }
  }

  /** `NOTIFICATION_PING_ROLE`, default 'true'. */
  function NotificationPingRole(env: Env): bool
  {
    Flag(env, "NOTIFICATION_PING_ROLE", "true")
  }

  /** `AUTO_UPDATE_ENABLED`, default 'true'. */
  function AutoUpdateEnabled(env: Env): bool
  {
    Flag(env, "AUTO_UPDATE_ENABLED", "true")
  }

  /** `SYNC_COMMANDS`, default 'true'. */
  function SyncCommands(env: Env): bool
  {
    Flag(env, "SYNC_COMMANDS", "true")
  }

  /** With the variable unset, each of these flags is on. */
  lemma FlagDefaults(env: Env)
    requires "NOTIFICATION_PING_ROLE" !in env && "AUTO_UPDATE_ENABLED" !in env && "SYNC_COMMANDS" !in env
    ensures NotificationPingRole(env) && AutoUpdateEnabled(env) && SyncCommands(env)
  {
    assert Text.Lower("true") == "true";
  }

  // Defaults of the integer settings the model uses.
  const DefaultUpdateIntervalHours: nat := 6
  const DefaultApiRateLimit: nat := 40
  const DefaultApiRatePeriod: nat := 10
  const DefaultMaxWatchlistItems: nat := 100
  const DefaultRecommendationMinItems: nat := 5
  const DefaultTmdbLanguage: string := "en-US"

  const TmdbImageBaseUrl: string := "https://image.tmdb.org/t/p/"

  /** `Config.get_tmdb_image_url(path, size)`; callers that omit size get 'original'. */
  function TmdbImageUrl(path: string, size: string := "original"): (r: string)
    ensures path == "" ==> r == ""
    ensures path != "" ==> |r| == |TmdbImageBaseUrl| + |size| + |path|
    ensures path != "" ==> r[..|TmdbImageBaseUrl|] == TmdbImageBaseUrl
    ensures path != "" ==> r[|TmdbImageBaseUrl|..] == size + path
  {
    if path == "" then "" else TmdbImageBaseUrl + size + path
  }

  /** The names in `required_vars` whose values are empty, in declaration order. */
  function MissingVars(discordToken: string, tmdbApiKey: string): (r: seq<string>)
    ensures "DISCORD_TOKEN" in r <==> discordToken == ""
    ensures "TMDB_API_KEY" in r <==> tmdbApiKey == ""
    ensures forall v :: v in r ==> v == "DISCORD_TOKEN" || v == "TMDB_API_KEY"
    ensures |r| <= 2
  {
    (if discordToken == "" then ["DISCORD_TOKEN"] else [])
    + (if tmdbApiKey == "" then ["TMDB_API_KEY"] else [])
  }

  /** `Config.validate`: raises ValueError naming the missing variables, else True.
      (The directory creation that follows is not modelled.) */
  function Validate(discordToken: string, tmdbApiKey: string): (r: Result<bool, string>)
    ensures r.Err? <==> discordToken == "" || tmdbApiKey == ""
    ensures r.Ok? ==> r.value
    ensures r.Err? ==>
      (r.error == "Missing required environment variables: " + Text.Join(MissingVars(discordToken, tmdbApiKey), ", "))
  {
    var missing := MissingVars(discordToken, tmdbApiKey);
    if missing != [] then Err("Missing required environment variables: " + Text.Join(missing, ", "))
    else Ok(true)
  }
}
