/**
 * The `OrbitYouTube` client object and how it resolves its four
 * credentials from constructor arguments or environment variables.
 * The process environment is passed in as a map.
 */
module Client {
  import opened Common

  /** The Orbit API root that callers pass to `addActivities` as `options.BASE_URL`. */
  const BASE_URL := "https://app.orbit.love/api/v1"

  /** The process environment; a missing variable and an empty one are both absent. */
  type Env = map<string, string>

  /** The four constructor arguments; `None` is an argument not passed. */
  datatype CredentialArgs = CredentialArgs(
    orbitWorkspaceId: Option<string>,
    orbitApiKey: Option<string>,
    ytApiKey: Option<string>,
    ytChannelId: Option<string>)

  datatype Credentials = Credentials(
    orbitWorkspaceId: string,
    orbitApiKey: string,
    ytApiKey: string,
    ytChannelId: string)

  const ORBIT_WORKSPACE_ID := "ORBIT_WORKSPACE_ID"
  const ORBIT_API_KEY := "ORBIT_API_KEY"
  const YOUTUBE_API_KEY := "YOUTUBE_API_KEY"
  const YOUTUBE_CHANNEL_ID := "YOUTUBE_CHANNEL_ID"

  const ERR_WORKSPACE_ID := "You must provide an Orbit Workspace ID or set an ORBIT_WORKSPACE_ID environment variable"
  const ERR_ORBIT_API_KEY := "You must provide an Orbit API Key or set an ORBIT_API_KEY environment variable"
  const ERR_YOUTUBE_API_KEY := "You must provide a YouTube API Key or set a YOUTUBE_API_KEY environment variable"
  const ERR_YOUTUBE_CHANNEL_ID := "You must provide a YouTube Channel ID or set a YOUTUBE_CHANNEL_ID environment variable"

  /** `process.env[name]`. */
  function EnvValue(env: Env, name: string): Option<string> {
    if name in env then Some(env[name]) else None
  }

  /** `arg || process.env[name]`. */
  function Pick(arg: Option<string>, env: Env, name: string): Option<string> {
    if Truthy(arg) then arg else EnvValue(env, name)
  }

  /** `setCredentials`: four guards in a fixed order, then the argument-or-environment choice for each. */
  function SetCredentials(args: CredentialArgs, env: Env): (r: Result<Credentials, string>)
    ensures r.Err? ==> r.error in MISSING_MESSAGES
    ensures r.Ok? ==>
      && r.value.orbitWorkspaceId != "" && r.value.orbitApiKey != ""
      && r.value.ytApiKey != "" && r.value.ytChannelId != ""
  {
    if !Truthy(Pick(args.orbitWorkspaceId, env, ORBIT_WORKSPACE_ID)) then Err(ERR_WORKSPACE_ID)
    else if !Truthy(Pick(args.orbitApiKey, env, ORBIT_API_KEY)) then Err(ERR_ORBIT_API_KEY)
    else if !Truthy(Pick(args.ytApiKey, env, YOUTUBE_API_KEY)) then Err(ERR_YOUTUBE_API_KEY)
    else if !Truthy(Pick(args.ytChannelId, env, YOUTUBE_CHANNEL_ID)) then Err(ERR_YOUTUBE_CHANNEL_ID)
    else Ok(Credentials(
      Pick(args.orbitWorkspaceId, env, ORBIT_WORKSPACE_ID).value,
      Pick(args.orbitApiKey, env, ORBIT_API_KEY).value,
      Pick(args.ytApiKey, env, YOUTUBE_API_KEY).value,
      Pick(args.ytChannelId, env, YOUTUBE_CHANNEL_ID).value))
  }

  // ---------------------------------------------------------------------------
  // The credentials as four numbered slots, checked in order 0..3

  const SLOT_COUNT := 4

  function SlotArg(args: CredentialArgs, k: nat): Option<string>
    requires k < SLOT_COUNT
  {
    [args.orbitWorkspaceId, args.orbitApiKey, args.ytApiKey, args.ytChannelId][k]
  }

  function SlotValue(c: Credentials, k: nat): string
    requires k < SLOT_COUNT
  {
    [c.orbitWorkspaceId, c.orbitApiKey, c.ytApiKey, c.ytChannelId][k]
  }

  const ENV_NAMES := [ORBIT_WORKSPACE_ID, ORBIT_API_KEY, YOUTUBE_API_KEY, YOUTUBE_CHANNEL_ID]
  const MISSING_MESSAGES := [ERR_WORKSPACE_ID, ERR_ORBIT_API_KEY, ERR_YOUTUBE_API_KEY, ERR_YOUTUBE_CHANNEL_ID]

  /** Slot `k` has a value in neither its argument nor its environment variable. */
  predicate Missing(args: CredentialArgs, env: Env, k: nat)
    requires k < SLOT_COUNT
  {
    !Truthy(SlotArg(args, k)) && !Truthy(EnvValue(env, ENV_NAMES[k]))
  }

  /** Construction fails exactly when some credential is missing, and names the first missing one. */
  lemma SetCredentialsFailsOnFirstMissing(args: CredentialArgs, env: Env)
    ensures SetCredentials(args, env).Err? <==> exists k :: 0 <= k < SLOT_COUNT && Missing(args, env, k)
    ensures SetCredentials(args, env).Err? ==>
      exists k :: 0 <= k < SLOT_COUNT && Missing(args, env, k)
        && SetCredentials(args, env).error == MISSING_MESSAGES[k]
        && forall j :: 0 <= j < k ==> !Missing(args, env, j)
  {
    if SetCredentials(args, env).Err? {
      if Missing(args, env, 0) {
      } else if Missing(args, env, 1) {
      } else if Missing(args, env, 2) {
      } else {
        assert Missing(args, env, 3);
      }
    }
  }

  /** On success each credential is non-empty, taken from a truthy argument, else from the environment. */
  lemma SetCredentialsPrefersArguments(args: CredentialArgs, env: Env, k: nat)
    requires k < SLOT_COUNT
    requires SetCredentials(args, env).Ok?
    ensures SlotValue(SetCredentials(args, env).value, k) != ""
    ensures Truthy(SlotArg(args, k)) ==> SlotValue(SetCredentials(args, env).value, k) == SlotArg(args, k).value
    ensures !Truthy(SlotArg(args, k)) ==>
      ENV_NAMES[k] in env && SlotValue(SetCredentials(args, env).value, k) == env[ENV_NAMES[k]]
  {
    assert k == 0 || k == 1 || k == 2 || k == 3;
  }

  /** The client object; its credentials are fixed at construction. */
  class OrbitYouTube {
    var credentials: Credentials

    constructor (credentials: Credentials)
      ensures this.credentials == credentials
    {
      this.credentials := credentials;
    }

    /** `new OrbitYouTube(...)`: throws with `setCredentials`'s error, or stores its result. */
    static method Create(args: CredentialArgs, env: Env) returns (r: Result<OrbitYouTube, string>)
      ensures SetCredentials(args, env).Err? ==> r == Err(SetCredentials(args, env).error)
      ensures SetCredentials(args, env).Ok? ==>
        r.Ok? && fresh(r.value) && r.value.credentials == SetCredentials(args, env).value
    {
      var creds := SetCredentials(args, env);
      if creds.Err? {
        return Err(creds.error);
      }
      var client := new OrbitYouTube(creds.value);
      r := Ok(client);
    }
  }
}
