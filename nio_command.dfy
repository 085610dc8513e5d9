/**
 * The `NioCommand` block's state: its configured properties, the cached
 * OAuth2 access token and the handle of the pending re-authentication job.
 * `configure` acquires a token only for the OAUTH security method;
 * `_init_access_token` replaces the token, cancels the old job and schedules
 * a one-shot job that runs `_init_access_token` again after the interval.
 *
 * The OAuth2 mixin's `get_access_token` is the parameter `endpoint`, of which
 * nothing is assumed; the scheduler's timer is the method `FireReauthJob`,
 * which a caller invokes when the pending job's delay has elapsed.
 */
module NioCommandBlock {
  import opened Wrappers
  import opened Headers
  import opened Params
  import opened CommandUrl

  /** `OAuth2Exception`, the one error `_init_access_token` catches. */
  datatype OAuth2Error = OAuth2Exception

  /** `get_access_token(scope)`: a token, or `OAuth2Exception`. */
  type TokenEndpoint = string -> Result<string, OAuth2Error>

  /** The scope `_init_access_token` asks for. */
  const Scope: string := "openid email"

  /** A timedelta in microseconds, its resolution, so `total_seconds() > 0` is `micros > 0`. */
  const MicrosPerSecond: int := 1_000_000

  /** `reauth_interval`'s default: 2400 seconds, forty minutes. */
  const DefaultReauthMicros: int := 2400 * MicrosPerSecond

  /** The block properties `_init_access_token`, `_get_headers` and `_get_url` read. */
  datatype Properties = Properties(
    securityMethod: SecurityMethod,
    creds: BasicAuthCreds,
    host: string,
    port: int,
    reauthMicros: int)

  /**
   * The properties of a block configured with no overrides: security method
   * BASIC and a 2400-second re-authentication interval. The host and port
   * defaults are environment substitutions, so they are parameters here.
   */
  function DefaultProperties(host: string, port: int, creds: BasicAuthCreds): (p: Properties)
    ensures p.securityMethod == Basic
    ensures p.reauthMicros == 2400 * MicrosPerSecond
    ensures p.host == host && p.port == port && p.creds == creds
  {
    Properties(Basic, creds, host, port, DefaultReauthMicros)
  }

  /** The token `_init_access_token` leaves behind for an outcome of `get_access_token`. */
  function TokenOf(outcome: Result<string, OAuth2Error>): (t: Option<string>)
    ensures t.Some? <==> outcome.Success?
    ensures outcome.Success? ==> t.value == outcome.value
  {
    match outcome
    case Success(token) => Some(token)
    case Failure(_) => None
  }

  /** A scheduler job handle: `Job(callback, delay, repeating)` with `cancel()`. */
  class Job {
    const delay: int
    const repeating: bool
    var cancelled: bool
    var fired: bool

    constructor (delay: int, repeating: bool)
      ensures this.delay == delay && this.repeating == repeating
      ensures !cancelled && !fired
    {
      this.delay := delay;
      this.repeating := repeating;
      cancelled := false;
      fired := false;
    }

    /** Still waiting to run its callback. */
    predicate Pending()
      reads this
    {
      !cancelled && !fired
    }

    /** `cancel()`: harmless on a job that already ran or was cancelled. */
    method Cancel()
      modifies this
      ensures cancelled && fired == old(fired)
    {
      cancelled := true;
    }

    /** The scheduler runs a one-shot job: it is no longer pending. */
    method Fire()
      requires Pending()
      modifies this
      ensures fired && cancelled == old(cancelled)
    {
      fired := true;
    }
  }

  class NioCommand {
    var props: Properties
    var accessToken: Option<string>
    var reauthJob: Job?
    /** Every job this block has created. */
    ghost var jobs: set<Job>

    /**
     * The field `_reauth_job` holds one of the block's jobs, the jobs are
     * one-shot with a positive delay, and no job is pending except the one
     * in the field: at most one re-authentication is ever scheduled.
     */
    ghost predicate Valid()
      reads this, jobs
    {
      && (reauthJob != null ==> reauthJob in jobs)
      && (forall j :: j in jobs ==> !j.repeating && j.delay > 0)
      && (forall j :: j in jobs && j.Pending() ==> j == reauthJob)
    }

    /** The block's jobs still waiting to run. */
    ghost function LiveJobs(): set<Job>
      reads this, jobs
    {
      set j | j in jobs && j.Pending()
    }

    lemma AtMostOneLiveJob()
      requires Valid()
      ensures LiveJobs() <= if reauthJob == null then {} else {reauthJob}
      ensures |LiveJobs()| <= 1
    {
      if reauthJob in LiveJobs() {
        assert LiveJobs() == {reauthJob};
      } else {
        assert LiveJobs() == {};
      }
    }

    /** `__init__`: no token and no job; `initial` are the property values before `configure`. */
    constructor (initial: Properties)
      ensures Valid()
      ensures props == initial
      ensures accessToken == None && reauthJob == null
      ensures LiveJobs() == {}
    {
      props := initial;
      accessToken := None;
      reauthJob := null;
      jobs := {};
    }

    /**
     * `_init_access_token`. On success the token is stored, the previous job
     * cancelled and, for a positive interval, a fresh one-shot job with that
     * delay becomes the only pending one. On `OAuth2Exception` the token is
     * cleared and the job field and every job are left as they were.
     */
    method InitAccessToken(endpoint: TokenEndpoint)
      requires Valid()
      modifies this, reauthJob
      ensures Valid()
      ensures props == old(props)
      ensures accessToken == TokenOf(endpoint(Scope))
      ensures endpoint(Scope).Success? && old(reauthJob) != null ==> old(reauthJob).cancelled
      ensures old(reauthJob) != null ==> old(reauthJob).fired == old(reauthJob.fired)
      ensures endpoint(Scope).Success? && props.reauthMicros > 0 ==>
                && fresh(reauthJob) && reauthJob.delay == props.reauthMicros && !reauthJob.repeating
                && LiveJobs() == {reauthJob}
      ensures endpoint(Scope).Success? && props.reauthMicros <= 0 ==>
                reauthJob == old(reauthJob) && LiveJobs() == {}
      ensures endpoint(Scope).Failure? ==>
                && reauthJob == old(reauthJob) && jobs == old(jobs)
                && (old(reauthJob) != null ==> unchanged(old(reauthJob)))
                && LiveJobs() == old(LiveJobs())
    {
      match endpoint(Scope)
      case Success(token) =>
        accessToken := Some(token);
        if reauthJob != null {
          reauthJob.Cancel();
        }
        if props.reauthMicros > 0 {
          var job := new Job(props.reauthMicros, false);
          reauthJob := job;
          jobs := jobs + {job};
        }
      case Failure(_) =>
        accessToken := None;
    }

    /**
     * `configure`: the properties take their configured values, and a token
     * is acquired exactly when the security method is OAUTH.
     */
    method Configure(p: Properties, endpoint: TokenEndpoint)
      requires Valid()
      modifies this, reauthJob
      ensures Valid()
      ensures props == p
      ensures p.securityMethod != OAuth ==>
                && accessToken == old(accessToken) && reauthJob == old(reauthJob) && jobs == old(jobs)
                && (old(reauthJob) != null ==> unchanged(old(reauthJob)))
      ensures p.securityMethod == OAuth ==> accessToken == TokenOf(endpoint(Scope))
      ensures p.securityMethod == OAuth && endpoint(Scope).Success? && old(reauthJob) != null ==>
                old(reauthJob).cancelled
      ensures old(reauthJob) != null ==> old(reauthJob).fired == old(reauthJob.fired)
      ensures p.securityMethod == OAuth && endpoint(Scope).Success? && p.reauthMicros > 0 ==>
                && fresh(reauthJob) && reauthJob.delay == p.reauthMicros && !reauthJob.repeating
                && LiveJobs() == {reauthJob}
      ensures p.securityMethod == OAuth && endpoint(Scope).Success? && p.reauthMicros <= 0 ==>
                reauthJob == old(reauthJob) && LiveJobs() == {}
      ensures p.securityMethod == OAuth && endpoint(Scope).Failure? ==>
                && reauthJob == old(reauthJob) && jobs == old(jobs)
                && (old(reauthJob) != null ==> unchanged(old(reauthJob)))
                && LiveJobs() == old(LiveJobs())
    {
      props := p;
      if p.securityMethod == OAuth {
        InitAccessToken(endpoint);
      }
    }

    /**
     * The pending job's delay has elapsed: the scheduler runs its callback,
     * `_init_access_token`. A refresh that fails leaves no job pending, so
     * the block stops re-authenticating.
     */
    method FireReauthJob(endpoint: TokenEndpoint)
      requires Valid()
      requires reauthJob != null && reauthJob.Pending()
      modifies this, reauthJob
      ensures Valid()
      ensures props == old(props)
      ensures old(reauthJob).fired
      ensures accessToken == TokenOf(endpoint(Scope))
      ensures endpoint(Scope).Success? && props.reauthMicros > 0 ==>
                && fresh(reauthJob) && reauthJob.delay == props.reauthMicros && LiveJobs() == {reauthJob}
      ensures endpoint(Scope).Success? ==> old(reauthJob).cancelled
      ensures endpoint(Scope).Success? && props.reauthMicros > 0 ==> !reauthJob.repeating
      ensures endpoint(Scope).Success? && props.reauthMicros <= 0 ==>
                reauthJob == old(reauthJob) && LiveJobs() == {}
      ensures endpoint(Scope).Failure? ==>
                && reauthJob == old(reauthJob) && jobs == old(jobs) && LiveJobs() == {}
                && old(reauthJob).cancelled == old(reauthJob.cancelled)
    {
      reauthJob.Fire();
      assert LiveJobs() == {};
      InitAccessToken(endpoint);
    }

    /** `_get_headers`, reading the block's security method, token and credentials. */
    function CurrentHeaders(tokenHeaders: TokenHeaders): Result<HeaderMap, HeaderError>
      reads this
    {
      GetHeaders(props.securityMethod, accessToken, props.creds, tokenHeaders)
    }

    /**
     * `_get_url` for one signal: the evaluated service, block and command
     * names and parameter entries. The parameters are collected only once
     * the names are usable, and the headers are the block's current ones.
     */
    method GetUrl(service: Option<string>, block: Option<string>, command: Option<string>,
                  paramEvals: seq<ParamEval>, tokenHeaders: TokenHeaders) returns (r: UrlResult)
      ensures r == BuildUrl(props.host, props.port, service, block, command, ParamsOf(paramEvals),
                            GetHeaders(props.securityMethod, accessToken, props.creds, tokenHeaders))
    {
      if Unusable(service, block, command) {
        return NoCommand;
      }
      var params := GetParams(paramEvals);
      r := BuildUrl(props.host, props.port, service, block, command, params, CurrentHeaders(tokenHeaders));
    }
  }

  /** A block configured with OAUTH and a working endpoint holds the token and a pending job. */
  method InitAccessTokenScenario(host: string, port: int, creds: BasicAuthCreds)
    returns (token: Option<string>, scheduled: bool)
    ensures token == Some("asdf1234") && scheduled
  {
    var defaults := DefaultProperties(host, port, creds);
    var b := new NioCommand(defaults);
    var endpoint: TokenEndpoint := _ => Success("asdf1234");
    b.Configure(defaults.(securityMethod := OAuth), endpoint);
    token := b.accessToken;
    scheduled := b.reauthJob != null && b.reauthJob.Pending();
  }

  /**
   * With the default properties (BASIC) the endpoint is never asked, so even
   * a failing one leaves no token and no job.
   */
  method DefaultNeverAcquires(host: string, port: int, creds: BasicAuthCreds, endpoint: TokenEndpoint)
    returns (token: Option<string>, hasJob: bool)
    ensures token == None && !hasJob
  {
    var defaults := DefaultProperties(host, port, creds);
    var b := new NioCommand(defaults);
    b.Configure(defaults, endpoint);
    token := b.accessToken;
    hasJob := b.reauthJob != null;
  }

  /** OAUTH with an endpoint raising `OAuth2Exception`: no token, and no job is ever created. */
  method FailedFirstAcquisition(p: Properties)
    returns (token: Option<string>, hasJob: bool)
    requires p.securityMethod == OAuth
    ensures token == None && !hasJob
  {
    var b := new NioCommand(p);
    var failing: TokenEndpoint := _ => Failure(OAuth2Exception);
    b.Configure(p, failing);
    token := b.accessToken;
    hasJob := b.reauthJob != null;
  }

  /**
   * Acquire `first`, then let the job fire and acquire `second`: the token is
   * replaced, the first job no longer pending and a new job pending in its place.
   */
  method RefreshScenario(p: Properties, first: string, second: string)
    returns (token1: Option<string>, token2: Option<string>, firstPending: bool, secondPending: bool)
    requires p.securityMethod == OAuth && p.reauthMicros > 0
    ensures token1 == Some(first) && token2 == Some(second)
    ensures !firstPending && secondPending
  {
    var b := new NioCommand(p);
    var e1: TokenEndpoint := _ => Success(first);
    var e2: TokenEndpoint := _ => Success(second);
    b.Configure(p, e1);
    token1 := b.accessToken;
    var job1 := b.reauthJob;
    b.FireReauthJob(e2);
    token2 := b.accessToken;
    firstPending := job1.Pending();
    secondPending := b.reauthJob != null && b.reauthJob.Pending();
    b.AtMostOneLiveJob();
  }

  /** A scheduled refresh that raises clears the token and leaves nothing scheduled. */
  method FailedRefresh(p: Properties, first: string)
    returns (token: Option<string>, pending: bool)
    requires p.securityMethod == OAuth && p.reauthMicros > 0
    ensures token == None && !pending
  {
    var b := new NioCommand(p);
    var ok: TokenEndpoint := _ => Success(first);
    var failing: TokenEndpoint := _ => Failure(OAuth2Exception);
    b.Configure(p, ok);
    b.FireReauthJob(failing);
    token := b.accessToken;
    pending := b.reauthJob != null && b.reauthJob.Pending();
  }

  /**
   * Configuring again while a job is pending, with an endpoint that raises:
   * the token is cleared but the earlier job stays pending, because the
   * failure path neither cancels nor replaces `_reauth_job`.
   */
  method FailedReacquisitionKeepsJob(p: Properties, first: string)
    returns (token: Option<string>, pending: bool)
    requires p.securityMethod == OAuth && p.reauthMicros > 0
    ensures token == None && pending
  {
    var b := new NioCommand(p);
    var ok: TokenEndpoint := _ => Success(first);
    var failing: TokenEndpoint := _ => Failure(OAuth2Exception);
    b.Configure(p, ok);
    b.Configure(p, failing);
    token := b.accessToken;
    pending := b.reauthJob != null && b.reauthJob.Pending();
  }
}
