/** The configuration record of one mirrored repository (`Overlay::GithubRepo`)
    and the process-wide registry of such records (`Overlay::Configuration`). */
module OverlayConfig {
  import opened Wrappers

  /** The parameters `validate` checks, by their Ruby names. */
  datatype Param = Org | Repo | Auth | RootSourcePath | RedisServer | RedisPort | RegistrationServer {
    function Name(): string {
      match this
      case Org => "org"
      case Repo => "repo"
      case Auth => "auth"
      case RootSourcePath => "root_source_path"
      case RedisServer => "redis_server"
      case RedisPort => "redis_port"
      case RegistrationServer => "registration_server"
    }
  }

  /** `REQUIRED_PARAMS`, in the order they are checked. */
  const RequiredParams: seq<Param> := [Org, Repo, Auth, RootSourcePath]
  /** `REQUIRED_PUBLISHER_PARAMS`, in the order they are checked. */
  const RequiredPublisherParams: seq<Param> := [RedisServer, RedisPort, RegistrationServer]

  /** `RequiredParameterError`, naming the parameter found missing. */
  datatype ConfigError = RequiredParameterError(param: Param) {
    function Message(): string {
      "Overlay GithubRepo missing required paramater: " + param.Name()
    }
  }

  datatype ArgumentError = ArgumentError(message: string)

  /** The block passed to `after_process_hook`, identified by a name. */
  datatype Hook = Hook(name: string)

  /** What `send(param)` answers: nil, a string or a number. */
  datatype Value = Nil | Text(s: string) | Number(n: int)

  /** The options hash given to `GithubRepo.new`; `None` is an absent key. */
  datatype Options = Options(
    org: Option<string>, repo: Option<string>, auth: Option<string>,
    rootSourcePath: Option<string>, rootDestPath: Option<string>,
    redisServer: Option<string>, redisPort: Option<int>, registrationServer: Option<string>,
    endpoint: Option<string>, site: Option<string>,
    branch: Option<string>, usePublisher: Option<bool>)

  /** The settings a `GithubRepo` holds. */
  datatype Record = Record(
    org: Option<string>, repo: Option<string>, auth: Option<string>,
    rootSourcePath: Option<string>, rootDestPath: Option<string>,
    redisServer: Option<string>, redisPort: Option<int>, registrationServer: Option<string>,
    endpoint: Option<string>, site: Option<string>,
    branch: string, usePublisher: bool)

  /** The settings `initialize` stores for `o`. */
  function Defaults(o: Options): (r: Record)
    ensures r.branch == (if o.branch.Some? then o.branch.value else "master")
    ensures r.usePublisher == (o.usePublisher == Some(true))
    ensures r.org == o.org && r.repo == o.repo && r.auth == o.auth
    ensures r.rootSourcePath == o.rootSourcePath && r.rootDestPath == o.rootDestPath
    ensures r.redisServer == o.redisServer && r.redisPort == o.redisPort
    ensures r.registrationServer == o.registrationServer
    ensures r.endpoint == o.endpoint && r.site == o.site
  {
    Record(o.org, o.repo, o.auth, o.rootSourcePath, o.rootDestPath,
           o.redisServer, o.redisPort, o.registrationServer, o.endpoint, o.site,
           o.branch.GetOr("master"), o.usePublisher.GetOr(false))
  }

  function TextOf(x: Option<string>): Value {
    match x
    case None => Nil
    case Some(s) => Text(s)
  }

  /** `send(param)`: the reader of the parameter. */
  function Send(r: Record, p: Param): Value {
    match p
    case Org => TextOf(r.org)
    case Repo => TextOf(r.repo)
    case Auth => TextOf(r.auth)
    case RootSourcePath => TextOf(r.rootSourcePath)
    case RedisServer => TextOf(r.redisServer)
    case RedisPort => if r.redisPort.Some? then Number(r.redisPort.value) else Nil
    case RegistrationServer => TextOf(r.registrationServer)
  }

  /** `nil? || empty?`, the test applied to the base parameters. */
  predicate Blank(v: Value) {
    v.Nil? || v == Text("")
  }

  /** Whether `validate` treats `p` as missing: a base parameter when nil or empty,
      a publisher parameter only when nil. */
  predicate Missing(r: Record, p: Param) {
    if p in RequiredParams then Blank(Send(r, p)) else Send(r, p).Nil?
  }

  /** The parameters `validate` checks, in order: the publisher ones only when
      `use_publisher` is set. */
  function CheckedParams(r: Record): seq<Param> {
    RequiredParams + (if r.usePublisher then RequiredPublisherParams else [])
  }

  /** The first parameter of `ps` that is missing. */
  function FirstMissing(r: Record, ps: seq<Param>): Option<Param> {
    if ps == [] then None
    else if Missing(r, ps[0]) then Some(ps[0])
    else FirstMissing(r, ps[1..])
  }

  /** What `validate` does on settings `r`: raise for the first missing parameter. */
  function Validation(r: Record): Outcome<ConfigError> {
    match FirstMissing(r, CheckedParams(r))
    case None => Pass
    case Some(p) => Fail(RequiredParameterError(p))
  }

  lemma {:induction false} FirstMissingIsFirst(r: Record, ps: seq<Param>)
    ensures FirstMissing(r, ps).None? <==> forall k :: 0 <= k < |ps| ==> !Missing(r, ps[k])
    ensures forall k :: 0 <= k < |ps| && Missing(r, ps[k]) && (forall j :: 0 <= j < k ==> !Missing(r, ps[j])) ==>
              FirstMissing(r, ps) == Some(ps[k])
  {
    if ps != [] {
      FirstMissingIsFirst(r, ps[1..]);
      assert forall k :: 0 < k < |ps| ==> ps[1..][k - 1] == ps[k];
    }
  }

  /** `validate` raises exactly when some checked parameter is missing, and then names
      the first missing one in the fixed order org, repo, auth, root_source_path,
      redis_server, redis_port, registration_server. */
  lemma ValidationNamesFirstMissing(r: Record)
    ensures Validation(r).Fail? <==>
            exists k :: 0 <= k < |CheckedParams(r)| && Missing(r, CheckedParams(r)[k])
    ensures forall k :: 0 <= k < |CheckedParams(r)| && Missing(r, CheckedParams(r)[k]) &&
                        (forall j :: 0 <= j < k ==> !Missing(r, CheckedParams(r)[j])) ==>
              Validation(r) == Fail(RequiredParameterError(CheckedParams(r)[k]))
  {
    FirstMissingIsFirst(r, CheckedParams(r));
  }

  /** When one of the four base parameters is nil or empty, the error names a base
      parameter, whatever the publisher fields hold. */
  lemma BaseParamsCheckedFirst(r: Record)
    requires exists k :: 0 <= k < |RequiredParams| && Blank(Send(r, RequiredParams[k]))
    ensures Validation(r).Fail? && Validation(r).error.param in RequiredParams
  {
    var k :| 0 <= k < |RequiredParams| && Blank(Send(r, RequiredParams[k]));
    assert Missing(r, RequiredParams[k]);
    FirstMissingIsFirst(r, RequiredParams);
    FirstMissingOfConcat(r, RequiredParams, if r.usePublisher then RequiredPublisherParams else []);
  }

  /** A missing parameter in `a` is found before anything in `b` is looked at. */
  lemma {:induction false} FirstMissingOfConcat(r: Record, a: seq<Param>, b: seq<Param>)
    requires FirstMissing(r, a).Some?
    ensures FirstMissing(r, a + b) == FirstMissing(r, a) && FirstMissing(r, a).value in a
  {
    if !Missing(r, a[0]) {
      assert (a + b)[1..] == a[1..] + b;
      FirstMissingOfConcat(r, a[1..], b);
    }
  }

  /** Without `use_publisher` the publisher fields are never looked at. */
  lemma PublisherFieldsIgnoredWithoutPublisher(r: Record, server: Option<string>, port: Option<int>, registration: Option<string>)
    requires !r.usePublisher
    ensures Validation(r.(redisServer := server, redisPort := port, registrationServer := registration)) == Validation(r)
  {
    var r' := r.(redisServer := server, redisPort := port, registrationServer := registration);
    assert CheckedParams(r') == CheckedParams(r) == RequiredParams;
    assert forall p :: p in RequiredParams ==> Send(r', p) == Send(r, p);
    FirstMissingAgrees(r, r', RequiredParams);
  }

  /** `root_dest_path` is never checked, although the class comment lists it as required. */
  lemma DestPathNotChecked(r: Record, dest: Option<string>)
    ensures Validation(r.(rootDestPath := dest)) == Validation(r)
  {
    var r' := r.(rootDestPath := dest);
    assert forall p :: Send(r', p) == Send(r, p);
    FirstMissingAgrees(r, r', CheckedParams(r));
  }

  /** Publisher fields are checked only for nil: empty strings pass. */
  lemma EmptyPublisherFieldsAccepted(r: Record)
    requires r.usePublisher
    requires forall k :: 0 <= k < |RequiredParams| ==> !Blank(Send(r, RequiredParams[k]))
    requires r.redisServer == Some("") && r.redisPort.Some? && r.registrationServer == Some("")
    ensures Validation(r) == Pass
  {
    FirstMissingIsFirst(r, CheckedParams(r));
  }

  lemma {:induction false} FirstMissingAgrees(r: Record, r': Record, ps: seq<Param>)
    requires forall k :: 0 <= k < |ps| ==> Send(r, ps[k]) == Send(r', ps[k])
    ensures FirstMissing(r, ps) == FirstMissing(r', ps)
  {
    if ps != [] {
      assert forall k :: 0 <= k < |ps| - 1 ==> ps[1..][k] == ps[k + 1];
      FirstMissingAgrees(r, r', ps[1..]);
    }
  }

  /** The Github API client a repository holds (`@github_api`): nil before the first
      `initialize_api`, then the settings it was configured with and how many times it
      has been created. */
  datatype ApiHandle =
    | NoApi
    | RepoApi(endpoint: Option<string>, site: Option<string>, basicAuth: Option<string>,
              repo: Option<string>, org: Option<string>, generation: nat)
  {
    function Generation(): nat {
      if NoApi? then 0 else generation
    }
  }

  /** The handle `initialize_api` builds from settings `r`; an unset endpoint or site
      leaves the client's default. */
  function ApiFor(r: Record, generation: nat): ApiHandle {
    RepoApi(r.endpoint, r.site, r.auth, r.repo, r.org, generation)
  }

  /** What post-hook blocks act on: the record of every block run so far. */
  class CallLog {
    var calls: seq<Hook>

    constructor ()
      ensures calls == []
    {
      calls := [];
    }
  }

  /** `Overlay::GithubRepo`. */
  class GithubRepo {
    var org: Option<string>
    var repo: Option<string>
    var auth: Option<string>
    var rootSourcePath: Option<string>
    var rootDestPath: Option<string>
    var redisServer: Option<string>
    var redisPort: Option<int>
    var registrationServer: Option<string>
    var endpoint: Option<string>
    var site: Option<string>
    var branch: string
    var usePublisher: bool
    var githubApi: ApiHandle
    var postHook: Option<Hook>

    function Snapshot(): Record
      reads this
    {
      Record(org, repo, auth, rootSourcePath, rootDestPath, redisServer, redisPort,
             registrationServer, endpoint, site, branch, usePublisher)
    }

    /** The assignments at the start of `initialize`, with the defaults for branch and
        `use_publisher`; the API handle is not built yet. */
    constructor (o: Options)
      ensures Snapshot() == Defaults(o)
      ensures githubApi == NoApi && postHook == None
    {
      org, repo, auth := o.org, o.repo, o.auth;
      rootSourcePath, rootDestPath := o.rootSourcePath, o.rootDestPath;
      redisServer, redisPort, registrationServer := o.redisServer, o.redisPort, o.registrationServer;
      endpoint, site := o.endpoint, o.site;
      branch := o.branch.GetOr("master");
      usePublisher := o.usePublisher.GetOr(false);
      githubApi := NoApi;
      postHook := None;
    }

    /** `GithubRepo.new(options)`: store the settings with their defaults, validate
        (raising `RequiredParameterError` for the first missing parameter), then build
        the API handle. */
    static method New(o: Options) returns (res: Result<GithubRepo, ConfigError>)
      ensures res.Failure? <==> Validation(Defaults(o)).Fail?
      ensures res.Failure? ==> Validation(Defaults(o)) == Fail(res.error)
      ensures res.Success? ==> fresh(res.value) && res.value.Snapshot() == Defaults(o)
      ensures res.Success? ==> res.value.githubApi == ApiFor(Defaults(o), 1) && res.value.postHook == None
    {
      var r := new GithubRepo(o);
      var check := r.Validate();
      if check.Fail? {
        return Failure(check.error);
      }
      r.InitializeApi();
      res := Success(r);
    }

    /** `validate`: the base parameters in order, each failing when nil or empty, then,
        with `use_publisher`, the publisher parameters in order, each failing when nil. */
    method Validate() returns (res: Outcome<ConfigError>)
      ensures res == Validation(Snapshot())
    {
      var r := Snapshot();
      ghost var ps := CheckedParams(r);
      assert ps[..|RequiredParams|] == RequiredParams;
      var i := 0;
      while i < |RequiredParams|
        invariant 0 <= i <= |RequiredParams|
        invariant FirstMissing(r, ps) == FirstMissing(r, ps[i..])
      {
        var p := RequiredParams[i];
        assert ps[i..][0] == p && ps[i..][1..] == ps[i + 1..];
        if Blank(Send(r, p)) {
          return Fail(RequiredParameterError(p));
        }
        i := i + 1;
      }
      if usePublisher {
        var j := 0;
        while j < |RequiredPublisherParams|
          invariant 0 <= j <= |RequiredPublisherParams|
          invariant FirstMissing(r, ps) == FirstMissing(r, ps[|RequiredParams| + j..])
        {
          var p := RequiredPublisherParams[j];
          var n := |RequiredParams| + j;
          assert ps[n..][0] == p && ps[n..][1..] == ps[n + 1..];
          if Send(r, p).Nil? {
            return Fail(RequiredParameterError(p));
          }
          j := j + 1;
        }
      }
      assert ps[|ps|..] == [];
      res := Pass;
    }

    /** `initialize_api`: a new client bound to the current endpoint, site, auth, repo and org. */
    method InitializeApi()
      modifies this
      ensures githubApi == ApiFor(Snapshot(), old(githubApi.Generation()) + 1)
      ensures Snapshot() == old(Snapshot()) && postHook == old(postHook)
    {
      githubApi := ApiFor(Snapshot(), githubApi.Generation() + 1);
    }

    /** `endpoint=`: change the endpoint and rebuild the client; nothing else changes. */
    method SetEndpoint(addr: Option<string>)
      modifies this
      ensures Snapshot() == old(Snapshot()).(endpoint := addr)
      ensures githubApi == ApiFor(Snapshot(), old(githubApi.Generation()) + 1)
      ensures postHook == old(postHook)
    {
      endpoint := addr;
      InitializeApi();
    }

    /** `site=`: change the site and rebuild the client; nothing else changes. */
    method SetSite(addr: Option<string>)
      modifies this
      ensures Snapshot() == old(Snapshot()).(site := addr)
      ensures githubApi == ApiFor(Snapshot(), old(githubApi.Generation()) + 1)
      ensures postHook == old(postHook)
    {
      site := addr;
      InitializeApi();
    }

    /** `after_process_hook`: without a block raise `ArgumentError`; with one store it,
        replacing any block stored before. */
    method AfterProcessHook(block: Option<Hook>) returns (res: Outcome<ArgumentError>)
      modifies this
      ensures block.None? ==> res == Fail(ArgumentError("No block given")) && postHook == old(postHook)
      ensures block.Some? ==> res == Pass && postHook == block
      ensures Snapshot() == old(Snapshot()) && githubApi == old(githubApi)
    {
      if block.None? {
        return Fail(ArgumentError("No block given"));
      }
      postHook := block;
      res := Pass;
    }

    /** `post_hook`: run the stored block once; with none stored, do nothing. */
    method PostHook(log: CallLog)
      modifies log
      ensures log.calls == old(log.calls) + (if postHook.Some? then [postHook.value] else [])
    {
      if postHook.Some? {
        log.calls := log.calls + [postHook.value];
      }
    }
  }

  /** Setting a block and calling `post_hook` twice runs that block twice. */
  method RunPostHookTwice(r: GithubRepo, h: Hook, log: CallLog)
    modifies r, log
    ensures log.calls == old(log.calls) + [h, h]
    ensures r.postHook == Some(h)
  {
    var ok := r.AfterProcessHook(Some(h));
    r.PostHook(log);
    r.PostHook(log);
  }

  /** An entry of `Configuration#repositories`: a `GithubRepo`, or a value of another class. */
  datatype Entry = GithubEntry(config: GithubRepo) | OtherEntry(className: string)

  predicate NoDuplicates<T(==)>(s: seq<T>) {
    forall i, j :: 0 <= i < j < |s| ==> s[i] != s[j]
  }

  /** `Overlay::Configuration`: the process-wide settings. `repositories` is a Ruby
      `Set`, kept here as its elements in insertion order without repeats. */
  class Configuration {
    var repositories: seq<Entry>
    var hostName: Option<string>
    var hostPort: Option<int>
    var relativeRootUrl: Option<string>

    predicate Valid()
      reads this
    {
      NoDuplicates(repositories)
    }

    /** `Configuration.new`: runs `reset`; the other settings start nil. */
    constructor ()
      ensures Valid() && repositories == []
      ensures hostName == None && hostPort == None && relativeRootUrl == None
    {
      repositories := [];
      hostName, hostPort, relativeRootUrl := None, None, None;
    }

    /** `reset`: an empty repository set; the other settings are kept. */
    method Reset()
      modifies this
      ensures Valid() && repositories == []
      ensures hostName == old(hostName) && hostPort == old(hostPort) && relativeRootUrl == old(relativeRootUrl)
    {
      repositories := [];
    }

    /** `repositories << entry`: add the entry unless the set holds it already. */
    method AddRepository(e: Entry)
      requires Valid()
      modifies this
      ensures Valid()
      ensures repositories == if e in old(repositories) then old(repositories) else old(repositories) + [e]
      ensures hostName == old(hostName) && hostPort == old(hostPort) && relativeRootUrl == old(relativeRootUrl)
    {
      if e !in repositories {
        repositories := repositories + [e];
      }
    }
  }
}
