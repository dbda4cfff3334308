/** `Overlay::Github`: mirror the configured repositories into the local tree
    and register the webhook that reports later pushes. */
module GithubSync {
  import opened Wrappers
  import opened Filesystem
  import opened RemoteTree

  /** The process-wide settings `configure` and `register_web_hook` read. */
  datatype Settings = Settings(
    auth: Option<string>, endpoint: Option<string>, site: Option<string>,
    hostName: Option<string>, hostPort: Option<int>)

  /** What the running process supplies: whether a Rails server is running, the
      machine's host name, the server's port and the application root. */
  datatype Host = Host(serverRunning: bool, machineName: string, serverPort: int, appRoot: string)

  /** The callback address of the webhook, as built from a host and a port. */
  datatype Uri = Uri(host: string, port: int)

  datatype WebHook = WebHook(name: string, active: bool, url: Uri, contentType: string)

  datatype RepoKey = RepoKey(user: string, repo: string)
  datatype BranchKey = BranchKey(user: string, repo: string, branch: string)

  /** The errors `process_overlays` raises: its own checks, and the API's answer for
      a repository or branch it does not know. */
  datatype SyncError =
    | AuthNotSet
    | MissingUser
    | MissingRepo
    | RepoNotFound(repoKey: RepoKey)
    | BranchNotFound(branchKey: BranchKey)
  {
    function Message(): string {
      match this
      case AuthNotSet => "Configuration github_overlays.basic_auth not set"
      case MissingUser => "Respository config missing user"
      case MissingRepo => "Respository config missing repo"
      case RepoNotFound(_) => "Not Found"
      case BranchNotFound(_) => "Not Found"
    }
  }

  /** An entry of the repository set as `process_overlays` sees it: a `GithubRepo`
      with what `repo_config[:user]`, `[:repo]` and `[:branch]` give, or a value of
      another class. */
  datatype SyncEntry = RepoEntry(user: Option<string>, repo: Option<string>, branch: Option<string>) | OtherEntry

  /** The settings `configure` hands to the Github client. */
  datatype ClientConfig = ClientConfig(endpoint: Option<string>, site: Option<string>, basicAuth: string)

  /** `configure`: raise unless basic auth is set. */
  function Configure(s: Settings): (r: Result<ClientConfig, SyncError>)
    ensures r.Failure? <==> s.auth.None?
    ensures r.Failure? ==> r.error == AuthNotSet
    ensures r.Success? ==> r.value.basicAuth == s.auth.value && r.value.endpoint == s.endpoint && r.value.site == s.site
  {
    if s.auth.None? then Failure(AuthNotSet) else Success(ClientConfig(s.endpoint, s.site, s.auth.value))
  }

  /** The hook URL: the configured host name, else the machine's; the configured
      port, else the server's. */
  function HookUri(s: Settings, host: Host): (u: Uri)
    ensures s.hostName.Some? ==> u.host == s.hostName.value
    ensures s.hostName.None? ==> u.host == host.machineName
    ensures s.hostPort.Some? ==> u.port == s.hostPort.value
    ensures s.hostPort.None? ==> u.port == host.serverPort
  {
    Uri(s.hostName.GetOr(host.machineName), s.hostPort.GetOr(host.serverPort))
  }

  /** Some existing hook already points at `uri`. */
  predicate HookRegistered(hooks: seq<WebHook>, uri: Uri) {
    exists i :: 0 <= i < |hooks| && hooks[i].url == uri
  }

  /** The hook `register_web_hook` creates. */
  function NewHook(uri: Uri): WebHook {
    WebHook("web", true, uri, "json")
  }

  /** The hook list of a repository after `register_web_hook`. */
  function Register(hooks: seq<WebHook>, uri: Uri): (r: seq<WebHook>)
    ensures hooks <= r && HookRegistered(r, uri)
  {
    assert !HookRegistered(hooks, uri) ==> (hooks + [NewHook(uri)])[|hooks|].url == uri;
    if HookRegistered(hooks, uri) then hooks else hooks + [NewHook(uri)]
  }

  /** Registration issues exactly one create when no hook has the URL and none
      otherwise; afterwards the URL is registered, and registering again changes nothing. */
  lemma RegisterFacts(hooks: seq<WebHook>, uri: Uri)
    ensures var after := Register(hooks, uri);
      && hooks <= after
      && |after| == |hooks| + (if HookRegistered(hooks, uri) then 0 else 1)
      && (!HookRegistered(hooks, uri) ==> after[|hooks|] == WebHook("web", true, uri, "json"))
      && HookRegistered(after, uri)
      && Register(after, uri) == after
  {
    var after := Register(hooks, uri);
    if !HookRegistered(hooks, uri) {
      assert after[|hooks|].url == uri;
    }
  }

  /** The GitHub side: the webhooks of every repository it knows, and a snapshot
      of every branch it knows. */
  class Remote {
    var hooks: map<RepoKey, seq<WebHook>>
    const contents: map<BranchKey, Tree>

    constructor (hooks: map<RepoKey, seq<WebHook>>, contents: map<BranchKey, Tree>)
      ensures this.hooks == hooks && this.contents == contents
    {
      this.hooks := hooks;
      this.contents := contents;
    }
  }

  ghost predicate AllWellFormed(contents: map<BranchKey, Tree>) {
    forall k :: k in contents ==> WellFormed(contents[k])
  }

  /** `clone_file`: write the decoded content of remote file `path` to `root/path`. */
  method CloneFile(fs: LocalFs, t: Tree, root: string, decode: string -> Bytes, path: Path)
    requires path in t.blobs
    modifies fs
    ensures fs.State() == old(fs.State()).Apply(ToDelta(t, root, decode, Effect({}, {path})))
  {
    var content := t.blobs[path];
    fs.Write(Local(root, path), decode(content));
    ToDeltaFile(t, root, decode, path);
  }

  /** Doing nothing leaves the local tree as it is. */
  lemma NoEffect(s: FsState, t: Tree, root: string, decode: string -> Bytes)
    ensures s.Apply(ToDelta(t, root, decode, Nothing)) == s
  {
    ToDeltaNothing(t, root, decode);
    assert s.Apply(NoChange) == s;
  }

  /** The local state after one more entry of a walk's loop. */
  lemma Advance(s0: FsState, before: FsState, now: FsState, t: Tree, root: string, decode: string -> Bytes,
                done: Effect, step: Effect)
    requires before == s0.Apply(ToDelta(t, root, decode, done))
    requires now == before.Apply(ToDelta(t, root, decode, step))
    ensures now == s0.Apply(ToDelta(t, root, decode, done.Then(step)))
  {
    ApplyThen(s0, ToDelta(t, root, decode, done), ToDelta(t, root, decode, step));
    ToDeltaThen(t, root, decode, done, step);
  }

  /** One more root entry of `overlay_repo`'s loop. */
  lemma RootAdvance(t: Tree, root: string, decode: string -> Bytes, i: nat,
                    s0: FsState, before: FsState, now: FsState)
    requires WellFormed(t) && i < |t.listings[RootPath]|
    requires before == s0.Apply(ToDelta(t, root, decode, RootEffect(t, t.listings[RootPath][..i])))
    requires var e := t.listings[RootPath][i];
      if e.kind == DirType then Listed(t, e.path) && now == before.Apply(ToDelta(t, root, decode, DirEffect(t, e.path)))
      else now == before
    ensures now == s0.Apply(ToDelta(t, root, decode, RootEffect(t, t.listings[RootPath][..i + 1])))
  {
    var e := t.listings[RootPath][i];
    RootStep(t, i);
    if e.kind != DirType {
      NoEffect(before, t, root, decode);
    }
    Advance(s0, before, now, t, root, decode, RootEffect(t, t.listings[RootPath][..i]), RootEntryEffect(t, e));
  }

  /** What `overlay_directory(p)` has done after its first `i` entries. */
  ghost function Walked(t: Tree, p: Path, i: nat): Effect
    requires WellFormed(t) && Listed(t, p) && i <= |t.listings[p]|
  {
    Effect({p}, {}).Then(ItemsEffect(t, p, t.listings[p][..i]))
  }

  /** One more entry of `overlay_directory`'s loop over `p`. */
  lemma ItemsAdvance(t: Tree, root: string, decode: string -> Bytes, p: Path, i: nat,
                     s0: FsState, before: FsState, now: FsState)
    requires WellFormed(t) && Listed(t, p) && i < |t.listings[p]|
    requires before == s0.Apply(ToDelta(t, root, decode, Walked(t, p, i)))
    requires now == before.Apply(ToDelta(t, root, decode, EntryEffect(t, t.listings[p][i])))
    ensures now == s0.Apply(ToDelta(t, root, decode, Walked(t, p, i + 1)))
  {
    ItemsStep(t, p, i);
    Advance(s0, before, now, t, root, decode, Effect({p}, {}).Then(ItemsEffect(t, p, t.listings[p][..i])),
            EntryEffect(t, t.listings[p][i]));
  }

  /** Creating `root/path` is the walk of `path` before any entry. */
  lemma DirStart(t: Tree, root: string, decode: string -> Bytes, p: Path, s0: FsState, now: FsState)
    requires WellFormed(t) && Listed(t, p)
    requires now == s0.Apply(Delta(Prefixes(Local(root, p)), map[]))
    ensures now == s0.Apply(ToDelta(t, root, decode, Walked(t, p, 0)))
  {
    ToDeltaDir(t, root, decode, p);
    assert t.listings[p][..0] == [];
    assert Effect({p}, {}).Then(ItemsEffect(t, p, t.listings[p][..0])) == Effect({p}, {});
  }

  /** After the last entry the walk of `path` is complete. */
  lemma DirEnd(t: Tree, root: string, decode: string -> Bytes, p: Path, s0: FsState, now: FsState)
    requires WellFormed(t) && Listed(t, p)
    requires now == s0.Apply(ToDelta(t, root, decode, Walked(t, p, |t.listings[p]|)))
    ensures now == s0.Apply(ToDelta(t, root, decode, DirEffect(t, p)))
  {
    assert t.listings[p][..|t.listings[p]|] == t.listings[p];
  }

  /** `overlay_directory`: create `root/path`, then act on each entry in order. */
  method OverlayDirectory(fs: LocalFs, t: Tree, root: string, decode: string -> Bytes, path: Path)
    requires WellFormed(t) && Listed(t, path)
    modifies fs
    ensures fs.State() == old(fs.State()).Apply(ToDelta(t, root, decode, DirEffect(t, path)))
    decreases Above(t, path), 1
  {
    ghost var s0 := fs.State();
    fs.MkdirP(Local(root, path));
    DirStart(t, root, decode, path, s0, fs.State());
    var entries := t.listings[path];
    var i := 0;
    while i < |entries|
      invariant 0 <= i <= |entries|
      invariant fs.State() == s0.Apply(ToDelta(t, root, decode, Walked(t, path, i)))
    {
      ghost var before := fs.State();
      OverlayEntry(fs, t, root, decode, path, i);
      ItemsAdvance(t, root, decode, path, i, s0, before, fs.State());
      i := i + 1;
    }
    DirEnd(t, root, decode, path, s0, fs.State());
  }

  /** The body of `overlay_directory`'s loop for entry `i` of `path`: descend into a
      `dir`, clone a `file` and skip anything else. */
  method OverlayEntry(fs: LocalFs, t: Tree, root: string, decode: string -> Bytes, path: Path, i: nat)
    requires WellFormed(t) && Listed(t, path) && i < |t.listings[path]|
    modifies fs
    ensures fs.State() == old(fs.State()).Apply(ToDelta(t, root, decode, EntryEffect(t, t.listings[path][i])))
    decreases Above(t, path), 0
  {
    var entry := t.listings[path][i];
    if entry.kind == DirType {
      AboveShrinks(t, path, entry.path);
      OverlayDirectory(fs, t, root, decode, entry.path);
    } else if entry.kind == FileType {
      ItemsStep(t, path, i);
      CloneFile(fs, t, root, decode, entry.path);
    } else {
      NoEffect(fs.State(), t, root, decode);
    }
  }

  /** The walk of `overlay_repo` over snapshot `t`: only root entries of type `dir`
      are descended into. */
  method OverlayTree(fs: LocalFs, t: Tree, root: string, decode: string -> Bytes)
    requires WellFormed(t)
    modifies fs
    ensures fs.State() == old(fs.State()).Apply(ToDelta(t, root, decode, RepoEffect(t)))
  {
    ghost var s0 := fs.State();
    var entries := t.listings[RootPath];
    NoEffect(s0, t, root, decode);
    assert entries[..0] == [];
    var i := 0;
    while i < |entries|
      invariant 0 <= i <= |entries|
      invariant fs.State() == s0.Apply(ToDelta(t, root, decode, RootEffect(t, entries[..i])))
    {
      ghost var before := fs.State();
      var entry := entries[i];
      RootStep(t, i);
      if entry.kind == DirType {
        OverlayDirectory(fs, t, root, decode, entry.path);
      }
      RootAdvance(t, root, decode, i, s0, before, fs.State());
      i := i + 1;
    }
    assert entries[..|entries|] == entries;
  }

  /** `overlay_repo(user, repo, branch)`: list the root of that branch and mirror it;
      the API raises when it does not know the branch. */
  method OverlayRepo(fs: LocalFs, remote: Remote, user: string, repo: string, branch: string,
                     root: string, decode: string -> Bytes) returns (res: Outcome<SyncError>)
    requires AllWellFormed(remote.contents)
    modifies fs
    ensures var key := BranchKey(user, repo, branch);
      if key in remote.contents then
        res == Pass &&
        fs.State() == old(fs.State()).Apply(ToDelta(remote.contents[key], root, decode, RepoEffect(remote.contents[key])))
      else
        res == Fail(BranchNotFound(key)) && fs.State() == old(fs.State())
  {
    var key := BranchKey(user, repo, branch);
    if key !in remote.contents {
      return Fail(BranchNotFound(key));
    }
    OverlayTree(fs, remote.contents[key], root, decode);
    res := Pass;
  }

  /** `register_web_hook(user, repo)`: create the hook unless one with the same URL
      exists; the API raises when it does not know the repository. */
  method RegisterWebHook(remote: Remote, user: string, repo: string, s: Settings, host: Host)
    returns (res: Outcome<SyncError>)
    modifies remote
    ensures var key := RepoKey(user, repo);
      if key in old(remote.hooks) then
        res == Pass && remote.hooks == old(remote.hooks)[key := Register(old(remote.hooks)[key], HookUri(s, host))]
      else
        res == Fail(RepoNotFound(key)) && remote.hooks == old(remote.hooks)
  {
    var uri := HookUri(s, host);
    var key := RepoKey(user, repo);
    if key !in remote.hooks {
      return Fail(RepoNotFound(key));
    }
    var current := remote.hooks[key];
    if !HookRegistered(current, uri) {
      remote.hooks := remote.hooks[key := current + [NewHook(uri)]];
    }
    res := Pass;
  }

  /** The state of a `process_overlays` run so far: how it ended, the remote's hooks
      and the local changes made. */
  datatype Run = Run(outcome: Outcome<SyncError>, hooks: map<RepoKey, seq<WebHook>>, delta: Delta)

  /** One pass of the loop of `process_overlays` over entry `e`. */
  ghost function Step(r: Run, e: SyncEntry, contents: map<BranchKey, Tree>, uri: Uri, root: string,
                      decode: string -> Bytes): Run
    requires AllWellFormed(contents)
  {
    match e
    case OtherEntry => r
    case RepoEntry(u, rp, b) =>
      if u.None? then r.(outcome := Fail(MissingUser))
      else if rp.None? then r.(outcome := Fail(MissingRepo))
      else
        var key := RepoKey(u.value, rp.value);
        if key !in r.hooks then r.(outcome := Fail(RepoNotFound(key)))
        else
          var hooks := r.hooks[key := Register(r.hooks[key], uri)];
          var bk := BranchKey(u.value, rp.value, b.GetOr("master"));
          if bk !in contents then Run(Fail(BranchNotFound(bk)), hooks, r.delta)
          else Run(Pass, hooks, r.delta.Then(ToDelta(contents[bk], root, decode, RepoEffect(contents[bk]))))
  }

  /** The loop of `process_overlays` over `entries`, stopping at the first raise. */
  ghost function Loop(entries: seq<SyncEntry>, h0: map<RepoKey, seq<WebHook>>, contents: map<BranchKey, Tree>,
                      uri: Uri, root: string, decode: string -> Bytes): Run
    requires AllWellFormed(contents)
    decreases |entries|
  {
    if entries == [] then Run(Pass, h0, NoChange)
    else
      var r := Loop(entries[..|entries| - 1], h0, contents, uri, root, decode);
      if r.outcome.Fail? then r else Step(r, entries[|entries| - 1], contents, uri, root, decode)
  }

  /** `process_overlays`: nothing outside a Rails server; otherwise `configure`, then the loop. */
  ghost function Process(entries: seq<SyncEntry>, s: Settings, host: Host, h0: map<RepoKey, seq<WebHook>>,
                         contents: map<BranchKey, Tree>, decode: string -> Bytes): Run
    requires AllWellFormed(contents)
  {
    if !host.serverRunning then Run(Pass, h0, NoChange)
    else if Configure(s).Failure? then Run(Fail(Configure(s).error), h0, NoChange)
    else Loop(entries, h0, contents, HookUri(s, host), host.appRoot, decode)
  }

  /** Once the loop has raised, later entries are not looked at. */
  lemma {:induction false} LoopStopsAtFailure(entries: seq<SyncEntry>, n: nat, h0: map<RepoKey, seq<WebHook>>,
                                               contents: map<BranchKey, Tree>, uri: Uri, root: string, decode: string -> Bytes)
    requires AllWellFormed(contents) && n <= |entries|
    requires Loop(entries[..n], h0, contents, uri, root, decode).outcome.Fail?
    ensures Loop(entries, h0, contents, uri, root, decode) == Loop(entries[..n], h0, contents, uri, root, decode)
    decreases |entries| - n
  {
    if n < |entries| {
      var m := |entries| - 1;
      assert entries[..m][..n] == entries[..n];
      LoopStopsAtFailure(entries[..m], n, h0, contents, uri, root, decode);
    } else {
      assert entries[..n] == entries;
    }
  }

  /** `process_overlays` (the loop): skip entries that are not `GithubRepo`, raise
      for a missing user before a missing repo, register the hook, then mirror the
      branch (`master` when none is given), entry by entry and in order. */
  method ProcessOverlays(fs: LocalFs, remote: Remote, entries: seq<SyncEntry>, s: Settings, host: Host,
                         decode: string -> Bytes) returns (outcome: Outcome<SyncError>)
    requires AllWellFormed(remote.contents)
    modifies fs, remote
    ensures var r := Process(entries, s, host, old(remote.hooks), remote.contents, decode);
      outcome == r.outcome && remote.hooks == r.hooks && fs.State() == old(fs.State()).Apply(r.delta)
  {
    assert old(fs.State()).Apply(NoChange) == old(fs.State());
    if !host.serverRunning {
      return Pass;
    }
    var client := Configure(s);
    if client.Failure? {
      return Fail(client.error);
    }
    ghost var uri := HookUri(s, host);
    ghost var h0 := remote.hooks;
    var root := host.appRoot;
    var i := 0;
    while i < |entries|
      invariant 0 <= i <= |entries|
      invariant var r := Loop(entries[..i], h0, remote.contents, uri, root, decode);
        r.outcome == Pass && remote.hooks == r.hooks && fs.State() == old(fs.State()).Apply(r.delta)
    {
      ghost var r := Loop(entries[..i], h0, remote.contents, uri, root, decode);
      assert entries[..i + 1][..i] == entries[..i];
      assert Loop(entries[..i + 1], h0, remote.contents, uri, root, decode)
          == Step(r, entries[i], remote.contents, uri, root, decode);
      match entries[i] {
      case OtherEntry =>
      case RepoEntry(user, repo, branch) =>
        if user.None? {
          LoopStopsAtFailure(entries, i + 1, h0, remote.contents, uri, root, decode);
          return Fail(MissingUser);
        }
        if repo.None? {
          LoopStopsAtFailure(entries, i + 1, h0, remote.contents, uri, root, decode);
          return Fail(MissingRepo);
        }
        var branchName := branch.GetOr("master");
        var registered := RegisterWebHook(remote, user.value, repo.value, s, host);
        if registered.Fail? {
          LoopStopsAtFailure(entries, i + 1, h0, remote.contents, uri, root, decode);
          return registered;
        }
        ghost var before := fs.State();
        var overlaid := OverlayRepo(fs, remote, user.value, repo.value, branchName, root, decode);
        if overlaid.Fail? {
          LoopStopsAtFailure(entries, i + 1, h0, remote.contents, uri, root, decode);
          return overlaid;
        }
        ghost var t := remote.contents[BranchKey(user.value, repo.value, branchName)];
        ApplyThen(old(fs.State()), r.delta, ToDelta(t, root, decode, RepoEffect(t)));
      }
      i := i + 1;
    }
    assert entries[..|entries|] == entries;
    outcome := Pass;
  }

  /** The error entry `e` raises in the loop, given the repositories the API knows
      and the branches it holds: a missing user first, then a missing repo, then
      an unknown repository, then an unknown branch (`master` when none is given). */
  function EntryFault(e: SyncEntry, known: set<RepoKey>, contents: map<BranchKey, Tree>): Option<SyncError> {
    match e
    case OtherEntry => None
    case RepoEntry(u, rp, b) =>
      if u.None? then Some(MissingUser)
      else if rp.None? then Some(MissingRepo)
      else if RepoKey(u.value, rp.value) !in known then Some(RepoNotFound(RepoKey(u.value, rp.value)))
      else if BranchKey(u.value, rp.value, b.GetOr("master")) !in contents then
        Some(BranchNotFound(BranchKey(u.value, rp.value, b.GetOr("master"))))
      else None
  }

  /** None of the first `n` entries raises. */
  ghost predicate Clear(entries: seq<SyncEntry>, n: int, known: set<RepoKey>, contents: map<BranchKey, Tree>)
    requires n <= |entries|
  {
    forall j :: 0 <= j < n ==> EntryFault(entries[j], known, contents).None?
  }

  /** An entry for which the loop calls `register_web_hook`. */
  predicate Named(e: SyncEntry) {
    e.RepoEntry? && e.user.Some? && e.repo.Some?
  }

  function KeyOf(e: SyncEntry): RepoKey
    requires Named(e)
  {
    RepoKey(e.user.value, e.repo.value)
  }

  lemma ClearPrefix(entries: seq<SyncEntry>, n: nat, i: int, known: set<RepoKey>, contents: map<BranchKey, Tree>)
    requires i <= n <= |entries|
    ensures Clear(entries[..n], i, known, contents) <==> Clear(entries, i, known, contents)
  {
    assert forall j :: 0 <= j < n ==> entries[..n][j] == entries[j];
  }

  /** The loop never adds or removes a repository on the remote and only appends hooks. */
  lemma {:induction false} LoopHooksGrow(entries: seq<SyncEntry>, h0: map<RepoKey, seq<WebHook>>,
                                         contents: map<BranchKey, Tree>, uri: Uri, root: string, decode: string -> Bytes)
    requires AllWellFormed(contents)
    ensures var r := Loop(entries, h0, contents, uri, root, decode);
      r.hooks.Keys == h0.Keys && forall k :: k in h0 ==> h0[k] <= r.hooks[k]
    decreases |entries|
  {
    if entries != [] {
      var n := |entries| - 1;
      LoopHooksGrow(entries[..n], h0, contents, uri, root, decode);
      var r := Loop(entries[..n], h0, contents, uri, root, decode);
      if r.outcome.Pass? && Named(entries[n]) && KeyOf(entries[n]) in r.hooks {
        RegisterFacts(r.hooks[KeyOf(entries[n])], uri);
      }
    }
  }

  /** The loop passes exactly when no entry raises, and otherwise raises the error of
      the first entry that does. */
  lemma {:induction false} LoopOutcome(entries: seq<SyncEntry>, h0: map<RepoKey, seq<WebHook>>,
                                       contents: map<BranchKey, Tree>, uri: Uri, root: string, decode: string -> Bytes)
    requires AllWellFormed(contents)
    ensures var r := Loop(entries, h0, contents, uri, root, decode);
      && (r.outcome.Pass? <==> Clear(entries, |entries|, h0.Keys, contents))
      && (r.outcome.Fail? ==> exists i :: 0 <= i < |entries| && Clear(entries, i, h0.Keys, contents)
                                          && EntryFault(entries[i], h0.Keys, contents) == Some(r.outcome.error))
    decreases |entries|
  {
    if entries != [] {
      var n := |entries| - 1;
      var known := h0.Keys;
      LoopOutcome(entries[..n], h0, contents, uri, root, decode);
      LoopHooksGrow(entries[..n], h0, contents, uri, root, decode);
      ClearPrefix(entries, n, n, known, contents);
      var r := Loop(entries[..n], h0, contents, uri, root, decode);
      if r.outcome.Fail? {
        var i :| 0 <= i < n && Clear(entries[..n], i, known, contents)
                 && EntryFault(entries[..n][i], known, contents) == Some(r.outcome.error);
        ClearPrefix(entries, n, i, known, contents);
        assert entries[..n][i] == entries[i];
        assert !EntryFault(entries[i], known, contents).None?;
      } else {
        assert Loop(entries, h0, contents, uri, root, decode).outcome.Fail? ==>
          Clear(entries, n, known, contents) && EntryFault(entries[n], known, contents)
            == Some(Loop(entries, h0, contents, uri, root, decode).outcome.error);
      }
    }
  }

  /** Appending hooks keeps a registered URL registered. */
  lemma RegisteredStays(hooks: seq<WebHook>, more: seq<WebHook>, uri: Uri)
    requires hooks <= more && HookRegistered(hooks, uri)
    ensures HookRegistered(more, uri)
  {
    var j :| 0 <= j < |hooks| && hooks[j].url == uri;
    assert more[j] == hooks[j];
  }

  /** Entry `i`, reached without a raise before it and naming a repository the
      remote knows, ends up with a hook at `uri`. */
  lemma {:induction false} LoopRegistersAt(entries: seq<SyncEntry>, i: nat, h0: map<RepoKey, seq<WebHook>>,
                                           contents: map<BranchKey, Tree>, uri: Uri, root: string, decode: string -> Bytes)
    requires AllWellFormed(contents)
    requires i < |entries| && Clear(entries, i, h0.Keys, contents) && Named(entries[i]) && KeyOf(entries[i]) in h0
    ensures var r := Loop(entries, h0, contents, uri, root, decode);
      KeyOf(entries[i]) in r.hooks && HookRegistered(r.hooks[KeyOf(entries[i])], uri)
    decreases |entries|
  {
    var n := |entries| - 1;
    var k := KeyOf(entries[i]);
    var r := Loop(entries[..n], h0, contents, uri, root, decode);
    LoopHooksGrow(entries[..n], h0, contents, uri, root, decode);
    if i < n {
      ClearPrefix(entries, n, i, h0.Keys, contents);
      assert entries[..n][i] == entries[i];
      LoopRegistersAt(entries[..n], i, h0, contents, uri, root, decode);
      if r.outcome.Pass? && Named(entries[n]) && KeyOf(entries[n]) in r.hooks {
        RegisterFacts(r.hooks[KeyOf(entries[n])], uri);
      }
      RegisteredStays(r.hooks[k], Loop(entries, h0, contents, uri, root, decode).hooks[k], uri);
    } else {
      LoopOutcome(entries[..n], h0, contents, uri, root, decode);
      ClearPrefix(entries, n, n, h0.Keys, contents);
      RegisterFacts(r.hooks[k], uri);
    }
  }

  /** Every entry the loop reaches without a raise before it, and whose repository
      the remote knows, ends up with a hook at `uri`. */
  lemma LoopRegisters(entries: seq<SyncEntry>, h0: map<RepoKey, seq<WebHook>>,
                      contents: map<BranchKey, Tree>, uri: Uri, root: string, decode: string -> Bytes)
    requires AllWellFormed(contents)
    ensures var r := Loop(entries, h0, contents, uri, root, decode);
      forall i :: 0 <= i < |entries| && Clear(entries, i, h0.Keys, contents) && Named(entries[i]) && KeyOf(entries[i]) in h0
        ==> KeyOf(entries[i]) in r.hooks && HookRegistered(r.hooks[KeyOf(entries[i])], uri)
  {
    forall i | 0 <= i < |entries| && Clear(entries, i, h0.Keys, contents) && Named(entries[i]) && KeyOf(entries[i]) in h0 {
      LoopRegistersAt(entries, i, h0, contents, uri, root, decode);
    }
  }

  /** What the loop raises and what it changes locally depend on which repositories
      the remote knows, not on the hooks they already have. */
  lemma {:induction false} LoopIgnoresHookLists(entries: seq<SyncEntry>, h0: map<RepoKey, seq<WebHook>>,
                                                h1: map<RepoKey, seq<WebHook>>, contents: map<BranchKey, Tree>,
                                                uri: Uri, root: string, decode: string -> Bytes)
    requires AllWellFormed(contents) && h0.Keys == h1.Keys
    ensures var r0, r1 := Loop(entries, h0, contents, uri, root, decode), Loop(entries, h1, contents, uri, root, decode);
      r0.outcome == r1.outcome && r0.delta == r1.delta
    decreases |entries|
  {
    if entries != [] {
      var n := |entries| - 1;
      LoopIgnoresHookLists(entries[..n], h0, h1, contents, uri, root, decode);
      LoopHooksGrow(entries[..n], h0, contents, uri, root, decode);
      LoopHooksGrow(entries[..n], h1, contents, uri, root, decode);
    }
  }

  /** When every entry the loop reaches already has a hook at `uri`, the loop
      creates no hook. */
  lemma {:induction false} LoopKeepsRegisteredHooks(entries: seq<SyncEntry>, h0: map<RepoKey, seq<WebHook>>,
                                                    contents: map<BranchKey, Tree>, uri: Uri, root: string,
                                                    decode: string -> Bytes)
    requires AllWellFormed(contents)
    requires forall i :: 0 <= i < |entries| && Clear(entries, i, h0.Keys, contents) && Named(entries[i]) && KeyOf(entries[i]) in h0
               ==> HookRegistered(h0[KeyOf(entries[i])], uri)
    ensures Loop(entries, h0, contents, uri, root, decode).hooks == h0
    decreases |entries|
  {
    if entries != [] {
      var n := |entries| - 1;
      var known := h0.Keys;
      forall i | 0 <= i < n && Clear(entries[..n], i, known, contents) && Named(entries[..n][i]) && KeyOf(entries[..n][i]) in h0
        ensures HookRegistered(h0[KeyOf(entries[..n][i])], uri)
      {
        ClearPrefix(entries, n, i, known, contents);
        assert entries[..n][i] == entries[i];
      }
      LoopKeepsRegisteredHooks(entries[..n], h0, contents, uri, root, decode);
      LoopOutcome(entries[..n], h0, contents, uri, root, decode);
      ClearPrefix(entries, n, n, known, contents);
      var r := Loop(entries[..n], h0, contents, uri, root, decode);
      if r.outcome.Pass? && Named(entries[n]) && KeyOf(entries[n]) in h0 {
        var k := KeyOf(entries[n]);
        assert Register(h0[k], uri) == h0[k];
        assert h0[k := h0[k]] == h0;
      }
    }
  }

  /** `process_overlays` passes exactly when it is not run in a server, or basic auth
      is set and no repository entry raises; without basic auth in a server it
      raises before touching anything. */
  lemma ProcessOutcome(entries: seq<SyncEntry>, s: Settings, host: Host, h0: map<RepoKey, seq<WebHook>>,
                       contents: map<BranchKey, Tree>, decode: string -> Bytes)
    requires AllWellFormed(contents)
    ensures var r := Process(entries, s, host, h0, contents, decode);
      && (r.outcome.Pass? <==> !host.serverRunning || (s.auth.Some? && Clear(entries, |entries|, h0.Keys, contents)))
      && (host.serverRunning && s.auth.None? ==> r == Run(Fail(AuthNotSet), h0, NoChange))
      && (!host.serverRunning ==> r == Run(Pass, h0, NoChange))
  {
    if host.serverRunning && s.auth.Some? {
      LoopOutcome(entries, h0, contents, HookUri(s, host), host.appRoot, decode);
    }
  }

  /** A second `process_overlays` over an unchanged remote raises what the first
      raised, creates no hook and leaves the local tree as the first left it. */
  lemma ProcessTwice(entries: seq<SyncEntry>, s: Settings, host: Host, h0: map<RepoKey, seq<WebHook>>,
                     contents: map<BranchKey, Tree>, decode: string -> Bytes, fs0: FsState)
    requires AllWellFormed(contents)
    ensures var r1 := Process(entries, s, host, h0, contents, decode);
      var r2 := Process(entries, s, host, r1.hooks, contents, decode);
      && r2.outcome == r1.outcome
      && r2.hooks == r1.hooks
      && fs0.Apply(r1.delta).Apply(r2.delta) == fs0.Apply(r1.delta)
  {
    var r1 := Process(entries, s, host, h0, contents, decode);
    if host.serverRunning && s.auth.Some? {
      var uri, root := HookUri(s, host), host.appRoot;
      LoopHooksGrow(entries, h0, contents, uri, root, decode);
      LoopRegisters(entries, h0, contents, uri, root, decode);
      LoopIgnoresHookLists(entries, h0, r1.hooks, contents, uri, root, decode);
      LoopKeepsRegisteredHooks(entries, r1.hooks, contents, uri, root, decode);
    } else {
      assert r1.delta == NoChange;
    }
    ApplyIdempotent(fs0, r1.delta);
  }

  /** Only the `GithubRepo` entries of the repository set. */
  function Repos(entries: seq<SyncEntry>): (r: seq<SyncEntry>)
    ensures |r| <= |entries|
    ensures forall i :: 0 <= i < |r| ==> r[i].RepoEntry?
    ensures forall e :: e in r <==> e in entries && e.RepoEntry?
    decreases |entries|
  {
    if entries == [] then []
    else
      var n := |entries| - 1;
      assert entries == entries[..n] + [entries[n]];
      if entries[n].OtherEntry? then Repos(entries[..n])
      else Repos(entries[..n]) + [entries[n]]
  }

  /** The `GithubRepo` entries keep their order: filtering two runs of entries is
      filtering the first, then the second. */
  lemma {:induction false} ReposAppend(a: seq<SyncEntry>, b: seq<SyncEntry>)
    ensures Repos(a + b) == Repos(a) + Repos(b)
    decreases |b|
  {
    if b == [] {
      assert a + b == a;
    } else {
      var n := |b| - 1;
      assert (a + b)[..|a + b| - 1] == a + b[..n];
      assert (a + b)[|a + b| - 1] == b[n];
      ReposAppend(a, b[..n]);
    }
  }

  /** Entries that are not `GithubRepo` make no difference to the loop. */
  lemma {:induction false} LoopSkipsOthers(entries: seq<SyncEntry>, h0: map<RepoKey, seq<WebHook>>,
                                           contents: map<BranchKey, Tree>, uri: Uri, root: string, decode: string -> Bytes)
    requires AllWellFormed(contents)
    ensures Loop(entries, h0, contents, uri, root, decode) == Loop(Repos(entries), h0, contents, uri, root, decode)
    decreases |entries|
  {
    if entries != [] {
      var n := |entries| - 1;
      LoopSkipsOthers(entries[..n], h0, contents, uri, root, decode);
      var r := Loop(entries[..n], h0, contents, uri, root, decode);
      if entries[n].RepoEntry? {
        var rs := Repos(entries[..n]) + [entries[n]];
        assert rs[..|rs| - 1] == Repos(entries[..n]) && rs[|rs| - 1] == entries[n];
        assert Loop(rs, h0, contents, uri, root, decode)
            == if r.outcome.Fail? then r else Step(r, entries[n], contents, uri, root, decode);
      } else {
        assert Step(r, entries[n], contents, uri, root, decode) == r;
      }
    }
  }
}
