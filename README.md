# overlay — a Dafny model

`overlay` is a Rails engine that mirrors directories of GitHub repositories into
the running application's tree and keeps them current through a GitHub webhook.
This project models its core in Dafny and proves properties of the model:

- **`Overlay::GithubRepo` and `Overlay::Configuration`** (module `OverlayConfig`,
  `configuration.dfy`): the per-repository configuration record with its
  defaults, its validation (first missing required parameter, publisher
  parameters only with `use_publisher`), the setters that rebuild the API
  handle, the post-hook slot, and the process-wide repository set with `reset`.
- **`Overlay::Github`** (modules `Filesystem`, `RemoteTree`, `GithubSync`): the
  `process_overlays` loop, `configure`, `register_web_hook`, and the tree walk
  `overlay_repo` / `overlay_directory` / `clone_file`. The local file system is a
  class `LocalFs` (a set of directories and a map from file path to bytes) that
  the walk changes in place. A GitHub branch is a `Tree` value: the listing of
  every directory and the content of every file. The remote's hooks are a
  field of a `Remote` object that registration updates.
  The walk is proved against ghost functions (`DirEffect`, `RepoEffect`, each
  giving the remote directories visited and files cloned). The whole loop is
  proved against `Loop` / `Process`, which give the outcome, the new hook lists
  and the local changes.
- **`Overlay::GithubController#update`** (module `WebhookController`): the
  matching rule and the dispatch loop, proved against `Dispatch`, the sequence
  of configurations handed to `process_hook`.

`wrappers.dfy` holds `Option`, `Outcome` (pass or raise) and `Result`. A Ruby
`raise` is a `Fail`/`Failure` value. A Ruby `nil` is `None`. `x || default`
is `GetOr`.

### Where the code raises, and where it disagrees with its older tests

In three places `lib/overlay/github.rb` as written would raise before doing its
work. There the model follows what the code evidently means, as
`configuration.rb` and the tests write it.

- `process_overlays` reads `repo_config[:user]`, `[:repo]` and `[:branch]`, but
  `GithubRepo` defines neither `[]` nor `user`, so these lookups raise
  `NoMethodError`. The loop is modelled over `SyncEntry` values that carry exactly
  those three lookups (or `OtherEntry` for an object of another class).
- `configure` and `register_web_hook` read `auth`, `endpoint`, `site` and
  `hostname` from `Overlay.configuration`. `Configuration` declares only
  `repositories`, `host_name`, `host_port` and `relative_root_url`, so these reads
  raise `NoMethodError`. The model passes the five values these two methods
  read as one `GithubSync.Settings` value: the four above, and `host_port`,
  which `Configuration` does declare. `Settings.hostPort` stands for
  `OverlayConfig.Configuration.hostPort` at the time of the call, and
  `Settings.hostName` for the `host_name` that `hostname` evidently means.
  They are passed as a value so that `Process` and its lemmas depend on
  the settings alone and not on a heap object.
- Inside `class Overlay::Github` the bare constant `Github` names
  `Overlay::Github` itself, not the API gem's `::Github`. As written,
  `Github.configure do … end` in `configure` calls `configure` again, once auth
  is set. The recursion has no base case and ends by raising `SystemStackError`.
  `Github::Repos.new` in `github_repo` raises `NameError`.
  The model treats both as the gem's `::Github`, as `initialize_api` in
  `configuration.rb` writes it.

Elsewhere the model follows the code even where the older tests expect otherwise:

- The tests expect a post hook to be settable only once. The code replaces the
  stored block on every call (`OverlayConfig.GithubRepo.AfterProcessHook`).
- The tests call `overlay_repo` with a configuration and expect it to start at
  the configured source path. The code lists `'/'` of the branch every time.
- The class comment lists `root_dest_path` as required. `validate` never checks it
  (`OverlayConfig.DestPathNotChecked`).

## Model

| member | source | states |
|---|---|---|
| OverlayConfig.Defaults | lib/overlay/configuration.rb:60-72 | every option is stored as given; `branch` is the given branch or `master`; `use_publisher` is true only when given as true |
| OverlayConfig.GithubRepo.constructor | lib/overlay/configuration.rb:60-72 | the new record holds `Defaults(options)`, no API handle and no post hook |
| OverlayConfig.GithubRepo.New | lib/overlay/configuration.rb:60-79 | construction raises exactly when validation of the defaulted settings raises, with that error; otherwise the fresh record holds the defaulted settings and a first API handle built from them |
| OverlayConfig.Missing | lib/overlay/configuration.rb:98-104 | a base parameter is missing when nil or empty, a publisher parameter only when nil |
| OverlayConfig.FirstMissing | lib/overlay/configuration.rb:97-105 | the first parameter of a list that is missing, or none |
| OverlayConfig.Validation | lib/overlay/configuration.rb:96-107 | raise `RequiredParameterError` for the first missing base parameter, then (with `use_publisher`) for the first missing publisher parameter; otherwise pass |
| OverlayConfig.GithubRepo.Validate | lib/overlay/configuration.rb:96-107 | the two checking loops give exactly `Validation` of the record: the first missing base parameter, then (with `use_publisher`) the first nil publisher parameter |
| OverlayConfig.FirstMissingIsFirst | lib/overlay/configuration.rb:97-99 | the search finds nothing iff no parameter is missing, and otherwise returns the earliest missing one |
| OverlayConfig.ValidationNamesFirstMissing | lib/overlay/configuration.rb:96-106 | `validate` raises iff some checked parameter is missing, naming the first one in the order org, repo, auth, root_source_path, redis_server, redis_port, registration_server |
| OverlayConfig.BaseParamsCheckedFirst | lib/overlay/configuration.rb:97-103 | a nil or empty base parameter makes `validate` raise for a base parameter, whatever the publisher fields hold |
| OverlayConfig.PublisherFieldsIgnoredWithoutPublisher | lib/overlay/configuration.rb:102-106 | without `use_publisher`, changing the three publisher fields never changes the outcome of `validate` |
| OverlayConfig.EmptyPublisherFieldsAccepted | lib/overlay/configuration.rb:104 | publisher fields are checked for nil only: with good base parameters, empty publisher strings pass |
| OverlayConfig.DestPathNotChecked | lib/overlay/configuration.rb:57 | changing `root_dest_path` never changes the outcome of `validate` |
| OverlayConfig.GithubRepo.InitializeApi | lib/overlay/configuration.rb:121-134 | a new API handle bound to the current endpoint, site, auth, repo and org; no setting changes |
| OverlayConfig.GithubRepo.SetEndpoint | lib/overlay/configuration.rb:81-86 | only the endpoint changes, and the handle is rebuilt from the new settings |
| OverlayConfig.GithubRepo.SetSite | lib/overlay/configuration.rb:88-93 | only the site changes, and the handle is rebuilt from the new settings |
| OverlayConfig.GithubRepo.AfterProcessHook | lib/overlay/configuration.rb:110-113 | without a block: `ArgumentError` and the slot is unchanged; with one: it replaces whatever was stored; no setting changes |
| OverlayConfig.GithubRepo.PostHook | lib/overlay/configuration.rb:116-118 | runs the stored block exactly once; with none stored, nothing happens |
| OverlayConfig.RunPostHookTwice | lib/overlay/configuration.rb:110-118 | after storing a block, two `post_hook` calls run it twice |
| OverlayConfig.Configuration.constructor | lib/overlay/configuration.rb:25-27 | a new configuration has an empty repository set |
| OverlayConfig.Configuration.Reset | lib/overlay/configuration.rb:29-31 | the repository set becomes empty; the other settings are kept |
| OverlayConfig.Configuration.AddRepository | lib/overlay/configuration.rb:30 | set insertion: the entry is appended unless present, and the set stays free of repeats |
| GithubSync.Configure | lib/overlay/github.rb:96-109 | raises "basic_auth not set" exactly when auth is nil; otherwise the client gets that auth, endpoint and site |
| GithubSync.HookUri | lib/overlay/github.rb:41-42 | host is the configured host name, else the machine's; port is the configured port, else the server's |
| GithubSync.HookRegistered | lib/overlay/github.rb:47 | some existing hook's URL equals the built URI |
| GithubSync.Register | lib/overlay/github.rb:46-50 | the hook list only grows, and afterwards some hook has the URI |
| GithubSync.RegisterFacts | lib/overlay/github.rb:46-50 | exactly one hook (`web`, active, the URI, json) is created when no hook has the URI and none otherwise; afterwards the URI is registered and registering again changes nothing |
| GithubSync.RegisterWebHook | lib/overlay/github.rb:36-51 | for a repository the remote knows, its hook list becomes `Register(list, uri)` and nothing else changes; for an unknown one the call raises Not Found and changes nothing |
| GithubSync.CloneFile | lib/overlay/github.rb:80-83 | the decoded remote content is written at `root/path` (overwriting); nothing else changes |
| GithubSync.OverlayDirectory | lib/overlay/github.rb:67-78 | the local tree becomes the old one changed by the walk of `path`: `root/path` is created, then every entry is acted on in order |
| GithubSync.OverlayEntry | lib/overlay/github.rb:71-77 | a `dir` entry is walked, a `file` entry is cloned, any other type changes nothing |
| GithubSync.OverlayTree | lib/overlay/github.rb:60-64 | the local tree becomes the old one changed by the walk of every root `dir` entry in order, and by nothing else |
| GithubSync.OverlayRepo | lib/overlay/github.rb:53-65 | for a known branch the walk starts from the root listing `/`; an unknown branch raises Not Found and changes nothing |
| GithubSync.Process | lib/overlay/github.rb:10-31 | outside a Rails server nothing happens; otherwise `configure`, and if it passes, the loop over the entries with the hook URI and the application root |
| GithubSync.Loop | lib/overlay/github.rb:19-31 | the entries in order, each by `Step`, stopping at the first raise |
| GithubSync.EntryFault | lib/overlay/github.rb:23-30 | the error an entry raises: a missing user, then a missing repo, then a repository the API does not know, then a branch it does not hold (`master` when none is given) |
| GithubSync.ProcessOverlays | lib/overlay/github.rb:10-32 | outcome, remote hooks and local tree are exactly those of `Process`: nothing outside a server, `configure` first, then every entry in order |
| GithubSync.LoopStopsAtFailure | lib/overlay/github.rb:19-31 | once an entry raises, later entries are never looked at |
| GithubSync.LoopOutcome | lib/overlay/github.rb:19-31 | the loop passes iff no entry raises, and otherwise raises the error of the first entry that does; missing user is checked before missing repo, then the repository, then the branch |
| GithubSync.LoopHooksGrow | lib/overlay/github.rb:28 | the loop adds no repository to the remote and only appends hooks |
| GithubSync.LoopRegistersAt | lib/overlay/github.rb:26-28 | an entry reached without an earlier raise, whose repository the remote knows, ends up with a hook at the URI |
| GithubSync.LoopRegisters | lib/overlay/github.rb:19-31 | the same for every such entry at once |
| GithubSync.LoopIgnoresHookLists | lib/overlay/github.rb:19-31 | outcome and local changes depend on which repositories exist, not on the hooks they have |
| GithubSync.LoopKeepsRegisteredHooks | lib/overlay/github.rb:46-50 | when every reached entry already has a hook at the URI, the loop creates no hook |
| GithubSync.LoopSkipsOthers | lib/overlay/github.rb:19-20 | entries of another class make no difference: the loop over all entries equals the loop over the `GithubRepo` ones |
| GithubSync.Repos | lib/overlay/github.rb:20 | an entry is kept iff it is a `GithubRepo` entry of the set |
| GithubSync.ReposAppend | lib/overlay/github.rb:19-20 | the kept entries stay in iteration order: filtering two runs of entries is filtering the first, then the second |
| GithubSync.Step | lib/overlay/github.rb:20-30 | one pass of the loop: skip another class, raise for a missing user before a missing repo, register the hook, then walk the branch (`master` by default) |
| GithubSync.ProcessOutcome | lib/overlay/github.rb:10-32 | the run passes iff it is outside a server, or auth is set and no entry raises; without auth in a server it raises "basic_auth not set" before touching anything |
| GithubSync.ProcessTwice | lib/overlay/github.rb:10-83 | a second run over an unchanged remote raises what the first did, creates no hook and leaves the local tree as the first left it |
| RemoteTree.WellFormed | lib/overlay/github.rb:55-78 | the shape of a branch that GitHub returns: the root holds top-level paths, entries lie inside their directory, and listed directories and files can be fetched |
| RemoteTree.DirEffect | lib/overlay/github.rb:67-78 | `overlay_directory`: visit the directory, then walk each `dir` entry and clone each `file` entry, in order |
| RemoteTree.RepoEffect | lib/overlay/github.rb:53-64 | `overlay_repo`: list `/` and walk its `dir` entries only, in order |
| RemoteTree.ItemsStep | lib/overlay/github.rb:71-77 | one more entry of a directory's loop adds that entry's effect: walk a `dir`, clone a `file`, skip the rest |
| RemoteTree.DirFacts | lib/overlay/github.rb:67-78 | the walk of `p` visits `p` and directories inside it only, descends into every `dir` entry it meets and clones exactly the `file` entries of visited directories |
| RemoteTree.RootFacts | lib/overlay/github.rb:60-64 | the walk from the root visits the root `dir` entries and directories inside them, and nothing else |
| RemoteTree.RepoFacts | lib/overlay/github.rb:53-65 | only root-level directories and what lies inside them are mirrored; every cloned path lies inside some directory |
| RemoteTree.RootFilesNotWritten | lib/overlay/github.rb:58-64 | a root entry that is not a directory is never cloned |
| RemoteTree.RepoMirrored | lib/overlay/github.rb:53-83 | after the walk, every cloned file is at `root/path` holding the decoded remote content; every visited directory exists at `root/path`; existing directories stay; a local file changes only at the image of a cloned file; the path of a root-level file keeps what it held |
| RemoteTree.ToDeltaFile | lib/overlay/github.rb:82 | cloning one file writes its decoded content at `root/path` and creates no directory |
| RemoteTree.ToDeltaDir | lib/overlay/github.rb:68 | visiting a directory creates `root/path` and its parents, and writes no file |
| RemoteTree.MirrorAt | lib/overlay/github.rb:82 | a cloned file lands at `root/path` with its decoded content; a file that was not cloned leaves that path alone |
| RemoteTree.CreatedAt | lib/overlay/github.rb:68 | every visited directory exists locally at `root/path` |
| Filesystem.Local | lib/overlay/github.rb:68 | the local path is the root, then `/`, then the remote path, so distinct remote paths have distinct local paths |
| Filesystem.Prefixes | lib/overlay/github.rb:68 | `mkdir_p` creates the path itself and only non-empty prefixes of it |
| Filesystem.LocalFs.MkdirP | lib/overlay/github.rb:68 | the directory and its parents exist afterwards; files are untouched |
| Filesystem.LocalFs.Write | lib/overlay/github.rb:82 | the file holds exactly the written bytes afterwards; nothing else changes |
| Filesystem.ApplyIdempotent | lib/overlay/github.rb:67-83 | creating existing directories and rewriting files with the same content change nothing |
| WebhookController.Dispatch | app/controllers/overlay/github_controller.rb:6-14 | the `GithubRepo` entries of the set that the push matches, in set order |
| WebhookController.Update | app/controllers/overlay/github_controller.rb:3-16 | the response is always the empty 200 render, and the configurations dispatched are exactly `Dispatch` of the repository set, in order |
| WebhookController.DispatchedIff | app/controllers/overlay/github_controller.rb:6-14 | a configuration is dispatched iff it is a `GithubRepo` of the set whose repo name and `refs/heads/<branch>` match the payload |
| WebhookController.IncompletePayload | app/controllers/overlay/github_controller.rb:10 | without `repository` or `ref` in the payload nothing is dispatched |
| WebhookController.DispatchAppend | app/controllers/overlay/github_controller.rb:6-14 | the set is walked in order: dispatching over two runs of entries is the first run's calls, then the second's |
| WebhookController.DispatchOne | app/controllers/overlay/github_controller.rb:7-13 | one entry is dispatched once if it is a matching `GithubRepo`, and never otherwise |
| WebhookController.SharedBranch | app/controllers/overlay/github_controller.rb:6-14 | two configurations for the same repo and branch each get their own call |
| WebhookController.NoMatch | app/controllers/overlay/github_controller.rb:4-14 | when nothing matches, nothing is dispatched |
| WebhookController.Matches | app/controllers/overlay/github_controller.rb:10-11 | the payload has a repository and a ref, the repository name equals the config's repo and the ref is that of its branch |
| WebhookController.BranchRef | app/controllers/overlay/github_controller.rb:11 | the ref of a branch is `refs/heads/` followed by the branch name |
| WebhookController.MasterPushMatches | spec/controllers/overlay/github_controller_spec.rb:23-24 | a push to `master` of `test` matches exactly the `test`/`master` configurations |
| WebhookController.PushToMaster | spec/controllers/overlay/github_controller_spec.rb:23-24 | that push reaches the `test`/`master` configuration exactly once |

## Left out

- The GitHub API client (the `github_api` gem): `::Github.reset!` and
  `::Github.configure`, `hooks.list`/`hooks.create`, `contents.get`, and the SSL
  and adapter settings. These are a foreign library and network calls. The remote is a `Remote` object holding hook lists per
  repository and a `Tree` snapshot per branch. An unknown repository or branch
  is the API's Not Found error; any other network failure is not modelled.
- `GithubSync.Configure`: the global client configuration it writes is returned as
  a `ClientConfig` value. The client it configures is not otherwise used by the model.
- `OverlayConfig.GithubRepo.InitializeApi`: the `::Github::Repos` client is an
  `ApiHandle` value recording the settings it was built with and a creation
  count, not a live client.
- `Base64.decode64` is the `decode` parameter of the walk: an uninterpreted
  function from remote content to bytes.
- Rails plumbing is left out: `Rails::Server` detection is `Host.serverRunning`;
  `Rails.application.root` is `Host.appRoot`; `Socket.gethostname` and the server
  port are `Host` inputs; `reload_routes!` has no effect in the model.
- `GithubSync.HookUri`: the URL `url_for` builds is represented by its host and
  port alone. Two URIs are equal exactly when host and port are.
- Webhook registration and the tree walk are separate calls on separate objects
  (`Remote` and `LocalFs`). Interleavings with other processes are not
  modelled.
- The `@@github` and `@@overlay_config` class-variable caches, and the global
  `Overlay.configure` / `Overlay.configuration` singleton, are left out. The model passes
  the configuration and settings explicitly.
- `Overlay::Github.instance.process_hook`, which the controller calls, is not
  part of this model. A call is recorded as the configuration appended to the
  `dispatched` sequence.
- `lib/overlay/engine.rb` is left out. It only prepends view paths in a Rails
  filter.
- Publisher and redis subscription are left out. Only the three fields that
  `validate` checks are modelled.
- `OverlayConfig.Defaults`: Ruby truthiness of `use_publisher` is reduced to a
  boolean. A non-boolean truthy option is not modelled.
- `GithubSync.ProcessOverlays`: a user or repo given as `false` (which Ruby also
  rejects) is not modelled; a missing value is `None`.
- `RemoteTree.WellFormed`: the walk assumes the shape that GitHub's contents API
  returns. The root listing names only top-level paths. Every entry of a
  directory lies strictly inside it. Every `dir` entry can be listed, and every
  `file` entry has content. `overlay_directory` checks none of this. Given a
  directory whose listing names the directory itself as a `dir`, it would recurse
  without a base case. This ends in `SystemStackError`, or sooner in an API error
  such as the rate limit. Given a root `file` entry that is also listed under a subdirectory,
  it would clone that file, which `RootFilesNotWritten` and `RepoMirrored` rule
  out. Such listings are not modelled.
- `GithubSync.Configure`: the model calls the API gem's `::Github.configure`. The
  code as written calls `Overlay::Github.configure` again once auth is set. That
  recursion ends by raising `SystemStackError`. Likewise `github_repo`'s `Github::Repos.new` raises `NameError` as
  written; the model uses the gem's client. Neither written behaviour is modelled.
- `OverlayConfig.Entry`: an object of another class is identified by its class
  name only. Two distinct such objects of one class therefore count as one
  element of the repository set, where Ruby's `Set` keeps both unless they are
  `eql?`. Both loops skip such entries, so nothing else depends on this.
- The file system is a set of directory paths and a map from file path to bytes.
  Permissions, I/O errors, and clashes between a file and a directory of the
  same name are not modelled.
