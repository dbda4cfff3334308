/** `Overlay::GithubController#update`: the endpoint GitHub calls on a push. */
module WebhookController {
  import opened Wrappers
  import opened OverlayConfig

  /** The part of the push payload `update` reads: `params[:repository][:name]`
      and `params[:ref]`, each possibly absent. */
  datatype RepositoryPayload = RepositoryPayload(name: Option<string>)
  datatype Params = Params(repository: Option<RepositoryPayload>, ref: Option<string>)

  /** What `render nothing: true` sends back. */
  datatype Response = Response(status: int, body: string)

  const Rendered: Response := Response(200, "")

  /** The ref a push to `branch` carries. */
  function BranchRef(branch: string): (r: string)
    ensures |r| == 11 + |branch| && r[..11] == "refs/heads/" && r[11..] == branch
  {
    "refs/heads/" + branch
  }

  /** Different branches carry different refs. */
  lemma BranchRefInjective(a: string, b: string)
    ensures BranchRef(a) == BranchRef(b) ==> a == b
  {
    if BranchRef(a) == BranchRef(b) {
      assert a == BranchRef(a)[11..];
    }
  }

  /** The push described by `p` concerns `c`: the payload names a repository and a
      ref, the repository's name is `c`'s repo and the ref is that of `c`'s branch. */
  predicate Matches(c: GithubRepo, p: Params)
    reads c
  {
    p.repository.Some? && p.ref.Some? &&
    p.repository.value.name == c.repo && p.ref.value == BranchRef(c.branch)
  }

  /** The configurations among `repos`. */
  function Configs(repos: seq<Entry>): set<GithubRepo> {
    set e | e in repos && e.GithubEntry? :: e.config
  }

  /** The configurations `update` hands to `process_hook`, in order. */
  function Dispatch(repos: seq<Entry>, p: Params): seq<GithubRepo>
    reads Configs(repos)
    decreases |repos|
  {
    if repos == [] then []
    else
      var n := |repos| - 1;
      assert Configs(repos[..n]) <= Configs(repos);
      var before := Dispatch(repos[..n], p);
      match repos[n]
      case GithubEntry(c) => if Matches(c, p) then before + [c] else before
      case OtherEntry(_) => before
  }

  /** `update`: render an empty response, then call `process_hook` for every
      `GithubRepo` the push matches, in the order of the repository set. */
  method Update(config: Configuration, p: Params) returns (response: Response, dispatched: seq<GithubRepo>)
    ensures response == Rendered
    ensures dispatched == Dispatch(config.repositories, p)
  {
    response := Rendered;
    var repos := config.repositories;
    dispatched := [];
    var i := 0;
    while i < |repos|
      invariant 0 <= i <= |repos|
      invariant dispatched == Dispatch(repos[..i], p)
    {
      assert repos[..i + 1][..i] == repos[..i];
      match repos[i] {
        case GithubEntry(c) =>
          if p.repository.Some? && p.ref.Some? {
            if p.repository.value.name == c.repo && p.ref.value == "refs/heads/" + c.branch {
              dispatched := dispatched + [c];
            }
          }
        case OtherEntry(_) =>
      }
      i := i + 1;
    }
    assert repos[..|repos|] == repos;
  }

  /** A configuration is dispatched exactly when it is a `GithubRepo` of the set that
      the push matches. */
  lemma {:induction false} DispatchedIff(repos: seq<Entry>, p: Params, c: GithubRepo)
    ensures c in Dispatch(repos, p) <==> GithubEntry(c) in repos && Matches(c, p)
    decreases |repos|
  {
    if repos != [] {
      var n := |repos| - 1;
      DispatchedIff(repos[..n], p, c);
      assert repos == repos[..n] + [repos[n]];
    }
  }

  /** Without a repository or a ref in the payload nothing is dispatched. */
  lemma {:induction false} IncompletePayload(repos: seq<Entry>, p: Params)
    requires p.repository.None? || p.ref.None?
    ensures Dispatch(repos, p) == []
    decreases |repos|
  {
    if repos != [] {
      IncompletePayload(repos[..|repos| - 1], p);
    }
  }

  /** Dispatching over two runs of entries is dispatching over the first, then over
      the second: the set is walked in order and each match gets its own call. */
  lemma {:induction false} DispatchAppend(a: seq<Entry>, b: seq<Entry>, p: Params)
    ensures Dispatch(a + b, p) == Dispatch(a, p) + Dispatch(b, p)
    decreases |b|
  {
    if b == [] {
      assert a + b == a;
    } else {
      var n := |b| - 1;
      assert (a + b)[..|a + b| - 1] == a + b[..n];
      DispatchAppend(a, b[..n], p);
    }
  }

  /** One entry is dispatched once if it is a matching `GithubRepo`, and not at all
      otherwise. */
  lemma DispatchOne(e: Entry, p: Params)
    ensures Dispatch([e], p) == if e.GithubEntry? && Matches(e.config, p) then [e.config] else []
  {
    assert [e][..0] == [];
  }

  /** Two configurations for the same repository and branch each get their own call. */
  lemma SharedBranch(c1: GithubRepo, c2: GithubRepo, p: Params)
    requires c1.repo == c2.repo && c1.branch == c2.branch && Matches(c1, p)
    ensures Dispatch([GithubEntry(c1), GithubEntry(c2)], p) == [c1, c2]
  {
    DispatchAppend([GithubEntry(c1)], [GithubEntry(c2)], p);
    DispatchOne(GithubEntry(c1), p);
    DispatchOne(GithubEntry(c2), p);
    assert [GithubEntry(c1)] + [GithubEntry(c2)] == [GithubEntry(c1), GithubEntry(c2)];
  }

  /** When no `GithubRepo` of the set matches, nothing is dispatched, but the
      response is rendered all the same. */
  lemma {:induction false} NoMatch(repos: seq<Entry>, p: Params)
    requires forall i :: 0 <= i < |repos| && repos[i].GithubEntry? ==> !Matches(repos[i].config, p)
    ensures Dispatch(repos, p) == []
    decreases |repos|
  {
    if repos != [] {
      NoMatch(repos[..|repos| - 1], p);
    }
  }

  /** The payload of a push to `master` of repository `test`. */
  const MasterPush: Params := Params(Some(RepositoryPayload(Some("test"))), Some("refs/heads/master"))

  /** Only a configuration for `test`/`master` matches that push. */
  lemma MasterPushMatches(c: GithubRepo)
    ensures Matches(c, MasterPush) <==> c.repo == Some("test") && c.branch == "master"
  {
    BranchRefInjective(c.branch, "master");
    assert BranchRef("master") == "refs/heads/master";
  }

  /** A push to `master` of `test` reaches the `test`/`master` configuration once,
      whatever other, non-matching entries follow it. */
  lemma PushToMaster(c: GithubRepo, others: seq<Entry>)
    requires c.repo == Some("test") && c.branch == "master"
    requires forall i :: 0 <= i < |others| && others[i].GithubEntry? ==>
               others[i].config.repo != Some("test") || others[i].config.branch != "master"
    ensures Dispatch([GithubEntry(c)] + others, MasterPush) == [c]
  {
    MasterPushMatches(c);
    DispatchOne(GithubEntry(c), MasterPush);
    forall i | 0 <= i < |others| && others[i].GithubEntry?
      ensures !Matches(others[i].config, MasterPush)
    {
      MasterPushMatches(others[i].config);
    }
    NoMatch(others, MasterPush);
    DispatchAppend([GithubEntry(c)], others, MasterPush);
  }
}
