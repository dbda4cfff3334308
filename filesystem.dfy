/** The local file system that the overlay writes into: a set of directories
    and a map from file path to file content. */
module Filesystem {

  type Bytes = seq<bv8>

  /** The local path `"#{root}/#{path}"` for a path of the remote repository. */
  function Local(root: string, path: string): (r: string)
    ensures |r| == |root| + 1 + |path|
    ensures r[..|root|] == root && r[|root|] == '/' && r[|root| + 1..] == path
  {
    root + "/" + path
  }

  /** Distinct remote paths land on distinct local paths. */
  lemma LocalInjective(root: string, a: string, b: string)
    ensures Local(root, a) == Local(root, b) ==> a == b
  {
    if Local(root, a) == Local(root, b) {
      var n := |root| + 1;
      assert Local(root, a)[n..] == a;
      assert Local(root, b)[n..] == b;
    }
  }

  lemma LocalInjectiveAll(root: string)
    ensures forall a, b :: Local(root, a) == Local(root, b) ==> a == b
  {
    forall a, b ensures Local(root, a) == Local(root, b) ==> a == b {
      LocalInjective(root, a, b);
    }
  }

  /** The directories that `mkdir_p x` makes sure exist: `x` itself and every
      prefix of `x` that ends just before a `/`. */
  function Prefixes(x: string): (r: set<string>)
    ensures x != "" ==> x in r
    ensures forall y :: y in r ==> y != "" && y <= x
  {
    assert x[..|x|] == x;
    set i | 0 < i <= |x| && (i == |x| || x[i] == '/') :: x[..i]
  }

  /** A batch of changes: directories to create and files to (over)write. */
  datatype Delta = Delta(dirs: set<string>, files: map<string, Bytes>) {
    /** This batch followed by `next`; a file written by both ends up with `next`'s content. */
    function Then(next: Delta): Delta {
      Delta(dirs + next.dirs, files + next.files)
    }
  }

  const NoChange: Delta := Delta({}, map[])

  /** A snapshot of the local file system. */
  datatype FsState = FsState(dirs: set<string>, files: map<string, Bytes>) {
    /** The file system after `d`: its directories exist, its files hold its content,
        everything else is as before. */
    function Apply(d: Delta): FsState {
      FsState(dirs + d.dirs, files + d.files)
    }
  }

  /** Applying two batches one after the other is applying their sequence. */
  lemma ApplyThen(s: FsState, d1: Delta, d2: Delta)
    ensures s.Apply(d1).Apply(d2) == s.Apply(d1.Then(d2))
  {
    assert s.files + d1.files + d2.files == s.files + (d1.files + d2.files);
  }

  /** Creating a directory that exists and rewriting a file with the same content
      change nothing: a batch applied twice leaves the state it leaves once. */
  lemma ApplyIdempotent(s: FsState, d: Delta)
    ensures s.Apply(d).Apply(d) == s.Apply(d)
  {
    assert s.files + d.files + d.files == s.files + d.files;
  }

  /** The local file system, changed in place by `FileUtils.mkdir_p` and `File.open(.., "wb")`. */
  class LocalFs {
    var dirs: set<string>
    var files: map<string, Bytes>

    function State(): FsState
      reads this
    {
      FsState(dirs, files)
    }

    constructor (s: FsState)
      ensures State() == s
    {
      dirs := s.dirs;
      files := s.files;
    }

    /** `FileUtils.mkdir_p`: the directory and its parents exist afterwards;
        directories that already exist are left alone. */
    method MkdirP(path: string)
      modifies this
      ensures State() == old(State()).Apply(Delta(Prefixes(path), map[]))
      ensures path != "" ==> path in dirs
    {
      dirs := dirs + Prefixes(path);
      assert files + map[] == files;
    }

    /** Write `content` to `path` in binary mode, replacing any earlier content. */
    method Write(path: string, content: Bytes)
      modifies this
      ensures State() == old(State()).Apply(Delta({}, map[path := content]))
      ensures path in files && files[path] == content
    {
      files := files[path := content];
      assert dirs + {} == dirs;
    }
  }
}
