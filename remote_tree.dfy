/** The remote side of the overlay: a snapshot of one branch of a GitHub
    repository as the contents API answers it, and what walking it changes
    locally (`overlay_repo`, `overlay_directory`, `clone_file`). */
module RemoteTree {
  import opened Filesystem

  type Path = string

  /** The path `overlay_repo` lists first. */
  const RootPath: Path := "/"
  /** The two entry types the walk acts on; every other type is skipped. */
  const DirType: string := "dir"
  const FileType: string := "file"

  /** One entry of a directory listing: its repository path and its type. */
  datatype Item = Item(path: Path, kind: string)

  /** A branch snapshot: the listing of every directory, and the base64 `content`
      the API returns for every file. */
  datatype Tree = Tree(listings: map<Path, seq<Item>>, blobs: map<Path, string>)

  /** A path at the top of the repository (as the root listing names them). */
  predicate TopLevel(q: Path) {
    q != "" && '/' !in q
  }

  /** `q` names something inside directory `p`. */
  predicate Under(p: Path, q: Path) {
    |q| > |p| + 1 && q[..|p| + 1] == p + "/"
  }

  /** `p` is a directory other than the root that the API can list. */
  predicate Listed(t: Tree, p: Path) {
    p in t.listings && p != RootPath
  }

  /** The shape every GitHub snapshot has: the root can be listed and names
      top-level paths, the entries of a directory lie inside it, and every
      listed directory and file can be fetched. */
  ghost predicate WellFormed(t: Tree) {
    && RootPath in t.listings
    && (forall i :: 0 <= i < |t.listings[RootPath]| ==> TopLevel(t.listings[RootPath][i].path))
    && (forall p, i :: p in t.listings && p != RootPath && 0 <= i < |t.listings[p]| ==>
          Under(p, t.listings[p][i].path))
    && (forall p, i :: p in t.listings && 0 <= i < |t.listings[p]| && t.listings[p][i].kind == DirType ==>
          Listed(t, t.listings[p][i].path))
    && (forall p, i :: p in t.listings && 0 <= i < |t.listings[p]| && t.listings[p][i].kind == FileType ==>
          t.listings[p][i].path in t.blobs)
  }

  lemma UnderTrans(p: Path, q: Path, r: Path)
    requires Under(p, q) && Under(q, r)
    ensures Under(p, r)
  {
    assert r[..|p| + 1] == r[..|q| + 1][..|p| + 1];
    assert (q + "/")[..|p| + 1] == q[..|p| + 1];
  }

  /** A path inside a directory contains a `/`, so it is not top-level. */
  lemma UnderHasSlash(p: Path, q: Path)
    requires Under(p, q)
    ensures '/' in q
  {
    assert q[..|p| + 1][|p|] == '/';
    assert q[|p|] == '/';
  }

  /** The listed directories deeper than `p`: the walk below `p` can only reach these. */
  ghost function Above(t: Tree, p: Path): set<Path> {
    set k | k in t.listings && |k| > |p|
  }

  lemma AboveShrinks(t: Tree, p: Path, c: Path)
    requires c in t.listings && |c| > |p|
    ensures Above(t, c) < Above(t, p)
  {
    assert c in Above(t, p);
    assert c !in Above(t, c);
  }

  /** What a walk does, in remote terms: the directories it visits (and so
      creates locally) and the files it clones. */
  datatype Effect = Effect(visited: set<Path>, written: set<Path>) {
    function Then(next: Effect): Effect {
      Effect(visited + next.visited, written + next.written)
    }
  }

  const Nothing: Effect := Effect({}, {})

  /** `overlay_directory(p)`: create `p`, then act on its entries in order. */
  ghost function DirEffect(t: Tree, p: Path): Effect
    requires WellFormed(t) && Listed(t, p)
    decreases Above(t, p), 1
  {
    Effect({p}, {}).Then(ItemsEffect(t, p, t.listings[p]))
  }

  /** The loop of `overlay_directory(p)` over the first `|items|` entries of `p`:
      descend into a `dir`, clone a `file`, skip anything else. */
  ghost function ItemsEffect(t: Tree, p: Path, items: seq<Item>): Effect
    requires WellFormed(t) && Listed(t, p) && items <= t.listings[p]
    decreases Above(t, p), 0, |items|
  {
    if items == [] then Nothing
    else
      var n := |items| - 1;
      var before := ItemsEffect(t, p, items[..n]);
      var last := items[n];
      assert last == t.listings[p][n];
      if last.kind == DirType then
        AboveShrinks(t, p, last.path);
        before.Then(DirEffect(t, last.path))
      else if last.kind == FileType then
        before.Then(Effect({}, {last.path}))
      else
        before
  }

  /** The loop of `overlay_repo` over the first `|items|` root entries: descend into
      a `dir`; root-level files and every other type are skipped. */
  ghost function RootEffect(t: Tree, items: seq<Item>): Effect
    requires WellFormed(t) && items <= t.listings[RootPath]
    decreases |items|
  {
    if items == [] then Nothing
    else
      var n := |items| - 1;
      var before := RootEffect(t, items[..n]);
      assert items[n] == t.listings[RootPath][n];
      if items[n].kind == DirType then before.Then(DirEffect(t, items[n].path)) else before
  }

  /** `overlay_repo`: the walk from the root listing. */
  ghost function RepoEffect(t: Tree): Effect
    requires WellFormed(t)
  {
    RootEffect(t, t.listings[RootPath])
  }

  /** What `overlay_directory`'s loop does for one entry. */
  ghost function EntryEffect(t: Tree, item: Item): Effect
    requires WellFormed(t) && (item.kind == DirType ==> Listed(t, item.path))
  {
    if item.kind == DirType then DirEffect(t, item.path)
    else if item.kind == FileType then Effect({}, {item.path})
    else Nothing
  }

  /** What `overlay_repo`'s loop does for one root entry. */
  ghost function RootEntryEffect(t: Tree, item: Item): Effect
    requires WellFormed(t) && (item.kind == DirType ==> Listed(t, item.path))
  {
    if item.kind == DirType then DirEffect(t, item.path) else Nothing
  }

  lemma ItemsStep(t: Tree, p: Path, i: nat)
    requires WellFormed(t) && Listed(t, p) && i < |t.listings[p]|
    ensures t.listings[p][i].kind == DirType ==> Listed(t, t.listings[p][i].path)
    ensures t.listings[p][i].kind == FileType ==> t.listings[p][i].path in t.blobs
    ensures Effect({p}, {}).Then(ItemsEffect(t, p, t.listings[p][..i + 1]))
         == Effect({p}, {}).Then(ItemsEffect(t, p, t.listings[p][..i])).Then(EntryEffect(t, t.listings[p][i]))
  {
    var items := t.listings[p][..i + 1];
    assert items[..i] == t.listings[p][..i];
    assert items[i] == t.listings[p][i];
  }

  lemma RootStep(t: Tree, i: nat)
    requires WellFormed(t) && i < |t.listings[RootPath]|
    ensures t.listings[RootPath][i].kind == DirType ==> Listed(t, t.listings[RootPath][i].path)
    ensures RootEffect(t, t.listings[RootPath][..i + 1])
         == RootEffect(t, t.listings[RootPath][..i]).Then(RootEntryEffect(t, t.listings[RootPath][i]))
  {
    var items := t.listings[RootPath][..i + 1];
    assert items[..i] == t.listings[RootPath][..i];
    assert items[i] == t.listings[RootPath][i];
    if items[i].kind != DirType {
      assert RootEffect(t, items[..i]).Then(Nothing) == RootEffect(t, items[..i]);
    }
  }

  /** Every `dir` entry of a visited directory is visited too. */
  ghost predicate Closed(t: Tree, e: Effect) {
    forall d, i :: d in e.visited && d in t.listings && 0 <= i < |t.listings[d]| && t.listings[d][i].kind == DirType ==>
      t.listings[d][i].path in e.visited
  }

  /** Every `file` entry of a visited directory is cloned. */
  ghost predicate Complete(t: Tree, e: Effect) {
    forall d, i :: d in e.visited && d in t.listings && 0 <= i < |t.listings[d]| && t.listings[d][i].kind == FileType ==>
      t.listings[d][i].path in e.written
  }

  /** `q` is a `file` entry of directory `d`. */
  ghost predicate FileChild(t: Tree, d: Path, q: Path) {
    d in t.listings && exists i :: 0 <= i < |t.listings[d]| && t.listings[d][i] == Item(q, FileType)
  }

  /** Only `file` entries of visited directories are cloned. */
  ghost predicate Sound(t: Tree, e: Effect) {
    forall q :: q in e.written ==> exists d :: d in e.visited && FileChild(t, d, q)
  }

  /** The walk below `p` visits `p` and directories inside it only, descends into
      every `dir` entry it meets and clones exactly the `file` entries it meets. */
  lemma {:induction false} DirFacts(t: Tree, p: Path)
    requires WellFormed(t) && Listed(t, p)
    ensures var e := DirEffect(t, p);
      && p in e.visited
      && (forall d :: d in e.visited ==> Listed(t, d) && (d == p || Under(p, d)))
      && Closed(t, e) && Complete(t, e) && Sound(t, e)
    decreases Above(t, p), 1
  {
    ItemsFacts(t, p, t.listings[p]);
  }

  lemma {:induction false} ItemsFacts(t: Tree, p: Path, items: seq<Item>)
    requires WellFormed(t) && Listed(t, p) && items <= t.listings[p]
    ensures var e := ItemsEffect(t, p, items);
      && (forall d :: d in e.visited ==> Listed(t, d) && Under(p, d))
      && (forall i :: 0 <= i < |items| && items[i].kind == DirType ==> items[i].path in e.visited)
      && (forall i :: 0 <= i < |items| && items[i].kind == FileType ==> items[i].path in e.written)
      && Closed(t, e) && Complete(t, e)
      && (forall q :: q in e.written ==> FileChild(t, p, q) || exists d :: d in e.visited && FileChild(t, d, q))
    decreases Above(t, p), 0, |items|
  {
    if items != [] {
      var n := |items| - 1;
      var last := items[n];
      assert items[..n] <= t.listings[p];
      assert last == t.listings[p][n];
      ItemsFacts(t, p, items[..n]);
      assert forall i :: 0 <= i < n ==> items[..n][i] == items[i];
      if last.kind == DirType {
        AboveShrinks(t, p, last.path);
        DirFacts(t, last.path);
        forall d | d in DirEffect(t, last.path).visited
          ensures Under(p, d)
        {
          if d != last.path { UnderTrans(p, last.path, d); }
        }
      } else if last.kind == FileType {
        assert t.listings[p][n] == Item(last.path, FileType);
        assert FileChild(t, p, last.path);
      }
    }
  }

  /** The same for the walk from the root: it visits root `dir` entries and what
      lies inside them, and nothing else. */
  lemma {:induction false} RootFacts(t: Tree, items: seq<Item>)
    requires WellFormed(t) && items <= t.listings[RootPath]
    ensures var e := RootEffect(t, items);
      && (forall d :: d in e.visited ==>
            Listed(t, d) &&
            exists i :: 0 <= i < |items| && items[i].kind == DirType && (d == items[i].path || Under(items[i].path, d)))
      && (forall i :: 0 <= i < |items| && items[i].kind == DirType ==> items[i].path in e.visited)
      && Closed(t, e) && Complete(t, e) && Sound(t, e)
    decreases |items|
  {
    if items != [] {
      var n := |items| - 1;
      assert items[..n] <= t.listings[RootPath];
      assert items[n] == t.listings[RootPath][n];
      RootFacts(t, items[..n]);
      assert forall i :: 0 <= i < n ==> items[..n][i] == items[i];
      if items[n].kind == DirType {
        DirFacts(t, items[n].path);
      }
    }
  }

  /** The local directories made for a set of visited remote directories. */
  ghost function Created(root: string, visited: set<Path>): set<string> {
    set d, x | d in visited && x in Prefixes(Local(root, d)) :: x
  }

  /** The local files written for a set of cloned remote files: each at `root/path`,
      holding the decoded remote content. */
  ghost function Mirror(t: Tree, root: string, decode: string -> Bytes, written: set<Path>): map<string, Bytes> {
    map q | q in written && q in t.blobs :: Local(root, q) := decode(t.blobs[q])
  }

  /** An effect as the local changes it makes. */
  ghost function ToDelta(t: Tree, root: string, decode: string -> Bytes, e: Effect): Delta {
    Delta(Created(root, e.visited), Mirror(t, root, decode, e.written))
  }

  lemma CreatedUnion(root: string, a: set<Path>, b: set<Path>)
    ensures Created(root, a + b) == Created(root, a) + Created(root, b)
  {
  }

  lemma MirrorUnion(t: Tree, root: string, decode: string -> Bytes, a: set<Path>, b: set<Path>)
    ensures Mirror(t, root, decode, a + b) == Mirror(t, root, decode, a) + Mirror(t, root, decode, b)
  {
    var m, ma, mb := Mirror(t, root, decode, a + b), Mirror(t, root, decode, a), Mirror(t, root, decode, b);
    forall k | k in m
      ensures k in ma + mb && m[k] == (ma + mb)[k]
    {
      var q :| q in a + b && q in t.blobs && k == Local(root, q);
      if q in b { assert k in mb; } else { assert k in ma; }
    }
    forall k | k in ma + mb
      ensures k in m
    {
      if k in mb {
        var q :| q in b && q in t.blobs && k == Local(root, q);
      } else {
        var q :| q in a && q in t.blobs && k == Local(root, q);
      }
    }
    assert m == ma + mb;
  }

  /** The local changes of two walks in sequence are those of the first, then the second. */
  lemma ToDeltaThen(t: Tree, root: string, decode: string -> Bytes, a: Effect, b: Effect)
    ensures ToDelta(t, root, decode, a.Then(b)) == ToDelta(t, root, decode, a).Then(ToDelta(t, root, decode, b))
  {
    CreatedUnion(root, a.visited, b.visited);
    MirrorUnion(t, root, decode, a.written, b.written);
  }

  /** Visiting one directory makes it (and its parents) locally and writes nothing. */
  lemma ToDeltaDir(t: Tree, root: string, decode: string -> Bytes, p: Path)
    ensures ToDelta(t, root, decode, Effect({p}, {})) == Delta(Prefixes(Local(root, p)), map[])
  {
    assert Mirror(t, root, decode, {}) == map[];
  }

  /** Cloning one file writes its decoded content at `root/path` and creates nothing. */
  lemma ToDeltaFile(t: Tree, root: string, decode: string -> Bytes, q: Path)
    requires q in t.blobs
    ensures ToDelta(t, root, decode, Effect({}, {q})) == Delta({}, map[Local(root, q) := decode(t.blobs[q])])
  {
    assert Created(root, {}) == {};
    var m := Mirror(t, root, decode, {q});
    assert Local(root, q) in m;
    assert m == map[Local(root, q) := decode(t.blobs[q])];
  }

  lemma ToDeltaNothing(t: Tree, root: string, decode: string -> Bytes)
    ensures ToDelta(t, root, decode, Nothing) == NoChange
  {
    assert Created(root, {}) == {};
    assert Mirror(t, root, decode, {}) == map[];
  }

  /** A cloned remote file lands at `root/path` with its decoded remote content, and
      a remote file that was not cloned leaves its local path alone. */
  lemma MirrorAt(t: Tree, root: string, decode: string -> Bytes, written: set<Path>, q: Path)
    requires q in t.blobs
    ensures q in written ==> Local(root, q) in Mirror(t, root, decode, written)
                             && Mirror(t, root, decode, written)[Local(root, q)] == decode(t.blobs[q])
    ensures q !in written ==> Local(root, q) !in Mirror(t, root, decode, written)
  {
  }

  /** Every visited remote directory exists locally at `root/path`. */
  lemma CreatedAt(root: string, visited: set<Path>, d: Path)
    requires d in visited
    ensures Local(root, d) in Created(root, visited)
  {
    assert Local(root, d) in Prefixes(Local(root, d));
  }

  /** What the whole walk from the root does: it visits exactly the root `dir`
      entries and the directories inside them, descends into every `dir` entry of a
      visited directory, and clones exactly the `file` entries of visited
      directories; every cloned path lies inside some directory. */
  lemma {:induction false} RepoFacts(t: Tree)
    requires WellFormed(t)
    ensures var e := RepoEffect(t);
      var root := t.listings[RootPath];
      && (forall i :: 0 <= i < |root| && root[i].kind == DirType ==> root[i].path in e.visited)
      && (forall d :: d in e.visited ==>
            Listed(t, d) &&
            exists i :: 0 <= i < |root| && root[i].kind == DirType && (d == root[i].path || Under(root[i].path, d)))
      && Closed(t, e) && Complete(t, e) && Sound(t, e)
      && (forall q :: q in e.written ==> '/' in q)
  {
    var e := RepoEffect(t);
    RootFacts(t, t.listings[RootPath]);
    forall q | q in e.written ensures '/' in q {
      var d :| d in e.visited && FileChild(t, d, q);
      var j :| 0 <= j < |t.listings[d]| && t.listings[d][j] == Item(q, FileType);
      UnderHasSlash(d, q);
    }
  }

  /** `overlay_repo` never clones a root-level entry that is not a directory. */
  lemma RootFilesNotWritten(t: Tree, i: int)
    requires WellFormed(t) && 0 <= i < |t.listings[RootPath]| && t.listings[RootPath][i].kind != DirType
    ensures t.listings[RootPath][i].path !in RepoEffect(t).written
  {
    RepoFacts(t);
  }

  /** The local tree after the walk from the root: every cloned file is at
      `root/path` with its decoded content, every visited directory exists at
      `root/path`, existing directories stay, a local file changes only where it is
      the image of a cloned file, and the path of a root entry that is not a
      directory keeps what it held. */
  lemma RepoMirrored(s0: FsState, t: Tree, root: string, decode: string -> Bytes)
    requires WellFormed(t)
    ensures var e := RepoEffect(t);
      var s1 := s0.Apply(ToDelta(t, root, decode, e));
      && (forall q :: q in e.written ==>
            q in t.blobs && Local(root, q) in s1.files && s1.files[Local(root, q)] == decode(t.blobs[q]))
      && (forall d :: d in e.visited ==> Local(root, d) in s1.dirs)
      && s0.dirs <= s1.dirs
      && (forall k :: k in s1.files && (k !in s0.files || s1.files[k] != s0.files[k]) ==>
            exists q :: q in e.written && k == Local(root, q))
      && (forall i :: 0 <= i < |t.listings[RootPath]| && t.listings[RootPath][i].kind != DirType ==>
            var k := Local(root, t.listings[RootPath][i].path);
            (k in s1.files <==> k in s0.files) && (k in s0.files ==> s1.files[k] == s0.files[k]))
  {
    var e := RepoEffect(t);
    var m := Mirror(t, root, decode, e.written);
    RepoFacts(t);
    forall q | q in e.written
      ensures q in t.blobs && Local(root, q) in m && m[Local(root, q)] == decode(t.blobs[q])
    {
      var d :| d in e.visited && FileChild(t, d, q);
      var j :| 0 <= j < |t.listings[d]| && t.listings[d][j] == Item(q, FileType);
      MirrorAt(t, root, decode, e.written, q);
    }
    forall d | d in e.visited
      ensures Local(root, d) in Created(root, e.visited)
    {
      CreatedAt(root, e.visited, d);
    }
    forall i | 0 <= i < |t.listings[RootPath]| && t.listings[RootPath][i].kind != DirType
      ensures Local(root, t.listings[RootPath][i].path) !in m
    {
      RootFilesNotWritten(t, i);
      LocalInjectiveAll(root);
    }
  }
}
