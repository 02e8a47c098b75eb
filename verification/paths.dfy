/**
 * Where the harvester keeps things on disk: `ROOTDIR/data/<token>/<artifact>` for the
 * harvested tables and `ROOTDIR/repos/<token>` for the local mirrors, where the token of a
 * repository `owner/name` is `owner_name`.
 */
module Paths {
  import opened Text

  /** Python's `os.path.join(a, b)` on POSIX. */
  function PathJoin(a: string, b: string): string {
    if |b| > 0 && b[0] == '/' then b
    else if |a| == 0 || a[|a| - 1] == '/' then a + b
    else a + "/" + b
  }

  /**
   * `os.path.join(a, b)` ends with `b`; an absolute `b` replaces `a`, and a relative one is
   * put after `a` and at most one added slash, which is added exactly when `a` is non-empty and
   * does not already end with a slash.
   */
  lemma PathJoinSpec(a: string, b: string)
    ensures var r := PathJoin(a, b);
            && (|b| > 0 && b[0] == '/' ==> r == b)
            && (!(|b| > 0 && b[0] == '/') ==> |a| + |b| <= |r| <= |a| + |b| + 1 && r[..|a|] == a)
            && (!(|b| > 0 && b[0] == '/') ==>
                  (|r| == |a| + |b| + 1 <==> |a| > 0 && a[|a| - 1] != '/')
                  && (|r| == |a| + |b| + 1 ==> r[|a|] == '/'))
            && |b| <= |r| && r[|r| - |b|..] == b
  {
  }

  /** `repo.replace('/', '_')`: the folder name of a repository. */
  function FolderToken(repo: string): (token: string)
    ensures |token| == |repo|
    ensures '/' !in token
    ensures forall i :: 0 <= i < |repo| && repo[i] != '/' ==> token[i] == repo[i]
  {
    ReplaceChar(repo, '/', '_')
  }

  /** `os.path.join(ROOTDIR, "data")` */
  function DataDir(root: string): string {
    PathJoin(root, "data")
  }

  /** `os.path.join(ROOTDIR, "data", folder)`: the per-repository output folder. */
  function DataFolder(root: string, repo: string): string {
    PathJoin(DataDir(root), FolderToken(repo))
  }

  /** `os.path.join(folder_path, name)`: one harvested table of a repository. */
  function Artifact(root: string, repo: string, name: string): string {
    PathJoin(DataFolder(root, repo), name)
  }

  /** `os.path.join(ROOTDIR, "repos", folder)`: the local mirror of a repository. */
  function MirrorFolder(root: string, repo: string): string {
    PathJoin(PathJoin(root, "repos"), FolderToken(repo))
  }

  /**
   * The on-disk layout: `ROOTDIR/data` (or `ROOTDIR` + `data` when `ROOTDIR` ends with a
   * slash), one folder per repository inside it named by its token, the tables inside that
   * folder, and the mirror `ROOTDIR/repos/<token>`.
   */
  lemma Layout(root: string, repo: string, name: string)
    ensures DataDir(root) == root + "data" || DataDir(root) == root + "/data"
    ensures DataFolder(root, repo) == DataDir(root) + "/" + FolderToken(repo)
    ensures |repo| > 0 && |name| > 0 && name[0] != '/' ==> Artifact(root, repo, name) == DataFolder(root, repo) + "/" + name
    ensures MirrorFolder(root, repo) == PathJoin(root, "repos") + "/" + FolderToken(repo)
  {
  }

  /**
   * The shape of a GitHub repository identifier `owner/name`: exactly one slash, and an owner
   * without underscores (GitHub owner names consist of letters, digits and hyphens).
   */
  predicate IsRepoId(repo: string) {
    && '/' in repo
    && forall i, j :: 0 <= i < j < |repo| && repo[j] == '/' ==> repo[i] != '/' && repo[i] != '_'
  }

  /** The first underscore of a token sits where the owner/name slash was. */
  lemma {:induction false} TokenSlashPosition(repo: string, k: nat)
    requires IsRepoId(repo) && k < |repo| && repo[k] == '/'
    ensures FolderToken(repo)[k] == '_'
    ensures forall i :: 0 <= i < k ==> FolderToken(repo)[i] != '_'
    ensures forall i :: 0 <= i < |repo| && i != k ==> repo[i] != '/'
  {
    forall i | 0 <= i < |repo| && i != k ensures repo[i] != '/' {
      if i < k {
        assert repo[i] != '/';
      }
    }
  }

  /** Distinct repository identifiers never share a folder. */
  lemma {:induction false} FolderTokenInjective(r1: string, r2: string)
    requires IsRepoId(r1) && IsRepoId(r2)
    requires FolderToken(r1) == FolderToken(r2)
    ensures r1 == r2
  {
    var t := FolderToken(r1);
    var k1 :| 0 <= k1 < |r1| && r1[k1] == '/';
    var k2 :| 0 <= k2 < |r2| && r2[k2] == '/';
    TokenSlashPosition(r1, k1);
    TokenSlashPosition(r2, k2);
    assert t[k1] == '_' && t[k2] == '_';
    assert k1 == k2;
    forall i | 0 <= i < |r1| ensures r1[i] == r2[i] {
      if i != k1 {
        assert r1[i] == t[i] == r2[i];
      }
    }
  }

  /** Without the owner restriction the token is not injective: two repositories would share one folder. */
  lemma TokenCollision()
    ensures FolderToken("a_b/c") == FolderToken("a/b_c")
  {
  }

  /** The directory part `os.path.join` puts in front of a relative name. */
  function DirPrefix(a: string): string {
    if |a| == 0 || a[|a| - 1] == '/' then a else a + "/"
  }

  lemma JoinRelative(a: string, b: string)
    requires |b| > 0 && b[0] != '/'
    ensures PathJoin(a, b) == DirPrefix(a) + b
  {
  }

  /** Joining a fixed directory with two different folder names never yields the same file path. */
  lemma {:induction false} DistinctFoldersDistinctFiles(dir: string, t1: string, t2: string, n1: string, n2: string)
    requires t1 != t2
    requires |t1| > 0 && '/' !in t1 && |t2| > 0 && '/' !in t2
    requires |n1| > 0 && n1[0] != '/' && |n2| > 0 && n2[0] != '/'
    ensures PathJoin(PathJoin(dir, t1), n1) != PathJoin(PathJoin(dir, t2), n2)
  {
    var p := DirPrefix(dir);
    assert t1[0] != '/' && t1[|t1| - 1] != '/' && t2[0] != '/' && t2[|t2| - 1] != '/';
    JoinRelative(dir, t1);
    JoinRelative(dir, t2);
    JoinRelative(p + t1, n1);
    JoinRelative(p + t2, n2);
    var a1, a2 := p + t1 + "/" + n1, p + t2 + "/" + n2;
    if |t1| == |t2| {
      assert a1[|p|..|p| + |t1|] == t1;
      assert a2[|p|..|p| + |t2|] == t2;
    } else if |t1| < |t2| {
      assert a1[|p| + |t1|] == '/';
      assert a2[|p| + |t1|] == t2[|t1|];
    } else {
      assert a2[|p| + |t2|] == '/';
      assert a1[|p| + |t2|] == t1[|t2|];
    }
  }

  /** Two distinct repositories never write the same artifact path, whatever the two table names. */
  lemma {:induction false} ArtifactsDisjoint(root: string, r1: string, r2: string, n1: string, n2: string)
    requires IsRepoId(r1) && IsRepoId(r2) && r1 != r2
    requires |n1| > 0 && n1[0] != '/' && |n2| > 0 && n2[0] != '/'
    ensures Artifact(root, r1, n1) != Artifact(root, r2, n2)
  {
    if FolderToken(r1) == FolderToken(r2) {
      FolderTokenInjective(r1, r2);
    }
    assert |r1| > 0 && |r2| > 0;
    DistinctFoldersDistinctFiles(DataDir(root), FolderToken(r1), FolderToken(r2), n1, n2);
  }

  /** The folder a unit creates is never a table of any repository. */
  lemma {:induction false} FolderIsNotArtifact(root: string, r1: string, r2: string, name: string)
    requires |r1| > 0 && |r2| > 0
    requires |name| > 0 && name[0] != '/'
    ensures DataFolder(root, r1) != Artifact(root, r2, name)
  {
    var t1, t2 := FolderToken(r1), FolderToken(r2);
    var p := DirPrefix(DataDir(root));
    assert t1[0] != '/' && t2[0] != '/' && t2[|t2| - 1] != '/';
    JoinRelative(DataDir(root), t1);
    JoinRelative(DataDir(root), t2);
    JoinRelative(p + t2, name);
    var a := p + t2 + "/" + name;
    if |a| == |p + t1| {
      assert a[|p| + |t2|] == '/';
      assert (p + t1)[|p| + |t2|] == t1[|t2|];
    }
  }
}
