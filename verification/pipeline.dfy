/**
 * The per-repository units `build_rn_info`, `build_pr_info`, `build_issue_info` and
 * `build_cm_info`, and the crawlers `crawl_rn`, `crawl_pr`, `crawl_issue` they call.
 *
 * A unit makes sure the folder `ROOTDIR/data/<token>` exists, then (except for commits, whose
 * check is commented out) returns at once when its table already exists; otherwise it harvests
 * and writes its table. The filesystem is the set of paths that exist; writing a table adds
 * its path. Everything outside the filesystem (the GitHub API, the local mirrors, Markdown
 * rendering) is a `World` the units read from.
 */
module Pipeline {
  import opened Common
  import opened Paths
  import opened Harvester
  import opened CommitWalker
  import opened MessageSplitter

  /** One decoded JSON object of the GitHub API (a release, pull request or issue). */
  datatype Json = Json(text: string)

  /** `lambda el: el`, the transform every API crawler passes. */
  function Identity(el: Json): Json {
    el
  }

  /** `https://api.github.com/repos/{repo}/{component}?{params}&per_page=100&page=...` without the page. */
  datatype Endpoint = Endpoint(repo: string, component: string, params: string)

  datatype World = World(
    root: string,                              // ROOTDIR
    api: Endpoint -> seq<Response<Json>>,      // the pages each endpoint answers
    mirror: string -> Mirror,                  // the local mirror at each path
    render: string -> Option<seq<string>>)     // Markdown -> <p> texts; None when it raises

  datatype Unit = Releases | PullRequests | Issues | Commits {
    /** `func.__name__` of the unit, as the error log prints it. */
    function Name(): string {
      match this
      case Releases => "build_rn_info"
      case PullRequests => "build_pr_info"
      case Issues => "build_issue_info"
      case Commits => "build_cm_info"
    }

    function ArtifactName(): string {
      match this
      case Releases => "rn_info.csv"
      case PullRequests => "pr_info.csv"
      case Issues => "issue_info.csv"
      case Commits => "commit.csv"
    }

    /** Whether an existing table makes the unit return at once (commented out for commits). */
    predicate SkipsWhenDone() {
      !Commits?
    }
  }

  /** The endpoint each API unit harvests. */
  function EndpointOf(unit: Unit, repo: string): Endpoint
    requires !unit.Commits?
  {
    match unit
    case Releases => Endpoint(repo, "releases", "")
    case PullRequests => Endpoint(repo, "pulls", "state=all")
    case Issues => Endpoint(repo, "issues", "state=all")
  }

  /** `str(FileNotFoundError)` of `os.mkdir(path)` when the parent directory is missing. */
  function NoSuchFile(path: string): string {
    "[Errno 2] No such file or directory: '" + path + "'"
  }

  /** `str(KeyError('message'))`: `commits.loc[:, "message"]` on the column-less frame of zero commits. */
  const MissingMessageColumn := "'message'"

  /** One row of `commit.csv`. */
  datatype CommitRow = CommitRow(
    summary: Option<string>, description: Option<string>, sha: string,
    author: string, committer: string, commitTime: int)

  function RowOf(rec: CommitRecord, render: string -> Option<seq<string>>): CommitRow {
    var split := CmSplitter(render(rec.message));
    CommitRow(split.summary, split.description, rec.sha, rec.author, rec.committer, rec.commitTime)
  }

  /**
   * The rows of `commit.csv`: one per distinct commit reachable from the walked branches, each
   * holding that commit's metadata and its message split by `cm_spliter`.
   */
  predicate CommitTable(rows: seq<CommitRow>, mirror: Mirror, render: string -> Option<seq<string>>) {
    && |rows| == |ReachableShas(mirror)|
    && (forall i :: 0 <= i < |rows| ==> rows[i].sha in ReachableShas(mirror))
    && (forall i, j :: 0 <= i < j < |rows| ==> rows[i].sha != rows[j].sha)
    && forall i :: 0 <= i < |rows| ==>
         rows[i] == RowOf(MakeRecord(rows[i].sha, mirror.lookup(rows[i].sha)), render)
  }

  /** Turning the records `crawl_cm` returns into rows gives the commit table. */
  lemma RowsOfCrawl(records: seq<CommitRecord>, rows: seq<CommitRow>, mirror: Mirror,
                    render: string -> Option<seq<string>>)
    requires ShaSet(records) == ReachableShas(mirror)
    requires DistinctShas(records) && |records| == |ReachableShas(mirror)|
    requires forall i :: 0 <= i < |records| ==>
               records[i] == MakeRecord(records[i].sha, mirror.lookup(records[i].sha))
    requires |rows| == |records| && forall i :: 0 <= i < |rows| ==> rows[i] == RowOf(records[i], render)
    ensures CommitTable(rows, mirror, render)
  {
    forall i | 0 <= i < |rows|
      ensures rows[i].sha in ReachableShas(mirror)
    {
      assert records[i].sha in ShaSet(records);
    }
  }

  /** `crawl_rn(repo)` */
  method CrawlRn(world: World, repo: string) returns (r: Result<seq<Json>, IOError>, requested: seq<nat>)
    ensures r == Harvest(world.api(Endpoint(repo, "releases", "")), Identity)
    ensures |requested| == LastPage(world.api(Endpoint(repo, "releases", "")), 1)
  {
    r, requested := GitHubApi(world.api(Endpoint(repo, "releases", "")), Identity);
  }

  /** `crawl_pr(repo)` */
  method CrawlPr(world: World, repo: string) returns (r: Result<seq<Json>, IOError>, requested: seq<nat>)
    ensures r == Harvest(world.api(Endpoint(repo, "pulls", "state=all")), Identity)
    ensures |requested| == LastPage(world.api(Endpoint(repo, "pulls", "state=all")), 1)
  {
    r, requested := GitHubApi(world.api(Endpoint(repo, "pulls", "state=all")), Identity);
  }

  /** `crawl_issue(repo)` */
  method CrawlIssue(world: World, repo: string) returns (r: Result<seq<Json>, IOError>, requested: seq<nat>)
    ensures r == Harvest(world.api(Endpoint(repo, "issues", "state=all")), Identity)
    ensures |requested| == LastPage(world.api(Endpoint(repo, "issues", "state=all")), 1)
  {
    r, requested := GitHubApi(world.api(Endpoint(repo, "issues", "state=all")), Identity);
  }

  /** The identity transform hands over every item of the pages it gathered, unchanged. */
  lemma {:induction false} IdentityKeepsItems(server: seq<Response<Json>>, upTo: nat)
    ensures Gathered(server, Identity, upTo) == RawItems(server, upTo)
  {
    if upTo > 1 {
      IdentityKeepsItems(server, upTo - 1);
      var items := ItemsOf(At(server, upTo - 1));
      assert forall k :: 0 <= k < |items| ==> MapItems(Identity, items)[k] == items[k];
      assert MapItems(Identity, items) == items;
    }
  }

  /** The raw items of pages 1 .. upTo - 1, in page order. */
  function RawItems(server: seq<Response<Json>>, upTo: nat): seq<Json> {
    if upTo <= 1 then [] else RawItems(server, upTo - 1) + ItemsOf(At(server, upTo - 1))
  }

  /** The error the harvesting step of a unit raises, or `None` when it produces its table. */
  function HarvestError(world: World, unit: Unit, paths: set<string>, repo: string): (e: Option<string>)
    ensures unit.Commits? && e.Some? ==> e.value == MissingMirrorMessage || e.value == MissingMessageColumn
    ensures !unit.Commits? && e.Some? ==> e.value == TimeoutMessage || e.value == HttpErrorMessage
  {
    if unit.Commits? then
      var mirrorPath := MirrorFolder(world.root, repo);
      if mirrorPath !in paths then Some(MissingMirrorMessage)
      else if ReachableShas(world.mirror(mirrorPath)) == {} then Some(MissingMessageColumn)
      else None
    else
      match Harvest(world.api(EndpointOf(unit, repo)), Identity)
      case Success(_) => None
      case Failure(e) => Some(e.message)
  }

  /** What one call of a unit leaves behind: the filesystem, the exception raised, whether it harvested. */
  datatype UnitRun = UnitRun(paths: set<string>, error: Option<string>, harvested: bool)

  /** One call of `unit` for `repo` on the filesystem `paths`. */
  function RunUnit(world: World, unit: Unit, paths: set<string>, repo: string): UnitRun {
    var folder := DataFolder(world.root, repo);
    if folder !in paths && DataDir(world.root) !in paths then
      UnitRun(paths, Some(NoSuchFile(folder)), false)
    else
      var ready := paths + {folder};
      var artifact := Artifact(world.root, repo, unit.ArtifactName());
      if unit.SkipsWhenDone() && artifact in ready then UnitRun(ready, None, false)
      else
        match HarvestError(world, unit, ready, repo)
        case Some(message) => UnitRun(ready, Some(message), true)
        case None => UnitRun(ready + {artifact}, None, true)
  }

  /** The local filesystem: the set of paths that exist. */
  class FileSystem {
    var paths: set<string>

    constructor (initial: set<string>)
      ensures paths == initial
    {
      paths := initial;
    }

    /** `if not os.path.exists(folder): os.mkdir(folder)`; `mkdir` fails when `parent` is missing. */
    method EnsureFolder(folder: string, parent: string) returns (error: Option<string>)
      modifies this
      ensures error.None? <==> folder in old(paths) || parent in old(paths)
      ensures error.None? ==> paths == old(paths) + {folder}
      ensures error.Some? ==> paths == old(paths) && error.value == NoSuchFile(folder)
    {
      if folder in paths {
        return None;
      }
      if parent !in paths {
        return Some(NoSuchFile(folder));
      }
      paths := paths + {folder};
      error := None;
    }

    /** The body shared by `build_rn_info`, `build_pr_info` and `build_issue_info`. */
    method BuildApiInfo(world: World, unit: Unit, repo: string) returns (error: Option<string>, harvested: bool)
      requires !unit.Commits?
      modifies this
      ensures UnitRun(paths, error, harvested) == RunUnit(world, unit, old(paths), repo)
    {
      harvested := false;
      error := EnsureFolder(DataFolder(world.root, repo), DataDir(world.root));
      if error.Some? {
        return;
      }
      var artifact := Artifact(world.root, repo, unit.ArtifactName());
      if artifact in paths {
        return;
      }
      var result: Result<seq<Json>, IOError>;
      var pages: seq<nat>;
      match unit {
        case Releases => result, pages := CrawlRn(world, repo);
        case PullRequests => result, pages := CrawlPr(world, repo);
        case Issues => result, pages := CrawlIssue(world, repo);
      }
      harvested := true;
      if result.Failure? {
        error := Some(result.error.message);
        return;
      }
      paths := paths + {artifact};
    }

    /** `build_rn_info(repo)` */
    method BuildRnInfo(world: World, repo: string) returns (error: Option<string>, harvested: bool)
      modifies this
      ensures UnitRun(paths, error, harvested) == RunUnit(world, Releases, old(paths), repo)
    {
      error, harvested := BuildApiInfo(world, Releases, repo);
    }

    /** `build_pr_info(repo)` */
    method BuildPrInfo(world: World, repo: string) returns (error: Option<string>, harvested: bool)
      modifies this
      ensures UnitRun(paths, error, harvested) == RunUnit(world, PullRequests, old(paths), repo)
    {
      error, harvested := BuildApiInfo(world, PullRequests, repo);
    }

    /** `build_issue_info(repo)` */
    method BuildIssueInfo(world: World, repo: string) returns (error: Option<string>, harvested: bool)
      modifies this
      ensures UnitRun(paths, error, harvested) == RunUnit(world, Issues, old(paths), repo)
    {
      error, harvested := BuildApiInfo(world, Issues, repo);
    }

    /**
     * `build_cm_info(repo)`. `rows` are the rows written to `commit.csv`: one per distinct
     * reachable commit, its message split by `cm_spliter`.
     */
    method BuildCmInfo(world: World, repo: string) returns (error: Option<string>, harvested: bool, rows: seq<CommitRow>)
      modifies this
      ensures UnitRun(paths, error, harvested) == RunUnit(world, Commits, old(paths), repo)
      ensures error.None? ==> CommitTable(rows, world.mirror(MirrorFolder(world.root, repo)), world.render)
    {
      harvested := false;
      rows := [];
      error := EnsureFolder(DataFolder(world.root, repo), DataDir(world.root));
      if error.Some? {
        return;
      }
      var artifact := Artifact(world.root, repo, Commits.ArtifactName());
      var mirrorPath := MirrorFolder(world.root, repo);
      var mirror := world.mirror(mirrorPath);
      var crawled := CrawlCommits(paths, world.root, repo, mirror);
      harvested := true;
      if crawled.Failure? {
        error := Some(crawled.error);
        return;
      }
      var records := crawled.value;
      if |records| == 0 {
        error := Some(MissingMessageColumn);
        return;
      }
      rows := seq(|records|, i requires 0 <= i < |records| => RowOf(records[i], world.render));
      RowsOfCrawl(records, rows, mirror, world.render);
      paths := paths + {artifact};
    }
  }

  /** The data folder exists after a call exactly when it existed or `ROOTDIR/data` did; nothing is ever removed. */
  lemma FolderAfterRun(world: World, unit: Unit, paths: set<string>, repo: string)
    ensures var run := RunUnit(world, unit, paths, repo);
            && paths <= run.paths
            && (DataFolder(world.root, repo) in run.paths
                <==> DataFolder(world.root, repo) in paths || DataDir(world.root) in paths)
  {
  }

  /** An existing table makes release, pull-request and issue units return without harvesting or writing. */
  lemma SkipIfDone(world: World, unit: Unit, paths: set<string>, repo: string)
    requires unit.SkipsWhenDone()
    requires DataFolder(world.root, repo) in paths || DataDir(world.root) in paths
    requires Artifact(world.root, repo, unit.ArtifactName()) in paths
    ensures RunUnit(world, unit, paths, repo) == UnitRun(paths + {DataFolder(world.root, repo)}, None, false)
  {
  }

  /** After a successful call, a second call of a release, pull-request or issue unit does nothing. */
  lemma SecondRunIsNoOp(world: World, unit: Unit, paths: set<string>, repo: string)
    requires unit.SkipsWhenDone()
    requires RunUnit(world, unit, paths, repo).error.None?
    ensures var first := RunUnit(world, unit, paths, repo);
            RunUnit(world, unit, first.paths, repo) == UnitRun(first.paths, None, false)
  {
    var first := RunUnit(world, unit, paths, repo);
    var folder := DataFolder(world.root, repo);
    assert folder in first.paths;
    assert Artifact(world.root, repo, unit.ArtifactName()) in first.paths;
    assert first.paths + {folder} == first.paths;
  }

  /** The commit unit has no such check: whenever its folder can be made, it harvests, table or not. */
  lemma CommitsAlwaysHarvest(world: World, paths: set<string>, repo: string)
    requires DataFolder(world.root, repo) in paths || DataDir(world.root) in paths
    ensures RunUnit(world, Commits, paths, repo).harvested
  {
  }

  /** A unit that raises leaves no table behind: only its folder is new. */
  lemma FailureWritesNoTable(world: World, unit: Unit, paths: set<string>, repo: string)
    requires RunUnit(world, unit, paths, repo).error.Some?
    ensures RunUnit(world, unit, paths, repo).paths <= paths + {DataFolder(world.root, repo)}
  {
  }

  /**
   * The four units write four different tables of one repository, and each reports itself in
   * the error log under its own function name.
   */
  lemma {:induction false} UnitsKeepApart(root: string, repo: string, u1: Unit, u2: Unit)
    requires |repo| > 0 && u1 != u2
    ensures Artifact(root, repo, u1.ArtifactName()) != Artifact(root, repo, u2.ArtifactName())
    ensures u1.Name() != u2.Name()
  {
    Layout(root, repo, u1.ArtifactName());
    Layout(root, repo, u2.ArtifactName());
    var folder := DataFolder(root, repo) + "/";
    var n1, n2 := u1.ArtifactName(), u2.ArtifactName();
    assert n1 != n2;
    if |n1| == |n2| {
      assert (folder + n1)[|folder|..] == n1;
      assert (folder + n2)[|folder|..] == n2;
    }
  }

  /**
   * A call adds at most its repository's folder and its own table, and a call that harvested
   * without raising leaves its table behind.
   */
  lemma RunUnitFootprint(world: World, unit: Unit, paths: set<string>, repo: string)
    ensures var run := RunUnit(world, unit, paths, repo);
            && paths <= run.paths <= paths + {DataFolder(world.root, repo), Artifact(world.root, repo, unit.ArtifactName())}
            && (run.harvested && run.error.None? ==> Artifact(world.root, repo, unit.ArtifactName()) in run.paths)
  {
  }

  /** A unit only ever adds its own repository's folder and table. */
  lemma OtherRepositoriesUntouched(world: World, unit: Unit, paths: set<string>, repo: string, other: string, name: string)
    requires IsRepoId(repo) && IsRepoId(other) && repo != other
    requires |name| > 0 && name[0] != '/'
    ensures Artifact(world.root, other, name) in RunUnit(world, unit, paths, repo).paths
            <==> Artifact(world.root, other, name) in paths
  {
    FolderIsNotArtifact(world.root, repo, other, name);
    ArtifactsDisjoint(world.root, repo, other, unit.ArtifactName(), name);
  }
}
