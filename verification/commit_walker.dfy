/**
 * `crawl_cm`: lists the branches of a repository's local mirror (`git branch -a`), walks every
 * branch but the first one (`git rev-list <branch>`), unions the commit shas into one set and
 * reads one record per distinct sha.
 *
 * The mirror is given by what its commands answer: the text `git branch -a` prints, the text
 * `git rev-list <branch>` prints for each branch (`None` when that call raises), and the
 * metadata pygit2 returns for a sha.
 */
module CommitWalker {
  import opened Common
  import opened Text
  import Paths

  /** `git branch -a` marks a symbolic branch such as `remotes/origin/HEAD -> origin/master` with this. */
  const HeadMarker := "HEAD ->"
  /** `str(AssertionError())`: the message of the failed `assert os.path.exists(path)`. */
  const MissingMirrorMessage := ""

  /** What pygit2 exposes of a commit. */
  datatype CommitMeta = CommitMeta(message: string, author: string, committer: string, commitTime: int)

  /** One row of the commit table `crawl_cm` returns. */
  datatype CommitRecord = CommitRecord(message: string, sha: string, author: string, commitTime: int, committer: string)

  datatype Mirror = Mirror(
    branchListing: string,
    revList: string -> Option<string>,
    lookup: string -> CommitMeta)

  /** `output.split('\n')[:-1]`: the lines of a command's output; the segment after the last newline is dropped. */
  function Lines(output: string): seq<string> {
    DropLast(Split(output, '\n'))
  }

  /** `[branch.strip() for branch in lines if "HEAD ->" not in branch]` */
  function KeepBranches(lines: seq<string>): (branches: seq<string>)
    ensures |branches| <= |lines|
    ensures (forall i :: 0 <= i < |lines| ==> !Contains(lines[i], HeadMarker)) ==> |branches| == |lines|
  {
    if |lines| == 0 then []
    else
      var rest := KeepBranches(lines[1..]);
      if Contains(lines[0], HeadMarker) then rest
      else [Strip(lines[0])] + rest
  }

  /** The branch names `crawl_cm` reads off the `git branch -a` listing. */
  function ParseBranches(listing: string): (branches: seq<string>)
    ensures '\n' !in listing ==> branches == []
  {
    assert '\n' !in listing ==> Lines(listing) == [] by {
      if '\n' !in listing {
        SplitWithoutSep(listing, '\n');
      }
    }
    KeepBranches(Lines(listing))
  }

  /** `all_branches[1:]`: every parsed branch but the first. */
  function WalkedBranches(listing: string): (walked: seq<string>)
    ensures |walked| == if |ParseBranches(listing)| == 0 then 0 else |ParseBranches(listing)| - 1
    ensures forall i :: 0 <= i < |walked| ==> walked[i] == ParseBranches(listing)[i + 1]
  {
    var all := ParseBranches(listing);
    if |all| == 0 then [] else all[1..]
  }

  /** The shas one `git rev-list` call contributes: none when it raised. */
  function ShasOf(output: Option<string>): (shas: set<string>)
    ensures forall sha :: sha in shas ==> '\n' !in sha
  {
    match output
    case None => {}
    case Some(text) =>
      var parts := Split(text, '\n');
      assert forall k :: 0 <= k < |Lines(text)| ==> Lines(text)[k] == parts[k];
      set line | line in Lines(text)
  }

  /** The set `all_commit_shas` after the loop has walked `branches`. */
  function ShaUnion(branches: seq<string>, revList: string -> Option<string>): (u: set<string>)
    ensures forall i :: 0 <= i < |branches| ==> ShasOf(revList(branches[i])) <= u
  {
    if |branches| == 0 then {}
    else
      var front := branches[..|branches| - 1];
      assert forall i :: 0 <= i < |front| ==> front[i] == branches[i];
      ShaUnion(front, revList) + ShasOf(revList(branches[|branches| - 1]))
  }

  /** The commits `crawl_cm` records for a mirror. */
  function ReachableShas(mirror: Mirror): set<string> {
    ShaUnion(WalkedBranches(mirror.branchListing), mirror.revList)
  }

  function MakeRecord(sha: string, meta: CommitMeta): CommitRecord {
    CommitRecord(meta.message, sha, meta.author, meta.commitTime, meta.committer)
  }

  function ShaSet(records: seq<CommitRecord>): set<string> {
    set i | 0 <= i < |records| :: records[i].sha
  }

  predicate DistinctShas(records: seq<CommitRecord>) {
    forall i, j :: 0 <= i < j < |records| ==> records[i].sha != records[j].sha
  }

  /** The loop of `crawl_cm` over the walked branches: `all_commit_shas.update(...)` per branch whose listing succeeds. */
  method CollectShas(branches: seq<string>, revList: string -> Option<string>) returns (all: set<string>)
    ensures all == ShaUnion(branches, revList)
  {
    all := {};
    for i := 0 to |branches|
      invariant all == ShaUnion(branches[..i], revList)
    {
      assert branches[..i + 1][..i] == branches[..i];
      var output := revList(branches[i]);
      if output.Some? {
        all := all + set line | line in Lines(output.value);
      }
    }
    assert branches[..|branches|] == branches;
  }

  /** The comprehension of `crawl_cm` that reads one record per sha of the set, in the set's iteration order. */
  method RecordsOf(shas: set<string>, lookup: string -> CommitMeta) returns (records: seq<CommitRecord>)
    ensures ShaSet(records) == shas
    ensures DistinctShas(records) && |records| == |shas|
    ensures forall i :: 0 <= i < |records| ==> records[i] == MakeRecord(records[i].sha, lookup(records[i].sha))
  {
    var remaining := shas;
    records := [];
    while remaining != {}
      invariant remaining <= shas
      invariant ShaSet(records) !! remaining
      invariant ShaSet(records) + remaining == shas
      invariant DistinctShas(records)
      invariant FromLookup(records, lookup)
      decreases remaining
    {
      var sha :| sha in remaining;
      RecordsAppend(records, sha, lookup);
      records := records + [MakeRecord(sha, lookup(sha))];
      remaining := remaining - {sha};
    }
    DistinctShaCount(records);
  }

  /** Every record holds the metadata `lookup` gives for its sha. */
  predicate FromLookup(records: seq<CommitRecord>, lookup: string -> CommitMeta) {
    forall i :: 0 <= i < |records| ==> records[i] == MakeRecord(records[i].sha, lookup(records[i].sha))
  }

  /** Reading the record of a sha not read yet keeps the shas distinct and adds exactly that sha. */
  lemma RecordsAppend(records: seq<CommitRecord>, sha: string, lookup: string -> CommitMeta)
    requires DistinctShas(records) && sha !in ShaSet(records)
    requires FromLookup(records, lookup)
    ensures var next := records + [MakeRecord(sha, lookup(sha))];
            && ShaSet(next) == ShaSet(records) + {sha}
            && DistinctShas(next)
            && FromLookup(next, lookup)
  {
    var next := records + [MakeRecord(sha, lookup(sha))];
    ShaSetAppend(records, MakeRecord(sha, lookup(sha)));
    forall i, j | 0 <= i < j < |next|
      ensures next[i].sha != next[j].sha
    {
      if j == |records| {
        assert next[i].sha == records[i].sha && records[i].sha in ShaSet(records);
      } else {
        assert next[i] == records[i] && next[j] == records[j];
      }
    }
    forall i | 0 <= i < |next|
      ensures next[i] == MakeRecord(next[i].sha, lookup(next[i].sha))
    {
      if i < |records| {
        assert next[i] == records[i];
      }
    }
  }

  lemma ShaSetAppend(records: seq<CommitRecord>, rec: CommitRecord)
    ensures ShaSet(records + [rec]) == ShaSet(records) + {rec.sha}
  {
    var all := records + [rec];
    assert forall i :: 0 <= i < |records| ==> all[i] == records[i];
    assert all[|records|] == rec;
    forall x | x in ShaSet(all) ensures x in ShaSet(records) + {rec.sha} {
      var i :| 0 <= i < |all| && all[i].sha == x;
      if i < |records| { assert records[i].sha == x; }
    }
    forall x | x in ShaSet(records) + {rec.sha} ensures x in ShaSet(all) {
      if x in ShaSet(records) {
        var i :| 0 <= i < |records| && records[i].sha == x;
        assert all[i].sha == x;
      }
    }
  }

  /** Records with pairwise distinct shas are as many as their shas. */
  lemma {:induction false} DistinctShaCount(records: seq<CommitRecord>)
    requires DistinctShas(records)
    ensures |ShaSet(records)| == |records|
  {
    if |records| > 0 {
      var front := records[..|records| - 1];
      var last := records[|records| - 1];
      DistinctShaCount(front);
      assert records == front + [last];
      ShaSetAppend(front, last);
      assert last.sha !in ShaSet(front);
    }
  }

  /**
   * `crawl_cm(repo)`: fails (the `assert` on the mirror folder) when the mirror is absent;
   * otherwise one record per distinct sha reachable from the walked branches, each built from
   * that sha's metadata.
   */
  method CrawlCommits(paths: set<string>, root: string, repo: string, mirror: Mirror)
    returns (r: Result<seq<CommitRecord>, string>)
    ensures r.Failure? <==> Paths.MirrorFolder(root, repo) !in paths
    ensures r.Failure? ==> r.error == MissingMirrorMessage
    ensures r.Success? ==> ShaSet(r.value) == ReachableShas(mirror)
    ensures r.Success? ==> DistinctShas(r.value) && |r.value| == |ReachableShas(mirror)|
    ensures r.Success? ==> forall i :: 0 <= i < |r.value| ==>
              r.value[i] == MakeRecord(r.value[i].sha, mirror.lookup(r.value[i].sha))
  {
    if Paths.MirrorFolder(root, repo) !in paths {
      return Failure(MissingMirrorMessage);
    }
    var all := CollectShas(WalkedBranches(mirror.branchListing), mirror.revList);
    var records := RecordsOf(all, mirror.lookup);
    r := Success(records);
  }

  /** The lines `git branch -a` prints all end with a newline, and then nothing is lost by `[:-1]`. */
  lemma LinesOfTerminatedOutput(body: string)
    ensures Lines(body + "\n") == Split(body, '\n')
  {
    SplitTrailingSep(body, '\n');
  }

  /**
   * No line of a command's output holds a newline, and newline-terminated output is exactly its
   * lines, each followed by a newline.
   */
  lemma LinesRoundTrip(output: string)
    ensures forall i :: 0 <= i < |Lines(output)| ==> '\n' !in Lines(output)[i]
    ensures |output| > 0 && output[|output| - 1] == '\n' ==> Join("\n", Lines(output)) + "\n" == output
  {
    if |output| > 0 && output[|output| - 1] == '\n' {
      var body := output[..|output| - 1];
      assert output == body + "\n";
      LinesOfTerminatedOutput(body);
      JoinSplit(body, '\n');
    }
  }

  /** A branch is parsed exactly when some non-symbolic line strips to it. */
  lemma {:induction false} KeepBranchesMembership(lines: seq<string>, b: string)
    ensures b in KeepBranches(lines)
            <==> exists i :: 0 <= i < |lines| && !Contains(lines[i], HeadMarker) && Strip(lines[i]) == b
  {
    if |lines| > 0 {
      KeepBranchesMembership(lines[1..], b);
      assert forall i :: 1 <= i < |lines| ==> lines[i] == lines[1..][i - 1];
      if exists i :: 1 <= i < |lines| && !Contains(lines[i], HeadMarker) && Strip(lines[i]) == b {
        var i :| 1 <= i < |lines| && !Contains(lines[i], HeadMarker) && Strip(lines[i]) == b;
        assert lines[1..][i - 1] == lines[i];
      }
    }
  }

  /** Every parsed branch name is already stripped. */
  lemma {:induction false} ParsedBranchesStripped(lines: seq<string>)
    ensures forall i :: 0 <= i < |KeepBranches(lines)| ==> Strip(KeepBranches(lines)[i]) == KeepBranches(lines)[i]
  {
    if |lines| > 0 {
      ParsedBranchesStripped(lines[1..]);
      StripIdempotent(lines[0]);
    }
  }

  /** Parsing keeps the order of the listing: the branches of two blocks of lines are concatenated. */
  lemma {:induction false} KeepBranchesAppend(a: seq<string>, b: seq<string>)
    ensures KeepBranches(a + b) == KeepBranches(a) + KeepBranches(b)
  {
    if |a| > 0 {
      assert (a + b)[1..] == a[1..] + b;
      KeepBranchesAppend(a[1..], b);
    } else {
      assert a + b == b;
    }
  }

  /** Walking `a` then `b` unions the shas of both. */
  lemma {:induction false} ShaUnionAppend(a: seq<string>, b: seq<string>, revList: string -> Option<string>)
    ensures ShaUnion(a + b, revList) == ShaUnion(a, revList) + ShaUnion(b, revList)
  {
    if |b| == 0 {
      assert a + b == a;
    } else {
      assert (a + b)[..|a + b| - 1] == a + b[..|b| - 1];
      ShaUnionAppend(a, b[..|b| - 1], revList);
    }
  }

  /** A sha is collected exactly when some walked branch's `git rev-list` succeeded and printed it. */
  lemma {:induction false} InShaUnion(branches: seq<string>, revList: string -> Option<string>, sha: string)
    ensures sha in ShaUnion(branches, revList)
            <==> exists i :: 0 <= i < |branches| && sha in ShasOf(revList(branches[i]))
  {
    if |branches| > 0 {
      var front := branches[..|branches| - 1];
      InShaUnion(front, revList, sha);
      assert forall i :: 0 <= i < |front| ==> front[i] == branches[i];
    }
  }

  /** A branch whose `git rev-list` raises is skipped and changes nothing for the other branches. */
  lemma FailingBranchSkipped(a: seq<string>, b: string, c: seq<string>, revList: string -> Option<string>)
    requires revList(b).None?
    ensures ShaUnion(a + [b] + c, revList) == ShaUnion(a + c, revList)
  {
    ShaUnionAppend(a + [b], c, revList);
    ShaUnionAppend(a, [b], revList);
    ShaUnionAppend(a, c, revList);
    assert ShaUnion([b], revList) == ShaUnion([], revList) + ShasOf(revList(b));
  }

  /**
   * The first parsed branch is never walked: a sha that only its `git rev-list` prints is
   * absent from the records.
   */
  lemma FirstBranchNotWalked(mirror: Mirror, sha: string)
    requires |ParseBranches(mirror.branchListing)| > 0
    requires forall i :: 1 <= i < |ParseBranches(mirror.branchListing)| ==>
               sha !in ShasOf(mirror.revList(ParseBranches(mirror.branchListing)[i]))
    ensures sha !in ReachableShas(mirror)
  {
    var all := ParseBranches(mirror.branchListing);
    InShaUnion(all[1..], mirror.revList, sha);
    assert forall i :: 0 <= i < |all[1..]| ==> all[1..][i] == all[i + 1];
  }

  /**
   * A commit printed by any walked branch -- in particular one shared by several branches -- is
   * recorded exactly once in records that, as `CrawlCommits` returns them, cover the sha set
   * without repetition.
   */
  lemma CommitRecordedOnce(mirror: Mirror, records: seq<CommitRecord>, i: nat, sha: string)
    requires ShaSet(records) == ReachableShas(mirror) && DistinctShas(records)
    requires i < |WalkedBranches(mirror.branchListing)|
    requires sha in ShasOf(mirror.revList(WalkedBranches(mirror.branchListing)[i]))
    ensures exists k :: 0 <= k < |records| && records[k].sha == sha
    ensures forall k, l :: 0 <= k < l < |records| ==> !(records[k].sha == sha && records[l].sha == sha)
  {
    InShaUnion(WalkedBranches(mirror.branchListing), mirror.revList, sha);
    assert sha in ShaSet(records);
  }
}
