/**
 * `traverse_repos`: runs one unit for every repository of the list, in order, and turns every
 * exception into one line appended to `error_log.txt`, so that one repository's failure never
 * stops the batch.
 */
module Batch {
  import opened Common
  import opened Pipeline

  /** The line `traverse_repos` writes for a call that raised. */
  function ErrorLine(repo: string, message: string, funcName: string): (line: string)
    ensures |line| == |repo| + |message| + |funcName| + 37
    ensures line[..5] == "Repo " && line[5..5 + |repo|] == repo
    ensures line[|line| - 1] == '\n'
  {
    "Repo " + repo + " encounter error: " + message + " in function " + funcName + "\n"
  }

  /** The calls of a batch, one per repository; `TraceSpec` says what each call ran on. */
  function Trace(world: World, unit: Unit, paths: set<string>, repos: seq<string>): (t: seq<UnitRun>)
    ensures |t| == |repos|
  {
    if |repos| == 0 then []
    else
      var n := |repos| - 1;
      var front := Trace(world, unit, paths, repos[..n]);
      var before := if n == 0 then paths else front[n - 1].paths;
      front + [RunUnit(world, unit, before, repos[n])]
  }

  /** The first call runs on the initial filesystem, and each later one on what the call before it left. */
  lemma {:induction false} TraceSpec(world: World, unit: Unit, paths: set<string>, repos: seq<string>)
    ensures var t := Trace(world, unit, paths, repos);
            && (|t| > 0 ==> t[0] == RunUnit(world, unit, paths, repos[0]))
            && forall i :: 1 <= i < |t| ==> t[i] == RunUnit(world, unit, t[i - 1].paths, repos[i])
  {
    if |repos| > 0 {
      var n := |repos| - 1;
      TraceSpec(world, unit, paths, repos[..n]);
      var front := Trace(world, unit, paths, repos[..n]);
      var t := Trace(world, unit, paths, repos);
      assert t == front + [RunUnit(world, unit, if n == 0 then paths else front[n - 1].paths, repos[n])];
      assert forall i :: 0 <= i < n ==> t[i] == front[i] && repos[..n][i] == repos[i];
    }
  }

  /** The filesystem after a batch. */
  function FinalPaths(paths: set<string>, trace: seq<UnitRun>): set<string> {
    if |trace| == 0 then paths else trace[|trace| - 1].paths
  }

  /** The lines a batch appends to the error log: one per call that raised, in order. */
  function LogOf(repos: seq<string>, trace: seq<UnitRun>, funcName: string): (log: seq<string>)
    requires |repos| == |trace|
    ensures |log| <= |trace|
    ensures forall i :: 0 <= i < |log| ==> |log[i]| > 0 && log[i][|log[i]| - 1] == '\n'
  {
    if |trace| == 0 then []
    else
      var n := |trace| - 1;
      LogOf(repos[..n], trace[..n], funcName)
      + (if trace[n].error.Some? then [ErrorLine(repos[n], trace[n].error.value, funcName)] else [])
  }

  /** `error_log.txt`, opened for appending: the lines written to it so far. */
  class ErrorLog {
    var lines: seq<string>

    constructor (existing: seq<string>)
      ensures lines == existing
    {
      lines := existing;
    }

    method Write(line: string)
      modifies this
      ensures lines == old(lines) + [line]
    {
      lines := lines + [line];
    }
  }

  /** One call of `unit` for `repo`, as `func(repo)`. */
  method Call(fs: FileSystem, world: World, unit: Unit, repo: string) returns (error: Option<string>)
    modifies fs
    ensures fs.paths == RunUnit(world, unit, old(fs.paths), repo).paths
    ensures error == RunUnit(world, unit, old(fs.paths), repo).error
  {
    var harvested: bool;
    match unit {
      case Releases => error, harvested := fs.BuildRnInfo(world, repo);
      case PullRequests => error, harvested := fs.BuildPrInfo(world, repo);
      case Issues => error, harvested := fs.BuildIssueInfo(world, repo);
      case Commits =>
        var rows: seq<CommitRow>;
        error, harvested, rows := fs.BuildCmInfo(world, repo);
    }
  }

  /** `traverse_repos(repo_list, func)` for one of the four units. */
  method TraverseRepos(fs: FileSystem, log: ErrorLog, world: World, unit: Unit, repos: seq<string>)
    modifies fs, log
    ensures var trace := Trace(world, unit, old(fs.paths), repos);
            && fs.paths == FinalPaths(old(fs.paths), trace)
            && log.lines == old(log.lines) + LogOf(repos, trace, unit.Name())
  {
    // The loop relies on `Call` and `LoopStep` only, never on what a single call does.
    hide RunUnit;
    ghost var trace := Trace(world, unit, fs.paths, repos);
    ghost var start := fs.paths;
    for i := 0 to |repos|
      invariant fs.paths == FinalPaths(start, trace[..i])
      invariant log.lines == old(log.lines) + LogOf(repos[..i], trace[..i], unit.Name())
    {
      ghost var before := fs.paths;
      ghost var linesBefore := log.lines;
      var error := Call(fs, world, unit, repos[i]);
      if error.Some? {
        log.Write(ErrorLine(repos[i], error.value, unit.Name()));
      }
      LoopStep(world, unit, start, repos, trace, i, before, fs.paths, error, old(log.lines), linesBefore, log.lines);
    }
    assert repos[..|repos|] == repos && trace[..|trace|] == trace;
  }

  /** One step of the loop of `traverse_repos`: the i-th call runs on what the calls before it left. */
  lemma TraceStep(world: World, unit: Unit, paths: set<string>, repos: seq<string>, trace: seq<UnitRun>, i: nat)
    requires trace == Trace(world, unit, paths, repos) && i < |repos|
    ensures trace[i] == RunUnit(world, unit, FinalPaths(paths, trace[..i]), repos[i])
    ensures FinalPaths(paths, trace[..i + 1]) == trace[i].paths
  {
    TraceSpec(world, unit, paths, repos);
    if i > 0 {
      assert trace[..i][i - 1] == trace[i - 1];
    }
  }

  /** The log of the first i + 1 calls extends the log of the first i by the (i+1)-th call's line, if any. */
  lemma LogStep(repos: seq<string>, trace: seq<UnitRun>, funcName: string, i: nat)
    requires |repos| == |trace| && i < |trace|
    ensures LogOf(repos[..i + 1], trace[..i + 1], funcName)
            == LogOf(repos[..i], trace[..i], funcName)
               + (if trace[i].error.Some? then [ErrorLine(repos[i], trace[i].error.value, funcName)] else [])
  {
    assert repos[..i + 1][..i] == repos[..i] && trace[..i + 1][..i] == trace[..i];
    assert repos[..i + 1][i] == repos[i] && trace[..i + 1][i] == trace[i];
  }

  /** The loop invariant of `traverse_repos` survives one iteration. */
  lemma LoopStep(world: World, unit: Unit, start: set<string>, repos: seq<string>, trace: seq<UnitRun>, i: nat,
                 before: set<string>, after: set<string>, error: Option<string>,
                 initial: seq<string>, linesBefore: seq<string>, linesAfter: seq<string>)
    requires trace == Trace(world, unit, start, repos) && i < |repos|
    requires before == FinalPaths(start, trace[..i])
    requires linesBefore == initial + LogOf(repos[..i], trace[..i], unit.Name())
    requires after == RunUnit(world, unit, before, repos[i]).paths
    requires error == RunUnit(world, unit, before, repos[i]).error
    requires linesAfter == linesBefore + (if error.Some? then [ErrorLine(repos[i], error.value, unit.Name())] else [])
    ensures after == FinalPaths(start, trace[..i + 1])
    ensures linesAfter == initial + LogOf(repos[..i + 1], trace[..i + 1], unit.Name())
  {
    TraceStep(world, unit, start, repos, trace, i);
    LogStep(repos, trace, unit.Name(), i);
  }

  /** No call raises: nothing is logged. */
  lemma {:induction false} NoFailureNoLog(repos: seq<string>, trace: seq<UnitRun>, funcName: string)
    requires |repos| == |trace|
    requires forall i :: 0 <= i < |trace| ==> trace[i].error.None?
    ensures LogOf(repos, trace, funcName) == []
  {
    if |trace| > 0 {
      NoFailureNoLog(repos[..|trace| - 1], trace[..|trace| - 1], funcName);
    }
  }

  /** Exactly the k-th call raises: the log holds exactly one line, naming the k-th repository. */
  lemma {:induction false} OneFailureOneLine(repos: seq<string>, trace: seq<UnitRun>, funcName: string, k: nat)
    requires |repos| == |trace| && k < |trace|
    requires trace[k].error.Some?
    requires forall i :: 0 <= i < |trace| && i != k ==> trace[i].error.None?
    ensures LogOf(repos, trace, funcName) == [ErrorLine(repos[k], trace[k].error.value, funcName)]
  {
    var n := |trace| - 1;
    if k == n {
      NoFailureNoLog(repos[..n], trace[..n], funcName);
    } else {
      OneFailureOneLine(repos[..n], trace[..n], funcName, k);
    }
  }

  /** The log has one line per call that raised. */
  function FailureCount(trace: seq<UnitRun>): nat {
    if |trace| == 0 then 0
    else FailureCount(trace[..|trace| - 1]) + (if trace[|trace| - 1].error.Some? then 1 else 0)
  }

  lemma {:induction false} LogLength(repos: seq<string>, trace: seq<UnitRun>, funcName: string)
    requires |repos| == |trace|
    ensures |LogOf(repos, trace, funcName)| == FailureCount(trace) <= |trace|
  {
    if |trace| > 0 {
      LogLength(repos[..|trace| - 1], trace[..|trace| - 1], funcName);
    }
  }

  /**
   * Three repositories, the second of which raises: the third is still run (on what the second
   * left behind) and the log holds one line, for the second.
   */
  lemma SecondOfThreeFails(world: World, unit: Unit, paths: set<string>, r1: string, r2: string, r3: string)
    requires RunUnit(world, unit, paths, r1).error.None?
    requires RunUnit(world, unit, RunUnit(world, unit, paths, r1).paths, r2).error.Some?
    requires RunUnit(world, unit, RunUnit(world, unit, RunUnit(world, unit, paths, r1).paths, r2).paths, r3).error.None?
    ensures var trace := Trace(world, unit, paths, [r1, r2, r3]);
            && trace[1].error.Some?
            && trace[2] == RunUnit(world, unit, trace[1].paths, r3)
            && LogOf([r1, r2, r3], trace, unit.Name()) == [ErrorLine(r2, trace[1].error.value, unit.Name())]
  {
    var trace := Trace(world, unit, paths, [r1, r2, r3]);
    TraceSpec(world, unit, paths, [r1, r2, r3]);
    assert [r1, r2, r3][0] == r1 && [r1, r2, r3][1] == r2 && [r1, r2, r3][2] == r3;
    OneFailureOneLine([r1, r2, r3], trace, unit.Name(), 1);
  }
}
