# Repository-history harvester, modelled in Dafny

This project models the harvesting core of `make_data.py`: the script collects the releases,
pull requests, issues and commits of a list of GitHub repositories and writes one CSV table per
repository and entity type. The model covers five pieces:

- **`github_api`** (module `Harvester`) walks the pages of a GitHub REST collection. It requests
  `page=1, 2, 3, …` with `per_page=100` and applies `func` to every item. It stops after the first
  successful page with fewer than 100 items. Status 422 ends the walk normally. Any other HTTP
  error status raises `IOError("Http Error")`, a timeout raises `IOError("Timeout Error")`, and
  both throw away the items gathered so far. The server is a sequence of responses; the response
  for page `p` is element `p - 1`. Pages past the end answer `200` with an empty list, as GitHub
  does. That is why the walk always terminates.
- **`crawl_cm`** (module `CommitWalker`) reads a local mirror. It parses the `git branch -a`
  listing: split on `'\n'`, drop the last segment, drop `HEAD ->` aliases, strip each entry. It
  then walks every branch but the first with `git rev-list` and unions the shas into a set. A
  branch whose listing raises is skipped. Finally it reads one record per distinct sha. The
  mirror is given by what its commands answer: the listing text, the `rev-list` text for each
  branch (`None` when the call raises) and the commit metadata for each sha.
- **`cm_spliter`** (module `MessageSplitter`) splits a commit message into
  `(first paragraph, "<.> ".join(other paragraphs))`. The Markdown rendering that produces the
  paragraphs is foreign code, so the model starts from the paragraph texts. `None` stands for a
  rendering that raised.
- **`build_rn_info`, `build_pr_info`, `build_issue_info`, `build_cm_info`** (module `Pipeline`)
  are the per-repository units. The filesystem is a set of paths, and writing a table adds its
  path. Each unit first creates `ROOTDIR/data/<owner_name>`. The three API units then return at
  once if their table exists. The commit unit has that check commented out, so it harvests
  every time.
- **`traverse_repos`** (module `Batch`) runs one unit for every repository in list order. Each
  call that raises appends one line `Repo <repo> encounter error: <msg> in function <name>` to
  the error log, and the loop continues.

The model follows the code as written, also where it looks unintended:

- Exception names and messages are the code's: `IOError` with "Http Error" or "Timeout Error",
  an `AssertionError` with an empty message for a missing mirror, and `FileNotFoundError` from
  `os.mkdir` when `ROOTDIR/data` is missing.
- The first parsed branch is never walked. In a fresh clone that entry is the starred current
  branch (`* master`), whose commits `remotes/origin/master` also lists.
- The commit unit has no skip-if-done check.
- A commit unit that finds no commit raises. `commits.loc[:, "message"]` on the column-less empty
  frame raises `KeyError('message')`, which is logged like any other error.

## Model

| member | source | states |
|---|---|---|
| `Harvester.GitHubApi` | make_data.py:53-78 | the result is the page walk's outcome `Harvest`; the pages requested are exactly 1, 2, …, `LastPage` in order |
| `Harvester.Harvest` | make_data.py:53-78 | the outcome of the page walk: it fails only with "Timeout Error" or "Http Error", and a successful walk returns at least 100 results for every page before the one it stopped on |
| `Harvester.LastPage` | make_data.py:72-76 | the walk stops at the first page that is not a successful page of at least 100 items; every page before it was full |
| `Harvester.IsFull` | make_data.py:62-74 | the condition for asking for the next page: `raise_for_status()` did not raise and the page held at least 100 items; `LastPage` and `LastPageAfterFullPages` state the stop page it fixes |
| `Harvester.Gathered` | make_data.py:70-72 | `all_els += els_per_page` over the pages before the stop page, in page order; `GatheredFullPages`, `GatheredAtLeast` and `IdentityKeepsItems` state its length and contents |
| `Harvester.LastPageAfterFullPages` | make_data.py:74-76 | full pages followed by a page that is not full: the walk stops exactly on that page |
| `Harvester.GatheredFullPages` | make_data.py:70-72 | each full page contributes exactly 100 results, so p - 1 full pages give 100·(p - 1) items |
| `Harvester.GatheredAtLeast` | make_data.py:70-76 | every full page the walk passes contributes at least 100 results |
| `Harvester.FullPagesThenShortPage` | make_data.py:56-78 | N full pages and a short page of k < 100 items: pages 1 … N+1 are requested, never N+2, and 100·N + k items come back |
| `Harvester.StopsOnUnprocessable` | make_data.py:63-65 | a 422 after full pages ends the walk without error and returns exactly the earlier pages' items |
| `Harvester.UnprocessableFirstPage` | make_data.py:63-65 | a 422 on page 1 returns an empty list and raises nothing |
| `Harvester.HarvestFailsIff` | make_data.py:63-69 | the walk raises "Timeout Error" iff the page it stops on timed out, and "Http Error" iff that page has an error status other than 422 |
| `Pipeline.CrawlRn` | make_data.py:81-86 | harvests the `releases` endpoint with no extra parameters and the identity transform |
| `Pipeline.CrawlPr` | make_data.py:89-94 | harvests the `pulls` endpoint with `state=all` and the identity transform |
| `Pipeline.CrawlIssue` | make_data.py:97-102 | harvests the `issues` endpoint with `state=all` and the identity transform |
| `Pipeline.IdentityKeepsItems` | make_data.py:86 | with the identity transform the gathered results are the raw items of the pages, in page order |
| `Harvester.MapItems` | make_data.py:71 | `[func(el) for el in els]`, one result per item in item order; `IdentityKeepsItems` states its identity case |
| `Harvester.RaisesForStatus` | make_data.py:62 | `raise_for_status()` raises for the statuses 400-599; `HarvestFailsIff` states that the walk raises "Http Error" exactly on such a stop status other than 422 |
| `Pipeline.Identity` | make_data.py:86 | `lambda el: el`, the transform all three API crawlers pass; `IdentityKeepsItems` states that it keeps the raw items |
| `Pipeline.EndpointOf` | make_data.py:86-102 | the component and query each API crawler requests: `releases` with no query, `pulls` and `issues` with `state=all`; `CrawlRn`, `CrawlPr` and `CrawlIssue` state that each unit harvests its own |
| `Text.Split` | make_data.py:113 | `str.split` on one character yields at least one piece, and no piece holds the separator |
| `Text.JoinSplit` | make_data.py:113 | joining the pieces of a split with the separator restores the text |
| `Text.SplitJoin` | make_data.py:113 | splitting a join of separator-free pieces restores the pieces |
| `Text.SplitTrailingSep` | make_data.py:113 | a trailing newline adds exactly one empty last piece |
| `Text.Join` | make_data.py:153 | Python's `sep.join(parts)`; its contracts are `JoinSplit`, `SplitJoin` and `MessageSplitter.JoinLength` |
| `Text.DropLast` | make_data.py:113 | Python's `xs[:-1]`: every element but the last, nothing for an empty list; `LinesOfTerminatedOutput` and `LinesRoundTrip` state what it keeps of an output |
| `Text.Contains` | make_data.py:114 | `sub in s` holds iff `sub` occurs at some position of `s` |
| `Text.LeadingSpaces` | make_data.py:114 | counts exactly the whitespace run at the start of a string |
| `Text.TrailingSpaces` | make_data.py:114 | counts exactly the whitespace run at the end of a string |
| `Text.Strip` | make_data.py:114 | Python's `s.strip()`, used on branch names (line 114) and paragraph texts (line 151); its contracts are `StripSpec`, `StripTrimmed` and `StripIdempotent` |
| `Text.StripSpec` | make_data.py:114 | `strip()` returns the infix between the leading and trailing whitespace runs, and that infix neither starts nor ends with whitespace |
| `Text.StripTrimmed` | make_data.py:114 | a string that neither starts nor ends with whitespace is unchanged by `strip()` |
| `Text.StripIdempotent` | make_data.py:114 | stripping twice is stripping once |
| `Text.ReplaceChar` | make_data.py:108 | `replace` keeps the length and swaps exactly the occurrences of one character |
| `Paths.PathJoin` | make_data.py:109 | `os.path.join` of two parts on POSIX; its contract is `PathJoinSpec` |
| `Paths.PathJoinSpec` | make_data.py:109 | an absolute second part replaces the first; a relative one comes after the first part and at most one added character, which is a slash and is added exactly when the first part is non-empty and does not end with a slash; the result always ends with the second part |
| `CommitWalker.LinesOfTerminatedOutput` | make_data.py:113 | for newline-terminated output, dropping the last segment loses no line |
| `CommitWalker.Lines` | make_data.py:113 | `output.split('\n')[:-1]`, for the branch listing (line 113) and each `rev-list` (line 122); its contracts are `LinesOfTerminatedOutput` and `LinesRoundTrip` |
| `CommitWalker.LinesRoundTrip` | make_data.py:113 | no line holds a newline, and newline-terminated output is exactly its lines each followed by a newline, so `[:-1]` drops only the empty segment after the last newline |
| `CommitWalker.ParseBranches` | make_data.py:111-114 | output without a newline (such as the empty output of a failed `git branch -a`) yields no branch, because `[:-1]` drops the unterminated segment |
| `CommitWalker.KeepBranches` | make_data.py:114 | at most one branch per line, and exactly one per line when no line is a `HEAD ->` alias |
| `CommitWalker.KeepBranchesMembership` | make_data.py:114 | a name is a parsed branch iff some listing line without `HEAD ->` strips to it |
| `CommitWalker.ParsedBranchesStripped` | make_data.py:114 | every parsed branch name is already stripped |
| `CommitWalker.KeepBranchesAppend` | make_data.py:114 | parsing keeps listing order: two blocks of lines parse to the concatenation of their branches |
| `CommitWalker.WalkedBranches` | make_data.py:116 | `all_branches[1:]`: every parsed branch but the first, in listing order |
| `CommitWalker.ShasOf` | make_data.py:120-123 | the shas one `git rev-list` contributes are its output lines, none of which holds a newline |
| `CommitWalker.ShaUnion` | make_data.py:115-123 | the shas of every walked branch end up in the set; `InShaUnion` gives the converse |
| `CommitWalker.ReachableShas` | make_data.py:115-125 | `all_commit_shas` after the loop: the union over the walked branches of the listing; `InShaUnion`, `FirstBranchNotWalked` and `CrawlCommits` state which shas it holds |
| `CommitWalker.CollectShas` | make_data.py:115-125 | the sha set after the loop is the union over the walked branches of the shas each successful `rev-list` printed |
| `CommitWalker.RecordsOf` | make_data.py:126-139 | one record per sha of the set: no sha twice, as many records as shas, each built from that sha's metadata |
| `CommitWalker.DistinctShaCount` | make_data.py:128-139 | records with pairwise distinct shas are exactly as many as their shas |
| `CommitWalker.MakeRecord` | make_data.py:130-138 | the record dict of one commit: message, sha, author, commit time and committer from its metadata; `RecordsOf` and `CrawlCommits` state that every record is built this way from its own sha |
| `CommitWalker.CrawlCommits` | make_data.py:105-141 | raises (empty message) iff the mirror folder is missing, pygit2 being assumed not to raise; otherwise one record per distinct sha reachable from the walked branches, with no duplicates |
| `CommitWalker.ShaUnionAppend` | make_data.py:116-123 | walking `a` then `b` collects the union of both walks |
| `CommitWalker.InShaUnion` | make_data.py:116-125 | a sha is collected iff some walked branch's `rev-list` succeeded and printed it |
| `CommitWalker.FailingBranchSkipped` | make_data.py:117-125 | a branch whose `rev-list` raises changes nothing for the other branches |
| `CommitWalker.FirstBranchNotWalked` | make_data.py:116 | a sha that only the first parsed branch lists is absent from the result |
| `CommitWalker.CommitRecordedOnce` | make_data.py:115-139 | a sha printed by any walked branch (one several branches share included) has exactly one record among records that cover the sha set without repetition, as `CrawlCommits` returns them |
| `MessageSplitter.CmSplitter` | make_data.py:144-157 | summary and description are both `None` or both present; `None` exactly when rendering failed or found no paragraph; the summary is the stripped first paragraph; one paragraph gives description `""` |
| `MessageSplitter.Paragraphs` | make_data.py:151 | one text per `<p>`, each neither starting nor ending with whitespace |
| `MessageSplitter.SplitReassembles` | make_data.py:152-153 | joining all paragraphs with `"<.> "` gives summary, separator and description: nothing is lost |
| `MessageSplitter.JoinLength` | make_data.py:153 | a join is as long as its parts plus one separator between each two neighbours |
| `MessageSplitter.DescriptionLength` | make_data.py:153 | with n ≥ 2 paragraphs the description holds paragraphs 2 … n and n - 2 separators |
| `MessageSplitter.TwoParagraphExample` | make_data.py:151-155 | the paragraphs "Fix bug" and "This fixes a crash." split into that summary and that description |
| `MessageSplitter.EmptyMessage` | make_data.py:152-157 | a message without paragraphs gives `(None, None)` |
| `Paths.FolderToken` | make_data.py:174 | the folder token keeps length, holds no `/`, and keeps every other character |
| `Paths.FolderTokenInjective` | make_data.py:174-176 | two `owner/name` identifiers with the same folder token are equal |
| `Paths.TokenCollision` | make_data.py:174 | without the owner-name rule, `a_b/c` and `a/b_c` share one folder |
| `Paths.DistinctFoldersDistinctFiles` | make_data.py:176-179 | files in two different folders of one directory have different paths |
| `Paths.ArtifactsDisjoint` | make_data.py:176-179 | two distinct repositories never have a table at the same path |
| `Paths.FolderIsNotArtifact` | make_data.py:176-179 | a repository's data folder is never the table of any repository |
| `Paths.DataFolder` | make_data.py:176 | `ROOTDIR/data/<token>`, the per-repository output folder; its contract is `Layout` |
| `Paths.DataDir` | make_data.py:176-178 | `ROOTDIR/data`, the parent whose absence makes `os.mkdir` of the data folder fail; `Layout` gives its shape and `FolderAfterRun` states its role |
| `Paths.Artifact` | make_data.py:179 | a table inside the repository's folder; its contract is `Layout` |
| `Paths.MirrorFolder` | make_data.py:109 | `ROOTDIR/repos/<token>`, the local mirror; its contract is `Layout` |
| `Paths.Layout` | make_data.py:174-179 | the data folder is the data directory, a slash and the token; a table path is that folder, a slash and the table name; the mirror is the `repos` directory, a slash and the token |
| `Pipeline.FileSystem.EnsureFolder` | make_data.py:176-178 | the folder exists afterwards unless it was missing along with its parent; then `FileNotFoundError` and nothing changes |
| `Pipeline.NoSuchFile` | make_data.py:178 | the message of the `FileNotFoundError` `os.mkdir` raises for a folder whose parent is missing; `EnsureFolder` states when it is raised |
| `Pipeline.HarvestError` | make_data.py:183-233 | the exception a harvesting step raises: for commits only the empty `AssertionError` of a missing mirror or `KeyError('message')`; for the API units only "Timeout Error" or "Http Error" |
| `Pipeline.RunUnit` | make_data.py:171-193 | one call of a unit: make the folder or raise `FileNotFoundError`, skip when an API unit's table exists, otherwise harvest and write or raise; its properties are the lemmas below |
| `Pipeline.RunUnitFootprint` | make_data.py:176-190 | a call adds at most the repository's folder and its own table, and a call that harvested without raising leaves its table |
| `Pipeline.Unit.Name` | make_data.py:49 | `func.__name__` of each unit, as the error line prints it; `UnitsKeepApart` states the four names differ |
| `Pipeline.Unit.ArtifactName` | make_data.py:179-269 | the table each unit writes: `rn_info.csv` (line 179), `commit.csv` (204), `pr_info.csv` (244) and `issue_info.csv` (269); `UnitsKeepApart` states that no two units share a table |
| `Pipeline.Unit.SkipsWhenDone` | make_data.py:181-207 | the skip check is present for releases, pull requests and issues (lines 181-182, 246-247, 272-273) and commented out for commits (205-207); `SkipIfDone` and `CommitsAlwaysHarvest` state its effect |
| `Pipeline.UnitsKeepApart` | make_data.py:179-269 | the four units of one repository write four different table paths, and their function names differ |
| `Pipeline.FileSystem.BuildApiInfo` | make_data.py:171-193 | one API unit call changes the filesystem and raises exactly as `RunUnit` says |
| `Pipeline.FileSystem.BuildRnInfo` | make_data.py:171-193 | `build_rn_info` is `RunUnit` for the release table |
| `Pipeline.FileSystem.BuildPrInfo` | make_data.py:236-258 | `build_pr_info` is `RunUnit` for the pull-request table |
| `Pipeline.FileSystem.BuildIssueInfo` | make_data.py:261-283 | `build_issue_info` is `RunUnit` for the issue table |
| `Pipeline.FileSystem.BuildCmInfo` | make_data.py:196-233 | `build_cm_info` is `RunUnit` for the commit table; on success it writes one row per distinct reachable commit, its message split by `cm_spliter` |
| `Pipeline.RowOf` | make_data.py:214-224 | one row of `commit_df`: `cm_spliter` of the rendered message beside the commit's sha, author, committer and commit time; `BuildCmInfo` states the table it forms |
| `Pipeline.CommitTable` | make_data.py:214-224 | the rows `build_cm_info` writes: one per distinct reachable commit, each the `RowOf` of that commit's own record; `RowsOfCrawl` derives it from the records `crawl_cm` returns |
| `Pipeline.FolderAfterRun` | make_data.py:174-178 | a call never removes a path; afterwards the data folder exists iff it or `ROOTDIR/data` existed before |
| `Pipeline.SkipIfDone` | make_data.py:179-182 | an existing release, pull-request or issue table makes the call return without harvesting, writing or raising |
| `Pipeline.SecondRunIsNoOp` | make_data.py:179-273 | for each of the three API units (the skip checks at lines 179-182, 244-247 and 272-273), after a successful call a second call harvests nothing and changes nothing |
| `Pipeline.CommitsAlwaysHarvest` | make_data.py:204-210 | the commit unit harvests whenever its folder can be made, table or not |
| `Pipeline.FailureWritesNoTable` | make_data.py:183-193 | a call that raises adds no table, only possibly its folder |
| `Pipeline.OtherRepositoriesUntouched` | make_data.py:171-283 | a unit never adds or removes a table of another repository |
| `Batch.Trace` | make_data.py:44-46 | the calls of a batch: exactly one per repository |
| `Batch.TraceSpec` | make_data.py:44-46 | the first call runs on the initial filesystem, and every later call on the filesystem the call before it left |
| `Batch.ErrorLine` | make_data.py:48-49 | the line starts with `Repo <repo>`, ends with a newline, and is 37 characters longer than repository, message and function name together |
| `Batch.LogOf` | make_data.py:44-49 | at most one line per call, each ending with a newline |
| `Batch.TraverseRepos` | make_data.py:39-50 | the final filesystem is the last call's; the log grows by exactly the error lines of the calls that raised, in order |
| `Batch.Call` | make_data.py:46 | `func(repo)` for one of the four units changes the filesystem and raises as `RunUnit` says |
| `Batch.ErrorLog.Write` | make_data.py:48-49 | appending adds exactly one line at the end of the log |
| `Batch.TraceStep` | make_data.py:44-46 | the i-th call of a batch runs on the filesystem the calls before it left, and leaves the filesystem the next call sees |
| `Batch.LogStep` | make_data.py:47-49 | each call adds to the log its one error line if it raised, and nothing otherwise |
| `Batch.NoFailureNoLog` | make_data.py:45-46 | if no call raises, nothing is logged |
| `Batch.OneFailureOneLine` | make_data.py:47-49 | if exactly the k-th call raises, the log holds one line, naming the k-th repository, its message and the unit |
| `Batch.LogLength` | make_data.py:47-49 | the log has one line per call that raised, never more lines than repositories |
| `Batch.SecondOfThreeFails` | make_data.py:44-49 | with three repositories of which the second raises, the third is still run and one line names the second |

## Left out

- `crawl_repos` (the ranking-site scraper), `clone_repos` with `MyRemoteCallbacks` (a network clone), and `make_data`, whose body is all commented out.
- `organize_data.py` is not part of this model. It only re-sorts tables that were already harvested.
- Network, git and pygit2 calls are inputs. The server's pages, the text `git branch -a` and `git rev-list` print, and commit metadata are given values.
- `git rev-list` output: `os.popen` does not raise when git fails, it returns empty text (`Some("")` here). `None` stands for any exception inside the `try`.
- `requests.get` raising anything other than a timeout (a connection error, say) is left out. It would propagate out of `github_api` and the unit, and `traverse_repos` would log it.
- A JSON body that is not a list is left out. An object or a string is iterated by its keys or characters, and the walk ends when it has fewer than 100 of them. `null` or a number raises `TypeError`, which propagates.
- `GitHubApi` assumes the server's answers do not change while a batch runs.
- Markdown rendering and `<p>` extraction are left out: `World.render` gives the paragraph texts, or `None` when rendering raises.
- pandas frames and CSV writing: writing a table adds its path. A write failure is left out.
- Console output (`print`) and the opening and closing of `error_log.txt` are left out. The log is the list of lines written to it.
- `Text.StripSpec`: whitespace is the ASCII set of Python's `str.isspace()`. Unicode whitespace beyond ASCII is not modelled.
- `CommitWalker.CrawlCommits`: pygit2 is assumed never to raise. `pygit2.Repository(path)` on a folder that is not a git repository, or `revparse_single` on a sha it cannot resolve, would raise pygit2's own error; the model raises only the `AssertionError` of a missing folder.
- `CommitWalker.CrawlCommits`: a record's `sha` is the sha that `git rev-list` printed. This assumes pygit2's `revparse_single(sha).hex` gives back the same full sha. Author and committer signatures are strings.
- `traverse_repos` takes any function. Here it takes one of the four units; `clone_repos` is the other function the script passes, and it is left out.
