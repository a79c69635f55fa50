/**
 * The two rule sets, `analyzeRepo` and `analyzePR`: ordered heuristic checks over the replies of
 * the GitHub API that append findings to a list, followed by the scoring loop. The replies are
 * inputs (`Responses`); a request that fails carries the message of the error it throws.
 */
module RuleEngine {
  import opened Wrappers
  import opened JsString
  import opened JsNumber
  import opened Review
  import opened Scoring
  import opened Patterns

  /** What the rules read of `GET /repos/{owner}/{repo}`: whether `license` is set, and `open_issues_count`. */
  datatype RepoInfo = RepoInfo(hasLicense: bool, openIssuesCount: int)

  /** What the rules read of `GET /repos/{owner}/{repo}/pulls/{n}`. */
  datatype PrInfo = PrInfo(additions: int, deletions: int)

  /** One entry of `GET /repos/{owner}/{repo}/pulls/{n}/files`. */
  datatype FileDiff = FileDiff(filename: string, changes: int, patch: Option<string>)

  /** The replies to the requests a run makes for its target. `languages` holds the keys of the
    * language breakdown in their order; `filesRejectFirst` says which of the two pull-request
    * requests is the first to fail when both do. */
  datatype Responses = Responses(
    repository: Result<RepoInfo>,
    languages: Result<seq<string>>,
    readme: Result<()>,
    pull: Result<PrInfo>,
    pullFiles: Result<seq<FileDiff>>,
    filesRejectFirst: bool)

  const LARGE_PR_LINES := 800
  const LARGE_FILE_LINES := 400
  const MANY_OPEN_ISSUES := 100
  const TOP_LANGUAGES := 3

  /** `Promise.all` over two requests: both values, or the first rejection. */
  function Both<A, B>(a: Result<A>, b: Result<B>, bRejectsFirst: bool): (r: Result<(A, B)>)
    ensures r.Ok? <==> a.Ok? && b.Ok?
    ensures r.Ok? ==> r.value == (a.value, b.value)
    ensures r.Err? ==> (a.Err? && r.message == a.message) || (b.Err? && r.message == b.message)
  {
    if a.Ok? && b.Ok? then Ok((a.value, b.value))
    else if a.Err? && (b.Ok? || !bRejectsFirst) then Err(a.message)
    else Err(b.message)
  }

  /** `githubFetch(...languages).catch(() => ({}))`: a failed languages request counts as no language. */
  function LanguagesOrEmpty(languages: Result<seq<string>>): seq<string> {
    if languages.Ok? then languages.value else []
  }

  /** `langs.slice(0, 3)`. */
  function TopLanguages(langs: seq<string>): (r: seq<string>)
    ensures |r| <= TOP_LANGUAGES && |r| <= |langs| && r == langs[..|r|]
    ensures |r| == TOP_LANGUAGES || r == langs
  {
    if |langs| <= TOP_LANGUAGES then langs else langs[..TOP_LANGUAGES]
  }

  // ----- The findings the rules emit -----

  const NO_LICENSE := Finding(
    "GitHub MCP Agent", Quality, Medium, "No license detected",
    "This repository does not specify a license.", None, None,
    Some("Add an open-source license (e.g., MIT, Apache-2.0) to clarify usage rights."))

  const MISSING_README := Finding(
    "Repo Understanding Agent", Quality, Medium, "Missing README.md",
    "A README file was not found.", None, None,
    Some("Add a README with setup, usage, and contributing guidelines."))

  function TechStack(langs: seq<string>): Finding {
    Finding("Repo Understanding Agent", Architecture, Low, "Technology stack detected",
            "Top languages: " + Join(TopLanguages(langs), ", "), None, None, None)
  }

  function ManyOpenIssues(count: int): Finding {
    Finding("GitHub MCP Agent", Quality, Low, "High number of open issues",
            "There are " + IntToString(count) + " open issues. Consider triaging.", None, None, None)
  }

  function VeryLargePr(lines: int): Finding {
    Finding("Code Review Agent", Quality, High, "Very large PR",
            "This PR changes " + IntToString(lines) + " lines. Consider splitting into smaller PRs.",
            None, None, None)
  }

  const NO_TESTS_MODIFIED := Finding(
    "Unit Test Runner Agent", Testing, Medium, "No tests modified",
    "Source files changed but no tests were added or updated.", None, None,
    Some("Add or update tests to cover changed logic."))

  function SecretInDiff(filename: string): Finding {
    Finding("Code Review Agent", Security, Critical, "Potential secret in diff",
            "Potential credential-like pattern detected in " + filename, Some(filename), None,
            Some("Remove secrets from code and rotate credentials immediately."))
  }

  function LargeFileChange(filename: string, changes: int): Finding {
    Finding("Code Review Agent", Quality, Medium, "Large file change",
            filename + " has " + IntToString(changes) + " changed lines. Consider splitting changes.",
            Some(filename), None, None)
  }

  // ----- Repository rule set -----

  /** The findings of the repository rules, in rule order. */
  function RepoFindings(info: RepoInfo, langs: seq<string>, readmeFound: bool): seq<Finding> {
    (if !info.hasLicense then [NO_LICENSE] else [])
    + (if !readmeFound then [MISSING_README] else [])
    + (if |langs| > 0 then [TechStack(langs)] else [])
    + (if info.openIssuesCount > MANY_OPEN_ISSUES then [ManyOpenIssues(info.openIssuesCount)] else [])
  }

  /** What `analyzeRepo` resolves to, or the message of the error it rejects with. */
  function RepoOutcome(rs: Responses): Result<Analysis> {
    match rs.repository
    case Err(m) => Err(m)
    case Ok(info) =>
      var fs := RepoFindings(info, LanguagesOrEmpty(rs.languages), rs.readme.Ok?);
      Ok(Analysis(fs, ScoreOf(fs)))
  }

  method AnalyzeRepo(rs: Responses) returns (r: Result<Analysis>)
    ensures r == RepoOutcome(rs)
  {
    var fetched := Both(rs.repository, Ok(LanguagesOrEmpty(rs.languages)), false);
    if fetched.Err? {
      return Err(fetched.message);
    }
    var (repoInfo, languages) := fetched.value;
    var results: seq<Finding> := [];
    if !repoInfo.hasLicense {
      results := results + [NO_LICENSE];
    }
    if rs.readme.Err? {
      results := results + [MISSING_README];
    }
    if |languages| > 0 {
      results := results + [TechStack(languages)];
    }
    if repoInfo.openIssuesCount > MANY_OPEN_ISSUES {
      results := results + [ManyOpenIssues(repoInfo.openIssuesCount)];
    }
    assert results == RepoFindings(repoInfo, languages, rs.readme.Ok?);
    var score := ComputeScore(results);
    return Ok(Analysis(results, score));
  }

  // ----- Pull-request rule set -----

  /** `files.filter(f => /test|spec/i.test(f.filename)).length`. */
  function TestFileCount(files: seq<FileDiff>): nat
    decreases |files|
  {
    if files == [] then 0
    else TestFileCount(files[..|files| - 1]) + (if IsTestFile(files[|files| - 1].filename) then 1 else 0)
  }

  /** `files.filter(f => /\.(ts|…|java)$/i.test(f.filename))`. */
  function SourceFiles(files: seq<FileDiff>): (r: seq<FileDiff>)
    ensures forall f :: f in r <==> f in files && IsSourceFile(f.filename)
    decreases |files|
  {
    if files == [] then []
    else
      var last := files[|files| - 1];
      assert files == files[..|files| - 1] + [last];
      SourceFiles(files[..|files| - 1]) + (if IsSourceFile(last.filename) then [last] else [])
  }

  /** The condition of the "No tests modified" rule. */
  predicate NeedsTests(files: seq<FileDiff>) {
    |SourceFiles(files)| > 0 && TestFileCount(files) == 0
  }

  /** The rules that look at the pull request as a whole: its size, then its tests. */
  function HeaderFindings(pr: PrInfo, files: seq<FileDiff>): seq<Finding> {
    (if pr.additions + pr.deletions > LARGE_PR_LINES then [VeryLargePr(pr.additions + pr.deletions)] else [])
    + (if NeedsTests(files) then [NO_TESTS_MODIFIED] else [])
  }

  /** `f.patch && secretRegex.test(f.patch)`: the patch is there, not empty, and matches. */
  predicate LeaksSecret(f: FileDiff) {
    f.patch.Some? && f.patch.value != [] && HasSecret(f.patch.value)
  }

  /** The findings of one file: a possible secret, then a large change. */
  function FileFindings(f: FileDiff): seq<Finding> {
    (if LeaksSecret(f) then [SecretInDiff(f.filename)] else [])
    + (if f.changes > LARGE_FILE_LINES then [LargeFileChange(f.filename, f.changes)] else [])
  }

  /** The findings of the files, file after file in the given order. */
  function PerFileFindings(files: seq<FileDiff>): seq<Finding>
    decreases |files|
  {
    if files == [] then [] else PerFileFindings(files[..|files| - 1]) + FileFindings(files[|files| - 1])
  }

  function PrFindings(pr: PrInfo, files: seq<FileDiff>): seq<Finding> {
    HeaderFindings(pr, files) + PerFileFindings(files)
  }

  /** What `analyzePR` resolves to, or the message of the error it rejects with. Without a
    * pull-request number (absent, or 0) nothing is fetched and nothing found. */
  function PrOutcome(prNumber: Option<int>, rs: Responses): Result<Analysis> {
    if prNumber.None? || prNumber.value == 0 then Ok(Analysis([], BASE_SCORE))
    else
      match Both(rs.pull, rs.pullFiles, rs.filesRejectFirst)
      case Err(m) => Err(m)
      case Ok((pr, files)) =>
        var fs := PrFindings(pr, files);
        Ok(Analysis(fs, ScoreOf(fs)))
  }

  /** The callback of `files.forEach`: the secret check, then the size check, each appending its finding. */
  method AppendOneFile(results: seq<Finding>, f: FileDiff) returns (out: seq<Finding>)
    ensures out == results + FileFindings(f)
  {
    out := results;
    if f.patch.Some? && f.patch.value != [] && HasSecret(f.patch.value) {
      out := out + [SecretInDiff(f.filename)];
    }
    if f.changes > LARGE_FILE_LINES {
      out := out + [LargeFileChange(f.filename, f.changes)];
    }
  }

  lemma PerFileFindingsStep(files: seq<FileDiff>, i: nat)
    requires i < |files|
    ensures PerFileFindings(files[..i + 1]) == PerFileFindings(files[..i]) + FileFindings(files[i])
  {
    assert files[..i + 1][..i] == files[..i];
  }

  /** `files.forEach(...)`: for each file in order, its findings are appended to `results`. */
  method AppendFileFindings(results: seq<Finding>, files: seq<FileDiff>) returns (out: seq<Finding>)
    ensures out == results + PerFileFindings(files)
  {
    out := results;
    assert files[..0] == [] && out + PerFileFindings([]) == out;
    var i := 0;
    while i < |files|
      invariant 0 <= i <= |files|
      invariant out == results + PerFileFindings(files[..i])
    {
      out := AppendOneFile(out, files[i]);
      PerFileFindingsStep(files, i);
      AppendAssoc(results, PerFileFindings(files[..i]), FileFindings(files[i]));
      i := i + 1;
    }
    assert files[..|files|] == files;
  }

  method AnalyzePR(prNumber: Option<int>, rs: Responses) returns (r: Result<Analysis>)
    ensures r == PrOutcome(prNumber, rs)
  {
    var results: seq<Finding> := [];
    if prNumber.None? || prNumber.value == 0 {
      return Ok(Analysis(results, BASE_SCORE));
    }
    var fetched := Both(rs.pull, rs.pullFiles, rs.filesRejectFirst);
    if fetched.Err? {
      return Err(fetched.message);
    }
    var (prInfo, files) := fetched.value;
    if prInfo.additions + prInfo.deletions > LARGE_PR_LINES {
      results := results + [VeryLargePr(prInfo.additions + prInfo.deletions)];
    }
    var changedTestFiles := TestFileCount(files);
    var changedSourceFiles := SourceFiles(files);
    if |changedSourceFiles| > 0 && changedTestFiles == 0 {
      results := results + [NO_TESTS_MODIFIED];
    }
    assert results == HeaderFindings(prInfo, files);
    results := AppendFileFindings(results, files);
    var score := ComputeScore(results);
    return Ok(Analysis(results, score));
  }
}
