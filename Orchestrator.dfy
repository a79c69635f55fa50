/**
 * The outcome of a review run: the URL is parsed, the rule set for the requested kind of review
 * runs against the GitHub replies, and a failure falls back to one fixed finding with a fixed
 * score — 60 for a URL that does not name a repository, 50 for an error of the GitHub API. The
 * animation timers between the steps and the React state the outcome is stored in are not modelled.
 */
module Orchestrator {
  import opened Wrappers
  import opened Review
  import opened Scoring
  import opened UrlParser
  import opened RuleEngine
  import opened RuleFacts

  const INVALID_URL_SCORE := 60
  const API_ERROR_SCORE := 50

  const INVALID_URL := Finding(
    "Interface Agent", Quality, Medium, "Invalid GitHub URL",
    "Please provide a valid https://github.com/owner/repo or PR URL.", None, None, None)

  /** The finding that replaces all others when a required request fails with `message`. */
  function ApiError(message: string): Finding {
    Finding("GitHub MCP Agent", Quality, High, "GitHub API error", message, None, None, None)
  }

  /** The rule set that the requested kind of review runs on the parsed target. */
  function Analyze(target: Target, kind: AnalysisType, rs: Responses): Result<Analysis> {
    match kind
    case Repo => RepoOutcome(rs)
    case Pr => PrOutcome(target.prNumber, rs)
  }

  /** What a run ends with: the invalid-URL fallback, the API-error fallback, or the analysis. */
  function RunOutcome(url: UrlInput, kind: AnalysisType, rs: Responses): Analysis {
    match ParseGithubUrl(url)
    case None => Analysis([INVALID_URL], INVALID_URL_SCORE)
    case Some(target) =>
      match Analyze(target, kind, rs)
      case Err(m) => Analysis([ApiError(m)], API_ERROR_SCORE)
      case Ok(a) => a
  }

  /** A required request of the run failed: the repository request of a repository review, or
    * one of the two pull-request requests of a review of a numbered pull request. */
  predicate RequiredFetchFails(target: Target, kind: AnalysisType, rs: Responses) {
    match kind
    case Repo => rs.repository.Err?
    case Pr => target.prNumber.Some? && target.prNumber.value != 0 && (rs.pull.Err? || rs.pullFiles.Err?)
  }

  /** The steps of `run` after the URL is known: parse, analyse, and catch a failed request. */
  method Run(url: UrlInput, kind: AnalysisType, rs: Responses) returns (a: Analysis)
    ensures a == RunOutcome(url, kind, rs)
  {
    var parsed := ParseGithubUrl(url);
    if parsed.None? {
      return Analysis([INVALID_URL], INVALID_URL_SCORE);
    }
    var analysis: Result<Analysis>;
    if kind == Repo {
      analysis := AnalyzeRepo(rs);
    } else {
      analysis := AnalyzePR(parsed.value.prNumber, rs);
    }
    if analysis.Err? {
      return Analysis([ApiError(analysis.message)], API_ERROR_SCORE);
    }
    a := analysis.value;
  }

  // ----- Lemmas -----

  /** Neither fallback finding carries the title of a rule's finding. */
  lemma FallbackTitles(m: string)
    ensures INVALID_URL.title !in RULE_TITLES && ApiError(m).title !in RULE_TITLES
  {
  }

  /** The rule sets fail exactly when a required request fails, with the message of a failed one. */
  lemma AnalyzeFails(target: Target, kind: AnalysisType, rs: Responses)
    ensures Analyze(target, kind, rs).Err? <==> RequiredFetchFails(target, kind, rs)
    ensures Analyze(target, kind, rs).Err? ==>
      var m := Analyze(target, kind, rs).message;
      match kind
      case Repo => m == rs.repository.message
      case Pr => (rs.pull.Err? && m == rs.pull.message) || (rs.pullFiles.Err? && m == rs.pullFiles.message)
  {
  }

  /** A successful analysis holds only findings of the rules, scored by the scoring loop. */
  lemma AnalyzeFindings(target: Target, kind: AnalysisType, rs: Responses)
    requires Analyze(target, kind, rs).Ok?
    ensures var a := Analyze(target, kind, rs).value;
      && (forall g :: g in a.findings ==> g.title in RULE_TITLES)
      && a.score == ScoreOf(a.findings)
  {
    var a := Analyze(target, kind, rs).value;
    if kind == Repo {
      RepoTitles(rs.repository.value, LanguagesOrEmpty(rs.languages), rs.readme.Ok?);
    } else if target.prNumber.Some? && target.prNumber.value != 0 {
      var both := Both(rs.pull, rs.pullFiles, rs.filesRejectFirst);
      PrTitles(both.value.0, both.value.1);
    }
  }

  /** The invalid-URL fallback is reported exactly when the URL does not name a repository on
    * `github.com`, and then it is the whole outcome. */
  lemma InvalidUrlFallback(url: UrlInput, kind: AnalysisType, rs: Responses)
    ensures INVALID_URL in RunOutcome(url, kind, rs).findings <==> ParseGithubUrl(url).None?
    ensures ParseGithubUrl(url).None? ==> RunOutcome(url, kind, rs) == Analysis([INVALID_URL], 60)
  {
    if ParseGithubUrl(url).Some? && Analyze(ParseGithubUrl(url).value, kind, rs).Ok? {
      AnalyzeFindings(ParseGithubUrl(url).value, kind, rs);
      FallbackTitles("");
    }
  }

  /** The API-error fallback is reported exactly when the URL names a repository and a required
    * request fails. */
  lemma ApiErrorFallback(url: UrlInput, kind: AnalysisType, rs: Responses)
    ensures (exists m :: ApiError(m) in RunOutcome(url, kind, rs).findings) <==>
            ParseGithubUrl(url).Some? && RequiredFetchFails(ParseGithubUrl(url).value, kind, rs)
  {
    var parsed := ParseGithubUrl(url);
    if parsed.Some? && RequiredFetchFails(parsed.value, kind, rs) {
      ApiErrorOutcome(url, kind, rs);
      var m := Analyze(parsed.value, kind, rs).message;
      assert ApiError(m) in RunOutcome(url, kind, rs).findings;
    } else {
      NoApiError(url, kind, rs);
    }
  }

  /** Without a failed required request, no finding is titled "GitHub API error". */
  lemma NoApiError(url: UrlInput, kind: AnalysisType, rs: Responses)
    requires !(ParseGithubUrl(url).Some? && RequiredFetchFails(ParseGithubUrl(url).value, kind, rs))
    ensures forall g :: g in RunOutcome(url, kind, rs).findings ==> g.title != ApiError("").title
  {
    var parsed := ParseGithubUrl(url);
    if parsed.Some? {
      AnalyzeFails(parsed.value, kind, rs);
      AnalyzeFindings(parsed.value, kind, rs);
      FallbackTitles("");
    }
  }

  /** The API-error fallback carries the message of a failed request, replaces every finding, and
    * scores 50. */
  lemma ApiErrorOutcome(url: UrlInput, kind: AnalysisType, rs: Responses)
    requires ParseGithubUrl(url).Some? && RequiredFetchFails(ParseGithubUrl(url).value, kind, rs)
    ensures var m := Analyze(ParseGithubUrl(url).value, kind, rs).message;
            && RunOutcome(url, kind, rs) == Analysis([ApiError(m)], 50)
            && ((rs.repository.Err? && m == rs.repository.message) || (rs.pull.Err? && m == rs.pull.message)
                || (rs.pullFiles.Err? && m == rs.pullFiles.message))
  {
    AnalyzeFails(ParseGithubUrl(url).value, kind, rs);
  }

  /** Whatever happens, the score of a run lies between 0 and 90. */
  lemma RunScoreRange(url: UrlInput, kind: AnalysisType, rs: Responses)
    ensures 0 <= RunOutcome(url, kind, rs).score <= BASE_SCORE
  {
    var parsed := ParseGithubUrl(url);
    if parsed.Some? && Analyze(parsed.value, kind, rs).Ok? {
      AnalyzeFindings(parsed.value, kind, rs);
    }
  }

  /** A failed languages request reads as a repository without languages. */
  lemma LanguagesFailure(url: UrlInput, kind: AnalysisType, rs: Responses, m: string)
    ensures RunOutcome(url, kind, rs.(languages := Err(m))) == RunOutcome(url, kind, rs.(languages := Ok([])))
  {
  }

  /** A failed README request only lowers the score, never raises it. */
  lemma ReadmeFailureScore(url: UrlInput, kind: AnalysisType, rs: Responses, m: string)
    ensures RunOutcome(url, kind, rs.(readme := Err(m))).score <= RunOutcome(url, kind, rs.(readme := Ok(()))).score
  {
    var parsed := ParseGithubUrl(url);
    if parsed.Some? && kind == Repo && rs.repository.Ok? {
      var info, langs := rs.repository.value, LanguagesOrEmpty(rs.languages);
      RepoScore(info, langs, false);
      RepoScore(info, langs, true);
    }
  }

  /** A failed README request in a repository review whose repository request succeeds adds the
    * "Missing README.md" finding and causes no fallback. */
  lemma ReadmeFailureFindings(url: UrlInput, rs: Responses, m: string)
    requires ParseGithubUrl(url).Some? && rs.repository.Ok?
    ensures var fs := RunOutcome(url, Repo, rs.(readme := Err(m))).findings;
      && MISSING_README in fs
      && forall g :: g in fs ==> g.title in RULE_TITLES
  {
    var info, langs := rs.repository.value, LanguagesOrEmpty(rs.languages);
    RepoRules(info, langs, false);
    RepoTitles(info, langs, false);
  }

  /** A review of a pull request asked for on a URL without a pull-request number finds nothing
    * and scores 90. */
  lemma PrReviewWithoutNumber(url: UrlInput, rs: Responses)
    requires ParseGithubUrl(url).Some? && ParseGithubUrl(url).value.prNumber.None?
    ensures RunOutcome(url, Pr, rs) == Analysis([], BASE_SCORE)
  {
  }

  /** A repository review reads only the repository, languages and README replies; a pull-request
    * review reads only the two pull-request replies. */
  lemma RunReadsOnlyItsReplies(url: UrlInput, rs: Responses, other: Responses)
    ensures other.repository == rs.repository && other.languages == rs.languages && other.readme == rs.readme
            ==> RunOutcome(url, Repo, other) == RunOutcome(url, Repo, rs)
    ensures other.pull == rs.pull && other.pullFiles == rs.pullFiles && other.filesRejectFirst == rs.filesRejectFirst
            ==> RunOutcome(url, Pr, other) == RunOutcome(url, Pr, rs)
  {
  }

  /** A run on the web page of a well-formed target analyses that target. */
  lemma RunOnTargetPage(t: Target, kind: AnalysisType, rs: Responses)
    requires WellFormed(t)
    requires !RequiredFetchFails(t, kind, rs)
    ensures RunOutcome(Url(GITHUB_HOST, TargetPath(t)), kind, rs) == Analyze(t, kind, rs).value
  {
    ParseTargetPath(t);
    AnalyzeFails(t, kind, rs);
  }
}
