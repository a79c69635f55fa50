# Review engine of the multi-agent code review front end

This Dafny project models the part of the code review application that decides what a review
finds. Rendering and animation are not modelled. The modelled parts are:

- **URL parsing** (`parseGithubUrl`). It turns a GitHub URL into an owner, a repository name and,
  for a pull-request URL, a pull-request number. It uses JavaScript's `split`, `filter(Boolean)`
  and `parseInt(s, 10)`, which are modelled in `JsString` and `JsNumber` (except number
  precision, see "Left out").
- **Repository rule set** (`analyzeRepo`). Four ordered checks: license, README, languages and
  open issues. Each pushes a finding onto a list.
- **Pull-request rule set** (`analyzePR`). Two checks on the pull request as a whole: its size,
  and whether tests were modified. Then a per-file loop checks for secrets in the patch and for
  large changes. The three regular expressions of this rule set are predicates in `Patterns`.
- **Scoring loop** that ends both rule sets. It starts at 90, deducts 25, 15, 8 or 2 for each
  critical, high, medium or low finding, and clamps the result to 0 to 100.
- **Outcome of a run** (`run`). The invalid-URL fallback (score 60), the API-error fallback
  (score 50), or the analysis of the requested kind.
- **Submit handler of the form** (`handleSubmit`). It rejects a blank URL or one that does not
  match the GitHub pattern. It submits any other URL unchanged, as a pull-request review exactly
  when the URL contains `/pull/`.

The rule sets are imperative in the source: a list grown by `push`, a `forEach` over the files,
and a `let score` updated in a `for` loop. They are methods here (`AnalyzeRepo`, `AnalyzePR`,
`AppendFileFindings`, `ComputeScore`). Each method is proved equal to a specification function
(`RepoOutcome`, `PrOutcome`, `PerFileFindings`, `ScoreOf`). What the rules promise is proved
about those functions in `RuleFacts`.

Replies of the GitHub API are inputs (`Responses`). A failed request carries the message its
error would have. `new URL` is an input too (`UrlInput`): it either failed or gave a host name and
a path.

The secret pattern `api[_-]?key` does not match `api key` written with a space
(`Patterns.ApiKeyWithSpaceIsNoSecret`).

## Model

| member | source | states |
|---|---|---|
| UrlParser.ParseGithubUrl | AgentOrchestration.tsx:31-47 | a target is returned iff the URL parses, the host is exactly `github.com`, there are at least two non-empty path segments, and it is not the case that the third segment is `pull` and the fourth does not read as a number; owner and repository are the first two segments; there is a pull-request number iff the third segment is `pull` and a fourth follows, and it is `parseInt` of the fourth |
| UrlParser.ParseTargetPath | AgentOrchestration.tsx:31-47 | round trip: parsing the `github.com` page path of any well-formed target, with or without a pull-request number, gives that target back |
| UrlParser.ParsePullPath | AgentOrchestration.tsx:38-41 | `/owner/repo/pull/<n>` gives pull-request number `n`, negative numbers included |
| UrlParser.ParsePullSegments | AgentOrchestration.tsx:37-41 | `/owner/repo/pull/<num>/...` gives pull-request number `n` whenever `parseInt` reads `num` as `n`, whatever segments follow the number |
| UrlParser.ParseIgnoresOtherPaths | AgentOrchestration.tsx:37-43 | anything after owner and repository, other than `pull/<segment>`, is ignored and there is no pull-request number |
| UrlParser.ParseRepositoryPath | AgentOrchestration.tsx:36-43 | a path with two or more segments and no `pull` third segment names the plain repository |
| UrlParser.ParseRefuses | AgentOrchestration.tsx:32-36 | an unparseable URL, another host, and a path of fewer than two segments (a trailing slash included) give no target |
| UrlParser.ParseRefusesBadNumber | AgentOrchestration.tsx:39-40 | a pull-request number segment without digits (`NaN`) gives no target |
| JsString.Trim | RepoForm.tsx:23 | `trim` gives the empty string exactly when the text is all white space |
| JsString.Split | AgentOrchestration.tsx:35 | `split` on one character gives pieces without the separator that join back to the text |
| JsString.SplitJoin | AgentOrchestration.tsx:35 | `split` undoes `join` when no piece holds the separator |
| JsString.NonEmpty | AgentOrchestration.tsx:35 | `filter(Boolean)` keeps exactly the non-empty strings and never lengthens the list |
| JsString.NonEmptyAppend | AgentOrchestration.tsx:35 | `filter(Boolean)` of a concatenation is the concatenation of the filtered parts, so it keeps order and repeats |
| JsString.NonEmptyOne | AgentOrchestration.tsx:35 | `filter(Boolean)` of one string keeps it iff it is non-empty |
| JsString.SegmentsOfPath | AgentOrchestration.tsx:35 | the segments of `/s1/.../sn` are exactly `s1 ... sn` |
| JsString.Contains | RepoForm.tsx:44 | `includes` holds iff the pattern occurs at some index |
| JsString.IndexOf | RepoForm.tsx:44 | the search returns the first index where the pattern occurs, or none when it occurs nowhere |
| JsNumber.ParseInt | AgentOrchestration.tsx:39 | `parseInt(s, 10)` is a number iff, after leading white space, the text starts with a digit or with a sign and a digit; without a minus sign the number is not negative |
| JsNumber.ParseIntDigitRun | AgentOrchestration.tsx:39 | text that starts with a run of digits reads as the run's value, after a `+` sign as well, and negated after a `-` sign |
| JsNumber.ParseIntReadsBack | AgentOrchestration.tsx:39 | `parseInt` reads back the decimal text of every integer, whatever non-digit text follows |
| JsNumber.ParseIntSkipsBlank | AgentOrchestration.tsx:39 | leading white space does not change what `parseInt` reads |
| JsNumber.ParseIntNoDigits | AgentOrchestration.tsx:39-40 | text without a decimal digit reads as `NaN` |
| JsNumber.NatToStringValue | AgentOrchestration.tsx:148 | the decimal text of a number is non-empty digits without a leading zero, and its value is the number |
| Scoring.ScoreOf | AgentOrchestration.tsx:119-127 | the score of any list of findings lies between 0 and 90 |
| Scoring.ComputeScore | AgentOrchestration.tsx:119-127 | the loop and the clamp compute exactly `ScoreOf` of the findings |
| Scoring.Clamp | AgentOrchestration.tsx:127 | the clamp lies in 0..100, leaves values in that range unchanged, sends negative values to 0 and values above 100 to 100 |
| Scoring.TotalDeductionAppend | AgentOrchestration.tsx:121-126 | deductions add up over a concatenation of finding lists |
| Scoring.CountSeverityAppend | AgentOrchestration.tsx:121-126 | counts per severity add up over a concatenation |
| Scoring.CountSeverityBound | AgentOrchestration.tsx:121-126 | a severity count is at most the list length, and zero when no finding has that severity |
| Scoring.DeductionByCounts | AgentOrchestration.tsx:121-126 | the deduction is 25, 15, 8 and 2 times the critical, high, medium and low counts, so order does not matter |
| Scoring.ScoreNeverRises | AgentOrchestration.tsx:120-127 | appending findings never raises the score, and strictly lowers a positive score |
| Scoring.ScoreFloor | AgentOrchestration.tsx:120-127 | the score is 90 less the deductions while they stay below 90, and 0 exactly when they reach 90 |
| Scoring.ScoreExamples | AgentOrchestration.tsx:120-127 | no findings score 90, one critical 65, one low 88, four criticals 0 |
| Patterns.IsTestFile | AgentOrchestration.tsx:153 | the case-insensitive test pattern matches a file name iff `test` or `spec`, in any case, occurs at some index |
| Patterns.TestWordAnywhere | AgentOrchestration.tsx:153 | `test` or `spec` in any mix of cases, anywhere in a name, makes it a test file |
| Patterns.IsSourceFile | AgentOrchestration.tsx:154 | a name that matches the extension pattern has a dot three to five characters from its end |
| Patterns.SourceFileByExtension | AgentOrchestration.tsx:154 | every name that ends with one of the eight extensions is a source file |
| Patterns.HasSecret | AgentOrchestration.tsx:168-170 | the secret pattern matches a patch iff one of its alternatives matches at some index |
| Patterns.SecretWordAnywhere | AgentOrchestration.tsx:168 | `apikey`, `api_key`, `api-key`, `secret` or `password` anywhere in a patch is a match |
| Patterns.SecretFrom | AgentOrchestration.tsx:168-170 | the scan finds a match iff some alternative of the secret pattern matches at some index |
| Patterns.BearerAtIff | AgentOrchestration.tsx:168 | the greedy reading of `bearer\s+[A-Za-z0-9._-]{20,}` agrees with the regular expression |
| Patterns.BearerNeedsTwentyChars | AgentOrchestration.tsx:168 | a bearer token matches iff it has at least twenty token characters |
| Patterns.ApiKeyWithSpaceIsNoSecret | AgentOrchestration.tsx:168 | `api key` with a space does not match the secret pattern |
| RuleEngine.Both | AgentOrchestration.tsx:136-139 | `Promise.all` of two requests succeeds iff both do, with the pair of their values in order; otherwise it fails with the message of a failed one |
| RuleEngine.TopLanguages | AgentOrchestration.tsx:104 | `slice(0, 3)` keeps a prefix of at most three languages, and keeps all when there are at most three |
| RuleEngine.AnalyzeRepo | AgentOrchestration.tsx:62-130 | the repository rule set returns `RepoOutcome`: the repository request's error, or the rule findings and their score |
| RuleEngine.SourceFiles | AgentOrchestration.tsx:154 | the filter keeps exactly the files whose names have a source extension |
| RuleEngine.AppendOneFile | AgentOrchestration.tsx:169-191 | one pass of the `forEach` callback appends that file's findings (secret, then size) |
| RuleEngine.AppendFileFindings | AgentOrchestration.tsx:169-192 | the `forEach` appends the findings of the files in file order |
| RuleEngine.AnalyzePR | AgentOrchestration.tsx:132-205 | the pull-request rule set returns `PrOutcome`: 90 with no findings without a number, the first rejection of the two requests, or the findings and their score |
| RuleFacts.RepoRules | AgentOrchestration.tsx:70-117 | each repository rule emits its finding exactly when its condition holds; at most four findings, in rule order |
| RuleFacts.RepoScore | AgentOrchestration.tsx:70-127 | the repository score is 90 less 8 per missing license or README and 2 per language summary or issue warning, so it is at least 70 |
| RuleFacts.RepoExample | AgentOrchestration.tsx:62-130 | a repository without license or README, with two languages and more than 100 open issues, gets the four findings in rule order, lists both languages in order, and scores 70 |
| RuleFacts.RepoTitles | AgentOrchestration.tsx:70-117 | every repository finding carries one of the rule titles |
| RuleFacts.NoTestFiles | AgentOrchestration.tsx:153 | the test-file count is zero iff no file name contains `test` or `spec` in any case |
| RuleFacts.NeedsTestsIff | AgentOrchestration.tsx:153-156 | "No tests modified" fires iff some file has a source extension and no file looks like a test |
| RuleFacts.OneFileFacts | AgentOrchestration.tsx:169-192 | a file adds at most two findings, each naming the file, one critical iff the patch leaks, deducting 25 per leak and 8 per large change |
| RuleFacts.PerFileScope | AgentOrchestration.tsx:169-192 | the loop adds at most two findings per file, each naming a file of the pull request |
| RuleFacts.PerFileDeduction | AgentOrchestration.tsx:169-202 | the loop adds one critical finding per leaking file and deducts 25 per leaking and 8 per large file |
| RuleFacts.PrRules | AgentOrchestration.tsx:141-165 | "Very large PR" fires iff more than 800 lines change and is then first; "No tests modified" fires iff tests are needed |
| RuleFacts.PrScope | AgentOrchestration.tsx:141-192 | exactly the leading whole-PR findings name no file, and there are at most 2 + 2 per file findings |
| RuleFacts.PrDeduction | AgentOrchestration.tsx:141-202 | the critical count is the number of leaking files; the deduction is 15, 8, 25 per leak and 8 per large file |
| RuleFacts.PrScore | AgentOrchestration.tsx:194-202 | the pull-request score is 90 less those deductions, clamped at 0 |
| RuleFacts.PrTitles | AgentOrchestration.tsx:141-192 | every pull-request finding carries one of the rule titles |
| RuleFacts.PerFileTitles | AgentOrchestration.tsx:169-192 | every finding of the per-file loop carries one of the rule titles |
| RuleFacts.AppTsIsUntestedSource | AgentOrchestration.tsx:153-154 | `app.ts` has a source extension and does not look like a test file |
| RuleFacts.SecretWordLeaks | AgentOrchestration.tsx:168-170 | a patch that mentions `secret` leaks a secret |
| RuleFacts.LeakyPrFindings | AgentOrchestration.tsx:141-192 | over 800 lines and one untested, leaking, small source file give three findings in rule order |
| RuleFacts.LeakyPrScore | AgentOrchestration.tsx:194-202 | that pull request scores 90 - 15 - 8 - 25 = 42 |
| RuleFacts.LeakyPr | AgentOrchestration.tsx:132-205 | end to end, that numbered pull request resolves to those three findings and 42, whatever the other replies |
| Orchestrator.Run | AgentOrchestration.tsx:260-313 | the run's steps (parse, analyse, catch) end in `RunOutcome` |
| Orchestrator.AnalyzeFails | AgentOrchestration.tsx:281-283 | the chosen rule set fails iff a required request fails, and with that request's message |
| Orchestrator.AnalyzeFindings | AgentOrchestration.tsx:281-286 | a successful analysis holds only rule findings and is scored by the scoring loop |
| Orchestrator.InvalidUrlFallback | AgentOrchestration.tsx:265-278 | the invalid-URL finding is reported iff the URL does not name a repository; then it is the whole outcome, with score 60 |
| Orchestrator.ApiErrorFallback | AgentOrchestration.tsx:299-311 | some "GitHub API error" finding is reported iff the URL names a repository and a required request fails |
| Orchestrator.ApiErrorOutcome | AgentOrchestration.tsx:299-311 | the API-error fallback replaces every finding, scores 50, and carries the message of a failed request |
| Orchestrator.NoApiError | AgentOrchestration.tsx:299-311 | without a failed required request, no finding is titled "GitHub API error" |
| Orchestrator.FallbackTitles | AgentOrchestration.tsx:265-311 | neither fallback finding carries the title of a rule's finding |
| Orchestrator.RunScoreRange | AgentOrchestration.tsx:260-313 | every run scores between 0 and 90 |
| Orchestrator.LanguagesFailure | AgentOrchestration.tsx:65 | a failed languages request is the same as an empty language list |
| Orchestrator.ReadmeFailureScore | AgentOrchestration.tsx:83-94 | a failed README request never raises the score |
| Orchestrator.ReadmeFailureFindings | AgentOrchestration.tsx:83-94 | a failed README request adds "Missing README.md" and causes no fallback |
| Orchestrator.PrReviewWithoutNumber | AgentOrchestration.tsx:134 | a pull-request review of a URL without a pull-request number finds nothing and scores 90 |
| Orchestrator.RunReadsOnlyItsReplies | AgentOrchestration.tsx:281-283 | a repository review depends only on its three replies; a pull-request review only on its two |
| Orchestrator.RunOnTargetPage | AgentOrchestration.tsx:265-286 | a run on a well-formed target's page with no failed request is that target's analysis |
| RepoForm.HandleSubmit | RepoForm.tsx:20-48 | a blank URL is rejected as "URL Required"; a non-blank URL not matching the pattern as "Invalid URL"; any other URL is submitted unchanged, as a pull-request review iff it contains `/pull/` |
| RepoForm.GithubPatternIff | RepoForm.tsx:33-34 | the greedy matcher agrees with the regular expression `^https://github\.com/[\w-]+/[\w.-]+` |
| RepoForm.PatternIsNotBlank | RepoForm.tsx:23-41 | a URL that matches the pattern is never blank, so at most one notice is shown |
| RepoForm.PatternIgnoresTail | RepoForm.tsx:33 | the pattern is anchored only at the start: any text may follow a matching URL |
| RepoForm.RepositoryMatches | RepoForm.tsx:33-34 | `https://github.com/<owner>/<repo>` with word-character names matches the pattern |
| RepoForm.RepositoryUrl | RepoForm.tsx:44 | such a URL holds no `/pull/` unless the owner is called `pull` |
| RepoForm.SubmitsRepositoryUrl | RepoForm.tsx:20-48 | such a URL is submitted unchanged as a repository review |
| RepoForm.SubmitsPullUrl | RepoForm.tsx:44-47 | the same URL followed by `/pull/` and anything is submitted as a pull-request review |

## Left out

- `githubFetch` (AgentOrchestration.tsx:49-60) is left out: the token lookup, `fetch` and JSON decoding are I/O. Each reply is an input that succeeded or failed. A failed reply carries its error's message: `"GitHub API error " + status` for a non-ok status, or the message of a network or JSON failure.
- The catch's text "Failed to fetch repository data" is left out. It is used only for a rejection that is not an `Error`, and every request failure here is an `Error`.
- `Promise.all` is left out as concurrency. When both pull-request requests fail, which rejection comes first depends on timing, so it is an input (`filesRejectFirst`).
- `new URL` is left out: WHATWG parsing, host lower-casing, percent-encoding of the path and removal of `.`/`..` segments. The owner and repository segments are therefore the path's text as `new URL` leaves it. Its outcome, a failure or a host name and path, is the input.
- Only the `license` and `open_issues_count` fields of the repository reply are modelled. So are the key order of the languages reply, `additions` and `deletions` of the pull request, and `filename`, `changes` and `patch` of each file. The rest of the JSON is ignored by the rules.
- JsNumber.ParseInt, JsNumber.ParseIntReadsBack, JsNumber.IntToString: JavaScript numbers are doubles and the model uses unbounded integers. Values above 2^53 may round in `parseInt` and print differently (`String(2**60)` ends in zeros), text of more than about 309 digits parses as `Infinity`, and numbers from 1e21 up print in exponent form; the model reads and prints the exact integer. The number texts of the findings (`ManyOpenIssues`, `VeryLargePr`, `LargeFileChange`) inherit this.
- The timers (`simulateAgentWork`, the progress effect), agent statuses, toasts, console logging (`console.error` in the catch), React state hooks and all rendering are left out. They do not affect findings or score. Orchestrator.Run therefore returns the final findings and score instead of storing them in component state.
- The kind of review selected in the form is not an input of RepoForm.HandleSubmit. The handler ignores it, and the submitted kind depends on the URL alone.
