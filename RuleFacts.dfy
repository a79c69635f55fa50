/**
 * What the two rule sets promise: which finding each rule emits and when, in what order, how many
 * findings there can be, and what that does to the score.
 */
module RuleFacts {
  import opened Wrappers
  import opened JsString
  import opened Review
  import opened Scoring
  import opened Patterns
  import opened RuleEngine

  // ----- Repository rule set -----

  /** The place of a repository finding in the order of the rules. */
  function RepoRank(f: Finding): nat {
    if f.title == "No license detected" then 0
    else if f.title == "Missing README.md" then 1
    else if f.title == "Technology stack detected" then 2
    else 3
  }

  /** The findings are in the order of the repository rules, each rule at most once. */
  predicate RepoOrdered(fs: seq<Finding>) {
    forall i, j :: 0 <= i < j < |fs| ==> RepoRank(fs[i]) < RepoRank(fs[j])
  }

  /** 1 for a rule that fires, 0 for one that does not. */
  function Bit(b: bool): nat {
    if b then 1 else 0
  }

  lemma RepoRanks(langs: seq<string>, count: int)
    ensures RepoRank(NO_LICENSE) == 0 && RepoRank(MISSING_README) == 1
    ensures RepoRank(TechStack(langs)) == 2 && RepoRank(ManyOpenIssues(count)) == 3
  {
  }

  lemma RepoOrderedAppend(xs: seq<Finding>, ys: seq<Finding>, split: nat)
    requires RepoOrdered(xs) && RepoOrdered(ys)
    requires forall x :: x in xs ==> RepoRank(x) < split
    requires forall y :: y in ys ==> split <= RepoRank(y)
    ensures RepoOrdered(xs + ys)
  {
    var zs := xs + ys;
    forall i, j | 0 <= i < j < |zs| ensures RepoRank(zs[i]) < RepoRank(zs[j]) {
      if j < |xs| {
        assert zs[i] == xs[i] && zs[j] == xs[j];
      } else if i >= |xs| {
        assert zs[i] == ys[i - |xs|] && zs[j] == ys[j - |xs|];
      } else {
        assert zs[i] in xs && zs[j] in ys;
      }
    }
  }

  /** Four guarded pushes of findings of ranks 0 to 3: each finding is there exactly when its guard
    * holds, and they come in rank order. */
  lemma {:induction false} FourRulesInOrder(p: bool, q: bool, r: bool, t: bool, w: Finding, x: Finding, y: Finding, z: Finding)
    requires RepoRank(w) == 0 && RepoRank(x) == 1 && RepoRank(y) == 2 && RepoRank(z) == 3
    ensures var fs := (if p then [w] else []) + (if q then [x] else []) + (if r then [y] else []) + (if t then [z] else []);
      && |fs| == Bit(p) + Bit(q) + Bit(r) + Bit(t)
      && (w in fs <==> p) && (x in fs <==> q) && (y in fs <==> r) && (z in fs <==> t)
      && RepoOrdered(fs)
  {
    var a, b, c, d := (if p then [w] else []), (if q then [x] else []), (if r then [y] else []), (if t then [z] else []);
    RepoOrderedAppend(a, b, 1);
    RepoOrderedAppend(a + b, c, 2);
    RepoOrderedAppend(a + b + c, d, 3);
  }

  /** Each repository rule emits its finding exactly when its condition holds, at most once, and the
    * findings come in the order of the rules. */
  lemma RepoRules(info: RepoInfo, langs: seq<string>, readmeFound: bool)
    ensures var fs := RepoFindings(info, langs, readmeFound);
      && |fs| <= 4
      && (NO_LICENSE in fs <==> !info.hasLicense)
      && (MISSING_README in fs <==> !readmeFound)
      && (TechStack(langs) in fs <==> |langs| > 0)
      && (ManyOpenIssues(info.openIssuesCount) in fs <==> info.openIssuesCount > MANY_OPEN_ISSUES)
      && RepoOrdered(fs)
  {
    RepoRanks(langs, info.openIssuesCount);
    FourRulesInOrder(!info.hasLicense, !readmeFound, |langs| > 0, info.openIssuesCount > MANY_OPEN_ISSUES,
                     NO_LICENSE, MISSING_README, TechStack(langs), ManyOpenIssues(info.openIssuesCount));
  }

  lemma TotalDeductionOne(f: Finding)
    ensures TotalDeduction([f]) == Deduction(f.severity)
  {
    assert [f][..0] == [];
  }

  /** Two guarded medium findings and two guarded low ones deduct 8 and 2 for each that fires. */
  lemma MediumsThenLows(p: bool, q: bool, r: bool, t: bool, w: Finding, x: Finding, y: Finding, z: Finding)
    requires w.severity == Medium && x.severity == Medium && y.severity == Low && z.severity == Low
    ensures var fs := (if p then [w] else []) + (if q then [x] else []) + (if r then [y] else []) + (if t then [z] else []);
      TotalDeduction(fs) == 8 * (Bit(p) + Bit(q)) + 2 * (Bit(r) + Bit(t))
  {
    var a, b, c, d := (if p then [w] else []), (if q then [x] else []), (if r then [y] else []), (if t then [z] else []);
    TotalDeductionOne(w);
    TotalDeductionOne(x);
    TotalDeductionOne(y);
    TotalDeductionOne(z);
    TotalDeductionAppend(a, b);
    TotalDeductionAppend(a + b, c);
    TotalDeductionAppend(a + b + c, d);
  }

  /** The repository score: 90, less 8 for a missing license, 8 for a missing README, 2 for a
    * language list and 2 for many open issues; so it lies between 70 and 90. */
  lemma RepoScore(info: RepoInfo, langs: seq<string>, readmeFound: bool)
    ensures ScoreOf(RepoFindings(info, langs, readmeFound))
            == BASE_SCORE - 8 * (Bit(!info.hasLicense) + Bit(!readmeFound))
               - 2 * (Bit(|langs| > 0) + Bit(info.openIssuesCount > MANY_OPEN_ISSUES))
    ensures 70 <= ScoreOf(RepoFindings(info, langs, readmeFound))
  {
    MediumsThenLows(!info.hasLicense, !readmeFound, |langs| > 0, info.openIssuesCount > MANY_OPEN_ISSUES,
                    NO_LICENSE, MISSING_README, TechStack(langs), ManyOpenIssues(info.openIssuesCount));
  }

  /** A repository without a license or README, with two languages and more than 100 open issues,
    * gets the four findings in rule order, the languages joined in their order, and the score 70. */
  lemma RepoExample(rs: Responses, langs: seq<string>)
    requires rs.repository.Ok? && !rs.repository.value.hasLicense
    requires rs.repository.value.openIssuesCount > MANY_OPEN_ISSUES
    requires rs.languages == Ok(langs) && |langs| == 2 && rs.readme.Err?
    ensures RepoOutcome(rs) == Ok(Analysis([NO_LICENSE, MISSING_README, TechStack(langs),
                                            ManyOpenIssues(rs.repository.value.openIssuesCount)], 70))
    ensures TechStack(langs).description == "Top languages: " + langs[0] + ", " + langs[1]
  {
    var info := rs.repository.value;
    RepoScore(info, langs, false);
    assert LanguagesOrEmpty(rs.languages) == langs && !rs.readme.Ok?;
    assert RepoFindings(info, langs, false)
           == [NO_LICENSE, MISSING_README, TechStack(langs), ManyOpenIssues(info.openIssuesCount)];
    assert TopLanguages(langs) == langs;
    assert Join(langs, ", ") == langs[0] + ", " + langs[1] by {
      assert langs[1..] == [langs[1]];
    }
  }

  // ----- Pull-request rule set -----

  /** The number of files whose patch leaks a secret. */
  function SecretFileCount(files: seq<FileDiff>): nat
    decreases |files|
  {
    if files == [] then 0
    else SecretFileCount(files[..|files| - 1]) + Bit(LeaksSecret(files[|files| - 1]))
  }

  /** The number of files with more than 400 changed lines. */
  function LargeFileCount(files: seq<FileDiff>): nat
    decreases |files|
  {
    if files == [] then 0
    else LargeFileCount(files[..|files| - 1]) + Bit(files[|files| - 1].changes > LARGE_FILE_LINES)
  }

  /** No file counts as a test file exactly when no name contains `test` or `spec`. */
  lemma {:induction false} NoTestFiles(files: seq<FileDiff>)
    ensures TestFileCount(files) == 0 <==> forall i :: 0 <= i < |files| ==> !IsTestFile(files[i].filename)
    decreases |files|
  {
    if files != [] {
      var init := files[..|files| - 1];
      NoTestFiles(init);
      assert forall i :: 0 <= i < |init| ==> init[i] == files[i];
    }
  }

  /** "No tests modified" fires exactly when some file has a source extension and no file name
    * mentions `test` or `spec`. */
  lemma NeedsTestsIff(files: seq<FileDiff>)
    ensures NeedsTests(files) <==>
      && (exists i :: 0 <= i < |files| && IsSourceFile(files[i].filename))
      && (forall i :: 0 <= i < |files| ==> !IsTestFile(files[i].filename))
  {
    NoTestFiles(files);
    var src := SourceFiles(files);
    if |src| > 0 {
      assert src[0] in src;
    }
    if i :| 0 <= i < |files| && IsSourceFile(files[i].filename) {
      assert files[i] in src;
    }
  }

  /** A guarded critical finding and a guarded medium one, both naming the same file. */
  lemma CriticalThenMedium(p: bool, q: bool, w: Finding, x: Finding, name: string)
    requires w.severity == Critical && x.severity == Medium
    requires w.file == Some(name) && x.file == Some(name)
    ensures var fs := (if p then [w] else []) + (if q then [x] else []);
      && |fs| <= 2
      && (forall g :: g in fs ==> g.file == Some(name))
      && CountSeverity(fs, Critical) == Bit(p)
      && TotalDeduction(fs) == 25 * Bit(p) + 8 * Bit(q)
  {
    var a, b := (if p then [w] else []), (if q then [x] else []);
    TotalDeductionOne(w);
    TotalDeductionOne(x);
    TotalDeductionAppend(a, b);
    CountSeverityOne(w, Critical);
    CountSeverityOne(x, Critical);
    CountSeverityAppend(a, b, Critical);
  }

  /** The findings of one file: at most two, both naming the file; one critical finding if the
    * patch leaks a secret; a deduction of 25 for a leak and 8 for a large change. */
  lemma OneFileFacts(f: FileDiff)
    ensures var fs := FileFindings(f);
      && |fs| <= 2
      && (forall g :: g in fs ==> g.file == Some(f.filename))
      && CountSeverity(fs, Critical) == Bit(LeaksSecret(f))
      && TotalDeduction(fs) == 25 * Bit(LeaksSecret(f)) + 8 * Bit(f.changes > LARGE_FILE_LINES)
  {
    CriticalThenMedium(LeaksSecret(f), f.changes > LARGE_FILE_LINES,
                       SecretInDiff(f.filename), LargeFileChange(f.filename, f.changes), f.filename);
  }

  /** The per-file loop appends at most two findings per file, and each names a file of the pull request. */
  lemma {:induction false} PerFileScope(files: seq<FileDiff>)
    ensures |PerFileFindings(files)| <= 2 * |files|
    ensures forall g :: g in PerFileFindings(files) ==>
              exists i :: 0 <= i < |files| && g.file == Some(files[i].filename)
    decreases |files|
  {
    if files != [] {
      var init, f := files[..|files| - 1], files[|files| - 1];
      PerFileScope(init);
      OneFileFacts(f);
      forall g | g in PerFileFindings(files) ensures exists i :: 0 <= i < |files| && g.file == Some(files[i].filename) {
        if g in PerFileFindings(init) {
          var i :| 0 <= i < |init| && g.file == Some(init[i].filename);
          assert init[i] == files[i];
        } else {
          assert g.file == Some(files[|files| - 1].filename);
        }
      }
    }
  }

  /** The per-file loop appends one critical finding per leaking file, and deducts 25 per leaking
    * file and 8 per large file. */
  lemma {:induction false} PerFileDeduction(files: seq<FileDiff>)
    ensures CountSeverity(PerFileFindings(files), Critical) == SecretFileCount(files)
    ensures TotalDeduction(PerFileFindings(files)) == 25 * SecretFileCount(files) + 8 * LargeFileCount(files)
    decreases |files|
  {
    if files != [] {
      var init, f := files[..|files| - 1], files[|files| - 1];
      PerFileDeduction(init);
      OneFileFacts(f);
      TotalDeductionAppend(PerFileFindings(init), FileFindings(f));
      CountSeverityAppend(PerFileFindings(init), FileFindings(f), Critical);
    }
  }

  lemma CountSeverityOne(f: Finding, s: Severity)
    ensures CountSeverity([f], s) == Bit(f.severity == s)
  {
    assert [f][..0] == [];
  }

  /** A guarded finding and another one that name no file, followed by findings that all name a
    * file: each of the two is there exactly when its guard holds, and the first comes first. */
  lemma HeaderMembers(p: bool, q: bool, w: Finding, x: Finding, rest: seq<Finding>, fs: seq<Finding>)
    requires w != x && w.file.None? && x.file.None? && forall g :: g in rest ==> g.file.Some?
    requires fs == (if p then [w] else []) + (if q then [x] else []) + rest
    ensures |fs| == Bit(p) + Bit(q) + |rest|
    ensures (w in fs <==> p) && (p ==> fs[0] == w) && (x in fs <==> q)
  {
  }

  /** In the same list, exactly the first `Bit(p) + Bit(q)` findings name no file. */
  lemma HeaderThenFiles(p: bool, q: bool, w: Finding, x: Finding, rest: seq<Finding>, fs: seq<Finding>)
    requires w.file.None? && x.file.None? && forall g :: g in rest ==> g.file.Some?
    requires fs == (if p then [w] else []) + (if q then [x] else []) + rest
    ensures forall i :: 0 <= i < |fs| ==> (fs[i].file.None? <==> i < Bit(p) + Bit(q))
  {
    var h := Bit(p) + Bit(q);
    assert forall i :: h <= i < |fs| ==> fs[i] == rest[i - h] && rest[i - h] in rest;
  }

  /** A guarded high finding and a guarded medium one before other findings deduct 15 and 8 and
    * add no critical finding. */
  lemma HeaderDeduction(p: bool, q: bool, w: Finding, x: Finding, rest: seq<Finding>, fs: seq<Finding>)
    requires w.severity == High && x.severity == Medium
    requires fs == (if p then [w] else []) + (if q then [x] else []) + rest
    ensures CountSeverity(fs, Critical) == CountSeverity(rest, Critical)
    ensures TotalDeduction(fs) == 15 * Bit(p) + 8 * Bit(q) + TotalDeduction(rest)
  {
    var a, b := (if p then [w] else []), (if q then [x] else []);
    TotalDeductionOne(w);
    TotalDeductionOne(x);
    TotalDeductionAppend(a, b);
    TotalDeductionAppend(a + b, rest);
    CountSeverityOne(w, Critical);
    CountSeverityOne(x, Critical);
    CountSeverityAppend(a, b, Critical);
    CountSeverityAppend(a + b, rest, Critical);
  }

  lemma PrFindingsShape(pr: PrInfo, files: seq<FileDiff>)
    ensures PrFindings(pr, files)
            == (if pr.additions + pr.deletions > LARGE_PR_LINES then [VeryLargePr(pr.additions + pr.deletions)] else [])
               + (if NeedsTests(files) then [NO_TESTS_MODIFIED] else []) + PerFileFindings(files)
  {
    var a := if pr.additions + pr.deletions > LARGE_PR_LINES then [VeryLargePr(pr.additions + pr.deletions)] else [];
    var b := if NeedsTests(files) then [NO_TESTS_MODIFIED] else [];
    assert HeaderFindings(pr, files) == a + b;
  }

  /** The pull-request rules: "Very large PR" fires exactly when more than 800 lines change and is
    * then the first finding; "No tests modified" fires exactly when tests are needed. */
  lemma PrRules(pr: PrInfo, files: seq<FileDiff>)
    ensures var n := pr.additions + pr.deletions;
      VeryLargePr(n) in PrFindings(pr, files) <==> n > LARGE_PR_LINES
    ensures var n := pr.additions + pr.deletions;
      n > LARGE_PR_LINES ==> PrFindings(pr, files)[0] == VeryLargePr(n)
    ensures NO_TESTS_MODIFIED in PrFindings(pr, files) <==> NeedsTests(files)
  {
    PrFindingsShape(pr, files);
    assert VeryLargePr(pr.additions + pr.deletions).title != NO_TESTS_MODIFIED.title;
    PerFileScope(files);
    HeaderMembers(pr.additions + pr.deletions > LARGE_PR_LINES, NeedsTests(files),
                  VeryLargePr(pr.additions + pr.deletions), NO_TESTS_MODIFIED, PerFileFindings(files), PrFindings(pr, files));
  }

  /** The two rules about the whole pull request name no file, while every later finding does;
    * there are at most 2 + 2 |files| findings. */
  lemma PrScope(pr: PrInfo, files: seq<FileDiff>)
    ensures var fs := PrFindings(pr, files);
      var header := Bit(pr.additions + pr.deletions > LARGE_PR_LINES) + Bit(NeedsTests(files));
      forall i :: 0 <= i < |fs| ==> (fs[i].file.None? <==> i < header)
    ensures |PrFindings(pr, files)| <= 2 + 2 * |files|
  {
    PrFindingsShape(pr, files);
    PerFileScope(files);
    HeaderThenFiles(pr.additions + pr.deletions > LARGE_PR_LINES, NeedsTests(files),
                    VeryLargePr(pr.additions + pr.deletions), NO_TESTS_MODIFIED, PerFileFindings(files), PrFindings(pr, files));
  }

  /** The pull-request deductions: 15 for a very large pull request, 8 for missing tests, 25 per
    * leaking file and 8 per large file; one critical finding per leaking file. */
  lemma PrDeduction(pr: PrInfo, files: seq<FileDiff>)
    ensures CountSeverity(PrFindings(pr, files), Critical) == SecretFileCount(files)
    ensures TotalDeduction(PrFindings(pr, files))
            == 15 * Bit(pr.additions + pr.deletions > LARGE_PR_LINES) + 8 * Bit(NeedsTests(files))
               + 25 * SecretFileCount(files) + 8 * LargeFileCount(files)
  {
    PrFindingsShape(pr, files);
    PerFileDeduction(files);
    HeaderDeduction(pr.additions + pr.deletions > LARGE_PR_LINES, NeedsTests(files), VeryLargePr(pr.additions + pr.deletions),
                    NO_TESTS_MODIFIED, PerFileFindings(files), PrFindings(pr, files));
  }

  /** The pull-request score: 90, less the deductions, clamped at 0. */
  lemma PrScore(pr: PrInfo, files: seq<FileDiff>)
    ensures ScoreOf(PrFindings(pr, files))
            == Clamp(BASE_SCORE - 15 * Bit(pr.additions + pr.deletions > LARGE_PR_LINES) - 8 * Bit(NeedsTests(files))
                     - 25 * SecretFileCount(files) - 8 * LargeFileCount(files))
  {
    PrDeduction(pr, files);
  }

  /** `app.ts` has a source extension and does not look like a test file. */
  lemma AppTsIsUntestedSource()
    ensures IsSourceFile("app.ts") && !IsTestFile("app.ts")
  {
    var name := "app.ts";
    assert EndsWith(name, SOURCE_EXTENSIONS[0], true);
    forall j | 0 <= j <= |name| ensures !MatchesAt(name, j, "test", true) && !MatchesAt(name, j, "spec", true) {
      if j + 4 <= |name| {
        assert Fold(name[j + 0], true) != "test"[0] && Fold(name[j + 0], true) != "spec"[0];
      }
    }
  }

  /** A patch that mentions `secret` leaks a secret. */
  lemma SecretWordLeaks(name: string, changes: int)
    ensures LeaksSecret(FileDiff(name, changes, Some("const secret = 'abcd'")))
  {
    var patch := "const secret = 'abcd'";
    assert MatchesAt(patch, 6, SECRET_WORDS[3], true);
    assert SecretAt(patch, 6);
  }

  /** A pull request of one file: the file's own findings and counts. */
  lemma SingleFile(f: FileDiff)
    ensures PerFileFindings([f]) == FileFindings(f)
    ensures SecretFileCount([f]) == Bit(LeaksSecret(f))
    ensures LargeFileCount([f]) == Bit(f.changes > LARGE_FILE_LINES)
    ensures NeedsTests([f]) <==> IsSourceFile(f.filename) && !IsTestFile(f.filename)
  {
    assert [f][..0] == [];
    assert TestFileCount([f]) == Bit(IsTestFile(f.filename));
    var src := SourceFiles([f]);
    if IsSourceFile(f.filename) {
      assert f in src;
    }
    if |src| > 0 {
      assert src[0] in src;
    }
  }

  /** A pull request of more than 800 changed lines whose only file is an untested source file that
    * leaks a secret in a small change: three findings in rule order. */
  lemma LeakyPrFindings(pr: PrInfo, f: FileDiff)
    requires pr.additions + pr.deletions > LARGE_PR_LINES
    requires IsSourceFile(f.filename) && !IsTestFile(f.filename)
    requires LeaksSecret(f) && f.changes <= LARGE_FILE_LINES
    ensures PrFindings(pr, [f]) == [VeryLargePr(pr.additions + pr.deletions), NO_TESTS_MODIFIED, SecretInDiff(f.filename)]
  {
    SingleFile(f);
    PrFindingsShape(pr, [f]);
  }

  /** A high, a medium and a critical finding deduct 15 + 8 + 25 from 90. */
  lemma HighMediumCritical(w: Finding, x: Finding, y: Finding)
    requires w.severity == High && x.severity == Medium && y.severity == Critical
    ensures ScoreOf([w, x, y]) == 42
  {
    assert [w][..0] == [];
    assert TotalDeduction([w]) == 15;
    assert [w, x][..1] == [w];
    assert TotalDeduction([w, x]) == 23;
    assert [w, x, y][..2] == [w, x];
    assert TotalDeduction([w, x, y]) == 48;
  }

  /** The same pull request scores 90 - 15 - 8 - 25. */
  lemma LeakyPrScore(pr: PrInfo, f: FileDiff)
    requires pr.additions + pr.deletions > LARGE_PR_LINES
    requires IsSourceFile(f.filename) && !IsTestFile(f.filename)
    requires LeaksSecret(f) && f.changes <= LARGE_FILE_LINES
    ensures ScoreOf(PrFindings(pr, [f])) == 42
  {
    LeakyPrFindings(pr, f);
    HighMediumCritical(VeryLargePr(pr.additions + pr.deletions), NO_TESTS_MODIFIED, SecretInDiff(f.filename));
  }

  /** The same pull request end to end, whatever the other replies: the score is 90 - 15 - 8 - 25. */
  lemma LeakyPr(number: int, pr: PrInfo, f: FileDiff, rs: Responses)
    requires number != 0
    requires pr.additions + pr.deletions > LARGE_PR_LINES
    requires IsSourceFile(f.filename) && !IsTestFile(f.filename)
    requires LeaksSecret(f) && f.changes <= LARGE_FILE_LINES
    requires rs.pull == Ok(pr) && rs.pullFiles == Ok([f])
    ensures PrOutcome(Some(number), rs)
            == Ok(Analysis([VeryLargePr(pr.additions + pr.deletions), NO_TESTS_MODIFIED, SecretInDiff(f.filename)], 42))
  {
    LeakyPrFindings(pr, f);
    LeakyPrScore(pr, f);
  }

  // ----- Titles -----

  /** The titles of the findings the two rule sets can emit. */
  const RULE_TITLES: set<string> := {
    NO_LICENSE.title, MISSING_README.title, "Technology stack detected", "High number of open issues",
    "Very large PR", NO_TESTS_MODIFIED.title, "Potential secret in diff", "Large file change"}

  /** Two guarded pushes leave only the pushed findings. */
  lemma GuardedPair(p: bool, q: bool, w: Finding, x: Finding, fs: seq<Finding>)
    requires fs == (if p then [w] else []) + (if q then [x] else [])
    ensures forall g :: g in fs ==> g == w || g == x
  {
  }

  /** Every repository finding carries one of the rule titles. */
  lemma RepoTitles(info: RepoInfo, langs: seq<string>, readmeFound: bool)
    ensures forall g :: g in RepoFindings(info, langs, readmeFound) ==> g.title in RULE_TITLES
  {
    var a := (if !info.hasLicense then [NO_LICENSE] else []) + (if !readmeFound then [MISSING_README] else []);
    var b := if |langs| > 0 then [TechStack(langs)] else [];
    var c := if info.openIssuesCount > MANY_OPEN_ISSUES then [ManyOpenIssues(info.openIssuesCount)] else [];
    GuardedPair(!info.hasLicense, !readmeFound, NO_LICENSE, MISSING_README, a);
    assert RepoFindings(info, langs, readmeFound) == a + b + c;
  }

  /** Every finding of the per-file loop carries one of the rule titles. */
  lemma {:induction false} PerFileTitles(files: seq<FileDiff>)
    ensures forall g :: g in PerFileFindings(files) ==> g.title in RULE_TITLES
    decreases |files|
  {
    if files != [] {
      var f := files[|files| - 1];
      PerFileTitles(files[..|files| - 1]);
      GuardedPair(LeaksSecret(f), f.changes > LARGE_FILE_LINES, SecretInDiff(f.filename),
                  LargeFileChange(f.filename, f.changes), FileFindings(f));
    }
  }

  /** Every pull-request finding carries one of the rule titles. */
  lemma PrTitles(pr: PrInfo, files: seq<FileDiff>)
    ensures forall g :: g in PrFindings(pr, files) ==> g.title in RULE_TITLES
  {
    var n := pr.additions + pr.deletions;
    GuardedPair(n > LARGE_PR_LINES, NeedsTests(files), VeryLargePr(n), NO_TESTS_MODIFIED, HeaderFindings(pr, files));
    PerFileTitles(files);
  }
}
