/**
 * The submit handler of the review form: a URL that is blank after trimming, or that does not
 * start like a GitHub repository URL, is rejected with a notice; any other URL is submitted as
 * entered, as a pull-request review exactly when it contains `/pull/`.
 */
module RepoForm {
  import opened JsString
  import opened Review

  /** What a submit leads to: a notice with a title and a description, or the submitted review. */
  datatype Submission = Rejected(title: string, description: string) | Submitted(url: string, kind: AnalysisType)

  const GITHUB_PREFIX := "https://github.com/"

  /** `[\w-]`: an ASCII letter, digit, `_` or `-`. */
  predicate IsWordChar(c: char) {
    'a' <= c <= 'z' || 'A' <= c <= 'Z' || '0' <= c <= '9' || c == '_' || c == '-'
  }

  /** `[\w.-]`: a word character or `.`. */
  predicate IsNameChar(c: char) {
    IsWordChar(c) || c == '.'
  }

  /** The regular expression `^https:\/\/github\.com\/[\w-]+\/[\w.-]+` read as it is written: the
    * prefix, some `a >= 1` word characters, a slash, and at least one name character; since the
    * pattern is anchored only at the start, anything may follow. */
  ghost predicate GithubPattern(url: string) {
    MatchesAt(url, 0, GITHUB_PREFIX, false) && exists a: nat :: OwnerThenName(url, a)
  }

  /** After the prefix come `a >= 1` word characters, a slash, and a name character. */
  predicate OwnerThenName(url: string, a: nat) {
    var p := |GITHUB_PREFIX|;
    && 1 <= a
    && p + a + 1 < |url|
    && (forall k :: p <= k < p + a ==> IsWordChar(url[k]))
    && url[p + a] == '/'
    && IsNameChar(url[p + a + 1])
  }

  /** `githubPattern.test(url)`: the owner part takes the whole run of word characters, since a
    * slash is not one of them. */
  predicate MatchesGithubPattern(url: string) {
    && MatchesAt(url, 0, GITHUB_PREFIX, false)
    && var a := Run(url, |GITHUB_PREFIX|, IsWordChar);
    && 1 <= a
    && |GITHUB_PREFIX| + a + 1 < |url|
    && url[|GITHUB_PREFIX| + a] == '/'
    && IsNameChar(url[|GITHUB_PREFIX| + a + 1])
  }

  /** `handleSubmit`: the emptiness check, then the pattern check, then the kind of review, which
    * depends on the URL alone and not on the kind selected in the form. */
  function HandleSubmit(url: string): (r: Submission)
    ensures r == Rejected("URL Required", "Please enter a GitHub repository or PR URL") <==> IsBlank(url)
    ensures r == Rejected("Invalid URL", "Please enter a valid GitHub URL") <==> !IsBlank(url) && !GithubPattern(url)
    ensures r.Submitted? <==> GithubPattern(url)
    ensures r.Submitted? ==> r.url == url
    ensures r.Submitted? ==> (r.kind == Pr <==> exists j :: 0 <= j <= |url| && MatchesAt(url, j, "/pull/", false))
  {
    GithubPatternIff(url);
    PatternIsNotBlank(url);
    if Trim(url) == [] then Rejected("URL Required", "Please enter a GitHub repository or PR URL")
    else if !MatchesGithubPattern(url) then Rejected("Invalid URL", "Please enter a valid GitHub URL")
    else Submitted(url, if Contains(url, "/pull/", false) then Pr else Repo)
  }

  // ----- Lemmas -----

  /** The greedy reading of the pattern agrees with the regular expression's. */
  lemma GithubPatternIff(url: string)
    ensures MatchesGithubPattern(url) <==> GithubPattern(url)
  {
    var p := |GITHUB_PREFIX|;
    if MatchesGithubPattern(url) {
      var a := Run(url, p, IsWordChar);
      assert OwnerThenName(url, a);
    }
    if GithubPattern(url) {
      var a: nat :| OwnerThenName(url, a);
      assert Run(url, p, IsWordChar) == a;
    }
  }

  /** A URL that matches the pattern is not blank: it starts with `h`. */
  lemma PatternIsNotBlank(url: string)
    ensures GithubPattern(url) ==> !IsBlank(url)
  {
    if GithubPattern(url) {
      assert url[0] == GITHUB_PREFIX[0];
    }
  }

  /** The pattern is anchored only at the start: text after a matching URL keeps it matching. */
  lemma PatternIgnoresTail(url: string, tail: string)
    requires GithubPattern(url)
    ensures GithubPattern(url + tail)
  {
    var s := url + tail;
    var p := |GITHUB_PREFIX|;
    var a: nat :| OwnerThenName(url, a);
    assert forall k :: 0 <= k < |url| ==> s[k] == url[k];
    assert MatchesAt(s, 0, GITHUB_PREFIX, false);
    assert OwnerThenName(s, a);
  }

  /** The URL of a repository whose owner and name are made of word characters matches the pattern
    * and holds no `/pull/`, unless the owner is called `pull`. */
  lemma RepositoryMatches(owner: string, repo: string)
    requires owner != [] && forall k :: 0 <= k < |owner| ==> IsWordChar(owner[k])
    requires repo != [] && forall k :: 0 <= k < |repo| ==> IsWordChar(repo[k])
    ensures GithubPattern(GITHUB_PREFIX + owner + "/" + repo)
  {
    var p := |GITHUB_PREFIX|;
    var url := GITHUB_PREFIX + owner + "/" + repo;
    var a := |owner|;
    assert forall k :: p <= k < p + a ==> url[k] == owner[k - p];
    assert url[p + a] == '/' && url[p + a + 1] == repo[0];
    assert MatchesAt(url, 0, GITHUB_PREFIX, false);
    assert OwnerThenName(url, a);
  }

  lemma RepositoryUrl(owner: string, repo: string)
    requires owner != [] && owner != "pull" && forall k :: 0 <= k < |owner| ==> IsWordChar(owner[k])
    requires repo != [] && forall k :: 0 <= k < |repo| ==> IsWordChar(repo[k])
    ensures var url := GITHUB_PREFIX + owner + "/" + repo;
      GithubPattern(url) && forall j :: 0 <= j <= |url| ==> !MatchesAt(url, j, "/pull/", false)
  {
    var p := |GITHUB_PREFIX|;
    var url := GITHUB_PREFIX + owner + "/" + repo;
    var a := |owner|;
    assert forall k :: p <= k < p + a ==> url[k] == owner[k - p];
    assert forall k :: p + a < k < |url| ==> url[k] == repo[k - p - a - 1];
    assert url[p + a] == '/' && url[p + a + 1] == repo[0];
    assert MatchesAt(url, 0, GITHUB_PREFIX, false);
    assert OwnerThenName(url, a);
    assert forall k :: 0 <= k < |url| && url[k] == '/' ==> k == 6 || k == 7 || k == 18 || k == p + a;
    forall j | 0 <= j <= |url| ensures !MatchesAt(url, j, "/pull/", false) {
      if MatchesAt(url, j, "/pull/", false) {
        MatchesAtChar(url, j, "/pull/", 0);
        MatchesAtChar(url, j, "/pull/", 5);
        assert j == 18 && a == 4;
        forall k | 0 <= k < 4 ensures owner[k] == "pull"[k] {
          MatchesAtChar(url, j, "/pull/", k + 1);
        }
        assert false;
      }
    }
  }

  /** Such a URL is submitted as it is, as a repository review. */
  lemma SubmitsRepositoryUrl(owner: string, repo: string)
    requires owner != [] && owner != "pull" && forall k :: 0 <= k < |owner| ==> IsWordChar(owner[k])
    requires repo != [] && forall k :: 0 <= k < |repo| ==> IsWordChar(repo[k])
    ensures HandleSubmit(GITHUB_PREFIX + owner + "/" + repo) == Submitted(GITHUB_PREFIX + owner + "/" + repo, Repo)
  {
    RepositoryUrl(owner, repo);
  }

  /** With `/pull/` and anything after it, the same URL is submitted as a pull-request review. */
  lemma SubmitsPullUrl(owner: string, repo: string, rest: string)
    requires owner != [] && forall k :: 0 <= k < |owner| ==> IsWordChar(owner[k])
    requires repo != [] && forall k :: 0 <= k < |repo| ==> IsWordChar(repo[k])
    ensures var url := GITHUB_PREFIX + owner + "/" + repo + "/pull/" + rest;
      HandleSubmit(url) == Submitted(url, Pr)
  {
    var url := GITHUB_PREFIX + owner + "/" + repo;
    RepositoryMatches(owner, repo);
    PatternIgnoresTail(url, "/pull/" + rest);
    var pr := url + "/pull/" + rest;
    assert pr == url + ("/pull/" + rest);
    assert MatchesAt(pr, |url|, "/pull/", false);
    SubmitsAsPull(pr, |url|);
  }

  lemma SubmitsAsPull(url: string, j: nat)
    requires GithubPattern(url) && j <= |url| && MatchesAt(url, j, "/pull/", false)
    ensures HandleSubmit(url) == Submitted(url, Pr)
  {
  }

  lemma MatchesAtChar(s: string, i: nat, pat: string, k: nat)
    requires MatchesAt(s, i, pat, false) && k < |pat|
    ensures s[i + k] == pat[k]
  {
  }
}
