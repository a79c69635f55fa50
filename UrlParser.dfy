/**
 * `parseGithubUrl`: from a URL to the repository it names (owner and name) and, for a
 * pull-request URL, the pull-request number. WHATWG URL parsing itself (`new URL`) is not part of
 * the model: its outcome, a failure or the parsed host name and path, is the input.
 */
module UrlParser {
  import opened Wrappers
  import opened JsString
  import opened JsNumber

  /** What `new URL(url)` gives: it throws (`Unparseable`), or yields the host name and the path. */
  datatype UrlInput = Unparseable | Url(hostname: string, pathname: string)

  /** The repository (and pull request) a review is about. */
  datatype Target = Target(owner: string, repo: string, prNumber: Option<int>)

  const GITHUB_HOST := "github.com"

  /** `null` (`None`) when the URL does not parse, is not on `github.com`, or has fewer than two
    * path segments; a number that does not parse after `pull` also gives `None`. */
  function ParseGithubUrl(url: UrlInput): (r: Option<Target>)
    ensures r.Some? <==> && url.Url?
                         && url.hostname == GITHUB_HOST
                         && |Segments(url.pathname)| >= 2
                         && !PullWithoutNumber(Segments(url.pathname))
    ensures r.Some? ==> && r.value.owner == Segments(url.pathname)[0]
                        && r.value.repo == Segments(url.pathname)[1]
                        && r.value.owner != [] && r.value.repo != []
    ensures r.Some? ==> var parts := Segments(url.pathname);
                        && (r.value.prNumber.Some? <==> |parts| >= 4 && parts[2] == "pull")
                        && (r.value.prNumber.Some? ==> r.value.prNumber == ParseInt(parts[3]))
  {
    if url.Unparseable? || url.hostname != GITHUB_HOST then None
    else
      var parts := Segments(url.pathname);
      assert forall i :: 0 <= i < |parts| ==> parts[i] in parts;
      if |parts| < 2 then None
      else if |parts| >= 4 && parts[2] == "pull" && parts[3] != [] then
        match ParseInt(parts[3])
        case None => None
        case Some(n) => Some(Target(parts[0], parts[1], Some(n)))
      else Some(Target(parts[0], parts[1], None))
  }

  /** The third segment is `pull` and the fourth is there but is not a number. */
  predicate PullWithoutNumber(parts: seq<string>) {
    |parts| >= 4 && parts[2] == "pull" && ParseInt(parts[3]).None?
  }

  /** The path of a target's web page: `/owner/repo`, or `/owner/repo/pull/n`. */
  function TargetPath(t: Target): string {
    match t.prNumber
    case None => "/" + Join([t.owner, t.repo], "/")
    case Some(n) => "/" + Join([t.owner, t.repo, "pull", IntToString(n)], "/")
  }

  /** A target whose owner and name are non-empty path segments without slashes. */
  predicate WellFormed(t: Target) {
    t.owner != [] && t.repo != [] && '/' !in t.owner && '/' !in t.repo
  }

  // ----- Lemmas -----

  /** The parser gives back every well-formed target from its web page on `github.com`. */
  lemma ParseTargetPath(t: Target)
    requires WellFormed(t)
    ensures ParseGithubUrl(Url(GITHUB_HOST, TargetPath(t))) == Some(t)
  {
    match t.prNumber
    case None =>
      SegmentsOfPath([t.owner, t.repo]);
    case Some(n) =>
      ParsePullPath(t.owner, t.repo, n);
  }

  lemma ParsePullPath(owner: string, repo: string, n: int)
    requires WellFormed(Target(owner, repo, None))
    ensures ParseGithubUrl(Url(GITHUB_HOST, "/" + Join([owner, repo, "pull", IntToString(n)], "/")))
            == Some(Target(owner, repo, Some(n)))
  {
    var num := IntToString(n);
    NumberHasNoSlash(n);
    ParseIntReadsBack(n, []);
    assert num + [] == num;
    ParsePullSegments(owner, repo, num, n, []);
    assert [owner, repo, "pull", num] + [] == [owner, repo, "pull", num];
  }

  /** A path `/owner/repo/pull/num/...` whose number segment reads as `n`: what follows the number,
    * such as the `files` tab of a pull request, does not matter. */
  lemma ParsePullSegments(owner: string, repo: string, num: string, n: int, more: seq<string>)
    requires WellFormed(Target(owner, repo, None))
    requires num != [] && '/' !in num && ParseInt(num) == Some(n)
    requires forall p :: p in more ==> p != [] && '/' !in p
    ensures ParseGithubUrl(Url(GITHUB_HOST, "/" + Join([owner, repo, "pull", num] + more, "/")))
            == Some(Target(owner, repo, Some(n)))
  {
    var parts := [owner, repo, "pull", num] + more;
    assert forall p :: p in parts ==> p == owner || p == repo || p == "pull" || p == num || p in more;
    SegmentsOfPath(parts);
  }

  lemma NumberHasNoSlash(n: int)
    ensures '/' !in IntToString(n)
  {
    var num := IntToString(n);
    var digits := NatToString(if n < 0 then -n else n);
    NatToStringValue(if n < 0 then -n else n);
    if n < 0 {
      assert num == "-" + digits;
      assert forall i :: 1 <= i < |num| ==> num[i] == digits[i - 1];
    }
  }

  /** Anything after `/owner/repo` other than `pull/<segment>` is ignored: the target is the plain repository. */
  lemma ParseIgnoresOtherPaths(owner: string, repo: string, more: seq<string>)
    requires WellFormed(Target(owner, repo, None))
    requires forall p :: p in more ==> p != [] && '/' !in p
    requires more == [] || more[0] != "pull" || |more| == 1
    ensures ParseGithubUrl(Url(GITHUB_HOST, "/" + Join([owner, repo] + more, "/")))
            == Some(Target(owner, repo, None))
  {
    var parts := [owner, repo] + more;
    assert forall p :: p in parts ==> p == owner || p == repo || p in more;
    SegmentsOfPath(parts);
    assert |parts| >= 4 ==> parts[2] == more[0] && |more| >= 2;
    ParseRepositoryPath("/" + Join(parts, "/"), parts);
  }

  /** A path on `github.com` with at least two segments and no `pull/<segment>` after them names the
    * plain repository of its first two segments. */
  lemma ParseRepositoryPath(path: string, parts: seq<string>)
    requires Segments(path) == parts && |parts| >= 2
    requires !(|parts| >= 4 && parts[2] == "pull")
    ensures ParseGithubUrl(Url(GITHUB_HOST, path)) == Some(Target(parts[0], parts[1], None))
  {
  }

  /** Hosts other than `github.com`, and paths with fewer than two segments, are refused. */
  lemma ParseRefuses(host: string, owner: string)
    requires host != GITHUB_HOST
    requires owner != [] && '/' !in owner
    ensures ParseGithubUrl(Unparseable) == None
    ensures ParseGithubUrl(Url(host, "/" + owner + "/repo")) == None
    ensures ParseGithubUrl(Url(GITHUB_HOST, "/" + owner)) == None
    ensures ParseGithubUrl(Url(GITHUB_HOST, "/" + owner + "/")) == None
  {
    SegmentsOfPath([owner]);
    assert Join([owner], "/") == owner;
    var p := "/" + owner + "/";
    assert Split(p, '/') == [[], owner, []] by {
      assert p == "/" + Join([owner, []], "/");
      SplitJoin([owner, []], '/');
      assert (p)[1..] == Join([owner, []], "/");
    }
    var split: seq<string> := [[], owner, []];
    assert split[1..] == [owner, []] && split[1..][1..] == [[]] && split[2..][1..] == [];
    assert NonEmpty(split[2..]) == [];
    assert NonEmpty(split[1..]) == [owner] + NonEmpty(split[2..]);
    assert NonEmpty(split) == [owner];
  }

  /** A pull-request URL whose number segment has no digits is refused. */
  lemma ParseRefusesBadNumber(owner: string, repo: string, num: string)
    requires WellFormed(Target(owner, repo, None))
    requires num != [] && '/' !in num
    requires forall i :: 0 <= i < |num| ==> !IsDigit(num[i])
    ensures ParseGithubUrl(Url(GITHUB_HOST, "/" + Join([owner, repo, "pull", num], "/"))) == None
  {
    SegmentsOfPath([owner, repo, "pull", num]);
    ParseIntNoDigits(num);
  }
}
