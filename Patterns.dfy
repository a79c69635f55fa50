/**
 * The three regular expressions of the pull-request rules, written as predicates on strings:
 * `/test|spec/i` on a file name, `/\.(ts|tsx|js|jsx|py|go|rb|java)$/i` on a file name, and the
 * secret pattern `/(api[_-]?key|secret|password|bearer\s+[A-Za-z0-9._-]{20,})/i` on a patch.
 * Under the `i` flag only ASCII letters fold, so comparing the lower-cased ASCII letters of the
 * subject with a lower-case pattern is exactly the engine's test.
 */
module Patterns {
  import opened JsString

  /** `/test|spec/i.test(name)`: `test` or `spec` appears anywhere, in any case. */
  predicate IsTestFile(name: string)
    ensures IsTestFile(name) <==>
      exists j :: 0 <= j <= |name| && (MatchesAt(name, j, "test", true) || MatchesAt(name, j, "spec", true))
  {
    Contains(name, "test", true) || Contains(name, "spec", true)
  }

  const SOURCE_EXTENSIONS: seq<string> := [".ts", ".tsx", ".js", ".jsx", ".py", ".go", ".rb", ".java"]

  /** `/\.(ts|tsx|js|jsx|py|go|rb|java)$/i.test(name)`: the name ends with one of the extensions, in any case. */
  predicate IsSourceFile(name: string)
    ensures IsSourceFile(name) ==> exists j :: 0 <= j < |name| && |name| - 5 <= j <= |name| - 3 && name[j] == '.'
  {
    ExtensionDot(name);
    exists k :: 0 <= k < |SOURCE_EXTENSIONS| && EndsWith(name, SOURCE_EXTENSIONS[k], true)
  }

  /** Each extension is a dot and two to four letters, so a name that ends with one has a dot there. */
  lemma ExtensionDot(name: string)
    ensures forall k :: 0 <= k < |SOURCE_EXTENSIONS| && EndsWith(name, SOURCE_EXTENSIONS[k], true) ==>
      exists j :: 0 <= j < |name| && |name| - 5 <= j <= |name| - 3 && name[j] == '.'
  {
    forall k | 0 <= k < |SOURCE_EXTENSIONS| && EndsWith(name, SOURCE_EXTENSIONS[k], true)
      ensures exists j :: 0 <= j < |name| && |name| - 5 <= j <= |name| - 3 && name[j] == '.'
    {
      var ext := SOURCE_EXTENSIONS[k];
      var j := |name| - |ext|;
      assert ext[0] == '.' && 3 <= |ext| <= 5;
      assert Fold(name[j + 0], true) == ext[0];
    }
  }

  /** `api[_-]?key|secret|password`, spelt out as its five literal alternatives. */
  const SECRET_WORDS: seq<string> := ["apikey", "api_key", "api-key", "secret", "password"]

  /** `[A-Za-z0-9._-]`. */
  predicate IsTokenChar(c: char) {
    'a' <= c <= 'z' || 'A' <= c <= 'Z' || '0' <= c <= '9' || c == '.' || c == '_' || c == '-'
  }

  /** `bearer\s+[A-Za-z0-9._-]{20,}` matches at index `i`. White space and token characters are
    * disjoint, so `\s+` must take the whole run of white space, and at least twenty token
    * characters must follow it. */
  predicate BearerAt(s: string, i: nat) {
    MatchesAt(s, i, "bearer", true)
    && var w := Run(s, i + 6, IsWhitespace);
    w >= 1 && Run(s, i + 6 + w, IsTokenChar) >= 20
  }

  /** The regular expression's own reading of the bearer alternative: `bearer`, then some `w >= 1`
    * white-space characters, then twenty token characters. */
  ghost predicate BearerSplitAt(s: string, i: nat, w: nat) {
    && MatchesAt(s, i, "bearer", true)
    && w >= 1
    && i + 6 + w + 20 <= |s|
    && (forall k :: i + 6 <= k < i + 6 + w ==> IsWhitespace(s[k]))
    && (forall k :: i + 6 + w <= k < i + 6 + w + 20 ==> IsTokenChar(s[k]))
  }

  /** Some alternative of the secret pattern matches at index `i`. */
  predicate SecretAt(s: string, i: nat) {
    (exists k :: 0 <= k < |SECRET_WORDS| && MatchesAt(s, i, SECRET_WORDS[k], true)) || BearerAt(s, i)
  }

  /** The secret pattern matches somewhere at or after index `from`. */
  function SecretFrom(s: string, from: nat): (found: bool)
    requires from <= |s|
    ensures found <==> exists i :: from <= i <= |s| && SecretAt(s, i)
    decreases |s| - from
  {
    if SecretAt(s, from) then true
    else if from == |s| then false
    else SecretFrom(s, from + 1)
  }

  /** `secretRegex.test(patch)`. */
  predicate HasSecret(patch: string)
    ensures HasSecret(patch) <==> exists i :: 0 <= i <= |patch| && SecretAt(patch, i)
  {
    SecretFrom(patch, 0)
  }

  // ----- Lemmas -----

  /** The greedy reading of the bearer alternative agrees with the regular expression's: a split
    * into white space and twenty token characters exists exactly when the greedy one works. */
  lemma BearerAtIff(s: string, i: nat)
    ensures BearerAt(s, i) <==> exists w :: BearerSplitAt(s, i, w)
  {
    if BearerAt(s, i) {
      var w := Run(s, i + 6, IsWhitespace);
      assert BearerSplitAt(s, i, w);
    }
    if w: nat :| BearerSplitAt(s, i, w) {
      var g := Run(s, i + 6, IsWhitespace);
      WhitespaceIsNoToken(s[i + 6 + w]);
      if g < w {
        assert false;
      } else if g > w {
        assert false;
      }
      if Run(s, i + 6 + w, IsTokenChar) < 20 {
        assert false;
      }
    }
  }

  lemma WhitespaceIsNoToken(c: char)
    ensures IsWhitespace(c) ==> !IsTokenChar(c)
  {
  }

  /** A bearer token needs at least twenty token characters after the white space. */
  lemma BearerNeedsTwentyChars(ws: string, token: string, rest: string)
    requires ws != [] && IsBlank(ws)
    requires token != [] && forall k :: 0 <= k < |token| ==> IsTokenChar(token[k])
    requires rest == [] || !IsTokenChar(rest[0])
    ensures BearerAt("Bearer" + ws + token + rest, 0) <==> |token| >= 20
  {
    var head := "Bearer" + ws;
    var s := head + token + rest;
    assert s[..|head|] == head && head[6..] == ws;
    assert MatchesAt(s, 0, "bearer", true);
    assert s[6..6 + |ws|] == ws;
    assert s[6 + |ws|] == token[0];
    RunIs(s, 6, IsWhitespace, ws);
    var j := 6 + |ws|;
    assert s[j..j + |token|] == token;
    assert j + |token| < |s| ==> s[j + |token|] == rest[0];
    RunIs(s, j, IsTokenChar, token);
  }

  /** `test` or `spec`, in any case, anywhere in a file name makes it a test file. */
  lemma TestWordAnywhere(pre: string, word: string, post: string)
    requires |word| == 4
    requires (forall k :: 0 <= k < 4 ==> LowerAscii(word[k]) == "test"[k])
          || (forall k :: 0 <= k < 4 ==> LowerAscii(word[k]) == "spec"[k])
    ensures IsTestFile(pre + word + post)
  {
    var s := pre + word + post;
    assert forall k :: 0 <= k < 4 ==> s[|pre| + k] == word[k];
    assert MatchesAt(s, |pre|, "test", true) || MatchesAt(s, |pre|, "spec", true);
  }

  /** A name that ends with one of the source extensions is a source file, whatever comes before it. */
  lemma SourceFileByExtension(stem: string, k: nat)
    requires k < |SOURCE_EXTENSIONS|
    ensures IsSourceFile(stem + SOURCE_EXTENSIONS[k])
  {
    var ext := SOURCE_EXTENSIONS[k];
    var s := stem + ext;
    assert forall j :: 0 <= j < |ext| ==> s[|stem| + j] == ext[j] && LowerAscii(ext[j]) == ext[j];
    assert EndsWith(s, ext, true);
  }

  /** Any of the five secret words, anywhere in a patch, is a match of the secret pattern. */
  lemma SecretWordAnywhere(pre: string, k: nat, post: string)
    requires k < |SECRET_WORDS|
    ensures HasSecret(pre + SECRET_WORDS[k] + post)
  {
    var word := SECRET_WORDS[k];
    var s := pre + word + post;
    assert forall j :: 0 <= j < |word| ==> s[|pre| + j] == word[j] && LowerAscii(word[j]) == word[j];
    assert MatchesAt(s, |pre|, word, true);
    assert SecretAt(s, |pre|);
  }

  /** `api key` written with a space is not one of the alternatives: `api[_-]?key` allows only
    * nothing, `_` or `-` between the two words. */
  lemma ApiKeyWithSpaceIsNoSecret()
    ensures !HasSecret("api key")
  {
    var s := "api key";
    forall i | 0 <= i <= |s| ensures !SecretAt(s, i) {
      if i + 6 <= |s| {
        assert Fold(s[i], true) != 'b';
      }
      forall k | 0 <= k < |SECRET_WORDS| ensures !MatchesAt(s, i, SECRET_WORDS[k], true) {
        if i + |SECRET_WORDS[k]| <= |s| {
          if i == 0 && k <= 2 {
            assert Fold(s[3], true) != SECRET_WORDS[k][3];
          } else {
            assert Fold(s[i], true) != SECRET_WORDS[k][0];
          }
        }
      }
    }
  }
}
