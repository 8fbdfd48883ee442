/**
  The two string steps shared by the backend's and the frontend's reading of a
  repository URL: the non-empty '/'-separated segments of a path
  (`pathname.split("/").filter(Boolean)`) and the removal of a trailing
  ".git", matched case-insensitively (`replace(/\.git$/i, "")`).
 */
module RepoUrl {
  import opened Strings

  /** The pieces that are not empty, in order (`.filter(Boolean)` on strings). */
  function NonEmpty(pieces: seq<string>): (r: seq<string>)
    ensures |r| <= |pieces|
    ensures forall k :: 0 <= k < |r| ==> r[k] != ""
  {
    if pieces == [] then [] else (if pieces[0] != "" then [pieces[0]] else []) + NonEmpty(pieces[1..])
  }

  lemma {:induction false} NonEmptyAppend(a: seq<string>, b: seq<string>)
    ensures NonEmpty(a + b) == NonEmpty(a) + NonEmpty(b)
  {
    if a != [] {
      assert (a + b)[1..] == a[1..] + b;
      NonEmptyAppend(a[1..], b);
    } else {
      assert a + b == b;
    }
  }

  /** `pathname.split("/").filter(Boolean)`. */
  function PathSegments(path: string): (r: seq<string>)
    ensures forall k :: 0 <= k < |r| ==> r[k] != "" && '/' !in r[k]
  {
    var pieces := SplitAny(path, {'/'});
    assert forall k :: 0 <= k < |pieces| ==> '/' !in pieces[k] by {
      forall k | 0 <= k < |pieces| ensures '/' !in pieces[k] {
        assert forall j :: 0 <= j < |pieces[k]| ==> pieces[k][j] != '/';
      }
    }
    NonEmptyKeeps(pieces);
    NonEmpty(pieces)
  }

  /** Every piece `NonEmpty` keeps is one of its input pieces. */
  lemma {:induction false} NonEmptyKeeps(pieces: seq<string>)
    ensures forall k :: 0 <= k < |NonEmpty(pieces)| ==> NonEmpty(pieces)[k] in pieces
  {
    if pieces != [] {
      NonEmptyKeeps(pieces[1..]);
      assert pieces == [pieces[0]] + pieces[1..];
    }
  }

  /** A path `/owner/repo` followed by more segments starts with `owner` and `repo`. */
  lemma {:induction false} OwnerRepoPath(owner: string, repo: string, rest: string)
    requires owner != "" && repo != "" && '/' !in owner && '/' !in repo
    requires rest == "" || rest[0] == '/'
    ensures |PathSegments("/" + owner + "/" + repo + rest)| >= 2
    ensures PathSegments("/" + owner + "/" + repo + rest)[0] == owner
    ensures PathSegments("/" + owner + "/" + repo + rest)[1] == repo
  {
    var seps := {'/'};
    var tail := if rest == "" then "" else rest[1..];
    var repoPart := if rest == "" then repo else repo + "/" + tail;
    assert "/" + owner + "/" + repo + rest == [] + ['/'] + (owner + ['/'] + repoPart);
    SplitAnyConcat([], '/', owner + ['/'] + repoPart, seps);
    SplitAnyConcat(owner, '/', repoPart, seps);
    SplitAnyNone(owner, seps);
    assert SplitAny([], seps) == [""];
    var after := if rest == "" then [repo] else
      (assert repoPart == repo + ['/'] + tail;
       SplitAnyConcat(repo, '/', tail, seps);
       SplitAnyNone(repo, seps);
       [repo] + SplitAny(tail, seps));
    assert SplitAny(repoPart, seps) == after by {
      if rest == "" {
        SplitAnyNone(repo, seps);
      }
    }
    var pieces := [""] + [owner] + after;
    assert SplitAny("/" + owner + "/" + repo + rest, seps) == pieces;
    NonEmptyAppend([""] + [owner], after);
    NonEmptyAppend([""], [owner]);
    assert after == [repo] + after[1..];
    NonEmptyAppend([repo], after[1..]);
    assert NonEmpty([""]) == [] && NonEmpty([owner]) == [owner] && NonEmpty([repo]) == [repo];
  }

  /** `parts[i] || ""`. */
  function SegmentOr(parts: seq<string>, i: nat): string {
    if i < |parts| then parts[i] else ""
  }

  predicate EndsWithGitCI(s: string) {
    |s| >= 4 && ToLower(s[|s| - 4..]) == ".git"
  }

  /** `s.replace(/\.git$/i, "")`: a final ".git", in any letter case, is removed. */
  function StripGitSuffix(s: string): (r: string)
    ensures EndsWithGitCI(s) ==> r == s[..|s| - 4] && |r| + 4 == |s|
    ensures !EndsWithGitCI(s) ==> r == s
  {
    if EndsWithGitCI(s) then s[..|s| - 4] else s
  }

  /** Any letter case of ".git" after a name is removed, leaving the name. */
  lemma {:induction false} StripGitOfSuffixed(name: string, ext: string)
    requires |ext| == 4 && ToLower(ext) == ".git"
    ensures StripGitSuffix(name + ext) == name
  {
    var s := name + ext;
    assert s[|s| - 4..] == ext;
    assert s[..|s| - 4] == name;
  }

  /** A name that does not end in ".git" is kept as it is. */
  lemma {:induction false} StripGitOfPlain(name: string)
    requires !EndsWithGitCI(name)
    ensures StripGitSuffix(name) == name
  {
  }
}
