/**
  The commit fetcher (backend/fetchData.js): where the repository's owner and
  name come from, and how the list of commits it writes is built from the
  GitHub listing pages and the per-commit details. Every network call is an
  oracle (a function parameter) whose `Err` stands for a thrown request; the
  URL parser is an oracle from a text to its pathname (`None` when `new URL`
  throws).
 */
module FetchData {
  import opened Wrappers
  import opened Strings
  import opened JsonValue
  import opened AssocList
  import opened RepoUrl

  // ---------------------------------------------------------------- parseOwnerRepoFromUrl

  /** `true` when the text has no "://" and exactly one '/'. */
  predicate IsOwnerSlashRepo(s: string) {
    !Contains(s, "://") && |SplitAny(s, {'/'})| == 2
  }

  /**
    `parseOwnerRepoFromUrl(raw)`: empty parts for a falsy input; "owner/repo"
    split at its slash; otherwise the first two segments of the URL's path,
    with empty parts when the URL does not parse. A truthy value that is not
    a string throws inside the `try` (it has no `includes` or no `split`),
    which also gives empty parts.
   */
  function ParseOwnerRepo(raw: Json, pathname: string -> Option<string>): (string, string) {
    if !Truthy(raw) || !raw.JStr? then ("", "")
    else if IsOwnerSlashRepo(raw.s) then
      var parts := SplitAny(raw.s, {'/'});
      (parts[0], StripGitSuffix(parts[1]))
    else
      match pathname(raw.s)
      case None => ("", "")
      case Some(path) =>
        var parts := PathSegments(path);
        (SegmentOr(parts, 0), StripGitSuffix(SegmentOr(parts, 1)))
  }

  /** A falsy input, or a value that is not a string, reads as empty parts, whatever the URL parser says. */
  lemma {:induction false} ParseNotAString(raw: Json, pathname: string -> Option<string>)
    requires !Truthy(raw) || !raw.JStr?
    ensures ParseOwnerRepo(raw, pathname) == ("", "")
  {
  }

  /** "owner/repo" (no scheme, one slash) reads as its two sides, with a ".git" in any case removed from the name. */
  lemma {:induction false} ParseSlashForm(owner: string, repo: string, ext: string, pathname: string -> Option<string>)
    requires '/' !in owner && '/' !in repo && !Contains(owner + "/" + repo + ext, "://")
    requires ext == "" || (|ext| == 4 && ToLower(ext) == ".git")
    requires !EndsWithGitCI(repo) || ext != ""
    requires owner + "/" + repo + ext != ""
    ensures ParseOwnerRepo(JStr(owner + "/" + repo + ext), pathname) == (owner, repo)
  {
    var s := owner + "/" + repo + ext;
    var seps := {'/'};
    assert '/' !in ext by {
      if ext != "" {
        assert ToLower(ext)[0] == '.';
        assert ext[0] != '/' && ext[1] != '/' && ext[2] != '/' && ext[3] != '/';
      }
    }
    assert forall i :: 0 <= i < |repo + ext| ==> (repo + ext)[i] != '/';
    assert s == owner + ['/'] + (repo + ext);
    SplitAnyConcat(owner, '/', repo + ext, seps);
    SplitAnyNone(owner, seps);
    SplitAnyNone(repo + ext, seps);
    assert SplitAny(s, seps) == [owner, repo + ext];
    if ext == "" {
      assert repo + ext == repo;
    } else {
      StripGitOfSuffixed(repo, ext);
    }
  }

  /** A URL whose path is `/owner/repo…` reads as (owner, repo without ".git"); one that does not parse reads as empty parts. */
  lemma {:induction false} ParseUrlForm(url: string, owner: string, repo: string, rest: string, pathname: string -> Option<string>)
    requires Contains(url, "://")
    requires owner != "" && repo != "" && '/' !in owner && '/' !in repo && (rest == "" || rest[0] == '/')
    ensures pathname(url) == Some("/" + owner + "/" + repo + rest) ==>
      ParseOwnerRepo(JStr(url), pathname) == (owner, StripGitSuffix(repo))
    ensures pathname(url).None? ==> ParseOwnerRepo(JStr(url), pathname) == ("", "")
  {
    ContainsShorter(url, "://");
    if pathname(url) == Some("/" + owner + "/" + repo + rest) {
      OwnerRepoPath(owner, repo, rest);
    }
  }

  // ---------------------------------------------------------------- readRepoInfo

  /** The state of `repo.json`: absent, not JSON, or parsed. */
  datatype RepoFile = Absent | Unparsable | Parsed(r: Json)

  /** `{ url, owner, repo }`. */
  function RepoInfo(url: string, owner: string, repo: string): Json {
    JObj([("url", JStr(url)), ("owner", JStr(owner)), ("repo", JStr(repo))])
  }

  /**
    `readRepoInfo()`: REPO_URL, REPO_OWNER and REPO_NAME (each `""` when
    unset) take precedence when the URL or both parts are set; otherwise
    `repo.json` must exist, and its owner and name, filled from its url where
    missing, must both be set.
   */
  function ReadRepoInfo(envUrl: string, envOwner: string, envRepo: string, file: RepoFile,
                        pathname: string -> Option<string>): Result<Json> {
    var u, o, n := Trim(envUrl), Trim(envOwner), Trim(envRepo);
    if u != "" || (o != "" && n != "") then
      var parsed := ParseOwnerRepo(JStr(u), pathname);
      var owner := if o != "" then o else parsed.0;
      var repo := if n != "" then n else parsed.1;
      if owner == "" || repo == "" then Err("Invalid env repo info")
      else Ok(RepoInfo(if u != "" then u else "https://github.com/" + owner + "/" + repo, owner, repo))
    else
      match file
      case Absent => Err("Repo info not found. Save a repository first.")
      case Unparsable => Err("repo.json is not valid JSON")
      case Parsed(r) =>
        if r == JNull then Err("Cannot read properties of null")
        else
          var r' := PatchFromUrl(r, pathname);
          if !Truthy(Field(r', "owner")) || !Truthy(Field(r', "repo")) then Err("Invalid repo info: requires owner/repo")
          else Ok(r')
  }

  /** Lines 65-69: where owner or repo is missing and a url is there, fill each missing one from the url. */
  function PatchFromUrl(r: Json, pathname: string -> Option<string>): Json {
    var owner, repo, url := Field(r, "owner"), Field(r, "repo"), Field(r, "url");
    if (!Truthy(owner) || !Truthy(repo)) && Truthy(url) then
      var parsed := ParseOwnerRepo(url, pathname);
      var step := Put(r.fields, "owner", Or(owner, JStr(parsed.0)));
      JObj(Put(step, "repo", Or(repo, JStr(parsed.1))))
    else r
  }

  /** The fields of the patched file: set ones are kept, missing ones come from the url, every other field is unchanged. */
  lemma {:induction false} PatchFromUrlSpec(r: Json, pathname: string -> Option<string>, k: string)
    requires r.JObj?
    ensures var owner, repo, url := Field(r, "owner"), Field(r, "repo"), Field(r, "url");
      var p := PatchFromUrl(r, pathname);
      var parsed := ParseOwnerRepo(url, pathname);
      && (Truthy(owner) ==> Field(p, "owner") == owner)
      && (Truthy(repo) ==> Field(p, "repo") == repo)
      && ((!Truthy(owner) || !Truthy(repo)) && Truthy(url) ==>
            && (!Truthy(owner) ==> Field(p, "owner") == JStr(parsed.0))
            && (!Truthy(repo) ==> Field(p, "repo") == JStr(parsed.1)))
      && (k != "owner" && k != "repo" ==> Field(p, k) == Field(r, k))
  {
    var owner, repo, url := Field(r, "owner"), Field(r, "repo"), Field(r, "url");
    if (!Truthy(owner) || !Truthy(repo)) && Truthy(url) {
      var parsed := ParseOwnerRepo(url, pathname);
      var step := Put(r.fields, "owner", Or(owner, JStr(parsed.0)));
      var kk := k;
      GetOrPut(r.fields, "owner", Or(owner, JStr(parsed.0)), "owner", JNull);
      GetOrPut(r.fields, "owner", Or(owner, JStr(parsed.0)), kk, JNull);
      GetOrPut(r.fields, "owner", Or(owner, JStr(parsed.0)), "repo", JNull);
      GetOrPut(step, "repo", Or(repo, JStr(parsed.1)), "repo", JNull);
      GetOrPut(step, "repo", Or(repo, JStr(parsed.1)), "owner", JNull);
      GetOrPut(step, "repo", Or(repo, JStr(parsed.1)), kk, JNull);
    }
  }

  /** With both REPO_OWNER and REPO_NAME set, they are the answer whatever REPO_URL says. */
  lemma {:induction false} EnvPartsWin(envUrl: string, envOwner: string, envRepo: string, file: RepoFile, pathname: string -> Option<string>)
    requires Trim(envOwner) != "" && Trim(envRepo) != ""
    ensures var u := Trim(envUrl);
      ReadRepoInfo(envUrl, envOwner, envRepo, file, pathname) ==
        Ok(RepoInfo(if u != "" then u else "https://github.com/" + Trim(envOwner) + "/" + Trim(envRepo), Trim(envOwner), Trim(envRepo)))
  {
  }

  /**
    The environment branch fails exactly when the owner or the name is still
    empty; the file is read only when neither the URL nor both parts are set,
    and then an absent file fails.
   */
  lemma {:induction false} ReadRepoInfoErrors(envUrl: string, envOwner: string, envRepo: string, file: RepoFile, pathname: string -> Option<string>)
    ensures var u, o, n := Trim(envUrl), Trim(envOwner), Trim(envRepo);
      var parsed := ParseOwnerRepo(JStr(u), pathname);
      var res := ReadRepoInfo(envUrl, envOwner, envRepo, file, pathname);
      && (u != "" || (o != "" && n != "") ==>
            (res.Err? <==> (o == "" && parsed.0 == "") || (n == "" && parsed.1 == "")))
      && (u == "" && (o == "" || n == "") && file == Absent ==> res.Err?)
      && (u == "" && (o == "" || n == "") && res.Ok? ==>
            Truthy(Field(res.value, "owner")) && Truthy(Field(res.value, "repo")))
  {
  }

  // ---------------------------------------------------------------- fetchAllCommits

  /** One entry of the written commits list. */
  datatype CommitEntry = CommitEntry(sha: Json, author: Json, stats: Json)

  const ZeroStats: Json := JObj([("additions", JNum(0.0)), ("deletions", JNum(0.0))])

  /** `(c.commit && c.commit.author && c.commit.author.name) || (c.author && c.author.login) || "Unknown"`. */
  function AuthorOf(c: Json): (a: Json)
    ensures Truthy(a)
    ensures Truthy(Field(Field(Field(c, "commit"), "author"), "name")) ==> a == Field(Field(Field(c, "commit"), "author"), "name")
    ensures !Truthy(Field(Field(Field(c, "commit"), "author"), "name")) && Truthy(Field(Field(c, "author"), "login")) ==>
      a == Field(Field(c, "author"), "login")
    ensures !Truthy(Field(Field(Field(c, "commit"), "author"), "name")) && !Truthy(Field(Field(c, "author"), "login")) ==>
      a == JStr("Unknown")
  {
    Or(Field(Field(Field(c, "commit"), "author"), "name"), Or(Field(Field(c, "author"), "login"), JStr("Unknown")))
  }

  /** A fetched detail, or the fallback when the request (or reading `j.commit` of a `null` body) throws. */
  function DetailEntry(sha: Json, fetched: Result<Json>): CommitEntry {
    if fetched.Err? || fetched.value == JNull then CommitEntry(sha, JStr("Unknown"), ZeroStats)
    else CommitEntry(sha, AuthorOf(fetched.value), Or(Field(fetched.value, "stats"), ZeroStats))
  }

  /** A summary past the detail limit: its own author and zero stats. */
  function SummaryEntry(s: Json): CommitEntry {
    CommitEntry(Field(s, "sha"), AuthorOf(s), ZeroStats)
  }

  const PerPage: nat := 100
  const MaxPages: nat := 10

  /**
    The summaries gathered from page `page` on: a failed request fails the
    whole fetch; a page that is not an array or is empty stops; a short page
    is the last; page 10 is the last.
   */
  function SummariesFrom(listPage: nat -> Result<Json>, page: nat): Result<seq<Json>>
    requires 1 <= page <= MaxPages
    decreases MaxPages - page
  {
    match listPage(page)
    case Err(e) => Err(e)
    case Ok(batch) =>
      if !batch.JArr? || |batch.items| == 0 then Ok([])
      else if |batch.items| < PerPage || page + 1 > MaxPages then Ok(batch.items)
      else
        match SummariesFrom(listPage, page + 1)
        case Err(e) => Err(e)
        case Ok(more) => Ok(batch.items + more)
  }

  /** The entries for the summaries: the first `maxDetailed` from their details, the rest from the summaries. */
  function Detailed(summaries: seq<Json>, detail: Json -> Result<Json>, maxDetailed: nat): (out: seq<CommitEntry>)
    ensures |out| == |summaries|
    ensures forall i :: 0 <= i < |out| ==> out[i].sha == Field(summaries[i], "sha")
  {
    seq(|summaries|, i requires 0 <= i < |summaries| =>
      var sha := Field(summaries[i], "sha");
      if i < maxDetailed then DetailEntry(sha, detail(sha)) else SummaryEntry(summaries[i]))
  }

  /** `fetchAllCommits(owner, repo, token, maxDetailed)`; reading `.sha` of a `null` summary throws. */
  function AllCommits(listPage: nat -> Result<Json>, detail: Json -> Result<Json>, maxDetailed: nat): Result<seq<CommitEntry>> {
    match SummariesFrom(listPage, 1)
    case Err(e) => Err(e)
    case Ok(summaries) =>
      if exists i :: 0 <= i < |summaries| && summaries[i] == JNull then Err("Cannot read properties of null (reading 'sha')")
      else Ok(Detailed(summaries, detail, maxDetailed))
  }

  /** The summaries gathered so far, in front of the outcome of the remaining pages. */
  function Prepend(gathered: seq<Json>, rest: Result<seq<Json>>): Result<seq<Json>> {
    match rest
    case Err(e) => Err(e)
    case Ok(more) => Ok(gathered + more)
  }

  lemma {:induction false} PrependNothing(rest: Result<seq<Json>>)
    ensures Prepend([], rest) == rest
  {
    if rest.Ok? {
      assert [] + rest.value == rest.value;
    }
  }

  lemma {:induction false} PrependTwice(a: seq<Json>, b: seq<Json>, rest: Result<seq<Json>>)
    ensures Prepend(a, Prepend(b, rest)) == Prepend(a + b, rest)
  {
    if rest.Ok? {
      assert a + (b + rest.value) == (a + b) + rest.value;
    }
  }

  /** The listing loop of lines 98-107. */
  method FetchSummaries(listPage: nat -> Result<Json>) returns (r: Result<seq<Json>>)
    ensures r == SummariesFrom(listPage, 1)
  {
    var page: nat := 1;
    var summaries: seq<Json> := [];
    PrependNothing(SummariesFrom(listPage, 1));
    while true
      invariant 1 <= page <= MaxPages
      invariant SummariesFrom(listPage, 1) == Prepend(summaries, SummariesFrom(listPage, page))
      decreases MaxPages - page
    {
      var res := listPage(page);
      if res.Err? {
        return Err(res.msg);
      }
      var batch := res.value;
      if !batch.JArr? || |batch.items| == 0 {
        assert summaries + [] == summaries;
        break;
      }
      if |batch.items| < PerPage || page + 1 > MaxPages {
        summaries := summaries + batch.items;
        break;
      }
      PrependTwice(summaries, batch.items, SummariesFrom(listPage, page + 1));
      summaries := summaries + batch.items;
      page := page + 1;
    }
    return Ok(summaries);
  }

  /** The two loops of lines 109-134. */
  method DetailAll(summaries: seq<Json>, detail: Json -> Result<Json>, maxDetailed: nat) returns (r: Result<seq<CommitEntry>>)
    ensures (exists i :: 0 <= i < |summaries| && summaries[i] == JNull) ==> r.Err?
    ensures (forall i :: 0 <= i < |summaries| ==> summaries[i] != JNull) ==> r == Ok(Detailed(summaries, detail, maxDetailed))
  {
    var out: seq<CommitEntry> := [];
    var limit := if |summaries| < maxDetailed then |summaries| else maxDetailed;
    for i := 0 to limit
      invariant |out| == i
      invariant forall j :: 0 <= j < i ==> summaries[j] != JNull
      invariant forall j :: 0 <= j < i ==> out[j] == Detailed(summaries, detail, maxDetailed)[j]
    {
      if summaries[i] == JNull {
        return Err("Cannot read properties of null (reading 'sha')");
      }
      var sha := Field(summaries[i], "sha");
      out := out + [DetailEntry(sha, detail(sha))];
    }
    var i := maxDetailed;
    while i < |summaries|
      invariant maxDetailed <= i
      invariant |out| == if i < |summaries| then i else |summaries|
      invariant forall j :: 0 <= j < |out| ==> summaries[j] != JNull
      invariant forall j :: 0 <= j < |out| ==> out[j] == Detailed(summaries, detail, maxDetailed)[j]
    {
      if summaries[i] == JNull {
        return Err("Cannot read properties of null (reading 'sha')");
      }
      out := out + [SummaryEntry(summaries[i])];
      i := i + 1;
    }
    assert out == Detailed(summaries, detail, maxDetailed);
    return Ok(out);
  }

  /** `fetchAllCommits`: the listing loop, then the detail loops. */
  method FetchAllCommits(listPage: nat -> Result<Json>, detail: Json -> Result<Json>, maxDetailed: nat)
    returns (r: Result<seq<CommitEntry>>)
    ensures r == AllCommits(listPage, detail, maxDetailed)
  {
    var summaries := FetchSummaries(listPage);
    if summaries.Err? {
      return Err(summaries.msg);
    }
    r := DetailAll(summaries.value, detail, maxDetailed);
    if r.Err? {
      r := Err("Cannot read properties of null (reading 'sha')");
    }
  }

  /** Pages after the tenth are never requested: two listings that agree on pages 1..10 give the same summaries. */
  lemma {:induction false} OnlyTenPages(l1: nat -> Result<Json>, l2: nat -> Result<Json>, page: nat)
    requires 1 <= page <= MaxPages
    requires forall p :: page <= p <= MaxPages ==> l1(p) == l2(p)
    ensures SummariesFrom(l1, page) == SummariesFrom(l2, page)
    decreases MaxPages - page
  {
    if page < MaxPages {
      OnlyTenPages(l1, l2, page + 1);
    }
  }

  /** When every page holds at most 100 commits, at most 1000 are gathered. */
  lemma {:induction false} AtMostThousand(listPage: nat -> Result<Json>, page: nat)
    requires 1 <= page <= MaxPages
    requires forall p :: 1 <= p <= MaxPages && listPage(p).Ok? && listPage(p).value.JArr? ==> |listPage(p).value.items| <= PerPage
    ensures SummariesFrom(listPage, page).Ok? ==> |SummariesFrom(listPage, page).value| <= PerPage * (MaxPages - page + 1)
    decreases MaxPages - page
  {
    if page < MaxPages {
      AtMostThousand(listPage, page + 1);
    }
  }

  /**
    Each entry carries its summary's sha; an entry within the detail limit
    whose request failed is "Unknown" with zero stats; every entry past the
    limit has zero stats and the summary's own author.
   */
  lemma {:induction false} DetailedSpec(summaries: seq<Json>, detail: Json -> Result<Json>, maxDetailed: nat, i: int)
    requires 0 <= i < |summaries|
    ensures var e := Detailed(summaries, detail, maxDetailed)[i];
      var sha := Field(summaries[i], "sha");
      && e.sha == sha
      && Truthy(e.author)
      && (i < maxDetailed && detail(sha).Err? ==> e == CommitEntry(sha, JStr("Unknown"), ZeroStats))
      && (i < maxDetailed && detail(sha).Ok? && detail(sha).value != JNull ==>
            e.author == AuthorOf(detail(sha).value) && Truthy(e.stats))
      && (i >= maxDetailed ==> e.stats == ZeroStats && e.author == AuthorOf(summaries[i]))
  {
  }
}
