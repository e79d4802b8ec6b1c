/** The GitHub URL handling of `gitcmds`: the `org/repo` of an issue URL and
    the dev-branch plan of a GitHub issue. The `gh issue view` call that
    fetches the title is a parameter. */
module GitHub {
  import opened Common
  import opened Text
  import opened Notes
  import opened Issue

  /** Segment count an issue URL must exceed, and the offsets from the end
      of its repository and organisation segments
      (`https://github.com/org/repo/issues/N`). */
  const IssueLineLength: nat := 5
  const IssueLinePosRepo: nat := 3
  const IssueLinePosOrg: nat := 4

  /** The URL without one trailing slash. */
  function StripTrailingSlash(url: string): (r: string)
    ensures HasSuffix(url, "/") ==> r + "/" == url
    ensures !HasSuffix(url, "/") ==> r == url
  {
    TrimSuffix(url, "/")
  }

  /** `org/repo` read at fixed offsets from the end of an issue URL, or ""
      when the URL is shorter than two bytes or has too few segments. */
  function GetGithubIssueRepoFromURL(url: string): (repoName: string)
    ensures |url| < 2 ==> repoName == ""
    ensures repoName == "" <==> |url| < 2 || |Split(StripTrailingSlash(url), '/')| <= IssueLineLength
    ensures repoName != "" ==>
      var arr := Split(StripTrailingSlash(url), '/');
      && repoName == arr[|arr| - IssueLinePosOrg] + "/" + arr[|arr| - IssueLinePosRepo]
      && OneSlash(repoName)
  {
    if |url| < 2 then "" else RepoAtOffsets(Split(StripTrailingSlash(url), '/'))
  }

  /** The organisation and repository segments of a split URL joined by
      `/`, or "" when there are too few segments. */
  function RepoAtOffsets(arr: seq<string>): (repoName: string)
    requires forall i :: 0 <= i < |arr| ==> '/' !in arr[i]
    ensures repoName == "" <==> |arr| <= IssueLineLength
    ensures repoName != "" ==>
      && repoName == arr[|arr| - IssueLinePosOrg] + "/" + arr[|arr| - IssueLinePosRepo]
      && OneSlash(repoName)
  {
    if |arr| > IssueLineLength then
      var org, repo := arr[|arr| - IssueLinePosOrg], arr[|arr| - IssueLinePosRepo];
      assert (org + "/" + repo)[|org|] == '/';
      assert (org + "/" + repo)[..|org|] == org && (org + "/" + repo)[|org| + 1..] == repo;
      org + "/" + repo
    else ""
  }

  /** Exactly one `/`, with text on neither side required. */
  ghost predicate OneSlash(s: string)
  {
    exists k :: 0 <= k < |s| && s[k] == '/' && '/' !in s[..k] && '/' !in s[k + 1..]
  }

  /** One trailing slash is stripped before splitting, so adding it to a URL
      that has none does not change the result. */
  lemma TrailingSlashIgnored(url: string)
    requires |url| >= 2 && !HasSuffix(url, "/")
    ensures GetGithubIssueRepoFromURL(url + "/") == GetGithubIssueRepoFromURL(url)
  {
    assert HasSuffix(url + "/", "/");
    assert StripTrailingSlash(url + "/") == url == StripTrailingSlash(url);
  }

  /** Only one slash is stripped: a second one leaves an empty last segment,
      which shifts the offsets by one. */
  lemma {:induction false} OnlyOneSlashStripped(url: string)
    requires |url| >= 1
    ensures StripTrailingSlash(url + "//") == url + "/"
    ensures Split(StripTrailingSlash(url + "//"), '/') == Split(url, '/') + [""]
  {
    assert url + "//" == (url + "/") + "/";
    SplitAppend(url, '/', "");
    assert url + ['/'] + "" == url + "/";
  }

  /** The segments of an issue URL `p/org/repo/issues/n`. */
  lemma IssueURLSegments(p: string, org: string, repo: string, n: string)
    requires '/' !in org && '/' !in repo && '/' !in n
    ensures Split(p + "/" + org + "/" + repo + IssuesMarker + n, '/') == Split(p, '/') + [org, repo, "issues", n]
  {
    var a1 := p + ['/'] + org;
    var a2 := a1 + ['/'] + repo;
    var a3 := a2 + ['/'] + "issues";
    assert p + "/" + org + "/" + repo + IssuesMarker + n == a3 + ['/'] + n;
    SplitAppend(p, '/', org);
    SplitAppend(a1, '/', repo);
    SplitAppend(a2, '/', "issues");
    SplitAppend(a3, '/', n);
  }

  /** For an issue URL `p/org/repo/issues/n` whose prefix `p` holds a slash,
      the result is `org/repo`. */
  lemma RepoOfIssueURL(p: string, org: string, repo: string, n: string)
    requires '/' in p && '/' !in org && '/' !in repo && '/' !in n && n != ""
    ensures GetGithubIssueRepoFromURL(p + "/" + org + "/" + repo + IssuesMarker + n) == org + "/" + repo
  {
    var url := p + "/" + org + "/" + repo + IssuesMarker + n;
    IssueURLSegments(p, org, repo, n);
    assert url[|url| - 1] == n[|n| - 1];
    assert StripTrailingSlash(url) == url;
    assert |Split(p, '/')| >= 2;
  }

  /** The URL of the tested issue. */
  lemma RepoExample(url: string)
    requires url == "https://github.com/voedger/voedger/issues/395"
    ensures GetGithubIssueRepoFromURL(url) == "voedger/voedger"
  {
    ExampleURLShape(url);
    RepoOfIssueURL("https://github.com", "voedger", "voedger", "395");
  }

  lemma ExampleURLShape(url: string)
    requires url == "https://github.com/voedger/voedger/issues/395"
    ensures url == "https://github.com" + "/" + "voedger" + "/" + "voedger" + IssuesMarker + "395"
    ensures '/' in "https://github.com" && '/' !in "voedger" && '/' !in "395"
  {
    assert "https://github.com"[6] == '/';
  }

  /** Plans the dev branch of a GitHub issue URL. The URL checks are those
      of the issue package; `fetchTitle(number, "owner/repo")` stands for the
      `gh issue view` call and the parsing of its answer. */
  function BuildDevBranchName(issueURL: string, fetchTitle: (string, string) -> Result<string>,
                              clean: string -> string, serialize: Note -> Result<string>): (r: Result<DevBranch>)
    ensures '/' !in issueURL ==> r == Err(InvalidIssueURLFormat(issueURL))
    ensures IssueURLParts(issueURL).Err? ==> r == Err(IssueURLParts(issueURL).error)
    ensures IssueURLParts(issueURL).Ok? ==>
      var u := IssueURLParts(issueURL).value;
      var title := fetchTitle(u.number, u.owner + "/" + u.repo);
      && (title.Err? ==> r == Err(title.error))
      && (title.Ok? ==>
            var notesObj := serialize(Note(issueURL, "", Dev, title.value));
            && (notesObj.Err? ==> r == Err(notesObj.error))
            && (notesObj.Ok? ==>
                  && r.Ok?
                  && HasSuffix(r.value.name, DevSuffix)
                  && r.value.name[..|r.value.name| - |DevSuffix|] == clean(TitleToKebabWithPrefix(u.number, title.value))
                  && |r.value.comments| == 3
                  && r.value.comments[0] == IssuePRTitlePrefix + " '" + title.value + "' "
                  && (r.value.comments[1] == "" <==> title.value == "")
                  && (title.value != "" ==> r.value.comments[1] == IssueSign + u.number + " " + title.value)
                  && r.value.comments[2] == notesObj.value))
  {
    match IssueURLParts(issueURL)
    case Err(e) => Err(e)
    case Ok(u) =>
      match fetchTitle(u.number, u.owner + "/" + u.repo)
      case Err(e) => Err(e)
      case Ok(title) =>
        var branchName := clean(TitleToKebabWithPrefix(u.number, title)) + DevSuffix;
        var comment := IssuePRTitlePrefix + " '" + title + "' ";
        var body := if |title| > 0 then IssueSign + u.number + " " + title else "";
        match serialize(Note(issueURL, "", Dev, title))
        case Err(e) => Err(e)
        case Ok(notesObj) =>
          assert branchName[..|branchName| - |DevSuffix|] == clean(TitleToKebabWithPrefix(u.number, title));
          Ok(DevBranch(branchName, [comment, body, notesObj]))
  }

  /** The GitHub package and the issue package plan the same branch for a
      URL that the issue package classifies as a GitHub issue. */
  lemma SameAsIssuePackage(url: string, jiraTicketID: seq<string> -> Option<string>,
                           fetchTitle: (string, string) -> Result<string>, jiraTitle: string -> Result<string>,
                           clean: string -> string, serialize: Note -> Result<string>)
    requires Contains(url, IssuesMarker)
    ensures var info := ParseIssueFromArgs([url], jiraTicketID).value;
      BuildDevBranchName(url, fetchTitle, clean, serialize)
        == Issue.BuildDevBranchName(info, fetchTitle, jiraTitle, clean, serialize)
  {
    var info := ParseIssueFromArgs([url], jiraTicketID).value;
    assert info.kind == GitHub && info.text == url && info.id == LastSegment(url);
  }
}
