/** Issue classification and dev-branch naming (internal/issue/issue.go).

    Calls into code outside the model are parameters:
    - `jiraTicketID`: the Jira ticket-key matcher applied to the arguments;
    - `ghTitle(id, "owner/repo")`: the title answer of `gh issue view`;
    - `jiraTitle(id)`: the title answer of the Jira API;
    - `clean`: the branch-name cleaner applied after truncation;
    - `serialize`: the notes codec. */
module Issue {
  import opened Common
  import opened Text
  import opened Notes

  datatype IssueType = FreeForm | GitHub | Jira

  /** A classified issue reference: `id` is the issue number (GitHub), the
      ticket key (Jira) or empty (free-form text); `text` is the raw argument. */
  datatype IssueInfo = IssueInfo(kind: IssueType, id: string, text: string)

  /** A planned dev branch: its name and the commit-message lines for it. */
  datatype DevBranch = DevBranch(name: string, comments: seq<string>)

  const MaximumBranchNameLength: nat := 100
  const IssuePRTitlePrefix: string := "Resolves issue"
  const IssueSign: string := "Resolves #"
  const IssuesMarker: string := "/issues/"
  const DevSuffix: string := "-dev"

  /** The text after the last `/` of `s`. */
  function LastSegment(s: string): string
  {
    var parts := Split(s, '/');
    parts[|parts| - 1]
  }

  lemma LastSegmentIsTail(s: string)
    ensures var id := LastSegment(s);
      && '/' !in id
      && HasSuffix(s, id)
      && (id != s ==> HasSuffix(s, "/" + id))
  {
    LastPieceFollowsLastSeparator(s, '/');
    var parts := Split(s, '/');
    var id := parts[|parts| - 1];
    assert HasSuffix(s, id);
    if id != s {
      var n := |s| - |id|;
      assert s[n - 1..] == [s[n - 1]] + s[n..];
    }
  }

  // ---------------------------------------------------------------------
  // Classification

  /** Sorts the first argument into GitHub, Jira or free-form text. The
      caller guarantees that there is a first argument. */
  function ParseIssueFromArgs(args: seq<string>, jiraTicketID: seq<string> -> Option<string>): (r: Result<IssueInfo>)
    requires |args| >= 1
    ensures r.Ok?
    ensures r.value.text == args[0]
    ensures r.value.kind == GitHub <==> Contains(args[0], IssuesMarker)
    ensures r.value.kind == Jira <==> !Contains(args[0], IssuesMarker) && jiraTicketID(args).Some?
    ensures r.value.kind == GitHub ==> r.value.id == LastSegment(args[0])
    ensures r.value.kind == Jira ==> r.value.id == jiraTicketID(args).value
    ensures r.value.kind == FreeForm ==> r.value.id == ""
  {
    var text := args[0];
    if Contains(text, IssuesMarker) then
      Ok(IssueInfo(GitHub, LastSegment(text), text))
    else match jiraTicketID(args)
      case Some(id) => Ok(IssueInfo(Jira, id, text))
      case None => Ok(IssueInfo(FreeForm, "", text))
  }

  /** A GitHub issue URL is classified GitHub whatever its last segment is:
      the issue number is not checked to be an integer. */
  lemma GithubIdIsTextAfterLastSlash(url: string, jiraTicketID: seq<string> -> Option<string>)
    requires Contains(url, IssuesMarker)
    ensures var info := ParseIssueFromArgs([url], jiraTicketID).value;
      && info.kind == GitHub
      && '/' !in info.id
      && HasSuffix(url, "/" + info.id)
  {
    LastSegmentIsTail(url);
    assert '/' in url by {
      ContainsHasByte(url, IssuesMarker, 0);
    }
    var id := LastSegment(url);
  }

  lemma {:induction false} ContainsHasByte(s: string, pattern: string, k: nat)
    requires Contains(s, pattern) && k < |pattern|
    ensures pattern[k] in s
    decreases |s|
  {
    if pattern <= s {
      assert s[k] == pattern[k];
    } else {
      ContainsHasByte(s[1..], pattern, k);
      assert forall c :: c in s[1..] ==> c in s;
    }
  }

  lemma ClassifyGithubExample(jiraTicketID: seq<string> -> Option<string>)
    ensures ParseIssueFromArgs(["https://github.com/voedger/voedger/issues/395"], jiraTicketID)
      == Ok(IssueInfo(GitHub, "395", "https://github.com/voedger/voedger/issues/395"))
  {
    var url := "https://github.com/voedger/voedger/issues/395";
    assert IssuesMarker <= url[34..];
    ContainsFrom(url, IssuesMarker, 34);
    assert url == "https://github.com/voedger/voedger/issues" + "/" + "395";
    LastSegmentAfterSlash("https://github.com/voedger/voedger/issues", "395");
  }

  /** The last segment of `prefix + "/" + w` is `w` when `w` has no `/`. */
  lemma LastSegmentAfterSlash(prefix: string, w: string)
    requires '/' !in w
    ensures LastSegment(prefix + "/" + w) == w
  {
    var s := prefix + "/" + w;
    LastPieceFollowsLastSeparator(s, '/');
    var last := LastSegment(s);
    var n := |s| - |w|;
    assert s[n - 1] == '/';
    assert forall k :: n <= k < |s| ==> s[k] == w[k - n];
    assert |last| <= |w| by {
      if |last| > |w| {
        assert false;
      }
    }
    assert |last| >= |w| by {
      if |last| < |w| {
        assert false;
      }
    }
    assert last == s[n..] == w;
  }

  lemma {:induction false} ContainsFrom(s: string, pattern: string, i: nat)
    requires i <= |s| && pattern <= s[i..]
    ensures Contains(s, pattern)
    decreases i
  {
    if i > 0 {
      assert s[1..][i - 1..] == s[i..];
      ContainsFrom(s[1..], pattern, i - 1);
    }
  }

  /** A Jira browse URL is classified Jira with the key the matcher finds. */
  lemma ClassifyJiraExample(jiraTicketID: seq<string> -> Option<string>)
    requires jiraTicketID(["https://untill.atlassian.net/browse/AIR-270"]) == Some("AIR-270")
    ensures ParseIssueFromArgs(["https://untill.atlassian.net/browse/AIR-270"], jiraTicketID)
      == Ok(IssueInfo(Jira, "AIR-270", "https://untill.atlassian.net/browse/AIR-270"))
  {
    var url := "https://untill.atlassian.net/browse/AIR-270";
    assert !Contains(url, IssuesMarker) by {
      NoMarkerIn(url);
    }
  }

  /** Plain text that the Jira matcher rejects is free-form. */
  lemma ClassifyFreeFormExample(jiraTicketID: seq<string> -> Option<string>)
    requires jiraTicketID(["some-feature-branch"]) == None
    ensures ParseIssueFromArgs(["some-feature-branch"], jiraTicketID)
      == Ok(IssueInfo(FreeForm, "", "some-feature-branch"))
  {
    NotContainsWithoutFirstByte("some-feature-branch", IssuesMarker);
  }

  /** A string in which no `/` is followed by `i` cannot contain `/issues/`. */
  lemma {:induction false} NoMarkerIn(s: string)
    requires forall k :: 0 <= k < |s| - 1 ==> s[k] == '/' ==> s[k + 1] != 'i'
    ensures !Contains(s, IssuesMarker)
    decreases |s|
  {
    if s != [] {
      assert |s| >= 2 && s[0] == '/' ==> s[1] != 'i';
      NoMarkerIn(s[1..]);
    }
  }

  // ---------------------------------------------------------------------
  // Kebab-case conversion

  predicate IsLowerAlnum(c: char)
  {
    'a' <= c <= 'z' || '0' <= c <= '9'
  }

  /** `strings.ToLower` on one ASCII byte. */
  function ToLowerByte(c: char): char
  {
    if 'A' <= c <= 'Z' then (c as int + 32) as char else c
  }

  predicate IsUpper(c: char)
  {
    'A' <= c <= 'Z'
  }

  /** `strings.ToLower` on an ASCII string: each upper-case letter becomes
      the lower-case letter of the same place in the alphabet, every other
      byte stays, and no upper-case letter is left. */
  function ToLower(s: string): (r: string)
    ensures |r| == |s|
    ensures forall i :: 0 <= i < |r| ==> !IsUpper(r[i])
    ensures forall i :: 0 <= i < |s| && !IsUpper(s[i]) ==> r[i] == s[i]
    ensures forall i :: 0 <= i < |s| && IsUpper(s[i]) ==>
      r[i] == "abcdefghijklmnopqrstuvwxyz"[s[i] as int - 'A' as int]
  {
    seq(|s|, i requires 0 <= i < |s| => ToLowerByte(s[i]))
  }

  /** Lower-casing twice is lower-casing once, and a string without an
      upper-case letter is its own lower case. */
  lemma ToLowerIdempotent(s: string)
    ensures ToLower(ToLower(s)) == ToLower(s)
    ensures (forall i :: 0 <= i < |s| ==> !IsUpper(s[i])) ==> ToLower(s) == s
  {
  }

  /** Drops the run of bytes outside `[a-z0-9]` at the front of `s`. */
  function SkipRun(s: string): (r: string)
    ensures |r| <= |s| && r == s[|s| - |r|..]
    ensures r == [] || IsLowerAlnum(r[0])
    decreases |s|
  {
    if s == [] || IsLowerAlnum(s[0]) then s else SkipRun(s[1..])
  }

  /** The regular-expression replacement of `[^a-z0-9]+` by `-`: every
      maximal run of bytes outside `[a-z0-9]` becomes one dash. */
  function CollapseRuns(s: string): string
    decreases |s|
  {
    if s == [] then []
    else if IsLowerAlnum(s[0]) then [s[0]] + CollapseRuns(s[1..])
    else "-" + CollapseRuns(SkipRun(s[1..]))
  }

  /** `strings.TrimLeft(s, "-")`. */
  function TrimLeftDashes(s: string): (r: string)
    ensures |r| <= |s| && r == s[|s| - |r|..]
    ensures r == [] || r[0] != '-'
    decreases |s|
  {
    if s != [] && s[0] == '-' then TrimLeftDashes(s[1..]) else s
  }

  /** `strings.TrimRight(s, "-")`. */
  function TrimRightDashes(s: string): (r: string)
    ensures r <= s
    ensures r == [] || r[|r| - 1] != '-'
    decreases |s|
  {
    if s != [] && s[|s| - 1] == '-' then TrimRightDashes(s[..|s| - 1]) else s
  }

  /** Lower-case, collapse every run outside `[a-z0-9]` into one dash, and
      trim dashes at both ends (`strings.Trim(s, "-")`). */
  function Kebab(title: string): string
  {
    TrimRightDashes(TrimLeftDashes(CollapseRuns(ToLower(title))))
  }

  /** Only `[a-z0-9-]`, and never two dashes in a row. */
  ghost predicate RunsCollapsed(s: string)
  {
    && (forall i :: 0 <= i < |s| ==> IsLowerAlnum(s[i]) || s[i] == '-')
    && (forall i, j :: 0 <= i < j < |s| && j == i + 1 ==> s[i] == '-' ==> s[j] != '-')
  }

  /** The shape of a kebab-case string: collapsed runs and no dash at either end. */
  ghost predicate IsKebab(s: string)
  {
    RunsCollapsed(s) && (s != [] ==> s[0] != '-' && s[|s| - 1] != '-')
  }

  lemma {:induction false} CollapseRunsShape(s: string)
    ensures RunsCollapsed(CollapseRuns(s))
    ensures s != [] && IsLowerAlnum(s[0]) ==> CollapseRuns(s) != [] && CollapseRuns(s)[0] == s[0]
    ensures s == [] ==> CollapseRuns(s) == []
    decreases |s|
  {
    if s != [] {
      if IsLowerAlnum(s[0]) {
        CollapseRunsShape(s[1..]);
      } else {
        var rest := SkipRun(s[1..]);
        CollapseRunsShape(rest);
        assert CollapseRuns(s) == "-" + CollapseRuns(rest);
      }
    }
  }

  lemma RunsCollapsedSlice(s: string, i: nat, j: nat)
    requires RunsCollapsed(s) && i <= j <= |s|
    ensures RunsCollapsed(s[i..j])
  {
    var t := s[i..j];
    forall k, m | 0 <= k < m < |t| && m == k + 1 && t[k] == '-'
      ensures t[m] != '-'
    {
      assert t[k] == s[i + k] && t[m] == s[i + m];
    }
  }

  /** Every kebab conversion has the kebab shape. */
  lemma KebabShape(title: string)
    ensures IsKebab(Kebab(title))
  {
    CollapseRunsShape(ToLower(title));
    TrimmedShape(CollapseRuns(ToLower(title)));
  }

  lemma TrimmedShape(c: string)
    requires RunsCollapsed(c)
    ensures IsKebab(TrimRightDashes(TrimLeftDashes(c)))
  {
    var l := TrimLeftDashes(c);
    RunsCollapsedSlice(c, |c| - |l|, |c|);
    TrimRightShape(l);
  }

  lemma TrimRightShape(l: string)
    requires RunsCollapsed(l) && (l == [] || l[0] != '-')
    ensures IsKebab(TrimRightDashes(l))
  {
    var r := TrimRightDashes(l);
    assert r == l[..|r|];
    RunsCollapsedSlice(l, 0, |r|);
    if r != [] {
      assert r[0] == l[0];
    }
  }

  /** A string that already has the kebab shape is its own conversion. */
  lemma {:induction false} KebabFixesKebab(s: string)
    requires IsKebab(s)
    ensures Kebab(s) == s
  {
    assert ToLower(s) == s;
    CollapseRunsFixes(s);
  }

  lemma {:induction false} CollapseRunsFixes(s: string)
    requires RunsCollapsed(s)
    ensures CollapseRuns(s) == s
    decreases |s|
  {
    if s != [] {
      var tail := s[1..];
      RunsCollapsedSlice(s, 1, |s|);
      CollapseRunsFixes(tail);
      if IsLowerAlnum(s[0]) {
        assert CollapseRuns(s) == [s[0]] + CollapseRuns(tail);
      } else {
        assert s[0] == '-';
        if tail != [] {
          assert tail[0] == s[1];
          assert IsLowerAlnum(tail[0]);
        }
        assert SkipRun(tail) == tail;
        assert CollapseRuns(s) == "-" + CollapseRuns(tail);
      }
      assert s == [s[0]] + tail;
    }
  }

  /** Converting twice is converting once. */
  lemma KebabIdempotent(title: string)
    ensures Kebab(Kebab(title)) == Kebab(title)
  {
    KebabShape(title);
    KebabFixesKebab(Kebab(title));
  }

  /** The bytes of `s` in `[a-z0-9]`, in order. */
  function AlnumOf(s: string): string
  {
    if s == [] then []
    else if IsLowerAlnum(s[0]) then [s[0]] + AlnumOf(s[1..])
    else AlnumOf(s[1..])
  }

  lemma {:induction false} AlnumOfAppend(a: string, b: string)
    ensures AlnumOf(a + b) == AlnumOf(a) + AlnumOf(b)
    decreases |a|
  {
    if a != [] {
      assert (a + b)[0] == a[0];
      assert (a + b)[1..] == a[1..] + b;
      AlnumOfAppend(a[1..], b);
    } else {
      assert a + b == b;
    }
  }

  lemma {:induction false} AlnumOfSkipRun(s: string)
    ensures AlnumOf(SkipRun(s)) == AlnumOf(s)
    decreases |s|
  {
    if s != [] && !IsLowerAlnum(s[0]) {
      AlnumOfSkipRun(s[1..]);
    }
  }

  lemma {:induction false} AlnumOfCollapseRuns(s: string)
    ensures AlnumOf(CollapseRuns(s)) == AlnumOf(s)
    decreases |s|
  {
    if s != [] {
      if IsLowerAlnum(s[0]) {
        AlnumOfCollapseRuns(s[1..]);
        AlnumOfAppend([s[0]], CollapseRuns(s[1..]));
      } else {
        var rest := SkipRun(s[1..]);
        AlnumOfCollapseRuns(rest);
        AlnumOfSkipRun(s[1..]);
        AlnumOfAppend("-", CollapseRuns(rest));
      }
    }
  }

  lemma {:induction false} AlnumOfTrimLeft(s: string)
    ensures AlnumOf(TrimLeftDashes(s)) == AlnumOf(s)
    decreases |s|
  {
    if s != [] && s[0] == '-' {
      AlnumOfTrimLeft(s[1..]);
    }
  }

  lemma {:induction false} AlnumOfTrimRight(s: string)
    ensures AlnumOf(TrimRightDashes(s)) == AlnumOf(s)
    decreases |s|
  {
    if s != [] && s[|s| - 1] == '-' {
      var init := s[..|s| - 1];
      AlnumOfTrimRight(init);
      assert s == init + "-";
      AlnumOfAppend(init, "-");
    }
  }

  /** The conversion loses only separators: the letters and digits of the
      lower-cased title all survive, in order. */
  lemma KebabKeepsLettersAndDigits(title: string)
    ensures AlnumOf(Kebab(title)) == AlnumOf(ToLower(title))
  {
    var c := CollapseRuns(ToLower(title));
    AlnumOfCollapseRuns(ToLower(title));
    AlnumOfTrimLeft(c);
    AlnumOfTrimRight(TrimLeftDashes(c));
  }

  // ---------------------------------------------------------------------
  // Branch-name prefix and truncation

  /** `id + "-" + kebab(title)`, cut to its first 100 bytes when longer. */
  function TitleToKebabWithPrefix(id: string, title: string): (r: string)
    ensures |r| <= MaximumBranchNameLength
    ensures r <= id + "-" + Kebab(title)
    ensures |id + "-" + Kebab(title)| <= MaximumBranchNameLength ==> r == id + "-" + Kebab(title)
    ensures |id + "-" + Kebab(title)| > MaximumBranchNameLength ==> |r| == MaximumBranchNameLength
  {
    var branchName := id + "-" + Kebab(title);
    if |branchName| > MaximumBranchNameLength then branchName[..MaximumBranchNameLength] else branchName
  }

  lemma {:induction false} CollapseRunsWord(w: string, rest: string)
    requires forall i :: 0 <= i < |w| ==> IsLowerAlnum(w[i])
    ensures CollapseRuns(w + rest) == w + CollapseRuns(rest)
    decreases |w|
  {
    if w != [] {
      assert (w + rest)[0] == w[0];
      assert (w + rest)[1..] == w[1..] + rest;
      CollapseRunsWord(w[1..], rest);
    } else {
      assert w + rest == rest;
    }
  }

  lemma {:induction false} SkipRunOver(run: string, rest: string)
    requires forall i :: 0 <= i < |run| ==> !IsLowerAlnum(run[i])
    requires rest == [] || IsLowerAlnum(rest[0])
    ensures SkipRun(run + rest) == rest
    decreases |run|
  {
    if run != [] {
      assert (run + rest)[0] == run[0];
      assert (run + rest)[1..] == run[1..] + rest;
      SkipRunOver(run[1..], rest);
    } else {
      assert run + rest == rest;
    }
  }

  /** A whole run of separators becomes exactly one dash. */
  lemma CollapseRunsSeparator(run: string, rest: string)
    requires run != [] && forall i :: 0 <= i < |run| ==> !IsLowerAlnum(run[i])
    requires rest == [] || IsLowerAlnum(rest[0])
    ensures CollapseRuns(run + rest) == "-" + CollapseRuns(rest)
  {
    assert (run + rest)[0] == run[0];
    assert (run + rest)[1..] == run[1..] + rest;
    SkipRunOver(run[1..], rest);
  }

  /** A word: a non-empty run of bytes inside `[a-z0-9]`. */
  ghost predicate Word(w: string)
  {
    w != [] && forall i :: 0 <= i < |w| ==> IsLowerAlnum(w[i])
  }

  /** A separator: a non-empty run of bytes outside `[a-z0-9]`. */
  ghost predicate Separator(r: string)
  {
    r != [] && forall i :: 0 <= i < |r| ==> !IsLowerAlnum(r[i])
  }

  /** `ws[0] + rs[0] + ws[1] + rs[1] + ...`: words each followed by a separator. */
  function Interleave(ws: seq<string>, rs: seq<string>): string
    requires |ws| == |rs|
  {
    if ws == [] then "" else ws[0] + rs[0] + Interleave(ws[1..], rs[1..])
  }

  /** `ws[0] + "-" + ws[1] + "-" + ...`. */
  function Dashed(ws: seq<string>): string
  {
    if ws == [] then "" else ws[0] + "-" + Dashed(ws[1..])
  }

  /** Collapsing words separated by runs keeps the words and puts one dash
      in place of each run. */
  lemma {:induction false} CollapseInterleave(ws: seq<string>, rs: seq<string>)
    requires |ws| == |rs|
    requires forall i :: 0 <= i < |ws| ==> Word(ws[i]) && Separator(rs[i])
    ensures CollapseRuns(Interleave(ws, rs)) == Dashed(ws)
    ensures ws != [] ==> IsLowerAlnum(Interleave(ws, rs)[0])
  {
    if ws != [] {
      var w, r, rest := ws[0], rs[0], Interleave(ws[1..], rs[1..]);
      CollapseInterleave(ws[1..], rs[1..]);
      assert Word(w) && Separator(r);
      assert w + r + rest == w + (r + rest);
      CollapseRunsSeparator(r, rest);
      CollapseRunsWord(w, r + rest);
      assert (w + (r + rest))[0] == w[0];
    }
  }

  lemma ExampleWords(ws: seq<string>, rs: seq<string>)
    requires ws == ["show", "ivv", "must", "go", "on"]
    requires rs == ["   ", "? ", "    ", " ", "---"]
    ensures |ws| == |rs|
    ensures forall i :: 0 <= i < |ws| ==> Word(ws[i]) && Separator(rs[i])
  {
    assert Word(ws[0]) && Word(ws[1]) && Word(ws[2]) && Word(ws[3]) && Word(ws[4]);
    assert Separator(rs[0]) && Separator(rs[1]) && Separator(rs[2]) && Separator(rs[3]) && Separator(rs[4]);
  }

  lemma ExampleInterleaveTail(ws: seq<string>, rs: seq<string>)
    requires ws == ["must", "go", "on"]
    requires rs == ["    ", " ", "---"]
    ensures Interleave(ws, rs) == "must    go on---"
  {
    assert Interleave(ws[2..], rs[2..]) == "on---" by { assert ws[3..] == []; }
    assert Interleave(ws[1..], rs[1..]) == "go on---" by { assert ws[1..][1..] == ws[2..]; }
  }

  lemma ExampleInterleaveMiddle(ws: seq<string>, rs: seq<string>)
    requires ws == ["ivv", "must", "go", "on"]
    requires rs == ["? ", "    ", " ", "---"]
    ensures Interleave(ws, rs) == "ivv? must    go on---"
  {
    ExampleInterleaveTail(ws[1..], rs[1..]);
  }

  lemma ExampleInterleave(ws: seq<string>, rs: seq<string>)
    requires ws == ["show", "ivv", "must", "go", "on"]
    requires rs == ["   ", "? ", "    ", " ", "---"]
    ensures Interleave(ws, rs) == "show   ivv? must    go on---"
  {
    ExampleInterleaveMiddle(ws[1..], rs[1..]);
  }

  lemma ExampleDashed(ws: seq<string>)
    requires ws == ["show", "ivv", "must", "go", "on"]
    ensures Dashed(ws) == "show-ivv-must-go-on-"
  {
    assert Dashed(ws[4..]) == "on-" by { assert ws[5..] == []; }
    assert Dashed(ws[3..]) == "go-on-" by { assert ws[3..][1..] == ws[4..]; }
    assert Dashed(ws[2..]) == "must-go-on-" by { assert ws[2..][1..] == ws[3..]; }
    assert Dashed(ws[1..]) == "ivv-must-go-on-" by { assert ws[1..][1..] == ws[2..]; }
  }

  lemma CollapseRunsExample(t: string)
    requires t == "show   ivv? must    go on---"
    ensures CollapseRuns(t) == "show-ivv-must-go-on-"
  {
    var ws := ["show", "ivv", "must", "go", "on"];
    var rs := ["   ", "? ", "    ", " ", "---"];
    ExampleWords(ws, rs);
    ExampleInterleave(ws, rs);
    ExampleDashed(ws);
    CollapseInterleave(ws, rs);
  }

  lemma LowerExample(title: string)
    requires title == "Show   ivv? must    go on---"
    ensures ToLower(title) == "show   ivv? must    go on---"
  {
    assert ToLowerByte('S') == 's';
  }

  lemma TrimExample(c: string)
    requires c == "show-ivv-must-go-on-"
    ensures TrimRightDashes(TrimLeftDashes(c)) == "show-ivv-must-go-on"
  {
    assert TrimLeftDashes(c) == c;
    assert c[..19] == "show-ivv-must-go-on";
  }

  lemma KebabTitleExample(title: string)
    requires title == "Show   ivv? must    go on---"
    ensures Kebab(title) == "show-ivv-must-go-on"
  {
    LowerExample(title);
    var lower := ToLower(title);
    CollapseRunsExample(lower);
    TrimExample(CollapseRuns(lower));
  }

  /** The tested free-form title, before the cleaner runs. */
  lemma KebabExample(title: string)
    requires title == "Show   ivv? must    go on---"
    ensures TitleToKebabWithPrefix("", title) == "-show-ivv-must-go-on"
  {
    KebabTitleExample(title);
    var k := Kebab(title);
    assert "" + "-" + k == "-show-ivv-must-go-on";
    assert |"" + "-" + k| == 20;
  }

  lemma KebabOfWord()
    ensures Kebab("ab") == "ab"
  {
    assert IsKebab("ab");
    KebabFixesKebab("ab");
  }

  lemma CutInsideWord(id: string)
    requires |id| == 98
    ensures (id + "-" + "ab")[..MaximumBranchNameLength] == id + "-a"
  {
  }

  lemma CutAfterDash(id: string)
    requires |id| == 99
    ensures (id + "-" + "ab")[..MaximumBranchNameLength] == id + "-"
  {
  }

  /** The cut is a plain byte cut: it may split a word of the title... */
  lemma TruncationSplitsWord(id: string)
    requires |id| == 98
    ensures TitleToKebabWithPrefix(id, "ab") == id + "-a"
  {
    KebabOfWord();
    CutInsideWord(id);
  }

  /** ...or leave a trailing dash. */
  lemma TruncationMayEndInDash(id: string)
    requires |id| == 99
    ensures TitleToKebabWithPrefix(id, "ab") == id + "-"
  {
    KebabOfWord();
    CutAfterDash(id);
  }

  // ---------------------------------------------------------------------
  // Titles, notes and comments

  /** The parts of a GitHub issue URL used to address the issue. */
  datatype IssueURL = IssueURL(number: string, owner: string, repo: string)

  /** Checks the `/`-segments of a GitHub issue URL: at least two of them in
      the whole URL, and at least five before the first `/issues/`; owner
      and repository are segments 3 and 4 of that prefix, the issue number
      the last segment of the whole URL. */
  function IssueURLParts(url: string): (r: Result<IssueURL>)
    ensures r == Err(InvalidIssueURLFormat(url)) <==> '/' !in url
    ensures r.Err? ==> r.error.InvalidIssueURLFormat? || r.error.InvalidGithubURLFormat?
    ensures r.Ok? ==> '/' !in r.value.owner && '/' !in r.value.repo && r.value.number == LastSegment(url)
    ensures r.Ok? <==> '/' in url && |Split(BeforeFirst(url, IssuesMarker), '/')| >= 5
    ensures r.Ok? ==>
      var p := Split(BeforeFirst(url, IssuesMarker), '/');
      r.value.owner == p[3] && r.value.repo == p[4]
  {
    var parts := Split(url, '/');
    if |parts| < 2 then Err(InvalidIssueURLFormat(url))
    else
      var repoURL := BeforeFirst(url, IssuesMarker);
      var urlParts := Split(repoURL, '/');
      if |urlParts| < 5 then Err(InvalidGithubURLFormat(repoURL))
      else Ok(IssueURL(parts[|parts| - 1], urlParts[3], urlParts[4]))
  }

  /** `strings.Split(s, pattern)[0]` of a string in which `pattern` first
      occurs right after `x` is `x`. */
  lemma {:induction false} BeforeFirstAt(x: string, rest: string, pattern: string)
    requires pattern != [] && pattern <= rest
    requires forall k :: 0 <= k < |x| ==> !(pattern <= (x + rest)[k..])
    ensures BeforeFirst(x + rest, pattern) == x
    decreases |x|
  {
    if x != [] {
      assert !(pattern <= (x + rest)[0..]);
      assert (x + rest)[0..] == x + rest;
      assert (x + rest)[1..] == x[1..] + rest;
      forall k | 0 <= k < |x[1..]| ensures !(pattern <= (x[1..] + rest)[k..]) {
        assert (x[1..] + rest)[k..] == (x + rest)[k + 1..];
      }
      BeforeFirstAt(x[1..], rest, pattern);
    }
  }

  /** For `scheme//host/owner/repo/issues/n`, in which `/issues/` first
      occurs after the repository, the URL check gives that owner,
      repository and number. */
  lemma IssueURLPartsOfIssueURL(scheme: string, host: string, owner: string, repo: string, n: string, url: string)
    requires url == scheme + "//" + host + "/" + owner + "/" + repo + IssuesMarker + n
    requires '/' !in scheme && '/' !in host && '/' !in owner && '/' !in repo && '/' !in n
    requires forall k :: 0 <= k < |url| - |IssuesMarker| - |n| ==> !(IssuesMarker <= url[k..])
    ensures IssueURLParts(url) == Ok(IssueURL(n, owner, repo))
  {
    var x := scheme + "//" + host + "/" + owner + "/" + repo;
    RepoURLOf(x, n, url);
    HostSegments(scheme, host);
    RepoURLSegments(scheme + "//" + host, owner, repo, x);
    NumberOf(x, n, url);
  }

  lemma HostSegments(scheme: string, host: string)
    requires '/' !in scheme && '/' !in host
    ensures Split(scheme + "//" + host, '/') == [scheme, "", host]
  {
    assert scheme + "//" + host == scheme + "/" + "" + "/" + host;
    SplitAppend(scheme, '/', "");
    SplitAppend(scheme + "/" + "", '/', host);
  }

  lemma RepoURLOf(x: string, n: string, url: string)
    requires url == x + IssuesMarker + n
    requires forall k :: 0 <= k < |x| ==> !(IssuesMarker <= url[k..])
    ensures BeforeFirst(url, IssuesMarker) == x
  {
    assert x + (IssuesMarker + n) == url;
    BeforeFirstAt(x, IssuesMarker + n, IssuesMarker);
  }

  lemma RepoURLSegments(p: string, owner: string, repo: string, x: string)
    requires '/' !in owner && '/' !in repo
    requires x == p + "/" + owner + "/" + repo
    ensures Split(x, '/') == Split(p, '/') + [owner, repo]
  {
    SplitAppend(p, '/', owner);
    SplitAppend(p + "/" + owner, '/', repo);
  }

  lemma NumberOf(x: string, n: string, url: string)
    requires '/' !in n
    requires url == x + IssuesMarker + n
    ensures '/' in url && LastSegment(url) == n
  {
    assert url == (x + "/issues") + "/" + n;
    LastSegmentAfterSlash(x + "/issues", n);
    assert url[|x|] == '/';
  }

  /** No `/issues/` starts before position `j` of a string in which no `/`
      before `j` is followed by `i`. */
  lemma NoMarkerBefore(s: string, j: nat)
    requires j < |s|
    requires forall k :: 0 <= k < j && s[k] == '/' ==> s[k + 1] != 'i'
    ensures forall k :: 0 <= k < j ==> !(IssuesMarker <= s[k..])
  {
    assert IssuesMarker[0] == '/' && IssuesMarker[1] == 'i';
  }

  /** The tested issue URL yields owner `voedger`, repository `voedger` and
      number `395`. */
  lemma IssueURLPartsExample(url: string)
    requires url == "https://github.com/voedger/voedger/issues/395"
    ensures IssueURLParts(url) == Ok(IssueURL("395", "voedger", "voedger"))
  {
    ExampleURLLayout(url);
    ExampleMarkerPlace(url);
    ExampleURLPieces("https:", "github.com", "voedger", "395");
    IssueURLPartsOfIssueURL("https:", "github.com", "voedger", "voedger", "395", url);
  }

  lemma ExampleURLLayout(url: string)
    requires url == "https://github.com/voedger/voedger/issues/395"
    ensures url == "https:" + "//" + "github.com" + "/" + "voedger" + "/" + "voedger" + IssuesMarker + "395"
    ensures |url| - |IssuesMarker| - |"395"| == 34
  {
    assert "https:" + "//" + "github.com" == "https://github.com";
    assert "https://github.com" + "/" + "voedger" + "/" + "voedger" == "https://github.com/voedger/voedger";
  }

  lemma ExampleURLPieces(scheme: string, host: string, name: string, n: string)
    requires scheme == "https:" && host == "github.com" && name == "voedger" && n == "395"
    ensures '/' !in scheme && '/' !in host && '/' !in name && '/' !in n
  {
  }

  lemma ExampleMarkerPlace(url: string)
    requires url == "https://github.com/voedger/voedger/issues/395"
    ensures forall k :: 0 <= k < 34 ==> !(IssuesMarker <= url[k..])
  {
    NoMarkerBefore(url, 34);
  }

  /** The title fetch of a GitHub issue: the URL check, then the gh answer
      for the issue id in repository `owner/repo`. */
  function FetchGithubIssueTitle(info: IssueInfo, ghTitle: (string, string) -> Result<string>): (r: Result<string>)
    ensures IssueURLParts(info.text).Err? ==> r == Err(IssueURLParts(info.text).error)
    ensures IssueURLParts(info.text).Ok? ==>
      var u := IssueURLParts(info.text).value; r == ghTitle(info.id, u.owner + "/" + u.repo)
  {
    match IssueURLParts(info.text)
    case Err(e) => Err(e)
    case Ok(u) => ghTitle(info.id, u.owner + "/" + u.repo)
  }

  /** The title the branch name is made from: fetched for GitHub and Jira,
      the raw text itself for free-form input. */
  function Title(info: IssueInfo, ghTitle: (string, string) -> Result<string>,
                 jiraTitle: string -> Result<string>): (r: Result<string>)
    ensures info.kind == FreeForm ==> r == Ok(info.text)
    ensures info.kind == Jira ==> r == jiraTitle(info.id)
    ensures info.kind == GitHub ==> r == FetchGithubIssueTitle(info, ghTitle)
  {
    match info.kind
    case GitHub => FetchGithubIssueTitle(info, ghTitle)
    case Jira => jiraTitle(info.id)
    case FreeForm => Ok(info.text)
  }

  /** The note serialised into the commit message: the raw text is the
      GitHub URL of a GitHub issue and the Jira URL of a Jira ticket. */
  function NoteFor(info: IssueInfo, title: string): (r: Note)
    ensures r.branchType == Dev && r.title == title
    ensures r.githubURL == "" || r.jiraURL == ""
    ensures info.kind == GitHub ==> r.githubURL == info.text
    ensures info.kind == Jira ==> r.jiraURL == info.text
    ensures r.githubURL != "" ==> info.kind == GitHub
    ensures r.jiraURL != "" ==> info.kind == Jira
  {
    match info.kind
    case GitHub => Note(info.text, "", Dev, title)
    case Jira => Note("", info.text, Dev, title)
    case FreeForm => Note("", "", Dev, title)
  }

  /** The commit-message lines of a dev branch, by issue kind. */
  function Comments(info: IssueInfo, title: string, notesObj: string): (r: seq<string>)
    ensures info.kind == GitHub ==>
      && |r| == 3
      && r[0] == IssuePRTitlePrefix + " '" + title + "' "
      && (r[1] == "" <==> title == "")
      && (title != "" ==> r[1] == IssueSign + info.id + " " + title)
      && r[2] == notesObj
    ensures info.kind == Jira ==>
      && |r| == (if notesObj == "" then 2 else 3)
      && (notesObj != "" ==> r[0] == notesObj)
      && r[|r| - 2] == "[" + info.id + "] " + title
      && r[|r| - 1] == info.text
    ensures info.kind == FreeForm ==> r == [title, notesObj]
  {
    match info.kind
    case GitHub =>
      var comment := IssuePRTitlePrefix + " '" + title + "' ";
      var body := if |title| > 0 then IssueSign + info.id + " " + title else "";
      [comment, body, notesObj]
    case Jira =>
      (if notesObj != "" then [notesObj] else []) + ["[" + info.id + "] " + title] + [info.text]
    case FreeForm =>
      [title] + [notesObj]
  }

  /** Plans the dev branch of an issue: the name is the cleaned, truncated
      `id-kebab(title)` with `-dev` appended; a failing title fetch or notes
      serialisation is returned as the error. */
  function BuildDevBranchName(info: IssueInfo, ghTitle: (string, string) -> Result<string>,
                              jiraTitle: string -> Result<string>, clean: string -> string,
                              serialize: Note -> Result<string>): (r: Result<DevBranch>)
    ensures Title(info, ghTitle, jiraTitle).Err? ==> r == Err(Title(info, ghTitle, jiraTitle).error)
    ensures Title(info, ghTitle, jiraTitle).Ok? ==>
      var title := Title(info, ghTitle, jiraTitle).value;
      var notesObj := serialize(NoteFor(info, title));
      && (notesObj.Err? ==> r == Err(notesObj.error))
      && (notesObj.Ok? ==>
            && r.Ok?
            && HasSuffix(r.value.name, DevSuffix)
            && r.value.name[..|r.value.name| - |DevSuffix|] == clean(TitleToKebabWithPrefix(info.id, title))
            && r.value.comments == Comments(info, title, notesObj.value))
  {
    match Title(info, ghTitle, jiraTitle)
    case Err(e) => Err(e)
    case Ok(title) =>
      var devBranchName := clean(TitleToKebabWithPrefix(info.id, title));
      match serialize(NoteFor(info, title))
      case Err(e) => Err(e)
      case Ok(notesObj) =>
        var name := devBranchName + DevSuffix;
        assert name[..|name| - |DevSuffix|] == devBranchName;
        Ok(DevBranch(name, Comments(info, title, notesObj)))
  }
}
