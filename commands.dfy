/** The `qs dev` command: creating the dev branch of an issue, and, with
    `-d`, deleting the branches whose pull requests were merged.

    The repository is an abstract state. Every answer of git, gh, Jira, the
    clipboard and the operator is a parameter. The command is specified by
    functions from the state before and the answers to a `Run`: the events it
    records, the error it returns and the state after. The `Repository`
    class carries out the same steps in place and is proved to follow that
    specification. */
module Commands {
  import opened Common
  import opened Text
  import opened Notes
  import opened Issue

  /** The reply that confirms a prompt. */
  const PushYes: string := "y"

  // ---------------------------------------------------------------------
  // Repository state and events

  /** What the command can observe of, or change in, the repository:
      the checked-out branch, the main branch, the local branches and those
      on `origin`, whether an `upstream` remote exists, whether the working
      copy has uncommitted changes, how many stash entries there are, the
      notes attached to created branches and the branches linked to a
      GitHub issue. */
  datatype RepoState = RepoState(
    current: string,
    mainBranch: string,
    local: set<string>,
    origin: set<string>,
    upstream: bool,
    dirty: bool,
    stashes: nat,
    notes: map<string, seq<string>>,
    linked: set<string>)

  /** The steps the command takes, in order: the changes it makes (recorded
      when they succeed), and the queries and prompts (recorded when issued). */
  datatype Event =
    | Downloaded
    | CheckedOut(branch: string)
    | NoBranchesToDelete
    | AskedDelete(branches: seq<string>)
    | Removed(branch: string)
    | Stashed
    | Synced
    | ListedLocal(branch: string)
    | ListedRemote(branch: string)
    | AskedCreate(branch: string)
    | AskedUpstream(parentRepo: string)
    | AddedUpstream(parentRepo: string)
    | Created(branch: string, comments: seq<string>)
    | Linked(branch: string)
    | HooksInstalled
    | Unstashed

  /** The change one recorded event makes; queries and prompts change nothing. */
  function Effect(s: RepoState, e: Event): RepoState
  {
    match e
    case CheckedOut(b) => s.(current := b)
    case Removed(b) => s.(local := s.local - {b}, origin := s.origin - {b})
    case Stashed => s.(dirty := false, stashes := s.stashes + 1)
    case AddedUpstream(_) => s.(upstream := true)
    case Created(b, comments) =>
      s.(local := s.local + {b}, origin := s.origin + {b}, current := b, notes := s.notes[b := comments])
    case Linked(b) => s.(linked := s.linked + {b})
    case Unstashed => s.(dirty := true, stashes := if s.stashes > 0 then s.stashes - 1 else 0)
    case _ => s
  }

  /** The state reached by applying the effects of `events` in order. */
  function Replay(s: RepoState, events: seq<Event>): RepoState
    decreases |events|
  {
    if events == [] then s else Replay(Effect(s, events[0]), events[1..])
  }

  lemma {:induction false} ReplayAppend(s: RepoState, a: seq<Event>, b: seq<Event>)
    ensures Replay(s, a + b) == Replay(Replay(s, a), b)
    decreases |a|
  {
    if a != [] {
      assert (a + b)[0] == a[0];
      assert (a + b)[1..] == a[1..] + b;
      ReplayAppend(Effect(s, a[0]), a[1..], b);
    } else {
      assert a + b == b;
    }
  }

  lemma ReplayCons(s: RepoState, e: Event, rest: seq<Event>)
    ensures Replay(s, [e] + rest) == Replay(Effect(s, e), rest)
  {
    assert ([e] + rest)[0] == e;
    assert ([e] + rest)[1..] == rest;
  }

  lemma ReplaySingle(s: RepoState, e: Event)
    ensures Replay(s, [e]) == Effect(s, e)
  {
    assert [e][1..] == [];
  }

  lemma AppendAssoc<T>(a: seq<T>, b: seq<T>, c: seq<T>)
    ensures (a + b) + c == a + (b + c)
  {
  }

  /** Queries and prompts change nothing. */
  predicate Query(e: Event)
  {
    e.Downloaded? || e.NoBranchesToDelete? || e.AskedDelete? || e.Synced? || e.ListedLocal? || e.ListedRemote?
      || e.AskedCreate? || e.AskedUpstream? || e.HooksInstalled?
  }

  lemma {:induction false} ReplayQueries(s: RepoState, events: seq<Event>)
    requires forall e :: e in events ==> Query(e)
    ensures Replay(s, events) == s
    decreases |events|
  {
    if events != [] {
      assert events[0] in events;
      assert forall e :: e in events[1..] ==> e in events;
      ReplayQueries(s, events[1..]);
    }
  }

  /** The outcome of a command: what it recorded, the error it returned
      (`None` for Go's `nil`) and the state it left. */
  datatype Run = Run(events: seq<Event>, err: Option<Error>, post: RepoState)

  function Prepend(events: seq<Event>, run: Run): Run
  {
    Run(events + run.events, run.err, run.post)
  }

  /** Every state change is accounted for by a recorded event. */
  ghost predicate Consistent(s: RepoState, run: Run)
  {
    Replay(s, run.events) == run.post
  }

  lemma PrependConsistent(s: RepoState, events: seq<Event>, run: Run)
    requires Consistent(Replay(s, events), run)
    ensures Consistent(s, Prepend(events, run))
  {
    ReplayAppend(s, events, run.events);
  }

  // ---------------------------------------------------------------------
  // Clipboard argument

  /** Every line feed replaced by a space. */
  function NewlinesToSpaces(s: string): (r: string)
    ensures |r| == |s| && '\n' !in r
    ensures forall i :: 0 <= i < |s| && s[i] != '\n' ==> r[i] == s[i]
    ensures forall i :: 0 <= i < |s| && s[i] == '\n' ==> r[i] == ' '
  {
    seq(|s|, i requires 0 <= i < |s| => if s[i] == '\n' then ' ' else s[i])
  }

  /** Each part followed by one space, all concatenated. */
  function SpaceJoined(parts: seq<string>): string
  {
    if parts == [] then "" else parts[0] + " " + SpaceJoined(parts[1..])
  }

  lemma {:induction false} SpaceJoinedAppend(parts: seq<string>, p: string)
    ensures SpaceJoined(parts + [p]) == SpaceJoined(parts) + p + " "
    decreases |parts|
  {
    if parts != [] {
      assert (parts + [p])[0] == parts[0];
      assert (parts + [p])[1..] == parts[1..] + [p];
      SpaceJoinedAppend(parts[1..], p);
    } else {
      assert parts + [p] == [p];
    }
  }

  lemma NewlinesToSpacesCons(s: string)
    requires s != []
    ensures NewlinesToSpaces(s) == [if s[0] == '\n' then ' ' else s[0]] + NewlinesToSpaces(s[1..])
  {
    var r, t := NewlinesToSpaces(s), NewlinesToSpaces(s[1..]);
    assert forall i :: 1 <= i < |s| ==> r[i] == t[i - 1];
  }

  lemma SpaceJoinedGrowFirst(c: char, parts: seq<string>)
    requires parts != []
    ensures SpaceJoined([[c] + parts[0]] + parts[1..]) == [c] + SpaceJoined(parts)
  {
    var grown := [[c] + parts[0]] + parts[1..];
    var tail := SpaceJoined(parts[1..]);
    assert grown[0] == [c] + parts[0] && grown[1..] == parts[1..];
    assert SpaceJoined(grown) == (([c] + parts[0]) + " ") + tail;
    AppendAssoc([c], parts[0], " ");
    AppendAssoc([c], parts[0] + " ", tail);
  }

  /** Splitting at line feeds and joining with a space after every line is
      the same as replacing each line feed by a space and adding one space. */
  lemma {:induction false} SpaceJoinedSplit(s: string)
    ensures SpaceJoined(Split(s, '\n')) == NewlinesToSpaces(s) + " "
    decreases |s|
  {
    if s == [] {
      assert Split(s, '\n') == [""];
      assert SpaceJoined([""][1..]) == "";
    } else {
      var rest := Split(s[1..], '\n');
      var parts := Split(s, '\n');
      var spaced := NewlinesToSpaces(s[1..]);
      SpaceJoinedSplit(s[1..]);
      NewlinesToSpacesCons(s);
      if s[0] == '\n' {
        assert parts == [""] + rest;
        assert parts[0] == "" && parts[1..] == rest;
        assert SpaceJoined(parts) == [' '] + SpaceJoined(rest);
        AppendAssoc([' '], spaced, " ");
      } else {
        assert parts == [[s[0]] + rest[0]] + rest[1..];
        SpaceJoinedGrowFirst(s[0], rest);
        AppendAssoc([s[0]], spaced, " ");
      }
    }
  }

  /** The text read for a missing argument: the context value when it is a
      non-empty string, otherwise the clipboard; "" when the clipboard
      cannot be read; otherwise its lines, each followed by a space. */
  function ClipboardText(ctxValue: Option<string>, clipboard: Result<string>): string
  {
    var arg := ClipboardSource(ctxValue, clipboard);
    if arg.Err? then "" else NewlinesToSpaces(arg.value) + " "
  }

  /** The text read: the context value when it is a non-empty string,
      otherwise the clipboard. */
  function ClipboardSource(ctxValue: Option<string>, clipboard: Result<string>): Result<string>
  {
    if ctxValue.Some? && |ctxValue.value| > 0 then Ok(ctxValue.value) else clipboard
  }

  /** Nothing when the clipboard cannot be read; otherwise the text read
      with every line feed turned into a space, plus one space: one byte
      longer, with no line feed. */
  lemma ClipboardTextShape(ctxValue: Option<string>, clipboard: Result<string>)
    ensures var r := ClipboardText(ctxValue, clipboard);
      var arg := ClipboardSource(ctxValue, clipboard);
      && (arg.Err? ==> r == "")
      && (arg.Ok? ==>
            && |r| == |arg.value| + 1 && r[|r| - 1] == ' ' && '\n' !in r
            && r[..|arg.value|] == NewlinesToSpaces(arg.value))
  {
    var arg := ClipboardSource(ctxValue, clipboard);
    if arg.Ok? {
      var r := ClipboardText(ctxValue, clipboard);
      assert r == NewlinesToSpaces(arg.value) + " ";
      assert r[..|arg.value|] == NewlinesToSpaces(arg.value);
    }
  }

  // ---------------------------------------------------------------------
  // Answers of the outside world

  /** The answers `qs dev` receives while creating a dev branch. */
  datatype DevAnswers = DevAnswers(
    upstreamCheckErr: Option<Error>,         // checking for the upstream remote
    repoAndOrg: Result<(string, string)>,    // repository and organisation names
    branchInfoErr: Option<Error>,            // reading the current and main branch
    uncommittedErr: Option<Error>,           // error given beside a "dirty" answer
    stashErr: Option<Error>,
    syncErr: Option<Error>,                  // syncing main with origin and upstream
    ctxValue: Option<string>,                // clipboard text placed in the context
    clipboard: Result<string>,
    kindOf: seq<string> -> IssueType,        // the classification of the arguments
    build: (IssueType, seq<string>) -> Result<DevBranch>,  // the name builder of each kind
    localListErr: Option<Error>,
    remoteListErr: Option<Error>,
    reply: string,                           // to "Dev branch ... will be created"
    upstreamReply: string,                   // to "Repository ... will be added as upstream"
    upstreamErr: Option<Error>,
    createErr: Option<Error>,
    linkErr: Option<Error>,
    hookErr: Option<Error>,
    unstashErr: Option<Error>)

  /** The answers `qs dev -d` receives while deleting merged branches. */
  datatype ReapAnswers = ReapAnswers(
    downloadErr: Option<Error>,
    mainBranchErr: Option<Error>,
    checkoutErr: Option<Error>,
    tracked: Result<seq<string>>,                 // branches tracking origin, in git's order
    mergedPr: (string, string) -> Result<bool>,   // (parent repo, branch): has a merged PR
    branchType: string -> BranchType,
    reply: string,                                // to "Proceed with deletion?"
    removeErr: string -> Option<Error>)

  // ---------------------------------------------------------------------
  // Specification of `qs dev -d`

  /** The `-pr` branch that belongs to a `-dev` branch. */
  function Sibling(branch: string): (r: string)
    ensures HasSuffix(r, "-pr")
    ensures HasSuffix(branch, "-dev") ==> r == branch[..|branch| - 4] + "-pr"
    ensures !HasSuffix(branch, "-dev") ==> r == branch + "-pr"
  {
    TrimSuffix(branch, "-dev") + "-pr"
  }

  /** Whether a branch is to be deleted: its own PR was merged, or it is a
      dev branch and the PR of its `-pr` sibling was merged. */
  predicate ToDelete(b: string, parent: string, mergedPr: (string, string) -> Result<bool>,
                 branchType: string -> BranchType)
  {
    mergedPr(parent, b) == Ok(true) || (branchType(b) == Dev && mergedPr(parent, Sibling(b)) == Ok(true))
  }

  /** The branches of `bs` that are to be deleted, in their order. */
  function Filter(bs: seq<string>, parent: string, mergedPr: (string, string) -> Result<bool>,
                  branchType: string -> BranchType): seq<string>
  {
    if bs == [] then []
    else
      var init := Filter(bs[..|bs| - 1], parent, mergedPr, branchType);
      if ToDelete(bs[|bs| - 1], parent, mergedPr, branchType) then init + [bs[|bs| - 1]] else init
  }

  /** The PR queries for one branch: the sibling is asked about only when the
      branch's own PR is not merged and the branch is a dev branch. */
  function DeleteQuery(b: string, parent: string, mergedPr: (string, string) -> Result<bool>,
                     branchType: string -> BranchType): Result<bool>
  {
    match mergedPr(parent, b)
    case Err(e) => Err(e)
    case Ok(merged) =>
      if merged then Ok(true)
      else if branchType(b) == Dev then mergedPr(parent, Sibling(b))
      else Ok(false)
  }

  /** The selection loop: the branches to delete, or the first query error. */
  function Selection(bs: seq<string>, parent: string, mergedPr: (string, string) -> Result<bool>,
                     branchType: string -> BranchType): Result<seq<string>>
  {
    if bs == [] then Ok([])
    else
      match Selection(bs[..|bs| - 1], parent, mergedPr, branchType)
      case Err(e) => Err(e)
      case Ok(sel) =>
        match DeleteQuery(bs[|bs| - 1], parent, mergedPr, branchType)
        case Err(e) => Err(e)
        case Ok(keep) => Ok(if keep then sel + [bs[|bs| - 1]] else sel)
  }

  /** The index of the first branch whose removal fails, or `|bs|`. */
  function FirstFailure(bs: seq<string>, removeErr: string -> Option<Error>): (k: nat)
    ensures k <= |bs|
    ensures forall j :: 0 <= j < k ==> removeErr(bs[j]).None?
    ensures k < |bs| ==> removeErr(bs[k]).Some?
    decreases |bs|
  {
    if bs == [] then 0
    else if removeErr(bs[0]).Some? then 0
    else 1 + FirstFailure(bs[1..], removeErr)
  }

  function Removals(bs: seq<string>): (r: seq<Event>)
  {
    seq(|bs|, i requires 0 <= i < |bs| => Removed(bs[i]))
  }

  /** Deleting the selected branches after the prompt: nothing when there is
      none (and no prompt), nothing on any reply but `y`, otherwise removal in
      order up to the first failure, which is returned. */
  function DeleteSpec(s: RepoState, sel: seq<string>, reply: string, removeErr: string -> Option<Error>): Run
  {
    if sel == [] then Run([NoBranchesToDelete], None, s)
    else if reply != PushYes then Run([AskedDelete(sel)], None, s)
    else
      var k := FirstFailure(sel, removeErr);
      var err := if k < |sel| then Some(DeleteFailed(sel[k], removeErr(sel[k]).value)) else None;
      Run([AskedDelete(sel)] + Removals(sel[..k]), err, Replay(s, Removals(sel[..k])))
  }

  /** `qs dev -d`: download, check out main, select, confirm, delete. */
  function ReapSpec(s: RepoState, parent: string, ra: ReapAnswers): Run
  {
    if ra.downloadErr.Some? then Run([], ra.downloadErr, s)
    else if ra.mainBranchErr.Some? then Run([Downloaded], ra.mainBranchErr, s)
    else if ra.checkoutErr.Some? then Run([Downloaded], ra.checkoutErr, s)
    else
      var checkout := CheckedOut(s.mainBranch);
      var s1 := Effect(s, checkout);
      match ra.tracked
      case Err(e) => Run([Downloaded, checkout], Some(e), s1)
      case Ok(bs) =>
        match Selection(bs, parent, ra.mergedPr, ra.branchType)
        case Err(e) => Run([Downloaded, checkout], Some(e), s1)
        case Ok(sel) => Prepend([Downloaded, checkout], DeleteSpec(s1, sel, ra.reply, ra.removeErr))
  }

  // ---------------------------------------------------------------------
  // Specification of `qs dev`

  /** The arguments: those given, or the trimmed clipboard text when none. */
  function Args(args: seq<string>, a: DevAnswers): (r: seq<string>)
    ensures |r| >= 1
    ensures |args| > 0 ==> r == args
    ensures |args| == 0 ==> r == [TrimSpace(ClipboardText(a.ctxValue, a.clipboard))]
  {
    if |args| == 0 then [TrimSpace(ClipboardText(a.ctxValue, a.clipboard))] else args
  }

  /** The dev branch planned for the issue; a free-form name gets `-dev`. */
  function Plan(kind: IssueType, args: seq<string>, build: (IssueType, seq<string>) -> Result<DevBranch>): Result<DevBranch>
  {
    match build(kind, args)
    case Err(e) => Err(e)
    case Ok(plan) => Ok(if kind == FreeForm then plan.(name := plan.name + DevSuffix) else plan)
  }

  datatype Probe = Probe(events: seq<Event>, answer: Result<bool>)

  /** The existence check of a branch name: the local list first, and the
      remote `origin` only when the name is not local. */
  function BranchExistsSpec(s: RepoState, name: string, localErr: Option<Error>, remoteErr: Option<Error>): Probe
  {
    if localErr.Some? then Probe([ListedLocal(name)], Err(LocalCheckFailed(localErr.value)))
    else if name in s.local then Probe([ListedLocal(name)], Ok(true))
    else if remoteErr.Some? then Probe([ListedLocal(name), ListedRemote(name)], Err(RemoteCheckFailed(remoteErr.value)))
    else Probe([ListedLocal(name), ListedRemote(name)], Ok(name in s.origin))
  }

  /** The answer is whether the name is a local or an `origin` branch; the
      remote is asked exactly when the local list was read and lacks it. */
  lemma BranchExistsMeaning(s: RepoState, name: string, localErr: Option<Error>, remoteErr: Option<Error>)
    ensures var probe := BranchExistsSpec(s, name, localErr, remoteErr);
      && (probe.answer.Ok? ==> probe.answer.value == (name in s.local || name in s.origin))
      && (probe.answer.Err? <==> localErr.Some? || (name !in s.local && remoteErr.Some?))
      && (ListedRemote(name) in probe.events <==> localErr.None? && name !in s.local)
  {
  }

  function ForkError(repoAndOrg: Result<(string, string)>): Error
  {
    match repoAndOrg
    case Err(e) => e
    case Ok((repo, org)) => NoForkDetected(org, repo)
  }

  function NotOnMainError(repoAndOrg: Result<(string, string)>, current: string): Error
  {
    if repoAndOrg.Err? then repoAndOrg.error else NotOnMainBranch(current)
  }

  /** From creating the branch on: link (GitHub only), hooks, unstash. */
  function CreateBranchSpec(s: RepoState, stashed: bool, kind: IssueType, plan: DevBranch, a: DevAnswers): Run
  {
    if a.createErr.Some? then Run([], a.createErr, s)
    else
      var created := Created(plan.name, plan.comments);
      var s1 := Effect(s, created);
      if kind == GitHub && a.linkErr.Some? then Run([created], a.linkErr, s1)
      else
        var link := if kind == GitHub then [Linked(plan.name)] else [];
        var s2 := Replay(s1, link);
        var events := [created] + link + [HooksInstalled];
        if stashed && a.unstashErr.Some? then Run(events, Some(UnstashFailed(a.unstashErr.value)), s2)
        else if stashed then Run(events + [Unstashed], None, Effect(s2, Unstashed))
        else Run(events, None, s2)
  }

  /** After the operator confirmed: the upstream bootstrap when a parent
      repository exists and `upstream` does not, then the branch. */
  function ConfirmedSpec(s: RepoState, stashed: bool, parent: string, upstreamExists: bool,
                         kind: IssueType, plan: DevBranch, a: DevAnswers): Run
  {
    if |parent| > 0 && !upstreamExists then
      if a.upstreamReply != PushYes then Run([AskedUpstream(parent)], None, s)
      else if a.upstreamErr.Some? then Run([AskedUpstream(parent)], a.upstreamErr, s)
      else
        var added := AddedUpstream(parent);
        Prepend([AskedUpstream(parent), added], CreateBranchSpec(Effect(s, added), stashed, kind, plan, a))
    else CreateBranchSpec(s, stashed, kind, plan, a)
  }

  /** The existence check of the planned name and the confirmation prompt. */
  function CheckSpec(s: RepoState, stashed: bool, parent: string, upstreamExists: bool,
                     kind: IssueType, plan: DevBranch, a: DevAnswers): Run
  {
    var probe := BranchExistsSpec(s, plan.name, a.localListErr, a.remoteListErr);
    match probe.answer
    case Err(e) => Run(probe.events, Some(BranchCheckFailed(e)), s)
    case Ok(found) =>
      if found then Run(probe.events, Some(BranchAlreadyExists(plan.name)), s)
      else if a.reply != PushYes then Run(probe.events + [AskedCreate(plan.name)], None, s)
      else Prepend(probe.events + [AskedCreate(plan.name)], ConfirmedSpec(s, stashed, parent, upstreamExists, kind, plan, a))
  }

  /** From the sync of main on: name the branch, check it is new, confirm. A
      Jira ticket that cannot be read ends the command without an error. */
  function PlanSpec(s: RepoState, stashed: bool, parent: string, upstreamExists: bool,
                    args: seq<string>, a: DevAnswers): Run
  {
    if a.syncErr.Some? then Run([], a.syncErr, s)
    else
      var kind := a.kindOf(args);
      match Plan(kind, args, a.build)
      case Err(e) => Run([Synced], if e == JiraIssueNotFound then None else Some(e), s)
      case Ok(plan) => Prepend([Synced], CheckSpec(s, stashed, parent, upstreamExists, kind, plan, a))
  }

  /** The stash of uncommitted changes, then the rest. */
  function StashSpec(s: RepoState, parent: string, upstreamExists: bool, args: seq<string>, a: DevAnswers): Run
  {
    if s.dirty && a.uncommittedErr.Some? then Run([], a.uncommittedErr, s)
    else if s.dirty && a.stashErr.Some? then Run([], Some(StashFailed(a.stashErr.value)), s)
    else if s.dirty then Prepend([Stashed], PlanSpec(Effect(s, Stashed), true, parent, upstreamExists, args, a))
    else PlanSpec(s, false, parent, upstreamExists, args, a)
  }

  /** `qs dev` without `-d`: the guards, which change nothing, then the stash
      stage. */
  function CreateSpec(s: RepoState, parent: string, args: seq<string>, a: DevAnswers): Run
  {
    if a.upstreamCheckErr.Some? then Run([], a.upstreamCheckErr, s)
    else if |parent| == 0 && s.upstream then Run([], Some(ForkError(a.repoAndOrg)), s)
    else if a.branchInfoErr.Some? then Run([], a.branchInfoErr, s)
    else if s.current != s.mainBranch then Run([], Some(NotOnMainError(a.repoAndOrg, s.current)), s)
    else StashSpec(s, parent, s.upstream, Args(args, a), a)
  }

  /** `qs dev`: the parent repository is read first; `-d` selects deletion. */
  function DevSpec(s: RepoState, parent: Result<string>, doDelete: bool, args: seq<string>,
                   a: DevAnswers, ra: ReapAnswers): Run
  {
    match parent
    case Err(e) => Run([], Some(e), s)
    case Ok(p) => if doDelete then ReapSpec(s, p, ra) else CreateSpec(s, p, args, a)
  }

  // ---------------------------------------------------------------------
  // Properties of `qs dev -d`

  /** A query that succeeds answers whether the branch is to be deleted. */
  lemma DeleteQueryAnswersToDelete(b: string, parent: string, mergedPr: (string, string) -> Result<bool>,
                             branchType: string -> BranchType)
    ensures DeleteQuery(b, parent, mergedPr, branchType).Ok? ==>
      DeleteQuery(b, parent, mergedPr, branchType).value == ToDelete(b, parent, mergedPr, branchType)
  {
  }

  /** The selected branches are exactly the branches of `bs` that are to be deleted. */
  lemma {:induction false} FilterMembers(bs: seq<string>, parent: string, mergedPr: (string, string) -> Result<bool>,
                                         branchType: string -> BranchType)
    ensures forall b :: b in Filter(bs, parent, mergedPr, branchType) <==> b in bs && ToDelete(b, parent, mergedPr, branchType)
    decreases |bs|
  {
    if bs != [] {
      var init := bs[..|bs| - 1];
      FilterMembers(init, parent, mergedPr, branchType);
      assert bs == init + [bs[|bs| - 1]];
      forall b ensures b in bs <==> b in init || b == bs[|bs| - 1] {
      }
    }
  }

  /** The selection loop fails with the error of the first failing query,
      and otherwise yields the branches to delete in their order. */
  lemma {:induction false} SelectionIsFilter(bs: seq<string>, parent: string, mergedPr: (string, string) -> Result<bool>,
                                             branchType: string -> BranchType)
    ensures Selection(bs, parent, mergedPr, branchType).Ok? <==>
      forall i :: 0 <= i < |bs| ==> DeleteQuery(bs[i], parent, mergedPr, branchType).Ok?
    ensures Selection(bs, parent, mergedPr, branchType).Ok? ==>
      Selection(bs, parent, mergedPr, branchType).value == Filter(bs, parent, mergedPr, branchType)
    ensures Selection(bs, parent, mergedPr, branchType).Err? ==>
      exists i :: 0 <= i < |bs| && DeleteQuery(bs[i], parent, mergedPr, branchType) == Err(Selection(bs, parent, mergedPr, branchType).error)
        && forall j :: 0 <= j < i ==> DeleteQuery(bs[j], parent, mergedPr, branchType).Ok?
    decreases |bs|
  {
    if bs != [] {
      var n := |bs| - 1;
      var init := bs[..n];
      SelectionIsFilter(init, parent, mergedPr, branchType);
      assert forall i :: 0 <= i < n ==> init[i] == bs[i];
      DeleteQueryAnswersToDelete(bs[n], parent, mergedPr, branchType);
      var sel := Selection(bs, parent, mergedPr, branchType);
      if Selection(init, parent, mergedPr, branchType).Err? {
        var i :| 0 <= i < n && DeleteQuery(init[i], parent, mergedPr, branchType) == Err(Selection(init, parent, mergedPr, branchType).error)
          && forall j :: 0 <= j < i ==> DeleteQuery(init[j], parent, mergedPr, branchType).Ok?;
        assert DeleteQuery(bs[i], parent, mergedPr, branchType) == Err(sel.error);
      } else if sel.Err? {
        assert DeleteQuery(bs[n], parent, mergedPr, branchType) == Err(sel.error);
      }
    }
  }

  lemma {:induction false} RemovalsMembers(bs: seq<string>)
    ensures forall e :: e in Removals(bs) <==> e.Removed? && e.branch in bs
  {
    forall e ensures e in Removals(bs) <==> e.Removed? && e.branch in bs {
      if e.Removed? && e.branch in bs {
        var i :| 0 <= i < |bs| && bs[i] == e.branch;
        assert Removals(bs)[i] == e;
      }
    }
  }

  /** Removing `bs` one by one takes exactly them out of the local and the
      `origin` branches and changes nothing else. */
  lemma {:induction false} ReplayRemovals(s: RepoState, bs: seq<string>)
    ensures Replay(s, Removals(bs)) ==
      s.(local := s.local - (set b | b in bs), origin := s.origin - (set b | b in bs))
    decreases |bs|
  {
    if bs != [] {
      var rest := Removals(bs[1..]);
      assert Removals(bs) == [Removed(bs[0])] + rest;
      assert Removals(bs)[1..] == rest;
      ReplayRemovals(Effect(s, Removed(bs[0])), bs[1..]);
      assert (set b | b in bs) == {bs[0]} + (set b | b in bs[1..]);
    }
  }

  /** Deletion happens only after `y`, in order, and stops at the first
      failing branch: the earlier ones are gone, the later ones untried. */
  lemma DeletionStopsAtFirstFailure(s: RepoState, sel: seq<string>, removeErr: string -> Option<Error>)
    requires sel != []
    ensures var run := DeleteSpec(s, sel, PushYes, removeErr);
      var k := FirstFailure(sel, removeErr);
      && run.events == [AskedDelete(sel)] + Removals(sel[..k])
      && (run.err.None? <==> forall b :: b in sel ==> removeErr(b).None?)
      && (run.err.Some? ==> run.err == Some(DeleteFailed(sel[k], removeErr(sel[k]).value)))
      && run.post == s.(local := s.local - (set b | b in sel[..k]), origin := s.origin - (set b | b in sel[..k]))
  {
    var k := FirstFailure(sel, removeErr);
    ReplayRemovals(s, sel[..k]);
    if k == |sel| {
      forall b | b in sel ensures removeErr(b).None? {
        var i :| 0 <= i < |sel| && sel[i] == b;
      }
    }
  }

  /** Any answer but `y`, or an empty selection, deletes nothing. */
  lemma DeclineDeletesNothing(s: RepoState, sel: seq<string>, reply: string, removeErr: string -> Option<Error>)
    requires sel == [] || reply != PushYes
    ensures var run := DeleteSpec(s, sel, reply, removeErr);
      run.post == s && run.err.None? && (AskedDelete(sel) in run.events <==> sel != [])
  {
  }

  /** A failing PR query ends `qs dev -d` before any prompt or deletion. */
  lemma QueryErrorDeletesNothing(s: RepoState, parent: string, ra: ReapAnswers)
    requires ra.downloadErr.None? && ra.mainBranchErr.None? && ra.checkoutErr.None? && ra.tracked.Ok?
    requires exists i :: 0 <= i < |ra.tracked.value| && DeleteQuery(ra.tracked.value[i], parent, ra.mergedPr, ra.branchType).Err?
    ensures var run := ReapSpec(s, parent, ra);
      run.err.Some? && run.events == [Downloaded, CheckedOut(s.mainBranch)] && run.post == s.(current := s.mainBranch)
  {
    SelectionIsFilter(ra.tracked.value, parent, ra.mergedPr, ra.branchType);
  }

  /** A branch is removed only if it tracks origin, is to be deleted, and the operator
      answered `y`. */
  lemma RemovedOnlyIfToDelete(s: RepoState, parent: string, ra: ReapAnswers, b: string)
    requires Removed(b) in ReapSpec(s, parent, ra).events
    ensures ra.reply == PushYes && ra.tracked.Ok? && b in ra.tracked.value
    ensures ToDelete(b, parent, ra.mergedPr, ra.branchType)
  {
    var run := ReapSpec(s, parent, ra);
    assert ra.downloadErr.None? && ra.mainBranchErr.None? && ra.checkoutErr.None? && ra.tracked.Ok?;
    var bs := ra.tracked.value;
    var q := Selection(bs, parent, ra.mergedPr, ra.branchType);
    assert q.Ok?;
    var sel := q.value;
    var s1 := Effect(s, CheckedOut(s.mainBranch));
    assert run == Prepend([Downloaded, CheckedOut(s.mainBranch)], DeleteSpec(s1, sel, ra.reply, ra.removeErr));
    assert sel != [] && ra.reply == PushYes;
    var k := FirstFailure(sel, ra.removeErr);
    assert run.events == [Downloaded, CheckedOut(s.mainBranch), AskedDelete(sel)] + Removals(sel[..k]);
    RemovalsMembers(sel[..k]);
    assert b in sel;
    SelectionIsFilter(bs, parent, ra.mergedPr, ra.branchType);
    FilterMembers(bs, parent, ra.mergedPr, ra.branchType);
  }

  /** Every change `qs dev -d` makes is recorded. */
  lemma ReapConsistent(s: RepoState, parent: string, ra: ReapAnswers)
    ensures Consistent(s, ReapSpec(s, parent, ra))
  {
    var checkout := CheckedOut(s.mainBranch);
    var s1 := Effect(s, checkout);
    ReplayCons(s, Downloaded, [checkout]);
    ReplayCons(s, checkout, []);
    assert Replay(s, [Downloaded]) == s by { ReplayCons(s, Downloaded, []); }
    if ra.downloadErr.None? && ra.mainBranchErr.None? && ra.checkoutErr.None? && ra.tracked.Ok? {
      var sel := Selection(ra.tracked.value, parent, ra.mergedPr, ra.branchType);
      if sel.Ok? {
        var run := DeleteSpec(s1, sel.value, ra.reply, ra.removeErr);
        if sel.value == [] {
          ReplayCons(s1, NoBranchesToDelete, []);
        } else if ra.reply != PushYes {
          ReplayCons(s1, AskedDelete(sel.value), []);
        } else {
          var k := FirstFailure(sel.value, ra.removeErr);
          ReplayCons(s1, AskedDelete(sel.value), Removals(sel.value[..k]));
        }
        assert Consistent(s1, run);
        PrependConsistent(s, [Downloaded, checkout], run);
      }
    }
  }

  // ---------------------------------------------------------------------
  // Properties of `qs dev`

  /** The steps from branch creation on. */
  predicate CreationStep(e: Event, plan: DevBranch)
  {
    e == Created(plan.name, plan.comments) || e == Linked(plan.name) || e == HooksInstalled || e == Unstashed
  }

  lemma CreateBranchEvents(s: RepoState, stashed: bool, kind: IssueType, plan: DevBranch, a: DevAnswers)
    ensures var run := CreateBranchSpec(s, stashed, kind, plan, a);
      && (forall e :: e in run.events ==> CreationStep(e, plan))
      && (Linked(plan.name) in run.events ==> kind == GitHub)
      && (Unstashed in run.events ==> stashed)
      && (HooksInstalled !in run.events ==> run.err.Some?)
  {
    var run := CreateBranchSpec(s, stashed, kind, plan, a);
    if a.createErr.None? && !(kind == GitHub && a.linkErr.Some?) {
      var link := if kind == GitHub then [Linked(plan.name)] else [];
      var events := [Created(plan.name, plan.comments)] + link + [HooksInstalled];
      assert HooksInstalled in events;
      assert forall e :: e in events ==> CreationStep(e, plan);
      assert Linked(plan.name) in events ==> kind == GitHub;
    }
  }

  lemma CreateBranchStash(s: RepoState, stashed: bool, kind: IssueType, plan: DevBranch, a: DevAnswers)
    ensures var run := CreateBranchSpec(s, stashed, kind, plan, a);
      HooksInstalled in run.events && run.err.None? ==>
        && (Unstashed in run.events <==> stashed)
        && run.post.stashes == (if stashed && s.stashes > 0 then s.stashes - 1 else s.stashes)
        && run.post.dirty == (stashed || s.dirty)
  {
    if a.createErr.None? && !(kind == GitHub && a.linkErr.Some?) {
      var created := Created(plan.name, plan.comments);
      var s1 := Effect(s, created);
      var link := if kind == GitHub then [Linked(plan.name)] else [];
      var s2 := Replay(s1, link);
      if kind == GitHub {
        ReplaySingle(s1, Linked(plan.name));
      } else {
        assert s2 == s1;
      }
      assert s2.stashes == s.stashes && s2.dirty == s.dirty;
      var events := [created] + link + [HooksInstalled];
      assert Unstashed !in events;
    }
  }

  lemma CreateBranchConsistent(s: RepoState, stashed: bool, kind: IssueType, plan: DevBranch, a: DevAnswers)
    ensures Consistent(s, CreateBranchSpec(s, stashed, kind, plan, a))
  {
    if a.createErr.None? {
      var created := Created(plan.name, plan.comments);
      var s1 := Effect(s, created);
      ReplayCons(s, created, []);
      if !(kind == GitHub && a.linkErr.Some?) {
        var link := if kind == GitHub then [Linked(plan.name)] else [];
        var s2 := Replay(s1, link);
        var events := [created] + link + [HooksInstalled];
        assert Replay(s, events) == s2 by {
          assert events == [created] + (link + [HooksInstalled]);
          ReplayCons(s, created, link + [HooksInstalled]);
          ReplayAppend(s1, link, [HooksInstalled]);
          ReplayCons(s2, HooksInstalled, []);
        }
        ReplayAppend(s, events, [Unstashed]);
        ReplayCons(s2, Unstashed, []);
      }
    }
  }

  /** The upstream prompt is shown exactly when a parent repository exists
      and `upstream` does not; the branch is created only past it. */
  lemma ConfirmedEvents(s: RepoState, stashed: bool, parent: string, upstreamExists: bool,
                        kind: IssueType, plan: DevBranch, a: DevAnswers)
    ensures var run := ConfirmedSpec(s, stashed, parent, upstreamExists, kind, plan, a);
      && (forall e :: e in run.events ==> CreationStep(e, plan) || e == AskedUpstream(parent) || e == AddedUpstream(parent))
      && (AskedUpstream(parent) in run.events <==> |parent| > 0 && !upstreamExists)
      && (AddedUpstream(parent) in run.events ==> |parent| > 0 && !upstreamExists && a.upstreamReply == PushYes)
      && (Created(plan.name, plan.comments) in run.events && |parent| > 0 && !upstreamExists ==>
            a.upstreamReply == PushYes && AddedUpstream(parent) in run.events)
      && (Linked(plan.name) in run.events ==> kind == GitHub)
      && (Unstashed in run.events ==> stashed)
      && (HooksInstalled !in run.events && run.err.None? ==> run.post == s && Created(plan.name, plan.comments) !in run.events)
  {
    if |parent| > 0 && !upstreamExists && a.upstreamReply == PushYes && a.upstreamErr.None? {
      CreateBranchEvents(Effect(s, AddedUpstream(parent)), stashed, kind, plan, a);
    } else if !(|parent| > 0 && !upstreamExists) {
      CreateBranchEvents(s, stashed, kind, plan, a);
    }
  }

  lemma ConfirmedStash(s: RepoState, stashed: bool, parent: string, upstreamExists: bool,
                       kind: IssueType, plan: DevBranch, a: DevAnswers)
    ensures var run := ConfirmedSpec(s, stashed, parent, upstreamExists, kind, plan, a);
      HooksInstalled in run.events && run.err.None? ==>
        && (Unstashed in run.events <==> stashed)
        && run.post.stashes == (if stashed && s.stashes > 0 then s.stashes - 1 else s.stashes)
        && run.post.dirty == (stashed || s.dirty)
  {
    if |parent| > 0 && !upstreamExists && a.upstreamReply == PushYes && a.upstreamErr.None? {
      CreateBranchStash(Effect(s, AddedUpstream(parent)), stashed, kind, plan, a);
    } else if !(|parent| > 0 && !upstreamExists) {
      CreateBranchStash(s, stashed, kind, plan, a);
    }
  }

  lemma ConfirmedConsistent(s: RepoState, stashed: bool, parent: string, upstreamExists: bool,
                            kind: IssueType, plan: DevBranch, a: DevAnswers)
    ensures Consistent(s, ConfirmedSpec(s, stashed, parent, upstreamExists, kind, plan, a))
  {
    if |parent| > 0 && !upstreamExists {
      ReplaySingle(s, AskedUpstream(parent));
      if a.upstreamReply == PushYes && a.upstreamErr.None? {
        var added := AddedUpstream(parent);
        var s1 := Effect(s, added);
        CreateBranchConsistent(s1, stashed, kind, plan, a);
        assert Replay(s, [AskedUpstream(parent), added]) == s1 by {
          ReplayCons(s, AskedUpstream(parent), [added]);
          ReplaySingle(s, added);
        }
        PrependConsistent(s, [AskedUpstream(parent), added], CreateBranchSpec(s1, stashed, kind, plan, a));
      }
    } else {
      CreateBranchConsistent(s, stashed, kind, plan, a);
    }
  }

  /** Events that neither change the state nor stand for the upstream prompt. */
  predicate Quiet(e: Event)
  {
    Query(e) && !e.AskedUpstream?
  }

  /** Whether the planning stage hands over to the confirmed stage: main
      was synced, the name planned, found free in both lists, and the
      operator answered `y`. */
  predicate HandsOver(s: RepoState, args: seq<string>, a: DevAnswers)
  {
    var plan := Plan(a.kindOf(args), args, a.build);
    && plan.Ok? && a.syncErr.None? && a.reply == PushYes
    && a.localListErr.None? && a.remoteListErr.None?
    && plan.value.name !in s.local && plan.value.name !in s.origin
  }

  /** Short of the hand-over, the planning stage records queries alone and
      changes nothing. */
  lemma PlanQuiet(s: RepoState, stashed: bool, parent: string, upstreamExists: bool,
                  args: seq<string>, a: DevAnswers)
    requires !HandsOver(s, args, a)
    ensures var run := PlanSpec(s, stashed, parent, upstreamExists, args, a);
      (forall e :: e in run.events ==> Quiet(e)) && run.post == s
  {
    var run := PlanSpec(s, stashed, parent, upstreamExists, args, a);
    var kind := a.kindOf(args);
    var plan := Plan(kind, args, a.build);
    if a.syncErr.None? && plan.Ok? {
      var check := CheckSpec(s, stashed, parent, upstreamExists, kind, plan.value, a);
      CheckShape(s, stashed, parent, upstreamExists, kind, plan.value, a);
      assert run == Prepend([Synced], check);
      QuietAppend([Synced], check.events);
    } else {
      assert forall e :: e in run.events ==> e == Synced;
    }
  }

  /** At the hand-over, the planning stage is the checked name followed by
      the confirmed stage. */
  lemma PlanHandOver(s: RepoState, stashed: bool, parent: string, upstreamExists: bool,
                     args: seq<string>, a: DevAnswers)
    requires HandsOver(s, args, a)
    ensures var kind := a.kindOf(args);
      var plan := Plan(kind, args, a.build).value;
      PlanSpec(s, stashed, parent, upstreamExists, args, a)
        == Prepend(Checked(plan.name), ConfirmedSpec(s, stashed, parent, upstreamExists, kind, plan, a))
  {
    var kind := a.kindOf(args);
    var plan := Plan(kind, args, a.build).value;
    SyncedThenChecked(plan.name, ConfirmedSpec(s, stashed, parent, upstreamExists, kind, plan, a));
  }

  /** The existence check and the prompt either end with queries alone, or
      hand over to the confirmed stage after a free name and a `y`. */
  lemma CheckShape(s: RepoState, stashed: bool, parent: string, upstreamExists: bool,
                   kind: IssueType, plan: DevBranch, a: DevAnswers)
    ensures var run := CheckSpec(s, stashed, parent, upstreamExists, kind, plan, a);
      || ((forall e :: e in run.events ==> Quiet(e)) && run.post == s)
      || (&& a.reply == PushYes && a.localListErr.None? && a.remoteListErr.None?
          && plan.name !in s.local && plan.name !in s.origin
          && run == Prepend([ListedLocal(plan.name), ListedRemote(plan.name), AskedCreate(plan.name)],
                            ConfirmedSpec(s, stashed, parent, upstreamExists, kind, plan, a)))
  {
    var run := CheckSpec(s, stashed, parent, upstreamExists, kind, plan, a);
    var probe := BranchExistsSpec(s, plan.name, a.localListErr, a.remoteListErr);
    var pre := probe.events + [AskedCreate(plan.name)];
    assert forall e :: e in pre ==> Quiet(e);
    if probe.answer == Ok(false) && a.reply == PushYes {
      assert pre == [ListedLocal(plan.name), ListedRemote(plan.name), AskedCreate(plan.name)];
    } else {
      assert run.post == s;
      assert run.events == probe.events || run.events == pre;
    }
  }

  lemma CheckConsistent(s: RepoState, stashed: bool, parent: string, upstreamExists: bool,
                        kind: IssueType, plan: DevBranch, a: DevAnswers)
    ensures Consistent(s, CheckSpec(s, stashed, parent, upstreamExists, kind, plan, a))
  {
    var probe := BranchExistsSpec(s, plan.name, a.localListErr, a.remoteListErr);
    var pre := probe.events + [AskedCreate(plan.name)];
    assert forall e :: e in pre ==> Query(e);
    ReplayQueries(s, pre);
    ReplayQueries(s, probe.events);
    if probe.answer == Ok(false) && a.reply == PushYes {
      ConfirmedConsistent(s, stashed, parent, upstreamExists, kind, plan, a);
      PrependConsistent(s, pre, ConfirmedSpec(s, stashed, parent, upstreamExists, kind, plan, a));
    }
  }

  lemma SyncedThenChecked(name: string, rest: Run)
    ensures Prepend([Synced], Prepend([ListedLocal(name), ListedRemote(name), AskedCreate(name)], rest))
         == Prepend(Checked(name), rest)
  {
    AppendAssoc([Synced], [ListedLocal(name), ListedRemote(name), AskedCreate(name)], rest.events);
  }

  lemma QuietAppend(a: seq<Event>, b: seq<Event>)
    requires forall e :: e in a ==> Quiet(e)
    requires forall e :: e in b ==> Quiet(e)
    ensures forall e :: e in a + b ==> Quiet(e)
  {
  }

  /** The events of the planning stage that precede the confirmed stage. */
  function Checked(name: string): seq<Event>
  {
    [Synced, ListedLocal(name), ListedRemote(name), AskedCreate(name)]
  }

  lemma HandOverCreated(s: RepoState, stashed: bool, parent: string, upstreamExists: bool,
                        kind: IssueType, plan: DevBranch, a: DevAnswers, run: Run)
    requires run == Prepend(Checked(plan.name), ConfirmedSpec(s, stashed, parent, upstreamExists, kind, plan, a))
    ensures ListedRemote(plan.name) in run.events
    ensures forall e :: e in run.events && e.Created? ==> e.branch == plan.name
  {
    ConfirmedEvents(s, stashed, parent, upstreamExists, kind, plan, a);
    var rest := ConfirmedSpec(s, stashed, parent, upstreamExists, kind, plan, a);
    PrefixOrder(plan, parent, upstreamExists, kind, stashed, rest.events, run.events);
  }

  lemma HandOverEvents(s: RepoState, stashed: bool, parent: string, upstreamExists: bool,
                       kind: IssueType, plan: DevBranch, a: DevAnswers, run: Run)
    requires run == Prepend(Checked(plan.name), ConfirmedSpec(s, stashed, parent, upstreamExists, kind, plan, a))
    ensures Stashed !in run.events
    ensures forall e :: e in run.events && e.Linked? ==> kind == GitHub
    ensures forall e :: e in run.events && e.AskedUpstream? ==> e.parentRepo == parent && |parent| > 0 && !upstreamExists
    ensures Unstashed in run.events ==> stashed
  {
    ConfirmedEvents(s, stashed, parent, upstreamExists, kind, plan, a);
    var rest := ConfirmedSpec(s, stashed, parent, upstreamExists, kind, plan, a);
    PrefixOrder(plan, parent, upstreamExists, kind, stashed, rest.events, run.events);
  }

  lemma PrefixOrder(plan: DevBranch, parent: string, upstreamExists: bool, kind: IssueType, stashed: bool,
                    rest: seq<Event>, events: seq<Event>)
    requires events == Checked(plan.name) + rest
    requires forall e :: e in rest ==> CreationStep(e, plan) || e == AskedUpstream(parent) || e == AddedUpstream(parent)
    requires AskedUpstream(parent) in rest ==> |parent| > 0 && !upstreamExists
    requires Linked(plan.name) in rest ==> kind == GitHub
    requires Unstashed in rest ==> stashed
    ensures Stashed !in events
    ensures forall e :: e in events && e.Linked? ==> kind == GitHub
    ensures forall e :: e in events && e.AskedUpstream? ==> e.parentRepo == parent && |parent| > 0 && !upstreamExists
    ensures Unstashed in events ==> stashed
    ensures ListedRemote(plan.name) in events
    ensures forall e :: e in events && e.Created? ==> e.branch == plan.name
  {
    assert events[2] == ListedRemote(plan.name);
    forall e | e in events ensures e in rest || Quiet(e) {
      if e !in rest {
        assert e in Checked(plan.name);
      }
    }
  }

  lemma HandOverQuietEnd(s: RepoState, stashed: bool, parent: string, upstreamExists: bool,
                         kind: IssueType, plan: DevBranch, a: DevAnswers, run: Run)
    requires run == Prepend(Checked(plan.name), ConfirmedSpec(s, stashed, parent, upstreamExists, kind, plan, a))
    ensures HooksInstalled !in run.events && run.err.None? ==> run.post == s && forall e :: e in run.events ==> !e.Created?
  {
    var rest := ConfirmedSpec(s, stashed, parent, upstreamExists, kind, plan, a);
    ConfirmedEvents(s, stashed, parent, upstreamExists, kind, plan, a);
    if HooksInstalled !in run.events && run.err.None? {
      assert HooksInstalled !in rest.events;
      assert rest.events == [AskedUpstream(parent)];
    }
  }

  /** A branch is created only under the planned name, after both lists
      showed it free and the operator answered `y`. */
  lemma PlanCreated(s: RepoState, stashed: bool, parent: string, upstreamExists: bool,
                    args: seq<string>, a: DevAnswers)
    ensures var run := PlanSpec(s, stashed, parent, upstreamExists, args, a);
      var plan := Plan(a.kindOf(args), args, a.build);
      forall e :: e in run.events && e.Created? ==>
        && plan.Ok? && e.branch == plan.value.name
        && e.branch !in s.local && e.branch !in s.origin
        && ListedRemote(e.branch) in run.events
        && a.reply == PushYes
  {
    var run := PlanSpec(s, stashed, parent, upstreamExists, args, a);
    var kind := a.kindOf(args);
    var plan := Plan(kind, args, a.build);
    if HandsOver(s, args, a) {
      PlanHandOver(s, stashed, parent, upstreamExists, args, a);
      HandOverCreated(s, stashed, parent, upstreamExists, kind, plan.value, a, run);
    } else {
      PlanQuiet(s, stashed, parent, upstreamExists, args, a);
    }
  }

  /** The other orderings of the planning stage: no second stash, linking
      for GitHub issues only, the upstream prompt only when it is missing,
      unstash only after a stash, and a quiet end that leaves all as it was. */
  lemma PlanEvents(s: RepoState, stashed: bool, parent: string, upstreamExists: bool,
                   args: seq<string>, a: DevAnswers)
    ensures var run := PlanSpec(s, stashed, parent, upstreamExists, args, a);
      && Stashed !in run.events
      && (forall e :: e in run.events && e.Linked? ==> a.kindOf(args) == GitHub)
      && (forall e :: e in run.events && e.AskedUpstream? ==>
            e.parentRepo == parent && |parent| > 0 && !upstreamExists && a.reply == PushYes)
      && (Unstashed in run.events ==> stashed)
      && (HooksInstalled !in run.events && run.err.None? ==> run.post == s && forall e :: e in run.events ==> !e.Created?)
  {
    var run := PlanSpec(s, stashed, parent, upstreamExists, args, a);
    var kind := a.kindOf(args);
    var plan := Plan(kind, args, a.build);
    if HandsOver(s, args, a) {
      PlanHandOver(s, stashed, parent, upstreamExists, args, a);
      HandOverEvents(s, stashed, parent, upstreamExists, kind, plan.value, a, run);
      HandOverQuietEnd(s, stashed, parent, upstreamExists, kind, plan.value, a, run);
    } else {
      PlanQuiet(s, stashed, parent, upstreamExists, args, a);
    }
  }

  lemma PlanStash(s: RepoState, stashed: bool, parent: string, upstreamExists: bool,
                  args: seq<string>, a: DevAnswers)
    ensures var run := PlanSpec(s, stashed, parent, upstreamExists, args, a);
      HooksInstalled in run.events && run.err.None? ==>
        && (Unstashed in run.events <==> stashed)
        && run.post.stashes == (if stashed && s.stashes > 0 then s.stashes - 1 else s.stashes)
        && run.post.dirty == (stashed || s.dirty)
  {
    var kind := a.kindOf(args);
    var plan := Plan(kind, args, a.build);
    if a.syncErr.None? && plan.Ok? {
      var probe := BranchExistsSpec(s, plan.value.name, a.localListErr, a.remoteListErr);
      if probe.answer == Ok(false) && a.reply == PushYes {
        ConfirmedStash(s, stashed, parent, upstreamExists, kind, plan.value, a);
      }
    }
  }

  lemma PlanConsistent(s: RepoState, stashed: bool, parent: string, upstreamExists: bool,
                       args: seq<string>, a: DevAnswers)
    ensures Consistent(s, PlanSpec(s, stashed, parent, upstreamExists, args, a))
  {
    var kind := a.kindOf(args);
    var plan := Plan(kind, args, a.build);
    if a.syncErr.None? {
      ReplaySingle(s, Synced);
      if plan.Ok? {
        CheckConsistent(s, stashed, parent, upstreamExists, kind, plan.value, a);
        PrependConsistent(s, [Synced], CheckSpec(s, stashed, parent, upstreamExists, kind, plan.value, a));
      }
    }
  }

  /** Whether the checks that precede any change all passed: the upstream
      lookup, the fork consistency check and the main-branch check. */
  predicate GuardsPass(s: RepoState, parent: string, a: DevAnswers)
  {
    a.upstreamCheckErr.None? && !(|parent| == 0 && s.upstream) && a.branchInfoErr.None? && s.current == s.mainBranch
  }

  /** The fork-consistency and not-on-main errors, and every other guard,
      come before the stash: nothing is recorded or changed unless all passed,
      and the changes are stashed exactly when the tree is dirty. */
  lemma GuardsComeFirst(s: RepoState, parent: string, args: seq<string>, a: DevAnswers)
    ensures var run := CreateSpec(s, parent, args, a);
      && (run.events != [] ==> GuardsPass(s, parent, a))
      && (run.events == [] ==> run.post == s)
      && (Stashed in run.events <==> GuardsPass(s, parent, a) && s.dirty && a.uncommittedErr.None? && a.stashErr.None?)
  {
    if GuardsPass(s, parent, a) && !(s.dirty && (a.uncommittedErr.Some? || a.stashErr.Some?)) {
      var s1 := if s.dirty then Effect(s, Stashed) else s;
      var plan := PlanSpec(s1, s.dirty, parent, s.upstream, Args(args, a), a);
      PlanEvents(s1, s.dirty, parent, s.upstream, Args(args, a), a);
      if s.dirty {
        assert ([Stashed] + plan.events)[0] == Stashed;
      } else {
        PlanNotEmpty(s1, s.dirty, parent, s.upstream, Args(args, a), a);
      }
    }
  }

  lemma PlanNotEmpty(s: RepoState, stashed: bool, parent: string, upstreamExists: bool,
                     args: seq<string>, a: DevAnswers)
    ensures var run := PlanSpec(s, stashed, parent, upstreamExists, args, a);
      run.events == [] ==> run.post == s && run.err == a.syncErr
  {
  }

  /** A branch is created only when neither the local nor the `origin`
      branches hold its name, after the remote was asked and the operator
      answered `y`, and only from main. */
  lemma CreatedOnlyWhenFree(s: RepoState, parent: string, args: seq<string>, a: DevAnswers)
    ensures var run := CreateSpec(s, parent, args, a);
      forall e :: e in run.events && e.Created? ==>
        && e.branch !in s.local && e.branch !in s.origin
        && ListedRemote(e.branch) in run.events
        && a.reply == PushYes
        && s.current == s.mainBranch
  {
    var run := CreateSpec(s, parent, args, a);
    if GuardsPass(s, parent, a) && !(s.dirty && (a.uncommittedErr.Some? || a.stashErr.Some?)) {
      var s1 := if s.dirty then Effect(s, Stashed) else s;
      var planned := PlanSpec(s1, s.dirty, parent, s.upstream, Args(args, a), a);
      PlanCreated(s1, s.dirty, parent, s.upstream, Args(args, a), a);
      assert s1.local == s.local && s1.origin == s.origin;
      assert run.events == (if s.dirty then [Stashed] else []) + planned.events;
      forall e | e in run.events && e.Created? ensures e in planned.events {
      }
    } else {
      assert run.events == [];
    }
  }

  /** Linking runs only for GitHub issues; the upstream prompt is shown only
      for a fork whose `upstream` remote is missing, after the `y` to the
      branch prompt. */
  lemma LinkAndUpstreamOrdering(s: RepoState, parent: string, args: seq<string>, a: DevAnswers)
    ensures var run := CreateSpec(s, parent, args, a);
      && (forall e :: e in run.events && e.Linked? ==> a.kindOf(Args(args, a)) == GitHub)
      && (forall e :: e in run.events && e.AskedUpstream? ==>
            e.parentRepo == parent && |parent| > 0 && !s.upstream && a.reply == PushYes)
  {
    if GuardsPass(s, parent, a) && !(s.dirty && (a.uncommittedErr.Some? || a.stashErr.Some?)) {
      var s1 := if s.dirty then Effect(s, Stashed) else s;
      PlanEvents(s1, s.dirty, parent, s.upstream, Args(args, a), a);
    }
  }

  /** Declining either prompt, or an unreadable Jira ticket, ends the command
      without an error and without a branch; changes stashed before stay in
      the stash. */
  lemma QuietEndKeepsStash(s: RepoState, parent: string, args: seq<string>, a: DevAnswers)
    ensures var run := CreateSpec(s, parent, args, a);
      run.err.None? && HooksInstalled !in run.events ==>
        && (forall e :: e in run.events ==> !e.Created?)
        && Unstashed !in run.events
        && run.post.local == s.local && run.post.origin == s.origin
        && run.post.stashes == s.stashes + (if Stashed in run.events then 1 else 0)
        && !run.post.dirty
  {
    var run := CreateSpec(s, parent, args, a);
    GuardsComeFirst(s, parent, args, a);
    if GuardsPass(s, parent, a) && !(s.dirty && (a.uncommittedErr.Some? || a.stashErr.Some?)) {
      var s1 := if s.dirty then Effect(s, Stashed) else s;
      PlanEvents(s1, s.dirty, parent, s.upstream, Args(args, a), a);
    }
  }

  /** On the full path the changes are unstashed exactly when they were
      stashed, so the stash and the dirty flag are as before. */
  lemma UnstashPairsWithStash(s: RepoState, parent: string, args: seq<string>, a: DevAnswers)
    ensures var run := CreateSpec(s, parent, args, a);
      run.err.None? && HooksInstalled in run.events ==>
        && (Unstashed in run.events <==> Stashed in run.events)
        && run.post.stashes == s.stashes
        && run.post.dirty == s.dirty
  {
    GuardsComeFirst(s, parent, args, a);
    if GuardsPass(s, parent, a) && !(s.dirty && (a.uncommittedErr.Some? || a.stashErr.Some?)) {
      var s1 := if s.dirty then Effect(s, Stashed) else s;
      PlanStash(s1, s.dirty, parent, s.upstream, Args(args, a), a);
    }
  }

  /** The fork-consistency error: no parent repository but an `upstream`
      remote stops the command before anything is recorded or changed, and
      names the repository. */
  lemma ForkErrorComesFirst(s: RepoState, parent: string, args: seq<string>, a: DevAnswers)
    requires a.upstreamCheckErr.None? && |parent| == 0 && s.upstream
    ensures var run := CreateSpec(s, parent, args, a);
      && run.events == [] && run.post == s
      && run.err == Some(if a.repoAndOrg.Ok? then NoForkDetected(a.repoAndOrg.value.1, a.repoAndOrg.value.0)
                         else a.repoAndOrg.error)
  {
  }

  /** Off the main branch the command stops with the not-on-main error
      naming the current branch, before anything is recorded or changed. */
  lemma NotOnMainComesFirst(s: RepoState, parent: string, args: seq<string>, a: DevAnswers)
    requires a.upstreamCheckErr.None? && !(|parent| == 0 && s.upstream) && a.branchInfoErr.None?
    requires s.current != s.mainBranch
    ensures var run := CreateSpec(s, parent, args, a);
      && run.events == [] && run.post == s
      && run.err == Some(if a.repoAndOrg.Ok? then NotOnMainBranch(s.current) else a.repoAndOrg.error)
  {
  }

  /** The stage after the guards and the stash: every guard passed, the
      stash (when the tree was dirty) succeeded, and main was synced. */
  predicate ReachesNaming(s: RepoState, parent: string, a: DevAnswers)
  {
    GuardsPass(s, parent, a) && !(s.dirty && (a.uncommittedErr.Some? || a.stashErr.Some?)) && a.syncErr.None?
  }

  /** The branch planned for the arguments of a run. */
  function Planned(args: seq<string>, a: DevAnswers): Result<DevBranch>
  {
    Plan(a.kindOf(Args(args, a)), Args(args, a), a.build)
  }

  /** The state once the dirty changes, if any, were stashed. */
  function AfterStash(s: RepoState): (r: RepoState)
    ensures r.local == s.local && r.origin == s.origin && r.current == s.current && !r.dirty
    ensures r.stashes == s.stashes + (if s.dirty then 1 else 0)
  {
    if s.dirty then Effect(s, Stashed) else s
  }

  /** A name that is already a local or an `origin` branch is refused with
      the already-exists error; no prompt is shown and nothing is created. */
  lemma TakenNameRefused(s: RepoState, parent: string, args: seq<string>, a: DevAnswers)
    requires ReachesNaming(s, parent, a) && Planned(args, a).Ok?
    requires a.localListErr.None?
    requires var name := Planned(args, a).value.name;
      name in s.local || (a.remoteListErr.None? && name in s.origin)
    ensures var run := CreateSpec(s, parent, args, a);
      var name := Planned(args, a).value.name;
      && run.err == Some(BranchAlreadyExists(name))
      && run.events == (if s.dirty then [Stashed] else []) + [Synced, ListedLocal(name)]
                       + (if name in s.local then [] else [ListedRemote(name)])
      && run.post == AfterStash(s)
  {
  }

  /** Any reply but `y` to the create prompt ends the command without an
      error and without a branch; stashed changes stay in the stash. */
  lemma DeclineCreatesNothing(s: RepoState, parent: string, args: seq<string>, a: DevAnswers)
    requires ReachesNaming(s, parent, a) && Planned(args, a).Ok?
    requires a.localListErr.None? && a.remoteListErr.None?
    requires var name := Planned(args, a).value.name; name !in s.local && name !in s.origin
    requires a.reply != PushYes
    ensures var run := CreateSpec(s, parent, args, a);
      var name := Planned(args, a).value.name;
      && run.err.None?
      && run.events == (if s.dirty then [Stashed] else []) + Checked(name)
      && run.post == AfterStash(s)
  {
  }

  /** Declining to add the parent repository as `upstream` likewise ends
      the command without an error and without a branch. */
  lemma DeclineUpstreamCreatesNothing(s: RepoState, parent: string, args: seq<string>, a: DevAnswers)
    requires ReachesNaming(s, parent, a) && Planned(args, a).Ok?
    requires a.localListErr.None? && a.remoteListErr.None?
    requires var name := Planned(args, a).value.name; name !in s.local && name !in s.origin
    requires a.reply == PushYes && |parent| > 0 && !s.upstream && a.upstreamReply != PushYes
    ensures var run := CreateSpec(s, parent, args, a);
      var name := Planned(args, a).value.name;
      && run.err.None?
      && run.events == (if s.dirty then [Stashed] else []) + Checked(name) + [AskedUpstream(parent)]
      && run.post == AfterStash(s)
  {
  }

  /** A Jira ticket that cannot be read ends the command without an error,
      right after the sync of main. */
  lemma UnknownJiraEndsQuietly(s: RepoState, parent: string, args: seq<string>, a: DevAnswers)
    requires ReachesNaming(s, parent, a) && Planned(args, a) == Err(JiraIssueNotFound)
    ensures var run := CreateSpec(s, parent, args, a);
      && run.err.None?
      && run.events == (if s.dirty then [Stashed] else []) + [Synced]
      && run.post == AfterStash(s)
  {
  }

  /** Errors of the hook installation are only logged: they do not change
      what the command records, returns or leaves behind. */
  lemma HookErrIgnored(s: RepoState, parent: string, args: seq<string>, a: DevAnswers, e: Option<Error>)
    ensures CreateSpec(s, parent, args, a.(hookErr := e)) == CreateSpec(s, parent, args, a)
  {
    var b := a.(hookErr := e);
    assert Args(args, b) == Args(args, a);
    StashIgnoresHookErr(s, parent, s.upstream, Args(args, a), a, b);
  }

  lemma StashIgnoresHookErr(s: RepoState, parent: string, upstreamExists: bool, args: seq<string>,
                            a: DevAnswers, b: DevAnswers)
    requires b == a.(hookErr := b.hookErr)
    ensures StashSpec(s, parent, upstreamExists, args, b) == StashSpec(s, parent, upstreamExists, args, a)
  {
    PlanIgnoresHookErr(s, false, parent, upstreamExists, args, a, b);
    PlanIgnoresHookErr(Effect(s, Stashed), true, parent, upstreamExists, args, a, b);
  }

  lemma PlanIgnoresHookErr(s: RepoState, stashed: bool, parent: string, upstreamExists: bool,
                           args: seq<string>, a: DevAnswers, b: DevAnswers)
    requires b == a.(hookErr := b.hookErr)
    ensures PlanSpec(s, stashed, parent, upstreamExists, args, b) == PlanSpec(s, stashed, parent, upstreamExists, args, a)
  {
    var kind := a.kindOf(args);
    var plan := Plan(kind, args, a.build);
    if plan.Ok? {
      CheckIgnoresHookErr(s, stashed, parent, upstreamExists, kind, plan.value, a, b);
    }
  }

  lemma CheckIgnoresHookErr(s: RepoState, stashed: bool, parent: string, upstreamExists: bool,
                            kind: IssueType, plan: DevBranch, a: DevAnswers, b: DevAnswers)
    requires b == a.(hookErr := b.hookErr)
    ensures CheckSpec(s, stashed, parent, upstreamExists, kind, plan, b) == CheckSpec(s, stashed, parent, upstreamExists, kind, plan, a)
  {
    ConfirmedIgnoresHookErr(s, stashed, parent, upstreamExists, kind, plan, a, b);
  }

  lemma ConfirmedIgnoresHookErr(s: RepoState, stashed: bool, parent: string, upstreamExists: bool,
                                kind: IssueType, plan: DevBranch, a: DevAnswers, b: DevAnswers)
    requires b == a.(hookErr := b.hookErr)
    ensures ConfirmedSpec(s, stashed, parent, upstreamExists, kind, plan, b)
         == ConfirmedSpec(s, stashed, parent, upstreamExists, kind, plan, a)
  {
    assert CreateBranchSpec(s, stashed, kind, plan, b) == CreateBranchSpec(s, stashed, kind, plan, a);
    var s1 := Effect(s, AddedUpstream(parent));
    assert CreateBranchSpec(s1, stashed, kind, plan, b) == CreateBranchSpec(s1, stashed, kind, plan, a);
  }

  lemma CreateConsistent(s: RepoState, parent: string, args: seq<string>, a: DevAnswers)
    ensures Consistent(s, CreateSpec(s, parent, args, a))
  {
    if GuardsPass(s, parent, a) && !(s.dirty && (a.uncommittedErr.Some? || a.stashErr.Some?)) {
      var s1 := if s.dirty then Effect(s, Stashed) else s;
      PlanConsistent(s1, s.dirty, parent, s.upstream, Args(args, a), a);
      if s.dirty {
        ReplaySingle(s, Stashed);
        PrependConsistent(s, [Stashed], PlanSpec(s1, true, parent, s.upstream, Args(args, a), a));
      }
    }
  }

  /** Every state `qs dev` leaves is accounted for by the events it recorded. */
  lemma DevConsistent(s: RepoState, parent: Result<string>, doDelete: bool, args: seq<string>,
                      a: DevAnswers, ra: ReapAnswers)
    ensures Consistent(s, DevSpec(s, parent, doDelete, args, a, ra))
  {
    if parent.Ok? {
      if doDelete {
        ReapConsistent(s, parent.value, ra);
      } else {
        CreateConsistent(s, parent.value, args, a);
      }
    }
  }

  // ---------------------------------------------------------------------
  // The command

  /** A failed query ends the selection: the error of a prefix is the error
      of the whole list. */
  lemma {:induction false} SelectionKeepsError(bs: seq<string>, i: nat, parent: string,
                                               mergedPr: (string, string) -> Result<bool>, branchType: string -> BranchType)
    requires i <= |bs| && Selection(bs[..i], parent, mergedPr, branchType).Err?
    ensures Selection(bs, parent, mergedPr, branchType) == Selection(bs[..i], parent, mergedPr, branchType)
    decreases |bs| - i
  {
    if i == |bs| {
      assert bs[..i] == bs;
    } else {
      assert bs[..i + 1][..i] == bs[..i];
      SelectionKeepsError(bs, i + 1, parent, mergedPr, branchType);
    }
  }

  /** The selection loop of `qs dev -d`: asks about each branch tracking
      `origin` in turn, and stops at the first query that fails. */
  method SelectBranchesToDelete(bs: seq<string>, parent: string, mergedPr: (string, string) -> Result<bool>,
                                branchType: string -> BranchType) returns (r: Result<seq<string>>)
    ensures r == Selection(bs, parent, mergedPr, branchType)
  {
    var toDelete: seq<string> := [];
    for i := 0 to |bs|
      invariant Selection(bs[..i], parent, mergedPr, branchType) == Ok(toDelete)
    {
      var branch := bs[i];
      assert bs[..i + 1][..i] == bs[..i] && bs[..i + 1][i] == branch;
      var prMerged := mergedPr(parent, branch);
      if prMerged.Err? {
        SelectionKeepsError(bs, i + 1, parent, mergedPr, branchType);
        return Err(prMerged.error);
      }
      if !prMerged.value {
        var skipBranch := true;
        if branchType(branch) == Dev {
          var siblingMerged := mergedPr(parent, Sibling(branch));
          if siblingMerged.Err? {
            SelectionKeepsError(bs, i + 1, parent, mergedPr, branchType);
            return Err(siblingMerged.error);
          }
          if siblingMerged.value {
            skipBranch := false;
          }
        }
        if skipBranch {
          continue;
        }
      }
      toDelete := toDelete + [branch];
    }
    assert bs[..|bs|] == bs;
    return Ok(toDelete);
  }

  /** The text to use when no argument was given, built by a loop over the
      lines of the context value or the clipboard. */
  method GetArgStringFromClipboard(ctxValue: Option<string>, clipboard: Result<string>) returns (newArg: string)
    ensures newArg == ClipboardText(ctxValue, clipboard)
  {
    var arg: string;
    if ctxValue.Some? && |ctxValue.value| > 0 {
      arg := ctxValue.value;
    } else {
      if clipboard.Err? {
        return "";
      }
      arg := clipboard.value;
    }
    var lines := Split(arg, '\n');
    newArg := "";
    for i := 0 to |lines|
      invariant newArg == SpaceJoined(lines[..i])
    {
      assert lines[..i + 1] == lines[..i] + [lines[i]];
      SpaceJoinedAppend(lines[..i], lines[i]);
      newArg := newArg + lines[i];
      newArg := newArg + " ";
    }
    assert lines[..|lines|] == lines;
    SpaceJoinedSplit(arg);
  }

  /** The working copy `qs dev` acts on, with the record of what was done to
      it. Its git, `gh` and Jira collaborators answer through the
      `DevAnswers` and `ReapAnswers` given to each command. */
  class Repository {
    var current: string
    var mainBranch: string
    var local: set<string>
    var origin: set<string>
    var upstream: bool
    var dirty: bool
    var stashes: nat
    var notes: map<string, seq<string>>
    var linked: set<string>
    ghost var trace: seq<Event>

    function State(): RepoState
      reads this
    {
      RepoState(current, mainBranch, local, origin, upstream, dirty, stashes, notes, linked)
    }

    constructor(s: RepoState)
      ensures State() == s && trace == []
    {
      current, mainBranch, local, origin := s.current, s.mainBranch, s.local, s.origin;
      upstream, dirty, stashes, notes, linked := s.upstream, s.dirty, s.stashes, s.notes, s.linked;
      trace := [];
    }

    // The git and `gh` calls that change the repository, each recorded in
    // the trace when it succeeds.

    method CheckoutOnBranch(branch: string)
      modifies this`current, this`trace
      ensures State() == Effect(old(State()), CheckedOut(branch)) && trace == old(trace) + [CheckedOut(branch)]
    {
      current := branch;
      trace := trace + [CheckedOut(branch)];
    }

    method RemoveBranch(branch: string)
      modifies this`local, this`origin, this`trace
      ensures State() == Effect(old(State()), Removed(branch)) && trace == old(trace) + [Removed(branch)]
    {
      local, origin := local - {branch}, origin - {branch};
      trace := trace + [Removed(branch)];
    }

    method Stash()
      modifies this`dirty, this`stashes, this`trace
      ensures State() == Effect(old(State()), Stashed) && trace == old(trace) + [Stashed]
    {
      dirty, stashes := false, stashes + 1;
      trace := trace + [Stashed];
    }

    method Unstash()
      modifies this`dirty, this`stashes, this`trace
      ensures State() == Effect(old(State()), Unstashed) && trace == old(trace) + [Unstashed]
    {
      dirty, stashes := true, if stashes > 0 then stashes - 1 else 0;
      trace := trace + [Unstashed];
    }

    method MakeUpstreamForBranch(parentRepo: string)
      modifies this`upstream, this`trace
      ensures State() == Effect(old(State()), AddedUpstream(parentRepo)) && trace == old(trace) + [AddedUpstream(parentRepo)]
    {
      upstream := true;
      trace := trace + [AddedUpstream(parentRepo)];
    }

    method CreateDevBranch(branch: string, comments: seq<string>)
      modifies this`local, this`origin, this`current, this`notes, this`trace
      ensures State() == Effect(old(State()), Created(branch, comments))
      ensures trace == old(trace) + [Created(branch, comments)]
    {
      local, origin, current, notes := local + {branch}, origin + {branch}, branch, notes[branch := comments];
      trace := trace + [Created(branch, comments)];
    }

    method LinkBranchToGithubIssue(branch: string)
      modifies this`linked, this`trace
      ensures State() == Effect(old(State()), Linked(branch)) && trace == old(trace) + [Linked(branch)]
    {
      linked := linked + {branch};
      trace := trace + [Linked(branch)];
    }

    /** A query or a prompt: recorded, and nothing else changes. */
    method Record(e: Event)
      requires Query(e)
      modifies this`trace
      ensures trace == old(trace) + [e]
    {
      trace := trace + [e];
    }

    /** `branchExists`: the local list first, then `origin` when the name is
        not local. */
    method BranchExists(name: string, localErr: Option<Error>, remoteErr: Option<Error>) returns (r: Result<bool>)
      modifies this`trace
      ensures var probe := BranchExistsSpec(State(), name, localErr, remoteErr);
        trace == old(trace) + probe.events && r == probe.answer
    {
      Record(ListedLocal(name));
      if localErr.Some? {
        return Err(LocalCheckFailed(localErr.value));
      }
      if name in local {
        return Ok(true);
      }
      Record(ListedRemote(name));
      if remoteErr.Some? {
        return Err(RemoteCheckFailed(remoteErr.value));
      }
      return Ok(name in origin);
    }

    /** The deletion loop: removes the selected branches in order and stops
        at the first one that cannot be removed. */
    method RemoveBranches(sel: seq<string>, removeErr: string -> Option<Error>) returns (err: Option<Error>)
      modifies this
      ensures var k := FirstFailure(sel, removeErr);
        && trace == old(trace) + Removals(sel[..k])
        && State() == Replay(old(State()), Removals(sel[..k]))
        && err == if k < |sel| then Some(DeleteFailed(sel[k], removeErr(sel[k]).value)) else None
    {
      for i := 0 to |sel|
        invariant forall j :: 0 <= j < i ==> removeErr(sel[j]).None?
        invariant trace == old(trace) + Removals(sel[..i])
        invariant State() == Replay(old(State()), Removals(sel[..i]))
      {
        if removeErr(sel[i]).Some? {
          return Some(DeleteFailed(sel[i], removeErr(sel[i]).value));
        }
        ghost var before := State();
        RemoveBranch(sel[i]);
        assert Removals(sel[..i + 1]) == Removals(sel[..i]) + [Removed(sel[i])];
        ReplayAppend(old(State()), Removals(sel[..i]), [Removed(sel[i])]);
        ReplaySingle(before, Removed(sel[i]));
      }
      assert sel[..|sel|] == sel;
      return None;
    }

    /** `qs dev -d`. */
    method DeleteBranches(parent: string, ra: ReapAnswers) returns (err: Option<Error>)
      modifies this
      ensures var run := ReapSpec(old(State()), parent, ra);
        trace == old(trace) + run.events && State() == run.post && err == run.err
    {
      if ra.downloadErr.Some? {
        return ra.downloadErr;
      }
      Record(Downloaded);
      if ra.mainBranchErr.Some? {
        return ra.mainBranchErr;
      }
      if ra.checkoutErr.Some? {
        return ra.checkoutErr;
      }
      CheckoutOnBranch(mainBranch);
      if ra.tracked.Err? {
        return Some(ra.tracked.error);
      }
      var selected := SelectBranchesToDelete(ra.tracked.value, parent, ra.mergedPr, ra.branchType);
      if selected.Err? {
        return Some(selected.error);
      }
      err := ConfirmAndDelete(selected.value, ra.reply, ra.removeErr);
    }

    /** Lists the selected branches, asks for confirmation and deletes them. */
    method ConfirmAndDelete(toDelete: seq<string>, reply: string, removeErr: string -> Option<Error>) returns (err: Option<Error>)
      modifies this
      ensures var run := DeleteSpec(old(State()), toDelete, reply, removeErr);
        trace == old(trace) + run.events && State() == run.post && err == run.err
    {
      if toDelete == [] {
        Record(NoBranchesToDelete);
        return None;
      }
      Record(AskedDelete(toDelete));
      if reply != PushYes {
        return None;
      }
      err := RemoveBranches(toDelete, removeErr);
    }
  
    /** Creates the branch, links it to its GitHub issue, installs the hooks
        (their errors are only logged) and restores stashed changes. */
    method CreateBranch(stashed: bool, kind: IssueType, plan: DevBranch, a: DevAnswers) returns (err: Option<Error>)
      modifies this
      ensures var run := CreateBranchSpec(old(State()), stashed, kind, plan, a);
        trace == old(trace) + run.events && State() == run.post && err == run.err
    {
      if a.createErr.Some? {
        return a.createErr;
      }
      CreateDevBranch(plan.name, plan.comments);
      ghost var s1 := State();
      if kind == GitHub {
        if a.linkErr.Some? {
          return a.linkErr;
        }
        LinkBranchToGithubIssue(plan.name);
        ReplaySingle(s1, Linked(plan.name));
      }
      Record(HooksInstalled);
      if stashed {
        if a.unstashErr.Some? {
          return Some(UnstashFailed(a.unstashErr.value));
        }
        Unstash();
      }
      return None;
    }

    /** After the `y`: adds the parent repository as `upstream` when it is
        missing and the operator agrees, then creates the branch. */
    method Confirmed(stashed: bool, parent: string, upstreamExists: bool, kind: IssueType, plan: DevBranch,
                     a: DevAnswers) returns (err: Option<Error>)
      modifies this
      ensures var run := ConfirmedSpec(old(State()), stashed, parent, upstreamExists, kind, plan, a);
        trace == old(trace) + run.events && State() == run.post && err == run.err
    {
      ghost var s0 := State();
      if |parent| > 0 && !upstreamExists {
        Record(AskedUpstream(parent));
        if a.upstreamReply != PushYes {
          return None;
        }
        if a.upstreamErr.Some? {
          return a.upstreamErr;
        }
        MakeUpstreamForBranch(parent);
        ghost var pre := [AskedUpstream(parent), AddedUpstream(parent)];
        ghost var added := trace;
        assert added == old(trace) + pre;
        ghost var s1 := State();
        ghost var rest := CreateBranchSpec(s1, stashed, kind, plan, a);
        assert ConfirmedSpec(s0, stashed, parent, upstreamExists, kind, plan, a) == Prepend(pre, rest);
        err := CreateBranch(stashed, kind, plan, a);
        assert trace == added + rest.events;
        AppendAssoc(old(trace), pre, rest.events);
      } else {
        err := CreateBranch(stashed, kind, plan, a);
      }
    }

    /** The existence check of the planned name and the prompt. */
    method CheckAndConfirm(stashed: bool, parent: string, upstreamExists: bool, kind: IssueType, plan: DevBranch,
                           a: DevAnswers) returns (err: Option<Error>)
      modifies this
      ensures var run := CheckSpec(old(State()), stashed, parent, upstreamExists, kind, plan, a);
        trace == old(trace) + run.events && State() == run.post && err == run.err
    {
      ghost var s0 := State();
      ghost var probe := BranchExistsSpec(s0, plan.name, a.localListErr, a.remoteListErr);
      var found := BranchExists(plan.name, a.localListErr, a.remoteListErr);
      if found.Err? {
        assert CheckSpec(s0, stashed, parent, upstreamExists, kind, plan, a) == Run(probe.events, Some(BranchCheckFailed(found.error)), s0);
        return Some(BranchCheckFailed(found.error));
      }
      if found.value {
        assert CheckSpec(s0, stashed, parent, upstreamExists, kind, plan, a) == Run(probe.events, Some(BranchAlreadyExists(plan.name)), s0);
        return Some(BranchAlreadyExists(plan.name));
      }
      Record(AskedCreate(plan.name));
      ghost var pre := probe.events + [AskedCreate(plan.name)];
      ghost var asked := trace;
      assert asked == old(trace) + pre;
      if a.reply != PushYes {
        assert CheckSpec(s0, stashed, parent, upstreamExists, kind, plan, a) == Run(pre, None, s0);
        return None;
      }
      ghost var rest := ConfirmedSpec(s0, stashed, parent, upstreamExists, kind, plan, a);
      assert CheckSpec(s0, stashed, parent, upstreamExists, kind, plan, a) == Prepend(pre, rest);
      assert State() == s0;
      err := Confirmed(stashed, parent, upstreamExists, kind, plan, a);
      assert trace == asked + rest.events;
      AppendAssoc(old(trace), pre, rest.events);
    }

    /** From the sync of main: plans the branch, then checks and confirms it. */
    method PlanBranch(stashed: bool, parent: string, upstreamExists: bool, args: seq<string>,
                      a: DevAnswers) returns (err: Option<Error>)
      modifies this
      ensures var run := PlanSpec(old(State()), stashed, parent, upstreamExists, args, a);
        trace == old(trace) + run.events && State() == run.post && err == run.err
    {
      if a.syncErr.Some? {
        return a.syncErr;
      }
      Record(Synced);
      ghost var synced := trace;
      var kind := a.kindOf(args);
      var built := a.build(kind, args);
      if built.Err? {
        if built.error == JiraIssueNotFound {
          return None;
        }
        return Some(built.error);
      }
      var plan := built.value;
      if kind == FreeForm {
        plan := plan.(name := plan.name + DevSuffix);
      }
      assert Plan(kind, args, a.build) == Ok(plan);
      ghost var s0 := State();
      ghost var rest := CheckSpec(s0, stashed, parent, upstreamExists, kind, plan, a);
      assert PlanSpec(s0, stashed, parent, upstreamExists, args, a) == Prepend([Synced], rest);
      err := CheckAndConfirm(stashed, parent, upstreamExists, kind, plan, a);
      assert trace == synced + rest.events;
      AppendAssoc(old(trace), [Synced], rest.events);
    }

    /** Stashes uncommitted changes, then goes on from the sync of main. */
    method StashAndPlan(parent: string, upstreamExists: bool, args: seq<string>, a: DevAnswers) returns (err: Option<Error>)
      modifies this
      ensures var run := StashSpec(old(State()), parent, upstreamExists, args, a);
        trace == old(trace) + run.events && State() == run.post && err == run.err
    {
      var stashedUncommittedChanges := false;
      if dirty {
        if a.uncommittedErr.Some? {
          return a.uncommittedErr;
        }
        if a.stashErr.Some? {
          return Some(StashFailed(a.stashErr.value));
        }
        Stash();
        stashedUncommittedChanges := true;
      }
      ghost var s1 := State();
      ghost var pre := if stashedUncommittedChanges then [Stashed] else [];
      ghost var stashed := trace;
      assert stashed == old(trace) + pre;
      ghost var rest := PlanSpec(s1, stashedUncommittedChanges, parent, upstreamExists, args, a);
      assert StashSpec(old(State()), parent, upstreamExists, args, a) == Prepend(pre, rest);
      err := PlanBranch(stashedUncommittedChanges, parent, upstreamExists, args, a);
      assert trace == stashed + rest.events;
      AppendAssoc(old(trace), pre, rest.events);
    }

    /** `qs dev` without `-d`: the argument, then the checks that precede
        any change. */
    method Create(parent: string, args: seq<string>, a: DevAnswers) returns (err: Option<Error>)
      modifies this
      ensures var run := CreateSpec(old(State()), parent, args, a);
        trace == old(trace) + run.events && State() == run.post && err == run.err
    {
      var argv := args;
      if |args| == 0 {
        var clipArgs := GetArgStringFromClipboard(a.ctxValue, a.clipboard);
        argv := [TrimSpace(clipArgs)];
      }
      assert argv == Args(args, a);
      if a.upstreamCheckErr.Some? {
        return a.upstreamCheckErr;
      }
      var upstreamExists := upstream;
      if |parent| == 0 && upstreamExists {
        return Some(ForkError(a.repoAndOrg));
      }
      if a.branchInfoErr.Some? {
        return a.branchInfoErr;
      }
      if current != mainBranch {
        return Some(NotOnMainError(a.repoAndOrg, current));
      }
      err := StashAndPlan(parent, upstreamExists, argv, a);
    }

    /** `qs dev`: reads the parent repository, then deletes merged branches
        (`-d`) or creates a dev branch. */
    method Dev(parent: Result<string>, doDelete: bool, args: seq<string>, a: DevAnswers, ra: ReapAnswers)
      returns (err: Option<Error>)
      modifies this
      ensures var run := DevSpec(old(State()), parent, doDelete, args, a, ra);
        trace == old(trace) + run.events && State() == run.post && err == run.err
    {
      if parent.Err? {
        return Some(parent.error);
      }
      if doDelete {
        err := DeleteBranches(parent.value, ra);
        return;
      }
      err := Create(parent.value, args, a);
    }
  }
}
