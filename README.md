# qs dev: issue branch naming and branch lifecycle

A Dafny model of the part of `qs` that runs behind `qs dev`.

- **Issue classification and naming** (module `Issue`).
  - The first argument is sorted into a GitHub issue, a Jira ticket or free-form text.
  - The issue title becomes a kebab-case name prefixed with the issue id and cut to 100 bytes.
  - The commit-message lines of the new branch are built per issue kind.
- **GitHub URL handling** (module `GitHub`).
  - `org/repo` is read at fixed offsets from the end of an issue URL.
  - The GitHub-only branch planner checks the URL segments and builds the name and the three comment lines once the title is known.
- **The `qs dev` command** (module `Commands`).
  - `Repository` is a class whose fields are the repository as the command sees it: current and main branch, local and `origin` branches, the `upstream` flag, the dirty flag, the stash depth, branch notes and linked branches.
  - Its methods carry out `qs dev` and `qs dev -d` step by step.
  - Each method is proved to follow a specification function. That function maps the state before and the outside answers to a `Run`: the events recorded, the error returned and the state after.
  - Lemmas about those functions state what the command promises: which branches are deleted, that every guard comes before the first change, that a branch is created only under a free name, and that the stash is popped exactly when it was pushed on the full path.

Every answer from git, `gh`, Jira, the clipboard and the operator's prompts is a parameter, bundled as `DevAnswers` and `ReapAnswers`. The helpers whose code is not part of this model are parameters too: the special-symbol cleaner, note serialisation, the Jira matcher and title lookup, and the free-form name builder. Strings are byte strings.

Modules: `Common` (Option, Result, error values), `Text` (Go string helpers: split, suffix, contains, trim), `Notes` (the branch note record), `Issue`, `GitHub`, `Commands`.

## Model

| member | source | states |
|---|---|---|
| Issue.ParseIssueFromArgs | internal/issue/issue.go:149-158 | Never fails. The text is always the first argument. GitHub exactly when it contains `/issues/`, with the id after the last `/` and no integer check. Otherwise Jira exactly when the matcher finds a ticket, with the matcher's id. Otherwise free-form with an empty id. |
| Issue.GithubIdIsTextAfterLastSlash | internal/issue/issue.go:151-153 | Any URL containing `/issues/` is a GitHub issue whose id is `/`-free and follows the URL's last `/`, whatever its text. |
| Issue.LastSegmentIsTail | internal/issue/issue.go:152-153 | The last `/`-segment is a `/`-free suffix of the text, preceded by a `/` when it is not the whole text. |
| Issue.ClassifyGithubExample | internal/issue/issue.go:149-153 | `https://github.com/voedger/voedger/issues/395` is a GitHub issue with id `395`. |
| Issue.ClassifyJiraExample | internal/issue/issue.go:155-156 | A browse URL the Jira matcher accepts as `AIR-270` is a Jira ticket with id `AIR-270`. |
| Issue.ClassifyFreeFormExample | internal/issue/issue.go:158 | Plain text the matcher rejects is free-form with an empty id. |
| Issue.ToLower | internal/issue/issue.go:101 | Lower-casing keeps the length and leaves no upper-case letter. Every other byte is kept. Each upper-case letter becomes its lower-case partner. |
| Issue.ToLowerIdempotent | internal/issue/issue.go:101 | Lower-casing twice is lower-casing once. Text without upper-case letters is unchanged. |
| Issue.KebabShape | internal/issue/issue.go:101-103 | The kebab form holds only `[a-z0-9-]`, has no `--`, and neither starts nor ends with `-`. |
| Issue.KebabIdempotent | internal/issue/issue.go:101-103 | Applying the kebab transform twice equals applying it once. |
| Issue.KebabKeepsLettersAndDigits | internal/issue/issue.go:101-103 | The kebab form keeps every letter and digit of the lower-cased title, in order, and no others. |
| Issue.CollapseRunsShape | internal/issue/issue.go:102 | Collapsing leaves no run of two dashes, keeps a leading letter or digit, and maps the empty string to itself. |
| Issue.CollapseInterleave | internal/issue/issue.go:102 | Words each followed by a non-empty run of other bytes collapse to the words each followed by one dash. |
| Issue.TitleToKebabWithPrefix | internal/issue/issue.go:105-109 | The result has at most 100 bytes and is a prefix of `id-kebab(title)`. It equals that string when it fits, and has exactly 100 bytes otherwise. |
| Issue.KebabExample | internal/issue/issue.go:100-110 | `"Show   ivv? must    go on---"` with an empty id gives `-show-ivv-must-go-on`. |
| Issue.KebabTitleExample | internal/issue/issue.go:101-103 | The kebab form of `"Show   ivv? must    go on---"` is `show-ivv-must-go-on`. |
| Issue.TruncationSplitsWord | internal/issue/issue.go:106-108 | With a 98-byte id the byte cut splits the word `ab`, leaving `id-a`. |
| Issue.TruncationMayEndInDash | internal/issue/issue.go:106-108 | With a 99-byte id the cut keeps the dash and drops the whole word, ending the name in `-`. |
| Issue.IssueURLParts | internal/issue/issue.go:113-125 | Fails with the issue-URL error exactly when there is no `/`. Succeeds exactly when the text before the first `/issues/` has at least five `/`-segments. Otherwise fails with the GitHub-URL error. On success, owner and repo are segments 3 and 4 of the text before `/issues/`. The number is the last segment of the whole URL: the id that `ParseIssueFromArgs` sets at internal/issue/issue.go:152-153, and `parts[len(parts)-1]` at gitcmds/github.go:108. |
| Issue.IssueURLPartsOfIssueURL | internal/issue/issue.go:113-125 | Every URL `scheme//host/owner/repo/issues/n` with `/`-free pieces and no earlier `/issues/` gives number `n`, owner `owner` and repo `repo`. |
| Issue.IssueURLPartsExample | internal/issue/issue.go:113-125 | `https://github.com/voedger/voedger/issues/395` gives number `395`, owner `voedger` and repo `voedger`. |
| Issue.FetchGithubIssueTitle | internal/issue/issue.go:113-146 | A URL error is returned as is. Otherwise the title is the `gh` answer for the issue id in `owner/repo`. |
| Issue.Title | internal/issue/issue.go:45-52 | Free-form input is its own title. A Jira ticket's title is the Jira answer for its id. A GitHub issue's title is what the GitHub title lookup gives, URL errors included. |
| Issue.NoteFor | internal/issue/issue.go:62-69 | The note has type Dev and the title. At most one URL is set: the GitHub URL is the text exactly for GitHub issues, the Jira URL exactly for Jira tickets. |
| Issue.Comments | internal/issue/issue.go:75-92 | GitHub: exactly the prefix line, the body (empty iff the title is), and the note. Jira: the note only when non-empty, then `[id] title`, then the text. Free-form: the title and the note. |
| Issue.BuildDevBranchName | internal/issue/issue.go:42-97 | A title or serialisation error is returned as the error. Otherwise the name ends in `-dev`, its stem is the cleaned, truncated `id-kebab(title)`, and the comments are those of the issue kind. |
| GitHub.StripTrailingSlash | gitcmds/github.go:89-91 | Exactly one trailing `/` is removed when present. |
| GitHub.GetGithubIssueRepoFromURL | gitcmds/github.go:85-101 | Empty exactly when the input is shorter than 2 bytes or has at most 5 segments after the strip. Otherwise `org/repo`, read 4th and 3rd from the end, with exactly one `/`. |
| GitHub.TrailingSlashIgnored | gitcmds/github.go:89-91 | For inputs of at least 2 bytes without a trailing `/`, adding one does not change the result. |
| GitHub.OnlyOneSlashStripped | gitcmds/github.go:89-93 | Of two trailing slashes only one is removed, so an empty last segment remains. |
| GitHub.RepoOfIssueURL | gitcmds/github.go:93-97 | For any `prefix/org/repo/issues/N` with a non-empty `N` whose prefix holds a `/`, the result is `org/repo`. |
| GitHub.RepoExample | gitcmds/github.go:85-101 | `https://github.com/voedger/voedger/issues/395` gives `voedger/voedger`. |
| GitHub.BuildDevBranchName | gitcmds/github.go:103-159 | A URL with no `/` gives the issue-URL error. Every URL error, title error and serialisation error is returned. Otherwise the name ends in `-dev` over the cleaned, truncated `number-kebab(title)`. There are exactly three comments: the prefix line, the body (empty iff the title is), and the note. |
| GitHub.SameAsIssuePackage | gitcmds/github.go:103-159 | For any URL the issue package classifies as GitHub, both planners give the same result. |
| Commands.SelectBranchesToDelete | internal/commands/dev.go:254-288 | The loop returns the specified selection: the first query error, or the branches to delete. |
| Commands.SelectionIsFilter | internal/commands/dev.go:254-288 | The selection fails exactly when some query of some tracked branch fails. Otherwise it is the order-preserving subsequence of tracked branches that are to be deleted. |
| Commands.FilterMembers | internal/commands/dev.go:256-288 | A branch is in the selection exactly when it is tracked and to be deleted. |
| Commands.DeleteQueryAnswersToDelete | internal/commands/dev.go:258-285 | When a branch's queries succeed, they answer whether it is to be deleted: its own PR is merged, or it is a dev branch whose sibling `-pr` branch has a merged PR. |
| Commands.Sibling | internal/commands/dev.go:271 | The sibling ends in `-pr`. For a `-dev` branch it is the branch with `-dev` replaced by `-pr`. Any other branch just gets `-pr` appended. |
| Commands.QueryErrorDeletesNothing | internal/commands/dev.go:258-261 | When a PR query fails, `qs dev -d` returns the error right after the checkout of main. Nothing is prompted or deleted. |
| Commands.FirstFailure | internal/commands/dev.go:308-312 | Every branch before the index removes cleanly, and the branch at the index, if any, fails. |
| Commands.DeclineDeletesNothing | internal/commands/dev.go:291-305 | An empty selection or any reply but `y` changes nothing and returns nil. The prompt is shown exactly when the selection is non-empty. |
| Commands.DeletionStopsAtFirstFailure | internal/commands/dev.go:307-316 | After `y`, branches are removed in order up to the first failure. That failure is returned with the branch name. Nil is returned iff every branch removes. Exactly the branches before the failure are gone, locally and on origin. |
| Commands.ReplayRemovals | internal/commands/dev.go:308-314 | Removing a list of branches removes exactly those names from the local and origin sets and changes nothing else. |
| Commands.RemovedOnlyIfToDelete | internal/commands/dev.go:256-311 | A branch is removed only if it tracks origin, is to be deleted, and the operator answered `y`. |
| Commands.ReapConsistent | internal/commands/dev.go:232-322 | The state after `qs dev -d` is exactly what its recorded changes make of the state before. |
| Commands.Repository.RemoveBranches | internal/commands/dev.go:308-316 | The loop removes the selection up to the first failure and returns that failure, matching the specification. |
| Commands.Repository.ConfirmAndDelete | internal/commands/dev.go:291-321 | The listing, prompt and deletion follow the deletion specification. |
| Commands.Repository.DeleteBranches | internal/commands/dev.go:232-322 | `qs dev -d` (download, check out main, select, confirm, delete) changes the repository, records events and returns the error as the specification says. |
| Commands.BranchExistsMeaning | internal/commands/dev.go:182-200 | No error means the answer is whether the name is local or on origin. `origin` is queried only when the name is not local. A local-list error stops before the remote query. |
| Commands.Repository.BranchExists | internal/commands/dev.go:182-200 | The probe records its queries and answers as the specification says, and changes nothing. |
| Commands.NewlinesToSpaces | internal/commands/dev.go:214-219 | Same length and no newline left. Each newline becomes a space, and every other byte is kept in place. |
| Commands.SpaceJoinedSplit | internal/commands/dev.go:214-221 | Splitting on newlines and appending each piece plus a space equals replacing each newline by a space and adding one trailing space. |
| Commands.ClipboardTextShape | internal/commands/dev.go:203-222 | An unreadable clipboard gives the empty string. Otherwise the result has length `len(arg)+1`, no newline, and a trailing space. |
| Commands.GetArgStringFromClipboard | internal/commands/dev.go:203-222 | The loop returns the specified clipboard text. A non-empty context value wins over the clipboard. |
| Text.TrimSpace | internal/commands/dev.go:37 | The trimmed text is no longer than the input and starts and ends with a non-space byte. |
| Text.TrimSpaceIsSlice | internal/commands/dev.go:37 | The trimmed text is a slice of the input with only white space before and after it. |
| Commands.Args | internal/commands/dev.go:36-39 | Given arguments are kept. Without any, the only argument is the trimmed clipboard text. |
| Commands.GuardsComeFirst | internal/commands/dev.go:45-91 | Nothing is recorded or changed unless every guard passed: the upstream check, the fork-consistency error, the branch-info read and the not-on-main error. Changes are stashed exactly when the tree is dirty and the stash succeeded. |
| Commands.ForkErrorComesFirst | internal/commands/dev.go:54-61 | Without a parent repository but with an `upstream` remote, the command fails with the no-fork error naming `org/repo`, or with the lookup's error. Nothing is recorded or changed. |
| Commands.NotOnMainComesFirst | internal/commands/dev.go:63-78 | Off the main branch, the command fails with the not-on-main error naming the current branch, or with the lookup's error. Nothing is recorded or changed. |
| Commands.TakenNameRefused | internal/commands/dev.go:120-126 | A name that is already local, or on origin, fails with the already-exists error for that name. No prompt is shown, no branch is created, and a stash made earlier stays. |
| Commands.DeclineCreatesNothing | internal/commands/dev.go:130-160 | Any reply but `y` to the create prompt ends with nil. The events end at the prompt, so no branch is created and nothing is unstashed. |
| Commands.DeclineUpstreamCreatesNothing | internal/commands/dev.go:135-142 | Declining to add the parent as `upstream` ends with nil. The events end at that prompt, so no branch is created. |
| Commands.UnknownJiraEndsQuietly | internal/commands/dev.go:112-116 | An unknown Jira ticket ends with nil right after the sync, with no branch. |
| Commands.HookErrIgnored | internal/commands/dev.go:163-171 | A failing hook installation changes neither the result, nor the events, nor the final state. |
| Commands.CreatedOnlyWhenFree | internal/commands/dev.go:120-150 | A branch is created only if its name is neither local nor on origin, after origin was queried and the operator answered `y`, and only while on main. |
| Commands.LinkAndUpstreamOrdering | internal/commands/dev.go:133-157 | Linking happens only for GitHub issues. The upstream prompt is shown only for a fork without `upstream`, after the `y`. |
| Commands.QuietEndKeepsStash | internal/commands/dev.go:112-160 | Any run that ends with nil before the hooks creates no branch and unstashes nothing. The branch sets are unchanged. A stash made earlier stays on the stack. Which inputs end this way is stated by `DeclineCreatesNothing`, `DeclineUpstreamCreatesNothing` and `UnknownJiraEndsQuietly`. |
| Commands.UnstashPairsWithStash | internal/commands/dev.go:163-179 | On the full path, unstash happens iff a stash happened. The stash depth and the dirty flag end as they began. |
| Commands.CreateConsistent | internal/commands/dev.go:36-180 | The state after `qs dev` is exactly what its recorded changes make of the state before. |
| Commands.DevConsistent | internal/commands/dev.go:21-180 | The same holds for both modes of the command. |
| Commands.Repository.constructor | internal/commands/dev.go:21 | The repository starts in the given state with an empty history. |
| Commands.Repository.CreateBranch | internal/commands/dev.go:148-177 | Creating, linking, installing hooks and unstashing follow the specification. |
| Commands.Repository.Confirmed | internal/commands/dev.go:133-177 | The upstream prompt and bootstrap, then creation, follow the specification. |
| Commands.Repository.CheckAndConfirm | internal/commands/dev.go:120-161 | The collision check, then the create prompt, follow the specification. |
| Commands.Repository.PlanBranch | internal/commands/dev.go:93-118 | Syncing, classifying and naming follow the specification. An unknown Jira ticket ends quietly. |
| Commands.Repository.StashAndPlan | internal/commands/dev.go:80-91 | Stashing only a dirty tree, and stopping on a stash error, follow the specification. |
| Commands.Repository.Create | internal/commands/dev.go:36-180 | `qs dev` without `-d` follows its specification, including the clipboard argument. |
| Commands.Repository.Dev | internal/commands/dev.go:21-180 | `qs dev` in either mode changes the repository, records events and returns the error as the specification says. |

## Left out

- gitcmds/hook.go and the pre-commit and large-file hooks are left out. The model records one `HooksInstalled` event, and hook errors are only an answer that is ignored, as in the source.
- The `gh`, Jira, clipboard and prompt I/O, the printed messages and the cobra context are left out. Their answers are parameters.
- `strings.ToLower` is ASCII only. Unicode case folding is not modelled.
- The bodies of the special-symbol cleaner, note serialisation, the Jira matcher and title lookup, `utils.GetBranchName` and the `gitcmds` git wrappers are not part of this model. They are parameters.
- The tests' 50-character names come from the cleaner, so the full tested names are not claimed. `Issue.KebabExample` stops at the name before cleaning.
- The constants of `gitcmds` that are not part of this model are taken as follows:
  - `issuelineLength` 5, `issuelinePosRepo` 3, `issuelinePosOrg` 4;
  - `maximumBranchNameLength` 100;
  - `IssuePRTtilePrefix` and `IssueSign` equal to the issue package's;
  - `pushYes` is `y`;
  - `slash` is `/` and `oneSpace` is a single space.
- The effects of the git wrappers are part of the model's assumptions: remove, stash, unstash, add upstream, create (checks out the new branch and stores its notes) and link. A failing wrapper changes nothing.
- `git branch --list` glob patterns are not modelled. A name exists locally when it is in the local set.
- `SyncMainBranch` is modelled as changing nothing: it only records a `Synced` event or fails.
- `Download` and `GetMainBranch` do not change the state. The main branch is the one held in the state.
- `Commands.Repository.Dev`: the issue kind and the branch builder are parameters of the arguments (`kindOf`, `build`). The `Dev` source passes the working directory to `ParseIssueFromArgs` and reads `IssueInfo` fields that do not exist.
- The deletion loop stops at the first failing branch, and a non-integer GitHub issue id is accepted without error. The model follows the code here.
- `Commands.Repository.StashAndPlan`: the error of the uncommitted-changes check is ignored when the tree is clean, as in the source.
- The steps of `Dev` are split into stage methods (`StashAndPlan`, `PlanBranch`, `CheckAndConfirm`, `Confirmed`, `CreateBranch`) that the source writes inline.
- The history of events is a ghost field. It says what the command asked and did, not what it printed.
