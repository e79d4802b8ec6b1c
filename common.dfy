/** Values shared by every part of the model: optional values, results and
    the errors that the `qs` commands return. */
module Common {

  datatype Option<+T> = None | Some(value: T)

  /** A Go `(value, error)` pair: exactly one of the two is meaningful. */
  datatype Result<+T> = Ok(value: T) | Err(error: Error)

  /** The error values of the modelled code. Errors produced by git, gh, Jira
      or the notes codec are not interpreted: they travel as `External`. */
  datatype Error =
    | External(message: string)
      // "invalid issue URL format: %s"
    | InvalidIssueURLFormat(url: string)
      // "invalid GitHub URL format: %s"
    | InvalidGithubURLFormat(repoURL: string)
      // jira.ErrJiraIssueNotFoundOrInsufficientPermission
    | JiraIssueNotFound
      // "you are in %s/%s repo with upstream remote but no fork detected"
    | NoForkDetected(org: string, repo: string)
      // "switch to main branch before running 'qs dev'. You are in %s branch "
    | NotOnMainBranch(current: string)
      // "error stashing changes: %w"
    | StashFailed(cause: Error)
      // "failed to check local branches: %w"
    | LocalCheckFailed(cause: Error)
      // "failed to check remote branches: %w"
    | RemoteCheckFailed(cause: Error)
      // "error checking branch existence: %w"
    | BranchCheckFailed(cause: Error)
      // "dev branch '%s' already exists"
    | BranchAlreadyExists(name: string)
      // "error deleting branch '%s': %w"
    | DeleteFailed(branch: string, cause: Error)
      // "error unstashing changes: %w"
    | UnstashFailed(cause: Error)
}
