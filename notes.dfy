/** The issue-linkage record that `qs` embeds in generated commit messages.
    Its serialised form is produced by a codec that is not part of this model,
    so only the record itself is declared here. */
module Notes {

  /** The role a branch plays in the workflow. */
  datatype BranchType = Unknown | Dev | Pr

  datatype Note = Note(githubURL: string, jiraURL: string, branchType: BranchType, title: string)
}
