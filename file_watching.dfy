// The kinds of change a file-system watcher reports to the project systems.
module FileWatching {

  /** `FileChangeType`; hosts that do not report a kind send `Unspecified`. */
  datatype FileChangeType = Unspecified | Change | Create | Delete

  /** The removal test both project systems use: a deletion, or an unspecified change to a file that is gone. */
  predicate IsRemoval(changeType: FileChangeType, fileExists: bool) {
    (changeType == Unspecified && !fileExists) || changeType == Delete
  }
}
