// The clean-up stage (MediaPlayer/Cleanup.h): removes one file with "rm".

module Cleanup {
  import opened Runnables

  /** Cleanup::Cleanup / Cleanup::create: the argument list is just the path. */
  function Build(filePath: string): (r: Runnable)
    ensures r.kind == CleanupKind && r.name == "Cleanup" && r.command == "rm"
    ensures r.arguments == [filePath]
  {
    Runnable(CleanupKind, "Cleanup", "rm", [filePath])
  }

  /**
   * Apart from its kind, a clean-up stage is the plain runnable built from
   * the same three values, and it logs nothing when started or finished.
   */
  lemma SameAsPlainRunnable(filePath: string)
    ensures Build(filePath) == Create("Cleanup", "rm", [filePath]).(kind := CleanupKind)
    ensures StartedMessages(Build(filePath)) == [] && FinishedMessages(Build(filePath)) == []
  {
  }
}
