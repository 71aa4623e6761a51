/** The records shared by the efs-ns components (types.go). */
module Types {
  datatype FsState = Creating | Available | Deleting | Deleted | Errored

  /** FileSystemInfo, reduced to the fields the lifecycle reads. */
  datatype FileSystemInfo = FileSystemInfo(fileSystemId: string, namespace: string, state: FsState, pvcCount: int)
  {
    /** CanBeDeleted */
    predicate CanBeDeleted() {
      pvcCount <= 0 && (state.Available? || state.Errored?)
    }
  }

  /** DefaultCacheTTL, five minutes in nanoseconds. */
  const DEFAULT_CACHE_TTL: int := 300_000_000_000
}
