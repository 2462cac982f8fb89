/**
 * The records shared by the indexer, the registry store and the table:
 * a discovered media file and the progress of one indexing run.
 */
module Types {

  /** An optional field (`?:` in the record declarations). */
  datatype Option<+T> = None | Some(value: T)

  /** A media file as stored in the registry; `id` is the store's key. */
  datatype MediaFile = MediaFile(
    id: string,
    name: string,
    md5Checksum: Option<string>,
    size: string,
    mimeType: string,
    parentFolderId: Option<string>,
    indexedAt: int)

  /** Lifecycle of an indexing run. */
  datatype IndexingStatus = Idle | Loading | Indexing | Completed | Error

  /** What the progress display shows. */
  datatype IndexingProgress = IndexingProgress(
    status: IndexingStatus,
    currentFile: Option<string>,
    filesProcessed: nat,
    foldersProcessed: nat,
    error: Option<string>)
}
