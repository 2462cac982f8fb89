# Media registry indexer — a Dafny model

This project models the core of a small web app that indexes media files from
Google Drive into a local registry. Three parts are modelled:

- **The recursive indexer** (`fetchFilesRecursively`). It walks a folder tree
  breadth-first from a root folder, using a first-in first-out queue of
  folder ids. For each dequeued folder it reads every page of the folder's
  listing, following `nextPageToken`. It then classifies each entry:
  - the folder MIME type `application/vnd.google-apps.folder` is queued;
  - `video/`, `audio/` and `image/` types become registry records handed to
    the discovery callback;
  - anything else is ignored.

  Along the way it publishes a progress record. Status INDEXING ends in
  COMPLETED, or in ERROR at the first failing listing request.
- **The registry.** This is an object store keyed by `id`, with upsert,
  clear and a full re-read that republishes the store's contents. Every
  operation is a silent no-op until the database handle is open.
- **The registry table.** A case-insensitive search on name or MIME type
  filters the files. The matches are shown newest first, and files indexed at
  the same moment keep their registry order. Each row gets an icon from its
  MIME type and a shortened checksum.

Modules:

| file | module | contents |
|---|---|---|
| `types.dfy` | `Types` | `MediaFile`, `IndexingStatus`, `IndexingProgress`, `Option` |
| `text.dfy` | `Text` | `startsWith`, `includes`, ASCII `toLowerCase` / `toUpperCase` |
| `listing.dfy` | `Listing` | listing entries, pages, MIME classification, record construction |
| `traversal.dfy` | `Traversal` | the indexer as a pure state machine, with its breadth-first reference definition |
| `traversal_examples.dfy` | `TraversalExamples` | concrete folder trees worked through to the end |
| `registry.dfy` | `Registry` | the keyed store and the three registry operations |
| `media_table.dfy` | `MediaTable` | search filter, stable newest-first sort, icon, checksum cell |

How the environment is represented:

- The Drive listing call is a parameter `drive: string -> Pages`. It gives,
  for each folder id, the sequence of responses its page loop receives:
  pages with a continuation token, a last page, or a failed request.
- `Date.now()` is a parameter `clock: nat -> int`, read once per emitted
  record.
- Every record handed to `onFileDiscovered` is collected in `emitted`. The app
  wires that callback to `upsertMedia` (App.tsx:9-17), which
  `Registry.UpsertAll` models.
- The store is kept the way IndexedDB's `getAll` returns it: records in
  ascending key order, one per key. `Registry.Contents` maps that sequence to
  the keyed map it stands for.

## Model

| member | source | states |
|---|---|---|
| Traversal.FetchFilesRecursively | services/useGoogleDrive.ts:76-154 | A run that finishes starts from INDEXING with both counters 0. It dequeues folders in breadth-first order starting with the root. Each dequeued folder other than the root was queued by a folder dequeued before it. The records it emits are exactly the media entries of those folders' pages, in order. It ends COMPLETED, with every queued folder visited, or ERROR at the first failing folder. No published counter ever decreases. Each published value before the last follows one emitted record or one drained folder. After a record, the file count goes up by one and the current file is that record's name. After a folder, only the folder count goes up by one, and the records emitted by then are exactly those of the folders dequeued so far. The last value changes only the status, plus the current file on COMPLETED or the error on ERROR. |
| Traversal.LoopOutcome | services/useGoogleDrive.ts:88-139 | From any in-flight breadth-first state, the outer queue loop ends in that outcome. The records emitted before the state are kept as a prefix. |
| Traversal.DrainPagesEffect | services/useGoogleDrive.ts:92-133 | The page loop processes every page of a folder until one arrives without a token, and an empty token counts as none. It stops early exactly when a request fails, and it reports that request's message. |
| Traversal.NextQueue | services/useGoogleDrive.ts:88-104 | After a folder is drained, the queue is the rest of the old queue followed by the folder's child folders in listing order, and the folder joins the dequeued list. |
| Traversal.EmittedRecords | services/useGoogleDrive.ts:110-118 | Each emitted record copies id, name, MIME type and checksum from its entry. A missing or empty size becomes "0". The record's parent is the listed folder and its time is the k-th clock reading. A record is emitted for each media entry of a visited folder, and for nothing else. |
| Traversal.CompletedRunClosed | services/useGoogleDrive.ts:83-104 | In a completed run, the visited folders are the root followed by every folder entry read from them, so every folder met was visited. |
| Traversal.FoundMembers | services/useGoogleDrive.ts:102-122 | A media entry is discovered exactly when it is read from a dequeued folder's pages and has a media type. |
| Traversal.EnqueuedMembers | services/useGoogleDrive.ts:102-104 | A folder id is queued exactly when a folder entry with that id is read from a dequeued folder. |
| Traversal.LoopVisits | services/useGoogleDrive.ts:83-104 | When no listing of a folder it reaches fails, the queue loop dequeues folders in exactly the order of a plain queue simulation: take the head, append its child folders, repeat. The run then ends COMPLETED. |
| Traversal.QueuedOrder | services/useGoogleDrive.ts:88-104 | In a finished run, the k-th folder dequeued is the k-th entry of the queue that the root and the child folders of the k folders dequeued before it make. Folders dequeued later play no part. |
| Traversal.LeafRootAlone | services/useGoogleDrive.ts:88-104 | When the root's listing names no folder, every finished run dequeues the root alone, whatever the folders the root never reaches list. |
| TraversalExamples.UnreachedNeverVisited | services/useGoogleDrive.ts:88-104 | On the example drive `SelfQueued`, whose root is empty, every finished run dequeues the root alone. This holds even though an unreached folder there lists itself and its next listing request fails. |
| Traversal.FuelMonotone | services/useGoogleDrive.ts:88 | A finished run's result does not depend on the fuel bound. |
| Traversal.Terminates | services/useGoogleDrive.ts:88-104 | The queue loop finishes whenever the folders reachable from the root have a subtree-size bound, that is, whenever they form a finite tree. Folders the root does not reach may list anything. |
| TraversalExamples.CycleAsideTerminates | services/useGoogleDrive.ts:88-104 | A folder outside the root's tree that lists itself does not stop the run from finishing. |
| TraversalExamples.BreadthFirstOrder | services/useGoogleDrive.ts:83-104 | On the tree root→{F1, F2}, F1→{F3}, the folders are dequeued as root, F1, F2, F3: a grandchild waits behind its uncle. |
| TraversalExamples.PagesDrainedFirst | services/useGoogleDrive.ts:92-133 | When folder A's listing comes in two pages, all five of A's videos are emitted before B's. |
| TraversalExamples.FailureKeepsEarlierRecords | services/useGoogleDrive.ts:146-152 | A listing failure without a message at the second folder gives ERROR with "Unknown error during indexing" and one folder counted. The record found before the failure is still upserted into an open registry. |
| Listing.Classify | services/useGoogleDrive.ts:103-109 | An entry is a folder exactly for the folder MIME type, and media exactly for a `video/`, `audio/` or `image/` type. Everything else is ignored. |
| Listing.MediaByTopLevelType | services/useGoogleDrive.ts:105-109 | A media type is exactly one whose part before the first `/` is `video`, `audio` or `image`. |
| Listing.ChildFoldersMembers | services/useGoogleDrive.ts:103-104 | The folders queued from a listing are exactly its entries with the folder MIME type. |
| Listing.DiscoveredMembers | services/useGoogleDrive.ts:105-121 | The entries discovered from a listing are exactly its media-typed entries, and never a folder. |
| Registry.Upsert | services/useRegistry.ts:47-56 | With the handle open, the store afterwards maps the file's id to the file and keeps every other key. It grows by one exactly when the id is new, and the published list then shows the store. With the handle closed, nothing changes. |
| Registry.UpsertSameIdTwice | services/useRegistry.ts:19 | Records are keyed by id: putting two records with the same id is the same as putting the second alone, and the store does not grow. |
| Registry.UpsertAllContents | services/useRegistry.ts:47-56 | Upserting a run's records into an open registry overwrites the old contents with them, the later record winning for a repeated id. The registry then publishes the store. |
| Registry.OverwriteLastWins | services/useRegistry.ts:51 | The last record written under an id is the one the store keeps. |
| Registry.Clear | services/useRegistry.ts:58-66 | With the handle open, the store and the published list become empty. With it closed, nothing changes. |
| Registry.Refresh | services/useRegistry.ts:32-41 | With the handle open, the published list shows every stored record exactly once and nothing else. With it closed, nothing changes. |
| Registry.Open | services/useRegistry.ts:43-45 | Once the handle opens, the registry publishes the persisted store. |
| Registry.PutSpec | services/useRegistry.ts:51 | A put keeps the store in key order and changes only the entry under the record's id. |
| Registry.PreOpenSession | services/useRegistry.ts:32-66 | Any sequence of upserts, clears and refreshes made before the handle opens is dropped, and the registry stays as it started. Once the handle opens, it publishes exactly the persisted records, one per id. |
| Text.IncludesOccurs | components/MediaTable.tsx:14-15 | `includes` holds exactly when the term occurs at some offset. |
| Text.LowerIgnoresCase | components/MediaTable.tsx:14-15 | Lower-casing erases any earlier change of case. |
| MediaTable.FilterSpec | components/MediaTable.tsx:13-16 | The search keeps exactly the matching files, each as often as the registry holds it. |
| MediaTable.FilteredFilesSpec | components/MediaTable.tsx:12-17 | The table shows exactly the matching files, newest first. Files indexed at the same moment keep their registry order. |
| MediaTable.SortSpec | components/MediaTable.tsx:16 | The sort is newest first and a permutation of its input. |
| MediaTable.SortStable | components/MediaTable.tsx:16 | The sort is stable: the files of any one timestamp keep their original order. |
| MediaTable.SortCharacterized | components/MediaTable.tsx:16 | The sort result is the only newest-first arrangement that keeps each timestamp's order, in both directions. |
| MediaTable.NewestFirstUnique | components/MediaTable.tsx:16 | Two newest-first sequences with the same files at every timestamp are equal. |
| MediaTable.EmptySearchShowsAll | components/MediaTable.tsx:10-17 | The initial empty search shows the whole registry, newest first. |
| MediaTable.SearchIgnoresCase | components/MediaTable.tsx:14-15 | An upper-cased or lower-cased search term shows the same rows as the original. |
| MediaTable.MatchesOccurs | components/MediaTable.tsx:14-15 | A file matches exactly when the lower-cased term occurs in its lower-cased name or MIME type. |
| MediaTable.IconOfMediaType | components/MediaTable.tsx:69-79 | For a media type, the video, audio and image icons are chosen exactly by its `video/`, `audio/` and `image/` prefix. |
| MediaTable.ChecksumCellShape | components/MediaTable.tsx:90 | The cell is "N/A" exactly when the checksum is missing or empty. Otherwise it is the checksum's first twelve characters (the whole checksum if shorter) followed by "...". |

## Left out

- Sign-in, the file picker and the loading of the Google API client are left out. They are external I/O and only provide the root folder id.
- The query string and field list of the listing request are left out. The listing is the `drive` parameter, which already holds a folder's children.
- A response without a `files` array is not modelled separately. A page simply has no entries, which is what `files || []` makes of it.
- A failure inside `onFileDiscovered` or `setProgress` is left out. Only failing listing requests end a run in the model.
- Opening and upgrading the IndexedDB database, its asynchronous callbacks and transactions are left out. Each operation is one atomic step on the store followed by the re-read it triggers.
- React's state batching and the ordering of effects are left out. `published` is the sequence of progress values in the order they are set. Each value is computed when it is set. React may instead run the functional updaters later, at render time, when `filesCount` and `foldersCount` may already have moved on.
- `formatSize` is left out: it is floating-point display formatting.
- Console logging is left out.
- The empty-table message, CSS classes and colours are left out. This includes the `uppercase` class that displays the checksum cell in capitals; `MediaTable.ChecksumCell` is the cell's text.
- Traversal.FetchFilesRecursively: the run carries a fuel bound on dequeued folders and says nothing when the fuel runs out. `Traversal.FuelMonotone` and `Traversal.Terminates` show the bound never changes a finished result and is always enough on finite trees. A folder graph with a cycle reachable from the root makes the app loop forever unless a listing it reaches fails first. The model does not describe that run.
- Traversal.FetchFilesRecursively: one run at a time is modelled. The "Index Folder" button stays enabled during a run, so a second run can start before the first ends. The two runs then interleave their progress updates and their upserts. The second run's start resets the shared counters, the first run's later updates raise them again, and its COMPLETED can show while the second is still listing. So the shared progress the app shows can go back down; the model's `published` holds the values of one run only and does not describe this.
- Traversal.Terminates: every folder's chain of pages ends and every listing request gets an answer, because `Pages` is an inductive datatype. The app has no timeout and no page limit. A server that keeps returning a `nextPageToken`, or a request that never settles, hangs the app, and the model cannot express either.
- Text.LowerIgnoresCase: case conversion covers the ASCII letters only. JavaScript's Unicode `toLowerCase` is not modelled.
- MediaTable.SearchIgnoresCase: holds for the ASCII case mapping only. Under JavaScript's Unicode casing it can fail, since `"ß".toUpperCase()` is `"SS"`, whose lower case `"ss"` no longer matches `"ß"`.
- Registry.KeyOrdered: keys are compared character by character. IndexedDB compares UTF-16 code units, and the two agree for the Basic Multilingual Plane.
- The published `currentFile` is kept when a run ends in ERROR, as the code does. Only COMPLETED clears it.
- `error.message || 'Unknown error during indexing'` and `file.size || '0'` treat an empty string like a missing one, as the code does.
