/**
 * The recursive indexer: a first-in first-out queue of folder ids seeded
 * with the root; each dequeued folder is counted, its pages are read until
 * one comes without a continuation token, folder entries are queued, media
 * entries are handed on as registry records, and the progress record is
 * republished after every record and after every drained folder. A failed
 * listing request ends the run with an error status.
 *
 * The listing call is the pure function `drive` from a folder id to the
 * responses its page loop receives; `Date.now()` is `clock`, read once per
 * emitted record. The outer loop carries a fuel bound on the number of
 * folders it may dequeue; running out of fuel yields `None`.
 */
module Traversal {
  import opened Types
  import opened Listing

  /** The listing call: for each folder, the responses its page loop receives. */
  type Drive = string -> Pages

  /** `Date.now()` at the k-th emitted record. */
  type Clock = nat -> int

  /** The run's local state together with what it has made observable. */
  datatype Indexer = Indexer(
    queue: seq<string>,                   // folderQueue
    filesCount: nat,                      // filesCount
    foldersCount: nat,                    // foldersCount
    progress: IndexingProgress,           // the progress record as last set
    published: seq<IndexingProgress>,     // every progress value set, in order
    emitted: seq<MediaFile>,              // every record handed to onFileDiscovered, in order
    dequeued: seq<string>)                // every folder taken off the queue, in order

  /** The progress record a run starts from. */
  const StartProgress: IndexingProgress := IndexingProgress(Indexing, None, 0, 0, None)

  function Start(root: string): Indexer {
    Indexer([root], 0, 0, StartProgress, [StartProgress], [], [])
  }

  function Publish(st: Indexer, p: IndexingProgress): Indexer {
    st.(progress := p, published := st.published + [p])
  }

  /** The body of the `for` loop over one page's entries. */
  function Visit(st: Indexer, folder: string, e: Entry, clock: Clock): Indexer {
    match Classify(e.mimeType)
    case FolderKind => st.(queue := st.queue + [e.id])
    case MediaKind =>
      var m := ToRecord(e, folder, clock(st.filesCount));
      var n := st.filesCount + 1;
      Publish(st.(emitted := st.emitted + [m], filesCount := n),
              st.progress.(filesProcessed := n, currentFile := Some(m.name)))
    case OtherKind => st
  }

  function ProcessFiles(st: Indexer, folder: string, files: seq<Entry>, clock: Clock): Indexer
    decreases |files|
  {
    if |files| == 0 then st else ProcessFiles(Visit(st, folder, files[0], clock), folder, files[1..], clock)
  }

  /** How the page loop of one folder ends. */
  datatype Drain = Done(st: Indexer) | Aborted(st: Indexer, message: Option<string>)

  /** The `do … while (pageToken)` loop. */
  function DrainPages(st: Indexer, folder: string, pages: Pages, clock: Clock): Drain
    decreases pages
  {
    match pages
    case LastPage(files) => Done(ProcessFiles(st, folder, files, clock))
    case Page(files, token, more) =>
      var st' := ProcessFiles(st, folder, files, clock);
      if token == "" then Done(st') else DrainPages(st', folder, more, clock)
    case ListError(message) => Aborted(st, message)
  }

  /** `shift` the next folder and count it. */
  function Dequeue(st: Indexer): Indexer
    requires |st.queue| > 0
  {
    st.(queue := st.queue[1..], foldersCount := st.foldersCount + 1, dequeued := st.dequeued + [st.queue[0]])
  }

  function Complete(st: Indexer): Indexer {
    Publish(st, st.progress.(status := Completed, currentFile := None))
  }

  function Abort(st: Indexer, message: Option<string>): Indexer {
    Publish(st, st.progress.(status := Error, error := Some(ErrorText(message))))
  }

  /** The `while (folderQueue.length > 0)` loop, allowed at most `fuel` more folders. */
  function Loop(st: Indexer, drive: Drive, clock: Clock, fuel: nat): Option<Indexer>
    decreases fuel
  {
    if |st.queue| == 0 then Some(Complete(st))
    else if fuel == 0 then None
    else
      var folder := st.queue[0];
      match DrainPages(Dequeue(st), folder, drive(folder), clock)
      case Aborted(st', message) => Some(Abort(st', message))
      case Done(st') => Loop(Publish(st', st'.progress.(foldersProcessed := st'.foldersCount)), drive, clock, fuel - 1)
  }

  // ---------------------------------------------------------------------
  // Reference definitions: what a breadth-first run over `drive` visits.
  // ---------------------------------------------------------------------

  /** The folders queued while listing the folders `ds`, in order. */
  function Enqueued(drive: Drive, ds: seq<string>): seq<string> {
    if |ds| == 0 then []
    else Enqueued(drive, ds[..|ds| - 1]) + ChildFolders(Read(drive(ds[|ds| - 1])))
  }

  /** The media entries found while listing the folders `ds`, in order. */
  function Found(drive: Drive, ds: seq<string>): seq<Discovery> {
    if |ds| == 0 then []
    else Found(drive, ds[..|ds| - 1]) + Discovered(ds[|ds| - 1], Read(drive(ds[|ds| - 1])))
  }

  /** Neither counter ever goes down. */
  ghost predicate Monotone(ps: seq<IndexingProgress>) {
    forall i, j :: 0 <= i <= j < |ps| ==>
      ps[i].filesProcessed <= ps[j].filesProcessed && ps[i].foldersProcessed <= ps[j].foldersProcessed
  }

  /** The name of the most recent record, if any. */
  function LastName(fs: seq<MediaFile>): Option<string> {
    if |fs| == 0 then None else Some(fs[|fs| - 1].name)
  }

  /**
   * The progress bookkeeping of a run in flight; `draining` says whether a
   * dequeued folder's pages are still being read.
   */
  ghost predicate Running(st: Indexer, draining: bool) {
    && |st.published| > 0
    && st.published[0] == StartProgress
    && st.progress == st.published[|st.published| - 1]
    && Monotone(st.published)
    && (forall i :: 0 <= i < |st.published| ==> st.published[i].status == Indexing && st.published[i].error == None)
    && st.filesCount == |st.emitted| == st.progress.filesProcessed
    && st.progress.currentFile == LastName(st.emitted)
    && st.foldersCount == |st.dequeued| == st.progress.foldersProcessed + (if draining then 1 else 0)
  }

  /** The queue and the emitted records are those of a breadth-first run over `drive`. */
  ghost predicate Bfs(st: Indexer, drive: Drive, clock: Clock, root: string) {
    var order := [root] + Enqueued(drive, st.dequeued);
    && |st.dequeued| <= |order|
    && st.dequeued == order[..|st.dequeued|]
    && st.queue == order[|st.dequeued|..]
    && Queued(drive, st.dequeued)
    && st.emitted == Stamp(Found(drive, st.dequeued), clock, 0)
    && (forall i :: 0 <= i < |st.dequeued| ==> !Fails(drive(st.dequeued[i])))
  }

  /**
   * Every folder was in the queue when it was dequeued: the k-th folder is
   * the root or was queued by one of the k folders dequeued before it.
   */
  ghost predicate Queued(drive: Drive, ds: seq<string>) {
    forall k :: 0 <= k < |ds| ==> k < 1 + |Enqueued(drive, ds[..k])|
  }

  /** Dequeuing a folder while the queue is not empty keeps `Queued`. */
  lemma QueuedSnoc(drive: Drive, ds: seq<string>, f: string)
    requires Queued(drive, ds) && |ds| < 1 + |Enqueued(drive, ds)|
    ensures Queued(drive, ds + [f])
  {
    var ds' := ds + [f];
    forall k | 0 <= k < |ds'|
      ensures k < 1 + |Enqueued(drive, ds'[..k])|
    {
      assert ds'[..k] == ds[..k];
    }
  }

  /** The folders queued by a prefix of the dequeued folders come first among all those queued. */
  lemma {:induction false} EnqueuedPrefix(drive: Drive, ds: seq<string>, k: nat)
    requires k <= |ds|
    ensures |Enqueued(drive, ds[..k])| <= |Enqueued(drive, ds)|
    ensures Enqueued(drive, ds)[..|Enqueued(drive, ds[..k])|] == Enqueued(drive, ds[..k])
    decreases |ds|
  {
    if k < |ds| {
      var init := ds[..|ds| - 1];
      assert init[..k] == ds[..k];
      EnqueuedPrefix(drive, init, k);
    } else {
      assert ds[..k] == ds;
    }
  }

  /**
   * In a queued breadth-first order, the k-th folder dequeued is the k-th
   * folder of the queue built from the root and the child folders of the
   * k folders dequeued before it, and of nothing later.
   */
  lemma QueuedOrder(drive: Drive, root: string, ds: seq<string>)
    requires Queued(drive, ds)
    requires |ds| <= 1 + |Enqueued(drive, ds)| && ds == ([root] + Enqueued(drive, ds))[..|ds|]
    ensures forall k :: 0 <= k < |ds| ==>
      k < 1 + |Enqueued(drive, ds[..k])| && ds[k] == ([root] + Enqueued(drive, ds[..k]))[k]
  {
    forall k | 0 <= k < |ds|
      ensures k < 1 + |Enqueued(drive, ds[..k])| && ds[k] == ([root] + Enqueued(drive, ds[..k]))[k]
    {
      EnqueuedPrefix(drive, ds, k);
      if k > 0 {
        assert ds[k] == Enqueued(drive, ds)[k - 1];
      }
    }
  }

  /** The value published after the record `emitted[p.filesProcessed]`: its count and its name. */
  predicate RecordStep(p: IndexingProgress, q: IndexingProgress, emitted: seq<MediaFile>) {
    && p.filesProcessed < |emitted|
    && q == p.(filesProcessed := p.filesProcessed + 1, currentFile := Some(emitted[p.filesProcessed].name))
  }

  /**
   * The value published after a folder's pages are drained: the folder
   * count goes up by one, and the records emitted so far are exactly those
   * of the folders dequeued so far.
   */
  ghost predicate FolderStep(p: IndexingProgress, q: IndexingProgress, drive: Drive, ds: seq<string>) {
    && q == p.(foldersProcessed := p.foldersProcessed + 1)
    && q.foldersProcessed <= |ds|
    && q.filesProcessed == |Found(drive, ds[..q.foldersProcessed])|
  }

  /** Each published value after the first follows a record or a drained folder. */
  ghost predicate Steps(ps: seq<IndexingProgress>, emitted: seq<MediaFile>, drive: Drive, ds: seq<string>) {
    forall i :: 0 < i < |ps| ==> RecordStep(ps[i - 1], ps[i], emitted) || FolderStep(ps[i - 1], ps[i], drive, ds)
  }

  /** Steps stay valid as more records are emitted and more folders dequeued. */
  lemma StepsWiden(ps: seq<IndexingProgress>, e: seq<MediaFile>, e': seq<MediaFile>, drive: Drive, ds: seq<string>, ds': seq<string>)
    requires Steps(ps, e, drive, ds)
    requires |e| <= |e'| && e'[..|e|] == e
    requires |ds| <= |ds'| && ds'[..|ds|] == ds
    ensures Steps(ps, e', drive, ds')
  {
    forall i | 0 < i < |ps|
      ensures RecordStep(ps[i - 1], ps[i], e') || FolderStep(ps[i - 1], ps[i], drive, ds')
    {
      if RecordStep(ps[i - 1], ps[i], e) {
        assert e'[ps[i - 1].filesProcessed] == e[ps[i - 1].filesProcessed];
      } else {
        assert ds'[..ps[i].foldersProcessed] == ds[..ps[i].foldersProcessed];
      }
    }
  }

  lemma StepsSnoc(ps: seq<IndexingProgress>, e: seq<MediaFile>, drive: Drive, ds: seq<string>, q: IndexingProgress)
    requires Steps(ps, e, drive, ds) && |ps| > 0
    requires RecordStep(ps[|ps| - 1], q, e) || FolderStep(ps[|ps| - 1], q, drive, ds)
    ensures Steps(ps + [q], e, drive, ds)
  {
    var qs := ps + [q];
    forall i | 0 < i < |qs|
      ensures RecordStep(qs[i - 1], qs[i], e) || FolderStep(qs[i - 1], qs[i], drive, ds)
    {
      if i < |ps| {
        assert qs[i - 1] == ps[i - 1] && qs[i] == ps[i];
      }
    }
  }

  /** The progress a run has published so far, step by step. */
  ghost predicate Narrated(st: Indexer, drive: Drive) {
    Steps(st.published, st.emitted, drive, st.dequeued)
  }

  lemma PublishMonotone(ps: seq<IndexingProgress>, p: IndexingProgress)
    requires |ps| > 0 && Monotone(ps)
    requires ps[|ps| - 1].filesProcessed <= p.filesProcessed
    requires ps[|ps| - 1].foldersProcessed <= p.foldersProcessed
    ensures Monotone(ps + [p])
  {
    var qs := ps + [p];
    forall i, j | 0 <= i <= j < |qs|
      ensures qs[i].filesProcessed <= qs[j].filesProcessed && qs[i].foldersProcessed <= qs[j].foldersProcessed
    {
      if j == |ps| && i < |ps| {
        assert qs[i] == ps[i] && ps[i].filesProcessed <= ps[|ps| - 1].filesProcessed;
      }
    }
  }

  /** One entry: a media entry is emitted as a record, anything else emits nothing. */
  lemma VisitData(st: Indexer, folder: string, e: Entry, clock: Clock)
    requires st.filesCount == |st.emitted|
    ensures Visit(st, folder, e, clock).emitted == st.emitted + Stamp(Discovered(folder, [e]), clock, |st.emitted|)
    ensures Visit(st, folder, e, clock).filesCount == |Visit(st, folder, e, clock).emitted|
  {
    assert Discovered(folder, [e]) == (if Classify(e.mimeType) == MediaKind then [Discovery(folder, e)] else []);
  }

  /** Emitting a record republishes the file counter and the current file name. */
  lemma VisitRunning(st: Indexer, folder: string, e: Entry, clock: Clock)
    requires Running(st, true)
    ensures Running(Visit(st, folder, e, clock), true)
    ensures |st.published| <= |Visit(st, folder, e, clock).published|
    ensures Visit(st, folder, e, clock).published[..|st.published|] == st.published
  {
    var r := Visit(st, folder, e, clock);
    if Classify(e.mimeType) == MediaKind {
      PublishMonotone(st.published, r.progress);
      assert r.published[..|st.published|] == st.published;
    }
  }

  /** A run of entries queues its folder entries, in listing order, and dequeues nothing. */
  lemma {:induction false} ProcessFilesQueue(st: Indexer, folder: string, files: seq<Entry>, clock: Clock)
    ensures ProcessFiles(st, folder, files, clock).queue == st.queue + ChildFolders(files)
    ensures ProcessFiles(st, folder, files, clock).dequeued == st.dequeued
    ensures ProcessFiles(st, folder, files, clock).foldersCount == st.foldersCount
    decreases |files|
  {
    if |files| > 0 {
      var st1 := Visit(st, folder, files[0], clock);
      ProcessFilesQueue(st1, folder, files[1..], clock);
      ChildFoldersCons(files);
    }
  }

  /** A run of entries emits a record for each media entry, in listing order. */
  lemma {:induction false} ProcessFilesData(st: Indexer, folder: string, files: seq<Entry>, clock: Clock)
    requires st.filesCount == |st.emitted|
    ensures ProcessFiles(st, folder, files, clock).emitted == st.emitted + Stamp(Discovered(folder, files), clock, |st.emitted|)
    decreases |files|
  {
    if |files| > 0 {
      var st1 := Visit(st, folder, files[0], clock);
      VisitData(st, folder, files[0], clock);
      ProcessFilesData(st1, folder, files[1..], clock);
      var d1 := Discovered(folder, [files[0]]);
      var d2 := Discovered(folder, files[1..]);
      DiscoveredCons(folder, files);
      StampSteps(st.emitted, st1.emitted, ProcessFiles(st1, folder, files[1..], clock).emitted, d1, d2, clock);
    }
  }

  lemma {:induction false} ProcessFilesRunning(st: Indexer, folder: string, files: seq<Entry>, clock: Clock)
    requires Running(st, true)
    ensures Running(ProcessFiles(st, folder, files, clock), true)
    ensures |st.published| <= |ProcessFiles(st, folder, files, clock).published|
    ensures ProcessFiles(st, folder, files, clock).published[..|st.published|] == st.published
    decreases |files|
  {
    if |files| > 0 {
      var st1 := Visit(st, folder, files[0], clock);
      VisitRunning(st, folder, files[0], clock);
      ProcessFilesRunning(st1, folder, files[1..], clock);
      var r := ProcessFiles(st1, folder, files[1..], clock);
      assert r.published[..|st.published|] == r.published[..|st1.published|][..|st.published|];
    }
  }

  /** Emitting a record publishes its count and its name. */
  lemma VisitNarrated(st: Indexer, folder: string, e: Entry, clock: Clock, drive: Drive, ds: seq<string>)
    requires Running(st, true) && Steps(st.published, st.emitted, drive, ds)
    ensures var r := Visit(st, folder, e, clock);
      Steps(r.published, r.emitted, drive, ds)
  {
    var r := Visit(st, folder, e, clock);
    if Classify(e.mimeType) == MediaKind {
      assert r.emitted[..|st.emitted|] == st.emitted;
      StepsWiden(st.published, st.emitted, r.emitted, drive, ds, ds);
      assert RecordStep(st.progress, r.progress, r.emitted);
      StepsSnoc(st.published, r.emitted, drive, ds, r.progress);
    }
  }

  lemma {:induction false} ProcessFilesNarrated(st: Indexer, folder: string, files: seq<Entry>, clock: Clock, drive: Drive, ds: seq<string>)
    requires Running(st, true) && Steps(st.published, st.emitted, drive, ds)
    ensures var r := ProcessFiles(st, folder, files, clock);
      Steps(r.published, r.emitted, drive, ds)
    decreases |files|
  {
    if |files| > 0 {
      var st1 := Visit(st, folder, files[0], clock);
      VisitRunning(st, folder, files[0], clock);
      VisitNarrated(st, folder, files[0], clock, drive, ds);
      ProcessFilesNarrated(st1, folder, files[1..], clock, drive, ds);
    }
  }

  lemma {:induction false} ProcessFilesAppend(st: Indexer, folder: string, a: seq<Entry>, b: seq<Entry>, clock: Clock)
    ensures ProcessFiles(ProcessFiles(st, folder, a, clock), folder, b, clock) == ProcessFiles(st, folder, a + b, clock)
    decreases |a|
  {
    if |a| > 0 {
      assert (a + b)[1..] == a[1..] + b;
      ProcessFilesAppend(Visit(st, folder, a[0], clock), folder, a[1..], b, clock);
    } else {
      assert a + b == b;
    }
  }

  /**
   * Every page of a folder is read before the loop moves on: the page loop
   * processes exactly the entries `Read` collects, and ends in failure
   * exactly when the folder's responses do.
   */
  lemma {:induction false} DrainPagesEffect(st: Indexer, folder: string, pages: Pages, clock: Clock)
    ensures DrainPages(st, folder, pages, clock).st == ProcessFiles(st, folder, Read(pages), clock)
    ensures DrainPages(st, folder, pages, clock).Aborted? <==> Fails(pages)
    ensures Fails(pages) ==> DrainPages(st, folder, pages, clock).message == FailureMessage(pages)
    decreases pages
  {
    match pages
    case LastPage(files) =>
    case ListError(_) =>
    case Page(files, token, more) =>
      if token != "" {
        var st' := ProcessFiles(st, folder, files, clock);
        DrainPagesEffect(st', folder, more, clock);
        ProcessFilesAppend(st, folder, files, Read(more), clock);
      }
  }

  lemma EnqueuedSnoc(drive: Drive, ds: seq<string>, f: string)
    ensures Enqueued(drive, ds + [f]) == Enqueued(drive, ds) + ChildFolders(Read(drive(f)))
    ensures Found(drive, ds + [f]) == Found(drive, ds) + Discovered(f, Read(drive(f)))
  {
    assert (ds + [f])[..|ds|] == ds;
  }

  /** The state after dequeuing a folder and reading all its pages. */
  function Drained(st: Indexer, drive: Drive, clock: Clock): Indexer
    requires |st.queue| > 0
  {
    DrainPages(Dequeue(st), st.queue[0], drive(st.queue[0]), clock).st
  }

  /** Taking the head of the pending suffix of `order` and appending to `order`. */
  lemma OrderStep(order: seq<string>, ds: seq<string>, queue: seq<string>, more: seq<string>)
    requires |ds| < |order| && ds == order[..|ds|] && queue == order[|ds|..]
    ensures ds + [queue[0]] == (order + more)[..|ds| + 1]
    ensures queue[1..] + more == (order + more)[|ds| + 1..]
  {
    assert (order + more)[..|ds| + 1] == order[..|ds|] + [order[|ds|]];
  }

  /** Dequeuing and draining a folder keeps the progress bookkeeping. */
  lemma StepRunning(st: Indexer, drive: Drive, clock: Clock)
    requires Running(st, false) && |st.queue| > 0
    ensures Running(Drained(st, drive, clock), true)
    ensures Drained(st, drive, clock).dequeued == st.dequeued + [st.queue[0]]
    ensures |st.published| <= |Drained(st, drive, clock).published|
    ensures Drained(st, drive, clock).published[..|st.published|] == st.published
  {
    var f := st.queue[0];
    var st1 := Dequeue(st);
    assert Running(st1, true);
    DrainPagesEffect(st1, f, drive(f), clock);
    ProcessFilesData(st1, f, Read(drive(f)), clock);
    ProcessFilesQueue(st1, f, Read(drive(f)), clock);
    ProcessFilesRunning(st1, f, Read(drive(f)), clock);
  }

  /** Dequeuing and draining a folder publishes one step per record. */
  lemma DrainedNarrated(st: Indexer, drive: Drive, clock: Clock)
    requires Running(st, false) && Narrated(st, drive) && |st.queue| > 0
    ensures Narrated(Drained(st, drive, clock), drive)
  {
    var f := st.queue[0];
    var st1 := Dequeue(st);
    assert Running(st1, true);
    assert st1.dequeued[..|st.dequeued|] == st.dequeued;
    StepsWiden(st.published, st.emitted, st.emitted, drive, st.dequeued, st1.dequeued);
    DrainPagesEffect(st1, f, drive(f), clock);
    ProcessFilesQueue(st1, f, Read(drive(f)), clock);
    ProcessFilesNarrated(st1, f, Read(drive(f)), clock, drive, st1.dequeued);
  }

  /** A drained folder publishes its count once every record of it has been emitted. */
  lemma NextNarrated(st: Indexer, drive: Drive, clock: Clock, root: string)
    requires Running(st, false) && Bfs(st, drive, clock, root) && Narrated(st, drive)
    requires |st.queue| > 0
    ensures Narrated(Next(st, drive, clock), drive)
  {
    var r1 := Drained(st, drive, clock);
    DrainedNarrated(st, drive, clock);
    StepRunning(st, drive, clock);
    StepEmitted(st, drive, clock);
    var ds := r1.dequeued;
    assert ds[..|ds|] == ds;
    var q := r1.progress.(foldersProcessed := r1.foldersCount);
    assert FolderStep(r1.progress, q, drive, ds);
    StepsSnoc(r1.published, r1.emitted, drive, ds, q);
  }

  /** Draining a folder appends the records of its media entries to those found so far. */
  lemma StepEmitted(st: Indexer, drive: Drive, clock: Clock)
    requires st.filesCount == |st.emitted| && st.emitted == Stamp(Found(drive, st.dequeued), clock, 0) && |st.queue| > 0
    ensures var r := Drained(st, drive, clock);
      && r.emitted == Stamp(Found(drive, st.dequeued + [st.queue[0]]), clock, 0)
      && |st.emitted| <= |r.emitted| && r.emitted[..|st.emitted|] == st.emitted
  {
    var f := st.queue[0];
    var found := Found(drive, st.dequeued);
    var d := Discovered(f, Read(drive(f)));
    var e := Drained(st, drive, clock).emitted;
    DrainedEmitted(st, drive, clock);
    EnqueuedSnoc(drive, st.dequeued, f);
    StampAppend(found, d, clock, 0);
    assert e == Stamp(found + d, clock, 0);
    assert e[..|st.emitted|] == st.emitted;
  }

  /** Draining the head folder appends its discoveries, stamped from the current count. */
  lemma DrainedEmitted(st: Indexer, drive: Drive, clock: Clock)
    requires |st.queue| > 0 && st.filesCount == |st.emitted|
    ensures var f := st.queue[0];
      Drained(st, drive, clock).emitted == st.emitted + Stamp(Discovered(f, Read(drive(f))), clock, |st.emitted|)
  {
    var f := st.queue[0];
    DrainPagesEffect(Dequeue(st), f, drive(f), clock);
    ProcessFilesData(Dequeue(st), f, Read(drive(f)), clock);
  }

  /** Draining a folder takes the next folder of the breadth-first order and queues its children. */
  lemma StepOrder(st: Indexer, drive: Drive, clock: Clock, root: string)
    requires |st.queue| > 0
    requires var order := [root] + Enqueued(drive, st.dequeued);
      |st.dequeued| <= |order| && st.dequeued == order[..|st.dequeued|] && st.queue == order[|st.dequeued|..]
    ensures var ds := st.dequeued + [st.queue[0]];
      var order := [root] + Enqueued(drive, ds);
      && |ds| <= |order| && ds == order[..|ds|]
      && Drained(st, drive, clock).queue == order[|ds|..]
  {
    var f := st.queue[0];
    var more := ChildFolders(Read(drive(f)));
    var order0 := [root] + Enqueued(drive, st.dequeued);
    DrainedQueue(st, drive, clock);
    EnqueuedSnoc(drive, st.dequeued, f);
    OrderStep(order0, st.dequeued, st.queue, more);
    AppendAssoc([root], Enqueued(drive, st.dequeued), more);
  }

  /** Draining the head folder leaves the rest of the queue followed by its child folders. */
  lemma DrainedQueue(st: Indexer, drive: Drive, clock: Clock)
    requires |st.queue| > 0
    ensures Drained(st, drive, clock).queue == st.queue[1..] + ChildFolders(Read(drive(st.queue[0])))
  {
    var f := st.queue[0];
    DrainPagesEffect(Dequeue(st), f, drive(f), clock);
    ProcessFilesQueue(Dequeue(st), f, Read(drive(f)), clock);
  }

  lemma AppendAssoc<T>(a: seq<T>, b: seq<T>, c: seq<T>)
    ensures a + (b + c) == (a + b) + c
  {
  }

  /** One turn of the outer loop follows the breadth-first order. */
  lemma StepData(st: Indexer, drive: Drive, clock: Clock, root: string)
    requires st.filesCount == |st.emitted| && Bfs(st, drive, clock, root) && |st.queue| > 0
    ensures var ds := st.dequeued + [st.queue[0]];
      var order := [root] + Enqueued(drive, ds);
      var r := Drained(st, drive, clock);
      && |ds| <= |order| && ds == order[..|ds|]
      && r.emitted == Stamp(Found(drive, ds), clock, 0)
      && r.queue == order[|ds|..]
      && |st.emitted| <= |r.emitted| && r.emitted[..|st.emitted|] == st.emitted
  {
    StepEmitted(st, drive, clock);
    StepOrder(st, drive, clock, root);
  }

  /** What a finished run shows: its result, and the progress it published on the way. */
  ghost predicate Outcome(r: Indexer, drive: Drive, clock: Clock, root: string) {
    Finished(r, drive, clock, root) && Queued(drive, r.dequeued) && Told(r, drive)
  }

  /**
   * The progress published by a finished run: every value before the last
   * follows a record or a drained folder, and the last one changes only the
   * status, and the current file on completion or the error on failure.
   */
  ghost predicate Told(r: Indexer, drive: Drive) {
    && |r.published| >= 2
    && r.progress == r.published[|r.published| - 1]
    && Steps(r.published[..|r.published| - 1], r.emitted, drive, r.dequeued)
    && (r.progress.status == Completed ==> r.progress == r.published[|r.published| - 2].(status := Completed, currentFile := None))
    && (r.progress.status == Error ==> r.progress == r.published[|r.published| - 2].(status := Error, error := r.progress.error))
  }

  /** The result of a finished run. */
  ghost predicate Finished(r: Indexer, drive: Drive, clock: Clock, root: string) {
    var ds := r.dequeued;
    var n := |ds|;
    var order := [root] + Enqueued(drive, ds);
    && 1 <= n <= |order| && ds == order[..n]
    && r.emitted == Stamp(Found(drive, ds), clock, 0)
    && |r.published| >= 2 && r.published[0] == StartProgress
    && r.progress == r.published[|r.published| - 1]
    && Monotone(r.published)
    && (forall i :: 0 <= i < |r.published| - 1 ==> r.published[i].status == Indexing)
    && r.progress.filesProcessed == |r.emitted|
    && (r.progress.status == Completed || r.progress.status == Error)
    && (r.progress.status == Completed ==>
          && ds == order
          && (forall i :: 0 <= i < n ==> !Fails(drive(ds[i])))
          && r.progress.foldersProcessed == n
          && r.progress.currentFile == None
          && r.progress.error == None)
    && (r.progress.status == Error ==>
          && Fails(drive(ds[n - 1]))
          && (forall i :: 0 <= i < n - 1 ==> !Fails(drive(ds[i])))
          && r.progress.error == Some(ErrorText(FailureMessage(drive(ds[n - 1]))))
          && r.progress.foldersProcessed == n - 1
          && r.progress.currentFile == LastName(r.emitted))
  }

  /** The state the outer loop continues from after a folder drained without failure. */
  function Next(st: Indexer, drive: Drive, clock: Clock): Indexer
    requires |st.queue| > 0
  {
    var r := Drained(st, drive, clock);
    Publish(r, r.progress.(foldersProcessed := r.foldersCount))
  }

  /** An empty queue completes the run. */
  lemma CompleteOutcome(st: Indexer, drive: Drive, clock: Clock, root: string)
    requires Running(st, false) && Bfs(st, drive, clock, root) && Narrated(st, drive)
    requires |st.dequeued| > 0 && |st.queue| == 0
    ensures Outcome(Complete(st), drive, clock, root)
  {
    var r := Complete(st);
    PublishMonotone(st.published, r.progress);
    assert r.published[..|st.published|] == st.published;
    CompleteTold(st, drive);
  }

  /** Completing publishes one last value that only sets the status and clears the current file. */
  lemma CompleteTold(st: Indexer, drive: Drive)
    requires Running(st, false) && Narrated(st, drive)
    ensures Told(Complete(st), drive)
  {
    var r := Complete(st);
    assert r.published[..|r.published| - 1] == st.published;
  }

  /** Aborting publishes one last value that only sets the status and the error. */
  lemma AbortTold(st: Indexer, drive: Drive, clock: Clock, message: Option<string>)
    requires Running(st, false) && Narrated(st, drive) && |st.queue| > 0
    ensures Told(Abort(Drained(st, drive, clock), message), drive)
  {
    StepRunning(st, drive, clock);
    DrainedNarrated(st, drive, clock);
    var r1 := Drained(st, drive, clock);
    var r := Abort(r1, message);
    assert r.published[..|r.published| - 1] == r1.published;
  }

  /** A failed listing ends the run with an error at the folder just dequeued. */
  lemma AbortOutcome(st: Indexer, drive: Drive, clock: Clock, root: string)
    requires Running(st, false) && Bfs(st, drive, clock, root) && Narrated(st, drive)
    requires |st.queue| > 0 && Fails(drive(st.queue[0]))
    ensures Outcome(Abort(Drained(st, drive, clock), FailureMessage(drive(st.queue[0]))), drive, clock, root)
  {
    AbortFinished(st, drive, clock, root);
    AbortQueued(st, drive, clock, FailureMessage(drive(st.queue[0])));
    AbortTold(st, drive, clock, FailureMessage(drive(st.queue[0])));
  }

  lemma AbortFinished(st: Indexer, drive: Drive, clock: Clock, root: string)
    requires Running(st, false) && Bfs(st, drive, clock, root)
    requires |st.queue| > 0 && Fails(drive(st.queue[0]))
    ensures Finished(Abort(Drained(st, drive, clock), FailureMessage(drive(st.queue[0]))), drive, clock, root)
  {
    StepRunning(st, drive, clock);
    StepData(st, drive, clock, root);
    var r1 := Drained(st, drive, clock);
    var r := Abort(r1, FailureMessage(drive(st.queue[0])));
    PublishMonotone(r1.published, r.progress);
    assert r.published[..|r1.published|] == r1.published;
  }

  /** The folder a failed listing ends the run at had been queued. */
  lemma AbortQueued(st: Indexer, drive: Drive, clock: Clock, message: Option<string>)
    requires Running(st, false) && Queued(drive, st.dequeued) && |st.queue| > 0
    requires |st.dequeued| + |st.queue| == 1 + |Enqueued(drive, st.dequeued)|
    ensures Queued(drive, Abort(Drained(st, drive, clock), message).dequeued)
  {
    StepRunning(st, drive, clock);
    QueuedSnoc(drive, st.dequeued, st.queue[0]);
  }

  /** A drained folder publishes the folder counter and keeps both invariants. */
  lemma NextInvariant(st: Indexer, drive: Drive, clock: Clock, root: string)
    requires Running(st, false) && Bfs(st, drive, clock, root)
    requires |st.queue| > 0 && !Fails(drive(st.queue[0]))
    ensures Running(Next(st, drive, clock), false)
    ensures Bfs(Next(st, drive, clock), drive, clock, root)
    ensures |Next(st, drive, clock).dequeued| > 0
    ensures |st.emitted| <= |Next(st, drive, clock).emitted|
    ensures Next(st, drive, clock).emitted[..|st.emitted|] == st.emitted
  {
    StepRunning(st, drive, clock);
    StepData(st, drive, clock, root);
    QueuedSnoc(drive, st.dequeued, st.queue[0]);
    var r1 := Drained(st, drive, clock);
    var r2 := Next(st, drive, clock);
    PublishMonotone(r1.published, r2.progress);
    var f := st.queue[0];
    var ds := st.dequeued + [f];
    assert forall i :: 0 <= i < |ds| ==> !Fails(drive(ds[i])) by {
      forall i | 0 <= i < |ds|
        ensures !Fails(drive(ds[i]))
      {
        if i < |st.dequeued| {
          assert ds[i] == st.dequeued[i];
        }
      }
    }
    DrainPagesEffect(Dequeue(st), f, drive(f), clock);
    ProcessFilesData(Dequeue(st), f, Read(drive(f)), clock);
    ProcessFilesQueue(Dequeue(st), f, Read(drive(f)), clock);
  }

  /** One turn of the outer loop, in terms of `Drained` and `Next`. */
  lemma LoopStep(st: Indexer, drive: Drive, clock: Clock, fuel: nat)
    requires |st.queue| > 0 && fuel > 0
    ensures Fails(drive(st.queue[0])) ==>
      Loop(st, drive, clock, fuel) == Some(Abort(Drained(st, drive, clock), FailureMessage(drive(st.queue[0]))))
    ensures !Fails(drive(st.queue[0])) ==>
      Loop(st, drive, clock, fuel) == Loop(Next(st, drive, clock), drive, clock, fuel - 1)
  {
    var f := st.queue[0];
    DrainPagesEffect(Dequeue(st), f, drive(f), clock);
  }

  /** A breadth-first run in flight between two turns of the outer loop. */
  ghost predicate InFlight(st: Indexer, drive: Drive, clock: Clock, root: string) {
    Running(st, false) && Bfs(st, drive, clock, root) && Narrated(st, drive) && (|st.dequeued| > 0 || |st.queue| > 0)
  }

  /** `last` kept every record `st` had emitted, as a prefix. */
  predicate Extends(st: Indexer, last: Indexer) {
    |st.emitted| <= |last.emitted| && last.emitted[..|st.emitted|] == st.emitted
  }

  lemma ExtendsTrans(a: Indexer, b: Indexer, c: Indexer)
    requires Extends(a, b) && Extends(b, c)
    ensures Extends(a, c)
  {
    assert c.emitted[..|a.emitted|] == c.emitted[..|b.emitted|][..|a.emitted|];
  }

  /**
   * The state, and the fuel left, at which the outer loop reaches its last
   * turn: it keeps taking turns while the head folder drains and fuel remains.
   */
  function Settle(st: Indexer, drive: Drive, clock: Clock, fuel: nat): (r: (Indexer, nat))
    ensures r.1 <= fuel
    ensures r.1 == 0 || |r.0.queue| == 0 || Fails(drive(r.0.queue[0]))
    decreases fuel
  {
    if fuel > 0 && |st.queue| > 0 && !Fails(drive(st.queue[0])) then Settle(Next(st, drive, clock), drive, clock, fuel - 1)
    else (st, fuel)
  }

  /** Up to its last turn the run goes the way of `Settle`. */
  lemma {:induction false} SettleLoop(st: Indexer, drive: Drive, clock: Clock, fuel: nat)
    ensures Loop(st, drive, clock, fuel) == Loop(Settle(st, drive, clock, fuel).0, drive, clock, Settle(st, drive, clock, fuel).1)
    decreases fuel
  {
    if fuel > 0 && |st.queue| > 0 && !Fails(drive(st.queue[0])) {
      var next := Turn(st, drive, clock, fuel);
      SettleLoop(next, drive, clock, fuel - 1);
    }
  }

  /** A turn on a folder whose listing succeeds keeps the run in flight and its records. */
  lemma NextInFlight(st: Indexer, drive: Drive, clock: Clock, root: string)
    requires InFlight(st, drive, clock, root) && |st.queue| > 0 && !Fails(drive(st.queue[0]))
    ensures InFlight(Next(st, drive, clock), drive, clock, root)
    ensures Extends(st, Next(st, drive, clock))
  {
    NextInvariant(st, drive, clock, root);
    NextNarrated(st, drive, clock, root);
  }

  /** Up to its last turn the run stays in flight. */
  lemma {:induction false} SettleInFlight(st: Indexer, drive: Drive, clock: Clock, root: string, fuel: nat)
    requires InFlight(st, drive, clock, root)
    ensures InFlight(Settle(st, drive, clock, fuel).0, drive, clock, root)
    decreases fuel
  {
    if fuel > 0 && |st.queue| > 0 && !Fails(drive(st.queue[0])) {
      var next := Next(st, drive, clock);
      NextInFlight(st, drive, clock, root);
      SettleInFlight(next, drive, clock, root, fuel - 1);
      assert Settle(st, drive, clock, fuel) == Settle(next, drive, clock, fuel - 1);
    } else {
      assert Settle(st, drive, clock, fuel).0 == st;
    }
  }

  /** Up to its last turn the run keeps every record it had emitted. */
  lemma {:induction false} SettleExtends(st: Indexer, drive: Drive, clock: Clock, root: string, fuel: nat)
    requires InFlight(st, drive, clock, root)
    ensures Extends(st, Settle(st, drive, clock, fuel).0)
    decreases fuel
  {
    if fuel > 0 && |st.queue| > 0 && !Fails(drive(st.queue[0])) {
      var next := Next(st, drive, clock);
      NextInFlight(st, drive, clock, root);
      SettleExtends(next, drive, clock, root, fuel - 1);
      ExtendsTrans(st, next, Settle(next, drive, clock, fuel - 1).0);
    }
  }

  /** The last turn ends the run in an `Outcome`. */
  lemma FinalOutcome(pre: Indexer, drive: Drive, clock: Clock, root: string, k: nat) returns (last: Indexer)
    requires InFlight(pre, drive, clock, root) && Loop(pre, drive, clock, k).Some?
    requires |pre.queue| == 0 || Fails(drive(pre.queue[0]))
    ensures Loop(pre, drive, clock, k) == Some(last)
    ensures Outcome(last, drive, clock, root) && Extends(pre, last)
  {
    if |pre.queue| == 0 {
      last := EmptyQueueOutcome(pre, drive, clock, root, k);
    } else {
      FuelLeft(pre, drive, clock, k);
      last := FailingTurnOutcome(pre, drive, clock, root, k);
    }
  }

  /** The run from a breadth-first state in flight, named by its final state `last`. */
  lemma LoopEnds(st: Indexer, drive: Drive, clock: Clock, root: string, fuel: nat) returns (last: Indexer)
    requires InFlight(st, drive, clock, root) && Loop(st, drive, clock, fuel).Some?
    ensures Loop(st, drive, clock, fuel) == Some(last)
    ensures Outcome(last, drive, clock, root) && Extends(st, last)
  {
    SettleLoop(st, drive, clock, fuel);
    SettleInFlight(st, drive, clock, root, fuel);
    SettleExtends(st, drive, clock, root, fuel);
    var (pre, k) := Settle(st, drive, clock, fuel);
    last := FinalOutcome(pre, drive, clock, root, k);
    ExtendsTrans(st, pre, last);
  }

  /** A non-empty queue needs fuel for the run to finish. */
  lemma FuelLeft(st: Indexer, drive: Drive, clock: Clock, fuel: nat)
    requires |st.queue| > 0 && Loop(st, drive, clock, fuel).Some?
    ensures fuel > 0
  {
  }

  /** An empty queue ends the run in an `Outcome` that keeps the records emitted so far. */
  lemma EmptyQueueOutcome(st: Indexer, drive: Drive, clock: Clock, root: string, fuel: nat) returns (last: Indexer)
    requires Running(st, false) && Bfs(st, drive, clock, root) && Narrated(st, drive)
    requires |st.dequeued| > 0 && |st.queue| == 0
    ensures Loop(st, drive, clock, fuel) == Some(last)
    ensures Outcome(last, drive, clock, root) && Extends(st, last)
  {
    CompleteOutcome(st, drive, clock, root);
    last := Complete(st);
  }

  /** A turn on a failing folder ends the run in an `Outcome` that keeps the records emitted so far. */
  lemma FailingTurnOutcome(st: Indexer, drive: Drive, clock: Clock, root: string, fuel: nat) returns (last: Indexer)
    requires Running(st, false) && Bfs(st, drive, clock, root) && Narrated(st, drive)
    requires |st.queue| > 0 && fuel > 0 && Fails(drive(st.queue[0]))
    ensures Loop(st, drive, clock, fuel) == Some(last)
    ensures Outcome(last, drive, clock, root) && Extends(st, last)
  {
    LoopStep(st, drive, clock, fuel);
    AbortOutcome(st, drive, clock, root);
    StepData(st, drive, clock, root);
    last := Abort(Drained(st, drive, clock), FailureMessage(drive(st.queue[0])));
  }

  /** From any breadth-first state in flight, a run that finishes within its fuel ends in an `Outcome`. */
  lemma LoopOutcome(st: Indexer, drive: Drive, clock: Clock, root: string, fuel: nat)
    requires Running(st, false) && Bfs(st, drive, clock, root) && Narrated(st, drive)
    requires |st.dequeued| > 0 || |st.queue| > 0
    requires Loop(st, drive, clock, fuel).Some?
    ensures Outcome(Loop(st, drive, clock, fuel).value, drive, clock, root)
    ensures |st.emitted| <= |Loop(st, drive, clock, fuel).value.emitted|
    ensures Loop(st, drive, clock, fuel).value.emitted[..|st.emitted|] == st.emitted
  {
    var last := LoopEnds(st, drive, clock, root, fuel);
  }

  /**
   * `fetchFilesRecursively(root)`. When the run finishes within the fuel:
   * it started from status INDEXING with both counters 0; no counter ever
   * went down; the folders were dequeued in breadth-first (queue) order
   * starting with the root; the records emitted are exactly the media
   * entries of the dequeued folders' pages, in order, each built from its
   * entry and parent folder; and the run ended either COMPLETED, with every
   * queued folder dequeued, the folder counter equal to the number of
   * folders dequeued and no current file, or ERROR, at the first folder
   * whose listing failed, with that failure's message (or the fallback),
   * the counters as last published and the records already emitted kept.
   */
  function FetchFilesRecursively(drive: Drive, clock: Clock, root: string, fuel: nat): (r: Option<Indexer>)
    ensures r.Some? ==> Outcome(r.value, drive, clock, root)
  {
    var st := Start(root);
    assert Bfs(st, drive, clock, root) && Narrated(st, drive);
    var r := Loop(st, drive, clock, fuel);
    if r.Some? then LoopOutcome(st, drive, clock, root, fuel); r else r
  }

  /**
   * A finished run starts from the root with both counters 0, emits one
   * record per media entry found, and when it completes has counted every
   * dequeued folder and every emitted record.
   */
  lemma RunCounts(drive: Drive, clock: Clock, root: string, fuel: nat)
    requires FetchFilesRecursively(drive, clock, root, fuel).Some?
    ensures var r := FetchFilesRecursively(drive, clock, root, fuel).value;
      && r.published[0] == IndexingProgress(Indexing, None, 0, 0, None)
      && r.dequeued[0] == root
      && |r.emitted| == |Found(drive, r.dequeued)|
      && (r.progress.status == Completed ==>
            r.progress.foldersProcessed == |r.dequeued| && r.progress.filesProcessed == |r.emitted|)
  {
  }

  /**
   * A root whose listing names no folder is the only folder a finished run
   * dequeues, whatever the folders it never reaches list.
   */
  lemma LeafRootAlone(drive: Drive, clock: Clock, root: string, r: Indexer)
    requires ChildFolders(Read(drive(root))) == [] && Outcome(r, drive, clock, root)
    ensures r.dequeued == [root]
  {
    assert [root][..0] == [];
    assert Enqueued(drive, [root]) == [];
    assert r.dequeued[..1] == [root];
  }

  // ---------------------------------------------------------------------
  // Consequences for whole runs.
  // ---------------------------------------------------------------------

  /**
   * A media entry is found exactly when it is read from a dequeued folder's
   * pages; nothing else is (in particular no folder).
   */
  lemma {:induction false} FoundMembers(drive: Drive, ds: seq<string>)
    ensures forall d :: d in Found(drive, ds) <==>
      d.parent in ds && d.entry in Read(drive(d.parent)) && IsMediaType(d.entry.mimeType)
  {
    if |ds| > 0 {
      var f := ds[|ds| - 1];
      var init := ds[..|ds| - 1];
      FoundMembers(drive, init);
      DiscoveredMembers(f, Read(drive(f)));
      assert ds == init + [f];
      assert forall x :: x in ds <==> x in init || x == f;
    }
  }

  /** A folder id is queued exactly when it is a folder entry read from a dequeued folder's pages. */
  lemma {:induction false} EnqueuedMembers(drive: Drive, ds: seq<string>)
    ensures forall id :: id in Enqueued(drive, ds) <==>
      exists f, e :: f in ds && e in Read(drive(f)) && e.mimeType == FolderMimeType && e.id == id
  {
    if |ds| > 0 {
      var f := ds[|ds| - 1];
      var init := ds[..|ds| - 1];
      EnqueuedMembers(drive, init);
      ChildFoldersMembers(Read(drive(f)));
      assert ds == init + [f];
      assert forall x :: x in ds <==> x in init || x == f;
    }
  }

  /**
   * Each emitted record is built from the media entry found at the same
   * position: id, name, MIME type and checksum copied, a missing or empty
   * size turned into "0", the listed folder as parent, and the k-th clock
   * reading as its time. A record is emitted for every media entry of every
   * dequeued folder's pages and for nothing else.
   */
  lemma EmittedRecords(drive: Drive, clock: Clock, root: string, fuel: nat)
    requires FetchFilesRecursively(drive, clock, root, fuel).Some?
    ensures var r := FetchFilesRecursively(drive, clock, root, fuel).value;
      var found := Found(drive, r.dequeued);
      && |r.emitted| == |found|
      && (forall k :: 0 <= k < |r.emitted| ==>
            && r.emitted[k].id == found[k].entry.id
            && r.emitted[k].name == found[k].entry.name
            && r.emitted[k].mimeType == found[k].entry.mimeType
            && r.emitted[k].md5Checksum == found[k].entry.md5Checksum
            && r.emitted[k].size == (if found[k].entry.size.Some? && found[k].entry.size.value != "" then found[k].entry.size.value else "0")
            && r.emitted[k].parentFolderId == Some(found[k].parent)
            && r.emitted[k].indexedAt == clock(k)
            && IsMediaType(r.emitted[k].mimeType))
      && (forall d :: d in found <==>
            d.parent in r.dequeued && d.entry in Read(drive(d.parent)) && IsMediaType(d.entry.mimeType))
  {
    var r := FetchFilesRecursively(drive, clock, root, fuel).value;
    FoundMembers(drive, r.dequeued);
    StampedRecords(Found(drive, r.dequeued), clock);
  }

  /** The records stamped for media discoveries, field by field. */
  lemma StampedRecords(found: seq<Discovery>, clock: Clock)
    requires forall d :: d in found ==> IsMediaType(d.entry.mimeType)
    ensures var emitted := Stamp(found, clock, 0);
      forall k :: 0 <= k < |emitted| ==>
        && emitted[k].id == found[k].entry.id
        && emitted[k].name == found[k].entry.name
        && emitted[k].mimeType == found[k].entry.mimeType
        && emitted[k].md5Checksum == found[k].entry.md5Checksum
        && emitted[k].size == (if found[k].entry.size.Some? && found[k].entry.size.value != "" then found[k].entry.size.value else "0")
        && emitted[k].parentFolderId == Some(found[k].parent)
        && emitted[k].indexedAt == clock(k)
        && IsMediaType(emitted[k].mimeType)
  {
    StampAt(found, clock, 0);
    forall k | 0 <= k < |found|
      ensures IsMediaType(found[k].entry.mimeType)
    {
      assert found[k] in found;
    }
  }

  /**
   * A completed run dequeued every folder it met: the dequeued folders are
   * the root followed by every folder entry read from them, each once per
   * listing, in the order they were read.
   */
  lemma CompletedRunClosed(drive: Drive, clock: Clock, root: string, fuel: nat)
    requires FetchFilesRecursively(drive, clock, root, fuel).Some?
    requires FetchFilesRecursively(drive, clock, root, fuel).value.progress.status == Completed
    ensures var ds := FetchFilesRecursively(drive, clock, root, fuel).value.dequeued;
      && ds == [root] + Enqueued(drive, ds)
      && forall f, e :: f in ds && e in Read(drive(f)) && e.mimeType == FolderMimeType ==> e.id in ds
  {
    var ds := FetchFilesRecursively(drive, clock, root, fuel).value.dequeued;
    EnqueuedMembers(drive, ds);
    forall f, e | f in ds && e in Read(drive(f)) && e.mimeType == FolderMimeType
      ensures e.id in ds
    {
      assert e.id in Enqueued(drive, ds);
      assert e.id in [root] + Enqueued(drive, ds);
    }
  }

  /** The queue after a drained folder: the rest of the queue, then the folder's child folders. */
  lemma NextQueue(st: Indexer, drive: Drive, clock: Clock)
    requires |st.queue| > 0
    ensures Next(st, drive, clock).queue == st.queue[1..] + ChildFolders(Read(drive(st.queue[0])))
    ensures Next(st, drive, clock).dequeued == st.dequeued + [st.queue[0]]
  {
    var f := st.queue[0];
    DrainPagesEffect(Dequeue(st), f, drive(f), clock);
    ProcessFilesQueue(Dequeue(st), f, Read(drive(f)), clock);
  }

  /**
   * Breadth-first order as a plain queue simulation: the folders taken off
   * `queue`, in order, each one's child folders appended to it, within
   * `fuel` turns.
   */
  function Visits(drive: Drive, queue: seq<string>, fuel: nat): Option<seq<string>>
    decreases fuel
  {
    if |queue| == 0 then Some([])
    else if fuel == 0 then None
    else match Visits(drive, Rest(drive, queue), fuel - 1)
      case None => None
      case Some(rest) => Some([queue[0]] + rest)
  }

  /** The queue after one turn: the rest of it, then the head's child folders. */
  function Rest(drive: Drive, queue: seq<string>): seq<string>
    requires |queue| > 0
  {
    queue[1..] + ChildFolders(Read(drive(queue[0])))
  }

  /** One simulated turn, read off in both directions. */
  lemma VisitsCons(drive: Drive, queue: seq<string>, fuel: nat)
    requires |queue| > 0
    ensures Visits(drive, queue, fuel).Some? <==> fuel > 0 && Visits(drive, Rest(drive, queue), fuel - 1).Some?
    ensures Visits(drive, queue, fuel).Some? ==>
      Visits(drive, queue, fuel).value == [queue[0]] + Visits(drive, Rest(drive, queue), fuel - 1).value
  {
  }

  /** One simulated turn: the head is visited, then the simulation of the rest. */
  lemma VisitsStep(drive: Drive, queue: seq<string>, fuel: nat, rest: seq<string>)
    requires |queue| > 0 && fuel > 0
    requires Visits(drive, Rest(drive, queue), fuel - 1) == Some(rest)
    ensures Visits(drive, queue, fuel) == Some([queue[0]] + rest)
  {
  }

  /** A simulated turn on a queue none of whose simulated folders fails. */
  lemma VisitsTurn(drive: Drive, queue: seq<string>, fuel: nat, ds: seq<string>)
    requires |queue| > 0
    requires Visits(drive, queue, fuel).Some?
    requires forall f :: f in Visits(drive, queue, fuel).value ==> !Fails(drive(f))
    ensures fuel > 0 && !Fails(drive(queue[0]))
    ensures Visits(drive, Rest(drive, queue), fuel - 1).Some?
    ensures forall f :: f in Visits(drive, Rest(drive, queue), fuel - 1).value ==> !Fails(drive(f))
    ensures ds + Visits(drive, queue, fuel).value == (ds + [queue[0]]) + Visits(drive, Rest(drive, queue), fuel - 1).value
  {
    var visits := Visits(drive, queue, fuel).value;
    VisitsCons(drive, queue, fuel);
    var rest := Visits(drive, Rest(drive, queue), fuel - 1).value;
    assert visits == [queue[0]] + rest;
    assert visits[0] in visits;
    assert forall f :: f in rest ==> f in visits;
  }

  /** A turn of the outer loop on a folder whose listing succeeds, seen only through the queue. */
  lemma Turn(st: Indexer, drive: Drive, clock: Clock, fuel: nat) returns (next: Indexer)
    requires |st.queue| > 0 && fuel > 0 && !Fails(drive(st.queue[0]))
    ensures Loop(st, drive, clock, fuel) == Loop(next, drive, clock, fuel - 1)
    ensures next.queue == Rest(drive, st.queue)
    ensures next.dequeued == st.dequeued + [st.queue[0]]
    ensures next == Next(st, drive, clock)
  {
    LoopStep(st, drive, clock, fuel);
    NextQueue(st, drive, clock);
    next := Next(st, drive, clock);
  }

  /** A turn of the outer loop on a folder whose listing fails: the run ends in ERROR. */
  lemma FailingTurn(st: Indexer, drive: Drive, clock: Clock, fuel: nat) returns (last: Indexer)
    requires |st.queue| > 0 && fuel > 0 && Fails(drive(st.queue[0]))
    ensures Loop(st, drive, clock, fuel) == Some(last)
    ensures last.dequeued == st.dequeued + [st.queue[0]]
    ensures last.progress.status == Error
  {
    var f := st.queue[0];
    LoopStep(st, drive, clock, fuel);
    DrainPagesEffect(Dequeue(st), f, drive(f), clock);
    ProcessFilesQueue(Dequeue(st), f, Read(drive(f)), clock);
    last := Abort(Drained(st, drive, clock), FailureMessage(drive(f)));
  }

  lemma {:induction false} LoopFollowsVisits(st: Indexer, drive: Drive, clock: Clock, fuel: nat) returns (last: Indexer)
    requires Visits(drive, st.queue, fuel).Some?
    requires forall f :: f in Visits(drive, st.queue, fuel).value ==> !Fails(drive(f))
    ensures Loop(st, drive, clock, fuel) == Some(last)
    ensures last.dequeued == st.dequeued + Visits(drive, st.queue, fuel).value
    ensures last.progress.status == Completed
    decreases fuel
  {
    if |st.queue| > 0 {
      VisitsTurn(drive, st.queue, fuel, st.dequeued);
      var next := Turn(st, drive, clock, fuel);
      last := LoopFollowsVisits(next, drive, clock, fuel - 1);
    } else {
      last := Complete(st);
      assert st.dequeued + [] == st.dequeued;
    }
  }

  /**
   * When no folder of the plain queue simulation fails, the indexer
   * dequeues exactly the simulated folders, in the simulated order, and
   * completes.
   */
  lemma LoopVisits(st: Indexer, drive: Drive, clock: Clock, fuel: nat)
    requires Visits(drive, st.queue, fuel).Some?
    requires forall f :: f in Visits(drive, st.queue, fuel).value ==> !Fails(drive(f))
    ensures Loop(st, drive, clock, fuel).Some?
    ensures Loop(st, drive, clock, fuel).value.dequeued == st.dequeued + Visits(drive, st.queue, fuel).value
    ensures Loop(st, drive, clock, fuel).value.progress.status == Completed
  {
    var last := LoopFollowsVisits(st, drive, clock, fuel);
  }

  /** More fuel never changes a finished run. */
  lemma {:induction false} FuelMonotone(st: Indexer, drive: Drive, clock: Clock, fuel: nat, more: nat)
    requires Loop(st, drive, clock, fuel).Some? && fuel <= more
    ensures Loop(st, drive, clock, more) == Loop(st, drive, clock, fuel)
    decreases fuel
  {
    if |st.queue| > 0 {
      if Fails(drive(st.queue[0])) {
        LoopStep(st, drive, clock, fuel);
        LoopStep(st, drive, clock, more);
      } else {
        var next := Turn(st, drive, clock, fuel);
        var next' := Turn(st, drive, clock, more);
        FuelMonotone(next, drive, clock, fuel - 1, more - 1);
      }
    }
  }

  /** The total of `size` over a queue. */
  function SizeOf(size: string -> nat, ids: seq<string>): nat {
    if |ids| == 0 then 0 else size(ids[0]) + SizeOf(size, ids[1..])
  }

  lemma {:induction false} SizeOfAppend(size: string -> nat, a: seq<string>, b: seq<string>)
    ensures SizeOf(size, a + b) == SizeOf(size, a) + SizeOf(size, b)
  {
    if |a| > 0 {
      assert (a + b)[1..] == a[1..] + b;
      SizeOfAppend(size, a[1..], b);
    } else {
      assert a + b == b;
    }
  }

  /**
   * `size` bounds the folder tree below the folders in `reach`: a folder of
   * `reach` whose listing succeeds lists only folders of `reach`, and is
   * larger than all of them together, as the subtree size of a finite tree
   * is; one whose listing fails has a positive size. Nothing is asked of
   * folders outside `reach`.
   */
  ghost predicate SubtreeBound(drive: Drive, size: string -> nat, reach: set<string>) {
    forall f :: f in reach ==>
      if Fails(drive(f)) then size(f) > 0
      else
        && size(f) > SizeOf(size, ChildFolders(Read(drive(f))))
        && forall c :: c in ChildFolders(Read(drive(f))) ==> c in reach
  }

  /** On a bounded tree, fuel equal to the queued folders' total size suffices. */
  lemma {:induction false} EnoughFuel(st: Indexer, drive: Drive, clock: Clock, size: string -> nat, reach: set<string>, fuel: nat)
    requires SubtreeBound(drive, size, reach)
    requires forall f :: f in st.queue ==> f in reach
    requires SizeOf(size, st.queue) <= fuel
    ensures Loop(st, drive, clock, fuel).Some?
    decreases fuel
  {
    if |st.queue| > 0 {
      BoundAtHead(drive, size, reach, st.queue);
      if Fails(drive(st.queue[0])) {
        var last := FailingTurn(st, drive, clock, fuel);
      } else {
        var next := Turn(st, drive, clock, fuel);
        EnoughFuel(next, drive, clock, size, reach, fuel - 1);
      }
    }
  }

  /** A turn on a bounded queue leaves a smaller queue within `reach`, or ends the run. */
  lemma BoundAtHead(drive: Drive, size: string -> nat, reach: set<string>, queue: seq<string>)
    requires SubtreeBound(drive, size, reach)
    requires |queue| > 0 && forall f :: f in queue ==> f in reach
    ensures 0 < SizeOf(size, queue)
    ensures !Fails(drive(queue[0])) ==>
      && SizeOf(size, Rest(drive, queue)) < SizeOf(size, queue)
      && forall g :: g in Rest(drive, queue) ==> g in reach
  {
    var f := queue[0];
    assert f in reach;
    if !Fails(drive(f)) {
      var children := ChildFolders(Read(drive(f)));
      SizeShrinks(size, queue, children);
      assert forall g :: g in queue[1..] ==> g in queue;
    }
  }

  /** Replacing the head of a queue by folders of smaller total size shrinks the queue's size. */
  lemma SizeShrinks(size: string -> nat, queue: seq<string>, children: seq<string>)
    requires |queue| > 0 && size(queue[0]) > SizeOf(size, children)
    ensures 0 < SizeOf(size, queue)
    ensures SizeOf(size, queue[1..] + children) < SizeOf(size, queue)
  {
    SizeOfAppend(size, queue[1..], children);
  }

  /**
   * The indexer terminates on every folder tree under the root that has a
   * subtree-size bound; the root's bound is fuel enough. Folders the root
   * does not reach may list anything, cycles included.
   */
  lemma Terminates(drive: Drive, clock: Clock, root: string, size: string -> nat, reach: set<string>)
    requires root in reach && SubtreeBound(drive, size, reach)
    ensures FetchFilesRecursively(drive, clock, root, size(root)).Some?
  {
    var st := Start(root);
    assert SizeOf(size, st.queue) == size(root);
    EnoughFuel(st, drive, clock, size, reach, size(root));
  }
}
