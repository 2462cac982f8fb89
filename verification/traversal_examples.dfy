/**
 * Two small folder trees on which the indexer's order is worked out in
 * full: breadth-first folder order, and every page of a folder read before
 * the next folder.
 */
module TraversalExamples {
  import opened Types
  import opened Listing
  import opened Traversal
  import opened Text
  import Registry

  function Folder(id: string): Entry {
    Entry(id, id, FolderMimeType, None, None)
  }

  function Video(id: string): Entry {
    Entry(id, id, "video/mp4", Some("1024"), None)
  }

  /** root lists F1 and F2; F1 lists F3; every other folder is empty. */
  function Tree(): Drive {
    (id: string) =>
      if id == "root" then LastPage([Folder("F1"), Folder("F2")])
      else if id == "F1" then LastPage([Folder("F3")])
      else LastPage([])
  }

  lemma TreeChildren()
    ensures ChildFolders(Read(Tree()("root"))) == ["F1", "F2"]
    ensures ChildFolders(Read(Tree()("F1"))) == ["F3"]
    ensures forall id :: id != "root" && id != "F1" ==> ChildFolders(Read(Tree()(id))) == []
    ensures forall id :: !Fails(Tree()(id))
  {
    assert Read(Tree()("root")) == [Folder("F1"), Folder("F2")];
    assert ChildFolders([Folder("F2")]) == ["F2"];
    assert Read(Tree()("F1")) == [Folder("F3")];
  }

  lemma TreeRests()
    ensures Rest(Tree(), ["root"]) == ["F1", "F2"]
    ensures Rest(Tree(), ["F1", "F2"]) == ["F2", "F3"]
    ensures Rest(Tree(), ["F2", "F3"]) == ["F3"]
    ensures Rest(Tree(), ["F3"]) == []
  {
    TreeChildren();
  }

  /** The queue simulation on `Tree`, turn by turn. */
  lemma TreeVisits()
    ensures Visits(Tree(), ["root"], 4) == Some(["root", "F1", "F2", "F3"])
  {
    TreeRests();
    var d := Tree();
    assert Visits(d, [], 0) == Some([]);
    VisitsStep(d, ["F3"], 1, []);
    VisitsStep(d, ["F2", "F3"], 2, ["F3"]);
    assert ["F1"] + ["F2", "F3"] == ["F1", "F2", "F3"];
    VisitsStep(d, ["F1", "F2"], 3, ["F2", "F3"]);
    assert ["root"] + ["F1", "F2", "F3"] == ["root", "F1", "F2", "F3"];
    VisitsStep(d, ["root"], 4, ["F1", "F2", "F3"]);
  }

  /** The dequeue order on `Tree` is root, F1, F2, F3: F3 waits behind F2. */
  lemma BreadthFirstOrder(clock: Clock)
    ensures FetchFilesRecursively(Tree(), clock, "root", 4).Some?
    ensures FetchFilesRecursively(Tree(), clock, "root", 4).value.dequeued == ["root", "F1", "F2", "F3"]
    ensures FetchFilesRecursively(Tree(), clock, "root", 4).value.progress.status == Completed
  {
    TreeChildren();
    TreeVisits();
    LoopVisits(Start("root"), Tree(), clock, 4);
  }

  /** root lists A then B; A answers in two pages of 3 and 2 videos; B holds one video. */
  function Paged(): Drive {
    (id: string) =>
      if id == "root" then LastPage([Folder("A"), Folder("B")])
      else if id == "A" then Page([Video("a1"), Video("a2"), Video("a3")], "next", LastPage([Video("a4"), Video("a5")]))
      else if id == "B" then LastPage([Video("b1")])
      else LastPage([])
  }

  /** A listing of media entries only: each is discovered in place, none is queued. */
  lemma {:induction false} AllMedia(parent: string, files: seq<Entry>)
    requires forall k :: 0 <= k < |files| ==> IsMediaType(files[k].mimeType)
    ensures Discovered(parent, files) == seq(|files|, k requires 0 <= k < |files| => Discovery(parent, files[k]))
    ensures ChildFolders(files) == []
  {
    if |files| > 0 {
      AllMedia(parent, files[1..]);
    }
  }

  lemma PagedListing()
    ensures Read(Paged()("root")) == [Folder("A"), Folder("B")]
    ensures ChildFolders(Read(Paged()("root"))) == ["A", "B"]
    ensures Discovered("root", Read(Paged()("root"))) == []
    ensures ChildFolders(Read(Paged()("A"))) == [] && ChildFolders(Read(Paged()("B"))) == []
    ensures |Discovered("A", Read(Paged()("A")))| == 5
    ensures forall k :: 0 <= k < 5 ==> Discovered("A", Read(Paged()("A")))[k].parent == "A"
    ensures |Discovered("B", Read(Paged()("B")))| == 1 && Discovered("B", Read(Paged()("B")))[0].parent == "B"
  {
    assert ChildFolders([Folder("B")]) == ["B"];
    var a := Read(Paged()("A"));
    assert a == [Video("a1"), Video("a2"), Video("a3"), Video("a4"), Video("a5")];
    assert StartsWith("video/mp4", "video/");
    AllMedia("A", a);
    AllMedia("B", Read(Paged()("B")));
  }

  lemma PagedChildren()
    ensures ChildFolders(Read(Paged()("root"))) == ["A", "B"]
    ensures forall id :: id != "root" ==> ChildFolders(Read(Paged()(id))) == []
    ensures forall id :: !Fails(Paged()(id))
  {
    PagedListing();
  }

  lemma PagedRests()
    ensures Rest(Paged(), ["root"]) == ["A", "B"]
    ensures Rest(Paged(), ["A", "B"]) == ["B"]
    ensures Rest(Paged(), ["B"]) == []
  {
    PagedChildren();
  }

  lemma PagedVisits()
    ensures Visits(Paged(), ["root"], 3) == Some(["root", "A", "B"])
  {
    PagedRests();
    var d := Paged();
    assert Visits(d, [], 0) == Some([]);
    VisitsStep(d, ["B"], 1, []);
    assert ["A"] + ["B"] == ["A", "B"];
    VisitsStep(d, ["A", "B"], 2, ["B"]);
    assert ["root"] + ["A", "B"] == ["root", "A", "B"];
    VisitsStep(d, ["root"], 3, ["A", "B"]);
  }

  lemma PagedRun(clock: Clock)
    ensures FetchFilesRecursively(Paged(), clock, "root", 3).Some?
    ensures FetchFilesRecursively(Paged(), clock, "root", 3).value.dequeued == ["root", "A", "B"]
  {
    PagedChildren();
    PagedVisits();
    LoopVisits(Start("root"), Paged(), clock, 3);
  }

  lemma PagedFound()
    ensures Found(Paged(), ["root", "A", "B"]) == Discovered("A", Read(Paged()("A"))) + Discovered("B", Read(Paged()("B")))
  {
    PagedListing();
    var d := Paged();
    var ds := ["root", "A", "B"];
    assert ds[..2] == ["root", "A"] && ds[..2][..1] == ["root"] && ds[..2][..1][..0] == [];
    assert Found(d, ["root"]) == [] by {
      assert Found(d, ["root"]) == Found(d, []) + Discovered("root", Read(d("root")));
    }
    assert Found(d, ["root", "A"]) == Discovered("A", Read(d("A")));
  }

  /** The run on `Paged`, named by its final state: A's discoveries, then B's, stamped in order. */
  lemma PagedOutcome(clock: Clock) returns (r: Indexer)
    ensures FetchFilesRecursively(Paged(), clock, "root", 3) == Some(r)
    ensures r.emitted == Stamp(Discovered("A", Read(Paged()("A"))) + Discovered("B", Read(Paged()("B"))), clock, 0)
  {
    PagedRun(clock);
    PagedFound();
    r := FetchFilesRecursively(Paged(), clock, "root", 3).value;
  }

  /**
   * Both pages of A, all five of its videos, are emitted before anything
   * from B, which comes next in the queue.
   */
  lemma PagesDrainedFirst(clock: Clock)
    ensures FetchFilesRecursively(Paged(), clock, "root", 3).Some?
    ensures var r := FetchFilesRecursively(Paged(), clock, "root", 3).value;
      && |r.emitted| == 6
      && (forall k :: 0 <= k < 5 ==> r.emitted[k].parentFolderId == Some("A"))
      && r.emitted[5].parentFolderId == Some("B")
  {
    var r := PagedOutcome(clock);
    PagedListing();
    var da := Discovered("A", Read(Paged()("A")));
    var db := Discovered("B", Read(Paged()("B")));
    StampAt(da + db, clock, 0);
    assert (da + db)[5] == db[0];
  }

  /** root lists a video, then folder X, whose listing fails without a message. */
  function Failing(): Drive {
    (id: string) =>
      if id == "root" then LastPage([Video("v1"), Folder("X")])
      else if id == "X" then ListError(None)
      else LastPage([])
  }

  lemma FailingListing()
    ensures Read(Failing()("root")) == [Video("v1"), Folder("X")]
    ensures ChildFolders(Read(Failing()("root"))) == ["X"]
    ensures Discovered("root", Read(Failing()("root"))) == [Discovery("root", Video("v1"))]
    ensures !Fails(Failing()("root")) && Fails(Failing()("X")) && FailureMessage(Failing()("X")) == None
  {
    var d := Failing();
    assert Classify("video/mp4") == MediaKind by {
      assert StartsWith("video/mp4", "video/");
    }
    assert ChildFolders([Folder("X")]) == ["X"];
    assert Discovered("root", [Folder("X")]) == [];
  }

  /** The outer loop on `Failing`: root drains, then X fails. */
  lemma FailingRun(clock: Clock)
    ensures var r := Loop(Start("root"), Failing(), clock, 2);
      r.Some? && r.value.dequeued == ["root", "X"] && r.value.progress.status == Error
  {
    var d := Failing();
    FailingListing();
    var s0 := Start("root");
    var s1 := Turn(s0, d, clock, 2);
    assert s1.queue == ["X"] && s1.dequeued == ["root"];
    var last := FailingTurn(s1, d, clock, 1);
  }

  lemma FailingFound()
    ensures Found(Failing(), ["root", "X"]) == [Discovery("root", Video("v1"))]
  {
    var d := Failing();
    FailingListing();
    var ds := ["root", "X"];
    assert ds[..1] == ["root"] && ds[..1][..0] == [];
    assert Found(d, ["root"]) == Discovered("root", Read(d("root")));
  }

  /** The run on `Failing`, named by its final state. */
  lemma FailingOutcome(clock: Clock) returns (r: Indexer)
    ensures FetchFilesRecursively(Failing(), clock, "root", 2) == Some(r)
    ensures r.progress.status == Error
    ensures r.progress.error == Some("Unknown error during indexing")
    ensures r.progress.foldersProcessed == 1
    ensures |r.emitted| == 1 && r.emitted[0].id == "v1"
  {
    FailingRun(clock);
    FailingListing();
    FailingFound();
    r := FetchFilesRecursively(Failing(), clock, "root", 2).value;
    assert r.dequeued[1] == "X";
  }

  /**
   * A failure at the second folder ends the run in ERROR with the fallback
   * message and one folder published; the video found in the first folder
   * was emitted and stays in an open registry.
   */
  lemma FailureKeepsEarlierRecords(clock: Clock, persisted: seq<MediaFile>)
    requires Registry.KeyOrdered(persisted)
    ensures FetchFilesRecursively(Failing(), clock, "root", 2).Some?
    ensures var r := FetchFilesRecursively(Failing(), clock, "root", 2).value;
      && r.progress.status == Error
      && r.progress.error == Some("Unknown error during indexing")
      && r.progress.foldersProcessed == 1
      && |r.emitted| == 1 && r.emitted[0].id == "v1"
      && var reg := Registry.UpsertAll(Registry.Open(Registry.Initial(persisted)), r.emitted);
         "v1" in Registry.Contents(reg.store) && Registry.Contents(reg.store)["v1"] == r.emitted[0]
  {
    var r := FailingOutcome(clock);
    var reg0 := Registry.Open(Registry.Initial(persisted));
    Registry.UpsertAllContents(reg0, r.emitted);
    Registry.OverwriteLastWins(Registry.Contents(reg0.store), r.emitted, 0);
  }

  /** root lists F1; a folder x that the root never reaches lists itself. */
  function CycleAside(): Drive {
    (id: string) =>
      if id == "root" then LastPage([Folder("F1")])
      else if id == "x" then LastPage([Folder("x")])
      else LastPage([])
  }

  function AsideSize(id: string): nat {
    if id == "root" then 2 else 1
  }

  /** The tree under the root is bounded; x, outside it, needs no bound. */
  lemma CycleAsideBounded()
    ensures SubtreeBound(CycleAside(), AsideSize, {"root", "F1"})
  {
    ChildFoldersOne(Folder("F1"));
    assert Read(CycleAside()("root")) == [Folder("F1")];
    assert SizeOf(AsideSize, ["F1"]) == 1;
  }

  /** A cycle among folders the root does not reach leaves the run finite. */
  lemma CycleAsideTerminates(clock: Clock)
    ensures FetchFilesRecursively(CycleAside(), clock, "root", 2).Some?
  {
    CycleAsideBounded();
    Terminates(CycleAside(), clock, "root", AsideSize, {"root", "F1"});
  }

  /**
   * root is empty; a folder X that the root never reaches lists itself on
   * a first page, and the request for its next page fails.
   */
  function SelfQueued(): Drive {
    (id: string) =>
      if id == "X" then Page([Folder("X")], "next", ListError(None))
      else LastPage([])
  }

  /**
   * Every finished run on `SelfQueued` dequeues the root alone: X is never
   * dequeued, because no folder dequeued before it queued it.
   */
  lemma UnreachedNeverVisited(clock: Clock, r: Indexer)
    requires Outcome(r, SelfQueued(), clock, "root")
    ensures r.dequeued == ["root"]
  {
    assert ChildFolders(Read(SelfQueued()("root"))) == [];
    LeafRootAlone(SelfQueued(), clock, "root", r);
  }
}
