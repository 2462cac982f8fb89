/**
 * The local registry: an object store of media files keyed by `id`, with
 * upsert, clear and a full re-read that republishes the store's contents.
 *
 * The store is represented the way a full read returns it: the records in
 * ascending key order, one per key. `Contents` is the keyed map it stands
 * for. Every operation is a silent no-op while the database handle has not
 * been opened (`ready` is false).
 */
module Registry {
  import opened Types

  /** Ascending order of string keys: lexicographic on characters. */
  predicate KeyLess(a: string, b: string)
    decreases |a|
  {
    if |a| == 0 then |b| > 0
    else if |b| == 0 then false
    else if a[0] != b[0] then a[0] < b[0]
    else KeyLess(a[1..], b[1..])
  }

  lemma {:induction false} KeyLessIrreflexive(a: string)
    ensures !KeyLess(a, a)
    decreases |a|
  {
    if |a| > 0 {
      KeyLessIrreflexive(a[1..]);
    }
  }

  lemma {:induction false} KeyLessTotal(a: string, b: string)
    requires a != b
    ensures KeyLess(a, b) || KeyLess(b, a)
    decreases |a|
  {
    if |a| > 0 && |b| > 0 && a[0] == b[0] {
      assert a == [a[0]] + a[1..] && b == [b[0]] + b[1..];
      KeyLessTotal(a[1..], b[1..]);
    }
  }

  lemma {:induction false} KeyLessTransitive(a: string, b: string, c: string)
    requires KeyLess(a, b) && KeyLess(b, c)
    ensures KeyLess(a, c)
    decreases |a|
  {
    if |a| > 0 && a[0] == b[0] && b[0] == c[0] {
      KeyLessTransitive(a[1..], b[1..], c[1..]);
    }
  }

  /** The records are in strictly ascending key order, hence one per key. */
  predicate KeyOrdered(s: seq<MediaFile>) {
    forall i, j :: 0 <= i < j < |s| ==> KeyLess(s[i].id, s[j].id)
  }

  /** No two records share an id. */
  predicate DistinctIds(s: seq<MediaFile>) {
    forall i, j :: 0 <= i < j < |s| ==> s[i].id != s[j].id
  }

  /** The keyed map a record list stands for. */
  function Contents(s: seq<MediaFile>): map<string, MediaFile> {
    if |s| == 0 then map[] else Contents(s[1..])[s[0].id := s[0]]
  }

  lemma {:induction false} ContentsKeys(s: seq<MediaFile>)
    ensures forall k :: k in Contents(s) <==> exists i :: 0 <= i < |s| && s[i].id == k
  {
    if |s| > 0 {
      ContentsKeys(s[1..]);
      forall k | k in Contents(s)
        ensures exists i :: 0 <= i < |s| && s[i].id == k
      {
        if k != s[0].id {
          assert k in Contents(s[1..]);
          var i :| 0 <= i < |s[1..]| && s[1..][i].id == k;
          assert s[i + 1].id == k;
        }
      }
      forall k | exists i :: 0 <= i < |s| && s[i].id == k
        ensures k in Contents(s)
      {
        var i :| 0 <= i < |s| && s[i].id == k;
        if i > 0 {
          assert s[1..][i - 1].id == k;
        }
      }
    }
  }

  lemma OrderedDistinct(s: seq<MediaFile>)
    requires KeyOrdered(s)
    ensures DistinctIds(s)
  {
    forall i, j | 0 <= i < j < |s|
      ensures s[i].id != s[j].id
    {
      KeyLessIrreflexive(s[i].id);
    }
  }

  /** The first record's id is none of the later ones. */
  lemma HeadIdFresh(s: seq<MediaFile>)
    requires |s| > 0 && DistinctIds(s)
    ensures s[0].id !in Contents(s[1..])
  {
    ContentsKeys(s[1..]);
  }

  /**
   * A list without repeated ids holds each of its records under the
   * record's own id, has exactly as many entries as keys, and holds
   * nothing else.
   */
  lemma {:induction false} ContentsOfDistinct(s: seq<MediaFile>)
    requires DistinctIds(s)
    ensures |Contents(s)| == |s|
    ensures forall i :: 0 <= i < |s| ==> s[i].id in Contents(s) && Contents(s)[s[i].id] == s[i]
    ensures forall x :: x in s <==> x.id in Contents(s) && Contents(s)[x.id] == x
  {
    if |s| > 0 {
      var t := s[1..];
      assert DistinctIds(t);
      ContentsOfDistinct(t);
      HeadIdFresh(s);
      var m := Contents(t);
      assert Contents(s) == m[s[0].id := s[0]];
      assert |Contents(s)| == |m| + 1;
      forall i | 0 <= i < |s|
        ensures s[i].id in Contents(s) && Contents(s)[s[i].id] == s[i]
      {
        if i > 0 {
          assert s[i] == t[i - 1];
        }
      }
      forall x: MediaFile | x.id in Contents(s) && Contents(s)[x.id] == x
        ensures x in s
      {
        if x.id != s[0].id {
          assert x in t;
        }
      }
    }
  }

  lemma ContentsOfOrdered(s: seq<MediaFile>)
    requires KeyOrdered(s)
    ensures DistinctIds(s)
    ensures |Contents(s)| == |s|
    ensures forall i :: 0 <= i < |s| ==> s[i].id in Contents(s) && Contents(s)[s[i].id] == s[i]
    ensures forall x :: x in s <==> x.id in Contents(s) && Contents(s)[x.id] == x
  {
    OrderedDistinct(s);
    ContentsOfDistinct(s);
  }

  /** `store.put(file)` on the key-ordered record list: replace in place or insert at its key. */
  function Put(s: seq<MediaFile>, f: MediaFile): seq<MediaFile> {
    if |s| == 0 then [f]
    else if s[0].id == f.id then [f] + s[1..]
    else if KeyLess(f.id, s[0].id) then [f] + s
    else [s[0]] + Put(s[1..], f)
  }

  /** Every key of the list lies above `b`. */
  predicate Above(b: string, s: seq<MediaFile>) {
    forall j :: 0 <= j < |s| ==> KeyLess(b, s[j].id)
  }

  lemma {:induction false} PutAbove(s: seq<MediaFile>, f: MediaFile, b: string)
    requires Above(b, s) && KeyLess(b, f.id)
    ensures Above(b, Put(s, f))
  {
    if |s| > 0 && s[0].id != f.id && !KeyLess(f.id, s[0].id) {
      PutAbove(s[1..], f, b);
    }
  }

  /** A put keeps the list key-ordered. */
  lemma {:induction false} PutOrdered(s: seq<MediaFile>, f: MediaFile)
    requires KeyOrdered(s)
    ensures KeyOrdered(Put(s, f))
  {
    if |s| == 0 {
    } else if s[0].id == f.id {
    } else if KeyLess(f.id, s[0].id) {
      forall j | 0 < j < |s|
        ensures KeyLess(f.id, s[j].id)
      {
        KeyLessTransitive(f.id, s[0].id, s[j].id);
      }
    } else {
      KeyLessTotal(f.id, s[0].id);
      assert KeyOrdered(s[1..]);
      PutOrdered(s[1..], f);
      assert Above(s[0].id, s[1..]);
      PutAbove(s[1..], f, s[0].id);
    }
  }

  /** A put maps the record's id to the record and leaves every other key as it was. */
  lemma {:induction false} PutContents(s: seq<MediaFile>, f: MediaFile)
    ensures Contents(Put(s, f)) == Contents(s)[f.id := f]
  {
    if |s| == 0 {
    } else if s[0].id == f.id {
      assert ([f] + s[1..])[1..] == s[1..];
    } else if KeyLess(f.id, s[0].id) {
      assert ([f] + s)[1..] == s;
    } else {
      var rest := Put(s[1..], f);
      PutContents(s[1..], f);
      var t := [s[0]] + rest;
      assert t[1..] == rest;
      assert Contents(t) == Contents(rest)[s[0].id := s[0]];
    }
  }

  /**
   * A put keeps the list key-ordered, maps the record's id to the record
   * and leaves every other key as it was.
   */
  lemma PutSpec(s: seq<MediaFile>, f: MediaFile)
    requires KeyOrdered(s)
    ensures KeyOrdered(Put(s, f))
    ensures Contents(Put(s, f)) == Contents(s)[f.id := f]
  {
    PutOrdered(s, f);
    PutContents(s, f);
  }

  /** Writing the same id twice keeps only the second record. */
  lemma {:induction false} PutSameIdTwice(s: seq<MediaFile>, a: MediaFile, b: MediaFile)
    requires KeyOrdered(s) && a.id == b.id
    ensures Put(Put(s, a), b) == Put(s, b)
  {
    if |s| > 0 && s[0].id != a.id && !KeyLess(a.id, s[0].id) {
      PutSameIdTwice(s[1..], a, b);
    }
  }

  /** The registry hook's state. */
  datatype Registry = Registry(
    ready: bool,                // the database handle is open
    store: seq<MediaFile>,      // the object store, in key order
    registry: seq<MediaFile>)   // the list last published to the UI

  ghost predicate Valid(st: Registry) {
    KeyOrdered(st.store)
  }

  /** The published list shows exactly the stored records, one per id. */
  ghost predicate Publishes(st: Registry) {
    && DistinctIds(st.registry)
    && forall x :: x in st.registry <==> x.id in Contents(st.store) && Contents(st.store)[x.id] == x
  }

  /** Before the handle opens: nothing published, the persisted store untouched. */
  function Initial(persisted: seq<MediaFile>): (st: Registry)
    requires KeyOrdered(persisted)
    ensures Valid(st) && !st.ready && st.registry == []
    ensures Contents(st.store) == Contents(persisted)
  {
    Registry(false, persisted, [])
  }

  /** `getAll` and publish; a no-op while the handle is not open. */
  function Refresh(st: Registry): (r: Registry)
    requires Valid(st)
    ensures Valid(r) && r.ready == st.ready && r.store == st.store
    ensures !st.ready ==> r == st
    ensures st.ready ==> Publishes(r)
  {
    ContentsOfOrdered(st.store);
    if !st.ready then st else st.(registry := st.store)
  }

  /** The handle opens; the effect that watches it re-reads the store. */
  function Open(st: Registry): (r: Registry)
    requires Valid(st)
    ensures Valid(r) && r.ready && r.store == st.store
    ensures Publishes(r)
  {
    Refresh(st.(ready := true))
  }

  /** `upsertMedia`: put by id (last write wins), then re-read. */
  function Upsert(st: Registry, f: MediaFile): (r: Registry)
    requires Valid(st)
    ensures Valid(r) && r.ready == st.ready
    ensures !st.ready ==> r == st
    ensures st.ready ==> Contents(r.store) == Contents(st.store)[f.id := f]
    ensures st.ready ==> |r.store| == |st.store| + (if f.id in Contents(st.store) then 0 else 1)
    ensures st.ready ==> Publishes(r)
  {
    if !st.ready then st
    else
      var s := Put(st.store, f);
      PutSpec(st.store, f);
      ContentsOfOrdered(st.store);
      ContentsOfOrdered(s);
      Refresh(st.(store := s))
  }

  /** `clearRegistry`: delete every record, then re-read. */
  function Clear(st: Registry): (r: Registry)
    requires Valid(st)
    ensures Valid(r) && r.ready == st.ready
    ensures !st.ready ==> r == st
    ensures st.ready ==> Contents(r.store) == map[] && r.registry == [] && Publishes(r)
  {
    if !st.ready then st else Refresh(st.(store := []))
  }

  /** A call the app makes on the registry hook. */
  datatype Op = UpsertOp(file: MediaFile) | ClearOp | RefreshOp

  function Apply(st: Registry, op: Op): (r: Registry)
    requires Valid(st)
    ensures Valid(r) && r.ready == st.ready
    ensures !st.ready ==> r == st
  {
    match op
    case UpsertOp(f) => Upsert(st, f)
    case ClearOp => Clear(st)
    case RefreshOp => Refresh(st)
  }

  /** The calls `ops`, in order. */
  function Session(st: Registry, ops: seq<Op>): (r: Registry)
    requires Valid(st)
    ensures Valid(r) && r.ready == st.ready
    decreases |ops|
  {
    if |ops| == 0 then st else Session(Apply(st, ops[0]), ops[1..])
  }

  /** While the handle is not open, every call returns at once and changes nothing. */
  lemma {:induction false} ClosedSessionIgnored(st: Registry, ops: seq<Op>)
    requires Valid(st) && !st.ready
    ensures Session(st, ops) == st
    decreases |ops|
  {
    if |ops| > 0 {
      ClosedSessionIgnored(Apply(st, ops[0]), ops[1..]);
    }
  }

  /**
   * Upserts, clears and refreshes made before the handle opens are dropped:
   * the registry is still the initial one, and once the handle opens it
   * publishes exactly the persisted records, one per id.
   */
  lemma {:induction false} PreOpenSession(persisted: seq<MediaFile>, ops: seq<Op>)
    requires KeyOrdered(persisted)
    ensures Session(Initial(persisted), ops) == Initial(persisted)
    ensures var r := Open(Session(Initial(persisted), ops));
      && r.store == persisted
      && DistinctIds(r.registry)
      && forall x :: x in r.registry <==> x.id in Contents(persisted) && Contents(persisted)[x.id] == x
  {
    ClosedSessionIgnored(Initial(persisted), ops);
  }

  /** Upserting two records with the same id leaves the second, and the store no larger. */
  lemma UpsertSameIdTwice(st: Registry, a: MediaFile, b: MediaFile)
    requires Valid(st) && a.id == b.id
    ensures Upsert(Upsert(st, a), b) == Upsert(st, b)
    ensures |Upsert(Upsert(st, a), b).store| == |Upsert(st, a).store|
    ensures st.ready ==> Contents(Upsert(Upsert(st, a), b).store)[a.id] == b
  {
    if st.ready {
      PutSameIdTwice(st.store, a, b);
      PutSpec(st.store, a);
      PutSpec(Put(st.store, a), b);
      ContentsOfOrdered(Put(st.store, a));
      ContentsOfOrdered(Put(Put(st.store, a), b));
    }
  }

  /** Every discovered file handed to `upsertMedia`, in order. */
  function UpsertAll(st: Registry, fs: seq<MediaFile>): (r: Registry)
    requires Valid(st)
    ensures Valid(r) && r.ready == st.ready
    decreases |fs|
  {
    if |fs| == 0 then st else UpsertAll(Upsert(st, fs[0]), fs[1..])
  }

  /** The map after writing `fs` in order over `m`, later writes winning. */
  function Overwrite(m: map<string, MediaFile>, fs: seq<MediaFile>): map<string, MediaFile>
    decreases |fs|
  {
    if |fs| == 0 then m else Overwrite(m[fs[0].id := fs[0]], fs[1..])
  }

  /**
   * Indexing into an open registry leaves the old contents overwritten by
   * the discovered files, later discoveries winning; into a registry whose
   * handle is not open it leaves everything as it was.
   */
  lemma {:induction false} UpsertAllContents(st: Registry, fs: seq<MediaFile>)
    requires Valid(st)
    ensures st.ready ==> Contents(UpsertAll(st, fs).store) == Overwrite(Contents(st.store), fs)
    ensures st.ready && |fs| > 0 ==> Publishes(UpsertAll(st, fs))
    ensures !st.ready ==> UpsertAll(st, fs) == st
    decreases |fs|
  {
    if |fs| > 0 {
      UpsertAllContents(Upsert(st, fs[0]), fs[1..]);
      if |fs| == 1 {
        assert UpsertAll(Upsert(st, fs[0]), fs[1..]) == Upsert(st, fs[0]);
      }
    }
  }

  /** The last file written under an id is the one the map keeps. */
  lemma {:induction false} OverwriteLastWins(m: map<string, MediaFile>, fs: seq<MediaFile>, k: nat)
    requires k < |fs|
    requires forall j :: k < j < |fs| ==> fs[j].id != fs[k].id
    ensures fs[k].id in Overwrite(m, fs) && Overwrite(m, fs)[fs[k].id] == fs[k]
    decreases |fs|
  {
    if k > 0 {
      OverwriteLastWins(m[fs[0].id := fs[0]], fs[1..], k - 1);
    } else {
      OverwriteKeeps(m[fs[0].id := fs[0]], fs[1..], fs[0].id);
    }
  }

  /** Writes under other ids leave a key's entry alone. */
  lemma {:induction false} OverwriteKeeps(m: map<string, MediaFile>, fs: seq<MediaFile>, key: string)
    requires forall j :: 0 <= j < |fs| ==> fs[j].id != key
    ensures key in m ==> key in Overwrite(m, fs) && Overwrite(m, fs)[key] == m[key]
    ensures key !in m ==> key !in Overwrite(m, fs)
    decreases |fs|
  {
    if |fs| > 0 {
      OverwriteKeeps(m[fs[0].id := fs[0]], fs[1..], key);
    }
  }
}
