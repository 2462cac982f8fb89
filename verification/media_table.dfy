/**
 * The registry table: the search box filters the registry by name or MIME
 * type, ignoring case, and shows the matches newest first; each row gets an
 * icon from its MIME type and a shortened checksum.
 */
module MediaTable {
  import opened Types
  import opened Text
  import opened Listing

  /** The search term occurs, ignoring case, in the file's name or in its MIME type. */
  predicate Matches(f: MediaFile, term: string) {
    Includes(Lower(f.name), Lower(term)) || Includes(Lower(f.mimeType), Lower(term))
  }

  /** `files.filter(...)`: the matching files, in registry order. */
  function Filter(files: seq<MediaFile>, term: string): (r: seq<MediaFile>)
    ensures |r| <= |files|
  {
    if |files| == 0 then []
    else (if Matches(files[0], term) then [files[0]] else []) + Filter(files[1..], term)
  }

  /** The search keeps exactly the matching files, each as often as the registry holds it. */
  lemma {:induction false} FilterSpec(files: seq<MediaFile>, term: string)
    ensures forall x :: x in Filter(files, term) <==> x in files && Matches(x, term)
    ensures forall x :: multiset(Filter(files, term))[x] == if Matches(x, term) then multiset(files)[x] else 0
  {
    if |files| > 0 {
      FilterSpec(files[1..], term);
      assert files == [files[0]] + files[1..];
    }
  }

  /** Every row shows a file indexed no earlier than the rows below it. */
  predicate NewestFirst(s: seq<MediaFile>) {
    forall i, j :: 0 <= i < j < |s| ==> s[i].indexedAt >= s[j].indexedAt
  }

  /** The files of `s` indexed at time `t`, in their order in `s`. */
  function AtTime(s: seq<MediaFile>, t: int): seq<MediaFile> {
    if |s| == 0 then []
    else (if s[0].indexedAt == t then [s[0]] else []) + AtTime(s[1..], t)
  }

  /** Places `x` ahead of the first file indexed no later than it. */
  function Insert(x: MediaFile, s: seq<MediaFile>): seq<MediaFile> {
    if |s| == 0 then [x]
    else if x.indexedAt >= s[0].indexedAt then [x] + s
    else [s[0]] + Insert(x, s[1..])
  }

  /**
   * `sort((a, b) => b.indexedAt - a.indexedAt)`: a stable sort, newest
   * first; files indexed at the same moment keep their order.
   */
  function SortByRecency(s: seq<MediaFile>): seq<MediaFile> {
    if |s| == 0 then [] else Insert(s[0], SortByRecency(s[1..]))
  }

  /** The rows the table shows for a registry and a search term. */
  function FilteredFiles(files: seq<MediaFile>, term: string): seq<MediaFile> {
    SortByRecency(Filter(files, term))
  }

  /** A file no older than everything in a newest-first sequence may lead it. */
  lemma ConsNewestFirst(h: MediaFile, r: seq<MediaFile>)
    requires NewestFirst(r)
    requires forall y :: y in r ==> y.indexedAt <= h.indexedAt
    ensures NewestFirst([h] + r)
  {
    assert forall j :: 0 <= j < |r| ==> r[j] in r;
  }

  lemma {:induction false} InsertMultiset(x: MediaFile, s: seq<MediaFile>)
    ensures multiset(Insert(x, s)) == multiset(s) + multiset{x}
  {
    if |s| > 0 && x.indexedAt < s[0].indexedAt {
      InsertMultiset(x, s[1..]);
      assert s == [s[0]] + s[1..];
    }
  }

  lemma {:induction false} InsertSpec(x: MediaFile, s: seq<MediaFile>)
    requires NewestFirst(s)
    ensures NewestFirst(Insert(x, s))
    ensures multiset(Insert(x, s)) == multiset(s) + multiset{x}
  {
    InsertMultiset(x, s);
    if |s| == 0 {
    } else if x.indexedAt >= s[0].indexedAt {
      NewestFirstTail(s);
      ConsNewestFirst(x, s);
    } else {
      NewestFirstTail(s);
      InsertSpec(x, s[1..]);
      var r := Insert(x, s[1..]);
      InsertMultiset(x, s[1..]);
      forall y | y in r
        ensures y.indexedAt <= s[0].indexedAt
      {
        assert y in multiset(r);
        if y != x {
          assert y in multiset(s[1..]);
          assert y in s;
        }
      }
      ConsNewestFirst(s[0], r);
    }
  }

  lemma {:induction false} SortMultiset(s: seq<MediaFile>)
    ensures multiset(SortByRecency(s)) == multiset(s)
  {
    if |s| > 0 {
      SortMultiset(s[1..]);
      InsertMultiset(s[0], SortByRecency(s[1..]));
      assert s == [s[0]] + s[1..];
    }
  }

  lemma {:induction false} SortNewestFirst(s: seq<MediaFile>)
    ensures NewestFirst(SortByRecency(s))
  {
    if |s| > 0 {
      SortNewestFirst(s[1..]);
      InsertSpec(s[0], SortByRecency(s[1..]));
    }
  }

  /** The sorted table is newest first and holds the same files, with the same multiplicities. */
  lemma SortSpec(s: seq<MediaFile>)
    ensures NewestFirst(SortByRecency(s))
    ensures multiset(SortByRecency(s)) == multiset(s)
  {
    SortNewestFirst(s);
    SortMultiset(s);
  }

  lemma {:induction false} AtTimeAppend(a: seq<MediaFile>, b: seq<MediaFile>, t: int)
    ensures AtTime(a + b, t) == AtTime(a, t) + AtTime(b, t)
  {
    if |a| > 0 {
      assert (a + b)[1..] == a[1..] + b;
      AtTimeAppend(a[1..], b, t);
    } else {
      assert a + b == b;
    }
  }

  lemma {:induction false} AtTimeInsert(x: MediaFile, s: seq<MediaFile>, t: int)
    ensures AtTime(Insert(x, s), t) == (if x.indexedAt == t then [x] else []) + AtTime(s, t)
  {
    if |s| > 0 && x.indexedAt < s[0].indexedAt {
      AtTimeInsert(x, s[1..], t);
    }
  }

  /** Sorting is stable: the files of any one timestamp appear in their original order. */
  lemma {:induction false} SortStable(s: seq<MediaFile>, t: int)
    ensures AtTime(SortByRecency(s), t) == AtTime(s, t)
  {
    if |s| > 0 {
      SortStable(s[1..], t);
      AtTimeInsert(s[0], SortByRecency(s[1..]), t);
    }
  }

  lemma {:induction false} AtTimeMembers(s: seq<MediaFile>, t: int)
    ensures forall x :: x in AtTime(s, t) <==> x in s && x.indexedAt == t
  {
    if |s| > 0 {
      AtTimeMembers(s[1..], t);
      assert forall x :: x in s <==> x == s[0] || x in s[1..];
    }
  }

  lemma NewestFirstTail(s: seq<MediaFile>)
    requires NewestFirst(s) && |s| > 0
    ensures NewestFirst(s[1..])
    ensures forall x :: x in s ==> x.indexedAt <= s[0].indexedAt
  {
    forall x | x in s
      ensures x.indexedAt <= s[0].indexedAt
    {
      var j :| 0 <= j < |s| && s[j] == x;
    }
  }

  lemma AtTimeNonEmpty(s: seq<MediaFile>)
    requires |s| > 0
    ensures AtTime(s, s[0].indexedAt) != []
  {
  }

  /** In a newest-first sequence the head leads the files of its own timestamp. */
  lemma HeadLeadsItsTime(s: seq<MediaFile>)
    requires NewestFirst(s) && |s| > 0
    ensures AtTime(s, s[0].indexedAt) == [s[0]] + AtTime(s[1..], s[0].indexedAt)
    ensures forall t :: t != s[0].indexedAt ==> AtTime(s, t) == AtTime(s[1..], t)
  {
  }

  /** Two newest-first sequences with the same files at every timestamp start at the same time. */
  lemma SameLeadTime(a: seq<MediaFile>, b: seq<MediaFile>)
    requires NewestFirst(a) && NewestFirst(b) && |a| > 0 && |b| > 0
    requires forall t :: AtTime(a, t) == AtTime(b, t)
    ensures a[0].indexedAt == b[0].indexedAt
  {
    NewestFirstTail(a);
    NewestFirstTail(b);
    AtTimeMembers(a, a[0].indexedAt);
    AtTimeMembers(b, a[0].indexedAt);
    AtTimeMembers(a, b[0].indexedAt);
    AtTimeMembers(b, b[0].indexedAt);
    assert a[0] in AtTime(b, a[0].indexedAt);
    assert b[0] in AtTime(a, b[0].indexedAt);
  }

  /** ... so they share their head, and their tails again agree at every timestamp. */
  lemma HeadsAgree(a: seq<MediaFile>, b: seq<MediaFile>)
    requires NewestFirst(a) && NewestFirst(b) && |a| > 0 && |b| > 0
    requires forall t :: AtTime(a, t) == AtTime(b, t)
    ensures a[0] == b[0]
    ensures forall t :: AtTime(a[1..], t) == AtTime(b[1..], t)
  {
    SameLeadTime(a, b);
    var m := a[0].indexedAt;
    HeadLeadsItsTime(a);
    HeadLeadsItsTime(b);
    assert AtTime(a, m)[0] == a[0] && AtTime(b, m)[0] == b[0];
    forall t
      ensures AtTime(a[1..], t) == AtTime(b[1..], t)
    {
      if t == m {
        assert AtTime(a, m)[1..] == AtTime(a[1..], m);
        assert AtTime(b, m)[1..] == AtTime(b[1..], m);
      } else {
        assert AtTime(a, t) == AtTime(b, t);
      }
    }
  }

  /**
   * A newest-first sequence is determined by its files at each timestamp:
   * two that agree there are equal.
   */
  lemma {:induction false} NewestFirstUnique(a: seq<MediaFile>, b: seq<MediaFile>)
    requires NewestFirst(a) && NewestFirst(b)
    requires forall t :: AtTime(a, t) == AtTime(b, t)
    ensures a == b
    decreases |a| + |b|
  {
    if |a| == 0 || |b| == 0 {
      if |a| > 0 {
        AtTimeNonEmpty(a);
      } else if |b| > 0 {
        AtTimeNonEmpty(b);
      }
    } else {
      HeadsAgree(a, b);
      NewestFirstTail(a);
      NewestFirstTail(b);
      NewestFirstUnique(a[1..], b[1..]);
      assert a == [a[0]] + a[1..] && b == [b[0]] + b[1..];
    }
  }

  /** The sort is the only newest-first arrangement of `s` that keeps each timestamp's order. */
  lemma SortCharacterized(s: seq<MediaFile>, r: seq<MediaFile>)
    ensures r == SortByRecency(s) ==> NewestFirst(r) && forall t :: AtTime(r, t) == AtTime(s, t)
    ensures NewestFirst(r) && (forall t :: AtTime(r, t) == AtTime(s, t)) ==> r == SortByRecency(s)
  {
    var sorted := SortByRecency(s);
    SortSpec(s);
    forall t
      ensures AtTime(sorted, t) == AtTime(s, t)
    {
      SortStable(s, t);
    }
    if NewestFirst(r) && forall t :: AtTime(r, t) == AtTime(s, t) {
      NewestFirstUnique(r, sorted);
    }
  }

  lemma {:induction false} FilterAppend(a: seq<MediaFile>, b: seq<MediaFile>, term: string)
    ensures Filter(a + b, term) == Filter(a, term) + Filter(b, term)
  {
    if |a| > 0 {
      assert (a + b)[1..] == a[1..] + b;
      FilterAppend(a[1..], b, term);
    } else {
      assert a + b == b;
    }
  }

  lemma FilterAtTimeOne(x: MediaFile, term: string, t: int)
    ensures AtTime(Filter([x], term), t) == Filter(AtTime([x], t), term)
  {
    assert [x][1..] == [];
  }

  lemma {:induction false} FilterAtTime(files: seq<MediaFile>, term: string, t: int)
    ensures AtTime(Filter(files, term), t) == Filter(AtTime(files, t), term)
  {
    if |files| > 0 {
      var x, rest := files[0], files[1..];
      FilterAtTime(rest, term, t);
      FilterCons(files, term);
      AtTimeCons(files, t);
      FilterAtTimeOne(x, term, t);
      AtTimeAppend(Filter([x], term), Filter(rest, term), t);
      FilterAppend(AtTime([x], t), AtTime(rest, t), term);
    }
  }

  lemma FilterCons(files: seq<MediaFile>, term: string)
    requires |files| > 0
    ensures Filter(files, term) == Filter([files[0]], term) + Filter(files[1..], term)
  {
    assert [files[0]][1..] == [];
  }

  lemma AtTimeCons(files: seq<MediaFile>, t: int)
    requires |files| > 0
    ensures AtTime(files, t) == AtTime([files[0]], t) + AtTime(files[1..], t)
  {
    assert [files[0]][1..] == [];
  }

  /**
   * The table shows exactly the matching files, each as often as the
   * registry holds it, newest first, and files indexed at the same moment
   * in registry order.
   */
  lemma FilteredFilesSpec(files: seq<MediaFile>, term: string)
    ensures var r := FilteredFiles(files, term);
      && NewestFirst(r)
      && (forall x :: multiset(r)[x] == if Matches(x, term) then multiset(files)[x] else 0)
      && (forall x :: x in r <==> x in files && Matches(x, term))
      && (forall t :: AtTime(r, t) == Filter(AtTime(files, t), term))
  {
    var f := Filter(files, term);
    FilterSpec(files, term);
    SortSpec(f);
    forall t
      ensures AtTime(FilteredFiles(files, term), t) == Filter(AtTime(files, t), term)
    {
      SortStable(f, t);
      FilterAtTime(files, term, t);
    }
    var r := FilteredFiles(files, term);
    forall x
      ensures x in r <==> x in files && Matches(x, term)
    {
      assert x in r <==> x in multiset(r);
    }
  }

  lemma {:induction false} FilterAll(files: seq<MediaFile>, term: string)
    requires forall x :: x in files ==> Matches(x, term)
    ensures Filter(files, term) == files
  {
    if |files| > 0 {
      assert files[0] in files;
      FilterAll(files[1..], term);
    }
  }

  /** An empty search shows the whole registry, newest first. */
  lemma EmptySearchShowsAll(files: seq<MediaFile>)
    ensures FilteredFiles(files, "") == SortByRecency(files)
  {
    forall x | x in files
      ensures Matches(x, "")
    {
      IncludesEmpty(Lower(x.name));
    }
    FilterAll(files, "");
  }

  lemma {:induction false} FilterSameMatches(files: seq<MediaFile>, t1: string, t2: string)
    requires forall x :: Matches(x, t1) == Matches(x, t2)
    ensures Filter(files, t1) == Filter(files, t2)
  {
    if |files| > 0 {
      FilterSameMatches(files[1..], t1, t2);
    }
  }

  /** The search ignores case: an upper-cased or lower-cased term shows the same rows. */
  lemma SearchIgnoresCase(files: seq<MediaFile>, term: string)
    ensures FilteredFiles(files, Upper(term)) == FilteredFiles(files, term)
    ensures FilteredFiles(files, Lower(term)) == FilteredFiles(files, term)
  {
    LowerIgnoresCase(term);
    FilterSameMatches(files, Upper(term), term);
    FilterSameMatches(files, Lower(term), term);
  }

  /** A match is an occurrence of the lower-cased term in the lower-cased name or MIME type. */
  lemma MatchesOccurs(f: MediaFile, term: string)
    ensures Matches(f, term) <==>
      (exists k :: OccursAt(Lower(f.name), Lower(term), k)) || (exists k :: OccursAt(Lower(f.mimeType), Lower(term), k))
  {
    IncludesOccurs(Lower(f.name), Lower(term));
    IncludesOccurs(Lower(f.mimeType), Lower(term));
  }

  datatype Icon = VideoIcon | AudioIcon | ImageIcon

  /** The row icon: a video icon, else an audio icon, else the image icon. */
  function IconFor(mimeType: string): Icon {
    if StartsWith(mimeType, "video") then VideoIcon
    else if StartsWith(mimeType, "audio") then AudioIcon
    else ImageIcon
  }

  /** For a media type the icon names its top-level type, in both directions. */
  lemma IconOfMediaType(mimeType: string)
    requires IsMediaType(mimeType)
    ensures IconFor(mimeType) == VideoIcon <==> StartsWith(mimeType, "video/")
    ensures IconFor(mimeType) == AudioIcon <==> StartsWith(mimeType, "audio/")
    ensures IconFor(mimeType) == ImageIcon <==> StartsWith(mimeType, "image/")
  {
    assert mimeType[..5] == mimeType[..6][..5];
  }

  /** The checksum column: the first twelve characters and an ellipsis, or "N/A". */
  function ChecksumCell(md5Checksum: Option<string>): string {
    if md5Checksum.Some? && md5Checksum.value != "" then
      md5Checksum.value[..if |md5Checksum.value| < 12 then |md5Checksum.value| else 12] + "..."
    else "N/A"
  }

  /**
   * The cell reads "N/A" exactly when there is no checksum, or an empty one;
   * otherwise it is the checksum's first twelve characters, or the whole
   * checksum when it is shorter, followed by "...".
   */
  lemma ChecksumCellShape(md5Checksum: Option<string>)
    ensures var c := ChecksumCell(md5Checksum);
      && (c == "N/A" <==> md5Checksum.None? || md5Checksum.value == "")
      && (md5Checksum.Some? && md5Checksum.value != "" ==>
            && |c| - 3 == (if |md5Checksum.value| < 12 then |md5Checksum.value| else 12)
            && c[|c| - 3..] == "..."
            && StartsWith(md5Checksum.value, c[..|c| - 3])
            && (|md5Checksum.value| <= 12 ==> c[..|c| - 3] == md5Checksum.value))
  {
    if md5Checksum.Some? && md5Checksum.value != "" {
      var c := ChecksumCell(md5Checksum);
      assert c[|c| - 3..] == "...";
      assert c != "N/A" by {
        assert |c| >= 4;
      }
    }
  }
}
