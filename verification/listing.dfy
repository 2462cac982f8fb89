/**
 * What one folder listing yields and how the indexer reads it: the child
 * entries, the pages they arrive in, the classification of an entry by its
 * MIME type and the registry record made from a media entry.
 */
module Listing {
  import opened Types
  import opened Text

  /** The MIME type the Drive gives its folders. */
  const FolderMimeType: string := "application/vnd.google-apps.folder"

  /** The error text shown when a failure carries no message. */
  const UnknownError: string := "Unknown error during indexing"

  /** A child entry as the listing returns it (`id, name, mimeType, size, md5Checksum`). */
  datatype Entry = Entry(
    id: string,
    name: string,
    mimeType: string,
    size: Option<string>,
    md5Checksum: Option<string>)

  /**
   * The successive responses of the listing call for one folder. A page
   * carries its entries and, unless it is the last one, the token the next
   * request sends; `more` are the responses that follow. A request can also
   * fail, with or without a message.
   */
  datatype Pages =
    | LastPage(files: seq<Entry>)
    | Page(files: seq<Entry>, nextPageToken: string, more: Pages)
    | ListError(message: Option<string>)

  datatype Kind = FolderKind | MediaKind | OtherKind

  /** Video, audio and image MIME types. */
  predicate IsMediaType(mimeType: string) {
    StartsWith(mimeType, "video/") || StartsWith(mimeType, "audio/") || StartsWith(mimeType, "image/")
  }

  /**
   * Folders are recognised by exact MIME type, media by prefix; the folder
   * type is not itself a media type, so the order of the two tests does not
   * matter.
   */
  function Classify(mimeType: string): (k: Kind)
    ensures k == FolderKind <==> mimeType == FolderMimeType
    ensures k == MediaKind <==> IsMediaType(mimeType)
    ensures k == OtherKind <==> mimeType != FolderMimeType && !IsMediaType(mimeType)
  {
    assert FolderMimeType[..6] == "applic";
    if mimeType == FolderMimeType then FolderKind
    else if IsMediaType(mimeType) then MediaKind
    else OtherKind
  }

  /** The part of a MIME type before its first `/`. */
  function TopLevelType(mimeType: string): string {
    if |mimeType| == 0 || mimeType[0] == '/' then [] else [mimeType[0]] + TopLevelType(mimeType[1..])
  }

  lemma {:induction false} TopLevelOfPrefix(m: string, c: string)
    requires '/' !in c && StartsWith(m, c + "/")
    ensures TopLevelType(m) == c
  {
    if |c| > 0 {
      assert m[0] == c[0];
      assert StartsWith(m[1..], c[1..] + "/") by {
        assert m[1..][..|c[1..] + "/"|] == m[..|c + "/"|][1..];
        assert (c + "/")[1..] == c[1..] + "/";
      }
      TopLevelOfPrefix(m[1..], c[1..]);
    } else {
      assert m[0] == '/';
    }
  }

  lemma {:induction false} SlashAfterTopLevel(m: string)
    requires '/' in m
    ensures StartsWith(m, TopLevelType(m) + "/")
  {
    if m[0] != '/' {
      assert '/' in m[1..] by {
        var i :| 0 <= i < |m| && m[i] == '/';
        assert m[1..][i - 1] == '/';
      }
      SlashAfterTopLevel(m[1..]);
      var c := TopLevelType(m[1..]);
      assert TopLevelType(m) + "/" == [m[0]] + (c + "/");
      assert m[..|c| + 2] == [m[0]] + m[1..][..|c| + 1];
    } else {
      assert TopLevelType(m) + "/" == "/";
    }
  }

  /**
   * Being a media type is the same as having a `/` with `video`, `audio`
   * or `image` before the first one.
   */
  lemma MediaByTopLevelType(m: string)
    ensures IsMediaType(m) <==> '/' in m && TopLevelType(m) in {"video", "audio", "image"}
  {
    if IsMediaType(m) {
      assert m[5] == '/';
      if StartsWith(m, "video/") {
        TopLevelOfPrefix(m, "video");
      } else if StartsWith(m, "audio/") {
        TopLevelOfPrefix(m, "audio");
      } else {
        TopLevelOfPrefix(m, "image");
      }
    } else if '/' in m {
      SlashAfterTopLevel(m);
    }
  }

  /** `file.size || '0'`: a missing or empty size becomes "0". */
  function SizeOrZero(size: Option<string>): string {
    if size.Some? && size.value != "" then size.value else "0"
  }

  /** `error.message || 'Unknown error during indexing'`. */
  function ErrorText(message: Option<string>): string {
    if message.Some? && message.value != "" then message.value else UnknownError
  }

  /** The registry record made for a media entry found in `parent` at time `now`. */
  function ToRecord(e: Entry, parent: string, now: int): MediaFile {
    MediaFile(e.id, e.name, e.md5Checksum, SizeOrZero(e.size), e.mimeType, Some(parent), now)
  }

  /**
   * The entries the page loop reads from a folder: every page up to the
   * first without a token (an empty token counts as none), or up to the
   * request that fails.
   */
  function Read(p: Pages): seq<Entry> {
    match p
    case LastPage(files) => files
    case Page(files, token, more) => if token == "" then files else files + Read(more)
    case ListError(_) => []
  }

  /** The page loop of this folder ends in a failed request. */
  predicate Fails(p: Pages) {
    match p
    case LastPage(_) => false
    case Page(_, token, more) => token != "" && Fails(more)
    case ListError(_) => true
  }

  /** The message of the failure the page loop runs into. */
  function FailureMessage(p: Pages): Option<string>
    requires Fails(p)
  {
    match p
    case Page(_, _, more) => FailureMessage(more)
    case ListError(message) => message
  }

  /** Ids of the folder entries, in listing order. */
  function ChildFolders(files: seq<Entry>): seq<string> {
    if |files| == 0 then []
    else (if Classify(files[0].mimeType) == FolderKind then [files[0].id] else []) + ChildFolders(files[1..])
  }

  /** A media entry together with the folder it was listed in. */
  datatype Discovery = Discovery(parent: string, entry: Entry)

  /** The media entries of `files`, in listing order, tagged with `parent`. */
  function Discovered(parent: string, files: seq<Entry>): seq<Discovery> {
    if |files| == 0 then []
    else (if Classify(files[0].mimeType) == MediaKind then [Discovery(parent, files[0])] else []) + Discovered(parent, files[1..])
  }

  /** Records for `ds`, the k-th stamped with the clock reading `clock(start + k)`. */
  function Stamp(ds: seq<Discovery>, clock: nat -> int, start: nat): (r: seq<MediaFile>)
    ensures |r| == |ds|
    decreases |ds|
  {
    if |ds| == 0 then [] else [ToRecord(ds[0].entry, ds[0].parent, clock(start))] + Stamp(ds[1..], clock, start + 1)
  }

  /** The k-th record is made from the k-th discovery at the k-th clock reading from `start`. */
  lemma {:induction false} StampAt(ds: seq<Discovery>, clock: nat -> int, start: nat)
    ensures forall k :: 0 <= k < |ds| ==> Stamp(ds, clock, start)[k] == ToRecord(ds[k].entry, ds[k].parent, clock(start + k))
    decreases |ds|
  {
    if |ds| > 0 {
      StampAt(ds[1..], clock, start + 1);
    }
  }

  lemma {:induction false} StampAppend(a: seq<Discovery>, b: seq<Discovery>, clock: nat -> int, start: nat)
    ensures Stamp(a + b, clock, start) == Stamp(a, clock, start) + Stamp(b, clock, start + |a|)
    decreases |a|
  {
    if |a| > 0 {
      assert (a + b)[1..] == a[1..] + b;
      StampAppend(a[1..], b, clock, start + 1);
    } else {
      assert a + b == b;
    }
  }

  lemma ChildFoldersOne(e: Entry)
    ensures ChildFolders([e]) == if Classify(e.mimeType) == FolderKind then [e.id] else []
  {
    assert [e][1..] == [];
  }

  lemma ChildFoldersCons(files: seq<Entry>)
    requires |files| > 0
    ensures ChildFolders(files) == ChildFolders([files[0]]) + ChildFolders(files[1..])
  {
    ChildFoldersOne(files[0]);
  }

  lemma DiscoveredCons(parent: string, files: seq<Entry>)
    requires |files| > 0
    ensures Discovered(parent, files) == Discovered(parent, [files[0]]) + Discovered(parent, files[1..])
  {
    assert [files[0]][1..] == [];
  }

  /** Stamping two batches one after the other is stamping them together. */
  lemma StampSteps(a: seq<MediaFile>, b: seq<MediaFile>, c: seq<MediaFile>, d1: seq<Discovery>, d2: seq<Discovery>, clock: nat -> int)
    requires b == a + Stamp(d1, clock, |a|)
    requires c == b + Stamp(d2, clock, |b|)
    ensures c == a + Stamp(d1 + d2, clock, |a|)
  {
    StampAppend(d1, d2, clock, |a|);
    assert |b| == |a| + |d1|;
    AppendTwice(a, b, c, Stamp(d1, clock, |a|), Stamp(d2, clock, |b|), Stamp(d1 + d2, clock, |a|));
  }

  lemma AppendTwice<T>(a: seq<T>, b: seq<T>, c: seq<T>, s1: seq<T>, s2: seq<T>, s12: seq<T>)
    requires b == a + s1 && c == b + s2 && s12 == s1 + s2
    ensures c == a + s12
  {
  }

  lemma {:induction false} ChildFoldersAppend(a: seq<Entry>, b: seq<Entry>)
    ensures ChildFolders(a + b) == ChildFolders(a) + ChildFolders(b)
  {
    if |a| > 0 {
      assert (a + b)[1..] == a[1..] + b;
      ChildFoldersAppend(a[1..], b);
    } else {
      assert a + b == b;
    }
  }

  lemma {:induction false} DiscoveredAppend(parent: string, a: seq<Entry>, b: seq<Entry>)
    ensures Discovered(parent, a + b) == Discovered(parent, a) + Discovered(parent, b)
  {
    if |a| > 0 {
      assert (a + b)[1..] == a[1..] + b;
      DiscoveredAppend(parent, a[1..], b);
    } else {
      assert a + b == b;
    }
  }

  /** A folder id is queued exactly when some listed entry with that id is a folder. */
  lemma {:induction false} ChildFoldersMembers(files: seq<Entry>)
    ensures forall id :: id in ChildFolders(files) <==> exists e :: e in files && e.mimeType == FolderMimeType && e.id == id
  {
    if |files| > 0 {
      ChildFoldersMembers(files[1..]);
      assert forall e :: e in files <==> e == files[0] || e in files[1..];
    }
  }

  /**
   * An entry is discovered exactly when it is listed and has a media type;
   * folders and every other type are never discovered.
   */
  lemma {:induction false} DiscoveredMembers(parent: string, files: seq<Entry>)
    ensures forall d :: d in Discovered(parent, files) <==> d.parent == parent && d.entry in files && IsMediaType(d.entry.mimeType)
    ensures forall d :: d in Discovered(parent, files) ==> d.entry.mimeType != FolderMimeType
  {
    if |files| > 0 {
      DiscoveredMembers(parent, files[1..]);
      assert forall e :: e in files <==> e == files[0] || e in files[1..];
    }
  }
}
