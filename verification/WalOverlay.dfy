// Overlaying committed pages on a copy of the database file, and why the result is
// what a reader of database and log together would see (section 4.5).
module WalOverlay {
  import opened WalFormat
  import opened WalSnapshot

  /** A byte of a file read past its end is zero: POSIX fills holes that way. */
  ghost function ByteOf(data: seq<byte>, i: nat): byte {
    if i < |data| then data[i] else 0
  }

  /** The stream the overlay writes: a growable file. */
  class SnapshotFile {
    var data: seq<byte>

    constructor (copy: seq<byte>)
      ensures data == copy
    {
      data := copy;
    }

    method WriteAt(position: nat, payload: seq<byte>)
      requires payload != []
      modifies this
      ensures |data| == if position + |payload| > |old(data)| then position + |payload| else |old(data)|
      ensures forall i: nat :: position <= i < position + |payload| ==> ByteOf(data, i) == payload[i - position]
      ensures forall i: nat :: !(position <= i < position + |payload|) ==> ByteOf(data, i) == ByteOf(old(data), i)
    {
      var before := if position <= |data| then data[..position]
                    else data + seq(position - |data|, _ => 0);
      var rest := if position + |payload| <= |data| then data[position + |payload|..] else [];
      data := before + payload + rest;
    }

    method Truncate(size: nat)
      modifies this
      ensures |data| == size
      ensures forall i: nat :: i < size ==> data[i] == ByteOf(old(data), i)
    {
      data := if size <= |data| then data[..size] else data + seq(size - |data|, _ => 0);
    }
  }

  // ----- what the overlay leaves behind -----------------------------------

  ghost predicate Covers(image: Image, pageSize: nat, i: nat) {
    image.page > 0 && (image.page - 1) * pageSize <= i < (image.page - 1) * pageSize + pageSize
  }

  ghost predicate Writable(images: seq<Image>, pageSize: nat) {
    forall m :: m in images ==> m.page > 0 && |m.payload| == pageSize
  }

  /** The byte a list of page writes leaves at i, over the database below it. */
  ghost function Overlaid(db: seq<byte>, pageSize: nat, images: seq<Image>, i: nat): byte
    requires Writable(images, pageSize)
  {
    if images == [] then ByteOf(db, i)
    else
      var last := images[|images| - 1];
      if Covers(last, pageSize, i) then last.payload[i - (last.page - 1) * pageSize]
      else Overlaid(db, pageSize, images[..|images| - 1], i)
  }

  method ApplyPages(file: SnapshotFile, images: seq<Image>, pageSize: nat)
    requires pageSize > 0 && Writable(images, pageSize)
    modifies file
    ensures forall i: nat :: ByteOf(file.data, i) == Overlaid(old(file.data), pageSize, images, i)
  {
    var k := 0;
    ghost var db := file.data;
    while k < |images|
      invariant 0 <= k <= |images|
      invariant forall i: nat :: ByteOf(file.data, i) == Overlaid(db, pageSize, images[..k], i)
    {
      assert images[..k + 1][..k] == images[..k];
      file.WriteAt((images[k].page - 1) * pageSize, images[k].payload);
      k := k + 1;
    }
    assert images[..k] == images;
  }

  // ----- pages ------------------------------------------------------------

  /** Where byte j of page p lies, pages counting from one. */
  ghost function Offset(pageSize: nat, p: nat, j: nat): nat requires p > 0 {
    (p - 1) * pageSize + j
  }

  /** The size in bytes of a file of so many pages. */
  function Extent(pages: nat, pageSize: nat): nat { pages * pageSize }

  ghost function PageByte(data: seq<byte>, pageSize: nat, p: nat, j: nat): byte requires p > 0 {
    ByteOf(data, Offset(pageSize, p, j))
  }

  lemma CoversItsPageOnly(image: Image, pageSize: nat, p: nat, j: nat)
    requires p > 0 && image.page > 0 && j < pageSize
    ensures Covers(image, pageSize, Offset(pageSize, p, j)) <==> image.page == p
  {
    if image.page < p {
      assert image.page * pageSize <= (p - 1) * pageSize;
    } else if image.page > p {
      assert p * pageSize <= (image.page - 1) * pageSize;
    }
  }

  /** The index of the last image of page p, if there is one. */
  ghost function LastImage(images: seq<Image>, p: nat): (k: Option<nat>)
    ensures k.Some? ==> k.value < |images| && images[k.value].page == p
    ensures k.Some? ==> forall j :: k.value < j < |images| ==> images[j].page != p
    ensures k.None? ==> forall j :: 0 <= j < |images| ==> images[j].page != p
  {
    if images == [] then None
    else if images[|images| - 1].page == p then Some(|images| - 1)
    else LastImage(images[..|images| - 1], p)
  }

  lemma {:induction false} OverlaidPageByte(db: seq<byte>, pageSize: nat, images: seq<Image>, p: nat, j: nat)
    requires Writable(images, pageSize) && p > 0 && j < pageSize
    ensures Overlaid(db, pageSize, images, Offset(pageSize, p, j))
         == match LastImage(images, p)
            case Some(k) => images[k].payload[j]
            case None => PageByte(db, pageSize, p, j)
    decreases |images|
  {
    if images != [] {
      var n := |images| - 1;
      CoversItsPageOnly(images[n], pageSize, p, j);
      OverlaidPageByte(db, pageSize, images[..n], p, j);
    }
  }

  // ----- the reader (section 4.5) -----------------------------------------

  /** Frame k holds page p and is, or is followed by, a commit frame of the epoch. */
  ghost predicate Readable(wal: seq<byte>, p: nat, k: nat) requires HeaderOk(wal) {
    && k < Epoch(wal) && Page(Frames(wal)[k]) == p
    && exists j :: k <= j < Epoch(wal) && Size(Frames(wal)[j]) != 0
  }

  /** The last frame a reader may take page p from. */
  ghost predicate LastReadable(wal: seq<byte>, p: nat, k: nat) requires HeaderOk(wal) {
    Readable(wal, p, k) && forall m: nat :: m > k ==> !Readable(wal, p, m)
  }

  /** What byte j of page p reads as: from the last readable frame of p, else from the file. */
  ghost predicate ReadsAs(db: seq<byte>, wal: seq<byte>, p: nat, j: nat, b: byte)
    requires HeaderOk(wal) && p > 0 && j < PageSize(wal)
  {
    if exists k: nat :: LastReadable(wal, p, k)
    then exists k: nat :: LastReadable(wal, p, k)
           && j < |Payload(Frames(wal)[k])| && b == Payload(Frames(wal)[k])[j]
    else b == PageByte(db, PageSize(wal), p, j)
  }

  lemma ReadableIsCommitted(wal: seq<byte>, p: nat, k: nat)
    requires HeaderOk(wal)
    ensures Readable(wal, p, k)
       <==> k < LastCommit(Frames(wal), Epoch(wal)) && Page(Frames(wal)[k]) == p
  {
    var c := LastCommit(Frames(wal), Epoch(wal));
    if k < c {
      assert k <= c - 1 < Epoch(wal) && Size(Frames(wal)[c - 1]) != 0;
    }
  }

  /** The last committed image of a page is exactly what a reader takes. */
  lemma LastImageIsLastReadable(wal: seq<byte>, images: seq<Image>, p: nat, k: nat)
    requires HeaderOk(wal) && images == Images(CommittedFrames(wal))
    ensures LastReadable(wal, p, k) <==> LastImage(images, p) == Some(k)
  {
    forall m: nat ensures Readable(wal, p, m) <==> m < |images| && images[m].page == p {
      ReadableIsCommitted(wal, p, m);
    }
  }

  lemma ReadsAsIntro(db: seq<byte>, wal: seq<byte>, images: seq<Image>, p: nat, j: nat, b: byte)
    requires HeaderOk(wal) && p > 0 && j < PageSize(wal)
    requires images == Images(CommittedFrames(wal)) && Writable(images, PageSize(wal))
    requires b == match LastImage(images, p)
                  case Some(k) => images[k].payload[j]
                  case None => PageByte(db, PageSize(wal), p, j)
    ensures ReadsAs(db, wal, p, j, b)
  {
    hide PageByte;
    forall k: nat ensures LastReadable(wal, p, k) <==> LastImage(images, p) == Some(k) {
      LastImageIsLastReadable(wal, images, p, k);
    }
    if LastImage(images, p).Some? {
      var k := LastImage(images, p).value;
      assert LastReadable(wal, p, k) && images[k].payload == Payload(Frames(wal)[k]);
    }
  }

  lemma OnlyLastReadable(db: seq<byte>, wal: seq<byte>, p: nat, j: nat, b: byte, k: nat)
    requires HeaderOk(wal) && p > 0 && j < PageSize(wal) && ReadsAs(db, wal, p, j, b) && LastReadable(wal, p, k)
    ensures k < |Frames(wal)| && j < |Payload(Frames(wal)[k])| && b == Payload(Frames(wal)[k])[j]
  {
    hide Payload, HeaderOk, Frames, Page, Size, PageByte;
  }

  lemma NoReadable(db: seq<byte>, wal: seq<byte>, p: nat, j: nat, b: byte)
    requires HeaderOk(wal) && p > 0 && j < PageSize(wal) && ReadsAs(db, wal, p, j, b)
    requires forall k: nat :: !LastReadable(wal, p, k)
    ensures b == PageByte(db, PageSize(wal), p, j)
  {
    hide Payload, HeaderOk, LastReadable, PageByte;
  }

  lemma OverlayReads(db: seq<byte>, wal: seq<byte>, images: seq<Image>, p: nat, j: nat)
    requires HeaderOk(wal) && p > 0 && j < PageSize(wal)
    requires images == Images(CommittedFrames(wal)) && Writable(images, PageSize(wal))
    ensures ReadsAs(db, wal, p, j, Overlaid(db, PageSize(wal), images, Offset(PageSize(wal), p, j)))
  {
    hide *;
    OverlaidPageByte(db, PageSize(wal), images, p, j);
    ReadsAsIntro(db, wal, images, p, j, Overlaid(db, PageSize(wal), images, Offset(PageSize(wal), p, j)));
  }

  lemma CommittedWritable(wal: seq<byte>, mode: Mode)
    requires HeaderOk(wal) && EpochValid(wal, mode)
    ensures Writable(Images(CommittedFrames(wal)), PageSize(wal))
  {
    forall m | m in Images(CommittedFrames(wal)) ensures m.page > 0 && |m.payload| == PageSize(wal) {
      var k :| 0 <= k < |CommittedFrames(wal)| && m == Images(CommittedFrames(wal))[k];
      assert InBounds(Frames(wal)[k], PageSize(wal)) && Frames(wal)[k] in Frames(wal);
    }
  }

  // ----- the snapshot -----------------------------------------------------

  /** The file a snapshot of db and wal must be. */
  ghost predicate Snapshots(db: seq<byte>, wal: seq<byte>, copy: seq<byte>) {
    if !HeaderOk(wal) || CommittedFrames(wal) == [] then copy == db
    else
      var frames := CommittedFrames(wal);
      var size := Size(frames[|frames| - 1]);
      && |copy| == Extent(size, PageSize(wal))
      && forall p: nat, j: nat :: 1 <= p <= size && j < PageSize(wal)
           ==> ReadsAs(db, wal, p, j, PageByte(copy, PageSize(wal), p, j))
  }

  lemma InsidePages(p: nat, j: nat, size: nat, pageSize: nat)
    requires 1 <= p <= size && j < pageSize
    ensures Offset(pageSize, p, j) < Extent(size, pageSize)
  {
    assert p * pageSize <= size * pageSize;
    assert p * pageSize == (p - 1) * pageSize + pageSize;
  }

  /** A file of the committed size holding the overlaid bytes is a snapshot. */
  lemma OverlaidSnapshots(db: seq<byte>, wal: seq<byte>, commit: Commit, copy: seq<byte>)
    requires HeaderOk(wal) && CommittedFrames(wal) != [] && commit == CommitOf(wal, commit.mode)
    requires Writable(commit.pages, commit.pageSize)
    requires |copy| == Extent(commit.size, commit.pageSize)
    requires forall i: nat :: i < |copy| ==> ByteOf(copy, i) == Overlaid(db, commit.pageSize, commit.pages, i)
    ensures Snapshots(db, wal, copy)
  {
    hide Overlaid, Extent, Offset, ReadsAs, Word, Checksum, ByteOf;
    forall p: nat, j: nat | 1 <= p <= commit.size && j < commit.pageSize
      ensures ReadsAs(db, wal, p, j, PageByte(copy, commit.pageSize, p, j))
    {
      InsidePages(p, j, commit.size, commit.pageSize);
      OverlayReads(db, wal, commit.pages, p, j);
    }
  }

  lemma CommitFacts(wal: seq<byte>, commit: Commit)
    requires ParsesTo(wal, Ok(commit))
    ensures commit.pages != [] ==> HeaderOk(wal) && CommittedFrames(wal) != []
    ensures commit.pages != [] ==> commit == CommitOf(wal, commit.mode) && commit.pageSize > 0
    ensures commit.pages != [] ==> Writable(commit.pages, commit.pageSize)
    ensures commit.pages == [] && HeaderOk(wal) ==> CommittedFrames(wal) == []
  {
    if HeaderOk(wal) {
      CommittedWritable(wal, commit.mode);
    }
  }

  lemma UntouchedSnapshots(db: seq<byte>, wal: seq<byte>)
    requires HeaderOk(wal) ==> CommittedFrames(wal) == []
    ensures Snapshots(db, wal, db)
  {
  }

  method Overlay(db: seq<byte>, wal: seq<byte>, commit: Commit) returns (copy: seq<byte>)
    requires ParsesTo(wal, Ok(commit))
    ensures Snapshots(db, wal, copy)
  {
    hide *;
    CommitFacts(wal, commit);
    var file := new SnapshotFile(db);
    if commit.pages == [] {
      UntouchedSnapshots(db, wal);
      return db;
    }
    ApplyPages(file, commit.pages, commit.pageSize);
    ghost var full := file.data;
    file.Truncate(Extent(commit.size, commit.pageSize));
    copy := file.data;
    SameBytes(full, copy);
    OverlaidSnapshots(db, wal, commit, copy);
  }

  lemma SameBytes(full: seq<byte>, copy: seq<byte>)
    requires forall i: nat :: i < |copy| ==> copy[i] == ByteOf(full, i)
    ensures forall i: nat :: i < |copy| ==> ByteOf(copy, i) == ByteOf(full, i)
  {
  }

  /** Snapshot of a database file and its log; `changed` says a second look found other files. */
  method Snapshot(db: Option<seq<byte>>, wal: Option<seq<byte>>, changed: bool) returns (r: Result<seq<byte>>)
    ensures r.Ok? ==> db.Some? && !changed && |db.value| <= MAX_BYTES
    ensures r.Ok? ==> Snapshots(db.value, if wal.Some? then wal.value else [], r.value)
    ensures db.Some? && |db.value| <= MAX_BYTES && !changed && wal.None? ==> r == Ok(db.value)
    ensures db.Some? && |db.value| <= MAX_BYTES && !changed && wal.Some? && |wal.value| <= MAX_BYTES && r.Err?
        ==> ParsesTo(wal.value, Err(r.error))
    ensures (db.Some? && |db.value| > MAX_BYTES) || (wal.Some? && |wal.value| > MAX_BYTES)
        ==> r == Err(SnapshotSizeLimit)
    ensures db.None? && (wal.Some? ==> |wal.value| <= MAX_BYTES) ==> r == Err(SnapshotSourceMissing)
    ensures db.Some? && |db.value| <= MAX_BYTES && changed && wal.None? ==> r == Err(SnapshotSourceChanged)
    ensures db.Some? && |db.value| <= MAX_BYTES && changed && wal.Some? && |wal.value| <= MAX_BYTES
        ==> r == Err(SnapshotSourceChanged) || (r.Err? && ParsesTo(wal.value, Err(r.error)))
  {
    if db.Some? && |db.value| > MAX_BYTES { return Err(SnapshotSizeLimit); }
    if wal.Some? && |wal.value| > MAX_BYTES { return Err(SnapshotSizeLimit); }
    if db.None? { return Err(SnapshotSourceMissing); }
    var log := if wal.Some? then wal.value else [];
    var parsed := CommittedPages(log);
    if parsed.Err? { return Err(parsed.error); }
    if changed { return Err(SnapshotSourceChanged); }
    var copy := Overlay(db.value, log, parsed.value);
    r := Ok(copy);
  }
}
