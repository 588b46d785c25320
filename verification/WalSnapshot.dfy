// Reading a write-ahead log: which frames count, and the pages they commit.
module WalSnapshot {
  import opened WalFormat

  datatype Error =
    | WalSizeInvalid | WalFormatUnsupported | WalPageSizeInvalid | WalHeaderChecksumMismatch
    | WalPageBoundExceeded | WalFrameChecksumMismatch | SnapshotSizeLimit | SnapshotSourceMissing
    | SnapshotSourceChanged

  datatype Result<+T> = Ok(value: T) | Err(error: Error)

  datatype Image = Image(page: nat, payload: seq<byte>)

  /** The parser's answer: page size, committed size in pages, committed frames, seed. */
  datatype Commit = Commit(pageSize: nat, size: nat, pages: seq<Image>, mode: Mode)

  // ----- what the parser must answer --------------------------------------

  ghost function Images(frames: seq<Frame>): seq<Image> {
    seq(|frames|, k requires 0 <= k < |frames| => Image(Page(frames[k]), Payload(frames[k])))
  }

  ghost function CommittedFrames(wal: seq<byte>): seq<Frame> requires HeaderOk(wal) {
    Frames(wal)[..LastCommit(Frames(wal), Epoch(wal))]
  }

  ghost function CommitOf(wal: seq<byte>, mode: Mode): Commit requires HeaderOk(wal) {
    var frames := CommittedFrames(wal);
    Commit(PageSize(wal), if frames == [] then 0 else Size(frames[|frames| - 1]), Images(frames), mode)
  }

  /** The whole contract of the parser, without its loop. */
  ghost predicate ParsesTo(wal: seq<byte>, r: Result<Commit>) {
    if wal == [] then r == Ok(Commit(0, 0, [], EmptyWal))
    else if |wal| < 32 || |wal| > MAX_BYTES then r == Err(WalSizeInvalid)
    else if !KnownFormat(wal) then r == Err(WalFormatUnsupported)
    else if !PageSizeOk(wal) then r == Err(WalPageSizeInvalid)
    else if !HeaderSumOk(wal) then r == Err(WalHeaderChecksumMismatch)
    else if EpochValid(wal, Standard) then r == Ok(CommitOf(wal, Standard))
    else if EpochValid(wal, ZeroSeed) then r == Ok(CommitOf(wal, ZeroSeed))
    else r.Err? && exists k :: RejectedAt(wal, k, r.error)
  }

  /** Frame k is the first one that is out of bounds or continues neither chain. */
  ghost predicate RejectedAt(wal: seq<byte>, k: nat, error: Error) requires HeaderOk(wal) {
    var frames := Frames(wal);
    && k < Epoch(wal)
    && AllInBounds(frames, k, PageSize(wal))
    && (Chained(wal, Standard, frames, k) || Chained(wal, ZeroSeed, frames, k))
    && if !InBounds(frames[k], PageSize(wal)) then error == WalPageBoundExceeded
       else error == WalFrameChecksumMismatch
            && !Chained(wal, Standard, frames, k + 1) && !Chained(wal, ZeroSeed, frames, k + 1)
  }

  // ----- the loops --------------------------------------------------------

  method ComputeChecksum(data: seq<byte>, order: Order, state: Sums) returns (r: Sums)
    requires |data| % 8 == 0
    ensures r == Checksum(order, data, state)
  {
    var at := 0;
    r := state;
    while at < |data|
      invariant 0 <= at <= |data| && at % 8 == 0
      invariant Checksum(order, data[at..], r) == Checksum(order, data, state)
    {
      ChecksumStep(order, data, at, r);
      r := Stir(order, data, at, r);
      at := at + 8;
    }
  }

  // ----- one frame of the scan --------------------------------------------

  /** The scan has taken the first k frames, in this mode, up to these sums. */
  ghost predicate Taken(wal: seq<byte>, k: nat, mode: Mode, state: Sums) requires HeaderOk(wal) {
    var frames := Frames(wal);
    && k <= Epoch(wal)
    && mode in {Standard, ZeroSeed}
    && AllInBounds(frames, k, PageSize(wal))
    && Chained(wal, mode, frames, k)
    && (mode == ZeroSeed ==> !Chained(wal, Standard, frames, k))
    && state == Before(wal, mode, frames, k)
  }

  /** A frame that continues neither the current chain nor (at the start) the other. */
  lemma Mismatch(wal: seq<byte>, k: nat, mode: Mode, state: Sums)
    requires HeaderOk(wal) && Taken(wal, k, mode, state) && k < Epoch(wal)
    requires Stored(Frames(wal)[k]) != Checksum(OrderOf(wal), Block(Frames(wal)[k]), state)
    requires k == 0 ==> Stored(Frames(wal)[k]) != Checksum(OrderOf(wal), Block(Frames(wal)[k]), ZERO)
    ensures !Chained(wal, Standard, Frames(wal), k + 1) && !Chained(wal, ZeroSeed, Frames(wal), k + 1)
  {
    var frames := Frames(wal);
    if Chained(wal, Standard, frames, k) { ExpectedNext(wal, Standard, frames, k); }
    if Chained(wal, ZeroSeed, frames, k) { ExpectedNext(wal, ZeroSeed, frames, k); }
  }

  lemma Extends(wal: seq<byte>, k: nat, mode: Mode, state: Sums)
    requires HeaderOk(wal) && Taken(wal, k, mode, state) && k < Epoch(wal)
    requires InBounds(Frames(wal)[k], PageSize(wal))
    requires Stored(Frames(wal)[k]) == Checksum(OrderOf(wal), Block(Frames(wal)[k]), state)
    ensures Taken(wal, k + 1, mode, Stored(Frames(wal)[k]))
  {
    ExpectedNext(wal, mode, Frames(wal), k);
  }

  lemma SwitchesSeed(wal: seq<byte>)
    requires HeaderOk(wal) && 0 < Epoch(wal)
    requires InBounds(Frames(wal)[0], PageSize(wal))
    requires Stored(Frames(wal)[0])
          != Checksum(OrderOf(wal), Block(Frames(wal)[0]), Before(wal, Standard, Frames(wal), 0))
    requires Stored(Frames(wal)[0]) == Checksum(OrderOf(wal), Block(Frames(wal)[0]), ZERO)
    ensures Taken(wal, 1, ZeroSeed, Stored(Frames(wal)[0]))
  {
    ExpectedNext(wal, Standard, Frames(wal), 0);
    ExpectedNext(wal, ZeroSeed, Frames(wal), 0);
  }

  lemma NotValid(wal: seq<byte>, k: nat, mode: Mode)
    requires HeaderOk(wal) && k < Epoch(wal) && mode != EmptyWal
    requires !InBounds(Frames(wal)[k], PageSize(wal)) || !Chained(wal, mode, Frames(wal), k + 1)
    ensures !EpochValid(wal, mode)
  {
  }

  method TakeFrame(wal: seq<byte>, frame: Frame, ghost k: nat, mode: Mode, state: Sums, first: bool)
    returns (r: Result<Mode>)
    requires HeaderOk(wal) && |wal| <= MAX_BYTES && k < Epoch(wal) && frame == Frames(wal)[k]
    requires Taken(wal, k, mode, state) && first == (k == 0) && (first ==> mode == Standard)
    ensures r.Ok? ==> Taken(wal, k + 1, r.value, Stored(frame))
    ensures r.Err? ==> ParsesTo(wal, Err(r.error))
  {
    if !InBounds(frame, PageSize(wal)) {
      NotValid(wal, k, Standard);
      NotValid(wal, k, ZeroSeed);
      assert RejectedAt(wal, k, WalPageBoundExceeded);
      return Err(WalPageBoundExceeded);
    }
    var expected := ComputeChecksum(Block(frame), OrderOf(wal), state);
    if expected == Stored(frame) {
      Extends(wal, k, mode, state);
      return Ok(mode);
    }
    if first {
      var unseeded := ComputeChecksum(Block(frame), OrderOf(wal), ZERO);
      if unseeded == Stored(frame) {
        SwitchesSeed(wal);
        return Ok(ZeroSeed);
      }
    }
    Mismatch(wal, k, mode, state);
    NotValid(wal, k, Standard);
    NotValid(wal, k, ZeroSeed);
    assert RejectedAt(wal, k, WalFrameChecksumMismatch);
    r := Err(WalFrameChecksumMismatch);
  }

  // ----- the parser -------------------------------------------------------

  /** The error the 32-byte header alone decides, if any. */
  method CheckHeader(wal: seq<byte>) returns (e: Option<Error>)
    requires wal != []
    ensures e.None? ==> HeaderOk(wal) && |wal| <= MAX_BYTES
    ensures e.Some? ==> ParsesTo(wal, Err(e.value))
  {
    if |wal| < 32 || |wal| > MAX_BYTES { return Some(WalSizeInvalid); }
    if !KnownFormat(wal) { return Some(WalFormatUnsupported); }
    var pageSize := PageSize(wal);
    if pageSize < 512 || pageSize > 65536 { return Some(WalPageSizeInvalid); }
    PageSizeTestIsPowerOfTwo(pageSize);
    if BitAnd(pageSize, pageSize - 1) != 0 { return Some(WalPageSizeInvalid); }
    var state := ComputeChecksum(wal[..24], OrderOf(wal), ZERO);
    if state != SumsAt(wal, 24) { return Some(WalHeaderChecksumMismatch); }
    e := None;
  }

  /** The scan has collected the images of the first frames and marked their last commit. */
  ghost predicate Collected(wal: seq<byte>, pages: seq<Image>, lastCommit: nat, size: nat)
    requires HeaderOk(wal)
  {
    var frames := Frames(wal);
    && |pages| <= |frames|
    && pages == Images(frames[..|pages|])
    && lastCommit == LastCommit(frames, |pages|)
    && size == if lastCommit == 0 then 0 else Size(frames[lastCommit - 1])
  }

  lemma Collects(wal: seq<byte>, pages: seq<Image>, lastCommit: nat, size: nat,
                 frame: Frame, more: seq<Image>)
    requires HeaderOk(wal) && Collected(wal, pages, lastCommit, size)
    requires |pages| < |Frames(wal)| && frame == Frames(wal)[|pages|]
    requires more == pages + [Image(Page(frame), Payload(frame))]
    ensures |more| == |pages| + 1
    ensures Size(frame) != 0 ==> Collected(wal, more, |more|, Size(frame))
    ensures Size(frame) == 0 ==> Collected(wal, more, lastCommit, size)
  {
  }

  lemma Finished(wal: seq<byte>, mode: Mode, state: Sums, pages: seq<Image>, lastCommit: nat, size: nat)
    requires HeaderOk(wal) && |wal| <= MAX_BYTES
    requires |pages| == Epoch(wal) && Taken(wal, |pages|, mode, state)
    requires Collected(wal, pages, lastCommit, size)
    ensures lastCommit <= |pages|
    ensures ParsesTo(wal, Ok(Commit(PageSize(wal), size, pages[..lastCommit], mode)))
  {
    hide Split, Checksum, Word, Blocks, Payload;
    assert pages[..lastCommit] == Images(CommittedFrames(wal));
  }

  /** Frame k of the log, if there is one, starts at this offset. */
  ghost predicate Position(wal: seq<byte>, offset: nat, k: nat) requires HeaderOk(wal) {
    && offset <= |wal| && k <= |Frames(wal)|
    && Split(wal[offset..], PageSize(wal) + 24) == Frames(wal)[k..]
  }

  lemma LogEnds(wal: seq<byte>, offset: nat, k: nat)
    requires HeaderOk(wal) && Position(wal, offset, k)
    ensures offset <= |wal|
    ensures offset + PageSize(wal) + 24 > |wal| <==> k == |Frames(wal)|
  {
  }

  method FrameAt(wal: seq<byte>, offset: nat, ghost k: nat) returns (frame: Frame)
    requires HeaderOk(wal) && Position(wal, offset, k)
    requires offset + PageSize(wal) + 24 <= |wal|
    ensures k < |Frames(wal)| && frame == Frames(wal)[k]
    ensures Position(wal, offset + PageSize(wal) + 24, k + 1)
    ensures k <= Epoch(wal) ==> (k < Epoch(wal) <==> Salt(frame) == wal[16..24])
  {
    ghost var rest, all := wal[offset..], Frames(wal);
    assert rest[..PageSize(wal) + 24] == wal[offset..offset + PageSize(wal) + 24];
    assert rest[PageSize(wal) + 24..] == wal[offset + PageSize(wal) + 24..];
    assert all[k] == all[k..][0] && all[k + 1..] == all[k..][1..];
    frame := wal[offset..offset + PageSize(wal) + 24];
  }

  lemma Started(wal: seq<byte>, state: Sums)
    requires HeaderOk(wal) && state == Checksum(OrderOf(wal), wal[..24], ZERO)
    ensures Taken(wal, 0, Standard, state) && Collected(wal, [], 0, 0) && Position(wal, 32, 0)
  {
  }

  method CommittedPages(wal: seq<byte>) returns (r: Result<Commit>)
    ensures ParsesTo(wal, r)
  {
    if wal == [] { return Ok(Commit(0, 0, [], EmptyWal)); }
    var e := CheckHeader(wal);
    if e.Some? { return Err(e.value); }
    var state := ComputeChecksum(wal[..24], OrderOf(wal), ZERO);
    r := ScanFrames(wal, state);
  }

  method ScanFrames(wal: seq<byte>, start: Sums) returns (r: Result<Commit>)
    requires HeaderOk(wal) && |wal| <= MAX_BYTES
    requires start == Checksum(OrderOf(wal), wal[..24], ZERO)
    ensures ParsesTo(wal, r)
  {
    hide *;
    Started(wal, start);
    var frameSize: nat := PageSize(wal) + 24;
    var mode, state := Standard, start;
    var pages: seq<Image> := [];
    var lastCommit: nat, size: nat, offset: nat := 0, 0, 32;
    while offset + frameSize <= |wal|
      invariant Position(wal, offset, |pages|)
      invariant |pages| <= Epoch(wal) && Taken(wal, |pages|, mode, state)
      invariant pages == [] ==> mode == Standard
      invariant Collected(wal, pages, lastCommit, size)
      decreases |wal| - offset
    {
      var frame := FrameAt(wal, offset, |pages|);
      if Salt(frame) != wal[16..24] { break; }
      var took := TakeFrame(wal, frame, |pages|, mode, state, pages == []);
      if took.Err? { return Err(took.error); }
      mode, state := took.value, Stored(frame);
      var more := pages + [Image(Page(frame), Payload(frame))];
      Collects(wal, pages, lastCommit, size, frame, more);
      pages := more;
      if Size(frame) != 0 {
        lastCommit, size := |pages|, Size(frame);
      }
      offset := offset + frameSize;
    }
    LogEnds(wal, offset, |pages|);
    Finished(wal, mode, state, pages, lastCommit, size);
    r := Ok(Commit(PageSize(wal), size, pages[..lastCommit], mode));
  }
}
