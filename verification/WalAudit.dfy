// The log auditor, and its agreement with the committed-page parser.
module WalAudit {
  import opened WalFormat
  import opened WalSnapshot

  datatype Status =
    | Empty | HeaderChecksumMismatch | Valid | RecycledTail | FramePageInvalid | FrameChecksumMismatch

  datatype Audit = Audit(status: Status, validFrames: nat, lastCommit: nat, uncommitted: nat, tail: nat)

  datatype AuditError = SizeLimit | HeaderIncomplete | FormatUnsupported | PageSizeInvalid

  datatype Outcome = Report(audit: Audit) | Refused(error: AuditError)

  /** The frames before this one all carry the salts, a page, and the standard checksum. */
  ghost predicate Sound(wal: seq<byte>, k: nat) requires HeaderOk(wal) {
    && k <= Epoch(wal)
    && (forall j :: 0 <= j < k ==> Page(Frames(wal)[j]) != 0)
    && Chained(wal, Standard, Frames(wal), k)
  }

  /** Why an audit of this log stops after k sound frames. */
  ghost predicate StopsWith(wal: seq<byte>, k: nat, status: Status) requires HeaderOk(wal) {
    && Sound(wal, k)
    && match status
       case Valid => k == |Frames(wal)|
       case RecycledTail => k < |Frames(wal)| && k == Epoch(wal)
       case FramePageInvalid => k < Epoch(wal) && Page(Frames(wal)[k]) == 0
       case FrameChecksumMismatch =>
         k < Epoch(wal) && Page(Frames(wal)[k]) != 0 && !Chained(wal, Standard, Frames(wal), k + 1)
       case _ => false
  }

  /** The whole contract of the auditor, without its loop. */
  ghost predicate AuditsTo(wal: seq<byte>, r: Outcome) {
    if |wal| > MAX_WAL_BYTES then r == Refused(SizeLimit)
    else if wal == [] then r == Report(Audit(Empty, 0, 0, 0, 0))
    else if |wal| < 32 then r == Refused(HeaderIncomplete)
    else if !KnownFormat(wal) then r == Refused(FormatUnsupported)
    else if !PageSizeOk(wal) then r == Refused(PageSizeInvalid)
    else if !HeaderSumOk(wal) then r == Report(Audit(HeaderChecksumMismatch, 0, 0, 0, 0))
    else r.Report? && ReportsOn(wal, r.audit)
  }

  ghost predicate ReportsOn(wal: seq<byte>, a: Audit) requires HeaderOk(wal) {
    && StopsWith(wal, a.validFrames, a.status)
    && a.lastCommit == LastCommit(Frames(wal), a.validFrames)
    && a.uncommitted == a.validFrames - a.lastCommit
    && a.tail == (|wal| - 32) % (PageSize(wal) + 24)
  }

  // ----- the loop ---------------------------------------------------------

  method AuditHeader(wal: seq<byte>) returns (r: Option<Outcome>)
    ensures r.Some? ==> AuditsTo(wal, r.value)
    ensures r.None? ==> HeaderOk(wal) && |wal| <= MAX_WAL_BYTES
  {
    if |wal| > MAX_WAL_BYTES { return Some(Refused(SizeLimit)); }
    if wal == [] { return Some(Report(Audit(Empty, 0, 0, 0, 0))); }
    if |wal| < 32 { return Some(Refused(HeaderIncomplete)); }
    if !KnownFormat(wal) { return Some(Refused(FormatUnsupported)); }
    var pageSize := PageSize(wal);
    if pageSize < 512 || pageSize > 65536 { return Some(Refused(PageSizeInvalid)); }
    PageSizeTestIsPowerOfTwo(pageSize);
    if BitAnd(pageSize, pageSize - 1) != 0 { return Some(Refused(PageSizeInvalid)); }
    var state := ComputeChecksum(wal[..24], OrderOf(wal), ZERO);
    if state != SumsAt(wal, 24) {
      return Some(Report(Audit(HeaderChecksumMismatch, 0, 0, 0, 0)));
    }
    r := None;
  }

  method AuditWal(wal: seq<byte>) returns (r: Outcome)
    ensures AuditsTo(wal, r)
  {
    var early := AuditHeader(wal);
    if early.Some? { return early.value; }
    var state := ComputeChecksum(wal[..24], OrderOf(wal), ZERO);
    var audit := AuditFrames(wal, state);
    r := Report(audit);
  }

  lemma AuditStarted(wal: seq<byte>, start: Sums)
    requires HeaderOk(wal) && start == Checksum(OrderOf(wal), wal[..24], ZERO)
    ensures Sound(wal, 0) && Position(wal, 32, 0) && LastCommit(Frames(wal), 0) == 0
    ensures start == Before(wal, Standard, Frames(wal), 0)
  {
  }

  lemma Advances(wal: seq<byte>, k: nat, state: Sums)
    requires HeaderOk(wal) && Sound(wal, k) && k < Epoch(wal) && Page(Frames(wal)[k]) != 0
    requires state == Checksum(OrderOf(wal), Block(Frames(wal)[k]), Before(wal, Standard, Frames(wal), k))
    ensures k + 1 <= |Frames(wal)|
    ensures Stored(Frames(wal)[k]) == state
        ==> Sound(wal, k + 1) && state == Before(wal, Standard, Frames(wal), k + 1)
    ensures Stored(Frames(wal)[k]) != state ==> StopsWith(wal, k, FrameChecksumMismatch)
    ensures LastCommit(Frames(wal), k + 1)
         == if Size(Frames(wal)[k]) != 0 then k + 1 else LastCommit(Frames(wal), k)
  {
    ExpectedNext(wal, Standard, Frames(wal), k);
  }

  lemma Stops(wal: seq<byte>, k: nat, status: Status)
    requires HeaderOk(wal) && Sound(wal, k)
    requires match status
             case Valid => k == |Frames(wal)|
             case RecycledTail => k < |Frames(wal)| && k == Epoch(wal)
             case FramePageInvalid => k < Epoch(wal) && Page(Frames(wal)[k]) == 0
             case FrameChecksumMismatch => StopsWith(wal, k, status)
             case _ => false
    ensures StopsWith(wal, k, status)
    ensures LastCommit(Frames(wal), k) <= k
    ensures ReportsOn(wal, Audit(status, k, LastCommit(Frames(wal), k), k - LastCommit(Frames(wal), k),
                                 (|wal| - 32) % (PageSize(wal) + 24)))
  {
  }

  method AuditFrames(wal: seq<byte>, start: Sums) returns (a: Audit)
    requires HeaderOk(wal) && start == Checksum(OrderOf(wal), wal[..24], ZERO)
    ensures ReportsOn(wal, a)
  {
    hide *;
    AuditStarted(wal, start);
    var frameSize: nat := PageSize(wal) + 24;
    var state := start;
    var valid: nat, committed: nat, offset: nat := 0, 0, 32;
    var status := Valid;
    while offset + frameSize <= |wal|
      invariant Position(wal, offset, valid)
      invariant valid <= Epoch(wal) && Sound(wal, valid)
      invariant state == Before(wal, Standard, Frames(wal), valid)
      invariant committed == LastCommit(Frames(wal), valid)
      decreases |wal| - offset
    {
      var frame := FrameAt(wal, offset, valid);
      if Salt(frame) != wal[16..24] { status := RecycledTail; break; }
      if Page(frame) == 0 { status := FramePageInvalid; break; }
      state := ComputeChecksum(Block(frame), OrderOf(wal), state);
      Advances(wal, valid, state);
      if state != Stored(frame) { status := FrameChecksumMismatch; break; }
      valid := valid + 1;
      if Size(frame) != 0 { committed := valid; }
      offset := offset + frameSize;
    }
    LogEnds(wal, offset, valid);
    Stops(wal, valid, status);
    a := Audit(status, valid, committed, valid - committed, (|wal| - 32) % frameSize);
  }

  // ----- agreement with the parser ----------------------------------------

  /** Once a standard chain shares its first checksum with a zero-seed one, they are one chain. */
  lemma {:induction false} SeedsMerge(wal: seq<byte>, n: nat)
    requires HeaderOk(wal) && 1 <= n <= |Frames(wal)|
    requires Chained(wal, ZeroSeed, Frames(wal), n) && Chained(wal, Standard, Frames(wal), 1)
    ensures Chained(wal, Standard, Frames(wal), n)
  {
    if n > 1 {
      SeedsMerge(wal, n - 1);
      ExpectedNext(wal, Standard, Frames(wal), n - 1);
      ExpectedNext(wal, ZeroSeed, Frames(wal), n - 1);
    }
  }

  lemma AuditIsStandardChain(wal: seq<byte>, a: Audit)
    requires HeaderOk(wal) && ReportsOn(wal, a)
    requires AllInBounds(Frames(wal), Epoch(wal), PageSize(wal))
    ensures a.status in {Valid, RecycledTail} <==> EpochValid(wal, Standard)
    ensures EpochValid(wal, Standard) ==> a.validFrames == Epoch(wal)
    ensures !EpochValid(wal, Standard) && EpochValid(wal, ZeroSeed)
        ==> a.status == FrameChecksumMismatch && a.validFrames == 0
  {
    var frames := Frames(wal);
    assert forall k :: 0 <= k < Epoch(wal) ==> InBounds(frames[k], PageSize(wal)) && Page(frames[k]) != 0;
    if !EpochValid(wal, Standard) && EpochValid(wal, ZeroSeed) && a.validFrames > 0 {
      assert Chained(wal, Standard, frames, 1);
      SeedsMerge(wal, Epoch(wal));
    }
  }

  /**
   * Parser and auditor accept the same logs at the same commit, page bounds apart;
   * a log that only parses with the zero seed fails its audit at the first frame.
   */
  lemma AuditAgreesWithParser(wal: seq<byte>, parsed: Result<Commit>, audited: Outcome)
    requires 0 < |wal| <= MAX_WAL_BYTES
    requires ParsesTo(wal, parsed) && AuditsTo(wal, audited)
    ensures parsed.Ok? && parsed.value.mode == Standard
       <==> && HeaderOk(wal)
            && audited.Report? && audited.audit.status in {Valid, RecycledTail}
            && AllInBounds(Frames(wal), Epoch(wal), PageSize(wal))
    ensures parsed.Ok? && parsed.value.mode == Standard
        ==> audited.audit.lastCommit == |parsed.value.pages|
    ensures parsed.Ok? && parsed.value.mode == ZeroSeed
        ==> audited.Report? && audited.audit.status == FrameChecksumMismatch && audited.audit.validFrames == 0
  {
    if HeaderOk(wal) && AllInBounds(Frames(wal), Epoch(wal), PageSize(wal)) {
      AuditIsStandardChain(wal, audited.audit);
    }
  }
}
