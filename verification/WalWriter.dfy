// A writer of logs with every byte written out, and what parser and auditor make of its logs.
// Nothing here uses the readers' own words, sums, offsets or splitting.
module WalWriter {
  import opened WalFormat
  import opened WalSnapshot
  import opened WalAudit
  import O = WalOverlay

  /** One page as a transaction writes it; a size other than 0 commits the database at that size. */
  datatype Written = Written(page: nat, size: nat, payload: seq<byte>)

  /** The magic number decides the byte order of the checksums; the zero seed ignores the header's. */
  datatype Log = Log(big: bool, zeroSeed: bool, pageSize: nat, sequence: nat, salt: seq<byte>, frames: seq<Written>)

  /** A 32-bit number, most significant byte first. */
  function Four(n: nat): (b: seq<byte>)
    ensures |b| == 4
  {
    [n / 0x100_0000 % 256, n / 0x1_0000 % 256, n / 0x100 % 256, n % 256]
  }

  /** Four bytes as a number in either order. */
  function Number(big: bool, d: seq<byte>): nat
    requires |d| >= 4
  {
    var (a: nat, b: nat, c: nat, e: nat) := (d[0], d[1], d[2], d[3]);
    if big then a * 0x100_0000 + b * 0x1_0000 + c * 0x100 + e
    else a + b * 0x100 + c * 0x1_0000 + e * 0x100_0000
  }

  /** The two running sums modulo two to the 32, over eight bytes at a time. */
  function RunningSums(big: bool, data: seq<byte>, sums: (nat, nat)): (nat, nat)
    decreases |data|
  {
    if |data| < 8 then sums
    else
      var first := (sums.0 + Number(big, data) + sums.1) % 0x1_0000_0000;
      var second := (sums.1 + Number(big, data[4..]) + first) % 0x1_0000_0000;
      RunningSums(big, data[8..], (first, second))
  }

  function Opening(log: Log): seq<byte> {
    Four(if log.big then 0x377F0683 else 0x377F0682) + Four(3007000)
    + Four(log.pageSize) + Four(log.sequence) + log.salt
  }

  function Header(log: Log): seq<byte> {
    var sums := RunningSums(log.big, Opening(log), (0, 0));
    Opening(log) + Four(sums.0) + Four(sums.1)
  }

  function Summed(w: Written): seq<byte> { Four(w.page) + Four(w.size) + w.payload }

  /** The sums after the first n frames, which frame n - 1 stores. */
  function SumsAfter(log: Log, n: nat): (nat, nat)
    requires n <= |log.frames|
  {
    if n > 0 then RunningSums(log.big, Summed(log.frames[n - 1]), SumsAfter(log, n - 1))
    else if log.zeroSeed then (0, 0)
    else RunningSums(log.big, Opening(log), (0, 0))
  }

  function FrameBytes(log: Log, k: nat): seq<byte>
    requires k < |log.frames|
  {
    var w, sums := log.frames[k], SumsAfter(log, k + 1);
    Four(w.page) + Four(w.size) + log.salt + Four(sums.0) + Four(sums.1) + w.payload
  }

  function Body(log: Log, n: nat): seq<byte>
    requires n <= |log.frames|
  {
    if n == 0 then [] else Body(log, n - 1) + FrameBytes(log, n - 1)
  }

  function Bytes(log: Log): seq<byte> { Header(log) + Body(log, |log.frames|) }

  ghost predicate FrameFits(log: Log, w: Written) {
    && w.page != 0 && w.page * log.pageSize <= MAX_BYTES && w.size * log.pageSize <= MAX_BYTES
    && |w.payload| == log.pageSize
  }

  ghost predicate Writable(log: Log) {
    && log.pageSize in {512, 1024, 2048, 4096, 8192, 16384, 32768, 65536}
    && |log.salt| == 8 && forall w :: w in log.frames ==> FrameFits(log, w)
  }

  // ----- words and sums ------------------------------------------------------------

  lemma WordIsNumber(order: Order, data: seq<byte>, at: nat)
    requires at + 4 <= |data|
    ensures Word(order, data, at) == Number(order == Big, data[at..])
  {
    var d := data[at..at + 4];
    assert d == [data[at], data[at + 1], data[at + 2], data[at + 3]];
    if order == Big { BigFour(d); } else { LittleFour(d); }
  }

  lemma BigFour(d: seq<byte>)
    requires |d| == 4
    ensures BigEndian(d) == Number(true, d)
  {
    var (a: nat, b: nat, c: nat) := (d[0], d[1], d[2]);
    assert d[..3] == [d[0], d[1], d[2]] && d[..3][..2] == [d[0], d[1]] && d[..3][..2][..1] == [d[0]];
    assert [d[0]][..0] == [];
    assert BigEndian([d[0]]) == a;
    assert BigEndian(d[..3][..2]) == a * 256 + b;
    assert BigEndian(d[..3]) == (a * 256 + b) * 256 + c;
  }

  lemma LittleFour(d: seq<byte>)
    requires |d| == 4
    ensures LittleEndian(d) == Number(false, d)
  {
    var (b: nat, c: nat, e: nat) := (d[1], d[2], d[3]);
    assert d[1..] == [d[1], d[2], d[3]] && d[1..][1..] == [d[2], d[3]] && d[1..][1..][1..] == [d[3]];
    assert [d[3]][1..] == [];
    assert LittleEndian([d[3]]) == e;
    assert LittleEndian(d[1..][1..]) == c + e * 256;
    assert LittleEndian(d[1..]) == b + (c + e * 256) * 256;
  }

  lemma FourIsNumber(n: nat, rest: seq<byte>)
    requires n < 0x1_0000_0000
    ensures Number(true, Four(n) + rest) == n
  {
    DigitsOf(n);
    var d := Four(n) + rest;
    assert d[0] == Four(n)[0] && d[1] == Four(n)[1] && d[2] == Four(n)[2] && d[3] == Four(n)[3];
  }

  lemma DigitsOf(n: nat)
    requires n < 0x1_0000_0000
    ensures n == n / 0x100_0000 % 256 * 0x100_0000 + n / 0x1_0000 % 256 * 0x1_0000 + n / 0x100 % 256 * 0x100 + n % 256
  {
    var x, y, z := n / 0x100, n / 0x1_0000, n / 0x100_0000;
    assert n == x * 256 + n % 256 && x == y * 256 + x % 256 && y == z * 256 + y % 256 && z < 256;
  }

  /** A number written at some place is the word read there. */
  lemma WordAt(data: seq<byte>, at: nat, n: nat)
    requires n < 0x1_0000_0000 && at + 4 <= |data| && data[at..at + 4] == Four(n)
    ensures Word(Big, data, at) == n
  {
    WordIsNumber(Big, data, at);
    assert data[at..] == Four(n) + data[at + 4..];
    FourIsNumber(n, data[at + 4..]);
  }

  function SumsOf(s: (nat, nat)): Sums { Sums(s.0, s.1) }

  lemma {:induction false} SumsAgree(order: Order, data: seq<byte>, s: (nat, nat))
    ensures Checksum(order, data, SumsOf(s)) == SumsOf(RunningSums(order == Big, data, s))
    decreases |data|
  {
    if |data| >= 8 {
      WordIsNumber(order, data, 0);
      WordIsNumber(order, data, 4);
      assert data[0..] == data;
      var first := (s.0 + Number(order == Big, data) + s.1) % 0x1_0000_0000;
      var second := (s.1 + Number(order == Big, data[4..]) + first) % 0x1_0000_0000;
      SumsAgree(order, data[8..], (first, second));
    }
  }

  lemma {:induction false} SumsFit(big: bool, data: seq<byte>, s: (nat, nat))
    requires s.0 < 0x1_0000_0000 && s.1 < 0x1_0000_0000
    ensures RunningSums(big, data, s).0 < 0x1_0000_0000 && RunningSums(big, data, s).1 < 0x1_0000_0000
    decreases |data|
  {
    if |data| >= 8 {
      var first := (s.0 + Number(big, data) + s.1) % 0x1_0000_0000;
      var second := (s.1 + Number(big, data[4..]) + first) % 0x1_0000_0000;
      SumsFit(big, data[8..], (first, second));
    }
  }

  // ----- which headers are accepted --------------------------------------------------

  lemma PowersInRange(n: nat)
    ensures 512 <= n <= 65536 && PowerOfTwo(n) <==> n in {512, 1024, 2048, 4096, 8192, 16384, 32768, 65536}
  {
    assert PowerOfTwo(1) && PowerOfTwo(2) && PowerOfTwo(4) && PowerOfTwo(8) && PowerOfTwo(16) && PowerOfTwo(32);
    assert PowerOfTwo(64) && PowerOfTwo(128) && PowerOfTwo(256) && PowerOfTwo(512) && PowerOfTwo(1024);
    assert PowerOfTwo(2048) && PowerOfTwo(4096) && PowerOfTwo(8192) && PowerOfTwo(16384) && PowerOfTwo(32768);
    assert PowerOfTwo(65536);
    if 512 < n < 1024 { NoneBetween(n, 512); }
    if 1024 < n < 2048 { NoneBetween(n, 1024); }
    if 2048 < n < 4096 { NoneBetween(n, 2048); }
    if 4096 < n < 8192 { NoneBetween(n, 4096); }
    if 8192 < n < 16384 { NoneBetween(n, 8192); }
    if 16384 < n < 32768 { NoneBetween(n, 16384); }
    if 32768 < n < 65536 { NoneBetween(n, 32768); }
  }

  /** Between one power of two and the next there is no other. */
  lemma {:induction false} NoneBetween(n: nat, p: nat)
    requires PowerOfTwo(p) && p < n < 2 * p
    ensures !PowerOfTwo(n)
  {
    if PowerOfTwo(n) && p > 1 { NoneBetween(n / 2, p / 2); }
  }

  function At(wal: seq<byte>, at: nat): nat
    requires at + 4 <= |wal|
  {
    Number(true, wal[at..])
  }

  /**
   * A header is accepted exactly for one of the two magic numbers, this version, a page size
   * that is a power of two from 512 to 65536, and stored sums that are those of its first 24
   * bytes: taken in little-endian order for the first magic number, in big-endian for the second.
   */
  lemma HeaderAcceptedIff(wal: seq<byte>)
    requires |wal| >= 32
    ensures HeaderOk(wal) <==>
      && At(wal, 0) in {0x377F0682, 0x377F0683} && At(wal, 4) == 3007000
      && At(wal, 8) in {512, 1024, 2048, 4096, 8192, 16384, 32768, 65536}
      && (At(wal, 24), At(wal, 28)) == RunningSums(At(wal, 0) == 0x377F0683, wal[..24], (0, 0))
  {
    hide PowerOfTwo, Word, Checksum, Number;
    WordIsNumber(Big, wal, 0);
    WordIsNumber(Big, wal, 4);
    WordIsNumber(Big, wal, 8);
    WordIsNumber(Big, wal, 24);
    WordIsNumber(Big, wal, 28);
    PowersInRange(PageSize(wal));
    SumsAgree(OrderOf(wal), wal[..24], (0, 0));
  }

  // ----- the written log as the readers see it ---------------------------------------------

  function OrderIn(log: Log): Order { if log.big then Big else Little }

  lemma SumsAfterFit(log: Log, n: nat)
    requires n <= |log.frames|
    ensures SumsAfter(log, n).0 < 0x1_0000_0000 && SumsAfter(log, n).1 < 0x1_0000_0000
  {
    if n > 0 {
      SumsAfterFit(log, n - 1);
      SumsFit(log.big, Summed(log.frames[n - 1]), SumsAfter(log, n - 1));
    } else {
      SumsFit(log.big, Opening(log), (0, 0));
    }
  }

  lemma SmallNumbers(log: Log, w: Written)
    requires Writable(log) && FrameFits(log, w)
    ensures w.page < 0x1_0000_0000 && w.size < 0x1_0000_0000
  {
    assert w.page <= w.page * log.pageSize && w.size <= w.size * log.pageSize;
  }

  /** What the header of a written log says, whatever follows it. */
  lemma HeaderRead(log: Log, after: seq<byte>)
    requires Writable(log)
    ensures var wal := Header(log) + after;
            && |Header(log)| == 32 && HeaderOk(wal) && PageSize(wal) == log.pageSize
            && wal[..24] == Opening(log) && wal[16..24] == log.salt && OrderOf(wal) == OrderIn(log)
            && wal[32..] == after
  {
    var opening, wal := Opening(log), Header(log) + after;
    var magic := if log.big then 0x377F0683 else 0x377F0682;
    assert |opening| == 24 && wal[..24] == opening && wal[16..24] == log.salt && wal[32..] == after;
    assert wal[0..4] == Four(magic) && wal[4..8] == Four(3007000) && wal[8..12] == Four(log.pageSize);
    var sums := RunningSums(log.big, opening, (0, 0));
    assert wal[24..28] == Four(sums.0) && wal[28..32] == Four(sums.1);
    HeaderWords(log, wal, magic, sums);
  }

  lemma HeaderWords(log: Log, wal: seq<byte>, magic: nat, sums: (nat, nat))
    requires Writable(log) && |wal| >= 32 && wal[..24] == Opening(log)
    requires magic == if log.big then 0x377F0683 else 0x377F0682
    requires wal[0..4] == Four(magic) && wal[4..8] == Four(3007000) && wal[8..12] == Four(log.pageSize)
    requires sums == RunningSums(log.big, Opening(log), (0, 0))
    requires wal[24..28] == Four(sums.0) && wal[28..32] == Four(sums.1)
    ensures HeaderOk(wal) && PageSize(wal) == log.pageSize && OrderOf(wal) == OrderIn(log)
  {
    hide Word, Number, Four, PowerOfTwo, RunningSums, Opening;
    SumsFit(log.big, Opening(log), (0, 0));
    WordAt(wal, 0, magic);
    WordAt(wal, 4, 3007000);
    WordAt(wal, 8, log.pageSize);
    WordAt(wal, 24, sums.0);
    WordAt(wal, 28, sums.1);
    HeaderAcceptedIff(wal);
    WordIsNumber(Big, wal, 0);
    WordIsNumber(Big, wal, 4);
    WordIsNumber(Big, wal, 8);
    WordIsNumber(Big, wal, 24);
    WordIsNumber(Big, wal, 28);
  }

  ghost predicate ReadsAs(log: Log, k: nat, f: Frame)
    requires k < |log.frames|
  {
    var w := log.frames[k];
    && Page(f) == w.page && Size(f) == w.size && Salt(f) == log.salt && Payload(f) == w.payload
    && Stored(f) == SumsOf(SumsAfter(log, k + 1)) && Block(f) == Summed(w)
  }

  /** What a written frame says. */
  lemma FrameRead(log: Log, k: nat)
    requires Writable(log) && k < |log.frames|
    ensures var f := FrameBytes(log, k);
            |f| == log.pageSize + 24 && |f| >= 32 && |f| % 8 == 0 && ReadsAs(log, k, f)
  {
    hide RunningSums, SumsAfter, Four, Word;
    var w, sums, f := log.frames[k], SumsAfter(log, k + 1), FrameBytes(log, k);
    assert w in log.frames;
    SmallNumbers(log, w);
    SumsAfterFit(log, k + 1);
    FramePlaces(w, log.salt, sums, f);
    WordAt(f, 0, w.page);
    WordAt(f, 4, w.size);
    WordAt(f, 16, sums.0);
    WordAt(f, 20, sums.1);
  }

  lemma FramePlaces(w: Written, salt: seq<byte>, sums: (nat, nat), f: seq<byte>)
    requires |salt| == 8
    requires f == Four(w.page) + Four(w.size) + salt + Four(sums.0) + Four(sums.1) + w.payload
    ensures |f| == |w.payload| + 24
    ensures f[0..4] == Four(w.page) && f[4..8] == Four(w.size) && f[8..16] == salt
    ensures f[16..20] == Four(sums.0) && f[20..24] == Four(sums.1) && f[24..] == w.payload
    ensures f[..8] + f[24..] == Summed(w)
  {
    hide Four;
  }

  /** So many frames of this many bytes. */
  ghost function Times(k: nat, size: nat): nat {
    if k == 0 then 0 else Times(k - 1, size) + size
  }

  lemma {:induction false} SplitAppends(a: seq<byte>, b: seq<byte>, size: nat, k: nat)
    requires size >= 32 && size % 8 == 0 && |a| == Times(k, size)
    ensures Split(a + b, size) == Split(a, size) + Split(b, size)
    decreases k
  {
    if k == 0 {
      assert a + b == b;
    } else {
      assert (a + b)[..size] == a[..size] && (a + b)[size..] == a[size..] + b;
      SplitAppends(a[size..], b, size, k - 1);
    }
  }

  lemma SplitOne(f: seq<byte>)
    requires |f| >= 32 && |f| % 8 == 0
    ensures Split(f, |f|) == [f]
  {
    assert f[..|f|] == f && f[|f|..] == [];
  }

  ghost predicate AllReadAs(log: Log, frames: seq<Frame>, n: nat)
    requires n <= |log.frames|
  {
    n <= |frames| && forall k :: 0 <= k < n ==> ReadsAs(log, k, frames[k])
  }

  lemma OneMore(log: Log, before: seq<Frame>, last: Frame)
    requires |before| < |log.frames| && AllReadAs(log, before, |before|) && ReadsAs(log, |before|, last)
    ensures AllReadAs(log, before + [last], |before| + 1)
  {
    hide ReadsAs;
  }

  ghost predicate BodyRead(log: Log, n: nat)
    requires n <= |log.frames| && log.pageSize >= 8 && log.pageSize % 8 == 0
  {
    var frames := Split(Body(log, n), log.pageSize + 24);
    |Body(log, n)| == Times(n, log.pageSize + 24) && |frames| == n && AllReadAs(log, frames, n)
  }

  /** The frames of the log so far, as the readers split them. */
  lemma {:induction false} BodySplits(log: Log, n: nat)
    requires Writable(log) && n <= |log.frames|
    ensures BodyRead(log, n)
  {
    hide ReadsAs, FrameBytes, AllReadAs;
    var size := log.pageSize + 24;
    if n == 0 {
      NoneRead(log, Split(Body(log, 0), size));
    } else {
      BodySplits(log, n - 1);
      FrameRead(log, n - 1);
      var before, last := Body(log, n - 1), FrameBytes(log, n - 1);
      SplitAppends(before, last, size, n - 1);
      SplitOne(last);
      OneMore(log, Split(before, size), last);
    }
  }

  lemma NoneRead(log: Log, frames: seq<Frame>)
    ensures AllReadAs(log, frames, 0)
  {
  }

  /** The log, followed by what is left of an earlier one: too short for a frame, or of other salts. */
  ghost predicate Leftover(log: Log, rest: seq<byte>) {
    |rest| < log.pageSize + 24 || rest[8..16] != log.salt
  }

  ghost predicate Read(log: Log, wal: seq<byte>)
    requires HeaderOk(wal)
  {
    && PageSize(wal) == log.pageSize && wal[..24] == Opening(log) && OrderOf(wal) == OrderIn(log)
    && Epoch(wal) == |log.frames| && AllReadAs(log, Frames(wal), |log.frames|)
  }

  lemma {:induction false} EpochOf(frames: seq<Frame>, salt: seq<byte>, n: nat)
    requires n <= |frames| && (forall k :: 0 <= k < n ==> Salt(frames[k]) == salt)
    requires n < |frames| ==> Salt(frames[n]) != salt
    ensures EpochLength(frames, salt) == n
  {
    if n > 0 { EpochOf(frames[1..], salt, n - 1); }
  }

  ghost predicate AsWritten(log: Log, wal: seq<byte>, rest: seq<byte>) {
    && HeaderOk(wal) && Read(log, wal)
    && (|Frames(wal)| == |log.frames| <==> |rest| < log.pageSize + 24)
  }

  lemma LogIsRead(log: Log, rest: seq<byte>)
    requires Writable(log) && Leftover(log, rest)
    ensures |Bytes(log)| == 32 + Times(|log.frames|, log.pageSize + 24)
    ensures AsWritten(log, Bytes(log) + rest, rest)
  {
    hide Split, AllReadAs, Body, Header, Opening, Word, HeaderOk, EpochLength, Salt;
    var n, size, body := |log.frames|, log.pageSize + 24, Body(log, |log.frames|);
    assert Bytes(log) + rest == Header(log) + (body + rest);
    HeaderRead(log, body + rest);
    BodySplits(log, n);
    SplitAppends(body, rest, size, n);
    var frames := Frames(Bytes(log) + rest);
    assert frames == Split(body, size) + Split(rest, size);
    LeftoverSplits(log, rest);
    FrontRead(log, Split(body, size), Split(rest, size));
    EpochOf(frames, log.salt, n);
  }

  lemma FrontRead(log: Log, front: seq<Frame>, back: seq<Frame>)
    requires |front| == |log.frames| && AllReadAs(log, front, |front|)
    ensures AllReadAs(log, front + back, |front|)
    ensures forall k :: 0 <= k < |front| ==> Salt((front + back)[k]) == log.salt
  {
    hide Page, Size, Stored, Payload, Block, Summed, SumsAfter, SumsOf;
    forall k | 0 <= k < |front| ensures (front + back)[k] == front[k] {}
  }

  lemma LeftoverSplits(log: Log, rest: seq<byte>)
    requires Writable(log) && Leftover(log, rest)
    ensures var frames := Split(rest, log.pageSize + 24);
            (frames == [] <==> |rest| < log.pageSize + 24) && (frames != [] ==> Salt(frames[0]) != log.salt)
  {
    hide FrameFits;
    if |rest| >= log.pageSize + 24 { SaltOfFirst(rest, log.pageSize + 24); }
  }

  lemma SaltOfFirst(rest: seq<byte>, size: nat)
    requires size >= 32 && size % 8 == 0 && |rest| >= size
    ensures Split(rest, size) != [] && Salt(Split(rest, size)[0]) == rest[8..16]
  {
    assert rest[..size][8..16] == rest[8..16];
  }

  function ModeOf(log: Log): Mode { if log.zeroSeed then ZeroSeed else Standard }

  lemma {:induction false} LogIsChained(log: Log, wal: seq<byte>, n: nat)
    requires HeaderOk(wal) && Read(log, wal) && n <= |log.frames|
    ensures n <= |Frames(wal)| && Chained(wal, ModeOf(log), Frames(wal), n)
  {
    hide Expected, Checksum, RunningSums, Summed, HeaderOk, ReadsAs;
    if n > 0 {
      LogIsChained(log, wal, n - 1);
      NextChecks(log, wal, n - 1);
    }
  }

  lemma NextChecks(log: Log, wal: seq<byte>, k: nat)
    requires HeaderOk(wal) && Read(log, wal) && k < |log.frames|
    requires k < |Frames(wal)| && Chained(wal, ModeOf(log), Frames(wal), k)
    ensures Stored(Frames(wal)[k]) == Expected(wal, ModeOf(log), Frames(wal), k)
  {
    hide Expected, Checksum, RunningSums, Summed, Word, HeaderOk, Before, Chained;
    ExpectedNext(wal, ModeOf(log), Frames(wal), k);
    assert ReadsAs(log, k, Frames(wal)[k]);
    BeforeRead(log, wal, k);
    SumsAgree(OrderIn(log), Summed(log.frames[k]), SumsAfter(log, k));
  }

  lemma BeforeRead(log: Log, wal: seq<byte>, k: nat)
    requires HeaderOk(wal) && Read(log, wal) && k <= |log.frames|
    ensures Before(wal, ModeOf(log), Frames(wal), k) == SumsOf(SumsAfter(log, k))
  {
    if k > 0 {
      assert ReadsAs(log, k - 1, Frames(wal)[k - 1]);
    } else {
      SumsAgree(OrderIn(log), Seed(wal, ModeOf(log)), (0, 0));
    }
  }

  // ----- what the readers make of it ------------------------------------------------------------

  /** The number of frames up to the last one that commits. */
  ghost predicate IsCommitted(log: Log, last: nat) {
    && last <= |log.frames| && (last > 0 ==> log.frames[last - 1].size != 0)
    && forall j :: last <= j < |log.frames| ==> log.frames[j].size == 0
  }

  lemma CommitRead(log: Log, wal: seq<byte>, last: nat)
    requires HeaderOk(wal) && Read(log, wal) && IsCommitted(log, last)
    ensures |log.frames| <= |Frames(wal)| && LastCommit(Frames(wal), |log.frames|) == last
  {
    hide HeaderOk, Epoch, Opening, Stored, Block, Summed, SumsAfter, Size, LastCommit;
    forall k | 0 <= k < |log.frames| ensures Size(Frames(wal)[k]) == log.frames[k].size {
      assert ReadsAs(log, k, Frames(wal)[k]);
    }
    var c := LastCommit(Frames(wal), |log.frames|);
    assert c > 0 ==> log.frames[c - 1].size != 0;
    assert last > 0 ==> Size(Frames(wal)[last - 1]) != 0;
  }

  lemma BoundsRead(log: Log, wal: seq<byte>)
    requires Writable(log) && HeaderOk(wal) && Read(log, wal)
    ensures AllInBounds(Frames(wal), Epoch(wal), PageSize(wal))
  {
    hide HeaderOk, Epoch, Opening, Stored, Block, Summed, SumsAfter, Page, Size;
    forall k | 0 <= k < |log.frames| ensures InBounds(Frames(wal)[k], PageSize(wal)) {
      assert ReadsAs(log, k, Frames(wal)[k]) && log.frames[k] in log.frames;
    }
  }

  /** The committed pages as the writer wrote them. */
  function WrittenPages(log: Log, last: nat): seq<Image>
    requires last <= |log.frames|
  {
    seq(last, k requires 0 <= k < last => Image(log.frames[k].page, log.frames[k].payload))
  }

  function WrittenSize(log: Log, last: nat): nat
    requires last <= |log.frames|
  {
    if last == 0 then 0 else log.frames[last - 1].size
  }

  lemma ImagesRead(log: Log, wal: seq<byte>, last: nat, mode: Mode)
    requires HeaderOk(wal) && Read(log, wal) && IsCommitted(log, last)
    ensures CommitOf(wal, mode) == Commit(log.pageSize, WrittenSize(log, last), WrittenPages(log, last), mode)
  {
    hide HeaderOk, Epoch, Opening, Stored, Block, Summed, SumsAfter, Page, Size, Payload;
    CommitRead(log, wal, last);
    forall k | 0 <= k < last ensures CommittedFrames(wal)[k] == Frames(wal)[k] && ReadsAs(log, k, Frames(wal)[k]) {
      assert ReadsAs(log, k, Frames(wal)[k]);
    }
  }

  /**
   * Reading what was written: for every log of either magic number, and whatever an earlier log
   * left behind it, the parser returns exactly the pages up to the last commit, in order, with
   * their contents, the page size and the committed size.
   */
  lemma ParserReadsWriter(log: Log, rest: seq<byte>, last: nat, r: Result<Commit>)
    requires Writable(log) && Leftover(log, rest) && IsCommitted(log, last)
    requires |Bytes(log) + rest| <= MAX_BYTES && ParsesTo(Bytes(log) + rest, r)
    ensures r.Ok? && r.value.pageSize == log.pageSize && r.value.size == WrittenSize(log, last)
    ensures r.value.pages == WrittenPages(log, last)
    ensures r.value.mode == Standard || (log.zeroSeed && r.value.mode == ZeroSeed)
  {
    hide Bytes, CommitOf, Read, Writable, Chained, Frames;
    var wal := Bytes(log) + rest;
    LogIsRead(log, rest);
    EpochIsValid(log, wal);
    ImagesRead(log, wal, last, Standard);
    ImagesRead(log, wal, last, ZeroSeed);
  }

  lemma EpochIsValid(log: Log, wal: seq<byte>)
    requires Writable(log) && HeaderOk(wal) && Read(log, wal)
    ensures EpochValid(wal, ModeOf(log))
  {
    hide HeaderOk, Chained, AllInBounds;
    BoundsRead(log, wal);
    LogIsChained(log, wal, |log.frames|);
  }

  /** The auditor counts the written frames, the committed and the other ones, and what is left behind. */
  lemma AuditorReadsWriter(log: Log, rest: seq<byte>, last: nat, r: Outcome)
    requires Writable(log) && Leftover(log, rest) && IsCommitted(log, last) && !log.zeroSeed
    requires |Bytes(log) + rest| <= MAX_WAL_BYTES && AuditsTo(Bytes(log) + rest, r)
    ensures r == Report(Audit(if |rest| < log.pageSize + 24 then Valid else RecycledTail, |log.frames|, last,
                              |log.frames| - last, |rest| % (log.pageSize + 24)))
  {
    hide Bytes, Writable, Opening, Frames, AllReadAs, ReportsOn, HeaderOk, IsCommitted, Epoch, Chained;
    var wal := Bytes(log) + rest;
    LogIsRead(log, rest);
    HeaderAudited(wal, r);
    WrittenIsAudited(log, wal, r.audit, last);
    TailIsLeft(|log.frames|, log.pageSize + 24, |rest|);
    FullAudit(wal, r.audit);
  }

  lemma HeaderAudited(wal: seq<byte>, r: Outcome)
    requires HeaderOk(wal) && |wal| <= MAX_WAL_BYTES && AuditsTo(wal, r)
    ensures r.Report? && ReportsOn(wal, r.audit)
  {
    hide ReportsOn, Word, PowerOfTwo, Checksum;
  }

  lemma FullAudit(wal: seq<byte>, a: Audit)
    requires HeaderOk(wal) && ReportsOn(wal, a)
    ensures a.tail == (|wal| - 32) % (PageSize(wal) + 24) && a.uncommitted == a.validFrames - a.lastCommit
    ensures a.status == Valid ==> a.validFrames == |Frames(wal)|
    ensures a.status == RecycledTail ==> a.validFrames < |Frames(wal)|
  {
    hide HeaderOk, Chained;
  }

  lemma WrittenIsAudited(log: Log, wal: seq<byte>, a: Audit, last: nat)
    requires Writable(log) && HeaderOk(wal) && Read(log, wal) && !log.zeroSeed && IsCommitted(log, last)
    requires ReportsOn(wal, a)
    ensures a.status in {Valid, RecycledTail} && a.validFrames == |log.frames| && a.lastCommit == last
  {
    hide HeaderOk, Chained, AllReadAs, Writable, StopsWith, IsCommitted, LastCommit, AllInBounds;
    BoundsRead(log, wal);
    EpochIsValid(log, wal);
    AuditIsStandardChain(wal, a);
    CommitRead(log, wal, last);
  }

  lemma {:induction false} TailIsLeft(n: nat, size: nat, rest: nat)
    requires size > 0
    ensures (Times(n, size) + rest) % size == rest % size
  {
    if n > 0 {
      TailIsLeft(n - 1, size, rest);
      ModPlus(Times(n - 1, size) + rest, size);
    }
  }

  lemma OneTimes(k: int, size: nat)
    ensures (k + 1) * size == k * size + size
  {
  }

  lemma TimesAtLeast(d: int, size: nat)
    requires d >= 0
    ensures d * size >= 0
  {
  }

  lemma TimesDiffer(k: int, q: int, size: nat)
    requires k >= q + 1
    ensures k * size >= q * size + size
  {
    var d := k - q - 1;
    TimesAtLeast(d, size);
    assert k * size == (q + 1 + d) * size == (q + 1) * size + d * size;
    OneTimes(q, size);
  }

  lemma OneRemainder(q: int, m: nat, k: int, n: nat, size: nat)
    requires q * size + m == k * size + n && m < size && n < size
    ensures m == n
  {
    if k > q { TimesDiffer(k, q, size); }
    if k < q { TimesDiffer(q, k, size); }
  }

  lemma ModPlus(a: nat, size: nat)
    requires size > 0
    ensures (a + size) % size == a % size
  {
    OneTimes(a / size, size);
    OneRemainder(a / size + 1, a % size, (a + size) / size, (a + size) % size, size);
  }

  /** The parser run on a written log. */
  method ReadBack(log: Log, rest: seq<byte>, ghost last: nat) returns (r: Result<Commit>)
    requires Writable(log) && Leftover(log, rest) && IsCommitted(log, last)
    requires |Bytes(log) + rest| <= MAX_BYTES
    ensures r.Ok? && r.value.pageSize == log.pageSize && r.value.size == WrittenSize(log, last)
    ensures r.value.pages == WrittenPages(log, last)
  {
    hide *;
    r := CommittedPages(Bytes(log) + rest);
    ParserReadsWriter(log, rest, last, r);
  }

  const BLANK := Written(1, 1, seq(512, _ => 0))

  /** Of either magic number there is a log of one committed page that the parser accepts. */
  lemma BothOrdersAreRead(big: bool) returns (log: Log)
    ensures log.big == big && log.frames == [BLANK] && Writable(log)
    ensures forall r :: ParsesTo(Bytes(log), r) ==> r.Ok? && r.value.pages == [Image(1, BLANK.payload)]
  {
    log := Log(big, false, 512, 0, [1, 2, 3, 4, 5, 6, 7, 8], [BLANK]);
    OnePageIsRead(log);
  }

  lemma OnePageIsRead(log: Log)
    requires Writable(log) && log.frames == [BLANK] && log.pageSize == 512
    ensures forall r :: ParsesTo(Bytes(log), r) ==> r.Ok? && r.value.pages == [Image(1, BLANK.payload)]
  {
    hide ParsesTo, Bytes, Writable, AsWritten;
    LogIsRead(log, []);
    assert Times(1, 536) == 536 && Bytes(log) + [] == Bytes(log) && IsCommitted(log, 1);
    forall r | ParsesTo(Bytes(log), r) ensures r.Ok? && r.value.pages == [Image(1, BLANK.payload)] {
      ParserReadsWriter(log, [], 1, r);
    }
  }

  // ----- a snapshot of database and written log ---------------------------------------------------

  /** The last committed writing of page p is frame k. */
  ghost predicate LastWriting(log: Log, last: nat, p: nat, k: nat)
    requires last <= |log.frames|
  {
    k < last && log.frames[k].page == p && forall m :: k < m < last ==> log.frames[m].page != p
  }

  lemma ReadableIsWritten(log: Log, wal: seq<byte>, last: nat, p: nat, k: nat)
    requires HeaderOk(wal) && Read(log, wal) && IsCommitted(log, last)
    ensures O.Readable(wal, p, k) <==> k < last && log.frames[k].page == p
  {
    hide HeaderOk, Opening, Stored, Block, Summed, SumsAfter, Page, Size, Epoch, LastCommit, IsCommitted;
    CommitRead(log, wal, last);
    O.ReadableIsCommitted(wal, p, k);
    CommittedInside(log, last);
    if k < last { assert ReadsAs(log, k, Frames(wal)[k]); }
  }

  lemma CommittedInside(log: Log, last: nat)
    requires IsCommitted(log, last)
    ensures last <= |log.frames|
  {
  }

  lemma LastReadableIsWritten(log: Log, wal: seq<byte>, last: nat, p: nat, k: nat)
    requires HeaderOk(wal) && Read(log, wal) && IsCommitted(log, last)
    ensures O.LastReadable(wal, p, k) <==> LastWriting(log, last, p, k)
  {
    hide HeaderOk, Read, O.Readable;
    forall m: nat ensures O.Readable(wal, p, m) <==> m < last && log.frames[m].page == p {
      ReadableIsWritten(log, wal, last, p, m);
    }
  }

  /** The byte of the last committed writing of the page, or of the database if there is none. */
  ghost predicate Shows(db: seq<byte>, log: Log, last: nat, p: nat, j: nat, b: byte)
    requires last <= |log.frames| && p > 0
  {
    && (forall k: nat :: LastWriting(log, last, p, k) ==>
          j < |log.frames[k].payload| && b == log.frames[k].payload[j])
    && ((forall k: nat :: !LastWriting(log, last, p, k)) ==> b == O.ByteOf(db, (p - 1) * log.pageSize + j))
  }

  lemma PayloadRead(log: Log, wal: seq<byte>, k: nat)
    requires HeaderOk(wal) && Read(log, wal) && k < |log.frames|
    ensures k < |Frames(wal)| && Payload(Frames(wal)[k]) == log.frames[k].payload
  {
    hide HeaderOk, Opening, Stored, Block, Summed, SumsAfter, Page, Size, Epoch, Payload;
    assert ReadsAs(log, k, Frames(wal)[k]);
  }

  lemma WrittenPageRead(db: seq<byte>, log: Log, wal: seq<byte>, last: nat, p: nat, j: nat, b: byte, k: nat)
    requires HeaderOk(wal) && Read(log, wal) && IsCommitted(log, last) && p > 0 && j < PageSize(wal)
    requires O.ReadsAs(db, wal, p, j, b) && last <= |log.frames| && LastWriting(log, last, p, k)
    ensures j < |log.frames[k].payload| && b == log.frames[k].payload[j]
  {
    hide HeaderOk, Read, Epoch, Payload, IsCommitted, Frames, Size, Page;
    LastReadableIsWritten(log, wal, last, p, k);
    PayloadRead(log, wal, k);
    O.OnlyLastReadable(db, wal, p, j, b, k);
  }

  lemma PageRead(db: seq<byte>, log: Log, wal: seq<byte>, last: nat, p: nat, j: nat, b: byte)
    requires HeaderOk(wal) && Read(log, wal) && IsCommitted(log, last) && p > 0 && j < PageSize(wal)
    requires O.ReadsAs(db, wal, p, j, b)
    ensures last <= |log.frames| && Shows(db, log, last, p, j, b)
  {
    hide HeaderOk, Read, O.LastReadable, Payload, IsCommitted, LastWriting, Frames;
    CommittedInside(log, last);
    PageSizeRead(log, wal);
    forall k: nat ensures O.LastReadable(wal, p, k) <==> LastWriting(log, last, p, k) {
      LastReadableIsWritten(log, wal, last, p, k);
    }
    forall k: nat | LastWriting(log, last, p, k)
      ensures k < |log.frames| && j < |log.frames[k].payload| && b == log.frames[k].payload[j]
    {
      WritingInside(log, last, p, k);
      WrittenPageRead(db, log, wal, last, p, j, b, k);
    }
    if forall k: nat :: !LastWriting(log, last, p, k) { O.NoReadable(db, wal, p, j, b); }
  }

  lemma PageSizeRead(log: Log, wal: seq<byte>)
    requires HeaderOk(wal) && Read(log, wal)
    ensures PageSize(wal) == log.pageSize
  {
    hide HeaderOk;
  }

  lemma WritingInside(log: Log, last: nat, p: nat, k: nat)
    requires last <= |log.frames| && LastWriting(log, last, p, k)
    ensures k < last
  {
  }

  /**
   * A snapshot of a database and a written log: the committed number of pages, each with the
   * contents of its last committed writing, or those of the database if there is none.
   */
  lemma SnapshotShowsWriter(db: seq<byte>, log: Log, last: nat, copy: seq<byte>, p: nat, j: nat)
    requires Writable(log) && IsCommitted(log, last) && last > 0 && O.Snapshots(db, Bytes(log), copy)
    requires 1 <= p <= log.frames[last - 1].size && j < log.pageSize
    ensures |copy| == log.frames[last - 1].size * log.pageSize && (p - 1) * log.pageSize + j < |copy|
    ensures Shows(db, log, last, p, j, copy[(p - 1) * log.pageSize + j])
  {
    hide Bytes, Writable, AsWritten, O.ReadsAs, HeaderOk, IsCommitted, Read, Shows;
    CommittedInside(log, last);
    assert Bytes(log) + [] == Bytes(log);
    LogIsRead(log, []);
    CommittedIsWritten(log, last);
    var size := log.frames[last - 1].size;
    SnapshotParts(db, Bytes(log), copy, last, size);
    O.InsidePages(p, j, size, log.pageSize);
    assert O.ReadsAs(db, Bytes(log), p, j, O.PageByte(copy, log.pageSize, p, j));
    PageRead(db, log, Bytes(log), last, p, j, copy[(p - 1) * log.pageSize + j]);
  }

  lemma SnapshotParts(db: seq<byte>, wal: seq<byte>, copy: seq<byte>, last: nat, size: nat)
    requires HeaderOk(wal) && O.Snapshots(db, wal, copy) && last > 0
    requires |CommittedFrames(wal)| == last && Size(CommittedFrames(wal)[last - 1]) == size
    ensures |copy| == O.Extent(size, PageSize(wal))
    ensures forall p: nat, j: nat :: 1 <= p <= size && j < PageSize(wal)
              ==> O.ReadsAs(db, wal, p, j, O.PageByte(copy, PageSize(wal), p, j))
  {
    hide HeaderOk, O.ReadsAs, O.PageByte, CommittedFrames, Size;
  }

  lemma CommittedIsWritten(log: Log, last: nat)
    requires Writable(log) && IsCommitted(log, last) && last > 0 && AsWritten(log, Bytes(log), [])
    ensures HeaderOk(Bytes(log)) && Read(log, Bytes(log)) && PageSize(Bytes(log)) == log.pageSize
    ensures var frames := CommittedFrames(Bytes(log));
            |frames| == last && Size(frames[last - 1]) == log.frames[last - 1].size
  {
    hide Bytes, HeaderOk, Opening, Stored, Block, Summed, SumsAfter, Page, Size, Epoch, LastCommit;
    CommitRead(log, Bytes(log), last);
    assert ReadsAs(log, last - 1, Frames(Bytes(log))[last - 1]);
  }
}
