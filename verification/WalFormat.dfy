// The SQLite write-ahead log as bytes: integers, checksums, frames, and which
// prefix of a log counts as committed (SQLite Database File Format, sections
// 4.1, 4.2 and 4.5).  Everything here is specification; WalSnapshot.dfy holds
// the loops that compute it.
module WalFormat {

  type byte = x: int | 0 <= x < 256

  datatype Order = Little | Big

  /** The two running sums of the log checksum, each 32 bits wide. */
  datatype Sums = Sums(first: nat, second: nat)

  datatype Option<+T> = None | Some(value: T)

  const WORD: nat := 0x1_0000_0000
  const MAX_BYTES: nat := 128 * 1024 * 1024
  const MAX_WAL_BYTES: nat := 64 * 1024 * 1024
  const ZERO := Sums(0, 0)

  // ----- integers ---------------------------------------------------------

  function BigEndian(digits: seq<byte>): nat {
    if digits == [] then 0
    else BigEndian(digits[..|digits| - 1]) * 256 + digits[|digits| - 1]
  }

  function LittleEndian(digits: seq<byte>): nat {
    if digits == [] then 0 else digits[0] + LittleEndian(digits[1..]) * 256
  }

  function Word(order: Order, data: seq<byte>, at: nat): nat
    requires at + 4 <= |data|
  {
    if order == Big then BigEndian(data[at..at + 4]) else LittleEndian(data[at..at + 4])
  }

  function SumsAt(data: seq<byte>, at: nat): Sums
    requires at + 8 <= |data|
  {
    Sums(Word(Big, data, at), Word(Big, data, at + 4))
  }

  /** Bitwise conjunction of naturals, as the page-size test uses it. */
  function BitAnd(a: nat, b: nat): nat {
    if a == 0 || b == 0 then 0 else 2 * BitAnd(a / 2, b / 2) + (a % 2) * (b % 2)
  }

  ghost predicate PowerOfTwo(n: nat) {
    n == 1 || (n > 1 && n % 2 == 0 && PowerOfTwo(n / 2))
  }

  lemma {:induction false} BitAndSelf(n: nat)
    ensures BitAnd(n, n) == n
  {
    if n > 0 {
      BitAndSelf(n / 2);
      assert n == 2 * (n / 2) + n % 2;
    }
  }

  /** The test n & (n - 1) == 0 accepts the powers of two and nothing else. */
  lemma {:induction false} PageSizeTestIsPowerOfTwo(n: nat)
    requires n > 0
    ensures BitAnd(n, n - 1) == 0 <==> PowerOfTwo(n)
  {
    if n > 1 {
      if n % 2 == 0 {
        assert (n - 1) / 2 == n / 2 - 1;
        PageSizeTestIsPowerOfTwo(n / 2);
      } else {
        assert (n - 1) / 2 == n / 2;
        BitAndSelf(n / 2);
      }
    }
  }

  lemma PageSizeDivisible(n: nat)
    requires 512 <= n && PowerOfTwo(n)
    ensures (n + 24) % 8 == 0
  {
    assert PowerOfTwo(n / 2);
    assert PowerOfTwo(n / 2 / 2);
    assert PowerOfTwo(n / 2 / 2 / 2);
  }

  // ----- checksum (section 4.2) -------------------------------------------

  function Stir(order: Order, data: seq<byte>, at: nat, s: Sums): Sums
    requires at + 8 <= |data|
  {
    var first := Wrap(s.first + Word(order, data, at) + s.second);
    Sums(first, Wrap(s.second + Word(order, data, at + 4) + first))
  }

  function Wrap(n: nat): nat { n % WORD }

  function Checksum(order: Order, data: seq<byte>, s: Sums): Sums {
    if |data| < 8 then s else Checksum(order, data[8..], Stir(order, data, 0, s))
  }

  /** Checksumming in pieces, each seeded by the last, checksums the whole. */
  lemma {:induction false} ChecksumConcat(order: Order, a: seq<byte>, b: seq<byte>, s: Sums)
    requires |a| % 8 == 0
    ensures Checksum(order, a + b, s) == Checksum(order, b, Checksum(order, a, s))
    decreases |a|
  {
    if a == [] {
      assert a + b == b;
    } else {
      assert |a| >= 8 && |a[8..]| % 8 == 0;
      assert (a + b)[8..] == a[8..] + b;
      assert (a + b)[0..4] == a[0..4] && (a + b)[4..8] == a[4..8];
      ChecksumConcat(order, a[8..], b, Stir(order, a, 0, s));
    }
  }

  lemma ChecksumStep(order: Order, data: seq<byte>, at: nat, s: Sums)
    requires at + 8 <= |data|
    ensures Checksum(order, data[at..], s) == Checksum(order, data[at + 8..], Stir(order, data, at, s))
  {
    var rest := data[at..];
    assert rest[8..] == data[at + 8..];
    assert rest[0..4] == data[at..at + 4];
    assert rest[4..8] == data[at + 4..at + 8];
  }

  // ----- frames (section 4.1) ---------------------------------------------

  /** A frame: 24 bytes of header, then a page whose size is a multiple of 8. */
  type Frame = f: seq<byte> | |f| >= 32 && |f| % 8 == 0 witness seq(32, _ => 0)

  /** The complete frames of a log body, in file order; a short tail is dropped. */
  function Split(body: seq<byte>, size: nat): (frames: seq<Frame>)
    requires size >= 32 && size % 8 == 0
    ensures forall f :: f in frames ==> |f| == size
    decreases |body|
  {
    if |body| < size then [] else [body[..size]] + Split(body[size..], size)
  }

  function Page(f: Frame): nat { Word(Big, f, 0) }

  function Size(f: Frame): nat { Word(Big, f, 4) }

  function Salt(f: Frame): seq<byte> { f[8..16] }

  function Stored(f: Frame): Sums { SumsAt(f, 16) }

  function Payload(f: Frame): seq<byte> { f[24..] }

  function Block(f: Frame): (b: seq<byte>)
    ensures |b| % 8 == 0
  {
    f[..8] + f[24..]
  }

  predicate InBounds(f: Frame, pageSize: nat) {
    Page(f) != 0 && Page(f) * pageSize <= MAX_BYTES && Size(f) * pageSize <= MAX_BYTES
  }

  /** Everything the checksum of the last of these frames covers, in file order. */
  ghost function Blocks(frames: seq<Frame>): (b: seq<byte>)
    ensures |b| % 8 == 0
  {
    if frames == [] then [] else Blocks(frames[..|frames| - 1]) + Block(frames[|frames| - 1])
  }

  // ----- the header -------------------------------------------------------

  predicate KnownFormat(wal: seq<byte>) requires |wal| >= 32 {
    Word(Big, wal, 0) in {0x377F0682, 0x377F0683} && Word(Big, wal, 4) == 3007000
  }

  function PageSize(wal: seq<byte>): nat requires |wal| >= 32 { Word(Big, wal, 8) }

  ghost predicate PageSizeOk(wal: seq<byte>) requires |wal| >= 32 {
    512 <= PageSize(wal) <= 65536 && PowerOfTwo(PageSize(wal))
  }

  function OrderOf(wal: seq<byte>): Order requires |wal| >= 32 {
    if Word(Big, wal, 0) == 0x377F0682 then Little else Big
  }

  predicate HeaderSumOk(wal: seq<byte>) requires |wal| >= 32 {
    Checksum(OrderOf(wal), wal[..24], ZERO) == SumsAt(wal, 24)
  }

  ghost predicate HeaderOk(wal: seq<byte>)
    ensures HeaderOk(wal) ==> |wal| >= 32 && PageSize(wal) >= 512 && (PageSize(wal) + 24) % 8 == 0
  {
    assert |wal| >= 32 && PageSizeOk(wal) ==> (PageSize(wal) + 24) % 8 == 0 by {
      if |wal| >= 32 && PageSizeOk(wal) { PageSizeDivisible(PageSize(wal)); }
    }
    |wal| >= 32 && KnownFormat(wal) && PageSizeOk(wal) && HeaderSumOk(wal)
  }

  // ----- the committed prefix (section 4.5) -------------------------------

  datatype Mode = EmptyWal | Standard | ZeroSeed

  ghost function Frames(wal: seq<byte>): seq<Frame>
    requires |wal| >= 32 && PageSize(wal) >= 8 && (PageSize(wal) + 24) % 8 == 0
  {
    Split(wal[32..], PageSize(wal) + 24)
  }

  /** How many leading frames carry the header's salts: the current epoch. */
  ghost function EpochLength(frames: seq<Frame>, salt: seq<byte>): (n: nat)
    ensures n <= |frames|
    ensures forall k :: 0 <= k < n ==> Salt(frames[k]) == salt
    ensures n < |frames| ==> Salt(frames[n]) != salt
  {
    if frames == [] || Salt(frames[0]) != salt then 0 else 1 + EpochLength(frames[1..], salt)
  }

  ghost function Epoch(wal: seq<byte>): (n: nat)
    requires HeaderOk(wal)
    ensures n <= |Frames(wal)|
  {
    EpochLength(Frames(wal), wal[16..24])
  }

  /** The bytes ahead of the frames: the file header, or nothing for the zero seed. */
  function Seed(wal: seq<byte>, mode: Mode): (s: seq<byte>)
    requires |wal| >= 32
    ensures |s| % 8 == 0
  {
    if mode == ZeroSeed then [] else wal[..24]
  }

  /** What frame k must store: the checksum of the seed and of all frames up to it. */
  ghost function Expected(wal: seq<byte>, mode: Mode, frames: seq<Frame>, k: nat): Sums
    requires |wal| >= 32 && k < |frames|
  {
    Checksum(OrderOf(wal), Seed(wal, mode) + Blocks(frames[..k + 1]), ZERO)
  }

  /** The first n frames all store the checksum the format asks of them. */
  ghost predicate Chained(wal: seq<byte>, mode: Mode, frames: seq<Frame>, n: nat)
    requires |wal| >= 32 && n <= |frames|
  {
    forall k :: 0 <= k < n ==> Stored(frames[k]) == Expected(wal, mode, frames, k)
  }

  ghost predicate AllInBounds(frames: seq<Frame>, n: nat, pageSize: nat) requires n <= |frames| {
    forall k :: 0 <= k < n ==> InBounds(frames[k], pageSize)
  }

  ghost predicate EpochValid(wal: seq<byte>, mode: Mode) requires HeaderOk(wal) {
    && AllInBounds(Frames(wal), Epoch(wal), PageSize(wal))
    && Chained(wal, mode, Frames(wal), Epoch(wal))
  }

  /** The length of the longest prefix of the first n frames that is empty or ends in a commit. */
  ghost function LastCommit(frames: seq<Frame>, n: nat): (c: nat)
    requires n <= |frames|
    ensures c <= n
    ensures c > 0 ==> Size(frames[c - 1]) != 0
    ensures forall j :: c <= j < n ==> Size(frames[j]) == 0
  {
    if n == 0 || Size(frames[n - 1]) != 0 then n else LastCommit(frames, n - 1)
  }

  /** What the sums stand at before frame k: the last frame's checksum, or the seed's. */
  function Before(wal: seq<byte>, mode: Mode, frames: seq<Frame>, k: nat): Sums
    requires |wal| >= 32 && k <= |frames|
  {
    if k > 0 then Stored(frames[k - 1]) else Checksum(OrderOf(wal), Seed(wal, mode), ZERO)
  }

  /** A frame's checksum is its own block's, seeded by what its predecessor stores. */
  lemma ExpectedNext(wal: seq<byte>, mode: Mode, frames: seq<Frame>, k: nat)
    requires |wal| >= 32 && k < |frames|
    requires Chained(wal, mode, frames, k)
    ensures Expected(wal, mode, frames, k)
         == Checksum(OrderOf(wal), Block(frames[k]), Before(wal, mode, frames, k))
  {
    var done := frames[..k + 1];
    assert done[..k] == frames[..k];
    var before := Seed(wal, mode) + Blocks(frames[..k]);
    assert Seed(wal, mode) + Blocks(done) == before + Block(frames[k]);
    ChecksumConcat(OrderOf(wal), before, Block(frames[k]), ZERO);
    if k == 0 {
      assert before == Seed(wal, mode);
    }
  }
}
