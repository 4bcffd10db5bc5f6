/** The binary lock record: struct lock_info of src/waitlock.h:106-121 as the bytes that
    acquire_lock writes, with its checksum (src/checksum/checksum.c:69-86). */
module LockRecord {
  import opened Basics
  import opened Crc32

  type u16 = x: int | 0 <= x < 0x1_0000
  type u32 = x: int | 0 <= x < 0x1_0000_0000
  type u64 = x: int | 0 <= x < 0x1_0000_0000_0000_0000

  const LOCK_MAGIC: u32 := 0x57414c4b
  const MAX_HOSTNAME := 256
  const MAX_DESCRIPTOR := 256
  const MAX_CMDLINE := 4096

  /** The fields in memory order with the alignment gaps of a 64-bit ABI made explicit. Signed fields
      hold their two's complement. */
  datatype LockInfo = LockInfo(
    magic: u32, version: u32, pid: u32, ppid: u32, uid: u32, gap: u32, acquiredAt: u64,
    lockType: u16, maxHolders: u16, slot: u16, reserved: u16,
    hostname: Bytes, descriptor: Bytes, cmdline: Bytes,
    checksum: bv32, tail: u32)
  {
    ghost predicate Valid() {
      |hostname| == MAX_HOSTNAME && |descriptor| == MAX_DESCRIPTOR && |cmdline| == MAX_CMDLINE
    }
  }

  // ---------------------------------------------------------------------------------------------
  // Little-endian integers
  // ---------------------------------------------------------------------------------------------

  function Octet(n: int): bv8
    requires 0 <= n < 256
  {
    n as bv8
  }

  /** The k low bytes of n, the lowest first. */
  function LittleEndian(n: nat, k: nat): (b: Bytes)
    ensures |b| == k
    decreases k
  {
    if k == 0 then [] else [Octet(n % 256)] + LittleEndian(n / 256, k - 1)
  }

  function Value(b: bv8): (n: nat)
    ensures n < 256
  {
    b as int
  }

  function Number(b: Bytes): nat {
    if b == [] then 0 else Value(b[0]) + 256 * Number(b[1..])
  }

  function Limit(k: nat): (limit: nat)
    ensures limit > 0
  {
    if k == 0 then 1 else 256 * Limit(k - 1)
  }

  lemma IntThroughByte(n: int)
    requires 0 <= n < 256
    ensures ((n as bv8) as int) == n
  {
    assert n % 256 == n;
  }

  lemma OctetOfInt(n: int)
    requires 0 <= n < 256
    ensures (Octet(n) as int) == n
  {
    IntThroughByte(n);
  }

  lemma OctetOfByte(b: bv8)
    ensures 0 <= (b as int) < 256 && Octet(b as int) == b
  {}

  lemma OctetOfValue(b: bv8)
    ensures Octet(Value(b)) == b
  {
    OctetOfByte(b);
  }

  lemma ValueOfOctet(n: nat)
    requires n < 256
    ensures Value(Octet(n)) == n
  {
    OctetOfInt(n);
  }

  lemma {:induction false} NumberOfLittleEndian(n: nat, k: nat)
    requires n < Limit(k)
    ensures Number(LittleEndian(n, k)) == n
    decreases k
  {
    hide Octet, Value;
    if k > 0 {
      ValueOfOctet(n % 256);
      NumberOfLittleEndian(n / 256, k - 1);
      assert LittleEndian(n, k)[1..] == LittleEndian(n / 256, k - 1);
    }
  }

  lemma LowAndHigh(low: nat, high: nat)
    requires low < 256
    ensures (low + 256 * high) % 256 == low && (low + 256 * high) / 256 == high
  {}

  lemma {:induction false} LittleEndianOfNumber(b: Bytes)
    ensures Number(b) < Limit(|b|) && LittleEndian(Number(b), |b|) == b
    decreases |b|
  {
    hide Octet, Value;
    if b != [] {
      OctetOfValue(b[0]);
      LittleEndianOfNumber(b[1..]);
      LowAndHigh(Value(b[0]), Number(b[1..]));
    }
  }

  lemma Limits()
    ensures Limit(2) == 0x1_0000 && Limit(4) == 0x1_0000_0000 && Limit(8) == 0x1_0000_0000_0000_0000
  {
    assert Limit(6) == 0x1_0000_0000_0000;
  }

  function Number2(b: Bytes): u16
    requires |b| == 2
  {
    LittleEndianOfNumber(b);
    Limits();
    Number(b)
  }

  function Number4(b: Bytes): u32
    requires |b| == 4
  {
    LittleEndianOfNumber(b);
    Limits();
    Number(b)
  }

  function Number8(b: Bytes): u64
    requires |b| == 8
  {
    LittleEndianOfNumber(b);
    Limits();
    Number(b)
  }

  // The checksum field stays a machine word.

  function Byte0(w: bv32): bv8 {
    (w & 0xff) as bv8
  }

  function Byte1(w: bv32): bv8 {
    ((w >> 8) & 0xff) as bv8
  }

  function Byte2(w: bv32): bv8 {
    ((w >> 16) & 0xff) as bv8
  }

  function Byte3(w: bv32): bv8 {
    (w >> 24) as bv8
  }

  function Bytes4(w: bv32): (b: Bytes)
    ensures |b| == 4
  {
    [Byte0(w), Byte1(w), Byte2(w), Byte3(w)]
  }

  function Pack(x: bv8, y: bv8, z: bv8, t: bv8): bv32 {
    (x as bv32) | ((y as bv32) << 8) | ((z as bv32) << 16) | ((t as bv32) << 24)
  }

  function Word4(b: Bytes): bv32
    requires |b| == 4
  {
    Pack(b[0], b[1], b[2], b[3])
  }

  lemma RoundTrip4(w: bv32)
    ensures Word4(Bytes4(w)) == w
  {}

  lemma PackedBytes(x: bv8, y: bv8, z: bv8, t: bv8)
    ensures (Pack(x, y, z, t) & 0xff) as bv8 == x
    ensures ((Pack(x, y, z, t) >> 8) & 0xff) as bv8 == y
    ensures ((Pack(x, y, z, t) >> 16) & 0xff) as bv8 == z
    ensures (Pack(x, y, z, t) >> 24) as bv8 == t
  {}

  lemma Spread4(b: Bytes)
    requires |b| == 4
    ensures Bytes4(Word4(b)) == b
  {
    hide Pack;
    PackedBytes(b[0], b[1], b[2], b[3]);
  }

  // ---------------------------------------------------------------------------------------------
  // Laying fields out and cutting them apart
  // ---------------------------------------------------------------------------------------------

  function Sum(widths: seq<nat>): nat {
    if widths == [] then 0 else widths[0] + Sum(widths[1..])
  }

  function Concat(chunks: seq<Bytes>): Bytes {
    if chunks == [] then [] else chunks[0] + Concat(chunks[1..])
  }

  function Cut(widths: seq<nat>, b: Bytes): (chunks: seq<Bytes>)
    requires |b| == Sum(widths)
    ensures |chunks| == |widths| && forall i | 0 <= i < |widths| :: |chunks[i]| == widths[i]
  {
    if widths == [] then [] else [b[..widths[0]]] + Cut(widths[1..], b[widths[0]..])
  }

  ghost predicate Fits(widths: seq<nat>, chunks: seq<Bytes>) {
    |chunks| == |widths| && forall i | 0 <= i < |widths| :: |chunks[i]| == widths[i]
  }

  lemma {:induction false} CutOfConcat(widths: seq<nat>, chunks: seq<Bytes>)
    requires Fits(widths, chunks)
    ensures |Concat(chunks)| == Sum(widths) && Cut(widths, Concat(chunks)) == chunks
  {
    if widths != [] {
      CutOfConcat(widths[1..], chunks[1..]);
      assert Concat(chunks)[..widths[0]] == chunks[0];
      assert Concat(chunks)[widths[0]..] == Concat(chunks[1..]);
    }
  }

  lemma {:induction false} ConcatOfCut(widths: seq<nat>, b: Bytes)
    requires |b| == Sum(widths)
    ensures Concat(Cut(widths, b)) == b
  {
    if widths != [] {
      ConcatOfCut(widths[1..], b[widths[0]..]);
      assert Cut(widths, b)[1..] == Cut(widths[1..], b[widths[0]..]);
    }
  }

  /** The widths of the fields that the checksum covers. */
  const WIDTHS: seq<nat> := [4, 4, 4, 4, 4, 4, 8, 2, 2, 2, 2, MAX_HOSTNAME, MAX_DESCRIPTOR, MAX_CMDLINE]
  const CHECKSUM_OFFSET := 4648
  const RECORD_SIZE := 4656

  lemma {:induction false} SumAppend(a: seq<nat>, b: seq<nat>)
    ensures Sum(a + b) == Sum(a) + Sum(b)
  {
    if a == [] {
      assert a + b == b;
    } else {
      assert (a + b)[1..] == a[1..] + b;
      SumAppend(a[1..], b);
    }
  }

  lemma SumOfFour(a: nat, b: nat, c: nat, d: nat)
    ensures Sum([a, b, c, d]) == a + b + c + d
  {
    assert [a, b, c, d][1..] == [b, c, d] && [b, c, d][1..] == [c, d] && [c, d][1..] == [d] && [d][1..] == [];
    assert Sum([d]) == d;
    assert Sum([c, d]) == c + d;
    assert Sum([b, c, d]) == b + Sum([c, d]);
  }

  lemma NoWidth()
    ensures Sum([0, 0]) == 0
  {
    var z: seq<nat> := [0, 0];
    assert z[1..] == [0] && z[1..][1..] == [];
    assert Sum(z[1..]) == 0;
  }

  lemma ChecksumOffset()
    ensures Sum(WIDTHS) == CHECKSUM_OFFSET
  {
    hide Sum;
    var a, b, c, d: seq<nat> := [4, 4, 4, 4], [4, 4, 8, 2], [2, 2, 2, 256], [256, 4096, 0, 0];
    assert WIDTHS + [0, 0] == a + b + c + d;
    SumOfFour(4, 4, 4, 4);
    SumOfFour(4, 4, 8, 2);
    SumOfFour(2, 2, 2, 256);
    SumOfFour(256, 4096, 0, 0);
    SumAppend(a + b + c, d);
    SumAppend(a + b, c);
    SumAppend(a, b);
    SumAppend(WIDTHS, [0, 0]);
    NoWidth();
  }

  function Fields(info: LockInfo): (chunks: seq<Bytes>)
    ensures |chunks| == 14
  {
    [LittleEndian(info.magic, 4), LittleEndian(info.version, 4), LittleEndian(info.pid, 4),
     LittleEndian(info.ppid, 4), LittleEndian(info.uid, 4), LittleEndian(info.gap, 4),
     LittleEndian(info.acquiredAt, 8), LittleEndian(info.lockType, 2), LittleEndian(info.maxHolders, 2),
     LittleEndian(info.slot, 2), LittleEndian(info.reserved, 2), info.hostname, info.descriptor, info.cmdline]
  }

  /** The bytes before the checksum field: what calculate_lock_checksum covers. */
  function Payload(info: LockInfo): Bytes {
    Concat(Fields(info))
  }

  /** The memory image: what write() puts into a lock file. */
  function Image(info: LockInfo): Bytes {
    Payload(info) + Bytes4(info.checksum) + LittleEndian(info.tail, 4)
  }

  function FromFields(c: seq<Bytes>, checksum: bv32, tail: u32): LockInfo
    requires Fits(WIDTHS, c)
  {
    LockInfo(Number4(c[0]), Number4(c[1]), Number4(c[2]), Number4(c[3]), Number4(c[4]), Number4(c[5]),
             Number8(c[6]), Number2(c[7]), Number2(c[8]), Number2(c[9]), Number2(c[10]),
             c[11], c[12], c[13], checksum, tail)
  }

  /** What read() into a struct lock_info yields. */
  function Parse(image: Bytes): LockInfo
    requires |image| == RECORD_SIZE
  {
    ChecksumOffset();
    FromFields(Cut(WIDTHS, image[..CHECKSUM_OFFSET]), Word4(image[CHECKSUM_OFFSET..CHECKSUM_OFFSET + 4]),
               Number4(image[CHECKSUM_OFFSET + 4..]))
  }

  lemma FieldsFit(info: LockInfo)
    requires info.Valid()
    ensures Fits(WIDTHS, Fields(info))
  {
    hide LittleEndian;
  }

  lemma ImageParts(info: LockInfo)
    requires info.Valid()
    ensures |Payload(info)| == CHECKSUM_OFFSET && |Image(info)| == RECORD_SIZE
    ensures Image(info)[..CHECKSUM_OFFSET] == Payload(info)
    ensures Image(info)[CHECKSUM_OFFSET..CHECKSUM_OFFSET + 4] == Bytes4(info.checksum)
    ensures Image(info)[CHECKSUM_OFFSET + 4..] == LittleEndian(info.tail, 4)
  {
    hide Bytes4, LittleEndian, Concat, Fits;
    FieldsFit(info);
    ChecksumOffset();
    CutOfConcat(WIDTHS, Fields(info));
  }

  /** Where each field sits in memory. */
  const OFFSETS: seq<nat> := [0, 4, 8, 12, 16, 20, 24, 32, 34, 36, 38, 40, 296, 552]

  lemma {:induction false} ChunkSitsAt(widths: seq<nat>, chunks: seq<Bytes>, i: nat)
    requires Fits(widths, chunks) && i < |widths|
    ensures var at := Sum(widths[..i]);
            at + widths[i] <= |Concat(chunks)| && Concat(chunks)[at..at + widths[i]] == chunks[i]
  {
    if i == 0 {
      assert Concat(chunks)[..widths[0]] == chunks[0];
    } else {
      ChunkSitsAt(widths[1..], chunks[1..], i - 1);
      assert widths[..i][0] == widths[0] && widths[..i][1..] == widths[1..][..i - 1];
      var at := Sum(widths[1..][..i - 1]);
      assert Concat(chunks)[widths[0] + at..widths[0] + at + widths[i]] == Concat(chunks[1..])[at..at + widths[i]];
    }
  }

  lemma OffsetStep(i: nat)
    requires i + 1 < 14 && Sum(WIDTHS[..i]) == OFFSETS[i] && OFFSETS[i] + WIDTHS[i] == OFFSETS[i + 1]
    ensures Sum(WIDTHS[..i + 1]) == OFFSETS[i + 1]
  {
    hide Sum;
    assert WIDTHS[..i + 1] == WIDTHS[..i] + [WIDTHS[i]];
    SumAppend(WIDTHS[..i], [WIDTHS[i]]);
    SumOfOne(WIDTHS[i]);
  }

  lemma SumOfOne(n: nat)
    ensures Sum([n]) == n
  {
    assert [n][1..] == [];
  }

  lemma {:induction false} OffsetsAreSums(i: nat)
    requires i < 14
    ensures Sum(WIDTHS[..i]) == OFFSETS[i]
  {
    if i == 0 {
      assert WIDTHS[..0] == [];
    } else {
      OffsetsAreSums(i - 1);
      OffsetStep(i - 1);
    }
  }

  /** Every byte of a number, the lowest first. */
  lemma {:induction false} LittleEndianByte(n: nat, k: nat, i: nat)
    requires i < k
    ensures Value(LittleEndian(n, k)[i]) == (n / Limit(i)) % 256
    decreases k
  {
    hide Octet, Value;
    ValueOfOctet(n % 256);
    if i > 0 {
      LittleEndianByte(n / 256, k - 1, i - 1);
      assert LittleEndian(n, k)[i] == LittleEndian(n / 256, k - 1)[i - 1];
      DivideTwice(n, Limit(i - 1));
    }
  }

  lemma DivideTwice(n: nat, m: nat)
    requires m > 0
    ensures (n / 256) / m == n / (256 * m)
  {
    var q, r := (n / 256) / m, (n / 256) % m;
    assert n / 256 == m * q + r;
    assert 256 * (m * q) == (256 * m) * q;
    QuotientIs(n, 256 * m, q, 256 * r + n % 256);
  }

  lemma AtLeastOnce(d: nat, k: nat)
    requires k >= 1
    ensures d * k >= d
  {}

  lemma QuotientIs(n: nat, d: nat, q: nat, r: nat)
    requires n == d * q + r && r < d
    ensures n / d == q
  {
    var p := n / d;
    var t := n % d;
    assert d * p + t == d * q + r && 0 <= t < d;
    assert d * (q - p) == d * q - d * p && d * (p - q) == d * p - d * q;
    if p < q { AtLeastOnce(d, q - p); }
    if p > q { AtLeastOnce(d, p - q); }
  }

  /** Where the fields of a written record are, in a 64-bit little-endian layout. */
  lemma FieldsSitAtOffsets(info: LockInfo)
    requires info.Valid()
    ensures var b := Image(info);
            && |b| == RECORD_SIZE
            && b[0..4] == LittleEndian(info.magic, 4) && b[4..8] == LittleEndian(info.version, 4)
            && b[8..12] == LittleEndian(info.pid, 4) && b[12..16] == LittleEndian(info.ppid, 4)
            && b[16..20] == LittleEndian(info.uid, 4) && b[24..32] == LittleEndian(info.acquiredAt, 8)
            && b[32..34] == LittleEndian(info.lockType, 2) && b[34..36] == LittleEndian(info.maxHolders, 2)
            && b[36..38] == LittleEndian(info.slot, 2) && b[38..40] == LittleEndian(info.reserved, 2)
            && b[40..296] == info.hostname && b[296..552] == info.descriptor && b[552..4648] == info.cmdline
            && b[4648..4652] == Bytes4(info.checksum)
  {
    hide LittleEndian, Bytes4, Concat, Sum;
    ImageParts(info);
    FieldsFit(info);
    var b, chunks := Image(info), Fields(info);
    forall i | 0 <= i < 14
      ensures OFFSETS[i] + WIDTHS[i] <= CHECKSUM_OFFSET && b[OFFSETS[i]..OFFSETS[i] + WIDTHS[i]] == chunks[i]
    {
      ChunkSitsAt(WIDTHS, chunks, i);
      OffsetsAreSums(i);
      assert b[..CHECKSUM_OFFSET][OFFSETS[i]..OFFSETS[i] + WIDTHS[i]] == b[OFFSETS[i]..OFFSETS[i] + WIDTHS[i]];
    }
    FieldRanges(b, chunks);
  }

  lemma FieldRanges(b: Bytes, chunks: seq<Bytes>)
    requires |b| == RECORD_SIZE && |chunks| == 14
    requires forall i | 0 <= i < 14 ::
      OFFSETS[i] + WIDTHS[i] <= CHECKSUM_OFFSET && b[OFFSETS[i]..OFFSETS[i] + WIDTHS[i]] == chunks[i]
    ensures b[0..4] == chunks[0] && b[4..8] == chunks[1] && b[8..12] == chunks[2] && b[12..16] == chunks[3]
    ensures b[16..20] == chunks[4] && b[24..32] == chunks[6] && b[32..34] == chunks[7] && b[34..36] == chunks[8]
    ensures b[36..38] == chunks[9] && b[38..40] == chunks[10] && b[40..296] == chunks[11]
    ensures b[296..552] == chunks[12] && b[552..4648] == chunks[13]
  {
    assert OFFSETS[0] == 0 && OFFSETS[1] == 4 && OFFSETS[2] == 8 && OFFSETS[3] == 12 && OFFSETS[4] == 16;
    assert OFFSETS[6] == 24 && OFFSETS[7] == 32 && OFFSETS[8] == 34 && OFFSETS[9] == 36 && OFFSETS[10] == 38;
    assert OFFSETS[11] == 40 && OFFSETS[12] == 296 && OFFSETS[13] == 552;
  }

  lemma FieldsRoundTrip(info: LockInfo)
    requires info.Valid()
    ensures Fits(WIDTHS, Fields(info)) && FromFields(Fields(info), info.checksum, info.tail) == info
  {
    hide LittleEndian, Number;
    FieldsFit(info);
    Limits();
    NumberOfLittleEndian(info.magic, 4);
    NumberOfLittleEndian(info.version, 4);
    NumberOfLittleEndian(info.pid, 4);
    NumberOfLittleEndian(info.ppid, 4);
    NumberOfLittleEndian(info.uid, 4);
    NumberOfLittleEndian(info.gap, 4);
    NumberOfLittleEndian(info.acquiredAt, 8);
    NumberOfLittleEndian(info.lockType, 2);
    NumberOfLittleEndian(info.maxHolders, 2);
    NumberOfLittleEndian(info.slot, 2);
    NumberOfLittleEndian(info.reserved, 2);
  }

  /** Writing a record and reading it back restores every field. */
  lemma ParseOfImage(info: LockInfo)
    requires info.Valid()
    ensures |Image(info)| == RECORD_SIZE && Parse(Image(info)) == info
  {
    hide Bytes4, Word4, LittleEndian, Number, Concat, Fits, Cut;
    ImageParts(info);
    ChecksumOffset();
    FieldsFit(info);
    CutOfConcat(WIDTHS, Fields(info));
    FieldsRoundTrip(info);
    RoundTrip4(info.checksum);
    Limits();
    NumberOfLittleEndian(info.tail, 4);
  }

  lemma FromFieldsIsValid(c: seq<Bytes>, checksum: bv32, tail: u32)
    requires Fits(WIDTHS, c)
    ensures FromFields(c, checksum, tail).Valid()
  {}

  lemma FieldsOfFromFields(c: seq<Bytes>, checksum: bv32, tail: u32)
    requires Fits(WIDTHS, c)
    ensures Fields(FromFields(c, checksum, tail)) == c
  {
    hide LittleEndian, Number;
    forall i | 0 <= i < 11 ensures LittleEndian(Number(c[i]), |c[i]|) == c[i] {
      LittleEndianOfNumber(c[i]);
    }
  }

  /** Reading any full image and writing it again gives the same bytes: no byte is without a field. */
  lemma ImageOfParse(image: Bytes)
    requires |image| == RECORD_SIZE
    ensures Parse(image).Valid() && Image(Parse(image)) == image
  {
    hide Bytes4, Word4, LittleEndian, Number, Concat, Cut;
    ChecksumOffset();
    var head := image[..CHECKSUM_OFFSET];
    var checksum, tail := image[CHECKSUM_OFFSET..CHECKSUM_OFFSET + 4], image[CHECKSUM_OFFSET + 4..];
    var c := Cut(WIDTHS, head);
    ConcatOfCut(WIDTHS, head);
    FieldsOfFromFields(c, Word4(checksum), Number4(tail));
    FromFieldsIsValid(c, Word4(checksum), Number4(tail));
    Spread4(checksum);
    LittleEndianOfNumber(tail);
    assert image == head + checksum + tail;
  }

  // ---------------------------------------------------------------------------------------------
  // The checksum field
  // ---------------------------------------------------------------------------------------------

  /** calculate_lock_checksum. */
  function LockChecksum(info: LockInfo): bv32 {
    Reference(Payload(info))
  }

  /** validate_lock_checksum. */
  predicate Validate(info: LockInfo) {
    info.checksum == LockChecksum(info)
  }

  method CalculateLockChecksum(info: LockInfo) returns (checksum: bv32)
    ensures checksum == LockChecksum(info)
  {
    checksum := CalculateCrc32(Payload(info));
  }

  method ValidateLockChecksum(info: LockInfo) returns (valid: bool)
    ensures valid <==> Validate(info)
  {
    var expected := CalculateLockChecksum(info);
    valid := info.checksum == expected;
  }

  /** What acquire_lock does to the record before writing it. */
  function Stamp(info: LockInfo): LockInfo {
    info.(checksum := LockChecksum(info))
  }

  lemma StampedIsValid(info: LockInfo)
    ensures Validate(Stamp(info))
  {
    assert Fields(Stamp(info)) == Fields(info);
  }

  /** The part of an image that the checksum protects: payload and checksum field, not the padding. */
  function Codeword(info: LockInfo): Bytes {
    Payload(info) + Bytes4(info.checksum)
  }

  function ClearLow(w: bv32): bv32 {
    w & 0xffffff00
  }

  function DropByte(w: bv32): bv32 {
    w >> 8
  }

  lemma SelfDifference(w: bv32)
    ensures Xor(Register(w), Register(Byte0(w) as bv32)) == Register(ClearLow(w))
  {}

  lemma ClearLowFacts(w: bv32)
    ensures ClearLow(w) & 0xff == 0 && Register(ClearLow(w) >> 8) == Register(DropByte(w))
  {}

  /** Feeding the register its own low byte shifts a whole byte out. */
  lemma ByteAbsorbsItself(w: bv32)
    ensures ByteStep(Register(w), Byte0(w)) == Register(DropByte(w))
  {
    hide Xor, Shifts, Byte0, ClearLow, DropByte;
    SelfDifference(w);
    ClearLowFacts(w);
    HighBytesMove(ClearLow(w));
  }

  lemma BytesByDropping(w: bv32)
    ensures Byte1(w) == Byte0(DropByte(w))
    ensures Byte2(w) == Byte0(DropByte(DropByte(w)))
    ensures Byte3(w) == Byte0(DropByte(DropByte(DropByte(w))))
    ensures Register(DropByte(DropByte(DropByte(DropByte(w))))) == ZERO
  {}

  lemma AbsorbFour(r0: Register, b0: bv8, r1: Register, b1: bv8, r2: Register, b2: bv8, r3: Register,
                   b3: bv8, r4: Register)
    requires ByteStep(r0, b0) == r1 && ByteStep(r1, b1) == r2 && ByteStep(r2, b2) == r3 && ByteStep(r3, b3) == r4
    ensures Absorb(r0, [b0, b1, b2, b3]) == r4
  {
    hide ByteStep;
    assert [b0, b1, b2, b3][1..] == [b1, b2, b3] && [b1, b2, b3][1..] == [b2, b3] && [b2, b3][1..] == [b3];
    assert Absorb(r3, [b3]) == Absorb(r4, [b3][1..]);
    assert Absorb(r2, [b2, b3]) == Absorb(r3, [b3]);
    assert Absorb(r1, [b1, b2, b3]) == Absorb(r2, [b2, b3]);
  }

  /** Feeding the register its own value clears it. */
  lemma WordAbsorbsItself(w: bv32)
    ensures Absorb(Register(w), Bytes4(w)) == ZERO
  {
    hide ByteStep, Byte0, Byte1, Byte2, Byte3, DropByte, Absorb;
    var w1 := DropByte(w);
    var w2 := DropByte(w1);
    var w3 := DropByte(w2);
    BytesByDropping(w);
    ByteAbsorbsItself(w);
    ByteAbsorbsItself(w1);
    ByteAbsorbsItself(w2);
    ByteAbsorbsItself(w3);
    AbsorbFour(Register(w), Byte0(w), Register(w1), Byte0(w1), Register(w2), Byte0(w2), Register(w3), Byte0(w3), ZERO);
  }

  lemma Xor0(u: bv32, v: bv32)
    ensures XorByte(Byte0(u), Byte0(v)) == Byte0(XorWord(u, v))
  {}

  lemma Xor1(u: bv32, v: bv32)
    ensures XorByte(Byte1(u), Byte1(v)) == Byte1(XorWord(u, v))
  {}

  lemma Xor2(u: bv32, v: bv32)
    ensures XorByte(Byte2(u), Byte2(v)) == Byte2(XorWord(u, v))
  {}

  lemma Xor3(u: bv32, v: bv32)
    ensures XorByte(Byte3(u), Byte3(v)) == Byte3(XorWord(u, v))
  {}

  lemma XorOfWords(u: bv32, v: bv32)
    ensures XorBytes(Bytes4(u), Bytes4(v)) == Bytes4(XorWord(u, v))
  {
    hide Byte0, Byte1, Byte2, Byte3, XorByte, XorWord;
    Xor0(u, v);
    Xor1(u, v);
    Xor2(u, v);
    Xor3(u, v);
  }

  function Complement(p: Register): bv32 {
    p.word ^ ALL_ONES
  }

  lemma ComplementIsXor(p: Register)
    ensures Register(Complement(p)) == Xor(p, PRESET)
  {}

  lemma ComplementsDiffer(p: Register, q: Register)
    ensures Register(XorWord(Complement(p), Complement(q))) == Xor(p, q)
  {
    hide Xor, Complement, XorWord;
    ComplementIsXor(p);
    ComplementIsXor(q);
    RegisterOfXor(Complement(p), Complement(q));
    XorExchange(p, PRESET, q, PRESET);
    XorSelf(PRESET);
    XorZero(Xor(p, q));
  }

  /** Whatever was absorbed before, absorbing the complement of the state leaves one fixed state. */
  lemma ComplementGivesResidue(p: Register, q: Register)
    ensures Absorb(p, Bytes4(Complement(p))) == Absorb(q, Bytes4(Complement(q)))
  {
    hide Absorb, Xor, Bytes4, XorBytes, Complement, XorWord;
    var u, v := Complement(p), Complement(q);
    AbsorbIsLinear(p, q, Bytes4(u), Bytes4(v));
    XorOfWords(u, v);
    ComplementsDiffer(p, q);
    WordAbsorbsItself(XorWord(u, v));
    XorZeroMeansEqual(Absorb(p, Bytes4(u)), Absorb(q, Bytes4(v)));
  }

  /** Any two valid records leave the register in the same state. */
  lemma ValidCodewordsShareResidue(x: LockInfo, y: LockInfo)
    requires Validate(x) && Validate(y)
    ensures Absorb(PRESET, Codeword(x)) == Absorb(PRESET, Codeword(y))
  {
    hide Absorb, Payload, Bytes4;
    var px, py := Payload(x), Payload(y);
    ChecksumIsReference(px);
    ChecksumIsReference(py);
    AbsorbAppend(PRESET, px, Bytes4(x.checksum));
    AbsorbAppend(PRESET, py, Bytes4(y.checksum));
    ComplementGivesResidue(Absorb(PRESET, px), Absorb(PRESET, py));
  }

  /** A valid record stays valid under no error burst of up to 32 bits, wherever it falls in the
      payload, in the checksum field, or across both. */
  lemma BurstInvalidates(x: LockInfo, y: LockInfo, start: nat)
    requires Validate(x) && AgreeOutsideBurst(Codeword(x), Codeword(y), start) && Codeword(x) != Codeword(y)
    ensures !Validate(y)
  {
    hide Absorb, Payload, Bytes4, BitsOf;
    if Validate(y) {
      ValidCodewordsShareResidue(x, y);
      BurstIsAbsorbedDifferently(PRESET, Codeword(x), Codeword(y), start);
    }
  }

  /** The part of a window that falls into the first n bytes. */
  lemma WindowIn(head: Bytes, a: Bytes, b: Bytes, rest: Bytes, n: nat) returns (lo: nat, hi: nat)
    requires |a| == |b| <= 4 && n <= |head| + |a| + |rest|
    ensures lo <= hi <= n && hi - lo <= 4
    ensures var f, g := head + a + rest, head + b + rest;
            && f[..n] == f[..lo] + f[lo..hi] + f[hi..n]
            && g[..n] == f[..lo] + g[lo..hi] + f[hi..n]
  {
    lo := if |head| < n then |head| else n;
    hi := if |head| + |a| < n then |head| + |a| else n;
    var f, g := head + a + rest, head + b + rest;
    assert f[..lo] == g[..lo] by { assert f[..lo] == head[..lo] && g[..lo] == head[..lo]; }
    assert f[hi..n] == g[hi..n];
    assert f[..n] == f[..lo] + f[lo..hi] + f[hi..n];
    assert g[..n] == g[..lo] + g[lo..hi] + g[hi..n];
  }

  /** For images that differ inside four consecutive bytes, the changed image is valid exactly when
      only the trailing padding changed. */
  lemma WindowValidityIsExact(head: Bytes, a: Bytes, b: Bytes, rest: Bytes)
    requires |head| + |a| + |rest| == RECORD_SIZE && |a| == |b| <= 4
    requires Validate(Parse(head + a + rest))
    ensures Validate(Parse(head + b + rest))
       <==> (head + b + rest)[..CHECKSUM_OFFSET + 4] == (head + a + rest)[..CHECKSUM_OFFSET + 4]
  {
    hide Absorb, Parse, Payload, Image, Validate, Bytes4;
    var f, g := head + a + rest, head + b + rest;
    CodewordOfImage(f);
    CodewordOfImage(g);
    if f[..CHECKSUM_OFFSET + 4] == g[..CHECKSUM_OFFSET + 4] {
      SameCodewordSameValidity(Parse(f), Parse(g));
    } else if Validate(Parse(g)) {
      ValidCodewordsShareResidue(Parse(f), Parse(g));
      var lo, hi := WindowIn(head, a, b, rest, CHECKSUM_OFFSET + 4);
      var n := CHECKSUM_OFFSET + 4;
      WindowIsAbsorbedDifferently(PRESET, f[..lo], f[lo..hi], g[lo..hi], f[hi..n]);
    }
  }

  lemma CodewordOfImage(image: Bytes)
    requires |image| == RECORD_SIZE
    ensures Parse(image).Valid() && Codeword(Parse(image)) == image[..CHECKSUM_OFFSET + 4]
  {
    hide Parse, Bytes4, Payload;
    ImageOfParse(image);
    ImageParts(Parse(image));
    assert image[..CHECKSUM_OFFSET + 4] == image[..CHECKSUM_OFFSET] + image[CHECKSUM_OFFSET..CHECKSUM_OFFSET + 4];
  }

  lemma SameCodewordSameValidity(x: LockInfo, y: LockInfo)
    requires x.Valid() && y.Valid() && Codeword(x) == Codeword(y)
    ensures Validate(x) == Validate(y)
  {
    hide Bytes4, Payload;
    ImageParts(x);
    ImageParts(y);
    assert Codeword(x)[..CHECKSUM_OFFSET] == Payload(x) && Codeword(y)[..CHECKSUM_OFFSET] == Payload(y);
    assert Codeword(x)[CHECKSUM_OFFSET..] == Bytes4(x.checksum) && Codeword(y)[CHECKSUM_OFFSET..] == Bytes4(y.checksum);
    RoundTrip4(x.checksum);
    RoundTrip4(y.checksum);
  }
}
