/** CRC-32 as src/checksum/checksum.c computes it: a table-driven loop, related to the bit-serial
    register that section 8 of RFC 1952 describes. */
module Crc32 {
  import opened Basics

  const POLYNOMIAL: bv32 := 0xedb88320
  const ALL_ONES: bv32 := 0xffffffff

  // ---------------------------------------------------------------------------------------------
  // The bit-serial reference: a 32-bit register that consumes one message bit at a time,
  // the least significant bit of every byte first.
  // ---------------------------------------------------------------------------------------------

  /** The shift register. Wrapping the word keeps the algebra below apart from bit arithmetic. */
  datatype Register = Register(word: bv32)

  const ZERO: Register := Register(0)
  const PRESET: Register := Register(ALL_ONES)
  const FEEDBACK: Register := Register(POLYNOMIAL)

  function Xor(a: Register, b: Register): Register {
    Register(a.word ^ b.word)
  }

  function ShiftWord(c: bv32): bv32 {
    if c & 1 == 1 then (c >> 1) ^ POLYNOMIAL else c >> 1
  }

  /** One shift: the bit that falls out on the right feeds the polynomial back. */
  function Shift(r: Register): Register {
    Register(ShiftWord(r.word))
  }

  function Shifts(n: nat, r: Register): Register {
    if n == 0 then r else Shifts(n - 1, Shift(r))
  }

  function Bit(bit: bool): Register {
    Register(if bit then 1 else 0)
  }

  /** The register after consuming `bits`, first element first. */
  function Feed(r: Register, bits: seq<bool>): Register
    decreases |bits|
  {
    if bits == [] then r else Feed(Shift(Xor(r, Bit(bits[0]))), bits[1..])
  }

  /** The n low bits of a byte, the lowest first. */
  function LowBits(n: nat, b: bv8): (bits: seq<bool>)
    ensures |bits| == n
    decreases n
  {
    if n == 0 then [] else [b & 1 != 0] + LowBits(n - 1, b >> 1)
  }

  function BitsOf(data: Bytes): (bits: seq<bool>)
    ensures |bits| == 8 * |data|
  {
    if data == [] then [] else LowBits(8, data[0]) + BitsOf(data[1..])
  }

  /** The reference checksum: preset to ones, feed every bit, complement. */
  function Reference(data: Bytes): bv32 {
    Feed(PRESET, BitsOf(data)).word ^ ALL_ONES
  }

  // ---------------------------------------------------------------------------------------------
  // The byte-at-a-time form
  // ---------------------------------------------------------------------------------------------

  function ByteStep(r: Register, b: bv8): Register {
    Shifts(8, Xor(r, Register(b as bv32)))
  }

  function Absorb(r: Register, data: Bytes): Register
    decreases |data|
  {
    if data == [] then r else Absorb(ByteStep(r, data[0]), data[1..])
  }

  function Checksum(data: Bytes): bv32 {
    Absorb(PRESET, data).word ^ ALL_ONES
  }

  /** The 256 constants of src/checksum/checksum.c, sixteen to a row. */
  const ROW_0: seq<bv32> := [
    0x00000000, 0x77073096, 0xee0e612c, 0x990951ba, 0x076dc419, 0x706af48f, 0xe963a535, 0x9e6495a3,
    0x0edb8832, 0x79dcb8a4, 0xe0d5e91e, 0x97d2d988, 0x09b64c2b, 0x7eb17cbd, 0xe7b82d07, 0x90bf1d91
  ]
  const ROW_1: seq<bv32> := [
    0x1db71064, 0x6ab020f2, 0xf3b97148, 0x84be41de, 0x1adad47d, 0x6ddde4eb, 0xf4d4b551, 0x83d385c7,
    0x136c9856, 0x646ba8c0, 0xfd62f97a, 0x8a65c9ec, 0x14015c4f, 0x63066cd9, 0xfa0f3d63, 0x8d080df5
  ]
  const ROW_2: seq<bv32> := [
    0x3b6e20c8, 0x4c69105e, 0xd56041e4, 0xa2677172, 0x3c03e4d1, 0x4b04d447, 0xd20d85fd, 0xa50ab56b,
    0x35b5a8fa, 0x42b2986c, 0xdbbbc9d6, 0xacbcf940, 0x32d86ce3, 0x45df5c75, 0xdcd60dcf, 0xabd13d59
  ]
  const ROW_3: seq<bv32> := [
    0x26d930ac, 0x51de003a, 0xc8d75180, 0xbfd06116, 0x21b4f4b5, 0x56b3c423, 0xcfba9599, 0xb8bda50f,
    0x2802b89e, 0x5f058808, 0xc60cd9b2, 0xb10be924, 0x2f6f7c87, 0x58684c11, 0xc1611dab, 0xb6662d3d
  ]
  const ROW_4: seq<bv32> := [
    0x76dc4190, 0x01db7106, 0x98d220bc, 0xefd5102a, 0x71b18589, 0x06b6b51f, 0x9fbfe4a5, 0xe8b8d433,
    0x7807c9a2, 0x0f00f934, 0x9609a88e, 0xe10e9818, 0x7f6a0dbb, 0x086d3d2d, 0x91646c97, 0xe6635c01
  ]
  const ROW_5: seq<bv32> := [
    0x6b6b51f4, 0x1c6c6162, 0x856530d8, 0xf262004e, 0x6c0695ed, 0x1b01a57b, 0x8208f4c1, 0xf50fc457,
    0x65b0d9c6, 0x12b7e950, 0x8bbeb8ea, 0xfcb9887c, 0x62dd1ddf, 0x15da2d49, 0x8cd37cf3, 0xfbd44c65
  ]
  const ROW_6: seq<bv32> := [
    0x4db26158, 0x3ab551ce, 0xa3bc0074, 0xd4bb30e2, 0x4adfa541, 0x3dd895d7, 0xa4d1c46d, 0xd3d6f4fb,
    0x4369e96a, 0x346ed9fc, 0xad678846, 0xda60b8d0, 0x44042d73, 0x33031de5, 0xaa0a4c5f, 0xdd0d7cc9
  ]
  const ROW_7: seq<bv32> := [
    0x5005713c, 0x270241aa, 0xbe0b1010, 0xc90c2086, 0x5768b525, 0x206f85b3, 0xb966d409, 0xce61e49f,
    0x5edef90e, 0x29d9c998, 0xb0d09822, 0xc7d7a8b4, 0x59b33d17, 0x2eb40d81, 0xb7bd5c3b, 0xc0ba6cad
  ]
  const ROW_8: seq<bv32> := [
    0xedb88320, 0x9abfb3b6, 0x03b6e20c, 0x74b1d29a, 0xead54739, 0x9dd277af, 0x04db2615, 0x73dc1683,
    0xe3630b12, 0x94643b84, 0x0d6d6a3e, 0x7a6a5aa8, 0xe40ecf0b, 0x9309ff9d, 0x0a00ae27, 0x7d079eb1
  ]
  const ROW_9: seq<bv32> := [
    0xf00f9344, 0x8708a3d2, 0x1e01f268, 0x6906c2fe, 0xf762575d, 0x806567cb, 0x196c3671, 0x6e6b06e7,
    0xfed41b76, 0x89d32be0, 0x10da7a5a, 0x67dd4acc, 0xf9b9df6f, 0x8ebeeff9, 0x17b7be43, 0x60b08ed5
  ]
  const ROW_A: seq<bv32> := [
    0xd6d6a3e8, 0xa1d1937e, 0x38d8c2c4, 0x4fdff252, 0xd1bb67f1, 0xa6bc5767, 0x3fb506dd, 0x48b2364b,
    0xd80d2bda, 0xaf0a1b4c, 0x36034af6, 0x41047a60, 0xdf60efc3, 0xa867df55, 0x316e8eef, 0x4669be79
  ]
  const ROW_B: seq<bv32> := [
    0xcb61b38c, 0xbc66831a, 0x256fd2a0, 0x5268e236, 0xcc0c7795, 0xbb0b4703, 0x220216b9, 0x5505262f,
    0xc5ba3bbe, 0xb2bd0b28, 0x2bb45a92, 0x5cb36a04, 0xc2d7ffa7, 0xb5d0cf31, 0x2cd99e8b, 0x5bdeae1d
  ]
  const ROW_C: seq<bv32> := [
    0x9b64c2b0, 0xec63f226, 0x756aa39c, 0x026d930a, 0x9c0906a9, 0xeb0e363f, 0x72076785, 0x05005713,
    0x95bf4a82, 0xe2b87a14, 0x7bb12bae, 0x0cb61b38, 0x92d28e9b, 0xe5d5be0d, 0x7cdcefb7, 0x0bdbdf21
  ]
  const ROW_D: seq<bv32> := [
    0x86d3d2d4, 0xf1d4e242, 0x68ddb3f8, 0x1fda836e, 0x81be16cd, 0xf6b9265b, 0x6fb077e1, 0x18b74777,
    0x88085ae6, 0xff0f6a70, 0x66063bca, 0x11010b5c, 0x8f659eff, 0xf862ae69, 0x616bffd3, 0x166ccf45
  ]
  const ROW_E: seq<bv32> := [
    0xa00ae278, 0xd70dd2ee, 0x4e048354, 0x3903b3c2, 0xa7672661, 0xd06016f7, 0x4969474d, 0x3e6e77db,
    0xaed16a4a, 0xd9d65adc, 0x40df0b66, 0x37d83bf0, 0xa9bcae53, 0xdebb9ec5, 0x47b2cf7f, 0x30b5ffe9
  ]
  const ROW_F: seq<bv32> := [
    0xbdbdf21c, 0xcabac28a, 0x53b39330, 0x24b4a3a6, 0xbad03605, 0xcdd70693, 0x54de5729, 0x23d967bf,
    0xb3667a2e, 0xc4614ab8, 0x5d681b02, 0x2a6f2b94, 0xb40bbe37, 0xc30c8ea1, 0x5a05df1b, 0x2d02ef8d
  ]

  const TABLE: seq<seq<bv32>> := [
    ROW_0, ROW_1, ROW_2, ROW_3, ROW_4, ROW_5, ROW_6, ROW_7,
    ROW_8, ROW_9, ROW_A, ROW_B, ROW_C, ROW_D, ROW_E, ROW_F
  ]

  function Lookup(i: bv8): bv32 {
    TABLE[(i >> 4) as int][(i & 15) as int]
  }

  /** The source's loop: one table lookup per byte. */
  method CalculateCrc32(data: Bytes) returns (crc: bv32)
    ensures crc == Reference(data)
  {
    crc := ALL_ONES;
    for i := 0 to |data|
      invariant Absorb(Register(crc), data[i..]) == Absorb(PRESET, data)
    {
      TableStepIsByteStep(crc, data[i]);
      assert data[i..][0] == data[i] && data[i..][1..] == data[i + 1..];
      crc := TableStep(crc, data[i]);
    }
    ChecksumIsReference(data);
    crc := crc ^ ALL_ONES;
  }

  // ---------------------------------------------------------------------------------------------
  // The register is linear and reversible
  // ---------------------------------------------------------------------------------------------

  lemma XorCommutes(a: Register, b: Register)
    ensures Xor(a, b) == Xor(b, a)
  {}

  lemma XorAssociates(a: Register, b: Register, c: Register)
    ensures Xor(Xor(a, b), c) == Xor(a, Xor(b, c))
  {}

  lemma XorZero(a: Register)
    ensures Xor(a, ZERO) == a && Xor(ZERO, a) == a
  {}

  lemma XorSelf(a: Register)
    ensures Xor(a, a) == ZERO
  {}

  lemma XorZeroMeansEqual(a: Register, b: Register)
    ensures Xor(a, b) == ZERO <==> a == b
  {}

  lemma XorCancels(a: Register, b: Register)
    ensures Xor(Xor(a, b), b) == a
  {}

  lemma XorExchange(a: Register, b: Register, c: Register, d: Register)
    ensures Xor(Xor(a, b), Xor(c, d)) == Xor(Xor(a, c), Xor(b, d))
  {
    hide Xor;
    XorAssociates(a, b, Xor(c, d));
    XorAssociates(b, c, d);
    XorCommutes(b, c);
    XorAssociates(c, b, d);
    XorAssociates(a, c, Xor(b, d));
  }

  function Half(r: Register): Register {
    Register(r.word >> 1)
  }

  predicate Odd(r: Register) {
    r.word & 1 == 1
  }

  lemma ShiftCases(r: Register)
    ensures Shift(r) == if Odd(r) then Xor(Half(r), FEEDBACK) else Half(r)
  {}

  lemma HalfIsLinear(a: Register, b: Register)
    ensures Half(Xor(a, b)) == Xor(Half(a), Half(b))
  {}

  lemma OddIsLinear(a: Register, b: Register)
    ensures Odd(Xor(a, b)) <==> Odd(a) != Odd(b)
  {}

  lemma ShiftIsLinear(a: Register, b: Register)
    ensures Shift(Xor(a, b)) == Xor(Shift(a), Shift(b))
  {
    hide Xor, Half, Odd, Shift;
    ShiftCases(a);
    ShiftCases(b);
    ShiftCases(Xor(a, b));
    HalfIsLinear(a, b);
    OddIsLinear(a, b);
    XorAssociates(Half(a), Half(b), FEEDBACK);
    XorAssociates(Half(a), FEEDBACK, Half(b));
    XorCommutes(FEEDBACK, Half(b));
    XorExchange(Half(a), FEEDBACK, Half(b), FEEDBACK);
    XorSelf(FEEDBACK);
    XorZero(Xor(Half(a), Half(b)));
  }

  lemma {:induction false} ShiftsAreLinear(n: nat, a: Register, b: Register)
    ensures Shifts(n, Xor(a, b)) == Xor(Shifts(n, a), Shifts(n, b))
  {
    hide Shift, Xor;
    if n > 0 {
      ShiftIsLinear(a, b);
      ShiftsAreLinear(n - 1, Shift(a), Shift(b));
    }
  }

  lemma {:induction false} ShiftsCompose(m: nat, n: nat, r: Register)
    ensures Shifts(m + n, r) == Shifts(n, Shifts(m, r))
  {
    hide Shift;
    if m > 0 {
      ShiftsCompose(m - 1, n, Shift(r));
    }
  }

  /** The shift undone: the top bit tells whether the polynomial was fed back. */
  function Unshift(r: Register): Register {
    if r.word & 0x80000000 == 0 then Register(r.word << 1)
    else Register(((r.word ^ POLYNOMIAL) << 1) | 1)
  }

  function Unshifts(n: nat, r: Register): Register {
    if n == 0 then r else Unshift(Unshifts(n - 1, r))
  }

  lemma UnshiftAfterShift(r: Register)
    ensures Unshift(Shift(r)) == r
  {}

  lemma ShiftAfterUnshiftClear(r: Register)
    requires r.word & 0x80000000 == 0
    ensures Shift(Unshift(r)) == r
  {}

  lemma ShiftAfterUnshiftSet(r: Register)
    requires r.word & 0x80000000 != 0
    ensures Shift(Unshift(r)) == r
  {}

  lemma ShiftAfterUnshift(r: Register)
    ensures Shift(Unshift(r)) == r
  {
    hide Shift, Unshift;
    if r.word & 0x80000000 == 0 { ShiftAfterUnshiftClear(r); } else { ShiftAfterUnshiftSet(r); }
  }

  lemma {:induction false} ShiftsAreReversible(n: nat, r: Register)
    ensures Unshifts(n, Shifts(n, r)) == r
    ensures Shifts(n, Unshifts(n, r)) == r
  {
    hide Shift, Unshift;
    if n > 0 {
      ShiftsAreReversible(n - 1, Shift(r));
      UnshiftAfterShift(r);
      ShiftAfterUnshift(Unshifts(n - 1, r));
      ShiftsAreReversible(n - 1, r);
    }
  }

  /** The register before the byte `b` was consumed. */
  function ByteUnstep(r: Register, b: bv8): Register {
    Xor(Unshifts(8, r), Register(b as bv32))
  }

  /** Consuming a fixed byte is a bijection on the 32-bit state: ByteUnstep is its inverse. */
  lemma ByteStepIsBijective(r: Register, b: bv8)
    ensures ByteUnstep(ByteStep(r, b), b) == r
    ensures ByteStep(ByteUnstep(r, b), b) == r
  {
    hide Xor, Shifts, Unshifts;
    var m := Register(b as bv32);
    ShiftsAreReversible(8, Xor(r, m));
    ShiftsAreReversible(8, r);
    XorCancels(r, m);
    XorCancels(Unshifts(8, r), m);
  }

  lemma {:induction false} AbsorbAppend(r: Register, a: Bytes, b: Bytes)
    ensures Absorb(r, a + b) == Absorb(Absorb(r, a), b)
    decreases |a|
  {
    hide ByteStep;
    if a == [] {
      assert a + b == b;
    } else {
      assert (a + b)[0] == a[0] && (a + b)[1..] == a[1..] + b;
      AbsorbAppend(ByteStep(r, a[0]), a[1..], b);
    }
  }

  /** Different states stay different whatever common bytes follow. */
  lemma {:induction false} AbsorbIsInjective(p: Register, q: Register, data: Bytes)
    requires Absorb(p, data) == Absorb(q, data)
    ensures p == q
    decreases |data|
  {
    hide ByteStep, ByteUnstep;
    if data != [] {
      AbsorbIsInjective(ByteStep(p, data[0]), ByteStep(q, data[0]), data[1..]);
      ByteStepIsBijective(p, data[0]);
      ByteStepIsBijective(q, data[0]);
    }
  }

  // ---------------------------------------------------------------------------------------------
  // The table: every entry is eight shifts of its index
  // ---------------------------------------------------------------------------------------------

  function EightShifts(c: bv32): bv32 {
    ShiftWord(ShiftWord(ShiftWord(ShiftWord(ShiftWord(ShiftWord(ShiftWord(ShiftWord(c))))))))
  }

  lemma EightShiftsAreShifts(c: bv32)
    ensures Shifts(8, Register(c)) == Register(EightShifts(c))
  {
    hide ShiftWord;
    var r := Register(c);
    var r3 := Shift(Shift(Shift(r)));
    var r6 := Shift(Shift(Shift(r3)));
    assert Shifts(8, r) == Shifts(7, Shift(r));
    assert Shifts(7, Shift(r)) == Shifts(6, Shift(Shift(r)));
    assert Shifts(6, Shift(Shift(r))) == Shifts(5, r3);
    assert Shifts(5, r3) == Shifts(4, Shift(r3));
    assert Shifts(4, Shift(r3)) == Shifts(3, Shift(Shift(r3)));
    assert Shifts(3, Shift(Shift(r3))) == Shifts(2, r6);
    assert Shifts(2, r6) == Shifts(1, Shift(r6));
    assert Shifts(1, Shift(r6)) == Shifts(0, Shift(Shift(r6)));
  }

  /** Row h of the table is row 0 with the first entry of row h added to every element. */
  ghost predicate Translate(row: seq<bv32>, first: bv32) {
    |row| == 16 && forall l | 0 <= l < 16 :: row[l] == first ^ ROW_0[l]
  }

  lemma Row0Quarter0()
    ensures |ROW_0| == 16
    ensures ROW_0[0] == EightShifts(0) && ROW_0[1] == EightShifts(1)
    ensures ROW_0[2] == EightShifts(2) && ROW_0[3] == EightShifts(3)
  {}

  lemma Row0Quarter1()
    ensures |ROW_0| == 16
    ensures ROW_0[4] == EightShifts(4) && ROW_0[5] == EightShifts(5)
    ensures ROW_0[6] == EightShifts(6) && ROW_0[7] == EightShifts(7)
  {}

  lemma Row0Quarter2()
    ensures |ROW_0| == 16
    ensures ROW_0[8] == EightShifts(8) && ROW_0[9] == EightShifts(9)
    ensures ROW_0[10] == EightShifts(10) && ROW_0[11] == EightShifts(11)
  {}

  lemma Row0Quarter3()
    ensures |ROW_0| == 16
    ensures ROW_0[12] == EightShifts(12) && ROW_0[13] == EightShifts(13)
    ensures ROW_0[14] == EightShifts(14) && ROW_0[15] == EightShifts(15)
  {}


  lemma Row1IsTranslate()
    ensures Translate(ROW_1, EightShifts(16))
  {
    assert ROW_1[0] == EightShifts(16);
  }

  lemma Row2IsTranslate()
    ensures Translate(ROW_2, EightShifts(32))
  {
    assert ROW_2[0] == EightShifts(32);
  }

  lemma Row3IsTranslate()
    ensures Translate(ROW_3, EightShifts(48))
  {
    assert ROW_3[0] == EightShifts(48);
  }

  lemma Row4IsTranslate()
    ensures Translate(ROW_4, EightShifts(64))
  {
    assert ROW_4[0] == EightShifts(64);
  }

  lemma Row5IsTranslate()
    ensures Translate(ROW_5, EightShifts(80))
  {
    assert ROW_5[0] == EightShifts(80);
  }

  lemma Row6IsTranslate()
    ensures Translate(ROW_6, EightShifts(96))
  {
    assert ROW_6[0] == EightShifts(96);
  }

  lemma Row7IsTranslate()
    ensures Translate(ROW_7, EightShifts(112))
  {
    assert ROW_7[0] == EightShifts(112);
  }

  lemma Row8IsTranslate()
    ensures Translate(ROW_8, EightShifts(128))
  {
    assert ROW_8[0] == EightShifts(128);
  }

  lemma Row9IsTranslate()
    ensures Translate(ROW_9, EightShifts(144))
  {
    assert ROW_9[0] == EightShifts(144);
  }

  lemma RowAIsTranslate()
    ensures Translate(ROW_A, EightShifts(160))
  {
    assert ROW_A[0] == EightShifts(160);
  }

  lemma RowBIsTranslate()
    ensures Translate(ROW_B, EightShifts(176))
  {
    assert ROW_B[0] == EightShifts(176);
  }

  lemma RowCIsTranslate()
    ensures Translate(ROW_C, EightShifts(192))
  {
    assert ROW_C[0] == EightShifts(192);
  }

  lemma RowDIsTranslate()
    ensures Translate(ROW_D, EightShifts(208))
  {
    assert ROW_D[0] == EightShifts(208);
  }

  lemma RowEIsTranslate()
    ensures Translate(ROW_E, EightShifts(224))
  {
    assert ROW_E[0] == EightShifts(224);
  }

  lemma RowFIsTranslate()
    ensures Translate(ROW_F, EightShifts(240))
  {
    assert ROW_F[0] == EightShifts(240);
  }

  lemma Row0Entry(l: bv8)
    requires l < 16
    ensures |ROW_0| == 16 && ROW_0[l as int] == EightShifts(l as bv32)
  {
    hide EightShifts;
    Row0Quarter0();
    Row0Quarter1();
    Row0Quarter2();
    Row0Quarter3();
  }

  lemma RowsAreTranslates(h: bv8)
    requires 0 < h < 16
    ensures Translate(TABLE[h as int], EightShifts((h as bv32) << 4))
  {
    hide EightShifts, Translate;
    if h == 1 {
      Row1IsTranslate();
    } else if h == 2 {
      Row2IsTranslate();
    } else if h == 3 {
      Row3IsTranslate();
    } else if h == 4 {
      Row4IsTranslate();
    } else if h == 5 {
      Row5IsTranslate();
    } else if h == 6 {
      Row6IsTranslate();
    } else if h == 7 {
      Row7IsTranslate();
    } else if h == 8 {
      Row8IsTranslate();
    } else if h == 9 {
      Row9IsTranslate();
    } else if h == 10 {
      RowAIsTranslate();
    } else if h == 11 {
      RowBIsTranslate();
    } else if h == 12 {
      RowCIsTranslate();
    } else if h == 13 {
      RowDIsTranslate();
    } else if h == 14 {
      RowEIsTranslate();
    } else if h == 15 {
      RowFIsTranslate();
    }
  }

  lemma TranslateAt(row: seq<bv32>, first: bv32, l: int)
    requires Translate(row, first) && 0 <= l < 16 && |ROW_0| == 16
    ensures Register(row[l]) == Xor(Register(first), Register(ROW_0[l]))
  {}

  lemma Nibbles(i: bv8)
    ensures (i >> 4) < 16 && (i & 15) < 16
    ensures Register(i as bv32) == Xor(Register(((i >> 4) as bv32) << 4), Register((i & 15) as bv32))
    ensures i >> 4 == 0 ==> i & 15 == i
  {}

  /** Every one of the 256 table entries is the eight-shift reduction of its index. */
  lemma TableIsReduction(i: bv8)
    ensures |TABLE| == 16 && |TABLE[(i >> 4) as int]| == 16
    ensures Register(Lookup(i)) == Shifts(8, Register(i as bv32))
  {
    hide EightShifts, Shifts, Xor;
    var h, l := i >> 4, i & 15;
    Nibbles(i);
    Row0Entry(l);
    EightShiftsAreShifts(l as bv32);
    if h != 0 {
      RowsAreTranslates(h);
      TranslateAt(TABLE[h as int], EightShifts((h as bv32) << 4), l as int);
      EightShiftsAreShifts((h as bv32) << 4);
      ShiftsAreLinear(8, Register((h as bv32) << 4), Register(l as bv32));
    }
  }

  lemma FourShiftsMove(h: bv32)
    requires h & 15 == 0
    ensures Shift(Shift(Shift(Shift(Register(h))))) == Register(h >> 4)
  {}

  lemma NibbleMoves(h: bv32)
    requires h & 0xff == 0
    ensures h & 15 == 0 && (h >> 4) & 15 == 0 && (h >> 4) >> 4 == h >> 8
  {}

  /** Eight shifts only move a word whose low byte is clear. */
  lemma HighBytesMove(h: bv32)
    requires h & 0xff == 0
    ensures Shifts(8, Register(h)) == Register(h >> 8)
  {
    hide Shift;
    EightShiftsAreShifts(h);
    NibbleMoves(h);
    FourShiftsMove(h);
    FourShiftsMove(h >> 4);
  }

  function Mix(c: bv32, b: bv8): bv32 {
    c ^ (b as bv32)
  }

  function LowByte(x: bv32): bv8 {
    (x & 0xff) as bv8
  }

  function HighBytes(x: bv32): bv32 {
    x & 0xffffff00
  }

  lemma MixIsXor(c: bv32, b: bv8)
    ensures Xor(Register(c), Register(b as bv32)) == Register(Mix(c, b))
  {}

  lemma SplitWord(x: bv32)
    ensures Register(x) == Xor(Register(LowByte(x) as bv32), Register(HighBytes(x)))
  {}

  lemma HighBytesFacts(c: bv32, b: bv8)
    ensures HighBytes(Mix(c, b)) & 0xff == 0
    ensures Register(HighBytes(Mix(c, b)) >> 8) == Register(c >> 8)
  {}

  /** The loop body of calculate_crc32. */
  function TableStep(c: bv32, b: bv8): bv32 {
    Lookup(LowByte(Mix(c, b))) ^ (c >> 8)
  }

  lemma TableStepParts(c: bv32, b: bv8)
    ensures Register(TableStep(c, b)) == Xor(Register(Lookup(LowByte(Mix(c, b)))), Register(c >> 8))
  {
    hide Lookup, LowByte, Mix;
  }

  /** The loop body is the eight-shift step of the reference register. */
  lemma TableStepIsByteStep(c: bv32, b: bv8)
    ensures Register(TableStep(c, b)) == ByteStep(Register(c), b)
  {
    hide Shifts, Lookup, Xor, LowByte, HighBytes, TableStep, Mix;
    MixIsXor(c, b);
    SplitWord(Mix(c, b));
    HighBytesFacts(c, b);
    TableStepParts(c, b);
    var i := LowByte(Mix(c, b));
    var h := HighBytes(Mix(c, b));
    TableIsReduction(i);
    HighBytesMove(h);
    ShiftsAreLinear(8, Register(i as bv32), Register(h));
  }

  // ---------------------------------------------------------------------------------------------
  // The byte form is the bit-serial reference
  // ---------------------------------------------------------------------------------------------

  function Or(a: Register, b: Register): Register {
    Register(a.word | b.word)
  }

  function Double(r: Register): Register {
    Register(r.word << 1)
  }

  predicate TopBit(r: Register) {
    r.word & 0x80000000 != 0
  }

  /** The first 32 bits of a stream as a word, the first bit lowest. */
  function Word(bits: seq<bool>): Register {
    if bits == [] then ZERO else Or(Bit(bits[0]), Double(Word(bits[1..])))
  }

  /** The top k bits of r are zero. */
  ghost predicate TopClear(k: nat, r: Register)
    decreases k
  {
    k > 0 ==> !TopBit(r) && TopClear(k - 1, Double(r))
  }

  lemma DoubleOr(a: Register, b: Register)
    ensures Double(Or(a, b)) == Or(Double(a), Double(b))
    ensures TopBit(Or(a, b)) <==> TopBit(a) || TopBit(b)
  {}

  lemma {:induction false} TopClearOr(k: nat, a: Register, b: Register)
    requires TopClear(k, a) && TopClear(k, b)
    ensures TopClear(k, Or(a, b))
    decreases k
  {
    hide Or, Double, TopBit;
    if k > 0 {
      DoubleOr(a, b);
      TopClearOr(k - 1, Double(a), Double(b));
    }
  }

  lemma {:induction false} TopClearShorter(k: nat, r: Register)
    requires TopClear(k + 1, r)
    ensures TopClear(k, r)
    decreases k
  {
    hide Double, TopBit;
    if k > 0 {
      TopClearShorter(k - 1, Double(r));
    }
  }

  lemma DoubleZero()
    ensures Double(ZERO) == ZERO && !TopBit(ZERO)
  {}

  lemma {:induction false} TopClearZero(k: nat)
    ensures TopClear(k, ZERO)
  {
    hide Double, TopBit;
    DoubleZero();
    if k > 0 {
      TopClearZero(k - 1);
    }
  }

  lemma DoubleFour(w: bv32)
    requires w & 0xf0000000 == 0
    ensures var d1 := Double(Register(w));
            var d2 := Double(d1);
            var d3 := Double(d2);
            && Double(d3) == Register(w << 4)
            && !TopBit(Register(w)) && !TopBit(d1) && !TopBit(d2) && !TopBit(d3)
  {}

  lemma TopClearFour(k: nat, w: bv32)
    requires w & 0xf0000000 == 0 && TopClear(k, Register(w << 4))
    ensures TopClear(k + 4, Register(w))
  {
    hide Double, TopBit;
    DoubleFour(w);
    var d1 := Double(Register(w));
    var d2 := Double(d1);
    var d3 := Double(d2);
    assert TopClear(k + 1, d3);
    assert TopClear(k + 2, d2);
    assert TopClear(k + 3, d1);
  }

  lemma TopClearOne31()
    ensures TopClear(31, Register(1))
  {
    assert TopClear(1, Register(0x40000000));
    assert TopClear(2, Register(0x20000000));
    assert TopClear(3, Register(0x10000000));
    TopClearFour(3, 0x01000000);
    TopClearFour(7, 0x00100000);
    TopClearFour(11, 0x00010000);
    TopClearFour(15, 0x00001000);
    TopClearFour(19, 0x00000100);
    TopClearFour(23, 0x00000010);
    TopClearFour(27, 0x00000001);
  }

  lemma {:induction false} TopClearOne(k: nat)
    requires k <= 31
    ensures TopClear(k, Register(1))
    decreases 31 - k
  {
    hide TopClear;
    if k == 31 {
      TopClearOne31();
    } else {
      TopClearOne(k + 1);
      TopClearShorter(k, Register(1));
    }
  }

  lemma {:induction false} WordFits(bits: seq<bool>)
    requires |bits| <= 32
    ensures TopClear(32 - |bits|, Word(bits))
  {
    hide Or, Double, TopBit;
    if bits == [] {
      TopClearZero(32);
    } else {
      var k := 32 - |bits|;
      WordFits(bits[1..]);
      if bits[0] { TopClearOne(k); } else { TopClearZero(k); }
      TopClearOr(k, Bit(bits[0]), Double(Word(bits[1..])));
    }
  }

  lemma OrIsXor(b: bool, w: Register)
    requires !TopBit(w)
    ensures Or(Bit(b), Double(w)) == Xor(Bit(b), Double(w))
  {}

  lemma ShiftOfDouble(w: Register)
    requires !TopBit(w)
    ensures Shift(Double(w)) == w
  {}

  lemma LowBitOf(b: bool, w: Register)
    requires !TopBit(w)
    ensures Odd(Or(Bit(b), Double(w))) == b
    ensures Half(Or(Bit(b), Double(w))) == w
  {}

  /** Up to 32 bits go through the register like one word added at once. */
  lemma {:induction false} FeedIsShifts(r: Register, bits: seq<bool>)
    requires |bits| <= 32
    ensures Feed(r, bits) == Shifts(|bits|, Xor(r, Word(bits)))
    decreases |bits|
  {
    hide Or, Double, TopBit, Xor, Shift, Bit;
    if bits == [] {
      XorZero(r);
    } else {
      var b, rest := Bit(bits[0]), bits[1..];
      var w := Word(rest);
      WordFits(rest);
      OrIsXor(bits[0], w);
      ShiftOfDouble(w);
      XorAssociates(r, b, Double(w));
      ShiftIsLinear(Xor(r, b), Double(w));
      FeedIsShifts(Shift(Xor(r, b)), rest);
    }
  }

  lemma {:induction false} WordIsInjective(a: seq<bool>, b: seq<bool>)
    requires |a| == |b| <= 32 && Word(a) == Word(b)
    ensures a == b
    decreases |a|
  {
    hide Or, Double, TopBit, Half, Odd, Bit;
    if a != [] {
      WordFits(a[1..]);
      WordFits(b[1..]);
      LowBitOf(a[0], Word(a[1..]));
      LowBitOf(b[0], Word(b[1..]));
      WordIsInjective(a[1..], b[1..]);
      assert a == [a[0]] + a[1..] && b == [b[0]] + b[1..];
    }
  }

  lemma {:induction false} FeedAppend(r: Register, a: seq<bool>, b: seq<bool>)
    ensures Feed(r, a + b) == Feed(Feed(r, a), b)
    decreases |a|
  {
    hide Shift, Xor, Bit;
    if a == [] {
      assert a + b == b;
    } else {
      assert (a + b)[0] == a[0] && (a + b)[1..] == a[1..] + b;
      FeedAppend(Shift(Xor(r, Bit(a[0]))), a[1..], b);
    }
  }

  ghost predicate FitsIn(n: nat, b: bv8)
    decreases n
  {
    if n == 0 then b == 0 else FitsIn(n - 1, b >> 1)
  }

  lemma ByteFitsInEight(b: bv8)
    ensures FitsIn(8, b)
  {
    var b3 := ((b >> 1) >> 1) >> 1;
    var b6 := ((b3 >> 1) >> 1) >> 1;
    assert (b6 >> 1) >> 1 == 0;
    assert FitsIn(2, b6);
    assert FitsIn(3, (b3 >> 1) >> 1);
    assert FitsIn(4, b3 >> 1);
    assert FitsIn(5, b3);
    assert FitsIn(6, (b >> 1) >> 1);
    assert FitsIn(7, b >> 1);
  }

  lemma ByteFromHalf(b: bv8)
    ensures Or(Bit(b & 1 != 0), Double(Register((b >> 1) as bv32))) == Register(b as bv32)
  {}

  lemma {:induction false} WordOfLowBits(n: nat, b: bv8)
    requires FitsIn(n, b)
    ensures Word(LowBits(n, b)) == Register(b as bv32)
    decreases n
  {
    hide Or, Double, Bit;
    if n > 0 {
      ByteFromHalf(b);
      WordOfLowBits(n - 1, b >> 1);
      assert LowBits(n, b)[1..] == LowBits(n - 1, b >> 1);
    }
  }

  /** The byte-at-a-time form consumes exactly the bits of the bytes. */
  lemma {:induction false} ByteFormIsBitForm(r: Register, data: Bytes)
    ensures Absorb(r, data) == Feed(r, BitsOf(data))
    decreases |data|
  {
    hide Word, Shifts, Xor;
    if data != [] {
      var bits := LowBits(8, data[0]);
      ByteFitsInEight(data[0]);
      WordOfLowBits(8, data[0]);
      FeedIsShifts(r, bits);
      FeedAppend(r, bits, BitsOf(data[1..]));
      ByteFormIsBitForm(ByteStep(r, data[0]), data[1..]);
    }
  }

  /** The byte form computes the reference checksum. */
  lemma ChecksumIsReference(data: Bytes)
    ensures Checksum(data) == Reference(data)
  {
    ByteFormIsBitForm(PRESET, data);
  }

  // ---------------------------------------------------------------------------------------------
  // Error detection
  // ---------------------------------------------------------------------------------------------

  lemma {:induction false} FeedIsInjective(p: Register, q: Register, bits: seq<bool>)
    requires Feed(p, bits) == Feed(q, bits)
    ensures p == q
    decreases |bits|
  {
    hide Shift, Xor, Unshift, Bit;
    if bits != [] {
      var b := Bit(bits[0]);
      FeedIsInjective(Shift(Xor(p, b)), Shift(Xor(q, b)), bits[1..]);
      UnshiftAfterShift(Xor(p, b));
      UnshiftAfterShift(Xor(q, b));
      XorCancels(p, b);
      XorCancels(q, b);
    }
  }

  /** A burst of at most 32 bits cannot be absorbed: streams that differ only inside 32 consecutive
      bits leave the register in different states. */
  lemma BurstChangesState(r: Register, head: seq<bool>, a: seq<bool>, b: seq<bool>, tail: seq<bool>)
    requires |a| == |b| <= 32
    requires Feed(r, head + a + tail) == Feed(r, head + b + tail)
    ensures a == b
  {
    hide Feed, Shifts, Xor, Word;
    FeedAppend(r, head + a, tail);
    FeedAppend(r, head + b, tail);
    FeedAppend(r, head, a);
    FeedAppend(r, head, b);
    var s := Feed(r, head);
    FeedIsInjective(Feed(s, a), Feed(s, b), tail);
    FeedIsShifts(s, a);
    FeedIsShifts(s, b);
    var wa, wb := Xor(s, Word(a)), Xor(s, Word(b));
    ShiftsAreReversible(|a|, wa);
    ShiftsAreReversible(|a|, wb);
    XorCommutes(s, Word(a));
    XorCommutes(s, Word(b));
    XorCancels(Word(a), s);
    XorCancels(Word(b), s);
    WordIsInjective(a, b);
  }

  lemma {:induction false} BitsOfAppend(a: Bytes, b: Bytes)
    ensures BitsOf(a + b) == BitsOf(a) + BitsOf(b)
    decreases |a|
  {
    hide LowBits;
    if a == [] {
      assert a + b == b;
    } else {
      assert (a + b)[0] == a[0] && (a + b)[1..] == a[1..] + b;
      BitsOfAppend(a[1..], b);
    }
  }

  lemma SameWord(x: bv8, y: bv8)
    requires Register(x as bv32) == Register(y as bv32)
    ensures x == y
  {}

  lemma {:induction false} BitsOfIsInjective(a: Bytes, b: Bytes)
    requires |a| == |b| && BitsOf(a) == BitsOf(b)
    ensures a == b
    decreases |a|
  {
    hide LowBits, Word;
    if a != [] {
      assert BitsOf(a)[..8] == LowBits(8, a[0]) && BitsOf(b)[..8] == LowBits(8, b[0]);
      assert BitsOf(a)[8..] == BitsOf(a[1..]) && BitsOf(b)[8..] == BitsOf(b[1..]);
      ByteFitsInEight(a[0]);
      ByteFitsInEight(b[0]);
      WordOfLowBits(8, a[0]);
      WordOfLowBits(8, b[0]);
      SameWord(a[0], b[0]);
      BitsOfIsInjective(a[1..], b[1..]);
    }
  }

  /** Two byte strings agree on every transmitted bit outside the 32 bits that start at `start`. */
  ghost predicate AgreeOutsideBurst(x: Bytes, y: Bytes, start: nat) {
    && |x| == |y|
    && forall k | 0 <= k < 8 * |x| && !(start <= k < start + 32) :: BitsOf(x)[k] == BitsOf(y)[k]
  }

  /** The register tells apart any two byte strings that differ only inside a burst of 32 bits. */
  lemma BurstIsAbsorbedDifferently(r: Register, x: Bytes, y: Bytes, start: nat)
    requires AgreeOutsideBurst(x, y, start)
    requires Absorb(r, x) == Absorb(r, y)
    ensures x == y
  {
    hide Absorb, Feed, BitsOf;
    var p, q := BitsOf(x), BitsOf(y);
    var n := |p|;
    var lo := if start < n then start else n;
    var hi := if start + 32 < n then start + 32 else n;
    assert q[..lo] == p[..lo] && q[hi..] == p[hi..];
    assert p == p[..lo] + p[lo..hi] + p[hi..];
    assert q == p[..lo] + q[lo..hi] + p[hi..];
    ByteFormIsBitForm(r, x);
    ByteFormIsBitForm(r, y);
    BurstChangesState(r, p[..lo], p[lo..hi], q[lo..hi], p[hi..]);
    BitsOfIsInjective(x, y);
  }

  lemma SameComplement(p: Register, q: Register)
    requires p.word ^ ALL_ONES == q.word ^ ALL_ONES
    ensures p == q
  {}

  lemma EqualChecksumsMeanEqualStates(x: Bytes, y: Bytes)
    requires Reference(x) == Reference(y)
    ensures Absorb(PRESET, x) == Absorb(PRESET, y)
  {
    hide Absorb, Feed;
    SameComplement(Feed(PRESET, BitsOf(x)), Feed(PRESET, BitsOf(y)));
    ByteFormIsBitForm(PRESET, x);
    ByteFormIsBitForm(PRESET, y);
  }

  /** Every error burst of at most 32 bits changes the checksum. */
  lemma BurstIsDetected(x: Bytes, y: Bytes, start: nat)
    requires AgreeOutsideBurst(x, y, start) && x != y
    ensures Reference(x) != Reference(y)
  {
    hide Absorb, Reference;
    if Reference(x) == Reference(y) {
      EqualChecksumsMeanEqualStates(x, y);
      BurstIsAbsorbedDifferently(PRESET, x, y, start);
    }
  }

  /** The same for the register and a window of at most four consecutive bytes. */
  lemma WindowIsAbsorbedDifferently(r: Register, head: Bytes, a: Bytes, b: Bytes, tail: Bytes)
    requires |a| == |b| <= 4
    requires Absorb(r, head + a + tail) == Absorb(r, head + b + tail)
    ensures a == b
  {
    hide Absorb, Feed, BitsOf;
    ByteFormIsBitForm(r, head + a + tail);
    ByteFormIsBitForm(r, head + b + tail);
    BitsOfAppend(head + a, tail);
    BitsOfAppend(head + b, tail);
    BitsOfAppend(head, a);
    BitsOfAppend(head, b);
    BurstChangesState(r, BitsOf(head), BitsOf(a), BitsOf(b), BitsOf(tail));
    BitsOfIsInjective(a, b);
  }

  /** Any change confined to four consecutive bytes changes the checksum. */
  lemma WindowIsDetected(head: Bytes, a: Bytes, b: Bytes, tail: Bytes)
    requires |a| == |b| <= 4 && a != b
    ensures Reference(head + a + tail) != Reference(head + b + tail)
  {
    var x, y := head + a + tail, head + b + tail;
    hide Absorb, Reference;
    if Reference(x) == Reference(y) {
      EqualChecksumsMeanEqualStates(x, y);
      WindowIsAbsorbedDifferently(PRESET, head, a, b, tail);
    }
  }

  // ---------------------------------------------------------------------------------------------
  // Affinity
  // ---------------------------------------------------------------------------------------------

  function XorByte(x: bv8, y: bv8): bv8 {
    x ^ y
  }

  function XorBytes(x: Bytes, y: Bytes): (z: Bytes)
    requires |x| == |y|
    ensures |z| == |x|
  {
    seq(|x|, i requires 0 <= i < |x| => XorByte(x[i], y[i]))
  }

  function Zeros(n: nat): Bytes {
    seq(n, _ => 0)
  }

  lemma ByteXor(x: bv8, y: bv8)
    ensures Register(XorByte(x, y) as bv32) == Xor(Register(x as bv32), Register(y as bv32))
  {}

  lemma ByteStepIsLinear(p: Register, q: Register, x: bv8, y: bv8)
    ensures ByteStep(Xor(p, q), XorByte(x, y)) == Xor(ByteStep(p, x), ByteStep(q, y))
  {
    hide Shifts, Xor, XorByte;
    var mx, my := Register(x as bv32), Register(y as bv32);
    ByteXor(x, y);
    XorExchange(p, mx, q, my);
    XorExchange(p, q, mx, my);
    ShiftsAreLinear(8, Xor(p, mx), Xor(q, my));
  }

  lemma {:induction false} AbsorbIsLinear(p: Register, q: Register, x: Bytes, y: Bytes)
    requires |x| == |y|
    ensures Absorb(Xor(p, q), XorBytes(x, y)) == Xor(Absorb(p, x), Absorb(q, y))
    decreases |x|
  {
    hide ByteStep, Xor, XorByte;
    if x != [] {
      ByteStepIsLinear(p, q, x[0], y[0]);
      assert XorBytes(x, y)[1..] == XorBytes(x[1..], y[1..]);
      AbsorbIsLinear(ByteStep(p, x[0]), ByteStep(q, y[0]), x[1..], y[1..]);
    }
  }

  lemma XorThree(a: Register, b: Register, c: Register, p: Register)
    ensures Xor(Xor(Xor(a, p), Xor(b, p)), Xor(c, p)) == Xor(Xor(a, Xor(b, c)), p)
  {
    hide Xor;
    XorExchange(a, p, b, p);
    XorSelf(p);
    XorZero(Xor(a, b));
    XorAssociates(Xor(a, b), c, p);
    XorAssociates(a, b, c);
  }

  lemma StateComplement(r: Register)
    ensures Register(r.word ^ ALL_ONES) == Xor(r, PRESET)
  {}

  lemma ReferenceIsState(data: Bytes)
    ensures Register(Reference(data)) == Xor(Absorb(PRESET, data), PRESET)
  {
    hide Absorb, Xor, Reference;
    ChecksumIsReference(data);
    StateComplement(Absorb(PRESET, data));
  }

  function XorWord(u: bv32, v: bv32): bv32 {
    u ^ v
  }

  lemma RegisterOfXor(u: bv32, v: bv32)
    ensures Register(XorWord(u, v)) == Xor(Register(u), Register(v))
  {}

  lemma SumOfWords(u: bv32, v: bv32, w: bv32)
    ensures Register(XorWord(XorWord(u, v), w)) == Xor(Xor(Register(u), Register(v)), Register(w))
  {
    hide Xor, XorWord;
    RegisterOfXor(u, v);
    RegisterOfXor(XorWord(u, v), w);
  }

  lemma XorByteZero(x: bv8)
    ensures XorByte(x, 0) == x
  {}

  lemma XorWithZeros(x: Bytes)
    ensures XorBytes(x, Zeros(|x|)) == x
  {
    hide XorByte;
    forall i | 0 <= i < |x| ensures XorBytes(x, Zeros(|x|))[i] == x[i] {
      XorByteZero(x[i]);
    }
  }

  /** The checksum is affine: the checksum of a sum is the sum of the checksums, corrected by the
      checksum of as many zero bytes. */
  lemma ChecksumIsAffine(x: Bytes, y: Bytes)
    requires |x| == |y|
    ensures Reference(XorBytes(x, y)) == XorWord(XorWord(Reference(x), Reference(y)), Reference(Zeros(|x|)))
  {
    hide Absorb, Xor, XorWord, Reference, XorBytes;
    var z := Zeros(|x|);
    ReferenceIsState(x);
    ReferenceIsState(y);
    ReferenceIsState(z);
    ReferenceIsState(XorBytes(x, y));
    XorWithZeros(y);
    XorSelf(PRESET);
    XorZero(PRESET);
    AbsorbIsLinear(PRESET, PRESET, y, z);
    AbsorbIsLinear(PRESET, Xor(PRESET, PRESET), x, XorBytes(y, z));
    XorThree(Absorb(PRESET, x), Absorb(PRESET, y), Absorb(PRESET, z), PRESET);
    SumOfWords(Reference(x), Reference(y), Reference(z));
  }

  /** A 33-bit burst that is the polynomial itself, lowest transmitted bit first. */
  const GENERATOR_BURST: Bytes := [0x41, 0x06, 0x71, 0xdb, 0x01]

  lemma GeneratorSteps()
    ensures ByteStep(Register(0x00000000), 0x41) == Register(0x01db7106)
    ensures ByteStep(Register(0x01db7106), 0x06) == Register(0x0001db71)
    ensures ByteStep(Register(0x0001db71), 0x71) == Register(0x000001db)
    ensures ByteStep(Register(0x000001db), 0xdb) == Register(0x00000001)
    ensures ByteStep(Register(0x00000001), 0x01) == Register(0x00000000)
  {
    hide ByteStep;
    TableStepIsByteStep(0x00000000, 0x41);
    assert TableStep(0x00000000, 0x41) == 0x01db7106;
    TableStepIsByteStep(0x01db7106, 0x06);
    assert TableStep(0x01db7106, 0x06) == 0x0001db71;
    TableStepIsByteStep(0x0001db71, 0x71);
    assert TableStep(0x0001db71, 0x71) == 0x000001db;
    TableStepIsByteStep(0x000001db, 0xdb);
    assert TableStep(0x000001db, 0xdb) == 0x00000001;
    TableStepIsByteStep(0x00000001, 0x01);
    assert TableStep(0x00000001, 0x01) == 0x00000000;
  }

  lemma GeneratorVanishes()
    ensures Absorb(ZERO, GENERATOR_BURST) == ZERO
  {
    GeneratorSteps();
    hide ByteStep;
    var d := GENERATOR_BURST;
    assert d[1..] == [0x06, 0x71, 0xdb, 0x01] && d[1..][1..] == [0x71, 0xdb, 0x01];
    assert d[1..][1..][1..] == [0xdb, 0x01] && d[1..][1..][1..][1..] == [0x01];
  }

  /** Thirty-two bits is the exact limit: flipping the 33 bits of the polynomial anywhere in any
      message leaves the checksum unchanged. */
  lemma BurstLimitIsSharp(head: Bytes, x: Bytes, tail: Bytes)
    requires |x| == 5
    ensures XorBytes(x, GENERATOR_BURST) != x
    ensures Reference(head + XorBytes(x, GENERATOR_BURST) + tail) == Reference(head + x + tail)
  {
    var y := XorBytes(x, GENERATOR_BURST);
    assert y != x by { FlippedBit(x[4]); }
    hide Absorb, Reference, Xor, XorBytes;
    GeneratorVanishes();
    var r := Absorb(PRESET, head);
    XorZero(r);
    XorZero(Absorb(r, x));
    AbsorbIsLinear(r, ZERO, x, GENERATOR_BURST);
    AbsorbAppend(PRESET, head + y, tail);
    AbsorbAppend(PRESET, head + x, tail);
    AbsorbAppend(PRESET, head, y);
    AbsorbAppend(PRESET, head, x);
    ChecksumIsReference(head + y + tail);
    ChecksumIsReference(head + x + tail);
  }

  lemma FlippedBit(b: bv8)
    ensures XorByte(b, 0x01) != b
  {}
}
