/** A lock file that has been created but not written yet is empty. Read as text it yields a record
    with the magic and zeros, and its checksum field is zero. This module shows that the CRC-32 of that
    record is not zero, so that no scan takes an empty file for a lock. The record is 4648 bytes long;
    its 37152 shifts are computed by repeated squaring. */
module UnwrittenFile {
  import opened Basics
  import opened Crc32
  import opened LockRecord
  import opened TextFormat
  import opened LockFile
  import D = LockDirectory
  import P = LockProtocol

  // ---------------------------------------------------------------------------------------------
  // Shifting a register many times is multiplying it by a power
  // ---------------------------------------------------------------------------------------------

  const TOP: bv32 := 0x80000000
  const ONE: Register := Register(TOP)

  function Pick(a: bv32, b: Register): Register {
    if a & TOP != 0 then b else ZERO
  }

  function Left(a: bv32): bv32 {
    a << 1
  }

  /** The sum of the i-fold shifts of b over the n highest bits i of a, the highest being i = 0. */
  function Mul(n: nat, a: bv32, b: Register): Register
    decreases n
  {
    if n == 0 then ZERO else Xor(Pick(a, b), Shift(Mul(n - 1, Left(a), b)))
  }

  lemma ShiftOfZero()
    ensures Shift(ZERO) == ZERO
  {}

  lemma ShiftOfPick(a: bv32, b: Register)
    ensures Shift(Pick(a, b)) == Pick(a, Shift(b))
  {
    ShiftOfZero();
  }

  lemma {:induction false} ShiftOfMul(n: nat, a: bv32, b: Register)
    ensures Shift(Mul(n, a, b)) == Mul(n, a, Shift(b))
    decreases n
  {
    hide Shift, Pick, Left, Xor;
    if n == 0 {
      ShiftOfZero();
    } else {
      ShiftOfMul(n - 1, Left(a), b);
      ShiftIsLinear(Pick(a, b), Shift(Mul(n - 1, Left(a), b)));
      ShiftOfPick(a, b);
    }
  }

  lemma {:induction false} ShiftsOfMul(m: nat, n: nat, a: bv32, b: Register)
    ensures Shifts(m, Mul(n, a, b)) == Mul(n, a, Shifts(m, b))
    decreases m
  {
    hide Shift, Mul;
    if m > 0 {
      ShiftOfMul(n, a, b);
      ShiftsOfMul(m - 1, n, a, Shift(b));
    }
  }

  /** n left shifts clear the word. */
  predicate Emptied(n: nat, a: bv32)
    decreases n
  {
    if n == 0 then a == 0 else Emptied(n - 1, Left(a))
  }

  function Left4(a: bv32): bv32 {
    a << 4
  }

  lemma LeftFour(a: bv32)
    ensures Left(Left(Left(Left(a)))) == Left4(a)
  {}

  lemma EmptiedFour(n: nat, a: bv32)
    requires Emptied(n, Left4(a))
    ensures Emptied(n + 4, a)
  {
    hide Left, Left4;
    LeftFour(a);
    assert Emptied(n + 1, Left(Left(Left(a))));
    assert Emptied(n + 2, Left(Left(a)));
    assert Emptied(n + 3, Left(a));
  }

  lemma EightNibbles(a: bv32)
    ensures Left4(Left4(Left4(Left4(Left4(Left4(Left4(Left4(a)))))))) == 0
  {}

  lemma AllEmptied(a: bv32)
    ensures Emptied(32, a)
  {
    hide Left4;
    EightNibbles(a);
    var a1 := Left4(a);
    var a2 := Left4(a1);
    var a3 := Left4(a2);
    var a4 := Left4(a3);
    var a5 := Left4(a4);
    var a6 := Left4(a5);
    var a7 := Left4(a6);
    EmptiedFour(0, a7);
    EmptiedFour(4, a6);
    EmptiedFour(8, a5);
    EmptiedFour(12, a4);
    EmptiedFour(16, a3);
    EmptiedFour(20, a2);
    EmptiedFour(24, a1);
    EmptiedFour(28, a);
  }

  lemma LeftIsEven(a: bv32)
    ensures Left(a) & 1 == 0
  {}

  lemma TopClear(a: bv32)
    requires a & TOP == 0
    ensures Left(a) >> 1 == a
  {}

  lemma TopSet(a: bv32)
    requires a & TOP != 0
    ensures TOP ^ (Left(a) >> 1) == a
  {}

  lemma HalfOfEven(c: bv32)
    requires c & 1 == 0
    ensures Shift(Register(c)) == Register(c >> 1)
  {}

  lemma Reassemble(a: bv32)
    ensures Xor(Pick(a, ONE), Shift(Register(Left(a)))) == Register(a)
  {
    hide Left, Shift;
    LeftIsEven(a);
    HalfOfEven(Left(a));
    if a & TOP == 0 {
      TopClear(a);
      XorZero(Register(a));
      XorCommutes(Register(a), ZERO);
    } else {
      TopSet(a);
    }
  }

  /** Every word is the sum of the shifts of ONE that its bits name. */
  lemma {:induction false} MulOne(n: nat, a: bv32)
    requires Emptied(n, a)
    ensures Mul(n, a, ONE) == Register(a)
    decreases n
  {
    hide Shift, Pick, Left, Xor;
    if n > 0 {
      MulOne(n - 1, Left(a));
      Reassemble(a);
    }
  }

  /** The register that m shifts make of ONE. */
  function Power(m: nat): Register {
    Shifts(m, ONE)
  }

  lemma ShiftsArePowers(m: nat, a: bv32)
    ensures Shifts(m, Register(a)) == Mul(32, a, Power(m))
  {
    hide Shifts, Mul;
    AllEmptied(a);
    MulOne(32, a);
    ShiftsOfMul(m, 32, a, ONE);
  }

  /** Powers add. */
  lemma PowersAdd(m: nat, n: nat, a: bv32)
    requires Power(m) == Register(a)
    ensures Power(m + n) == Mul(32, a, Power(n))
  {
    hide Shifts, Mul;
    ShiftsCompose(m, n, ONE);
    ShiftsArePowers(n, a);
  }

  // ---------------------------------------------------------------------------------------------
  // Products of constants, four bits at a time
  // ---------------------------------------------------------------------------------------------

  function PickWord(a: bv32, b: bv32): bv32 {
    if a & TOP != 0 then b else 0
  }

  function Turn(a: bv32, b: bv32, r: bv32): bv32 {
    PickWord(a, b) ^ ShiftWord(r)
  }

  /** Four turns of Mul. */
  function FourTurns(a: bv32, b: bv32, r: bv32): bv32 {
    Turn(a, b, Turn(Left(a), b, Turn(Left(Left(a)), b, Turn(Left(Left(Left(a))), b, r))))
  }

  lemma PickIsWord(a: bv32, b: bv32)
    ensures Pick(a, Register(b)) == Register(PickWord(a, b))
  {}

  lemma OneTurn(a: bv32, b: bv32, r: bv32)
    ensures Xor(Pick(a, Register(b)), Shift(Register(r))) == Register(Turn(a, b, r))
  {
    hide Pick, PickWord, ShiftWord;
    PickIsWord(a, b);
  }

  lemma MulNext(n: nat, a: bv32, b: bv32, r: bv32)
    requires Mul(n, Left(a), Register(b)) == Register(r)
    ensures Mul(n + 1, a, Register(b)) == Register(Turn(a, b, r))
  {
    hide Left, Pick, Shift, Xor, Turn;
    OneTurn(a, b, r);
  }

  lemma MulFour(n: nat, a: bv32, b: bv32, r: bv32)
    requires Mul(n, Left4(a), Register(b)) == Register(r)
    ensures Mul(n + 4, a, Register(b)) == Register(FourTurns(a, b, r))
  {
    hide Left, Left4, Mul, Turn;
    LeftFour(a);
    var a1 := Left(a);
    var a2 := Left(a1);
    var a3 := Left(a2);
    MulNext(n, a3, b, r);
    MulNext(n + 1, a2, b, Turn(a3, b, r));
    MulNext(n + 2, a1, b, Turn(a2, b, Turn(a3, b, r)));
    MulNext(n + 3, a, b, Turn(a1, b, Turn(a2, b, Turn(a3, b, r))));
  }

  /** A product by its eight intermediate results. */
  lemma Product(a: bv32, b: bv32, c1: bv32, c2: bv32, c3: bv32, c4: bv32, c5: bv32, c6: bv32, c7: bv32, c8: bv32)
    requires var a1 := Left4(a); var a2 := Left4(a1); var a3 := Left4(a2); var a4 := Left4(a3);
             var a5 := Left4(a4); var a6 := Left4(a5); var a7 := Left4(a6);
             && FourTurns(a7, b, 0) == c1 && FourTurns(a6, b, c1) == c2 && FourTurns(a5, b, c2) == c3
             && FourTurns(a4, b, c3) == c4 && FourTurns(a3, b, c4) == c5 && FourTurns(a2, b, c5) == c6
             && FourTurns(a1, b, c6) == c7 && FourTurns(a, b, c7) == c8
    ensures Mul(32, a, Register(b)) == Register(c8)
  {
    hide FourTurns, Mul, Left4;
    var a1 := Left4(a);
    var a2 := Left4(a1);
    var a3 := Left4(a2);
    var a4 := Left4(a3);
    var a5 := Left4(a4);
    var a6 := Left4(a5);
    var a7 := Left4(a6);
    MulNothing(a7, b);
    MulFour(0, a7, b, 0);
    MulFour(4, a6, b, c1);
    MulFour(8, a5, b, c2);
    MulFour(12, a4, b, c3);
    MulFour(16, a3, b, c4);
    MulFour(20, a2, b, c5);
    MulFour(24, a1, b, c6);
    MulFour(28, a, b, c7);
  }

  lemma MulNothing(a: bv32, b: bv32)
    ensures Mul(0, Left4(a), Register(b)) == Register(0)
  {}

  // ---------------------------------------------------------------------------------------------
  // The powers up to 37152 = 8 * 4644
  // ---------------------------------------------------------------------------------------------

  lemma ShiftsOfOne()
    ensures EightShifts(0x80000000) == 0x00800000 && EightShifts(0x00800000) == 0x00008000
    ensures EightShifts(0x00008000) == 0x00000080
  {}

  lemma ShiftsOfOneMore()
    ensures EightShifts(0x00000080) == POLYNOMIAL && EightShifts(POLYNOMIAL) == 0x3b83984b
    ensures ShiftWord(ShiftWord(ShiftWord(0x3b83984b))) == 0x4ac21251
  {}

  lemma ThreeShifts(c: bv32)
    ensures Shifts(3, Register(c)) == Register(ShiftWord(ShiftWord(ShiftWord(c))))
  {
    hide ShiftWord;
    var r := Register(c);
    assert Shifts(3, r) == Shifts(2, Shift(r));
    assert Shifts(2, Shift(r)) == Shifts(1, Shift(Shift(r)));
    assert Shifts(1, Shift(Shift(r))) == Shifts(0, Shift(Shift(Shift(r))));
  }

  lemma Power43()
    ensures Power(43) == Register(0x4ac21251)
  {
    hide Shifts, EightShifts, ShiftWord;
    ShiftsOfOne();
    ShiftsOfOneMore();
    EightShiftsAreShifts(0x80000000);
    EightShiftsAreShifts(0x00800000);
    EightShiftsAreShifts(0x00008000);
    EightShiftsAreShifts(0x00000080);
    EightShiftsAreShifts(POLYNOMIAL);
    ShiftsCompose(8, 8, ONE);
    ShiftsCompose(16, 8, ONE);
    ShiftsCompose(24, 8, ONE);
    ShiftsCompose(32, 8, ONE);
    ShiftsCompose(40, 3, ONE);
    ThreeShifts(0x3b83984b);
  }

  lemma Power86()
    ensures Power(86) == Register(0x979f1129)
  {
    hide Power, Mul;
    Power43();
    Product(0x4ac21251, 0x4ac21251,
            0x32366282, 0xc2a2ae6a, 0xbe904c0a, 0xef09c5aa, 0xbc4afab6, 0xc46d56aa, 0xf43ea1d7, 0x979f1129);
    PowersAdd(43, 43, 0x4ac21251);
  }

  lemma Power129()
    ensures Power(129) == Register(0xbd8d91ab)
  {
    hide Power, Mul;
    Power43();
    Power86();
    Product(0x4ac21251, 0x979f1129,
            0x299dc2ed, 0x0ba0c7a3, 0x7558b90c, 0xb5ac8bcd, 0xdeb29fb2, 0x076d13ae, 0x64d8a7b1, 0xbd8d91ab);
    PowersAdd(43, 86, 0x4ac21251);
  }

  lemma Power258()
    ensures Power(258) == Register(0xd6e01c4b)
  {
    hide Power, Mul;
    Power129();
    Product(0xbd8d91ab, 0xbd8d91ab,
            0x5389e41c, 0x97d66b80, 0x537eb5d5, 0x89d2f86f, 0xe1d0d4a9, 0x439f0fa5, 0x3ba2a83d, 0xd6e01c4b);
    PowersAdd(129, 129, 0xbd8d91ab);
  }

  lemma Power516()
    ensures Power(516) == Register(0x5888657a)
  {
    hide Power, Mul;
    Power258();
    Product(0xd6e01c4b, 0xd6e01c4b,
            0x2f52bb38, 0x69852596, 0x1b02a24f, 0xeb63bae9, 0xfeb9a8ea, 0x27c96d8a, 0xfcbe7d97, 0x5888657a);
    PowersAdd(258, 258, 0xd6e01c4b);
  }

  lemma Power1032()
    ensures Power(1032) == Register(0xadb033b8)
  {
    hide Power, Mul;
    Power516();
    Product(0x5888657a, 0x5888657a,
            0xa312ff04, 0xd6fe8b9c, 0xc782558b, 0x10c73e17, 0x098167a7, 0x0815023c, 0xc36df7e9, 0xadb033b8);
    PowersAdd(516, 516, 0x5888657a);
  }

  lemma Power1161()
    ensures Power(1161) == Register(0x3fd8ac9d)
  {
    hide Power, Mul;
    Power129();
    Power1032();
    Product(0xbd8d91ab, 0xadb033b8,
            0x936a3921, 0x925d8ca0, 0x1c93debd, 0x3f1cdaf0, 0xed2fe1bc, 0x38060f13, 0xcb877c4e, 0x3fd8ac9d);
    PowersAdd(129, 1032, 0xbd8d91ab);
  }

  lemma Power2322()
    ensures Power(2322) == Register(0x421d0b1b)
  {
    hide Power, Mul;
    Power1161();
    Product(0x3fd8ac9d, 0x3fd8ac9d,
            0x1ca1cf88, 0x0287853e, 0x6daee3d8, 0xad90ab37, 0x6504d712, 0x219fa231, 0x7a254f78, 0x421d0b1b);
    PowersAdd(1161, 1161, 0x3fd8ac9d);
  }

  lemma Power4644()
    ensures Power(4644) == Register(0x6004f052)
  {
    hide Power, Mul;
    Power2322();
    Product(0x421d0b1b, 0x421d0b1b,
            0x8c0f4b56, 0x008355d6, 0xc1b51f53, 0x2ac26159, 0x39f978dc, 0xdd0a9506, 0xcb81487e, 0x6004f052);
    PowersAdd(2322, 2322, 0x421d0b1b);
  }

  lemma Power9288()
    ensures Power(9288) == Register(0xe07ef0b7)
  {
    hide Power, Mul;
    Power4644();
    Product(0x6004f052, 0x6004f052,
            0xf5b9bf34, 0x33597dd0, 0x033597dd, 0x5983637c, 0xaefe8cae, 0xaae50ab2, 0x31c07063, 0xe07ef0b7);
    PowersAdd(4644, 4644, 0x6004f052);
  }

  lemma Power18576()
    ensures Power(18576) == Register(0xbd2eb152)
  {
    hide Power, Mul;
    Power9288();
    Product(0xe07ef0b7, 0xe07ef0b7,
            0x82f9b988, 0x1a97aafc, 0x9acdb81f, 0xd69660a2, 0xe8853393, 0xaaa8da1d, 0x8c795f75, 0xbd2eb152);
    PowersAdd(9288, 9288, 0xe07ef0b7);
  }

  lemma Power37152()
    ensures Power(37152) == Register(0x4b84ba75)
  {
    hide Power, Mul;
    Power18576();
    Product(0xbd2eb152, 0xbd2eb152,
            0xc2f32f74, 0x451dbc74, 0x13f40ded, 0x99489b96, 0x656c2e6e, 0x64af0fea, 0x525c2d57, 0x4b84ba75);
    PowersAdd(18576, 18576, 0xbd2eb152);
  }

  // ---------------------------------------------------------------------------------------------
  // The record of an empty file
  // ---------------------------------------------------------------------------------------------

  lemma {:induction false} AbsorbZeros(r: Register, n: nat)
    ensures Absorb(r, Zeros(n)) == Shifts(8 * n, r)
    decreases n
  {
    hide Xor;
    if n > 0 {
      XorZero(r);
      ZeroByte();
      assert ByteStep(r, 0) == Shifts(8, r);
      assert Zeros(n)[1..] == Zeros(n - 1);
      AbsorbZeros(ByteStep(r, 0), n - 1);
      ShiftsCompose(8, 8 * (n - 1), r);
    }
  }

  lemma ZeroByte()
    ensures Register((0 as bv8) as bv32) == ZERO
  {}

  lemma MagicSteps()
    ensures ByteStep(PRESET, 0x4b) == Register(0xccf3886a)
    ensures ByteStep(Register(0xccf3886a), 0x4c) == Register(0xd2c17675)
    ensures ByteStep(Register(0xd2c17675), 0x41) == Register(0x216635c3)
    ensures ByteStep(Register(0x216635c3), 0x57) == Register(0xf7433168)
  {
    hide ByteStep;
    TableStepIsByteStep(ALL_ONES, 0x4b);
    assert TableStep(ALL_ONES, 0x4b) == 0xccf3886a;
    TableStepIsByteStep(0xccf3886a, 0x4c);
    assert TableStep(0xccf3886a, 0x4c) == 0xd2c17675;
    TableStepIsByteStep(0xd2c17675, 0x41);
    assert TableStep(0xd2c17675, 0x41) == 0x216635c3;
    TableStepIsByteStep(0x216635c3, 0x57);
    assert TableStep(0x216635c3, 0x57) == 0xf7433168;
  }

  const MAGIC_BYTES: Bytes := [0x4b, 0x4c, 0x41, 0x57]

  lemma LoneTopTurns(b: bv32)
    ensures Left(TOP) == 0 && Left(0) == 0
    ensures Turn(0, b, 0) == 0 && Turn(TOP, b, 0) == b
  {}

  /** A lone top bit picks b as it is. */
  lemma LoneTop(b: bv32)
    ensures FourTurns(TOP, b, 0) == b
  {
    hide Turn, Left;
    LoneTopTurns(b);
  }

  lemma BlankTurns2()
    ensures FourTurns(0x68000000, 0x4b84ba75, 0x4b84ba75) == 0xc394ab44
  {}

  lemma BlankTurns3()
    ensures FourTurns(0x16800000, 0x4b84ba75, 0xc394ab44) == 0xa5433f82
  {}

  lemma BlankTurns4()
    ensures FourTurns(0x31680000, 0x4b84ba75, 0xa5433f82) == 0x8aa1489b
  {}

  lemma BlankTurns5()
    ensures FourTurns(0x33168000, 0x4b84ba75, 0x8aa1489b) == 0x7850fcae
  {}

  lemma BlankTurns6()
    ensures FourTurns(0x43316800, 0x4b84ba75, 0x7850fcae) == 0x6ff533a8
  {}

  lemma BlankTurns7()
    ensures FourTurns(0x74331680, 0x4b84ba75, 0x6ff533a8) == 0x98a655ab
  {}

  lemma LastLefts()
    ensures Left(0xf7433168) == 0xee8662d0 && Left(0xee8662d0) == 0xdd0cc5a0 && Left(0xdd0cc5a0) == 0xba198b40
  {}

  lemma LastTurn1()
    ensures Turn(0xba198b40, 0x4b84ba75, 0x98a655ab) == 0xea6f1380
  {}

  lemma LastTurn2()
    ensures Turn(0xdd0cc5a0, 0x4b84ba75, 0xea6f1380) == 0x3eb333b5
  {}

  lemma LastTurn3()
    ensures Turn(0xee8662d0, 0x4b84ba75, 0x3eb333b5) == 0xb965a08f
  {}

  lemma LastTurn4()
    ensures Turn(0xf7433168, 0x4b84ba75, 0xb965a08f) == 0xfa8ee912
  {}

  lemma BlankTurns8()
    ensures FourTurns(0xf7433168, 0x4b84ba75, 0x98a655ab) == 0xfa8ee912
  {
    hide Turn, Left;
    LastLefts();
    LastTurn1();
    LastTurn2();
    LastTurn3();
    LastTurn4();
  }

  lemma BlankNibbles()
    ensures Left4(0xf7433168) == 0x74331680
    ensures Left4(0x74331680) == 0x43316800
    ensures Left4(0x43316800) == 0x33168000
    ensures Left4(0x33168000) == 0x31680000
    ensures Left4(0x31680000) == 0x16800000
    ensures Left4(0x16800000) == 0x68000000
    ensures Left4(0x68000000) == 0x80000000
  {}

  lemma BlankProduct()
    ensures Mul(32, 0xf7433168, Register(0x4b84ba75)) == Register(0xfa8ee912)
  {
    hide Mul, FourTurns, Left4;
    BlankNibbles();
    LoneTop(0x4b84ba75);
    BlankTurns2();
    BlankTurns3();
    BlankTurns4();
    BlankTurns5();
    BlankTurns6();
    BlankTurns7();
    BlankTurns8();
    Product(0xf7433168, 0x4b84ba75,
            0x4b84ba75, 0xc394ab44, 0xa5433f82, 0x8aa1489b, 0x7850fcae, 0x6ff533a8, 0x98a655ab, 0xfa8ee912);
  }

  /** The register after the magic and all the zeros. */
  lemma BlankRecordState()
    ensures Absorb(PRESET, MAGIC_BYTES + Zeros(4644)) == Register(0xfa8ee912)
  {
    hide ByteStep, Absorb, Shifts, Mul, Zeros;
    MagicSteps();
    AbsorbFour(PRESET, 0x4b, Register(0xccf3886a), 0x4c, Register(0xd2c17675), 0x41, Register(0x216635c3), 0x57,
               Register(0xf7433168));
    AbsorbAppend(PRESET, MAGIC_BYTES, Zeros(4644));
    AbsorbZeros(Register(0xf7433168), 4644);
    ShiftsArePowers(37152, 0xf7433168);
    Power37152();
    BlankProduct();
  }

  lemma BlankChecksum()
    ensures Reference(MAGIC_BYTES + Zeros(4644)) != 0
  {
    hide Absorb, Zeros, Reference;
    ChecksumIsReference(MAGIC_BYTES + Zeros(4644));
    BlankRecordState();
  }

  lemma {:induction false} ZerosAppend(m: nat, n: nat)
    ensures Zeros(m) + Zeros(n) == Zeros(m + n)
  {}

  lemma {:induction false} LittleEndianZero(k: nat)
    ensures LittleEndian(0, k) == Zeros(k)
  {
    if k > 0 { LittleEndianZero(k - 1); }
  }

  lemma {:induction false} ConcatOfZeros(chunks: seq<Bytes>)
    requires forall c | c in chunks :: c == Zeros(|c|)
    ensures Concat(chunks) == Zeros(|Concat(chunks)|)
    decreases |chunks|
  {
    if chunks != [] {
      ConcatOfZeros(chunks[1..]);
      assert chunks[0] in chunks;
      ZerosAppend(|chunks[0]|, |Concat(chunks[1..])|);
    }
  }

  lemma ZerosLength(n: nat)
    ensures |Zeros(n)| == n
  {}

  lemma MagicOctets()
    ensures Octet(0x4b) == 0x4b && Octet(0x4c) == 0x4c && Octet(0x41) == 0x41 && Octet(0x57) == 0x57
  {}

  lemma OneByteMore(n: nat, k: nat)
    requires k > 0
    ensures LittleEndian(n, k) == [Octet(n % 256)] + LittleEndian(n / 256, k - 1)
  {}

  lemma MagicLittleEndian()
    ensures LittleEndian(LOCK_MAGIC, 4) == MAGIC_BYTES
  {
    hide Octet, LittleEndian;
    MagicOctets();
    OneByteMore(0x57414c4b, 4);
    OneByteMore(0x57414c, 3);
    OneByteMore(0x5741, 2);
    OneByteMore(0x57, 1);
    LittleEndianZero(0);
  }

  lemma BlankFields()
    ensures forall i | 0 < i < 14 :: Fields(Stored(BLANK))[i] == Zeros(|Fields(Stored(BLANK))[i]|)
    ensures Fields(Stored(BLANK))[0] == MAGIC_BYTES
  {
    hide LittleEndian, Zeros;
    LittleEndianZero(4);
    LittleEndianZero(8);
    LittleEndianZero(2);
    MagicLittleEndian();
    ZerosLength(MAX_HOSTNAME);
    ZerosLength(MAX_CMDLINE);
    assert FieldBytes("", MAX_HOSTNAME) == Zeros(MAX_HOSTNAME);
    assert FieldBytes("", MAX_DESCRIPTOR) == Zeros(MAX_DESCRIPTOR);
    assert FieldBytes("", MAX_CMDLINE) == Zeros(MAX_CMDLINE);
  }

  lemma BlankPayload()
    ensures Payload(Stored(BLANK)) == MAGIC_BYTES + Zeros(4644)
  {
    hide Fields, Zeros, Stored;
    var info := Stored(BLANK);
    StoredIsValid(BLANK);
    ImageParts(info);
    BlankFields();
    var rest := Fields(info)[1..];
    forall c | c in rest ensures c == Zeros(|c|) {
      var i :| 0 <= i < |rest| && rest[i] == c;
      assert c == Fields(info)[i + 1];
    }
    ConcatOfZeros(rest);
    assert |Payload(info)| == |Fields(info)[0]| + |Concat(rest)|;
    assert Payload(info) == Fields(info)[0] + Concat(rest);
  }

  /** A file that was created and not written yet never counts as a lock. */
  lemma EmptyFileIsInvalid(readable: bool)
    ensures D.Classify(D.FileData(readable, [])) == P.Invalid
  {
    hide Payload, Reference;
    assert Chars([]) == "";
    assert ReadAny([]) == Stored(BLANK);
    BlankPayload();
    BlankChecksum();
  }
}
