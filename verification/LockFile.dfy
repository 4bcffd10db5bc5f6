/** Reading a lock file in either format: read_lock_file_any_format (src/lock/lock.c:650-672), the
    narrowing of printed numbers to the struct's fields, and what a scan concludes from a file. */
module LockFile {
  import opened CText
  import opened Basics
  import opened Crc32
  import opened LockRecord
  import opened TextFormat

  // ---------------------------------------------------------------------------------------------
  // Bytes and characters, integers and machine words
  // ---------------------------------------------------------------------------------------------

  function CharOf(b: bv8): (c: char)
    ensures (c as int) < 256
  {
    (b as int) as char
  }

  function ByteOf(c: char): bv8 {
    Octet((c as int) % 256)
  }

  function Chars(b: Bytes): (s: string)
    ensures |s| == |b| && forall i | 0 <= i < |s| :: (s[i] as int) < 256
  {
    seq(|b|, i requires 0 <= i < |b| => CharOf(b[i]))
  }

  function Octets(s: string): (b: Bytes)
    ensures |b| == |s|
  {
    seq(|s|, i requires 0 <= i < |s| => ByteOf(s[i]))
  }

  predicate Latin(s: string) {
    forall i | 0 <= i < |s| :: (s[i] as int) < 256
  }

  lemma CharOfByteOf(c: char)
    requires (c as int) < 256
    ensures CharOf(ByteOf(c)) == c
  {
    OctetOfInt(c as int);
  }

  lemma ByteOfCharOf(b: bv8)
    ensures ByteOf(CharOf(b)) == b
  {
    CharOfIsInt(b);
    OctetOfByte(b);
  }

  lemma CharOfIsInt(b: bv8)
    ensures (CharOf(b) as int) == (b as int) < 256
  {}

  lemma CharsOfOctets(s: string)
    requires Latin(s)
    ensures Chars(Octets(s)) == s
  {
    hide CharOf, ByteOf;
    forall i | 0 <= i < |s| ensures Chars(Octets(s))[i] == s[i] {
      CharOfByteOf(s[i]);
    }
  }

  /** Assigning an int to an unsigned or signed field, and reading a signed field back. */
  function Narrow16(i: int): u16 {
    i % 0x1_0000
  }

  function Narrow32(i: int): u32 {
    i % 0x1_0000_0000
  }

  function Signed32(w: u32): int {
    if w < 0x8000_0000 then w else w - 0x1_0000_0000
  }

  function Narrow64(i: int): u64 {
    i % 0x1_0000_0000_0000_0000
  }

  function Signed64(w: u64): int {
    if w < 0x8000_0000_0000_0000 then w else w - 0x1_0000_0000_0000_0000
  }

  lemma NarrowingRestores(w: u32, x: u64, h: u16)
    ensures Narrow32(Signed32(w)) == w && Narrow32(w) == w
    ensures Narrow64(Signed64(x)) == x && Narrow16(h) == h
    ensures Fits64(Signed32(w)) && Fits64(w) && Fits64(Signed64(x)) && Fits64(h)
  {}

  // ---------------------------------------------------------------------------------------------
  // Between the struct and its printed fields
  // ---------------------------------------------------------------------------------------------

  /** A char array as the C string it holds. */
  function FieldText(field: Bytes): string {
    CString(Chars(field))
  }

  /** strncpy of a short string into a cleared array. */
  function FieldBytes(s: string, size: nat): Bytes {
    if |s| <= size then Octets(s) + Zeros(size - |s|) else Octets(s[..size])
  }

  /** What "%s", "%d" and the casts of write_text_lock_file print. */
  function Printed(info: LockInfo): TextRecord {
    TextRecord(info.version, Signed32(info.pid), Signed32(info.ppid), Signed32(info.uid), Signed64(info.acquiredAt),
               info.lockType != 0, info.maxHolders, info.slot,
               FieldText(info.hostname), FieldText(info.descriptor), FieldText(info.cmdline))
  }

  /** What read_text_lock_file leaves in the struct: everything unprinted is zero, the magic is set. */
  function Stored(t: TextRecord): LockInfo {
    LockInfo(LOCK_MAGIC, Narrow32(t.version), Narrow32(t.pid), Narrow32(t.ppid), Narrow32(t.uid), 0,
             Narrow64(t.acquiredAt), if t.semaphore then 1 else 0, Narrow16(t.maxHolders), Narrow16(t.slot), 0,
             FieldBytes(t.hostname, MAX_HOSTNAME), FieldBytes(t.descriptor, MAX_DESCRIPTOR),
             FieldBytes(t.cmdline, MAX_CMDLINE), 0, 0)
  }

  lemma StoredIsValid(t: TextRecord)
    ensures Stored(t).Valid()
  {}

  /** The array holds a string and nothing but zeros behind it, as acquire_lock leaves it. */
  ghost predicate Padded(field: Bytes) {
    field == FieldBytes(FieldText(field), |field|)
  }

  /** Every char array holds a C string with its terminator, and the version fits an int. */
  ghost predicate Readable(info: LockInfo) {
    && info.Valid() && info.version < 0x8000_0000
    && |FieldText(info.hostname)| < MAX_HOSTNAME && |FieldText(info.descriptor)| < MAX_DESCRIPTOR
    && |FieldText(info.cmdline)| < MAX_CMDLINE
  }

  /** Lock type 0 or 1, cleared padding behind every string, no newline inside one. */
  ghost predicate Writable(info: LockInfo) {
    && info.lockType <= 1
    && Padded(info.hostname) && Padded(info.descriptor) && Padded(info.cmdline)
    && Newlineless(Printed(info))
  }

  /** The struct fields that the text form carries. */
  function PrintedPart(info: LockInfo): LockInfo {
    info.(magic := LOCK_MAGIC, gap := 0, reserved := 0, checksum := 0, tail := 0)
  }

  lemma StoredOfPrinted(info: LockInfo)
    requires info.Valid() && Writable(info)
    ensures Stored(Printed(info)) == PrintedPart(info)
  {
    hide FieldText, FieldBytes;
    NarrowingRestores(info.version, info.acquiredAt, info.maxHolders);
    NarrowingRestores(info.pid, info.acquiredAt, info.slot);
    NarrowingRestores(info.ppid, info.acquiredAt, info.slot);
    NarrowingRestores(info.uid, info.acquiredAt, info.slot);
  }

  /** The text form, line by line. */
  lemma TextOfRecord(info: LockInfo)
    ensures Print(Printed(info))
         == ("VERSION=" + SignedDecimal(info.version) + "\n") + (
            ("PID=" + SignedDecimal(Signed32(info.pid)) + "\n") + (
            ("PPID=" + SignedDecimal(Signed32(info.ppid)) + "\n") + (
            ("UID=" + SignedDecimal(Signed32(info.uid)) + "\n") + (
            ("ACQUIRED=" + SignedDecimal(Signed64(info.acquiredAt)) + "\n") + (
            ("TYPE=" + (if info.lockType != 0 then "semaphore" else "mutex") + "\n") + (
            ("MAX_HOLDERS=" + SignedDecimal(info.maxHolders) + "\n") + (
            ("SLOT=" + SignedDecimal(info.slot) + "\n") + (
            ("HOSTNAME=" + FieldText(info.hostname) + "\n") + (
            ("DESCRIPTOR=" + FieldText(info.descriptor) + "\n") + (
            ("COMMAND=" + FieldText(info.cmdline) + "\n")))))))))))
  {
    hide FieldText, SignedDecimal;
    KeysGlue();
  }

  lemma KeysGlue()
    ensures "VERSION" + "=" == "VERSION=" && "PID" + "=" == "PID=" && "PPID" + "=" == "PPID=" && "UID" + "=" == "UID="
    ensures "ACQUIRED" + "=" == "ACQUIRED=" && "TYPE" + "=" == "TYPE=" && "MAX_HOLDERS" + "=" == "MAX_HOLDERS="
    ensures "SLOT" + "=" == "SLOT=" && "HOSTNAME" + "=" == "HOSTNAME=" && "DESCRIPTOR" + "=" == "DESCRIPTOR="
    ensures "COMMAND" + "=" == "COMMAND="
  {}

  // ---------------------------------------------------------------------------------------------
  // The dispatcher
  // ---------------------------------------------------------------------------------------------

  /** read_lock_file_any_format on a file that can be opened. */
  function ReadAny(content: Bytes): LockInfo {
    if |content| >= RECORD_SIZE && Parse(content[..RECORD_SIZE]).magic == LOCK_MAGIC
    then Parse(content[..RECORD_SIZE])
    else Stored(ReadLines(BLANK, Chars(content)))
  }

  datatype Reading = Unreadable | Record(info: LockInfo)

  /** read_lock_file_any_format: both open calls fail for a file that cannot be opened. */
  method ReadLockFileAnyFormat(readable: bool, content: Bytes) returns (r: Reading)
    ensures r == if readable then Record(ReadAny(content)) else Unreadable
  {
    if !readable { return Unreadable; }
    if |content| >= RECORD_SIZE {
      var info := Parse(content[..RECORD_SIZE]);
      if info.magic == LOCK_MAGIC { return Record(info); }
    }
    var t := ReadText(Chars(content));
    r := Record(Stored(t));
  }

  /** On every success the magic is right. */
  lemma ReadAnySetsMagic(content: Bytes)
    ensures ReadAny(content).magic == LOCK_MAGIC && ReadAny(content).Valid()
  {
    hide Parse, ReadLines;
    if |content| >= RECORD_SIZE {
      ImageOfParse(content[..RECORD_SIZE]);
    }
    StoredIsValid(ReadLines(BLANK, Chars(content)));
  }

  /** A binary image is returned as stored, whatever bytes follow it. */
  lemma ReadAnyOfImage(info: LockInfo, extra: Bytes)
    requires info.Valid() && info.magic == LOCK_MAGIC
    ensures ReadAny(Image(info) + extra) == info
  {
    hide Image, Parse, ReadLines;
    ParseOfImage(info);
    assert (Image(info) + extra)[..RECORD_SIZE] == Image(info);
  }

  lemma MagicComesFirst(image: Bytes)
    requires |image| == RECORD_SIZE
    ensures Parse(image).magic == Number4(image[..4])
  {
    hide Number;
    ChecksumOffset();
    assert image[..CHECKSUM_OFFSET][..4] == image[..4];
  }

  lemma LatinConcat(s: string, t: string)
    ensures Latin(s + t) <==> Latin(s) && Latin(t)
  {
    assert forall i | 0 <= i < |s| :: (s + t)[i] == s[i];
    assert forall i | 0 <= i < |t| :: (s + t)[|s| + i] == t[i];
  }

  lemma LatinLine(key: string, value: string)
    requires Latin(key) && Latin(value)
    ensures Latin(Line(key, value))
  {
    LatinConcat(key, "=");
    LatinConcat(key + "=", value);
    LatinConcat(key + "=" + value, "\n");
  }

  lemma LatinNumber(i: int)
    ensures Latin(SignedDecimal(i))
  {}

  lemma LatinPrint(t: TextRecord)
    requires Latin(t.hostname) && Latin(t.descriptor) && Latin(t.cmdline)
    ensures Latin(Print(t))
  {
    hide Latin, Line, SignedDecimal;
    var r10 := Line("COMMAND", t.cmdline);
    var r9 := Line("DESCRIPTOR", t.descriptor) + r10;
    var r8 := Line("HOSTNAME", t.hostname) + r9;
    var r7 := Line("SLOT", SignedDecimal(t.slot)) + r8;
    var r6 := Line("MAX_HOLDERS", SignedDecimal(t.maxHolders)) + r7;
    var kind := if t.semaphore then "semaphore" else "mutex";
    var r5 := Line("TYPE", kind) + r6;
    var r4 := Line("ACQUIRED", SignedDecimal(t.acquiredAt)) + r5;
    var r3 := Line("UID", SignedDecimal(t.uid)) + r4;
    var r2 := Line("PPID", SignedDecimal(t.ppid)) + r3;
    var r1 := Line("PID", SignedDecimal(t.pid)) + r2;
    LatinKeys();
    LatinLine("COMMAND", t.cmdline);
    LatinLine("DESCRIPTOR", t.descriptor);
    LatinConcat(Line("DESCRIPTOR", t.descriptor), r10);
    LatinLine("HOSTNAME", t.hostname);
    LatinConcat(Line("HOSTNAME", t.hostname), r9);
    LatinNumberLine("SLOT", t.slot, r8);
    LatinNumberLine("MAX_HOLDERS", t.maxHolders, r7);
    LatinLine("TYPE", kind);
    LatinConcat(Line("TYPE", kind), r6);
    LatinNumberLine("ACQUIRED", t.acquiredAt, r5);
    LatinNumberLine("UID", t.uid, r4);
    LatinNumberLine("PPID", t.ppid, r3);
    LatinNumberLine("PID", t.pid, r2);
    LatinNumberLine("VERSION", t.version, r1);
  }

  lemma LatinKeys()
    ensures Latin("COMMAND") && Latin("DESCRIPTOR") && Latin("HOSTNAME") && Latin("SLOT") && Latin("MAX_HOLDERS")
    ensures Latin("TYPE") && Latin("ACQUIRED") && Latin("UID") && Latin("PPID") && Latin("PID") && Latin("VERSION")
    ensures Latin("semaphore") && Latin("mutex")
  {}

  lemma LatinNumberLine(key: string, i: int, rest: string)
    requires Latin(key) && Latin(rest)
    ensures Latin(Line(key, SignedDecimal(i)) + rest)
  {
    LatinNumber(i);
    LatinLine(key, SignedDecimal(i));
    LatinConcat(Line(key, SignedDecimal(i)), rest);
  }

  lemma PrintStartsWithVersion(t: TextRecord)
    ensures |Print(t)| >= 4 && Print(t)[..4] == "VERS"
  {
    hide SignedDecimal;
    var first := Line("VERSION", SignedDecimal(t.version));
    assert first[..4] == "VERS";
    assert first <= Print(t);
  }

  lemma VersIsNotMagic()
    ensures Number([0x56, 0x45, 0x52, 0x53]) == 0x53524556
  {
    var b: Bytes := [0x56, 0x45, 0x52, 0x53];
    assert b[1..] == [0x45, 0x52, 0x53] && b[1..][1..] == [0x52, 0x53] && b[1..][1..][1..] == [0x53];
    assert b[1..][1..][1..][1..] == [];
    assert Number(b[1..][1..][1..]) == 0x53;
    assert Number(b[1..][1..]) == 0x5352;
  }

  /** A printed text file of any length is read as text: its first bytes cannot be the magic. */
  lemma TextIsReadAsText(t: TextRecord)
    requires Latin(Print(t))
    ensures ReadAny(Octets(Print(t))) == Stored(ReadLines(BLANK, Print(t)))
  {
    hide Print, Parse, ReadLines, Number, ByteOf;
    var s := Print(t);
    var content := Octets(s);
    CharsOfOctets(s);
    if |content| >= RECORD_SIZE {
      PrintStartsWithVersion(t);
      assert s[..4][0] == 'V' && s[..4][1] == 'E' && s[..4][2] == 'R' && s[..4][3] == 'S';
      VersBytes();
      assert content[..RECORD_SIZE][..4] == [0x56, 0x45, 0x52, 0x53];
      VersIsNotMagic();
      MagicComesFirst(content[..RECORD_SIZE]);
    }
  }

  lemma VersChars()
    ensures CharOf(0x56) == 'V' && CharOf(0x45) == 'E' && CharOf(0x52) == 'R' && CharOf(0x53) == 'S'
  {}

  lemma VersBytes()
    ensures ByteOf('V') == 0x56 && ByteOf('E') == 0x45 && ByteOf('R') == 0x52 && ByteOf('S') == 0x53
  {
    hide CharOf, ByteOf;
    VersChars();
    ByteOfCharOf(0x56);
    ByteOfCharOf(0x45);
    ByteOfCharOf(0x52);
    ByteOfCharOf(0x53);
  }

  lemma {:induction false} CStringOfPadded(s: string, rest: string)
    requires NoNul(s) && (rest == "" || rest[0] == '\0')
    ensures CString(s + rest) == s
  {
    if s == "" {
      assert s + rest == rest;
    } else {
      assert (s + rest)[1..] == s[1..] + rest;
      CStringOfPadded(s[1..], rest);
    }
  }

  /** A string put into a cleared array is the string found there. */
  lemma StoredTextIsKept(s: string, size: nat)
    requires NoNul(s) && Latin(s) && |s| < size
    ensures FieldText(FieldBytes(s, size)) == s
  {
    hide CharOf, ByteOf;
    var chars := Chars(FieldBytes(s, size));
    forall i | 0 <= i < |s| ensures chars[i] == s[i] {
      CharOfByteOf(s[i]);
    }
    ZeroIsNul();
    assert chars[|s|] == CharOf(0);
    assert chars[..|s|] == s && chars == chars[..|s|] + chars[|s|..];
    CStringOfPadded(s, chars[|s|..]);
  }

  lemma FieldTextIsLatin(field: Bytes)
    ensures Latin(FieldText(field))
  {}

  lemma ZeroIsNul()
    ensures CharOf(0) == '\0'
  {}

  lemma FieldTextHasNoNul(field: Bytes)
    ensures NoNul(FieldText(field))
  {
    CStringHasNoNul(Chars(field));
  }

  lemma PrintedIsSized(info: LockInfo)
    requires Readable(info)
    ensures Sized(Printed(info)) && Latin(Print(Printed(info)))
  {
    hide FieldText, Print, NoNul, Latin;
    FieldTextIsLatin(info.hostname);
    FieldTextIsLatin(info.descriptor);
    FieldTextIsLatin(info.cmdline);
    FieldTextHasNoNul(info.hostname);
    FieldTextHasNoNul(info.descriptor);
    FieldTextHasNoNul(info.cmdline);
    LatinPrint(Printed(info));
    NarrowingRestores(info.version, info.acquiredAt, info.maxHolders);
    NarrowingRestores(info.pid, info.acquiredAt, info.slot);
    NarrowingRestores(info.ppid, info.acquiredAt, info.slot);
    NarrowingRestores(info.uid, info.acquiredAt, info.slot);
  }

  predicate IsByte(c: char) {
    (c as int) < 256
  }

  /** A char array that stores a string the reader can have read is padded, and holds that string. */
  lemma KeptFieldIsPadded(s: string, size: nat)
    requires size > 0 && Kept(s, size - 1, IsByte)
    ensures FieldText(FieldBytes(s, size)) == s && Padded(FieldBytes(s, size))
  {
    StoredTextIsKept(s, size);
  }

  /** Whatever was printed, a struct that is read back complete was fit to be printed. */
  lemma OnlyWritableComesBack(info: LockInfo, s: string)
    requires info.Valid() && Latin(s) && Stored(ReadLines(BLANK, s)) == PrintedPart(info)
    ensures Writable(info) && |FieldText(info.cmdline)| <= COMMAND_LIMIT
  {
    hide FieldText, FieldBytes, ReadLines, Padded, Kept;
    var back := ReadLines(BLANK, s);
    BlankIsKept();
    StoredStringsArePlain(BLANK, s, IsByte);
    CommandsStayShort(BLANK, s);
    KeptFieldIsPadded(back.hostname, MAX_HOSTNAME);
    KeptFieldIsPadded(back.descriptor, MAX_DESCRIPTOR);
    KeptFieldIsPadded(back.cmdline, MAX_CMDLINE);
    assert FieldText(info.hostname) == back.hostname;
    KeptIsNewlineFree(back.hostname, HOSTNAME_LIMIT);
    KeptIsNewlineFree(back.descriptor, DESCRIPTOR_LIMIT);
    KeptIsNewlineFree(back.cmdline, CMDLINE_LIMIT);
  }

  lemma BlankIsKept()
    ensures StringsKept(BLANK, IsByte)
  {}

  lemma KeptIsNewlineFree(s: string, limit: nat)
    requires Kept(s, limit, IsByte)
    ensures NewlineFree(s)
  {}

  /** Writing the text form and reading the file back restores every printed field exactly when the lock
      type is 0 or 1, the arrays are cleared behind their strings, no string holds a newline, and the
      command has at most 1015 characters. */
  lemma TextFileRoundTripIsExact(info: LockInfo)
    requires Readable(info)
    ensures ReadAny(Octets(Print(Printed(info)))) == PrintedPart(info)
       <==> Writable(info) && |FieldText(info.cmdline)| <= COMMAND_LIMIT
  {
    hide FieldText, Print, ReadLines, ReadAny, Sized, Newlineless, Padded, Stored, PrintedPart, Latin;
    var t := Printed(info);
    PrintedIsSized(info);
    TextIsReadAsText(t);
    TextRoundTripIsExact(t);
    if Writable(info) && |FieldText(info.cmdline)| <= COMMAND_LIMIT { StoredOfPrinted(info); }
    if Stored(ReadLines(BLANK, Print(t))) == PrintedPart(info) { OnlyWritableComesBack(info, Print(t)); }
  }
}
