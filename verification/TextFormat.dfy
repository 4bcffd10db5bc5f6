/** The text form of a lock record: write_text_lock_file and read_text_lock_file
    (src/lock/lock.c:563-647), including the 1024-byte line buffer of the reader. */
module TextFormat {
  import opened CText

  /** The printed fields. Integers are unbounded here; LockFile narrows them to the struct's widths. */
  datatype TextRecord = TextRecord(
    version: int, pid: int, ppid: int, uid: int, acquiredAt: int, semaphore: bool,
    maxHolders: int, slot: int, hostname: string, descriptor: string, cmdline: string)

  /** memset(info, 0, ...) */
  const BLANK := TextRecord(0, 0, 0, 0, 0, false, 0, 0, "", "", "")

  const LINE_SIZE := 1024
  const HOSTNAME_LIMIT := 255
  const DESCRIPTOR_LIMIT := 255
  const CMDLINE_LIMIT := 4095

  // ---------------------------------------------------------------------------------------------
  // The printer
  // ---------------------------------------------------------------------------------------------

  function Line(key: string, value: string): string {
    key + "=" + value + "\n"
  }

  function Print(t: TextRecord): string {
    Line("VERSION", SignedDecimal(t.version)) + (
    Line("PID", SignedDecimal(t.pid)) + (
    Line("PPID", SignedDecimal(t.ppid)) + (
    Line("UID", SignedDecimal(t.uid)) + (
    Line("ACQUIRED", SignedDecimal(t.acquiredAt)) + (
    Line("TYPE", if t.semaphore then "semaphore" else "mutex") + (
    Line("MAX_HOLDERS", SignedDecimal(t.maxHolders)) + (
    Line("SLOT", SignedDecimal(t.slot)) + (
    Line("HOSTNAME", t.hostname) + (
    Line("DESCRIPTOR", t.descriptor) + (
    Line("COMMAND", t.cmdline)))))))))))
  }

  // ---------------------------------------------------------------------------------------------
  // The reader
  // ---------------------------------------------------------------------------------------------

  /** How much fgets takes with n free places: up to and including a newline. */
  function ChunkLength(s: string, n: nat): (k: nat)
    ensures k <= n && k <= |s|
    ensures s != "" && n > 0 ==> k > 0
    decreases n
  {
    if n == 0 || s == "" then 0 else if s[0] == '\n' then 1 else 1 + ChunkLength(s[1..], n - 1)
  }

  /** A char buffer as a C string. */
  function CString(s: string): (t: string)
    ensures t <= s
  {
    if s == "" || s[0] == '\0' then "" else [s[0]] + CString(s[1..])
  }

  function DropNewline(s: string): string {
    if s != "" && s[|s| - 1] == '\n' then s[..|s| - 1] else s
  }

  /** strncpy into a field whose last byte is then cleared. */
  function Clip(s: string, limit: nat): (t: string)
    ensures |t| <= limit
  {
    if |s| <= limit then s else s[..limit]
  }

  function SetField(t: TextRecord, key: string, value: string): TextRecord {
    if key == "VERSION" then t.(version := Atoi(value))
    else if key == "PID" then t.(pid := Atoi(value))
    else if key == "PPID" then t.(ppid := Atoi(value))
    else if key == "UID" then t.(uid := Atoi(value))
    else if key == "ACQUIRED" then t.(acquiredAt := Atoi(value))
    else if key == "TYPE" then t.(semaphore := Clip(value, 31) == "semaphore")
    else if key == "MAX_HOLDERS" then t.(maxHolders := Atoi(value))
    else if key == "SLOT" then t.(slot := Atoi(value))
    else if key == "HOSTNAME" then t.(hostname := Clip(value, HOSTNAME_LIMIT))
    else if key == "DESCRIPTOR" then t.(descriptor := Clip(value, DESCRIPTOR_LIMIT))
    else if key == "COMMAND" then t.(cmdline := Clip(value, CMDLINE_LIMIT))
    else t
  }

  /** One turn of the reader's loop on what fgets put into the buffer. */
  function ReadLine(t: TextRecord, chunk: string): TextRecord {
    var line := DropNewline(CString(chunk));
    match Find(line, "=")
    case Absent => t
    case At(i) => SetField(t, line[..i], line[i + 1..])
  }

  function ReadLines(t: TextRecord, s: string): TextRecord
    decreases |s|
  {
    if s == "" then t
    else var k := ChunkLength(s, LINE_SIZE - 1); ReadLines(ReadLine(t, s[..k]), s[k..])
  }

  /** read_text_lock_file on an open file. */
  method ReadText(content: string) returns (t: TextRecord)
    ensures t == ReadLines(BLANK, content)
  {
    hide ReadLine, SetField, ChunkLength;
    t := BLANK;
    var at := 0;
    while at < |content|
      invariant at <= |content|
      invariant ReadLines(t, content[at..]) == ReadLines(BLANK, content)
    {
      var k := ChunkLength(content[at..], LINE_SIZE - 1);
      t := ReadLine(t, content[at..at + k]);
      assert content[at..][..k] == content[at..at + k] && content[at..][k..] == content[at + k..];
      at := at + k;
    }
  }

  // ---------------------------------------------------------------------------------------------
  // One line
  // ---------------------------------------------------------------------------------------------

  predicate NoNul(s: string) {
    forall i | 0 <= i < |s| :: s[i] != '\0'
  }

  predicate NewlineFree(s: string) {
    forall i | 0 <= i < |s| :: s[i] != '\n'
  }

  predicate Plain(s: string) {
    NewlineFree(s) && NoNul(s)
  }

  lemma {:induction false} ChunkOfLine(body: string, rest: string, n: nat)
    requires Plain(body)
    ensures |body| < n ==> ChunkLength(body + "\n" + rest, n) == |body| + 1
    ensures |body| >= n ==> ChunkLength(body + "\n" + rest, n) == n
    decreases |body|
  {
    if body != "" && n > 0 {
      assert (body + "\n" + rest)[1..] == body[1..] + "\n" + rest;
      ChunkOfLine(body[1..], rest, n - 1);
    } else if body == "" {
      assert body + "\n" + rest == "\n" + rest;
    }
  }

  lemma {:induction false} CStringOfPlain(body: string)
    requires Plain(body)
    ensures CString(body) == body && CString(body + "\n") == body + "\n"
    decreases |body|
  {
    if body == "" {
      assert CString("\n") == ['\n'] + CString("\n"[1..]);
      assert body + "\n" == "\n";
    } else {
      CStringOfPlain(body[1..]);
      assert (body + "\n")[1..] == body[1..] + "\n";
    }
  }

  lemma KeyIsFound(key: string, value: string)
    requires '=' !in key
    ensures var line := key + "=" + value;
            && Find(line, "=") == At(|key|) && line[..|key|] == key && line[|key| + 1..] == value
  {
    var line := key + "=" + value;
    FindFromIsFirst(line, "=", 0);
    assert OccursAt(line, "=", |key|);
    forall j: nat | j < |key| ensures !OccursAt(line, "=", j) {
      assert line[j] == key[j] && key[j] in key;
      assert line[j..j + 1] == [line[j]];
    }
  }

  lemma PlainLine(key: string, value: string)
    requires Plain(key) && Plain(value)
    ensures Plain(key + "=" + value)
  {}

  /** A line whose newline still fits the buffer. */
  lemma WholeLine(t: TextRecord, key: string, value: string, rest: string)
    requires Plain(key + "=" + value) && '=' !in key && |key| + 1 + |value| < LINE_SIZE - 1
    ensures ReadLines(t, key + "=" + value + "\n" + rest) == ReadLines(SetField(t, key, value), rest)
  {
    hide SetField, Atoi, Plain;
    var body := key + "=" + value;
    var s := body + "\n" + rest;
    ChunkOfLine(body, rest, LINE_SIZE - 1);
    CStringOfPlain(body);
    KeyIsFound(key, value);
    assert s[..|body| + 1] == body + "\n" && s[|body| + 1..] == rest;
    assert DropNewline(body + "\n") == body;
  }

  /** A line that fills the buffer, its newline left for the next call. */
  lemma FullLine(t: TextRecord, key: string, value: string, rest: string)
    requires Plain(key + "=" + value) && '=' !in key && |key| + 1 + |value| == LINE_SIZE - 1
    ensures ReadLines(t, key + "=" + value + "\n" + rest) == ReadLines(SetField(t, key, value), rest)
  {
    hide SetField, Atoi;
    var body := key + "=" + value;
    var s := body + "\n" + rest;
    ChunkOfLine(body, rest, LINE_SIZE - 1);
    CStringOfPlain(body);
    KeyIsFound(key, value);
    assert s[..|body|] == body && s[|body|..] == "\n" + rest;
    assert DropNewline(body) == body;
    NewlineIsSkipped(SetField(t, key, value), rest);
  }

  /** A printed line that fits the buffer sets its field, whether or not its newline still fits. */
  lemma LineSetsField(t: TextRecord, key: string, value: string, rest: string)
    requires Plain(key) && Plain(value) && '=' !in key
    requires |key| + 1 + |value| <= LINE_SIZE - 1
    ensures ReadLines(t, Line(key, value) + rest) == ReadLines(SetField(t, key, value), rest)
  {
    hide SetField, Atoi, Plain, ReadLines;
    PlainLine(key, value);
    if |key| + 1 + |value| < LINE_SIZE - 1 {
      WholeLine(t, key, value, rest);
    } else {
      FullLine(t, key, value, rest);
    }
  }

  lemma NewlineIsSkipped(t: TextRecord, rest: string)
    ensures ReadLines(t, "\n" + rest) == ReadLines(t, rest)
  {
    var s := "\n" + rest;
    assert s[..1] == "\n" && s[1..] == rest;
    assert ChunkLength(s, LINE_SIZE - 1) == 1;
    CStringOfPlain("");
    assert "" + "\n" == "\n";
    FindFromIsFirst("", "=", 0);
  }

  const KEYS: set<string> := {"VERSION", "PID", "PPID", "UID", "ACQUIRED", "TYPE", "MAX_HOLDERS", "SLOT", "HOSTNAME",
                              "DESCRIPTOR", "COMMAND"}

  /** A line that is not about a known field changes nothing, one about the type makes a semaphore of
      exactly "semaphore", and numbers are read with atoi. */
  lemma OtherLines(t: TextRecord, key: string, value: string, rest: string)
    requires Plain(key) && Plain(value) && '=' !in key && |key| + 1 + |value| <= LINE_SIZE - 1
    ensures key !in KEYS ==> ReadLines(t, Line(key, value) + rest) == ReadLines(t, rest)
    ensures key == "TYPE" ==>
      ReadLines(t, Line(key, value) + rest) == ReadLines(t.(semaphore := value == "semaphore"), rest)
    ensures key == "PID" ==> ReadLines(t, Line(key, value) + rest) == ReadLines(t.(pid := Atoi(value)), rest)
    ensures key == "MAX_HOLDERS" ==>
      ReadLines(t, Line(key, value) + rest) == ReadLines(t.(maxHolders := Atoi(value)), rest)
  {
    hide ReadLines, Line, Atoi, Plain;
    LineSetsField(t, key, value, rest);
    if key == "TYPE" && |value| > 31 { assert |Clip(value, 31)| == 31 && |"semaphore"| == 9; }
  }

  // ---------------------------------------------------------------------------------------------
  // Round trip
  // ---------------------------------------------------------------------------------------------

  function PowerOfTen(k: nat): nat {
    if k == 0 then 1 else 10 * PowerOfTen(k - 1)
  }

  lemma {:induction false} DecimalIsShort(n: nat, k: nat)
    requires k > 0 && n < PowerOfTen(k)
    ensures |Decimal(n)| <= k
    decreases k
  {
    if n >= 10 {
      assert n / 10 < PowerOfTen(k - 1);
      assert k > 1;
      DecimalIsShort(n / 10, k - 1);
    }
  }

  /** Any integer of at most 64 bits, signed or unsigned. */
  predicate Fits64(i: int) {
    -0x8000_0000_0000_0000 <= i < 0x1_0000_0000_0000_0000
  }

  lemma NumberIsPlain(i: int)
    requires Fits64(i)
    ensures Plain(SignedDecimal(i)) && |SignedDecimal(i)| <= 21 && Atoi(SignedDecimal(i)) == i
  {
    var n := if i < 0 then -i else i;
    assert PowerOfTen(20) == 1_0000_0000_0000_0000_0000 by {
      assert PowerOfTen(4) == 1_0000;
      assert PowerOfTen(8) == 1_0000_0000;
      assert PowerOfTen(12) == 1_0000_0000_0000;
      assert PowerOfTen(16) == 1_0000_0000_0000_0000;
    }
    DecimalIsShort(n, 20);
    AtoiOfDecimal(i, "");
    assert SignedDecimal(i) + "" == SignedDecimal(i);
  }

  /** The records whose numbers and C strings the struct can hold. */
  predicate Sized(t: TextRecord) {
    && Fits64(t.version) && Fits64(t.pid) && Fits64(t.ppid) && Fits64(t.uid) && Fits64(t.acquiredAt)
    && Fits64(t.maxHolders) && Fits64(t.slot)
    && NoNul(t.hostname) && |t.hostname| <= HOSTNAME_LIMIT
    && NoNul(t.descriptor) && |t.descriptor| <= DESCRIPTOR_LIMIT
    && NoNul(t.cmdline) && |t.cmdline| <= CMDLINE_LIMIT
  }

  predicate Newlineless(t: TextRecord) {
    NewlineFree(t.hostname) && NewlineFree(t.descriptor) && NewlineFree(t.cmdline)
  }

  predicate Printable(t: TextRecord) {
    Sized(t) && Newlineless(t)
  }

  /** The longest command that fits the reader's buffer behind "COMMAND=". */
  const COMMAND_LIMIT := 1015

  lemma NumberLine(t: TextRecord, key: string, i: int, rest: string)
    requires Fits64(i) && Plain(key) && '=' !in key && |key| <= 20
    ensures ReadLines(t, Line(key, SignedDecimal(i)) + rest) == ReadLines(SetField(t, key, SignedDecimal(i)), rest)
    ensures Atoi(SignedDecimal(i)) == i
  {
    hide SetField, Atoi;
    NumberIsPlain(i);
    LineSetsField(t, key, SignedDecimal(i), rest);
  }

  /** The seven lines up to SLOT, then the text lines. */
  function TextLines(t: TextRecord): string {
    Line("HOSTNAME", t.hostname) + (Line("DESCRIPTOR", t.descriptor) + (Line("COMMAND", t.cmdline)))
  }

  function NumbersOnly(t: TextRecord): TextRecord {
    t.(hostname := "", descriptor := "", cmdline := "")
  }

  lemma NumbersRead(t: TextRecord)
    requires Printable(t)
    ensures ReadLines(BLANK, Print(t)) == ReadLines(NumbersOnly(t), TextLines(t))
  {
    hide ReadLines, Line, Atoi, SignedDecimal;
    var r8 := TextLines(t);
    var r7 := Line("SLOT", SignedDecimal(t.slot)) + r8;
    var r6 := Line("MAX_HOLDERS", SignedDecimal(t.maxHolders)) + r7;
    var kind := if t.semaphore then "semaphore" else "mutex";
    var r5 := Line("TYPE", kind) + r6;
    var r4 := Line("ACQUIRED", SignedDecimal(t.acquiredAt)) + r5;
    var r3 := Line("UID", SignedDecimal(t.uid)) + r4;
    var r2 := Line("PPID", SignedDecimal(t.ppid)) + r3;
    var r1 := Line("PID", SignedDecimal(t.pid)) + r2;
    var t0 := BLANK.(version := t.version);
    NumberLine(BLANK, "VERSION", t.version, r1);
    var t1 := t0.(pid := t.pid);
    NumberLine(t0, "PID", t.pid, r2);
    var t2 := t1.(ppid := t.ppid);
    NumberLine(t1, "PPID", t.ppid, r3);
    var t3 := t2.(uid := t.uid);
    NumberLine(t2, "UID", t.uid, r4);
    var t4 := t3.(acquiredAt := t.acquiredAt);
    NumberLine(t3, "ACQUIRED", t.acquiredAt, r5);
    var t5 := t4.(semaphore := t.semaphore);
    LineSetsField(t4, "TYPE", kind, r6);
    var t6 := t5.(maxHolders := t.maxHolders);
    NumberLine(t5, "MAX_HOLDERS", t.maxHolders, r7);
    NumberLine(t6, "SLOT", t.slot, r8);
  }

  lemma LabelsRead(t: TextRecord)
    requires Printable(t)
    ensures ReadLines(NumbersOnly(t), TextLines(t))
         == ReadLines(t.(cmdline := ""), Line("COMMAND", t.cmdline))
  {
    hide ReadLines, Line, Atoi;
    var r2 := Line("COMMAND", t.cmdline);
    var r1 := Line("DESCRIPTOR", t.descriptor) + r2;
    LineSetsField(NumbersOnly(t), "HOSTNAME", t.hostname, r1);
    LineSetsField(NumbersOnly(t).(hostname := t.hostname), "DESCRIPTOR", t.descriptor, r2);
  }

  /** Reading what was printed restores every printed field, '=' signs in values included. */
  lemma TextRoundTrip(t: TextRecord)
    requires Printable(t) && |t.cmdline| <= COMMAND_LIMIT
    ensures ReadLines(BLANK, Print(t)) == t
  {
    hide Line, Atoi, Print, ReadLines, Fits64, NoNul, NewlineFree;
    NumbersRead(t);
    LabelsRead(t);
    assert Line("COMMAND", t.cmdline) + "" == Line("COMMAND", t.cmdline);
    CommandIsPlain();
    LineSetsField(t.(cmdline := ""), "COMMAND", t.cmdline, "");
    NothingMore(t);
  }

  lemma CommandIsPlain()
    ensures Plain("COMMAND") && '=' !in "COMMAND"
  {}

  lemma NothingMore(t: TextRecord)
    ensures ReadLines(t, "") == t
  {}

  /** A line longer than the buffer is cut where the buffer ends. */
  lemma LongLine(t: TextRecord, key: string, value: string, n: nat)
    requires Plain(key) && Plain(value) && '=' !in key
    requires n < |value| && |key| + 1 + n == LINE_SIZE - 1
    ensures ReadLines(t, Line(key, value)) == ReadLines(SetField(t, key, value[..n]), value[n..] + "\n")
  {
    hide SetField, Atoi;
    var body := key + "=" + value;
    var s := body + "\n" + "";
    var chunk := key + "=" + value[..n];
    assert Plain(body) && Plain(chunk);
    ChunkOfLine(body, "", LINE_SIZE - 1);
    assert Line(key, value) == s && s[..LINE_SIZE - 1] == chunk && s[LINE_SIZE - 1..] == value[n..] + "\n";
    CStringOfPlain(chunk);
    KeyIsFound(key, value[..n]);
    assert ReadLine(t, chunk) == SetField(t, key, value[..n]);
  }

  /** A longer command is cut where the buffer ends and its remainder is read as further lines. */
  lemma LongCommandSpills(t: TextRecord)
    requires Printable(t) && |t.cmdline| > COMMAND_LIMIT
    ensures ReadLines(BLANK, Print(t))
         == ReadLines(t.(cmdline := t.cmdline[..COMMAND_LIMIT]), t.cmdline[COMMAND_LIMIT..] + "\n")
  {
    hide Atoi, Print, ReadLines, Line;
    NumbersRead(t);
    LabelsRead(t);
    LongLine(t.(cmdline := ""), "COMMAND", t.cmdline, COMMAND_LIMIT);
  }

  lemma SetFieldKeepsCommandShort(t: TextRecord, key: string, value: string)
    requires |t.cmdline| <= COMMAND_LIMIT && |key| + 1 + |value| <= LINE_SIZE - 1
    ensures |SetField(t, key, value).cmdline| <= COMMAND_LIMIT
  {
    hide Atoi;
  }

  /** The reader never stores a command longer than the buffer leaves room for. */
  lemma {:induction false} CommandsStayShort(t: TextRecord, s: string)
    requires |t.cmdline| <= COMMAND_LIMIT
    ensures |ReadLines(t, s).cmdline| <= COMMAND_LIMIT
    decreases |s|
  {
    hide SetField;
    if s != "" {
      var k := ChunkLength(s, LINE_SIZE - 1);
      var line := DropNewline(CString(s[..k]));
      var p := Find(line, "=");
      if p.At? {
        SetFieldKeepsCommandShort(t, line[..p.index], line[p.index + 1..]);
      }
      CommandsStayShort(ReadLine(t, s[..k]), s[k..]);
    }
  }

  // ---------------------------------------------------------------------------------------------
  // What the reader can store at all
  // ---------------------------------------------------------------------------------------------

  predicate All(s: string, ok: char -> bool) {
    forall i | 0 <= i < |s| :: ok(s[i])
  }

  /** A stored string: plain, no longer than its field, of characters that were in the file. */
  predicate Kept(s: string, limit: nat, ok: char -> bool) {
    Plain(s) && |s| <= limit && All(s, ok)
  }

  predicate StringsKept(t: TextRecord, ok: char -> bool) {
    && Kept(t.hostname, HOSTNAME_LIMIT, ok)
    && Kept(t.descriptor, DESCRIPTOR_LIMIT, ok)
    && Kept(t.cmdline, CMDLINE_LIMIT, ok)
  }

  lemma {:induction false} NewlineComesLast(s: string, n: nat)
    ensures forall i | 0 <= i < ChunkLength(s, n) - 1 :: s[i] != '\n'
    decreases n
  {
    if n > 0 && s != "" && s[0] != '\n' {
      NewlineComesLast(s[1..], n - 1);
      forall i | 0 <= i < ChunkLength(s, n) - 1 ensures s[i] != '\n' {
        if i > 0 { assert s[i] == s[1..][i - 1]; }
      }
    }
  }

  lemma {:induction false} CStringHasNoNul(s: string)
    ensures NoNul(CString(s))
    decreases |s|
  {
    if s != "" && s[0] != '\0' {
      CStringHasNoNul(s[1..]);
    }
  }

  lemma LineIsPlain(s: string, ok: char -> bool)
    requires All(s, ok)
    ensures var line := DropNewline(CString(s[..ChunkLength(s, LINE_SIZE - 1)]));
            Plain(line) && All(line, ok)
  {
    var k := ChunkLength(s, LINE_SIZE - 1);
    var text := CString(s[..k]);
    NewlineComesLast(s, LINE_SIZE - 1);
    CStringHasNoNul(s[..k]);
    assert forall i | 0 <= i < |text| :: text[i] == s[..k][i] == s[i];
  }

  lemma ClipIsKept(value: string, limit: nat, ok: char -> bool)
    requires Plain(value) && All(value, ok)
    ensures Kept(Clip(value, limit), limit, ok)
  {}

  lemma SetFieldKeepsStrings(t: TextRecord, key: string, value: string, ok: char -> bool)
    requires StringsKept(t, ok) && Plain(value) && All(value, ok)
    ensures StringsKept(SetField(t, key, value), ok)
  {
    hide Kept, Atoi, Plain, All, Clip;
    ClipIsKept(value, HOSTNAME_LIMIT, ok);
    ClipIsKept(value, DESCRIPTOR_LIMIT, ok);
    ClipIsKept(value, CMDLINE_LIMIT, ok);
  }

  /** No file whatever makes the reader store a newline, or a character that is not in the file. */
  lemma {:induction false} StoredStringsArePlain(t: TextRecord, s: string, ok: char -> bool)
    requires StringsKept(t, ok) && All(s, ok)
    ensures StringsKept(ReadLines(t, s), ok)
    decreases |s|
  {
    hide SetField, StringsKept;
    if s != "" {
      var k := ChunkLength(s, LINE_SIZE - 1);
      var line := DropNewline(CString(s[..k]));
      LineIsPlain(s, ok);
      var p := Find(line, "=");
      if p.At? {
        SetFieldKeepsStrings(t, line[..p.index], line[p.index + 1..], ok);
      }
      StoredStringsArePlain(ReadLine(t, s[..k]), s[k..], ok);
    }
  }

  /** The text form round-trips exactly when no string holds a newline and the command has at most 1015
      characters. */
  lemma TextRoundTripIsExact(t: TextRecord)
    requires Sized(t)
    ensures ReadLines(BLANK, Print(t)) == t <==> Newlineless(t) && |t.cmdline| <= COMMAND_LIMIT
  {
    hide ReadLines, Print;
    CommandsStayShort(BLANK, Print(t));
    StoredStringsArePlain(BLANK, Print(t), (c: char) => true);
    if Newlineless(t) && |t.cmdline| <= COMMAND_LIMIT { TextRoundTrip(t); }
  }
}
