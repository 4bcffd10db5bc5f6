/** The sequential lock operations of src/lock/lock.c as methods on one process's view of the lock
    directory and of g_state. */
module LockDirectory {
  import opened Basics
  import opened CText
  import opened Names
  import opened LockRecord
  import opened LockFile
  import opened TextFormat
  import opened Backoff
  import Crc32
  import LockProtocol

  /** A directory entry: its bytes, and whether this process may open it for reading. */
  datatype FileData = FileData(readable: bool, content: Bytes)

  type Files = map<string, FileData>

  /** What a scan makes of a file: a record with the right magic and checksum, or nothing. */
  function Classify(file: FileData): LockProtocol.Content {
    if !file.readable then LockProtocol.Invalid
    else
      var info := ReadAny(file.content);
      if info.magic == LOCK_MAGIC && Validate(info)
      then LockProtocol.Valid(Signed32(info.pid), info.maxHolders)
      else LockProtocol.Invalid
  }

  /** process_exists against the set of live pids. */
  predicate Exists(alive: set<int>, pid: int) {
    pid > 0 && pid in alive
  }

  predicate IsLive(file: FileData, alive: set<int>) {
    Classify(file).Valid? && Exists(alive, Classify(file).pid)
  }

  predicate IsDead(file: FileData, alive: set<int>) {
    Classify(file).Valid? && !Exists(alive, Classify(file).pid)
  }

  // ---------------------------------------------------------------------------------------------
  // Walking a directory
  // ---------------------------------------------------------------------------------------------

  /** readdir yields every entry once, in any order. */
  ghost predicate Enumerates(order: seq<string>, files: Files) {
    && (forall i, j | 0 <= i < j < |order| :: order[i] != order[j])
    && (forall n :: n in order <==> n in files)
  }

  /** The names of a set that satisfy a test. */
  function Chosen(names: set<string>, test: string -> bool): set<string> {
    set n | n in names && test(n)
  }

  /** `seen` holds exactly the first i entries. */
  ghost predicate SeenUpTo(order: seq<string>, i: nat, seen: set<string>)
    requires i <= |order|
  {
    forall n :: n in seen <==> n in order[..i]
  }

  lemma NothingSeen(order: seq<string>)
    ensures SeenUpTo(order, 0, {})
  {}

  lemma SeenNext(order: seq<string>, files: Files, i: nat, seen: set<string>)
    requires Enumerates(order, files) && i < |order| && SeenUpTo(order, i, seen)
    ensures order[i] in files && order[i] !in seen
    ensures SeenUpTo(order, i + 1, seen + {order[i]})
  {
    assert order[..i + 1] == order[..i] + [order[i]];
  }

  lemma AllSeen(order: seq<string>, files: Files, seen: set<string>)
    requires Enumerates(order, files) && SeenUpTo(order, |order|, seen)
    ensures seen == files.Keys
  {
    assert order[..|order|] == order;
  }

  lemma ChosenNext(seen: set<string>, name: string, test: string -> bool)
    requires name !in seen
    ensures Chosen(seen + {name}, test) == Chosen(seen, test) + if test(name) then {name} else {}
    ensures name !in Chosen(seen, test)
  {}

  // ---------------------------------------------------------------------------------------------
  // acquire_lock: what one pass does, independent of the order of entries
  // ---------------------------------------------------------------------------------------------

  predicate CountedName(files: Files, descriptor: string, alive: set<int>, n: string) {
    n in files && ScanMatches(n, descriptor) && IsLive(files[n], alive)
  }

  predicate ReapedName(files: Files, descriptor: string, alive: set<int>, n: string) {
    n in files && ScanMatches(n, descriptor) && IsDead(files[n], alive)
  }

  function CountedAmong(files: Files, seen: set<string>, descriptor: string, alive: set<int>): set<string> {
    Chosen(seen, n => CountedName(files, descriptor, alive, n))
  }

  function ReapedAmong(files: Files, seen: set<string>, descriptor: string, alive: set<int>): set<string> {
    Chosen(seen, n => ReapedName(files, descriptor, alive, n))
  }

  function LiveNames(files: Files, descriptor: string, alive: set<int>): set<string> {
    CountedAmong(files, files.Keys, descriptor, alive)
  }

  function Reaped(files: Files, descriptor: string, alive: set<int>): Files {
    files - ReapedAmong(files, files.Keys, descriptor, alive)
  }

  /** The least slot whose name is absent and to which the write succeeds, or the limit. */
  function FirstClaimable(files: Files, descriptor: string, writes: nat -> bool, slot: nat, limit: nat): (k: nat)
    requires slot <= limit
    ensures slot <= k <= limit
    ensures forall j | slot <= j < k :: SlotName(descriptor, j) in files || !writes(j)
    ensures k < limit ==> SlotName(descriptor, k) !in files && writes(k)
    decreases limit - slot
  {
    if slot == limit || (SlotName(descriptor, slot) !in files && writes(slot)) then slot
    else FirstClaimable(files, descriptor, writes, slot + 1, limit)
  }

  datatype Outcome = Claimed(slot: nat) | Full | NoSlot

  /** The outcome of one pass over the directory. */
  function PassOutcome(files: Files, descriptor: string, alive: set<int>, writes: nat -> bool, limit: nat): Outcome {
    if |LiveNames(files, descriptor, alive)| >= limit then Full
    else
      var k := FirstClaimable(Reaped(files, descriptor, alive), descriptor, writes, 0, limit);
      if k < limit then Claimed(k) else NoSlot
  }

  /** The outcome when every write is complete. */
  function Undisturbed(files: Files, descriptor: string, alive: set<int>, limit: nat): Outcome {
    PassOutcome(files, descriptor, alive, (k: nat) => true, limit)
  }

  /** What acquire_lock asks the system about its own process. */
  datatype Holder = Holder(pid: int, ppid: int, uid: int, hostname: string, cmdline: string)

  /** The record that acquire_lock fills in before its first pass (src/lock/lock.c:127-147). */
  function Prepare(descriptor: string, limit: nat, who: Holder): LockInfo {
    LockInfo(LOCK_MAGIC, 1, Narrow32(who.pid), Narrow32(who.ppid), Narrow32(who.uid), 0, 0,
             if limit > 1 then 1 else 0, Narrow16(limit), 0, 0,
             FieldBytes(Clip(who.hostname, MAX_HOSTNAME - 1), MAX_HOSTNAME),
             FieldBytes(Clip(descriptor, MAX_DESCRIPTOR - 1), MAX_DESCRIPTOR),
             FieldBytes(Clip(who.cmdline, MAX_CMDLINE - 1), MAX_CMDLINE), 0, 0)
  }

  /** The lock file that acquire_lock writes for a slot. */
  function LockFor(info: LockInfo, slot: nat, time: int): FileData {
    FileData(true, Image(Stamp(info.(slot := Narrow16(slot), acquiredAt := Narrow64(time)))))
  }

  /** To every later reader the file is a valid record that names this process, limit and descriptor, and
      everything else that acquire_lock knows about its caller. */
  predicate RecordsHolder(file: FileData, descriptor: string, limit: nat, who: Holder) {
    && file.readable
    && var info := ReadAny(file.content);
       && info.magic == LOCK_MAGIC && Validate(info) && info.version == 1 && info.reserved == 0
       && info.pid == Narrow32(who.pid) && info.ppid == Narrow32(who.ppid) && info.uid == Narrow32(who.uid)
       && (info.lockType == 1 <==> limit > 1) && info.lockType <= 1 && info.maxHolders == Narrow16(limit)
       && info.hostname == FieldBytes(Clip(who.hostname, MAX_HOSTNAME - 1), MAX_HOSTNAME)
       && info.descriptor == FieldBytes(Clip(descriptor, MAX_DESCRIPTOR - 1), MAX_DESCRIPTOR)
       && info.cmdline == FieldBytes(Clip(who.cmdline, MAX_CMDLINE - 1), MAX_CMDLINE)
  }

  /** The directory that one pass leaves. */
  function PassFiles(files: Files, descriptor: string, alive: set<int>, outcome: Outcome, info: LockInfo,
                     times: nat -> int): Files
  {
    var rest := Reaped(files, descriptor, alive);
    match outcome
    case Claimed(k) => rest[SlotName(descriptor, k) := LockFor(info, k, times(k))]
    case _ => rest
  }

  // ---------------------------------------------------------------------------------------------
  // check_lock and done_lock: what each does to an entry
  // ---------------------------------------------------------------------------------------------

  predicate CheckCounts(files: Files, descriptor: string, alive: set<int>, n: string) {
    n in files && CheckMatches(n, descriptor) && IsLive(files[n], alive)
  }

  /** A file that can be read but holds no valid record. */
  predicate CheckRemoves(files: Files, descriptor: string, n: string) {
    n in files && CheckMatches(n, descriptor) && files[n].readable && Classify(files[n]).Invalid?
  }

  function CheckAmong(files: Files, seen: set<string>, descriptor: string, alive: set<int>): set<string> {
    Chosen(seen, n => CheckCounts(files, descriptor, alive, n))
  }

  function CorruptAmong(files: Files, seen: set<string>, descriptor: string): set<string> {
    Chosen(seen, n => CheckRemoves(files, descriptor, n))
  }

  function CheckLive(files: Files, descriptor: string, alive: set<int>): set<string> {
    CheckAmong(files, files.Keys, descriptor, alive)
  }

  function CheckFiles(files: Files, descriptor: string): Files {
    files - CorruptAmong(files, files.Keys, descriptor)
  }

  /** max_holders of the last live record in readdir order, one if there is none. */
  function LastLimit(files: Files, descriptor: string, alive: set<int>, order: seq<string>): nat {
    if order == [] then 1
    else
      var n := order[|order| - 1];
      if CheckCounts(files, descriptor, alive, n) then Classify(files[n]).maxHolders
      else LastLimit(files, descriptor, alive, order[..|order| - 1])
  }

  /** What the system answers while done_lock handles one entry: process_exists, whether SIGTERM could
      be sent, and process_exists once more. */
  datatype Probe = Probe(present: bool, signalled: bool, stillPresent: bool)

  predicate DoneFinds(files: Files, descriptor: string, n: string) {
    n in files && DoneMatches(n, descriptor) && Classify(files[n]).Valid?
  }

  /** The process is gone, or was signalled, or turned out to be gone. */
  predicate DoneReleases(files: Files, descriptor: string, probe: string -> Probe, n: string) {
    DoneFinds(files, descriptor, n) && (!probe(n).present || probe(n).signalled || !probe(n).stillPresent)
  }

  /** Everything matching but valid records whose process was there and is still there or signalled. */
  predicate DoneRemoves(files: Files, descriptor: string, probe: string -> Probe, n: string) {
    && n in files && DoneMatches(n, descriptor)
    && !(Classify(files[n]).Valid? && probe(n).present && (probe(n).signalled || probe(n).stillPresent))
  }

  function FoundAmong(files: Files, seen: set<string>, descriptor: string): set<string> {
    Chosen(seen, n => DoneFinds(files, descriptor, n))
  }

  function ReleasedAmong(files: Files, seen: set<string>, descriptor: string, probe: string -> Probe): set<string> {
    Chosen(seen, n => DoneReleases(files, descriptor, probe, n))
  }

  function RemovedAmong(files: Files, seen: set<string>, descriptor: string, probe: string -> Probe): set<string> {
    Chosen(seen, n => DoneRemoves(files, descriptor, probe, n))
  }

  function DoneFound(files: Files, descriptor: string): set<string> {
    FoundAmong(files, files.Keys, descriptor)
  }

  function DoneReleased(files: Files, descriptor: string, probe: string -> Probe): set<string> {
    ReleasedAmong(files, files.Keys, descriptor, probe)
  }

  function DoneFiles(files: Files, descriptor: string, probe: string -> Probe): Files {
    files - RemovedAmong(files, files.Keys, descriptor, probe)
  }

  /** The exit codes of src/waitlock.h:78-88 that these operations return. StillWaiting is not one:
      it says that the run was cut off while acquire_lock was still retrying. */
  datatype Code = Success | Busy | TimedOut | SystemError | NotFound | StillWaiting

  // ---------------------------------------------------------------------------------------------
  // The environment of one retry of acquire_lock
  // ---------------------------------------------------------------------------------------------

  type Duration = d: real | d >= 0.0 witness 0.0

  /** Around one pass: the directory as other processes have left it, the order in which readdir
      yields it, the live pids, which writes are complete, time() at each try, what reopening the claimed
      file returns, how long the pass and the way to the last clock reading take, how late the sleep
      ends, rand(), and g_state.should_exit. */
  datatype Visit = Visit(
    files: Files, order: seq<string>, alive: set<int>, writes: nat -> bool, times: nat -> int, fd: int,
    passTime: Duration, gapTime: Duration, lateTime: Duration, random: nat, shouldExit: bool)
  {
    ghost predicate Valid() {
      Enumerates(order, files)
    }

    ghost predicate Punctual() {
      passTime == 0.0 && gapTime == 0.0 && lateTime == 0.0
    }

    function Result(descriptor: string, limit: nat): Outcome {
      PassOutcome(files, descriptor, alive, writes, limit)
    }

    function After(descriptor: string, limit: nat, info: LockInfo): Files {
      PassFiles(files, descriptor, alive, Result(descriptor, limit), info, times)
    }
  }

  /** One pass of the retry loop: the clock when it begins, when it is over and at the last reading before
      the sleep, and wait_ms. */
  datatype Attempt = Attempt(start: real, done: real, check: real, wait: nat)

  predicate Timed(timeout: real, v: Visit, a: Attempt) {
    && a.start >= 0.0 && a.done == a.start + v.passTime && a.check == a.done + v.gapTime
    && (timeout >= 0.0 ==> a.start < timeout)
  }

  /** When the sleep after a pass ends. */
  function WakeTime(timeout: real, v: Visit, a: Attempt): real {
    var sleep := if 0.0 <= timeout && a.check < timeout then SleepMs(timeout, a.check, a.wait) else a.wait;
    a.check + sleep as real + v.lateTime
  }

  predicate Resumes(timeout: real, v: Visit, a: Attempt, start: real, wait: nat) {
    start == WakeTime(timeout, v, a) && wait == NextWait(a.wait, v.random) && (timeout >= 0.0 ==> a.check < timeout)
  }

  /** The passes of one call: each begins before the deadline, when the sleep after the last one ends. */
  ghost predicate Paced(timeout: real, visits: seq<Visit>, attempts: seq<Attempt>) {
    && |attempts| <= |visits|
    && (attempts != [] ==> attempts[0].start == 0.0 && attempts[0].wait == INITIAL_WAIT)
    && (forall i | 0 <= i < |attempts| :: Timed(timeout, visits[i], attempts[i]))
    && (forall i | 0 < i < |attempts| ::
          Resumes(timeout, visits[i - 1], attempts[i - 1], attempts[i].start, attempts[i].wait))
  }

  class Locker {
    var files: Files
    var lockFd: int       // g_state.lock_fd, -1 when closed
    var lockName: string  // the file name in g_state.lock_path, empty when there is none

    constructor (files: Files)
      ensures this.files == files && lockFd == -1 && lockName == ""
    {
      this.files := files;
      lockFd := -1;
      lockName := "";
    }

    /** One entry of acquire_lock's scan: count a live record, unlink a dead one. */
    method Inspect(name: string, descriptor: string, alive: set<int>) returns (counted: bool)
      requires name in files
      modifies this`files
      ensures counted == CountedName(old(files), descriptor, alive, name)
      ensures files == old(files) - if ReapedName(old(files), descriptor, alive, name) then {name} else {}
      ensures var verdict := Classify(old(files)[name]);
              && (counted <==>
                  ScanMatches(name, descriptor) && verdict.Valid? && verdict.pid > 0 && verdict.pid in alive)
              && (name !in files <==>
                  ScanMatches(name, descriptor) && verdict.Valid? && !(verdict.pid > 0 && verdict.pid in alive))
    {
      hide Classify, SlotName, ScanMatches;
      counted := false;
      if ScanMatches(name, descriptor) {
        var verdict := Classify(files[name]);
        if verdict.Valid? {
          if Exists(alive, verdict.pid) {
            counted := true;
          } else {
            files := files - {name};
          }
        }
      }
    }

    /** The whole scan. */
    method Scan(descriptor: string, order: seq<string>, alive: set<int>) returns (active: nat)
      requires Enumerates(order, files)
      modifies this`files
      ensures active == |LiveNames(old(files), descriptor, alive)|
      ensures files == Reaped(old(files), descriptor, alive)
    {
      hide CountedName, ReapedName, Enumerates, SeenUpTo, CountedAmong, ReapedAmong;
      active := 0;
      ghost var all := files;
      ghost var seen: set<string> := {};
      NothingSeen(order);
      NothingScanned(all, descriptor, alive);
      for i := 0 to |order|
        invariant SeenUpTo(order, i, seen)
        invariant active == |CountedAmong(all, seen, descriptor, alive)|
        invariant files == all - ReapedAmong(all, seen, descriptor, alive)
      {
        var name := order[i];
        SeenNext(order, all, i, seen);
        CountedNext(all, seen, name, descriptor, alive);
        ReapedNext(all, seen, name, descriptor, alive);
        SameVerdict(all, files, descriptor, alive, name);
        var counted := Inspect(name, descriptor, alive);
        if counted { active := active + 1; }
        seen := seen + {name};
      }
      AllSeen(order, all, seen);
    }

    /** The claim loop: exclusive create, write, and clean-up after a short write. */
    method Claim(descriptor: string, limit: nat, info: LockInfo, writes: nat -> bool, times: nat -> int)
      returns (outcome: Outcome)
      modifies this`files
      ensures var k := FirstClaimable(old(files), descriptor, writes, 0, limit);
              if k < limit
              then outcome == Claimed(k) && files == old(files)[SlotName(descriptor, k) := LockFor(info, k, times(k))]
              else outcome == NoSlot && files == old(files)
    {
      hide SlotName, LockFor;
      for slot := 0 to limit
        invariant files == old(files)
        invariant FirstClaimable(files, descriptor, writes, slot, limit)
               == FirstClaimable(files, descriptor, writes, 0, limit)
      {
        var name := SlotName(descriptor, slot);
        if name !in files {
          files := files[name := FileData(true, [])];
          if writes(slot) {
            files := files[name := LockFor(info, slot, times(slot))];
            return Claimed(slot);
          }
          files := files - {name};
        }
      }
      outcome := NoSlot;
    }

    /** One pass of acquire_lock. */
    method Pass(descriptor: string, limit: nat, info: LockInfo, order: seq<string>, alive: set<int>,
                writes: nat -> bool, times: nat -> int)
      returns (outcome: Outcome)
      requires Enumerates(order, files)
      modifies this`files
      ensures outcome == PassOutcome(old(files), descriptor, alive, writes, limit)
      ensures files == PassFiles(old(files), descriptor, alive, outcome, info, times)
    {
      hide LiveNames, Reaped, Enumerates, SlotName, LockFor, FirstClaimable;
      var active := Scan(descriptor, order, alive);
      if active >= limit {
        outcome := Full;
      } else {
        outcome := Claim(descriptor, limit, info, writes, times);
      }
    }

    /** acquire_lock. `timeout` is in milliseconds, negative for none; `visits` is what the rest of the
        system does around each pass. The clock starts at zero; `attempts` is the history of the passes. */
    method AcquireLock(descriptor: string, limit: nat, timeout: real, who: Holder, visits: seq<Visit>)
      returns (code: Code, passes: nat, clock: real, ghost attempts: seq<Attempt>)
      requires visits != [] && forall i | 0 <= i < |visits| :: visits[i].Valid()
      modifies this
      ensures passes == |attempts| <= |visits| && Paced(timeout, visits, attempts)
      ensures passes == 0 <==> timeout == 0.0
      ensures passes > 0 ==> attempts[0].start == 0.0 && attempts[0].wait == 10
      ensures forall i | 0 <= i < passes - 1 :: !visits[i].Result(descriptor, limit).Claimed? && !visits[i].shouldExit
      ensures timeout < 0.0 ==> forall i | 0 <= i < passes - 1 :: visits[i].Result(descriptor, limit) == NoSlot
      ensures passes == 0 ==> files == old(files)
      ensures passes > 0 ==> files == visits[passes - 1].After(descriptor, limit, Prepare(descriptor, limit, who))
      ensures code == Success <==> passes > 0 && visits[passes - 1].Result(descriptor, limit).Claimed?
      ensures code == Success ==> lockName == SlotName(descriptor, visits[passes - 1].Result(descriptor, limit).slot)
      ensures code == Success ==> lockFd == visits[passes - 1].fd
      ensures code == Success ==> lockName in files && RecordsHolder(files[lockName], descriptor, limit, who)
      ensures code == Success && timeout >= 0.0 ==> clock == attempts[passes - 1].start < timeout
      ensures code != Success ==> lockName == old(lockName) && lockFd == old(lockFd)
      ensures code == Busy <==> timeout < 0.0 && passes > 0 && visits[passes - 1].Result(descriptor, limit) == Full
      ensures code == SystemError <==>
        && passes > 0 && visits[passes - 1].shouldExit && !(0.0 <= timeout <= attempts[passes - 1].done)
        && !visits[passes - 1].Result(descriptor, limit).Claimed?
        && !(timeout < 0.0 && visits[passes - 1].Result(descriptor, limit) == Full)
      ensures code == TimedOut <==>
        || timeout == 0.0
        || (timeout > 0.0 && !visits[passes - 1].Result(descriptor, limit).Claimed?
            && (|| attempts[passes - 1].done >= timeout
                || (!visits[passes - 1].shouldExit
                    && (attempts[passes - 1].check >= timeout || (passes < |visits| && clock >= timeout)))))
      ensures code == TimedOut ==> clock >= timeout
      ensures code == TimedOut && timeout > 0.0 && (forall i | 0 <= i < |visits| :: visits[i].Punctual())
          ==> clock < timeout + 1.0
      ensures code != NotFound && (code == StillWaiting ==> passes == |visits|)
      ensures code == StillWaiting && timeout >= 0.0 ==> |visits| as real <= timeout / 1000.0 + 13.0
    {
      hide PassOutcome, PassFiles, Enumerates, SlotName, SleepMs, NextWait, Prepare, RecordsHolder, Paced;
      clock, passes, attempts := 0.0, 0, [];
      var info := Prepare(descriptor, limit, who);
      var wait: nat := INITIAL_WAIT;
      PacedAtFirst(timeout, visits);
      while passes < |visits|
        invariant 0 <= passes <= |visits| && clock >= 0.0 && |attempts| == passes && Paced(timeout, visits, attempts)
        invariant lockName == old(lockName) && lockFd == old(lockFd)
        invariant forall i | 0 <= i < passes :: !visits[i].Result(descriptor, limit).Claimed? && !visits[i].shouldExit
        invariant timeout < 0.0 ==> forall i | 0 <= i < passes :: visits[i].Result(descriptor, limit) == NoSlot
        invariant passes == 0 ==> files == old(files) && clock == 0.0 && wait == INITIAL_WAIT
        invariant passes > 0 ==> files == visits[passes - 1].After(descriptor, limit, info) && timeout != 0.0
        invariant passes > 0 ==> attempts[0].start == 0.0 && attempts[0].wait == 10
        invariant passes > 0 ==> Resumes(timeout, visits[passes - 1], attempts[passes - 1], clock, wait)
        invariant passes > 0 && timeout > 0.0 ==> attempts[passes - 1].done < timeout
        invariant timeout > 0.0 && (forall i | 0 <= i < |visits| :: visits[i].Punctual()) ==> clock < timeout + 1.0
      {
        if timeout >= 0.0 && clock >= timeout {
          return TimedOut, passes, clock, attempts;
        }
        var v := visits[passes];
        files := v.files;
        var outcome := Pass(descriptor, limit, info, v.order, v.alive, v.writes, v.times);
        ghost var attempt := Attempt(clock, clock + v.passTime, clock + v.passTime + v.gapTime, wait);
        PacedNext(timeout, visits, attempts, attempt);
        attempts := attempts + [attempt];
        passes := passes + 1;
        match outcome {
          case Full =>
            if timeout <= 0.0 { return Busy, passes, clock, attempts; }
          case Claimed(slot) =>
            lockFd := v.fd;
            lockName := SlotName(descriptor, slot);
            ClaimRecordsHolder(v, descriptor, limit, who);
            return Success, passes, clock, attempts;
          case NoSlot =>
        }
        clock := clock + v.passTime;
        if timeout >= 0.0 && clock >= timeout {
          return TimedOut, passes, clock, attempts;
        }
        if v.shouldExit {
          return SystemError, passes, clock, attempts;
        }
        clock := clock + v.gapTime;
        var sleep := wait;
        if timeout >= 0.0 {
          if timeout - clock <= 0.0 {
            return TimedOut, passes, clock, attempts;
          }
          sleep := SleepMs(timeout, clock, wait);
          SleepStaysNearDeadline(timeout, clock, wait);
        }
        clock := clock + sleep as real + v.lateTime;
        wait := NextWait(wait, v.random);
      }
      if timeout >= 0.0 {
        PacedIsScheduled(timeout, visits, attempts);
      }
      code := StillWaiting;
    }

    /** release_lock: close the descriptor, unlink the recorded path, forget both. */
    method ReleaseLock()
      modifies this
      ensures lockFd == old(if lockFd >= 0 then -1 else lockFd) && lockName == ""
      ensures files == if old(lockName) == "" then old(files) else old(files) - {old(lockName)}
    {
      if lockFd >= 0 { lockFd := -1; }
      if lockName != "" {
        files := files - {lockName};
        lockName := "";
      }
    }

    /** Releasing twice is releasing once: the second call finds nothing to do. */
    method ReleaseTwice()
      modifies this
      ensures lockName == "" && files == if old(lockName) == "" then old(files) else old(files) - {old(lockName)}
    {
      ReleaseLock();
      label once:
      ReleaseLock();
      assert files == old@once(files) && lockFd == old@once(lockFd);
    }

    /** A successful acquire followed by a release leaves the reaped directory of the last pass. */
    method AcquireAndRelease(descriptor: string, limit: nat, timeout: real, who: Holder, visits: seq<Visit>)
      returns (code: Code, last: nat)
      requires visits != [] && forall i | 0 <= i < |visits| :: visits[i].Valid()
      modifies this
      ensures code == Success ==>
        last < |visits| && lockName == "" && files == Reaped(visits[last].files, descriptor, visits[last].alive)
    {
      hide Enumerates, LiveNames, FirstClaimable, Reaped, LockFor, RecordsHolder, Prepare;
      var passes, clock;
      ghost var attempts;
      code, passes, clock, attempts := AcquireLock(descriptor, limit, timeout, who, visits);
      last := if passes > 0 then passes - 1 else 0;
      if code == Success {
        ReleaseUndoesPass(visits[last], descriptor, limit, Prepare(descriptor, limit, who));
        SlotNameIsNotEmpty(descriptor, visits[last].Result(descriptor, limit).slot);
        ReleaseLock();
      }
    }

    /** One entry of check_lock's scan. */
    method CheckEntry(name: string, descriptor: string, alive: set<int>) returns (live: bool, limit: nat)
      requires name in files
      modifies this`files
      ensures live == CheckCounts(old(files), descriptor, alive, name)
      ensures live ==> limit == Classify(old(files)[name]).maxHolders
      ensures files == old(files) - if CheckRemoves(old(files), descriptor, name) then {name} else {}
      ensures var verdict := Classify(old(files)[name]);
              && (live <==> CheckMatches(name, descriptor) && verdict.Valid? && verdict.pid > 0 && verdict.pid in alive)
              && (name !in files <==> CheckMatches(name, descriptor) && old(files)[name].readable && verdict.Invalid?)
    {
      hide Classify, CheckMatches;
      live, limit := false, 0;
      if CheckMatches(name, descriptor) && files[name].readable {
        var verdict := Classify(files[name]);
        if verdict.Valid? && Exists(alive, verdict.pid) {
          live, limit := true, verdict.maxHolders;
        } else if verdict.Invalid? {
          files := files - {name};
        }
      }
      UnreadableIsInvalid(old(files)[name]);
    }

    /** check_lock: Busy or Success, removing files whose record is corrupt on the way. */
    method CheckLock(descriptor: string, order: seq<string>, alive: set<int>) returns (code: Code)
      requires Enumerates(order, files)
      modifies this`files
      ensures code == if |CheckLive(old(files), descriptor, alive)| >= LastLimit(old(files), descriptor, alive, order)
                      then Busy else Success
      ensures files == CheckFiles(old(files), descriptor)
    {
      hide Enumerates, SeenUpTo, CheckAmong, CorruptAmong, CheckCounts, CheckRemoves, Classify;
      var active, limit: nat := 0, 1;
      ghost var all := files;
      ghost var seen: set<string> := {};
      NothingSeen(order);
      NothingChecked(all, descriptor, alive);
      for i := 0 to |order|
        invariant SeenUpTo(order, i, seen)
        invariant active == |CheckAmong(all, seen, descriptor, alive)|
        invariant limit == LastLimit(all, descriptor, alive, order[..i])
        invariant files == all - CorruptAmong(all, seen, descriptor)
      {
        var name := order[i];
        SeenNext(order, all, i, seen);
        CheckedNext(all, seen, name, descriptor, alive);
        CorruptNext(all, seen, name, descriptor);
        assert order[..i + 1][..i] == order[..i] && order[..i + 1][i] == name;
        SameCheck(all, files, descriptor, alive, name);
        var live, itsLimit := CheckEntry(name, descriptor, alive);
        if live { active, limit := active + 1, itsLimit; }
        seen := seen + {name};
      }
      AllSeen(order, all, seen);
      assert order[..|order|] == order;
      code := if active >= limit then Busy else Success;
    }

    /** One entry of done_lock's scan. */
    method DoneEntry(name: string, descriptor: string, probe: string -> Probe) returns (found: bool, released: bool)
      requires name in files
      modifies this`files
      ensures found == DoneFinds(old(files), descriptor, name)
      ensures released == DoneReleases(old(files), descriptor, probe, name)
      ensures files == old(files) - if DoneRemoves(old(files), descriptor, probe, name) then {name} else {}
      ensures found <==> DoneMatches(name, descriptor) && Classify(old(files)[name]).Valid?
      ensures released <==> found && (!probe(name).present || probe(name).signalled || !probe(name).stillPresent)
      ensures name in files <==>
        || !DoneMatches(name, descriptor)
        || (found && probe(name).present && (probe(name).signalled || probe(name).stillPresent))
    {
      hide Classify, DoneMatches;
      found, released := false, false;
      if DoneMatches(name, descriptor) {
        if Classify(files[name]).Valid? {
          found := true;
          if probe(name).present {
            if probe(name).signalled {
              released := true;
            } else if !probe(name).stillPresent {
              files := files - {name};
              released := true;
            }
          } else {
            files := files - {name};
            released := true;
          }
        } else {
          files := files - {name};
        }
      }
    }

    /** done_lock: signal the holders, remove what no live process answers for. */
    method DoneLock(descriptor: string, order: seq<string>, probe: string -> Probe) returns (code: Code)
      requires Enumerates(order, files)
      modifies this`files
      ensures files == DoneFiles(old(files), descriptor, probe)
      ensures forall n :: n in files <==>
        && n in old(files)
        && (|| !DoneMatches(n, descriptor)
            || (Classify(old(files)[n]).Valid? && probe(n).present && (probe(n).signalled || probe(n).stillPresent)))
      ensures forall n | n in files :: files[n] == old(files)[n]
      ensures code == NotFound <==>
        !exists n :: n in old(files) && DoneMatches(n, descriptor) && Classify(old(files)[n]).Valid?
      ensures code == Success <==>
        exists n :: n in old(files) && DoneMatches(n, descriptor) && Classify(old(files)[n]).Valid?
          && (!probe(n).present || probe(n).signalled || !probe(n).stillPresent)
      ensures code == NotFound || code == SystemError || code == Success
      ensures code == if DoneFound(old(files), descriptor) == {} then NotFound
                      else if DoneReleased(old(files), descriptor, probe) == {} then SystemError
                      else Success
    {
      hide Enumerates, SeenUpTo, FoundAmong, ReleasedAmong, RemovedAmong, DoneFinds, DoneReleases, DoneRemoves;
      var found, released: nat := 0, 0;
      ghost var all := files;
      ghost var seen: set<string> := {};
      NothingSeen(order);
      NothingDone(all, descriptor, probe);
      for i := 0 to |order|
        invariant SeenUpTo(order, i, seen)
        invariant found == |FoundAmong(all, seen, descriptor)|
        invariant released == |ReleasedAmong(all, seen, descriptor, probe)|
        invariant files == all - RemovedAmong(all, seen, descriptor, probe)
      {
        var name := order[i];
        SeenNext(order, all, i, seen);
        FoundNext(all, seen, name, descriptor);
        ReleasedNext(all, seen, name, descriptor, probe);
        RemovedNext(all, seen, name, descriptor, probe);
        SameDone(all, files, descriptor, probe, name);
        var itFound, itReleased := DoneEntry(name, descriptor, probe);
        if itFound { found := found + 1; }
        if itReleased { released := released + 1; }
        seen := seen + {name};
      }
      AllSeen(order, all, seen);
      DoneAccounts(all, descriptor, probe);
      code := if found == 0 then NotFound else if released == 0 then SystemError else Success;
    }
  }

  lemma PacedAtFirst(timeout: real, visits: seq<Visit>)
    ensures Paced(timeout, visits, [])
  {}

  lemma PacedNext(timeout: real, visits: seq<Visit>, attempts: seq<Attempt>, next: Attempt)
    requires Paced(timeout, visits, attempts) && |attempts| < |visits| && Timed(timeout, visits[|attempts|], next)
    requires attempts == [] ==> next.start == 0.0 && next.wait == INITIAL_WAIT
    requires attempts != [] ==>
      Resumes(timeout, visits[|attempts| - 1], attempts[|attempts| - 1], next.start, next.wait)
    ensures Paced(timeout, visits, attempts + [next])
  {
    hide WakeTime;
    var more := attempts + [next];
    forall i | 0 < i < |more| ensures Resumes(timeout, visits[i - 1], more[i - 1], more[i].start, more[i].wait) {
      if i < |attempts| {
        assert Resumes(timeout, visits[i - 1], attempts[i - 1], attempts[i].start, attempts[i].wait);
      }
    }
  }

  /** The sleeps of a call with a deadline are a schedule, so there are few of them. */
  lemma PacedIsScheduled(timeout: real, visits: seq<Visit>, attempts: seq<Attempt>)
    requires Paced(timeout, visits, attempts) && timeout >= 0.0
    requires attempts != [] ==> attempts[|attempts| - 1].check < timeout
    ensures |attempts| as real <= timeout / 1000.0 + 13.0
  {
    var naps := seq(|attempts|, i requires 0 <= i < |attempts| => Nap(attempts[i].check, attempts[i].wait));
    forall i | 0 <= i < |naps| ensures naps[i].elapsed < timeout && naps[i].elapsed >= attempts[i].start {
      assert Timed(timeout, visits[i], attempts[i]);
      if i + 1 < |naps| {
        assert Resumes(timeout, visits[i + 1 - 1], attempts[i + 1 - 1], attempts[i + 1].start, attempts[i + 1].wait);
      }
    }
    forall i | 0 < i < |naps| ensures Follows(timeout, naps[i - 1], naps[i]) {
      assert Resumes(timeout, visits[i - 1], attempts[i - 1], attempts[i].start, attempts[i].wait);
    }
    SleepsAreBounded(timeout, naps);
  }

  lemma SlotNameIsNotEmpty(descriptor: string, slot: nat)
    ensures SlotName(descriptor, slot) != ""
  {}

  /** A claimed slot is absent from the reaped directory, so removing it undoes the claim. */
  lemma ReleaseUndoesPass(v: Visit, descriptor: string, limit: nat, info: LockInfo)
    requires v.Result(descriptor, limit).Claimed?
    ensures v.After(descriptor, limit, info) - {SlotName(descriptor, v.Result(descriptor, limit).slot)}
         == Reaped(v.files, descriptor, v.alive)
  {
    hide SlotName, LiveNames, LockFor, Reaped;
  }

  lemma UnreadableIsInvalid(file: FileData)
    ensures Classify(file).Valid? ==> file.readable
  {}

  lemma SameCheck(files: Files, now: Files, descriptor: string, alive: set<int>, name: string)
    requires name in files && name in now && files[name] == now[name]
    ensures CheckCounts(files, descriptor, alive, name) == CheckCounts(now, descriptor, alive, name)
    ensures CheckRemoves(files, descriptor, name) == CheckRemoves(now, descriptor, name)
  {}

  lemma SameDone(files: Files, now: Files, descriptor: string, probe: string -> Probe, name: string)
    requires name in files && name in now && files[name] == now[name]
    ensures DoneFinds(files, descriptor, name) == DoneFinds(now, descriptor, name)
    ensures DoneReleases(files, descriptor, probe, name) == DoneReleases(now, descriptor, probe, name)
    ensures DoneRemoves(files, descriptor, probe, name) == DoneRemoves(now, descriptor, probe, name)
  {}

  lemma NothingScanned(files: Files, descriptor: string, alive: set<int>)
    ensures CountedAmong(files, {}, descriptor, alive) == {}
    ensures files - ReapedAmong(files, {}, descriptor, alive) == files
  {}

  lemma CountedNext(files: Files, seen: set<string>, name: string, descriptor: string, alive: set<int>)
    requires name !in seen
    ensures |CountedAmong(files, seen + {name}, descriptor, alive)|
         == |CountedAmong(files, seen, descriptor, alive)|
          + if CountedName(files, descriptor, alive, name) then 1 else 0
  {
    hide CountedName, Chosen;
    ChosenNext(seen, name, n => CountedName(files, descriptor, alive, n));
  }

  lemma ReapedNext(files: Files, seen: set<string>, name: string, descriptor: string, alive: set<int>)
    requires name in files && name !in seen
    ensures name in files - ReapedAmong(files, seen, descriptor, alive)
    ensures files - ReapedAmong(files, seen + {name}, descriptor, alive)
         == files - ReapedAmong(files, seen, descriptor, alive)
          - if ReapedName(files, descriptor, alive, name) then {name} else {}
  {
    hide ReapedName, Chosen;
    ChosenNext(seen, name, n => ReapedName(files, descriptor, alive, n));
  }

  lemma NothingChecked(files: Files, descriptor: string, alive: set<int>)
    ensures CheckAmong(files, {}, descriptor, alive) == {}
    ensures files - CorruptAmong(files, {}, descriptor) == files
  {}

  lemma CheckedNext(files: Files, seen: set<string>, name: string, descriptor: string, alive: set<int>)
    requires name !in seen
    ensures |CheckAmong(files, seen + {name}, descriptor, alive)|
         == |CheckAmong(files, seen, descriptor, alive)| + if CheckCounts(files, descriptor, alive, name) then 1 else 0
  {
    hide CheckCounts, Chosen;
    ChosenNext(seen, name, n => CheckCounts(files, descriptor, alive, n));
  }

  lemma CorruptNext(files: Files, seen: set<string>, name: string, descriptor: string)
    requires name in files && name !in seen
    ensures name in files - CorruptAmong(files, seen, descriptor)
    ensures files - CorruptAmong(files, seen + {name}, descriptor)
         == files - CorruptAmong(files, seen, descriptor) - if CheckRemoves(files, descriptor, name) then {name} else {}
  {
    hide CheckRemoves, Chosen;
    ChosenNext(seen, name, n => CheckRemoves(files, descriptor, n));
  }

  lemma NothingDone(files: Files, descriptor: string, probe: string -> Probe)
    ensures FoundAmong(files, {}, descriptor) == ReleasedAmong(files, {}, descriptor, probe) == {}
    ensures files - RemovedAmong(files, {}, descriptor, probe) == files
  {}

  /** One more entry adds to each account what its own verdict says. */
  lemma FoundNext(files: Files, seen: set<string>, name: string, descriptor: string)
    requires name !in seen
    ensures |FoundAmong(files, seen + {name}, descriptor)|
         == |FoundAmong(files, seen, descriptor)| + if DoneFinds(files, descriptor, name) then 1 else 0
  {
    hide DoneFinds, Chosen;
    ChosenNext(seen, name, n => DoneFinds(files, descriptor, n));
  }

  lemma ReleasedNext(files: Files, seen: set<string>, name: string, descriptor: string, probe: string -> Probe)
    requires name !in seen
    ensures |ReleasedAmong(files, seen + {name}, descriptor, probe)|
         == |ReleasedAmong(files, seen, descriptor, probe)|
          + if DoneReleases(files, descriptor, probe, name) then 1 else 0
  {
    hide DoneReleases, Chosen;
    ChosenNext(seen, name, n => DoneReleases(files, descriptor, probe, n));
  }

  lemma RemovedNext(files: Files, seen: set<string>, name: string, descriptor: string, probe: string -> Probe)
    requires name in files && name !in seen
    ensures name in files - RemovedAmong(files, seen, descriptor, probe)
    ensures files - RemovedAmong(files, seen + {name}, descriptor, probe)
         == files - RemovedAmong(files, seen, descriptor, probe)
          - if DoneRemoves(files, descriptor, probe, name) then {name} else {}
  {
    hide DoneRemoves, Chosen;
    ChosenNext(seen, name, n => DoneRemoves(files, descriptor, probe, n));
  }

  lemma SameVerdict(files: Files, now: Files, descriptor: string, alive: set<int>, name: string)
    requires name in files && name in now && files[name] == now[name]
    ensures CountedName(files, descriptor, alive, name) == CountedName(now, descriptor, alive, name)
    ensures ReapedName(files, descriptor, alive, name) == ReapedName(now, descriptor, alive, name)
  {}

  // ---------------------------------------------------------------------------------------------
  // What the written record is worth
  // ---------------------------------------------------------------------------------------------

  lemma PreparedIsValid(descriptor: string, limit: nat, who: Holder)
    ensures Prepare(descriptor, limit, who).Valid()
  {
    hide Octets, Clip;
  }

  lemma StampKeeps(info: LockInfo)
    ensures Stamp(info) == info.(checksum := Stamp(info).checksum)
  {}

  /** What every later reader finds in a lock file that acquire_lock wrote. */
  lemma OwnLockIsRead(info: LockInfo, slot: nat, time: int)
    requires info.Valid() && info.magic == LOCK_MAGIC
    ensures var read := ReadAny(LockFor(info, slot, time).content);
            && Validate(read)
            && read == info.(slot := Narrow16(slot), acquiredAt := Narrow64(time), checksum := read.checksum)
  {
    hide ReadAny, Image, Validate, Stamp;
    var record := info.(slot := Narrow16(slot), acquiredAt := Narrow64(time));
    StampKeeps(record);
    StampedIsValid(record);
    ReadAnyOfImage(Stamp(record), []);
    assert Image(Stamp(record)) + [] == Image(Stamp(record));
  }

  /** A lock file that acquire_lock wrote is a valid record that names its writer and its limit. */
  lemma OwnLockIsValid(info: LockInfo, slot: nat, time: int)
    requires info.Valid() && info.magic == LOCK_MAGIC
    ensures Classify(LockFor(info, slot, time)) == LockProtocol.Valid(Signed32(info.pid), info.maxHolders)
  {
    hide ReadAny, Image, Validate, Stamp;
    OwnLockIsRead(info, slot, time);
  }

  /** The file that a claim writes names the caller, to every later reader. */
  lemma LockRecordsHolder(descriptor: string, limit: nat, who: Holder, slot: nat, time: int)
    ensures RecordsHolder(LockFor(Prepare(descriptor, limit, who), slot, time), descriptor, limit, who)
  {
    hide ReadAny, Image, Validate, Stamp, FieldBytes, Clip;
    PreparedIsValid(descriptor, limit, who);
    OwnLockIsRead(Prepare(descriptor, limit, who), slot, time);
  }

  lemma ClaimRecordsHolder(v: Visit, descriptor: string, limit: nat, who: Holder)
    requires v.Result(descriptor, limit).Claimed?
    ensures var name := SlotName(descriptor, v.Result(descriptor, limit).slot);
            var after := v.After(descriptor, limit, Prepare(descriptor, limit, who));
            name in after && RecordsHolder(after[name], descriptor, limit, who)
  {
    hide SlotName, LiveNames, Reaped, FirstClaimable, RecordsHolder, LockFor, Prepare;
    var slot := v.Result(descriptor, limit).slot;
    LockRecordsHolder(descriptor, limit, who, slot, v.times(slot));
  }

  /** The record that acquire_lock prepares survives the text form exactly when none of its strings, as
      the struct keeps them, holds a newline and the command line has at most 1015 characters. */
  lemma PreparedRoundTripIsExact(descriptor: string, limit: nat, who: Holder)
    requires NoNul(who.hostname) && NoNul(descriptor) && NoNul(who.cmdline)
    requires Latin(who.hostname) && Latin(descriptor) && Latin(who.cmdline)
    ensures var info := Prepare(descriptor, limit, who);
            (ReadAny(Octets(Print(Printed(info)))) == PrintedPart(info)
             <==> && NewlineFree(Clip(who.hostname, MAX_HOSTNAME - 1))
                  && NewlineFree(Clip(descriptor, MAX_DESCRIPTOR - 1))
                  && NewlineFree(who.cmdline) && |who.cmdline| <= 1015)
  {
    hide FieldText, FieldBytes, Clip, NoNul, NewlineFree, Latin, Print, ReadAny, PrintedPart, Padded;
    var info := Prepare(descriptor, limit, who);
    PreparedIsValid(descriptor, limit, who);
    FieldIsKept(who.hostname, MAX_HOSTNAME);
    FieldIsKept(descriptor, MAX_DESCRIPTOR);
    FieldIsKept(who.cmdline, MAX_CMDLINE);
    TextFileRoundTripIsExact(info);
    ShortIsWhole(who.cmdline);
  }

  lemma ShortIsWhole(cmdline: string)
    ensures |Clip(cmdline, MAX_CMDLINE - 1)| <= COMMAND_LIMIT <==> |cmdline| <= COMMAND_LIMIT
    ensures |cmdline| <= COMMAND_LIMIT ==> Clip(cmdline, MAX_CMDLINE - 1) == cmdline
  {}

  lemma ClipKeeps(s: string, limit: nat)
    requires NoNul(s) && Latin(s)
    ensures NoNul(Clip(s, limit)) && Latin(Clip(s, limit)) && |Clip(s, limit)| <= limit
  {}

  lemma FieldIsKept(s: string, size: nat)
    requires size > 0 && NoNul(s) && Latin(s)
    ensures FieldText(FieldBytes(Clip(s, size - 1), size)) == Clip(s, size - 1) && |Clip(s, size - 1)| < size
    ensures Padded(FieldBytes(Clip(s, size - 1), size))
  {
    hide FieldText, FieldBytes, Clip, NoNul, Latin;
    ClipKeeps(s, size - 1);
    StoredTextIsKept(Clip(s, size - 1), size);
    FieldIsFull(Clip(s, size - 1), size);
  }

  lemma FieldIsFull(s: string, size: nat)
    ensures |FieldBytes(s, size)| == size
  {}

  /** A lock file written by a process counts for later scans under the limit it asked for exactly
      when that limit fits the 16-bit field. */
  lemma RecordedLimitIsExact(descriptor: string, limit: nat, who: Holder, slot: nat, time: int)
    requires 0 < who.pid < 0x8000_0000
    ensures Classify(LockFor(Prepare(descriptor, limit, who), slot, time)) == LockProtocol.Valid(who.pid, limit)
       <==> limit < 0x1_0000
  {
    hide Classify, LockFor, FieldBytes, Clip;
    PreparedIsValid(descriptor, limit, who);
    OwnLockIsValid(Prepare(descriptor, limit, who), slot, time);
  }

  /** A file that is no binary image carries no checksum, so it counts as a lock exactly when the CRC-32
      of the record it is read as happens to be zero. */
  lemma TextFileCountsExactly(content: Bytes)
    requires |content| < RECORD_SIZE || Parse(content[..RECORD_SIZE]).magic != LOCK_MAGIC
    ensures Classify(FileData(true, content)).Valid? <==> LockChecksum(Stored(ReadLines(BLANK, Chars(content)))) == 0
  {
    hide ReadLines, Parse, LockChecksum;
  }

  // ---------------------------------------------------------------------------------------------
  // What any file is worth
  // ---------------------------------------------------------------------------------------------

  /** A file that is a binary image counts exactly when its checksum is right, and then for the pid and the
      limit that it holds. */
  lemma ImageCountsExactly(content: Bytes)
    requires |content| >= RECORD_SIZE && Parse(content[..RECORD_SIZE]).magic == LOCK_MAGIC
    ensures var info := Parse(content[..RECORD_SIZE]);
            Classify(FileData(true, content)) ==
            if Validate(info) then LockProtocol.Valid(Signed32(info.pid), info.maxHolders) else LockProtocol.Invalid
  {
    hide Parse, Validate, ReadLines;
  }

  /** The same for a record that was written, whatever follows it in the file. */
  lemma WrittenImageCountsExactly(info: LockInfo, extra: Bytes)
    requires info.Valid() && info.magic == LOCK_MAGIC
    ensures Classify(FileData(true, Image(info) + extra))
         == if Validate(info) then LockProtocol.Valid(Signed32(info.pid), info.maxHolders) else LockProtocol.Invalid
  {
    hide ReadAny, Image, Validate;
    ReadAnyOfImage(info, extra);
  }

  /** A file that cannot be read never counts, and a record without a positive pid is never live. */
  lemma OnlyReadableCounts(file: FileData, alive: set<int>)
    ensures Classify(file).Valid? ==> file.readable
    ensures IsLive(file, alive) ==> Classify(file).pid > 0 && Classify(file).pid in alive
    ensures IsLive(file, alive) || IsDead(file, alive) <==> Classify(file).Valid?
    ensures !(IsLive(file, alive) && IsDead(file, alive))
  {}

  /** A burst of up to 32 bits in a lock file, wherever it falls: check_lock removes the file and does not
      count it, and a scan neither counts nor reaps it. */
  lemma DamagedLockIsNoLock(files: Files, n: string, x: LockInfo, y: LockInfo, start: nat, extra: Bytes,
                            descriptor: string, alive: set<int>)
    requires x.Valid() && y.Valid() && y.magic == LOCK_MAGIC
    requires Validate(x) && Codeword(x) != Codeword(y) && Crc32.AgreeOutsideBurst(Codeword(x), Codeword(y), start)
    requires n in files && files[n] == FileData(true, Image(y) + extra)
    ensures n !in CheckLive(files, descriptor, alive)
    ensures n !in CheckFiles(files, descriptor) <==> CheckMatches(n, descriptor)
    ensures n !in LiveNames(files, descriptor, alive) && n in Reaped(files, descriptor, alive)
  {
    hide Classify, ScanMatches, CheckMatches, Validate, Image, Codeword, Crc32.AgreeOutsideBurst;
    BurstInvalidates(x, y, start);
    WrittenImageCountsExactly(y, extra);
  }

  /** check_lock's accounts, file by file. */
  lemma CheckAccounts(files: Files, descriptor: string, alive: set<int>)
    ensures forall n :: n in CheckFiles(files, descriptor) <==>
      n in files && !(CheckMatches(n, descriptor) && files[n].readable && Classify(files[n]).Invalid?)
    ensures forall n | n in CheckFiles(files, descriptor) :: CheckFiles(files, descriptor)[n] == files[n]
    ensures forall n :: n in CheckLive(files, descriptor, alive) <==>
      && n in files && CheckMatches(n, descriptor) && Classify(files[n]).Valid?
      && Classify(files[n]).pid > 0 && Classify(files[n]).pid in alive
  {
    hide CheckMatches, Classify;
  }

  /** check_lock goes by the limit of the last live record it reads, and by one if it reads none. */
  lemma {:induction false} LastLimitIsLast(files: Files, descriptor: string, alive: set<int>, order: seq<string>,
                                           i: nat)
    requires i <= |order|
    requires forall j | i <= j < |order| :: order[j] !in CheckLive(files, descriptor, alive)
    ensures i == 0 ==> LastLimit(files, descriptor, alive, order) == 1
    ensures i > 0 && order[i - 1] in CheckLive(files, descriptor, alive) ==>
      LastLimit(files, descriptor, alive, order) == Classify(files[order[i - 1]]).maxHolders
    decreases |order|
  {
    hide CheckMatches, Classify;
    if i < |order| { LastLimitIsLast(files, descriptor, alive, order[..|order| - 1], i); }
  }

  // ---------------------------------------------------------------------------------------------
  // check_lock against acquire_lock
  // ---------------------------------------------------------------------------------------------

  /** Of the entries a scan counts, check_lock looks at exactly those that go on from the descriptor with
      a dot, and at none if the descriptor itself has one. */
  lemma CheckSeesDottedNames(name: string, descriptor: string)
    ensures CheckMatches(name, descriptor)
       <==> '.' !in descriptor && ScanMatches(name, descriptor) && HasPrefix(name, descriptor + ".")
  {
    if HasPrefix(name, descriptor) { FirstDot(name, descriptor); }
  }

  /** A descriptor with a dot is never found by check_lock, whoever holds it. */
  lemma DottedDescriptorIsNeverBusy(files: Files, descriptor: string, alive: set<int>, order: seq<string>)
    requires '.' in descriptor
    ensures CheckLive(files, descriptor, alive) == {} && LastLimit(files, descriptor, alive, order) == 1
    ensures CheckFiles(files, descriptor) == files
  {
    hide CheckMatches, Classify;
    forall n ensures !CheckMatches(n, descriptor) {
      CheckSeesDottedNames(n, descriptor);
    }
    NeverCounted(files, descriptor, alive, order);
  }

  lemma {:induction false} NeverCounted(files: Files, descriptor: string, alive: set<int>, order: seq<string>)
    requires forall n :: !CheckCounts(files, descriptor, alive, n)
    ensures LastLimit(files, descriptor, alive, order) == 1
    decreases |order|
  {
    if order != [] { NeverCounted(files, descriptor, alive, order[..|order| - 1]); }
  }

  lemma {:induction false} CommonLimit(files: Files, descriptor: string, alive: set<int>, order: seq<string>,
                                       limit: nat)
    requires forall n | CheckCounts(files, descriptor, alive, n) :: Classify(files[n]).maxHolders == limit
    ensures LastLimit(files, descriptor, alive, order) == limit
         || ((forall n | n in order :: !CheckCounts(files, descriptor, alive, n))
             && LastLimit(files, descriptor, alive, order) == 1)
    decreases |order|
  {
    hide CheckCounts, Classify;
    if order != [] {
      var rest := order[..|order| - 1];
      CommonLimit(files, descriptor, alive, rest, limit);
      assert forall n | n in order :: n in rest || n == order[|order| - 1];
    }
  }

  lemma LimitCounts(files: Files, descriptor: string, alive: set<int>, order: seq<string>, limit: nat)
    requires Enumerates(order, files)
    requires LastLimit(files, descriptor, alive, order) == limit
          || ((forall n | n in order :: !CheckCounts(files, descriptor, alive, n))
             && LastLimit(files, descriptor, alive, order) == 1)
    requires limit >= 1
    ensures |CheckLive(files, descriptor, alive)| < LastLimit(files, descriptor, alive, order)
       <==> |CheckLive(files, descriptor, alive)| < limit
  {
    hide CheckCounts, LastLimit;
    if forall n | n in order :: !CheckCounts(files, descriptor, alive, n) {
      assert CheckLive(files, descriptor, alive) == {};
    }
  }

  /** Live locks that a scan counts and check_lock does not look at: those of longer names, and all
      of a descriptor with a dot. */
  function Hidden(files: Files, descriptor: string, alive: set<int>): set<string> {
    Chosen(files.Keys, n => CountedName(files, descriptor, alive, n) && !CheckMatches(n, descriptor))
  }

  /** The file is there and stays through check_lock and a scan: it is live, or it holds no valid record
      and check_lock leaves it. */
  predicate Blocks(files: Files, descriptor: string, alive: set<int>, n: string) {
    && n in files
    && (IsLive(files[n], alive) || (Classify(files[n]).Invalid? && !CheckRemoves(files, descriptor, n)))
  }

  ghost predicate SlotIsFree(files: Files, descriptor: string, alive: set<int>, limit: nat) {
    exists k: nat :: k < limit && !Blocks(files, descriptor, alive, SlotName(descriptor, k))
  }

  lemma CheckedIsScanned(n: string, descriptor: string)
    ensures CheckMatches(n, descriptor) ==> ScanMatches(n, descriptor)
  {}

  lemma CountsAdd(files: Files, descriptor: string, alive: set<int>)
    ensures LiveNames(CheckFiles(files, descriptor), descriptor, alive) == LiveNames(files, descriptor, alive)
    ensures |LiveNames(files, descriptor, alive)|
         == |CheckLive(files, descriptor, alive)| + |Hidden(files, descriptor, alive)|
  {
    hide Classify, ScanMatches, CheckMatches;
    forall n ensures CheckMatches(n, descriptor) ==> ScanMatches(n, descriptor) { CheckedIsScanned(n, descriptor); }
    assert LiveNames(files, descriptor, alive)
        == CheckLive(files, descriptor, alive) + Hidden(files, descriptor, alive);
    assert CheckLive(files, descriptor, alive) !! Hidden(files, descriptor, alive);
  }

  lemma BlockedStays(files: Files, descriptor: string, alive: set<int>, k: nat)
    ensures SlotName(descriptor, k) in Reaped(CheckFiles(files, descriptor), descriptor, alive)
       <==> Blocks(files, descriptor, alive, SlotName(descriptor, k))
  {
    hide Classify, ScanMatches, CheckMatches, SlotName;
    SlotNameIsScanned(descriptor, k);
  }

  /** After check_lock an undisturbed acquire claims a slot exactly when all live locks that a scan
      counts leave room and some slot is free. */
  lemma ClaimsExactly(files: Files, descriptor: string, alive: set<int>, limit: nat)
    ensures Undisturbed(CheckFiles(files, descriptor), descriptor, alive, limit).Claimed? <==>
      && |CheckLive(files, descriptor, alive)| + |Hidden(files, descriptor, alive)| < limit
      && SlotIsFree(files, descriptor, alive, limit)
  {
    hide SlotName, LiveNames, Reaped, CheckFiles, CheckLive, Hidden, Blocks;
    CountsAdd(files, descriptor, alive);
    forall k: nat
      ensures SlotName(descriptor, k) in Reaped(CheckFiles(files, descriptor), descriptor, alive)
         <==> Blocks(files, descriptor, alive, SlotName(descriptor, k))
    {
      BlockedStays(files, descriptor, alive, k);
    }
  }

  /** When check_lock's answer is right, for every directory, descriptor and common limit: it says Success
      exactly when an undisturbed acquire would succeed next, unless it sees room and either live locks
      that only a scan counts use that room up or every slot is blocked. */
  lemma CheckAgreesWithAcquire(files: Files, descriptor: string, alive: set<int>, order: seq<string>, limit: nat)
    requires limit >= 1 && Enumerates(order, files)
    requires forall n | CheckCounts(files, descriptor, alive, n) :: Classify(files[n]).maxHolders == limit
    ensures (|CheckLive(files, descriptor, alive)| < LastLimit(files, descriptor, alive, order)
             <==> Undisturbed(CheckFiles(files, descriptor), descriptor, alive, limit).Claimed?)
       <==> || |CheckLive(files, descriptor, alive)| >= limit
            || (|CheckLive(files, descriptor, alive)| + |Hidden(files, descriptor, alive)| < limit
                && SlotIsFree(files, descriptor, alive, limit))
  {
    hide CheckLive, Hidden, SlotIsFree, CheckFiles, Undisturbed, LastLimit, Classify, CheckCounts, Enumerates;
    CommonLimit(files, descriptor, alive, order, limit);
    LimitCounts(files, descriptor, alive, order, limit);
    ClaimsExactly(files, descriptor, alive, limit);
  }

  /** With readable files and a descriptor without dots, live locks that leave room leave a free slot. */
  lemma RoomMeansFree(files: Files, descriptor: string, alive: set<int>, limit: nat)
    requires '.' !in descriptor
    requires forall n | n in files && CheckMatches(n, descriptor) :: files[n].readable
    requires |LiveNames(files, descriptor, alive)| < limit
    ensures SlotIsFree(files, descriptor, alive, limit)
  {
    hide Classify, ScanMatches, CheckMatches, SlotName;
    if !SlotIsFree(files, descriptor, alive, limit) {
      forall k | 0 <= k < limit ensures SlotName(descriptor, k) in LiveNames(files, descriptor, alive) {
        assert Blocks(files, descriptor, alive, SlotName(descriptor, k));
        OwnFileIsChecked(descriptor, k);
        SlotNameIsScanned(descriptor, k);
      }
      FullSlotsAreMany(descriptor, limit, LiveNames(files, descriptor, alive));
    }
  }

  /** For a descriptor without dots whose files can be read, only live locks that check_lock does not
      look at can prove it wrong, and they do exactly when they use up the room it sees. */
  lemma OnlyHiddenLocksMislead(files: Files, descriptor: string, alive: set<int>, order: seq<string>, limit: nat)
    requires limit >= 1 && Enumerates(order, files) && '.' !in descriptor
    requires forall n | n in files && CheckMatches(n, descriptor) :: files[n].readable
    requires forall n | CheckCounts(files, descriptor, alive, n) :: Classify(files[n]).maxHolders == limit
    ensures (|CheckLive(files, descriptor, alive)| < LastLimit(files, descriptor, alive, order)
             <==> Undisturbed(CheckFiles(files, descriptor), descriptor, alive, limit).Claimed?)
       <==> !(|CheckLive(files, descriptor, alive)| < limit
              <= |CheckLive(files, descriptor, alive)| + |Hidden(files, descriptor, alive)|)
  {
    hide CheckLive, Hidden, SlotIsFree, CheckFiles, Undisturbed, LastLimit, Classify, CheckCounts, Enumerates,
      LiveNames;
    CheckAgreesWithAcquire(files, descriptor, alive, order, limit);
    CountsAdd(files, descriptor, alive);
    if |LiveNames(files, descriptor, alive)| < limit { RoomMeansFree(files, descriptor, alive, limit); }
  }

  // ---------------------------------------------------------------------------------------------
  // Other descriptors' locks
  // ---------------------------------------------------------------------------------------------

  /** Files whose names do not begin with the descriptor make no difference to a pass. */
  lemma ForeignFilesAreIgnored(files: Files, descriptor: string, alive: set<int>, writes: nat -> bool, limit: nat,
                               gone: set<string>)
    requires forall n | n in gone :: !HasPrefix(n, descriptor)
    ensures PassOutcome(files - gone, descriptor, alive, writes, limit)
         == PassOutcome(files, descriptor, alive, writes, limit)
  {
    hide Classify, SlotName, IsLive, IsDead;
    assert LiveNames(files - gone, descriptor, alive) == LiveNames(files, descriptor, alive);
    forall k: nat
      ensures SlotName(descriptor, k) in Reaped(files - gone, descriptor, alive)
         <==> SlotName(descriptor, k) in Reaped(files, descriptor, alive)
    {
      SlotNameIsScanned(descriptor, k);
    }
    SameClaim(Reaped(files - gone, descriptor, alive), Reaped(files, descriptor, alive), descriptor, writes, 0, limit);
  }

  lemma {:induction false} SameClaim(a: Files, b: Files, descriptor: string, writes: nat -> bool, slot: nat, limit: nat)
    requires slot <= limit && forall k: nat :: SlotName(descriptor, k) in a <==> SlotName(descriptor, k) in b
    ensures FirstClaimable(a, descriptor, writes, slot, limit) == FirstClaimable(b, descriptor, writes, slot, limit)
    decreases limit - slot
  {
    hide SlotName;
    if slot < limit { SameClaim(a, b, descriptor, writes, slot + 1, limit); }
  }

  /** Whether some acquirer of the descriptor, for some limit, notices that the file is there. */
  ghost predicate Matters(files: Files, descriptor: string, alive: set<int>, n: string) {
    exists limit: nat :: limit >= 1
      && Undisturbed(files, descriptor, alive, limit) != Undisturbed(files - {n}, descriptor, alive, limit)
  }

  /** A live lock of any descriptor e matters to acquirers of d exactly when its file name begins with d. */
  lemma LiveLockMattersExactly(files: Files, e: string, k: nat, d: string, alive: set<int>)
    requires SlotName(e, k) in files && IsLive(files[SlotName(e, k)], alive)
    ensures Matters(files, d, alive, SlotName(e, k)) <==> HasPrefix(SlotName(e, k), d)
  {
    hide Classify, SlotName, IsLive, IsDead, ScanMatches, FirstClaimable, Reaped;
    var n := SlotName(e, k);
    ScanSeesExactly(e, k, d);
    if HasPrefix(n, d) {
      var live := LiveNames(files, d, alive);
      assert n in live && LiveNames(files - {n}, d, alive) == live - {n};
      assert Undisturbed(files, d, alive, |live|) == Full;
      assert Undisturbed(files - {n}, d, alive, |live|) != Full;
    } else {
      forall limit: nat ensures Undisturbed(files - {n}, d, alive, limit) == Undisturbed(files, d, alive, limit) {
        ForeignFilesAreIgnored(files, d, alive, (j: nat) => true, limit, {n});
      }
    }
  }

  /** The concrete disagreement: with one live lock of "job2" and none of "job", check_lock says that the
      mutex "job" is free and acquire_lock says that it is taken. */
  lemma Job2CountsAgainstJob(who: Holder, time: int, alive: set<int>, order: seq<string>)
    requires 0 < who.pid < 0x8000_0000 && who.pid in alive
    ensures var files := map[SlotName("job2", 0) := LockFor(Prepare("job2", 1, who), 0, time)];
            && CheckLive(files, "job", alive) == {} && LastLimit(files, "job", alive, order) == 1
            && Undisturbed(CheckFiles(files, "job"), "job", alive, 1) == Full
            && Undisturbed(files - {SlotName("job2", 0)}, "job", alive, 1) == Claimed(0)
  {
    hide Classify, SlotName, ScanMatches, CheckMatches, LockFor, Prepare;
    var n := SlotName("job2", 0);
    var files: Files := map[n := LockFor(Prepare("job2", 1, who), 0, time)];
    PreparedIsValid("job2", 1, who);
    PreparedPid("job2", 1, who);
    OwnLockIsValid(Prepare("job2", 1, who), 0, time);
    Job2IsScanned();
    assert forall m :: !CheckCounts(files, "job", alive, m);
    NeverCounted(files, "job", alive, order);
    assert CheckFiles(files, "job") == files;
    assert LiveNames(files, "job", alive) == {n};
    assert files - {n} == map[] && LiveNames(map[], "job", alive) == {};
  }

  lemma PreparedPid(descriptor: string, limit: nat, who: Holder)
    requires 0 < who.pid < 0x8000_0000
    ensures Signed32(Prepare(descriptor, limit, who).pid) == who.pid
    ensures Prepare(descriptor, limit, who).magic == LOCK_MAGIC
    ensures Prepare(descriptor, limit, who).maxHolders == Narrow16(limit)
  {}

  lemma Job2IsScanned()
    ensures ScanMatches(SlotName("job2", 0), "job") && !CheckMatches(SlotName("job2", 0), "job")
  {
    ScanSeesExactly("job2", 0, "job");
    CheckSeesExactly("job2", 0, "job");
    assert SlotName("job2", 0)[..3] == "job";
    assert ("job2" + ".")[3] == '2' && ("job" + ".")[3] == '.';
  }

  // ---------------------------------------------------------------------------------------------
  // done_lock's accounts
  // ---------------------------------------------------------------------------------------------

  /** done_lock's accounts, file by file. A file stays exactly when it does not match, or is a valid record
      whose process is there and took the signal or is still there; what stays is untouched. Found are the
      valid matching records, released those of them whose process is gone or took the signal. */
  lemma DoneAccounts(files: Files, descriptor: string, probe: string -> Probe)
    ensures forall n :: n in DoneFiles(files, descriptor, probe) <==>
      && n in files
      && (|| !DoneMatches(n, descriptor)
          || (Classify(files[n]).Valid? && probe(n).present && (probe(n).signalled || probe(n).stillPresent)))
    ensures forall n | n in DoneFiles(files, descriptor, probe) :: DoneFiles(files, descriptor, probe)[n] == files[n]
    ensures forall n :: n in DoneFound(files, descriptor) <==>
      n in files && DoneMatches(n, descriptor) && Classify(files[n]).Valid?
    ensures forall n :: n in DoneReleased(files, descriptor, probe) <==>
      && n in files && DoneMatches(n, descriptor) && Classify(files[n]).Valid?
      && (!probe(n).present || probe(n).signalled || !probe(n).stillPresent)
    ensures |DoneReleased(files, descriptor, probe)| <= |DoneFound(files, descriptor)|
  {
    hide DoneMatches, Classify;
    SubsetIsSmaller(DoneReleased(files, descriptor, probe), DoneFound(files, descriptor));
  }
}
