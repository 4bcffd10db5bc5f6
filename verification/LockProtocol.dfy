/** The lock-directory protocol of src/lock/lock.c as a step system: any number of processes share a
    directory and run acquire_lock, release_lock, check_lock and done_lock. Reading one entry,
    process_exists, exclusive create, write and unlink are steps of their own. */
module LockProtocol {
  import opened Basics
  import opened CText
  import opened Names

  /** A positive pid_t. */
  type Pid = p: int | 0 < p < 0x8000_0000 witness 1

  /** What a reader makes of a lock file: a record that passes magic and checksum, or not. */
  datatype Content = Invalid | Valid(pid: int, maxHolders: nat)

  /** `owner` is a history variable: the process whose exclusive create made the file, or None for a
      file that was there before the run. No step consults it, except that a write through a file
      descriptor reaches the file it was opened on. */
  datatype File = File(owner: Option<Pid>, content: Content)

  datatype Result = Busy | TimedOut | Interrupted

  /** What walks the directory: acquire_lock with its count so far, check_lock, or done_lock. */
  datatype Task = Acquire(active: nat) | Check | Done

  /** Where a process is. */
  datatype Pc =
    | Outside
    | Top
    | Scanning(task: Task)                             // between two entries
    | Judging(task: Task, name: string, pid: int)      // a valid record was read, process_exists is next
    | Condemning(task: Task, name: string)             // the unlink is next
    | Claiming(slot: nat)
    | Created(slot: nat)                     // the exclusive create succeeded, the write is next
    | Failed(slot: nat)                      // the write was short, the clean-up unlink is next
    | Waiting
    | Holding(slot: nat)
    | Returned(result: Result)

  /** `timeout` counts milliseconds; negative means no limit. */
  datatype Proc = Proc(alive: bool, descriptor: string, maxHolders: nat, timeout: int, pc: Pc)

  datatype State = State(dir: map<string, File>, procs: map<Pid, Proc>)

  datatype Action =
    | Spawn(p: Pid)
    | Start(p: Pid, descriptor: string, maxHolders: nat, timeout: int)
    | Sweep(p: Pid, descriptor: string, task: Task)  // check_lock or done_lock opens the directory
    | TimeOut(p: Pid)
    | BeginScan(p: Pid)
    | Inspect(p: Pid, name: string)
    | Judge(p: Pid)
    | Reap(p: Pid)
    | EndScan(p: Pid)
    | TryOpen(p: Pid)
    | OpenFails(p: Pid)
    | Write(p: Pid)
    | WriteFails(p: Pid)
    | Discard(p: Pid)
    | GiveUp(p: Pid)
    | Interrupt(p: Pid)
    | Sleep(p: Pid)
    | Release(p: Pid)
    | Die(p: Pid)

  // ---------------------------------------------------------------------------------------------
  // Steps
  // ---------------------------------------------------------------------------------------------

  predicate Live(s: State, p: Pid) {
    p in s.procs && s.procs[p].alive
  }

  /** process_exists: a non-positive pid never exists. */
  predicate Exists(s: State, pid: int) {
    0 < pid < 0x8000_0000 && Live(s, pid)
  }

  predicate DeadRecord(s: State, name: string) {
    name in s.dir && s.dir[name].content.Valid? && !Exists(s, s.dir[name].content.pid)
  }

  function PathOf(proc: Proc, slot: nat): string {
    SlotName(proc.descriptor, slot)
  }

  /** Which entries a task looks at. */
  predicate Matches(task: Task, name: string, descriptor: string) {
    match task
    case Acquire(_) => ScanMatches(name, descriptor)
    case Check => CheckMatches(name, descriptor)
    case Done => DoneMatches(name, descriptor)
  }

  /** After reading an entry: a valid record is judged next, what is none is removed by check_lock and
      done_lock and skipped by acquire_lock. */
  function AfterRead(task: Task, name: string, content: Content): Pc {
    match content
    case Valid(pid, _) => Judging(task, name, pid)
    case Invalid => if task.Acquire? then Scanning(task) else Condemning(task, name)
  }

  function Counted(task: Task): Task {
    if task.Acquire? then Acquire(task.active + 1) else task
  }

  /** After process_exists: a live record counts; a dead one is removed, except by check_lock. */
  function AfterJudgement(task: Task, name: string, lives: bool): Pc {
    if lives then Scanning(Counted(task)) else if task.Check? then Scanning(task) else Condemning(task, name)
  }

  /** After the last entry. */
  function AfterScan(proc: Proc, task: Task): Pc {
    match task
    case Acquire(active) =>
      if active < proc.maxHolders then Claiming(0) else if proc.timeout <= 0 then Returned(Busy) else Waiting
    case _ => Outside
  }

  /** The limit as the record's uint16_t field holds it. */
  function Recorded(limit: nat): nat {
    limit % 0x1_0000
  }

  /** The file that a finished claim leaves. */
  function Signed(p: Pid, proc: Proc): File {
    File(Some(p), Valid(p, Recorded(proc.maxHolders)))
  }

  predicate Enabled(s: State, a: Action) {
    match a
    case Spawn(p) => p !in s.procs
    case Start(p, _, maxHolders, _) =>
      Live(s, p) && (s.procs[p].pc.Outside? || s.procs[p].pc.Returned?) && maxHolders >= 1
    case Sweep(p, _, task) => Live(s, p) && (s.procs[p].pc.Outside? || s.procs[p].pc.Returned?) && !task.Acquire?
    case TimeOut(p) => Live(s, p) && (s.procs[p].pc.Top? || s.procs[p].pc.Waiting?) && s.procs[p].timeout >= 0
    case BeginScan(p) => Live(s, p) && s.procs[p].pc.Top? && s.procs[p].timeout != 0
    case Inspect(p, name) =>
      && Live(s, p) && s.procs[p].pc.Scanning?
      && name in s.dir && Matches(s.procs[p].pc.task, name, s.procs[p].descriptor)
    case Judge(p) => Live(s, p) && s.procs[p].pc.Judging?
    case Reap(p) => Live(s, p) && s.procs[p].pc.Condemning?
    case EndScan(p) => Live(s, p) && s.procs[p].pc.Scanning?
    case TryOpen(p) => Live(s, p) && s.procs[p].pc.Claiming? && s.procs[p].pc.slot < s.procs[p].maxHolders
    case OpenFails(p) => Live(s, p) && s.procs[p].pc.Claiming? && s.procs[p].pc.slot < s.procs[p].maxHolders
    case Write(p) => Live(s, p) && s.procs[p].pc.Created?
    case WriteFails(p) => Live(s, p) && s.procs[p].pc.Created?
    case Discard(p) => Live(s, p) && s.procs[p].pc.Failed?
    case GiveUp(p) => Live(s, p) && s.procs[p].pc.Claiming? && s.procs[p].pc.slot >= s.procs[p].maxHolders
    case Interrupt(p) => Live(s, p) && s.procs[p].pc.Waiting?
    case Sleep(p) => Live(s, p) && s.procs[p].pc.Waiting?
    case Release(p) => Live(s, p) && s.procs[p].pc.Holding?
    case Die(p) => Live(s, p)
  }

  function Goto(s: State, p: Pid, pc: Pc): State
    requires p in s.procs
  {
    s.(procs := s.procs[p := s.procs[p].(pc := pc)])
  }

  function Unlink(s: State, name: string): State {
    s.(dir := s.dir - {name})
  }

  function Next(s: State, a: Action): State
    requires Enabled(s, a)
  {
    match a
    case Spawn(p) => s.(procs := s.procs[p := Proc(true, "", 1, -1, Outside)])
    case Start(p, descriptor, maxHolders, timeout) =>
      s.(procs := s.procs[p := Proc(true, descriptor, maxHolders, timeout, Top)])
    case Sweep(p, descriptor, task) =>
      s.(procs := s.procs[p := Proc(true, descriptor, 1, -1, Scanning(task))])
    case TimeOut(p) => Goto(s, p, Returned(TimedOut))
    case BeginScan(p) => Goto(s, p, Scanning(Acquire(0)))
    case Inspect(p, name) => Goto(s, p, AfterRead(s.procs[p].pc.task, name, s.dir[name].content))
    case Judge(p) =>
      var pc := s.procs[p].pc;
      Goto(s, p, AfterJudgement(pc.task, pc.name, Exists(s, pc.pid)))
    case Reap(p) => Unlink(Goto(s, p, Scanning(s.procs[p].pc.task)), s.procs[p].pc.name)
    case EndScan(p) => Goto(s, p, AfterScan(s.procs[p], s.procs[p].pc.task))
    case TryOpen(p) =>
      var slot := s.procs[p].pc.slot;
      var name := PathOf(s.procs[p], slot);
      if name in s.dir then Goto(s, p, Claiming(slot + 1))
      else Goto(s.(dir := s.dir[name := File(Some(p), Invalid)]), p, Created(slot))
    case OpenFails(p) => Goto(s, p, Claiming(s.procs[p].pc.slot + 1))
    case Write(p) =>
      var proc := s.procs[p];
      var name := PathOf(proc, proc.pc.slot);
      var t := Goto(s, p, Holding(proc.pc.slot));
      if name in s.dir && s.dir[name].owner == Some(p)
      then t.(dir := t.dir[name := Signed(p, proc)])
      else t
    case WriteFails(p) => Goto(s, p, Failed(s.procs[p].pc.slot))
    case Discard(p) =>
      var slot := s.procs[p].pc.slot;
      Unlink(Goto(s, p, Claiming(slot + 1)), PathOf(s.procs[p], slot))
    case GiveUp(p) => Goto(s, p, Waiting)
    case Interrupt(p) => Goto(s, p, Returned(Interrupted))
    case Sleep(p) => Goto(s, p, Top)
    case Release(p) => Unlink(Goto(s, p, Outside), PathOf(s.procs[p], s.procs[p].pc.slot))
    case Die(p) => s.(procs := s.procs[p := s.procs[p].(alive := false)])
  }

  /** Every action of the sequence is enabled when its turn comes. */
  predicate Runs(s: State, actions: seq<Action>)
    decreases |actions|
  {
    actions == [] || (Enabled(s, actions[0]) && Runs(Next(s, actions[0]), actions[1..]))
  }

  function After(s: State, actions: seq<Action>): State
    requires Runs(s, actions)
    decreases |actions|
  {
    if actions == [] then s else After(Next(s, actions[0]), actions[1..])
  }

  /** A run starts with any directory contents and with processes that hold nothing. */
  predicate Initial(s: State) {
    && (forall name | name in s.dir :: s.dir[name].owner == None)
    && (forall p | p in s.procs :: s.procs[p].pc == Outside)
  }

  /** What a live process can do next from each place of a walk, and where it gets. */
  lemma WalksGoOn(s: State, p: Pid)
    requires Live(s, p)
    ensures var proc := s.procs[p];
            match proc.pc
            case Top =>
              && (proc.timeout >= 0 ==> Gets(s, TimeOut(p), p, Returned(TimedOut)))
              && (proc.timeout != 0 ==> Gets(s, BeginScan(p), p, Scanning(Acquire(0))))
            case Scanning(task) =>
              && Gets(s, EndScan(p), p, AfterScan(proc, task))
              && (forall n | n in s.dir && Matches(task, n, proc.descriptor) ::
                    Gets(s, Inspect(p, n), p, AfterRead(task, n, s.dir[n].content)))
            case Judging(task, n, pid) => Gets(s, Judge(p), p, AfterJudgement(task, n, Exists(s, pid)))
            case Condemning(task, n) => Gets(s, Reap(p), p, Scanning(task)) && n !in Next(s, Reap(p)).dir
            case _ => true
  {
    hide SlotName, Matches, AfterRead, AfterJudgement, AfterScan, Exists;
  }

  /** The same for the places of a claim. Whether a create or a write succeeds is not its own choice. */
  lemma ClaimsGoOn(s: State, p: Pid)
    requires Live(s, p)
    ensures var proc := s.procs[p];
            match proc.pc
            case Claiming(slot) =>
              if slot < proc.maxHolders then
                && Gets(s, OpenFails(p), p, Claiming(slot + 1))
                && Gets(s, TryOpen(p), p, if PathOf(proc, slot) in s.dir then Claiming(slot + 1) else Created(slot))
              else Gets(s, GiveUp(p), p, Waiting)
            case Created(slot) => Gets(s, Write(p), p, Holding(slot)) && Gets(s, WriteFails(p), p, Failed(slot))
            case Failed(slot) =>
              Gets(s, Discard(p), p, Claiming(slot + 1)) && PathOf(proc, slot) !in Next(s, Discard(p)).dir
            case _ => true
  {
    hide SlotName, Matches, AfterRead, AfterJudgement, AfterScan, Exists;
  }

  /** And for the places outside both. A live process can die anywhere. */
  lemma OthersGoOn(s: State, p: Pid)
    requires Live(s, p)
    ensures var proc := s.procs[p];
            match proc.pc
            case Outside => MayBegin(s, p)
            case Returned(_) => MayBegin(s, p)
            case Waiting =>
              && Gets(s, Interrupt(p), p, Returned(Interrupted)) && Gets(s, Sleep(p), p, Top)
              && (proc.timeout >= 0 ==> Gets(s, TimeOut(p), p, Returned(TimedOut)))
            case Holding(slot) => Gets(s, Release(p), p, Outside) && PathOf(proc, slot) !in Next(s, Release(p)).dir
            case _ => true
    ensures Enabled(s, Die(p)) && !Live(Next(s, Die(p)), p) && Next(s, Die(p)).dir == s.dir
  {
    hide SlotName, Matches, AfterRead, AfterJudgement, AfterScan, Exists;
  }

  /** Nobody is ever stuck: from every place some step of the process's own leads on. */
  lemma NobodyIsStuck(s: State, p: Pid)
    requires Live(s, p)
    ensures exists a: Action :: Enabled(s, a) && a.p == p && !a.Die?
  {
    hide Next, Enabled, SlotName, Matches;
    WalksGoOn(s, p);
    ClaimsGoOn(s, p);
    OthersGoOn(s, p);
    var proc := s.procs[p];
    var a := match proc.pc
      case Outside => Start(p, "", 1, -1)
      case Returned(_) => Start(p, "", 1, -1)
      case Top => if proc.timeout >= 0 then TimeOut(p) else BeginScan(p)
      case Scanning(_) => EndScan(p)
      case Judging(_, _, _) => Judge(p)
      case Condemning(_, _) => Reap(p)
      case Claiming(slot) => if slot < proc.maxHolders then TryOpen(p) else GiveUp(p)
      case Created(_) => Write(p)
      case Failed(_) => Discard(p)
      case Waiting => Sleep(p)
      case Holding(_) => Release(p);
    assert Enabled(s, a);
  }

  /** The step is possible and takes the process to this place. */
  predicate Gets(s: State, a: Action, p: Pid, pc: Pc) {
    Enabled(s, a) && p in Next(s, a).procs && Next(s, a).procs[p].alive && Next(s, a).procs[p].pc == pc
  }

  ghost predicate MayBegin(s: State, p: Pid) {
    && (forall descriptor, limit: nat, timeout | limit >= 1 :: Gets(s, Start(p, descriptor, limit, timeout), p, Top))
    && (forall descriptor :: Gets(s, Sweep(p, descriptor, Check), p, Scanning(Check)))
    && (forall descriptor :: Gets(s, Sweep(p, descriptor, Done), p, Scanning(Done)))
  }

  // ---------------------------------------------------------------------------------------------
  // The invariant
  // ---------------------------------------------------------------------------------------------

  /** Between its exclusive create and its unlink a process answers for one file. */
  predicate HasFile(pc: Pc) {
    pc.Created? || pc.Failed? || pc.Holding?
  }

  predicate Answers(proc: Proc, name: string) {
    proc.alive && HasFile(proc.pc) && name == PathOf(proc, proc.pc.slot)
  }

  /** A live process that answers for a file finds it in the directory, made by itself and holding
      its own record once it is written. */
  predicate FilePresent(s: State, p: Pid)
    requires p in s.procs
  {
    var proc := s.procs[p];
    proc.alive && HasFile(proc.pc) ==>
      var name := PathOf(proc, proc.pc.slot);
      && proc.pc.slot < proc.maxHolders
      && name in s.dir
      && s.dir[name] == if proc.pc.Holding? then Signed(p, proc) else File(Some(p), Invalid)
  }

  /** A file made during the run belongs to its maker, who still answers for it or is dead, and any
      record in it names the maker. */
  predicate FileOwned(s: State, name: string)
    requires name in s.dir
  {
    var file := s.dir[name];
    file.owner.Some? ==>
      && file.owner.value in s.procs
      && (s.procs[file.owner.value].alive ==> Answers(s.procs[file.owner.value], name))
      && (file.content.Valid? ==> file.content.pid == file.owner.value)
  }

  predicate BeforeFirstPass(pc: Pc) {
    pc.Outside? || pc.Top? || pc.Returned?
  }

  /** Nobody gets past the first timeout check with a timeout of zero. */
  predicate TimeoutChecked(proc: Proc) {
    proc.timeout == 0 ==> BeforeFirstPass(proc.pc)
  }

  ghost predicate Inv(s: State) {
    && (forall p | p in s.procs :: FilePresent(s, p) && TimeoutChecked(s.procs[p]))
    && (forall name | name in s.dir :: FileOwned(s, name))
  }

  lemma InitialInv(s: State)
    requires Initial(s)
    ensures Inv(s)
  {}

  /** Removing `name` harms no live process. */
  predicate Harmless(s: State, name: string) {
    name in s.dir && s.dir[name].owner.Some? ==> !Live(s, s.dir[name].owner.value)
  }

  /** The unlinks of acquire_lock, check_lock and done_lock that act on something read earlier. */
  predicate SafeStep(s: State, a: Action) {
    a.Reap? && Live(s, a.p) && s.procs[a.p].pc.Condemning? ==> Harmless(s, s.procs[a.p].pc.name)
  }

  lemma GotoKeepsInv(s: State, p: Pid, pc: Pc)
    requires Inv(s) && Live(s, p)
    requires !HasFile(s.procs[p].pc) && !HasFile(pc)
    requires BeforeFirstPass(pc) || !BeforeFirstPass(s.procs[p].pc) || s.procs[p].timeout != 0
    ensures Inv(Goto(s, p, pc))
  {
    hide SlotName;
    var t := Goto(s, p, pc);
    forall name | name in t.dir ensures FileOwned(t, name) { assert FileOwned(s, name); }
    forall q | q in t.procs ensures FilePresent(t, q) && TimeoutChecked(t.procs[q]) { assert FilePresent(s, q); }
  }

  lemma UnlinkKeepsInv(s: State, name: string)
    requires Inv(s) && Harmless(s, name)
    ensures Inv(Unlink(s, name))
  {
    hide SlotName;
    var t := Unlink(s, name);
    forall n | n in t.dir ensures FileOwned(t, n) { assert FileOwned(s, n); }
    forall q | q in t.procs ensures FilePresent(t, q) && TimeoutChecked(t.procs[q]) { assert FilePresent(s, q); }
  }

  lemma CreateKeepsInv(s: State, p: Pid)
    requires Inv(s) && Enabled(s, TryOpen(p)) && PathOf(s.procs[p], s.procs[p].pc.slot) !in s.dir
    ensures Inv(Next(s, TryOpen(p)))
  {
    hide SlotName;
    var t := Next(s, TryOpen(p));
    forall n | n in t.dir ensures FileOwned(t, n) {
      if n in s.dir { assert FileOwned(s, n); }
    }
    forall q | q in t.procs ensures FilePresent(t, q) && TimeoutChecked(t.procs[q]) { assert FilePresent(s, q); }
  }

  lemma WriteKeepsInv(s: State, p: Pid)
    requires Inv(s) && Enabled(s, Write(p))
    ensures Inv(Next(s, Write(p)))
  {
    hide SlotName;
    assert FilePresent(s, p);
    var t := Next(s, Write(p));
    forall n | n in t.dir ensures FileOwned(t, n) { assert FileOwned(s, n); }
    forall q | q in t.procs ensures FilePresent(t, q) && TimeoutChecked(t.procs[q]) { assert FilePresent(s, q); }
  }

  lemma WriteFailsKeepsInv(s: State, p: Pid)
    requires Inv(s) && Enabled(s, WriteFails(p))
    ensures Inv(Next(s, WriteFails(p)))
  {
    hide SlotName;
    assert FilePresent(s, p);
    var t := Next(s, WriteFails(p));
    forall n | n in t.dir ensures FileOwned(t, n) { assert FileOwned(s, n); }
    forall q | q in t.procs ensures FilePresent(t, q) && TimeoutChecked(t.procs[q]) { assert FilePresent(s, q); }
  }

  /** A process that unlinks the file it answers for stops answering for it. */
  lemma GiveBackKeepsInv(s: State, p: Pid, pc: Pc)
    requires Inv(s) && Live(s, p) && HasFile(s.procs[p].pc) && !HasFile(pc)
    ensures Inv(Unlink(Goto(s, p, pc), PathOf(s.procs[p], s.procs[p].pc.slot)))
  {
    hide SlotName;
    assert FilePresent(s, p);
    var t := Unlink(Goto(s, p, pc), PathOf(s.procs[p], s.procs[p].pc.slot));
    forall n | n in t.dir ensures FileOwned(t, n) { assert FileOwned(s, n); }
    forall q | q in t.procs ensures FilePresent(t, q) && TimeoutChecked(t.procs[q]) { assert FilePresent(s, q); }
  }

  lemma DieKeepsInv(s: State, p: Pid)
    requires Inv(s) && Live(s, p)
    ensures Inv(Next(s, Die(p)))
  {
    hide SlotName;
    var t := Next(s, Die(p));
    forall n | n in t.dir ensures FileOwned(t, n) { assert FileOwned(s, n); }
    forall q | q in t.procs ensures FilePresent(t, q) && TimeoutChecked(t.procs[q]) { assert FilePresent(s, q); }
  }

  lemma EnterKeepsInv(s: State, p: Pid, proc: Proc)
    requires Inv(s) && (p in s.procs ==> !HasFile(s.procs[p].pc) && s.procs[p].alive)
    requires proc.alive && !HasFile(proc.pc) && TimeoutChecked(proc)
    ensures Inv(s.(procs := s.procs[p := proc]))
  {
    hide SlotName;
    var t := s.(procs := s.procs[p := proc]);
    forall n | n in t.dir ensures FileOwned(t, n) { assert FileOwned(s, n); }
    forall q | q in t.procs ensures FilePresent(t, q) && TimeoutChecked(t.procs[q]) {
      if q in s.procs { assert FilePresent(s, q); }
    }
  }

  /** A dead record is never a live process's file. */
  lemma DeadRecordIsHarmless(s: State, name: string)
    requires Inv(s) && DeadRecord(s, name)
    ensures Harmless(s, name)
  {
    assert FileOwned(s, name);
  }

  lemma GotoKeepsHarmless(s: State, p: Pid, pc: Pc, name: string)
    requires Live(s, p) && Harmless(s, name)
    ensures Harmless(Goto(s, p, pc), name)
  {}

  lemma ScanStepKeepsInv(s: State, a: Action)
    requires Inv(s) && Enabled(s, a) && SafeStep(s, a)
    requires a.TimeOut? || a.BeginScan? || a.Inspect? || a.Judge? || a.Reap? || a.EndScan?
    ensures Inv(Next(s, a))
  {
    hide SlotName, Matches, Inv, PathOf, Harmless, Exists, AfterRead, AfterJudgement, AfterScan;
    match a
    case Reap(p) =>
      var task := s.procs[p].pc.task;
      GotoKeepsInv(s, p, Scanning(task));
      GotoKeepsHarmless(s, p, Scanning(task), s.procs[p].pc.name);
      UnlinkKeepsInv(Goto(s, p, Scanning(task)), s.procs[p].pc.name);
    case Inspect(p, name) =>
      ScansHaveNoFile(s, p);
      GotoKeepsInv(s, p, AfterRead(s.procs[p].pc.task, name, s.dir[name].content));
    case Judge(p) =>
      ScansHaveNoFile(s, p);
      GotoKeepsInv(s, p, AfterJudgement(s.procs[p].pc.task, s.procs[p].pc.name, Exists(s, s.procs[p].pc.pid)));
    case EndScan(p) =>
      ScansHaveNoFile(s, p);
      GotoKeepsInv(s, p, AfterScan(s.procs[p], s.procs[p].pc.task));
    case TimeOut(p) => GotoKeepsInv(s, p, Returned(TimedOut));
    case BeginScan(p) => GotoKeepsInv(s, p, Scanning(Acquire(0)));
  }

  /** While a process walks the directory its timeout is not zero, and no next place holds a file. */
  lemma ScansHaveNoFile(s: State, p: Pid)
    requires Inv(s) && Live(s, p) && (s.procs[p].pc.Scanning? || s.procs[p].pc.Judging?)
    ensures s.procs[p].timeout != 0
    ensures forall task, name, content :: !HasFile(AfterRead(task, name, content))
    ensures forall task, name, lives :: !HasFile(AfterJudgement(task, name, lives))
    ensures forall task :: !HasFile(AfterScan(s.procs[p], task))
  {
    assert TimeoutChecked(s.procs[p]);
  }

  lemma ClaimStepKeepsInv(s: State, a: Action)
    requires Inv(s) && Enabled(s, a)
    requires a.TryOpen? || a.OpenFails? || a.Write? || a.WriteFails? || a.Discard? || a.GiveUp?
    ensures Inv(Next(s, a))
  {
    hide SlotName, Inv;
    match a
    case TryOpen(p) =>
      if PathOf(s.procs[p], s.procs[p].pc.slot) in s.dir {
        GotoKeepsInv(s, p, Claiming(s.procs[p].pc.slot + 1));
      } else {
        CreateKeepsInv(s, p);
      }
    case OpenFails(p) => GotoKeepsInv(s, p, Claiming(s.procs[p].pc.slot + 1));
    case Write(p) => WriteKeepsInv(s, p);
    case WriteFails(p) => WriteFailsKeepsInv(s, p);
    case Discard(p) => GiveBackKeepsInv(s, p, Claiming(s.procs[p].pc.slot + 1));
    case GiveUp(p) => GotoKeepsInv(s, p, Waiting);
  }

  /** Every step that does not unlink a live process's file keeps the invariant. */
  lemma StepKeepsInv(s: State, a: Action)
    requires Inv(s) && Enabled(s, a) && SafeStep(s, a)
    ensures Inv(Next(s, a))
  {
    hide SlotName, Matches, Inv, PathOf;
    match a
    case Spawn(p) => EnterKeepsInv(s, p, Proc(true, "", 1, -1, Outside));
    case Start(p, descriptor, limit, timeout) => EnterKeepsInv(s, p, Proc(true, descriptor, limit, timeout, Top));
    case Sweep(p, descriptor, task) => EnterKeepsInv(s, p, Proc(true, descriptor, 1, -1, Scanning(task)));
    case Interrupt(p) => GotoKeepsInv(s, p, Returned(Interrupted));
    case Sleep(p) => GotoKeepsInv(s, p, Top);
    case Release(p) => GiveBackKeepsInv(s, p, Outside);
    case Die(p) => DieKeepsInv(s, p);
    case TimeOut(_) => ScanStepKeepsInv(s, a);
    case BeginScan(_) => ScanStepKeepsInv(s, a);
    case Inspect(_, _) => ScanStepKeepsInv(s, a);
    case Judge(_) => ScanStepKeepsInv(s, a);
    case Reap(_) => ScanStepKeepsInv(s, a);
    case EndScan(_) => ScanStepKeepsInv(s, a);
    case TryOpen(_) => ClaimStepKeepsInv(s, a);
    case OpenFails(_) => ClaimStepKeepsInv(s, a);
    case Write(_) => ClaimStepKeepsInv(s, a);
    case WriteFails(_) => ClaimStepKeepsInv(s, a);
    case Discard(_) => ClaimStepKeepsInv(s, a);
    case GiveUp(_) => ClaimStepKeepsInv(s, a);
  }

  // ---------------------------------------------------------------------------------------------
  // What the invariant says to a caller
  // ---------------------------------------------------------------------------------------------

  predicate Holds(s: State, p: Pid, descriptor: string) {
    Live(s, p) && s.procs[p].pc.Holding? && s.procs[p].descriptor == descriptor
  }

  /** No two live holders of a descriptor hold the same slot. */
  ghost predicate Exclusive(s: State) {
    forall p, q, d: string | Holds(s, p, d) && Holds(s, q, d) && p != q :: s.procs[p].pc.slot != s.procs[q].pc.slot
  }

  lemma InvIsExclusive(s: State)
    requires Inv(s)
    ensures Exclusive(s)
  {
    forall p, q, d: string | Holds(s, p, d) && Holds(s, q, d) && p != q
      ensures s.procs[p].pc.slot != s.procs[q].pc.slot
    {
      assert FilePresent(s, p) && FilePresent(s, q);
    }
  }

  function Holders(s: State, descriptor: string): set<Pid> {
    set p | p in s.procs && Holds(s, p, descriptor)
  }

  /** Distinct slots below a limit: no more holders than slots. */
  lemma {:induction false} DistinctSlotsFit(slots: map<Pid, nat>, limit: nat)
    requires forall p | p in slots :: slots[p] < limit
    requires forall p, q | p in slots && q in slots && p != q :: slots[p] != slots[q]
    ensures |slots.Keys| <= limit
    decreases limit
  {
    if slots.Keys != {} {
      if p :| p in slots && slots[p] == limit - 1 {
        DistinctSlotsFit(slots - {p}, limit - 1);
        assert slots.Keys == (slots - {p}).Keys + {p};
      } else {
        var p :| p in slots;
        DistinctSlotsFit(slots, limit - 1);
      }
    }
  }

  /** Live holders of a descriptor never outnumber the largest limit any of them asked for. */
  lemma HoldersAreBounded(s: State, descriptor: string, limit: nat)
    requires Inv(s)
    requires forall p | Holds(s, p, descriptor) :: s.procs[p].maxHolders <= limit
    ensures |Holders(s, descriptor)| <= limit
  {
    InvIsExclusive(s);
    forall p | p in Holders(s, descriptor) ensures s.procs[p].pc.slot < limit {
      assert FilePresent(s, p);
    }
    var slots := map p | p in Holders(s, descriptor) :: s.procs[p].pc.slot;
    DistinctSlotsFit(slots, limit);
    assert slots.Keys == Holders(s, descriptor);
  }

  /** acquire_lock returns success only with its own complete record in the directory, and every
      other return leaves no file of the caller behind. */
  lemma ReturnContract(s: State, p: Pid)
    requires Inv(s) && Live(s, p)
    ensures s.procs[p].pc.Holding? ==>
      && PathOf(s.procs[p], s.procs[p].pc.slot) in s.dir
      && s.dir[PathOf(s.procs[p], s.procs[p].pc.slot)] == Signed(p, s.procs[p])
      && s.procs[p].timeout != 0
    ensures s.procs[p].pc.Returned? || s.procs[p].pc.Outside? ==>
      forall name | name in s.dir :: s.dir[name].owner != Some(p)
  {
    assert FilePresent(s, p);
    forall name | name in s.dir && s.dir[name].owner == Some(p) ensures HasFile(s.procs[p].pc) {
      assert FileOwned(s, name);
    }
  }

  /** release_lock removes the caller's own file and nothing else. */
  lemma ReleaseRemovesOwnFile(s: State, p: Pid)
    requires Inv(s) && Enabled(s, Release(p))
    ensures var name := PathOf(s.procs[p], s.procs[p].pc.slot);
            && name in s.dir && s.dir[name].owner == Some(p)
            && Next(s, Release(p)).dir.Keys == s.dir.Keys - {name}
            && forall n | n in s.dir && n != name :: Next(s, Release(p)).dir[n] == s.dir[n]
  {
    assert FilePresent(s, p);
  }

  // ---------------------------------------------------------------------------------------------
  // Exactly which steps are safe
  // ---------------------------------------------------------------------------------------------

  lemma HarmfulUnlinkBreaksInv(s: State, t: State, name: string)
    requires Inv(s) && !Harmless(s, name) && name !in t.dir
    requires var q := s.dir[name].owner.value; q in t.procs && t.procs[q] == s.procs[q]
    ensures !Inv(t)
  {
    var q := s.dir[name].owner.value;
    assert FileOwned(s, name);
    assert !FilePresent(t, q);
  }

  /** A step keeps the invariant exactly when the file it unlinks, if any, is no live process's file
      at that moment. */
  lemma StepSafetyIsExact(s: State, a: Action)
    requires Inv(s) && Enabled(s, a)
    ensures Inv(Next(s, a)) <==> SafeStep(s, a)
  {
    if SafeStep(s, a) {
      StepKeepsInv(s, a);
    } else {
      var name := s.procs[a.p].pc.name;
      assert FileOwned(s, name);
      HarmfulUnlinkBreaksInv(s, Next(s, a), name);
    }
  }

  lemma HarmlessMeansUnanswered(s: State, name: string)
    requires Inv(s)
    ensures Harmless(s, name) <==> !exists q :: Live(s, q) && Answers(s.procs[q], name)
  {
    if !Harmless(s, name) {
      assert FileOwned(s, name);
      assert Answers(s.procs[s.dir[name].owner.value], name);
    }
    forall q | Live(s, q) && Answers(s.procs[q], name) ensures !Harmless(s, name) {
      assert FilePresent(s, q);
    }
  }

  /** Whoever is about to unlink, and whatever it read before: the unlink is safe exactly when no live
      process answers for the file at that moment. */
  lemma UnlinkSafetyIsExact(s: State, p: Pid)
    requires Inv(s) && Enabled(s, Reap(p))
    ensures Inv(Next(s, Reap(p))) <==> !exists q :: Live(s, q) && Answers(s.procs[q], s.procs[p].pc.name)
  {
    hide SlotName, Inv, Next, Harmless, Answers;
    StepSafetyIsExact(s, Reap(p));
    HarmlessMeansUnanswered(s, s.procs[p].pc.name);
  }

  /** Removing a file that still holds no valid record is safe exactly when no live process is between
      its exclusive create and its write, or its clean-up, on that file. */
  lemma CleanSafetyIsExact(s: State, p: Pid)
    requires Inv(s) && Enabled(s, Reap(p))
    requires s.procs[p].pc.name in s.dir && s.dir[s.procs[p].pc.name].content.Invalid?
    ensures Inv(Next(s, Reap(p))) <==>
      !exists q :: Live(s, q) && Unsigned(s.procs[q].pc) && Answers(s.procs[q], s.procs[p].pc.name)
  {
    UnlinkSafetyIsExact(s, p);
    forall q | Live(s, q) && Answers(s.procs[q], s.procs[p].pc.name) ensures Unsigned(s.procs[q].pc) {
      assert FilePresent(s, q);
    }
  }

  predicate Unsigned(pc: Pc) {
    pc.Created? || pc.Failed?
  }

  // ---------------------------------------------------------------------------------------------
  // Runs
  // ---------------------------------------------------------------------------------------------

  predicate Inspecting(pc: Pc) {
    pc.Judging? || pc.Condemning?
  }

  /** From reading an entry to the unlink, if it comes to that, nobody else takes a step, whichever of
      the three operations walks the directory. */
  predicate AtomicInspection(s: State, a: Action) {
    forall p | p in s.procs && s.procs[p].alive && Inspecting(s.procs[p].pc) :: a.p == p
  }

  /** A file without a valid record is removed only while nobody is between create and write, or
      clean-up, on it. */
  predicate CleansAbandoned(s: State, a: Action) {
    Enabled(s, a) && a.Reap? && s.procs[a.p].pc.name in s.dir && s.dir[s.procs[a.p].pc.name].content.Invalid? ==>
      !exists q | q in s.procs :: Live(s, q) && Unsigned(s.procs[q].pc) && Answers(s.procs[q], s.procs[a.p].pc.name)
  }

  /** The two granularity assumptions. */
  predicate StepDiscipline(s: State, a: Action) {
    AtomicInspection(s, a) && CleansAbandoned(s, a)
  }

  ghost predicate Disciplined(s: State, actions: seq<Action>)
    requires Runs(s, actions)
    decreases |actions|
  {
    actions != [] ==> StepDiscipline(s, actions[0]) && Disciplined(Next(s, actions[0]), actions[1..])
  }

  /** What a pending judgement or unlink rests on is still there. */
  predicate StillRead(s: State, pc: Pc) {
    match pc
    case Judging(_, name, pid) => name in s.dir && s.dir[name].content.Valid? && s.dir[name].content.pid == pid
    case Condemning(task, name) =>
      DeadRecord(s, name) || (!task.Acquire? && name in s.dir && s.dir[name].content.Invalid?)
    case _ => true
  }

  ghost predicate Fresh(s: State) {
    forall p | Live(s, p) :: StillRead(s, s.procs[p].pc)
  }

  lemma FreshUnlinkIsSafe(s: State, p: Pid)
    requires Inv(s) && Fresh(s) && Enabled(s, Reap(p)) && StepDiscipline(s, Reap(p))
    ensures SafeStep(s, Reap(p))
  {
    hide SlotName;
    var name := s.procs[p].pc.name;
    assert StillRead(s, s.procs[p].pc);
    if DeadRecord(s, name) {
      DeadRecordIsHarmless(s, name);
    } else {
      StepSafetyIsExact(s, Reap(p));
      CleanSafetyIsExact(s, p);
    }
  }

  lemma DisciplinedStep(s: State, a: Action)
    requires Inv(s) && Fresh(s) && Enabled(s, a) && StepDiscipline(s, a)
    ensures Inv(Next(s, a)) && Fresh(Next(s, a))
  {
    hide Inv, Fresh, Next, Enabled, StepDiscipline, StillRead, SafeStep;
    if a.Reap? { FreshUnlinkIsSafe(s, a.p); } else { assert SafeStep(s, a) by { OnlyReapsAreUnsafe(s, a); } }
    StepKeepsInv(s, a);
    assert Fresh(Next(s, a)) by { FreshStep(s, a); }
  }

  lemma OnlyReapsAreUnsafe(s: State, a: Action)
    requires !a.Reap?
    ensures SafeStep(s, a)
  {}

  lemma FreshStep(s: State, a: Action)
    requires Fresh(s) && Enabled(s, a) && StepDiscipline(s, a)
    ensures Fresh(Next(s, a))
  {
    hide Next, Enabled, StepDiscipline, StillRead;
    forall q | Live(Next(s, a), q) ensures StillRead(Next(s, a), Next(s, a).procs[q].pc) {
      if Inspecting(Next(s, a).procs[q].pc) {
        InspectionIsFresh(s, a, q);
      } else {
        NothingRead(Next(s, a), Next(s, a).procs[q].pc);
      }
    }
  }

  lemma NothingRead(s: State, pc: Pc)
    requires !Inspecting(pc)
    ensures StillRead(s, pc)
  {}

  /** A step moves nobody but the process that takes it. */
  lemma OthersStay(s: State, a: Action, q: Pid)
    requires Enabled(s, a) && a.p != q
    ensures q in Next(s, a).procs <==> q in s.procs
    ensures q in s.procs ==> Next(s, a).procs[q] == s.procs[q]
  {
    hide SlotName, Matches, AfterRead, AfterJudgement, AfterScan;
  }

  /** Who inspects after a step has just taken it: it has read its entry or judged what it read. */
  lemma InspectionIsFresh(s: State, a: Action, q: Pid)
    requires Fresh(s) && Enabled(s, a) && StepDiscipline(s, a)
    requires Live(Next(s, a), q) && Inspecting(Next(s, a).procs[q].pc)
    ensures StillRead(Next(s, a), Next(s, a).procs[q].pc)
  {
    hide SlotName, Matches, CleansAbandoned;
    if a.p != q { OthersStay(s, a, q); }
    assert a.p == q && (a.Inspect? || a.Judge?);
    assert StillRead(s, s.procs[q].pc);
  }

  lemma {:induction false} DisciplinedRunKeepsInv(s: State, actions: seq<Action>)
    requires Inv(s) && Fresh(s) && Runs(s, actions) && Disciplined(s, actions)
    ensures Inv(After(s, actions)) && Fresh(After(s, actions))
    decreases |actions|
  {
    hide Inv, Fresh, Next, Enabled, StepDiscipline;
    if actions != [] {
      DisciplinedStep(s, actions[0]);
      DisciplinedRunKeepsInv(Next(s, actions[0]), actions[1..]);
    }
  }

  /** Mutual exclusion: in every reachable state of any number of interleaved processes, no two live
      holders of a descriptor share a slot, and they never outnumber the largest limit in use. */
  lemma MutualExclusion(s: State, actions: seq<Action>, descriptor: string, limit: nat)
    requires Initial(s) && Runs(s, actions) && Disciplined(s, actions)
    requires forall p | Holds(After(s, actions), p, descriptor) :: After(s, actions).procs[p].maxHolders <= limit
    ensures Exclusive(After(s, actions))
    ensures |Holders(After(s, actions), descriptor)| <= limit
  {
    InitialInv(s);
    DisciplinedRunKeepsInv(s, actions);
    InvIsExclusive(After(s, actions));
    HoldersAreBounded(After(s, actions), descriptor, limit);
  }

  predicate SafeThroughout(s: State, actions: seq<Action>)
    requires Runs(s, actions)
    decreases |actions|
  {
    actions != [] ==> SafeStep(s, actions[0]) && SafeThroughout(Next(s, actions[0]), actions[1..])
  }

  ghost predicate InvThroughout(s: State, actions: seq<Action>)
    requires Runs(s, actions)
    decreases |actions|
  {
    Inv(s) && (actions != [] ==> InvThroughout(Next(s, actions[0]), actions[1..]))
  }

  /** With no discipline at all, every read, judgement and unlink of every operation apart: a run keeps
      the invariant throughout exactly when no unlink ever hits a live process's file. */
  lemma {:induction false} RunSafetyIsExact(s: State, actions: seq<Action>)
    requires Inv(s) && Runs(s, actions)
    ensures InvThroughout(s, actions) <==> SafeThroughout(s, actions)
    decreases |actions|
  {
    hide Inv, Next, Enabled, SafeStep;
    if actions != [] {
      StepSafetyIsExact(s, actions[0]);
      if Inv(Next(s, actions[0])) { RunSafetyIsExact(Next(s, actions[0]), actions[1..]); }
    }
  }

  lemma HolderHasFile(s: State, p: Pid)
    requires Inv(s) && p in s.procs
    ensures FilePresent(s, p)
  {}

  lemma HolderStep(s: State, a: Action, p: Pid)
    requires Live(s, p) && s.procs[p].pc.Holding? && Enabled(s, a) && a != Release(p) && a != Die(p)
    ensures p in Next(s, a).procs && Next(s, a).procs[p] == s.procs[p]
  {
    hide SlotName, Matches;
  }

  /** A holder keeps its lock, and the file that proves it, until it releases or dies itself. */
  lemma {:induction false} HolderKeepsLock(s: State, actions: seq<Action>, p: Pid)
    requires Inv(s) && Fresh(s) && Runs(s, actions) && Disciplined(s, actions)
    requires Live(s, p) && s.procs[p].pc.Holding?
    requires Release(p) !in actions && Die(p) !in actions
    ensures var t := After(s, actions); var name := PathOf(s.procs[p], s.procs[p].pc.slot);
            && Live(t, p) && t.procs[p] == s.procs[p]
            && name in t.dir && name in s.dir && t.dir[name] == s.dir[name]
    decreases |actions|
  {
    hide Next, Enabled, StepDiscipline, Fresh, Inv;
    HolderHasFile(s, p);
    if actions != [] {
      var a := actions[0];
      assert a in actions;
      HolderStep(s, a, p);
      DisciplinedStep(s, a);
      HolderHasFile(Next(s, a), p);
      HolderKeepsLock(Next(s, a), actions[1..], p);
    }
  }

  /** Nobody runs check_lock or done_lock. */
  ghost predicate Unswept(s: State) {
    forall p | Live(s, p) && (s.procs[p].pc.Scanning? || Inspecting(s.procs[p].pc)) :: s.procs[p].pc.task.Acquire?
  }

  lemma OrphanStep(s: State, a: Action, name: string)
    requires Inv(s) && Fresh(s) && Unswept(s) && Enabled(s, a) && !a.Sweep?
    requires name in s.dir && s.dir[name].content.Invalid? && Harmless(s, name)
    ensures name in Next(s, a).dir && Next(s, a).dir[name] == s.dir[name] && Harmless(Next(s, a), name)
  {
    hide SlotName, Matches;
    assert FileOwned(s, name);
    assert a.Release? || a.Discard? || a.Write? ==> FilePresent(s, a.p);
    if a.Reap? { assert StillRead(s, s.procs[a.p].pc); }
  }

  lemma UnsweptStep(s: State, a: Action)
    requires Unswept(s) && Enabled(s, a) && !a.Sweep?
    ensures Unswept(Next(s, a))
  {
    hide SlotName, Matches;
  }

  /** A file whose maker died between create and write outlives every run of acquirers: only
      check_lock and done_lock ever remove it. */
  lemma {:induction false} OrphanIsPermanent(s: State, actions: seq<Action>, name: string)
    requires Inv(s) && Fresh(s) && Unswept(s) && Runs(s, actions) && Disciplined(s, actions)
    requires forall a | a in actions :: !a.Sweep?
    requires name in s.dir && s.dir[name].content.Invalid? && Harmless(s, name)
    ensures name in After(s, actions).dir && After(s, actions).dir[name] == s.dir[name]
    decreases |actions|
  {
    hide Next, Enabled, StepDiscipline, Fresh, Inv, Harmless, Unswept;
    if actions != [] {
      assert actions[0] in actions;
      OrphanStep(s, actions[0], name);
      DisciplinedStep(s, actions[0]);
      UnsweptStep(s, actions[0]);
      OrphanIsPermanent(Next(s, actions[0]), actions[1..], name);
    }
  }
}
