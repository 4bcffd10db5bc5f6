/** Why LockProtocol needs its two granularity assumptions: an unlink that rests on an earlier read can
    remove a live process's file, in acquire_lock, in check_lock and in done_lock. */
module LockRaces {
  import opened Basics
  import opened CText
  import opened Names
  import opened LockProtocol
  import opened LockProgress

  const SLOT0 := SlotName("job", 0)

  function Mutex(pc: Pc): Proc {
    Proc(true, "job", 1, -1, pc)
  }

  function Two(dir: map<string, File>, first: Pc, second: Pc): State {
    State(dir, map[1 := Mutex(first), 2 := Mutex(second)])
  }

  function Lock(p: Pid): File {
    File(Some(p), Valid(p, 1))
  }

  /** The record of a process that is gone. */
  const STALE := File(None, Valid(99, 1))

  lemma SlotIsSeen(task: Task)
    ensures Matches(task, SLOT0, "job")
  {
    hide SlotName;
    SlotNameIsScanned("job", 0);
    OwnFileIsChecked("job", 0);
    OwnFileIsDone("job", 0);
  }

  // ---------------------------------------------------------------------------------------------
  // Runs, step by step
  // ---------------------------------------------------------------------------------------------

  /** Every step of the run meets a condition at its moment. */
  predicate Always(s: State, actions: seq<Action>, good: (State, Action) -> bool)
    requires Runs(s, actions)
    decreases |actions|
  {
    actions != [] ==> good(s, actions[0]) && Always(Next(s, actions[0]), actions[1..], good)
  }

  /** Nobody is inside an inspection. */
  predicate Calm(s: State) {
    forall p | p in s.procs :: !Inspecting(s.procs[p].pc)
  }

  /** The condition says nothing about steps that unlink nothing while nobody inspects. */
  ghost predicate Tolerant(good: (State, Action) -> bool) {
    forall t: State, a: Action | Calm(t) && !a.Reap? :: good(t, a)
  }

  lemma TheseAreTolerant()
    ensures Tolerant(Anything()) && Tolerant(AtomicInspection) && Tolerant(CleansAbandoned)
  {}

  function Anything(): (State, Action) -> bool {
    (s, a) => true
  }

  lemma {:induction false} AlwaysAppend(s: State, xs: seq<Action>, a: Action, good: (State, Action) -> bool)
    requires Runs(s, xs) && Always(s, xs, good) && Enabled(After(s, xs), a) && good(After(s, xs), a)
    ensures Runs(s, xs + [a]) && Always(s, xs + [a], good) && After(s, xs + [a]) == Next(After(s, xs), a)
    decreases |xs|
  {
    hide Next, Enabled;
    RunsOne(After(s, xs), a);
    RunsAppend(s, xs, [a]);
    if xs == [] {
      assert xs + [a] == [a] && [a][1..] == [];
    } else {
      assert (xs + [a])[0] == xs[0] && (xs + [a])[1..] == xs[1..] + [a];
      AlwaysAppend(Next(s, xs[0]), xs[1..], a, good);
    }
  }

  lemma Extend(s: State, xs: seq<Action>, a: Action, t: State, good: (State, Action) -> bool)
    requires Runs(s, xs) && Always(s, xs, good) && good(After(s, xs), a)
    requires Enabled(After(s, xs), a) && Next(After(s, xs), a) == t
    ensures Runs(s, xs + [a]) && After(s, xs + [a]) == t && Always(s, xs + [a], good)
  {
    hide Next, Enabled;
    AlwaysAppend(s, xs, a, good);
  }

  const OUTSIDE := Proc(true, "", 1, -1, Outside)

  lemma Idle(dir: map<string, File>, good: (State, Action) -> bool) returns (s: State)
    requires forall name | name in dir :: dir[name].owner == None
    ensures s == State(dir, map[1 := OUTSIDE, 2 := OUTSIDE])
    ensures Initial(s) && Runs(s, []) && After(s, []) == s && Always(s, [], good)
  {
    s := State(dir, map[1 := OUTSIDE, 2 := OUTSIDE]);
  }

  /** The second process runs a whole pass over a dead record: it reaps the file and takes the slot. */
  lemma SecondAcquires(first: Proc, stale: File)
    requires stale.content.Valid? && stale.content.pid != 2 && (stale.content.pid == 1 ==> !first.alive)
    ensures var s := State(map[SLOT0 := stale], map[1 := first, 2 := Mutex(Top)]);
            && Runs(s, PassActions(s, 2, [SLOT0]))
            && After(s, PassActions(s, 2, [SLOT0]))
            == State(map[SLOT0 := Lock(2)], map[1 := first, 2 := Mutex(Holding(0))])
            && forall a | a in PassActions(s, 2, [SLOT0]) :: By(a, 2)
  {
    hide SlotName, ScanMatches;
    var s := State(map[SLOT0 := stale], map[1 := first, 2 := Mutex(Top)]);
    SlotNameIsScanned("job", 0);
    assert Lists(s, 2, [SLOT0]);
    PassAlone(s, 2, [SLOT0]);
    PassIsBy(s, 2, [SLOT0]);
    assert Reaped(s, [SLOT0]) == map[];
    assert LiveCount(s, [SLOT0]) == 0;
  }

  /** With the slot's file gone, the first process goes on from its walk and takes the slot as well. */
  lemma MovesFirst(dir: map<string, File>, x: Pc, y: Pc, pc: Pc)
    ensures 1 in Two(dir, x, y).procs && Goto(Two(dir, x, y), 1, pc) == Two(dir, pc, y)
  {
    assert map[1 := Mutex(x), 2 := Mutex(y)][1 := Mutex(pc)] == map[1 := Mutex(pc), 2 := Mutex(y)];
  }

  lemma ScanEnds(task: Task, y: Pc)
    ensures var t := Two(map[], Scanning(task), y);
            && Enabled(t, EndScan(1))
            && Next(t, EndScan(1)) == Two(map[], AfterScan(Mutex(Scanning(task)), task), y)
  {
    hide SlotName, Matches, Goto, AfterScan;
    MovesFirst(map[], Scanning(task), y, AfterScan(Mutex(Scanning(task)), task));
  }

  lemma SlotIsCreated(y: Pc)
    ensures var t := Two(map[], Claiming(0), y);
            && Enabled(t, TryOpen(1))
            && Next(t, TryOpen(1)) == Two(map[SLOT0 := File(Some(1), Invalid)], Created(0), y)
  {
    hide SlotName, Matches, Goto;
    MovesFirst(map[SLOT0 := File(Some(1), Invalid)], Claiming(0), y, Created(0));
  }

  lemma SlotIsSigned(y: Pc)
    ensures var t := Two(map[SLOT0 := File(Some(1), Invalid)], Created(0), y);
            && Enabled(t, Write(1))
            && Next(t, Write(1)) == Two(map[SLOT0 := Lock(1)], Holding(0), y)
  {
    hide SlotName, Matches, Goto;
    MovesFirst(map[SLOT0 := File(Some(1), Invalid)], Created(0), y, Holding(0));
  }

  lemma ClaimIsCalm(dir: map<string, File>, x: Pc, y: Pc)
    requires !Inspecting(x) && !Inspecting(y)
    ensures Calm(Two(dir, x, y))
  {}

  /** A step that unlinks nothing, taken while nobody inspects. */
  lemma Advance(s: State, xs: seq<Action>, a: Action, dir: map<string, File>, x: Pc, y: Pc, t: State,
                good: (State, Action) -> bool)
    requires Runs(s, xs) && Always(s, xs, good) && Tolerant(good) && After(s, xs) == Two(dir, x, y) && !a.Reap?
    requires !Inspecting(x) && !Inspecting(y) && Enabled(Two(dir, x, y), a) && Next(Two(dir, x, y), a) == t
    ensures Runs(s, xs + [a]) && After(s, xs + [a]) == t && Always(s, xs + [a], good)
  {
    hide Next, Enabled, Two, Calm, Runs, After, Always;
    ClaimIsCalm(dir, x, y);
    Extend(s, xs, a, t, good);
  }

  lemma FirstClaims(s: State, actions: seq<Action>, y: Pc, good: (State, Action) -> bool)
    requires Runs(s, actions) && After(s, actions) == Two(map[], Scanning(Acquire(0)), y) && !Inspecting(y)
    requires Always(s, actions, good) && Tolerant(good)
    ensures var all := actions + [EndScan(1)] + [TryOpen(1)] + [Write(1)];
            Runs(s, all) && Always(s, all, good) && After(s, all) == Two(map[SLOT0 := Lock(1)], Holding(0), y)
  {
    hide SlotName, Matches, Next, Enabled, Two, Calm, Runs, After, Always, Tolerant;
    ScanEnds(Acquire(0), y);
    SlotIsCreated(y);
    SlotIsSigned(y);
    var empty := map[SLOT0 := File(Some(1), Invalid)];
    Advance(s, actions, EndScan(1), map[], Scanning(Acquire(0)), y, Two(map[], Claiming(0), y), good);
    var a1 := actions + [EndScan(1)];
    Advance(s, a1, TryOpen(1), map[], Claiming(0), y, Two(empty, Created(0), y), good);
    var a2 := a1 + [TryOpen(1)];
    Advance(s, a2, Write(1), empty, Created(0), y, Two(map[SLOT0 := Lock(1)], Holding(0), y), good);
  }

  lemma StartsAgain()
    ensures var t := Two(map[], Outside, Holding(0));
            Enabled(t, Start(1, "job", 1, -1)) && Next(t, Start(1, "job", 1, -1)) == Two(map[], Top, Holding(0))
    ensures var t := Two(map[], Top, Holding(0));
            Enabled(t, BeginScan(1)) && Next(t, BeginScan(1)) == Two(map[], Scanning(Acquire(0)), Holding(0))
  {
    hide SlotName, Matches;
  }

  /** A finished sweeper becomes an acquirer. */
  lemma SweeperReturns(s: State, actions: seq<Action>, task: Task, good: (State, Action) -> bool)
    requires !task.Acquire?
    requires Runs(s, actions) && After(s, actions) == Two(map[], Scanning(task), Holding(0))
    requires Always(s, actions, good) && Tolerant(good)
    ensures var all := actions + [EndScan(1)] + [Start(1, "job", 1, -1)] + [BeginScan(1)];
            && Runs(s, all) && Always(s, all, good)
            && After(s, all) == Two(map[], Scanning(Acquire(0)), Holding(0))
  {
    hide SlotName, Matches, Next, Enabled, Two, Calm, Runs, After, Always, Tolerant;
    ScanEnds(task, Holding(0));
    StartsAgain();
    Advance(s, actions, EndScan(1), map[], Scanning(task), Holding(0), Two(map[], Outside, Holding(0)), good);
    var a1 := actions + [EndScan(1)];
    Advance(s, a1, Start(1, "job", 1, -1), map[], Outside, Holding(0), Two(map[], Top, Holding(0)), good);
    var a2 := a1 + [Start(1, "job", 1, -1)];
    Advance(s, a2, BeginScan(1), map[], Top, Holding(0), Two(map[], Scanning(Acquire(0)), Holding(0)), good);
  }

  lemma TwoHoldersOfOneSlot(dir: map<string, File>)
    ensures !Exclusive(Two(dir, Holding(0), Holding(0)))
  {
    var t := Two(dir, Holding(0), Holding(0));
    assert Holds(t, 1, "job") && Holds(t, 2, "job");
  }

  // ---------------------------------------------------------------------------------------------
  // A pause between a read and its unlink
  // ---------------------------------------------------------------------------------------------

  lemma StaleIsRead(task: Task)
    ensures var t := Two(map[SLOT0 := STALE], Scanning(task), Top);
            && Enabled(t, Inspect(1, SLOT0))
            && Next(t, Inspect(1, SLOT0)) == Two(map[SLOT0 := STALE], Judging(task, SLOT0, 99), Top)
  {
    hide SlotName, Matches, Goto;
    SlotIsSeen(task);
    MovesFirst(map[SLOT0 := STALE], Scanning(task), Top, Judging(task, SLOT0, 99));
  }

  lemma StaleIsJudged(task: Task)
    requires !task.Check?
    ensures var t := Two(map[SLOT0 := STALE], Judging(task, SLOT0, 99), Top);
            && Enabled(t, Judge(1))
            && Next(t, Judge(1)) == Two(map[SLOT0 := STALE], Condemning(task, SLOT0), Top)
  {
    hide SlotName, Matches, Goto;
    MovesFirst(map[SLOT0 := STALE], Judging(task, SLOT0, 99), Top, Condemning(task, SLOT0));
  }

  /** A process that walks the directory judges the stale record and pauses before its unlink. */
  lemma FirstCondemns(s: State, actions: seq<Action>, task: Task)
    requires !task.Check? && Runs(s, actions) && After(s, actions) == Two(map[SLOT0 := STALE], Scanning(task), Top)
    requires Always(s, actions, Anything())
    ensures var all := actions + [Inspect(1, SLOT0)] + [Judge(1)];
            && Runs(s, all) && Always(s, all, Anything())
            && After(s, all) == Two(map[SLOT0 := STALE], Condemning(task, SLOT0), Top)
  {
    hide SlotName, Matches, Next, Enabled, Two, Runs, After, Always;
    StaleIsRead(task);
    StaleIsJudged(task);
    Extend(s, actions, Inspect(1, SLOT0), Two(map[SLOT0 := STALE], Judging(task, SLOT0, 99), Top), Anything());
    var t := Two(map[SLOT0 := STALE], Condemning(task, SLOT0), Top);
    Extend(s, actions + [Inspect(1, SLOT0)], Judge(1), t, Anything());
  }

  /** The pause, in which the second process reaps the same file and takes the slot, and the unlink. */
  lemma UnlinksNewcomer(s: State, actions: seq<Action>, task: Task) returns (all: seq<Action>)
    requires Runs(s, actions) && After(s, actions) == Two(map[SLOT0 := STALE], Condemning(task, SLOT0), Top)
    ensures Runs(s, all) && Always(s, all, Anything()) && After(s, all) == Two(map[], Scanning(task), Holding(0))
    ensures forall a | a in all :: a in actions || By(a, 2) || a == Reap(1)
  {
    hide SlotName, Matches, Next, Enabled, PassActions;
    var t := Two(map[SLOT0 := STALE], Condemning(task, SLOT0), Top);
    SecondAcquires(Mutex(Condemning(task, SLOT0)), STALE);
    RunsAppend(s, actions, PassActions(t, 2, [SLOT0]));
    all := actions + PassActions(t, 2, [SLOT0]);
    AlwaysAnything(s, all);
    ReapsAfterAll(s, all, task);
    all := all + [Reap(1)];
  }

  lemma {:induction false} AlwaysAnything(s: State, actions: seq<Action>)
    requires Runs(s, actions)
    ensures Always(s, actions, Anything())
    decreases |actions|
  {
    hide Next, Enabled;
    if actions != [] { AlwaysAnything(Next(s, actions[0]), actions[1..]); }
  }

  lemma ReapsAfterAll(s: State, actions: seq<Action>, task: Task)
    requires Runs(s, actions)
    requires After(s, actions) == Two(map[SLOT0 := Lock(2)], Condemning(task, SLOT0), Holding(0))
    ensures Runs(s, actions + [Reap(1)]) && Always(s, actions + [Reap(1)], Anything())
    ensures After(s, actions + [Reap(1)]) == Two(map[], Scanning(task), Holding(0))
  {
    hide SlotName, Matches;
    AlwaysAnything(s, actions);
    Extend(s, actions, Reap(1), Two(map[], Scanning(task), Holding(0)), Anything());
  }

  /** With a pause between reading a dead record and unlinking it, acquirers alone lose exclusion. */
  lemma SplitInspectionLosesExclusion() returns (s: State, actions: seq<Action>)
    ensures Initial(s) && Runs(s, actions) && !Exclusive(After(s, actions))
    ensures forall a | a in actions :: !a.Sweep?
  {
    hide SlotName, Matches, Next, Enabled, Tolerant, Two, Always, AtomicInspection, CleansAbandoned, Runs, After,
      Initial;
    TheseAreTolerant();
    s, actions := BothStart(map[SLOT0 := STALE]);
    FirstCondemns(s, actions, Acquire(0));
    actions := actions + [Inspect(1, SLOT0)] + [Judge(1)];
    actions := UnlinksNewcomer(s, actions, Acquire(0));
    FirstClaims(s, actions, Holding(0), Anything());
    actions := actions + [EndScan(1)] + [TryOpen(1)] + [Write(1)];
    TwoHoldersOfOneSlot(map[SLOT0 := Lock(1)]);
  }

  lemma BothStart(dir: map<string, File>) returns (s: State, actions: seq<Action>)
    requires forall name | name in dir :: dir[name].owner == None
    ensures Initial(s) && Runs(s, actions) && Always(s, actions, Anything())
    ensures After(s, actions) == Two(dir, Scanning(Acquire(0)), Top)
    ensures actions == [Start(1, "job", 1, -1)] + [Start(2, "job", 1, -1)] + [BeginScan(1)]
  {
    hide SlotName, Matches;
    s := Idle(dir, Anything());
    actions := [];
    Extend(s, actions, Start(1, "job", 1, -1), State(dir, map[1 := Mutex(Top), 2 := OUTSIDE]), Anything());
    actions := [Start(1, "job", 1, -1)];
    assert [] + actions == actions;
    Extend(s, actions, Start(2, "job", 1, -1), Two(dir, Top, Top), Anything());
    actions := actions + [Start(2, "job", 1, -1)];
    Extend(s, actions, BeginScan(1), Two(dir, Scanning(Acquire(0)), Top), Anything());
    actions := actions + [BeginScan(1)];
  }

  lemma SweeperStarts(dir: map<string, File>, task: Task, good: (State, Action) -> bool)
    returns (s: State, actions: seq<Action>)
    requires !task.Acquire? && forall name | name in dir :: dir[name].owner == None
    requires Tolerant(good)
    ensures Initial(s) && Runs(s, actions) && Always(s, actions, good)
    ensures After(s, actions) == Two(dir, Scanning(task), Top)
    ensures forall a | a in actions && a.Sweep? :: a.task == task
  {
    hide SlotName, Matches;
    s := Idle(dir, good);
    actions := [];
    Extend(s, actions, Sweep(1, "job", task), State(dir, map[1 := Mutex(Scanning(task)), 2 := OUTSIDE]), good);
    actions := actions + [Sweep(1, "job", task)];
    Extend(s, actions, Start(2, "job", 1, -1), Two(dir, Scanning(task), Top), good);
    actions := actions + [Start(2, "job", 1, -1)];
  }

  /** The same pause in done_lock: it unlinks the file of a process that acquired in between. */
  lemma SplitDoneLosesExclusion() returns (s: State, actions: seq<Action>)
    ensures Initial(s) && Runs(s, actions) && !Exclusive(After(s, actions))
    ensures forall a | a in actions && a.Sweep? :: a.task == Done
  {
    hide SlotName, Matches, Next, Enabled, Tolerant, Two, Always, AtomicInspection, CleansAbandoned, Runs, After,
      Initial;
    TheseAreTolerant();
    s, actions := SweeperStarts(map[SLOT0 := STALE], Done, Anything());
    FirstCondemns(s, actions, Done);
    actions := actions + [Inspect(1, SLOT0)] + [Judge(1)];
    actions := UnlinksNewcomer(s, actions, Done);
    SweeperReturns(s, actions, Done, Anything());
    actions := actions + [EndScan(1)] + [Start(1, "job", 1, -1)] + [BeginScan(1)];
    FirstClaims(s, actions, Holding(0), Anything());
    actions := actions + [EndScan(1)] + [TryOpen(1)] + [Write(1)];
    TwoHoldersOfOneSlot(map[SLOT0 := Lock(1)]);
  }

  // ---------------------------------------------------------------------------------------------
  // check_lock and a file that is created and not yet written
  // ---------------------------------------------------------------------------------------------

  /** The second process creates its file while the first one walks the directory. */
  lemma SecondCreates(s: State, actions: seq<Action>, good: (State, Action) -> bool)
    requires Runs(s, actions) && Always(s, actions, good) && After(s, actions) == Two(map[], Scanning(Check), Top)
    requires Tolerant(good)
    ensures var all := actions + [BeginScan(2)] + [EndScan(2)] + [TryOpen(2)];
            && Runs(s, all) && Always(s, all, good)
            && After(s, all) == Two(map[SLOT0 := File(Some(2), Invalid)], Scanning(Check), Created(0))
  {
    hide SlotName, Matches;
    Extend(s, actions, BeginScan(2), Two(map[], Scanning(Check), Scanning(Acquire(0))), good);
    var a1 := actions + [BeginScan(2)];
    Extend(s, a1, EndScan(2), Two(map[], Scanning(Check), Claiming(0)), good);
    var t := Two(map[SLOT0 := File(Some(2), Invalid)], Scanning(Check), Created(0));
    Extend(s, a1 + [EndScan(2)], TryOpen(2), t, good);
  }

  /** check_lock reads the empty file. */
  lemma CheckReadsEmpty(s: State, actions: seq<Action>, good: (State, Action) -> bool)
    requires Runs(s, actions) && Always(s, actions, good)
    requires After(s, actions) == Two(map[SLOT0 := File(Some(2), Invalid)], Scanning(Check), Created(0))
    requires Tolerant(good)
    ensures var all := actions + [Inspect(1, SLOT0)];
            && Runs(s, all) && Always(s, all, good)
            && After(s, all) == Two(map[SLOT0 := File(Some(2), Invalid)], Condemning(Check, SLOT0), Created(0))
  {
    hide SlotName, Matches;
    SlotIsSeen(Check);
    var t := Two(map[SLOT0 := File(Some(2), Invalid)], Condemning(Check, SLOT0), Created(0));
    Extend(s, actions, Inspect(1, SLOT0), t, good);
  }

  /** The two orders of the unlink and the write, and where both lead. */
  lemma UnlinkThenWrite(created: State)
    requires created == Two(map[SLOT0 := File(Some(2), Invalid)], Condemning(Check, SLOT0), Created(0))
    ensures Enabled(created, Reap(1)) && AtomicInspection(created, Reap(1))
    ensures Next(created, Reap(1)) == Two(map[], Scanning(Check), Created(0))
    ensures var t := Two(map[], Scanning(Check), Created(0));
            && Enabled(t, Write(2)) && AtomicInspection(t, Write(2))
            && Next(t, Write(2)) == Two(map[], Scanning(Check), Holding(0))
  {
    hide SlotName, Matches;
  }

  lemma WriteThenUnlink(created: State)
    requires created == Two(map[SLOT0 := File(Some(2), Invalid)], Condemning(Check, SLOT0), Created(0))
    ensures Enabled(created, Write(2)) && CleansAbandoned(created, Write(2))
    ensures Next(created, Write(2)) == Two(map[SLOT0 := Lock(2)], Condemning(Check, SLOT0), Holding(0))
    ensures var t := Two(map[SLOT0 := Lock(2)], Condemning(Check, SLOT0), Holding(0));
            && Enabled(t, Reap(1)) && CleansAbandoned(t, Reap(1))
            && Next(t, Reap(1)) == Two(map[], Scanning(Check), Holding(0))
  {
    hide SlotName, Matches;
  }

  lemma UnlinksThenWrites(s: State, actions: seq<Action>)
    requires Runs(s, actions) && Always(s, actions, AtomicInspection)
    requires After(s, actions) == Two(map[SLOT0 := File(Some(2), Invalid)], Condemning(Check, SLOT0), Created(0))
    ensures var all := actions + [Reap(1)] + [Write(2)];
            && Runs(s, all) && Always(s, all, AtomicInspection)
            && After(s, all) == Two(map[], Scanning(Check), Holding(0))
  {
    hide SlotName, Matches, Next, Enabled, AtomicInspection, Two, Runs, After, Always;
    UnlinkThenWrite(After(s, actions));
    Extend(s, actions, Reap(1), Two(map[], Scanning(Check), Created(0)), AtomicInspection);
    Extend(s, actions + [Reap(1)], Write(2), Two(map[], Scanning(Check), Holding(0)), AtomicInspection);
  }

  lemma WritesThenUnlinks(s: State, actions: seq<Action>)
    requires Runs(s, actions) && Always(s, actions, CleansAbandoned)
    requires After(s, actions) == Two(map[SLOT0 := File(Some(2), Invalid)], Condemning(Check, SLOT0), Created(0))
    ensures var all := actions + [Write(2)] + [Reap(1)];
            && Runs(s, all) && Always(s, all, CleansAbandoned)
            && After(s, all) == Two(map[], Scanning(Check), Holding(0))
  {
    hide SlotName, Matches, Next, Enabled, CleansAbandoned, Two, Runs, After, Always;
    WriteThenUnlink(After(s, actions));
    Extend(s, actions, Write(2), Two(map[SLOT0 := Lock(2)], Condemning(Check, SLOT0), Holding(0)), CleansAbandoned);
    Extend(s, actions + [Write(2)], Reap(1), Two(map[], Scanning(Check), Holding(0)), CleansAbandoned);
  }

  /** The first assumption alone is not enough: even when every inspection is atomic, check_lock at work
      between an exclusive create and its write costs exclusion. */
  lemma CleanBeforeWriteLosesExclusion() returns (s: State, actions: seq<Action>)
    ensures Initial(s) && Runs(s, actions) && !Exclusive(After(s, actions))
    ensures Always(s, actions, AtomicInspection)
    ensures forall a | a in actions && a.Sweep? :: a.task == Check
  {
    hide SlotName, Matches, Next, Enabled, Tolerant, Two, Always, AtomicInspection, CleansAbandoned, Runs, After,
      Initial;
    TheseAreTolerant();
    s, actions := SweeperStarts(map[], Check, AtomicInspection);
    SecondCreates(s, actions, AtomicInspection);
    actions := actions + [BeginScan(2)] + [EndScan(2)] + [TryOpen(2)];
    CheckReadsEmpty(s, actions, AtomicInspection);
    actions := actions + [Inspect(1, SLOT0)];
    UnlinksThenWrites(s, actions);
    actions := actions + [Reap(1)] + [Write(2)];
    SweeperReturns(s, actions, Check, AtomicInspection);
    actions := actions + [EndScan(1)] + [Start(1, "job", 1, -1)] + [BeginScan(1)];
    FirstClaims(s, actions, Holding(0), AtomicInspection);
    actions := actions + [EndScan(1)] + [TryOpen(1)] + [Write(1)];
    TwoHoldersOfOneSlot(map[SLOT0 := Lock(1)]);
  }

  /** Nor is the second alone: check_lock reads an empty file, its maker writes and holds, and then
      check_lock unlinks it, with nobody between create and write at that moment. */
  lemma SplitCheckLosesExclusion() returns (s: State, actions: seq<Action>)
    ensures Initial(s) && Runs(s, actions) && !Exclusive(After(s, actions))
    ensures Always(s, actions, CleansAbandoned)
    ensures forall a | a in actions && a.Sweep? :: a.task == Check
  {
    hide SlotName, Matches, Next, Enabled, Tolerant, Two, Always, AtomicInspection, CleansAbandoned, Runs, After,
      Initial;
    TheseAreTolerant();
    s, actions := SweeperStarts(map[], Check, CleansAbandoned);
    SecondCreates(s, actions, CleansAbandoned);
    actions := actions + [BeginScan(2)] + [EndScan(2)] + [TryOpen(2)];
    CheckReadsEmpty(s, actions, CleansAbandoned);
    actions := actions + [Inspect(1, SLOT0)];
    WritesThenUnlinks(s, actions);
    actions := actions + [Write(2)] + [Reap(1)];
    SweeperReturns(s, actions, Check, CleansAbandoned);
    actions := actions + [EndScan(1)] + [Start(1, "job", 1, -1)] + [BeginScan(1)];
    FirstClaims(s, actions, Holding(0), CleansAbandoned);
    actions := actions + [EndScan(1)] + [TryOpen(1)] + [Write(1)];
    TwoHoldersOfOneSlot(map[SLOT0 := Lock(1)]);
  }
}
