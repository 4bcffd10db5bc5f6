/** What a process achieves when it runs alone, and what goes wrong when an inspection is interrupted. */
module LockProgress {
  import opened Basics
  import opened CText
  import opened Names
  import opened LockProtocol

  lemma {:induction false} RunsAppend(s: State, xs: seq<Action>, ys: seq<Action>)
    requires Runs(s, xs) && Runs(After(s, xs), ys)
    ensures Runs(s, xs + ys) && After(s, xs + ys) == After(After(s, xs), ys)
    decreases |xs|
  {
    hide Next, Enabled;
    if xs == [] {
      assert xs + ys == ys;
    } else {
      assert (xs + ys)[0] == xs[0] && (xs + ys)[1..] == xs[1..] + ys;
      RunsAppend(Next(s, xs[0]), xs[1..], ys);
    }
  }

  lemma RunsOne(s: State, a: Action)
    requires Enabled(s, a)
    ensures Runs(s, [a]) && After(s, [a]) == Next(s, a)
  {
    hide Next, Enabled;
    assert [a][1..] == [];
    assert Runs(Next(s, a), []);
  }

  lemma RunsCons(s: State, a: Action, ys: seq<Action>)
    requires Enabled(s, a) && Runs(Next(s, a), ys)
    ensures Runs(s, [a] + ys) && After(s, [a] + ys) == After(Next(s, a), ys)
  {
    hide Next, Enabled;
    RunsOne(s, a);
    RunsAppend(s, [a], ys);
  }

  // ---------------------------------------------------------------------------------------------
  // One scan without interference
  // ---------------------------------------------------------------------------------------------

  ghost predicate Distinct(names: seq<string>) {
    forall i, j | 0 <= i < j < |names| :: names[i] != names[j]
  }

  /** `names` is what readdir yields to the scan: every matching entry once, in any order. */
  ghost predicate Lists(s: State, p: Pid, names: seq<string>)
    requires p in s.procs
  {
    && Distinct(names)
    && forall n :: n in names <==> n in s.dir && ScanMatches(n, s.procs[p].descriptor)
  }

  predicate LiveRecord(s: State, name: string) {
    name in s.dir && s.dir[name].content.Valid? && Exists(s, s.dir[name].content.pid)
  }

  function LiveCount(s: State, names: seq<string>): nat {
    if names == [] then 0 else (if LiveRecord(s, names[0]) then 1 else 0) + LiveCount(s, names[1..])
  }

  /** What a walk removes: acquire_lock dead records, check_lock what is no valid record, done_lock both. */
  predicate Condemned(s: State, task: Task, name: string) {
    name in s.dir && match s.dir[name].content
                     case Invalid => !task.Acquire?
                     case Valid(pid, _) => !Exists(s, pid) && !task.Check?
  }

  /** The directory once a task has walked over `names`. */
  function Swept(s: State, task: Task, names: seq<string>): map<string, File> {
    map n | n in s.dir && !(n in names && Condemned(s, task, n)) :: s.dir[n]
  }

  /** The directory once the dead records among `names` are reaped. */
  function Reaped(s: State, names: seq<string>): map<string, File> {
    Swept(s, Acquire(0), names)
  }

  function Advance(task: Task, count: nat): Task {
    if task.Acquire? then Acquire(task.active + count) else task
  }

  function InspectActions(s: State, p: Pid, task: Task, name: string): seq<Action> {
    [Inspect(p, name)]
    + ((if name in s.dir && s.dir[name].content.Valid? then [Judge(p)] else [])
       + (if Condemned(s, task, name) then [Reap(p)] else []))
  }

  function ScanActions(s: State, p: Pid, task: Task, names: seq<string>): seq<Action>
    decreases |names|
  {
    if names == [] then [] else InspectActions(s, p, task, names[0]) + ScanActions(s, p, task, names[1..])
  }

  function Scanned(s: State, p: Pid, names: seq<string>, task: Task): State
    requires p in s.procs
  {
    Goto(s.(dir := Swept(s, task, names)), p, Scanning(task))
  }

  /** A walk between two entries, about to look at one that matches. */
  predicate LooksAt(s: State, p: Pid, name: string) {
    && Live(s, p) && s.procs[p].pc.Scanning?
    && name in s.dir && Matches(s.procs[p].pc.task, name, s.procs[p].descriptor)
  }

  lemma ReadEntry(s: State, p: Pid, name: string)
    requires LooksAt(s, p, name)
    ensures Enabled(s, Inspect(p, name))
    ensures Next(s, Inspect(p, name)) == Goto(s, p, AfterRead(s.procs[p].pc.task, name, s.dir[name].content))
  {
    hide Matches, SlotName;
  }

  lemma JudgeRead(s: State, p: Pid, name: string)
    requires LooksAt(s, p, name) && s.dir[name].content.Valid?
    ensures var task := s.procs[p].pc.task; var pid := s.dir[name].content.pid;
            var t := Goto(s, p, Judging(task, name, pid));
            && Enabled(t, Judge(p))
            && Next(t, Judge(p)) == Goto(s, p, AfterJudgement(task, name, Exists(s, pid)))
  {
    hide Matches, SlotName, AfterJudgement;
    var t := Goto(s, p, Judging(s.procs[p].pc.task, name, s.dir[name].content.pid));
    assert forall q: Pid :: Live(t, q) <==> Live(s, q);
  }

  lemma UnlinkCondemned(s: State, p: Pid, name: string)
    requires LooksAt(s, p, name) && Condemned(s, s.procs[p].pc.task, name)
    ensures var t := Goto(s, p, Condemning(s.procs[p].pc.task, name));
            Enabled(t, Reap(p)) && Next(t, Reap(p)) == Scanned(s, p, [name], s.procs[p].pc.task)
  {
    hide Matches, SlotName;
    var t := Goto(s, p, Condemning(s.procs[p].pc.task, name));
    assert Next(t, Reap(p)).dir == Swept(s, s.procs[p].pc.task, [name]);
    assert Next(t, Reap(p)).procs == Scanned(s, p, [name], s.procs[p].pc.task).procs;
  }

  lemma KeptIsScanned(s: State, p: Pid, name: string, task: Task)
    requires LooksAt(s, p, name) && !Condemned(s, task, name)
    ensures Goto(s, p, Scanning(task)) == Scanned(s, p, [name], task)
  {
    hide Matches, SlotName;
    assert Swept(s, task, [name]) == s.dir;
  }

  /** An entry without a valid record: read, and removed unless this is acquire_lock. */
  lemma InvalidEntry(s: State, p: Pid, name: string)
    requires LooksAt(s, p, name) && s.dir[name].content.Invalid?
    ensures var task := s.procs[p].pc.task;
            && Runs(s, InspectActions(s, p, task, name))
            && After(s, InspectActions(s, p, task, name)) == Scanned(s, p, [name], task)
  {
    hide Next, Enabled, Scanned, Goto, Matches, SlotName;
    var task := s.procs[p].pc.task;
    ReadEntry(s, p, name);
    if task.Acquire? {
      KeptIsScanned(s, p, name, task);
      RunsOne(s, Inspect(p, name));
      assert InspectActions(s, p, task, name) == [Inspect(p, name)];
    } else {
      UnlinkCondemned(s, p, name);
      RunsOne(Next(s, Inspect(p, name)), Reap(p));
      RunsCons(s, Inspect(p, name), [Reap(p)]);
      assert InspectActions(s, p, task, name) == [Inspect(p, name)] + [Reap(p)];
    }
  }

  /** An entry with a valid record: read and judged, and removed if dead unless this is check_lock. */
  lemma ValidEntry(s: State, p: Pid, name: string)
    requires LooksAt(s, p, name) && s.dir[name].content.Valid?
    ensures var task := s.procs[p].pc.task;
            && Runs(s, InspectActions(s, p, task, name))
            && After(s, InspectActions(s, p, task, name))
            == Scanned(s, p, [name], Advance(task, if LiveRecord(s, name) then 1 else 0))
  {
    hide Next, Enabled, Scanned, Goto, Matches, SlotName, Exists;
    var task := s.procs[p].pc.task;
    ReadEntry(s, p, name);
    JudgeRead(s, p, name);
    var t := Next(s, Inspect(p, name));
    if Condemned(s, task, name) {
      UnlinkCondemned(s, p, name);
      RunsOne(Next(t, Judge(p)), Reap(p));
      RunsCons(t, Judge(p), [Reap(p)]);
      RunsCons(s, Inspect(p, name), [Judge(p)] + [Reap(p)]);
      assert InspectActions(s, p, task, name) == [Inspect(p, name)] + ([Judge(p)] + [Reap(p)]);
    } else {
      KeptIsScanned(s, p, name, Advance(task, if LiveRecord(s, name) then 1 else 0));
      RunsOne(t, Judge(p));
      RunsCons(s, Inspect(p, name), [Judge(p)]);
      assert InspectActions(s, p, task, name) == [Inspect(p, name)] + [Judge(p)];
    }
  }

  lemma OneInspection(s: State, p: Pid, name: string)
    requires LooksAt(s, p, name)
    ensures var task := s.procs[p].pc.task;
            && Runs(s, InspectActions(s, p, task, name))
            && After(s, InspectActions(s, p, task, name))
            == Scanned(s, p, [name], Advance(task, if LiveRecord(s, name) then 1 else 0))
  {
    hide Next, Enabled, Scanned, InspectActions, Matches, Runs, After;
    if s.dir[name].content.Valid? { ValidEntry(s, p, name); } else { InvalidEntry(s, p, name); }
  }

  /** Two states that agree on the entries of a list. */
  ghost predicate AgreeOn(s: State, t: State, names: seq<string>) {
    && (forall n | n in names :: LiveRecord(s, n) == LiveRecord(t, n))
    && (forall n | n in names :: (n in s.dir <==> n in t.dir) && (n in s.dir ==> s.dir[n] == t.dir[n]))
    && (forall n, task | n in names :: Condemned(s, task, n) == Condemned(t, task, n))
  }

  lemma SameAfterScan(s: State, t: State, p: Pid, pc: Pc, names: seq<string>)
    requires p in s.procs && t.procs == s.procs[p := s.procs[p].(pc := pc)]
    requires forall n | n in names :: (n in s.dir <==> n in t.dir) && (n in s.dir ==> s.dir[n] == t.dir[n])
    ensures AgreeOn(s, t, names)
  {}

  lemma {:induction false} SameActions(s: State, t: State, p: Pid, task: Task, again: Task, names: seq<string>)
    requires AgreeOn(s, t, names) && Advance(again, 0) == again && SameKind(task, again)
    ensures ScanActions(s, p, task, names) == ScanActions(t, p, again, names)
    ensures LiveCount(s, names) == LiveCount(t, names)
    decreases |names|
  {
    hide LiveRecord, Exists;
    if names != [] {
      assert names[0] in names;
      SameActions(s, t, p, task, again, names[1..]);
    }
  }

  /** The same operation, whatever it has counted so far. */
  predicate SameKind(a: Task, b: Task) {
    (a.Acquire? <==> b.Acquire?) && (a.Check? <==> b.Check?)
  }

  lemma SweptInParts(s: State, t: State, task: Task, again: Task, names: seq<string>)
    requires names != [] && SameKind(task, again) && names[0] !in names[1..] && AgreeOn(s, t, names[1..])
    requires t.dir == Swept(s, again, [names[0]])
    ensures Swept(t, again, names[1..]) == Swept(s, again, names)
  {
    hide Exists, LiveRecord;
    assert forall n :: n in names <==> n == names[0] || n in names[1..];
  }

  lemma MatchesByKind(task: Task, again: Task, name: string, descriptor: string)
    requires SameKind(task, again)
    ensures Matches(task, name, descriptor) == Matches(again, name, descriptor)
  {}

  /** An uninterrupted walk of any of the three operations removes exactly what it condemns, and
      acquire_lock counts exactly the live records, in whatever order the entries come. */
  lemma {:induction false} ScanAlone(s: State, p: Pid, names: seq<string>)
    requires Live(s, p) && s.procs[p].pc.Scanning? && Distinct(names)
    requires forall n | n in names :: n in s.dir && Matches(s.procs[p].pc.task, n, s.procs[p].descriptor)
    ensures var task := s.procs[p].pc.task;
            && Runs(s, ScanActions(s, p, task, names))
            && After(s, ScanActions(s, p, task, names)) == Scanned(s, p, names, Advance(task, LiveCount(s, names)))
    decreases |names|
  {
    hide Matches, Next, Enabled, Exists, InspectActions, Condemned, Runs, After, LiveRecord;
    var task := s.procs[p].pc.task;
    if names == [] {
      NothingScanned(s, p);
    } else {
      var name, rest := names[0], names[1..];
      OneInspection(s, p, name);
      var t := After(s, InspectActions(s, p, task, name));
      assert forall n | n in rest :: n in names;
      assert name !in rest;
      SameAfterScan(s, t, p, t.procs[p].pc, rest);
      var again := t.procs[p].pc.task;
      forall n | n in rest ensures Matches(again, n, t.procs[p].descriptor) {
        MatchesByKind(task, again, n, s.procs[p].descriptor);
      }
      SameActions(s, t, p, task, again, rest);
      ScanAlone(t, p, rest);
      RunsAppend(s, InspectActions(s, p, task, name), ScanActions(t, p, again, rest));
      SweptInParts(s, t, task, again, names);
      ScannedInParts(s, t, p, names, again);
      assert Advance(again, LiveCount(s, rest)) == Advance(task, LiveCount(s, names));
    }
  }

  lemma ScannedInParts(s: State, t: State, p: Pid, names: seq<string>, again: Task)
    requires names != [] && p in s.procs && Swept(t, again, names[1..]) == Swept(s, again, names)
    requires t.procs == s.procs[p := s.procs[p].(pc := Scanning(again))]
    ensures forall k: nat :: Scanned(t, p, names[1..], Advance(again, k)) == Scanned(s, p, names, Advance(again, k))
  {
    hide Swept;
    forall k: nat ensures Scanned(t, p, names[1..], Advance(again, k)) == Scanned(s, p, names, Advance(again, k)) {
      SweptKind(t, again, Advance(again, k), names[1..]);
      SweptKind(s, again, Advance(again, k), names);
      assert t.procs[p := t.procs[p].(pc := Scanning(Advance(again, k)))]
          == s.procs[p := s.procs[p].(pc := Scanning(Advance(again, k)))];
    }
  }

  lemma SweptKind(s: State, task: Task, again: Task, names: seq<string>)
    requires SameKind(task, again)
    ensures Swept(s, task, names) == Swept(s, again, names)
  {
    hide Exists;
  }

  lemma NothingScanned(s: State, p: Pid)
    requires Live(s, p) && s.procs[p].pc.Scanning?
    ensures var task := s.procs[p].pc.task;
            && ScanActions(s, p, task, []) == [] && Runs(s, []) && After(s, []) == s
            && s == Scanned(s, p, [], Advance(task, LiveCount(s, [])))
  {
    assert Swept(s, s.procs[p].pc.task, []) == s.dir;
    assert s.procs[p := s.procs[p]] == s.procs;
  }

  /** check_lock or done_lock from opening the directory to closing it. */
  function SweepActions(s: State, p: Pid, descriptor: string, task: Task, names: seq<string>): seq<Action> {
    [Sweep(p, descriptor, task)] + (ScanActions(s, p, task, names) + [EndScan(p)])
  }

  /** An undisturbed check_lock or done_lock removes exactly what it condemns among the entries it reads,
      and touches nothing else. */
  lemma SweepAlone(s: State, p: Pid, descriptor: string, task: Task, names: seq<string>)
    requires Enabled(s, Sweep(p, descriptor, task)) && Distinct(names)
    requires forall n | n in names :: n in s.dir && Matches(task, n, descriptor)
    ensures Runs(s, SweepActions(s, p, descriptor, task, names))
    ensures var t := After(s, SweepActions(s, p, descriptor, task, names));
            && t.dir == Swept(s, task, names)
            && t.procs == s.procs[p := Proc(true, descriptor, 1, -1, Outside)]
  {
    hide Matches, Exists, ScanActions, Condemned, Runs, After, SlotName;
    var t := Next(s, Sweep(p, descriptor, task));
    SweepSeesTheSame(s, p, descriptor, task, names);
    ScanAlone(t, p, names);
    SameActions(s, t, p, task, task, names);
    var u := Scanned(t, p, names, task);
    RunsOne(u, EndScan(p));
    RunsAppend(t, ScanActions(s, p, task, names), [EndScan(p)]);
    RunsCons(s, Sweep(p, descriptor, task), ScanActions(s, p, task, names) + [EndScan(p)]);
    assert u.dir == Swept(s, task, names);
    assert Next(u, EndScan(p)).procs == s.procs[p := Proc(true, descriptor, 1, -1, Outside)];
  }

  lemma SweepSeesTheSame(s: State, p: Pid, descriptor: string, task: Task, names: seq<string>)
    requires Enabled(s, Sweep(p, descriptor, task))
    ensures var t := Next(s, Sweep(p, descriptor, task));
            && AgreeOn(s, t, names) && t.dir == s.dir
            && forall n, k :: Condemned(s, k, n) == Condemned(t, k, n)
  {
    hide Matches;
    var t := Next(s, Sweep(p, descriptor, task));
    assert forall q: Pid :: Live(t, q) <==> Live(s, q);
  }

  // ---------------------------------------------------------------------------------------------
  // One claim loop without interference
  // ---------------------------------------------------------------------------------------------

  /** The least slot from `slot` on whose name is absent, or the limit. */
  function FirstFree(dir: map<string, File>, descriptor: string, slot: nat, limit: nat): (k: nat)
    requires slot <= limit
    ensures slot <= k <= limit
    decreases limit - slot
  {
    if slot == limit || SlotName(descriptor, slot) !in dir then slot
    else FirstFree(dir, descriptor, slot + 1, limit)
  }

  lemma {:induction false} FirstFreeIsLeast(dir: map<string, File>, descriptor: string, slot: nat, limit: nat)
    requires slot <= limit
    ensures forall j | slot <= j < FirstFree(dir, descriptor, slot, limit) :: SlotName(descriptor, j) in dir
    ensures FirstFree(dir, descriptor, slot, limit) < limit
        ==> SlotName(descriptor, FirstFree(dir, descriptor, slot, limit)) !in dir
    decreases limit - slot
  {
    if slot < limit && SlotName(descriptor, slot) in dir {
      FirstFreeIsLeast(dir, descriptor, slot + 1, limit);
    }
  }

  function ClaimActions(s: State, p: Pid, slot: nat): seq<Action>
    requires p in s.procs && slot <= s.procs[p].maxHolders
    decreases s.procs[p].maxHolders - slot
  {
    if slot == s.procs[p].maxHolders then [GiveUp(p)]
    else if PathOf(s.procs[p], slot) in s.dir then [TryOpen(p)] + ClaimActions(s, p, slot + 1)
    else [TryOpen(p), Write(p)]
  }

  /** What a claim loop that nobody disturbs leaves behind. */
  function Claimed(s: State, p: Pid, slot: nat): State
    requires p in s.procs
  {
    var proc := s.procs[p];
    if slot < proc.maxHolders
    then Goto(s.(dir := s.dir[PathOf(proc, slot) := Signed(p, proc)]), p, Holding(slot))
    else Goto(s, p, Waiting)
  }

  lemma CreateAndWrite(s: State, p: Pid)
    requires Live(s, p) && s.procs[p].pc.Claiming? && s.procs[p].pc.slot < s.procs[p].maxHolders
    requires PathOf(s.procs[p], s.procs[p].pc.slot) !in s.dir
    ensures Runs(s, [TryOpen(p), Write(p)])
    ensures After(s, [TryOpen(p), Write(p)]) == Claimed(s, p, s.procs[p].pc.slot)
  {
    hide SlotName;
    var t := Next(s, TryOpen(p));
    RunsOne(t, Write(p));
    RunsCons(s, TryOpen(p), [Write(p)]);
    assert [TryOpen(p)] + [Write(p)] == [TryOpen(p), Write(p)];
    var u := Next(t, Write(p));
    assert u.dir == Claimed(s, p, s.procs[p].pc.slot).dir;
    assert u.procs == Claimed(s, p, s.procs[p].pc.slot).procs;
  }

  lemma {:induction false} ClaimAlone(s: State, p: Pid)
    requires Live(s, p) && s.procs[p].pc.Claiming? && s.procs[p].pc.slot <= s.procs[p].maxHolders
    ensures Runs(s, ClaimActions(s, p, s.procs[p].pc.slot))
    ensures After(s, ClaimActions(s, p, s.procs[p].pc.slot))
         == Claimed(s, p, FirstFree(s.dir, s.procs[p].descriptor, s.procs[p].pc.slot, s.procs[p].maxHolders))
    decreases s.procs[p].maxHolders - s.procs[p].pc.slot
  {
    hide SlotName;
    var slot := s.procs[p].pc.slot;
    if slot == s.procs[p].maxHolders {
      RunsOne(s, GiveUp(p));
    } else if PathOf(s.procs[p], slot) in s.dir {
      var t := Next(s, TryOpen(p));
      assert t == Goto(s, p, Claiming(slot + 1));
      ClaimAlone(t, p);
      ClaimIgnoresPc(s, p, Claiming(slot + 1), slot + 1);
      RunsCons(s, TryOpen(p), ClaimActions(s, p, slot + 1));
      var k := FirstFree(s.dir, s.procs[p].descriptor, slot + 1, s.procs[p].maxHolders);
      assert Claimed(t, p, k).procs == Claimed(s, p, k).procs;
    } else {
      CreateAndWrite(s, p);
    }
  }

  lemma {:induction false} ClaimIgnoresPc(s: State, p: Pid, pc: Pc, slot: nat)
    requires p in s.procs && slot <= s.procs[p].maxHolders
    ensures ClaimActions(s, p, slot) == ClaimActions(Goto(s, p, pc), p, slot)
    decreases s.procs[p].maxHolders - slot
  {
    hide SlotName;
    if slot < s.procs[p].maxHolders && PathOf(s.procs[p], slot) in s.dir {
      ClaimIgnoresPc(s, p, pc, slot + 1);
    }
  }

  // ---------------------------------------------------------------------------------------------
  // One whole pass without interference
  // ---------------------------------------------------------------------------------------------

  /** Where an undisturbed pass of acquire_lock ends. */
  function PassResult(s: State, p: Pid, names: seq<string>): Pc
    requires p in s.procs
  {
    var proc := s.procs[p];
    if LiveCount(s, names) < proc.maxHolders then
      var k := FirstFree(Reaped(s, names), proc.descriptor, 0, proc.maxHolders);
      if k < proc.maxHolders then Holding(k) else Waiting
    else if proc.timeout <= 0 then Returned(Busy)
    else Waiting
  }

  function PassActions(s: State, p: Pid, names: seq<string>): seq<Action>
    requires p in s.procs
  {
    var scan := [BeginScan(p)] + ScanActions(s, p, Acquire(0), names) + [EndScan(p)];
    if LiveCount(s, names) < s.procs[p].maxHolders
    then scan + ClaimActions(Goto(s.(dir := Reaped(s, names)), p, Claiming(0)), p, 0)
    else scan
  }

  lemma ScanOfPass(s: State, p: Pid, names: seq<string>)
    requires Live(s, p) && s.procs[p].pc.Top? && s.procs[p].timeout != 0 && Lists(s, p, names)
    ensures Runs(s, [BeginScan(p)] + ScanActions(s, p, Acquire(0), names))
    ensures After(s, [BeginScan(p)] + ScanActions(s, p, Acquire(0), names))
         == Goto(s.(dir := Reaped(s, names)), p, Scanning(Acquire(LiveCount(s, names))))
  {
    hide ScanMatches, Exists, ScanActions, Condemned;
    var count := LiveCount(s, names);
    var t := Next(s, BeginScan(p));
    assert t == Goto(s, p, Scanning(Acquire(0)));
    SameAfterScan(s, t, p, Scanning(Acquire(0)), names);
    SameActions(s, t, p, Acquire(0), Acquire(0), names);
    ScanAlone(t, p, names);
    RunsCons(s, BeginScan(p), ScanActions(s, p, Acquire(0), names));
    SweptKind(t, Acquire(count), Acquire(0), names);
    assert Swept(t, Acquire(0), names) == Swept(s, Acquire(0), names);
    assert Scanned(t, p, names, Acquire(count)).procs == s.procs[p := s.procs[p].(pc := Scanning(Acquire(count)))];
  }

  lemma EndOfScan(s: State, p: Pid, names: seq<string>)
    requires Live(s, p) && s.procs[p].pc.Top? && s.procs[p].timeout != 0 && Lists(s, p, names)
    ensures Runs(s, [BeginScan(p)] + ScanActions(s, p, Acquire(0), names) + [EndScan(p)])
    ensures After(s, [BeginScan(p)] + ScanActions(s, p, Acquire(0), names) + [EndScan(p)])
         == Goto(s.(dir := Reaped(s, names)), p,
                 if LiveCount(s, names) < s.procs[p].maxHolders then Claiming(0)
                 else if s.procs[p].timeout <= 0 then Returned(Busy) else Waiting)
  {
    hide ScanMatches, Exists, ScanActions, Reaped, LiveCount;
    var scan := [BeginScan(p)] + ScanActions(s, p, Acquire(0), names);
    ScanOfPass(s, p, names);
    var t := Goto(s.(dir := Reaped(s, names)), p, Scanning(Acquire(LiveCount(s, names))));
    RunsOne(t, EndScan(p));
    RunsAppend(s, scan, [EndScan(p)]);
    var u := Next(t, EndScan(p));
    assert u.procs == s.procs[p := s.procs[p].(pc := u.procs[p].pc)];
  }

  /** A process that runs alone takes the least slot whose name is absent once dead records are
      reaped, if live records leave room and such a slot exists; the rest of the directory is the
      reaped one. */
  lemma PassAlone(s: State, p: Pid, names: seq<string>)
    requires Live(s, p) && s.procs[p].pc.Top? && s.procs[p].timeout != 0 && Lists(s, p, names)
    ensures Runs(s, PassActions(s, p, names))
    ensures var t := After(s, PassActions(s, p, names)); var proc := s.procs[p];
            && t.procs == s.procs[p := proc.(pc := PassResult(s, p, names))]
            && t.dir == match PassResult(s, p, names)
                        case Holding(k) => Reaped(s, names)[PathOf(proc, k) := Signed(p, proc)]
                        case _ => Reaped(s, names)
  {
    hide ScanMatches, Exists, ScanActions, Reaped, LiveCount, FirstFree;
    EndOfScan(s, p, names);
    if LiveCount(s, names) < s.procs[p].maxHolders {
      var scan := [BeginScan(p)] + ScanActions(s, p, Acquire(0), names) + [EndScan(p)];
      var t := Goto(s.(dir := Reaped(s, names)), p, Claiming(0));
      ClaimAlone(t, p);
      RunsAppend(s, scan, ClaimActions(t, p, 0));
      var u := After(s, PassActions(s, p, names));
      assert u.procs == s.procs[p := s.procs[p].(pc := PassResult(s, p, names))];
    }
  }

  /** A step of p inside acquire_lock. */
  predicate By(a: Action, p: Pid) {
    && (a.BeginScan? || a.Inspect? || a.Judge? || a.Reap? || a.EndScan? || a.TryOpen? || a.Write? || a.GiveUp?)
    && a.p == p
  }

  lemma {:induction false} ScanIsBy(s: State, p: Pid, names: seq<string>)
    ensures forall a | a in ScanActions(s, p, Acquire(0), names) :: By(a, p)
    decreases |names|
  {
    if names != [] { ScanIsBy(s, p, names[1..]); }
  }

  lemma {:induction false} ClaimIsBy(s: State, p: Pid, slot: nat)
    requires p in s.procs && slot <= s.procs[p].maxHolders
    ensures forall a | a in ClaimActions(s, p, slot) :: By(a, p)
    decreases s.procs[p].maxHolders - slot
  {
    hide SlotName;
    if slot < s.procs[p].maxHolders && PathOf(s.procs[p], slot) in s.dir { ClaimIsBy(s, p, slot + 1); }
  }

  /** A lone pass consists of the process's own steps. */
  lemma PassIsBy(s: State, p: Pid, names: seq<string>)
    requires p in s.procs
    ensures forall a | a in PassActions(s, p, names) :: By(a, p)
  {
    ScanIsBy(s, p, names);
    ClaimIsBy(Goto(s.(dir := Reaped(s, names)), p, Claiming(0)), p, 0);
  }

  // ---------------------------------------------------------------------------------------------
  // When the pass succeeds
  // ---------------------------------------------------------------------------------------------

  /** The matching entries a scan leaves in place: live records and files without a valid record. */
  function Remaining(s: State, names: seq<string>): set<string> {
    set n | n in names && !DeadRecord(s, n)
  }

  lemma {:induction false} LiveCountIsSmall(s: State, names: seq<string>)
    requires Distinct(names)
    ensures LiveCount(s, names) <= |Remaining(s, names)|
    decreases |names|
  {
    if names != [] {
      var rest := names[1..];
      LiveCountIsSmall(s, rest);
      assert forall n | n in rest :: n in names;
      assert names[0] !in rest;
      assert Remaining(s, rest) <= Remaining(s, names);
      if !DeadRecord(s, names[0]) {
        assert Remaining(s, names) == Remaining(s, rest) + {names[0]};
      } else {
        assert Remaining(s, names) == Remaining(s, rest);
      }
    }
  }

  /** Solo progress: with fewer live or unsigned matching files than slots, a lone pass succeeds. */
  lemma SoloProgress(s: State, p: Pid, names: seq<string>)
    requires Live(s, p) && s.procs[p].pc.Top? && s.procs[p].timeout != 0 && Lists(s, p, names)
    requires |Remaining(s, names)| < s.procs[p].maxHolders
    ensures Runs(s, PassActions(s, p, names)) && forall a | a in PassActions(s, p, names) :: By(a, p)
    ensures var t := After(s, PassActions(s, p, names));
            && Live(t, p) && t.procs[p].pc.Holding?
            && t.procs[p].pc.slot < s.procs[p].maxHolders
            && PathOf(s.procs[p], t.procs[p].pc.slot) !in Reaped(s, names)
            && forall j | 0 <= j < t.procs[p].pc.slot :: PathOf(s.procs[p], j) in Reaped(s, names)
  {
    var proc := s.procs[p];
    PassAlone(s, p, names);
    PassIsBy(s, p, names);
    LiveCountIsSmall(s, names);
    FirstFreeIsLeast(Reaped(s, names), proc.descriptor, 0, proc.maxHolders);
    var k := FirstFree(Reaped(s, names), proc.descriptor, 0, proc.maxHolders);
    if k == proc.maxHolders {
      forall j | 0 <= j < proc.maxHolders ensures SlotName(proc.descriptor, j) in Remaining(s, names) {
        assert SlotName(proc.descriptor, j) in Reaped(s, names);
        SlotNameIsScanned(proc.descriptor, j);
      }
      FullSlotsAreMany(proc.descriptor, proc.maxHolders, Remaining(s, names));
    }
  }

  /** The exact condition: a lone pass ends holding a slot if and only if live records leave room and
      some slot name below the limit is absent after reaping. */
  lemma LonePassSucceedsExactly(s: State, p: Pid, names: seq<string>)
    requires Live(s, p) && s.procs[p].pc.Top? && s.procs[p].timeout != 0 && Lists(s, p, names)
    ensures Runs(s, PassActions(s, p, names)) && p in After(s, PassActions(s, p, names)).procs
    ensures After(s, PassActions(s, p, names)).procs[p].pc.Holding? <==>
      && LiveCount(s, names) < s.procs[p].maxHolders
      && exists k | 0 <= k < s.procs[p].maxHolders :: PathOf(s.procs[p], k) !in Reaped(s, names)
  {
    PassAlone(s, p, names);
    FirstFreeIsLeast(Reaped(s, names), s.procs[p].descriptor, 0, s.procs[p].maxHolders);
  }
}
