/** exec_with_lock and signal_handler as one process runs them (src/process/process.c:132-241,
    src/signal/signal.c:11-39), on top of the sequential lock operations, and their steps as a run of
    the composition in ExecMode. */
module ExecCommand {
  import opened Basics
  import opened CText
  import opened Names
  import opened LockRecord
  import opened LockDirectory
  import P = LockProtocol
  import X = ExecMode

  /** What waitpid reports: the command ended, or the call failed. An interruption comes from a
      handled signal; the two flags say whether the command is found alive before and after the
      one-second grace period. */
  datatype WaitAnswer =
    | Exited(status: nat)
    | Killed(signal: nat)
    | Odd
    | Interrupted(signal: nat, alive: bool, stillAlive: bool)
    | WaitError

  /** What happens to the command and to the lock after the acquire. */
  datatype Event = Started(pid: int) | Forwarded(signal: nat) | Terminated | KilledHard | Collected | Released

  /** The answers begin with interruptions and go on to something final. */
  predicate Ends(waits: seq<WaitAnswer>) {
    waits != [] && (!waits[0].Interrupted? || Ends(waits[1..]))
  }

  function Final(waits: seq<WaitAnswer>): (a: WaitAnswer)
    requires Ends(waits)
    ensures !a.Interrupted?
  {
    if waits[0].Interrupted? then Final(waits[1..]) else waits[0]
  }

  /** One interruption: the handler forwards the signal, the loop presses the command to end. */
  function Pressing(a: WaitAnswer): seq<Event>
    requires a.Interrupted?
  {
    [Forwarded(a.signal)] + if !a.alive then [] else if a.stillAlive then [Terminated, KilledHard] else [Terminated]
  }

  function PressingAll(waits: seq<WaitAnswer>): seq<Event>
    requires Ends(waits)
  {
    if waits[0].Interrupted? then Pressing(waits[0]) + PressingAll(waits[1..]) else []
  }

  lemma EndsNotEmpty(waits: seq<WaitAnswer>)
    requires Ends(waits)
    ensures waits != []
  {}

  lemma OneWait(waits: seq<WaitAnswer>, i: nat, events: seq<Event>)
    requires i < |waits| && Ends(waits[i..]) && waits[i].Interrupted?
    ensures i + 1 < |waits| && Ends(waits[i + 1..]) && Final(waits[i..]) == Final(waits[i + 1..])
    ensures events + PressingAll(waits[i..]) == events + Pressing(waits[i]) + PressingAll(waits[i + 1..])
  {
    assert waits[i..][1..] == waits[i + 1..];
  }

  lemma FinalHere(waits: seq<WaitAnswer>, i: nat)
    requires i < |waits| && Ends(waits[i..]) && !waits[i].Interrupted?
    ensures Final(waits[i..]) == waits[i] && PressingAll(waits[i..]) == []
  {}

  lemma {:induction false} PressingNeverReleases(waits: seq<WaitAnswer>)
    requires Ends(waits)
    ensures Released !in PressingAll(waits) && Collected !in PressingAll(waits)
  {
    if waits[0].Interrupted? { PressingNeverReleases(waits[1..]); }
  }

  /** What one interruption causes, event by event. */
  lemma PressingIsExact(a: WaitAnswer)
    requires a.Interrupted?
    ensures var events := Pressing(a);
            && events[0] == Forwarded(a.signal)
            && |events| == 1 + (if a.alive then 1 else 0) + (if a.alive && a.stillAlive then 1 else 0)
            && (a.alive ==> events[1] == Terminated) && (a.alive && a.stillAlive ==> events[2] == KilledHard)
  {}

  /** The signals that reach a parent while it waits. */
  function Signals(waits: seq<WaitAnswer>): seq<nat>
    requires Ends(waits)
  {
    if waits[0].Interrupted? then [waits[0].signal] + Signals(waits[1..]) else []
  }

  function ForwardedIn(events: seq<Event>): seq<nat> {
    if events == [] then []
    else (if events[0].Forwarded? then [events[0].signal] else []) + ForwardedIn(events[1..])
  }

  lemma {:induction false} ForwardedAppend(a: seq<Event>, b: seq<Event>)
    ensures ForwardedIn(a + b) == ForwardedIn(a) + ForwardedIn(b)
  {
    if a == [] {
      assert a + b == b;
    } else {
      assert (a + b)[0] == a[0] && (a + b)[1..] == a[1..] + b;
      ForwardedAppend(a[1..], b);
    }
  }

  lemma ForwardedOnce(a: WaitAnswer)
    requires a.Interrupted?
    ensures ForwardedIn(Pressing(a)) == [a.signal]
  {
    var first: seq<Event> := [Forwarded(a.signal)];
    var rest := if !a.alive then [] else if a.stillAlive then [Terminated, KilledHard] else [Terminated];
    ForwardedAppend(first, rest);
    assert first[1..] == [] && [Terminated][1..] == [] && [Terminated, KilledHard][1..] == [KilledHard];
    assert [KilledHard][1..] == [];
  }

  /** Every signal that reaches the waiting parent is forwarded to the command, once and in order. */
  lemma {:induction false} SignalsAreForwarded(waits: seq<WaitAnswer>)
    requires Ends(waits)
    ensures ForwardedIn(PressingAll(waits)) == Signals(waits)
  {
    hide Pressing;
    if waits[0].Interrupted? {
      SignalsAreForwarded(waits[1..]);
      ForwardedAppend(Pressing(waits[0]), PressingAll(waits[1..]));
      ForwardedOnce(waits[0]);
    }
  }

  /** The exit code of exec_with_lock for a final answer. */
  function ExitOf(a: WaitAnswer): int {
    match a
    case Exited(status) => status
    case Killed(signal) => 128 + signal
    case _ => 4
  }

  /** Exit codes of src/waitlock.h:78-88; -1 stands for a run that was cut off. */
  function ExitCode(code: Code): int {
    match code
    case Success => 0
    case Busy => 1
    case TimedOut => 2
    case SystemError => 4
    case NotFound => 127
    case StillWaiting => -1
  }

  /** A call without a deadline that found all places taken. */
  predicate IsBusy(descriptor: string, limit: nat, timeout: real, visits: seq<Visit>, attempts: seq<Attempt>)
    requires |attempts| <= |visits|
  {
    timeout < 0.0 && attempts != [] && visits[|attempts| - 1].Result(descriptor, limit) == Full
  }

  /** A call that was told to exit after a pass that neither claimed a slot nor ended it otherwise. */
  predicate IsStopped(descriptor: string, limit: nat, timeout: real, visits: seq<Visit>, attempts: seq<Attempt>)
    requires |attempts| <= |visits|
  {
    && attempts != [] && visits[|attempts| - 1].shouldExit
    && !visits[|attempts| - 1].Result(descriptor, limit).Claimed?
    && !(0.0 <= timeout <= attempts[|attempts| - 1].done) && !IsBusy(descriptor, limit, timeout, visits, attempts)
  }

  class Runner {
    const locker: Locker
    var childPid: int
    var shouldExit: bool
    var receivedSignal: nat
    var cleanupNeeded: bool

    constructor (locker: Locker)
      ensures this.locker == locker && childPid == 0 && !shouldExit && !cleanupNeeded
    {
      this.locker := locker;
      childPid, shouldExit, receivedSignal, cleanupNeeded := 0, false, 0, false;
    }

    /** signal_handler. With a child the signal is only forwarded; without one the descriptor is closed
        and the default action raised, which ends the process. The lock file stays either way. */
    method SignalHandler(signal: nat) returns (forwarded: bool)
      modifies this, locker`lockFd
      ensures childPid == old(childPid) && shouldExit && receivedSignal == signal
      ensures forwarded <==> childPid > 0
      ensures forwarded ==> locker.lockFd == old(locker.lockFd) && cleanupNeeded == old(cleanupNeeded)
      ensures !forwarded ==> locker.lockFd == old(if locker.lockFd >= 0 then -1 else locker.lockFd) && cleanupNeeded
    {
      if childPid > 0 {
        shouldExit, receivedSignal := true, signal;
        return true;
      }
      shouldExit, receivedSignal := true, signal;
      if locker.lockFd >= 0 { locker.lockFd := -1; }
      cleanupNeeded := true;
      forwarded := false;
    }

    /** The waitpid loop: every interruption is forwarded and pressed on, nothing is released. */
    method AwaitChild(waits: seq<WaitAnswer>) returns (last: WaitAnswer, events: seq<Event>)
      requires childPid > 0 && Ends(waits)
      modifies this, locker`lockFd
      ensures last == Final(waits) && events == PressingAll(waits)
      ensures childPid == old(childPid) && locker.lockFd == old(locker.lockFd)
      ensures shouldExit <==> old(shouldExit) || waits[0].Interrupted?
    {
      hide Ends, Final, PressingAll;
      events := [];
      var i := 0;
      assert waits[0..] == waits;
      EndsNotEmpty(waits);
      while waits[i].Interrupted?
        invariant i < |waits| && Ends(waits[i..])
        invariant Final(waits[i..]) == Final(waits)
        invariant events + PressingAll(waits[i..]) == PressingAll(waits)
        invariant childPid == old(childPid) && locker.lockFd == old(locker.lockFd)
        invariant shouldExit <==> old(shouldExit) || i > 0
        invariant i > 0 ==> waits[0].Interrupted?
        decreases |waits| - i
      {
        var forwarded := SignalHandler(waits[i].signal);
        var pressed := [Forwarded(waits[i].signal)];
        if shouldExit && waits[i].alive {
          pressed := pressed + [Terminated];
          if waits[i].stillAlive { pressed := pressed + [KilledHard]; }
        }
        OneWait(waits, i, events);
        events := events + pressed;
        i := i + 1;
      }
      FinalHere(waits, i);
      last := waits[i];
    }

    /** exec_with_lock. `pid` is what fork() returns to the parent. Once the lock is acquired every
        path gives it back exactly once, as its last act, and after the command has been reaped unless
        the fork or waitpid failed; the command learns the slot its parent holds. */
    method ExecWithLock(directory: string, descriptor: string, limit: nat, timeout: real, who: Holder,
                        visits: seq<Visit>, pid: int, waits: seq<WaitAnswer>)
      returns (code: int, last: nat, events: seq<Event>, slotVariable: Exported, ghost attempts: seq<Attempt>)
      requires visits != [] && (forall i | 0 <= i < |visits| :: visits[i].Valid()) && Ends(waits)
      requires childPid == 0 && pid != 0
      modifies this, locker
      ensures childPid == 0
      ensures |attempts| <= |visits| && last == (if attempts == [] then 0 else |attempts| - 1)
      ensures events == [] ==> locker.lockName == old(locker.lockName)
      ensures events == [] <==> attempts == [] || !visits[last].Result(descriptor, limit).Claimed?
      ensures events == [] ==> code == 1 || code == 2 || code == 4 || code == -1
      ensures events == [] ==> (code == 1 <==> IsBusy(descriptor, limit, timeout, visits, attempts))
      ensures events == [] ==> (code == 4 <==> IsStopped(descriptor, limit, timeout, visits, attempts))
      ensures events == [] && code == 2 ==> timeout >= 0.0
      ensures events == [] && timeout == 0.0 ==> code == 2
      ensures events == [] && timeout > 0.0 ==> attempts != [] && (attempts[last].done >= timeout ==> code == 2)
      ensures events == [] && code == -1 ==> |attempts| == |visits| && !visits[last].shouldExit
      ensures events != [] ==>
        && last < |visits| && visits[last].Result(descriptor, limit).Claimed?
        && locker.lockName == "" && locker.files == Reaped(visits[last].files, descriptor, visits[last].alive)
        && events[|events| - 1] == Released && Released !in events[..|events| - 1]
      ensures events != [] ==>
        if pid < 0 then code == 4 && events == [Released]
        else if Final(waits).WaitError? then code == 4 && events == [Started(pid)] + PressingAll(waits) + [Released]
        else code == ExitOf(Final(waits)) && events == [Started(pid)] + PressingAll(waits) + [Collected, Released]
      ensures events != [] && pid > 0 ==>
        match Final(waits)
        case Exited(status) => code == status
        case Killed(signal) => code == 128 + signal
        case _ => code == 4
      ensures events != [] && pid > 0 && limit > 1 && !Contains(directory + "/" + descriptor, SLOT_MARK)
          ==> slotVariable == Exported(visits[last].Result(descriptor, limit).slot)
      ensures limit <= 1 ==> slotVariable == Unset
    {
      hide Enumerates, LiveNames, FirstClaimable, RecordsHolder, Prepare, Reaped, LockFor, SlotOfPath,
        PressingAll, Final, SlotName, PassOutcome, PassFiles, Paced;
      events, slotVariable := [], Unset;
      var acquired, passes, clock;
      acquired, passes, clock, attempts := locker.AcquireLock(descriptor, limit, timeout, who, visits);
      last := if passes > 0 then passes - 1 else 0;
      if acquired != Success {
        code := ExitCode(acquired);
        return;
      }
      ReleaseUndoesPass(visits[last], descriptor, limit, Prepare(descriptor, limit, who));
      SlotNameIsNotEmpty(descriptor, visits[last].Result(descriptor, limit).slot);
      if pid < 0 {
        locker.ReleaseLock();
        return 4, last, [Released], slotVariable, attempts;
      }
      if limit > 1 {
        slotVariable := SlotOfPath(directory + "/" + locker.lockName);
        ExportedSlotIsHeld(directory, descriptor, visits[last].Result(descriptor, limit).slot, locker.lockName);
      }
      childPid := pid;
      var answer, pressed := AwaitChild(waits);
      PressingNeverReleases(waits);
      childPid := 0;
      locker.ReleaseLock();
      if answer.WaitError? {
        code, events := 4, [Started(pid)] + pressed + [Released];
      } else {
        code, events := ExitOf(answer), [Started(pid)] + pressed + [Collected, Released];
      }
    }
  }

  lemma ExportedSlotIsHeld(directory: string, descriptor: string, slot: nat, name: string)
    requires name == SlotName(descriptor, slot)
    ensures !Contains(directory + "/" + descriptor, SLOT_MARK) ==> SlotOfPath(directory + "/" + name) == Exported(slot)
  {
    if !Contains(directory + "/" + descriptor, SLOT_MARK) { SlotRecovered(directory, descriptor, slot); }
  }

  // ---------------------------------------------------------------------------------------------
  // The same call among the steps of other processes
  // ---------------------------------------------------------------------------------------------

  /** What exec_with_lock does from the fork on, and the signals that reach it meanwhile. */
  function AwaitSteps(p: P.Pid, waits: seq<WaitAnswer>): seq<X.XAction>
    requires Ends(waits)
  {
    if waits[0].Interrupted? then [X.Signal(p)] + AwaitSteps(p, waits[1..])
    else if waits[0].WaitError? then [X.WaitFails(p)]
    else [X.Collect(p), X.Base(P.Release(p))]
  }

  function ExecSteps(p: P.Pid, waits: seq<WaitAnswer>): seq<X.XAction>
    requires Ends(waits)
  {
    [X.Fork(p), X.Record(p)] + AwaitSteps(p, waits)
  }

  /** A step that the parent p takes or suffers. That its command ends is the command's doing. */
  predicate Own(a: X.XAction, p: P.Pid) {
    match a
    case Base(action) => action.p == p
    case Fork(q) => q == p
    case Record(q) => q == p
    case Signal(q) => q == p
    case Collect(q) => q == p
    case WaitFails(q) => q == p
    case CommandEnds(_) => false
  }

  function OwnSteps(actions: seq<X.XAction>, p: P.Pid): seq<X.XAction> {
    if actions == [] then []
    else (if Own(actions[0], p) then [actions[0]] else []) + OwnSteps(actions[1..], p)
  }

  /** No step of anybody else separates a command from its lock. */
  predicate OthersInseparable(x: X.XState, actions: seq<X.XAction>, p: P.Pid)
    requires X.XRuns(x, actions)
    decreases |actions|
  {
    actions != [] ==>
      && (Own(actions[0], p) || !X.Separates(x, actions[0]))
      && OthersInseparable(X.XNext(x, actions[0]), actions[1..], p)
  }

  /** What the two states say about p is the same, but for whether its command has ended. */
  predicate SameFor(x: X.XState, y: X.XState, p: P.Pid) {
    && (p in x.base.procs <==> p in y.base.procs)
    && (p in x.base.procs ==> x.base.procs[p] == y.base.procs[p])
    && (p in x.children <==> p in y.children)
    && (p in x.children ==> x.children[p].Child? == y.children[p].Child?)
    && (X.HasChild(x, p) ==> x.children[p].recorded == y.children[p].recorded)
  }

  lemma BystanderStep(x: X.XState, a: X.XAction, p: P.Pid)
    requires X.XEnabled(x, a) && !Own(a, p)
    ensures SameFor(x, X.XNext(x, a), p)
  {
    hide P.Next, P.Enabled;
    if X.BaseAction(x, a).Some? {
      BaseIsNotOwn(x, a, p);
      X.BaseEnabled(x, a);
      P.OthersStay(x.base, X.BaseAction(x, a).value, p);
    }
  }

  lemma BaseIsNotOwn(x: X.XState, a: X.XAction, p: P.Pid)
    requires X.XEnabled(x, a) && !Own(a, p) && X.BaseAction(x, a).Some?
    ensures X.BaseAction(x, a).value.p != p
  {}

  predicate Awaits(x: X.XState, p: P.Pid) {
    X.HoldsSlot(x, p) && X.Forwarded(x, p)
  }

  predicate HasCollected(x: X.XState, p: P.Pid) {
    X.HoldsSlot(x, p) && p in x.children && x.children[p].Collected?
  }

  /** The lock is given back. */
  predicate IsBack(x: X.XState, p: P.Pid) {
    P.Live(x.base, p) && x.base.procs[p].pc.Outside?
  }

  lemma FirstOwn(actions: seq<X.XAction>, p: P.Pid, steps: seq<X.XAction>)
    requires OwnSteps(actions, p) == steps && steps != []
    ensures actions != []
    ensures Own(actions[0], p) ==> actions[0] == steps[0] && OwnSteps(actions[1..], p) == steps[1..]
    ensures !Own(actions[0], p) ==> OwnSteps(actions[1..], p) == steps
  {}

  lemma {:induction false} BackForGood(x: X.XState, actions: seq<X.XAction>, p: P.Pid)
    requires X.XRuns(x, actions) && OthersInseparable(x, actions, p) && OwnSteps(actions, p) == [] && IsBack(x, p)
    ensures X.Inseparable(x, actions) && IsBack(X.XAfter(x, actions), p)
    decreases |actions|
  {
    hide X.XNext, X.XEnabled, X.Separates;
    if actions != [] {
      BystanderStep(x, actions[0], p);
      BackForGood(X.XNext(x, actions[0]), actions[1..], p);
    }
  }

  lemma ReleaseStep(x: X.XState, p: P.Pid)
    requires X.XEnabled(x, X.Base(P.Release(p)))
    ensures IsBack(X.XNext(x, X.Base(P.Release(p))), p) && !X.Separates(x, X.Base(P.Release(p)))
  {
    hide SlotName;
  }

  lemma {:induction false} ReleaseAmongOthers(x: X.XState, actions: seq<X.XAction>, p: P.Pid)
    requires X.XRuns(x, actions) && OthersInseparable(x, actions, p)
    requires OwnSteps(actions, p) == [X.Base(P.Release(p))] && HasCollected(x, p)
    ensures X.Inseparable(x, actions) && IsBack(X.XAfter(x, actions), p)
    decreases |actions|
  {
    hide X.XNext, X.XEnabled, X.Separates;
    FirstOwn(actions, p, [X.Base(P.Release(p))]);
    var a := actions[0];
    if Own(a, p) {
      ReleaseStep(x, p);
      BackForGood(X.XNext(x, a), actions[1..], p);
    } else {
      BystanderStep(x, a, p);
      ReleaseAmongOthers(X.XNext(x, a), actions[1..], p);
    }
  }

  lemma SignalStep(x: X.XState, p: P.Pid)
    requires Awaits(x, p) && X.XEnabled(x, X.Signal(p))
    ensures X.XNext(x, X.Signal(p)) == x && !X.Separates(x, X.Signal(p))
  {}

  lemma CollectStep(x: X.XState, p: P.Pid)
    requires Awaits(x, p) && X.XEnabled(x, X.Collect(p))
    ensures HasCollected(X.XNext(x, X.Collect(p)), p) && !X.Separates(x, X.Collect(p))
  {}

  lemma WaitFailsStep(x: X.XState, p: P.Pid)
    requires X.XEnabled(x, X.WaitFails(p))
    ensures IsBack(X.XNext(x, X.WaitFails(p)), p) && X.Separates(x, X.WaitFails(p))
  {
    hide SlotName;
  }

  lemma {:induction false} AwaitAmongOthers(x: X.XState, actions: seq<X.XAction>, p: P.Pid, waits: seq<WaitAnswer>)
    requires X.XRuns(x, actions) && OthersInseparable(x, actions, p)
    requires Ends(waits) && OwnSteps(actions, p) == AwaitSteps(p, waits) && Awaits(x, p)
    ensures X.Inseparable(x, actions) <==> !Final(waits).WaitError?
    ensures IsBack(X.XAfter(x, actions), p)
    decreases |actions|
  {
    hide X.XNext, X.XEnabled, X.Separates;
    FirstOwn(actions, p, AwaitSteps(p, waits));
    var a, rest := actions[0], actions[1..];
    if !Own(a, p) {
      BystanderStep(x, a, p);
      AwaitAmongOthers(X.XNext(x, a), rest, p, waits);
    } else if waits[0].Interrupted? {
      SignalStep(x, p);
      AwaitAmongOthers(x, rest, p, waits[1..]);
    } else if waits[0].WaitError? {
      WaitFailsStep(x, p);
      BackForGood(X.XNext(x, a), rest, p);
    } else {
      CollectStep(x, p);
      ReleaseAmongOthers(X.XNext(x, a), rest, p);
    }
  }

  predicate HasForked(x: X.XState, p: P.Pid) {
    X.HoldsSlot(x, p) && X.HasChild(x, p)
  }

  lemma ForkAndRecord(x: X.XState, p: P.Pid)
    ensures X.XEnabled(x, X.Fork(p)) ==> HasForked(X.XNext(x, X.Fork(p)), p) && !X.Separates(x, X.Fork(p))
    ensures HasForked(x, p) && X.XEnabled(x, X.Record(p)) ==>
      Awaits(X.XNext(x, X.Record(p)), p) && !X.Separates(x, X.Record(p))
  {}

  lemma {:induction false} RecordAmongOthers(x: X.XState, actions: seq<X.XAction>, p: P.Pid, waits: seq<WaitAnswer>)
    requires X.XRuns(x, actions) && OthersInseparable(x, actions, p) && HasForked(x, p)
    requires Ends(waits) && OwnSteps(actions, p) == [X.Record(p)] + AwaitSteps(p, waits)
    ensures X.Inseparable(x, actions) <==> !Final(waits).WaitError?
    ensures IsBack(X.XAfter(x, actions), p)
    decreases |actions|
  {
    hide X.XNext, X.XEnabled, X.Separates, AwaitSteps;
    FirstOwn(actions, p, [X.Record(p)] + AwaitSteps(p, waits));
    var a, rest := actions[0], actions[1..];
    if Own(a, p) {
      ForkAndRecord(x, p);
      AwaitAmongOthers(X.XNext(x, a), rest, p, waits);
    } else {
      BystanderStep(x, a, p);
      RecordAmongOthers(X.XNext(x, a), rest, p, waits);
    }
  }

  lemma {:induction false} ForkAmongOthers(x: X.XState, actions: seq<X.XAction>, p: P.Pid, waits: seq<WaitAnswer>)
    requires X.XRuns(x, actions) && OthersInseparable(x, actions, p)
    requires Ends(waits) && OwnSteps(actions, p) == ExecSteps(p, waits)
    ensures X.Inseparable(x, actions) <==> !Final(waits).WaitError?
    ensures IsBack(X.XAfter(x, actions), p)
    decreases |actions|
  {
    hide X.XNext, X.XEnabled, X.Separates, AwaitSteps;
    FirstOwn(actions, p, ExecSteps(p, waits));
    var a, rest := actions[0], actions[1..];
    if Own(a, p) {
      ForkAndRecord(x, p);
      assert ExecSteps(p, waits)[1..] == [X.Record(p)] + AwaitSteps(p, waits);
      RecordAmongOthers(X.XNext(x, a), rest, p, waits);
    } else {
      BystanderStep(x, a, p);
      ForkAmongOthers(X.XNext(x, a), rest, p, waits);
    }
  }

  /** However the steps of exec_with_lock are interleaved with those of any other processes, and
      whatever signals reach it while it waits: it ends with its lock given back, and every command stays
      under its lock throughout exactly when this call's waitpid does not fail. */
  lemma ExecIsDisciplinedExactly(x: X.XState, actions: seq<X.XAction>, p: P.Pid, waits: seq<WaitAnswer>)
    requires X.XInv(x) && X.XRuns(x, actions) && X.XGranular(x, actions) && OthersInseparable(x, actions, p)
    requires Ends(waits) && OwnSteps(actions, p) == ExecSteps(p, waits)
    ensures X.XInvThroughout(x, actions) <==> !Final(waits).WaitError?
    ensures IsBack(X.XAfter(x, actions), p)
  {
    hide X.XInv, X.XNext, X.XEnabled, ExecSteps;
    ForkAmongOthers(x, actions, p, waits);
    X.CommandRunIsExact(x, actions);
  }

  // ---------------------------------------------------------------------------------------------
  // Such runs exist
  // ---------------------------------------------------------------------------------------------

  lemma XStep(x: X.XState, a: X.XAction, rest: seq<X.XAction>, p: P.Pid)
    requires X.XEnabled(x, a) && X.XRuns(X.XNext(x, a), rest) && OthersInseparable(X.XNext(x, a), rest, p)
    requires Own(a, p) || !X.Separates(x, a)
    ensures X.XRuns(x, [a] + rest) && OthersInseparable(x, [a] + rest, p)
    ensures OwnSteps([a] + rest, p) == (if Own(a, p) then [a] else []) + OwnSteps(rest, p)
  {
    hide X.XEnabled, X.XNext, X.Separates;
    assert ([a] + rest)[0] == a && ([a] + rest)[1..] == rest;
  }

  lemma NoSteps(x: X.XState, p: P.Pid)
    ensures X.XRuns(x, []) && OthersInseparable(x, [], p) && OwnSteps([], p) == []
  {}

  lemma LastSteps(x: X.XState, p: P.Pid, answer: WaitAnswer) returns (actions: seq<X.XAction>)
    requires Awaits(x, p) && !x.children[p].exited && !answer.Interrupted?
    ensures X.XRuns(x, actions) && OthersInseparable(x, actions, p) && OwnSteps(actions, p) == AwaitSteps(p, [answer])
  {
    hide P.Next, SlotName;
    if answer.WaitError? {
      NoSteps(X.XNext(x, X.WaitFails(p)), p);
      XStep(x, X.WaitFails(p), [], p);
      return [X.WaitFails(p)] + [];
    }
    var a, b, c := X.CommandEnds(p), X.Collect(p), X.Base(P.Release(p));
    var y := X.XNext(x, a);
    var z := X.XNext(y, b);
    NoSteps(X.XNext(z, c), p);
    XStep(z, c, [], p);
    XStep(y, b, [c] + [], p);
    XStep(x, a, [b] + ([c] + []), p);
    actions := [a] + ([b] + ([c] + []));
  }

  lemma {:induction false} AwaitHasRuns(x: X.XState, p: P.Pid, waits: seq<WaitAnswer>) returns (actions: seq<X.XAction>)
    requires Awaits(x, p) && !x.children[p].exited && Ends(waits)
    ensures X.XRuns(x, actions) && OthersInseparable(x, actions, p) && OwnSteps(actions, p) == AwaitSteps(p, waits)
  {
    hide P.Next, X.XRuns, OthersInseparable, OwnSteps;
    if waits[0].Interrupted? {
      SignalStep(x, p);
      actions := AwaitHasRuns(x, p, waits[1..]);
      XStep(x, X.Signal(p), actions, p);
      actions := [X.Signal(p)] + actions;
    } else {
      actions := LastSteps(x, p, waits[0]);
    }
  }

  /** From every state in which p holds a slot and has no command, every sequence of answers of waitpid
      has a run. */
  lemma ExecHasRuns(x: X.XState, p: P.Pid, waits: seq<WaitAnswer>) returns (actions: seq<X.XAction>)
    requires X.HoldsSlot(x, p) && p !in x.children && Ends(waits)
    ensures X.XRuns(x, actions) && OthersInseparable(x, actions, p) && OwnSteps(actions, p) == ExecSteps(p, waits)
  {
    hide P.Next, X.XRuns, OthersInseparable, OwnSteps, AwaitSteps;
    var y := X.XNext(x, X.Fork(p));
    actions := AwaitHasRuns(X.XNext(y, X.Record(p)), p, waits);
    XStep(y, X.Record(p), actions, p);
    XStep(x, X.Fork(p), [X.Record(p)] + actions, p);
    actions := [X.Fork(p)] + ([X.Record(p)] + actions);
    assert [X.Fork(p)] + ([X.Record(p)] + AwaitSteps(p, waits)) == ExecSteps(p, waits);
  }
}
