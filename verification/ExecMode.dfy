/** exec_with_lock and signal_handler on top of the lock protocol: a parent acquires, forks a command,
    waits for it and only then releases (src/process/process.c:132-241, src/signal/signal.c:11-39). */
module ExecMode {
  import opened Basics
  import opened CText
  import opened Names
  import opened LockProtocol

  /** What a parent has forked. `recorded` says that g_state.child_pid is set, `exited` that the
      command has ended but waitpid has not returned it yet. */
  datatype Child = Child(descriptor: string, exited: bool, recorded: bool) | Collected

  datatype XState = XState(base: State, children: map<Pid, Child>)

  datatype XAction =
    | Base(action: Action)
    | Fork(p: Pid)
    | Record(p: Pid)
    | Signal(p: Pid)
    | CommandEnds(p: Pid)
    | Collect(p: Pid)
    | WaitFails(p: Pid)  // waitpid fails for a reason other than EINTR

  predicate HasChild(x: XState, p: Pid) {
    p in x.children && x.children[p].Child?
  }

  predicate HoldsSlot(x: XState, p: Pid) {
    Live(x.base, p) && x.base.procs[p].pc.Holding?
  }

  predicate XEnabled(x: XState, a: XAction) {
    match a
    case Base(action) => Enabled(x.base, action) && (action.Release? ==> !HasChild(x, action.p))
    case Fork(p) => HoldsSlot(x, p) && p !in x.children
    case Record(p) => Live(x.base, p) && HasChild(x, p) && !x.children[p].recorded
    case Signal(p) => Live(x.base, p)
    case CommandEnds(p) => HasChild(x, p) && !x.children[p].exited
    case Collect(p) => Live(x.base, p) && HasChild(x, p) && x.children[p].exited && x.children[p].recorded
    case WaitFails(p) => HoldsSlot(x, p) && HasChild(x, p) && x.children[p].recorded
  }

  /** signal_handler: with child_pid set the signal is only forwarded; otherwise the default action
      is restored and raised, which ends the process without release_lock. */
  predicate Forwarded(x: XState, p: Pid) {
    HasChild(x, p) && x.children[p].recorded
  }

  /** The protocol step inside a step of the composition, if there is one. */
  function BaseAction(x: XState, a: XAction): Option<Action> {
    match a
    case Base(action) => Some(action)
    case Signal(p) => if Forwarded(x, p) then None else Some(Die(p))
    case WaitFails(p) => Some(Release(p))
    case _ => None
  }

  function XNext(x: XState, a: XAction): XState
    requires XEnabled(x, a)
  {
    var base := match BaseAction(x, a) case Some(action) => Next(x.base, action) case None => x.base;
    match a
    case Base(action) => XState(base, if action.Release? then x.children - {action.p} else x.children)
    case Fork(p) => XState(base, x.children[p := Child(x.base.procs[p].descriptor, false, false)])
    case Record(p) => XState(base, x.children[p := x.children[p].(recorded := true)])
    case Signal(_) => XState(base, x.children)
    case CommandEnds(p) => XState(base, x.children[p := x.children[p].(exited := true)])
    case Collect(p) => XState(base, x.children[p := Collected])
    case WaitFails(_) => XState(base, x.children)
  }

  predicate XRuns(x: XState, actions: seq<XAction>)
    decreases |actions|
  {
    actions == [] || (XEnabled(x, actions[0]) && XRuns(XNext(x, actions[0]), actions[1..]))
  }

  function XAfter(x: XState, actions: seq<XAction>): XState
    requires XRuns(x, actions)
    decreases |actions|
  {
    if actions == [] then x else XAfter(XNext(x, actions[0]), actions[1..])
  }

  // ---------------------------------------------------------------------------------------------
  // The invariant of the composition
  // ---------------------------------------------------------------------------------------------

  /** A forked command that is not collected has a live parent that still holds its slot. */
  ghost predicate ParentsHold(x: XState) {
    forall p | HasChild(x, p) :: HoldsSlot(x, p) && x.base.procs[p].descriptor == x.children[p].descriptor
  }

  ghost predicate XInv(x: XState) {
    Inv(x.base) && Fresh(x.base) && ParentsHold(x)
  }

  /** The three events that separate a command from its lock. */
  predicate Separates(x: XState, a: XAction) {
    match a
    case Base(action) => action.Die? && HasChild(x, action.p)
    case Signal(p) => HasChild(x, p) && !x.children[p].recorded
    case WaitFails(_) => true
    case _ => false
  }

  ghost predicate XDiscipline(x: XState, a: XAction) {
    match BaseAction(x, a)
    case Some(action) => StepDiscipline(x.base, action)
    case None => true
  }

  lemma BaseEnabled(x: XState, a: XAction)
    requires XEnabled(x, a) && BaseAction(x, a).Some?
    ensures Enabled(x.base, BaseAction(x, a).value)
  {}

  lemma BasePart(x: XState, a: XAction)
    requires XInv(x) && XEnabled(x, a) && XDiscipline(x, a)
    ensures Inv(XNext(x, a).base) && Fresh(XNext(x, a).base)
  {
    hide Next, Enabled, Inv, Fresh, StepDiscipline, ParentsHold;
    if BaseAction(x, a).Some? {
      BaseEnabled(x, a);
      DisciplinedStep(x.base, BaseAction(x, a).value);
    }
  }

  lemma ParentsPart(x: XState, a: XAction, p: Pid)
    requires ParentsHold(x) && XEnabled(x, a) && !Separates(x, a) && HasChild(XNext(x, a), p)
    ensures HoldsSlot(XNext(x, a), p) && XNext(x, a).base.procs[p].descriptor == XNext(x, a).children[p].descriptor
  {
    hide Next, Enabled, SlotName, Matches;
    if a.Fork? {
    } else {
      assert HasChild(x, p);
      if BaseAction(x, a).Some? {
        BaseEnabled(x, a);
        HolderStep(x.base, BaseAction(x, a).value, p);
      }
    }
  }

  lemma SeparationBreaks(x: XState, a: XAction)
    requires XInv(x) && XEnabled(x, a) && Separates(x, a)
    ensures !ParentsHold(XNext(x, a))
  {
    hide SlotName, Matches, Inv, Fresh;
    var p := if a.Base? then a.action.p else a.p;
    assert HasChild(x, p);
    assert HasChild(XNext(x, a), p);
    assert !HoldsSlot(XNext(x, a), p);
  }

  /** A step keeps every running command under its lock exactly when it is not a forced kill of a
      parent, a signal before child_pid is set, or a waitpid failure other than EINTR. */
  lemma CommandSafetyIsExact(x: XState, a: XAction)
    requires XInv(x) && XEnabled(x, a) && XDiscipline(x, a)
    ensures XInv(XNext(x, a)) <==> !Separates(x, a)
  {
    hide Next, Enabled, Inv, Fresh, XEnabled, XNext;
    if Separates(x, a) {
      SeparationBreaks(x, a);
    } else {
      BasePart(x, a);
      forall p | HasChild(XNext(x, a), p)
        ensures HoldsSlot(XNext(x, a), p) && XNext(x, a).base.procs[p].descriptor == XNext(x, a).children[p].descriptor
      {
        ParentsPart(x, a, p);
      }
    }
  }

  // ---------------------------------------------------------------------------------------------
  // Runs
  // ---------------------------------------------------------------------------------------------

  /** Every step keeps to the protocol's granularity assumptions. */
  ghost predicate XGranular(x: XState, actions: seq<XAction>)
    requires XRuns(x, actions)
    decreases |actions|
  {
    actions != [] ==> XDiscipline(x, actions[0]) && XGranular(XNext(x, actions[0]), actions[1..])
  }

  /** No step separates a command from its lock. */
  predicate Inseparable(x: XState, actions: seq<XAction>)
    requires XRuns(x, actions)
    decreases |actions|
  {
    actions != [] ==> !Separates(x, actions[0]) && Inseparable(XNext(x, actions[0]), actions[1..])
  }

  ghost predicate XInvThroughout(x: XState, actions: seq<XAction>)
    requires XRuns(x, actions)
    decreases |actions|
  {
    XInv(x) && (actions != [] ==> XInvThroughout(XNext(x, actions[0]), actions[1..]))
  }

  /** A run keeps every command under its lock throughout exactly when none of its steps is one of the
      three that separate them. */
  lemma {:induction false} CommandRunIsExact(x: XState, actions: seq<XAction>)
    requires XInv(x) && XRuns(x, actions) && XGranular(x, actions)
    ensures XInvThroughout(x, actions) <==> Inseparable(x, actions)
    decreases |actions|
  {
    hide XInv, XNext, XEnabled, XDiscipline, Separates;
    if actions != [] {
      CommandSafetyIsExact(x, actions[0]);
      if XInv(XNext(x, actions[0])) { CommandRunIsExact(XNext(x, actions[0]), actions[1..]); }
    }
  }

  lemma {:induction false} ThroughoutMeansAtEnd(x: XState, actions: seq<XAction>)
    requires XRuns(x, actions) && XInvThroughout(x, actions)
    ensures XInv(XAfter(x, actions))
    decreases |actions|
  {
    hide XInv, XNext, XEnabled;
    if actions != [] { ThroughoutMeansAtEnd(XNext(x, actions[0]), actions[1..]); }
  }

  lemma XRunKeepsInv(x: XState, actions: seq<XAction>)
    requires XInv(x) && XRuns(x, actions) && XGranular(x, actions) && Inseparable(x, actions)
    ensures XInv(XAfter(x, actions))
  {
    CommandRunIsExact(x, actions);
    ThroughoutMeansAtEnd(x, actions);
  }

  function RunningCommands(x: XState, descriptor: string): set<Pid> {
    set p | p in x.children && x.children[p].Child? && !x.children[p].exited && x.children[p].descriptor == descriptor
  }

  /** A command runs from its fork until it ends, whatever happens to its parent. */
  lemma CommandsRunUntilTheyEnd(x: XState, a: XAction, descriptor: string)
    requires XEnabled(x, a) && (a.Base? ==> !(a.action.Release? && HasChild(x, a.action.p)))
    ensures RunningCommands(XNext(x, a), descriptor)
         == match a
            case Fork(p) =>
              RunningCommands(x, descriptor) + if x.base.procs[p].descriptor == descriptor then {p} else {}
            case CommandEnds(p) => RunningCommands(x, descriptor) - {p}
            case _ => RunningCommands(x, descriptor)
  {
    hide Next, Enabled, SlotName, Matches;
  }

  /** Never more exec'd commands of a descriptor at once than the largest limit in use, and until a
      command is collected its parent's lock file is in the directory with the parent's record. */
  lemma CommandsAreBounded(x: XState, actions: seq<XAction>, descriptor: string, limit: nat)
    requires Initial(x.base) && x.children == map[]
    requires XRuns(x, actions) && XGranular(x, actions) && Inseparable(x, actions)
    requires forall p | Holds(XAfter(x, actions).base, p, descriptor) ::
      XAfter(x, actions).base.procs[p].maxHolders <= limit
    ensures |RunningCommands(XAfter(x, actions), descriptor)| <= limit
    ensures var y := XAfter(x, actions);
            forall p: Pid | HasChild(y, p) ::
              && p in y.base.procs && y.base.procs[p].pc.Holding?
              && var proc := y.base.procs[p]; var name := PathOf(proc, proc.pc.slot);
                 name in y.base.dir && y.base.dir[name] == Signed(p, proc)
  {
    InitialInv(x.base);
    XRunKeepsInv(x, actions);
    var y := XAfter(x, actions);
    HoldersAreBounded(y.base, descriptor, limit);
    var running, holders := RunningCommands(y, descriptor), Holders(y.base, descriptor);
    forall p | p in running ensures p in holders {
      assert HasChild(y, p);
    }
    SubsetIsSmaller(running, holders);
    forall p: Pid | HasChild(y, p) ensures FilePresent(y.base, p) {}
  }
}
