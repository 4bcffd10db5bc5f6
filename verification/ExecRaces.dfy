/** The window between fork and the assignment of child_pid: a signal there kills the parent, leaves
    the command running, and lets the next process start a second command. */
module ExecRaces {
  import opened Basics
  import opened CText
  import opened Names
  import opened LockProtocol
  import opened LockProgress
  import opened LockRaces
  import opened ExecMode

  function Lift(actions: seq<Action>): seq<XAction> {
    if actions == [] then [] else [Base(actions[0])] + Lift(actions[1..])
  }

  /** Protocol steps of processes without a child are steps of the composition. */
  lemma {:induction false} LiftRuns(x: XState, actions: seq<Action>)
    requires Runs(x.base, actions) && forall a | a in actions :: !a.Release?
    ensures XRuns(x, Lift(actions)) && XAfter(x, Lift(actions)) == XState(After(x.base, actions), x.children)
    decreases |actions|
  {
    hide Next, Enabled;
    if actions != [] {
      var a := actions[0];
      assert a in actions;
      LiftRuns(XState(Next(x.base, a), x.children), actions[1..]);
      assert Lift(actions)[1..] == Lift(actions[1..]);
    }
  }

  lemma {:induction false} XRunsAppend(x: XState, xs: seq<XAction>, ys: seq<XAction>)
    requires XRuns(x, xs) && XRuns(XAfter(x, xs), ys)
    ensures XRuns(x, xs + ys) && XAfter(x, xs + ys) == XAfter(XAfter(x, xs), ys)
    decreases |xs|
  {
    hide XNext, XEnabled;
    if xs == [] {
      assert xs + ys == ys;
    } else {
      assert (xs + ys)[0] == xs[0] && (xs + ys)[1..] == xs[1..] + ys;
      XRunsAppend(XNext(x, xs[0]), xs[1..], ys);
    }
  }

  lemma XExtend(x: XState, xs: seq<XAction>, a: XAction, y: XState)
    requires XRuns(x, xs) && XEnabled(XAfter(x, xs), a) && XNext(XAfter(x, xs), a) == y
    ensures XRuns(x, xs + [a]) && XAfter(x, xs + [a]) == y
  {
    hide XNext, XEnabled;
    assert [a][1..] == [];
    assert XRuns(XNext(XAfter(x, xs), a), []);
    XRunsAppend(x, xs, [a]);
  }

  function Dead(pc: Pc): Proc {
    Proc(false, "job", 1, -1, pc)
  }

  function Orphaned(file: File, second: Pc): State {
    State(map[SLOT0 := file], map[1 := Dead(Holding(0)), 2 := Mutex(second)])
  }

  const COMMAND := Child("job", false, false)

  /** No parent is killed outright and no waitpid fails. */
  predicate OnlySignals(actions: seq<XAction>) {
    forall a | a in actions :: !a.WaitFails? && (a.Base? ==> !a.action.Die?)
  }

  /** Both processes start and the first one acquires. */
  lemma FirstHolds() returns (s: State, actions: seq<Action>)
    ensures Initial(s) && Runs(s, actions) && (forall a | a in actions :: !a.Release? && !a.Die?)
    ensures After(s, actions) == Two(map[SLOT0 := Lock(1)], Holding(0), Top)
  {
    hide SlotName, Matches, Next, Enabled, Two, Initial, Runs, After;
    TheseAreTolerant();
    s, actions := BothStart(map[]);
    FirstClaims(s, actions, Top, Anything());
    actions := actions + [EndScan(1)] + [TryOpen(1)] + [Write(1)];
  }

  lemma {:induction false} LiftIsBase(actions: seq<Action>)
    ensures forall a | a in Lift(actions) :: a.Base? && a.action in actions
    decreases |actions|
  {
    if actions != [] { LiftIsBase(actions[1..]); }
  }

  lemma ForkThenSignal(x: XState, actions: seq<XAction>)
    requires XRuns(x, actions) && XAfter(x, actions) == XState(Two(map[SLOT0 := Lock(1)], Holding(0), Top), map[])
    ensures XRuns(x, actions + [Fork(1)] + [Signal(1)])
    ensures XAfter(x, actions + [Fork(1)] + [Signal(1)]) == XState(Orphaned(Lock(1), Top), map[1 := COMMAND])
  {
    hide SlotName, Matches;
    var held := Two(map[SLOT0 := Lock(1)], Holding(0), Top);
    XExtend(x, actions, Fork(1), XState(held, map[1 := COMMAND]));
    XExtend(x, actions + [Fork(1)], Signal(1), XState(Orphaned(Lock(1), Top), map[1 := COMMAND]));
  }

  /** The first process forks its command and is killed by a signal before it records the pid. */
  lemma FirstIsKilled() returns (x: XState, actions: seq<XAction>)
    ensures Initial(x.base) && x.children == map[] && XRuns(x, actions) && OnlySignals(actions)
    ensures XAfter(x, actions) == XState(Orphaned(Lock(1), Top), map[1 := COMMAND])
  {
    hide SlotName, Matches, Next, Enabled, XNext, XEnabled;
    var s, acquire := FirstHolds();
    x := XState(s, map[]);
    LiftRuns(x, acquire);
    LiftIsBase(acquire);
    actions := Lift(acquire);
    ForkThenSignal(x, actions);
    actions := actions + [Fork(1)] + [Signal(1)];
  }

  const BOTH := XState(Orphaned(Lock(2), Holding(0)), map[1 := COMMAND, 2 := COMMAND])

  lemma SecondForks(x: XState, actions: seq<XAction>)
    requires XRuns(x, actions) && XAfter(x, actions) == XState(Orphaned(Lock(2), Holding(0)), map[1 := COMMAND])
    ensures XRuns(x, actions + [Fork(2)]) && XAfter(x, actions + [Fork(2)]) == BOTH
  {
    hide SlotName, Matches, Next, Enabled;
    XExtend(x, actions, Fork(2), BOTH);
  }

  /** Two commands run under a limit of one, without any forced kill or waitpid failure. */
  lemma SignalInWindowRunsTwoCommands() returns (x: XState, actions: seq<XAction>)
    ensures Initial(x.base) && x.children == map[] && XRuns(x, actions) && OnlySignals(actions)
    ensures forall p | p in XAfter(x, actions).base.procs :: XAfter(x, actions).base.procs[p].maxHolders == 1
    ensures |RunningCommands(XAfter(x, actions), "job")| == 2
  {
    hide SlotName, Matches, PassActions, Next, Enabled, XNext, XEnabled;
    x, actions := FirstIsKilled();
    var y := XState(Orphaned(Lock(1), Top), map[1 := COMMAND]);
    SecondAcquires(Dead(Holding(0)), Lock(1));
    var pass := PassActions(y.base, 2, [SLOT0]);
    LiftRuns(y, pass);
    LiftIsBase(pass);
    XRunsAppend(x, actions, Lift(pass));
    actions := actions + Lift(pass);
    SecondForks(x, actions);
    actions := actions + [Fork(2)];
    assert RunningCommands(BOTH, "job") == {1, 2};
  }
}
