/** ProcessCoordinator (src/process_coordinator/process_coordinator.c): one record per process over two
    pipes, first as a class with the source's fields, then as a two-process system of which the class
    describes each half. */
module Coordinator {
  import opened Basics

  datatype Role = Unset | Prepared | Parent | Child

  // ---------------------------------------------------------------------------------------------
  // Values: a pipe's traffic and a coordinator without its descriptor numbers
  // ---------------------------------------------------------------------------------------------

  /** `written` and `taken` are the history of a pipe, `waiting` is what it holds. */
  datatype Channel = Channel(written: Bytes, waiting: Bytes, taken: Bytes)
  {
    predicate Conserved() {
      taken + waiting == written
    }

    /** After write() has taken n bytes of the data; a negative n is an error. */
    function Put(data: Bytes, n: int): Channel
      requires n <= |data|
    {
      var sent := if n < 0 then [] else data[..n];
      Channel(written + sent, waiting + sent, taken)
    }

    /** How much read() yields. */
    function Ready(len: nat): (n: nat)
      ensures n <= len && n <= |waiting| && (n == len || n == |waiting|)
    {
      if len < |waiting| then len else |waiting|
    }

    function Take(n: nat): Channel
      requires n <= |waiting|
    {
      Channel(written, waiting[n..], taken + waiting[..n])
    }
  }

  const FRESH := Channel([], [], [])

  /** Which of the four descriptors are open. */
  datatype Ends = Ends(downRead: bool, downWrite: bool, upRead: bool, upWrite: bool)

  const NO_ENDS := Ends(false, false, false, false)
  const ALL_ENDS := Ends(true, true, true, true)
  const PARENT_ENDS := Ends(false, true, true, false)
  const CHILD_ENDS := Ends(true, false, false, true)

  datatype Party = Party(role: Role, ends: Ends, childPid: int, error: string)
  {
    /** Each role holds exactly one read end and one write end, of opposite pipes. */
    predicate Shaped() {
      match role
      case Unset => ends == NO_ENDS
      case Prepared => ends == ALL_ENDS
      case Parent => ends == PARENT_ENDS
      case Child => ends == CHILD_ENDS
    }

    function Failed(message: string): Party {
      this.(error := message)
    }

    /** The end that pc_send writes to. */
    predicate CanSend() {
      (role.Parent? && ends.downWrite) || (role.Child? && ends.upWrite)
    }

    /** The end that pc_receive reads from. */
    predicate CanReceive() {
      (role.Parent? && ends.upRead) || (role.Child? && ends.downRead)
    }

    function AfterForkParent(pid: int): Party {
      if pid <= 0 then this
      else if !role.Prepared? then Failed("ProcessCoordinator not prepared for fork")
      else this.(role := Parent, childPid := pid, ends := ends.(downRead := false, upWrite := false))
    }

    function AfterForkChild(pid: int): Party {
      if !role.Prepared? then Failed("ProcessCoordinator not prepared for fork")
      else this.(role := Child, childPid := pid, ends := ends.(downWrite := false, upRead := false))
    }

    /** pc_send, once write() has answered n. */
    function AfterSend(data: Bytes, n: int): Party {
      if !role.Parent? && !role.Child? then Failed("Invalid role for sending")
      else if !CanSend() then Failed("Write pipe not available")
      else if n != |data| then Failed("Failed to write all data")
      else this
    }

    /** What pc_receive reports, once select() has answered and read() has yielded n bytes or failed. */
    function ReceiveError(answer: Answer, n: int): Option<string> {
      if !role.Parent? && !role.Child? then Some("Invalid role for receiving")
      else if !CanReceive() then Some("Read pipe not available")
      else if answer != DataReady then Some("Timeout waiting for data")
      else if n == 0 then Some(PIPE_CLOSED)
      else if n < 0 then Some("Read failed")
      else None
    }

    function AfterReceive(answer: Answer, n: int): Party {
      match ReceiveError(answer, n)
      case Some(message) => Failed(message)
      case None => this
    }
  }

  const PIPE_CLOSED := "Pipe closed unexpectedly"

  /** What select() reports. */
  datatype Answer = DataReady | TimedOut | Interrupted | SelectError

  predicate OnlyInterrupted(answers: seq<Answer>) {
    forall i | 0 <= i < |answers| :: answers[i] == Interrupted
  }

  /** The first answer that is not an interruption. */
  function Settled(answers: seq<Answer>): (a: Answer)
    requires exists i :: 0 <= i < |answers| && answers[i] != Interrupted
    ensures a != Interrupted && exists i :: 0 <= i < |answers| && answers[i] == a && OnlyInterrupted(answers[..i])
  {
    if answers[0] != Interrupted then
      assert OnlyInterrupted(answers[..0]);
      answers[0]
    else
      var a := Settled(answers[1..]);
      assert exists i :: 0 <= i < |answers| && answers[i] == a && OnlyInterrupted(answers[..i]) by {
        var i :| 0 <= i < |answers[1..]| && answers[1..][i] == a && OnlyInterrupted(answers[1..][..i]);
        assert answers[..i + 1] == [answers[0]] + answers[1..][..i];
        assert answers[i + 1] == a;
      }
      a
  }

  // ---------------------------------------------------------------------------------------------
  // The class
  // ---------------------------------------------------------------------------------------------

  /** A process's descriptor table. Closing asks for an open descriptor, so that a verified caller
      never closes one twice. */
  class Descriptors {
    var open: set<int>

    constructor (open: set<int>)
      ensures this.open == open
    {
      this.open := open;
    }

    method Close(fd: int)
      requires fd in open
      modifies this
      ensures open == old(open) - {fd}
    {
      open := open - {fd};
    }

    /** pipe(): two new descriptors, or nothing. */
    method MakePipe(answer: Option<(int, int)>)
      requires answer.Some? ==> FreshPair(answer.value)
      modifies this
      ensures open == old(open) + if answer.Some? then {answer.value.0, answer.value.1} else {}
    {
      if answer.Some? { open := open + {answer.value.0, answer.value.1}; }
    }

    predicate FreshPair(pair: (int, int))
      reads this
    {
      pair.0 >= 0 && pair.1 >= 0 && pair.0 != pair.1 && pair.0 !in open && pair.1 !in open
    }
  }

  class Pipe {
    var channel: Channel

    constructor ()
      ensures channel == FRESH
    {
      channel := FRESH;
    }
  }

  datatype Kill = Term | KillNow

  /** The descriptors among four fields. */
  function Used(a: int, b: int, c: int, d: int): set<int> {
    {a, b, c, d} - {-1}
  }

  /** No number stands for two ends. */
  predicate Apart(a: int, b: int, c: int, d: int) {
    && (a != -1 ==> a != b && a != c && a != d)
    && (b != -1 ==> b != c && b != d)
    && (c != -1 ==> c != d)
  }

  lemma CloseOuter(open: set<int>, a: int, b: int, c: int, d: int)
    requires Apart(a, b, c, d) && -1 !in open && Used(a, b, c, d) <= open
    ensures Apart(-1, b, c, -1) && Used(-1, b, c, -1) <= open - {a} - {d}
    ensures open - {a} - {d} - Used(-1, b, c, -1) == open - Used(a, b, c, d)
    ensures (a == -1 || a in open) && (d == -1 || d in open - {a})
  {}

  lemma CloseInner(open: set<int>, a: int, b: int, c: int, d: int)
    requires Apart(a, b, c, d) && -1 !in open && Used(a, b, c, d) <= open
    ensures Apart(a, -1, -1, d) && Used(a, -1, -1, d) <= open - {b} - {c}
    ensures open - {b} - {c} - Used(a, -1, -1, d) == open - Used(a, b, c, d)
    ensures (b == -1 || b in open) && (c == -1 || c in open - {b})
  {}

  lemma CloseAll(open: set<int>, a: int, b: int, c: int, d: int)
    requires Apart(a, b, c, d) && -1 !in open && Used(a, b, c, d) <= open
    ensures Apart(-1, -1, -1, -1) && Used(-1, -1, -1, -1) == {}
    ensures open - {a} - {b} - {c} - {d} == open - Used(a, b, c, d)
    ensures (a == -1 || a in open) && (b == -1 || b in open - {a})
    ensures (c == -1 || c in open - {a} - {b}) && (d == -1 || d in open - {a} - {b} - {c})
  {}

  class ProcessCoordinator {
    const table: Descriptors
    const down: Pipe  // parent to child
    const up: Pipe    // child to parent
    var downRead: int
    var downWrite: int
    var upRead: int
    var upWrite: int
    var childPid: int
    var role: Role
    var error: string

    /** The descriptors this coordinator has open. */
    ghost function Mine(): set<int>
      reads this
    {
      Used(downRead, downWrite, upRead, upWrite)
    }

    /** Descriptors are -1 or open, and no number stands for two ends. */
    ghost predicate Valid()
      reads this, table
    {
      && down != up
      && -1 !in table.open && Mine() <= table.open
      && Apart(downRead, downWrite, upRead, upWrite)
    }

    function View(): Party
      reads this
    {
      Party(role, Ends(downRead != -1, downWrite != -1, upRead != -1, upWrite != -1), childPid, error)
    }

    /** Descriptors of the process that are not this coordinator's. */
    ghost function Foreign(): set<int>
      reads this, table
    {
      table.open - Mine()
    }

    constructor (table: Descriptors, down: Pipe, up: Pipe)
      requires down != up && -1 !in table.open
      ensures Valid() && this.table == table && this.down == down && this.up == up
      ensures View() == Party(Unset, NO_ENDS, -1, "") && View().Shaped()
    {
      this.table, this.down, this.up := table, down, up;
      downRead, downWrite, upRead, upWrite := -1, -1, -1, -1;
      childPid, role, error := -1, Unset, "";
    }

    method SetError(message: string) returns (result: int)
      modifies this`error
      ensures result == -1 && error == message
    {
      error := message;
      result := -1;
    }

    /** pc_close_pipe_safe; the new value of the descriptor is always -1. */
    method CloseSafe(fd: int) returns (after: int)
      requires fd == -1 || fd in table.open
      requires -1 !in table.open
      modifies table
      ensures after == -1 && table.open == old(table.open) - {fd}
    {
      if fd != -1 { table.Close(fd); }
      after := -1;
    }

    /** pc_prepare_fork; `first` and `second` are what the two pipe() calls answer. A failure of the
        second call leaves no descriptor of the first behind. */
    method PrepareFork(first: Option<(int, int)>, second: Option<(int, int)>) returns (result: int)
      requires Valid() && View().Shaped()
      requires first.Some? ==> table.FreshPair(first.value)
      requires second.Some? ==> table.FreshPair(second.value)
      requires first.Some? && second.Some? ==> {first.value.0, first.value.1} !! {second.value.0, second.value.1}
      modifies this, table
      ensures Valid() && View().Shaped() && Foreign() == old(Foreign())
      ensures result == 0 <==> old(role).Unset? && first.Some? && second.Some?
      ensures result == 0 ==> View() == Party(Prepared, ALL_ENDS, old(childPid), old(error))
      ensures result != 0 ==> result == -1 && View() == old(View()).Failed(
        if !old(role).Unset? then "ProcessCoordinator already initialized"
        else if first.None? then "Failed to create parent->child pipe"
        else "Failed to create child->parent pipe")
    {
      if role != Unset {
        result := SetError("ProcessCoordinator already initialized");
        return;
      }
      table.MakePipe(first);
      if first.None? {
        result := SetError("Failed to create parent->child pipe");
        return;
      }
      downRead, downWrite := first.value.0, first.value.1;
      table.MakePipe(second);
      if second.None? {
        downRead := CloseSafe(downRead);
        downWrite := CloseSafe(downWrite);
        result := SetError("Failed to create child->parent pipe");
        return;
      }
      upRead, upWrite := second.value.0, second.value.1;
      role := Prepared;
      result := 0;
    }

    /** pc_after_fork_parent. */
    method AfterForkParent(pid: int) returns (result: int)
      requires Valid()
      modifies this, table
      ensures Valid() && Foreign() == old(Foreign())
      ensures View() == old(View()).AfterForkParent(pid)
      ensures result == 0 ==> role == Parent && childPid == pid
      ensures result == 0 && old(View()).Shaped() ==> View().ends == PARENT_ENDS
      ensures result == if pid > 0 && old(role).Prepared? then 0 else -1
    {
      if pid <= 0 { return -1; }
      if role != Prepared {
        result := SetError("ProcessCoordinator not prepared for fork");
        return;
      }
      hide Used, Apart;
      CloseOuter(table.open, downRead, downWrite, upRead, upWrite);
      role, childPid := Parent, pid;
      downRead := CloseSafe(downRead);
      upWrite := CloseSafe(upWrite);
      result := 0;
    }

    /** pc_after_fork_child; `pid` is getpid(). */
    method AfterForkChild(pid: int) returns (result: int)
      requires Valid()
      modifies this, table
      ensures Valid() && Foreign() == old(Foreign())
      ensures View() == old(View()).AfterForkChild(pid)
      ensures result == 0 ==> role == Child && childPid == pid
      ensures result == 0 && old(View()).Shaped() ==> View().ends == CHILD_ENDS
      ensures result == if old(role).Prepared? then 0 else -1
    {
      if role != Prepared {
        result := SetError("ProcessCoordinator not prepared for fork");
        return;
      }
      hide Used, Apart;
      CloseInner(table.open, downRead, downWrite, upRead, upWrite);
      role, childPid := Child, pid;
      downWrite := CloseSafe(downWrite);
      upRead := CloseSafe(upRead);
      result := 0;
    }

    /** pc_send; n is what write() returns. A short write is reported as -1 although its bytes are in
        the pipe. */
    method Send(data: Bytes, n: int) returns (result: int)
      requires Valid() && -1 <= n <= |data|
      modifies this`error, down, up
      ensures View() == old(View()).AfterSend(data, n)
      ensures result == if old(View()).CanSend() && n == |data| then n else -1
      ensures down.channel
           == if role.Parent? && old(View()).CanSend() then old(down.channel).Put(data, n) else old(down.channel)
      ensures up.channel
           == if role.Child? && old(View()).CanSend() then old(up.channel).Put(data, n) else old(up.channel)
      ensures old(View()).CanSend() ==>
        var channel := if role.Parent? then down.channel else up.channel;
        channel.waiting
        == old(if role.Parent? then down.channel else up.channel).waiting + if n > 0 then data[..n] else []
      ensures !old(View()).CanSend() || n != |data| ==> result == -1 && error != ""
    {
      var fd := -1;
      if role == Parent {
        fd := downWrite;
      } else if role == Child {
        fd := upWrite;
      } else {
        result := SetError("Invalid role for sending");
        return;
      }
      if fd == -1 {
        result := SetError("Write pipe not available");
        return;
      }
      if fd == downWrite {
        down.channel := down.channel.Put(data, n);
      } else {
        up.channel := up.channel.Put(data, n);
      }
      if n != |data| {
        result := SetError("Failed to write all data");
        return;
      }
      result := n;
    }

    /** pc_wait_for_data: select again after every interruption. */
    method WaitForData(answers: seq<Answer>) returns (result: int)
      requires exists i :: 0 <= i < |answers| && answers[i] != Interrupted
      ensures result == if Settled(answers) == DataReady then 0 else -1
    {
      var i := 0;
      while answers[i] == Interrupted
        invariant 0 <= i < |answers|
        invariant exists j :: i <= j < |answers| && answers[j] != Interrupted
        invariant Settled(answers[i..]) == Settled(answers)
        decreases |answers| - i
      {
        i := i + 1;
      }
      result := if answers[i] == DataReady then 0 else -1;
    }

    /** What read() returns: an error, or what is there up to the length asked for. */
    function Yield(len: nat, fails: bool): int
      reads this, down, up
    {
      if fails then -1 else (if role.Parent? then up.channel else down.channel).Ready(len)
    }

    /** pc_receive; `answers` come from select(), `fails` says that read() fails. */
    method Receive(len: nat, answers: seq<Answer>, fails: bool) returns (result: int, data: Bytes)
      requires Valid() && exists i :: 0 <= i < |answers| && answers[i] != Interrupted
      modifies this`error, down, up
      ensures View() == old(View()).AfterReceive(Settled(answers), old(Yield(len, fails)))
      ensures var source := if role.Parent? then up else down; var other := if role.Parent? then down else up;
              var n := old(Yield(len, fails));
              && other.channel == old(other.channel)
              && if old(View()).CanReceive() && Settled(answers) == DataReady && n > 0
                 then result == n && data == old(source.channel).waiting[..n]
                      && source.channel == old(source.channel).Take(n)
                      && source.channel.waiting == old(source.channel).waiting[n..]
                      && (n == len || source.channel.waiting == [])
                 else result == -1 && data == [] && source.channel == old(source.channel)
    {
      data := [];
      var fd := -1;
      if role == Parent {
        fd := upRead;
      } else if role == Child {
        fd := downRead;
      } else {
        result := SetError("Invalid role for receiving");
        return;
      }
      if fd == -1 {
        result := SetError("Read pipe not available");
        return;
      }
      var waited := WaitForData(answers);
      if waited != 0 {
        result := SetError("Timeout waiting for data");
        return;
      }
      var pipe := if fd == upRead then up else down;
      var n := if fails then -1 else pipe.channel.Ready(len);
      if n <= 0 {
        result := SetError(if n == 0 then PIPE_CLOSED else "Read failed");
        return;
      }
      data := pipe.channel.waiting[..n];
      pipe.channel := pipe.channel.Take(n);
      result := n;
    }

    /** pc_wait_for_signal: takes one byte, also when it is not the expected one. */
    method WaitForSignal(expected: bv8, answers: seq<Answer>, fails: bool) returns (result: int)
      requires Valid() && exists i :: 0 <= i < |answers| && answers[i] != Interrupted
      modifies this`error, down, up
      ensures var source := if role.Parent? then up else down; var other := if role.Parent? then down else up;
              var before := old(source.channel);
              var arrived :=
                old(View()).CanReceive() && Settled(answers) == DataReady && !fails && before.waiting != [];
              && (result == 0 <==> arrived && before.waiting[0] == expected)
              && (result == 0 || result == -1)
              && source.channel == (if arrived then before.Take(1) else before)
              && source.channel.waiting == (if arrived then before.waiting[1..] else before.waiting)
              && other.channel == old(other.channel)
              && (arrived && before.waiting[0] != expected ==> error == "Received unexpected signal")
    {
      var n, data := Receive(1, answers, fails);
      if n != 1 { return -1; }
      if data[0] != expected {
        result := SetError("Received unexpected signal");
        return;
      }
      result := 0;
    }

    /** pc_parent_wait_for_child_ready: nothing happens in any other role. */
    method ParentWaitForChildReady(answers: seq<Answer>, fails: bool) returns (result: int)
      requires Valid() && exists i :: 0 <= i < |answers| && answers[i] != Interrupted
      modifies this`error, down, up
      ensures !role.Parent? ==> result == -1 && View() == old(View()) && up.channel == old(up.channel)
      ensures down.channel == old(down.channel)
      ensures role.Parent? ==>
        var before := old(up.channel).waiting;
        var arrived := old(View()).CanReceive() && Settled(answers) == DataReady && !fails && before != [];
        && (result == 0 <==> arrived && before[0] == READY) && (result == 0 || result == -1)
        && up.channel.waiting == (if arrived then before[1..] else before)
    {
      if role != Parent { return -1; }
      result := WaitForSignal(READY, answers, fails);
    }

    /** pc_child_signal_ready. */
    method ChildSignalReady(n: int) returns (result: int)
      requires Valid() && -1 <= n <= 1
      modifies this`error, down, up
      ensures down.channel == old(down.channel)
      ensures result == 0 <==> old(View()).role.Child? && old(View()).CanSend() && n == 1
      ensures result == 0 ==> up.channel == old(up.channel).Put([READY], 1)
      ensures result == 0 ==> up.channel.waiting == old(up.channel).waiting + [READY]
      ensures !role.Child? ==> result == -1 && View() == old(View()) && up.channel == old(up.channel)
    {
      if role != Child { return -1; }
      var sent := Send([READY], n);
      result := if sent == 1 then 0 else -1;
    }

    /** pc_destroy: every descriptor is closed once and none stays open; a parent whose child is alive
        sends SIGTERM, and SIGKILL if the child is still there after the grace period. */
    method Destroy(alive: bool, stillAlive: bool) returns (kills: seq<Kill>)
      requires Valid()
      modifies this, table
      ensures Valid() && Mine() == {} && table.open == old(Foreign())
      ensures View() == old(View()).(ends := NO_ENDS)
      ensures kills == if old(role).Parent? && old(childPid) > 0 && alive
                       then (if stillAlive then [Term, KillNow] else [Term]) else []
    {
      hide Used, Apart;
      CloseAll(table.open, downRead, downWrite, upRead, upWrite);
      kills := [];
      downRead := CloseSafe(downRead);
      downWrite := CloseSafe(downWrite);
      upRead := CloseSafe(upRead);
      upWrite := CloseSafe(upWrite);
      if role == Parent && childPid > 0 && alive {
        kills := kills + [Term];
        if stillAlive { kills := kills + [KillNow]; }
      }
    }
  }

  const READY: bv8 := 0x52

  // ---------------------------------------------------------------------------------------------
  // Two processes over two pipes
  // ---------------------------------------------------------------------------------------------

  /** A party is absent before it is forked and after it has destroyed its coordinator or exited. */
  datatype World = World(parent: Option<Party>, child: Option<Party>, down: Channel, up: Channel)

  datatype Side = ParentSide | ChildSide

  datatype Step =
    | Fork
    | ParentReady(pid: int)
    | ChildReady(pid: int)
    | Send(side: Side, data: Bytes, n: int)
    | Receive(side: Side, len: nat, answer: Answer, fails: bool)
    | Leave(side: Side)

  function Of(w: World, side: Side): Option<Party> {
    match side case ParentSide => w.parent case ChildSide => w.child
  }

  function With(w: World, side: Side, party: Option<Party>): World {
    match side case ParentSide => w.(parent := party) case ChildSide => w.(child := party)
  }

  predicate HasEnd(party: Option<Party>, test: Ends -> bool) {
    party.Some? && test(party.value.ends)
  }

  predicate DownHasReader(w: World) {
    HasEnd(w.parent, (e: Ends) => e.downRead) || HasEnd(w.child, (e: Ends) => e.downRead)
  }

  predicate DownHasWriter(w: World) {
    HasEnd(w.parent, (e: Ends) => e.downWrite) || HasEnd(w.child, (e: Ends) => e.downWrite)
  }

  predicate UpHasReader(w: World) {
    HasEnd(w.parent, (e: Ends) => e.upRead) || HasEnd(w.child, (e: Ends) => e.upRead)
  }

  predicate UpHasWriter(w: World) {
    HasEnd(w.parent, (e: Ends) => e.upWrite) || HasEnd(w.child, (e: Ends) => e.upWrite)
  }

  /** Whether select() may report data for the pipe this role reads: bytes, or the end of them. */
  predicate Readable(w: World, role: Role) {
    if role.Parent? then w.up.waiting != [] || !UpHasWriter(w) else w.down.waiting != [] || !DownHasWriter(w)
  }

  /** Whether write() can take bytes: somebody may still read them. */
  predicate Writable(w: World, role: Role) {
    if role.Parent? then DownHasReader(w) else UpHasReader(w)
  }

  predicate Enabled(w: World, a: Step) {
    match a
    case Fork => w.parent.Some? && w.parent.value.role.Prepared? && w.child.None? && w.down == FRESH && w.up == FRESH
    case ParentReady(_) => w.parent.Some?
    case ChildReady(_) => w.child.Some?
    case Send(side, data, n) =>
      Of(w, side).Some? && -1 <= n <= |data| && (Writable(w, Of(w, side).value.role) || n <= 0)
    case Receive(side, _, answer, _) =>
      Of(w, side).Some? && answer != Interrupted && (answer == DataReady ==> Readable(w, Of(w, side).value.role))
    case Leave(side) => Of(w, side).Some?
  }

  function Incoming(w: World, party: Party): Channel {
    if party.role.Parent? then w.up else w.down
  }

  function Yields(w: World, party: Party, len: nat, fails: bool): int {
    if fails then -1 else Incoming(w, party).Ready(len)
  }

  function Next(w: World, a: Step): World
    requires Enabled(w, a)
  {
    match a
    case Fork => w.(child := w.parent)
    case ParentReady(pid) => w.(parent := Some(w.parent.value.AfterForkParent(pid)))
    case ChildReady(pid) => w.(child := Some(w.child.value.AfterForkChild(pid)))
    case Send(side, data, n) =>
      var party := Of(w, side).value;
      var next := With(w, side, Some(party.AfterSend(data, n)));
      if !party.CanSend() then next
      else if party.role.Parent? then next.(down := w.down.Put(data, n)) else next.(up := w.up.Put(data, n))
    case Receive(side, len, answer, fails) =>
      var party := Of(w, side).value;
      var n := Yields(w, party, len, fails);
      var next := With(w, side, Some(party.AfterReceive(answer, n)));
      if !party.CanReceive() || answer != DataReady || n <= 0 then next
      else if party.role.Parent? then next.(up := w.up.Take(n)) else next.(down := w.down.Take(n))
    case Leave(side) => With(w, side, None)
  }

  predicate Runs(w: World, steps: seq<Step>)
    decreases |steps|
  {
    steps == [] || (Enabled(w, steps[0]) && Runs(Next(w, steps[0]), steps[1..]))
  }

  function After(w: World, steps: seq<Step>): World
    requires Runs(w, steps)
    decreases |steps|
  {
    if steps == [] then w else After(Next(w, steps[0]), steps[1..])
  }

  /** A prepared coordinator over two fresh pipes, not yet forked. */
  predicate Initial(w: World) {
    && w.parent.Some? && w.parent.value.role.Prepared? && w.parent.value.Shaped()
    && w.child.None? && w.down == FRESH && w.up == FRESH
  }

  /** The parent's record never takes the child's role and the other way round: each process calls its
      own after-fork function. Both pipes conserve their bytes. */
  predicate Inv(w: World) {
    && w.down.Conserved() && w.up.Conserved()
    && (w.parent.Some? ==> w.parent.value.Shaped() && (w.parent.value.role.Prepared? || w.parent.value.role.Parent?))
    && (w.child.Some? ==> w.child.value.Shaped() && (w.child.value.role.Prepared? || w.child.value.role.Child?))
  }

  lemma PutConserves(c: Channel, data: Bytes, n: int)
    requires c.Conserved() && n <= |data|
    ensures c.Put(data, n).Conserved()
  {
    var sent := if n < 0 then [] else data[..n];
    assert c.taken + (c.waiting + sent) == (c.taken + c.waiting) + sent;
  }

  lemma TakeConserves(c: Channel, n: nat)
    requires c.Conserved() && n <= |c.waiting|
    ensures c.Take(n).Conserved()
  {
    assert (c.taken + c.waiting[..n]) + c.waiting[n..] == c.taken + c.waiting;
  }

  lemma SendKeepsInv(w: World, side: Side, data: Bytes, n: int)
    requires Inv(w) && Enabled(w, Send(side, data, n))
    ensures Inv(Next(w, Send(side, data, n)))
  {
    hide Writable;
    PutConserves(w.down, data, n);
    PutConserves(w.up, data, n);
  }

  lemma ReceiveKeepsInv(w: World, side: Side, len: nat, answer: Answer, fails: bool)
    requires Inv(w) && Enabled(w, Receive(side, len, answer, fails))
    ensures Inv(Next(w, Receive(side, len, answer, fails)))
  {
    hide Readable;
    TakeConserves(w.down, w.down.Ready(len));
    TakeConserves(w.up, w.up.Ready(len));
  }

  lemma StepKeepsInv(w: World, a: Step)
    requires Inv(w) && Enabled(w, a)
    ensures Inv(Next(w, a))
  {
    match a
    case Send(side, data, n) => SendKeepsInv(w, side, data, n);
    case Receive(side, len, answer, fails) => ReceiveKeepsInv(w, side, len, answer, fails);
    case _ =>
  }

  lemma {:induction false} RunKeepsInv(w: World, steps: seq<Step>)
    requires Inv(w) && Runs(w, steps)
    ensures Inv(After(w, steps))
    decreases |steps|
  {
    hide Inv, Next, Enabled;
    if steps != [] {
      StepKeepsInv(w, steps[0]);
      RunKeepsInv(Next(w, steps[0]), steps[1..]);
    }
  }

  /** Over every run, in each direction: what was read, followed by what is still in the pipe, is what
      was written, short writes included; and a ready party holds one read and one write end. */
  lemma NothingIsLost(w: World, steps: seq<Step>)
    requires Initial(w) && Runs(w, steps)
    ensures After(w, steps).down.Conserved() && After(w, steps).up.Conserved()
    ensures var parent := After(w, steps).parent;
            parent.Some? && parent.value.role.Parent? ==> parent.value.ends == PARENT_ENDS
    ensures var child := After(w, steps).child;
            child.Some? && child.value.role.Child? ==> child.value.ends == CHILD_ENDS
  {
    RunKeepsInv(w, steps);
  }

  /** After its own after-fork call, and only then, a party can send and receive. */
  lemma ReadyPartyCanTalk(party: Party)
    requires party.Shaped()
    ensures party.CanSend() <==> party.role.Parent? || party.role.Child?
    ensures party.CanReceive() <==> party.role.Parent? || party.role.Child?
    ensures forall pid | pid > 0 && party.role.Prepared? ::
      party.AfterForkChild(pid).Shaped() && party.AfterForkChild(pid).role == Child
    ensures forall pid | pid > 0 && party.role.Prepared? ::
      party.AfterForkParent(pid).Shaped() && party.AfterForkParent(pid).role == Parent
  {}

  /** A receive whose read() does not fail reports a closed pipe exactly when nobody can write any more
      and every byte ever written has been taken, or when it asked for no bytes. */
  lemma EndMeansAllTaken(w: World, side: Side, len: nat)
    requires Inv(w) && Enabled(w, Receive(side, len, DataReady, false)) && Of(w, side).value.CanReceive()
    ensures var party := Of(w, side).value; var c := Incoming(w, party);
            (party.ReceiveError(DataReady, Yields(w, party, len, false)) == Some(PIPE_CLOSED)
             <==> || len == 0
                  || (c.taken == c.written && !(if party.role.Parent? then UpHasWriter(w) else DownHasWriter(w))))
  {
    var c := Incoming(w, Of(w, side).value);
    assert c.waiting == [] <==> c.taken == c.written by {
      assert |c.taken| + |c.waiting| == |c.written|;
      if c.waiting == [] { assert c.taken + c.waiting == c.taken; }
    }
  }

  /** Once its peer is gone, a ready party's receives always find data or the end, whatever the peer
      left unread; before, an empty pipe makes it wait. This is what closing the unused ends buys. */
  lemma EndIsVisibleExactly(w: World, side: Side)
    requires Inv(w) && Of(w, side).Some? && Of(w, side).value.CanReceive()
    requires Incoming(w, Of(w, side).value).waiting == []
    ensures Readable(w, Of(w, side).value.role) <==>
      Of(w, match side case ParentSide => ChildSide case ChildSide => ParentSide).None?
  {}

  /** With the peer still there and ready, no write is refused. */
  lemma PeerKeepsPipeWritable(w: World, side: Side)
    requires Inv(w) && Of(w, side).Some? && Of(w, side).value.CanSend()
    ensures Writable(w, Of(w, side).value.role) <==>
      Of(w, match side case ParentSide => ChildSide case ChildSide => ParentSide).Some?
  {}

  // ---------------------------------------------------------------------------------------------
  // What pc_receive delivers
  // ---------------------------------------------------------------------------------------------

  /** What the pipe that a side reads from holds, and all that was ever written to it. */
  function Unread(w: World, side: Side): Bytes {
    match side case ParentSide => w.up.waiting case ChildSide => w.down.waiting
  }

  function WrittenTo(w: World, side: Side): Bytes {
    match side case ParentSide => w.up.written case ChildSide => w.down.written
  }

  /** The bytes that one step hands to the caller of pc_receive: the first ones of the pipe, up to the
      length asked for. */
  function Handed(w: World, a: Step, side: Side): Bytes
    requires Enabled(w, a)
  {
    if a.Receive? && a.side == side && Of(w, side).value.CanReceive() && a.answer == DataReady && !a.fails then
      if a.len < |Unread(w, side)| then Unread(w, side)[..a.len] else Unread(w, side)
    else []
  }

  function Delivered(w: World, steps: seq<Step>, side: Side): Bytes
    requires Runs(w, steps)
    decreases |steps|
  {
    if steps == [] then []
    else Handed(w, steps[0], side) + Delivered(Next(w, steps[0]), steps[1..], side)
  }

  lemma SentStep(w: World, a: Step, side: Side, sofar: Bytes)
    requires Inv(w) && Enabled(w, a) && a.Send? && WrittenTo(w, side) == sofar + Unread(w, side)
    ensures WrittenTo(Next(w, a), side) == (sofar + Handed(w, a, side)) + Unread(Next(w, a), side)
  {
    hide Readable, Writable;
    var sent := if a.n < 0 then [] else a.data[..a.n];
    Reassociate(sofar, Unread(w, side), sent);
    assert sofar + [] == sofar;
  }

  lemma TakenStep(w: World, a: Step, side: Side, sofar: Bytes)
    requires Inv(w) && Enabled(w, a) && a.Receive? && WrittenTo(w, side) == sofar + Unread(w, side)
    ensures WrittenTo(Next(w, a), side) == (sofar + Handed(w, a, side)) + Unread(Next(w, a), side)
  {
    hide Readable, Writable;
    var unread := Unread(w, side);
    var n := if a.len < |unread| then a.len else |unread|;
    assert unread == unread[..n] + unread[n..];
    Reassociate(sofar, unread[..n], unread[n..]);
    assert sofar + [] == sofar;
  }

  lemma HandedStep(w: World, a: Step, side: Side, sofar: Bytes)
    requires Inv(w) && Enabled(w, a) && WrittenTo(w, side) == sofar + Unread(w, side)
    ensures WrittenTo(Next(w, a), side) == (sofar + Handed(w, a, side)) + Unread(Next(w, a), side)
  {
    match a
    case Send(_, _, _) => SentStep(w, a, side, sofar);
    case Receive(_, _, _, _) => TakenStep(w, a, side, sofar);
    case _ => assert sofar + [] == sofar;
  }

  lemma {:induction false} DeliveredSoFar(w: World, steps: seq<Step>, side: Side, sofar: Bytes)
    requires Inv(w) && Runs(w, steps) && WrittenTo(w, side) == sofar + Unread(w, side)
    ensures WrittenTo(After(w, steps), side) == (sofar + Delivered(w, steps, side)) + Unread(After(w, steps), side)
    decreases |steps|
  {
    hide Inv, Next, Enabled, WrittenTo, Unread, Handed;
    if steps == [] {
      assert sofar + [] == sofar;
    } else {
      HandedStep(w, steps[0], side, sofar);
      StepKeepsInv(w, steps[0]);
      var t := Next(w, steps[0]);
      DeliveredSoFar(t, steps[1..], side, sofar + Handed(w, steps[0], side));
      Reassociate(sofar, Handed(w, steps[0], side), Delivered(t, steps[1..], side));
    }
  }

  /** Over every run, in each direction: the bytes that pc_receive handed to its callers, in order, followed
      by what is still in the pipe, are exactly the bytes that were written, short writes included. */
  lemma DeliveredInOrder(w: World, steps: seq<Step>, side: Side)
    requires Initial(w) && Runs(w, steps)
    ensures Delivered(w, steps, side) + Unread(After(w, steps), side) == WrittenTo(After(w, steps), side)
    ensures Delivered(w, steps, ParentSide) == After(w, steps).up.taken
    ensures Delivered(w, steps, ChildSide) == After(w, steps).down.taken
  {
    hide Next, Enabled;
    DeliveredFromStart(w, steps, side);
    DeliveredFromStart(w, steps, ParentSide);
    DeliveredFromStart(w, steps, ChildSide);
    RunKeepsInv(w, steps);
    SamePrefix(Delivered(w, steps, ParentSide), After(w, steps).up.taken, After(w, steps).up.waiting);
    SamePrefix(Delivered(w, steps, ChildSide), After(w, steps).down.taken, After(w, steps).down.waiting);
  }

  lemma DeliveredFromStart(w: World, steps: seq<Step>, side: Side)
    requires Initial(w) && Runs(w, steps)
    ensures Delivered(w, steps, side) + Unread(After(w, steps), side) == WrittenTo(After(w, steps), side)
  {
    hide Next, Enabled;
    DeliveredSoFar(w, steps, side, []);
    assert [] + Delivered(w, steps, side) == Delivered(w, steps, side);
  }

  lemma SamePrefix(a: Bytes, b: Bytes, rest: Bytes)
    requires a + rest == b + rest
    ensures a == b
  {
    assert |a| == |b|;
    assert a == (a + rest)[..|a|] && b == (b + rest)[..|b|];
  }

  function Peer(side: Side): Side {
    match side case ParentSide => ChildSide case ChildSide => ParentSide
  }

  /** From a prepared coordinator the fork and both after-fork calls lead to two ready parties. */
  lemma BothGetReady(w: World, pid: int)
    requires Initial(w) && pid > 0
    ensures var steps := [Fork, ParentReady(pid), ChildReady(pid)];
            && Runs(w, steps)
            && var t := After(w, steps);
               && t.parent.Some? && t.parent.value.role.Parent? && t.parent.value.childPid == pid
               && t.child.Some? && t.child.value.role.Child?
               && t.down == FRESH && t.up == FRESH
  {
    var b, c := ParentReady(pid), ChildReady(pid);
    assert [Fork, b, c][1..] == [b, c] && [b, c][1..] == [c] && [c][1..] == [];
    var w1 := Next(w, Fork);
    var w2 := Next(w1, b);
    var w3 := Next(w2, c);
    assert Runs(w3, []) && Runs(w2, [c]) && Runs(w1, [b, c]);
    assert After(w2, [c]) == After(w3, []) == w3;
    assert After(w1, [b, c]) == After(w2, [c]);
  }

  /** Between two ready parties a complete write can be received at once, and its bytes arrive. */
  lemma MessageArrives(w: World, from: Side, data: Bytes)
    requires Inv(w) && w.parent.Some? && w.parent.value.role.Parent? && w.child.Some? && w.child.value.role.Child?
    requires Unread(w, Peer(from)) == [] && data != []
    ensures Enabled(w, Send(from, data, |data|))
    ensures var t := Next(w, Send(from, data, |data|)); var receive := Receive(Peer(from), |data|, DataReady, false);
            && Enabled(t, receive) && Handed(t, receive, Peer(from)) == data
            && Unread(Next(t, receive), Peer(from)) == []
  {
    assert [] + data[..|data|] == data;
  }

  // ---------------------------------------------------------------------------------------------
  // What pc_send's answer is worth
  // ---------------------------------------------------------------------------------------------

  function WrittenBy(w: World, side: Side): Bytes {
    match side case ParentSide => w.down.written case ChildSide => w.up.written
  }

  predicate Writes(w: World, a: Step, side: Side) {
    a.Send? && a.side == side && Of(w, side).Some? && Of(w, side).value.CanSend()
  }

  /** The bytes that one step puts into the pipe. */
  function Offered(w: World, a: Step, side: Side): Bytes
    requires Enabled(w, a)
  {
    if Writes(w, a, side) && a.n > 0 then a.data[..a.n] else []
  }

  /** The data of one step's send if it reports success. */
  function Confirmed(w: World, a: Step, side: Side): Bytes {
    if Writes(w, a, side) && a.n == |a.data| then a.data else []
  }

  /** How much of one step's send a short write puts into the pipe although the send reports failure. */
  function Surplus(w: World, a: Step, side: Side): nat {
    if Writes(w, a, side) && 0 < a.n < |a.data| then a.n else 0
  }

  /** The data of all sends that reported success. */
  function Acknowledged(w: World, steps: seq<Step>, side: Side): Bytes
    requires Runs(w, steps)
    decreases |steps|
  {
    if steps == [] then []
    else Confirmed(w, steps[0], side) + Acknowledged(Next(w, steps[0]), steps[1..], side)
  }

  function Unacknowledged(w: World, steps: seq<Step>, side: Side): nat
    requires Runs(w, steps)
    decreases |steps|
  {
    if steps == [] then 0
    else Surplus(w, steps[0], side) + Unacknowledged(Next(w, steps[0]), steps[1..], side)
  }

  lemma WrittenStep(w: World, a: Step, side: Side)
    requires Inv(w) && Enabled(w, a)
    ensures WrittenBy(Next(w, a), side) == WrittenBy(w, side) + Offered(w, a, side)
    ensures |Offered(w, a, side)| == |Confirmed(w, a, side)| + Surplus(w, a, side)
    ensures Surplus(w, a, side) == 0 ==> Offered(w, a, side) == Confirmed(w, a, side)
  {
    hide Readable, Writable;
    assert a.Send? && a.n == |a.data| ==> a.data[..a.n] == a.data;
  }

  lemma {:induction false} WrittenAdds(w: World, steps: seq<Step>, side: Side)
    requires Inv(w) && Runs(w, steps)
    ensures |WrittenBy(After(w, steps), side)|
         == |WrittenBy(w, side)| + |Acknowledged(w, steps, side)| + Unacknowledged(w, steps, side)
    ensures Unacknowledged(w, steps, side) == 0
        ==> WrittenBy(After(w, steps), side) == WrittenBy(w, side) + Acknowledged(w, steps, side)
    decreases |steps|
  {
    hide Inv, Next, Enabled, WrittenBy, Offered, Confirmed, Surplus;
    if steps != [] {
      var t := Next(w, steps[0]);
      WrittenStep(w, steps[0], side);
      StepKeepsInv(w, steps[0]);
      WrittenAdds(t, steps[1..], side);
      Reassociate(WrittenBy(w, side), Confirmed(w, steps[0], side), Acknowledged(t, steps[1..], side));
    }
  }

  lemma Reassociate(a: Bytes, b: Bytes, c: Bytes)
    ensures a + b + c == a + (b + c)
  {}

  /** The peer is offered exactly the data whose sends reported success if and only if no write was
      short: pc_send answers -1 to a short write but cannot take its bytes back. */
  lemma AcknowledgedIsWrittenExactly(w: World, steps: seq<Step>, side: Side)
    requires Initial(w) && Runs(w, steps)
    ensures WrittenBy(After(w, steps), side) == Acknowledged(w, steps, side) <==> Unacknowledged(w, steps, side) == 0
  {
    hide Next, Enabled, Surplus, Confirmed;
    WrittenAdds(w, steps, side);
    assert WrittenBy(w, side) == [];
    assert WrittenBy(w, side) + Acknowledged(w, steps, side) == Acknowledged(w, steps, side);
  }
}
