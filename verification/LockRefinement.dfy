/** The protocol over bytes. The sequential pass of LockDirectory and the undisturbed pass of the
    protocol are the same thing; and every step of the protocol is what happens to the bytes of a
    directory, so that mutual exclusion is a theorem about those bytes. */
module LockRefinement {
  import opened Basics
  import opened Names
  import opened LockRecord
  import opened LockFile
  import P = LockProtocol
  import Q = LockProgress
  import D = LockDirectory
  import UnwrittenFile

  /** The protocol state shows a directory: same names, and every file is what a scan makes of its
      bytes; the live processes are those that process_exists would report. */
  ghost predicate Shows(s: P.State, files: D.Files, alive: set<int>) {
    && s.dir.Keys == files.Keys
    && (forall n | n in files :: s.dir[n].content == D.Classify(files[n]))
    && (forall pid: int :: P.Exists(s, pid) <==> D.Exists(alive, pid))
  }

  lemma {:induction false} CountIsCardinality(s: P.State, names: seq<string>)
    requires Q.Distinct(names)
    ensures Q.LiveCount(s, names) == |set n | n in names && Q.LiveRecord(s, n)|
    decreases |names|
  {
    hide Q.LiveRecord;
    var live := set n | n in names && Q.LiveRecord(s, n);
    if names == [] {
      assert live == {};
    } else {
      var rest := names[1..];
      var fewer := set n | n in rest && Q.LiveRecord(s, n);
      CountIsCardinality(s, rest);
      assert names[0] !in rest && forall n :: n in names <==> n == names[0] || n in rest;
      if Q.LiveRecord(s, names[0]) {
        assert live == fewer + {names[0]};
      } else {
        assert live == fewer;
      }
    }
  }

  lemma SameVerdicts(s: P.State, files: D.Files, alive: set<int>, n: string)
    requires Shows(s, files, alive) && n in files
    ensures Q.LiveRecord(s, n) <==> D.IsLive(files[n], alive)
    ensures P.DeadRecord(s, n) <==> D.IsDead(files[n], alive)
  {
    hide D.Classify;
  }

  lemma SameCount(s: P.State, p: P.Pid, names: seq<string>, files: D.Files, alive: set<int>)
    requires Shows(s, files, alive) && p in s.procs && Q.Lists(s, p, names)
    ensures Q.LiveCount(s, names) == |D.LiveNames(files, s.procs[p].descriptor, alive)|
  {
    hide D.Classify, ScanMatches, D.IsLive, Q.LiveRecord;
    CountIsCardinality(s, names);
    forall n | n in files ensures Q.LiveRecord(s, n) <==> D.IsLive(files[n], alive) {
      SameVerdicts(s, files, alive, n);
    }
    assert (set n | n in names && Q.LiveRecord(s, n)) == D.LiveNames(files, s.procs[p].descriptor, alive);
  }

  lemma SameReaped(s: P.State, p: P.Pid, names: seq<string>, files: D.Files, alive: set<int>)
    requires Shows(s, files, alive) && p in s.procs && Q.Lists(s, p, names)
    ensures Q.Reaped(s, names).Keys == D.Reaped(files, s.procs[p].descriptor, alive).Keys
    ensures forall n | n in Q.Reaped(s, names) :: n in s.dir && Q.Reaped(s, names)[n] == s.dir[n]
  {
    hide D.Classify, ScanMatches, D.IsDead, P.Exists;
    forall n | n in files ensures P.DeadRecord(s, n) <==> D.IsDead(files[n], alive) {
      SameVerdicts(s, files, alive, n);
    }
  }

  lemma {:induction false} SameFirst(dir: map<string, P.File>, files: D.Files, descriptor: string, slot: nat,
                                     limit: nat)
    requires dir.Keys == files.Keys && slot <= limit
    ensures Q.FirstFree(dir, descriptor, slot, limit)
         == D.FirstClaimable(files, descriptor, (k: nat) => true, slot, limit)
    decreases limit - slot
  {
    hide SlotName;
    if slot < limit { SameFirst(dir, files, descriptor, slot + 1, limit); }
  }

  /** The end of an undisturbed pass of the protocol, by the outcome of the sequential pass. */
  function EndOf(outcome: D.Outcome, timeout: int): P.Pc {
    match outcome
    case Claimed(k) => P.Holding(k)
    case Full => if timeout <= 0 then P.Returned(P.Busy) else P.Waiting
    case NoSlot => P.Waiting
  }

  lemma SameOutcome(s: P.State, p: P.Pid, names: seq<string>, files: D.Files, alive: set<int>)
    requires Shows(s, files, alive) && p in s.procs && Q.Lists(s, p, names)
    ensures Q.PassResult(s, p, names)
         == EndOf(D.Undisturbed(files, s.procs[p].descriptor, alive, s.procs[p].maxHolders), s.procs[p].timeout)
  {
    hide D.LiveNames, D.Reaped, Q.Reaped, Q.LiveCount, Q.FirstFree, D.FirstClaimable, Shows, Q.Lists;
    var proc := s.procs[p];
    SameCount(s, p, names, files, alive);
    SameReaped(s, p, names, files, alive);
    SameFirst(Q.Reaped(s, names), D.Reaped(files, proc.descriptor, alive), proc.descriptor, 0, proc.maxHolders);
  }

  lemma SameProcesses(s: P.State, t: P.State, p: P.Pid, pc: P.Pc)
    requires p in s.procs && t.procs == s.procs[p := s.procs[p].(pc := pc)]
    ensures forall pid: int :: P.Exists(t, pid) <==> P.Exists(s, pid)
  {}

  /** The sequential pass refines the protocol: run alone, the process's own steps end where the pass
      ends, and the directory they leave shows the bytes that the pass leaves. */
  lemma PassRefinesProtocol(s: P.State, p: P.Pid, names: seq<string>, files: D.Files, alive: set<int>, who: D.Holder,
                            times: nat -> int)
    requires P.Live(s, p) && s.procs[p].pc.Top? && s.procs[p].timeout != 0 && Q.Lists(s, p, names)
    requires Shows(s, files, alive) && who.pid == p
    ensures P.Runs(s, Q.PassActions(s, p, names))
    ensures var proc := s.procs[p]; var t := P.After(s, Q.PassActions(s, p, names));
            var outcome := D.Undisturbed(files, proc.descriptor, alive, proc.maxHolders);
            var info := D.Prepare(proc.descriptor, proc.maxHolders, who);
            (t.procs == s.procs[p := proc.(pc := EndOf(outcome, proc.timeout))]
             && Shows(t, D.PassFiles(files, proc.descriptor, alive, outcome, info, times), alive))
  {
    hide D.LiveNames, D.Reaped, D.Undisturbed, D.Classify, Q.Reaped, Q.PassResult, Q.PassActions, D.LockFor, SlotName,
      P.Exists, Q.Lists, D.Prepare, P.Signed;
    var proc := s.procs[p];
    Q.PassAlone(s, p, names);
    SameOutcome(s, p, names, files, alive);
    SameReaped(s, p, names, files, alive);
    var t := P.After(s, Q.PassActions(s, p, names));
    SameProcesses(s, t, p, t.procs[p].pc);
    var outcome := D.Undisturbed(files, proc.descriptor, alive, proc.maxHolders);
    if outcome.Claimed? { SignedIsSeen(p, proc, who, outcome.slot, times(outcome.slot)); }
    ReapedIsPart(files, proc.descriptor, alive);
  }

  /** The written record is what the protocol says that a finished claim leaves. */
  lemma SignedIsSeen(p: P.Pid, proc: P.Proc, who: D.Holder, slot: nat, time: int)
    requires who.pid == p
    ensures P.Signed(p, proc)
         == P.File(Some(p), D.Classify(D.LockFor(D.Prepare(proc.descriptor, proc.maxHolders, who), slot, time)))
  {
    hide D.Classify, D.LockFor, D.Prepare;
    D.PreparedIsValid(proc.descriptor, proc.maxHolders, who);
    D.PreparedPid(proc.descriptor, proc.maxHolders, who);
    D.OwnLockIsValid(D.Prepare(proc.descriptor, proc.maxHolders, who), slot, time);
  }

  lemma ReapedIsPart(files: D.Files, descriptor: string, alive: set<int>)
    ensures forall n | n in D.Reaped(files, descriptor, alive) ::
      n in files && D.Reaped(files, descriptor, alive)[n] == files[n]
  {}

  // ---------------------------------------------------------------------------------------------
  // check_lock and done_lock against the protocol
  // ---------------------------------------------------------------------------------------------

  /** The entries that check_lock reads: the matching ones that can be opened. */
  ghost predicate ListsForCheck(files: D.Files, descriptor: string, names: seq<string>) {
    && Q.Distinct(names)
    && forall n :: n in names <==> n in files && CheckMatches(n, descriptor) && files[n].readable
  }

  ghost predicate ListsForDone(files: D.Files, descriptor: string, names: seq<string>) {
    Q.Distinct(names) && forall n :: n in names <==> n in files && DoneMatches(n, descriptor)
  }

  /** What process_exists and kill answer when nothing changes while done_lock runs: a process that is not
      there is not there twice and takes no signal. */
  ghost predicate Steady(files: D.Files, alive: set<int>, probe: string -> D.Probe) {
    forall n | n in files && D.Classify(files[n]).Valid? ::
      && (probe(n).present <==> D.Exists(alive, D.Classify(files[n]).pid))
      && (probe(n).stillPresent <==> D.Exists(alive, D.Classify(files[n]).pid))
  }

  lemma SweepShows(s: P.State, t: P.State, p: P.Pid, proc: P.Proc, files: D.Files, after: D.Files, alive: set<int>)
    requires Shows(s, files, alive) && P.Live(s, p) && proc.alive && t.procs == s.procs[p := proc]
    requires t.dir.Keys == after.Keys
    requires forall n | n in after :: n in files && after[n] == files[n]
    requires forall n | n in t.dir :: n in s.dir && t.dir[n] == s.dir[n]
    ensures Shows(t, after, alive)
  {
    hide D.Classify;
    assert forall q: P.Pid :: P.Live(t, q) <==> P.Live(s, q);
  }

  /** An undisturbed check_lock: the protocol's steps end with the directory that the method leaves. */
  lemma CheckRefinesProtocol(s: P.State, p: P.Pid, descriptor: string, names: seq<string>, files: D.Files,
                             alive: set<int>)
    requires P.Enabled(s, P.Sweep(p, descriptor, P.Check)) && Shows(s, files, alive)
    requires ListsForCheck(files, descriptor, names)
    ensures P.Runs(s, Q.SweepActions(s, p, descriptor, P.Check, names))
    ensures Shows(P.After(s, Q.SweepActions(s, p, descriptor, P.Check, names)), D.CheckFiles(files, descriptor), alive)
  {
    hide D.Classify, CheckMatches, P.Exists, Q.SweepActions, P.Runs, P.After;
    Q.SweepAlone(s, p, descriptor, P.Check, names);
    var t := P.After(s, Q.SweepActions(s, p, descriptor, P.Check, names));
    UnreadableIsInvalid(files);
    assert t.dir.Keys == D.CheckFiles(files, descriptor).Keys;
    SweepShows(s, t, p, P.Proc(true, descriptor, 1, -1, P.Outside), files, D.CheckFiles(files, descriptor), alive);
  }

  lemma UnreadableIsInvalid(files: D.Files)
    ensures forall n | n in files :: D.Classify(files[n]).Valid? ==> files[n].readable
  {}

  /** An undisturbed done_lock: the same. In particular the files of processes that are there stay. */
  lemma DoneRefinesProtocol(s: P.State, p: P.Pid, descriptor: string, names: seq<string>, files: D.Files,
                            alive: set<int>, probe: string -> D.Probe)
    requires P.Enabled(s, P.Sweep(p, descriptor, P.Done)) && Shows(s, files, alive)
    requires ListsForDone(files, descriptor, names) && Steady(files, alive, probe)
    ensures P.Runs(s, Q.SweepActions(s, p, descriptor, P.Done, names))
    ensures Shows(P.After(s, Q.SweepActions(s, p, descriptor, P.Done, names)), D.DoneFiles(files, descriptor, probe),
                  alive)
  {
    hide D.Classify, DoneMatches, P.Exists, D.Exists, Q.SweepActions, P.Runs, P.After;
    Q.SweepAlone(s, p, descriptor, P.Done, names);
    var t := P.After(s, Q.SweepActions(s, p, descriptor, P.Done, names));
    var after := D.DoneFiles(files, descriptor, probe);
    assert t.dir.Keys == after.Keys;
    SweepShows(s, t, p, P.Proc(true, descriptor, 1, -1, P.Outside), files, after, alive);
  }

  // ---------------------------------------------------------------------------------------------
  // A directory of bytes under interleaving
  // ---------------------------------------------------------------------------------------------

  /** A file as the system has it: who created it, which is what a write through an open descriptor goes
      by, and its bytes. */
  datatype Node = Node(owner: Option<P.Pid>, data: D.FileData)

  datatype World = World(nodes: map<string, Node>, procs: map<P.Pid, P.Proc>)

  /** What the processes make of the bytes. */
  function Seen(w: World): P.State {
    P.State(map n | n in w.nodes :: P.File(w.nodes[n].owner, D.Classify(w.nodes[n].data)), w.procs)
  }

  /** A step with what it needs at the level of bytes: the bytes a short write leaves, and time(). */
  datatype Move = Move(action: P.Action, leftover: Bytes, time: int)

  /** What each process finds out about itself. */
  type About = P.Pid -> D.Holder

  ghost predicate Identified(about: About) {
    forall p: P.Pid :: about(p).pid == p
  }

  /** What a short write leaves never passes the checksum: the one assumption about bytes. */
  predicate ByteEnabled(w: World, m: Move) {
    && P.Enabled(Seen(w), m.action)
    && (m.action.WriteFails? ==> D.Classify(D.FileData(true, m.leftover)).Invalid?)
  }

  function Goto(w: World, p: P.Pid, pc: P.Pc): World
    requires p in w.procs
  {
    w.(procs := w.procs[p := w.procs[p].(pc := pc)])
  }

  function Unlink(w: World, name: string): World {
    w.(nodes := w.nodes - {name})
  }

  /** A write through the descriptor that p has open reaches the file p created, if it is still there. */
  function Store(w: World, p: P.Pid, name: string, data: D.FileData): World {
    if name in w.nodes && w.nodes[name].owner == Some(p) then w.(nodes := w.nodes[name := Node(Some(p), data)]) else w
  }

  function Target(w: World, p: P.Pid): string
    requires p in w.procs && (w.procs[p].pc.Claiming? || P.HasFile(w.procs[p].pc))
  {
    P.PathOf(w.procs[p], w.procs[p].pc.slot)
  }

  /** One step on the bytes. Steps that do not touch the directory only move their process. */
  function ByteNext(w: World, m: Move, about: About): World
    requires P.Enabled(Seen(w), m.action)
  {
    match m.action
    case Inspect(p, name) => Goto(w, p, P.AfterRead(w.procs[p].pc.task, name, D.Classify(w.nodes[name].data)))
    case Reap(p) => Unlink(Goto(w, p, P.Scanning(w.procs[p].pc.task)), w.procs[p].pc.name)
    case TryOpen(p) =>
      var slot := w.procs[p].pc.slot;
      if Target(w, p) in w.nodes then Goto(w, p, P.Claiming(slot + 1))
      else Goto(w.(nodes := w.nodes[Target(w, p) := Node(Some(p), D.FileData(true, []))]), p, P.Created(slot))
    case Write(p) =>
      var proc := w.procs[p];
      var info := D.Prepare(proc.descriptor, proc.maxHolders, about(p));
      Store(Goto(w, p, P.Holding(proc.pc.slot)), p, Target(w, p), D.LockFor(info, proc.pc.slot, m.time))
    case WriteFails(p) =>
      Store(Goto(w, p, P.Failed(w.procs[p].pc.slot)), p, Target(w, p), D.FileData(true, m.leftover))
    case Discard(p) => Unlink(Goto(w, p, P.Claiming(w.procs[p].pc.slot + 1)), Target(w, p))
    case Release(p) => Unlink(Goto(w, p, P.Outside), Target(w, p))
    case _ => w.(procs := P.Next(Seen(w), m.action).procs)
  }

  lemma SeenUnlink(w: World, name: string)
    ensures Seen(Unlink(w, name)) == P.Unlink(Seen(w), name)
  {
    hide D.Classify;
  }

  lemma SeenGoto(w: World, p: P.Pid, pc: P.Pc)
    requires p in w.procs
    ensures Seen(Goto(w, p, pc)) == P.Goto(Seen(w), p, pc)
  {
    hide D.Classify;
  }

  lemma CreateShows(w: World, m: Move, about: About)
    requires ByteEnabled(w, m) && m.action.TryOpen?
    ensures Seen(ByteNext(w, m, about)) == P.Next(Seen(w), m.action)
  {
    hide D.Classify, SlotName;
    UnwrittenFile.EmptyFileIsInvalid(true);
  }

  lemma WriteShows(w: World, m: Move, about: About)
    requires P.Inv(Seen(w)) && Identified(about) && ByteEnabled(w, m) && m.action.Write?
    ensures Seen(ByteNext(w, m, about)) == P.Next(Seen(w), m.action)
  {
    hide D.Classify, D.LockFor, D.Prepare, SlotName, P.Inv, P.Signed, Identified;
    var p := m.action.p;
    var proc := w.procs[p];
    P.HolderHasFile(Seen(w), p);
    AboutIs(about, p);
    SignedIsSeen(p, proc, about(p), proc.pc.slot, m.time);
    var t, u := Seen(ByteNext(w, m, about)), P.Next(Seen(w), m.action);
    assert t.dir == u.dir && t.procs == u.procs;
  }

  lemma AboutIs(about: About, p: P.Pid)
    requires Identified(about)
    ensures about(p).pid == p
  {}

  lemma ShortWriteShows(w: World, m: Move, about: About)
    requires P.Inv(Seen(w)) && ByteEnabled(w, m) && m.action.WriteFails?
    ensures Seen(ByteNext(w, m, about)) == P.Next(Seen(w), m.action)
  {
    hide D.Classify, SlotName, P.Inv;
    P.HolderHasFile(Seen(w), m.action.p);
    var t, u := Seen(ByteNext(w, m, about)), P.Next(Seen(w), m.action);
    assert t.dir == u.dir && t.procs == u.procs;
  }

  lemma OtherStepShows(w: World, m: Move, about: About)
    requires ByteEnabled(w, m)
    requires !m.action.TryOpen? && !m.action.Write? && !m.action.WriteFails?
    ensures Seen(ByteNext(w, m, about)) == P.Next(Seen(w), m.action)
  {
    hide D.Classify, SlotName, P.Matches, P.AfterRead, P.AfterJudgement, P.AfterScan;
    match m.action
    case Reap(p) =>
      SeenGoto(w, p, P.Scanning(w.procs[p].pc.task));
      SeenUnlink(Goto(w, p, P.Scanning(w.procs[p].pc.task)), w.procs[p].pc.name);
    case Discard(p) =>
      SeenGoto(w, p, P.Claiming(w.procs[p].pc.slot + 1));
      SeenUnlink(Goto(w, p, P.Claiming(w.procs[p].pc.slot + 1)), Target(w, p));
    case Release(p) =>
      SeenGoto(w, p, P.Outside);
      SeenUnlink(Goto(w, p, P.Outside), Target(w, p));
    case _ =>
  }

  /** Every step on the bytes is the protocol's step on what the processes see. */
  lemma ByteStepIsProtocolStep(w: World, m: Move, about: About)
    requires P.Inv(Seen(w)) && Identified(about) && ByteEnabled(w, m)
    ensures Seen(ByteNext(w, m, about)) == P.Next(Seen(w), m.action)
  {
    hide P.Inv, P.Next, P.Enabled, ByteNext, Seen, Identified;
    match m.action
    case TryOpen(_) => CreateShows(w, m, about);
    case Write(_) => WriteShows(w, m, about);
    case WriteFails(_) => ShortWriteShows(w, m, about);
    case _ => OtherStepShows(w, m, about);
  }

  /** Every step that the protocol allows has a step on the bytes: a short write may leave nothing. */
  lemma ProtocolStepIsByteStep(w: World, a: P.Action, time: int)
    requires P.Enabled(Seen(w), a)
    ensures ByteEnabled(w, Move(a, [], time))
  {
    hide P.Enabled, D.Classify, Seen;
    UnwrittenFile.EmptyFileIsInvalid(true);
  }

  // ---------------------------------------------------------------------------------------------
  // Runs
  // ---------------------------------------------------------------------------------------------

  predicate ByteRuns(w: World, moves: seq<Move>, about: About)
    decreases |moves|
  {
    moves == [] || (ByteEnabled(w, moves[0]) && ByteRuns(ByteNext(w, moves[0], about), moves[1..], about))
  }

  function ByteAfter(w: World, moves: seq<Move>, about: About): World
    requires ByteRuns(w, moves, about)
    decreases |moves|
  {
    if moves == [] then w else ByteAfter(ByteNext(w, moves[0], about), moves[1..], about)
  }

  ghost predicate ByteDisciplined(w: World, moves: seq<Move>, about: About)
    requires ByteRuns(w, moves, about)
    decreases |moves|
  {
    moves != [] ==>
      && P.StepDiscipline(Seen(w), moves[0].action)
      && ByteDisciplined(ByteNext(w, moves[0], about), moves[1..], about)
  }

  /** Every live holder's file is there, and its bytes name that holder to every reader. */
  predicate Recorded(w: World, about: About, q: P.Pid) {
    P.Live(Seen(w), q) && w.procs[q].pc.Holding? ==>
      && Target(w, q) in w.nodes
      && D.RecordsHolder(w.nodes[Target(w, q)].data, w.procs[q].descriptor, w.procs[q].maxHolders, about(q))
  }

  ghost predicate AllRecorded(w: World, about: About) {
    forall q: P.Pid :: Recorded(w, about, q)
  }

  lemma WriterIsRecorded(w: World, m: Move, about: About)
    requires P.Inv(Seen(w)) && ByteEnabled(w, m) && m.action.Write?
    ensures Recorded(ByteNext(w, m, about), about, m.action.p)
  {
    hide D.Classify, D.LockFor, D.Prepare, D.RecordsHolder, SlotName, P.Inv;
    var p := m.action.p;
    var proc := w.procs[p];
    P.HolderHasFile(Seen(w), p);
    D.LockRecordsHolder(proc.descriptor, proc.maxHolders, about(p), proc.pc.slot, m.time);
  }

  /** Nobody else changes the bytes of a file that q created. */
  lemma BytesStay(w: World, m: Move, about: About, q: P.Pid, name: string)
    requires ByteEnabled(w, m) && m.action.p != q && name in w.nodes && w.nodes[name].owner == Some(q)
    requires name in ByteNext(w, m, about).nodes
    ensures ByteNext(w, m, about).nodes[name] == w.nodes[name]
  {
    hide D.Classify, D.LockFor, D.Prepare, SlotName, P.Matches, P.AfterRead, P.AfterJudgement, P.AfterScan;
  }

  /** Only writing makes a holder. */
  lemma HoldersHeld(s: P.State, a: P.Action, q: P.Pid)
    requires P.Enabled(s, a) && P.Live(P.Next(s, a), q) && P.Next(s, a).procs[q].pc.Holding? && a != P.Write(q)
    ensures a.p != q && P.Live(s, q) && P.Next(s, a).procs[q] == s.procs[q]
  {
    hide SlotName, P.Matches;
  }

  lemma HolderStaysRecorded(w: World, m: Move, about: About, q: P.Pid)
    requires ByteEnabled(w, m) && Identified(about) && P.Inv(Seen(w)) && P.Inv(Seen(ByteNext(w, m, about)))
    requires Recorded(w, about, q) && m.action != P.Write(q)
    ensures Recorded(ByteNext(w, m, about), about, q)
  {
    hide D.Classify, D.RecordsHolder, SlotName, P.Inv, P.Next, P.Enabled, ByteNext, Identified;
    var t := ByteNext(w, m, about);
    ByteStepIsProtocolStep(w, m, about);
    if P.Live(Seen(t), q) && t.procs[q].pc.Holding? {
      HoldersHeld(Seen(w), m.action, q);
      P.HolderHasFile(Seen(w), q);
      P.HolderHasFile(Seen(t), q);
      BytesStay(w, m, about, q, Target(w, q));
    }
  }

  lemma RecordedStep(w: World, m: Move, about: About)
    requires ByteEnabled(w, m) && Identified(about) && P.Inv(Seen(w)) && P.Inv(Seen(ByteNext(w, m, about)))
    requires AllRecorded(w, about)
    ensures AllRecorded(ByteNext(w, m, about), about)
  {
    hide P.Inv, P.Next, P.Enabled, ByteNext, Recorded, Identified, Seen;
    forall q: P.Pid ensures Recorded(ByteNext(w, m, about), about, q) {
      if m.action == P.Write(q) { WriterIsRecorded(w, m, about); } else { HolderStaysRecorded(w, m, about, q); }
    }
  }

  lemma {:induction false} ByteRunKeepsAll(w: World, moves: seq<Move>, about: About)
    requires P.Inv(Seen(w)) && P.Fresh(Seen(w)) && AllRecorded(w, about) && Identified(about)
    requires ByteRuns(w, moves, about) && ByteDisciplined(w, moves, about)
    ensures P.Inv(Seen(ByteAfter(w, moves, about))) && AllRecorded(ByteAfter(w, moves, about), about)
    decreases |moves|
  {
    hide P.Inv, P.Fresh, P.Next, P.Enabled, P.StepDiscipline, ByteNext, AllRecorded, Identified, Seen;
    if moves != [] {
      ByteStepIsProtocolStep(w, moves[0], about);
      P.DisciplinedStep(Seen(w), moves[0].action);
      RecordedStep(w, moves[0], about);
      ByteRunKeepsAll(ByteNext(w, moves[0], about), moves[1..], about);
    }
  }

  lemma InitiallyRecorded(w: World, about: About)
    requires P.Initial(Seen(w))
    ensures P.Inv(Seen(w)) && P.Fresh(Seen(w)) && AllRecorded(w, about)
  {
    hide D.Classify, SlotName, D.RecordsHolder;
    P.InitialInv(Seen(w));
  }

  /** Mutual exclusion over bytes: whatever files the directory holds at first, after any interleaving of
      acquirers, releasers, check_lock, done_lock and crashes no two live holders of a descriptor share a
      slot, they number at most the largest limit in use, and each one's file is in the directory with
      bytes that every reader takes for a valid record of that holder, descriptor and limit. */
  lemma BytesExclude(w: World, moves: seq<Move>, about: About, descriptor: string, limit: nat)
    requires P.Initial(Seen(w)) && Identified(about)
    requires ByteRuns(w, moves, about) && ByteDisciplined(w, moves, about)
    requires forall p | P.Holds(Seen(ByteAfter(w, moves, about)), p, descriptor) ::
      ByteAfter(w, moves, about).procs[p].maxHolders <= limit
    ensures P.Exclusive(Seen(ByteAfter(w, moves, about)))
    ensures |P.Holders(Seen(ByteAfter(w, moves, about)), descriptor)| <= limit
    ensures forall q: P.Pid :: Recorded(ByteAfter(w, moves, about), about, q)
  {
    hide P.Inv, P.Fresh, P.Initial, Recorded;
    InitiallyRecorded(w, about);
    ByteRunKeepsAll(w, moves, about);
    P.InvIsExclusive(Seen(ByteAfter(w, moves, about)));
    P.HoldersAreBounded(Seen(ByteAfter(w, moves, about)), descriptor, limit);
  }
}
