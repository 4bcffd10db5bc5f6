/** Lock file names: "<descriptor>.slot<k>.lock", built at src/lock/lock.c:205 and taken apart again
    by release_lock and by the exec'd child. */
module Names {
  import opened CText

  const SLOT_MARK := ".slot"
  const LOCK_SUFFIX := ".lock"

  function SlotName(descriptor: string, slot: nat): string {
    descriptor + SLOT_MARK + Decimal(slot) + LOCK_SUFFIX
  }

  /** The directory entries a scan for `descriptor` looks at: src/lock/lock.c:180. */
  predicate ScanMatches(name: string, descriptor: string) {
    HasPrefix(name, descriptor) && Find(name, LOCK_SUFFIX).At?
  }

  /** Every slot file of a descriptor is seen by that descriptor's scans. */
  lemma SlotNameIsScanned(descriptor: string, slot: nat)
    ensures ScanMatches(SlotName(descriptor, slot), descriptor)
  {
    var name := SlotName(descriptor, slot);
    assert name[..|descriptor|] == descriptor;
    FindFromIsFirst(name, LOCK_SUFFIX, 0);
    assert OccursAt(name, LOCK_SUFFIX, |name| - 5);
  }

  /** src/lock/lock.c:416-419, check_lock: the text before the first dot is the descriptor. */
  predicate CheckMatches(name: string, descriptor: string) {
    && Find(name, ".") == At(|descriptor|)
    && HasPrefix(name, descriptor)
    && Find(name, LOCK_SUFFIX).At?
  }

  /** src/lock/lock.c:704-711, done_lock: skip hidden entries, then the descriptor followed by a dot or
      the end. */
  predicate DoneMatches(name: string, descriptor: string) {
    && name != "" && name[0] != '.'
    && HasPrefix(name, descriptor)
    && (|name| == |descriptor| || name[|descriptor|] == '.')
    && Find(name, LOCK_SUFFIX).At?
  }

  lemma LastNonDigit(a: string, m: nat, b: string, n: nat)
    requires a + SLOT_MARK + Decimal(m) == b + SLOT_MARK + Decimal(n)
    ensures |Decimal(m)| >= |Decimal(n)|
  {
    var s := a + SLOT_MARK + Decimal(m);
    var t := b + SLOT_MARK + Decimal(n);
    assert s[|s| - |Decimal(m)| - 1] == 't';
    forall i | |t| - |Decimal(n)| <= i < |t| ensures IsDigit(t[i]) {
      assert t[i] == Decimal(n)[i - (|t| - |Decimal(n)|)];
    }
  }

  /** Two different (descriptor, slot) pairs never share a file, dots in descriptors included. */
  lemma SlotNameIsInjective(d: string, m: nat, e: string, n: nat)
    requires SlotName(d, m) == SlotName(e, n)
    ensures d == e && m == n
  {
    var s, t := SlotName(d, m), SlotName(e, n);
    var s0, t0 := d + SLOT_MARK + Decimal(m), e + SLOT_MARK + Decimal(n);
    assert s[..|s| - 5] == s0 && t[..|t| - 5] == t0;
    LastNonDigit(d, m, e, n);
    LastNonDigit(e, n, d, m);
    var k := |s0| - |Decimal(m)|;
    assert s0[k..] == Decimal(m) && t0[k..] == Decimal(n);
    assert s0[..k] == d + SLOT_MARK && t0[..k] == e + SLOT_MARK;
    assert (d + SLOT_MARK)[..k - 5] == d && (e + SLOT_MARK)[..k - 5] == e;
    ReadDigitsOfDecimal(m, "");
    ReadDigitsOfDecimal(n, "");
    assert Decimal(m) + "" == Decimal(m) && Decimal(n) + "" == Decimal(n);
  }

  // ---------------------------------------------------------------------------------------------
  // Whose slot files each operation looks at
  // ---------------------------------------------------------------------------------------------

  lemma FoundMeansContained(name: string, pattern: string)
    ensures Find(name, pattern).At? <==> Contains(name, pattern)
  {
    FindFromIsFirst(name, pattern, 0);
  }

  /** Of any directory entry at all: a scan looks at the names that begin with the descriptor and contain
      ".lock". */
  lemma ScanLooksAtExactly(name: string, d: string)
    ensures ScanMatches(name, d) <==> d <= name && Contains(name, ".lock")
  {
    FoundMeansContained(name, LOCK_SUFFIX);
  }

  /** check_lock at those of them that go on with a dot, for a descriptor without one. */
  lemma CheckLooksAtExactly(name: string, d: string)
    ensures CheckMatches(name, d) <==> '.' !in d && d + "." <= name && Contains(name, ".lock")
  {
    FoundMeansContained(name, LOCK_SUFFIX);
    if d <= name { FirstDot(name, d); }
    assert d + "." <= name ==> d <= name by { assert d <= d + "."; }
  }

  /** done_lock at those of them that go on with a dot or end there and are not hidden. */
  lemma DoneLooksAtExactly(name: string, d: string)
    ensures DoneMatches(name, d) <==>
      name != "" && name[0] != '.' && (name == d || d + "." <= name) && Contains(name, ".lock")
  {
    FoundMeansContained(name, LOCK_SUFFIX);
    if d <= name && |d| < |name| {
      assert d + "." <= name <==> name[|d|] == '.' by { assert name[..|d| + 1] == d + [name[|d|]]; }
    }
    assert d + "." <= name ==> d <= name by { assert d <= d + "."; }
  }

  /** What a lock file is called. */
  lemma SlotNameForm(d: string, k: nat)
    ensures SlotName(d, k) == d + ".slot" + Decimal(k) + ".lock" && SlotName("job", 3) == "job.slot3.lock"
  {
    assert Decimal(3) == "3";
  }

  /** A scan for d looks at exactly those slot files whose name begins with d, whoever made them. */
  lemma ScanSeesExactly(e: string, k: nat, d: string)
    ensures ScanMatches(SlotName(e, k), d) <==> HasPrefix(SlotName(e, k), d)
  {
    SlotNameIsScanned(e, k);
  }

  lemma FirstDot(name: string, d: string)
    requires HasPrefix(name, d)
    ensures Find(name, ".") == At(|d|) <==> '.' !in d && HasPrefix(name, d + ".")
  {
    FindFromIsFirst(name, ".", 0);
    assert forall j: nat | j < |d| :: name[j] == d[j] && d[j] in d;
    forall j: nat | j < |name| ensures OccursAt(name, ".", j) <==> name[j] == '.' {
      assert name[j..j + 1] == [name[j]];
    }
    if '.' in d {
      var j :| 0 <= j < |d| && d[j] == '.';
      assert OccursAt(name, ".", j);
    } else {
      assert OccursAt(name, ".", |d|) <==> HasPrefix(name, d + ".") by {
        assert OccursAt(name, ".", |d|) ==> name[..|d| + 1] == d + ".";
      }
      assert forall j: nat | j < |d| :: !OccursAt(name, ".", j);
    }
  }

  /** check_lock looks at a slot file exactly when its descriptor is d or goes on from d with a dot, and
      d itself has no dot: it never sees the locks of a dotted descriptor, not even when asked. */
  lemma CheckSeesExactly(e: string, k: nat, d: string)
    ensures CheckMatches(SlotName(e, k), d) <==> '.' !in d && HasPrefix(e + ".", d + ".")
  {
    var name := SlotName(e, k);
    SlotNameIsScanned(e, k);
    assert name[..|e| + 1] == e + ".";
    if HasPrefix(e + ".", d + ".") {
      assert name[..|d| + 1] == d + "." && name[..|d|] == d;
      FirstDot(name, d);
    }
    if CheckMatches(name, d) {
      FirstDot(name, d);
      FindFromIsFirst(name, ".", 0);
      assert name[|e|..|e| + 1] == "." && OccursAt(name, ".", |e|);
      assert (e + ".")[..|d| + 1] == name[..|d| + 1];
    }
  }

  lemma OwnFileIsChecked(d: string, k: nat)
    ensures CheckMatches(SlotName(d, k), d) <==> '.' !in d
  {
    CheckSeesExactly(d, k, d);
  }

  lemma DotsOfSlotName(e: string, k: nat, i: nat)
    requires |e| < i < |SlotName(e, k)|
    ensures SlotName(e, k)[i] == '.' <==> i == |e| + 5 + |Decimal(k)|
  {
    var name := SlotName(e, k);
    var tail := name[|e|..];
    assert tail == SLOT_MARK + Decimal(k) + LOCK_SUFFIX;
    assert name[i] == tail[i - |e|];
    if 5 <= i - |e| < 5 + |Decimal(k)| {
      assert tail[i - |e|] == Decimal(k)[i - |e| - 5];
    }
  }

  /** done_lock touches a slot file exactly when its name is not hidden and its descriptor is d or goes
      on from d with a dot, or when d spells out the file name up to the suffix or entirely. */
  lemma DoneSeesExactly(e: string, k: nat, d: string)
    ensures DoneMatches(SlotName(e, k), d) <==>
      && e != "" && e[0] != '.'
      && (HasPrefix(e + ".", d + ".") || d == e + SLOT_MARK + Decimal(k) || d == SlotName(e, k))
  {
    var name := SlotName(e, k);
    SlotNameIsScanned(e, k);
    assert name[0] == (e + ".")[0];
    assert name[..|e| + 1] == e + ".";
    var stem := e + SLOT_MARK + Decimal(k);
    assert name[..|stem|] == stem && name[|stem|] == '.';
    if HasPrefix(e + ".", d + ".") {
      assert name[..|d| + 1] == d + "." && name[..|d|] == d;
    }
    if HasPrefix(name, d) && (|name| == |d| || name[|d|] == '.') {
      assert name[..|d|] == d;
      if |d| <= |e| {
        assert (e + ".")[..|d| + 1] == name[..|d| + 1] == d + ".";
      } else if |d| < |name| {
        DotsOfSlotName(e, k, |d|);
      }
    }
  }

  /** done_lock finds a process's own lock exactly when the descriptor neither is empty nor begins with
      a dot. */
  lemma OwnFileIsDone(d: string, k: nat)
    ensures DoneMatches(SlotName(d, k), d) <==> d != "" && d[0] != '.'
  {
    DoneSeesExactly(d, k, d);
  }

  lemma {:induction false} SubsetIsSmaller<T>(a: set<T>, b: set<T>)
    requires a <= b
    ensures |a| <= |b|
    decreases |a|
  {
    if a != {} {
      var e :| e in a;
      SubsetIsSmaller(a - {e}, b - {e});
    }
  }

  /** A set that holds the names of all slots below a limit is at least that large. */
  lemma {:induction false} FullSlotsAreMany(descriptor: string, limit: nat, present: set<string>)
    requires forall k | 0 <= k < limit :: SlotName(descriptor, k) in present
    ensures |present| >= limit
    decreases limit
  {
    if limit > 0 {
      var last := SlotName(descriptor, limit - 1);
      forall k | 0 <= k < limit - 1 ensures SlotName(descriptor, k) in present - {last} {
        if SlotName(descriptor, k) == last { SlotNameIsInjective(descriptor, k, descriptor, limit - 1); }
      }
      FullSlotsAreMany(descriptor, limit - 1, present - {last});
    }
  }

  // ---------------------------------------------------------------------------------------------
  // Taking a path apart
  // ---------------------------------------------------------------------------------------------

  function LockPath(directory: string, descriptor: string, slot: nat): string {
    directory + "/" + SlotName(descriptor, slot)
  }

  datatype Exported = Unset | Exported(value: int)

  /** What the exec'd child exports as WAITLOCK_SLOT: atoi after the first ".slot" of the path. */
  function SlotOfPath(path: string): Exported {
    match Find(path, SLOT_MARK)
    case At(i) => Exported(Atoi(path[i + 5..]))
    case Absent => Unset
  }

  /** What release_lock logs as the descriptor: the text before the first ".slot" of the file name. */
  function DescriptorOfName(name: string): string {
    match Find(name, SLOT_MARK)
    case At(i) => name[..i]
    case Absent => name
  }

  lemma MarkCharacters(s: string, j: nat)
    ensures OccursAt(s, SLOT_MARK, j) ==> s[j] == '.' && forall k | j < k < j + 5 :: s[k] != '.'
  {
    if OccursAt(s, SLOT_MARK, j) {
      var m := s[j..j + 5];
      assert m[0] == '.' && m[1] == 's' && m[2] == 'l' && m[3] == 'o' && m[4] == 't';
      assert s[j] == m[0] && s[j + 1] == m[1] && s[j + 2] == m[2] && s[j + 3] == m[3] && s[j + 4] == m[4];
    }
  }

  /** Appending a slot suffix to text without ".slot" puts the first ".slot" at the join. */
  lemma FirstMarkIsOurs(p: string, rest: string)
    requires !Contains(p, SLOT_MARK)
    ensures Find(p + SLOT_MARK + rest, SLOT_MARK) == At(|p|)
  {
    var s := p + SLOT_MARK + rest;
    FindFromIsFirst(s, SLOT_MARK, 0);
    assert OccursAt(s, SLOT_MARK, |p|);
    assert s[|p|] == '.';
    forall j: nat | j < |p| ensures !OccursAt(s, SLOT_MARK, j) {
      MarkCharacters(s, j);
      assert j + 5 <= |p| ==> p[j..j + 5] == s[j..j + 5];
      assert OccursAt(s, SLOT_MARK, j) && j + 5 <= |p| ==> OccursAt(p, SLOT_MARK, j);
    }
  }

  /** Text that already holds ".slot" keeps its own first ".slot". */
  lemma FirstMarkIsEarlier(p: string, rest: string)
    requires Contains(p, SLOT_MARK)
    ensures Find(p + rest, SLOT_MARK) == Find(p, SLOT_MARK)
    ensures Find(p, SLOT_MARK).At? && Find(p, SLOT_MARK).index + 5 <= |p|
  {
    var s := p + rest;
    FindFromIsFirst(s, SLOT_MARK, 0);
    FindFromIsFirst(p, SLOT_MARK, 0);
    var i := Find(p, SLOT_MARK).index;
    assert s[i..i + 5] == p[i..i + 5];
    assert OccursAt(s, SLOT_MARK, i);
    var k := Find(s, SLOT_MARK).index;
    assert p[k..k + 5] == s[k..k + 5];
    assert OccursAt(p, SLOT_MARK, k);
  }

  lemma PathParts(directory: string, descriptor: string, slot: nat)
    ensures LockPath(directory, descriptor, slot)
         == (directory + "/" + descriptor) + SLOT_MARK + (Decimal(slot) + LOCK_SUFFIX)
  {}

  lemma SlotRecovered(directory: string, descriptor: string, slot: nat)
    requires !Contains(directory + "/" + descriptor, SLOT_MARK)
    ensures SlotOfPath(LockPath(directory, descriptor, slot)) == Exported(slot)
  {
    var p := directory + "/" + descriptor;
    var path := LockPath(directory, descriptor, slot);
    var rest := Decimal(slot) + LOCK_SUFFIX;
    PathParts(directory, descriptor, slot);
    FirstMarkIsOurs(p, rest);
    assert path[|p| + 5..] == rest;
    AtoiOfDecimal(slot, LOCK_SUFFIX);
  }

  lemma DottedPath(directory: string, descriptor: string, slot: nat)
    ensures LockPath(directory, descriptor, slot)
         == (directory + "/" + descriptor) + ("." + ("slot" + Decimal(slot) + LOCK_SUFFIX))
  {
    assert SLOT_MARK == "." + "slot";
  }

  lemma SlotWithEarlierMark(p: string, u: string)
    requires Contains(p, SLOT_MARK)
    ensures Find(p, SLOT_MARK).At? && Find(p + ("." + u), SLOT_MARK) == Find(p, SLOT_MARK)
    ensures var i := Find(p, SLOT_MARK).index + 5;
            i <= |p| && (p + ("." + u))[i..] == p[i..] + "." + u
  {
    FirstMarkIsEarlier(p, "." + u);
  }

  lemma SlotAlwaysTheSame(directory: string, descriptor: string, m: nat, n: nat)
    requires Contains(directory + "/" + descriptor, SLOT_MARK)
    ensures SlotOfPath(LockPath(directory, descriptor, m)) == SlotOfPath(LockPath(directory, descriptor, n))
  {
    hide Find, Atoi, LockPath, Decimal, Contains;
    var p := directory + "/" + descriptor;
    var u, v := "slot" + Decimal(m) + LOCK_SUFFIX, "slot" + Decimal(n) + LOCK_SUFFIX;
    DottedPath(directory, descriptor, m);
    DottedPath(directory, descriptor, n);
    SlotWithEarlierMark(p, u);
    SlotWithEarlierMark(p, v);
    AtoiStopsAtDot(p[Find(p, SLOT_MARK).index + 5..], u, v);
  }

  /** The exported slot is the held slot, for every slot a semaphore can hold, exactly when neither
      the directory nor the descriptor contains ".slot". */
  lemma ExportedSlotIsHeldSlot(directory: string, descriptor: string, maxHolders: nat)
    requires maxHolders > 1
    ensures (forall k: nat | k < maxHolders :: SlotOfPath(LockPath(directory, descriptor, k)) == Exported(k))
       <==> !Contains(directory + "/" + descriptor, SLOT_MARK)
  {
    if Contains(directory + "/" + descriptor, SLOT_MARK) {
      SlotAlwaysTheSame(directory, descriptor, 0, 1);
      assert SlotOfPath(LockPath(directory, descriptor, 0)) != Exported(0)
          || SlotOfPath(LockPath(directory, descriptor, 1)) != Exported(1);
    } else {
      forall k: nat | k < maxHolders ensures SlotOfPath(LockPath(directory, descriptor, k)) == Exported(k) {
        SlotRecovered(directory, descriptor, k);
      }
    }
  }

  /** release_lock names the descriptor correctly exactly when the descriptor has no ".slot". */
  lemma LoggedDescriptorIsOurs(descriptor: string, slot: nat)
    ensures DescriptorOfName(SlotName(descriptor, slot)) == descriptor <==> !Contains(descriptor, SLOT_MARK)
  {
    var rest := Decimal(slot) + LOCK_SUFFIX;
    assert SlotName(descriptor, slot) == descriptor + SLOT_MARK + rest;
    if Contains(descriptor, SLOT_MARK) {
      FirstMarkIsEarlier(descriptor, SLOT_MARK + rest);
      assert descriptor + (SLOT_MARK + rest) == SlotName(descriptor, slot);
    } else {
      FirstMarkIsOurs(descriptor, rest);
      assert SlotName(descriptor, slot)[..|descriptor|] == descriptor;
    }
  }
}
