/**
 * The lock-file protocol as a state machine over the atomic file-system steps of any number
 * of processes: create, stamp, read the clock, stat, decide, stale unlink, close, release.
 */
module FileLock {
  import opened Common

  type Pid = nat

  datatype File = File(inode: nat, mtime: int)

  /**
   * Where a process is. Between Opened and the end of Closing it has the lock; `stamp` is when
   * it last wrote the file. Abandoned: it will never release (it died, or its unlink failed).
   */
  datatype Pc =
    | Outside
    | Opened(inode: nat, stamp: int)
    | Inside(inode: nat, stamp: int)
    | Closing(inode: nat, stamp: int)
    | Abandoned(inode: nat, stamp: int)
    | Contending
    | Clocked(now: int)
    | Stated(now: int, mtime: int)
    | Unlinking

  datatype Disk = Disk(now: int, file: Option<File>, procs: map<Pid, Pc>, nextInode: nat)

  datatype Step =
    | Tick(seconds: nat)
    | Create(p: Pid) | Stamp(p: Pid)
    | ReadClock(p: Pid) | Stat(p: Pid) | Decide(p: Pid) | StaleUnlink(p: Pid)
    | Close(p: Pid) | Release(p: Pid) | Abandon(p: Pid)

  function Place(procs: map<Pid, Pc>, p: Pid): Pc { if p in procs then procs[p] else Outside }

  function Moved(procs: map<Pid, Pc>, p: Pid, pc: Pc): (procs': map<Pid, Pc>)
    ensures Place(procs', p) == pc && forall q :: q != p ==> Place(procs', q) == Place(procs, q)
  {
    procs[p := pc]
  }

  function Move(d: Disk, p: Pid, pc: Pc): Disk { d.(procs := Moved(d.procs, p, pc)) }

  predicate Holds(pc: Pc) { pc.Opened? || pc.Inside? || pc.Closing? || pc.Abandoned? }

  predicate Enabled(d: Disk, s: Step) {
    match s
    case Tick(_) => true
    case Create(p) => Place(d.procs, p).Outside?
    case Stamp(p) => Place(d.procs, p).Opened?
    case ReadClock(p) => Place(d.procs, p).Contending?
    case Stat(p) => Place(d.procs, p).Clocked?
    case Decide(p) => Place(d.procs, p).Stated?
    case StaleUnlink(p) => Place(d.procs, p).Unlinking?
    case Close(p) => Place(d.procs, p).Inside?
    case Release(p) => Place(d.procs, p).Closing?
    case Abandon(p) => Place(d.procs, p).Opened? || Place(d.procs, p).Inside? || Place(d.procs, p).Closing?
  }

  function Next(d: Disk, s: Step, stale: nat): Disk
    requires Enabled(d, s)
  {
    match s
    case Tick(seconds) => d.(now := d.now + seconds)
    case Create(p) =>
      // Exclusive creation; an existing file sends the process to the stale check.
      if d.file.Some? then Move(d, p, Contending)
      else Move(d, p, Opened(d.nextInode, d.now)).(file := Some(File(d.nextInode, d.now)), nextInode := d.nextInode + 1)
    case Stamp(p) =>
      // Writing through the descriptor touches the path only if the path still is this file.
      var own := Place(d.procs, p).inode;
      var d' := Move(d, p, Inside(own, d.now));
      if d.file.Some? && d.file.value.inode == own then d'.(file := Some(File(own, d.now))) else d'
    case ReadClock(p) => Move(d, p, Clocked(d.now))
    case Stat(p) =>
      if d.file == None then Move(d, p, Outside) else Move(d, p, Stated(Place(d.procs, p).now, d.file.value.mtime))
    case Decide(p) =>
      var age := Place(d.procs, p).now - Place(d.procs, p).mtime;
      Move(d, p, if age <= stale then Outside else Unlinking)
    case StaleUnlink(p) => Move(d, p, Outside).(file := None)
    case Close(p) => Move(d, p, Closing(Place(d.procs, p).inode, Place(d.procs, p).stamp))
    case Release(p) => Move(d, p, Outside).(file := None)
    case Abandon(p) => Move(d, p, Abandoned(Place(d.procs, p).inode, Place(d.procs, p).stamp))
  }

  const EMPTY := Disk(0, None, map[], 0)

  /** The states a sequence of steps passes through start to end; None when a step was not enabled. */
  function After(steps: seq<Step>, stale: nat): Option<Disk> {
    if steps == [] then Some(EMPTY)
    else
      var before := After(steps[..|steps| - 1], stale);
      if before.Some? && Enabled(before.value, steps[|steps| - 1])
      then Some(Next(before.value, steps[|steps| - 1], stale))
      else None
  }

  /** At most one process has the lock. */
  ghost predicate Exclusive(d: Disk) {
    forall p, q :: Holds(Place(d.procs, p)) && Holds(Place(d.procs, q)) ==> p == q
  }

  /** The lock file exists exactly while someone has the lock, and it is the holder's, with its stamp. */
  ghost predicate FileIsHolders(d: Disk) {
    && (d.file.Some? <==> exists p :: Holds(Place(d.procs, p)))
    && forall p :: Holds(Place(d.procs, p)) ==> d.file == Some(File(Place(d.procs, p).inode, Place(d.procs, p).stamp))
  }

  ghost predicate Safe(d: Disk) { Exclusive(d) && FileIsHolders(d) }

  /**
   * What can happen to the lock file: it is created anew, removed by a release or a stale unlink,
   * or stamped by the process that created this very file; nothing else touches it.
   */
  lemma FileChangesOnlyBy(d: Disk, s: Step, stale: nat)
    requires Enabled(d, s)
    ensures var file, file' := d.file, Next(d, s, stale).file;
      || file' == file
      || (s.Create? && file == None && file' == Some(File(d.nextInode, d.now)))
      || ((s.Release? || s.StaleUnlink?) && file' == None)
      || (s.Stamp? && file.Some? && file.value.inode == Place(d.procs, s.p).inode && file' == Some(File(file.value.inode, d.now)))
    ensures s.Release? || s.StaleUnlink? ==> Next(d, s, stale).file == None
  {}

  // ---- Without a stale unlink ----

  lemma StepKeepsSafe(d: Disk, s: Step, stale: nat)
    requires Safe(d) && Enabled(d, s) && !s.StaleUnlink?
    ensures Safe(Next(d, s, stale))
  {
    var d' := Next(d, s, stale);
    if s.Stamp? || s.Close? || s.Release? || s.Abandon? {
      assert Holds(Place(d.procs, s.p));
      assert !s.Release? ==> Holds(Place(d'.procs, s.p));
    } else if s.Create? && d.file == None {
      assert Holds(Place(d'.procs, s.p));
    } else {
      assert forall p :: Holds(Place(d.procs, p)) <==> Holds(Place(d'.procs, p));
    }
  }

  /** However slow or dead the holders are: as long as no stale unlink is executed, the lock excludes. */
  lemma {:induction false} ExclusiveUnlessStaleUnlink(steps: seq<Step>, stale: nat)
    requires After(steps, stale).Some? && forall s <- steps :: !s.StaleUnlink?
    ensures Safe(After(steps, stale).value)
  {
    if steps != [] {
      var n := |steps| - 1;
      ExclusiveUnlessStaleUnlink(steps[..n], stale);
      StepKeepsSafe(After(steps[..n], stale).value, steps[n], stale);
    }
  }

  // ---- With prompt holders ----

  ghost predicate AllPrompt(d: Disk, limit: nat) {
    forall p :: Holds(Place(d.procs, p)) ==> d.now - Place(d.procs, p).stamp <= limit
  }

  /** At every moment every holder is within `limit` seconds of its last stamp, and none is abandoned. */
  ghost predicate HeldAtMost(steps: seq<Step>, stale: nat, limit: nat) {
    if steps == [] then true
    else
      && HeldAtMost(steps[..|steps| - 1], stale, limit) && !steps[|steps| - 1].Abandon?
      && (After(steps, stale).Some? ==> AllPrompt(After(steps, stale).value, limit))
  }

  /** No process has seen, or is acting on, an age above the limit. */
  ghost predicate NobodyStale(d: Disk, stale: nat) {
    forall p ::
      && !Place(d.procs, p).Unlinking?
      && (Place(d.procs, p).Clocked? ==> Place(d.procs, p).now <= d.now)
      && (Place(d.procs, p).Stated? ==> Place(d.procs, p).now - Place(d.procs, p).mtime <= stale)
  }

  lemma StepKeepsNobodyStale(d: Disk, s: Step, stale: nat)
    requires Safe(d) && NobodyStale(d, stale) && AllPrompt(d, stale) && Enabled(d, s)
    ensures !s.StaleUnlink? && NobodyStale(Next(d, s, stale), stale)
  {
    if s.Stat? && d.file.Some? {
      var holder :| Holds(Place(d.procs, holder));
      assert d.file.value.mtime == Place(d.procs, holder).stamp;
    }
  }

  /**
   * Mutual exclusion over all interleavings: if every holder releases within the stale limit of
   * its last stamp, no stale unlink ever fires, at most one process has the lock at any moment,
   * and the lock file exists exactly while one does.
   */
  lemma {:induction false} PromptHoldersExclude(steps: seq<Step>, stale: nat, limit: nat)
    requires After(steps, stale).Some? && HeldAtMost(steps, stale, limit) && limit <= stale
    ensures Safe(After(steps, stale).value) && NobodyStale(After(steps, stale).value, stale)
    ensures forall s <- steps :: !s.StaleUnlink?
  {
    if steps != [] {
      var n := |steps| - 1;
      PromptHoldersExclude(steps[..n], stale, limit);
      var before := After(steps[..n], stale).value;
      assert AllPrompt(before, stale) by {
        if n > 0 { assert HeldAtMost(steps[..n], stale, limit); }
      }
      StepKeepsNobodyStale(before, steps[n], stale);
      StepKeepsSafe(before, steps[n], stale);
    }
  }

  // ---- When the lock excludes, exactly ----

  lemma Advance(steps: seq<Step>, d: Disk, s: Step, stale: nat, limit: nat) returns (steps': seq<Step>, d': Disk)
    requires After(steps, stale) == Some(d) && HeldAtMost(steps, stale, limit) && Enabled(d, s) && !s.Abandon?
    requires AllPrompt(Next(d, s, stale), limit)
    ensures After(steps', stale) == Some(d') && HeldAtMost(steps', stale, limit) && d' == Next(d, s, stale)
  {
    steps', d' := steps + [s], Next(d, s, stale);
    assert steps'[..|steps'| - 1] == steps;
  }

  /** Process 0 is inside when the stale limit has passed. */
  lemma HolderIsSlow(stale: nat, limit: nat) returns (steps: seq<Step>, d: Disk)
    requires limit > stale
    ensures After(steps, stale) == Some(d) && HeldAtMost(steps, stale, limit) && AllPrompt(d, limit)
    ensures d.now == stale + 1 && d.file == Some(File(0, 0)) && Place(d.procs, 0) == Inside(0, 0) && Place(d.procs, 1) == Outside
  {
    steps, d := [], EMPTY;
    steps, d := Advance(steps, d, Create(0), stale, limit);
    steps, d := Advance(steps, d, Stamp(0), stale, limit);
    steps, d := Advance(steps, d, Tick(stale + 1), stale, limit);
  }

  lemma SlowHolderLooksStale(steps: seq<Step>, d: Disk, stale: nat, limit: nat) returns (steps': seq<Step>, d': Disk)
    requires After(steps, stale) == Some(d) && HeldAtMost(steps, stale, limit) && AllPrompt(d, limit)
    requires d.now == stale + 1 && d.file == Some(File(0, 0)) && Place(d.procs, 1) == Outside
    ensures After(steps', stale) == Some(d') && HeldAtMost(steps', stale, limit) && AllPrompt(d', limit)
    ensures Place(d'.procs, 1) == Unlinking && Place(d'.procs, 0) == Place(d.procs, 0)
  {
    steps', d' := Advance(steps, d, Create(1), stale, limit);
    steps', d' := Advance(steps', d', ReadClock(1), stale, limit);
    steps', d' := Advance(steps', d', Stat(1), stale, limit);
    steps', d' := Advance(steps', d', Decide(1), stale, limit);
  }

  /** A holder one second slower than the stale limit is overtaken. */
  lemma SlowHolderIsOvertaken(stale: nat, limit: nat) returns (steps: seq<Step>, d: Disk)
    requires limit > stale
    ensures After(steps, stale) == Some(d) && HeldAtMost(steps, stale, limit)
    ensures Place(d.procs, 0).Inside? && Place(d.procs, 1).Inside?
  {
    steps, d := HolderIsSlow(stale, limit);
    steps, d := SlowHolderLooksStale(steps, d, stale, limit);
    steps, d := Advance(steps, d, StaleUnlink(1), stale, limit);
    steps, d := Advance(steps, d, Create(1), stale, limit);
    steps, d := Advance(steps, d, Stamp(1), stale, limit);
  }

  /**
   * Among processes that hold the lock for at most `limit` seconds after their last stamp, the
   * lock excludes in every interleaving if and only if `limit` is within the stale limit.
   */
  lemma ExcludesIff(stale: nat, limit: nat)
    ensures (forall steps | After(steps, stale).Some? && HeldAtMost(steps, stale, limit) ::
               Exclusive(After(steps, stale).value))
            <==> limit <= stale
  {
    if limit <= stale {
      forall steps | After(steps, stale).Some? && HeldAtMost(steps, stale, limit) ensures Exclusive(After(steps, stale).value) {
        PromptHoldersExclude(steps, stale, limit);
      }
    } else {
      var steps, d := SlowHolderIsOvertaken(stale, limit);
      assert Holds(Place(d.procs, 0)) && Holds(Place(d.procs, 1));
      assert !Exclusive(After(steps, stale).value);
    }
  }

  // ---- Dead holders ----

  /** As HeldAtMost, but an abandoned lock is allowed and need not be prompt. */
  ghost predicate LivePrompt(steps: seq<Step>, stale: nat) {
    if steps == [] then true
    else
      && LivePrompt(steps[..|steps| - 1], stale)
      && (After(steps, stale).Some? ==> AllLivePrompt(After(steps, stale).value, stale))
  }

  ghost predicate AllLivePrompt(d: Disk, stale: nat) {
    forall p :: Holds(Place(d.procs, p)) && !Place(d.procs, p).Abandoned? ==> d.now - Place(d.procs, p).stamp <= stale
  }

  lemma LiveAdvance(steps: seq<Step>, d: Disk, s: Step, stale: nat) returns (steps': seq<Step>, d': Disk)
    requires After(steps, stale) == Some(d) && LivePrompt(steps, stale) && Enabled(d, s)
    requires AllLivePrompt(Next(d, s, stale), stale)
    ensures After(steps', stale) == Some(d') && LivePrompt(steps', stale) && d' == Next(d, s, stale)
  {
    steps', d' := steps + [s], Next(d, s, stale);
    assert steps'[..|steps'| - 1] == steps;
  }

  /** Process 0 takes the lock and abandons it; the limit passes. */
  lemma LockAbandoned(stale: nat) returns (steps: seq<Step>, d: Disk)
    ensures After(steps, stale) == Some(d) && LivePrompt(steps, stale) && AllLivePrompt(d, stale)
    ensures d.now == stale + 1 && d.file == Some(File(0, 0)) && Place(d.procs, 1) == Place(d.procs, 2) == Outside
  {
    steps, d := [], EMPTY;
    steps, d := LiveAdvance(steps, d, Create(0), stale);
    steps, d := LiveAdvance(steps, d, Abandon(0), stale);
    steps, d := LiveAdvance(steps, d, Tick(stale + 1), stale);
  }

  /** A process finds the lock and judges it stale. */
  lemma JudgesStale(steps: seq<Step>, d: Disk, p: Pid, stale: nat) returns (steps': seq<Step>, d': Disk)
    requires After(steps, stale) == Some(d) && LivePrompt(steps, stale) && AllLivePrompt(d, stale)
    requires d.file == Some(File(0, 0)) && d.now == stale + 1 && Place(d.procs, p) == Outside
    ensures After(steps', stale) == Some(d') && LivePrompt(steps', stale) && AllLivePrompt(d', stale)
    ensures d'.file == d.file && d'.now == d.now && Place(d'.procs, p) == Unlinking
    ensures forall q :: q != p ==> Place(d'.procs, q) == Place(d.procs, q)
  {
    steps', d' := LiveAdvance(steps, d, Create(p), stale);
    steps', d' := LiveAdvance(steps', d', ReadClock(p), stale);
    steps', d' := LiveAdvance(steps', d', Stat(p), stale);
    steps', d' := LiveAdvance(steps', d', Decide(p), stale);
  }

  /** A process that judged the lock stale removes whatever file is there and takes the lock. */
  lemma RemovesAndEnters(steps: seq<Step>, d: Disk, p: Pid, stale: nat) returns (steps': seq<Step>, d': Disk)
    requires After(steps, stale) == Some(d) && LivePrompt(steps, stale) && AllLivePrompt(d, stale)
    requires Place(d.procs, p) == Unlinking
    ensures After(steps', stale) == Some(d') && LivePrompt(steps', stale) && AllLivePrompt(d', stale)
    ensures Place(d'.procs, p).Inside? && forall q :: q != p ==> Place(d'.procs, q) == Place(d.procs, q)
  {
    steps', d' := LiveAdvance(steps, d, StaleUnlink(p), stale);
    steps', d' := LiveAdvance(steps', d', Create(p), stale);
    steps', d' := LiveAdvance(steps', d', Stamp(p), stale);
  }

  /**
   * One abandoned lock is enough to break exclusion between two prompt processes, whatever the
   * stale limit: both judge the dead lock stale, the first removes it and enters, the second then
   * removes the first's file and enters too. So promptness of the live holders alone never suffices.
   */
  lemma AbandonedLockAdmitsTwo(stale: nat)
    ensures exists steps, d :: After(steps, stale) == Some(d) && LivePrompt(steps, stale)
              && Place(d.procs, 1).Inside? && Place(d.procs, 2).Inside?
  {
    var steps, d := LockAbandoned(stale);
    steps, d := JudgesStale(steps, d, 1, stale);
    steps, d := JudgesStale(steps, d, 2, stale);
    steps, d := RemovesAndEnters(steps, d, 1, stale);
    steps, d := RemovesAndEnters(steps, d, 2, stale);
  }
}
