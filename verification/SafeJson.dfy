/**
 * Crash-safe JSON files: the temporary-file-and-replace write, its backup copies, and the read
 * that quarantines a corrupt file and falls back to the backup.
 *
 * A write is a sequence of atomic disk operations. `left` says how many of them the process
 * lives to complete; the one it dies in may leave any prefix of its bytes behind.
 */
module SafeJson {
  import opened Common

  // ---- Text (the well-formed sequences of section 4 of RFC 3629) ----

  predicate Within(b: Bytes, i: nat, low: int, high: int) { i < |b| && low <= b[i] as int <= high }

  /** The length of the character that starts at `i`; 0 if there is none. */
  function CharLength(b: Bytes, i: nat): (n: nat)
    requires i < |b|
    ensures i + n <= |b|
  {
    var tail1, tail2, tail3 := Within(b, i + 1, 0x80, 0xBF), Within(b, i + 2, 0x80, 0xBF), Within(b, i + 3, 0x80, 0xBF);
    if Within(b, i, 0x00, 0x7F) then 1
    else if Within(b, i, 0xC2, 0xDF) && tail1 then 2
    else if Within(b, i, 0xE0, 0xE0) && Within(b, i + 1, 0xA0, 0xBF) && tail2 then 3
    else if Within(b, i, 0xED, 0xED) && Within(b, i + 1, 0x80, 0x9F) && tail2 then 3
    else if Within(b, i, 0xE1, 0xEF) && b[i] != 0xED && tail1 && tail2 then 3
    else if Within(b, i, 0xF0, 0xF0) && Within(b, i + 1, 0x90, 0xBF) && tail2 && tail3 then 4
    else if Within(b, i, 0xF1, 0xF3) && tail1 && tail2 && tail3 then 4
    else if Within(b, i, 0xF4, 0xF4) && Within(b, i + 1, 0x80, 0x8F) && tail2 && tail3 then 4
    else 0
  }

  predicate IsTextFrom(b: Bytes, i: nat)
    requires i <= |b|
    decreases |b| - i
  {
    i == |b| || (CharLength(b, i) > 0 && IsTextFrom(b, i + CharLength(b, i)))
  }

  predicate IsText(b: Bytes) { IsTextFrom(b, 0) }

  /** The byte 255 never occurs in text, so any bytes that contain it are none. */
  lemma {:induction false} NoSuchByte(b: Bytes, i: nat, k: nat)
    requires i <= k < |b| && b[k] == 255
    ensures !IsTextFrom(b, i)
    decreases |b| - i
  {
    if CharLength(b, i) > 0 { NoSuchByte(b, i + CharLength(b, i), k); }
  }

  /**
   * What loading bytes comes to: a value; not JSON, which the program handles; or an exception it
   * does not handle, because the bytes are not text or the parser gives up on them.
   */
  datatype Loaded<+T> = Value(value: T) | NotJson | Raises

  /** Serialisation is abstract; all that matters is that loading undoes dumping. */
  datatype Codec<!T> = Codec(dump: T -> Bytes, parse: Bytes -> Loaded<T>)
  {
    function Load(b: Bytes): Loaded<T> { if IsText(b) then parse(b) else Raises }
  }

  ghost predicate RoundTrips<T(!new)>(c: Codec<T>) {
    forall p: T :: c.Load(c.dump(p)) == Value(p)
  }

  datatype Path = Main | Backup | Temp(id: nat) | Quarantine(id: nat)

  datatype Disk = Disk(files: map<Path, Bytes>, left: nat, crashed: bool)

  // ---- Atomic operations, each a no-op once the process is dead ----

  function Spend(d: Disk, files: map<Path, Bytes>): Disk {
    if d.crashed then d
    else if d.left == 0 then d.(crashed := true)
    else Disk(files, d.left - 1, false)
  }

  function Truncate(d: Disk, p: Path): Disk { Spend(d, d.files[p := []]) }

  function Put(d: Disk, p: Path, bytes: Bytes, keep: nat): Disk {
    var already := if p in d.files then d.files[p] else [];
    if !d.crashed && d.left == 0
    then Disk(d.files[p := already + bytes[..Min(keep, |bytes|)]], 0, true)
    else Spend(d, d.files[p := already + bytes])
  }

  function Rename(d: Disk, src: Path, dst: Path): Disk
    requires !d.crashed ==> src in d.files && src != dst
  {
    if d.crashed then d else Spend(d, d.files[dst := d.files[src]] - {src})
  }

  function Remove(d: Disk, p: Path): Disk { Spend(d, d.files - {p}) }

  // ---- The program's writes ----

  /** What may go wrong in one backup copy; the program ignores the error. */
  datatype CopyFault = NoFault | OpenFails | WriteFails(keep: nat)

  datatype Write<T> = Write(
    payload: T, tempId: nat, keep: nat, dumpFails: bool, busy: nat, first: CopyFault, second: CopyFault)

  const REPLACE_ATTEMPTS: nat := 5

  function CopyMain(d: Disk, fault: CopyFault, keep: nat): Disk
    requires !d.crashed ==> Main in d.files
  {
    if d.crashed || fault.OpenFails? then d
    else if fault.WriteFails? then
      Put(Truncate(d, Backup), Backup, d.files[Main][..Min(fault.keep, |d.files[Main]|)], keep)
    else Put(Truncate(d, Backup), Backup, d.files[Main], keep)
  }

  /** The inner write: temporary file, then replace with up to five attempts. */
  function WriteFile<T>(d: Disk, w: Write<T>, bytes: Bytes): (r: (Disk, bool)) {
    var temp := Temp(w.tempId);
    var opened_ := Truncate(d, temp);
    if w.dumpFails then (Remove(opened_, temp), false)
    else
      var full := Put(opened_, temp, bytes, w.keep);
      if full.crashed then (full, false)
      else if w.busy < REPLACE_ATTEMPTS then
        var done := Rename(full, temp, Main);
        (done, !done.crashed)
      else (Remove(full, temp), false)
  }

  /** The outer write, with a backup copy before and after. */
  function WriteJson<T>(d: Disk, w: Write<T>, bytes: Bytes): (r: (Disk, bool)) {
    var saved := if Main in d.files then CopyMain(d, w.first, w.keep) else d;
    var (written, ok) := WriteFile(saved, w, bytes);
    if !ok then (written, false)
    else
      var copied := CopyMain(written, w.second, w.keep);
      (copied, !copied.crashed)
  }

  // ---- The same as statements over a mutable disk ----

  class Store {
    var files: map<Path, Bytes>
    var left: nat
    var crashed: bool

    function Snapshot(): Disk
      reads this
    {
      Disk(files, left, crashed)
    }

    constructor (d: Disk)
      ensures Snapshot() == d
    {
      files, left, crashed := d.files, d.left, d.crashed;
    }

    /** Open for writing: the file exists and is empty. */
    method OpenTruncated(p: Path)
      modifies this
      ensures Snapshot() == Truncate(old(Snapshot()), p)
    {
      if crashed { return; }
      if left == 0 { crashed := true; return; }
      files, left := files[p := []], left - 1;
    }

    /** Write `bytes` at the end; a crash in here leaves the first `keep` of them. */
    method Append(p: Path, bytes: Bytes, keep: nat)
      modifies this
      ensures Snapshot() == Put(old(Snapshot()), p, bytes, keep)
    {
      if crashed { return; }
      var already := if p in files then files[p] else [];
      if left == 0 {
        files, crashed := files[p := already + bytes[..Min(keep, |bytes|)]], true;
      } else {
        files, left := files[p := already + bytes], left - 1;
      }
    }

    method Unlink(p: Path)
      modifies this
      ensures Snapshot() == Remove(old(Snapshot()), p)
    {
      if crashed { return; }
      if left == 0 { crashed := true; return; }
      files, left := files - {p}, left - 1;
    }

    /** os.replace, retried while the target is busy; `busy` is how often it will be. */
    method SafeReplace(src: Path, dst: Path, busy: nat) returns (ok: bool)
      requires !crashed && src in files && src != dst
      modifies this
      ensures Snapshot() == if busy < REPLACE_ATTEMPTS then Rename(old(Snapshot()), src, dst) else old(Snapshot())
      ensures ok == (busy < REPLACE_ATTEMPTS && !crashed)
    {
      for attempt := 0 to REPLACE_ATTEMPTS
        invariant Snapshot() == old(Snapshot()) && attempt <= busy
      {
        if attempt == busy {
          if left == 0 {
            crashed := true;
            return false;
          }
          files, left := files[dst := files[src]] - {src}, left - 1;
          return true;
        }
      }
      return false;
    }

    method CopyToBackup(fault: CopyFault, keep: nat)
      requires !crashed ==> Main in files
      modifies this
      ensures Snapshot() == CopyMain(old(Snapshot()), fault, keep)
    {
      if crashed || fault.OpenFails? { return; }
      var content := files[Main];
      OpenTruncated(Backup);
      if fault.WriteFails? { content := content[..Min(fault.keep, |content|)]; }
      Append(Backup, content, keep);
    }

    method AtomicWriteJson<T>(w: Write<T>, bytes: Bytes) returns (ok: bool)
      modifies this
      ensures (Snapshot(), ok) == WriteFile(old(Snapshot()), w, bytes)
    {
      var temp := Temp(w.tempId);
      OpenTruncated(temp);
      if w.dumpFails {
        Unlink(temp);
        return false;
      }
      Append(temp, bytes, w.keep);
      if crashed { return false; }
      ok := SafeReplace(temp, Main, w.busy);
      if w.busy >= REPLACE_ATTEMPTS { Unlink(temp); }
    }

    method WriteWithBackup<T>(w: Write<T>, bytes: Bytes) returns (ok: bool)
      modifies this
      ensures (Snapshot(), ok) == WriteJson(old(Snapshot()), w, bytes)
    {
      if Main in files { CopyToBackup(w.first, w.keep); }
      ok := AtomicWriteJson(w, bytes);
      if ok {
        CopyToBackup(w.second, w.keep);
        ok := !crashed;
      }
    }

    /** The read, with quarantine and backup. */
    method Load<T>(c: Codec<T>, id: nat, moves: bool) returns (r: Result<T>)
      modifies this`files
      ensures (files, r) == ReadJson(old(files), c, id, moves)
    {
      if Main !in files { return Default; }
      var main := c.Load(files[Main]);
      if main.Value? { return Read(main.value); }
      if main.Raises? { return Raised; }
      if moves { files := files[Quarantine(id) := files[Main]] - {Main}; }
      if Backup !in files { return Default; }
      var backup := c.Load(files[Backup]);
      r := match backup { case Value(v) => Read(v) case NotJson => Default case Raises => Raised };
    }
  }

  // ---- Crash consistency of the main file ----

  /** The main file holds the whole of `p`, or does not exist if nothing was ever committed. */
  predicate MainHolds<T(==)>(d: Disk, c: Codec<T>, p: Option<T>) {
    if p.Some? then Main in d.files && d.files[Main] == c.dump(p.value) else Main !in d.files
  }

  /**
   * Wherever the write is cut, even in the middle of a backup copy, the main file holds either
   * what it held before or the whole new payload; after a completed write, the new payload.
   */
  lemma WriteIsAtomic<T(!new)>(d: Disk, w: Write<T>, c: Codec<T>, p: Option<T>)
    requires MainHolds(d, c, p)
    ensures var (d', ok) := WriteJson(d, w, c.dump(w.payload));
      && (MainHolds(d', c, p) || MainHolds(d', c, Some(w.payload)))
      && (ok ==> MainHolds(d', c, Some(w.payload)) && !d'.crashed)
  {
    var bytes := c.dump(w.payload);
    var saved := if Main in d.files then CopyMain(d, w.first, w.keep) else d;
    assert MainHolds(saved, c, p);
    var written := WriteFile(saved, w, bytes).0;
    InnerWriteIsAtomic(saved, w, bytes);
  }

  lemma InnerWriteIsAtomic<T>(d: Disk, w: Write<T>, bytes: Bytes)
    ensures var (d', ok) := WriteFile(d, w, bytes);
      if ok then !d'.crashed && Main in d'.files && d'.files[Main] == bytes
      else (Main in d'.files <==> Main in d.files) && (Main in d.files ==> d'.files[Main] == d.files[Main])
    ensures var (d', ok) := WriteFile(d, w, bytes);
      (Backup in d'.files <==> Backup in d.files) && (Backup in d.files ==> d'.files[Backup] == d.files[Backup])
  {
    var temp := Temp(w.tempId);
    var opened_ := Truncate(d, temp);
    var full := Put(opened_, temp, bytes, w.keep);
    if !full.crashed {
      assert full.files[temp] == [] + bytes;
    }
  }

  // ---- Any number of writes, each cut anywhere ----

  /** One write by a process that lives for `left` operations. */
  datatype Session<T> = Session(write: Write<T>, left: nat)

  function Attempt<T>(files: map<Path, Bytes>, s: Session<T>, c: Codec<T>): (Disk, bool) {
    WriteJson(Disk(files, s.left, false), s.write, c.dump(s.write.payload))
  }

  function FilesAfter<T>(files: map<Path, Bytes>, ss: seq<Session<T>>, c: Codec<T>): map<Path, Bytes> {
    if ss == [] then files
    else Attempt(FilesAfter(files, ss[..|ss| - 1], c), ss[|ss| - 1], c).0.files
  }

  /** The last session whose write ran to completion, or -1. */
  function LastCompleted<T>(files: map<Path, Bytes>, ss: seq<Session<T>>, c: Codec<T>): (j: int)
    ensures -1 <= j < |ss|
  {
    if ss == [] then -1
    else
      var n := |ss| - 1;
      if Attempt(FilesAfter(files, ss[..n], c), ss[n], c).1 then n else LastCompleted(files, ss[..n], c)
  }

  /** What `MainHolds` says, on files. */
  predicate Holds<T(==)>(files: map<Path, Bytes>, c: Codec<T>, p: Option<T>) {
    MainHolds(Disk(files, 0, false), c, p)
  }

  /**
   * Cutting any sequence of writes at any step leaves the main file holding one whole payload:
   * that of the last write that ran to completion or of a later one that was cut (the initial
   * payload, number -1, if there is none).
   */
  lemma {:induction false} LastCommittedOrInFlight<T(!new)>(
    files: map<Path, Bytes>, ss: seq<Session<T>>, c: Codec<T>, initial: Option<T>)
    returns (j: int, held: Option<T>)
    requires Holds(files, c, initial)
    ensures LastCompleted(files, ss, c) <= j < |ss| && held == if j == -1 then initial else Some(ss[j].write.payload)
    ensures Holds(FilesAfter(files, ss, c), c, held)
  {
    if ss == [] { return -1, initial; }
    var n := |ss| - 1;
    j, held := LastCommittedOrInFlight(files, ss[..n], c, initial);
    var committed := CommitStep(files, ss, c, held);
    if committed { j, held := n, Some(ss[n].write.payload); }
  }

  lemma CommitStep<T(!new)>(files: map<Path, Bytes>, ss: seq<Session<T>>, c: Codec<T>, p: Option<T>) returns (committed: bool)
    requires ss != [] && Holds(FilesAfter(files, ss[..|ss| - 1], c), c, p)
    ensures Holds(FilesAfter(files, ss, c), c, if committed then Some(ss[|ss| - 1].write.payload) else p)
    ensures LastCompleted(files, ss, c) == |ss| - 1 ==> committed
  {
    var s := ss[|ss| - 1];
    WriteIsAtomic(Disk(FilesAfter(files, ss[..|ss| - 1], c), s.left, false), s.write, c, p);
    committed := LastCompleted(files, ss, c) == |ss| - 1 || !Holds(FilesAfter(files, ss, c), c, p);
  }

  // ---- Reading back, and the backup ----

  /** What a read comes to: a value, the caller's default, or an exception. */
  datatype Result<+T> = Read(value: T) | Default | Raised

  /**
   * Read the main file. One that is not JSON is moved away (if that works) and the backup is
   * tried; one that raises is left where it is, and so is the backup.
   */
  function ReadJson<T>(files: map<Path, Bytes>, c: Codec<T>, id: nat, moves: bool): (r: (map<Path, Bytes>, Result<T>)) {
    if Main !in files then (files, Default)
    else match c.Load(files[Main])
      case Value(v) => (files, Read(v))
      case Raises => (files, Raised)
      case NotJson =>
        var moved := if moves then files[Quarantine(id) := files[Main]] - {Main} else files;
        (moved, if Backup in moved then FromBackup(c.Load(moved[Backup])) else Default)
  }

  function FromBackup<T>(l: Loaded<T>): Result<T> {
    match l
    case Value(v) => Read(v)
    case NotJson => Default
    case Raises => Raised
  }

  /** After a completed write whose second copy worked, both files hold the payload. */
  lemma CompletedWriteIsBackedUp<T(!new)>(d: Disk, w: Write<T>, c: Codec<T>)
    requires WriteJson(d, w, c.dump(w.payload)).1 && w.second == NoFault
    ensures var files := WriteJson(d, w, c.dump(w.payload)).0.files;
      && Main in files && files[Main] == c.dump(w.payload)
      && Backup in files && files[Backup] == c.dump(w.payload)
  {
    var bytes := c.dump(w.payload);
    var saved := if Main in d.files then CopyMain(d, w.first, w.keep) else d;
    InnerWriteIsAtomic(saved, w, bytes);
    assert [] + bytes == bytes;
  }

  /**
   * Whatever the main file is turned into after a completed backed-up write, one read returns the
   * committed payload if and only if the new bytes load as it, or do not load because they are
   * not JSON. After such a repair the next read finds nothing if the corrupt file was moved away.
   */
  lemma CorruptionIsRepairedIff<T(!new)>(d: Disk, w: Write<T>, c: Codec<T>, junk: Bytes, id: nat, moves: bool)
    requires RoundTrips(c)
    requires WriteJson(d, w, c.dump(w.payload)).1 && w.second == NoFault
    ensures var corrupted := WriteJson(d, w, c.dump(w.payload)).0.files[Main := junk];
      var (after, result) := ReadJson(corrupted, c, id, moves);
      && (result == Read(w.payload) <==> c.Load(junk) == Value(w.payload) || c.Load(junk) == NotJson)
      && (c.Load(junk) == NotJson ==> ReadJson(after, c, id, moves).1 == if moves then Default else Read(w.payload))
      && (if c.Load(junk) == NotJson && moves
          then Main !in after && Quarantine(id) in after && after[Quarantine(id)] == junk else after == corrupted)
  {
    CompletedWriteIsBackedUp(d, w, c);
  }

  function AfterReads<T>(files: map<Path, Bytes>, c: Codec<T>, ids: seq<nat>, moves: bool): map<Path, Bytes> {
    if ids == [] then files
    else ReadJson(AfterReads(files, c, ids[..|ids| - 1], moves), c, ids[|ids| - 1], moves).0
  }

  /**
   * Bytes that are not text, such as the single byte 255, are never repaired: every read raises,
   * moves nothing and leaves the backup untried.
   */
  lemma {:induction false} NotTextIsNeverRepaired<T(!new)>(
    files: map<Path, Bytes>, c: Codec<T>, junk: Bytes, ids: seq<nat>, id: nat, moves: bool)
    requires !IsText(junk)
    ensures var corrupted := files[Main := junk];
      AfterReads(corrupted, c, ids, moves) == corrupted && ReadJson(AfterReads(corrupted, c, ids, moves), c, id, moves).1 == Raised
    ensures !IsText([255])
  {
    NoSuchByte([255], 0, 0);
    if ids != [] { NotTextIsNeverRepaired(files, c, junk, ids[..|ids| - 1], ids[|ids| - 1], moves); }
  }

  // ---- What a cut leaves, exactly ----

  function BackupOf(files: map<Path, Bytes>): Option<Bytes> { if Backup in files then Some(files[Backup]) else None }

  /** A copy changes the backup if it can open it and the process lives for the first of its two operations. */
  predicate CopyBegins(fault: CopyFault, left: int) { !fault.OpenFails? && left >= 1 }

  /** What it has then written of `content`. */
  function CopyWrites(fault: CopyFault, content: Bytes, left: int, keep: nat): Bytes {
    var out := if fault.WriteFails? then content[..Min(fault.keep, |content|)] else content;
    if left == 1 then out[..Min(keep, |out|)] else out
  }

  function BackupAfterCopy(before: Option<Bytes>, fault: CopyFault, content: Bytes, left: int, keep: nat): Option<Bytes> {
    if CopyBegins(fault, left) then Some(CopyWrites(fault, content, left, keep)) else before
  }

  /** How many operations the process has for what follows the first copy. */
  function LeftAfterCopy(fault: CopyFault, left: nat): int { if fault.OpenFails? then left else left - 2 }

  /** The write gets through: it can be dumped, the file is not too busy, and the process lives to replace it. */
  predicate Commits<T>(w: Write<T>, left: nat) {
    !w.dumpFails && w.busy < 5 && LeftAfterCopy(w.first, left) >= 3
  }

  lemma CopyLeaves(d: Disk, fault: CopyFault, keep: nat)
    requires !d.crashed && Main in d.files
    ensures var d' := CopyMain(d, fault, keep); var left := LeftAfterCopy(fault, d.left);
      && Main in d'.files && d'.files[Main] == d.files[Main]
      && BackupOf(d'.files) == BackupAfterCopy(BackupOf(d.files), fault, d.files[Main], d.left, keep)
      && (d'.crashed <==> left < 0) && (!d'.crashed ==> d'.left == left)
  {
    var content := d.files[Main];
    var out := if fault.WriteFails? then content[..Min(fault.keep, |content|)] else content;
    assert [] + out == out && [] + out[..Min(keep, |out|)] == out[..Min(keep, |out|)];
  }

  lemma InnerWriteCounts<T>(d: Disk, w: Write<T>, bytes: Bytes)
    ensures var (d', ok) := WriteFile(d, w, bytes);
      && (ok <==> !d.crashed && !w.dumpFails && w.busy < 5 && d.left >= 3)
      && (ok ==> d'.left == d.left - 3)
  {}

  /** A write completes if and only if it can be dumped, the file is not too busy, and the process lives for all its operations. */
  lemma WriteCompletesIff<T>(d: Disk, w: Write<T>, bytes: Bytes)
    requires !d.crashed
    ensures var copy := (fault: CopyFault) => if fault.OpenFails? then 0 else 2;
      WriteJson(d, w, bytes).1 <==>
        && !w.dumpFails && w.busy < 5
        && d.left >= (if Main in d.files then copy(w.first) else 0) + 3 + copy(w.second)
  {
    if Main in d.files { CopyLeaves(d, w.first, w.keep); }
    var saved := if Main in d.files then CopyMain(d, w.first, w.keep) else d;
    InnerWriteCounts(saved, w, bytes);
    InnerWriteIsAtomic(saved, w, bytes);
    var (written, ok) := WriteFile(saved, w, bytes);
    if ok { CopyLeaves(written, w.second, w.keep); }
  }

  /** What is in the main file and the backup after any write by a process that lives for `left` operations. */
  lemma CutLeaves<T(!new)>(files: map<Path, Bytes>, a: T, w: Write<T>, left: nat, c: Codec<T>)
    requires Holds(files, c, Some(a))
    ensures var after := Attempt(files, Session(w, left), c).0.files; var new_ := c.dump(w.payload); var old_ := c.dump(a);
      var first := BackupAfterCopy(BackupOf(files), w.first, old_, left, w.keep);
      && Main in after && after[Main] == (if Commits(w, left) then new_ else old_)
      && BackupOf(after) == if Commits(w, left)
                            then BackupAfterCopy(first, w.second, new_, LeftAfterCopy(w.first, left) - 3, w.keep)
                            else first
  {
    var d := Disk(files, left, false);
    var bytes := c.dump(w.payload);
    CopyLeaves(d, w.first, w.keep);
    var saved := CopyMain(d, w.first, w.keep);
    InnerWriteIsAtomic(saved, w, bytes);
    InnerWriteCounts(saved, w, bytes);
    var (written, ok) := WriteFile(saved, w, bytes);
    if ok { CopyLeaves(written, w.second, w.keep); }
  }

  /**
   * When the backup is good, exactly: after any write, cut anywhere and with any copy failing, a
   * main file turned into `junk` reads back as the committed payload if and only if `junk` loads
   * as it, or `junk` is not JSON (and does not raise) and what the last copy that began has
   * written, or the earlier backup if none began, still loads as it.
   */
  lemma BackupGoodIff<T(!new)>(files: map<Path, Bytes>, a: T, w: Write<T>, left: nat, c: Codec<T>, junk: Bytes, id: nat)
    requires Holds(files, c, Some(a))
    ensures var after := Attempt(files, Session(w, left), c).0.files;
      var rest := LeftAfterCopy(w.first, left) - 3;
      var committed := if Commits(w, left) then w.payload else a;
      ReadJson(after[Main := junk], c, id, true).1 == Read(committed) <==>
        || c.Load(junk) == Value(committed)
        || (c.Load(junk) == NotJson &&
            if Commits(w, left) && CopyBegins(w.second, rest)
            then c.Load(CopyWrites(w.second, c.dump(w.payload), rest, w.keep)) == Value(committed)
            else if CopyBegins(w.first, left)
            then c.Load(CopyWrites(w.first, c.dump(a), left, w.keep)) == Value(committed)
            else Backup in files && c.Load(files[Backup]) == Value(committed))
  {
    CutLeaves(files, a, w, left, c);
  }

  /** A write with nothing going wrong but the cut. */
  predicate Clean<T>(w: Write<T>) { !w.dumpFails && w.busy < 5 && w.first == NoFault && w.second == NoFault }

  /**
   * For a clean write and a main file that is no longer JSON: it is read back if and only if the
   * cut was not before the first copy of a stale backup, not inside a copy that tore it, and not
   * between the replace and the second copy of a write that changed the payload. If the main file
   * raises, it never is.
   */
  lemma BackupCurrentIff<T(!new)>(files: map<Path, Bytes>, a: T, w: Write<T>, left: nat, c: Codec<T>, junk: Bytes, id: nat)
    requires RoundTrips(c) && !c.Load(junk).Value? && Holds(files, c, Some(a)) && Clean(w)
    ensures var after := Attempt(files, Session(w, left), c).0.files;
      var committed := if left < 5 then a else w.payload;
      ReadJson(after[Main := junk], c, id, true).1 == Read(committed) <==>
        && c.Load(junk) == NotJson
        && (left == 0 ==> Backup in files && c.Load(files[Backup]) == Value(a))
        && (left == 1 ==> c.Load(c.dump(a)[..Min(w.keep, |c.dump(a)|)]) == Value(a))
        && (left == 5 ==> w.payload == a)
        && (left == 6 ==> c.Load(c.dump(w.payload)[..Min(w.keep, |c.dump(w.payload)|)]) == Value(w.payload))
  {
    BackupGoodIff(files, a, w, left, c, junk, id);
  }
}
