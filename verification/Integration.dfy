/**
 The undo log of licctl: files written into a project, rolled back when adding fails, and
 removed later. A project is a map from relative path to content; SHA-256 is a parameter.
 */
module Integration {
  import opened Wrappers
  import opened Decimal

  type Files = map<string, string>
  type Hash = string -> string

  const STATE_DIR := ".licensehub/"
  const BACKUP_DIR := ".licensehub/rollback/"

  predicate Inside(path: string) { STATE_DIR <= path }
  predicate IsBackup(path: string) { BACKUP_DIR <= path }

  datatype Kind = Created | Modified

  datatype InstallFile = InstallFile(
    path: string, kind: Kind, installedSha: string, originalSha: Option<string>, backup: Option<string>)

  /** The zero-padded number of a backup. */
  function Padded(n: nat): string {
    var d := Digits(n);
    (if |d| == 1 then "000" else if |d| == 2 then "00" else if |d| == 3 then "0" else "") + d
  }

  function BackupName(n: nat): string { BACKUP_DIR + Padded(n) + ".bak" }

  datatype Tracker = Tracker(disk: Files, files: seq<InstallFile>)

  /** What is done to the project while an integration is added. `temp` is the fresh name of a temporary file. */
  datatype Op =
    | CopyCreated(path: string, content: string)
    | WriteCreated(path: string, content: string, temp: string)
    | WriteModified(path: string, content: string, temp: string)
    | Payload(path: string, content: string)

  /** Where an operation breaks off; a part of what it was writing may stay behind. */
  datatype Fault =
    | NoFault | AtStart | AfterBackup
    | DuringBackup(partial: string) | DuringWrite(partial: string)

  datatype Outcome = Completed(t: Tracker) | Failed(disk: Files)

  function WrittenCreated(h: Hash, t: Tracker, path: string, content: string): Tracker {
    Tracker(t.disk[path := content], t.files + [InstallFile(path, Created, h(content), None, None)])
  }

  function Do(h: Hash, t: Tracker, op: Op, fault: Fault): Outcome {
    match op
    case CopyCreated(path, content) =>
      if path in t.disk then Failed(t.disk)
      else (match fault
            case NoFault => Completed(WrittenCreated(h, t, path, content))
            case DuringWrite(partial) => Failed(t.disk[path := partial])
            case _ => Failed(t.disk))
    case WriteCreated(path, content, temp) =>
      if path in t.disk then Failed(t.disk)
      else (match fault
            case NoFault => Completed(WrittenCreated(h, t, path, content))
            case DuringWrite(partial) => Failed(t.disk[temp := partial])
            case _ => Failed(t.disk))
    case WriteModified(path, content, temp) =>
      var backup := BackupName(|t.files|);
      if path !in t.disk || fault.AtStart? || backup in t.disk then Failed(t.disk)
      else if fault.DuringBackup? then Failed(t.disk[backup := fault.partial])
      else
        var saved := t.disk[backup := t.disk[path]];
        (match fault
         case NoFault =>
           Completed(Tracker(saved[path := content],
             t.files + [InstallFile(path, Modified, h(content), Some(h(t.disk[path])), Some(backup))]))
         case DuringWrite(partial) => Failed(saved[temp := partial])
         case _ => Failed(saved))
    case Payload(path, content) =>
      (match fault
       case NoFault => Completed(t.(disk := t.disk[path := content]))
       case DuringWrite(partial) => Failed(t.disk[path := partial])
       case _ => Failed(t.disk))
  }

  /** The file of the project proper that a broken-off operation leaves behind, if any. */
  function Stray(op: Op, t: Tracker, fault: Fault): Option<string> {
    match op
    case CopyCreated(path, _) => if fault.DuringWrite? && path !in t.disk && !Inside(path) then Some(path) else None
    case WriteCreated(path, _, temp) => if fault.DuringWrite? && path !in t.disk && !Inside(temp) then Some(temp) else None
    case WriteModified(path, _, temp) =>
      if fault.DuringWrite? && path in t.disk && BackupName(|t.files|) !in t.disk && !Inside(temp) then Some(temp) else None
    case Payload(_, _) => None
  }

  function UndoOne(disk: Files, f: InstallFile): Files {
    if f.kind.Modified? && f.backup.Some? && f.backup.value in disk then disk[f.path := disk[f.backup.value]]
    else if f.kind.Created? then disk - {f.path}
    else disk
  }

  /** Undoes the recorded files, latest first. */
  function Rollback(disk: Files, files: seq<InstallFile>): Files
    decreases |files|
  {
    if |files| == 0 then disk else Rollback(UndoOne(disk, files[|files| - 1]), files[..|files| - 1])
  }

  /** The project without the state directory. */
  function Cleaned(disk: Files): Files { map p | p in disk && !Inside(p) :: disk[p] }

  class MutationTracker {
    const hash: Hash
    var disk: Files
    var files: seq<InstallFile>

    constructor (hash: Hash, disk: Files)
      ensures this.hash == hash && State() == Tracker(disk, [])
    {
      this.hash := hash;
      this.disk := disk;
      this.files := [];
    }

    function State(): Tracker
      reads this
    {
      Tracker(disk, files)
    }

    /** The call did what `o` says; a failed call records nothing. */
    twostate predicate Did(o: Outcome, ok: bool)
      reads this
    {
      match o
      case Completed(t) => ok && State() == t
      case Failed(d) => !ok && State() == Tracker(d, old(files))
    }

    method AtomicWrite(target: string, content: string, temp: string, fault: Fault) returns (ok: bool)
      requires temp !in disk && temp != target
      modifies this`disk
      ensures ok <==> fault.NoFault?
      ensures ok ==> disk == old(disk)[target := content]
      ensures !ok ==> disk == if fault.DuringWrite? then old(disk)[temp := fault.partial] else old(disk)
    {
      if fault.DuringWrite? {
        disk := disk[temp := fault.partial];
        return false;
      }
      if !fault.NoFault? { return false; }
      disk := disk[temp := content];
      disk := disk[target := disk[temp]] - {temp};
      assert disk == old(disk)[target := content];
      ok := true;
    }

    method CreateByCopy(relative: string, content: string, fault: Fault) returns (ok: bool)
      modifies this
      ensures Did(Do(hash, old(State()), CopyCreated(relative, content), fault), ok)
    {
      if relative in disk { return false; }
      if fault.DuringWrite? {
        disk := disk[relative := fault.partial];
        return false;
      }
      if !fault.NoFault? { return false; }
      disk := disk[relative := content];
      files := files + [InstallFile(relative, Created, hash(disk[relative]), None, None)];
      ok := true;
    }

    method Create(relative: string, content: string, temp: string, fault: Fault) returns (ok: bool)
      requires temp !in disk && temp != relative
      modifies this
      ensures Did(Do(hash, old(State()), WriteCreated(relative, content, temp), fault), ok)
    {
      if relative in disk { return false; }
      ok := AtomicWrite(relative, content, temp, fault);
      if ok {
        files := files + [InstallFile(relative, Created, hash(disk[relative]), None, None)];
      }
    }

    method Modify(relative: string, content: string, temp: string, fault: Fault) returns (ok: bool)
      requires temp !in disk && temp != relative && temp != BackupName(|files|)
      modifies this
      ensures Did(Do(hash, old(State()), WriteModified(relative, content, temp), fault), ok)
    {
      if relative !in disk || fault.AtStart? { return false; }
      var original := hash(disk[relative]);
      var backup := BackupName(|files|);
      if backup in disk { return false; }
      if fault.DuringBackup? {
        disk := disk[backup := fault.partial];
        return false;
      }
      disk := disk[backup := disk[relative]];
      ok := AtomicWrite(relative, content, temp, fault);
      if ok {
        files := files + [InstallFile(relative, Modified, hash(disk[relative]), Some(original), Some(backup))];
      }
    }

    method RollbackAll()
      modifies this`disk
      ensures disk == Rollback(old(disk), files)
    {
      var i := |files|;
      assert files[..i] == files;
      while i > 0
        invariant 0 <= i <= |files|
        invariant Rollback(disk, files[..i]) == Rollback(old(disk), files)
      {
        i := i - 1;
        assert files[..i + 1][..i] == files[..i];
        var file := files[i];
        if file.kind.Modified? && file.backup.Some? && file.backup.value in disk {
          disk := disk[file.path := disk[file.backup.value]];
        } else if file.kind.Created? {
          disk := disk - {file.path};
        }
      }
    }
  }

  // ---- Whole additions ----

  /** Names the operations may use: temporary names are fresh, and the payload stays in the state directory and off the backups. */
  predicate Proper(t: Tracker, op: Op) {
    match op
    case WriteCreated(path, _, temp) => temp !in t.disk && temp != path
    case WriteModified(path, _, temp) => temp !in t.disk && temp != path && temp != BackupName(|t.files|)
    case Payload(path, _) => Inside(path) && !IsBackup(path)
    case CopyCreated(_, _) => true
  }

  predicate Completes(h: Hash, before: Tracker, op: Op, after: Tracker) {
    Proper(before, op) && Do(h, before, op, NoFault) == Completed(after)
  }

  /** The operations all complete, one after the other, by way of trackers `ts`. */
  predicate Addition(h: Hash, original: Files, ops: seq<Op>, ts: seq<Tracker>) {
    && |ts| == |ops| + 1 && ts[0] == Tracker(original, [])
    && forall i :: 0 <= i < |ops| ==> Completes(h, ts[i], ops[i], ts[i + 1])
  }

  /** Everything on record is on disk, and the backups are where backups go. */
  predicate Recorded(t: Tracker) {
    forall i :: 0 <= i < |t.files| ==>
      && t.files[i].path in t.disk
      && (t.files[i].kind.Modified? <==> t.files[i].backup.Some?)
      && (t.files[i].backup.Some? ==> t.files[i].backup.value in t.disk && IsBackup(t.files[i].backup.value))
  }

  /** A file that is on no record passes through a rollback. */
  lemma {:induction false} RollbackKeepsOthers(disk: Files, files: seq<InstallFile>, p: string, content: string)
    requires forall i :: 0 <= i < |files| ==> files[i].path != p && files[i].backup != Some(p)
    ensures Rollback(disk[p := content], files) == Rollback(disk, files)[p := content]
    decreases |files|
  {
    if |files| > 0 {
      var f := files[|files| - 1];
      assert UndoOne(disk[p := content], f) == UndoOne(disk, f)[p := content];
      RollbackKeepsOthers(UndoOne(disk, f), files[..|files| - 1], p, content);
    }
  }

  /** Disks that agree on the project proper and on the backups. */
  ghost predicate Alike(a: Files, b: Files) {
    forall p :: (p in a || p in b) && (!Inside(p) || IsBackup(p)) ==> p in a && p in b && a[p] == b[p]
  }

  lemma {:induction false} RollbackKeepsAlike(a: Files, b: Files, files: seq<InstallFile>)
    requires Alike(a, b)
    requires forall i :: 0 <= i < |files| && files[i].backup.Some? ==> IsBackup(files[i].backup.value)
    ensures Alike(Rollback(a, files), Rollback(b, files))
    decreases |files|
  {
    if |files| > 0 {
      RollbackKeepsAlike(UndoOne(a, files[|files| - 1]), UndoOne(b, files[|files| - 1]), files[..|files| - 1]);
    }
  }

  lemma AlikeCleaned(a: Files, b: Files)
    requires Alike(a, b)
    ensures Cleaned(a) == Cleaned(b)
  {}

  lemma CleanedUpdate(d: Files, p: string, content: string)
    ensures Cleaned(d[p := content]) == if Inside(p) then Cleaned(d) else Cleaned(d)[p := content]
  {}

  predicate Undoable(original: Files, t: Tracker) {
    Recorded(t) && Cleaned(Rollback(t.disk, t.files)) == Cleaned(original)
  }

  lemma BackupsAreInside(path: string)
    requires IsBackup(path)
    ensures Inside(path)
  {}

  lemma BackupNameIsBackup(n: nat)
    ensures IsBackup(BackupName(n)) && Inside(BackupName(n))
  {}

  /** One more completed operation leaves the project undoable. */
  lemma CompletedStaysUndoable(h: Hash, original: Files, t: Tracker, op: Op)
    requires Undoable(original, t) && Proper(t, op) && Do(h, t, op, NoFault).Completed?
    ensures Undoable(original, Do(h, t, op, NoFault).t)
  {
    hide BackupName;
    var t' := Do(h, t, op, NoFault).t;
    match op
    case Payload(path, content) =>
      assert Alike(t.disk, t'.disk);
      RollbackKeepsAlike(t.disk, t'.disk, t.files);
      AlikeCleaned(Rollback(t.disk, t.files), Rollback(t'.disk, t.files));
    case WriteModified(path, content, _) =>
      var backup := BackupName(|t.files|);
      BackupNameIsBackup(|t.files|);
      assert t'.files[..|t.files|] == t.files;
      assert UndoOne(t'.disk, t'.files[|t.files|]) == t.disk[backup := t.disk[path]];
      RollbackKeepsOthers(t.disk, t.files, backup, t.disk[path]);
      CleanedUpdate(Rollback(t.disk, t.files), backup, t.disk[path]);
    case _ =>
      assert t'.files[..|t.files|] == t.files;
      assert UndoOne(t'.disk, t'.files[|t.files|]) == t.disk;
  }

  lemma {:induction false} AdditionIsUndoable(h: Hash, original: Files, ops: seq<Op>, ts: seq<Tracker>, n: nat)
    requires Addition(h, original, ops, ts) && n < |ts|
    ensures Undoable(original, ts[n])
  {
    hide Do, Proper, Undoable;
    if n > 0 {
      AdditionIsUndoable(h, original, ops, ts, n - 1);
      assert Completes(h, ts[n - 1], ops[n - 1], ts[n]);
      CompletedStaysUndoable(h, original, ts[n - 1], ops[n - 1]);
    } else {
      NothingToUndo(original);
    }
  }

  lemma NothingToUndo(original: Files)
    ensures Undoable(original, Tracker(original, []))
  {}

  /** A project before the addition has no state directory. */
  predicate Untouched(original: Files) { forall p :: p in original ==> !Inside(p) }

  lemma UntouchedIsClean(original: Files)
    requires Untouched(original)
    ensures Cleaned(original) == original
  {}

  /** When nothing breaks off inside an operation, rollback and cleaning give back exactly the original project. */
  lemma RollbackAfterCompleted(h: Hash, original: Files, ops: seq<Op>, ts: seq<Tracker>)
    requires Untouched(original) && Addition(h, original, ops, ts)
    ensures Cleaned(Rollback(ts[|ops|].disk, ts[|ops|].files)) == original
  {
    AdditionIsUndoable(h, original, ops, ts, |ops|);
    UntouchedIsClean(original);
  }

  /** What a broken-off operation leaves: the disk as it was, up to files inside the state directory and one stray file. */
  lemma BrokenOff(h: Hash, t: Tracker, op: Op, fault: Fault)
    requires Proper(t, op) && Recorded(t) && Do(h, t, op, fault).Failed?
    ensures
      var disk := Do(h, t, op, fault).disk;
      match Stray(op, t, fault)
      case None => Cleaned(Rollback(disk, t.files)) == Cleaned(Rollback(t.disk, t.files))
      case Some(p) =>
        && p !in t.disk && !Inside(p) && fault.DuringWrite?
        && Cleaned(Rollback(disk, t.files)) == Cleaned(Rollback(t.disk, t.files))[p := fault.partial]
  {
    hide BackupName;
    var disk := Do(h, t, op, fault).disk;
    match op
    case Payload(path, _) =>
      assert Alike(t.disk, disk);
      RollbackKeepsAlike(t.disk, disk, t.files);
      AlikeCleaned(Rollback(t.disk, t.files), Rollback(disk, t.files));
    case CopyCreated(path, _) =>
      if disk != t.disk { AddedFile(t, t.disk, path, fault.partial); }
    case WriteCreated(path, _, temp) =>
      if disk != t.disk { AddedFile(t, t.disk, temp, fault.partial); }
    case WriteModified(path, _, temp) =>
      var backup := BackupName(|t.files|);
      BackupNameIsBackup(|t.files|);
      if path in t.disk && !fault.AtStart? && backup !in t.disk {
        if fault.DuringBackup? {
          AddedFile(t, t.disk, backup, fault.partial);
        } else {
          var saved := t.disk[backup := t.disk[path]];
          AddedFile(t, t.disk, backup, t.disk[path]);
          if fault.DuringWrite? { AddedFile(t, saved, temp, fault.partial); }
        }
      }
  }

  lemma AddedFile(t: Tracker, disk: Files, p: string, content: string)
    requires Recorded(t) && p !in t.disk
    ensures Cleaned(Rollback(disk[p := content], t.files))
         == if Inside(p) then Cleaned(Rollback(disk, t.files)) else Cleaned(Rollback(disk, t.files))[p := content]
  {
    RollbackKeepsOthers(disk, t.files, p, content);
    CleanedUpdate(Rollback(disk, t.files), p, content);
  }

  /**
   An addition that breaks off inside an operation: rollback and cleaning give back exactly
   the original project if and only if the broken-off operation left no stray file, and
   otherwise the original project and that file.
   */
  lemma RollbackAfterFailure(h: Hash, original: Files, ops: seq<Op>, ts: seq<Tracker>, op: Op, fault: Fault)
    requires Untouched(original) && Addition(h, original, ops, ts)
    requires Proper(ts[|ops|], op) && Do(h, ts[|ops|], op, fault).Failed?
    ensures
      var t := ts[|ops|];
      var restored := Cleaned(Rollback(Do(h, t, op, fault).disk, t.files));
      && (restored == original <==> Stray(op, t, fault).None?)
      && (Stray(op, t, fault).Some? ==> Stray(op, t, fault).value !in original && restored == original[Stray(op, t, fault).value := fault.partial])
  {
    hide Do, Rollback, Stray;
    var t := ts[|ops|];
    AdditionIsUndoable(h, original, ops, ts, |ops|);
    UntouchedIsClean(original);
    BrokenOff(h, t, op, fault);
    if Stray(op, t, fault).Some? {
      AdditionKeepsOriginalPaths(h, original, ops, ts, |ops|);
    }
  }

  /** No operation makes a file disappear. */
  lemma {:induction false} AdditionKeepsOriginalPaths(h: Hash, original: Files, ops: seq<Op>, ts: seq<Tracker>, n: nat)
    requires Addition(h, original, ops, ts) && n < |ts|
    ensures original.Keys <= ts[n].disk.Keys
  {
    if n > 0 {
      AdditionKeepsOriginalPaths(h, original, ops, ts, n - 1);
      assert Completes(h, ts[n - 1], ops[n - 1], ts[n]);
    }
  }

  // ---- Where it fails ----

  /**
   Whatever the project, a write that breaks off before its final move leaves the temporary
   file: rollback and cleaning give back the project and that file.
   */
  lemma HalfWrittenFileStays(h: Hash, original: Files, path: string, content: string, temp: string, partial: string)
    requires Untouched(original) && temp !in original && !Inside(temp) && temp != path
    ensures path in original ==>
      && Proper(Tracker(original, []), WriteModified(path, content, temp))
      && Cleaned(Rollback(Do(h, Tracker(original, []), WriteModified(path, content, temp), DuringWrite(partial)).disk, []))
         == original[temp := partial]
    ensures path !in original ==>
      && Proper(Tracker(original, []), WriteCreated(path, content, temp))
      && Cleaned(Rollback(Do(h, Tracker(original, []), WriteCreated(path, content, temp), DuringWrite(partial)).disk, []))
         == original[temp := partial]
  {
    hide BackupName;
    BackupNameIsBackup(0);
    var t, fault := Tracker(original, []), DuringWrite(partial);
    if path in original {
      RollbackAfterFailure(h, original, [], [t], WriteModified(path, content, temp), fault);
    } else {
      RollbackAfterFailure(h, original, [], [t], WriteCreated(path, content, temp), fault);
    }
  }
}
