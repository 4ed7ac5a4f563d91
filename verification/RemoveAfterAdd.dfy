/** Removal after an addition and later edits: exactly what comes back, and the four installers. */
module RemoveAfterAdd {
  import opened Wrappers
  import opened Integration
  import opened Removal

  // ---- What the records say ----

  /** The records at `p`, in order. */
  function RecordsOf(files: seq<InstallFile>, p: string): seq<InstallFile> {
    if |files| == 0 then []
    else if files[0].path == p then [files[0]] + RecordsOf(files[1..], p)
    else RecordsOf(files[1..], p)
  }

  lemma {:induction false} RecordsOfMembers(files: seq<InstallFile>, p: string)
    ensures forall f :: f in RecordsOf(files, p) <==> f in files && f.path == p
  {
    if |files| > 0 {
      RecordsOfMembers(files[1..], p);
      Parts(files);
    }
  }

  lemma {:induction false} RecordsOfMore(files: seq<InstallFile>, f: InstallFile, p: string)
    ensures RecordsOf(files + [f], p) == RecordsOf(files, p) + if f.path == p then [f] else []
  {
    if |files| == 0 {
      assert files + [f] == [f] && [f][1..] == [];
    } else {
      RecordsOfMore(files[1..], f, p);
      assert (files + [f])[0] == files[0] && (files + [f])[1..] == files[1..] + [f];
    }
  }

  /** The last modification at a path depends on the records at that path only. */
  lemma {:induction false} LastModifiedOfRecords(files: seq<InstallFile>, p: string)
    ensures LastModified(files, p) == LastModified(RecordsOf(files, p), p)
  {
    if |files| > 0 {
      LastModifiedOfRecords(files[1..], p);
      var rest := RecordsOf(files[1..], p);
      if files[0].path == p {
        assert RecordsOf(files, p)[0] == files[0] && RecordsOf(files, p)[1..] == rest;
      } else {
        assert RecordsOf(files, p) == rest;
      }
    }
  }

  /** No operation modifies a file of the backup directory. */
  predicate BackupsLeftAlone(files: seq<InstallFile>) {
    forall f :: f in files && f.kind.Modified? ==> !IsBackup(f.path)
  }

  /** A modified file is recorded with its backup and the hash of what the backup holds. */
  predicate TrueBackup(h: Hash, disk: Files, f: InstallFile) {
    f.kind.Modified? ==>
      f.backup.Some? && IsBackup(f.backup.value) && f.backup.value in disk && f.originalSha == Some(h(disk[f.backup.value]))
  }

  /**
   What the records at a path of the project say: the last one has the hash of the content
   now; only the first can be a creation, and is one exactly if the path was free.
   */
  predicate KnownAt(h: Hash, original: Files, t: Tracker, p: string) {
    var at := RecordsOf(t.files, p);
    if at == [] then SameAt(t.disk, original, p)
    else
      && p in t.disk && at[|at| - 1].installedSha == h(t.disk[p])
      && (forall i :: 0 < i < |at| ==> at[i].kind.Modified?)
      && (at[0].kind.Created? <==> p !in original)
  }

  /** Moreover, the backup of a first modification is the original content. */
  predicate TrueAt(h: Hash, original: Files, t: Tracker, p: string) {
    var at := RecordsOf(t.files, p);
    && KnownAt(h, original, t, p)
    && (at != [] && at[0].kind.Modified? ==> TrueBackup(h, t.disk, at[0]) && t.disk[at[0].backup.value] == original[p])
  }

  ghost predicate TrueRecords(h: Hash, original: Files, t: Tracker) {
    && (forall p :: !Inside(p) ==> TrueAt(h, original, t, p))
    && (forall f :: f in t.files ==> TrueBackup(h, t.disk, f))
  }

  /** What an operation does to the disk: its path, and a backup that was not there. */
  lemma OperationWrites(h: Hash, t: Tracker, op: Op, t': Tracker)
    requires Completes(h, t, op, t')
    ensures op.path in t'.disk
    ensures forall p :: p != op.path && (op.WriteModified? ==> p != BackupName(|t.files|)) ==> SameAt(t'.disk, t.disk, p)
    ensures op.Payload? ==> t'.files == t.files && Inside(op.path) && !IsBackup(op.path)
    ensures !op.Payload? ==>
      && |t'.files| == |t.files| + 1 && t'.files[..|t.files|] == t.files
      && t'.files[|t.files|].path == op.path && t'.files[|t.files|].installedSha == h(t'.disk[op.path])
      && (t'.files[|t.files|].kind.Created? <==> op.path !in t.disk)
    ensures op.CopyCreated? || op.WriteCreated? ==> op.path !in t.disk && t'.files[|t.files|].kind.Created?
    ensures op.WriteModified? ==>
      var f := t'.files[|t.files|];
      && f.kind.Modified? && op.path in t.disk && f.backup == Some(BackupName(|t.files|)) && BackupName(|t.files|) !in t.disk
      && f.originalSha == Some(h(t.disk[op.path]))
      && (op.path != BackupName(|t.files|) ==> BackupName(|t.files|) in t'.disk && t'.disk[BackupName(|t.files|)] == t.disk[op.path])
  {
    hide BackupName, IsBackup, Inside;
  }

  /** Backups on record stay as they are. */
  lemma BackupsStay(h: Hash, t: Tracker, op: Op, t': Tracker, f: InstallFile)
    requires Completes(h, t, op, t') && TrueBackup(h, t.disk, f) && f.kind.Modified?
    requires op.WriteModified? ==> !IsBackup(op.path)
    ensures TrueBackup(h, t'.disk, f) && t'.disk[f.backup.value] == t.disk[f.backup.value]
  {
    hide BackupName, Do;
    OperationWrites(h, t, op, t');
    assert f.backup.value != op.path;
    assert SameAt(t'.disk, t.disk, f.backup.value);
  }

  /** The first record of a path, if a modification, keeps its backup. */
  lemma FirstBackupStays(h: Hash, t: Tracker, op: Op, t': Tracker, p: string)
    requires Completes(h, t, op, t') && (op.WriteModified? ==> !IsBackup(op.path)) && RecordsOf(t.files, p) != []
    requires RecordsOf(t.files, p)[0].kind.Modified? && TrueBackup(h, t.disk, RecordsOf(t.files, p)[0])
    ensures TrueBackup(h, t'.disk, RecordsOf(t.files, p)[0])
    ensures t'.disk[RecordsOf(t.files, p)[0].backup.value] == t.disk[RecordsOf(t.files, p)[0].backup.value]
  {
    hide Do, RecordsOf;
    BackupsStay(h, t, op, t', RecordsOf(t.files, p)[0]);
  }

  lemma OperationKeepsKnown(h: Hash, original: Files, t: Tracker, op: Op, t': Tracker, p: string)
    requires KnownAt(h, original, t, p) && Completes(h, t, op, t') && !Inside(p)
    ensures KnownAt(h, original, t', p)
  {
    hide BackupName, Do, IsBackup, RecordsOf, Proper, Inside;
    OperationWrites(h, t, op, t');
    BackupNameIsBackup(|t.files|);
    assert Inside(BackupName(|t.files|));
    if op.path != p { assert SameAt(t'.disk, t.disk, p); }
    if !op.Payload? {
      var f := t'.files[|t.files|];
      assert t'.files == t.files + [f];
      RecordsOfMore(t.files, f, p);
    }
  }

  lemma OperationKeepsPath(h: Hash, original: Files, t: Tracker, op: Op, t': Tracker, p: string)
    requires TrueAt(h, original, t, p) && Completes(h, t, op, t') && (op.WriteModified? ==> !IsBackup(op.path)) && !Inside(p)
    ensures TrueAt(h, original, t', p)
  {
    hide BackupName, Do, IsBackup, RecordsOf, Proper, Inside;
    OperationWrites(h, t, op, t');
    BackupNameIsBackup(|t.files|);
    var at := RecordsOf(t.files, p);
    if at != [] && at[0].kind.Modified? { FirstBackupStays(h, t, op, t', p); }
    if op.path != p { assert SameAt(t'.disk, t.disk, p); }
    if !op.Payload? {
      var f := t'.files[|t.files|];
      assert t'.files == t.files + [f];
      RecordsOfMore(t.files, f, p);
      if op.path == p { OneMoreRecord(h, original, t, op, t', f); }
    }
  }

  /** The path of the operation itself. */
  lemma OneMoreRecord(h: Hash, original: Files, t: Tracker, op: Op, t': Tracker, f: InstallFile)
    requires TrueAt(h, original, t, op.path) && Completes(h, t, op, t') && !op.Payload? && !Inside(op.path)
    requires |t'.files| == |t.files| + 1 && f == t'.files[|t.files|]
    requires RecordsOf(t'.files, op.path) == RecordsOf(t.files, op.path) + [f]
    requires var at := RecordsOf(t.files, op.path); at != [] && at[0].kind.Modified? ==>
               TrueBackup(h, t.disk, at[0]) && TrueBackup(h, t'.disk, at[0]) && t'.disk[at[0].backup.value] == t.disk[at[0].backup.value]
    ensures TrueAt(h, original, t', op.path)
  {
    hide BackupName, Do, RecordsOf, Proper, IsBackup;
    OperationWrites(h, t, op, t');
    BackupNameIsBackup(|t.files|);
    assert Inside(BackupName(|t.files|)) && !Inside(op.path);
  }

  lemma OperationKeepsRecordsTrue(h: Hash, original: Files, t: Tracker, op: Op, t': Tracker)
    requires TrueRecords(h, original, t) && Completes(h, t, op, t') && BackupsLeftAlone(t'.files)
    ensures TrueRecords(h, original, t')
  {
    hide BackupName, Do, TrueAt, IsBackup, Inside, Proper;
    OperationWrites(h, t, op, t');
    BackupNameIsBackup(|t.files|);
    if op.WriteModified? { assert t'.files[|t.files|] in t'.files; }
    forall p | !Inside(p)
      ensures TrueAt(h, original, t', p)
    {
      OperationKeepsPath(h, original, t, op, t', p);
    }
    forall f | f in t'.files
      ensures TrueBackup(h, t'.disk, f)
    {
      if f in t.files {
        if f.kind.Modified? { BackupsStay(h, t, op, t', f); }
      } else {
        NewRecord(t.files, t'.files, f);
      }
    }
  }

  lemma NewRecord(before: seq<InstallFile>, after: seq<InstallFile>, f: InstallFile)
    requires |before| <= |after| <= |before| + 1 && after[..|before|] == before && f in after && f !in before
    ensures |after| == |before| + 1 && f == after[|before|]
  {
    assert forall i :: 0 <= i < |before| ==> after[..|before|][i] == after[i];
    var i :| 0 <= i < |after| && after[i] == f;
  }

  /** After every operation the records are true; as to backups, as long as no operation modifies one. */
  lemma {:induction false} AdditionRecordsTruth(h: Hash, original: Files, ops: seq<Op>, ts: seq<Tracker>, n: nat)
    requires Addition(h, original, ops, ts) && n < |ts|
    ensures forall p :: !Inside(p) ==> KnownAt(h, original, ts[n], p)
    ensures BackupsLeftAlone(ts[n].files) ==> TrueRecords(h, original, ts[n])
  {
    hide Do, Proper, KnownAt, TrueAt, Inside;
    if n > 0 {
      assert Completes(h, ts[n - 1], ops[n - 1], ts[n]);
      OperationWrites(h, ts[n - 1], ops[n - 1], ts[n]);
      forall f | f in ts[n - 1].files
        ensures f in ts[n].files
      {
        var i :| 0 <= i < |ts[n - 1].files| && ts[n - 1].files[i] == f;
        if !ops[n - 1].Payload? { assert ts[n].files[..|ts[n - 1].files|][i] == f; }
      }
      AdditionRecordsTruth(h, original, ops, ts, n - 1);
      forall p | !Inside(p)
        ensures KnownAt(h, original, ts[n], p)
      {
        OperationKeepsKnown(h, original, ts[n - 1], ops[n - 1], ts[n], p);
      }
      if BackupsLeftAlone(ts[n].files) {
        OperationKeepsRecordsTrue(h, original, ts[n - 1], ops[n - 1], ts[n]);
      }
    } else {
      NothingRecorded(h, original);
    }
  }

  lemma NothingRecorded(h: Hash, original: Files)
    ensures forall p :: TrueAt(h, original, Tracker(original, []), p) && KnownAt(h, original, Tracker(original, []), p)
  {}

  /** The content that the last operation on `p` writes. */
  function LastWritten(ops: seq<Op>, p: string): Option<string> {
    if |ops| == 0 then None
    else if ops[|ops| - 1].path == p then Some(ops[|ops| - 1].content)
    else LastWritten(ops[..|ops| - 1], p)
  }

  lemma OperationWritesItsContent(h: Hash, t: Tracker, op: Op, t': Tracker)
    requires Completes(h, t, op, t')
    ensures op.path in t'.disk && t'.disk[op.path] == op.content
    ensures op.CopyCreated? || op.WriteCreated? ==> op.path !in t.disk
    ensures op.WriteModified? ==> op.path in t.disk
  {
    hide BackupName, IsBackup, Inside;
  }

  /** Undisturbed, a file is created exactly where there is none, and modified exactly where there is one and its backup's name is free. */
  lemma CompletesExactly(h: Hash, t: Tracker, op: Op)
    ensures Do(h, t, op, NoFault).Completed? <==>
      match op
      case CopyCreated(path, _) => path !in t.disk
      case WriteCreated(path, _, _) => path !in t.disk
      case WriteModified(path, _, _) => path in t.disk && BackupName(|t.files|) !in t.disk
      case Payload(_, _) => true
  {
    hide BackupName;
  }

  /** After an addition each path of the project has what the last operation on it wrote, and every other path what it had. */
  lemma {:induction false} AdditionInstalls(h: Hash, original: Files, ops: seq<Op>, ts: seq<Tracker>, n: nat, p: string)
    requires Addition(h, original, ops, ts) && n <= |ops| && !Inside(p)
    ensures match LastWritten(ops[..n], p)
            case None => SameAt(ts[n].disk, original, p)
            case Some(content) => p in ts[n].disk && ts[n].disk[p] == content
  {
    hide Do, Proper, BackupName, Inside;
    if n > 0 {
      AdditionInstalls(h, original, ops, ts, n - 1, p);
      assert ops[..n][..n - 1] == ops[..n - 1];
      assert Completes(h, ts[n - 1], ops[n - 1], ts[n]);
      OperationWrites(h, ts[n - 1], ops[n - 1], ts[n]);
      OperationWritesItsContent(h, ts[n - 1], ops[n - 1], ts[n]);
      BackupNameIsBackup(|ts[n - 1].files|);
      assert Inside(BackupName(|ts[n - 1].files|));
      if p != ops[n - 1].path { assert SameAt(ts[n].disk, ts[n - 1].disk, p); }
    }
  }

  // ---- Removal ----

  /**
   The manifest lists the tracker's records, those of one project path in their order, and, as
   created, further files of the state directory.
   */
  ghost predicate IsManifest(files: seq<InstallFile>, t: Tracker, extras: seq<InstallFile>) {
    && (forall f :: f in files <==> f in t.files || f in extras)
    && (forall f :: f in extras ==> f.kind.Created? && Inside(f.path))
    && (forall p :: !Inside(p) ==> RecordsOf(files, p) == RecordsOf(t.files, p))
  }

  /** Later edits that leave the recorded project files as they were. */
  predicate RecordedFilesKept(edited: Files, t: Tracker) {
    forall f :: f in t.files && !Inside(f.path) ==> SameAt(edited, t.disk, f.path)
  }

  /** Later edits that leave the backups as they were. */
  predicate BackupsKept(edited: Files, t: Tracker) {
    forall f :: f in t.files && f.backup.Some? ==> SameAt(edited, t.disk, f.backup.value)
  }

  predicate EditedElsewhere(edited: Files, t: Tracker) { RecordedFilesKept(edited, t) && BackupsKept(edited, t) }

  predicate OnRecord(files: seq<InstallFile>, p: string) { exists f :: f in files && f.path == p }

  /** All records at `p` have one installed hash. */
  predicate OneHash(files: seq<InstallFile>, p: string) {
    forall f, g :: f in files && g in files && f.path == p && g.path == p ==> f.installedSha == g.installedSha
  }

  /** The path was created by the addition, or what the records write to it in the end is the original content. */
  predicate ComesBack(original: Files, edited: Files, files: seq<InstallFile>, p: string) {
    || CreatedAt(files, p)
    || (p in original && Origin(files, |files|, p) in edited && edited[Origin(files, |files|, p)] == original[p])
  }

  /** The path was created by the addition, or what it held before its last modification is the original content. */
  predicate Reverts(original: Files, t: Tracker, p: string) {
    || CreatedAt(t.files, p)
    || match LastModified(t.files, p)
       case None => false
       case Some(f) =>
         f.backup.Some? && f.backup.value in t.disk && p in original && t.disk[f.backup.value] == original[p]
  }

  /** The first pass lets a manifest through exactly if each path has one installed hash. */
  lemma InstalledExactly(h: Hash, original: Files, t: Tracker, extras: seq<InstallFile>, files: seq<InstallFile>, edited: Files)
    requires forall p :: !Inside(p) ==> KnownAt(h, original, t, p)
    requires IsManifest(files, t, extras) && RecordedFilesKept(edited, t)
    ensures InstalledAsRecorded(h, edited, files) <==> forall p :: !Inside(p) ==> OneHash(t.files, p)
  {
    hide KnownAt;
    forall p | !Inside(p)
      ensures (forall f :: f in t.files && f.path == p ==> p in edited && h(edited[p]) == f.installedSha) <==> OneHash(t.files, p)
    {
      PathInstalledExactly(h, original, t, edited, p);
    }
    if InstalledAsRecorded(h, edited, files) {
      forall p | !Inside(p)
        ensures OneHash(t.files, p)
      {
        assert forall f :: f in t.files && f.path == p ==> f in files;
      }
    }
    if forall p :: !Inside(p) ==> OneHash(t.files, p) {
      forall f | f in files && !Inside(f.path)
        ensures f.path in edited && h(edited[f.path]) == f.installedSha
      {
        assert f in t.files && OneHash(t.files, f.path);
      }
    }
  }

  lemma PathInstalledExactly(h: Hash, original: Files, t: Tracker, edited: Files, p: string)
    requires KnownAt(h, original, t, p) && RecordedFilesKept(edited, t) && !Inside(p)
    ensures (forall f :: f in t.files && f.path == p ==> p in edited && h(edited[p]) == f.installedSha) <==> OneHash(t.files, p)
  {
    var at := RecordsOf(t.files, p);
    RecordsOfMembers(t.files, p);
    if at != [] {
      var last := at[|at| - 1];
      assert last in at;
      assert SameAt(edited, t.disk, p);
    }
  }

  lemma SameRecords(t: Tracker, extras: seq<InstallFile>, files: seq<InstallFile>, p: string)
    requires IsManifest(files, t, extras) && !Inside(p)
    ensures CreatedAt(files, p) == CreatedAt(t.files, p) && LastModified(files, p) == LastModified(t.files, p)
    ensures OnRecord(files, p) == OnRecord(t.files, p)
  {
    LastModifiedOfRecords(files, p);
    LastModifiedOfRecords(t.files, p);
  }

  /**
   Removal after any addition and any edits that spare the recorded project files. It succeeds
   if and only if no path has records with different installed hashes, and each backup is as
   recorded at its turn; refused for the hashes, it changes nothing. Otherwise the state
   directory is gone, every path without a record is as edited, and each recorded path is as
   before the addition if and only if it was created or gets the original content back.
   */
  lemma RemoveAfterAddExactly(
      h: Hash, original: Files, ops: seq<Op>, ts: seq<Tracker>, extras: seq<InstallFile>, files: seq<InstallFile>, edited: Files)
    requires Addition(h, original, ops, ts)
    requires IsManifest(files, ts[|ops|], extras) && RecordedFilesKept(edited, ts[|ops|])
    ensures
      var t, r := ts[|ops|], Remove(h, edited, files);
      && (r.error.None? <==> (forall p :: !Inside(p) ==> OneHash(t.files, p)) && BackupsAsRecorded(h, edited, files))
      && (!(forall p :: !Inside(p) ==> OneHash(t.files, p)) ==> r.disk == edited)
      && (r.error.None? ==>
            && (forall p :: Inside(p) ==> p !in r.disk)
            && (forall p :: !Inside(p) && !OnRecord(t.files, p) ==> SameAt(r.disk, edited, p))
            && (forall p :: !Inside(p) && OnRecord(t.files, p) ==> (SameAt(r.disk, original, p) <==> ComesBack(original, edited, files, p))))
  {
    hide Remove, Do, Proper, InstalledAsRecorded, BackupsAsRecorded, IsManifest, KnownAt, ComesBack;
    var t := ts[|ops|];
    AdditionRecordsTruth(h, original, ops, ts, |ops|);
    RemoveSucceedsExactly(h, edited, files);
    InstalledExactly(h, original, t, extras, files, edited);
    if Remove(h, edited, files).error.None? {
      forall p
        ensures Inside(p) ==> p !in Remove(h, edited, files).disk
        ensures !Inside(p) && !OnRecord(t.files, p) ==> SameAt(Remove(h, edited, files).disk, edited, p)
        ensures !Inside(p) && OnRecord(t.files, p) ==>
          (SameAt(Remove(h, edited, files).disk, original, p) <==> ComesBack(original, edited, files, p))
      {
        PathAfterRemoval(h, original, t, extras, files, edited, p);
      }
    }
  }

  lemma PathAfterRemoval(
      h: Hash, original: Files, t: Tracker, extras: seq<InstallFile>, files: seq<InstallFile>, edited: Files, p: string)
    requires !Inside(p) ==> KnownAt(h, original, t, p)
    requires IsManifest(files, t, extras) && Remove(h, edited, files).error.None?
    ensures Inside(p) ==> p !in Remove(h, edited, files).disk
    ensures !Inside(p) && !OnRecord(t.files, p) ==> SameAt(Remove(h, edited, files).disk, edited, p)
    ensures !Inside(p) && OnRecord(t.files, p) ==>
      (SameAt(Remove(h, edited, files).disk, original, p) <==> ComesBack(original, edited, files, p))
  {
    hide Remove, RecordsOf, LastModified;
    RemoveMeaning(h, edited, files, p);
    RecordsOfMembers(t.files, p);
    if !Inside(p) {
      SameRecords(t, extras, files, p);
      var at := RecordsOf(t.files, p);
      if !OnRecord(t.files, p) {
        assert forall i :: 0 <= i < |files| ==> files[i] in files;
        OriginOfOthers(files, |files|, p);
      } else if at[0].kind.Created? {
        assert at[0] in at && CreatedAt(t.files, p);
      } else {
        NothingCreated(t.files, p);
      }
    }
  }

  /** With a modification first, no record at the path is a creation, and some is a modification. */
  lemma NothingCreated(files: seq<InstallFile>, p: string)
    requires var at := RecordsOf(files, p); at != [] && forall i :: 0 <= i < |at| ==> at[i].kind.Modified?
    ensures !CreatedAt(files, p) && LastModified(files, p).Some?
  {
    hide RecordsOf;
    RecordsOfMembers(files, p);
    var at := RecordsOf(files, p);
    assert at[0] in at;
  }

  /**
   When neither an operation nor an edit has touched a backup, all are as recorded, and a path
   comes back if and only if it was created or its last backup is the original.
   */
  lemma UntouchedBackups(
      h: Hash, original: Files, ops: seq<Op>, ts: seq<Tracker>, extras: seq<InstallFile>, files: seq<InstallFile>, edited: Files)
    requires Addition(h, original, ops, ts) && BackupsLeftAlone(ts[|ops|].files)
    requires IsManifest(files, ts[|ops|], extras) && BackupsKept(edited, ts[|ops|])
    ensures BackupsAsRecorded(h, edited, files)
    ensures forall p :: !Inside(p) && OnRecord(ts[|ops|].files, p) ==>
              (ComesBack(original, edited, files, p) <==> Reverts(original, ts[|ops|], p))
  {
    hide Do, Proper, KnownAt, ComesBack, Reverts;
    var t := ts[|ops|];
    AdditionRecordsTruth(h, original, ops, ts, |ops|);
    BackupsAreApart(h, original, t, extras, files, edited);
    forall p | !Inside(p) && OnRecord(t.files, p)
      ensures ComesBack(original, edited, files, p) <==> Reverts(original, t, p)
    {
      UntouchedBackup(h, original, t, extras, files, edited, p);
    }
  }

  lemma BackupsAreApart(h: Hash, original: Files, t: Tracker, extras: seq<InstallFile>, files: seq<InstallFile>, edited: Files)
    requires TrueRecords(h, original, t) && IsManifest(files, t, extras) && BackupsKept(edited, t) && BackupsLeftAlone(t.files)
    ensures BackupsApart(files) && forall f :: f in files && f.kind.Modified? ==> f.backup.Some?
    ensures BackupsAsRecorded(h, edited, files)
  {
    hide TrueAt, IsBackup;
    forall f | f in files && f.kind.Modified?
      ensures f in t.files && TrueBackup(h, t.disk, f) && SameAt(edited, t.disk, f.backup.value)
    {}
    forall i | 0 <= i < |files|
      ensures BackupAsRecorded(h, edited, files, i)
    {
      var f := files[i];
      assert f in files && forall j :: 0 <= j < i ==> files[j] in files;
      if f.kind.Modified? { OriginOfOthers(files, i, f.backup.value); }
    }
  }

  lemma UntouchedBackup(
      h: Hash, original: Files, t: Tracker, extras: seq<InstallFile>, files: seq<InstallFile>, edited: Files, p: string)
    requires TrueRecords(h, original, t) && IsManifest(files, t, extras) && BackupsKept(edited, t) && BackupsApart(files)
    requires !Inside(p) && OnRecord(t.files, p) && forall f :: f in files && f.kind.Modified? ==> f.backup.Some?
    ensures ComesBack(original, edited, files, p) <==> Reverts(original, t, p)
  {
    hide RecordsOf, IsBackup, BackupsApart;
    SameRecords(t, extras, files, p);
    OriginWhenApart(files, |files|, p);
    assert files[..|files|] == files && TrueAt(h, original, t, p);
    RecordsOfMembers(t.files, p);
    var at := RecordsOf(t.files, p);
    if at[0].kind.Created? {
      assert at[0] in at && CreatedAt(t.files, p);
    } else {
      NothingCreated(t.files, p);
      var f := LastModified(t.files, p).value;
      assert TrueBackup(h, t.disk, f) && SameAt(edited, t.disk, f.backup.value);
    }
  }

  /** Removal undoes the addition at every recorded path, if and only if the backups are as recorded and at each path the hashes agree and it comes back. */
  lemma RemoveUndoesAddExactly(
      h: Hash, original: Files, ops: seq<Op>, ts: seq<Tracker>, extras: seq<InstallFile>, files: seq<InstallFile>, edited: Files)
    requires Addition(h, original, ops, ts)
    requires IsManifest(files, ts[|ops|], extras) && RecordedFilesKept(edited, ts[|ops|])
    ensures
      var t, r := ts[|ops|], Remove(h, edited, files);
      (r.error.None? && forall p :: !Inside(p) && OnRecord(t.files, p) ==> SameAt(r.disk, original, p))
      <==> BackupsAsRecorded(h, edited, files)
           && forall p :: !Inside(p) && OnRecord(t.files, p) ==> OneHash(t.files, p) && ComesBack(original, edited, files, p)
  {
    hide Remove, ComesBack, SameAt, BackupsAsRecorded;
    RemoveAfterAddExactly(h, original, ops, ts, extras, files, edited);
    var t := ts[|ops|];
    assert forall p :: !OnRecord(t.files, p) ==> OneHash(t.files, p);
  }

  // ---- One record per path, and the installers ----

  /** No two records of the project proper share a path, and only files of the project proper are modified. */
  predicate DistinctRecords(files: seq<InstallFile>) {
    && (forall i, j :: 0 <= i < j < |files| && !Inside(files[i].path) ==> files[i].path != files[j].path)
    && (forall i :: 0 <= i < |files| && files[i].kind.Modified? ==> !Inside(files[i].path))
  }

  lemma DistinctIsSafe(h: Hash, original: Files, t: Tracker, p: string)
    requires TrueRecords(h, original, t) && DistinctRecords(t.files) && !Inside(p) && OnRecord(t.files, p)
    ensures OneHash(t.files, p) && Reverts(original, t, p)
  {
    assert TrueAt(h, original, t, p);
    var at := RecordsOf(t.files, p);
    RecordsOfMembers(t.files, p);
    var f :| f in t.files && f.path == p;
    assert f in at;
    forall g | g in t.files && g.path == p
      ensures g == f
    {
      var i :| 0 <= i < |t.files| && t.files[i] == f;
      var j :| 0 <= j < |t.files| && t.files[j] == g;
      assert i == j;
    }
    assert at[0] in at;
  }

  /**
   After an addition with one record per path and any edits elsewhere, removal succeeds: every
   recorded path is as before the addition, every other path as edited, the state directory gone.
   */
  lemma RemoveUndoesAdd(
      h: Hash, original: Files, ops: seq<Op>, ts: seq<Tracker>, extras: seq<InstallFile>, files: seq<InstallFile>, edited: Files)
    requires Addition(h, original, ops, ts) && DistinctRecords(ts[|ops|].files)
    requires IsManifest(files, ts[|ops|], extras) && EditedElsewhere(edited, ts[|ops|])
    ensures
      var t, r := ts[|ops|], Remove(h, edited, files);
      && r.error.None?
      && (forall p :: Inside(p) ==> p !in r.disk)
      && (forall p :: !Inside(p) && OnRecord(t.files, p) ==> SameAt(r.disk, original, p))
      && (forall p :: !Inside(p) && !OnRecord(t.files, p) ==> SameAt(r.disk, edited, p))
  {
    hide Remove, Reverts, ComesBack, SameAt, Do, Proper, BackupsAsRecorded;
    var t := ts[|ops|];
    assert BackupsLeftAlone(t.files) by {
      forall f | f in t.files && f.kind.Modified?
        ensures !IsBackup(f.path)
      {
        if IsBackup(f.path) { BackupsAreInside(f.path); }
      }
    }
    AdditionRecordsTruth(h, original, ops, ts, |ops|);
    RemoveAfterAddExactly(h, original, ops, ts, extras, files, edited);
    UntouchedBackups(h, original, ops, ts, extras, files, edited);
    forall p | !Inside(p) && OnRecord(t.files, p)
      ensures OneHash(t.files, p) && Reverts(original, t, p)
    {
      DistinctIsSafe(h, original, t, p);
    }
    assert forall p :: !OnRecord(t.files, p) ==> OneHash(t.files, p);
  }

  /** The project kinds that licctl integrates; a .NET project has one project file at its root. */
  datatype Stack = DotNet(projectFile: string) | Electron | Python | Cpp

  predicate ValidStack(stack: Stack) {
    stack.DotNet? ==> '/' !in stack.projectFile && |stack.projectFile| >= 7 && stack.projectFile[|stack.projectFile| - 7..] == ".csproj"
  }

  /** The paths that an addition has the tracker create and modify, in order. */
  function Mutations(stack: Stack): seq<(Kind, string)> {
    [(Created, ".licensehub/product.profile.json")] +
    match stack
    case DotNet(projectFile) => [(Created, "LicenseHubIntegration.cs"), (Modified, projectFile)]
    case Electron =>
      [(Modified, "package.json"), (Created, "licensehub-client.cjs"), (Created, "licensehub-main.cjs"),
       (Created, "licensehub-preload.cjs"), (Created, "licensehub-renderer.js")]
    case Python => [(Created, "licensehub_integration.py")]
    case Cpp => [(Created, "licensehub_integration.hpp"), (Modified, "CMakeLists.txt")]
  }

  /** What the tracker is asked to do, the payload of the state directory aside. */
  function Tracked(ops: seq<Op>): seq<(Kind, string)> {
    if |ops| == 0 then []
    else
      Tracked(ops[..|ops| - 1])
      + match ops[|ops| - 1]
        case Payload(_, _) => []
        case WriteModified(path, _, _) => [(Modified, path)]
        case op => [(Created, op.path)]
  }

  lemma {:induction false} RecordsAreTracked(h: Hash, original: Files, ops: seq<Op>, ts: seq<Tracker>, n: nat)
    requires Addition(h, original, ops, ts) && n <= |ops|
    ensures |ts[n].files| == |Tracked(ops[..n])|
    ensures forall i :: 0 <= i < |ts[n].files| ==> (ts[n].files[i].kind, ts[n].files[i].path) == Tracked(ops[..n])[i]
  {
    hide BackupName;
    if n > 0 {
      RecordsAreTracked(h, original, ops, ts, n - 1);
      assert ops[..n][..n - 1] == ops[..n - 1];
      assert Completes(h, ts[n - 1], ops[n - 1], ts[n]);
    }
  }

  lemma MutationsAreDistinct(stack: Stack)
    requires ValidStack(stack)
    ensures
      var m := Mutations(stack);
      && (forall i, j :: 0 <= i < j < |m| && !Inside(m[i].1) ==> m[i].1 != m[j].1)
      && (forall i :: 0 <= i < |m| && m[i].0.Modified? ==> !Inside(m[i].1))
  {
    if stack.DotNet? {
      if Inside(stack.projectFile) { InsideShape(stack.projectFile); }
      var name := "LicenseHubIntegration.cs";
      assert name[|name| - 1] == 's' && stack.projectFile[|stack.projectFile| - 7..][6] == 'j';
    }
    OutsideByFirstCharacter("package.json");
    OutsideByFirstCharacter("CMakeLists.txt");
  }

  lemma InsideShape(path: string)
    requires Inside(path)
    ensures |path| > 11 && path[0] == '.' && path[11] == '/'
  {
    assert path[0] == STATE_DIR[0] && path[11] == STATE_DIR[11];
  }

  lemma OutsideByFirstCharacter(path: string)
    requires |path| > 0 && path[0] != '.'
    ensures !Inside(path)
  {
    if Inside(path) { InsideShape(path); }
  }

  lemma StackRecordsAreDistinct(h: Hash, original: Files, stack: Stack, ops: seq<Op>, ts: seq<Tracker>)
    requires ValidStack(stack) && Tracked(ops) == Mutations(stack) && Addition(h, original, ops, ts)
    ensures DistinctRecords(ts[|ops|].files)
  {
    hide Mutations, Do, Proper, ValidStack, Tracked, Inside;
    assert ops[..|ops|] == ops;
    RecordsAreTracked(h, original, ops, ts, |ops|);
    MutationsAreDistinct(stack);
    var files := ts[|ops|].files;
    assert forall i :: 0 <= i < |files| ==> files[i].path == Mutations(stack)[i].1 && files[i].kind == Mutations(stack)[i].0;
  }

  /** What any of the four installers adds can be removed again, to the last byte of every recorded path. */
  lemma InstalledStackIsRemovable(
      h: Hash, original: Files, stack: Stack, ops: seq<Op>, ts: seq<Tracker>, extras: seq<InstallFile>, files: seq<InstallFile>,
      edited: Files)
    requires ValidStack(stack) && Tracked(ops) == Mutations(stack) && Addition(h, original, ops, ts)
    requires IsManifest(files, ts[|ops|], extras) && EditedElsewhere(edited, ts[|ops|])
    ensures
      var t, r := ts[|ops|], Remove(h, edited, files);
      && r.error.None?
      && (forall p :: Inside(p) ==> p !in r.disk)
      && (forall p :: !Inside(p) && OnRecord(t.files, p) ==> SameAt(r.disk, original, p))
      && (forall p :: !Inside(p) && !OnRecord(t.files, p) ==> SameAt(r.disk, edited, p))
  {
    hide *;
    StackRecordsAreDistinct(h, original, stack, ops, ts);
    RemoveUndoesAdd(h, original, ops, ts, extras, files, edited);
  }

  // ---- An addition that is not undone ----

  /** The states of modifying `"a"` from `x` to `c` twice. */
  function TwiceModified(h: Hash, x: string, c: string): seq<Tracker> {
    var first := InstallFile("a", Modified, h(c), Some(h(x)), Some(BackupName(0)));
    var second := InstallFile("a", Modified, h(c), Some(h(c)), Some(BackupName(1)));
    [Tracker(map["a" := x], []),
     Tracker(map["a" := c, BackupName(0) := x], [first]),
     Tracker(map["a" := c, BackupName(0) := x, BackupName(1) := c], [first, second])]
  }

  lemma FirstBackupNames()
    ensures BackupName(0) != BackupName(1) && Inside(BackupName(0)) && Inside(BackupName(1)) && !Inside("a")
    ensures "a" != BackupName(0) && "a" != BackupName(1)
    ensures "t" != BackupName(0) && "u" != BackupName(1) && "u" != BackupName(0)
  {
    BackupNameIsBackup(0);
    BackupNameIsBackup(1);
    assert Padded(0) == "0000" && Padded(1) == "0001";
    assert BackupName(0)[|BACKUP_DIR| + 3] != BackupName(1)[|BACKUP_DIR| + 3];
  }

  lemma ModifyingTwiceCompletes(h: Hash, x: string, c: string)
    ensures Addition(h, map["a" := x], [WriteModified("a", c, "t"), WriteModified("a", c, "u")], TwiceModified(h, x, c))
  {
    hide BackupName, Inside;
    FirstBackupNames();
    var ts := TwiceModified(h, x, c);
    assert ts[0].disk[BackupName(0) := x]["a" := c] == ts[1].disk;
    assert ts[1].disk[BackupName(1) := c]["a" := c] == ts[2].disk;
    assert ts[0].files + [ts[1].files[0]] == ts[1].files;
    assert ts[1].files + [ts[2].files[1]] == ts[2].files;
    assert Completes(h, ts[0], WriteModified("a", c, "t"), ts[1]);
    assert Completes(h, ts[1], WriteModified("a", c, "u"), ts[2]);
  }

  lemma RemovingTheTwiceModified(h: Hash, x: string, c: string)
    ensures Remove(h, TwiceModified(h, x, c)[2].disk, TwiceModified(h, x, c)[2].files) == Removed(map["a" := c], None)
  {
    hide BackupName, Inside;
    FirstBackupNames();
    var disk, files := TwiceModified(h, x, c)[2].disk, TwiceModified(h, x, c)[2].files;
    assert InstalledAsRecorded(h, disk, files);
    PrecheckMeaning(h, disk, files);
    assert files[1..] == [files[1]] && [files[1]][1..] == [];
    var d1 := disk["a" := x];
    var d2 := d1["a" := c];
    assert Restore(h, disk, files) == Restore(h, d1, [files[1]]);
    assert Restore(h, d1, [files[1]]) == Restore(h, d2, []) == Removed(d2, None);
    assert DeleteCreated(d2, files) == DeleteCreated(d2, [files[1]]) == d2;
    assert Cleaned(d2) == map["a" := c];
  }

  lemma TheTwiceModifiedDoesNotComeBack(h: Hash, x: string, c: string)
    requires x != c
    ensures
      var t := TwiceModified(h, x, c)[2];
      && OneHash(t.files, "a") && !Reverts(map["a" := x], t, "a")
      && !ComesBack(map["a" := x], t.disk, t.files, "a")
  {
    hide BackupName, Inside;
    FirstBackupNames();
    var files := TwiceModified(h, x, c)[2].files;
    assert files[1..] == [files[1]] && [files[1]][1..] == [];
    assert LastModified(files, "a") == Some(files[1]) && !CreatedAt(files, "a");
    assert Origin(files, 1, BackupName(1)) == Origin(files, 0, BackupName(1)) == BackupName(1);
    assert Origin(files, 2, "a") == BackupName(1);
  }

  /** A path modified twice to one content: removal succeeds and leaves the installed content. */
  lemma SameModificationTwiceIsNotRestored(h: Hash, x: string, c: string)
    requires x != c
    ensures
      var ts := TwiceModified(h, x, c);
      && Addition(h, map["a" := x], [WriteModified("a", c, "t"), WriteModified("a", c, "u")], ts)
      && OneHash(ts[2].files, "a") && !Reverts(map["a" := x], ts[2], "a")
      && BackupsAsRecorded(h, ts[2].disk, ts[2].files) && !ComesBack(map["a" := x], ts[2].disk, ts[2].files, "a")
      && Remove(h, ts[2].disk, ts[2].files) == Removed(map["a" := c], None)
  {
    hide Addition, Remove, InstalledAsRecorded, BackupsAsRecorded, OneHash, Reverts, ComesBack, BackupName;
    var t := TwiceModified(h, x, c)[2];
    ModifyingTwiceCompletes(h, x, c);
    RemovingTheTwiceModified(h, x, c);
    TheTwiceModifiedDoesNotComeBack(h, x, c);
    RemoveSucceedsExactly(h, t.disk, t.files);
  }
}
