/** Removing an integration: the three passes of `remove`, for any manifest. */
module Removal {
  import opened Wrappers
  import opened Integration

  datatype RemoveError = FileMissing | LocallyModified | BackupMissing | BackupMismatch

  datatype Removed = Removed(disk: Files, error: Option<RemoveError>)

  /** The first pass: every recorded file outside the state directory is as it was installed. */
  function Precheck(h: Hash, disk: Files, files: seq<InstallFile>): Option<RemoveError> {
    if |files| == 0 then None
    else if !Inside(files[0].path) && files[0].path !in disk then Some(FileMissing)
    else if !Inside(files[0].path) && h(disk[files[0].path]) != files[0].installedSha then Some(LocallyModified)
    else Precheck(h, disk, files[1..])
  }

  /** The second pass: modified files get their backups. */
  function Restore(h: Hash, disk: Files, files: seq<InstallFile>): Removed
    decreases |files|
  {
    if |files| == 0 then Removed(disk, None)
    else
      var f := files[0];
      if !f.kind.Modified? then Restore(h, disk, files[1..])
      else if f.backup.None? || f.backup.value !in disk then Removed(disk, Some(BackupMissing))
      else
        var disk' := disk[f.path := disk[f.backup.value]];
        if f.originalSha.Some? && h(disk'[f.path]) != f.originalSha.value then Removed(disk', Some(BackupMismatch))
        else Restore(h, disk', files[1..])
  }

  /** The third pass: created files go. */
  function DeleteCreated(disk: Files, files: seq<InstallFile>): Files {
    if |files| == 0 then disk
    else DeleteCreated(if files[0].kind.Created? && !Inside(files[0].path) then disk - {files[0].path} else disk, files[1..])
  }

  function Remove(h: Hash, disk: Files, files: seq<InstallFile>): Removed {
    var refused := Precheck(h, disk, files);
    if refused.Some? then Removed(disk, refused)
    else
      var restored := Restore(h, disk, files);
      if restored.error.Some? then restored
      else Removed(Cleaned(DeleteCreated(restored.disk, files)), None)
  }

  predicate Unaltered(h: Hash, disk: Files, files: seq<InstallFile>) {
    forall f :: f in files ==> f.path in disk && h(disk[f.path]) == f.installedSha
  }

  class Project {
    const hash: Hash
    var disk: Files

    constructor (hash: Hash, disk: Files)
      ensures this.hash == hash && this.disk == disk
    {
      this.hash := hash;
      this.disk := disk;
    }

    /** Whether a repeated addition finds the installation unaltered, state directory included. */
    method CheckInstalledHashes(files: seq<InstallFile>) returns (ok: bool)
      ensures ok <==> Unaltered(hash, disk, files)
    {
      for i := 0 to |files|
        invariant forall j :: 0 <= j < i ==> files[j].path in disk && hash(disk[files[j].path]) == files[j].installedSha
      {
        if files[i].path !in disk || hash(disk[files[i].path]) != files[i].installedSha {
          assert files[i] in files;
          return false;
        }
      }
      ok := true;
    }

    method RemoveIntegration(files: seq<InstallFile>) returns (error: Option<RemoveError>)
      modifies this
      ensures Removed(disk, error) == Remove(hash, old(disk), files)
    {
      for i := 0 to |files|
        invariant disk == old(disk)
        invariant Precheck(hash, disk, files[i..]) == Precheck(hash, disk, files)
      {
        assert files[i..][1..] == files[i + 1..];
        if !Inside(files[i].path) {
          if files[i].path !in disk { return Some(FileMissing); }
          if hash(disk[files[i].path]) != files[i].installedSha { return Some(LocallyModified); }
        }
      }
      for i := 0 to |files|
        invariant Restore(hash, disk, files[i..]) == Restore(hash, old(disk), files)
      {
        assert files[i..][1..] == files[i + 1..];
        if files[i].kind.Modified? {
          if files[i].backup.None? || files[i].backup.value !in disk { return Some(BackupMissing); }
          disk := disk[files[i].path := disk[files[i].backup.value]];
          if files[i].originalSha.Some? && hash(disk[files[i].path]) != files[i].originalSha.value {
            return Some(BackupMismatch);
          }
        }
      }
      ghost var restored := disk;
      for i := 0 to |files|
        invariant DeleteCreated(disk, files[i..]) == DeleteCreated(restored, files)
      {
        assert files[i..][1..] == files[i + 1..];
        if files[i].kind.Created? && !Inside(files[i].path) {
          disk := disk - {files[i].path};
        }
      }
      disk := Cleaned(disk);
      error := None;
    }
  }

  // ---- When removal succeeds ----

  predicate InstalledAsRecorded(h: Hash, disk: Files, files: seq<InstallFile>) {
    forall f :: f in files && !Inside(f.path) ==> f.path in disk && h(disk[f.path]) == f.installedSha
  }

  /**
   The file whose content stands at `p` after the first `n` records have been written: a
   backup may itself have been written by an earlier record.
   */
  function Origin(files: seq<InstallFile>, n: nat, p: string): string
    requires n <= |files|
  {
    if n == 0 then p
    else if files[n - 1].kind.Modified? && files[n - 1].path == p && files[n - 1].backup.Some? then
      Origin(files, n - 1, files[n - 1].backup.value)
    else Origin(files, n - 1, p)
  }

  /** When its turn comes, record `i` finds its backup. */
  predicate BackupFound(disk: Files, files: seq<InstallFile>, i: nat)
    requires i < |files|
  {
    files[i].backup.Some? && Origin(files, i, files[i].backup.value) in disk
  }

  /** When its turn comes, record `i`, if of a modification, finds its backup with the recorded hash. */
  predicate BackupAsRecorded(h: Hash, disk: Files, files: seq<InstallFile>, i: nat)
    requires i < |files|
  {
    files[i].kind.Modified? ==>
      && BackupFound(disk, files, i)
      && (files[i].originalSha.Some? ==> h(disk[Origin(files, i, files[i].backup.value)]) == files[i].originalSha.value)
  }

  predicate BackupsAsRecorded(h: Hash, disk: Files, files: seq<InstallFile>) {
    forall i :: 0 <= i < |files| ==> BackupAsRecorded(h, disk, files, i)
  }

  predicate CreatedAt(files: seq<InstallFile>, p: string) { exists f :: f in files && f.kind.Created? && f.path == p }

  predicate SameAt(a: Files, b: Files, p: string) {
    (p in a <==> p in b) && (p in a ==> a[p] == b[p])
  }

  /** At `p`, `d` is `disk` with the backups of the first `n` records written, one after the other. */
  predicate RestoredAt(d: Files, disk: Files, files: seq<InstallFile>, n: nat, p: string)
    requires n <= |files|
  {
    && (p in d <==> Origin(files, n, p) in disk)
    && (p in d ==> d[p] == disk[Origin(files, n, p)])
  }

  lemma {:induction false} PrecheckMeaning(h: Hash, disk: Files, files: seq<InstallFile>)
    ensures Precheck(h, disk, files).None? <==> InstalledAsRecorded(h, disk, files)
  {
    if |files| > 0 {
      PrecheckMeaning(h, disk, files[1..]);
      assert files == [files[0]] + files[1..];
      assert forall f :: f in files <==> f == files[0] || f in files[1..];
      assert files[0] in files;
    }
  }

  lemma Parts(files: seq<InstallFile>)
    requires |files| > 0
    ensures forall f :: f in files <==> f == files[0] || f in files[1..]
  {
    assert files == [files[0]] + files[1..];
  }

  /** The second pass comes through the records whose backups are as recorded, and writes them. */
  lemma {:induction false} RestoreSteps(h: Hash, disk: Files, files: seq<InstallFile>, n: nat) returns (d: Files)
    requires n <= |files| && forall i :: 0 <= i < n ==> BackupAsRecorded(h, disk, files, i)
    ensures Restore(h, disk, files) == Restore(h, d, files[n..])
    ensures forall p :: RestoredAt(d, disk, files, n, p)
  {
    if n == 0 {
      d := disk;
      assert files[0..] == files;
    } else {
      d := RestoreSteps(h, disk, files, n - 1);
      var f := files[n - 1];
      assert files[n - 1..][0] == f && files[n - 1..][1..] == files[n..];
      assert BackupAsRecorded(h, disk, files, n - 1);
      if f.kind.Modified? {
        assert RestoredAt(d, disk, files, n - 1, f.backup.value);
        var d' := d[f.path := d[f.backup.value]];
        forall p
          ensures RestoredAt(d', disk, files, n, p)
        {
          assert RestoredAt(d, disk, files, n - 1, p);
        }
        d := d';
      } else {
        forall p
          ensures RestoredAt(d, disk, files, n, p)
        {
          assert RestoredAt(d, disk, files, n - 1, p);
        }
      }
    }
  }

  /** The number of records before the first one whose backup is not as recorded, among the first `n`. */
  function FirstUnfit(h: Hash, disk: Files, files: seq<InstallFile>, n: nat): (k: nat)
    requires n <= |files|
    ensures k <= n && forall i :: 0 <= i < k ==> BackupAsRecorded(h, disk, files, i)
    ensures k < n ==> !BackupAsRecorded(h, disk, files, k)
  {
    if n == 0 then 0
    else
      var k := FirstUnfit(h, disk, files, n - 1);
      if k == n - 1 && BackupAsRecorded(h, disk, files, n - 1) then n else k
  }

  /** How many records have been written when the second pass ends: a backup with the wrong hash is written first. */
  function WrittenBefore(h: Hash, disk: Files, files: seq<InstallFile>): (n: nat)
    ensures n <= |files|
  {
    var k := FirstUnfit(h, disk, files, |files|);
    if k < |files| && BackupFound(disk, files, k) then k + 1 else k
  }

  /** The second pass succeeds exactly when each backup is as recorded at its turn, and then has written all of them. */
  lemma RestoreMeaning(h: Hash, disk: Files, files: seq<InstallFile>)
    ensures Restore(h, disk, files).error.None? <==> BackupsAsRecorded(h, disk, files)
    ensures Restore(h, disk, files).error.None? ==> forall p :: RestoredAt(Restore(h, disk, files).disk, disk, files, |files|, p)
  {
    if BackupsAsRecorded(h, disk, files) {
      var d := RestoreSteps(h, disk, files, |files|);
      assert Restore(h, d, []) == Removed(d, None);
    } else {
      StoppedRestoreMeaning(h, disk, files);
    }
  }

  /** Where a second pass stops, with which error, and what it has written. */
  lemma StoppedRestoreMeaning(h: Hash, disk: Files, files: seq<InstallFile>)
    requires !BackupsAsRecorded(h, disk, files)
    ensures
      var k := FirstUnfit(h, disk, files, |files|);
      && k < |files|
      && Restore(h, disk, files).error == Some(if BackupFound(disk, files, k) then BackupMismatch else BackupMissing)
    ensures forall p :: RestoredAt(Restore(h, disk, files).disk, disk, files, WrittenBefore(h, disk, files), p)
  {
    hide Restore;
    var k := FirstUnfit(h, disk, files, |files|);
    assert k < |files| && files[k].kind.Modified?;
    var d := RestoreSteps(h, disk, files, k);
    if files[k].backup.Some? {
      assert RestoredAt(d, disk, files, k, files[k].backup.value);
    }
    StoppedAtOnce(h, d, files[k..]);
    forall p
      ensures RestoredAt(Restore(h, disk, files).disk, disk, files, WrittenBefore(h, disk, files), p)
    {
      assert RestoredAt(d, disk, files, k, p);
    }
  }

  lemma StoppedAtOnce(h: Hash, d: Files, files: seq<InstallFile>)
    requires |files| > 0 && files[0].kind.Modified?
    requires files[0].backup.Some? && files[0].backup.value in d ==>
               files[0].originalSha.Some? && h(d[files[0].backup.value]) != files[0].originalSha.value
    ensures Restore(h, d, files) ==
            if files[0].backup.Some? && files[0].backup.value in d
            then Removed(d[files[0].path := d[files[0].backup.value]], Some(BackupMismatch))
            else Removed(d, Some(BackupMissing))
  {}

  lemma {:induction false} DeleteMeaning(disk: Files, files: seq<InstallFile>, p: string)
    ensures if CreatedAt(files, p) && !Inside(p) then p !in DeleteCreated(disk, files) else SameAt(DeleteCreated(disk, files), disk, p)
    decreases |files|
  {
    if |files| > 0 {
      Parts(files);
      var disk' := if files[0].kind.Created? && !Inside(files[0].path) then disk - {files[0].path} else disk;
      DeleteMeaning(disk', files[1..], p);
    }
  }

  /** Removal succeeds exactly when every recorded file and every backup is as recorded; refused for a file it changes nothing. */
  lemma RemoveSucceedsExactly(h: Hash, disk: Files, files: seq<InstallFile>)
    ensures Remove(h, disk, files).error.None? <==> InstalledAsRecorded(h, disk, files) && BackupsAsRecorded(h, disk, files)
    ensures !InstalledAsRecorded(h, disk, files) ==> Remove(h, disk, files).disk == disk
  {
    PrecheckMeaning(h, disk, files);
    RestoreMeaning(h, disk, files);
  }

  /** What a repeated addition takes for unaltered can be removed, exactly if the backups are as recorded. */
  lemma UnalteredIsRemovable(h: Hash, disk: Files, files: seq<InstallFile>)
    requires Unaltered(h, disk, files)
    ensures Remove(h, disk, files).error.None? <==> BackupsAsRecorded(h, disk, files)
  {
    RemoveSucceedsExactly(h, disk, files);
  }

  /** What a successful removal leaves at each path. */
  lemma RemoveMeaning(h: Hash, disk: Files, files: seq<InstallFile>, p: string)
    requires Remove(h, disk, files).error.None?
    ensures
      var d := Remove(h, disk, files).disk;
      if Inside(p) || CreatedAt(files, p) then p !in d else RestoredAt(d, disk, files, |files|, p)
  {
    RestoreMeaning(h, disk, files);
    var restored := Restore(h, disk, files).disk;
    DeleteMeaning(restored, files, p);
    assert RestoredAt(restored, disk, files, |files|, p);
    assert Remove(h, disk, files).disk == Cleaned(DeleteCreated(restored, files));
  }

  /** What the first `n` records write is what the files already hold. */
  predicate NothingToWrite(disk: Files, files: seq<InstallFile>, n: nat)
    requires n <= |files|
  {
    forall i :: 0 <= i < n && files[i].kind.Modified? ==> SameContent(disk, files[i].path, Origin(files, n, files[i].path))
  }

  predicate SameContent(disk: Files, p: string, q: string) {
    (p in disk <==> q in disk) && (p in disk ==> disk[p] == disk[q])
  }

  /**
   A removal refused in its second pass leaves the backups of the records before the unfit
   one written, and that one's too if only its hash is wrong; it leaves the project unchanged
   exactly when what they write is what the files held.
   */
  lemma RefusedRemovalLeaves(h: Hash, disk: Files, files: seq<InstallFile>)
    requires InstalledAsRecorded(h, disk, files) && !BackupsAsRecorded(h, disk, files)
    ensures
      var r := Remove(h, disk, files);
      var n := WrittenBefore(h, disk, files);
      && r.error in {Some(BackupMissing), Some(BackupMismatch)}
      && (forall p :: RestoredAt(r.disk, disk, files, n, p))
      && (r.disk == disk <==> NothingToWrite(disk, files, n))
  {
    hide BackupsAsRecorded, WrittenBefore;
    PrecheckMeaning(h, disk, files);
    StoppedRestoreMeaning(h, disk, files);
    UnchangedExactly(Remove(h, disk, files).disk, disk, files, WrittenBefore(h, disk, files));
  }

  lemma UnchangedExactly(d: Files, disk: Files, files: seq<InstallFile>, n: nat)
    requires n <= |files| && forall p :: RestoredAt(d, disk, files, n, p)
    ensures d == disk <==> NothingToWrite(disk, files, n)
  {
    if d == disk {
      forall i | 0 <= i < n && files[i].kind.Modified?
        ensures SameContent(disk, files[i].path, Origin(files, n, files[i].path))
      {
        assert RestoredAt(d, disk, files, n, files[i].path);
      }
    }
    if NothingToWrite(disk, files, n) {
      forall p
        ensures SameAt(d, disk, p)
      {
        assert RestoredAt(d, disk, files, n, p);
        if forall i :: 0 <= i < n && files[i].kind.Modified? ==> files[i].path != p {
          OriginOfOthers(files, n, p);
        } else {
          var i :| 0 <= i < n && files[i].kind.Modified? && files[i].path == p;
          assert SameContent(disk, p, Origin(files, n, files[i].path));
        }
      }
      assert forall p :: p in d <==> p in disk by { forall p ensures p in d <==> p in disk { assert SameAt(d, disk, p); } }
      assert forall p :: p in d ==> d[p] == disk[p] by { forall p | p in d ensures d[p] == disk[p] { assert SameAt(d, disk, p); } }
    }
  }

  /** A path that no record modifies keeps what it holds. */
  lemma {:induction false} OriginOfOthers(files: seq<InstallFile>, n: nat, p: string)
    requires n <= |files| && forall i :: 0 <= i < n && files[i].kind.Modified? ==> files[i].path != p
    ensures Origin(files, n, p) == p
  {
    if n > 0 { OriginOfOthers(files, n - 1, p); }
  }

  // ---- Backups that no record modifies ----

  /** No modified file is itself the backup of one. */
  predicate BackupsApart(files: seq<InstallFile>) {
    forall f, g :: f in files && g in files && f.kind.Modified? && g.kind.Modified? ==> g.backup != Some(f.path)
  }

  /** The last record of a modification at `p`. */
  function LastModified(files: seq<InstallFile>, p: string): (last: Option<InstallFile>)
    ensures last.Some? ==> last.value in files && last.value.kind.Modified? && last.value.path == p
    ensures last.None? ==> forall f :: f in files && f.kind.Modified? ==> f.path != p
  {
    if |files| == 0 then None
    else
      var later := LastModified(files[1..], p);
      assert files == [files[0]] + files[1..];
      if later.Some? then later
      else if files[0].kind.Modified? && files[0].path == p then Some(files[0])
      else None
  }

  lemma {:induction false} LastModifiedMore(files: seq<InstallFile>, f: InstallFile, p: string)
    ensures LastModified(files + [f], p) == if f.kind.Modified? && f.path == p then Some(f) else LastModified(files, p)
  {
    if |files| == 0 {
      assert files + [f] == [f] && [f][1..] == [];
    } else {
      LastModifiedMore(files[1..], f, p);
      assert (files + [f])[0] == files[0] && (files + [f])[1..] == files[1..] + [f];
    }
  }

  /** With backups apart each path gets the backup of its last modification, as it is on the disk. */
  lemma {:induction false} OriginWhenApart(files: seq<InstallFile>, n: nat, p: string)
    requires BackupsApart(files) && n <= |files| && forall f :: f in files && f.kind.Modified? ==> f.backup.Some?
    ensures Origin(files, n, p) == match LastModified(files[..n], p) case None => p case Some(f) => f.backup.value
  {
    if n > 0 {
      var f := files[n - 1];
      assert f in files && files[..n] == files[..n - 1] + [f];
      LastModifiedMore(files[..n - 1], f, p);
      if f.kind.Modified? && f.path == p {
        assert forall i :: 0 <= i < n - 1 ==> files[i] in files;
        OriginOfOthers(files, n - 1, f.backup.value);
      } else {
        OriginWhenApart(files, n - 1, p);
      }
    }
  }

  /** A path recorded twice with different contents can never be removed; the project is left alone. */
  lemma TwoRecordsAreRefused(h: Hash, disk: Files, files: seq<InstallFile>, f: InstallFile, g: InstallFile)
    requires f in files && g in files && f.path == g.path && !Inside(f.path) && f.installedSha != g.installedSha
    ensures Remove(h, disk, files).error.Some? && Remove(h, disk, files).disk == disk
  {
    PrecheckMeaning(h, disk, files);
  }

  /** Backups are on no record: an edited backup is written over the project file before its hash is refused. */
  lemma EditedBackupIsWrittenFirst(h: Hash, disk: Files, f: InstallFile)
    requires f.kind.Modified? && !Inside(f.path) && f.path in disk && h(disk[f.path]) == f.installedSha
    requires f.backup.Some? && f.backup.value in disk
    requires f.originalSha.Some? && h(disk[f.backup.value]) != f.originalSha.value
    ensures Remove(h, disk, [f]) == Removed(disk[f.path := disk[f.backup.value]], Some(BackupMismatch))
    ensures Remove(h, disk, [f]).disk != disk <==> disk[f.backup.value] != disk[f.path]
  {
    assert InstalledAsRecorded(h, disk, [f]);
    PrecheckMeaning(h, disk, [f]);
    assert Restore(h, disk, [f]) == Removed(disk[f.path := disk[f.backup.value]], Some(BackupMismatch));
    if disk[f.backup.value] == disk[f.path] { assert disk[f.path := disk[f.backup.value]] == disk; }
  }
}
