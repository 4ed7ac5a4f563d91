/**
 The secure store of the client: the plain map that callers reason with, and the
 directory of files that has to behave like it whenever the machine may stop.
 Values are byte strings.
 */
module Store {
  import opened Wrappers
  import opened Lease

  type Plain = map<string, string>

  datatype Write = Put(key: string, value: string) | Erase(key: string)

  function Apply(m: Plain, w: Write): Plain {
    match w
    case Put(k, v) => m[k := v]
    case Erase(k) => m - {k}
  }

  function Replay(m: Plain, ws: seq<Write>): Plain
    decreases |ws|
  {
    if |ws| == 0 then m else Replay(Apply(m, ws[0]), ws[1..])
  }

  lemma {:induction false} ReplayAppend(m: Plain, a: seq<Write>, b: seq<Write>)
    ensures Replay(m, a + b) == Replay(Replay(m, a), b)
    decreases |a|
  {
    if |a| == 0 {
      assert a + b == b;
    } else {
      assert (a + b)[1..] == a[1..] + b;
      ReplayAppend(Apply(m, a[0]), a[1..], b);
    }
  }

  /** The in-memory store: each operation takes effect at once or fails without effect. */
  class MemoryStore {
    var entries: Plain
    ghost var log: seq<Write>

    constructor (initial: Plain)
      ensures entries == initial && log == []
    {
      entries := initial;
      log := [];
    }

    method Get(key: string, fails: bool) returns (r: Result<Option<string>, LicenseError>)
      ensures r == Lookup(entries, key, fails)
    {
      if fails { return Err(Storage); }
      r := Ok(if key in entries then Some(entries[key]) else None);
    }

    method Set(key: string, value: string, fails: bool) returns (r: Result<(), LicenseError>)
      modifies this
      ensures r.Ok? <==> !fails
      ensures r.Err? ==> r.error == Storage
      ensures log == old(log) + if fails then [] else [Put(key, value)]
      ensures entries == if fails then old(entries) else old(entries)[key := value]
    {
      if fails { return Err(Storage); }
      entries := entries[key := value];
      log := log + [Put(key, value)];
      r := Ok(());
    }

    method Delete(key: string, fails: bool) returns (r: Result<(), LicenseError>)
      modifies this
      ensures r.Ok? <==> !fails
      ensures r.Err? ==> r.error == Storage
      ensures log == old(log) + if fails then [] else [Erase(key)]
      ensures entries == if fails then old(entries) else old(entries) - {key}
    {
      if fails { return Err(Storage); }
      entries := entries - {key};
      log := log + [Erase(key)];
      r := Ok(());
    }
  }

  function Lookup(m: Plain, key: string, fails: bool): Result<Option<string>, LicenseError> {
    if fails then Err(Storage) else Ok(if key in m then Some(m[key]) else None)
  }

  // ---- The directory of files ----

  type Dir = map<string, string>

  /** Encryption at rest; the salt stands for whatever makes two ciphertexts of one value differ. */
  datatype Protector = Protector(protect: (nat, string) -> Option<string>, unprotect: string -> Option<string>)

  ghost predicate LawfulProtector(p: Protector) {
    forall salt, x :: p.protect(salt, x).Some? ==> p.unprotect(p.protect(salt, x).value) == Some(x)
  }

  predicate KeyChar(c: char) {
    'a' <= c <= 'z' || 'A' <= c <= 'Z' || '0' <= c <= '9' || c == '-' || c == '_'
  }

  predicate ValidKey(key: string) {
    key != "" && forall i :: 0 <= i < |key| ==> KeyChar(key[i])
  }

  /** The name of the temporary file beside the file of a key. */
  function TempName(key: string, suffix: string): string {
    key + ".tmp-" + suffix
  }

  lemma TempNameIsNoKey(key: string, suffix: string)
    ensures !ValidKey(TempName(key, suffix))
  {
    assert TempName(key, suffix)[|key|] == '.';
  }

  /** What the files of valid keys hold, as a plain map. */
  function View(d: Dir, p: Protector): Plain {
    map k | k in d && ValidKey(k) && p.unprotect(d[k]).Some? :: p.unprotect(d[k]).value
  }

  /** Every file of a valid key can be decrypted. */
  ghost predicate Readable(d: Dir, p: Protector) {
    forall k :: k in d && ValidKey(k) ==> p.unprotect(d[k]).Some?
  }

  function Renamed(d: Dir, key: string, temp: string, bytes: string): Dir {
    d[key := bytes] - {temp}
  }

  /** The temporary file holds anything at all; every other file is untouched. */
  predicate TempHolds(found: Dir, d: Dir, temp: string) {
    temp in found && found == d[temp := found[temp]]
  }

  /**
   A directory that may be found while `bytes` are written to `key`: nothing done yet, the
   temporary file there, the temporary file cleared away, or the move complete.
   */
  predicate DuringPut(found: Dir, d: Dir, key: string, temp: string, bytes: string) {
    || found == d
    || TempHolds(found, d, temp)
    || found == d - {temp}
    || found == Renamed(d, key, temp, bytes)
  }

  /** The directories a crash may leave while `w` runs from `d`. */
  ghost predicate Exposed(d: Dir, w: Write, p: Protector, found: Dir) {
    match w
    case Put(k, v) =>
      exists suffix, salt :: p.protect(salt, v).Some? && DuringPut(found, d, k, TempName(k, suffix), p.protect(salt, v).value)
    case Erase(k) =>
      found == d || found == d - {k}
  }

  function Key(w: Write): string { w.key }

  /** Directories that agree on the files of valid keys, but for one of them, have views that do. */
  lemma ViewOfUpdate(d: Dir, found: Dir, key: string, bytes: string, p: Protector)
    requires p.unprotect(bytes).Some? && ValidKey(key) && key in found && found[key] == bytes
    requires forall k :: ValidKey(k) && k != key ==> (k in found <==> k in d) && (k in d ==> found[k] == d[k])
    ensures View(found, p) == View(d, p)[key := p.unprotect(bytes).value]
  {}

  lemma ViewUnaffected(d: Dir, found: Dir, p: Protector)
    requires forall k :: ValidKey(k) ==> (k in found <==> k in d) && (k in d ==> found[k] == d[k])
    ensures View(found, p) == View(d, p)
  {}

  /** While a value is written, the files read as the plain map before the write or after it, nothing else. */
  lemma DuringPutIsOldOrNew(found: Dir, d: Dir, key: string, suffix: string, salt: nat, value: string, p: Protector)
    requires LawfulProtector(p) && Readable(d, p) && ValidKey(key) && p.protect(salt, value).Some?
    requires DuringPut(found, d, key, TempName(key, suffix), p.protect(salt, value).value)
    ensures Readable(found, p)
    ensures View(found, p) == if found == Renamed(d, key, TempName(key, suffix), p.protect(salt, value).value)
                              then Apply(View(d, p), Put(key, value)) else View(d, p)
  {
    var temp, bytes := TempName(key, suffix), p.protect(salt, value).value;
    TempNameIsNoKey(key, suffix);
    if found == Renamed(d, key, temp, bytes) {
      ViewOfUpdate(d, found, key, bytes, p);
    } else {
      ViewUnaffected(d, found, p);
    }
  }

  lemma ExposedIsOldOrNew(d: Dir, w: Write, p: Protector, found: Dir)
    requires LawfulProtector(p) && Readable(d, p) && ValidKey(Key(w))
    requires Exposed(d, w, p, found)
    ensures Readable(found, p)
    ensures View(found, p) == View(d, p) || View(found, p) == Apply(View(d, p), w)
  {
    match w
    case Put(k, v) =>
      var suffix, salt :| p.protect(salt, v).Some? && DuringPut(found, d, k, TempName(k, suffix), p.protect(salt, v).value);
      DuringPutIsOldOrNew(found, d, k, suffix, salt, v, p);
    case Erase(k) =>
      if found != d { assert View(found, p) == View(d, p) - {k}; }
  }

  /** The directories a crash may leave while a sequence of writes runs; each completed write shows its new value. */
  ghost predicate ExposedRun(d: Dir, ws: seq<Write>, p: Protector, found: Dir)
    decreases |ws|
  {
    || found == d
    || (|ws| > 0 &&
        (|| Exposed(d, ws[0], p, found)
         || exists next :: Completed(d, ws[0], p, next) && ExposedRun(next, ws[1..], p, found)))
  }

  ghost predicate Completed(d: Dir, w: Write, p: Protector, next: Dir) {
    Exposed(d, w, p, next) && View(next, p) == Apply(View(d, p), w)
  }

  /** Whatever a crash during a run of writes leaves on disk reads as the map after some prefix of the run. */
  lemma {:induction false} CrashShowsAPrefix(d: Dir, ws: seq<Write>, p: Protector, found: Dir) returns (k: nat)
    requires LawfulProtector(p) && Readable(d, p)
    requires forall i :: 0 <= i < |ws| ==> ValidKey(Key(ws[i]))
    requires ExposedRun(d, ws, p, found)
    ensures k <= |ws| && Readable(found, p) && View(found, p) == Replay(View(d, p), ws[..k])
    decreases |ws|
  {
    hide Exposed, View, Readable, Apply, ValidKey;
    if found == d {
      k := 0;
    } else if Exposed(d, ws[0], p, found) {
      ExposedIsOldOrNew(d, ws[0], p, found);
      if View(found, p) == View(d, p) {
        k := 0;
      } else {
        k := 1;
        assert ws[..1] == [ws[0]];
        assert Replay(View(d, p), [ws[0]]) == Replay(Apply(View(d, p), ws[0]), []);
      }
    } else {
      var next :| Completed(d, ws[0], p, next) && ExposedRun(next, ws[1..], p, found);
      ExposedIsOldOrNew(d, ws[0], p, next);
      var j := CrashShowsAPrefix(next, ws[1..], p, found);
      k := j + 1;
      assert ws[..k][1..] == ws[1..][..j];
    }
  }

  /** Where an atomic write may go wrong. */
  datatype WriteFault = NoFault | CreateFails | WriteFails(partial: string) | ReplaceFails

  /** The directory after an atomic write to `key` by way of `temp`. */
  function AfterWrite(d: Dir, key: string, temp: string, bytes: string, fault: WriteFault, cleanupFails: bool): Dir {
    if fault.NoFault? && temp !in d then Renamed(d, key, temp, bytes)
    else if !cleanupFails then d - {temp}
    else if fault.CreateFails? || temp in d then d
    else d[temp := if fault.WriteFails? then fault.partial else bytes]
  }

  lemma AfterWriteMeaning(d: Dir, key: string, temp: string, bytes: string, fault: WriteFault, cleanupFails: bool)
    ensures DuringPut(AfterWrite(d, key, temp, bytes, fault, cleanupFails), d, key, temp, bytes)
    ensures !(fault.NoFault? && temp !in d) ==> AfterWrite(d, key, temp, bytes, fault, cleanupFails) - {temp} == d - {temp}
  {}

  class FileSecureStore {
    const protector: Protector
    var dir: Dir
    // every directory that a crash could have left so far
    ghost var exposed: iset<Dir>

    constructor (initial: Dir, protector: Protector)
      ensures dir == initial && this.protector == protector && exposed == iset{initial}
    {
      this.protector := protector;
      dir := initial;
      exposed := iset{initial};
    }

    /** Writes a temporary file beside the target and moves it into place. */
    method AtomicWrite(path: string, bytes: string, suffix: string, fault: WriteFault, cleanupFails: bool)
      returns (r: Result<(), LicenseError>)
      modifies this
      ensures r == if fault.NoFault? && TempName(path, suffix) !in old(dir) then Ok(()) else Err(Storage)
      ensures dir == AfterWrite(old(dir), path, TempName(path, suffix), bytes, fault, cleanupFails)
      ensures forall d :: d in exposed - old(exposed) ==> DuringPut(d, old(dir), path, TempName(path, suffix), bytes)
      ensures dir in exposed
    {
      hide TempName;
      var temp := TempName(path, suffix);
      ghost var start := dir;
      r := Err(Storage);
      if !fault.CreateFails? && temp !in dir {
        dir := dir[temp := ""];
        // anything may be on disk between the creation of the file and the end of the sync
        exposed := exposed + iset d | TempHolds(d, start, temp);
        dir := dir[temp := if fault.WriteFails? then fault.partial else bytes];
        if fault.NoFault? {
          dir := Renamed(dir, path, temp, bytes);
          r := Ok(());
        }
      }
      if r.Err? && !cleanupFails {
        dir := dir - {temp};
      }
      assert dir == AfterWrite(start, path, temp, bytes, fault, cleanupFails);
      AfterWriteMeaning(start, path, temp, bytes, fault, cleanupFails);
      exposed := exposed + iset{dir};
    }

    /** `fails` stands for every read error but a missing file. */
    method Get(key: string, fails: bool) returns (r: Result<Option<string>, LicenseError>)
      ensures r == if !ValidKey(key) || fails || (key in dir && protector.unprotect(dir[key]).None?) then Err(Storage)
                   else Ok(if key in View(dir, protector) then Some(View(dir, protector)[key]) else None)
    {
      if !ValidKey(key) { return Err(Storage); }
      if fails { return Err(Storage); }
      if key !in dir { return Ok(None); }
      match protector.unprotect(dir[key]) {
        case None => r := Err(Storage);
        case Some(x) => r := Ok(Some(x));
      }
    }

    /** A successful write is the write on the plain map; a failed one leaves the map alone; no crash shows anything else. */
    method Set(key: string, value: string, salt: nat, suffix: string, fault: WriteFault, cleanupFails: bool)
      returns (r: Result<(), LicenseError>)
      requires LawfulProtector(protector) && Readable(dir, protector)
      modifies this
      ensures Readable(dir, protector)
      ensures r.Ok? ==> ValidKey(key) && View(dir, protector) == Apply(old(View(dir, protector)), Put(key, value))
      ensures r.Err? ==> r.error == Storage && View(dir, protector) == old(View(dir, protector))
      ensures !ValidKey(key) ==> r.Err? && dir == old(dir)
      ensures ValidKey(key) && fault.NoFault? && protector.protect(salt, value).Some? && TempName(key, suffix) !in old(dir) ==> r.Ok?
      ensures forall d :: d in exposed - old(exposed) ==>
                Readable(d, protector) &&
                (View(d, protector) == old(View(dir, protector))
                 || View(d, protector) == Apply(old(View(dir, protector)), Put(key, value)))
    {
      if !ValidKey(key) { return Err(Storage); }
      var bytes := protector.protect(salt, value);
      if bytes.None? { return Err(Storage); }
      ghost var start := dir;
      r := AtomicWrite(key, bytes.value, suffix, fault, cleanupFails);
      TempNameIsNoKey(key, suffix);
      AfterWriteMeaning(start, key, TempName(key, suffix), bytes.value, fault, cleanupFails);
      DuringPutIsOldOrNew(dir, start, key, suffix, salt, value, protector);
      if r.Err? {
        var temp := TempName(key, suffix);
        assert forall k :: k != temp ==> (k in dir <==> k in dir - {temp}) && (k in start <==> k in start - {temp});
        assert forall k :: k != temp && k in dir ==> dir[k] == (dir - {temp})[k] == (start - {temp})[k] == start[k];
        ViewUnaffected(start, dir, protector);
      }
      forall d | d in exposed - old(exposed)
        ensures Readable(d, protector)
        ensures View(d, protector) == View(start, protector)
             || View(d, protector) == Apply(View(start, protector), Put(key, value))
      {
        DuringPutIsOldOrNew(d, start, key, suffix, salt, value, protector);
      }
    }

    method Delete(key: string, fails: bool) returns (r: Result<(), LicenseError>)
      requires Readable(dir, protector)
      modifies this
      ensures Readable(dir, protector)
      ensures r.Ok? ==> View(dir, protector) == Apply(old(View(dir, protector)), Erase(key))
      ensures r.Err? ==> dir == old(dir)
      ensures r.Ok? <==> ValidKey(key) && (key !in old(dir) || !fails)
      ensures forall d :: d in exposed - old(exposed) ==> d == old(dir) || d == dir
    {
      if !ValidKey(key) { return Err(Storage); }
      if key in dir {
        if fails { return Err(Storage); }
        ghost var start := dir;
        dir := dir - {key};
        exposed := exposed + iset{dir};
        assert View(dir, protector) == View(start, protector) - {key};
      } else {
        assert View(dir, protector) == View(dir, protector) - {key};
      }
      r := Ok(());
    }
  }
}
