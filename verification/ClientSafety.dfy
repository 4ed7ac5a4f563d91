/** What the client keeps over every call, every crash and every reading of the clock. */
module ClientSafety {
  import opened Wrappers
  import opened Base64Url
  import opened Token
  import opened Lease
  import opened Store
  import opened Decimal
  import opened Client
  import opened TokenRoundTrip

  // ---- The watermark ----

  /** The highest clock reading the store remembers. */
  function Watermark(store: Plain): Option<I64> {
    if LAST_SEEN_KEY in store then Parse(store[LAST_SEEN_KEY]) else None
  }

  /** The watermark is absent or at least `low`. */
  predicate SeenAtLeast(store: Plain, low: int) {
    Watermark(store).Some? && Watermark(store).value >= low
  }

  /** One comparison with the clock: what it writes, and what its success says about the old watermark. */
  lemma CheckedNowMeaning(id: Identity, env: Env, store: Plain, clock: Result<I64, LicenseError>, faults: Faults)
    requires 0 <= id.tolerance
    ensures
      var (ws, now) := CheckedNow(id, env, store, clock, faults);
      && (ws == [] || (now.Ok? && ws == [Put(LAST_SEEN_KEY, Print(now.value))]))
      && (now.Ok? ==> clock == now)
      && (now.Ok? && Watermark(store).Some? ==> now.value + id.tolerance >= Watermark(store).value)
      && (ws != [] && Watermark(store).Some? ==> now.value > Watermark(store).value)
      && (now.Ok? ==> SeenAtLeast(Replay(store, ws), now.value))
  {
    hide Parse, Print;
    var (ws, now) := CheckedNow(id, env, store, clock, faults);
    if ws != [] {
      ParseUndoesPrint(now.value);
      assert Replay(store, ws) == Replay(Apply(store, ws[0]), []);
    }
  }

  /** Success of the activity check: what it says about lease and clock. */
  lemma EnsureActiveMeaning(p: Process, env: Env, store: Plain, clock: Result<I64, LicenseError>, faults: Faults)
    requires 0 <= p.id.tolerance
    ensures
      var (ws, claims) := EnsureActive(p, env, store, clock, faults);
      && ws == CheckedNow(p.id, env, store, clock, faults).0
      && (claims.Ok? <==>
           && CheckedNow(p.id, env, store, clock, faults).1.Ok?
           && p.lease.Some?
           && p.lease.value.claims.iat <= SaturatingAdd(clock.value, p.id.tolerance)
           && clock.value < p.lease.value.claims.exp)
      && (claims.Ok? ==> p.lease.Some? && claims.value == p.lease.value.claims)
  {}

  // ---- The shape of a call ----

  /** The lease write of a call, if it completes one. */
  function LeaseWrite(p: Process, env: Env, request: Request, faults: Faults): Option<Write> {
    match request
    case Activate(key, reply) => if Blank(key) then None else TokenWrite(p, env, reply, faults)
    case Refresh(reply) => if p.lease.None? then None else TokenWrite(p, env, reply, faults)
    case Deactivate(ack) => if (p.lease.Some? && ack.Err?) || faults.deleteLease then None else Some(Erase(LEASE_KEY))
    case _ => None
  }

  function TokenWrite(p: Process, env: Env, reply: Result<string, LicenseError>, faults: Faults): Option<Write> {
    if reply.Ok? && VerifyBound(p.id, env, reply.value).Ok? && !faults.setLease then Some(Put(LEASE_KEY, reply.value)) else None
  }

  function NewLease(p: Process, env: Env, w: Option<Write>): Option<VerifiedLease> {
    if w.None? then p.lease
    else if w.value.Erase? then None
    else
      var v := VerifyBound(p.id, env, w.value.value);
      if v.Ok? then Some(v.value) else None
  }

  function AsSeq(w: Option<Write>): seq<Write> { if w.None? then [] else [w.value] }

  /** The store in which the clock check of a call runs. */
  function MiddleStore(p: Process, env: Env, store: Plain, request: Request, faults: Faults): Plain {
    var w := LeaseWrite(p, env, request, faults);
    if w.None? then store else Apply(store, w.value)
  }

  /** A verified lease carries the token it was read from. */
  lemma VerifyBoundKeepsToken(id: Identity, env: Env, token: string)
    ensures VerifyBound(id, env, token).Ok? ==>
              var l := VerifyBound(id, env, token).value;
              && l.token == token && l.claims.productId == id.productId && l.claims.deviceId == id.deviceId
              && VerifyLease(token, id.keys, env.js, env.ed) == Ok(l.claims)
  {}

  /** Every call is one optional write of the lease followed by one optional move of the watermark. */
  lemma ShapeOfACall(p: Process, env: Env, store: Plain, request: Request, clock: Result<I64, LicenseError>, faults: Faults)
    ensures
      var o := Perform(p, env, store, request, clock, faults);
      var w := LeaseWrite(p, env, request, faults);
      var seen := CheckedNow(p.id, env, MiddleStore(p, env, store, request, faults), clock, faults).0;
      && (o.writes == AsSeq(w) || o.writes == AsSeq(w) + seen)
      && o.process.id == p.id
      && o.process.lease == NewLease(p, env, w)
      && o.process.lastError == if o.result.Ok? then None else Some(o.result.error)
  {
    hide VerifyLease, CheckedNow, VerifyBound, SaturatingAdd;
    VerifyBoundTokens(p.id, env);
  }

  lemma VerifyBoundTokens(id: Identity, env: Env)
    ensures forall token {:trigger VerifyBound(id, env, token)} ::
              VerifyBound(id, env, token).Ok? ==> VerifyBound(id, env, token).value.token == token
  {}

  // ---- Memory and store hold the same lease ----

  /** The lease in memory is exactly the lease in the store, verified. */
  predicate MemoryMatchesStore(p: Process, env: Env, store: Plain) {
    match p.lease
    case None => LEASE_KEY !in store
    case Some(l) => LEASE_KEY in store && store[LEASE_KEY] == l.token && VerifyBound(p.id, env, l.token) == Ok(l)
  }

  /** Every call, whatever fails, leaves memory and store with the same lease. */
  lemma CallsKeepMemoryAndStoreEqual(
      p: Process, env: Env, store: Plain, request: Request, clock: Result<I64, LicenseError>, faults: Faults)
    requires 0 <= p.id.tolerance
    requires MemoryMatchesStore(p, env, store)
    ensures
      var o := Perform(p, env, store, request, clock, faults);
      MemoryMatchesStore(o.process, env, Replay(store, o.writes)) && o.process.id == p.id
  {
    hide Perform, VerifyBound, CheckedNow;
    var o := Perform(p, env, store, request, clock, faults);
    ShapeOfACall(p, env, store, request, clock, faults);
    var middle := MiddleStore(p, env, store, request, faults);
    CheckedNowMeaning(p.id, env, middle, clock, faults);
    var w := LeaseWrite(p, env, request, faults);
    var seen := CheckedNow(p.id, env, middle, clock, faults).0;
    VerifyBoundTokens(p.id, env);
    ReplayOne(store, w);
    ReplayAppend(store, AsSeq(w), seen);
    if seen != [] { ReplayOne(middle, Some(seen[0])); assert seen == AsSeq(Some(seen[0])); }
  }

  lemma ReplayOne(m: Plain, w: Option<Write>)
    ensures Replay(m, AsSeq(w)) == if w.None? then m else Apply(m, w.value)
  {}

  // ---- Recovery from a crash ----

  lemma AlphabetIsAscii(s: string)
    requires InAlphabet(s)
    ensures Ascii(s)
  {}

  /** A token that verified is plain text, so the cached copy of it loads again. */
  lemma VerifiedTokenIsAscii(token: string, keys: map<string, Bytes>, js: RustJson, ed: Scheme)
    requires VerifyLease(token, keys, js, ed).Ok?
    ensures Ascii(token)
  {
    AcceptedParts(token, keys, js, ed);
    var i := FirstDot(token).value;
    var a, b := Encode(RustDecode(token[..i]).value), Encode(RustDecode(token[i + 1..]).value);
    AlphabetIsAscii(a);
    AlphabetIsAscii(b);
    assert token == a + "." + b;
  }

  /** A cached lease loads again as the lease that memory held. */
  lemma LoadFindsTheLease(p: Process, env: Env, store: Plain)
    requires LawfulEnv(env) && MemoryMatchesStore(p, env, store)
    ensures LoadLease(p.id, env, store, false) == Ok(Process(p.id, p.lease, None))
  {
    if p.lease.Some? {
      VerifyBoundKeepsToken(p.id, env, p.lease.value.token);
      VerifiedTokenIsAscii(p.lease.value.token, p.id.keys, env.js, env.ed);
    }
  }

  /** After any number of the writes of a call, the store holds the lease from before the call or the one from after it. */
  lemma PrefixOfACall(
      p: Process, env: Env, store: Plain, request: Request, clock: Result<I64, LicenseError>, faults: Faults, k: nat)
    requires 0 <= p.id.tolerance && MemoryMatchesStore(p, env, store)
    requires k <= |Perform(p, env, store, request, clock, faults).writes|
    ensures
      var o := Perform(p, env, store, request, clock, faults);
      var found := Replay(store, o.writes[..k]);
      && (MemoryMatchesStore(p, env, found) || MemoryMatchesStore(o.process, env, found))
      && (DEVICE_SEED_KEY in store ==> DEVICE_SEED_KEY in found && found[DEVICE_SEED_KEY] == store[DEVICE_SEED_KEY])
      && (Watermark(store).Some? ==> SeenAtLeast(found, Watermark(store).value))
  {
    hide Perform, VerifyBound, CheckedNow, Parse;
    var o := Perform(p, env, store, request, clock, faults);
    ShapeOfACall(p, env, store, request, clock, faults);
    CallsKeepMemoryAndStoreEqual(p, env, store, request, clock, faults);
    var middle := MiddleStore(p, env, store, request, faults);
    CheckedNowMeaning(p.id, env, middle, clock, faults);
    var w := LeaseWrite(p, env, request, faults);
    var seen := CheckedNow(p.id, env, middle, clock, faults).0;
    VerifyBoundTokens(p.id, env);
    ReplayOne(store, w);
    if k == 0 {
      assert o.writes[..0] == [];
    } else if k <= |AsSeq(w)| {
      assert o.writes[..k] == AsSeq(w);
    } else {
      assert o.writes[..k] == AsSeq(w) + seen;
      ReplayAppend(store, AsSeq(w), seen);
      ReplayOne(middle, Some(seen[0]));
      assert seen == AsSeq(Some(seen[0]));
    }
  }

  /**
   From whatever a crash leaves on disk during any call, initialisation with the same
   configuration succeeds, with the same device and with the lease from before or after the call.
   */
  lemma CrashRecovery(
      cfg: ClientConfig, env: Env, disk: Protector, dir: Dir, seed: string, p: Process,
      request: Request, clock: Result<I64, LicenseError>, faults: Faults, found: Dir, newSeed: string)
    requires LawfulEnv(env) && LawfulProtector(disk) && Readable(dir, disk)
    requires DecodeKeys(cfg, env).Ok? && p.id == IdentityOf(cfg, env, DecodeKeys(cfg, env).value, seed)
    requires DEVICE_SEED_KEY in View(dir, disk) && View(dir, disk)[DEVICE_SEED_KEY] == seed && |seed| == SEED_SIZE
    requires MemoryMatchesStore(p, env, View(dir, disk))
    requires ExposedRun(dir, Perform(p, env, View(dir, disk), request, clock, faults).writes, disk, found)
    ensures
      var o := Perform(p, env, View(dir, disk), request, clock, faults);
      var again := Initialize(cfg, env, View(found, disk), newSeed, StartFaults(false, false, false));
      && Readable(found, disk) && again.writes == [] && again.process.Ok?
      && again.process.value.id == p.id
      && again.process.value.lease in {p.lease, o.process.lease}
      && MemoryMatchesStore(again.process.value, env, View(found, disk))
  {
    hide Perform, VerifyBound, CheckedNow, View, LoadLease;
    var store := View(dir, disk);
    var o := Perform(p, env, store, request, clock, faults);
    WriteKeysAreValid(p, env, store, request, clock, faults);
    var k := CrashShowsAPrefix(dir, o.writes, disk, found);
    PrefixOfACall(p, env, store, request, clock, faults, k);
    ShapeOfACall(p, env, store, request, clock, faults);
    if MemoryMatchesStore(p, env, View(found, disk)) {
      LoadFindsTheLease(p, env, View(found, disk));
    } else {
      LoadFindsTheLease(o.process, env, View(found, disk));
    }
  }

  /** The client stores under valid keys only. */
  lemma WriteKeysAreValid(p: Process, env: Env, store: Plain, request: Request, clock: Result<I64, LicenseError>, faults: Faults)
    requires 0 <= p.id.tolerance
    ensures forall i :: 0 <= i < |Perform(p, env, store, request, clock, faults).writes| ==>
              ValidKey(Key(Perform(p, env, store, request, clock, faults).writes[i]))
  {
    hide Perform, VerifyBound, CheckedNow;
    ShapeOfACall(p, env, store, request, clock, faults);
    CheckedNowMeaning(p.id, env, MiddleStore(p, env, store, request, faults), clock, faults);
    assert ValidKey(LEASE_KEY) && ValidKey(LAST_SEEN_KEY);
  }

  // ---- Whole lives of a device ----

  /** A device: its store, and the process while one runs. */
  datatype Device = Device(store: Plain, process: Option<Process>)

  /** A call that returns, a crash after some of the writes of a call, or a start of the process. */
  datatype Event =
    | Call(request: Request, clock: Result<I64, LicenseError>, faults: Faults)
    | Crash(request: Request, clock: Result<I64, LicenseError>, faults: Faults, completed: nat)
    | Restart(newSeed: string, startFaults: StartFaults)

  function Performed(env: Env, d: Device, e: Event): Outcome
    requires d.process.Some? && !e.Restart?
  {
    Perform(d.process.value, env, d.store, e.request, e.clock, e.faults)
  }

  function Step(cfg: ClientConfig, env: Env, d: Device, e: Event): Device {
    match e
    case Restart(newSeed, faults) =>
      var s := Initialize(cfg, env, d.store, newSeed, faults);
      Device(Replay(d.store, s.writes), if s.process.Ok? then Some(s.process.value) else None)
    case Call(_, _, _) =>
      if d.process.None? then d
      else Device(Replay(d.store, Performed(env, d, e).writes), Some(Performed(env, d, e).process))
    case Crash(_, _, _, completed) =>
      if d.process.None? then d
      else
        var ws := Performed(env, d, e).writes;
        Device(Replay(d.store, if completed < |ws| then ws[..completed] else ws), None)
  }

  function Run(cfg: ClientConfig, env: Env, d: Device, events: seq<Event>): Device
    decreases |events|
  {
    if |events| == 0 then d else Run(cfg, env, Step(cfg, env, d, events[0]), events[1..])
  }

  /** The lease under which an event reports Active or grants an entitlement. */
  function Grant(env: Env, d: Device, e: Event): Option<LeaseClaims> {
    if !e.Call? || d.process.None? then None
    else
      var o := Performed(env, d, e);
      if o.process.lease.None? then None
      else if (o.result.Ok? && o.result.value.Report? && o.result.value.status.state.IsActive?)
           || (o.result.Ok? && e.request.RequireEntitlement?) then Some(o.process.lease.value.claims)
      else None
  }

  /** What holds of a device at every moment of its life. */
  predicate DeviceOk(cfg: ClientConfig, env: Env, d: Device) {
    d.process.Some? ==>
      && 0 <= cfg.tolerance && d.process.value.id.tolerance == cfg.tolerance
      && MemoryMatchesStore(d.process.value, env, d.store)
  }

  /** A grant follows a successful comparison of lease and watermark with the clock. */
  lemma GrantMeaning(cfg: ClientConfig, env: Env, d: Device, e: Event)
    requires DeviceOk(cfg, env, d) && Grant(env, d, e).Some?
    ensures
      var claims := Grant(env, d, e).value;
      && e.clock.Ok?
      && claims.iat <= e.clock.value + cfg.tolerance
      && e.clock.value < claims.exp
      && (Watermark(d.store).Some? ==> e.clock.value + cfg.tolerance >= Watermark(d.store).value)
  {
    hide VerifyBound, CheckedNow, Parse, Print, VerifyLease;
    var p := d.process.value;
    var o := Performed(env, d, e);
    var middle := MiddleStore(p, env, d.store, e.request, e.faults);
    ShapeOfACall(p, env, d.store, e.request, e.clock, e.faults);
    VerifyBoundTokens(p.id, env);
    CheckedNowMeaning(p.id, env, middle, e.clock, e.faults);
    EnsureActiveMeaning(p.(lease := o.process.lease), env, middle, e.clock, e.faults);
    assert Watermark(middle) == Watermark(d.store);
    StatusMeaning(p.(lease := o.process.lease), env, middle, e.clock, e.faults);
  }

  /** The status is Active exactly when the activity check succeeds. */
  lemma StatusMeaning(p: Process, env: Env, store: Plain, clock: Result<I64, LicenseError>, faults: Faults)
    ensures
      var (ws, answer) := StatusInner(p, env, store, clock, faults);
      && (answer.Ok? ==> answer.value.Report?)
      && (answer.Ok? && answer.value.status.state.IsActive? <==> p.lease.Some? && EnsureActive(p, env, store, clock, faults).1.Ok?)
  {}

  /** Starting the process keeps the watermark and finds the lease of the store. */
  lemma RestartKeeps(cfg: ClientConfig, env: Env, store: Plain, newSeed: string, faults: StartFaults)
    ensures
      var s := Initialize(cfg, env, store, newSeed, faults);
      var after := Replay(store, s.writes);
      && Watermark(after) == Watermark(store)
      && (s.process.Ok? ==>
            0 <= cfg.tolerance && s.process.value.id.tolerance == cfg.tolerance && MemoryMatchesStore(s.process.value, env, after))
  {
    hide VerifyBound, Parse;
    var s := Initialize(cfg, env, store, newSeed, faults);
    if s.writes != [] {
      ReplayOne(store, Some(s.writes[0]));
      assert s.writes == AsSeq(Some(s.writes[0]));
      assert LAST_SEEN_KEY != DEVICE_SEED_KEY;
    }
    if s.process.Ok? { VerifyBoundTokens(s.process.value.id, env); }
  }

  /** Every event keeps memory and store equal and never lowers the watermark. */
  lemma StepKeeps(cfg: ClientConfig, env: Env, d: Device, e: Event)
    requires DeviceOk(cfg, env, d)
    ensures DeviceOk(cfg, env, Step(cfg, env, d, e))
    ensures Watermark(d.store).Some? ==> SeenAtLeast(Step(cfg, env, d, e).store, Watermark(d.store).value)
  {
    hide VerifyBound, Parse, Perform, Initialize;
    if e.Restart? {
      RestartKeeps(cfg, env, d.store, e.newSeed, e.startFaults);
    } else if d.process.Some? {
      var p, ws := d.process.value, Performed(env, d, e).writes;
      assert ws[..|ws|] == ws;
      var k := if e.Crash? && e.completed < |ws| then e.completed else |ws|;
      PrefixOfACall(p, env, d.store, e.request, e.clock, e.faults, k);
      CallsKeepMemoryAndStoreEqual(p, env, d.store, e.request, e.clock, e.faults);
    }
  }

  /** Over any life of the device the watermark never falls. */
  lemma {:induction false} WatermarkNeverFalls(cfg: ClientConfig, env: Env, d: Device, events: seq<Event>)
    requires DeviceOk(cfg, env, d)
    ensures DeviceOk(cfg, env, Run(cfg, env, d, events))
    ensures Watermark(d.store).Some? ==> SeenAtLeast(Run(cfg, env, d, events).store, Watermark(d.store).value)
    decreases |events|
  {
    hide Step;
    if |events| > 0 {
      StepKeeps(cfg, env, d, events[0]);
      WatermarkNeverFalls(cfg, env, Step(cfg, env, d, events[0]), events[1..]);
    }
  }

  /**
   Once the watermark has reached the expiry of a lease plus the tolerance, no later event
   grants anything under that lease: not after restarts, crashes, deactivation, another
   installation of the same token, or any reading of the clock.
   */
  lemma ExpiredStaysExpired(cfg: ClientConfig, env: Env, d: Device, events: seq<Event>, last: Event, claims: LeaseClaims)
    requires DeviceOk(cfg, env, d)
    requires SeenAtLeast(d.store, claims.exp + cfg.tolerance)
    ensures Grant(env, Run(cfg, env, d, events), last) != Some(claims)
  {
    hide Step, Grant;
    WatermarkNeverFalls(cfg, env, d, events);
    var d' := Run(cfg, env, d, events);
    if Grant(env, d', last) == Some(claims) {
      GrantMeaning(cfg, env, d', last);
    }
  }
}
