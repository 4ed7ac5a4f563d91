/** Exactly what the client answers: to the clock, to each call, and at its start. */
module ClientAnswers {
  import opened Wrappers
  import opened Token
  import opened Lease
  import opened Store
  import opened Decimal
  import opened Client
  import opened ClientSafety

  // ---- The clock ----

  /** The stored watermark, if there is one, is a number. */
  predicate SeenIsReadable(env: Env, store: Plain) {
    LAST_SEEN_KEY in store ==> env.utf8(store[LAST_SEEN_KEY]) && Parse(store[LAST_SEEN_KEY]).Some?
  }

  /** The clock is further behind the watermark than the tolerance. */
  predicate TooFarBack(id: Identity, store: Plain, now: int) {
    Watermark(store).Some? && now + id.tolerance < Watermark(store).value
  }

  predicate IsNews(store: Plain, now: int) { Watermark(store).Some? ==> now > Watermark(store).value }

  /** Clock and watermark can both be read. */
  predicate ClockReads(env: Env, store: Plain, clock: Result<I64, LicenseError>, faults: Faults) {
    clock.Ok? && !faults.getSeen && SeenIsReadable(env, store)
  }

  /** The clock is within the tolerance of the watermark, and what is new is stored. */
  predicate ClockPasses(id: Identity, env: Env, store: Plain, clock: Result<I64, LicenseError>, faults: Faults) {
    && ClockReads(env, store, clock, faults)
    && !TooFarBack(id, store, clock.value)
    && (IsNews(store, clock.value) ==> !faults.setSeen)
  }

  /**
   The check passes exactly when the clock reads at least the watermark less the tolerance; it
   answers a rollback exactly when it reads less, and writes exactly when it reads more than the watermark.
   */
  lemma ClockCheckExactly(id: Identity, env: Env, store: Plain, clock: Result<I64, LicenseError>, faults: Faults)
    requires 0 <= id.tolerance
    ensures
      var (ws, r) := CheckedNow(id, env, store, clock, faults);
      && (r.Ok? <==> ClockPasses(id, env, store, clock, faults))
      && (r.Ok? ==> r == clock)
      && (r.Err? && r.error.ClockRollback? && clock.Ok? <==>
            ClockReads(env, store, clock, faults) && TooFarBack(id, store, clock.value))
      && (ClockReads(env, store, clock, faults) && TooFarBack(id, store, clock.value) ==>
            r == Err(ClockRollback(clock.value, Watermark(store).value)))
      && (clock.Err? ==> r == clock)
      && (r.Err? && clock.Ok? && !r.error.ClockRollback? ==> r.error == Storage)
      && ws == if ClockPasses(id, env, store, clock, faults) && IsNews(store, clock.value)
               then [Put(LAST_SEEN_KEY, Print(clock.value))] else []
  {
    hide Parse, Print;
  }

  // ---- Status ----

  predicate Reports(r: Result<Answer, LicenseError>, state: LicenseState) {
    r.Ok? && r.value.Report? && r.value.status.state == state
  }

  /** The lease is not from further in the future than the tolerance. */
  predicate IssuedByNow(c: LeaseClaims, id: Identity, now: int) { c.iat <= now + id.tolerance && c.iat <= 0x7fff_ffff_ffff_ffff }

  /** Lease, clock and watermark allow it. */
  predicate Allowed(p: Process, env: Env, store: Plain, clock: Result<I64, LicenseError>, faults: Faults) {
    && p.lease.Some? && ClockPasses(p.id, env, store, clock, faults)
    && IssuedByNow(p.lease.value.claims, p.id, clock.value) && clock.value < p.lease.value.claims.exp
  }

  /** The activity check, error by error. */
  lemma ActiveExactly(p: Process, env: Env, store: Plain, clock: Result<I64, LicenseError>, faults: Faults)
    requires 0 <= p.id.tolerance
    ensures
      var r := EnsureActive(p, env, store, clock, faults).1;
      && (r.Ok? <==> Allowed(p, env, store, clock, faults))
      && (r.Ok? ==> r.value == p.lease.value.claims)
      && (!ClockPasses(p.id, env, store, clock, faults) ==> r.Err? && Err(r.error) == CheckedNow(p.id, env, store, clock, faults).1)
      && (ClockPasses(p.id, env, store, clock, faults) ==>
            && (p.lease.None? <==> r == Err(NotActivated))
            && (p.lease.Some? && !IssuedByNow(p.lease.value.claims, p.id, clock.value) <==> r == Err(InvalidLease))
            && (r.Err? && r.error.Expired? <==>
                  p.lease.Some? && IssuedByNow(p.lease.value.claims, p.id, clock.value) && clock.value >= p.lease.value.claims.exp))
  {
    hide CheckedNow, ClockReads, TooFarBack, IsNews;
    ClockCheckExactly(p.id, env, store, clock, faults);
    if EnsureActive(p, env, store, clock, faults).1.Ok? || Allowed(p, env, store, clock, faults) {
      assert CheckedNow(p.id, env, store, clock, faults).1 == clock && clock.Ok?;
    }
  }

  /**
   With a lease the status is Active exactly when lease, clock and watermark allow it, Expired
   exactly when all but the expiry do, and RolledBack exactly when the clock is too far behind the
   watermark; anything else is an error. What is reported is what the lease says.
   */
  lemma StatusExactly(p: Process, env: Env, store: Plain, clock: Result<I64, LicenseError>, faults: Faults)
    requires 0 <= p.id.tolerance && p.lease.Some?
    ensures
      var r := Perform(p, env, store, Status, clock, faults).result;
      var c := p.lease.value.claims;
      && (Reports(r, IsActive) <==> Allowed(p, env, store, clock, faults))
      && (clock.Ok? ==> (Reports(r, IsExpired) <==>
            ClockPasses(p.id, env, store, clock, faults) && IssuedByNow(c, p.id, clock.value) && clock.value >= c.exp))
      && (clock.Ok? ==> (Reports(r, IsRolledBack) <==> ClockReads(env, store, clock, faults) && TooFarBack(p.id, store, clock.value)))
      && !Reports(r, IsNotActivated)
      && (clock.Ok? ==> (r == Err(InvalidLease) <==> ClockPasses(p.id, env, store, clock, faults) && !IssuedByNow(c, p.id, clock.value)))
      && (r.Ok? ==> r == Ok(Report(LicenseStatus(
            r.value.status.state, p.id.productId, p.id.deviceId, Some(c.licenseId), c.entitlements, Some(c.iat), Some(c.exp)))))
  {
    hide CheckedNow, EnsureActive, ClockPasses, ClockReads, IssuedByNow, TooFarBack;
    ActiveExactly(p, env, store, clock, faults);
    ClockCheckExactly(p.id, env, store, clock, faults);
  }

  /** Without a lease the client reports so, and neither reads the clock nor writes. */
  lemma NotActivatedExactly(p: Process, env: Env, store: Plain, clock: Result<I64, LicenseError>, faults: Faults)
    ensures
      var o := Perform(p, env, store, Status, clock, faults);
      && (Reports(o.result, IsNotActivated) <==> p.lease.None?)
      && (p.lease.None? ==> o.writes == [] && o.result == Ok(Report(
            LicenseStatus(IsNotActivated, p.id.productId, p.id.deviceId, None, {}, None, None))))
  {
    hide CheckedNow;
  }

  // ---- Entitlements ----

  /** An entitlement is granted exactly if it has a name, lease, clock and watermark allow it, and the lease names it. */
  lemma RequireExactly(p: Process, env: Env, store: Plain, name: string, clock: Result<I64, LicenseError>, faults: Faults)
    requires 0 <= p.id.tolerance
    ensures
      var r := Perform(p, env, store, RequireEntitlement(name), clock, faults).result;
      && (r.Ok? <==> !Blank(name) && Allowed(p, env, store, clock, faults) && name in p.lease.value.claims.entitlements)
      && (r.Ok? ==> r.value == Done)
      && (Blank(name) ==> r == Err(InvalidArgument))
      && (!Blank(name) && Allowed(p, env, store, clock, faults) && name !in p.lease.value.claims.entitlements ==>
            r == Err(EntitlementMissing(name)))
      && (!Blank(name) && ClockPasses(p.id, env, store, clock, faults) && p.lease.None? ==> r == Err(NotActivated))
  {
    hide CheckedNow, Blank, EnsureActive, ClockPasses, IssuedByNow;
    ActiveExactly(p, env, store, clock, faults);
  }

  // ---- Installing and removing a lease ----

  /** The token verifies under the pinned keys and is for this product and device. */
  predicate IsForUs(id: Identity, env: Env, token: string, c: LeaseClaims) {
    VerifyLease(token, id.keys, env.js, env.ed) == Ok(c) && c.productId == id.productId && c.deviceId == id.deviceId
  }

  /** The call reaches the server and gets a token that can be stored. */
  predicate TakesToken(p: Process, env: Env, request: Request, faults: Faults, token: string, c: LeaseClaims) {
    && (request.Activate? || request.Refresh?) && request.reply == Ok(token)
    && (request.Activate? ==> !Blank(request.licenseKey)) && (request.Refresh? ==> p.lease.Some?)
    && IsForUs(p.id, env, token, c) && !faults.setLease
  }

  /** A token is taken if it verifies, is for this product and device, and can be stored; the answer is then the status under it. */
  lemma TokenIsTaken(
      p: Process, env: Env, store: Plain, request: Request, clock: Result<I64, LicenseError>, faults: Faults, token: string, c: LeaseClaims)
    requires TakesToken(p, env, request, faults, token, c)
    ensures
      var o := Perform(p, env, store, request, clock, faults);
      var next := p.(lease := Some(VerifiedLease(token, c)));
      var status := Perform(next, env, store[LEASE_KEY := token], Status, clock, faults);
      && o.process.lease == next.lease
      && o.result == status.result && o.writes == [Put(LEASE_KEY, token)] + status.writes
  {
    hide VerifyLease, CheckedNow, Blank;
  }

  /** What is wrong with a reply, the first thing first; with nothing wrong it is the store that fails. */
  function WhyNot(id: Identity, env: Env, reply: Result<string, LicenseError>): LicenseError {
    match reply
    case Err(e) => e
    case Ok(token) =>
      match VerifyLease(token, id.keys, env.js, env.ed)
      case Err(e) => e
      case Ok(c) =>
        if c.productId != id.productId then ProductMismatch(id.productId, c.productId)
        else if c.deviceId != id.deviceId then DeviceMismatch else Storage
  }

  /** Any other activation or refresh is an error and changes neither the lease nor the store. */
  lemma OtherTokensAreNot(
      p: Process, env: Env, store: Plain, request: Request, clock: Result<I64, LicenseError>, faults: Faults)
    requires request.Activate? || request.Refresh?
    requires forall token, c :: !TakesToken(p, env, request, faults, token, c)
    ensures
      var o := Perform(p, env, store, request, clock, faults);
      && o.result.Err? && o.process.lease == p.lease && o.writes == []
      && (request.Activate? && Blank(request.licenseKey) ==> o.result.error == InvalidArgument)
      && (request.Refresh? && p.lease.None? ==> o.result.error == NotActivated)
      && ((request.Activate? ==> !Blank(request.licenseKey)) && (request.Refresh? ==> p.lease.Some?) ==>
            o.result.error == WhyNot(p.id, env, request.reply))
  {
    hide VerifyLease, CheckedNow, Blank;
    if request.reply.Ok? && VerifyLease(request.reply.value, p.id.keys, env.js, env.ed).Ok? {
      var c := VerifyLease(request.reply.value, p.id.keys, env.js, env.ed).value;
      assert !TakesToken(p, env, request, faults, request.reply.value, c);
    }
  }

  /** The lease goes exactly if there is none or the server has acknowledged, and the store deletes; otherwise all stays. */
  lemma DeactivateExactly(
      p: Process, env: Env, store: Plain, acknowledged: Result<(), LicenseError>, clock: Result<I64, LicenseError>, faults: Faults)
    ensures
      var o := Perform(p, env, store, Deactivate(acknowledged), clock, faults);
      && (o.result == Ok(Done) <==> (p.lease.Some? ==> acknowledged.Ok?) && !faults.deleteLease)
      && (o.result.Ok? ==> o.process.lease == None && Replay(store, o.writes) == store - {LEASE_KEY})
      && (o.result.Err? ==> o.process.lease == p.lease && o.writes == [])
  {
    ReplayOne(store, Some(Erase(LEASE_KEY)));
  }

  // ---- The start ----

  predicate ConfigIsUsable(cfg: ClientConfig, env: Env) {
    && (exists i :: 0 <= i < |cfg.productId| && cfg.productId[i] !in {' ', '\t', '\n', '\r', 11 as char, 12 as char})
    && cfg.publicKeys != map[] && 0 <= cfg.tolerance <= 3600
    && forall kid :: kid in cfg.publicKeys ==>
         && ValidKeyId(kid) && env.decodeKey(cfg.publicKeys[kid]).Some? && |env.decodeKey(cfg.publicKeys[kid]).value| == 32
  }

  /** The seed that a start works with, and whether it has to be made. */
  predicate SeedIsReady(store: Plain, newSeed: string, faults: StartFaults, seed: string) {
    && !faults.getSeed
    && (if DEVICE_SEED_KEY in store then seed == store[DEVICE_SEED_KEY] && |seed| == 32 else seed == newSeed && !faults.setSeed)
  }

  /**
   A client starts exactly if its configuration is usable, the device seed is there or can be
   stored, and the cached lease, if there is one, is text that verifies and is for this product
   and device. It is then the device of that seed, with that lease.
   */
  lemma StartsExactly(cfg: ClientConfig, env: Env, store: Plain, newSeed: string, faults: StartFaults, seed: string)
    requires SeedIsReady(store, newSeed, faults, seed)
    ensures
      var start := Initialize(cfg, env, store, newSeed, faults);
      var cached := if LEASE_KEY in store then Some(store[LEASE_KEY]) else None;
      && (start.process.Ok? <==>
            && ConfigIsUsable(cfg, env) && !faults.getLease
            && (cached.Some? ==> env.utf8(cached.value) && exists c :: IsForUs(IdentityFor(cfg, env, seed), env, cached.value, c)))
      && (start.process.Ok? ==>
            && start.process.value.id == IdentityFor(cfg, env, seed) && start.process.value.lastError == None
            && (start.process.value.lease.None? <==> cached.None?)
            && (cached.Some? ==>
                  start.process.value.lease.value.token == cached.value
                  && IsForUs(IdentityFor(cfg, env, seed), env, cached.value, start.process.value.lease.value.claims)))
      && start.writes == if ConfigIsUsable(cfg, env) && DEVICE_SEED_KEY !in store then [Put(DEVICE_SEED_KEY, seed)] else []
  {
    hide VerifyLease, ValidKeyId;
    ConfigExactly(cfg, env);
    var id := IdentityFor(cfg, env, seed);
    if LEASE_KEY in store && VerifyLease(store[LEASE_KEY], id.keys, env.js, env.ed).Ok? {
      assert IsForUs(id, env, store[LEASE_KEY], VerifyLease(store[LEASE_KEY], id.keys, env.js, env.ed).value)
        <==> VerifyBound(id, env, store[LEASE_KEY]).Ok?;
    }
  }

  function IdentityFor(cfg: ClientConfig, env: Env, seed: string): Identity {
    Identity(cfg.productId, cfg.tolerance,
             map kid | kid in cfg.publicKeys && env.decodeKey(cfg.publicKeys[kid]).Some? :: env.decodeKey(cfg.publicKeys[kid]).value,
             env.deviceId(cfg.productId, seed))
  }

  lemma ConfigExactly(cfg: ClientConfig, env: Env)
    ensures DecodeKeys(cfg, env).Ok? <==> ConfigIsUsable(cfg, env)
    ensures ConfigIsUsable(cfg, env) ==> DecodeKeys(cfg, env).value == IdentityFor(cfg, env, "").keys
  {
    hide ValidKeyId;
  }

  /** A start whose seed is missing and cannot be stored, unreadable or of another length is refused and writes nothing. */
  lemma SeedRefused(cfg: ClientConfig, env: Env, store: Plain, newSeed: string, faults: StartFaults)
    requires forall seed :: !SeedIsReady(store, newSeed, faults, seed)
    ensures Initialize(cfg, env, store, newSeed, faults).process.Err? && Initialize(cfg, env, store, newSeed, faults).writes == []
  {
    assert !SeedIsReady(store, newSeed, faults, newSeed);
    if DEVICE_SEED_KEY in store { assert !SeedIsReady(store, newSeed, faults, store[DEVICE_SEED_KEY]); }
  }
}
