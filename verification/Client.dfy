/**
 The licence client: identity, cached lease, persisted clock watermark. The functions
 state what one call does to store and memory for every reply of the network, reading of
 the clock and failure of the store; the class does it step by step.
 */
module Client {
  import opened Wrappers
  import opened Token
  import opened Lease
  import opened Store
  import opened Decimal

  const DEVICE_SEED_KEY := "device_seed"
  const LEASE_KEY := "lease"
  const LAST_SEEN_KEY := "last_seen"
  const SEED_SIZE := 32

  datatype ClientConfig = ClientConfig(productId: string, publicKeys: map<string, string>, tolerance: I64)

  /** What the client calls but does not define: JSON, Ed25519, key decoding, the hash of its identity, UTF-8. */
  datatype Env = Env(
    js: RustJson, ed: Scheme, decodeKey: string -> Option<Bytes>,
    deviceId: (string, string) -> string, utf8: string -> bool)

  predicate Ascii(s: string) { forall i :: 0 <= i < |s| ==> s[i] < 128 as char }

  ghost predicate LawfulEnv(env: Env) {
    forall s :: Ascii(s) ==> env.utf8(s)
  }

  /** The part of a client that never changes after initialisation. */
  datatype Identity = Identity(productId: string, tolerance: I64, keys: map<string, Bytes>, deviceId: string)

  /** The part of a client that lives in memory only. */
  datatype Process = Process(id: Identity, lease: Option<VerifiedLease>, lastError: Option<LicenseError>)

  datatype LicenseState = IsActive | IsExpired | IsNotActivated | IsRolledBack

  datatype LicenseStatus = LicenseStatus(
    state: LicenseState, productId: string, deviceId: string, licenseId: Option<string>,
    entitlements: set<string>, issuedAt: Option<int>, expiresAt: Option<int>)

  datatype Answer = Report(status: LicenseStatus) | Done

  datatype Request =
    | Activate(licenseKey: string, reply: Result<string, LicenseError>)
    | Refresh(reply: Result<string, LicenseError>)
    | Deactivate(acknowledged: Result<(), LicenseError>)
    | Status
    | RequireEntitlement(entitlement: string)

  /** Which operations of the store fail during a call. */
  datatype Faults = Faults(getSeen: bool, setSeen: bool, setLease: bool, deleteLease: bool)

  /** What a call does: the writes it completes in order, the memory it leaves, the answer it gives. */
  datatype Outcome = Outcome(writes: seq<Write>, process: Process, result: Result<Answer, LicenseError>)

  predicate Blank(s: string) {
    forall i :: 0 <= i < |s| ==> s[i] in {' ', '\t', '\n', '\r', 11 as char, 12 as char}
  }

  // ---- Initialisation ----

  predicate KeyUsable(cfg: ClientConfig, env: Env, kid: string)
    requires kid in cfg.publicKeys
  {
    ValidKeyId(kid) && env.decodeKey(cfg.publicKeys[kid]).Some? && |env.decodeKey(cfg.publicKeys[kid]).value| == PUBLIC_KEY_SIZE
  }

  function DecodeKeys(cfg: ClientConfig, env: Env): Result<map<string, Bytes>, LicenseError> {
    if Blank(cfg.productId) || |cfg.publicKeys| == 0 || !(0 <= cfg.tolerance <= 3600) then Err(Configuration)
    else if exists kid :: kid in cfg.publicKeys && !KeyUsable(cfg, env, kid) then Err(Configuration)
    else Ok(map kid | kid in cfg.publicKeys :: env.decodeKey(cfg.publicKeys[kid]).value)
  }

  function VerifyBound(id: Identity, env: Env, token: string): Result<VerifiedLease, LicenseError> {
    var claims := VerifyLease(token, id.keys, env.js, env.ed);
    if claims.Err? then Err(claims.error)
    else if claims.value.productId != id.productId then Err(ProductMismatch(id.productId, claims.value.productId))
    else if claims.value.deviceId != id.deviceId then Err(DeviceMismatch)
    else Ok(VerifiedLease(token, claims.value))
  }

  datatype StartFaults = StartFaults(getSeed: bool, setSeed: bool, getLease: bool)

  datatype Start = Start(writes: seq<Write>, process: Result<Process, LicenseError>)

  /** The cached lease is verified again, but not against the clock. */
  function LoadLease(id: Identity, env: Env, store: Plain, getFails: bool): Result<Process, LicenseError> {
    var cached := Lookup(store, LEASE_KEY, getFails);
    if cached.Err? then Err(cached.error)
    else if cached.value.None? then Ok(Process(id, None, None))
    else if !env.utf8(cached.value.value) then Err(Storage)
    else
      var lease := VerifyBound(id, env, cached.value.value);
      if lease.Err? then Err(lease.error) else Ok(Process(id, Some(lease.value), None))
  }

  function IdentityOf(cfg: ClientConfig, env: Env, keys: map<string, Bytes>, seed: string): Identity {
    Identity(cfg.productId, cfg.tolerance, keys, env.deviceId(cfg.productId, seed))
  }

  /** `newSeed` is the seed that the random source would give. */
  function Initialize(cfg: ClientConfig, env: Env, store: Plain, newSeed: string, faults: StartFaults): Start {
    var keys := DecodeKeys(cfg, env);
    if keys.Err? then Start([], Err(keys.error))
    else
      var seed := Lookup(store, DEVICE_SEED_KEY, faults.getSeed);
      if seed.Err? then Start([], Err(seed.error))
      else if seed.value.Some? then
        if |seed.value.value| != SEED_SIZE then Start([], Err(Storage))
        else Start([], LoadLease(IdentityOf(cfg, env, keys.value, seed.value.value), env, store, faults.getLease))
      else if faults.setSeed then Start([], Err(Storage))
      else
        var w := Put(DEVICE_SEED_KEY, newSeed);
        Start([w], LoadLease(IdentityOf(cfg, env, keys.value, newSeed), env, Apply(store, w), faults.getLease))
  }

  // ---- Calls ----

  function ReadSeen(env: Env, text: Option<string>): Result<Option<I64>, LicenseError> {
    if text.None? then Ok(None)
    else if !env.utf8(text.value) || Parse(text.value).None? then Err(Storage)
    else Ok(Parse(text.value))
  }

  /** Compares the clock with the watermark and moves the watermark up. */
  function CheckedNow(id: Identity, env: Env, store: Plain, clock: Result<I64, LicenseError>, faults: Faults)
    : (seq<Write>, Result<I64, LicenseError>)
  {
    if clock.Err? then ([], Err(clock.error))
    else
      var now := clock.value;
      var text := Lookup(store, LAST_SEEN_KEY, faults.getSeen);
      if text.Err? then ([], Err(text.error))
      else
        var seen := ReadSeen(env, text.value);
        if seen.Err? then ([], Err(seen.error))
        else if seen.value.Some? && SaturatingAdd(now, id.tolerance) < seen.value.value then
          ([], Err(ClockRollback(now, seen.value.value)))
        else if seen.value.Some? && now <= seen.value.value then ([], Ok(now))
        else if faults.setSeen then ([], Err(Storage))
        else ([Put(LAST_SEEN_KEY, Print(now))], Ok(now))
  }

  function EnsureActive(p: Process, env: Env, store: Plain, clock: Result<I64, LicenseError>, faults: Faults)
    : (seq<Write>, Result<LeaseClaims, LicenseError>)
  {
    var (writes, now) := CheckedNow(p.id, env, store, clock, faults);
    if now.Err? then (writes, Err(now.error))
    else if p.lease.None? then (writes, Err(NotActivated))
    else
      var claims := p.lease.value.claims;
      if claims.iat > SaturatingAdd(now.value, p.id.tolerance) then (writes, Err(InvalidLease))
      else if now.value >= claims.exp then (writes, Err(Expired(claims.exp)))
      else (writes, Ok(claims))
  }

  function Describe(id: Identity, state: LicenseState, claims: Option<LeaseClaims>): LicenseStatus {
    match claims
    case None => LicenseStatus(state, id.productId, id.deviceId, None, {}, None, None)
    case Some(c) => LicenseStatus(state, id.productId, id.deviceId, Some(c.licenseId), c.entitlements, Some(c.iat), Some(c.exp))
  }

  function StatusInner(p: Process, env: Env, store: Plain, clock: Result<I64, LicenseError>, faults: Faults)
    : (seq<Write>, Result<Answer, LicenseError>)
  {
    if p.lease.None? then ([], Ok(Report(Describe(p.id, IsNotActivated, None))))
    else
      var claims := Some(p.lease.value.claims);
      var (writes, active) := EnsureActive(p, env, store, clock, faults);
      match active
      case Ok(_) => (writes, Ok(Report(Describe(p.id, IsActive, claims))))
      case Err(Expired(_)) => (writes, Ok(Report(Describe(p.id, IsExpired, claims))))
      case Err(ClockRollback(_, _)) => (writes, Ok(Report(Describe(p.id, IsRolledBack, claims))))
      case Err(e) => (writes, Err(e))
  }

  /** Success clears the recorded error, failure replaces it. */
  function Recorded(p: Process, writes: seq<Write>, result: Result<Answer, LicenseError>): Outcome {
    Outcome(writes, p.(lastError := if result.Ok? then None else Some(result.error)), result)
  }

  /** A token from the server replaces the cached lease only after it verifies and is stored. */
  function Install(p: Process, env: Env, store: Plain, reply: Result<string, LicenseError>, clock: Result<I64, LicenseError>, faults: Faults): Outcome {
    if reply.Err? then Recorded(p, [], Err(reply.error))
    else
      var lease := VerifyBound(p.id, env, reply.value);
      if lease.Err? then Recorded(p, [], Err(lease.error))
      else if faults.setLease then Recorded(p, [], Err(Storage))
      else
        var w := Put(LEASE_KEY, lease.value.token);
        var p' := p.(lease := Some(lease.value));
        var (writes, result) := StatusInner(p', env, Apply(store, w), clock, faults);
        Recorded(p', [w] + writes, result)
  }

  function Perform(p: Process, env: Env, store: Plain, request: Request, clock: Result<I64, LicenseError>, faults: Faults): Outcome {
    match request
    case Activate(key, reply) =>
      if Blank(key) then Recorded(p, [], Err(InvalidArgument)) else Install(p, env, store, reply, clock, faults)
    case Refresh(reply) =>
      if p.lease.None? then Recorded(p, [], Err(NotActivated)) else Install(p, env, store, reply, clock, faults)
    case Deactivate(acknowledged) =>
      if p.lease.Some? && acknowledged.Err? then Recorded(p, [], Err(acknowledged.error))
      else if faults.deleteLease then Recorded(p, [], Err(Storage))
      else Recorded(p.(lease := None), [Erase(LEASE_KEY)], Ok(Done))
    case Status =>
      var (writes, result) := StatusInner(p, env, store, clock, faults);
      Recorded(p, writes, result)
    case RequireEntitlement(name) =>
      if Blank(name) then Recorded(p, [], Err(InvalidArgument))
      else
        var (writes, claims) := EnsureActive(p, env, store, clock, faults);
        Recorded(p, writes,
          if claims.Err? then Err(claims.error)
          else if name !in claims.value.entitlements then Err(EntitlementMissing(name))
          else Ok(Done))
  }

  // ---- The client object ----

  class LicenseClient {
    const id: Identity
    const env: Env
    const store: MemoryStore
    var lease: Option<VerifiedLease>
    var lastError: Option<LicenseError>

    constructor (id: Identity, env: Env, store: MemoryStore, lease: Option<VerifiedLease>)
      ensures this.id == id && this.env == env && this.store == store && Memory() == Process(id, lease, None)
    {
      this.id, this.env, this.store, this.lease, this.lastError := id, env, store, lease, None;
    }

    function Memory(): Process
      reads this
    {
      Process(id, lease, lastError)
    }

    /** The call did exactly what `o` says, write by write. */
    twostate predicate Did(o: Outcome)
      reads this, store
    {
      Memory() == o.process && store.log == old(store.log) + o.writes && store.entries == Replay(old(store.entries), o.writes)
    }

    method Record(result: Result<Answer, LicenseError>)
      modifies this
      ensures Memory() == Recorded(old(Memory()), [], result).process
    {
      lastError := if result.Ok? then None else Some(result.error);
    }

    method ReadClock(clock: Result<I64, LicenseError>, faults: Faults) returns (r: Result<I64, LicenseError>)
      modifies store
      ensures
        var (writes, now) := CheckedNow(id, env, old(store.entries), clock, faults);
        r == now && store.log == old(store.log) + writes && store.entries == Replay(old(store.entries), writes)
    {
      if clock.Err? { return Err(clock.error); }
      var now := clock.value;
      var text := store.Get(LAST_SEEN_KEY, faults.getSeen);
      if text.Err? { return Err(text.error); }
      var seen := ReadSeen(env, text.value);
      if seen.Err? { return Err(seen.error); }
      if seen.value.Some? && SaturatingAdd(now, id.tolerance) < seen.value.value {
        return Err(ClockRollback(now, seen.value.value));
      }
      if seen.value.None? || now > seen.value.value {
        var written := store.Set(LAST_SEEN_KEY, Print(now), faults.setSeen);
        if written.Err? { return Err(written.error); }
      }
      r := Ok(now);
    }

    method Active(clock: Result<I64, LicenseError>, faults: Faults) returns (r: Result<LeaseClaims, LicenseError>)
      modifies store
      ensures
        var (writes, claims) := EnsureActive(Memory(), env, old(store.entries), clock, faults);
        r == claims && store.log == old(store.log) + writes && store.entries == Replay(old(store.entries), writes)
    {
      var now := ReadClock(clock, faults);
      if now.Err? { return Err(now.error); }
      if lease.None? { return Err(NotActivated); }
      var claims := lease.value.claims;
      if claims.iat > SaturatingAdd(now.value, id.tolerance) { return Err(InvalidLease); }
      if now.value >= claims.exp { return Err(Expired(claims.exp)); }
      r := Ok(claims);
    }

    method CurrentStatus(clock: Result<I64, LicenseError>, faults: Faults) returns (r: Result<Answer, LicenseError>)
      modifies store
      ensures
        var (writes, answer) := StatusInner(Memory(), env, old(store.entries), clock, faults);
        r == answer && store.log == old(store.log) + writes && store.entries == Replay(old(store.entries), writes)
    {
      if lease.None? { return Ok(Report(Describe(id, IsNotActivated, None))); }
      var claims := Some(lease.value.claims);
      var active := Active(clock, faults);
      match active {
        case Ok(_) => r := Ok(Report(Describe(id, IsActive, claims)));
        case Err(Expired(_)) => r := Ok(Report(Describe(id, IsExpired, claims)));
        case Err(ClockRollback(_, _)) => r := Ok(Report(Describe(id, IsRolledBack, claims)));
        case Err(e) => r := Err(e);
      }
    }

    method InstallLease(reply: Result<string, LicenseError>, clock: Result<I64, LicenseError>, faults: Faults)
      returns (r: Result<Answer, LicenseError>)
      modifies this, store
      ensures
        var o := Install(old(Memory()), env, old(store.entries), reply, clock, faults);
        r == o.result && Memory() == o.process.(lastError := old(lastError)) &&
        store.log == old(store.log) + o.writes && store.entries == Replay(old(store.entries), o.writes)
    {
      hide VerifyLease, CheckedNow, SaturatingAdd;
      if reply.Err? { return Err(reply.error); }
      var verified := VerifyBound(id, env, reply.value);
      if verified.Err? { return Err(verified.error); }
      ghost var before := store.entries;
      var written := store.Set(LEASE_KEY, verified.value.token, faults.setLease);
      if written.Err? { return Err(written.error); }
      lease := Some(verified.value);
      ghost var middle := store.entries;
      r := CurrentStatus(clock, faults);
      ReplayAppend(before, [Put(LEASE_KEY, verified.value.token)], StatusInner(Memory(), env, middle, clock, faults).0);
      assert Replay(before, [Put(LEASE_KEY, verified.value.token)]) == Replay(middle, []);
      StatusIgnoresLastError(Memory(), old(Memory()).(lease := lease), env, middle, clock, faults);
    }

    method ActivateKey(licenseKey: string, reply: Result<string, LicenseError>, clock: Result<I64, LicenseError>, faults: Faults)
      returns (r: Result<Answer, LicenseError>)
      modifies this, store
      ensures
        var o := Perform(old(Memory()), env, old(store.entries), Activate(licenseKey, reply), clock, faults);
        r == o.result && Did(o)
    {
      if Blank(licenseKey) {
        r := Err(InvalidArgument);
      } else {
        r := InstallLease(reply, clock, faults);
      }
      Record(r);
    }

    method RefreshLease(reply: Result<string, LicenseError>, clock: Result<I64, LicenseError>, faults: Faults)
      returns (r: Result<Answer, LicenseError>)
      modifies this, store
      ensures
        var o := Perform(old(Memory()), env, old(store.entries), Refresh(reply), clock, faults);
        r == o.result && Did(o)
    {
      if lease.None? {
        r := Err(NotActivated);
      } else {
        r := InstallLease(reply, clock, faults);
      }
      Record(r);
    }

    method DeactivateDevice(acknowledged: Result<(), LicenseError>, clock: Result<I64, LicenseError>, faults: Faults)
      returns (r: Result<Answer, LicenseError>)
      modifies this, store
      ensures
        var o := Perform(old(Memory()), env, old(store.entries), Deactivate(acknowledged), clock, faults);
        r == o.result && Did(o)
    {
      if lease.Some? && acknowledged.Err? {
        r := Err(acknowledged.error);
      } else {
        var deleted := store.Delete(LEASE_KEY, faults.deleteLease);
        if deleted.Err? {
          r := Err(deleted.error);
        } else {
          lease := None;
          r := Ok(Done);
        }
      }
      Record(r);
    }

    method GetStatus(clock: Result<I64, LicenseError>, faults: Faults) returns (r: Result<Answer, LicenseError>)
      modifies this, store
      ensures
        var o := Perform(old(Memory()), env, old(store.entries), Status, clock, faults);
        r == o.result && Did(o)
    {
      r := CurrentStatus(clock, faults);
      Record(r);
    }

    method Require(entitlement: string, clock: Result<I64, LicenseError>, faults: Faults)
      returns (r: Result<Answer, LicenseError>)
      modifies this, store
      ensures
        var o := Perform(old(Memory()), env, old(store.entries), RequireEntitlement(entitlement), clock, faults);
        r == o.result && Did(o)
    {
      if Blank(entitlement) {
        r := Err(InvalidArgument);
      } else {
        var claims := Active(clock, faults);
        if claims.Err? {
          r := Err(claims.error);
        } else if entitlement !in claims.value.entitlements {
          r := Err(EntitlementMissing(entitlement));
        } else {
          r := Ok(Done);
        }
      }
      Record(r);
    }
  }

  /** Builds a client over an existing store, or says why it cannot. */
  method StartClient(cfg: ClientConfig, env: Env, store: MemoryStore, newSeed: string, faults: StartFaults)
    returns (r: Result<LicenseClient, LicenseError>)
    modifies store
    ensures
      var start := Initialize(cfg, env, old(store.entries), newSeed, faults);
      && store.log == old(store.log) + start.writes
      && store.entries == Replay(old(store.entries), start.writes)
      && (r.Ok? <==> start.process.Ok?)
      && (r.Err? ==> r.error == start.process.error)
      && (r.Ok? ==> fresh(r.value) && r.value.store == store && r.value.env == env && r.value.Memory() == start.process.value)
  {
    var keys := DecodeKeys(cfg, env);
    if keys.Err? { return Err(keys.error); }
    var found := store.Get(DEVICE_SEED_KEY, faults.getSeed);
    if found.Err? { return Err(found.error); }
    var seed := newSeed;
    if found.value.Some? {
      seed := found.value.value;
      if |seed| != SEED_SIZE { return Err(Storage); }
    } else {
      var written := store.Set(DEVICE_SEED_KEY, seed, faults.setSeed);
      if written.Err? { return Err(written.error); }
    }
    var id := IdentityOf(cfg, env, keys.value, seed);
    var cached := store.Get(LEASE_KEY, faults.getLease);
    if cached.Err? { return Err(cached.error); }
    var lease: Option<VerifiedLease> := None;
    if cached.value.Some? {
      if !env.utf8(cached.value.value) { return Err(Storage); }
      var verified := VerifyBound(id, env, cached.value.value);
      if verified.Err? { return Err(verified.error); }
      lease := Some(verified.value);
    }
    var client := new LicenseClient(id, env, store, lease);
    r := Ok(client);
  }

  lemma StatusIgnoresLastError(a: Process, b: Process, env: Env, store: Plain, clock: Result<I64, LicenseError>, faults: Faults)
    requires a.id == b.id && a.lease == b.lease
    ensures StatusInner(a, env, store, clock, faults) == StatusInner(b, env, store, clock, faults)
  {}
}
