/**
 The offline lease protocol as a state machine: one server, any number of devices, a network
 that delivers whatever it likes short of a forgery, and clocks on the devices that read
 anything. A server request is not atomic: it loads the licence, later checks that it is
 usable, later finds or makes the activation, later signs, and anything may happen in between.
 */
module LeaseProtocol {
  import opened Wrappers
  import opened Base64Url
  import opened Token
  import opened Lease
  import opened Store
  import opened Decimal
  import opened Client
  import opened ClientSafety
  import opened TokenRoundTrip
  import Service = LicenseService

  /** Everything fixed during a run. `privs` are the signing keys the server ever holds. */
  datatype Setup = Setup(
    go: GoJson, env: Env, leaseTtl: int, privs: set<Bytes>, configs: map<string, ClientConfig>)

  ghost predicate LawfulSetup(s: Setup) {
    && Lawful(s.go, s.env.js, s.env.ed) && LawfulEnv(s.env)
    && s.leaseTtl > 0
    && (forall priv :: priv in s.privs ==> |priv| == PRIVATE_KEY_SIZE)
    && (forall d :: d in s.configs ==> PinsServerKeys(s, s.configs[d]))
  }

  /** The client was shipped with public keys of the server only. */
  ghost predicate PinsServerKeys(s: Setup, cfg: ClientConfig) {
    DecodeKeys(cfg, s.env).Ok? ==>
      forall kid :: kid in DecodeKeys(cfg, s.env).value ==> ServerKey(s, DecodeKeys(cfg, s.env).value[kid])
  }

  ghost predicate ServerKey(s: Setup, pub: Bytes) {
    exists priv :: priv in s.privs && s.env.ed.public(priv) == pub
  }

  /** How a request reaches its licence. */
  datatype Door = ByKey(creates: bool, productId: string) | ByLease(raw: string, productId: string, ring: map<string, Bytes>)

  /** A request under way: the licence as it was loaded, when it was found usable, and when the device was found or made active. */
  datatype Pending = Pending(
    door: Door, licenseId: string, device: string, lic: Service.License,
    loadedAt: int, checkedAt: Option<int>, enrolledAt: Option<int>)

  /** A signature the server has made. */
  datatype Mint = Mint(pub: Bytes, token: VerifyToken, lic: Service.License, loadedAt: int, checkedAt: int, enrolledAt: int)

  datatype World = World(
    now: int,
    licenses: map<string, Service.License>,
    activations: set<(string, string)>,
    pending: map<nat, Pending>,
    signed: set<Mint>,
    devices: map<string, Device>)

  datatype Action =
    | Tick(now: int)
    | Manage(licenses: map<string, Service.License>, activations: set<(string, string)>)
    | Load(request: nat, door: Door, licenseId: string, device: string)
    | Check(request: nat)
    | Enrol(request: nat)
    | SignLease(request: nat, kid: string, priv: Bytes, nonce: string, fingerprint: string)
    | Abort(request: nat)
    | OnDevice(name: string, event: Event)

  function CountFor(activations: set<(string, string)>, licenseId: string): nat {
    |set a | a in activations && a.0 == licenseId|
  }

  /** The licence that a request names is the one its door leads to. */
  predicate DoorOpens(s: Setup, w: World, door: Door, licenseId: string, device: string) {
    licenseId in w.licenses &&
    var lic := w.licenses[licenseId];
    match door
    case ByKey(_, productId) => (productId == "" || lic.productId == productId) && lic.supportsActivation
    case ByLease(raw, productId, ring) =>
      var t := VerifyWithKeyRing(raw, ring, w.now, s.go, s.env.ed);
      && t.Ok? && t.value.version == 1 && t.value.productId == productId && t.value.identifier == device
      && t.value.licenseId == licenseId && lic.productId == productId
  }

  predicate Activated(w: World, p: Pending) { (p.licenseId, p.device) in w.activations }

  /** The device is activated, or the request may activate it within the limit of the plan. */
  predicate MayEnrol(w: World, p: Pending) {
    || Activated(w, p)
    || (p.door.ByKey? && p.door.creates && CountFor(w.activations, p.licenseId) < Service.MaxActivations(p.lic))
  }

  function MintOf(s: Setup, w: World, p: Pending, kid: string, priv: Bytes, nonce: string, fingerprint: string): Mint
    requires p.checkedAt.Some? && p.enrolledAt.Some?
  {
    Mint(s.env.ed.public(priv),
         Service.TokenFor(p.lic, p.licenseId, p.device, kid, w.now, s.leaseTtl, nonce, fingerprint),
         p.lic, p.loadedAt, p.checkedAt.value, p.enrolledAt.value)
  }

  /** No forgery: a payload that verifies under a server key is one the server has signed with it. */
  ghost predicate Genuine(s: Setup, signed: set<Mint>, raw: string) {
    FirstDot(raw).Some? ==>
      var seg, sig := raw[..FirstDot(raw).value], RustDecode(raw[FirstDot(raw).value + 1..]);
      forall pub :: ServerKey(s, pub) && sig.Some? && s.env.ed.verify(pub, seg, sig.value) ==>
        exists m :: m in signed && m.pub == pub && PayloadSegment(m.token, s.go) == seg
  }

  /** What the network may answer to a device. */
  ghost predicate Deliverable(s: Setup, w: World, e: Event) {
    match e
    case Restart(_, _) => true
    case Call(_, _, _) | Crash(_, _, _, _) =>
      match e.request
      case Activate(_, reply) => reply.Ok? ==> Genuine(s, w.signed, reply.value)
      case Refresh(reply) => reply.Ok? ==> Genuine(s, w.signed, reply.value)
      case _ => true
  }

  ghost predicate Enabled(s: Setup, w: World, a: Action) {
    match a
    case Tick(now) => w.now <= now
    case Manage(_, _) => true
    case Load(r, door, licenseId, device) => r !in w.pending && DoorOpens(s, w, door, licenseId, device)
    case Check(r) => r in w.pending && w.pending[r].checkedAt.None? && Service.Usable(w.pending[r].lic, w.now)
    case Enrol(r) =>
      r in w.pending && w.pending[r].checkedAt.Some? && w.pending[r].enrolledAt.None? && MayEnrol(w, w.pending[r])
    case SignLease(r, kid, priv, nonce, fingerprint) =>
      && r in w.pending && w.pending[r].checkedAt.Some? && w.pending[r].enrolledAt.Some? && priv in s.privs && nonce != ""
      && Representable(MintOf(s, w, w.pending[r], kid, priv, nonce, fingerprint).token)
    case Abort(r) => r in w.pending
    case OnDevice(name, e) => name in w.devices && name in s.configs && Deliverable(s, w, e)
  }

  function Act(s: Setup, w: World, a: Action): World
    requires a.Check? || a.Enrol? ==> a.request in w.pending
    requires a.SignLease? ==> a.request in w.pending && w.pending[a.request].checkedAt.Some? && w.pending[a.request].enrolledAt.Some?
    requires a.OnDevice? ==> a.name in w.devices && a.name in s.configs
  {
    match a
    case Tick(now) => w.(now := now)
    case Manage(licenses, activations) => w.(licenses := licenses, activations := activations)
    case Load(r, door, licenseId, device) =>
      if licenseId in w.licenses then
        w.(pending := w.pending[r := Pending(door, licenseId, device, w.licenses[licenseId], w.now, None, None)])
      else w
    case Check(r) => w.(pending := w.pending[r := w.pending[r].(checkedAt := Some(w.now))])
    case Enrol(r) =>
      var p := w.pending[r];
      w.(pending := w.pending[r := p.(enrolledAt := Some(w.now))],
         activations := w.activations + {(p.licenseId, p.device)})
    case SignLease(r, kid, priv, nonce, fingerprint) =>
      w.(pending := w.pending - {r}, signed := w.signed + {MintOf(s, w, w.pending[r], kid, priv, nonce, fingerprint)})
    case Abort(r) => w.(pending := w.pending - {r})
    case OnDevice(name, e) => w.(devices := w.devices[name := Step(s.configs[name], s.env, w.devices[name], e)])
  }

  /** Devices start with nothing running and no cached lease. */
  predicate Initial(w: World) {
    && w.pending == map[] && w.signed == {}
    && forall d :: d in w.devices ==> w.devices[d].process.None? && LEASE_KEY !in w.devices[d].store
  }

  /** A run: worlds `ws` and between them actions `acts`. */
  ghost predicate Behaviour(s: Setup, ws: seq<World>, acts: seq<Action>) {
    && |ws| == |acts| + 1
    && Initial(ws[0])
    && forall i :: 0 <= i < |acts| ==> Enabled(s, ws[i], acts[i]) && ws[i + 1] == Act(s, ws[i], acts[i])
  }

  // ---- Where the facts in a request and in a signature come from ----

  /** The licence stood as recorded in some earlier world at the recorded time. */
  ghost predicate LoadedAt(ws: seq<World>, i: nat, j: nat, licenseId: string, lic: Service.License, at: int) {
    j <= i < |ws| && ws[j].now == at && licenseId in ws[j].licenses && ws[j].licenses[licenseId] == lic
  }

  /** The device was activated in some earlier world at the recorded time. */
  ghost predicate EnrolledAt(ws: seq<World>, i: nat, k: nat, licenseId: string, device: string, at: int) {
    k <= i < |ws| && ws[k].now == at && (licenseId, device) in ws[k].activations
  }

  ghost predicate PendingHasSource(ws: seq<World>, i: nat, p: Pending) {
    exists j ::
      && LoadedAt(ws, i, j, p.licenseId, p.lic, p.loadedAt)
      && p.loadedAt <= ws[i].now
      && (p.checkedAt.Some? ==> p.loadedAt <= p.checkedAt.value <= ws[i].now && Service.Usable(p.lic, p.checkedAt.value))
      && (p.enrolledAt.Some? ==>
            && p.checkedAt.Some? && p.checkedAt.value <= p.enrolledAt.value <= ws[i].now
            && exists k :: j <= k && EnrolledAt(ws, i, k, p.licenseId, p.device, p.enrolledAt.value))
  }

  /** The token says of its licence what the service says. */
  predicate Represents(s: Setup, m: Mint) {
    m.token == Service.TokenFor(m.lic, m.token.licenseId, m.token.identifier, m.token.keyId, m.token.issuedAt, s.leaseTtl,
                                m.token.nonce, m.token.fingerprint)
  }

  ghost predicate MintHasSource(s: Setup, ws: seq<World>, i: nat, m: Mint) {
    exists j ::
      && LoadedAt(ws, i, j, m.token.licenseId, m.lic, m.loadedAt)
      && m.loadedAt <= m.checkedAt <= m.enrolledAt <= m.token.issuedAt <= ws[i].now
      && Service.Usable(m.lic, m.checkedAt)
      && m.token.expiresAt == m.token.issuedAt + s.leaseTtl
      && m.token.productId == m.lic.productId
      && Represents(s, m) && Representable(m.token)
      && exists k :: j <= k && EnrolledAt(ws, i, k, m.token.licenseId, m.token.identifier, m.enrolledAt)
  }

  ghost predicate Sound(s: Setup, ws: seq<World>, i: nat)
    requires i < |ws|
  {
    && (forall r :: r in ws[i].pending ==> PendingHasSource(ws, i, ws[i].pending[r]))
    && (forall m :: m in ws[i].signed ==> MintHasSource(s, ws, i, m))
    && (forall d :: d in ws[i].devices && d in s.configs ==> DeviceSound(s, ws[i], d))
  }

  ghost predicate DeviceSound(s: Setup, w: World, d: string)
    requires d in w.devices && d in s.configs
  {
    && DeviceOk(s.configs[d], s.env, w.devices[d])
    && (w.devices[d].process.Some? ==>
          && DecodeKeys(s.configs[d], s.env).Ok?
          && w.devices[d].process.value.id.keys == DecodeKeys(s.configs[d], s.env).value
          && w.devices[d].process.value.id.productId == s.configs[d].productId)
    && (LEASE_KEY in w.devices[d].store ==> Genuine(s, w.signed, w.devices[d].store[LEASE_KEY]))
  }

  // ---- Every step keeps the sources ----

  lemma PendingKeepsSource(ws: seq<World>, i: nat, p: Pending)
    requires i + 1 < |ws| && ws[i].now <= ws[i + 1].now && PendingHasSource(ws, i, p)
    ensures PendingHasSource(ws, i + 1, p)
  {
    var j :|
      && LoadedAt(ws, i, j, p.licenseId, p.lic, p.loadedAt)
      && (p.enrolledAt.Some? ==> exists k :: j <= k && EnrolledAt(ws, i, k, p.licenseId, p.device, p.enrolledAt.value));
    assert LoadedAt(ws, i + 1, j, p.licenseId, p.lic, p.loadedAt);
    if p.enrolledAt.Some? {
      var k :| j <= k && EnrolledAt(ws, i, k, p.licenseId, p.device, p.enrolledAt.value);
      assert EnrolledAt(ws, i + 1, k, p.licenseId, p.device, p.enrolledAt.value);
    }
  }

  lemma MintKeepsSource(s: Setup, ws: seq<World>, i: nat, m: Mint)
    requires i + 1 < |ws| && ws[i].now <= ws[i + 1].now && MintHasSource(s, ws, i, m)
    ensures MintHasSource(s, ws, i + 1, m)
  {
    var j :|
      && LoadedAt(ws, i, j, m.token.licenseId, m.lic, m.loadedAt)
      && exists k :: j <= k && EnrolledAt(ws, i, k, m.token.licenseId, m.token.identifier, m.enrolledAt);
    var k :| j <= k && EnrolledAt(ws, i, k, m.token.licenseId, m.token.identifier, m.enrolledAt);
    assert LoadedAt(ws, i + 1, j, m.token.licenseId, m.lic, m.loadedAt);
    assert EnrolledAt(ws, i + 1, k, m.token.licenseId, m.token.identifier, m.enrolledAt);
  }

  /** A licence just loaded is the one that stands now. */
  lemma LoadHasSource(ws: seq<World>, i: nat, p: Pending)
    requires i + 1 < |ws| && ws[i + 1].now == ws[i].now && p.checkedAt.None? && p.enrolledAt.None? && p.loadedAt == ws[i].now
    requires p.licenseId in ws[i].licenses && p.lic == ws[i].licenses[p.licenseId]
    ensures PendingHasSource(ws, i + 1, p)
  {
    assert LoadedAt(ws, i + 1, i, p.licenseId, p.lic, p.loadedAt);
  }

  lemma PendingStaysUnenrolled(ws: seq<World>, i: nat, p: Pending)
    requires PendingHasSource(ws, i, p) && i < |ws| && p.checkedAt.None?
    ensures p.enrolledAt.None?
  {}

  lemma CheckHasSource(ws: seq<World>, i: nat, p: Pending)
    requires i + 1 < |ws| && ws[i + 1].now == ws[i].now && PendingHasSource(ws, i, p)
    requires p.enrolledAt.None? && Service.Usable(p.lic, ws[i].now)
    ensures PendingHasSource(ws, i + 1, p.(checkedAt := Some(ws[i].now)))
  {
    var j :| LoadedAt(ws, i, j, p.licenseId, p.lic, p.loadedAt);
    assert LoadedAt(ws, i + 1, j, p.licenseId, p.lic, p.loadedAt);
  }

  /** A request that is enrolled has its device activated in the world that follows. */
  lemma EnrolmentHasSource(ws: seq<World>, i: nat, p: Pending)
    requires i + 1 < |ws| && ws[i + 1].now == ws[i].now && PendingHasSource(ws, i, p)
    requires p.checkedAt.Some? && (p.licenseId, p.device) in ws[i + 1].activations
    ensures PendingHasSource(ws, i + 1, p.(enrolledAt := Some(ws[i].now)))
  {
    var j :| LoadedAt(ws, i, j, p.licenseId, p.lic, p.loadedAt);
    assert LoadedAt(ws, i + 1, j, p.licenseId, p.lic, p.loadedAt);
    assert EnrolledAt(ws, i + 1, i + 1, p.licenseId, p.device, ws[i].now);
  }

  /** A signature inherits the sources of its request. */
  lemma SignatureHasSource(s: Setup, ws: seq<World>, i: nat, p: Pending, kid: string, priv: Bytes, nonce: string, fingerprint: string)
    requires i + 1 < |ws| && ws[i + 1].now == ws[i].now && PendingHasSource(ws, i, p) && p.checkedAt.Some? && p.enrolledAt.Some?
    requires Representable(MintOf(s, ws[i], p, kid, priv, nonce, fingerprint).token)
    ensures MintHasSource(s, ws, i + 1, MintOf(s, ws[i], p, kid, priv, nonce, fingerprint))
  {
    var j :|
      && LoadedAt(ws, i, j, p.licenseId, p.lic, p.loadedAt)
      && exists k :: j <= k && EnrolledAt(ws, i, k, p.licenseId, p.device, p.enrolledAt.value);
    var k :| j <= k && EnrolledAt(ws, i, k, p.licenseId, p.device, p.enrolledAt.value);
    var m := MintOf(s, ws[i], p, kid, priv, nonce, fingerprint);
    assert LoadedAt(ws, i + 1, j, m.token.licenseId, m.lic, m.loadedAt);
    assert EnrolledAt(ws, i + 1, k, m.token.licenseId, m.token.identifier, m.enrolledAt);
  }

  lemma GenuineGrows(s: Setup, a: set<Mint>, b: set<Mint>, raw: string)
    requires a <= b && Genuine(s, a, raw)
    ensures Genuine(s, b, raw)
  {}

  /** A device caches only tokens that the network could deliver. */
  lemma DeviceStaysSound(s: Setup, w: World, name: string, e: Event)
    requires name in w.devices && name in s.configs && DeviceSound(s, w, name) && Deliverable(s, w, e)
    ensures DeviceSound(s, w.(devices := w.devices[name := Step(s.configs[name], s.env, w.devices[name], e)]), name)
  {
    hide Genuine, VerifyBound, CheckedNow, Parse, Perform, DecodeKeys, LoadLease;
    var cfg, d := s.configs[name], w.devices[name];
    var d' := Step(cfg, s.env, d, e);
    StepKeeps(cfg, s.env, d, e);
    if e.Restart? {
      RestartLease(cfg, s.env, d.store, e.newSeed, e.startFaults);
    } else if d.process.Some? {
      var p := d.process.value;
      var ws := Performed(s.env, d, e).writes;
      ShapeOfACall(p, s.env, d.store, e.request, e.clock, e.faults);
      assert ws[..|ws|] == ws;
      var k := if e.Crash? && e.completed < |ws| then e.completed else |ws|;
      LeaseAfterPrefix(p, s.env, d.store, e.request, e.clock, e.faults, k);
    }
  }

  /** Starting a process leaves the cached token alone and takes its identity from the configuration. */
  lemma RestartLease(cfg: ClientConfig, env: Env, store: Plain, newSeed: string, faults: StartFaults)
    ensures
      var start := Initialize(cfg, env, store, newSeed, faults);
      var after := Replay(store, start.writes);
      && (LEASE_KEY in after <==> LEASE_KEY in store) && (LEASE_KEY in store ==> after[LEASE_KEY] == store[LEASE_KEY])
      && (start.process.Ok? ==>
            && DecodeKeys(cfg, env).Ok?
            && start.process.value.id.keys == DecodeKeys(cfg, env).value && start.process.value.id.productId == cfg.productId)
  {}

  /** After part of a call the cached token is the old one or the one the network delivered. */
  lemma LeaseAfterPrefix(
      p: Process, env: Env, store: Plain, request: Request, clock: Result<I64, LicenseError>, faults: Faults, k: nat)
    requires 0 <= p.id.tolerance
    requires k <= |Perform(p, env, store, request, clock, faults).writes|
    ensures
      var found := Replay(store, Perform(p, env, store, request, clock, faults).writes[..k]);
      LEASE_KEY in found ==>
        || (LEASE_KEY in store && found[LEASE_KEY] == store[LEASE_KEY])
        || ((request.Activate? || request.Refresh?) && request.reply == Ok(found[LEASE_KEY]))
  {
    hide Perform, VerifyBound, CheckedNow, Parse;
    var o := Perform(p, env, store, request, clock, faults);
    ShapeOfACall(p, env, store, request, clock, faults);
    var middle := MiddleStore(p, env, store, request, faults);
    CheckedNowMeaning(p.id, env, middle, clock, faults);
    var w := LeaseWrite(p, env, request, faults);
    var seen := CheckedNow(p.id, env, middle, clock, faults).0;
    ReplayOne(store, w);
    if k == 0 {
      assert o.writes[..0] == [];
    } else if k <= |AsSeq(w)| {
      assert o.writes[..k] == AsSeq(w);
    } else {
      assert o.writes[..k] == AsSeq(w) + seen;
      ReplayAppend(store, AsSeq(w), seen);
      ReplayOne(middle, Some(seen[0]));
      assert seen == AsSeq(Some(seen[0]));
    }
  }

  lemma StepStaysSound(s: Setup, ws: seq<World>, acts: seq<Action>, i: nat)
    requires Behaviour(s, ws, acts) && i < |acts| && Sound(s, ws, i)
    ensures Sound(s, ws, i + 1)
  {
    hide DeviceSound, Genuine, VerifyWithKeyRing, Step, MintHasSource, PendingHasSource, MintOf;
    var w, w', a := ws[i], ws[i + 1], acts[i];
    assert Enabled(s, w, a) && w' == Act(s, w, a);
    forall r | r in w'.pending
      ensures PendingHasSource(ws, i + 1, w'.pending[r])
    {
      if a.Load? && r == a.request {
        LoadHasSource(ws, i, w'.pending[r]);
      } else if a.Check? && r == a.request {
        PendingStaysUnenrolled(ws, i, w.pending[r]);
        CheckHasSource(ws, i, w.pending[r]);
      } else if a.Enrol? && r == a.request {
        EnrolmentHasSource(ws, i, w.pending[r]);
      } else {
        PendingKeepsSource(ws, i, w.pending[r]);
      }
    }
    forall m | m in w'.signed
      ensures MintHasSource(s, ws, i + 1, m)
    {
      if m in w.signed {
        MintKeepsSource(s, ws, i, m);
      } else {
        SignatureHasSource(s, ws, i, w.pending[a.request], a.kid, a.priv, a.nonce, a.fingerprint);
      }
    }
    forall d | d in w'.devices && d in s.configs
      ensures DeviceSound(s, w', d)
    {
      DevicesStaySound(s, w, a, d);
    }
  }

  lemma DevicesStaySound(s: Setup, w: World, a: Action, d: string)
    requires Enabled(s, w, a) && d in Act(s, w, a).devices && d in s.configs
    requires forall c :: c in w.devices && c in s.configs ==> DeviceSound(s, w, c)
    ensures DeviceSound(s, Act(s, w, a), d)
  {
    hide Step, VerifyWithKeyRing, Genuine;
    if a.OnDevice? && d == a.name {
      DeviceStaysSound(s, w, d, a.event);
    } else if LEASE_KEY in w.devices[d].store {
      GenuineGrows(s, w.signed, Act(s, w, a).signed, w.devices[d].store[LEASE_KEY]);
    }
  }

  /** Every world of a run is sound. */
  lemma {:induction false} AlwaysSound(s: Setup, ws: seq<World>, acts: seq<Action>, i: nat)
    requires Behaviour(s, ws, acts) && i < |ws|
    ensures Sound(s, ws, i)
  {
    hide Sound, Enabled, Act, Initial;
    if i > 0 {
      AlwaysSound(s, ws, acts, i - 1);
      StepStaysSound(s, ws, acts, i - 1);
    } else {
      StartIsSound(s, ws, acts);
    }
  }

  lemma StartIsSound(s: Setup, ws: seq<World>, acts: seq<Action>)
    requires Behaviour(s, ws, acts)
    ensures Sound(s, ws, 0)
  {
    hide Enabled, Act;
  }

  /** The server's clock never runs back. */
  lemma {:induction false} ServerTimeAdvances(s: Setup, ws: seq<World>, acts: seq<Action>, i: nat, j: nat)
    requires Behaviour(s, ws, acts) && i <= j < |ws|
    ensures ws[i].now <= ws[j].now
    decreases j - i
  {
    if i < j {
      ServerTimeAdvances(s, ws, acts, i, j - 1);
      assert Enabled(s, ws[j - 1], acts[j - 1]) && ws[j] == Act(s, ws[j - 1], acts[j - 1]);
    }
  }

  // ---- Safety of a whole run ----

  /** The lease that an event of a device reports as Active or uses to grant an entitlement. */
  function Granted(s: Setup, ws: seq<World>, acts: seq<Action>, i: nat): Option<LeaseClaims>
    requires i < |acts| && i < |ws|
    requires acts[i].OnDevice? ==> acts[i].name in ws[i].devices
  {
    if acts[i].OnDevice? then Grant(s.env, ws[i].devices[acts[i].name], acts[i].event) else None
  }

  /** The lease of a sound device was signed by the server. */
  lemma CachedLeaseWasMinted(s: Setup, w: World, d: string) returns (m: Mint)
    requires LawfulSetup(s) && d in w.devices && d in s.configs && DeviceSound(s, w, d)
    requires forall c :: c in w.signed ==> Representable(c.token)
    requires w.devices[d].process.Some? && w.devices[d].process.value.lease.Some?
    ensures m in w.signed && w.devices[d].process.value.lease.value.claims == RustView(m.token)
    ensures m.token.productId == s.configs[d].productId && m.token.identifier == w.devices[d].process.value.id.deviceId
  {
    hide VerifyLease, Decode, Encode, FirstDot, Parse;
    var p := w.devices[d].process.value;
    var raw := p.lease.value.token;
    VerifyBoundKeepsToken(p.id, s.env, raw);
    AcceptedIsVerified(raw, p.id.keys, s.env.js, s.env.ed);
    var seg, sig := raw[..FirstDot(raw).value], RustDecode(raw[FirstDot(raw).value + 1..]);
    var kid := s.env.js.header(RustDecode(seg).value).value;
    assert ServerKey(s, p.id.keys[kid]);
    m :| m in w.signed && m.pub == p.id.keys[kid] && PayloadSegment(m.token, s.go) == seg;
    DecodeUndoesEncode(s.go.marshal(m.token), true);
  }

  /**
   Whenever a device reports Active or grants an entitlement at clock reading t, the server
   signed that lease at an instant in (t - leaseTtl, t + tolerance]; before that, in this
   order, the licence stood as one of this product, was found usable, and had an activation
   for this device.
   */
  lemma ActiveIsJustified(s: Setup, ws: seq<World>, acts: seq<Action>, i: nat) returns (loaded: nat, enrolled: nat, m: Mint)
    requires LawfulSetup(s) && Behaviour(s, ws, acts) && i < |acts| && acts[i].OnDevice?
    requires acts[i].name in ws[i].devices && Granted(s, ws, acts, i).Some?
    ensures
      var claims := Granted(s, ws, acts, i).value;
      var t := acts[i].event.clock;
      var cfg := s.configs[acts[i].name];
      && m in ws[i].signed && claims == RustView(m.token)
      && t.Ok? && t.value - s.leaseTtl < claims.iat <= t.value + cfg.tolerance
      && loaded <= enrolled <= i
      && ws[loaded].now == m.loadedAt && ws[enrolled].now == m.enrolledAt
      && ws[loaded].now <= m.checkedAt <= ws[enrolled].now <= claims.iat <= ws[i].now
      && claims.licenseId in ws[loaded].licenses
      && ws[loaded].licenses[claims.licenseId].productId == cfg.productId
      && Service.Usable(ws[loaded].licenses[claims.licenseId], ws[loaded].now)
      && Service.Usable(ws[loaded].licenses[claims.licenseId], m.checkedAt)
      && (claims.licenseId, claims.deviceId) in ws[enrolled].activations
  {
    hide Step, Grant, Genuine, VerifyWithKeyRing, MintHasSource, Service.Usable, DecodeKeys, Behaviour, Granted, LawfulSetup;
    m := GrantWasMinted(s, ws, acts, i);
    loaded, enrolled := SourceOfMint(s, ws, i, m);
  }

  /** Whatever grants was signed earlier by the server, and was compared with the clock. */
  lemma GrantWasMinted(s: Setup, ws: seq<World>, acts: seq<Action>, i: nat) returns (m: Mint)
    requires LawfulSetup(s) && Behaviour(s, ws, acts) && i < |acts| && acts[i].OnDevice?
    requires acts[i].name in ws[i].devices && Granted(s, ws, acts, i).Some?
    ensures m in ws[i].signed && MintHasSource(s, ws, i, m) && acts[i].name in s.configs
    ensures Granted(s, ws, acts, i).value == RustView(m.token) && m.token.productId == s.configs[acts[i].name].productId
    ensures
      var t := acts[i].event.clock;
      t.Ok? && m.token.issuedAt <= t.value + s.configs[acts[i].name].tolerance && t.value < m.token.expiresAt
  {
    hide Step, Grant, VerifyWithKeyRing, MintHasSource, PendingHasSource, DeviceSound, LawfulSetup, RustView, Deliverable;
    assert Enabled(s, ws[i], acts[i]) && ws[i + 1] == Act(s, ws[i], acts[i]);
    AlwaysSound(s, ws, acts, i);
    AlwaysSound(s, ws, acts, i + 1);
    MintsAreRepresentable(s, ws, i);
    m := GrantOnDevice(s, ws[i], acts[i].name, acts[i].event);
  }

  lemma GrantOnDevice(s: Setup, w: World, name: string, e: Event) returns (m: Mint)
    requires LawfulSetup(s) && name in w.devices && name in s.configs && Grant(s.env, w.devices[name], e).Some?
    requires DeviceSound(s, w, name) && DeviceSound(s, w.(devices := w.devices[name := Step(s.configs[name], s.env, w.devices[name], e)]), name)
    requires forall c :: c in w.signed ==> Representable(c.token)
    ensures m in w.signed && m.token.productId == s.configs[name].productId
    ensures Grant(s.env, w.devices[name], e).value == RustView(m.token)
    ensures e.clock.Ok? && m.token.issuedAt <= e.clock.value + s.configs[name].tolerance && e.clock.value < m.token.expiresAt
  {
    hide Step, Grant, Genuine, DecodeKeys, MemoryMatchesStore, LawfulSetup, Representable;
    var cfg, d := s.configs[name], w.devices[name];
    GrantMeaning(cfg, s.env, d, e);
    GrantedLeaseIsCached(cfg, s.env, d, e);
    m := CachedLeaseWasMinted(s, w.(devices := w.devices[name := Step(cfg, s.env, d, e)]), name);
  }

  /** The worlds in which the licence of a signature was loaded and its device was active. */
  lemma SourceOfMint(s: Setup, ws: seq<World>, i: nat, m: Mint) returns (loaded: nat, enrolled: nat)
    requires MintHasSource(s, ws, i, m)
    ensures loaded <= enrolled
    ensures LoadedAt(ws, i, loaded, m.token.licenseId, m.lic, m.loadedAt)
    ensures EnrolledAt(ws, i, enrolled, m.token.licenseId, m.token.identifier, m.enrolledAt)
    ensures m.loadedAt <= m.checkedAt <= m.enrolledAt <= m.token.issuedAt <= ws[i].now
    ensures m.token.expiresAt == m.token.issuedAt + s.leaseTtl && m.token.productId == m.lic.productId
    ensures Service.Usable(m.lic, m.loadedAt) && Service.Usable(m.lic, m.checkedAt)
  {
    loaded :|
      && LoadedAt(ws, i, loaded, m.token.licenseId, m.lic, m.loadedAt)
      && exists k :: loaded <= k && EnrolledAt(ws, i, k, m.token.licenseId, m.token.identifier, m.enrolledAt);
    enrolled :| loaded <= enrolled && EnrolledAt(ws, i, enrolled, m.token.licenseId, m.token.identifier, m.enrolledAt);
    Service.UsabilityOnlyEnds(m.lic, m.loadedAt, m.checkedAt);
  }

  lemma MintsAreRepresentable(s: Setup, ws: seq<World>, i: nat)
    requires i < |ws| && Sound(s, ws, i)
    ensures forall m :: m in ws[i].signed ==> Representable(m.token)
  {}

  /** After a grant the lease that granted is the one the process holds. */
  lemma GrantedLeaseIsCached(cfg: ClientConfig, env: Env, d: Device, e: Event)
    requires Grant(env, d, e).Some?
    ensures
      var after := Step(cfg, env, d, e);
      after.process.Some? && after.process.value.lease.Some? && after.process.value.lease.value.claims == Grant(env, d, e).value
  {}

  // ---- Revocation ----

  /** From world `r` on the licence is gone or not usable. */
  ghost predicate UnusableFrom(ws: seq<World>, r: nat, licenseId: string) {
    forall j :: r <= j < |ws| && licenseId in ws[j].licenses ==> !Service.Usable(ws[j].licenses[licenseId], ws[j].now)
  }

  /** No request took longer than `latency` from loading the licence to signing. */
  ghost predicate SignsWithin(ws: seq<World>, latency: int) {
    forall i, m :: 0 <= i < |ws| && m in ws[i].signed ==> m.token.issuedAt - m.loadedAt <= latency
  }

  /**
   A licence that is unusable from world r on is granted nothing at any clock reading from
   its revocation plus the lease lifetime plus the longest request.
   */
  lemma RevokedIsNowhereActive(
      s: Setup, ws: seq<World>, acts: seq<Action>, r: nat, i: nat, licenseId: string, latency: int)
    requires LawfulSetup(s) && Behaviour(s, ws, acts) && r < |ws| && i < |acts| && acts[i].OnDevice?
    requires acts[i].name in ws[i].devices
    requires UnusableFrom(ws, r, licenseId) && SignsWithin(ws, latency)
    requires acts[i].event.Call? && acts[i].event.clock.Ok?
    requires acts[i].event.clock.value >= ws[r].now + s.leaseTtl + latency
    ensures Granted(s, ws, acts, i).Some? ==> Granted(s, ws, acts, i).value.licenseId != licenseId
  {
    hide Grant, VerifyWithKeyRing, Step;
    if Granted(s, ws, acts, i).Some? && Granted(s, ws, acts, i).value.licenseId == licenseId {
      var loaded, enrolled, m := ActiveIsJustified(s, ws, acts, i);
      assert m.token.issuedAt - m.loadedAt <= latency;
      if loaded <= r { ServerTimeAdvances(s, ws, acts, loaded, r); }
    }
  }

  /** A device's watermark never falls during a run. */
  lemma {:induction false} WatermarkHoldsInRun(s: Setup, ws: seq<World>, acts: seq<Action>, a: nat, i: nat, name: string, low: int)
    requires Behaviour(s, ws, acts) && a <= i < |ws|
    requires name in s.configs && name in ws[a].devices && SeenAtLeast(ws[a].devices[name].store, low)
    ensures name in ws[i].devices && SeenAtLeast(ws[i].devices[name].store, low)
    decreases i - a
  {
    hide Step, Parse, VerifyWithKeyRing;
    if a < i {
      WatermarkHoldsInRun(s, ws, acts, a, i - 1, name, low);
      assert Enabled(s, ws[i - 1], acts[i - 1]) && ws[i] == Act(s, ws[i - 1], acts[i - 1]);
      if acts[i - 1].OnDevice? && acts[i - 1].name == name {
        AlwaysSound(s, ws, acts, i - 1);
        StepKeeps(s.configs[name], s.env, ws[i - 1].devices[name], acts[i - 1].event);
      }
    }
  }

  /**
   A device that has once stored a clock reading of at least the revocation plus lease
   lifetime, longest request and tolerance is granted nothing for that licence again,
   whatever its clock reads later.
   */
  lemma RevokedDeviceStaysLockedOut(
      s: Setup, ws: seq<World>, acts: seq<Action>, r: nat, a: nat, i: nat, licenseId: string, latency: int)
    requires LawfulSetup(s) && Behaviour(s, ws, acts) && r < |ws| && a <= i < |acts| && acts[i].OnDevice?
    requires UnusableFrom(ws, r, licenseId) && SignsWithin(ws, latency)
    requires acts[i].name in s.configs && acts[i].name in ws[a].devices
    requires SeenAtLeast(ws[a].devices[acts[i].name].store,
                         ws[r].now + s.leaseTtl + latency + s.configs[acts[i].name].tolerance)
    ensures acts[i].name in ws[i].devices
    ensures Granted(s, ws, acts, i).Some? ==> Granted(s, ws, acts, i).value.licenseId != licenseId
  {
    hide Grant, Step, Parse, VerifyWithKeyRing;
    var name := acts[i].name;
    WatermarkHoldsInRun(s, ws, acts, a, i, name, ws[r].now + s.leaseTtl + latency + s.configs[name].tolerance);
    if Granted(s, ws, acts, i).Some? {
      AlwaysSound(s, ws, acts, i);
      GrantMeaning(s.configs[name], s.env, ws[i].devices[name], acts[i].event);
      GrantIsACall(s.env, ws[i].devices[name], acts[i].event);
      RevokedIsNowhereActive(s, ws, acts, r, i, licenseId, latency);
    }
  }

  lemma GrantIsACall(env: Env, d: Device, e: Event)
    requires Grant(env, d, e).Some?
    ensures e.Call?
  {}
}
