/**
 The bound on revocation is tight: a run in which a licence is revoked, and a device is Active
 under it one second before the bound that `LeaseProtocol.RevokedIsNowhereActive` gives.
 */
module LeaseBound {
  import opened Wrappers
  import opened Base64Url
  import opened Token
  import opened Lease
  import opened Store
  import opened Decimal
  import opened Client
  import opened ClientSafety
  import opened TokenRoundTrip
  import opened LeaseProtocol
  import Service = LicenseService

  ghost predicate Moves(s: Setup, w: World, a: Action, w': World) { Enabled(s, w, a) && w' == Act(s, w, a) }

  lemma Grow(s: Setup, ws: seq<World>, acts: seq<Action>, a: Action, w: World)
    requires Behaviour(s, ws, acts) && Moves(s, ws[|acts|], a, w)
    ensures Behaviour(s, ws + [w], acts + [a])
  {
    hide Initial, VerifyWithKeyRing, Step, Deliverable, MintOf;
    var ws', acts' := ws + [w], acts + [a];
    assert forall i :: 0 <= i < |ws| ==> ws'[i] == ws[i];
    assert forall i :: 0 <= i < |acts| ==> acts'[i] == acts[i];
  }

  predicate Idle(devices: map<string, Device>) {
    forall d :: d in devices ==> devices[d].process.None? && LEASE_KEY !in devices[d].store
  }

  /**
   A request that stalls between its last check and its signature signs a lease for a licence
   revoked any time before.
   */
  lemma StalledRequestSignsAfterRevocation(
      s: Setup, priv: Bytes, kid: string, licenseId: string, device: string, lic: Service.License, delay: nat,
      nonce: string, fingerprint: string, devices: map<string, Device>)
    returns (ws: seq<World>, acts: seq<Action>, m: Mint)
    requires priv in s.privs && lic.supportsActivation && lic.status == Service.Active && lic.validUntil.None? && nonce != ""
    requires Representable(Service.TokenFor(lic, licenseId, device, kid, delay, s.leaseTtl, nonce, fingerprint)) && Idle(devices)
    ensures Behaviour(s, ws, acts) && |ws| == 7 && |acts| == 6
    ensures UnusableFrom(ws, 4, licenseId) && ws[4].now == 0 && SignsWithin(ws, delay)
    ensures m.token == Service.TokenFor(lic, licenseId, device, kid, delay, s.leaseTtl, nonce, fingerprint)
    ensures m.pub == s.env.ed.public(priv) && m.token.licenseId == licenseId && m.token.issuedAt == delay && m.loadedAt == 0
    ensures ws[6] == World(delay, map[licenseId := lic.(status := Service.Revoked)], {(licenseId, device)}, map[], {m}, devices)
  {
    hide Behaviour, Moves, Service.TokenFor, Representable, UnusableFrom, SignsWithin;
    var usable, revoked := map[licenseId := lic], map[licenseId := lic.(status := Service.Revoked)];
    var active := {(licenseId, device)};
    var p := Pending(ByKey(false, lic.productId), licenseId, device, lic, 0, Some(0), Some(0));
    m := Mint(s.env.ed.public(priv), Service.TokenFor(lic, licenseId, device, kid, delay, s.leaseTtl, nonce, fingerprint), lic, 0, 0, 0);
    var w0 := World(0, usable, active, map[], {}, devices);
    var w1 := w0.(pending := map[0 := p.(checkedAt := None, enrolledAt := None)]);
    var w2 := w0.(pending := map[0 := p.(enrolledAt := None)]);
    var w3 := w0.(pending := map[0 := p]);
    var w4 := w3.(licenses := revoked);
    var w5 := w4.(now := delay);
    var w6 := World(delay, revoked, active, map[], {m}, devices);
    RequestMoves(s, w0, w1, w2, w3, p);
    SigningMoves(s, w3, w4, w5, w6, p, kid, priv, nonce, fingerprint, m, revoked, delay);
    StandingStill(s, w0);
    ws, acts := [w0], [];
    Grow(s, ws, acts, Load(0, p.door, licenseId, device), w1);
    ws, acts := [w0] + [w1], [] + [Load(0, p.door, licenseId, device)];
    Grow(s, ws, acts, Check(0), w2);
    ws, acts := ws + [w2], acts + [Check(0)];
    Grow(s, ws, acts, Enrol(0), w3);
    ws, acts := ws + [w3], acts + [Enrol(0)];
    Grow(s, ws, acts, Manage(revoked, active), w4);
    ws, acts := ws + [w4], acts + [Manage(revoked, active)];
    Grow(s, ws, acts, Tick(delay), w5);
    ws, acts := ws + [w5], acts + [Tick(delay)];
    Grow(s, ws, acts, SignLease(0, kid, priv, nonce, fingerprint), w6);
    ws, acts := ws + [w6], acts + [SignLease(0, kid, priv, nonce, fingerprint)];
    assert ws == [w0, w1, w2, w3, w4, w5, w6];
    RevokedAtFour(ws, licenseId, lic);
    TokenTimes(lic, licenseId, device, kid, delay, s.leaseTtl, nonce, fingerprint);
    SignedLate(ws, m, delay);
  }

  lemma TokenTimes(
      lic: Service.License, licenseId: string, device: string, kid: string, now: int, ttl: int, nonce: string, fingerprint: string)
    ensures
      var token := Service.TokenFor(lic, licenseId, device, kid, now, ttl, nonce, fingerprint);
      && token.issuedAt == now && token.expiresAt == now + ttl && token.licenseId == licenseId && token.identifier == device
      && token.productId == lic.productId && token.keyId == kid && token.nonce == nonce
  {}

  lemma StandingStill(s: Setup, w: World)
    requires w.pending == map[] && w.signed == {} && Idle(w.devices)
    ensures Behaviour(s, [w], [])
  {}

  /** A request for an active licence and an activated device is loaded, checked and enrolled at instant 0. */
  lemma RequestMoves(s: Setup, w0: World, w1: World, w2: World, w3: World, p: Pending)
    requires p.door == ByKey(false, p.lic.productId) && p.loadedAt == 0 && p.checkedAt == p.enrolledAt == Some(0)
    requires p.lic.supportsActivation && p.lic.status == Service.Active && p.lic.validUntil.None?
    requires w0.now == 0 && w0.pending == map[] && w0.licenses == map[p.licenseId := p.lic] && w0.activations == {(p.licenseId, p.device)}
    requires w1 == w0.(pending := map[0 := p.(checkedAt := None, enrolledAt := None)])
    requires w2 == w0.(pending := map[0 := p.(enrolledAt := None)]) && w3 == w0.(pending := map[0 := p])
    ensures Moves(s, w0, Load(0, p.door, p.licenseId, p.device), w1) && Moves(s, w1, Check(0), w2) && Moves(s, w2, Enrol(0), w3)
  {
    hide VerifyWithKeyRing, Step, Deliverable, MintOf, Representable, CountFor;
    assert w2.activations + {(p.licenseId, p.device)} == w3.activations;
  }

  lemma SigningMoves(
      s: Setup, w3: World, w4: World, w5: World, w6: World, p: Pending, kid: string, priv: Bytes, nonce: string, fingerprint: string,
      m: Mint, licenses: map<string, Service.License>, delay: nat)
    requires w3.now == 0 && w3.pending == map[0 := p] && w3.signed == {} && p.checkedAt.Some? && p.enrolledAt.Some?
    requires w4 == w3.(licenses := licenses) && w5 == w4.(now := delay)
    requires m == MintOf(s, w5, p, kid, priv, nonce, fingerprint) && w6 == w5.(pending := map[], signed := {m})
    requires priv in s.privs && nonce != "" && Representable(m.token)
    ensures Moves(s, w3, Manage(licenses, w3.activations), w4) && Moves(s, w4, Tick(delay), w5)
    ensures Moves(s, w5, SignLease(0, kid, priv, nonce, fingerprint), w6)
  {
    hide VerifyWithKeyRing, Step, Deliverable, MintOf, Representable, CountFor;
    assert map[0 := p] - {0} == map[];
    assert {} + {m} == {m};
  }

  lemma RevokedAtFour(ws: seq<World>, licenseId: string, lic: Service.License)
    requires |ws| == 7 && forall i :: 4 <= i < 7 ==> ws[i].licenses == map[licenseId := lic.(status := Service.Revoked)]
    ensures UnusableFrom(ws, 4, licenseId)
  {}

  lemma SignedLate(ws: seq<World>, m: Mint, delay: nat)
    requires |ws| == 7 && (forall i :: 0 <= i < 6 ==> ws[i].signed == {}) && ws[6].signed == {m}
    requires m.token.issuedAt - m.loadedAt <= delay
    ensures SignsWithin(ws, delay)
  {}

  // ---- The device ----

  const CALM := Faults(false, false, false, false)

  /** The string in which a token leaves the server. */
  function Written(s: Setup, priv: Bytes, token: VerifyToken): string {
    PayloadSegment(token, s.go) + "." + Encode(s.env.ed.sign(priv, PayloadSegment(token, s.go)))
  }

  /** The device started anew over an empty store. */
  function Started(s: Setup, cfg: ClientConfig, seed: string): Device
    requires DecodeKeys(cfg, s.env).Ok?
  {
    Device(map[DEVICE_SEED_KEY := seed], Some(Process(IdentityOf(cfg, s.env, DecodeKeys(cfg, s.env).value, seed), None, None)))
  }

  lemma RestartStarts(s: Setup, cfg: ClientConfig, seed: string)
    requires DecodeKeys(cfg, s.env).Ok?
    ensures Step(cfg, s.env, Device(map[], None), Restart(seed, StartFaults(false, false, false))) == Started(s, cfg, seed)
  {
    hide DecodeKeys, VerifyBound;
    var w := Put(DEVICE_SEED_KEY, seed);
    assert Replay(map[], [w]) == Replay(Apply(map[], w), []) == map[DEVICE_SEED_KEY := seed];
  }

  /** What the server signs, the network may deliver, as long as the signature verifies under its own key only. */
  lemma SignedIsGenuine(s: Setup, priv: Bytes, m: Mint, signed: set<Mint>)
    requires Lawful(s.go, s.env.js, s.env.ed) && |priv| == PRIVATE_KEY_SIZE && m in signed && m.pub == s.env.ed.public(priv)
    requires m.token.nonce != ""
    requires OwnKeyOnly(s, priv, m.token)
    ensures Genuine(s, signed, Written(s, priv, m.token))
  {
    hide Encode, Decode;
    SignedTokenParts(m.token, [], priv, s.go, s.env.ed);
  }

  /** The signature of a token verifies under no other key of the server. */
  ghost predicate OwnKeyOnly(s: Setup, priv: Bytes, token: VerifyToken) {
    forall other :: other in s.privs && s.env.ed.public(other) != s.env.ed.public(priv) ==>
      !s.env.ed.verify(s.env.ed.public(other), PayloadSegment(token, s.go), s.env.ed.sign(priv, PayloadSegment(token, s.go)))
  }

  /** A fresh device that is given a token signed for it is Active until the last instant before the token expires. */
  lemma DeliveredTokenIsActive(s: Setup, priv: Bytes, token: VerifyToken, cfg: ClientConfig, seed: string, t: I64)
    requires Lawful(s.go, s.env.js, s.env.ed) && |priv| == PRIVATE_KEY_SIZE && Representable(token) && token.nonce != ""
    requires DecodeKeys(cfg, s.env).Ok? && token.keyId in DecodeKeys(cfg, s.env).value
    requires DecodeKeys(cfg, s.env).value[token.keyId] == s.env.ed.public(priv)
    requires token.productId == cfg.productId && token.identifier == s.env.deviceId(cfg.productId, seed)
    requires Acceptable(token, Written(s, priv, token), s.go)
    requires token.issuedAt <= t < token.expiresAt
    ensures Grant(s.env, Started(s, cfg, seed), Call(Activate("key", Ok(Written(s, priv, token))), Ok(t), CALM)) == Some(RustView(token))
  {
    var d := Started(s, cfg, seed);
    var p, raw := d.process.value, Written(s, priv, token);
    assert 0 <= cfg.tolerance;
    VerifiesBound(s, priv, token, p.id);
    hide DecodeKeys, VerifyBound, Acceptable, RustView, Sign, VerifyLease, Parse, Print;
    var lease := VerifiedLease(raw, RustView(token));
    var store := Apply(d.store, Put(LEASE_KEY, raw));
    var p' := p.(lease := Some(lease));
    assert LAST_SEEN_KEY !in store;
    assert EnsureActive(p', s.env, store, Ok(t), CALM).1 == Ok(lease.claims) by { ViewTimes(token); }
    StatusMeaning(p', s.env, store, Ok(t), CALM);
    assert !Blank("key") by { assert "key"[0] == 'k'; }
  }

  lemma ViewTimes(token: VerifyToken)
    ensures RustView(token).licenseId == token.licenseId
    ensures RustView(token).iat == token.issuedAt && RustView(token).exp == token.expiresAt
  {}

  lemma VerifiesBound(s: Setup, priv: Bytes, token: VerifyToken, id: Identity)
    requires Lawful(s.go, s.env.js, s.env.ed) && |priv| == PRIVATE_KEY_SIZE && Representable(token) && token.nonce != ""
    requires token.keyId in id.keys && id.keys[token.keyId] == s.env.ed.public(priv)
    requires token.productId == id.productId && token.identifier == id.deviceId
    requires Acceptable(token, Written(s, priv, token), s.go)
    ensures VerifyBound(id, s.env, Written(s, priv, token)) == Ok(VerifiedLease(Written(s, priv, token), RustView(token)))
  {
    hide VerifyLease, Encode, Acceptable;
    RustDecodesWhatGoSigned(token, [], priv, id.keys, s.go, s.env.js, s.env.ed);
  }

  /**
   For every delay: a run in which no request takes longer than the delay, a licence is
   revoked, and a device, its clock reading the server's, is Active under it one second
   before the revocation plus lease lifetime plus delay.
   */
  lemma RevocationBoundIsTight(
      s: Setup, priv: Bytes, kid: string, name: string, seed: string, licenseId: string, lic: Service.License, delay: nat,
      nonce: string, fingerprint: string)
    returns (ws: seq<World>, acts: seq<Action>)
    requires LawfulSetup(s) && priv in s.privs && name in s.configs && |seed| == SEED_SIZE
    requires DecodeKeys(s.configs[name], s.env).Ok? && kid in DecodeKeys(s.configs[name], s.env).value
    requires DecodeKeys(s.configs[name], s.env).value[kid] == s.env.ed.public(priv)
    requires lic.supportsActivation && lic.status == Service.Active && lic.validUntil.None? && lic.productId == s.configs[name].productId
    requires nonce != ""
    requires
      var device := s.env.deviceId(lic.productId, seed);
      var token := Service.TokenFor(lic, licenseId, device, kid, delay, s.leaseTtl, nonce, fingerprint);
      Representable(token) && Acceptable(token, Written(s, priv, token), s.go) && OwnKeyOnly(s, priv, token)
    ensures Behaviour(s, ws, acts) && |acts| == 9 && acts[8].OnDevice? && acts[8].name in ws[8].devices
    ensures UnusableFrom(ws, 4, licenseId) && SignsWithin(ws, delay)
    ensures acts[8].event.Call? && acts[8].event.clock.Ok? && acts[8].event.clock.value == ws[8].now
    ensures ws[8].now == ws[4].now + s.leaseTtl + delay - 1
    ensures Granted(s, ws, acts, 8).Some? && Granted(s, ws, acts, 8).value.licenseId == licenseId
  {
    hide *;
    var cfg := s.configs[name];
    var device := s.env.deviceId(lic.productId, seed);
    var devices := map[name := Device(map[], None)];
    OneIdleDevice(name);
    var m;
    ws, acts, m := StalledRequestSignsAfterRevocation(s, priv, kid, licenseId, device, lic, delay, nonce, fingerprint, devices);
    TokenTimes(lic, licenseId, device, kid, delay, s.leaseTtl, nonce, fingerprint);
    SetupFacts(s, priv, m.token);
    var t: I64 := delay + s.leaseTtl - 1;
    var restart := OnDevice(name, Restart(seed, StartFaults(false, false, false)));
    var call := OnDevice(name, Call(Activate("key", Ok(Written(s, priv, m.token))), Ok(t), CALM));
    var w7 := ws[6].(devices := map[name := Started(s, cfg, seed)]);
    var w8 := w7.(now := t);
    var before := ws;
    DeviceMoves(s, ws[6], w7, w8, priv, name, seed, m, t);
    var w9 := Act(s, w8, call);
    CallMoves(s, w8, call);
    Grow(s, ws, acts, restart, w7);
    ws, acts := ws + [w7], acts + [restart];
    Grow(s, ws, acts, Tick(t), w8);
    ws, acts := ws + [w8], acts + [Tick(t)];
    Grow(s, ws, acts, call, w9);
    ws, acts := ws + [w9], acts + [call];
    Lengthened(before, ws, licenseId, delay);
    DeliveredTokenIsActive(s, priv, m.token, cfg, seed, t);
    GrantedToDevice(s, ws, acts, 8);
    ViewTimes(m.token);
  }

  lemma SetupFacts(s: Setup, priv: Bytes, token: VerifyToken)
    requires LawfulSetup(s) && priv in s.privs && Representable(token)
    ensures s.leaseTtl > 0 && Lawful(s.go, s.env.js, s.env.ed) && |priv| == PRIVATE_KEY_SIZE
    ensures Int64(token.issuedAt) && -0x8000_0000_0000_0000 <= token.expiresAt < 0x8000_0000_0000_0000
  {}

  lemma OneIdleDevice(name: string)
    ensures Idle(map[name := Device(map[], None)])
  {}

  lemma CallMoves(s: Setup, w: World, a: Action)
    requires Enabled(s, w, a) && a.OnDevice?
    ensures Moves(s, w, a, Act(s, w, a)) && Act(s, w, a).licenses == w.licenses && Act(s, w, a).signed == w.signed
  {
    hide Step, Deliverable, VerifyWithKeyRing;
  }

  lemma GrantedToDevice(s: Setup, ws: seq<World>, acts: seq<Action>, i: nat)
    requires i < |acts| && i < |ws| && acts[i].OnDevice? && acts[i].name in ws[i].devices
    ensures Granted(s, ws, acts, i) == Grant(s.env, ws[i].devices[acts[i].name], acts[i].event)
  {
    hide Grant;
  }

  /** The device starts, time passes, and the token may be delivered to it. */
  lemma DeviceMoves(
      s: Setup, w6: World, w7: World, w8: World, priv: Bytes, name: string, seed: string, m: Mint, t: int)
    requires LawfulSetup(s) && priv in s.privs && name in s.configs && DecodeKeys(s.configs[name], s.env).Ok?
    requires w6.devices == map[name := Device(map[], None)] && w6.signed == {m} && w6.now <= t
    requires w7 == w6.(devices := map[name := Started(s, s.configs[name], seed)]) && w8 == w7.(now := t)
    requires m.pub == s.env.ed.public(priv) && m.token.nonce != "" && OwnKeyOnly(s, priv, m.token)
    ensures Moves(s, w6, OnDevice(name, Restart(seed, StartFaults(false, false, false))), w7) && Moves(s, w7, Tick(t), w8)
    ensures forall clock :: Enabled(s, w8, OnDevice(name, Call(Activate("key", Ok(Written(s, priv, m.token))), clock, CALM)))
  {
    hide VerifyWithKeyRing, Step, Genuine, DecodeKeys, Started, OwnKeyOnly;
    RestartStarts(s, s.configs[name], seed);
    assert w6.devices[name := Started(s, s.configs[name], seed)] == w7.devices;
    SignedIsGenuine(s, priv, m, w8.signed);
  }

  /** Worlds with the same licences and signatures as the last one change neither statement. */
  lemma Lengthened(before: seq<World>, ws: seq<World>, licenseId: string, delay: nat)
    requires |before| == 7 && |ws| == 10 && ws[..7] == before
    requires forall i :: 7 <= i < 10 ==> ws[i].licenses == before[6].licenses && ws[i].signed == before[6].signed
    requires forall lic :: licenseId in before[6].licenses && lic == before[6].licenses[licenseId] ==> lic.status == Service.Revoked
    requires UnusableFrom(before, 4, licenseId) && SignsWithin(before, delay)
    ensures UnusableFrom(ws, 4, licenseId) && SignsWithin(ws, delay)
  {
    assert forall i :: 0 <= i < 7 ==> ws[i] == before[i];
    forall i, m | 0 <= i < |ws| && m in ws[i].signed
      ensures m.token.issuedAt - m.loadedAt <= delay
    {
      if i >= 7 { assert m in before[6].signed; } else { assert m in before[i].signed; }
    }
  }
}
