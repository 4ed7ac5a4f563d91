/** What a granted entitlement and a refreshed lease go back to, over whole runs of the lease protocol. */
module LeaseGrants {
  import opened Wrappers
  import opened Base64Url
  import opened Token
  import opened Lease
  import opened Decimal
  import opened Client
  import opened ClientSafety
  import opened ClientAnswers
  import opened TokenRoundTrip
  import opened TokenAcceptance
  import opened LeaseProtocol
  import Service = LicenseService

  /** Event `i` of the run is a device granting the entitlement. */
  predicate GrantsFeature(s: Setup, ws: seq<World>, acts: seq<Action>, i: nat, feature: string)
    requires i < |acts| && i < |ws|
  {
    && acts[i].OnDevice? && acts[i].name in ws[i].devices
    && acts[i].event.Call? && acts[i].event.request == RequireEntitlement(feature)
    && ws[i].devices[acts[i].name].process.Some?
    && Performed(s.env, ws[i].devices[acts[i].name], acts[i].event).result.Ok?
  }

  /** A device that grants a named entitlement holds a lease that names it. */
  lemma GrantNamesTheFeature(cfg: ClientConfig, env: Env, d: Device, e: Event, feature: string)
    requires DeviceOk(cfg, env, d) && d.process.Some? && e.Call? && e.request == RequireEntitlement(feature)
    requires Performed(env, d, e).result.Ok?
    ensures Grant(env, d, e).Some? && feature in Grant(env, d, e).value.entitlements
  {
    hide EnsureActive, Allowed, Blank;
    RequireExactly(d.process.value, env, d.store, feature, e.clock, e.faults);
    ActiveExactly(d.process.value, env, d.store, e.clock, e.faults);
    GrantedProcess(d.process.value, env, e, d.store, feature);
  }

  lemma GrantedProcess(p: Process, env: Env, e: Event, store: map<string, string>, feature: string)
    requires e.Call? && e.request == RequireEntitlement(feature)
    ensures Perform(p, env, store, e.request, e.clock, e.faults).process.lease == p.lease
  {
    hide EnsureActive;
  }

  /**
   Whenever a device grants an entitlement, the lease behind it was signed by the server and names
   it, and the plan of the licence granted it when the licence was loaded for that signature.
   */
  lemma GrantedFeatureIsOfThePlan(s: Setup, ws: seq<World>, acts: seq<Action>, i: nat, feature: string) returns (loaded: nat, m: Mint)
    requires LawfulSetup(s) && Behaviour(s, ws, acts) && i < |acts| && GrantsFeature(s, ws, acts, i, feature)
    ensures m in ws[i].signed && Granted(s, ws, acts, i) == Some(RustView(m.token)) && feature in m.token.entitlements
    ensures loaded <= i && ws[loaded].now == m.loadedAt <= m.token.issuedAt && m.token.licenseId in ws[loaded].licenses
    ensures acts[i].event.clock.Ok? && acts[i].event.clock.value < m.token.issuedAt + s.leaseTtl
    ensures Service.PlanGrants(ws[loaded].licenses[m.token.licenseId], feature)
  {
    hide Step, Grant, Genuine, VerifyWithKeyRing, MintHasSource, DecodeKeys, Performed, LawfulSetup, Service.PlanGrants, Service.TokenFor;
    var name := acts[i].name;
    assert Enabled(s, ws[i], acts[i]);
    AlwaysSound(s, ws, acts, i);
    GrantNamesTheFeature(s.configs[name], s.env, ws[i].devices[name], acts[i].event, feature);
    m := GrantWasMinted(s, ws, acts, i);
    var enrolled;
    loaded, enrolled := SourceOfMint(s, ws, i, m);
    TokenOfMint(s, ws, i, m);
  }

  /** A signed token names exactly what the plan granted. */
  lemma TokenOfMint(s: Setup, ws: seq<World>, i: nat, m: Mint)
    requires MintHasSource(s, ws, i, m)
    ensures forall feature :: feature in m.token.entitlements <==> Service.PlanGrants(m.lic, feature)
  {
    hide Service.PlanGrants;
    Service.TokenSaysTheLicense(m.lic, m.token.licenseId, m.token.identifier, m.token.keyId, m.token.issuedAt, s.leaseTtl,
                                m.token.nonce, m.token.fingerprint);
  }

  /** From world `r` on the licence is gone or its plan does not grant the feature. */
  ghost predicate UngrantedFrom(ws: seq<World>, r: nat, licenseId: string, feature: string) {
    forall j :: r <= j < |ws| && licenseId in ws[j].licenses ==> !Service.PlanGrants(ws[j].licenses[licenseId], feature)
  }

  /**
   A feature taken out of a plan is granted under no lease of the licence at any clock reading
   from then plus the lease lifetime plus the longest request.
   */
  lemma WithdrawnFeatureIsNowhereGranted(
      s: Setup, ws: seq<World>, acts: seq<Action>, r: nat, i: nat, licenseId: string, feature: string, latency: int)
    requires LawfulSetup(s) && Behaviour(s, ws, acts) && r < |ws| && i < |acts|
    requires UngrantedFrom(ws, r, licenseId, feature) && SignsWithin(ws, latency)
    requires GrantsFeature(s, ws, acts, i, feature) && acts[i].event.clock.Ok?
    requires acts[i].event.clock.value >= ws[r].now + s.leaseTtl + latency
    ensures Granted(s, ws, acts, i).Some? && Granted(s, ws, acts, i).value.licenseId != licenseId
  {
    hide Grant, GrantsFeature, Service.PlanGrants, LawfulSetup;
    var loaded, m := GrantedFeatureIsOfThePlan(s, ws, acts, i, feature);
    if m.token.licenseId == licenseId {
      assert m.token.issuedAt - m.loadedAt <= latency;
      if loaded <= r { ServerTimeAdvances(s, ws, acts, loaded, r); }
    }
  }

  // ---- Refresh over whole runs ----

  function Signatures(signed: set<Mint>): set<(Bytes, VerifyToken)> { set m | m in signed :: (m.pub, m.token) }

  /**
   Whenever a request comes in by an unforged lease, the server has signed that lease, for this
   licence, product and device; and before that the device was active on the licence.
   */
  lemma RefreshGoesBackToAnActivation(s: Setup, ws: seq<World>, acts: seq<Action>, i: nat) returns (enrolled: nat, m: Mint)
    requires LawfulSetup(s) && Behaviour(s, ws, acts) && i < |acts| && acts[i].Load? && acts[i].door.ByLease?
    requires NotForgedForGo(acts[i].door.raw, acts[i].door.ring, Signatures(ws[i].signed), s.go, s.env.ed)
    ensures m in ws[i].signed && m.token.licenseId == acts[i].licenseId
    ensures m.token.identifier == acts[i].device && m.token.productId == acts[i].door.productId
    ensures m.token.issuedAt <= ws[i].now <= m.token.issuedAt + s.leaseTtl || m.token.expiresAt <= 0
    ensures enrolled <= i && ws[enrolled].now == m.enrolledAt <= m.token.issuedAt
    ensures (acts[i].licenseId, acts[i].device) in ws[enrolled].activations
  {
    hide VerifyWithKeyRing, NotForgedForGo, MintHasSource, PendingHasSource, DeviceSound, LawfulGoJson, Representable;
    var door := acts[i].door;
    assert Enabled(s, ws[i], acts[i]);
    AlwaysSound(s, ws, acts, i);
    MintsAreRepresentable(s, ws, i);
    var signed := Signatures(ws[i].signed);
    GoAcceptanceImpliesSigned(door.raw, door.ring, ws[i].now, signed, s.go, s.env.ed);
    var t := VerifyWithKeyRing(door.raw, door.ring, ws[i].now, s.go, s.env.ed).value;
    m :| m in ws[i].signed && (m.pub, m.token) == (door.ring[t.keyId], t);
    var loaded;
    loaded, enrolled := SourceOfMint(s, ws, i, m);
  }
}
