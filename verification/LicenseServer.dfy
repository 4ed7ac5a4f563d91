/**
 The licence service: activation, verification, deactivation, and the refresh and return of a
 lease. A call runs here without interruption and at one instant; each call that mints is a
 run of the steps of the lease protocol.
 */
module LicenseServer {
  import opened Wrappers
  import opened Base64Url
  import opened Token
  import opened TokenRoundTrip
  import opened LeaseProtocol
  import Service = LicenseService

  datatype ServiceError =
    | LockedOut | LicenseNotFound | FeatureNotAvailable
    | LicenseExpired | LicenseCanceled | LicenseSuspended | LicenseRevoked | LicenseInvalid
    | ActivationLimit(max: int, current: nat) | Internal

  /** What the brute-force protection is told. */
  datatype Note = Failure(key: string) | Success(key: string)

  datatype Keys = Keys(
    go: GoJson, ed: Scheme, priv: Bytes, kid: string, ring: map<string, Bytes>, leaseTtl: int,
    fingerprint: (string, string) -> string)

  /** The tables: licences by id, ids by licence key, activations; and what was told to the failure tracker. */
  datatype Db = Db(
    licenses: map<string, Service.License>, keyed: map<string, string>, activations: set<(string, string)>, notes: seq<Note>)

  datatype KeyRequest = KeyRequest(key: string, device: string, productId: string, ip: string)

  datatype LeaseRequest = LeaseRequest(lease: string, productId: string, device: string)

  /**
   What goes wrong around a call: the address is blocked, the licence cannot be read, the
   activation cannot be read, the transaction of an activation fails ahead of its count, a write fails.
   */
  datatype Luck = Luck(blocked: bool, lookupFails: bool, findFails: bool, lockFails: bool, writeFails: bool)

  datatype Granted = Activated(licenseId: string, token: string) | AlreadyActivated(licenseId: string, token: string)

  /** Why a licence is not usable. */
  function Refusal(lic: Service.License, now: int): (r: Option<ServiceError>)
    ensures r.None? <==> Service.Usable(lic, now)
  {
    match lic.status
    case Active | Trialing | PastDue =>
      if lic.validUntil.Some? && now > lic.validUntil.value
         && now > lic.validUntil.value + Service.GraceDays(lic) * Service.DAY
      then Some(LicenseExpired) else None
    case Canceled => if lic.validUntil.Some? && now < lic.validUntil.value then None else Some(LicenseCanceled)
    case Suspended => Some(LicenseSuspended)
    case Revoked => Some(LicenseRevoked)
    case Expired => Some(LicenseExpired)
    case Unknown => Some(LicenseInvalid)
  }

  function Failed(db: Db, req: KeyRequest): Db {
    db.(notes := db.notes + [Failure("key:" + req.key), Failure("ip:" + req.ip)])
  }

  function Succeeded(db: Db, req: KeyRequest): Db {
    db.(notes := db.notes + [Success("key:" + req.key), Success("ip:" + req.ip)])
  }

  /** The licence of a key within the product asked for, if any. */
  function FindByKey(db: Db, req: KeyRequest): Option<string> {
    if req.key in db.keyed && db.keyed[req.key] in db.licenses
       && (req.productId == "" || db.licenses[db.keyed[req.key]].productId == req.productId)
    then Some(db.keyed[req.key]) else None
  }

  function SignFor(k: Keys, lic: Service.License, licenseId: string, device: string, now: int, nonce: Bytes): Result<string, ServiceError> {
    match Sign(Service.TokenFor(lic, licenseId, device, k.kid, now, k.leaseTtl, "", k.fingerprint(device, lic.productId)),
               nonce, k.priv, k.go, k.ed)
    case Ok(raw) => Ok(raw)
    case Err(_) => Err(Internal)
  }

  function Mapped(token: Result<string, ServiceError>, licenseId: string, made: bool): Result<Granted, ServiceError> {
    match token
    case Ok(raw) => Ok(if made then Activated(licenseId, raw) else AlreadyActivated(licenseId, raw))
    case Err(e) => Err(e)
  }

  function Activation(k: Keys, db: Db, req: KeyRequest, luck: Luck, now: int, nonce: Bytes): (Db, Result<Granted, ServiceError>) {
    if luck.blocked then (db, Err(LockedOut))
    else if luck.lookupFails then (db, Err(Internal))
    else if FindByKey(db, req).None? then (Failed(db, req), Err(LicenseNotFound))
    else
      var id := FindByKey(db, req).value;
      var lic := db.licenses[id];
      if !lic.supportsActivation then (db, Err(FeatureNotAvailable))
      else if Refusal(lic, now).Some? then (db, Err(Refusal(lic, now).value))
      else if (id, req.device) in db.activations && !luck.findFails then
        (db, Mapped(SignFor(k, lic, id, req.device, now, nonce), id, false))
      else if luck.lockFails then (db, Err(Internal))
      else if CountFor(db.activations, id) >= Service.MaxActivations(lic) then
        (db, Err(ActivationLimit(Service.MaxActivations(lic), CountFor(db.activations, id))))
      else if luck.writeFails || (id, req.device) in db.activations then (db, Err(Internal))
      else
        (Succeeded(db.(activations := db.activations + {(id, req.device)}), req),
         Mapped(SignFor(k, lic, id, req.device, now, nonce), id, true))
  }

  function Verification(k: Keys, db: Db, req: KeyRequest, luck: Luck, now: int, nonce: Bytes): (Db, Result<string, ServiceError>) {
    if luck.blocked then (db, Err(LockedOut))
    else if luck.lookupFails then (db, Err(Internal))
    else if FindByKey(db, req).None? then (Failed(db, req), Err(LicenseNotFound))
    else
      var id := FindByKey(db, req).value;
      var lic := db.licenses[id];
      if !lic.supportsActivation then (db, Err(FeatureNotAvailable))
      else if Refusal(lic, now).Some? then (Failed(db, req), Err(LicenseNotFound))
      else if luck.findFails || (id, req.device) !in db.activations then (db, Err(LicenseNotFound))
      else (Succeeded(db, req), SignFor(k, lic, id, req.device, now, nonce))
  }

  function Deactivation(db: Db, req: KeyRequest, luck: Luck): (Db, Result<(), ServiceError>) {
    if luck.blocked then (db, Err(LockedOut))
    else if luck.lookupFails then (db, Err(Internal))
    else if FindByKey(db, req).None? then (Failed(db, req), Err(LicenseNotFound))
    else
      var id := FindByKey(db, req).value;
      if !db.licenses[id].supportsActivation then (db, Err(FeatureNotAvailable))
      else if luck.findFails || (id, req.device) !in db.activations then (db, Err(LicenseNotFound))
      else if luck.writeFails then (db, Err(Internal))
      else (Succeeded(db.(activations := db.activations - {(id, req.device)}), req), Ok(()))
  }

  /** The usable licence that a lease is bound to, whatever else being the same not-found. */
  function LicenseFromLease(k: Keys, db: Db, req: LeaseRequest, luck: Luck, now: int): Result<string, ServiceError> {
    var t := VerifyWithKeyRing(req.lease, k.ring, now, k.go, k.ed);
    if t.Err? || t.value.version != 1 || t.value.productId != req.productId || t.value.identifier != req.device then Err(LicenseNotFound)
    else if luck.lookupFails || t.value.licenseId !in db.licenses then Err(LicenseNotFound)
    else if db.licenses[t.value.licenseId].productId != req.productId then Err(LicenseNotFound)
    else if Refusal(db.licenses[t.value.licenseId], now).Some? then Err(LicenseNotFound)
    else Ok(t.value.licenseId)
  }

  function Refreshing(k: Keys, db: Db, req: LeaseRequest, luck: Luck, now: int, nonce: Bytes): Result<string, ServiceError> {
    var id := LicenseFromLease(k, db, req, luck, now);
    if id.Err? then Err(id.error)
    else if luck.findFails || (id.value, req.device) !in db.activations then Err(LicenseNotFound)
    else SignFor(k, db.licenses[id.value], id.value, req.device, now, nonce)
  }

  function Returning(k: Keys, db: Db, req: LeaseRequest, luck: Luck, now: int): (Db, Result<(), ServiceError>) {
    var id := LicenseFromLease(k, db, req, luck, now);
    if id.Err? then (db, Err(id.error))
    else if luck.findFails || (id.value, req.device) !in db.activations then (db, Err(LicenseNotFound))
    else if luck.writeFails then (db, Err(Internal))
    else (db.(activations := db.activations - {(id.value, req.device)}), Ok(()))
  }

  class LicenseService {
    const keys: Keys
    const licenses: map<string, Service.License>
    const keyed: map<string, string>
    var activations: set<(string, string)>
    var notes: seq<Note>

    constructor (keys: Keys, db: Db)
      ensures this.keys == keys && State() == db
    {
      this.keys := keys;
      licenses, keyed, activations, notes := db.licenses, db.keyed, db.activations, db.notes;
    }

    function State(): Db
      reads this
    {
      Db(licenses, keyed, activations, notes)
    }

    method RecordFailures(req: KeyRequest)
      modifies this`notes
      ensures State() == Failed(old(State()), req)
    {
      notes := notes + [Failure("key:" + req.key)];
      notes := notes + [Failure("ip:" + req.ip)];
    }

    method RecordSuccesses(req: KeyRequest)
      modifies this`notes
      ensures State() == Succeeded(old(State()), req)
    {
      notes := notes + [Success("key:" + req.key)];
      notes := notes + [Success("ip:" + req.ip)];
    }

    method ActivateWithinLimit(id: string, device: string, max: int, lockFails: bool, writeFails: bool)
      returns (r: Result<(), ServiceError>)
      modifies this`activations
      ensures r.Ok? <==> CountFor(old(activations), id) < max && !lockFails && !writeFails && (id, device) !in old(activations)
      ensures activations == if r.Ok? then old(activations) + {(id, device)} else old(activations)
      ensures r.Err? ==>
        r.error == (if !lockFails && CountFor(old(activations), id) >= max then ActivationLimit(max, CountFor(old(activations), id))
                    else Internal)
    {
      if lockFails { return Err(Internal); }
      var count := CountFor(activations, id);
      if count >= max { return Err(ActivationLimit(max, count)); }
      if writeFails || (id, device) in activations { return Err(Internal); }
      activations := activations + {(id, device)};
      r := Ok(());
    }

    method Activate(req: KeyRequest, luck: Luck, now: int, nonce: Bytes) returns (r: Result<Granted, ServiceError>)
      modifies this
      ensures (State(), r) == Activation(keys, old(State()), req, luck, now, nonce)
    {
      hide SignFor, CountFor, Refusal;
      if luck.blocked { return Err(LockedOut); }
      if luck.lookupFails { return Err(Internal); }
      if req.key !in keyed || keyed[req.key] !in licenses {
        RecordFailures(req);
        return Err(LicenseNotFound);
      }
      var id := keyed[req.key];
      var lic := licenses[id];
      if req.productId != "" && lic.productId != req.productId {
        RecordFailures(req);
        return Err(LicenseNotFound);
      }
      if !lic.supportsActivation { return Err(FeatureNotAvailable); }
      var refusal := Refusal(lic, now);
      if refusal.Some? { return Err(refusal.value); }
      if !luck.findFails && (id, req.device) in activations {
        return Mapped(SignFor(keys, lic, id, req.device, now, nonce), id, false);
      }
      var added := ActivateWithinLimit(id, req.device, Service.MaxActivations(lic), luck.lockFails, luck.writeFails);
      if added.Err? { return Err(added.error); }
      RecordSuccesses(req);
      r := Mapped(SignFor(keys, lic, id, req.device, now, nonce), id, true);
    }

    method Verify(req: KeyRequest, luck: Luck, now: int, nonce: Bytes) returns (r: Result<string, ServiceError>)
      modifies this
      ensures (State(), r) == Verification(keys, old(State()), req, luck, now, nonce)
    {
      hide SignFor, Refusal;
      if luck.blocked { return Err(LockedOut); }
      if luck.lookupFails { return Err(Internal); }
      if req.key !in keyed || keyed[req.key] !in licenses {
        RecordFailures(req);
        return Err(LicenseNotFound);
      }
      var id := keyed[req.key];
      var lic := licenses[id];
      if req.productId != "" && lic.productId != req.productId {
        RecordFailures(req);
        return Err(LicenseNotFound);
      }
      if !lic.supportsActivation { return Err(FeatureNotAvailable); }
      var refusal := Refusal(lic, now);
      if refusal.Some? {
        RecordFailures(req);
        return Err(LicenseNotFound);
      }
      if luck.findFails || (id, req.device) !in activations { return Err(LicenseNotFound); }
      RecordSuccesses(req);
      r := SignFor(keys, lic, id, req.device, now, nonce);
    }

    method Deactivate(req: KeyRequest, luck: Luck) returns (r: Result<(), ServiceError>)
      modifies this
      ensures (State(), r) == Deactivation(old(State()), req, luck)
    {
      if luck.blocked { return Err(LockedOut); }
      if luck.lookupFails { return Err(Internal); }
      if req.key !in keyed || keyed[req.key] !in licenses {
        RecordFailures(req);
        return Err(LicenseNotFound);
      }
      var id := keyed[req.key];
      if req.productId != "" && licenses[id].productId != req.productId {
        RecordFailures(req);
        return Err(LicenseNotFound);
      }
      if !licenses[id].supportsActivation { return Err(FeatureNotAvailable); }
      if luck.findFails || (id, req.device) !in activations { return Err(LicenseNotFound); }
      if luck.writeFails { return Err(Internal); }
      activations := activations - {(id, req.device)};
      RecordSuccesses(req);
      r := Ok(());
    }

    method RefreshLease(req: LeaseRequest, luck: Luck, now: int, nonce: Bytes) returns (r: Result<string, ServiceError>)
      ensures r == Refreshing(keys, State(), req, luck, now, nonce)
    {
      var id := LicenseFromLease(keys, State(), req, luck, now);
      if id.Err? { return Err(id.error); }
      if luck.findFails || (id.value, req.device) !in activations { return Err(LicenseNotFound); }
      r := SignFor(keys, licenses[id.value], id.value, req.device, now, nonce);
    }

    method DeactivateLease(req: LeaseRequest, luck: Luck, now: int) returns (r: Result<(), ServiceError>)
      modifies this
      ensures (State(), r) == Returning(keys, old(State()), req, luck, now)
    {
      var id := LicenseFromLease(keys, State(), req, luck, now);
      if id.Err? { return Err(id.error); }
      if luck.findFails || (id.value, req.device) !in activations { return Err(LicenseNotFound); }
      if luck.writeFails { return Err(Internal); }
      activations := activations - {(id.value, req.device)};
      r := Ok(());
    }
  }

  // ---- Every call that mints is a run of the protocol ----

  /** A world of the protocol over the same tables, at the instant of the call. */
  ghost predicate Same(s: Setup, w: World, k: Keys, db: Db, now: int) {
    && w.now == now && w.licenses == db.licenses && w.activations == db.activations
    && s.go == k.go && s.env.ed == k.ed && s.leaseTtl == k.leaseTtl && k.priv in s.privs && |k.priv| == PRIVATE_KEY_SIZE
  }

  /** The token of a signature, in the form in which it leaves the server. */
  function Written(k: Keys, m: Mint): string {
    PayloadSegment(m.token, k.go) + "." + Encode(k.ed.sign(k.priv, PayloadSegment(m.token, k.go)))
  }

  /** The actions by which request `r` loads, checks, enrols and signs. */
  function Steps(k: Keys, r: nat, door: Door, id: string, device: string, productId: string, nonce: Bytes): seq<Action> {
    [Load(r, door, id, device), Check(r), Enrol(r), SignLease(r, k.kid, k.priv, Encode(nonce), k.fingerprint(device, productId))]
  }

  /** Actions enabled one after the other from `w`, and the world they lead to. */
  ghost predicate Leads(s: Setup, w: World, acts: seq<Action>, w': World)
    decreases |acts|
  {
    if |acts| == 0 then w' == w
    else Enabled(s, w, acts[0]) && Leads(s, Act(s, w, acts[0]), acts[1..], w')
  }

  /** One minting call as four steps of the protocol. */
  lemma MintingIsARun(s: Setup, w: World, k: Keys, db: Db, now: int, r: nat, door: Door, id: string, device: string, nonce: Bytes)
      returns (w': World, m: Mint)
    requires Same(s, w, k, db, now) && r !in w.pending && id in db.licenses && DoorOpens(s, w, door, id, device)
    requires Service.Usable(db.licenses[id], now)
    requires (id, device) in db.activations
      || (door.ByKey? && door.creates && CountFor(db.activations, id) < Service.MaxActivations(db.licenses[id]))
    requires nonce != [] && Representable(Service.TokenFor(db.licenses[id], id, device, k.kid, now, k.leaseTtl, "", ""))
    ensures Leads(s, w, Steps(k, r, door, id, device, db.licenses[id].productId, nonce), w')
    ensures w'.activations == db.activations + {(id, device)} && w'.signed == w.signed + {m} && w'.pending == w.pending
    ensures w'.licenses == w.licenses && w'.devices == w.devices && w'.now == now
    ensures SignFor(k, db.licenses[id], id, device, now, nonce) == Ok(Written(k, m))
    ensures m.token.licenseId == id && m.token.identifier == device && m.token.productId == db.licenses[id].productId
  {
    hide VerifyWithKeyRing, Service.EntitlementNames, Service.Usable, CountFor, DoorOpens, Encode, Representable, Leads;
    EncodeIsNotEmpty(nonce);
    var lic := db.licenses[id];
    var acts := Steps(k, r, door, id, device, lic.productId, nonce);
    var w1 := Act(s, w, acts[0]);
    var w2 := Act(s, w1, acts[1]);
    var w3 := Act(s, w2, acts[2]);
    var p := Pending(door, id, device, lic, now, Some(now), Some(now));
    assert w3.pending == w.pending[r := p];
    m := MintOf(s, w3, p, k.kid, k.priv, Encode(nonce), k.fingerprint(device, lic.productId));
    RepresentableByNumbers(m.token, Service.TokenFor(lic, id, device, k.kid, now, k.leaseTtl, "", ""));
    w' := Act(s, w3, acts[3]);
    assert w'.pending == w.pending;
    FourSteps(s, w, acts, w1, w2, w3, w');
  }

  lemma FourSteps(s: Setup, w: World, acts: seq<Action>, w1: World, w2: World, w3: World, w4: World)
    requires |acts| == 4
    requires Enabled(s, w, acts[0]) && w1 == Act(s, w, acts[0])
    requires Enabled(s, w1, acts[1]) && w2 == Act(s, w1, acts[1])
    requires Enabled(s, w2, acts[2]) && w3 == Act(s, w2, acts[2])
    requires Enabled(s, w3, acts[3]) && w4 == Act(s, w3, acts[3])
    ensures Leads(s, w, acts, w4)
  {
    hide Enabled, Act;
    assert acts[1..][1..] == acts[2..] && acts[2..][1..] == acts[3..] && acts[3..][1..] == [];
    assert Leads(s, w3, acts[3..], w4);
    assert Leads(s, w2, acts[2..], w4);
    assert Leads(s, w1, acts[1..], w4);
  }

  lemma EncodeIsNotEmpty(b: seq<Byte>)
    requires b != []
    ensures Encode(b) != ""
  {}

  /** A successful activation is a run of the protocol that makes this activation and signs the token returned. */
  lemma ActivationIsARun(s: Setup, w: World, k: Keys, db: Db, req: KeyRequest, luck: Luck, now: int, nonce: Bytes, r: nat)
      returns (id: string, w': World, m: Mint)
    requires Same(s, w, k, db, now) && r !in w.pending && nonce != []
    requires Activation(k, db, req, luck, now, nonce).1.Ok?
    requires forall i :: i in db.licenses ==>
      Representable(Service.TokenFor(db.licenses[i], i, req.device, k.kid, now, k.leaseTtl, "", ""))
    ensures id in db.licenses && FindByKey(db, req) == Some(id)
    ensures Leads(s, w, Steps(k, r, ByKey(true, req.productId), id, req.device, db.licenses[id].productId, nonce), w')
    ensures w'.activations == Activation(k, db, req, luck, now, nonce).0.activations && w'.signed == w.signed + {m}
    ensures Activation(k, db, req, luck, now, nonce).1.value.token == Written(k, m)
  {
    hide VerifyWithKeyRing, Service.EntitlementNames, Service.Usable, CountFor, SignFor, Leads, Steps, Written, Refusal;
    id := FindByKey(db, req).value;
    assert DoorOpens(s, w, ByKey(true, req.productId), id, req.device);
    w', m := MintingIsARun(s, w, k, db, now, r, ByKey(true, req.productId), id, req.device, nonce);
  }

  /** A successful verification is a run that signs the token returned and changes no activation. */
  lemma VerificationIsARun(s: Setup, w: World, k: Keys, db: Db, req: KeyRequest, luck: Luck, now: int, nonce: Bytes, r: nat)
      returns (id: string, w': World, m: Mint)
    requires Same(s, w, k, db, now) && r !in w.pending && nonce != []
    requires Verification(k, db, req, luck, now, nonce).1.Ok?
    requires forall i :: i in db.licenses ==>
      Representable(Service.TokenFor(db.licenses[i], i, req.device, k.kid, now, k.leaseTtl, "", ""))
    ensures id in db.licenses && FindByKey(db, req) == Some(id)
    ensures Leads(s, w, Steps(k, r, ByKey(false, req.productId), id, req.device, db.licenses[id].productId, nonce), w')
    ensures w'.activations == db.activations && w'.signed == w.signed + {m}
    ensures Verification(k, db, req, luck, now, nonce).1 == Ok(Written(k, m))
  {
    hide VerifyWithKeyRing, Service.EntitlementNames, Service.Usable, CountFor, SignFor, Leads, Steps, Written, Refusal;
    id := FindByKey(db, req).value;
    assert DoorOpens(s, w, ByKey(false, req.productId), id, req.device);
    w', m := MintingIsARun(s, w, k, db, now, r, ByKey(false, req.productId), id, req.device, nonce);
    assert w'.activations == db.activations;
  }

  /** A successful refresh is a run that signs the token returned and changes no activation. */
  lemma RefreshIsARun(s: Setup, w: World, k: Keys, db: Db, req: LeaseRequest, luck: Luck, now: int, nonce: Bytes, r: nat)
      returns (id: string, w': World, m: Mint)
    requires Same(s, w, k, db, now) && r !in w.pending && nonce != []
    requires Refreshing(k, db, req, luck, now, nonce).Ok?
    requires forall i :: i in db.licenses ==>
      Representable(Service.TokenFor(db.licenses[i], i, req.device, k.kid, now, k.leaseTtl, "", ""))
    ensures id in db.licenses && db.licenses[id].productId == req.productId
    ensures Leads(s, w, Steps(k, r, ByLease(req.lease, req.productId, k.ring), id, req.device, req.productId, nonce), w')
    ensures w'.activations == db.activations && w'.signed == w.signed + {m}
    ensures Refreshing(k, db, req, luck, now, nonce) == Ok(Written(k, m))
  {
    hide VerifyWithKeyRing, Service.EntitlementNames, Service.Usable, CountFor, SignFor, Leads, Steps, Written, Refusal;
    id := LicenseFromLease(k, db, req, luck, now).value;
    assert DoorOpens(s, w, ByLease(req.lease, req.productId, k.ring), id, req.device);
    w', m := MintingIsARun(s, w, k, db, now, r, ByLease(req.lease, req.productId, k.ring), id, req.device, nonce);
    assert w'.activations == db.activations;
  }

  // ---- Leases open what they were minted for ----

  /** The service's own key is in the ring under its name. */
  ghost predicate Ready(k: Keys) {
    && LawfulGoJson(k.go) && LawfulScheme(k.ed) && |k.priv| == PRIVATE_KEY_SIZE
    && k.kid != "" && k.kid in k.ring && k.ring[k.kid] == k.ed.public(k.priv)
  }

  /** A token just minted leads back to its licence as long as it has not expired and the licence stays usable. */
  lemma MintedLeaseOpensItsLicense(
      k: Keys, db: Db, id: string, device: string, minted: int, nonce: Bytes, raw: string, later: int, luck: Luck)
    requires Ready(k) && id in db.licenses && SignFor(k, db.licenses[id], id, device, minted, nonce) == Ok(raw)
    requires Representable(Service.TokenFor(db.licenses[id], id, device, k.kid, minted, k.leaseTtl, "", ""))
    requires !luck.lookupFails
    ensures LicenseFromLease(k, db, LeaseRequest(raw, db.licenses[id].productId, device), luck, later)
         == if (later <= minted + k.leaseTtl || minted + k.leaseTtl <= 0) && Service.Usable(db.licenses[id], later) then Ok(id) else Err(LicenseNotFound)
  {
    hide Sign, VerifyWithKeyRing, Service.EntitlementNames, Service.Usable, Refusal, Representable;
    var lic := db.licenses[id];
    var t := Service.TokenFor(lic, id, device, k.kid, minted, k.leaseTtl, "", k.fingerprint(device, lic.productId));
    RepresentableByNumbers(t, Service.TokenFor(lic, id, device, k.kid, minted, k.leaseTtl, "", ""));
    GoVerifiesWhatGoSigned(t, nonce, k.priv, k.ring, later, k.go, k.ed);
  }

  lemma RepresentableByNumbers(t: VerifyToken, u: VerifyToken)
    requires Representable(u) && t.version == u.version && t.issuedAt == u.issuedAt && t.expiresAt == u.expiresAt && t.graceDays == u.graceDays
    ensures Representable(t)
  {}

  /** Returning a lease undoes the activation that minted it: the activations are as before. */
  lemma ReturningUndoesActivation(k: Keys, db: Db, req: KeyRequest, luck: Luck, now: int, nonce: Bytes, later: int, calm: Luck)
    requires Ready(k) && !calm.lookupFails && !calm.findFails && !calm.writeFails
    requires Activation(k, db, req, luck, now, nonce).1.Ok? && Activation(k, db, req, luck, now, nonce).1.value.Activated?
    requires now <= later <= now + k.leaseTtl
    requires forall i :: i in db.licenses ==>
      Representable(Service.TokenFor(db.licenses[i], i, req.device, k.kid, now, k.leaseTtl, "", ""))
    requires FindByKey(db, req).Some? ==> Service.Usable(db.licenses[FindByKey(db, req).value], later)
    ensures
      var after := Activation(k, db, req, luck, now, nonce);
      var id := after.1.value.licenseId;
      && id in db.licenses
      && var back := Returning(k, after.0, LeaseRequest(after.1.value.token, db.licenses[id].productId, req.device), calm, later);
         back.1 == Ok(()) && back.0.activations == db.activations
  {
    hide SignFor, VerifyWithKeyRing, LicenseFromLease, Service.TokenFor, CountFor, Service.Usable, Refusal;
    var after := Activation(k, db, req, luck, now, nonce);
    var id := after.1.value.licenseId;
    MintedLeaseOpensItsLicense(k, after.0, id, req.device, now, nonce, after.1.value.token, later, calm);
    assert after.0.activations - {(id, req.device)} == db.activations;
  }

  // ---- The activation limit ----

  lemma CountOfOneMore(activations: set<(string, string)>, id: string, device: string, other: string)
    requires (id, device) !in activations
    ensures CountFor(activations + {(id, device)}, other) == CountFor(activations, other) + if other == id then 1 else 0
  {
    var mine := set a | a in activations && a.0 == other;
    var more := set a | a in activations + {(id, device)} && a.0 == other;
    if other == id {
      assert more == mine + {(id, device)};
    } else {
      assert more == mine;
    }
  }

  /** An activation never takes a licence over the limit of its plan, and leaves the activations of every other licence alone. */
  lemma ActivationStaysWithinLimit(k: Keys, db: Db, req: KeyRequest, luck: Luck, now: int, nonce: Bytes, id: string)
    requires id in db.licenses
    ensures
      var after := Activation(k, db, req, luck, now, nonce).0;
      && CountFor(db.activations, id) <= CountFor(after.activations, id)
      && (CountFor(after.activations, id) > CountFor(db.activations, id) ==>
            FindByKey(db, req) == Some(id) && CountFor(after.activations, id) <= Service.MaxActivations(db.licenses[id]))
      && (FindByKey(db, req) != Some(id) ==> forall device :: (id, device) in after.activations <==> (id, device) in db.activations)
  {
    hide SignFor, Refusal, CountFor;
    var after := Activation(k, db, req, luck, now, nonce).0;
    if after.activations != db.activations {
      CountOfOneMore(db.activations, FindByKey(db, req).value, req.device, id);
    }
  }

  // ---- Deactivation ----

  /** A deactivation that succeeds removes exactly the activation of this device; one that fails removes nothing. */
  lemma DeactivationMeaning(db: Db, req: KeyRequest, luck: Luck)
    ensures
      var (after, r) := Deactivation(db, req, luck);
      && after.licenses == db.licenses && after.keyed == db.keyed
      && (r.Err? ==> after.activations == db.activations)
      && (r.Ok? ==>
            && FindByKey(db, req).Some? && (FindByKey(db, req).value, req.device) in db.activations
            && forall a :: a in after.activations <==> a in db.activations && a != (FindByKey(db, req).value, req.device))
  {}

  /** After a deactivation, by key or by lease, the device is not found: neither verified nor given a new lease. */
  lemma DeactivatedDeviceIsNotFound(
      k: Keys, db: Db, req: KeyRequest, luck: Luck, now: int, nonce: Bytes, again: KeyRequest, lease: LeaseRequest, calm: Luck)
    requires Deactivation(db, req, luck).1.Ok? && !calm.blocked && !calm.lookupFails
    requires FindByKey(db, again) == FindByKey(db, req) && again.device == lease.device == req.device
    ensures
      var after := Deactivation(db, req, luck).0;
      && Verification(k, after, again, calm, now, nonce).1 == Err(LicenseNotFound)
      && (LicenseFromLease(k, after, lease, calm, now) == Ok(FindByKey(db, req).value) ==>
            Refreshing(k, after, lease, calm, now, nonce) == Err(LicenseNotFound)
            && Returning(k, after, lease, calm, now).1 == Err(LicenseNotFound))
  {
    hide SignFor, LicenseFromLease, Refusal;
  }

  const CALM := Luck(false, false, false, false, false)

  /** Deactivation undoes the activation of a new device. */
  lemma DeactivationUndoesActivation(k: Keys, db: Db, req: KeyRequest, luck: Luck, now: int, nonce: Bytes)
    requires Activation(k, db, req, luck, now, nonce).1.Ok? && Activation(k, db, req, luck, now, nonce).1.value.Activated?
    ensures
      var after := Activation(k, db, req, luck, now, nonce).0;
      Deactivation(after, req, CALM).1 == Ok(()) && Deactivation(after, req, CALM).0.activations == db.activations
  {
    hide SignFor, Refusal, CountFor;
    var after := Activation(k, db, req, luck, now, nonce).0;
    assert after.activations - {(FindByKey(db, req).value, req.device)} == db.activations;
  }

  /** Activation undoes a deactivation, exactly while the licence is usable and its plan has room for what there was. */
  lemma ActivationUndoesDeactivation(k: Keys, db: Db, req: KeyRequest, luck: Luck, now: int, nonce: Bytes)
    requires Deactivation(db, req, luck).1.Ok? && |k.priv| == PRIVATE_KEY_SIZE
    ensures
      var after := Deactivation(db, req, luck).0;
      var id := FindByKey(db, req).value;
      var again := Activation(k, after, req, CALM, now, nonce);
      && id in db.licenses
      && (again.1.Ok? <==> Service.Usable(db.licenses[id], now) && CountFor(db.activations, id) <= Service.MaxActivations(db.licenses[id]))
      && (again.1.Ok? ==> again.1.value.Activated? && again.0.activations == db.activations)
  {
    hide CountFor, PayloadSegment, Encode, Service.TokenFor;
    var after := Deactivation(db, req, luck).0;
    var id := FindByKey(db, req).value;
    CountOfOneMore(after.activations, id, req.device, id);
    assert after.activations + {(id, req.device)} == db.activations;
  }

  /**
   Exactly when verification answers something else than a token or not-found, the address
   blocked and the store failing aside: the key is of a product without activation, or the
   token cannot be signed.
   */
  lemma VerificationAnswers(k: Keys, db: Db, req: KeyRequest, luck: Luck, now: int, nonce: Bytes)
    requires !luck.blocked && !luck.lookupFails
    ensures
      var r := Verification(k, db, req, luck, now, nonce).1;
      && (r == Err(FeatureNotAvailable) <==> FindByKey(db, req).Some? && !db.licenses[FindByKey(db, req).value].supportsActivation)
      && (r.Err? && |k.priv| == PRIVATE_KEY_SIZE && r.error != FeatureNotAvailable ==> r.error == LicenseNotFound)
      && (r.Ok? <==> (
            && |k.priv| == PRIVATE_KEY_SIZE && FindByKey(db, req).Some? && !luck.findFails
            && db.licenses[FindByKey(db, req).value].supportsActivation
            && Service.Usable(db.licenses[FindByKey(db, req).value], now)
            && (FindByKey(db, req).value, req.device) in db.activations))
  {}
}
