/** What the calls of the licence service promise: when each succeeds, what it refuses, and the activation limit over whole runs. */
module ServerLaws {
  import opened Wrappers
  import opened Base64Url
  import opened Token
  import opened TokenRoundTrip
  import opened TokenAcceptance
  import opened LeaseProtocol
  import opened LicenseServer
  import Service = LicenseService

  // ---- Licences and their refusals ----

  /** The reason that an unusable licence is refused for. */
  lemma RefusalNamesTheState(lic: Service.License, now: int)
    ensures Refusal(lic, now).Some? ==>
      Refusal(lic, now).value ==
        match lic.status
        case Active | Trialing | PastDue | Expired => LicenseExpired
        case Canceled => LicenseCanceled
        case Suspended => LicenseSuspended
        case Revoked => LicenseRevoked
        case Unknown => LicenseInvalid
  {}

  /** The key is that of a licence, of the product asked for if one is named. */
  predicate KeyOpens(db: Db, req: KeyRequest, id: string) {
    && req.key in db.keyed && db.keyed[req.key] == id && id in db.licenses
    && (req.productId != "" ==> db.licenses[id].productId == req.productId)
  }

  predicate KeyOpensNothing(db: Db, req: KeyRequest) { forall id :: id in db.licenses ==> !KeyOpens(db, req, id) }

  /** The most devices that may be active at once: the plan says so, and without a plan it is one. */
  function Places(lic: Service.License): int {
    match lic.plan
    case None => 1
    case Some(plan) => plan.maxActivations
  }

  // ---- Activation ----

  /**
   Activation of a key that opens a licence, the address not blocked and the licence readable:
   it gives a token if and only if the product has activations, the licence is usable, the
   token can be signed, and the device is active already or there is room for it and the
   store keeps it; the activation limit is named exactly when there is no room.
   */
  lemma ActivationExactly(k: Keys, db: Db, req: KeyRequest, luck: Luck, now: int, nonce: Bytes, id: string)
    requires KeyOpens(db, req, id) && !luck.blocked && !luck.lookupFails
    ensures
      var (after, r) := Activation(k, db, req, luck, now, nonce);
      var lic := db.licenses[id];
      var found := (id, req.device) in db.activations && !luck.findFails;
      var room := CountFor(db.activations, id) < Places(lic);
      && (r == Err(FeatureNotAvailable) <==> !lic.supportsActivation)
      && (lic.supportsActivation && !Service.Usable(lic, now) ==> r.Err? && Some(r.error) == Refusal(lic, now))
      && (lic.supportsActivation && Service.Usable(lic, now) ==>
            && (r.Ok? <==> |k.priv| == 64 && (found || (room && !luck.lockFails && !luck.writeFails && (id, req.device) !in db.activations)))
            && (r == Err(ActivationLimit(Places(lic), CountFor(db.activations, id))) <==> !found && !luck.lockFails && !room)
            && (r.Err? ==> r.error == Internal || r.error == ActivationLimit(Places(lic), CountFor(db.activations, id)))
            && (r.Ok? ==> r.value.licenseId == id && (r.value.AlreadyActivated? <==> found)))
      && after.licenses == db.licenses && after.keyed == db.keyed
      && (r.Ok? ==> after.activations == db.activations + {(id, req.device)})
  {
    hide CountFor, Service.TokenFor, PayloadSegment, Encode, Service.Usable;
    if (id, req.device) in db.activations {
      assert db.activations + {(id, req.device)} == db.activations;
    }
  }

  /** A key that opens nothing, a blocked address and an unreadable table are told apart, and change no activation. */
  lemma KeyRefusedExactly(k: Keys, db: Db, req: KeyRequest, luck: Luck, now: int, nonce: Bytes)
    ensures
      var a := Activation(k, db, req, luck, now, nonce);
      var v := Verification(k, db, req, luck, now, nonce);
      var d := Deactivation(db, req, luck);
      && (luck.blocked ==> a == (db, Err(LockedOut)) && v == (db, Err(LockedOut)) && d == (db, Err(LockedOut)))
      && (!luck.blocked && luck.lookupFails ==> a == (db, Err(Internal)) && v == (db, Err(Internal)) && d == (db, Err(Internal)))
      && (!luck.blocked && !luck.lookupFails && KeyOpensNothing(db, req) ==>
            && a.1 == Err(LicenseNotFound) && v.1 == Err(LicenseNotFound) && d.1 == Err(LicenseNotFound)
            && a.0.activations == v.0.activations == d.0.activations == db.activations)
  {
    if FindByKey(db, req).Some? { assert KeyOpens(db, req, FindByKey(db, req).value); }
  }

  /** Deactivation by key succeeds if and only if the device is active and the store answers. */
  lemma DeactivationExactly(db: Db, req: KeyRequest, luck: Luck, id: string)
    requires KeyOpens(db, req, id) && !luck.blocked && !luck.lookupFails
    ensures
      var r := Deactivation(db, req, luck).1;
      && (r == Err(FeatureNotAvailable) <==> !db.licenses[id].supportsActivation)
      && (db.licenses[id].supportsActivation ==>
            && (r == Err(LicenseNotFound) <==> luck.findFails || (id, req.device) !in db.activations)
            && (r == Ok(()) <==> (id, req.device) in db.activations && !luck.findFails && !luck.writeFails))
  {}

  // ---- What the failure tracker hears ----

  /** The key opens a licence of a product with activations. */
  predicate KeyOpensFor(db: Db, req: KeyRequest, id: string) { KeyOpens(db, req, id) && db.licenses[id].supportsActivation }

  function Both(req: KeyRequest, success: bool): seq<Note> {
    if success then [Success("key:" + req.key), Success("ip:" + req.ip)] else [Failure("key:" + req.key), Failure("ip:" + req.ip)]
  }

  /**
   A failure is recorded, for key and address, exactly when the key opens nothing, and by a
   verification also for a licence that is not usable; a success exactly when a device is
   newly activated, verified or removed; nothing else is recorded.
   */
  lemma TrackerIsTold(k: Keys, db: Db, req: KeyRequest, luck: Luck, now: int, nonce: Bytes)
    ensures
      var (a, ra) := Activation(k, db, req, luck, now, nonce);
      var (v, rv) := Verification(k, db, req, luck, now, nonce);
      var (d, rd) := Deactivation(db, req, luck);
      var answered := !luck.blocked && !luck.lookupFails;
      var unknown := answered && KeyOpensNothing(db, req);
      var refused := answered && exists id :: KeyOpensFor(db, req, id) && !Service.Usable(db.licenses[id], now);
      var shown := answered && !luck.findFails
        && exists id :: KeyOpensFor(db, req, id) && Service.Usable(db.licenses[id], now) && (id, req.device) in db.activations;
      && a.notes == db.notes + (if unknown then Both(req, false) else if a.activations != db.activations then Both(req, true) else [])
      && v.notes == db.notes + (if unknown || refused then Both(req, false) else if shown then Both(req, true) else [])
      && d.notes == db.notes + (if unknown then Both(req, false) else if rd.Ok? then Both(req, true) else [])
  {
    hide CountFor, SignFor, Service.Usable;
    if FindByKey(db, req).Some? {
      var id := FindByKey(db, req).value;
      assert KeyOpens(db, req, id);
      assert forall other :: KeyOpens(db, req, other) ==> other == id;
      var a := Activation(k, db, req, luck, now, nonce);
      if a.0.activations != db.activations { assert a.0.activations == db.activations + {(id, req.device)}; }
    }
  }

  // ---- Refresh and return ----

  /** The token is bound to what the request says, and its licence is usable, with this device active. */
  predicate LeaseOpens(db: Db, req: LeaseRequest, luck: Luck, now: int, t: VerifyToken) {
    && t.version == 1 && t.productId == req.productId && t.identifier == req.device
    && !luck.lookupFails && t.licenseId in db.licenses && db.licenses[t.licenseId].productId == req.productId
    && Service.Usable(db.licenses[t.licenseId], now)
    && !luck.findFails && (t.licenseId, req.device) in db.activations
  }

  /** A string that does not verify is not found, by refresh and return alike. */
  lemma UnverifiedLeaseIsNotFound(k: Keys, db: Db, req: LeaseRequest, luck: Luck, now: int, nonce: Bytes)
    requires VerifyWithKeyRing(req.lease, k.ring, now, k.go, k.ed).Err?
    ensures Refreshing(k, db, req, luck, now, nonce) == Err(LicenseNotFound)
    ensures Returning(k, db, req, luck, now) == (db, Err(LicenseNotFound))
  {
    hide VerifyWithKeyRing;
  }

  /**
   A refresh with a lease that verifies succeeds if and only if the lease opens a usable licence
   with this device active and the service can sign; what it gives is then read back as a token of
   the same licence, product and device, issued now.
   */
  lemma RefreshExactly(k: Keys, db: Db, req: LeaseRequest, luck: Luck, now: int, nonce: Bytes, t: VerifyToken)
    requires VerifyWithKeyRing(req.lease, k.ring, now, k.go, k.ed) == Ok(t)
    ensures
      var r := Refreshing(k, db, req, luck, now, nonce);
      && (r.Ok? <==> LeaseOpens(db, req, luck, now, t) && |k.priv| == 64)
      && (r.Err? ==> r.error == if LeaseOpens(db, req, luck, now, t) then Internal else LicenseNotFound)
  {
    hide VerifyWithKeyRing, Service.Usable, Service.TokenFor, PayloadSegment, Encode;
  }

  /** The token of a refresh is again one of this licence, product and device, for a whole lifetime from now. */
  lemma RefreshedLeaseReadsBack(k: Keys, db: Db, req: LeaseRequest, luck: Luck, now: int, nonce: Bytes, t: VerifyToken, later: int)
    requires Ready(k) && VerifyWithKeyRing(req.lease, k.ring, now, k.go, k.ed) == Ok(t) && LeaseOpens(db, req, luck, now, t)
    requires Representable(Service.TokenFor(db.licenses[t.licenseId], t.licenseId, req.device, k.kid, now, k.leaseTtl, "", ""))
    requires now <= later <= now + k.leaseTtl
    ensures
      var r := Refreshing(k, db, req, luck, now, nonce);
      && r.Ok?
      && var again := VerifyWithKeyRing(r.value, k.ring, later, k.go, k.ed);
      && again.Ok? && again.value.licenseId == t.licenseId && again.value.productId == t.productId
      && again.value.identifier == t.identifier && again.value.issuedAt == now && again.value.expiresAt == now + k.leaseTtl
      && forall feature :: feature in again.value.entitlements <==> Service.PlanGrants(db.licenses[t.licenseId], feature)
  {
    hide VerifyWithKeyRing, Service.Usable, Service.EntitlementNames, Sign, Encode, Representable, Service.PlanGrants;
    RefreshExactly(k, db, req, luck, now, nonce, t);
    var lic := db.licenses[t.licenseId];
    var fresh' := Service.TokenFor(lic, t.licenseId, req.device, k.kid, now, k.leaseTtl, "", k.fingerprint(req.device, lic.productId));
    RepresentableByNumbers(fresh', Service.TokenFor(lic, t.licenseId, req.device, k.kid, now, k.leaseTtl, "", ""));
    GoVerifiesWhatGoSigned(fresh', nonce, k.priv, k.ring, later, k.go, k.ed);
    Service.TokenSaysTheLicense(lic, t.licenseId, req.device, k.kid, now, k.leaseTtl, "", k.fingerprint(req.device, lic.productId));
  }

  /** Returning a lease that verifies removes this one activation, if and only if the lease opens and the store answers. */
  lemma ReturnExactly(k: Keys, db: Db, req: LeaseRequest, luck: Luck, now: int, t: VerifyToken)
    requires VerifyWithKeyRing(req.lease, k.ring, now, k.go, k.ed) == Ok(t)
    ensures
      var (after, r) := Returning(k, db, req, luck, now);
      && (r == Ok(()) <==> LeaseOpens(db, req, luck, now, t) && !luck.writeFails)
      && (r.Err? ==> r.error == (if LeaseOpens(db, req, luck, now, t) then Internal else LicenseNotFound) && after == db)
      && after == db.(activations := after.activations)
      && (r.Ok? ==> forall a :: a in after.activations <==> a in db.activations && a != (t.licenseId, req.device))
  {
    hide VerifyWithKeyRing, Service.Usable;
  }

  /**
   Over unforged strings a lease is refreshed or returned only if the server signed, with the key
   that it names, a token for this licence, product and device that has not expired.
   */
  lemma OnlySignedLeasesOpen(
      k: Keys, db: Db, req: LeaseRequest, luck: Luck, now: int, nonce: Bytes, signed: set<(Bytes, VerifyToken)>) returns (t: VerifyToken)
    requires LawfulGoJson(k.go) && forall s :: s in signed ==> Representable(s.1)
    requires NotForgedForGo(req.lease, k.ring, signed, k.go, k.ed)
    requires Refreshing(k, db, req, luck, now, nonce).Ok? || Returning(k, db, req, luck, now).1.Ok?
    ensures t.keyId in k.ring && (k.ring[t.keyId], t) in signed
    ensures t.productId == req.productId && t.identifier == req.device && (t.expiresAt <= 0 || now <= t.expiresAt)
    ensures t.licenseId in db.licenses && (t.licenseId, req.device) in db.activations
    ensures Returning(k, db, req, luck, now).1.Ok? ==>
              db.activations - Returning(k, db, req, luck, now).0.activations == {(t.licenseId, req.device)}
  {
    hide VerifyWithKeyRing, Service.Usable, SignFor, NotForgedForGo, LawfulGoJson;
    t := VerifyWithKeyRing(req.lease, k.ring, now, k.go, k.ed).value;
    GoAcceptanceImpliesSigned(req.lease, k.ring, now, signed, k.go, k.ed);
  }

  // ---- The limit over whole runs ----

  datatype Call =
    | Activate(req: KeyRequest)
    | Verify(req: KeyRequest)
    | Deactivate(req: KeyRequest)
    | Refresh(lease: LeaseRequest)
    | Return(lease: LeaseRequest)

  function Serve(k: Keys, db: Db, call: Call, luck: Luck, now: int, nonce: Bytes): Db {
    match call
    case Activate(req) => Activation(k, db, req, luck, now, nonce).0
    case Verify(req) => Verification(k, db, req, luck, now, nonce).0
    case Deactivate(req) => Deactivation(db, req, luck).0
    case Refresh(_) => db
    case Return(req) => Returning(k, db, req, luck, now).0
  }

  datatype Turn = Turn(call: Call, luck: Luck, now: int, nonce: Bytes)

  function ServeAll(k: Keys, db: Db, turns: seq<Turn>): Db {
    if |turns| == 0 then db
    else
      var t := turns[|turns| - 1];
      Serve(k, ServeAll(k, db, turns[..|turns| - 1]), t.call, t.luck, t.now, t.nonce)
  }

  /** No licence has more devices than its plan has places. */
  predicate WithinLimits(db: Db) {
    forall id :: id in db.licenses ==> CountFor(db.activations, id) == 0 || CountFor(db.activations, id) <= Places(db.licenses[id])
  }

  lemma FewerAreFewer(fewer: set<(string, string)>, more: set<(string, string)>, id: string)
    requires fewer <= more
    ensures CountFor(fewer, id) <= CountFor(more, id)
  {
    var a, b := set x | x in fewer && x.0 == id, set x | x in more && x.0 == id;
    assert a <= b;
    assert b == a + (b - a);
  }

  lemma CallKeepsLimits(k: Keys, db: Db, turn: Turn)
    requires WithinLimits(db)
    ensures WithinLimits(Serve(k, db, turn.call, turn.luck, turn.now, turn.nonce))
    ensures Serve(k, db, turn.call, turn.luck, turn.now, turn.nonce).licenses == db.licenses
  {
    hide CountFor, SignFor, Service.Usable, VerifyWithKeyRing, Refusal, LicenseFromLease;
    var after := Serve(k, db, turn.call, turn.luck, turn.now, turn.nonce);
    forall id | id in after.licenses
      ensures CountFor(after.activations, id) == 0 || CountFor(after.activations, id) <= Places(db.licenses[id])
    {
      if turn.call.Activate? {
        ActivationStaysWithinLimit(k, db, turn.call.req, turn.luck, turn.now, turn.nonce, id);
      } else {
        FewerAreFewer(after.activations, db.activations, id);
      }
    }
  }

  /** Whatever is called, in whatever order and with whatever failures: no licence ever has more devices than places. */
  lemma {:induction false} LimitHoldsOverRuns(k: Keys, db: Db, turns: seq<Turn>, id: string)
    requires WithinLimits(db) && id in db.licenses
    ensures WithinLimits(ServeAll(k, db, turns)) && ServeAll(k, db, turns).licenses == db.licenses
    ensures
      var count := CountFor(ServeAll(k, db, turns).activations, id);
      count == 0 || match db.licenses[id].plan case None => count == 1 case Some(plan) => count <= plan.maxActivations
  {
    hide WithinLimits, CountFor, Serve;
    if |turns| > 0 {
      LimitHoldsOverRuns(k, db, turns[..|turns| - 1], id);
      CallKeepsLimits(k, ServeAll(k, db, turns[..|turns| - 1]), turns[|turns| - 1]);
    }
    LimitOfOne(ServeAll(k, db, turns), id);
  }

  lemma LimitOfOne(db: Db, id: string)
    requires WithinLimits(db) && id in db.licenses
    ensures CountFor(db.activations, id) == 0 || CountFor(db.activations, id) <= Places(db.licenses[id])
  {}
}
