/** Licences on the server: when one is usable, and what a minted lease says about it. */
module LicenseService {
  import opened Wrappers
  import opened Token

  datatype LifecycleStatus = Active | Trialing | PastDue | Canceled | Suspended | Revoked | Expired | Unknown

  datatype Entitlement = Entitlement(feature: string, valueType: string, value: string)

  datatype Plan = Plan(id: string, maxActivations: int, graceDays: int, entitlements: seq<Entitlement>)

  /** `supportsActivation` is the capability of the licence's product. */
  datatype License = License(
    productId: string, supportsActivation: bool, status: LifecycleStatus,
    validUntil: Option<int>, plan: Option<Plan>)

  const DAY := 24 * 60 * 60

  function GraceDays(lic: License): int {
    if lic.plan.Some? then lic.plan.value.graceDays else 7
  }

  function MaxActivations(lic: License): int {
    if lic.plan.Some? then lic.plan.value.maxActivations else 1
  }

  /** The lifecycle check of activation, verification and refresh. */
  predicate Usable(lic: License, now: int) {
    match lic.status
    case Active | Trialing | PastDue =>
      !(lic.validUntil.Some? && now > lic.validUntil.value && now > lic.validUntil.value + GraceDays(lic) * DAY)
    case Canceled => lic.validUntil.Some? && now < lic.validUntil.value
    case _ => false
  }

  /** The second copy of the check, used for downloads and usage. */
  predicate UsableForDownload(lic: License, now: int) {
    match lic.status
    case Active | Trialing | PastDue =>
      lic.validUntil.None? || now < lic.validUntil.value || now < lic.validUntil.value + GraceDays(lic) * DAY
    case Canceled => lic.validUntil.Some? && now < lic.validUntil.value
    case _ => false
  }

  /** A record that is usable at some instant was usable at every earlier one. */
  lemma UsabilityOnlyEnds(lic: License, earlier: int, later: int)
    requires earlier <= later && Usable(lic, later)
    ensures Usable(lic, earlier)
  {}

  /** The two copies of the check agree except at the last instant of validity and grace. */
  lemma ChecksDifferAtOneInstant(lic: License, now: int)
    ensures (Usable(lic, now) == UsableForDownload(lic, now)) <==>
            !(lic.status in {Active, Trialing, PastDue} && lic.validUntil.Some? &&
              now == lic.validUntil.value + if GraceDays(lic) > 0 then GraceDays(lic) * DAY else 0)
  {}

  /** Names of the features the plan grants: a boolean entitlement counts only when it is true. */
  function EntitlementNames(es: seq<Entitlement>): seq<string> {
    if |es| == 0 then []
    else if Grants(es[0]) then [es[0].feature] + EntitlementNames(es[1..])
    else EntitlementNames(es[1..])
  }

  predicate Grants(e: Entitlement) { e.valueType != "bool" || e.value == "true" }

  /** A feature is named exactly if some entitlement grants it. */
  lemma {:induction false} NamedExactlyIfGranted(es: seq<Entitlement>, feature: string)
    ensures feature in EntitlementNames(es) <==> exists i :: 0 <= i < |es| && Grants(es[i]) && es[i].feature == feature
  {
    if |es| > 0 {
      NamedExactlyIfGranted(es[1..], feature);
      assert forall i :: 1 <= i < |es| ==> es[i] == es[1..][i - 1];
      if exists i :: 0 <= i < |es| && Grants(es[i]) && es[i].feature == feature {
        var i :| 0 <= i < |es| && Grants(es[i]) && es[i].feature == feature;
        if i > 0 { assert es[1..][i - 1] == es[i]; }
      }
    }
  }

  method CollectEntitlementNames(es: seq<Entitlement>) returns (features: seq<string>)
    ensures features == EntitlementNames(es)
  {
    features := [];
    assert es[0..] == es;
    for i := 0 to |es|
      invariant EntitlementNames(es) == features + EntitlementNames(es[i..])
    {
      assert es[i..][0] == es[i] && es[i..][1..] == es[i + 1..];
      ghost var rest := EntitlementNames(es[i + 1..]);
      if Grants(es[i]) {
        assert EntitlementNames(es[i..]) == [es[i].feature] + rest;
        assert features + ([es[i].feature] + rest) == features + [es[i].feature] + rest;
        features := features + [es[i].feature];
      } else {
        assert EntitlementNames(es[i..]) == rest;
      }
    }
  }

  function StatusText(s: LifecycleStatus): string {
    match s
    case Active => "active"
    case Trialing => "trialing"
    case PastDue => "past_due"
    case Canceled => "canceled"
    case Suspended => "suspended"
    case Revoked => "revoked"
    case Expired => "expired"
    case Unknown => ""
  }

  /** The token minted for a device at server instant `now`. */
  function TokenFor(
      lic: License, licenseId: string, device: string, kid: string, now: int, leaseTtl: int,
      nonce: string, fingerprint: string): VerifyToken
  {
    VerifyToken(
      1, kid, licenseId, lic.productId, if lic.plan.Some? then lic.plan.value.id else "",
      StatusText(lic.status), device, if lic.plan.Some? then EntitlementNames(lic.plan.value.entitlements) else [],
      now, now + leaseTtl, GraceDays(lic), nonce, fingerprint)
  }

  /** The plan has an entitlement of this name, and it is no boolean one set to something else than true. */
  predicate PlanGrants(lic: License, feature: string) {
    lic.plan.Some? && exists e :: e in lic.plan.value.entitlements && e.feature == feature && (e.valueType == "bool" ==> e.value == "true")
  }

  /** A minted token says of its licence: product, plan, state and days of grace, and as entitlements exactly what the plan grants. */
  lemma TokenSaysTheLicense(
      lic: License, licenseId: string, device: string, kid: string, now: int, leaseTtl: int, nonce: string, fingerprint: string)
    ensures
      var t := TokenFor(lic, licenseId, device, kid, now, leaseTtl, nonce, fingerprint);
      && t.version == 1 && t.licenseId == licenseId && t.productId == lic.productId && t.identifier == device
      && t.issuedAt == now && t.expiresAt - t.issuedAt == leaseTtl
      && (lic.plan.Some? ==> t.planId == lic.plan.value.id && t.graceDays == lic.plan.value.graceDays)
      && (lic.plan.None? ==> t.planId == "" && t.graceDays == 7)
      && (t.status == "active" <==> lic.status == Active) && (t.status == "trialing" <==> lic.status == Trialing)
      && (t.status == "past_due" <==> lic.status == PastDue) && (t.status == "canceled" <==> lic.status == Canceled)
      && forall feature :: feature in t.entitlements <==> PlanGrants(lic, feature)
  {
    if lic.plan.Some? {
      var es := lic.plan.value.entitlements;
      forall feature
        ensures feature in EntitlementNames(es) <==> PlanGrants(lic, feature)
      {
        NamedExactlyIfGranted(es, feature);
        if PlanGrants(lic, feature) {
          var e :| e in es && e.feature == feature && (e.valueType == "bool" ==> e.value == "true");
          var i :| 0 <= i < |es| && es[i] == e;
          assert Grants(es[i]);
        }
      }
    }
  }

  /**
   A licence in force is usable until the days of grace after its validity are over, seven
   without a plan; a cancelled one until its validity ends; any other never.
   */
  lemma UsableExactly(lic: License, now: int)
    ensures
      var days := if lic.plan.None? then 7 else lic.plan.value.graceDays;
      Usable(lic, now) <==>
        || (lic.status in {Active, Trialing, PastDue}
            && (lic.validUntil.Some? ==> now <= lic.validUntil.value + if days > 0 then days * 86400 else 0))
        || (lic.status == Canceled && lic.validUntil.Some? && now < lic.validUntil.value)
  {}
}
