/** Verification of a signed lease by the Rust client, check by check. */
module Lease {
  import opened Wrappers
  import opened Base64Url
  import opened Token

  datatype LicenseError =
    | Configuration | Transport | Server | InvalidLease | InvalidSignature
    | ProductMismatch(expected: string, actual: string) | DeviceMismatch
    | Expired(at: int) | ClockRollback(now: int, lastSeen: int)
    | EntitlementMissing(name: string) | Storage | NotActivated | InvalidArgument | Internal

  datatype LeaseClaims = LeaseClaims(
    version: int, kid: string, licenseId: string, productId: string, deviceId: string,
    entitlements: set<string>, iat: int, exp: int)

  datatype VerifiedLease = VerifiedLease(token: string, claims: LeaseClaims)

  const LEASE_VERSION := 1
  const MAX_SIGNED_LEASE_BYTES := 48 * 1024
  const MAX_LEASE_PAYLOAD_BYTES := 32 * 1024
  const MAX_ENTITLEMENTS := 512

  /** The two typed JSON readers: the untrusted header and the full claims. */
  datatype RustJson = RustJson(
    header: Bytes -> Option<string>,
    claims: Bytes -> Option<LeaseClaims>)

  predicate KeyIdChar(c: char) {
    'a' <= c <= 'z' || 'A' <= c <= 'Z' || '0' <= c <= '9' || c == '.' || c == '_' || c == '-'
  }

  predicate ValidKeyId(v: string) {
    0 < |v| <= 64 && forall i :: 0 <= i < |v| ==> KeyIdChar(v[i])
  }

  predicate ConsistentClaims(c: LeaseClaims, kid: string) {
    c.kid == kid && c.exp > c.iat && c.iat >= 0
  }

  predicate WithinBounds(c: LeaseClaims) {
    && 0 < |c.licenseId| <= 128
    && 0 < |c.productId| <= 128
    && 0 < |c.deviceId| <= 256
    && |c.entitlements| <= MAX_ENTITLEMENTS
    && forall e :: e in c.entitlements ==> 0 < |e| <= 256
  }

  /** Position of the first dot. */
  function FirstDot(s: string): (i: Option<nat>)
    ensures i.Some? ==> i.value < |s| && s[i.value] == '.' && '.' !in s[..i.value]
    ensures i.None? ==> '.' !in s
  {
    if |s| == 0 then None
    else if s[0] == '.' then Some(0)
    else
      var i := FirstDot(s[1..]);
      assert i.Some? ==> s[..i.value + 1] == [s[0]] + s[1..][..i.value];
      if i.None? then None else Some(i.value + 1)
  }

  function VerifyLease(token: string, keys: map<string, Bytes>, js: RustJson, ed: Scheme)
    : Result<LeaseClaims, LicenseError>
  {
    if token == "" || |token| > MAX_SIGNED_LEASE_BYTES then Err(InvalidLease)
    else
      var idx := FirstDot(token);
      if idx.None? then Err(InvalidLease)
      else
        var payloadSegment, signatureSegment := token[..idx.value], token[idx.value + 1..];
        if '.' in signatureSegment then Err(InvalidLease)
        else if payloadSegment == "" || signatureSegment == "" then Err(InvalidLease)
        else
          var payload := RustDecode(payloadSegment);
          if payload.None? || |payload.value| > MAX_LEASE_PAYLOAD_BYTES then Err(InvalidLease)
          else
            var kid := js.header(payload.value);
            if kid.None? || !ValidKeyId(kid.value) || kid.value !in keys then Err(InvalidLease)
            else
              var signature := RustDecode(signatureSegment);
              if signature.None? || |signature.value| != SIGNATURE_SIZE then Err(InvalidLease)
              else if !ed.verify(keys[kid.value], payloadSegment, signature.value) then Err(LicenseError.InvalidSignature)
              else
                var claims := js.claims(payload.value);
                if claims.None? then Err(InvalidLease)
                else if claims.value.version != LEASE_VERSION then Err(InvalidLease)
                else if !ConsistentClaims(claims.value, kid.value) then Err(InvalidLease)
                else if !WithinBounds(claims.value) then Err(InvalidLease)
                else Ok(claims.value)
  }
}
