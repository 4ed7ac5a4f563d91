/**
 Minting and reading of signed tokens on the Go server. Ed25519 and JSON are
 parameters: a signature scheme and a pair of JSON readers with stated laws.
 */
module Token {
  import opened Wrappers
  import opened Base64Url

  type Bytes = seq<Byte>

  datatype VerifyToken = VerifyToken(
    version: int, keyId: string, licenseId: string, productId: string, planId: string,
    status: string, identifier: string, entitlements: seq<string>, issuedAt: int,
    expiresAt: int, graceDays: int, nonce: string, fingerprint: string)

  datatype TokenError =
    | KeyNotInitialised | BadFormat | BadPayload | KeyIdMissing | UnknownKeyId
    | BadSignatureEncoding | InvalidSignature | TokenExpired

  /** Ed25519 (section 5.1 of RFC 8032): keys and signatures are byte strings. */
  datatype Scheme = Scheme(
    sign: (Bytes, string) -> Bytes,
    verify: (Bytes, string, Bytes) -> bool,
    public: Bytes -> Bytes)

  const PRIVATE_KEY_SIZE := 64
  const PUBLIC_KEY_SIZE := 32
  const SIGNATURE_SIZE := 64

  ghost predicate LawfulScheme(ed: Scheme) {
    && (forall priv :: |priv| == PRIVATE_KEY_SIZE ==> |ed.public(priv)| == PUBLIC_KEY_SIZE)
    && (forall priv, m :: |priv| == PRIVATE_KEY_SIZE ==>
          |ed.sign(priv, m)| == SIGNATURE_SIZE && ed.verify(ed.public(priv), m, ed.sign(priv, m)))
  }

  /** The JSON writer of Go and its two readers: the whole token, and the key id alone. */
  datatype GoJson = GoJson(
    marshal: VerifyToken -> Bytes,
    unmarshal: Bytes -> Option<VerifyToken>,
    keyId: Bytes -> Option<string>)

  predicate Int64(x: int) { -0x8000_0000_0000_0000 <= x < 0x8000_0000_0000_0000 }

  /** Numbers within the integer types that both languages give these fields. */
  predicate Representable(t: VerifyToken) {
    0 <= t.version < 0x1_0000 && Int64(t.issuedAt) && Int64(t.expiresAt) && Int64(t.graceDays)
  }

  ghost predicate LawfulGoJson(js: GoJson) {
    forall t :: Representable(t) ==> js.unmarshal(js.marshal(t)) == Some(t) && js.keyId(js.marshal(t)) == Some(t.keyId)
  }

  /** The token as it is marshalled: a missing nonce is filled in first. */
  function WithNonce(t: VerifyToken, nonce: Bytes): VerifyToken {
    if t.nonce == "" then t.(nonce := Encode(nonce)) else t
  }

  function PayloadSegment(t: VerifyToken, js: GoJson): string {
    Encode(js.marshal(t))
  }

  function Sign(t: VerifyToken, nonce: Bytes, priv: Bytes, js: GoJson, ed: Scheme): Result<string, TokenError> {
    if |priv| != PRIVATE_KEY_SIZE then Err(KeyNotInitialised)
    else
      var b64 := PayloadSegment(WithNonce(t, nonce), js);
      Ok(b64 + "." + Encode(ed.sign(priv, b64)))
  }

  /** Position of the last dot. */
  function LastDot(s: string): (i: Option<nat>)
    ensures i.Some? ==> i.value < |s| && s[i.value] == '.' && '.' !in s[i.value + 1..]
    ensures i.None? ==> '.' !in s
  {
    if |s| == 0 then None
    else if s[|s| - 1] == '.' then Some(|s| - 1)
    else
      var i := LastDot(s[..|s| - 1]);
      assert i.Some? ==> s[i.value + 1..] == s[..|s| - 1][i.value + 1..] + [s[|s| - 1]];
      i
  }

  function Verify(raw: string, pub: Bytes, now: int, js: GoJson, ed: Scheme): Result<VerifyToken, TokenError> {
    if |pub| != PUBLIC_KEY_SIZE then Err(KeyNotInitialised)
    else
      var idx := LastDot(raw);
      if idx.None? then Err(BadFormat)
      else
        var b64, sigB64 := raw[..idx.value], raw[idx.value + 1..];
        var sig := GoDecode(sigB64);
        if sig.None? then Err(BadSignatureEncoding)
        else if !ed.verify(pub, b64, sig.value) then Err(InvalidSignature)
        else
          var payload := GoDecode(b64);
          if payload.None? then Err(BadPayload)
          else
            var t := js.unmarshal(payload.value);
            if t.None? then Err(BadPayload)
            else if t.value.expiresAt > 0 && now > t.value.expiresAt then Err(TokenExpired)
            else Ok(t.value)
  }

  /** The payload's unverified key id only selects the key; the token is then verified in full. */
  function VerifyWithKeyRing(raw: string, keys: map<string, Bytes>, now: int, js: GoJson, ed: Scheme)
    : Result<VerifyToken, TokenError>
  {
    var idx := LastDot(raw);
    if idx.None? then Err(BadFormat)
    else
      var payload := GoDecode(raw[..idx.value]);
      if payload.None? then Err(BadPayload)
      else
        var kid := js.keyId(payload.value);
        if kid.None? then Err(BadPayload)
        else if kid.value == "" then Err(KeyIdMissing)
        else if kid.value !in keys then Err(UnknownKeyId)
        else Verify(raw, keys[kid.value], now, js, ed)
  }
}
