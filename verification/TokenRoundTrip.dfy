/** The Go server and the Rust client agree on what a signed token says. */
module TokenRoundTrip {
  import opened Wrappers
  import opened Base64Url
  import opened Token
  import opened Lease

  /** The fields of a Go token that the Rust client reads; the list of entitlements becomes a set. */
  function RustView(t: VerifyToken): LeaseClaims {
    LeaseClaims(t.version, t.keyId, t.licenseId, t.productId, t.identifier,
                set i | 0 <= i < |t.entitlements| :: t.entitlements[i], t.issuedAt, t.expiresAt)
  }

  ghost predicate LawfulRustJson(go: GoJson, rust: RustJson) {
    forall t :: Representable(t) ==> rust.header(go.marshal(t)) == Some(t.keyId) && rust.claims(go.marshal(t)) == Some(RustView(t))
  }

  ghost predicate Lawful(go: GoJson, rust: RustJson, ed: Scheme) {
    LawfulScheme(ed) && LawfulGoJson(go) && LawfulRustJson(go, rust)
  }

  /** The bounds under which the Rust client takes a token that the server signed. */
  ghost predicate Acceptable(t: VerifyToken, raw: string, go: GoJson) {
    && |raw| <= MAX_SIGNED_LEASE_BYTES
    && |go.marshal(t)| <= MAX_LEASE_PAYLOAD_BYTES
    && |go.marshal(t)| > 0
    && ValidKeyId(t.keyId)
    && t.version == LEASE_VERSION
    && ConsistentClaims(RustView(t), t.keyId)
    && WithinBounds(RustView(t))
  }

  /** Two dot-free segments: the last dot and the first dot are the same dot. */
  lemma SplitsAgree(a: string, b: string)
    requires '.' !in a && '.' !in b
    ensures FirstDot(a + "." + b) == LastDot(a + "." + b) == Some(|a|)
    ensures (a + "." + b)[..|a|] == a && (a + "." + b)[|a| + 1..] == b
  {
    var s := a + "." + b;
    assert s[..|a|] == a && s[|a| + 1..] == b;
    FirstDotIsUnique(s, |a|);
    LastDotIsUnique(s, |a|);
  }

  lemma {:induction false} FirstDotIsUnique(s: string, k: nat)
    requires k < |s| && s[k] == '.' && '.' !in s[..k]
    ensures FirstDot(s) == Some(k)
  {}

  lemma {:induction false} LastDotIsUnique(s: string, k: nat)
    requires k < |s| && s[k] == '.' && '.' !in s[k + 1..]
    ensures LastDot(s) == Some(k)
    decreases |s|
  {}

  /** The parts of a token as the server wrote it. */
  lemma SignedTokenParts(t: VerifyToken, nonce: Bytes, priv: Bytes, go: GoJson, ed: Scheme)
    requires LawfulScheme(ed) && |priv| == PRIVATE_KEY_SIZE
    ensures
      var raw := Sign(t, nonce, priv, go, ed).value;
      var seg := PayloadSegment(WithNonce(t, nonce), go);
      var sig := Encode(ed.sign(priv, seg));
      && FirstDot(raw) == LastDot(raw) == Some(|seg|)
      && raw[..|seg|] == seg && raw[|seg| + 1..] == sig
      && '.' !in seg && '.' !in sig && sig != ""
      && GoDecode(seg) == RustDecode(seg) == Some(go.marshal(WithNonce(t, nonce)))
      && GoDecode(sig) == RustDecode(sig) == Some(ed.sign(priv, seg))
  {
    var seg := PayloadSegment(WithNonce(t, nonce), go);
    var sig := Encode(ed.sign(priv, seg));
    NoDot(seg); NoDot(sig);
    SplitsAgree(seg, sig);
    DecodeUndoesEncode(go.marshal(WithNonce(t, nonce)), true);
    DecodeUndoesEncode(ed.sign(priv, seg), true);
    GoDecodeExtendsRustDecode(seg);
    GoDecodeExtendsRustDecode(sig);
  }

  /** Go reads back exactly the token it signed, if and only if the token has not expired. */
  lemma GoVerifiesWhatGoSigned(
      t: VerifyToken, nonce: Bytes, priv: Bytes, keys: map<string, Bytes>, now: int, go: GoJson, ed: Scheme)
    requires LawfulScheme(ed) && LawfulGoJson(go) && |priv| == PRIVATE_KEY_SIZE && Representable(t)
    requires t.keyId != "" && t.keyId in keys && keys[t.keyId] == ed.public(priv)
    ensures VerifyWithKeyRing(Sign(t, nonce, priv, go, ed).value, keys, now, go, ed)
         == if t.expiresAt > 0 && now > t.expiresAt then Err(TokenExpired) else Ok(WithNonce(t, nonce))
  {
    SignedTokenParts(t, nonce, priv, go, ed);
  }

  /** Rust takes a token of the server exactly within the stated bounds, and then reads the signed claims. */
  lemma RustDecodesWhatGoSigned(
      t: VerifyToken, nonce: Bytes, priv: Bytes, keys: map<string, Bytes>, go: GoJson, rust: RustJson, ed: Scheme)
    requires Lawful(go, rust, ed) && |priv| == PRIVATE_KEY_SIZE && Representable(t)
    requires t.keyId in keys && keys[t.keyId] == ed.public(priv)
    ensures
      var raw := Sign(t, nonce, priv, go, ed).value;
      var got := VerifyLease(raw, keys, rust, ed);
      && (got.Ok? <==> Acceptable(WithNonce(t, nonce), raw, go))
      && (got.Ok? ==> got.value == RustView(t))
  {
    SignedTokenParts(t, nonce, priv, go, ed);
  }

  /**
   The string is no forgery: under whichever pinned key its signature verifies, the server has
   signed, with that key, a token with its payload segment. `signed` pairs public keys and tokens.
   */
  ghost predicate NotForged(raw: string, keys: map<string, Bytes>, signed: set<(Bytes, VerifyToken)>, go: GoJson, ed: Scheme) {
    FirstDot(raw).Some? ==>
      var seg, sig := raw[..FirstDot(raw).value], RustDecode(raw[FirstDot(raw).value + 1..]);
      forall kid :: kid in keys && sig.Some? && ed.verify(keys[kid], seg, sig.value) ==> SignedWith(keys[kid], seg, signed, go)
  }

  ghost predicate SignedWith(pub: Bytes, seg: string, signed: set<(Bytes, VerifyToken)>, go: GoJson) {
    exists t :: (pub, t) in signed && PayloadSegment(t, go) == seg
  }

  /**
   Whatever unforged string the Rust client takes, the server once signed those claims, with
   the pinned key that they name, and the server itself takes the same string until the token expires.
   */
  lemma RustAcceptanceImpliesSigned(
      raw: string, keys: map<string, Bytes>, ring: map<string, Bytes>, now: int,
      signed: set<(Bytes, VerifyToken)>, go: GoJson, rust: RustJson, ed: Scheme) returns (t: VerifyToken)
    requires Lawful(go, rust, ed)
    requires VerifyLease(raw, keys, rust, ed).Ok? && NotForged(raw, keys, signed, go, ed)
    requires forall s :: s in signed ==> Representable(s.1)
    requires forall kid :: kid in keys ==> kid in ring && ring[kid] == keys[kid] && |keys[kid]| == PUBLIC_KEY_SIZE
    ensures t.keyId in keys && (keys[t.keyId], t) in signed
    ensures VerifyLease(raw, keys, rust, ed) == Ok(RustView(t))
    ensures VerifyWithKeyRing(raw, ring, now, go, ed) == if t.expiresAt > 0 && now > t.expiresAt then Err(TokenExpired) else Ok(t)
  {
    var i := FirstDot(raw).value;
    var seg, sigSeg := raw[..i], raw[i + 1..];
    AcceptedIsVerified(raw, keys, rust, ed);
    hide VerifyLease, Decode, Encode, FirstDot, LastDot, ValidKeyId;
    assert raw == seg + "." + sigSeg;
    SplitsAgree(seg, sigSeg);
    GoDecodeExtendsRustDecode(seg);
    GoDecodeExtendsRustDecode(sigSeg);
    var kid := rust.header(RustDecode(seg).value).value;
    assert SignedWith(keys[kid], seg, signed, go);
    t :| (keys[kid], t) in signed && PayloadSegment(t, go) == seg;
    DecodeUndoesEncode(go.marshal(t), true);
  }

  /** What the server signed is no forgery, as long as its signature verifies under its own key only. */
  lemma SignedIsNotForged(
      t: VerifyToken, nonce: Bytes, priv: Bytes, keys: map<string, Bytes>, signed: set<(Bytes, VerifyToken)>, go: GoJson, ed: Scheme)
    requires LawfulScheme(ed) && |priv| == PRIVATE_KEY_SIZE && (ed.public(priv), WithNonce(t, nonce)) in signed
    requires forall kid :: kid in keys && keys[kid] != ed.public(priv) ==>
      var seg := PayloadSegment(WithNonce(t, nonce), go);
      !ed.verify(keys[kid], seg, ed.sign(priv, seg))
    ensures NotForged(Sign(t, nonce, priv, go, ed).value, keys, signed, go, ed)
  {
    hide Encode, Decode;
    SignedTokenParts(t, nonce, priv, go, ed);
    assert SignedWith(ed.public(priv), PayloadSegment(WithNonce(t, nonce), go), signed, go);
  }

  /** What acceptance by the Rust client says about the parts of the token. */
  lemma AcceptedIsVerified(raw: string, keys: map<string, Bytes>, rust: RustJson, ed: Scheme)
    requires VerifyLease(raw, keys, rust, ed).Ok?
    ensures FirstDot(raw).Some?
    ensures
      var i := FirstDot(raw).value;
      var seg, sigSeg := raw[..i], raw[i + 1..];
      && raw[i] == '.' && '.' !in seg && '.' !in sigSeg
      && RustDecode(seg).Some? && RustDecode(sigSeg).Some?
      && var kid := rust.header(RustDecode(seg).value);
      && kid.Some? && kid.value != "" && kid.value in keys
      && ed.verify(keys[kid.value], seg, RustDecode(sigSeg).value)
      && rust.claims(RustDecode(seg).value) == Some(VerifyLease(raw, keys, rust, ed).value)
  {}

  /**
   A token string is determined by what it says and its signature bytes: the strict reader
   takes no second spelling of a segment.
   */
  lemma RustTakesOneSpelling(a: string, b: string, keys: map<string, Bytes>, rust: RustJson, ed: Scheme)
    requires VerifyLease(a, keys, rust, ed).Ok? && VerifyLease(b, keys, rust, ed).Ok?
    requires RustDecode(a[..FirstDot(a).value]) == RustDecode(b[..FirstDot(b).value])
    requires RustDecode(a[FirstDot(a).value + 1..]) == RustDecode(b[FirstDot(b).value + 1..])
    ensures a == b
  {
    AcceptedParts(a, keys, rust, ed); AcceptedParts(b, keys, rust, ed);
  }

  /** A token that the Rust client takes is the canonical spelling of its two parts. */
  lemma AcceptedParts(raw: string, keys: map<string, Bytes>, rust: RustJson, ed: Scheme)
    requires VerifyLease(raw, keys, rust, ed).Ok?
    ensures
      var i := FirstDot(raw).value;
      && RustDecode(raw[..i]).Some? && RustDecode(raw[i + 1..]).Some?
      && raw == Encode(RustDecode(raw[..i]).value) + "." + Encode(RustDecode(raw[i + 1..]).value)
  {
    var i := FirstDot(raw).value;
    StrictIsCanonical(raw[..i]);
    StrictIsCanonical(raw[i + 1..]);
  }
}
