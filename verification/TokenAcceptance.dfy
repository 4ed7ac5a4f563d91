/** What it takes for a string to be accepted as a token, on the Go server and in the Rust client. */
module TokenAcceptance {
  import opened Wrappers
  import opened Base64Url
  import opened Token
  import opened Lease
  import opened TokenRoundTrip

  // ---- The Go server ----

  /**
   A string splits at its last dot. The server reads the token `t` from it if and only if both
   segments decode, the payload names a key of the ring, that key verifies the signature over
   the encoded payload, the payload is `t`, and `t` has not expired.
   */
  lemma GoAcceptsExactly(seg: string, sigSeg: string, keys: map<string, Bytes>, now: int, js: GoJson, ed: Scheme, t: VerifyToken)
    requires '.' !in sigSeg
    ensures VerifyWithKeyRing(seg + "." + sigSeg, keys, now, js, ed) == Ok(t)
      <==> (
        && GoDecode(seg).Some? && GoDecode(sigSeg).Some?
        && js.keyId(GoDecode(seg).value).Some?
        && var kid := js.keyId(GoDecode(seg).value).value;
        && kid != "" && kid in keys && |keys[kid]| == 32
        && ed.verify(keys[kid], seg, GoDecode(sigSeg).value)
        && js.unmarshal(GoDecode(seg).value) == Some(t)
        && (t.expiresAt <= 0 || now <= t.expiresAt))
  {
    hide GoDecode;
    LastDotSplits(seg, sigSeg);
  }

  lemma LastDotSplits(seg: string, sigSeg: string)
    requires '.' !in sigSeg
    ensures LastDot(seg + "." + sigSeg) == Some(|seg|)
    ensures (seg + "." + sigSeg)[..|seg|] == seg && (seg + "." + sigSeg)[|seg| + 1..] == sigSeg
  {
    var raw := seg + "." + sigSeg;
    assert raw[..|seg|] == seg && raw[|seg| + 1..] == sigSeg;
    LastDotIsUnique(raw, |seg|);
  }

  /** Whatever is accepted has a dot: it splits at the last one. */
  lemma AcceptedSplits(raw: string, keys: map<string, Bytes>, now: int, js: GoJson, ed: Scheme) returns (seg: string, sigSeg: string)
    requires VerifyWithKeyRing(raw, keys, now, js, ed).Ok?
    ensures raw == seg + "." + sigSeg && '.' !in sigSeg
  {
    hide GoDecode;
    var i := LastDot(raw).value;
    seg, sigSeg := raw[..i], raw[i + 1..];
  }

  /** A signature that the key of the ring does not verify is refused as such, whatever the payload says. */
  lemma UnverifiedIsRefused(seg: string, sigSeg: string, keys: map<string, Bytes>, now: int, js: GoJson, ed: Scheme)
    requires '.' !in sigSeg && GoDecode(seg).Some? && GoDecode(sigSeg).Some? && js.keyId(GoDecode(seg).value).Some?
    requires var kid := js.keyId(GoDecode(seg).value).value;
      kid != "" && kid in keys && |keys[kid]| == 32 && !ed.verify(keys[kid], seg, GoDecode(sigSeg).value)
    ensures VerifyWithKeyRing(seg + "." + sigSeg, keys, now, js, ed) == Err(TokenError.InvalidSignature)
  {
    hide GoDecode;
    LastDotSplits(seg, sigSeg);
  }

  /**
   The string is no forgery to the server: under whichever key of the ring its signature
   verifies, the server has signed, with that key, a token with its payload segment.
   */
  ghost predicate NotForgedForGo(raw: string, ring: map<string, Bytes>, signed: set<(Bytes, VerifyToken)>, go: GoJson, ed: Scheme) {
    forall seg, sigSeg, kid ::
      raw == seg + "." + sigSeg && '.' !in sigSeg && kid in ring && VerifiesUnder(ring[kid], seg, sigSeg, ed) ==>
        SignedWith(ring[kid], seg, signed, go)
  }

  ghost predicate VerifiesUnder(pub: Bytes, seg: string, sigSeg: string, ed: Scheme) {
    GoDecode(sigSeg).Some? && ed.verify(pub, seg, GoDecode(sigSeg).value)
  }

  /** Whatever unforged string the server takes, it has signed the token it reads, with the key that the token names. */
  lemma GoAcceptanceImpliesSigned(
      raw: string, ring: map<string, Bytes>, now: int, signed: set<(Bytes, VerifyToken)>, go: GoJson, ed: Scheme)
    requires LawfulGoJson(go) && forall s :: s in signed ==> Representable(s.1)
    requires VerifyWithKeyRing(raw, ring, now, go, ed).Ok? && NotForgedForGo(raw, ring, signed, go, ed)
    ensures
      var t := VerifyWithKeyRing(raw, ring, now, go, ed).value;
      && t.keyId in ring && (ring[t.keyId], t) in signed
      && (t.expiresAt <= 0 || now <= t.expiresAt)
  {
    hide GoDecode, Encode, LastDot, VerifyWithKeyRing, Representable;
    var t := VerifyWithKeyRing(raw, ring, now, go, ed).value;
    var seg, sigSeg := AcceptedSplits(raw, ring, now, go, ed);
    GoAcceptsExactly(seg, sigSeg, ring, now, go, ed, t);
    var kid := go.keyId(GoDecode(seg).value).value;
    assert VerifiesUnder(ring[kid], seg, sigSeg, ed);
    assert SignedWith(ring[kid], seg, signed, go);
    var m :| (ring[kid], m) in signed && PayloadSegment(m, go) == seg;
    DecodeUndoesEncode(go.marshal(m), true);
    GoDecodeExtendsRustDecode(seg);
    assert Representable((ring[kid], m).1);
  }

  /** What the server signed is no forgery, as long as its signature verifies under its own key only. */
  lemma SignedIsNotForgedForGo(
      t: VerifyToken, nonce: Bytes, priv: Bytes, ring: map<string, Bytes>, signed: set<(Bytes, VerifyToken)>, go: GoJson, ed: Scheme)
    requires LawfulScheme(ed) && |priv| == PRIVATE_KEY_SIZE && (ed.public(priv), WithNonce(t, nonce)) in signed
    requires forall kid :: kid in ring && ring[kid] != ed.public(priv) ==>
      var seg := PayloadSegment(WithNonce(t, nonce), go);
      !ed.verify(ring[kid], seg, ed.sign(priv, seg))
    ensures NotForgedForGo(Sign(t, nonce, priv, go, ed).value, ring, signed, go, ed)
  {
    hide Encode, GoDecode, LastDot;
    var raw := Sign(t, nonce, priv, go, ed).value;
    SignedTokenParts(t, nonce, priv, go, ed);
    var own := PayloadSegment(WithNonce(t, nonce), go);
    forall seg, sigSeg, kid |
      raw == seg + "." + sigSeg && '.' !in sigSeg && kid in ring && VerifiesUnder(ring[kid], seg, sigSeg, ed)
      ensures SignedWith(ring[kid], seg, signed, go)
    {
      LastDotSplits(seg, sigSeg);
      assert seg == own;
      assert SignedWith(ed.public(priv), own, signed, go);
    }
  }

  // ---- The Rust client ----

  /** The bounds that the client puts on the claims of a lease. */
  predicate ClaimsInBounds(c: LeaseClaims, kid: string) {
    && c.version == 1 && c.kid == kid && 0 <= c.iat < c.exp
    && 1 <= |c.licenseId| <= 128 && 1 <= |c.productId| <= 128 && 1 <= |c.deviceId| <= 256
    && |c.entitlements| <= 512 && forall e :: e in c.entitlements ==> 1 <= |e| <= 256
  }

  /**
   The client reads the claims `c` from a string of two segments if and only if it is at most
   48 KiB long, both segments are not empty and decode strictly, to at most 32 KiB and to 64
   bytes, the payload names a pinned key by a well-formed name, that key verifies the signature
   over the encoded payload, and the payload is `c`, within its bounds.
   */
  lemma RustAcceptsExactly(seg: string, sigSeg: string, keys: map<string, Bytes>, js: RustJson, ed: Scheme, c: LeaseClaims)
    requires '.' !in seg
    ensures VerifyLease(seg + "." + sigSeg, keys, js, ed) == Ok(c)
      <==> (
        && |seg| + 1 + |sigSeg| <= 49152 && seg != "" && sigSeg != "" && '.' !in sigSeg
        && RustDecode(seg).Some? && |RustDecode(seg).value| <= 32768
        && RustDecode(sigSeg).Some? && |RustDecode(sigSeg).value| == 64
        && js.header(RustDecode(seg).value).Some?
        && var kid := js.header(RustDecode(seg).value).value;
        && 1 <= |kid| <= 64 && (forall i :: 0 <= i < |kid| ==> NameChar(kid[i])) && kid in keys
        && ed.verify(keys[kid], seg, RustDecode(sigSeg).value)
        && js.claims(RustDecode(seg).value) == Some(c)
        && ClaimsInBounds(c, kid))
  {
    hide RustDecode, KeyIdChar, NameChar, WithinBounds, ClaimsInBounds, ConsistentClaims, FirstDot;
    FirstDotSplits(seg, sigSeg);
    NameChars();
    BoundsSpelled();
    assert '.' in sigSeg ==> exists i :: 0 <= i < |sigSeg| && sigSeg[i] == '.';
  }

  lemma NameChars()
    ensures forall c :: KeyIdChar(c) <==> NameChar(c)
  {}

  lemma BoundsSpelled()
    ensures forall c, kid :: ClaimsInBounds(c, kid) <==> c.version == LEASE_VERSION && ConsistentClaims(c, kid) && WithinBounds(c)
  {}

  predicate NameChar(c: char) {
    c in {'.', '_', '-'} || c in "abcdefghijklmnopqrstuvwxyz" || c in "ABCDEFGHIJKLMNOPQRSTUVWXYZ" || c in "0123456789"
  }

  lemma FirstDotSplits(seg: string, sigSeg: string)
    requires '.' !in seg
    ensures FirstDot(seg + "." + sigSeg) == Some(|seg|)
    ensures (seg + "." + sigSeg)[..|seg|] == seg && (seg + "." + sigSeg)[|seg| + 1..] == sigSeg
  {
    var raw := seg + "." + sigSeg;
    assert raw[..|seg|] == seg && raw[|seg| + 1..] == sigSeg;
    FirstDotIsUnique(raw, |seg|);
  }
}
