/**
 * The signed challenge token (JWT.kt): the header-type tag, the header and
 * payload JSON objects, and `signJWT`, which assembles
 * base64url(header) "." base64url(payload) "." base64url(signature).
 */
module Jwt {
  import opened Base
  import opened Json
  import opened JsonMaps
  import opened Compact
  import opened Signing

  // ---------------------------------------------------------------- header type

  /** `JWTHeaderType`: the purpose of the token. */
  datatype HeaderType = Anonymous | Biometric
  {
    /** The wire string written as the header's `typ`: a vendor type `vnd.authgear.<purpose>-request`. */
    function Value(): (s: string)
      ensures |s| > 21 && s[..13] == "vnd.authgear." && s[|s| - 8..] == "-request"
    {
      match this
      case Anonymous => "vnd.authgear.anonymous-request"
      case Biometric => "vnd.authgear.biometric-request"
    }
  }

  /** The header type whose wire string is `s`, if any: how a reader recovers the tag. */
  function HeaderTypeOf(s: string): (t: Option<HeaderType>)
    ensures t.Some? ==> t.value.Value() == s
  {
    if s == Anonymous.Value() then Some(Anonymous)
    else if s == Biometric.Value() then Some(Biometric)
    else None
  }

  /** Every tag is recovered from its wire string, so no two tags share one. */
  lemma HeaderTypeRoundTrip(t: HeaderType)
    ensures HeaderTypeOf(t.Value()) == Some(t)
  {
  }

  /** The mapping to wire strings is injective. */
  lemma HeaderTypeValueInjective(a: HeaderType, b: HeaderType)
    ensures a.Value() == b.Value() <==> a == b
  {
  }

  // --------------------------------------------------------------------- header

  /** `JWTHeader`, generic in the JWK type, which is not part of this model. */
  datatype Header<K> = Header(typ: HeaderType, kid: string, alg: string, jwk: Option<K>)

  /** The header's JSON members, as `JWTHeader.toJsonObject` inserts them. */
  function HeaderMembers<K>(h: Header<K>, jwkObject: K -> seq<(string, Json)>): seq<(string, Json)>
  {
    [("typ", JString(h.typ.Value())), ("kid", JString(h.kid)), ("alg", JString(h.alg))]
    + (match h.jwk
       case Some(k) => [("jwk", JObject(jwkObject(k)))]
       case None => [])
  }

  /**
   * `JWTHeader.toJsonObject()`: fills an insertion-ordered map with `typ`, `kid`
   * and `alg`, then `jwk` only when there is a key. `jwkObject` is
   * `JWK.toJsonObject()`.
   */
  method HeaderToJsonObject<K>(h: Header<K>, jwkObject: K -> seq<(string, Json)>) returns (j: Json)
    ensures j == JObject(HeaderMembers(h, jwkObject))
  {
    var header := new MutableJsonMap();
    header.Set("typ", JString(h.typ.Value()));
    PutNew([], "typ", JString(h.typ.Value()));
    var e1 := header.entries;
    header.Set("kid", JString(h.kid));
    PutNew(e1, "kid", JString(h.kid));
    var e2 := header.entries;
    KeysAt(e2);
    header.Set("alg", JString(h.alg));
    PutNew(e2, "alg", JString(h.alg));
    match h.jwk {
      case Some(k) =>
        var e3 := header.entries;
        KeysAt(e3);
        header.Set("jwk", JObject(jwkObject(k)));
        PutNew(e3, "jwk", JObject(jwkObject(k)));
      case None =>
    }
    j := JObject(header.entries);
  }

  /**
   * The header's layout: `typ`, `kid`, `alg` in that order, then `jwk` exactly
   * when there is a key, no other key, no key twice and no null value.
   */
  lemma HeaderLayout<K>(h: Header<K>, jwkObject: K -> seq<(string, Json)>)
    ensures Keys(HeaderMembers(h, jwkObject)) == ["typ", "kid", "alg"] + (if h.jwk.Some? then ["jwk"] else [])
    ensures |HeaderMembers(h, jwkObject)| == if h.jwk.Some? then 4 else 3
    ensures DistinctKeys(HeaderMembers(h, jwkObject))
    ensures forall i :: 0 <= i < |HeaderMembers(h, jwkObject)| ==> HeaderMembers(h, jwkObject)[i].1 != JNull
  {
    KeysAt(HeaderMembers(h, jwkObject));
  }

  /** What each header key holds, and that `jwk` is present exactly when there is a key. */
  lemma HeaderValues<K>(h: Header<K>, jwkObject: K -> seq<(string, Json)>)
    ensures Lookup(HeaderMembers(h, jwkObject), "typ") == Some(JString(h.typ.Value()))
    ensures Lookup(HeaderMembers(h, jwkObject), "kid") == Some(JString(h.kid))
    ensures Lookup(HeaderMembers(h, jwkObject), "alg") == Some(JString(h.alg))
    ensures Lookup(HeaderMembers(h, jwkObject), "jwk") ==
              if h.jwk.Some? then Some(JObject(jwkObject(h.jwk.value))) else None
  {
    var m := HeaderMembers(h, jwkObject);
    HeaderLayout(h, jwkObject);
    LookupAt(m, 0);
    LookupAt(m, 1);
    LookupAt(m, 2);
    if h.jwk.Some? {
      LookupAt(m, 3);
    } else {
      LookupMissing(m, "jwk");
    }
  }

  /** The header with its key replaced by the key's JSON members: what a reader of the JSON can see. */
  function HeaderSeen<K>(h: Header<K>, jwkObject: K -> seq<(string, Json)>): Header<seq<(string, Json)>>
  {
    Header(h.typ, h.kid, h.alg, match h.jwk case Some(k) => Some(jwkObject(k)) case None => None)
  }

  /** Reads a header back from its JSON object, as a verifier parsing the token would. */
  function ReadHeader(j: Json): Option<Header<seq<(string, Json)>>>
  {
    match j
    case JObject(ms) =>
      (match (Lookup(ms, "typ"), Lookup(ms, "kid"), Lookup(ms, "alg"))
       case (Some(JString(typ)), Some(JString(kid)), Some(JString(alg))) =>
         (match (HeaderTypeOf(typ), Lookup(ms, "jwk"))
          case (Some(t), None) => Some(Header(t, kid, alg, None))
          case (Some(t), Some(JObject(k))) => Some(Header(t, kid, alg, Some(k)))
          case _ => None)
       case _ => None)
    case _ => None
  }

  /** Reading the header's JSON gives back every header field, the key as its JSON members. */
  lemma ReadHeaderRoundTrip<K>(h: Header<K>, jwkObject: K -> seq<(string, Json)>)
    ensures ReadHeader(JObject(HeaderMembers(h, jwkObject))) == Some(HeaderSeen(h, jwkObject))
  {
    HeaderValues(h, jwkObject);
    HeaderTypeRoundTrip(h.typ);
  }

  // -------------------------------------------------------------------- payload

  /** The range of `java.time.Instant.getEpochSecond()`. */
  const InstantMinSecond: int := -31557014167219200
  const InstantMaxSecond: int := 31556889864403199

  /** How long a token is valid, in seconds. */
  const ValiditySeconds: int := 60

  /** `JWTPayload`. */
  datatype Payload = Payload(iat: Long, exp: Long, challenge: string, action: string)

  /**
   * The `Instant` constructor: issued at `epochSecond`, expiring a fixed 60
   * seconds later. Over `Instant`'s whole range the Long addition cannot overflow.
   */
  function PayloadAt(epochSecond: int, challenge: string, action: string): (p: Payload)
    requires InstantMinSecond <= epochSecond <= InstantMaxSecond
    ensures p.iat as int == epochSecond
    ensures p.exp as int - p.iat as int == ValiditySeconds
    ensures p.challenge == challenge && p.action == action
  {
    Payload(epochSecond as Long, (epochSecond + ValiditySeconds) as Long, challenge, action)
  }

  /** The payload's JSON members, as `JWTPayload.toJsonObject` inserts them. */
  function PayloadMembers(p: Payload): seq<(string, Json)>
  {
    [("iat", JNumber(p.iat as int)), ("exp", JNumber(p.exp as int)),
     ("challenge", JString(p.challenge)), ("action", JString(p.action))]
  }

  /** `JWTPayload.toJsonObject()`: fills an insertion-ordered map with the four claims. */
  method PayloadToJsonObject(p: Payload) returns (j: Json)
    ensures j == JObject(PayloadMembers(p))
  {
    var m := new MutableJsonMap();
    m.Set("iat", JNumber(p.iat as int));
    PutNew([], "iat", JNumber(p.iat as int));
    var e1 := m.entries;
    m.Set("exp", JNumber(p.exp as int));
    PutNew(e1, "exp", JNumber(p.exp as int));
    var e2 := m.entries;
    KeysAt(e2);
    m.Set("challenge", JString(p.challenge));
    PutNew(e2, "challenge", JString(p.challenge));
    var e3 := m.entries;
    KeysAt(e3);
    m.Set("action", JString(p.action));
    PutNew(e3, "action", JString(p.action));
    j := JObject(m.entries);
  }

  /** The payload's layout: exactly `iat`, `exp`, `challenge`, `action`, in that order. */
  lemma PayloadLayout(p: Payload)
    ensures Keys(PayloadMembers(p)) == ["iat", "exp", "challenge", "action"]
    ensures DistinctKeys(PayloadMembers(p))
  {
    KeysAt(PayloadMembers(p));
  }

  /** Reads a payload back from its JSON object, as a verifier parsing the token would. */
  function ReadPayload(j: Json): Option<Payload>
  {
    match j
    case JObject(ms) =>
      (match (Lookup(ms, "iat"), Lookup(ms, "exp"), Lookup(ms, "challenge"), Lookup(ms, "action"))
       case (Some(JNumber(iat)), Some(JNumber(exp)), Some(JString(challenge)), Some(JString(action))) =>
         if IsLong(iat) && IsLong(exp) then Some(Payload(iat as Long, exp as Long, challenge, action)) else None
       case _ => None)
    case _ => None
  }

  /** Reading the payload's JSON gives back the payload. */
  lemma ReadPayloadRoundTrip(p: Payload)
    ensures ReadPayload(JObject(PayloadMembers(p))) == Some(p)
  {
    var m := PayloadMembers(p);
    PayloadLayout(p);
    LookupAt(m, 0);
    LookupAt(m, 1);
    LookupAt(m, 2);
    LookupAt(m, 3);
    assert IsLong(p.iat as int) && IsLong(p.exp as int);
  }

  /** A payload made at `epochSecond` reads back with an expiry exactly 60 seconds after issue. */
  lemma ReadPayloadWindow(epochSecond: int, challenge: string, action: string)
    requires InstantMinSecond <= epochSecond <= InstantMaxSecond
    ensures ReadPayload(JObject(PayloadMembers(PayloadAt(epochSecond, challenge, action)))).Some?
    ensures var p := ReadPayload(JObject(PayloadMembers(PayloadAt(epochSecond, challenge, action)))).value;
            p.iat as int == epochSecond && p.exp as int == epochSecond + ValiditySeconds
  {
    ReadPayloadRoundTrip(PayloadAt(epochSecond, challenge, action));
  }

  // -------------------------------------------------------------------- signing

  /**
   * The library functions `signJWT` calls, which are defined outside JWT.kt:
   * `base64UrlEncode`, `String.toUTF8()`, `Json.encodeToString` and
   * `JWK.toJsonObject()`.
   */
  datatype Codecs<!K> = Codecs(
    base64Url: seq<byte> -> string,
    utf8: string -> seq<byte>,
    encode: Json -> string,
    jwkObject: K -> seq<(string, Json)>)
  {
    /** base64url output uses only the alphabet of section 5 of RFC 4648, without padding. */
    ghost predicate UrlSafe()
    {
      forall bytes :: IsBase64UrlText(base64Url(bytes))
    }

    /** The three encoders lose no information. */
    ghost predicate Injective()
    {
      && (forall a, b :: base64Url(a) == base64Url(b) ==> a == b)
      && (forall s, t :: utf8(s) == utf8(t) ==> s == t)
      && (forall x, y :: encode(x) == encode(y) ==> x == y)
    }
  }

  /** The first segment: base64url of the UTF-8 bytes of the header's JSON text. */
  function HeaderSegment<K>(h: Header<K>, c: Codecs<K>): string
  {
    c.base64Url(c.utf8(c.encode(JObject(HeaderMembers(h, c.jwkObject)))))
  }

  /** The second segment: base64url of the UTF-8 bytes of the payload's JSON text. */
  function PayloadSegment<K>(p: Payload, c: Codecs<K>): string
  {
    c.base64Url(c.utf8(c.encode(JObject(PayloadMembers(p)))))
  }

  /** `data` in `signJWT`: the text whose UTF-8 bytes are signed. */
  function SigningInput<K>(h: Header<K>, p: Payload, c: Codecs<K>): string
  {
    HeaderSegment(h, c) + "." + PayloadSegment(p, c)
  }

  /** The token returned for signature bytes `signature`. */
  function Token<K>(h: Header<K>, p: Payload, c: Codecs<K>, signature: seq<byte>): string
  {
    SigningInput(h, p, c) + "." + c.base64Url(signature)
  }

  /** The failure `signJWT` lets escape: the `SignatureException` thrown by `update()` or `sign()`. */
  datatype JwtError = SigningFailure

  /** What `signJWT` returns once the signer has produced `outcome`. */
  function SignedToken<K>(h: Header<K>, p: Payload, c: Codecs<K>, outcome: Outcome): Result<string, JwtError>
  {
    match outcome
    case Signed(signature) => Ok(Token(h, p, c, signature))
    case Failed => Err(SigningFailure)
  }

  /**
   * `signJWT(signature, header, payload)`: one `update` with the UTF-8 bytes
   * of the signing input, then one `sign`, whose signature is appended as the
   * third segment. A signer fresh from `initSign` (nothing fed yet) therefore
   * signs exactly the signing input. On an object never initialised for
   * signing, `update` throws and nothing is signed.
   */
  method SignJwt<K>(signer: Signer, header: Header<K>, payload: Payload, c: Codecs<K>)
    returns (r: Result<string, JwtError>)
    modifies signer
    ensures signer.initialized == old(signer.initialized) && signer.scheme == old(signer.scheme)
    ensures !old(signer.initialized) ==>
              r == Err(SigningFailure) && signer.signed == old(signer.signed) && signer.message == old(signer.message)
    ensures old(signer.initialized) ==>
              signer.signed == old(signer.signed) + [old(signer.message) + c.utf8(SigningInput(header, payload, c))]
    ensures old(signer.initialized) ==>
              r == SignedToken(header, payload, c,
                     signer.scheme(old(signer.message) + c.utf8(SigningInput(header, payload, c)), |old(signer.signed)|))
    ensures r.Ok? ==> signer.message == []
  {
    var headerJson := HeaderToJsonObject(header, c.jwkObject);
    var payloadJson := PayloadToJsonObject(payload);
    var data := c.base64Url(c.utf8(c.encode(headerJson))) + "." + c.base64Url(c.utf8(c.encode(payloadJson)));
    var fed := signer.Update(c.utf8(data));
    if !fed {
      return Err(SigningFailure);
    }
    var outcome := signer.Sign();
    match outcome {
      case Signed(sig) =>
        r := Ok(data + "." + c.base64Url(sig));
      case Failed =>
        r := Err(SigningFailure);
    }
  }

  /**
   * A caller signing the same header and payload twice with one deterministic
   * signer, re-initialising it in between, gets byte-identical results: for a
   * scheme that ignores how many signatures came before, the token depends on
   * the header and payload alone. The first signature is over exactly the
   * UTF-8 signing input, and a token splits into three segments.
   */
  method SignTwiceDeterministic<K>(scheme: (seq<byte>, nat) -> Outcome, h: Header<K>, p: Payload, c: Codecs<K>)
    returns (r1: Result<string, JwtError>, r2: Result<string, JwtError>)
    requires Deterministic(scheme)
    requires c.UrlSafe()
    ensures r1 == r2
    ensures r1 == SignedToken(h, p, c, scheme(c.utf8(SigningInput(h, p, c)), 0))
    ensures r1.Ok? ==> |Split(r1.value)| == 3
  {
    var signer := new Signer.GetInstance();
    signer.InitSign(scheme);
    r1 := SignJwt(signer, h, p, c);
    // the first signature is over the signing input and nothing else
    assert [] + c.utf8(SigningInput(h, p, c)) == c.utf8(SigningInput(h, p, c));
    assert signer.signed == [c.utf8(SigningInput(h, p, c))];
    signer.InitSign(scheme);
    r2 := SignJwt(signer, h, p, c);
    if r1.Ok? {
      TokenSegments(h, p, c, scheme(c.utf8(SigningInput(h, p, c)), 0).signature);
    }
  }

  /**
   * The token is three base64url segments joined by '.', it splits back into
   * exactly those three, and the signing input is the token up to the second '.'.
   */
  lemma TokenSegments<K>(h: Header<K>, p: Payload, c: Codecs<K>, signature: seq<byte>)
    requires c.UrlSafe()
    ensures var parts := [HeaderSegment(h, c), PayloadSegment(p, c), c.base64Url(signature)];
            && (forall i :: 0 <= i < 3 ==> IsBase64UrlText(parts[i]))
            && Token(h, p, c, signature) == Join(parts)
            && Split(Token(h, p, c, signature)) == parts
    ensures SigningInput(h, p, c) == Join([HeaderSegment(h, c), PayloadSegment(p, c)])
    ensures Token(h, p, c, signature) == SigningInput(h, p, c) + "." + c.base64Url(signature)
  {
    var parts := [HeaderSegment(h, c), PayloadSegment(p, c), c.base64Url(signature)];
    assert IsBase64UrlText(parts[0]) && IsBase64UrlText(parts[1]) && IsBase64UrlText(parts[2]);
    assert Join(parts[2..]) == parts[2];
    assert Join(parts[1..]) == parts[1] + "." + Join(parts[2..]);
    assert Join([HeaderSegment(h, c), PayloadSegment(p, c)]) == parts[0] + "." + parts[1] by {
      var two := [HeaderSegment(h, c), PayloadSegment(p, c)];
      assert Join(two[1..]) == two[1];
    }
    forall i | 0 <= i < 3
      ensures '.' !in parts[i]
    {
      Base64UrlHasNoDot(parts[i]);
    }
    SplitJoin(parts);
  }

  /**
   * With injective encoders, a token determines everything that went into it:
   * the header as its JSON shows it, the payload and the signature.
   */
  lemma TokenDeterminesInputs<K>(h1: Header<K>, p1: Payload, s1: seq<byte>,
                                 h2: Header<K>, p2: Payload, s2: seq<byte>, c: Codecs<K>)
    requires c.UrlSafe() && c.Injective()
    requires Token(h1, p1, c, s1) == Token(h2, p2, c, s2)
    ensures HeaderSeen(h1, c.jwkObject) == HeaderSeen(h2, c.jwkObject)
    ensures p1 == p2 && s1 == s2
  {
    TokenSegments(h1, p1, c, s1);
    TokenSegments(h2, p2, c, s2);
    var hj1, hj2 := JObject(HeaderMembers(h1, c.jwkObject)), JObject(HeaderMembers(h2, c.jwkObject));
    var pj1, pj2 := JObject(PayloadMembers(p1)), JObject(PayloadMembers(p2));
    assert c.utf8(c.encode(hj1)) == c.utf8(c.encode(hj2));
    assert hj1 == hj2;
    assert c.utf8(c.encode(pj1)) == c.utf8(c.encode(pj2));
    assert pj1 == pj2;
    ReadHeaderRoundTrip(h1, c.jwkObject);
    ReadHeaderRoundTrip(h2, c.jwkObject);
    ReadPayloadRoundTrip(p1);
    ReadPayloadRoundTrip(p2);
  }

  /** When the key's JSON also determines the key, the token determines the header itself. */
  lemma HeaderSeenDeterminesHeader<K>(h1: Header<K>, h2: Header<K>, jwkObject: K -> seq<(string, Json)>)
    requires forall a, b :: jwkObject(a) == jwkObject(b) ==> a == b
    requires HeaderSeen(h1, jwkObject) == HeaderSeen(h2, jwkObject)
    ensures h1 == h2
  {
  }
}
