# Signed challenge tokens of the Authgear Android SDK

This project models `JWT.kt` of the Authgear Android SDK. The SDK uses that file to build the
compact signed token sent for anonymous and biometric login challenges. The format is the
JWS compact serialisation of section 7.1 of RFC 7515, with the base64url encoding of
section 5 of RFC 4648. The model covers:

- **The header-type tag** (`JWTHeaderType`). It is the datatype `Jwt.HeaderType`, and each
  tag maps to its wire string: `vnd.authgear.anonymous-request` or
  `vnd.authgear.biometric-request`.
- **The header and payload objects** (`JWTHeader.toJsonObject`, `JWTPayload.toJsonObject`).
  Both are methods that fill an insertion-ordered mutable map one key at a time. That map is
  `mutableMapOf`, a `LinkedHashMap`, and is modelled as the class
  `JsonMaps.MutableJsonMap`. Its `Set` method is specified by the function `JsonMaps.Put`:
  - a new key is appended;
  - an existing key keeps its place and takes the new value.

  A JSON object is the ordered list of its members, so key order is part of the value.
- **The payload's `Instant` constructor** (`Jwt.PayloadAt`). It takes the epoch second as a
  parameter and sets the expiry 60 seconds later. Kotlin's `Long` is the newtype
  `Base.Long`. The requires clause is the range of `Instant.getEpochSecond()`, and over that
  range the addition is proved not to overflow.
- **`signJWT`** (`Jwt.SignJwt`). It runs against the class `Signing.Signer`, which models a
  `java.security.Signature`:
  - `GetInstance` creates an object that is not yet initialised;
  - `InitSign` binds the key's signing scheme and empties the message;
  - `Update` appends bytes to the message, or fails on an uninitialised object;
  - `Sign` signs the message, logs it in `signed` and, when it succeeds, empties the message.

  `Sign` gets its signature from the `scheme` bound by `InitSign`. On an initialised signer,
  the method's contract states four things:
  - exactly one `sign` call is added to the log;
  - the message it signs is what the object already held, followed by the UTF-8 bytes of
    `base64url(header) "." base64url(payload)`;
  - the result is that signing input, then `"."`, then base64url of the signature;
  - a failing `sign` gives `Err(SigningFailure)`.

  On an uninitialised signer, the result is `Err(SigningFailure)` and nothing is signed.

The library functions that `signJWT` calls are defined outside `JWT.kt`: `base64UrlEncode`,
`String.toUTF8()`, `Json.encodeToString` and `JWK.toJsonObject()`. They are passed in as the
function values of `Jwt.Codecs`. Two assumptions about them are stated as predicates and
required only by the lemmas that need them:

- `Codecs.UrlSafe`: base64url output uses only the RFC 4648 section 5 alphabet, with no
  padding, and so contains no `'.'`.
- `Codecs.Injective`: the encoders lose no information.

Two partner readers, `Jwt.ReadHeader` and `Jwt.ReadPayload`, read the JSON objects back the
way a verifier parsing the token would. Round-trip lemmas tie them to the builders.
`Compact.Split` and `Compact.Join` give the token's three-segment shape.

`signJWT` does not reset the `Signature` object before its `update`. The object therefore
signs whatever it already held, followed by the signing input. `Jwt.SignJwt` states this
through `old(signer.message)`. The signer signs exactly the signing input when its message
is empty, that is, just after `Signing.Signer.InitSign` or after a successful `sign`.

`JWT.kt` catches no exceptions. The `SignatureException` that `update` throws on an object
never initialised for signing escapes `signJWT`, and so does the one `sign` throws. Both
become `Err(SigningFailure)`.

## Model

| member | source | states |
|---|---|---|
| `Jwt.HeaderType.Value` | sdk/src/main/java/com/oursky/authgear/JWT.kt:11-14 | each tag's wire string: ANONYMOUS is `vnd.authgear.anonymous-request` and BIOMETRIC is `vnd.authgear.biometric-request`, both of the form `vnd.authgear.<purpose>-request` |
| `Jwt.HeaderTypeOf` | sdk/src/main/java/com/oursky/authgear/JWT.kt:11-14 | any tag recovered from a string has that string as its wire value |
| `Jwt.HeaderTypeRoundTrip` | sdk/src/main/java/com/oursky/authgear/JWT.kt:11-14 | each tag is recovered from its own wire string, so ANONYMOUS and BIOMETRIC map to distinct strings |
| `Jwt.HeaderTypeValueInjective` | sdk/src/main/java/com/oursky/authgear/JWT.kt:11-14 | two tags have the same wire string if and only if they are the same tag |
| `JsonMaps.MutableJsonMap.constructor` | sdk/src/main/java/com/oursky/authgear/JWT.kt:24 | `mutableMapOf()` starts empty and with distinct keys |
| `JsonMaps.MutableJsonMap.Set` | sdk/src/main/java/com/oursky/authgear/JWT.kt:25-29 | `map[key] = value` keeps the keys distinct, and the new entries are the old ones with the key put in insertion order |
| `JsonMaps.PutNew` | sdk/src/main/java/com/oursky/authgear/JWT.kt:25-29 | putting a key not yet present appends it after all earlier keys |
| `JsonMaps.PutPresent` | sdk/src/main/java/com/oursky/authgear/JWT.kt:25-29 | putting a present key replaces its value in place and moves nothing |
| `JsonMaps.PutLookup` | sdk/src/main/java/com/oursky/authgear/JWT.kt:25-29 | after a put the key holds the new value, and every other key holds what it held before |
| `JsonMaps.PutKeys` | sdk/src/main/java/com/oursky/authgear/JWT.kt:25-29 | a put adds its key at the end if the key is new, and otherwise leaves the key list unchanged |
| `JsonMaps.PutKeepsDistinct` | sdk/src/main/java/com/oursky/authgear/JWT.kt:25-29 | a put never makes a key appear twice |
| `Jwt.HeaderToJsonObject` | sdk/src/main/java/com/oursky/authgear/JWT.kt:23-32 | the map built by inserting `typ`, `kid`, `alg` and, only for a non-null key, `jwk` is the object with those members in that order |
| `Jwt.HeaderLayout` | sdk/src/main/java/com/oursky/authgear/JWT.kt:24-31 | the header's keys are exactly `typ`, `kid`, `alg`, plus a final `jwk` when the key is non-null; there are 3 or 4 members, no key twice and no null value |
| `Jwt.HeaderValues` | sdk/src/main/java/com/oursky/authgear/JWT.kt:25-30 | `typ` holds the tag's wire string, `kid` and `alg` hold the fields, and `jwk` is present exactly when the key is non-null, holding the key's JSON object |
| `Jwt.ReadHeaderRoundTrip` | sdk/src/main/java/com/oursky/authgear/JWT.kt:23-32 | reading the header object back yields the tag, `kid`, `alg` and the key's JSON, with the key absent when it was null |
| `Jwt.HeaderSeenDeterminesHeader` | sdk/src/main/java/com/oursky/authgear/JWT.kt:28-30 | when `JWK.toJsonObject` is injective, what the header JSON shows determines the header |
| `Jwt.PayloadAt` | sdk/src/main/java/com/oursky/authgear/JWT.kt:41-46 | for every `Instant` epoch second: `iat` is that second, `exp - iat` is 60 with no Long overflow, and challenge and action are copied unchanged |
| `Jwt.PayloadToJsonObject` | sdk/src/main/java/com/oursky/authgear/JWT.kt:49-56 | the map built by inserting the four claims is the object with members `iat`, `exp`, `challenge`, `action` holding the payload's fields |
| `Jwt.PayloadLayout` | sdk/src/main/java/com/oursky/authgear/JWT.kt:50-55 | the payload's keys are exactly `iat`, `exp`, `challenge`, `action`, in that order and distinct |
| `Jwt.ReadPayloadRoundTrip` | sdk/src/main/java/com/oursky/authgear/JWT.kt:49-56 | reading the payload object back yields the payload itself |
| `Jwt.ReadPayloadWindow` | sdk/src/main/java/com/oursky/authgear/JWT.kt:41-56 | a payload made at an epoch second reads back with `iat` equal to that second and `exp` 60 seconds later |
| `Signing.Signer.GetInstance` | sdk/src/main/java/com/oursky/authgear/JWT.kt:58 | a `Signature` object starts uninitialised, with no key bound, no bytes fed and nothing signed |
| `Signing.Signer.InitSign` | sdk/src/main/java/com/oursky/authgear/JWT.kt:58 | `initSign` binds the key's scheme, marks the object initialised and empties the message, leaving earlier signatures logged |
| `Signing.Signer.Update` | sdk/src/main/java/com/oursky/authgear/JWT.kt:60 | `update` succeeds exactly when the object is initialised; it then appends its bytes to the message and signs nothing, and otherwise it changes nothing |
| `Signing.Signer.Sign` | sdk/src/main/java/com/oursky/authgear/JWT.kt:61 | on an initialised object `sign` signs exactly the message fed so far, logs it once and empties the message on success; on an uninitialised one it fails and signs nothing |
| `Jwt.SignJwt` | sdk/src/main/java/com/oursky/authgear/JWT.kt:58-63 | on an initialised signer: one `sign`, over the held bytes followed by the UTF-8 signing input `b64(header) "." b64(payload)`, and the result is that input `"."` b64(signature), or `SigningFailure` when `sign` fails; on an uninitialised one: `SigningFailure`, with nothing signed |
| `Jwt.SignTwiceDeterministic` | sdk/src/main/java/com/oursky/authgear/JWT.kt:58-63 | two calls to `signJWT` with one deterministic signer, re-initialised in between, return identical results; the first signs exactly the signing input, and a token splits into three segments |
| `Jwt.TokenSegments` | sdk/src/main/java/com/oursky/authgear/JWT.kt:59-62 | with a URL-safe base64url, the token is three base64url segments joined by `'.'`, splits back into exactly those three, and begins with the signing input |
| `Jwt.TokenDeterminesInputs` | sdk/src/main/java/com/oursky/authgear/JWT.kt:59-62 | with injective encoders, equal tokens have equal payloads, equal signatures and headers whose JSON is equal |
| `Compact.Split` | sdk/src/main/java/com/oursky/authgear/JWT.kt:62 | splitting a token on `'.'` always yields at least one segment |
| `Compact.SplitJoin` | sdk/src/main/java/com/oursky/authgear/JWT.kt:59-62 | segments without `'.'` that are joined by `'.'` split back into the same segments |
| `Compact.JoinSplit` | sdk/src/main/java/com/oursky/authgear/JWT.kt:59-62 | rejoining the segments of any text gives back the text |

## Left out

- `base64UrlEncode`, `toUTF8`, `Json.encodeToString` and `JWK.toJsonObject` are not part of
  this model. They are the function values of `Jwt.Codecs`. Their only stated properties are
  `Codecs.UrlSafe` (the RFC 4648 section 5 alphabet, without padding) and
  `Codecs.Injective`. The byte-level text they produce is not modelled.
- The JWK type is not part of this model: `Jwt.Header` is generic in it.
- The cryptography behind `java.security.Signature` (RSA/EC in a security provider) is the
  `scheme` that `Signing.Signer.InitSign` binds. A scheme's per-signature randomness is represented
  by the count of earlier signatures.
- A `Signature` initialised for verification (`initVerify`) is not modelled. Only the
  uninitialised and signing states are.
- Signing.Signer.Sign: nothing is promised about the message buffer after a failed `sign`,
  because Java leaves the object's state unspecified after a `SignatureException`.
- `java.time.Instant` and the clock are not modelled: `Jwt.PayloadAt` takes the epoch second
  as an integer within `Instant`'s range.
- The primary `JWTPayload` constructor accepts any two Longs. The 60-second window is
  guaranteed only for payloads made by the `Instant` constructor.
- The planned "device info" payload field (`JWT.kt:39`) has no behaviour; the payload keeps
  its four claims.
- Kotlin strings are UTF-16. The model's strings are sequences of Unicode scalar values, so
  unpaired surrogates are not represented.
- Exceptions are modelled only where `signJWT` can raise them, in `update()` and `sign()`.
  Both are returned as `Err(SigningFailure)`.
