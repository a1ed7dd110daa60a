/**
 * A `java.security.Signature` object as `signJWT` uses it. The cryptography is
 * the provider's and is represented by the scheme the object is initialised
 * with for signing.
 */
module Signing {
  import opened Base

  /** What `sign()` produces: the signature bytes, or a `SignatureException`. */
  datatype Outcome = Signed(signature: seq<byte>) | Failed

  /**
   * A scheme that ignores how many signatures were made before, i.e. one that
   * draws no fresh randomness per signature.
   */
  ghost predicate Deterministic(scheme: (seq<byte>, nat) -> Outcome)
  {
    forall message, n1, n2 :: scheme(message, n1) == scheme(message, n2)
  }

  class Signer {
    /**
     * The provider's algorithm under the key given to `initSign`: the outcome
     * of signing `message` as the object's `n`-th signature (counting from 0).
     * The count stands for the provider's internal randomness.
     */
    var scheme: (seq<byte>, nat) -> Outcome

    /** Whether `initSign` has been called; until then `update` and `sign` throw. */
    var initialized: bool

    /** The bytes passed to `update` since `initSign` or the last successful `sign`. */
    var message: seq<byte>

    /** Every message `sign` signed, in call order. */
    var signed: seq<seq<byte>>

    /**
     * `Signature.getInstance(algorithm)`: an object not yet initialised with a
     * key. No key is bound, so its scheme fails on every message until `initSign`.
     */
    constructor GetInstance()
      ensures !initialized && message == [] && signed == []
      ensures forall m, n :: scheme(m, n) == Failed
    {
      this.scheme := (m, n) => Failed;
      initialized := false;
      message := [];
      signed := [];
    }

    /** `initSign(key)`: binds the key's scheme and discards any message fed so far. */
    method InitSign(scheme: (seq<byte>, nat) -> Outcome)
      modifies this
      ensures this.scheme == scheme
      ensures initialized && message == [] && signed == old(signed)
    {
      this.scheme := scheme;
      initialized := true;
      message := [];
    }

    /**
     * `update(data)`: the data is appended to the message to be signed. On an
     * object that was never initialised it throws (`ok` is false) and changes nothing.
     */
    method Update(data: seq<byte>) returns (ok: bool)
      modifies this
      ensures ok == old(initialized)
      ensures message == if ok then old(message) + data else old(message)
      ensures signed == old(signed)
      ensures initialized == old(initialized) && scheme == old(scheme)
    {
      ok := initialized;
      if ok {
        message := message + data;
      }
    }

    /**
     * `sign()`: signs everything fed since the last reset. A successful call
     * resets the object for the next message; after a failure Java leaves the
     * object's state unspecified, so nothing is promised about `message`. On an
     * object that was never initialised it throws and signs nothing.
     */
    method Sign() returns (r: Outcome)
      modifies this
      ensures initialized == old(initialized) && scheme == old(scheme)
      ensures !old(initialized) ==> r == Failed && signed == old(signed)
      ensures old(initialized) ==> signed == old(signed) + [old(message)]
      ensures old(initialized) ==> r == scheme(old(message), |old(signed)|)
      ensures r.Signed? ==> message == []
    {
      if !initialized {
        r := Failed;
      } else {
        r := scheme(message, |signed|);
        signed := signed + [message];
        if r.Signed? {
          message := [];
        }
      }
    }
  }
}
