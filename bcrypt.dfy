/**
 * bcryptjs as the core uses it: `hash` turns a password into a digest and
 * `compare` checks a password against a digest. The model treats the hash as an
 * injective function and leaves out the salt and the cost factor.
 */
module Bcrypt {

  /** A stored password digest. Nothing but `Hash` builds one and nothing but `Compare` looks inside. */
  datatype Digest = Digest(preimage: string)

  function Hash(password: string): Digest {
    Digest(password)
  }

  predicate Compare(password: string, digest: Digest) {
    Hash(password) == digest
  }

  /** `compare(p, hash(q))` succeeds exactly when `p` is `q`. */
  lemma CompareHash(p: string, q: string)
    ensures Compare(p, Hash(q)) <==> p == q
  {
  }
}
