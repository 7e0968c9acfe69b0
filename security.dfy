/**
 * The password-hashing collaborator (werkzeug's generate_password_hash and
 * check_password_hash), kept opaque. A digest is modelled symbolically as
 * the salt it was drawn with and the password it was computed from: this is
 * an idealised, collision-free salted hash. Nothing outside this module
 * inspects a digest except through CheckPasswordHash.
 */
module Security {

  datatype Digest = Digest(salt: nat, preimage: string)

  /** Hashes a password with a salt; the random salt is a parameter. */
  function GeneratePasswordHash(password: string, salt: nat): (d: Digest)
    ensures forall candidate :: CheckPasswordHash(d, candidate) <==> candidate == password
  {
    Digest(salt, password)
  }

  /** Accepts exactly the password the digest was generated from. */
  predicate CheckPasswordHash(d: Digest, password: string)
  {
    d.preimage == password
  }
}
