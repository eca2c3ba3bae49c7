/** The code the handlers call but that is not part of this model: the password hasher, the token
    issuer and verifier, and the pretrained regression model. Each is an arbitrary total function
    supplied by the caller; the few facts the handlers rely on are predicates over them. */
module Collaborators {
  import opened Wrappers

  datatype Env = Env(
    /** `hash_password(password)` (backend/utils/hashing.py:6-7). */
    hashPassword: string -> string,
    /** `verify_password(plain, hashed)` (backend/utils/hashing.py:9-12). */
    verifyPassword: (string, string) -> bool,
    /** `create_access_token({"sub": subject})`. */
    createAccessToken: string -> string,
    /** `verify_token(token)`: the token's subject, or no identity. */
    verifyToken: string -> Option<string>,
    /** `float(model.predict(features)[0])`, or the message of the exception it raised. */
    predict: seq<real> -> Result<real, string>
  )

  /** The hashing library's contract: a password verifies against its own hash. */
  ghost predicate HashingSound(env: Env) {
    forall p :: env.verifyPassword(p, env.hashPassword(p))
  }

  /** The token library's contract: a freshly issued token resolves to its subject. */
  ghost predicate TokensSound(env: Env) {
    forall s :: env.verifyToken(env.createAccessToken(s)) == Some(s)
  }
}
