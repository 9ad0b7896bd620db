/**
 * bcryptjs seen from outside. The salt and the cost factor are not modelled:
 * `hash` is a fixed function of the plain code, and `compare` yields `None`
 * where bcryptjs throws (a value that is not a stored hash).
 */
module Bcrypt {
  import opened Wrappers

  datatype Hasher = Hasher(hash: string -> string, compare: (string, string) -> Option<bool>)

  /**
   * The library's contract: a code always matches its own hash, and a hash is
   * never the empty string (bcrypt digests are 60 characters long).
   */
  ghost predicate Sound(h: Hasher) {
    && (forall p :: h.compare(p, h.hash(p)) == Some(true))
    && (forall p :: h.hash(p) != "")
  }
}
