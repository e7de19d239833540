/** The password hasher (bcrypt's `hashSync` and `compareSync`). Its
    internals are not modelled: the service is given a pair of functions, and
    the one property it relies on is stated as a predicate over that pair. */
module PasswordHasher {

  /** `hash(plaintext, cost, salt)` is `hashSync(plaintext, cost)` with the
      random salt that bcrypt draws made an explicit argument;
      `compare(plaintext, hash)` is `compareSync`. */
  datatype Hasher = Hasher(
    hash: (string, nat, string) -> string,
    compare: (string, string) -> bool)

  /** A plaintext always matches a hash made from it, whatever the cost and salt. */
  ghost predicate Sound(h: Hasher) {
    forall plaintext, cost, salt :: h.compare(plaintext, h.hash(plaintext, cost, salt))
  }
}
