/** The password hash, as a value. The real hash is a salted one-way bcrypt
    digest; the model keeps the salt and the password so that `Compare` can be
    stated, and nothing else in the model looks inside a hash. */
module Credentials {

  datatype PasswordHash = Bcrypt(salt: nat, secret: string)

  /** `bcrypt.hash(password, 10)`; the salt is the random part, passed in. */
  function Hash(password: string, salt: nat): (hash: PasswordHash) {
    Bcrypt(salt, password)
  }

  /** `bcrypt.compare(password, hash)`. */
  predicate Compare(password: string, hash: PasswordHash) {
    hash.secret == password
  }

  /** A hash matches the password it was made from, whatever the salt, and no other. */
  lemma CompareHash(password: string, other: string, salt: nat)
    ensures Compare(password, Hash(password, salt))
    ensures other != password ==> !Compare(other, Hash(password, salt))
  {
  }
}
