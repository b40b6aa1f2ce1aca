/** bcryptjs `hash` and `compare`, kept abstract. A stored password is either
    text that was never hashed or the hash of some earlier value under a salt.
    Every digest has a text: the hash's text is what `bcrypt.hash` returns and
    what a later `bcrypt.hash` of that string hashes again. `compare(text, d)`
    holds exactly when `d` is a hash of a value whose text is `text`. A hash's
    text is rendered as `$2a$10$`, the salt, `$` and the text it hashes, so it
    is never the text it hashes. Salts stand for `genSalt`'s random output. */
module Bcrypt {
  import opened Text

  datatype Digest = Plain(text: string) | Hashed(salt: nat, input: Digest)

  /** The prefix bcryptjs writes for version 2a with cost 10. */
  const PREFIX := "$2a$10$"

  /** `bcrypt.hash(value, salt)`: the value may itself be a digest's text. */
  function Hash(value: Digest, salt: nat): (d: Digest)
    ensures d.Hashed? && d.input == value
  {
    Hashed(salt, value)
  }

  /** The string a digest is: the text itself, or the hash string. */
  function TextOf(d: Digest): (t: string)
    ensures d.Plain? ==> t == d.text
    ensures d.Hashed? ==> |t| > |TextOf(d.input)|
  {
    match d
    case Plain(t) => t
    case Hashed(salt, input) => PREFIX + NatToString(salt) + "$" + TextOf(input)
  }

  /** How many times the original text was hashed. */
  function Rounds(d: Digest): nat {
    match d
    case Plain(_) => 0
    case Hashed(_, inner) => 1 + Rounds(inner)
  }

  /** `bcrypt.compare(text, digest)`: true exactly when the digest is a hash
      of a value whose text is `text`; a digest that is no hash never matches. */
  predicate Compare(text: string, d: Digest) {
    d.Hashed? && text == TextOf(d.input)
  }

  /** A password hashed once matches itself and nothing else. */
  lemma CompareHashed(p: string, q: string, salt: nat)
    ensures Compare(q, Hash(Plain(p), salt)) <==> q == p
    ensures Rounds(Hash(Plain(p), salt)) == 1
  {
  }

  /** A value hashed twice matches only the text of its first hash, and no
      longer the text it started from. */
  lemma CompareTwiceHashed(v: Digest, q: string, salt1: nat, salt2: nat)
    ensures Compare(q, Hash(Hash(v, salt1), salt2)) <==> q == TextOf(Hash(v, salt1))
    ensures !Compare(TextOf(v), Hash(Hash(v, salt1), salt2))
    ensures Rounds(Hash(Hash(v, salt1), salt2)) == Rounds(v) + 2
  {
    assert |TextOf(Hash(v, salt1))| > |TextOf(v)|;
  }

  /** A text that matches a digest no longer matches it once the digest is
      hashed again. */
  lemma RehashLosesMatch(q: string, d: Digest, salt: nat)
    requires Compare(q, d)
    ensures !Compare(q, Hash(d, salt))
  {
    assert |TextOf(d)| > |TextOf(d.input)|;
  }
}
