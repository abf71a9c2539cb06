/** The credential hasher (bcrypt), abstracted as a free term constructor. */
module Crypto {
  import opened Base

  /** What a password field holds. A string a client sends is either some plaintext, or
      the text of a bcrypt digest of some earlier content, which is a string like any
      other. Salt and cost factor are not modelled; as a term constructor, hashing is
      collision-free. */
  datatype Secret = Plain(text: string) | Hashed(input: Secret)

  /** `!password` on a password field: absent or the empty string. A digest's text is
      never empty. */
  predicate Filled(field: Option<Secret>) {
    field.Some? && field.value != Plain("")
  }

  /** No digest equals the content it was computed from. */
  lemma {:induction false} NoFixpoint(s: Secret)
    ensures Hashed(s) != s
  {
    match s
    case Plain(_) =>
    case Hashed(inner) =>
      NoFixpoint(inner);
  }

  /** `bcrypt.hash(value, 10)`. */
  function Hash(s: Secret): (h: Secret)
    ensures h != s
  {
    NoFixpoint(s);
    Hashed(s)
  }

  /** `bcrypt.compare(candidate, digest)`: the candidate string hashes to the digest. */
  predicate Verify(candidate: Secret, digest: Secret) {
    digest == Hash(candidate)
  }

  /** A digest of `p` verifies `p` and nothing else. */
  lemma VerifyHashOf(p: Secret, q: Secret)
    ensures Verify(q, Hash(p)) <==> q == p
  {
  }

  /** A digest of a digest of `p` verifies no plaintext at all; the one string it
      verifies is the text of the intermediate digest of `p`. */
  lemma DoubleHashVerifiesOnlyIntermediate(p: Secret, q: Secret)
    ensures Verify(q, Hash(Hash(p))) <==> q == Hash(p)
    ensures forall t :: !Verify(Plain(t), Hash(Hash(p)))
  {
  }
}
