/** Symbolic cryptography: hashes are injective, Diffie-Hellman commutes, sealed boxes open only under their own key. */
module Crypto {
  datatype Term =
    | Text(text: string)
    | Empty
    | Payload(bytes: seq<int>)
    | Public(secret: nat)
    | Shared(secrets: multiset<nat>)
    | Hash(data: Term)
    | HashPair(h: Term, data: Term)
    | Hmac(key: Term, data: Term)
    | Append(data: Term, last: int)
    | Sealed(key: Term, nonce: int, plain: Term, ad: Term)
    | Junk(id: int)

  datatype Result<T> = Ok(value: T) | Err

  /** Fails when the other side's bytes are not the public key of any secret (a low-order point). */
  function ECDH(secret: nat, pub: Term): Result<Term> {
    if pub.Public? then Ok(Shared(multiset{secret, pub.secret})) else Err
  }

  lemma EcdhCommutes(a: nat, b: nat, c: nat, d: nat)
    ensures ECDH(a, Public(b)) == ECDH(b, Public(a))
    ensures ECDH(a, Public(b)) == ECDH(a, Public(d)) ==> b == d
  {
    assert multiset{a, b} == multiset{b, a};
    if multiset{a, b} == multiset{a, d} {
      assert multiset{a, b} - multiset{a} == multiset{b};
      assert multiset{a, d} - multiset{a} == multiset{d};
      assert b in multiset{d};
    }
  }

  function Open(key: Term, nonce: int, box: Term, ad: Term): Result<Term> {
    if box.Sealed? && box == Sealed(key, nonce, box.plain, ad) then Ok(box.plain) else Err
  }

  function MixKey(ck: Term, input: Term): (Term, Term) {
    var k1 := Hmac(ck, Append(input, 1));
    (k1, Hmac(ck, Append(k1, 2)))
  }

  function MixHash(h: Term, data: Term): Term {
    HashPair(h, data)
  }

  function Split(ck: Term): (Term, Term) {
    var k1 := Hmac(ck, Append(Empty, 1));
    (k1, Hmac(ck, Append(k1, 2)))
  }

  lemma MixKeyInjective(ck: Term, input: Term, ck': Term, input': Term)
    requires MixKey(ck, input).1 == MixKey(ck', input').1
    ensures ck == ck' && input == input'
  {
  }

  /** The two directions of one session never share a key, and equal keys mean equal chaining keys. */
  lemma SplitSeparates(ck: Term, ck': Term)
    ensures Split(ck).0 != Split(ck).1
    ensures Split(ck).0 == Split(ck').0 || Split(ck).1 == Split(ck').1 ==> ck == ck'
    ensures ck != ck' ==> Split(ck).0 != Split(ck').1
  {
  }
}
