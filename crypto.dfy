/** The bcrypt leaf. Salting and the cost factor are not modelled: `Hash` is
    an injective stand-in whose only observable property is the one bcrypt
    promises, `Compare(p, Hash(q))` exactly when `p == q`. No hash is empty,
    and none equals the placeholder the reset-link flow stores. */
module Crypto {

  const HASH_TAG: string := "$2b$"

  /** The hash stored for a password or an OTP (`bcrypt.hash`); every hash
      carries the bcrypt tag. */
  function Hash(plain: string): (h: string)
    ensures |h| >= |HASH_TAG| && h[..|HASH_TAG|] == HASH_TAG
  {
    HASH_TAG + plain
  }

  /** `bcrypt.compare(plain, stored)`: only a tagged hash can match. */
  predicate Compare(plain: string, stored: string): (ok: bool)
    ensures ok ==> |stored| >= |HASH_TAG| && stored[..|HASH_TAG|] == HASH_TAG
  {
    stored == Hash(plain)
  }

  lemma HashPrefix(plain: string)
    ensures |Hash(plain)| == |HASH_TAG| + |plain|
    ensures Hash(plain)[..|HASH_TAG|] == HASH_TAG
    ensures Hash(plain)[|HASH_TAG|..] == plain
  {
  }

  /** The one property of bcrypt every flow relies on. */
  lemma CompareHash(p: string, q: string)
    ensures Compare(p, Hash(q)) <==> p == q
  {
    if Compare(p, Hash(q)) {
      HashPrefix(p);
      HashPrefix(q);
    }
  }

  /** No stored hash is falsy, so a freshly stored OTP hash always passes the
      "OTP not found" guard. */
  lemma HashNonEmpty(plain: string)
    ensures Hash(plain) != ""
  {
    assert |Hash(plain)| >= |HASH_TAG|;
  }

  /** Nothing compares equal to a value that is not a hash (`""`, `"123"`). */
  lemma CompareNonHash(p: string, stored: string)
    requires |stored| < |HASH_TAG| || stored[..|HASH_TAG|] != HASH_TAG
    ensures !Compare(p, stored)
  {
    if Compare(p, stored) {
      HashPrefix(p);
    }
  }
}
