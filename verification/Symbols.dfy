/** Symbolic cryptography: every 32-byte string the clients hold is a term, X25519 is an
    unordered pair of key ids, the KDFs are one-way constructors and AES-GCM opens exactly
    what was sealed under the same key, IV and additional data. */
module Symbols {

  import opened Options

  datatype Term =
    | Priv(id: nat)                      // an X25519 private key
    | Pub(id: nat)                       // its public half
    | Shared(lo: nat, hi: nat)           // X25519 output of two key pairs, ids in order
    | Mixed(scalar: Term, point: Term)   // X25519 over bytes that are not a key pair's
    | SessionKey(shares: seq<Term>)      // HKDF of the X3DH shares
    | RootKey(root: Term, dh: Term)      // first half of the root KDF
    | ChainKey(root: Term, dh: Term)     // second half of the root KDF
    | NextChain(ck: Term)                // HMAC(ck, 0x02)
    | MessageKey(ck: Term)               // HMAC(ck, 0x01)
    | AesKey(mk: Term)                   // first 32 bytes of HKDF(mk)
    | AesIv(mk: Term)                    // last 12 bytes of HKDF(mk)

  /** One byte: a literal, or the i-th byte of a term. */
  datatype Octet = Lit(v: nat) | Of(t: Term, i: nat)

  type Text = seq<nat>

  datatype Ciphertext =
    | Sealed(key: Term, iv: Term, aad: seq<Octet>, text: Text)
    | Forged(bits: nat)

  const KEY_LENGTH: nat := 32

  /** The 32 bytes of a term. */
  function Bytes(t: Term): (bs: seq<Octet>)
    ensures |bs| == KEY_LENGTH
  {
    seq(KEY_LENGTH, (i: nat) => Of(t, i))
  }

  lemma BytesInjective(t: Term, u: Term)
    requires Bytes(t) == Bytes(u)
    ensures t == u
  {
    assert Bytes(t)[0] == Bytes(u)[0];
  }

  /** X25519. */
  function Agree(scalar: Term, point: Term): Term {
    if scalar.Priv? && point.Pub? then
      Shared(if scalar.id <= point.id then scalar.id else point.id,
             if scalar.id <= point.id then point.id else scalar.id)
    else
      Mixed(scalar, point)
  }

  /** Two honest key pairs agree on a secret, and on nobody else's. */
  lemma AgreeExactly(a: nat, b: nat, c: nat, d: nat)
    ensures Agree(Priv(a), Pub(b)) == Agree(Priv(d), Pub(c)) <==> (a == c && b == d) || (a == d && b == c)
  {
  }

  function Seal(mk: Term, aad: seq<Octet>, text: Text): Ciphertext {
    Sealed(AesKey(mk), AesIv(mk), aad, text)
  }

  function OpenWith(key: Term, iv: Term, aad: seq<Octet>, ct: Ciphertext): Option<Text> {
    if ct.Sealed? && ct.key == key && ct.iv == iv && ct.aad == aad then Some(ct.text) else None
  }

  function Open(mk: Term, aad: seq<Octet>, ct: Ciphertext): Option<Text> {
    OpenWith(AesKey(mk), AesIv(mk), aad, ct)
  }

  /** The n-fold symmetric ratchet. */
  function ChainAt(ck: Term, n: nat): Term {
    if n == 0 then ck else NextChain(ChainAt(ck, n - 1))
  }

  lemma {:induction false} ChainAdd(ck: Term, m: nat, n: nat)
    ensures ChainAt(ChainAt(ck, m), n) == ChainAt(ck, m + n)
  {
    if n > 0 {
      ChainAdd(ck, m, n - 1);
    }
  }

  /** Chains that start from root KDF outputs never meet: a chain key determines the root
      step it came from and its position. */
  lemma {:induction false} ChainInjective(r: Term, d: Term, m: nat, r': Term, d': Term, n: nat)
    requires ChainAt(ChainKey(r, d), m) == ChainAt(ChainKey(r', d'), n)
    ensures m == n && r == r' && d == d'
  {
    if m > 0 && n > 0 {
      ChainInjective(r, d, m - 1, r', d', n - 1);
    }
  }
}
