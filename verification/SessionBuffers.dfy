/** The buffer-level code of session.ts. Key material comes in as buffers the caller keeps, so
    nothing that existed before a call is written; shares, ephemeral and IKM are scrubbed. */
module SessionBuffers {
  import opened Options
  import opened Symbols
  import opened Buffers
  import opened X3dh

  // ---------------------------------------------------------------------------
  // Concatenation and the KDF
  // ---------------------------------------------------------------------------

  function Concat(shares: seq<Term>): (bs: seq<Octet>)
    ensures |bs| == KEY_LENGTH * |shares|
  {
    if shares == [] then [] else Concat(shares[..|shares| - 1]) + Bytes(shares[|shares| - 1])
  }

  lemma {:induction false} ConcatPrefix(shares: seq<Term>, k: nat)
    requires k <= |shares|
    ensures KEY_LENGTH * k <= |Concat(shares)| && Concat(shares)[..KEY_LENGTH * k] == Concat(shares[..k])
  {
    if k == |shares| {
      assert shares[..k] == shares;
    } else {
      var init := shares[..|shares| - 1];
      ConcatPrefix(init, k);
      assert init[..k] == shares[..k];
    }
  }

  lemma ConcatAt(shares: seq<Term>, k: nat)
    requires k < |shares|
    ensures KEY_LENGTH * k < |Concat(shares)| && Concat(shares)[KEY_LENGTH * k] == Of(shares[k], 0)
  {
    ConcatPrefix(shares, k + 1);
    assert shares[..k + 1][..k] == shares[..k];
    assert Concat(shares)[..KEY_LENGTH * (k + 1)][KEY_LENGTH * k] == Of(shares[k], 0);
  }

  ghost predicate AllHold(chunks: seq<Buffer>, shares: seq<Term>)
    reads chunks
  {
    |chunks| == |shares| && forall i :: 0 <= i < |chunks| ==> Holds(chunks[i], shares[i])
  }

  /** Lays the chunks end to end in one new buffer. */
  method ConcatBytes(chunks: seq<Buffer>, ghost shares: seq<Term>) returns (out: Buffer)
    requires AllHold(chunks, shares)
    ensures fresh(out) && out[..] == Concat(shares)
    ensures forall x: Buffer :: Any(x) && fresh(x) ==> x == out
  {
    var total := 0;
    for i := 0 to |chunks|
      invariant total == KEY_LENGTH * i
    {
      total := total + chunks[i].Length;
    }
    out := new Octet[total](_ => Lit(0));
    var offset := 0;
    for i := 0 to |chunks|
      invariant AllHold(chunks, shares)
      invariant offset == KEY_LENGTH * i && out[..offset] == Concat(shares[..i])
      invariant forall x: Buffer :: Any(x) && fresh(x) ==> x == out
    {
      SetAt(out, chunks[i], offset, shares[i]);
      assert shares[..i + 1][..i] == shares[..i];
      offset := offset + chunks[i].Length;
    }
    assert shares[..|chunks|] == shares && out[..] == out[..offset];
  }

  /** `out.set(chunk, offset)`. */
  method SetAt(out: Buffer, chunk: Buffer, offset: nat, ghost share: Term)
    requires Holds(chunk, share) && out != chunk && offset + KEY_LENGTH <= out.Length
    modifies out
    ensures out[..offset + KEY_LENGTH] == old(out[..offset]) + Bytes(share)
    ensures forall x: Buffer :: Any(x) ==> !fresh(x)
  {
    var i := 0;
    while i < chunk.Length
      invariant 0 <= i <= KEY_LENGTH && Holds(chunk, share)
      invariant out[..offset] == old(out[..offset])
      invariant forall x: Buffer :: Any(x) ==> !fresh(x)
      invariant forall j :: 0 <= j < i ==> out[offset + j] == Of(share, j)
    {
      out[offset + i] := chunk[i];
      i := i + 1;
    }
    assert out[offset..offset + KEY_LENGTH] == Bytes(share);
    assert out[..offset + KEY_LENGTH] == out[..offset] + out[offset..offset + KEY_LENGTH];
  }

  /** HKDF as an ideal function of its input bytes. */
  method Hkdf(ikm: Buffer, ghost shares: seq<Term>) returns (out: Buffer)
    requires ikm[..] == Concat(shares)
    ensures fresh(out) && Holds(out, SessionKey(shares))
    ensures forall x: Buffer :: Any(x) && fresh(x) ==> x == out
  {
    var read: seq<Term> := [];
    while |read| < ikm.Length / KEY_LENGTH
      invariant |read| <= |shares| && read == shares[..|read|]
      invariant forall x: Buffer :: Any(x) ==> !fresh(x)
    {
      ConcatAt(shares, |read|);
      assert ikm[KEY_LENGTH * |read|] == ikm[..][KEY_LENGTH * |read|];
      read := read + [ikm[KEY_LENGTH * |read|].t];
    }
    assert read == shares;
    out := Allocate(SessionKey(read));
  }

  method DeriveSessionKey(dhShares: seq<Buffer>, ghost shares: seq<Term>) returns (rootKey: Buffer)
    requires AllHold(dhShares, shares)
    ensures fresh(rootKey) && Holds(rootKey, SessionKey(shares))
    ensures forall x: Buffer :: Any(x) && fresh(x) ==> x == rootKey || Scrubbed(x)
  {
    var ikm := ConcatBytes(dhShares, shares);
    rootKey := Hkdf(ikm, shares);
    Fill0(ikm);
  }

  // ---------------------------------------------------------------------------
  // The two sides
  // ---------------------------------------------------------------------------

  datatype BundleBuffer = BundleBuffer(
    identityPub: Buffer,
    identityEdPub: nat,
    signedPreKeyId: nat,
    signedPreKey: Buffer,
    signature: Signature,
    oneTimePreKeyId: nat,
    oneTimePreKey: OptBuffer)

  datatype InitBuffer = InitBuffer(
    aliceIdentityPub: Buffer,
    ephemeralPub: Buffer,
    signedPreKeyId: nat,
    oneTimePreKeyId: Option<nat>)

  ghost predicate BundleIs(buffer: BundleBuffer, b: Bundle)
    reads buffer.identityPub, buffer.signedPreKey, if buffer.oneTimePreKey == null then {} else {buffer.oneTimePreKey}
  {
    && Holds(buffer.identityPub, b.identityPub) && Holds(buffer.signedPreKey, b.signedPreKey)
    && buffer.identityEdPub == b.identityEdPub && buffer.signature == b.signature
    && buffer.signedPreKeyId == b.signedPreKeyId
    && OptHolds(buffer.oneTimePreKey, if b.oneTimePreKey.None? then None else Some(b.oneTimePreKey.value.publicKey))
    && (b.oneTimePreKey.Some? ==> buffer.oneTimePreKeyId == b.oneTimePreKey.value.keyId)
  }

  ghost predicate InitIs(buffer: InitBuffer, init: SessionInit)
    reads buffer.aliceIdentityPub, buffer.ephemeralPub
  {
    && Holds(buffer.aliceIdentityPub, init.aliceIdentityPub) && Holds(buffer.ephemeralPub, init.ephemeralPub)
    && buffer.signedPreKeyId == init.signedPreKeyId && buffer.oneTimePreKeyId == init.oneTimePreKeyId
  }

  method Scrub(chunks: seq<Buffer>)
    modifies set b | b in chunks
    ensures forall i :: 0 <= i < |chunks| ==> Scrubbed(chunks[i])
    ensures forall x: Buffer :: Any(x) ==> !fresh(x)
  {
    for i := 0 to |chunks|
      invariant forall k :: 0 <= k < i ==> Scrubbed(chunks[k])
      invariant forall x: Buffer :: Any(x) ==> !fresh(x)
    {
      Fill0(chunks[i]);
    }
  }

  /** Alice's shares, in order. */
  method AliceShares(identityPriv: Buffer, ek: Buffer, bundle: BundleBuffer,
                     ghost a: Term, ghost e: Term, ghost b: Bundle)
    returns (shares: seq<Buffer>)
    requires Holds(identityPriv, a) && Holds(ek, e) && BundleIs(bundle, b)
    ensures AllHold(shares, EstablishShares(a, e, b)) && forall k :: 0 <= k < |shares| ==> fresh(shares[k])
    ensures forall x: Buffer :: Any(x) && fresh(x) ==> x in shares || Scrubbed(x)
  {
    var ikA := Copy(identityPriv, a);
    var dh1 := SharedSecret(ikA, bundle.signedPreKey, a, b.signedPreKey);
    var dh2 := SharedSecret(ek, bundle.identityPub, e, b.identityPub);
    var dh3 := SharedSecret(ek, bundle.signedPreKey, e, b.signedPreKey);
    shares := [dh1, dh2, dh3];
    if bundle.oneTimePreKey != null {
      var dh4 := SharedSecret(ek, bundle.oneTimePreKey, e, b.oneTimePreKey.value.publicKey);
      shares := shares + [dh4];
    }
    Fill0(ikA);
  }

  method BobShares(identityPriv: Buffer, spk: Buffer, opk: OptBuffer, init: InitBuffer,
                   ghost b: Term, ghost s: Term, ghost o: Option<Term>, ghost i: SessionInit)
    returns (shares: seq<Buffer>)
    requires Holds(identityPriv, b) && Holds(spk, s) && OptHolds(opk, o) && InitIs(init, i)
    ensures AllHold(shares, AcceptShares(b, s, o, i)) && forall k :: 0 <= k < |shares| ==> fresh(shares[k])
    ensures forall x: Buffer :: Any(x) && fresh(x) ==> x in shares || Scrubbed(x)
  {
    var ikB := Copy(identityPriv, b);
    var dh1 := SharedSecret(spk, init.aliceIdentityPub, s, i.aliceIdentityPub);
    var dh2 := SharedSecret(ikB, init.ephemeralPub, b, i.ephemeralPub);
    var dh3 := SharedSecret(spk, init.ephemeralPub, s, i.ephemeralPub);
    shares := [dh1, dh2, dh3];
    if opk != null {
      var dh4 := SharedSecret(opk, init.ephemeralPub, o.value, i.ephemeralPub);
      shares := shares + [dh4];
    }
    Fill0(ikB);
  }

  function OpkIdOf(bundle: BundleBuffer): Option<nat> {
    if bundle.oneTimePreKey == null then None else Some(bundle.oneTimePreKeyId)
  }

  /** What follows the signature check: the ephemeral pair, the shares, the root, the init record. */
  method Initiate(identityPriv: Buffer, identityPub: Buffer, bundle: BundleBuffer, seed: nat,
                  ghost a: Term, ghost p: Term, ghost b: Bundle)
    returns (rootKey: Buffer, init: InitBuffer)
    requires Holds(identityPriv, a) && Holds(identityPub, p) && BundleIs(bundle, b)
    ensures fresh(rootKey) && Holds(rootKey, SessionKey(EstablishShares(a, Priv(seed), b)))
    ensures InitIs(init, SessionInit(p, Pub(seed), bundle.signedPreKeyId, OpkIdOf(bundle)))
    ensures forall x: Buffer :: Any(x) && fresh(x) ==> 
      x in {rootKey, init.aliceIdentityPub, init.ephemeralPub} || Scrubbed(x)
  {
    var ekPriv := Allocate(Priv(seed));
    var ekPub := Allocate(Pub(seed));
    var shares := AliceShares(identityPriv, ekPriv, bundle, a, Priv(seed), b);
    rootKey := DeriveSessionKey(shares, EstablishShares(a, Priv(seed), b));
    var pub := Copy(identityPub, p);
    Scrub(shares);
    Fill0(ekPriv);
    init := InitBuffer(pub, ekPub, bundle.signedPreKeyId, OpkIdOf(bundle));
  }

  /** Refuses a bundle whose signature does not verify before any key is made; otherwise
      returns the root and the init record of `Establish`. */
  method EstablishSession(identityPriv: Buffer, identityPub: Buffer, bundle: BundleBuffer, seed: nat,
                          ghost a: Term, ghost p: Term, ghost b: Bundle)
    returns (rootKey: OptBuffer, init: Option<InitBuffer>)
    requires Holds(identityPriv, a) && Holds(identityPub, p) && BundleIs(bundle, b)
    ensures match Establish(a, p, b, seed)
            case InvalidSignedPreKey => rootKey == null && init.None?
            case Established(root, i) =>
              && rootKey != null && fresh(rootKey) && Holds(rootKey, root)
              && init.Some? && InitIs(init.value, i)
    ensures rootKey == null <==> b.signature != Signed(b.identityEdPub, b.signedPreKey)
    ensures init.Some? ==> init.value.signedPreKeyId == bundle.signedPreKeyId
    ensures init.None? ==> forall x: Buffer :: Any(x) ==> !fresh(x)
    ensures init.Some? ==> forall x: Buffer :: Any(x) && fresh(x) ==>
      x in {rootKey, init.value.aliceIdentityPub, init.value.ephemeralPub} || Scrubbed(x)
    ensures init.Some? && bundle.oneTimePreKey == null ==> init.value.oneTimePreKeyId == None
    ensures init.Some? && bundle.oneTimePreKey != null ==> init.value.oneTimePreKeyId == Some(bundle.oneTimePreKeyId)
  {
    var signed := Read(bundle.signedPreKey, b.signedPreKey);
    if !Verifies(bundle.signature, signed, bundle.identityEdPub) {
      return null, None;
    }
    var root, record := Initiate(identityPriv, identityPub, bundle, seed, a, p, b);
    rootKey, init := root, Some(record);
  }

  /** Throws when the init record and the caller disagree about a one-time key; otherwise
      returns the root of `Accept`. */
  method AcceptSession(identityPriv: Buffer, spk: Buffer, opk: OptBuffer, init: InitBuffer,
                       ghost b: Term, ghost s: Term, ghost o: Option<Term>, ghost i: SessionInit)
    returns (rootKey: OptBuffer)
    requires Holds(identityPriv, b) && Holds(spk, s) && OptHolds(opk, o) && InitIs(init, i)
    ensures match Accept(b, s, o, i)
            case PreKeyMismatch => rootKey == null
            case Accepted(root) => rootKey != null && fresh(rootKey) && Holds(rootKey, root)
    ensures rootKey == null <==> (init.oneTimePreKeyId.Some? <==> opk == null)
    ensures forall x: Buffer :: Any(x) && fresh(x) ==> x == rootKey || Scrubbed(x)
  {
    var aliceUsedOpk := init.oneTimePreKeyId.Some?;
    var bobHasOpk := opk != null;
    if aliceUsedOpk != bobHasOpk {
      return null;
    }
    var shares := BobShares(identityPriv, spk, opk, init, b, s, o, i);
    rootKey := DeriveSessionKey(shares, AcceptShares(b, s, o, i));
    Scrub(shares);
  }
}
