/** The X3DH bootstrap of packages/crypto/src/session.ts: what the two sides derive, exactly
    when they derive the same root, and what that decides for the first message. */
module X3dh {
  import opened Options
  import opened Symbols
  import opened Ratchet
  import opened History
  import opened Conversation
  import opened InStep
  import opened Ledger
  import opened Secrecy

  /** Ideal Ed25519: a signature verifies exactly when that key signed that message. */
  datatype Signature = Signed(signer: nat, message: Term) | Bogus(bits: nat)

  predicate Verifies(sig: Signature, message: Term, edPub: nat) {
    sig == Signed(edPub, message)
  }

  datatype OneTimeKey = OneTimeKey(keyId: nat, publicKey: Term)

  datatype Bundle = Bundle(
    identityPub: Term,
    identityEdPub: nat,
    signedPreKeyId: nat,
    signedPreKey: Term,
    signature: Signature,
    oneTimePreKey: Option<OneTimeKey>)

  datatype SessionInit = SessionInit(
    aliceIdentityPub: Term,
    ephemeralPub: Term,
    signedPreKeyId: nat,
    oneTimePreKeyId: Option<nat>)

  datatype Established = Established(rootKey: Term, init: SessionInit) | InvalidSignedPreKey

  datatype Accepted = Accepted(rootKey: Term) | PreKeyMismatch

  function EstablishShares(ikA: Term, ek: Term, b: Bundle): seq<Term> {
    [Agree(ikA, b.signedPreKey), Agree(ek, b.identityPub), Agree(ek, b.signedPreKey)] +
    match b.oneTimePreKey
    case None => []
    case Some(opk) => [Agree(ek, opk.publicKey)]
  }

  function AcceptShares(ikB: Term, spk: Term, opk: Option<Term>, init: SessionInit): seq<Term> {
    [Agree(spk, init.aliceIdentityPub), Agree(ikB, init.ephemeralPub), Agree(spk, init.ephemeralPub)] +
    match opk
    case None => []
    case Some(k) => [Agree(k, init.ephemeralPub)]
  }

  function Establish(ikA: Term, ikAPub: Term, b: Bundle, seed: nat): Established {
    if !Verifies(b.signature, b.signedPreKey, b.identityEdPub) then InvalidSignedPreKey
    else
      var opkId := match b.oneTimePreKey case None => None case Some(opk) => Some(opk.keyId);
      Established(SessionKey(EstablishShares(ikA, Priv(seed), b)),
                  SessionInit(ikAPub, Pub(seed), b.signedPreKeyId, opkId))
  }

  function Accept(ikB: Term, spk: Term, opk: Option<Term>, init: SessionInit): Accepted {
    if init.oneTimePreKeyId.Some? != opk.Some? then PreKeyMismatch
    else Accepted(SessionKey(AcceptShares(ikB, spk, opk, init)))
  }

  // ---------------------------------------------------------------------------
  // Refusal, and what is sent
  // ---------------------------------------------------------------------------

  /** A bundle is refused exactly if its prekey does not carry the signature of its own identity key.
      Otherwise the root is the KDF of DH1, DH2, DH3 and, with a one-time key, DH4, in that order,
      and the init record names Alice's two keys and the bundle's own key ids. */
  lemma EstablishExactly(a: Term, p: Term, b: Bundle, seed: nat)
    ensures Establish(a, p, b, seed).InvalidSignedPreKey? <==> b.signature != Signed(b.identityEdPub, b.signedPreKey)
    ensures b.signature == Signed(b.identityEdPub, b.signedPreKey) && b.oneTimePreKey.None? ==>
      Establish(a, p, b, seed) == Established(
        SessionKey([Agree(a, b.signedPreKey), Agree(Priv(seed), b.identityPub), Agree(Priv(seed), b.signedPreKey)]),
        SessionInit(p, Pub(seed), b.signedPreKeyId, None))
    ensures b.signature == Signed(b.identityEdPub, b.signedPreKey) && b.oneTimePreKey.Some? ==>
      Establish(a, p, b, seed) == Established(
        SessionKey([Agree(a, b.signedPreKey), Agree(Priv(seed), b.identityPub), Agree(Priv(seed), b.signedPreKey),
                    Agree(Priv(seed), b.oneTimePreKey.value.publicKey)]),
        SessionInit(p, Pub(seed), b.signedPreKeyId, Some(b.oneTimePreKey.value.keyId)))
  {
    var three := [Agree(a, b.signedPreKey), Agree(Priv(seed), b.identityPub), Agree(Priv(seed), b.signedPreKey)];
    match b.oneTimePreKey
    case None =>
      assert three + [] == three;
    case Some(k) =>
      assert three + [Agree(Priv(seed), k.publicKey)]
          == [three[0], three[1], three[2], Agree(Priv(seed), k.publicKey)];
  }

  /** A key nobody signed for is turned away, whoever offers it. */
  lemma ForgedBundleRefused(a: Term, p: Term, b: Bundle, seed: nat, other: nat, bits: nat)
    requires b.signature == Bogus(bits) || (b.signature == Signed(other, b.signedPreKey) && other != b.identityEdPub)
    ensures Establish(a, p, b, seed) == InvalidSignedPreKey
  {
    EstablishExactly(a, p, b, seed);
  }

  /** The responder's root, in the same order; he refuses exactly if he and the init record disagree
      about a one-time key. */
  lemma AcceptExactly(ikB: Term, spk: Term, opk: Option<Term>, init: SessionInit)
    ensures Accept(ikB, spk, opk, init).PreKeyMismatch? <==> (init.oneTimePreKeyId.Some? <==> opk.None?)
    ensures init.oneTimePreKeyId.None? && opk.None? ==>
      Accept(ikB, spk, opk, init) == Accepted(
        SessionKey([Agree(spk, init.aliceIdentityPub), Agree(ikB, init.ephemeralPub), Agree(spk, init.ephemeralPub)]))
    ensures init.oneTimePreKeyId.Some? && opk.Some? ==>
      Accept(ikB, spk, opk, init) == Accepted(
        SessionKey([Agree(spk, init.aliceIdentityPub), Agree(ikB, init.ephemeralPub), Agree(spk, init.ephemeralPub),
                    Agree(opk.value, init.ephemeralPub)]))
  {
    var three := [Agree(spk, init.aliceIdentityPub), Agree(ikB, init.ephemeralPub), Agree(spk, init.ephemeralPub)];
    match opk
    case None =>
      assert three + [] == three;
    case Some(k) =>
      assert three + [Agree(k, init.ephemeralPub)] == [three[0], three[1], three[2], Agree(k, init.ephemeralPub)];
  }

  // ---------------------------------------------------------------------------
  // Agreement
  // ---------------------------------------------------------------------------

  /** What Alice believes Bob's keys to be, by key pair id. */
  datatype Keys = Keys(identity: nat, signed: nat, oneTime: Option<nat>)

  function BundleOf(k: Keys, edPub: nat, signedPreKeyId: nat, opkId: nat): Bundle {
    Bundle(Pub(k.identity), edPub, signedPreKeyId, Pub(k.signed), Signed(edPub, Pub(k.signed)),
           match k.oneTime case None => None case Some(o) => Some(OneTimeKey(opkId, Pub(o))))
  }

  function PrivOf(k: Option<nat>): Option<Term> {
    match k case None => None case Some(o) => Some(Priv(o))
  }

  /** The init record as it reached Bob: his own view of Alice's identity and ephemeral keys. */
  function InitOf(identity: nat, ephemeral: nat, sent: SessionInit): SessionInit {
    sent.(aliceIdentityPub := Pub(identity), ephemeralPub := Pub(ephemeral))
  }

  /** Whether three or four shares are mixed, the two roots are the same exactly when Bob holds
      the very keys the bundle advertised and saw Alice's own identity and ephemeral keys. */
  lemma RootsAgreeExactly(a: nat, e: nat, k: Keys, k': Keys, a': nat, e': nat, ed: nat, spkId: nat, opkId: nat)
    requires e != k'.signed
    ensures var sent := Establish(Priv(a), Pub(a), BundleOf(k, ed, spkId, opkId), e);
      sent.Established? &&
      var got := Accept(Priv(k'.identity), Priv(k'.signed), PrivOf(k'.oneTime), InitOf(a', e', sent.init));
      && (got.PreKeyMismatch? <==> k.oneTime.Some? != k'.oneTime.Some?)
      && (got == Accepted(sent.rootKey) <==> k == k' && a == a' && e == e')
  {
    var sent := Establish(Priv(a), Pub(a), BundleOf(k, ed, spkId, opkId), e);
    var init := InitOf(a', e', sent.init);
    if k.oneTime.Some? == k'.oneTime.Some? {
      var x := EstablishShares(Priv(a), Priv(e), BundleOf(k, ed, spkId, opkId));
      var y := AcceptShares(Priv(k'.identity), Priv(k'.signed), PrivOf(k'.oneTime), init);
      AgreeExactly(a, k.signed, a', k'.signed);
      AgreeExactly(e, k.identity, e', k'.identity);
      AgreeExactly(e, k.signed, e', k'.signed);
      if x == y {
        assert x[0] == y[0] && x[1] == y[1] && x[2] == y[2];
        if k.oneTime.Some? {
          AgreeExactly(e, k.oneTime.value, e', k'.oneTime.value);
          assert x[3] == y[3];
        }
      }
    }
  }

  /** The key pairs a responder holds, his prekeys by key id. */
  datatype PreKeys = PreKeys(identity: nat, signed: map<nat, nat>, oneTime: map<nat, nat>)

  predicate Injective(m: map<nat, nat>) {
    forall i, j :: i in m && j in m && m[i] == m[j] ==> i == j
  }

  /** The private half under an id of the init record. */
  function LookUp(keys: map<nat, nat>, id: Option<nat>): Option<Term>
    requires id.Some? ==> id.value in keys
  {
    match id case None => None case Some(i) => Some(Priv(keys[i]))
  }

  /** A bundle the responder published, one-time key included if he names one. */
  function Published(store: PreKeys, ed: nat, spkId: nat, opkId: Option<nat>): Bundle
    requires spkId in store.signed && (opkId.Some? ==> opkId.value in store.oneTime)
  {
    Bundle(Pub(store.identity), ed, spkId, Pub(store.signed[spkId]), Signed(ed, Pub(store.signed[spkId])),
           match opkId case None => None case Some(o) => Some(OneTimeKey(o, Pub(store.oneTime[o]))))
  }

  /** The ids of the init record are what the responder needs: looking his keys up by them he gets
      the initiator's root, and by any other ids a different one. */
  lemma IdsFindTheKeys(a: nat, e: nat, store: PreKeys, ed: nat, spkId: nat, opkId: Option<nat>, s: nat, o: Option<nat>)
    requires spkId in store.signed && (opkId.Some? ==> opkId.value in store.oneTime)
    requires s in store.signed && (o.Some? ==> o.value in store.oneTime) && o.Some? == opkId.Some?
    requires Injective(store.signed) && Injective(store.oneTime) && e !in store.signed.Values
    ensures var sent := Establish(Priv(a), Pub(a), Published(store, ed, spkId, opkId), e);
      sent.Established? &&
      var got := Accept(Priv(store.identity), Priv(store.signed[s]), LookUp(store.oneTime, o), sent.init);
      got == Accepted(sent.rootKey) <==> s == sent.init.signedPreKeyId && o == sent.init.oneTimePreKeyId
  {
    var mine := Keys(store.identity, store.signed[spkId],
                     if opkId.None? then None else Some(store.oneTime[opkId.value]));
    var found := Keys(store.identity, store.signed[s], if o.None? then None else Some(store.oneTime[o.value]));
    var id := if opkId.None? then 0 else opkId.value;
    assert BundleOf(mine, ed, spkId, id) == Published(store, ed, spkId, opkId);
    RootsAgreeExactly(a, e, mine, found, a, e, ed, spkId, id);
  }

  // ---------------------------------------------------------------------------
  // The first messages
  // ---------------------------------------------------------------------------

  /** The sender's session after n messages. */
  function SenderAfter(rootKey: Term, prekey: nat, first: nat, n: nat): State {
    var s := InitSender(rootKey, Pub(prekey), first);
    s.(sendingChainKey := Some(ChainAt(s.sendingChainKey.value, n)), sendingMessageNumber := n)
  }

  lemma SenderAfterStep(rootKey: Term, prekey: nat, first: nat, n: nat)
    ensures AfterEncrypt(SenderAfter(rootKey, prekey, first, n)) == SenderAfter(rootKey, prekey, first, n + 1)
  {
  }

  /** What Bob's new session makes of message n of Alice's first chain, when it is the first he
      sees: it opens exactly when both hold one root and one prekey; a number over the cap is
      reported lost unread. */
  lemma FirstMessage(ra: Term, rb: Term, prekey: nat, prekey': nat, first: nat, n: nat, text: Text, seed: nat)
    requires n < U32 && first != prekey'
    ensures var m := NextEnvelope(SenderAfter(ra, prekey, first, n), text);
      Decrypt(InitReceiver(rb, Priv(prekey'), Pub(prekey')), m.header, m.ciphertext, seed).result ==
        if n > MAX_SKIPPED_KEYS then MessageLost(n)
        else if ra == rb && prekey == prekey' then Plaintext(text)
        else InvalidMessage
  {
    var a, b := Agree(Priv(first), Pub(prekey)), Agree(Priv(prekey'), Pub(first));
    AgreeExactly(first, prekey, first, prekey');
    if MessageKey(ChainAt(ChainKey(ra, a), n)) == MessageKey(ChainAt(ChainKey(rb, b), n)) {
      ChainInjective(ra, a, n, rb, b, n);
    }
  }

  /** First contact: Alice's first message opens at Bob exactly when he holds the keys her
      bundle advertised and the init record named her own. */
  lemma FirstContact(a: nat, e: nat, k: Keys, k': Keys, a': nat, e': nat, ed: nat, spkId: nat, opkId: nat,
                     first: nat, n: nat, text: Text, seed: nat)
    requires e != k'.signed && first != k'.signed && n <= MAX_SKIPPED_KEYS
    requires k.oneTime.Some? == k'.oneTime.Some?
    ensures var sent := Establish(Priv(a), Pub(a), BundleOf(k, ed, spkId, opkId), e);
      sent.Established? &&
      var got := Accept(Priv(k'.identity), Priv(k'.signed), PrivOf(k'.oneTime), InitOf(a', e', sent.init));
      got.Accepted? &&
      var m := NextEnvelope(SenderAfter(sent.rootKey, k.signed, first, n), text);
      var bob := InitReceiver(got.rootKey, Priv(k'.signed), Pub(k'.signed));
      Decrypt(bob, m.header, m.ciphertext, seed).result ==
        if k == k' && a == a' && e == e' then Plaintext(text) else InvalidMessage
  {
    RootsAgreeExactly(a, e, k, k', a', e', ed, spkId, opkId);
    var sent := Establish(Priv(a), Pub(a), BundleOf(k, ed, spkId, opkId), e);
    var got := Accept(Priv(k'.identity), Priv(k'.signed), PrivOf(k'.oneTime), InitOf(a', e', sent.init));
    FirstMessage(sent.rootKey, got.rootKey, k.signed, k'.signed, first, n, text, seed);
  }

  /** The two sessions X3DH seeds, before anything is sent. */
  function Bootstrap(a: nat, e: nat, k: Keys, ed: nat, spkId: nat, opkId: nat, first: nat, used: set<nat>): World {
    var b := BundleOf(k, ed, spkId, opkId);
    Genesis(SessionKey(EstablishShares(Priv(a), Priv(e), b)), k.signed, first, used)
  }

  /** The base case of the two-party invariant: both sides derive the root of `Bootstrap`, its
      sessions are in step and their ledger is in order, and as long as the ephemeral and Bob's
      identity key are no ratchet keys the root is secret to those. */
  lemma BootstrapInStep(a: nat, e: nat, k: Keys, ed: nat, spkId: nat, opkId: nat, first: nat, used: set<nat>)
    requires e != k.signed && first != k.signed && first != e && first != k.identity && e in used && k.identity in used
    ensures var sent := Establish(Priv(a), Pub(a), BundleOf(k, ed, spkId, opkId), e);
      sent.Established? &&
      Accept(Priv(k.identity), Priv(k.signed), PrivOf(k.oneTime), sent.init) == Accepted(sent.rootKey) &&
      var w := Bootstrap(a, e, k, ed, spkId, opkId, first, used);
      && w.alice == InitSender(sent.rootKey, Pub(k.signed), first)
      && w.bob == InitReceiver(sent.rootKey, Priv(k.signed), Pub(k.signed))
      && LedgerInv(w, EMPTY) && SecretRoot(w)
  {
    RootsAgreeExactly(a, e, k, k, a, e, ed, spkId, opkId);
    var w := Bootstrap(a, e, k, ed, spkId, opkId, first, used);
    GenesisBooks(w.h.root0, k.signed, first, used);
    assert Foreign(w.h, w.h.root0.shares[1]);
  }

  /** From X3DH to any reachable conversation: in every run whose chains stay within the cap plus
      one, under any order, loss and repetition, the roots stay in step throughout, a packet gives
      its own text back exactly if it has not yet and its stored key was not evicted, and a key
      that was used or evicted can no longer be computed from what its holder keeps. */
  lemma EndToEnd(a: nat, e: nat, k: Keys, ed: nat, spkId: nat, opkId: nat, first: nat, used: set<nat>,
                 es: seq<Event>, j: nat, n: nat, seed: nat, r: Role)
    requires e != k.signed && first != k.signed && first != e && first != k.identity && e in used && k.identity in used
    requires var w := Bootstrap(a, e, k, ed, spkId, opkId, first, used); Feasible(w, es) && Short(After(w, es).h)
    requires var w' := After(Bootstrap(a, e, k, ed, spkId, opkId, first, used), es);
      1 <= j < |w'.h.net| && n < |w'.h.net[j]|
    ensures var w := Bootstrap(a, e, k, ed, spkId, opkId, first, used);
      && AlwaysInStep(w, es)
      && var w', l := After(w, es), RunLedger(w, EMPTY, es);
      && j < |w'.h.keys|
      && var id := IdOf(w'.h, j, n);
      && (ReplyTo(w', j, n, seed).result == Plaintext(w'.h.net[j][n].text) <==> id !in l.got && id !in l.evicted)
      && (r == Sender(j) || id in l.got || id in l.evicted ==> !Derives(Held(StateOf(w', r)), KeyOf(w'.h, j, n)))
  {
    var w := Bootstrap(a, e, k, ed, spkId, opkId, first, used);
    var w', l := After(w, es), RunLedger(w, EMPTY, es);
    BootstrapInStep(a, e, k, ed, spkId, opkId, first, used);
    ShortRunLosesNothing(w, EMPTY, es);
    RunInStep(w, es);
    RunKeepsBooks(w, EMPTY, es);
    RunKeepsSecretRoot(w, es);
    ShortRunDelivery(w, EMPTY, es, j, n, seed);
    if r == Sender(j) || IdOf(w'.h, j, n) in l.got || IdOf(w'.h, j, n) in l.evicted {
      PassedKeysGone(w', l, r, j, n);
    }
  }
}
