/** What holds over every run of two honest parties, harmful packets included: no packet gives
    its text back twice, and a key that was used or given up can never be computed again from
    what its holder keeps. */
module EveryRun {
  import opened Options
  import opened Symbols
  import opened Ratchet
  import opened History
  import opened Conversation
  import opened InStep
  import opened Secrecy
  import opened SingleUse
  import opened SkippedStore

  ghost predicate Filed(w: World) {
    |w.h.keys| >= 2 && |w.h.net| == |w.h.keys|
  }

  ghost predicate BothSound(w: World) {
    Sound(w.alice) && Sound(w.bob)
  }

  lemma GenesisSound(root0: Term, prekey: nat, first: nat, used: set<nat>)
    ensures BothSound(Genesis(root0, prekey, first, used))
  {
    InitSound(root0, Pub(prekey), first, Priv(prekey), Pub(prekey));
  }

  lemma StepSound(w: World, e: Event, r: Role, mk: Term)
    requires Filed(w) && BothSound(w) && Enabled(w, e)
    ensures Preserves(StateOf(w, r), StateOf(Step(w, e), r), mk)
  {
    match e
    case Send(x, text) =>
      SendSound(StateOf(w, x), mk);
    case Deliver(j, n, seed) =>
      var k := w.h.net[j][n].envelope;
      CallSound(StateOf(w, Receiver(j)), k.header, k.ciphertext, seed, mk);
  }

  lemma {:induction false} RunSoundness(w: World, es: seq<Event>, r: Role, mk: Term)
    requires Filed(w) && BothSound(w) && Feasible(w, es)
    ensures Preserves(StateOf(w, r), StateOf(After(w, es), r), mk) && BothSound(After(w, es))
    decreases |es|
  {
    if es != [] {
      StepSound(w, es[0], Alice, mk);
      StepSound(w, es[0], Bob, mk);
      RunSoundness(Step(w, es[0]), es[1..], r, mk);
    }
  }

  lemma StepFiles(w: World, e: Event, j: nat)
    requires Filed(w) && Enabled(w, e) && j < |w.h.net|
    ensures Filed(Step(w, e)) && j < |Step(w, e).h.net| && w.h.net[j] <= Step(w, e).h.net[j]
  {
  }

  /** The network keeps every packet. */
  lemma {:induction false} RunFiles(w: World, es: seq<Event>, j: nat)
    requires Filed(w) && Feasible(w, es) && j < |w.h.net|
    ensures j < |After(w, es).h.net| && w.h.net[j] <= After(w, es).h.net[j]
    decreases |es|
  {
    if es != [] {
      StepFiles(w, es[0], j);
      RunFiles(Step(w, es[0]), es[1..], j);
    }
  }

  // ---------------------------------------------------------------------------
  // At most once
  // ---------------------------------------------------------------------------

  lemma OnceFrom(w: World, j: nat, n: nat, seed: nat, es: seq<Event>, again: nat)
    requires Filed(w) && BothSound(w) && Enabled(w, Deliver(j, n, seed))
    requires ReplyTo(w, j, n, seed).result.Plaintext? && Feasible(Step(w, Deliver(j, n, seed)), es)
    ensures var v := After(Step(w, Deliver(j, n, seed)), es);
      j < |v.h.net| && n < |v.h.net[j]| && !ReplyTo(v, j, n, again).result.Plaintext?
  {
    var w1, r, k := Step(w, Deliver(j, n, seed)), Receiver(j), w.h.net[j][n].envelope;
    CallSound(StateOf(w, r), k.header, k.ciphertext, seed, StateOf(w, r).rootKey);
    StepSound(w, Deliver(j, n, seed), Alice, k.ciphertext.key.mk);
    StepSound(w, Deliver(j, n, seed), Bob, k.ciphertext.key.mk);
    RunSoundness(w1, es, r, k.ciphertext.key.mk);
    StepFiles(w, Deliver(j, n, seed), j);
    RunFiles(w1, es, j);
    SpentNeverOpens(StateOf(After(w1, es), r), k.header, k.ciphertext, again);
  }

  /** Over any run from the start, any packet: once it has given its text back it never does again,
      whatever is sent, delivered, repeated or lost in between. */
  lemma AtMostOnce(root0: Term, prekey: nat, first: nat, used: set<nat>, before: seq<Event>,
                   j: nat, n: nat, seed: nat, es: seq<Event>, again: nat)
    requires var w := Genesis(root0, prekey, first, used);
      Feasible(w, before) && Enabled(After(w, before), Deliver(j, n, seed))
    requires var w := After(Genesis(root0, prekey, first, used), before);
      ReplyTo(w, j, n, seed).result.Plaintext? && Feasible(Step(w, Deliver(j, n, seed)), es)
    ensures var v := After(Step(After(Genesis(root0, prekey, first, used), before), Deliver(j, n, seed)), es);
      j < |v.h.net| && n < |v.h.net[j]| && !ReplyTo(v, j, n, again).result.Plaintext?
  {
    var w := Genesis(root0, prekey, first, used);
    GenesisSound(root0, prekey, first, used);
    RunSoundness(w, before, Alice, root0);
    OnceFrom(After(w, before), j, n, seed, es, again);
  }

  // ---------------------------------------------------------------------------
  // Forward secrecy
  // ---------------------------------------------------------------------------

  function Bottom(t: Term): Term {
    if t.RootKey? then Bottom(t.root) else t
  }

  /** The ratchet rests on an X3DH key with a share no ratchet key pair of the session can compute. */
  ghost predicate Guarded(s: State, share: Term) {
    && share.Shared? && Bottom(s.rootKey).SessionKey? && share in Bottom(s.rootKey).shares
    && s.sendingDhPriv.Priv?
    && (s.rootKey.RootKey? ==> s.sendingDhPriv.id != share.lo && s.sendingDhPriv.id != share.hi)
  }

  /** What a sound session holds besides its root and private key. */
  lemma HeldParts(s: State, t: Term)
    requires Sound(s) && s.sendingDhPriv.Priv? && t in Held(s)
    ensures t == s.rootKey || t == s.sendingDhPriv || AheadOn(s.sendingChainKey, t) || AheadOn(s.receivingChainKey, t)
      || (t.MessageKey? && Stores(s.skippedKeys, t))
    ensures AheadOn(s.sendingChainKey, t) || AheadOn(s.receivingChainKey, t) ==> Base(t).ChainKey?
  {
    if t != s.rootKey && t != s.sendingDhPriv && Some(t) != s.sendingChainKey && Some(t) != s.receivingChainKey {
      var k :| 0 <= k < |s.skippedKeys| && t == s.skippedKeys[k].messageKey;
      assert Fits(s.skippedKeys[k].messageKey, s.rootKey, s.receivingChainKey, s.sendingChainKey);
    }
  }

  lemma {:induction false} BelowBottom(r: Term, root: Term)
    requires Below(r, root)
    ensures Bottom(r) == Bottom(root)
  {
    if root.root != r {
      BelowBottom(r, root.root);
    }
  }

  lemma {:induction false} BelowTrans(q: Term, r: Term, root: Term)
    requires Below(q, r) && Below(r, root)
    ensures Below(q, root)
  {
    if root.root != r {
      BelowTrans(q, r, root.root);
    }
  }

  /** No earlier root can be computed. */
  lemma {:induction false} EarlierRootsGone(s: State, share: Term, r: Term)
    requires Sound(s) && Guarded(s, share) && Below(r, s.rootKey)
    ensures !Derives(Held(s), r)
    decreases r
  {
    BelowBottom(r, s.rootKey);
    BelowLower(r, s.rootKey);
    if r in Held(s) {
      HeldParts(s, r);
    }
    if r.RootKey? {
      BelowTrans(r.root, r, s.rootKey);
      EarlierRootsGone(s, share, r.root);
    } else {
      ShareGone(s, share);
    }
  }

  lemma ShareGone(s: State, share: Term)
    requires Sound(s) && Guarded(s, share) && s.rootKey.RootKey?
    ensures !Derives(Held(s), share)
  {
    forall t | t in {share, Priv(share.lo), Priv(share.hi)} ensures t !in Held(s) {
      if t in Held(s) {
        HeldParts(s, t);
      }
    }
  }

  /** No key of a chain that an earlier root opened can be computed from behind. */
  lemma {:induction false} PassedChainGone(s: State, share: Term, ck: Term)
    requires Sound(s) && Guarded(s, share) && Rooted(ck, s.rootKey)
    requires !AheadOn(s.receivingChainKey, ck) && !AheadOn(s.sendingChainKey, ck)
    ensures !Derives(Held(s), ck)
    decreases ck
  {
    if ck in Held(s) {
      HeldParts(s, ck);
    }
    if ck.NextChain? {
      PassedChainGone(s, share, ck.ck);
    } else {
      EarlierRootsGone(s, share, ck.root);
    }
  }

  /** A spent key cannot be computed from everything its session holds. */
  lemma SpentGone(s: State, share: Term, mk: Term)
    requires Sound(s) && Guarded(s, share) && Spent(s, mk)
    ensures !Derives(Held(s), mk)
  {
    if mk in Held(s) {
      HeldParts(s, mk);
    }
    PassedChainGone(s, share, mk.ck);
  }

  lemma CallGuards(s: State, h: Header, ct: Ciphertext, seed: nat, share: Term)
    requires Guarded(s, share) && seed != share.lo && seed != share.hi
    ensures Guarded(Decrypt(s, h, ct, seed).state, share)
  {
    if InRange(h) {
      var t := Ratcheted(s, h, seed);
      assert Bottom(t.rootKey) == Bottom(t.rootKey.root) == Bottom(s.rootKey);
    }
  }

  ghost predicate BothGuarded(w: World, share: Term) {
    Guarded(w.alice, share) && Guarded(w.bob, share) && share.lo in w.used && share.hi in w.used
  }

  lemma {:induction false} RunGuards(w: World, es: seq<Event>, share: Term)
    requires Filed(w) && BothGuarded(w, share) && Feasible(w, es)
    ensures BothGuarded(After(w, es), share)
    decreases |es|
  {
    if es != [] {
      match es[0] {
        case Send(_, _) =>
        case Deliver(j, n, seed) =>
          var k := w.h.net[j][n].envelope;
          CallGuards(StateOf(w, Receiver(j)), k.header, k.ciphertext, seed, share);
      }
      RunGuards(Step(w, es[0]), es[1..], share);
    }
  }

  /** r's part in e uses mk or gives it up: r seals under it, opens with it, or evicts it. */
  ghost predicate Retires(w: World, e: Event, r: Role, mk: Term)
    requires Filed(w) && Enabled(w, e)
  {
    match e
    case Send(x, _) => x == r && mk == MessageKey(StateOf(w, r).sendingChainKey.value)
    case Deliver(j, n, seed) =>
      var s, k, reply := StateOf(w, r), w.h.net[j][n].envelope, ReplyTo(w, j, n, seed);
      r == Receiver(j) &&
      ((reply.result.Plaintext? && k.ciphertext.Sealed? && k.ciphertext.key == AesKey(mk)) ||
       (Stores(s.skippedKeys + Appended(s, k.header, k.ciphertext, seed), mk) && !Stores(reply.state.skippedKeys, mk)))
  }

  lemma RetiredSpent(w: World, e: Event, r: Role, mk: Term)
    requires Filed(w) && BothSound(w) && Enabled(w, e) && Retires(w, e, r, mk)
    ensures Spent(StateOf(Step(w, e), r), mk)
  {
    match e
    case Send(_, _) =>
      SendSound(StateOf(w, r), mk);
    case Deliver(j, n, seed) =>
      var s, k := StateOf(w, r), w.h.net[j][n].envelope;
      CallSound(s, k.header, k.ciphertext, seed, mk);
      if !(Decrypt(s, k.header, k.ciphertext, seed).result.Plaintext? && k.ciphertext.key == AesKey(mk)) {
        EvictedSpent(s, k.header, k.ciphertext, seed, mk);
      }
  }

  // ---------------------------------------------------------------------------
  // One session, any calls
  // ---------------------------------------------------------------------------

  /** What an application does with one session: seal a message, or hand it anything at all. */
  datatype Act = Seals | Takes(call: Call)

  function Acted(s: State, a: Act): State {
    match a
    case Seals => if s.sendingChainKey.Some? then AfterEncrypt(s) else s
    case Takes(c) => Decrypt(s, c.header, c.ciphertext, c.seed).state
  }

  function ActedAll(s: State, acts: seq<Act>): State
    decreases |acts|
  {
    if acts == [] then s else ActedAll(Acted(s, acts[0]), acts[1..])
  }

  /** No new key pair is one of the share's. */
  ghost predicate FreshSeeds(acts: seq<Act>, share: Term) {
    share.Shared? ==> forall a :: a in acts && a.Takes? ==> a.call.seed != share.lo && a.call.seed != share.hi
  }

  /** The act uses mk or gives it up. */
  ghost predicate RetiresIn(s: State, a: Act, mk: Term) {
    match a
    case Seals => s.sendingChainKey.Some? && mk == MessageKey(s.sendingChainKey.value)
    case Takes(c) =>
      var r := Decrypt(s, c.header, c.ciphertext, c.seed);
      || (r.result.Plaintext? && c.ciphertext.Sealed? && c.ciphertext.key == AesKey(mk))
      || (Stores(s.skippedKeys + Appended(s, c.header, c.ciphertext, c.seed), mk) && !Stores(r.state.skippedKeys, mk))
  }

  lemma ActSound(s: State, a: Act, mk: Term)
    requires Sound(s)
    ensures Preserves(s, Acted(s, a), mk)
    ensures RetiresIn(s, a, mk) ==> Spent(Acted(s, a), mk)
  {
    match a
    case Seals =>
      if s.sendingChainKey.Some? {
        SendSound(s, mk);
      }
    case Takes(c) =>
      CallSound(s, c.header, c.ciphertext, c.seed, mk);
      if Stores(s.skippedKeys + Appended(s, c.header, c.ciphertext, c.seed), mk)
         && !Stores(Decrypt(s, c.header, c.ciphertext, c.seed).state.skippedKeys, mk) {
        EvictedSpent(s, c.header, c.ciphertext, c.seed, mk);
      }
  }

  lemma ActGuards(s: State, a: Act, share: Term)
    requires Guarded(s, share) && (a.Takes? ==> a.call.seed != share.lo && a.call.seed != share.hi)
    ensures Guarded(Acted(s, a), share)
  {
    hide Decrypt;
    if a.Takes? {
      CallGuards(s, a.call.header, a.call.ciphertext, a.call.seed, share);
    }
  }

  lemma {:induction false} ActsSound(s: State, acts: seq<Act>, share: Term, mk: Term)
    requires Sound(s) && Guarded(s, share) && FreshSeeds(acts, share)
    ensures Preserves(s, ActedAll(s, acts), mk) && Guarded(ActedAll(s, acts), share)
    decreases |acts|
  {
    if acts != [] {
      ActSound(s, acts[0], mk);
      ActGuards(s, acts[0], share);
      ActsSound(Acted(s, acts[0]), acts[1..], share, mk);
    }
  }

  /** Forward secrecy of one session against anything it is handed, forgeries included: a message key
      it sealed under, opened with or evicted can never be computed from what it holds, after any
      further acts. */
  lemma RetiredForGood(s: State, a: Act, acts: seq<Act>, share: Term, mk: Term)
    requires Sound(s) && Guarded(s, share) && RetiresIn(s, a, mk) && FreshSeeds([a] + acts, share)
    ensures !Derives(Held(ActedAll(Acted(s, a), acts)), mk)
  {
    hide Decrypt, Acted, RetiresIn, Sound, Spent, Behind, Bottom;
    ActSound(s, a, mk);
    assert ([a] + acts)[0] == a && forall b :: b in acts ==> b in [a] + acts;
    ActGuards(s, a, share);
    ActsSound(Acted(s, a), acts, share, mk);
    SpentGone(ActedAll(Acted(s, a), acts), share, mk);
  }

  // ---------------------------------------------------------------------------
  // Two parties
  // ---------------------------------------------------------------------------

  lemma GenesisGuarded(root0: Term, prekey: nat, first: nat, used: set<nat>) returns (share: Term)
    requires SecretRoot(Genesis(root0, prekey, first, used))
    ensures BothGuarded(Genesis(root0, prekey, first, used), share)
  {
    var w := Genesis(root0, prekey, first, used);
    var i :| 0 <= i < |root0.shares| && Foreign(w.h, root0.shares[i])
      && root0.shares[i].lo in w.used && root0.shares[i].hi in w.used;
    share := root0.shares[i];
    assert w.h.keys[1] == first;
    assert Bottom(w.alice.rootKey) == Bottom(w.alice.rootKey.root) == root0;
  }

  lemma RunOne(w: World, e: Event)
    requires Filed(w) && Enabled(w, e)
    ensures Feasible(w, [e]) && After(w, [e]) == Step(w, e)
  {
    assert [e][1..] == [];
  }

  /** Over any run from the start: once a party has sealed under a message key, opened with it or
      evicted it, nothing it ever holds from then on can compute that key again. */
  lemma ForwardSecrecy(root0: Term, prekey: nat, first: nat, used: set<nat>, before: seq<Event>,
                       e: Event, r: Role, mk: Term, es: seq<Event>)
    requires SecretRoot(Genesis(root0, prekey, first, used))
    requires var w := Genesis(root0, prekey, first, used); Feasible(w, before) && Enabled(After(w, before), e)
    requires var w := After(Genesis(root0, prekey, first, used), before);
      Retires(w, e, r, mk) && Feasible(Step(w, e), es)
    ensures var v := After(Step(After(Genesis(root0, prekey, first, used), before), e), es);
      !Derives(Held(StateOf(v, r)), mk)
  {
    var w := Genesis(root0, prekey, first, used);
    var share := GenesisGuarded(root0, prekey, first, used);
    GenesisSound(root0, prekey, first, used);
    RunGuards(w, before, share);
    RunSoundness(w, before, r, mk);
    var v := After(w, before);
    RetiredSpent(v, e, r, mk);
    StepSound(v, e, Alice, mk);
    StepSound(v, e, Bob, mk);
    RunOne(v, e);
    RunGuards(v, [e], share);
    RunSoundness(Step(v, e), es, r, mk);
    RunGuards(Step(v, e), es, share);
    SpentGone(StateOf(After(Step(v, e), es), r), share, mk);
  }
}
