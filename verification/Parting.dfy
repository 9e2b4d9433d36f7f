/** What a harmful packet costs. From the delivery on, whatever either party sends and whatever is
    delivered, repeated or lost, the receiver reads nothing but messages whose keys it had stored
    by then, and the other party reads nothing that the receiver sends. */
module Parting {
  import opened Options
  import opened Symbols
  import opened Ratchet
  import opened History
  import opened Conversation
  import opened InStep
  import opened SingleUse
  import opened EveryRun

  /** x is the root or an earlier one. */
  predicate From(x: Term, root: Term) {
    x == root || Below(x, root)
  }

  /** ct is sealed under a chain that x or a later root opened. */
  predicate SealedPast(x: Term, ct: Ciphertext) {
    && ct.Sealed? && ct.key.AesKey? && ct.key.mk.MessageKey?
    && Base(ct.key.mk.ck).ChainKey? && From(x, Base(ct.key.mk.ck).root)
  }

  // ---------------------------------------------------------------------------
  // One call of each party
  // ---------------------------------------------------------------------------

  /** A party past root x, with no live receiving chain, on a ciphertext from elsewhere: only a stored
      key opens it, and nothing is stored. */
  lemma PastReads(s: State, x: Term, h: Header, ct: Ciphertext, seed: nat)
    requires Below(x, s.rootKey) && s.receivingChainKey.None? && !SealedPast(x, ct)
    ensures var r := Decrypt(s, h, ct, seed);
      && (r.result.Plaintext? ==> HasKey(s.skippedKeys, h))
      && Below(x, r.state.rootKey) && r.state.receivingChainKey.None?
      && (forall e :: e in r.state.skippedKeys ==> e in s.skippedKeys)
  {
    if InRange(h) && !HasKey(s.skippedKeys, h) && s.receivingDhPub != Some(h.dhPub) {
      var ck := ChainKey(s.rootKey, Agree(s.sendingDhPriv, h.dhPub));
      assert OldEntries(s, h) == [] && s.skippedKeys + [] == s.skippedKeys;
      ChainFrom(ck, h.messageNumber);
    }
  }

  /** A party that x is no root of stays so, and reads nothing sealed past x. */
  lemma OtherReads(s: State, x: Term, h: Header, ct: Ciphertext, seed: nat)
    requires Sound(s) && x.RootKey? && x.dh.Shared? && !From(x, s.rootKey)
    requires s.sendingDhPriv.Priv? && s.sendingDhPriv.id !in {x.dh.lo, x.dh.hi} && seed !in {x.dh.lo, x.dh.hi}
    ensures var r := Decrypt(s, h, ct, seed);
      && !From(x, r.state.rootKey) && r.state.sendingDhPriv.Priv? && r.state.sendingDhPriv.id !in {x.dh.lo, x.dh.hi}
      && (SealedPast(x, ct) ==> !r.result.Plaintext?)
  {
    hide Sound, Spent, Push, OldEntries;
    var t := Decrypt(s, h, ct, seed).state;
    RootsStay(s, x, h, ct, seed);
    if SealedPast(x, ct) {
      CallSound(s, h, ct, seed, ct.key.mk);
      if Decrypt(s, h, ct, seed).result.Plaintext? {
        LaterRoot(t, x, ct);
      }
    }
  }

  lemma RootsStay(s: State, x: Term, h: Header, ct: Ciphertext, seed: nat)
    requires x.RootKey? && x.dh.Shared? && !From(x, s.rootKey)
    requires s.sendingDhPriv.Priv? && s.sendingDhPriv.id !in {x.dh.lo, x.dh.hi} && seed !in {x.dh.lo, x.dh.hi}
    ensures var t := Decrypt(s, h, ct, seed).state;
      !From(x, t.rootKey) && t.sendingDhPriv.Priv? && t.sendingDhPriv.id !in {x.dh.lo, x.dh.hi}
  {
    hide Push, OldEntries;
    if InRange(h) {
      var t := Ratcheted(s, h, seed);
      var mid := t.rootKey.root;
      assert x != mid && x != t.rootKey;
      assert !Below(x, mid);
    }
  }

  lemma LaterRoot(s: State, x: Term, ct: Ciphertext)
    requires OpenedBy(s, ct) && SealedPast(x, ct)
    ensures From(x, s.rootKey)
  {
    var root := Base(ct.key.mk.ck).root;
    if x != root {
      BelowTrans(x, root, s.rootKey);
    }
  }

  // ---------------------------------------------------------------------------
  // Two parties whose roots have parted
  // ---------------------------------------------------------------------------

  /** A packet that was not there before. */
  predicate Later(h: History, i: nat, m: nat) {
    i < |h.net| ==> m >= |h.net[i]|
  }

  /** r has gone past x, which the other is no descendant of; what comes to r is sealed elsewhere,
      and what it has sent since h0 is sealed past x. */
  ghost predicate Parted(w: World, r: Role, x: Term, sk0: seq<SkippedKey>, h0: History) {
    && Filed(w) && Sound(w.alice) && Sound(w.bob)
    && x.RootKey? && x.dh.Shared? && x.dh.lo in w.used && x.dh.hi in w.used
    && Past(StateOf(w, r), x, sk0) && Aside(StateOf(w, Other(r)), x)
    && |h0.net| <= |w.h.net|
    && (forall i, m :: 0 <= i < |w.h.net| && 0 <= m < |w.h.net[i]| ==>
          Fair(w.h.net[i][m].envelope.ciphertext, Receiver(i) == r, x, Later(h0, i, m)))
  }

  ghost predicate Past(s: State, x: Term, sk0: seq<SkippedKey>) {
    && Below(x, s.rootKey) && s.receivingChainKey.None?
    && (forall e :: e in s.skippedKeys ==> e in sk0)
  }

  predicate Aside(s: State, x: Term)
    requires x.RootKey? && x.dh.Shared?
  {
    !From(x, s.rootKey) && s.sendingDhPriv.Priv? && s.sendingDhPriv.id !in {x.dh.lo, x.dh.hi}
  }

  predicate Fair(ct: Ciphertext, toPast: bool, x: Term, later: bool) {
    if toPast then !SealedPast(x, ct) else later ==> SealedPast(x, ct)
  }

  lemma SentFrom(s: State, x: Term, text: Text)
    requires Sound(s) && s.sendingChainKey.Some?
    ensures var ct := NextEnvelope(s, text).ciphertext;
      SealedPast(x, ct) <==> Below(x, s.rootKey)
  {
  }

  lemma SendStaysParted(w: World, r: Role, x: Term, sk0: seq<SkippedKey>, h0: History, y: Role, text: Text)
    requires Parted(w, r, x, sk0, h0) && StateOf(w, y).sendingChainKey.Some?
    ensures Parted(Step(w, Send(y, text)), r, x, sk0, h0)
  {
    hide Sound, SealedPast, Later;
    var s, v, p := StateOf(w, y), Step(w, Send(y, text)), Position(w.h, y);
    SendSound(s, x);
    SentFrom(s, x, text);
    forall i, m | 0 <= i < |v.h.net| && 0 <= m < |v.h.net[i]|
      ensures Fair(v.h.net[i][m].envelope.ciphertext, Receiver(i) == r, x, Later(h0, i, m))
    {
      if i != p || m < |w.h.net[p]| {
        assert v.h.net[i][m] == w.h.net[i][m];
        assert Fair(w.h.net[i][m].envelope.ciphertext, Receiver(i) == r, x, Later(h0, i, m));
      } else {
        assert Receiver(p) == Other(y);
      }
    }
  }

  lemma DeliverStaysParted(w: World, r: Role, x: Term, sk0: seq<SkippedKey>, h0: History, i: nat, m: nat, seed: nat)
    requires Parted(w, r, x, sk0, h0) && Enabled(w, Deliver(i, m, seed))
    ensures Parted(Step(w, Deliver(i, m, seed)), r, x, sk0, h0)
    ensures var reply, e := ReplyTo(w, i, m, seed), w.h.net[i][m].envelope;
      if Receiver(i) == r then reply.result.Plaintext? ==> HasKey(StateOf(w, r).skippedKeys, e.header)
      else Later(h0, i, m) ==> !reply.result.Plaintext?
  {
    hide Sound, SealedPast, Decrypt, Later, From;
    var s, e, v := StateOf(w, Receiver(i)), w.h.net[i][m].envelope, Step(w, Deliver(i, m, seed));
    assert Fair(e.ciphertext, Receiver(i) == r, x, Later(h0, i, m));
    CallSound(s, e.header, e.ciphertext, seed, x);
    if Receiver(i) == r {
      PastReads(s, x, e.header, e.ciphertext, seed);
    } else {
      OtherReads(s, x, e.header, e.ciphertext, seed);
    }
    forall k, l | 0 <= k < |v.h.net| && 0 <= l < |v.h.net[k]|
      ensures Fair(v.h.net[k][l].envelope.ciphertext, Receiver(k) == r, x, Later(h0, k, l))
    {
      assert v.h.net[k][l] == w.h.net[k][l];
    }
  }

  lemma {:induction false} RunStaysParted(w: World, r: Role, x: Term, sk0: seq<SkippedKey>, h0: History, es: seq<Event>)
    requires Parted(w, r, x, sk0, h0) && Feasible(w, es)
    ensures Parted(After(w, es), r, x, sk0, h0)
    decreases |es|
  {
    hide Past, Aside, Fair, Later, Sound, Step;
    if es != [] {
      match es[0] {
        case Send(y, text) =>
          SendStaysParted(w, r, x, sk0, h0, y, text);
        case Deliver(i, m, seed) =>
          DeliverStaysParted(w, r, x, sk0, h0, i, m, seed);
      }
      RunStaysParted(Step(w, es[0]), r, x, sk0, h0, es[1..]);
    }
  }

  // ---------------------------------------------------------------------------
  // The harmful delivery
  // ---------------------------------------------------------------------------

  /** The root a harmful packet of chain j leads party p to, before its own half of the ratchet. */
  function WrongRoot(h: History, p: nat, j: nat): Term
    requires p < |h.keys| && j < |h.keys|
  {
    RootKey(RootAt(h.root0, h.keys, p), Agree(Priv(h.keys[p]), Pub(h.keys[j])))
  }

  /** No root of the conversation is the wrong one. */
  lemma WrongIsNoRoot(h: History, p: nat, j: nat, i: nat)
    requires Shape(h) && p < |h.keys| && j + 1 < p && i < |h.keys|
    ensures WrongRoot(h, p, j) != RootAt(h.root0, h.keys, i)
  {
    RootDepth(h.root0, h.keys, p);
    RootDepth(h.root0, h.keys, i);
    if i == p + 1 {
      DistinctAt(h.keys, j, p + 1);
      DistinctAt(h.keys, p, p + 1);
      AgreeExactly(h.keys[p], h.keys[j], h.keys[p + 1], h.keys[p]);
    }
  }

  lemma {:induction false} WrongNotBelow(h: History, p: nat, j: nat, i: nat)
    requires Shape(h) && p < |h.keys| && j + 1 < p && i < |h.keys|
    ensures !From(WrongRoot(h, p, j), RootAt(h.root0, h.keys, i))
  {
    WrongIsNoRoot(h, p, j, i);
    if i > 0 {
      WrongNotBelow(h, p, j, i - 1);
    } else if Below(WrongRoot(h, p, j), h.root0) {
      BelowLower(WrongRoot(h, p, j), h.root0);
      RootDepth(h.root0, h.keys, p);
    }
  }

  lemma HonestElsewhere(h: History, p: nat, j: nat, i: nat, m: nat)
    requires Shape(h) && Honest(h) && p < |h.keys| && j + 1 < p && i < |h.net| && m < |h.net[i]|
    ensures !SealedPast(WrongRoot(h, p, j), h.net[i][m].envelope.ciphertext)
  {
    assert HonestPacket(h, i, m);
    WrongNotBelow(h, p, j, i - 1);
    ChainFrom(ChainStart(h, i), m);
  }

  /** The receiver of a harmful packet is past the wrong root. */
  lemma HarmPasses(w: World, j: nat, n: nat, seed: nat)
    requires Inv(w) && Enabled(w, Deliver(j, n, seed)) && 1 <= j
    requires Harmful(w.h, j, n, StateOf(w, Receiver(j)))
    ensures var p, t := Position(w.h, Receiver(j)), ReplyTo(w, j, n, seed).state;
      Past(t, WrongRoot(w.h, p, j), t.skippedKeys) && t.sendingDhPub == Pub(seed)
  {
    hide Decrypt, Honest, Stocked, Push, OldEntries;
    var r := Receiver(j);
    var p, s := Position(w.h, r), StateOf(w, r);
    assert InPlace(w.h, p, s);
    Decide(w, j, n, seed);
    PeerIs(w.h, p, s, j);
  }

  lemma HarmParts(w: World, j: nat, n: nat, seed: nat)
    requires Inv(w) && BothSound(w) && Enabled(w, Deliver(j, n, seed)) && 1 <= j
    requires Harmful(w.h, j, n, StateOf(w, Receiver(j)))
    ensures var r, v := Receiver(j), Step(w, Deliver(j, n, seed));
      Parted(v, r, WrongRoot(w.h, Position(w.h, r), j), StateOf(v, r).skippedKeys, v.h)
  {
    hide Decrypt, Sound, SealedPast, From, Stocked, RootAt;
    var r, v, h := Receiver(j), Step(w, Deliver(j, n, seed)), w.h;
    var p, q := Position(h, r), Position(h, Other(r));
    var x := WrongRoot(h, p, j);
    StepSound(w, Deliver(j, n, seed), Alice, x);
    StepSound(w, Deliver(j, n, seed), Bob, x);
    HarmPasses(w, j, n, seed);
    assert InPlace(h, q, StateOf(w, Other(r)));
    WrongNotBelow(h, p, j, q);
    DistinctAt(h.keys, p, q);
    DistinctAt(h.keys, j, q);
    forall i, m | 0 <= i < |v.h.net| && 0 <= m < |v.h.net[i]|
      ensures Fair(v.h.net[i][m].envelope.ciphertext, Receiver(i) == r, x, Later(v.h, i, m))
    {
      HonestElsewhere(h, p, j, i, m);
    }
  }

  lemma StillHas(sk: seq<SkippedKey>, sk0: seq<SkippedKey>, hd: Header)
    requires (forall e :: e in sk ==> e in sk0) && HasKey(sk, hd)
    ensures HasKey(sk0, hd)
  {
    assert Matches(sk[Find(sk, hd)], hd) && sk[Find(sk, hd)] in sk0;
  }

  /** The whole cost of a harmful delivery: over every further run the receiver reads nothing but
      messages it has a stored key for at that moment, and the other party reads nothing that
      the receiver sends from then on. */
  lemma HarmIsFinal(w: World, j: nat, n: nat, seed: nat, es: seq<Event>, i: nat, m: nat, again: nat)
    requires Inv(w) && BothSound(w) && Enabled(w, Deliver(j, n, seed))
    requires Harmful(w.h, j, n, StateOf(w, Receiver(j))) && Feasible(Step(w, Deliver(j, n, seed)), es)
    requires Enabled(After(Step(w, Deliver(j, n, seed)), es), Deliver(i, m, again))
    ensures var w1 := Step(w, Deliver(j, n, seed));
      var v := After(w1, es);
      ReplyTo(v, i, m, again).result.Plaintext? ==>
        if Receiver(i) == Receiver(j)
        then HasKey(StateOf(w1, Receiver(j)).skippedKeys, v.h.net[i][m].envelope.header)
        else i < |w1.h.net| && m < |w1.h.net[i]|
  {
    hide Honest, InPlace, Sound, SealedPast, Step, Harmful, Aside, Fair;
    var r, w1 := Receiver(j), Step(w, Deliver(j, n, seed));
    var x, sk0 := WrongRoot(w.h, Position(w.h, r), j), StateOf(w1, r).skippedKeys;
    HarmParts(w, j, n, seed);
    RunStaysParted(w1, r, x, sk0, w1.h, es);
    var v := After(w1, es);
    DeliverStaysParted(v, r, x, sk0, w1.h, i, m, again);
    if Receiver(i) == r && ReplyTo(v, i, m, again).result.Plaintext? {
      StillHas(StateOf(v, r).skippedKeys, sk0, v.h.net[i][m].envelope.header);
    }
  }

  /** The same from the start of a conversation, for the first harmful packet of any run. */
  lemma FirstHarmIsFinal(root0: Term, prekey: nat, first: nat, used: set<nat>, before: seq<Event>,
                         j: nat, n: nat, seed: nat, es: seq<Event>, i: nat, m: nat, again: nat)
    requires prekey != first
    requires var w0 := Genesis(root0, prekey, first, used);
      Feasible(w0, before) && HarmlessRun(w0, before) &&
      var w := After(w0, before);
      Enabled(w, Deliver(j, n, seed)) && Harmful(w.h, j, n, StateOf(w, Receiver(j))) &&
      var w1 := Step(w, Deliver(j, n, seed));
      Feasible(w1, es) && Enabled(After(w1, es), Deliver(i, m, again))
    ensures var w1 := Step(After(Genesis(root0, prekey, first, used), before), Deliver(j, n, seed));
      var v := After(w1, es);
      ReplyTo(v, i, m, again).result.Plaintext? ==>
        if Receiver(i) == Receiver(j)
        then HasKey(StateOf(w1, Receiver(j)).skippedKeys, v.h.net[i][m].envelope.header)
        else i < |w1.h.net| && m < |w1.h.net[i]|
  {
    hide Inv, Sound, Step, Enabled, Harmful, Decrypt;
    var w0 := Genesis(root0, prekey, first, used);
    GenesisInv(root0, prekey, first, used);
    GenesisSound(root0, prekey, first, used);
    RunInStep(w0, before);
    RunSoundness(w0, before, Alice, root0);
    HarmIsFinal(After(w0, before), j, n, seed, es, i, m, again);
  }
}
