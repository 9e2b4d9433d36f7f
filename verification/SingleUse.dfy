/** The life of one message key in one session, over every sequence of calls: any headers, any
    ciphertexts, replays over the cap included. A key that has been used, or that the store
    gave up, never opens anything again. */
module SingleUse {
  import opened Options
  import opened Symbols
  import opened Ratchet
  import opened History
  import opened SkippedStore

  // ---------------------------------------------------------------------------
  // Where a chain key comes from
  // ---------------------------------------------------------------------------

  /** The first key of a chain key's chain. */
  function Base(ck: Term): Term {
    if ck.NextChain? then Base(ck.ck) else ck
  }

  function Steps(ck: Term): nat {
    if ck.NextChain? then 1 + Steps(ck.ck) else 0
  }

  lemma {:induction false} ChainFrom(ck: Term, n: nat)
    ensures Base(ChainAt(ck, n)) == Base(ck) && Steps(ChainAt(ck, n)) == Steps(ck) + n
  {
    if n > 0 {
      ChainFrom(ck, n - 1);
    }
  }

  /** r is an earlier root of the ratchet that reached `root`. */
  predicate Below(r: Term, root: Term) {
    root.RootKey? && (root.root == r || Below(r, root.root))
  }

  lemma {:induction false} BelowLower(r: Term, root: Term)
    requires Below(r, root)
    ensures Depth(r) < Depth(root)
  {
    if root.root != r {
      BelowLower(r, root.root);
    }
  }

  /** ck is on a chain that an earlier root opened. */
  predicate Rooted(ck: Term, root: Term) {
    Base(ck).ChainKey? && Below(Base(ck).root, root)
  }

  /** t is on live chain ck, at its position or further. */
  predicate AheadOn(ck: Option<Term>, t: Term) {
    ck.Some? && Base(t) == Base(ck.value) && Steps(t) >= Steps(ck.value)
  }

  predicate SameChain(ck: Option<Term>, t: Term) {
    ck.Some? && Base(t) == Base(ck.value)
  }

  // ---------------------------------------------------------------------------
  // The invariant of a session
  // ---------------------------------------------------------------------------

  /** A stored key lies behind the live receiving chain and is no key of the sending chain. */
  predicate Fits(mk: Term, root: Term, ckr: Option<Term>, cks: Option<Term>) {
    mk.MessageKey? && Rooted(mk.ck, root) && !AheadOn(ckr, mk.ck) && !SameChain(cks, mk.ck)
  }

  ghost predicate StoreSound(sk: seq<SkippedKey>, root: Term, ckr: Option<Term>, cks: Option<Term>) {
    && (forall k :: 0 <= k < |sk| ==> Fits(sk[k].messageKey, root, ckr, cks))
    && (forall i, k :: 0 <= i < k < |sk| ==> sk[i].messageKey != sk[k].messageKey)
  }

  predicate ChainsSound(root: Term, ckr: Option<Term>, cks: Option<Term>) {
    && (ckr.Some? ==> Rooted(ckr.value, root) && !SameChain(cks, ckr.value))
    && (cks.Some? ==> root.RootKey? && Base(cks.value) == ChainKey(root.root, root.dh))
  }

  ghost predicate Sound(s: State) {
    && ChainsSound(s.rootKey, s.receivingChainKey, s.sendingChainKey)
    && StoreSound(s.skippedKeys, s.rootKey, s.receivingChainKey, s.sendingChainKey)
  }

  ghost predicate Stores(sk: seq<SkippedKey>, mk: Term) {
    exists k :: 0 <= k < |sk| && sk[k].messageKey == mk
  }

  /** The session's chains have moved past mk. */
  predicate Behind(s: State, mk: Term) {
    && mk.MessageKey? && Rooted(mk.ck, s.rootKey)
    && !AheadOn(s.receivingChainKey, mk.ck) && !AheadOn(s.sendingChainKey, mk.ck)
  }

  /** The session can never use mk again. */
  ghost predicate Spent(s: State, mk: Term) {
    Behind(s, mk) && !Stores(s.skippedKeys, mk)
  }

  /** What one step promises of any key: passed keys stay passed, spent ones spent. */
  ghost predicate Preserves(s: State, t: State, mk: Term) {
    Sound(t) && (Behind(s, mk) ==> Behind(t, mk)) && (Spent(s, mk) ==> Spent(t, mk))
  }

  lemma InitSound(root: Term, peer: Term, seed: nat, priv: Term, pub: Term)
    ensures Sound(InitSender(root, peer, seed)) && Sound(InitReceiver(root, priv, pub))
  {
  }

  // ---------------------------------------------------------------------------
  // Walks
  // ---------------------------------------------------------------------------

  lemma EntryKey(pub: Term, ck: Term, from: int, count: nat, i: nat)
    requires i < count
    ensures var mk := Entries(pub, ck, from, count)[i].messageKey;
      mk.MessageKey? && Base(mk.ck) == Base(ck) && Steps(mk.ck) == Steps(ck) + i
  {
    ChainFrom(ck, i);
  }

  /** A walk appends keys of its own chain only, each once, and ends beyond them all. */
  lemma WalkSound(sk: seq<SkippedKey>, root: Term, ck: Term, cks: Option<Term>, pub: Term, from: int, count: nat,
                  m: nat)
    requires StoreSound(sk, root, Some(ck), cks) && Rooted(ck, root) && !SameChain(cks, ck) && m >= count
    ensures StoreSound(Push(sk, Entries(pub, ck, from, count)), root, Some(ChainAt(ck, m)), cks)
  {
    ChainFrom(ck, m);
    var es := Entries(pub, ck, from, count);
    var all := sk + es;
    forall k | 0 <= k < |all| ensures Fits(all[k].messageKey, root, Some(ChainAt(ck, m)), cks) {
      if k < |sk| {
        assert Fits(sk[k].messageKey, root, Some(ck), cks);
      } else {
        EntryKey(pub, ck, from, count, k - |sk|);
      }
    }
    forall i, k | 0 <= i < k < |all| ensures all[i].messageKey != all[k].messageKey {
      if k >= |sk| {
        EntryKey(pub, ck, from, count, k - |sk|);
        if i >= |sk| {
          EntryKey(pub, ck, from, count, i - |sk|);
        } else {
          assert Fits(sk[i].messageKey, root, Some(ck), cks);
        }
      }
    }
    LatestSound(all, root, Some(ChainAt(ck, m)), cks);
    if es == [] {
      assert all == sk;
    }
  }

  lemma LatestSound(all: seq<SkippedKey>, root: Term, ckr: Option<Term>, cks: Option<Term>)
    requires StoreSound(all, root, ckr, cks)
    ensures StoreSound(Latest(all), root, ckr, cks)
  {
    if |all| > MAX_SKIPPED_KEYS {
      var d := |all| - MAX_SKIPPED_KEYS;
      forall k | 0 <= k < |Latest(all)| ensures Latest(all)[k] == all[d + k] {
      }
    }
  }

  /** A walk stores nothing that was neither stored nor ahead. */
  lemma WalkStores(sk: seq<SkippedKey>, ck: Term, pub: Term, from: int, count: nat, mk: Term)
    requires mk.MessageKey? && !Stores(sk, mk) && !AheadOn(Some(ck), mk.ck)
    ensures !Stores(Push(sk, Entries(pub, ck, from, count)), mk)
  {
    var es := Entries(pub, ck, from, count);
    forall k | 0 <= k < |sk + es| ensures (sk + es)[k].messageKey != mk {
      if k >= |sk| {
        EntryKey(pub, ck, from, count, k - |sk|);
      }
    }
    forall e | e in Push(sk, es) ensures e in sk + es {
    }
  }

  // ---------------------------------------------------------------------------
  // One step
  // ---------------------------------------------------------------------------

  /** A walk that opens: the session stays sound, the key used is spent and so is every key that
      was. */
  lemma AdvanceSound(s: State, h: Header, ct: Ciphertext, skip: nat, mk: Term)
    requires Sound(s) && s.receivingChainKey.Some?
    requires DecryptAdvance(s, h, ct, skip).result.Plaintext?
    ensures var t := DecryptAdvance(s, h, ct, skip).state;
      && Preserves(s, t, mk) && Spent(t, MessageKey(ChainAt(s.receivingChainKey.value, skip)))
  {
    hide Entries, StoreSound, Push;
    var ck := s.receivingChainKey.value;
    WalkSound(s.skippedKeys, s.rootKey, ck, s.sendingChainKey, h.dhPub, s.receivingMessageNumber, skip, skip + 1);
    ChainFrom(ck, skip);
    ChainFrom(ck, skip + 1);
    var es := Entries(h.dhPub, ck, s.receivingMessageNumber, skip);
    UsedNotStored(s.skippedKeys, s.rootKey, ck, s.sendingChainKey, h.dhPub, s.receivingMessageNumber, skip);
    if Spent(s, mk) {
      WalkStores(s.skippedKeys, ck, h.dhPub, s.receivingMessageNumber, skip, mk);
    }
  }

  lemma UsedNotStored(sk: seq<SkippedKey>, root: Term, ck: Term, cks: Option<Term>, pub: Term, from: int, skip: nat)
    requires StoreSound(sk, root, Some(ck), cks)
    ensures !Stores(Push(sk, Entries(pub, ck, from, skip)), MessageKey(ChainAt(ck, skip)))
  {
    var es := Entries(pub, ck, from, skip);
    ChainFrom(ck, skip);
    forall k | 0 <= k < |sk + es| ensures (sk + es)[k].messageKey != MessageKey(ChainAt(ck, skip)) {
      if k >= |sk| {
        EntryKey(pub, ck, from, skip, k - |sk|);
      } else {
        assert Fits(sk[k].messageKey, root, Some(ck), cks);
      }
    }
    forall e | e in Push(sk, es) ensures e in sk + es {
    }
  }

  lemma LossSound(s: State, m: int, mk: Term)
    requires Sound(s)
    ensures var t := s.(receivingChainKey := None, receivingMessageNumber := m);
      Preserves(s, t, mk)
  {
    forall k | 0 <= k < |s.skippedKeys| ensures Fits(s.skippedKeys[k].messageKey, s.rootKey, None, s.sendingChainKey) {
      assert Fits(s.skippedKeys[k].messageKey, s.rootKey, s.receivingChainKey, s.sendingChainKey);
    }
  }

  /** The store after the old chain's walk, under the root two steps on. */
  lemma OldWalkSound(s: State, h: Header, mk: Term)
    requires Sound(s)
    ensures var sk := Push(s.skippedKeys, OldEntries(s, h));
      StoreSound(sk, s.rootKey, None, None) && (Spent(s, mk) ==> !Stores(sk, mk))
  {
    var sk := Push(s.skippedKeys, OldEntries(s, h));
    var end := s.receivingChainKey;
    if OldEntries(s, h) != [] {
      var ck, count := s.receivingChainKey.value, h.prevChainLength - s.receivingMessageNumber;
      WalkSound(s.skippedKeys, s.rootKey, ck, s.sendingChainKey, s.receivingDhPub.value, s.receivingMessageNumber,
                count, count);
      end := Some(ChainAt(ck, count));
      if Spent(s, mk) {
        WalkStores(s.skippedKeys, ck, s.receivingDhPub.value, s.receivingMessageNumber, count, mk);
      }
    }
    forall k | 0 <= k < |sk| ensures Fits(sk[k].messageKey, s.rootKey, None, None) {
      assert Fits(sk[k].messageKey, s.rootKey, end, s.sendingChainKey);
    }
  }

  /** A key of an earlier root fits a ratcheted session. */
  lemma OlderFits(mk: Term, root: Term, receive: Term, send: Term)
    requires Fits(mk, root, None, None)
    ensures var mid := RootKey(root, receive);
      && Fits(mk, RootKey(mid, send), Some(ChainKey(root, receive)), Some(ChainKey(mid, send)))
  {
    BelowLower(Base(mk.ck).root, root);
  }

  lemma RatchetSound(s: State, h: Header, seed: nat, mk: Term)
    requires Sound(s)
    ensures Preserves(s, Ratcheted(s, h, seed), mk)
  {
    var t := Ratcheted(s, h, seed);
    var receive, send := Agree(s.sendingDhPriv, h.dhPub), Agree(Priv(seed), h.dhPub);
    OldWalkSound(s, h, mk);
    forall k | 0 <= k < |t.skippedKeys|
      ensures Fits(t.skippedKeys[k].messageKey, t.rootKey, t.receivingChainKey, t.sendingChainKey)
    {
      OlderFits(t.skippedKeys[k].messageKey, s.rootKey, receive, send);
    }
    if Behind(s, mk) {
      OlderFits(mk, s.rootKey, receive, send);
    }
  }

  lemma NewSound(s: State, h: Header, ct: Ciphertext, seed: nat, mk: Term)
    requires Sound(s) && InRange(h)
    ensures var r := DecryptNewChain(s, h, ct, seed);
      && Preserves(s, r.state, mk)
      && (r.result.Plaintext? ==> OpenedBy(r.state, ct))
  {
    hide Sound, Spent, Behind, Push, OldEntries;
    if GapTooLong(s, h) {
      LossSound(s, h.messageNumber + 1, mk);
    } else {
      RatchetSound(s, h, seed, mk);
      var t := Ratcheted(s, h, seed);
      if h.messageNumber > MAX_SKIPPED_KEYS {
        LossSound(t, h.messageNumber + 1, mk);
      } else if DecryptAdvance(t, h, ct, h.messageNumber).result.Plaintext? {
        AdvanceSound(t, h, ct, h.messageNumber, mk);
      }
    }
  }

  /** ct was sealed under a key that s has spent. */
  ghost predicate OpenedBy(s: State, ct: Ciphertext) {
    ct.Sealed? && ct.key.AesKey? && Spent(s, ct.key.mk)
  }

  lemma StoredSound(s: State, i: nat, h: Header, ct: Ciphertext, mk: Term)
    requires Sound(s) && i < |s.skippedKeys|
    ensures var r := DecryptStored(s, i, h, ct);
      && Preserves(s, r.state, mk)
      && (r.result.Plaintext? ==> OpenedBy(r.state, ct))
  {
    var sk, rest := s.skippedKeys, Without(s.skippedKeys, i);
    forall k | 0 <= k < |rest| ensures rest[k] == sk[if k < i then k else k + 1] {
    }
    assert Fits(sk[i].messageKey, s.rootKey, s.receivingChainKey, s.sendingChainKey);
  }

  /** Every call keeps the session sound, revives no spent key, and spends the key it opened with. */
  lemma CallSound(s: State, h: Header, ct: Ciphertext, seed: nat, mk: Term)
    requires Sound(s)
    ensures var r := Decrypt(s, h, ct, seed);
      && Preserves(s, r.state, mk)
      && (r.result.Plaintext? ==> OpenedBy(r.state, ct))
  {
    if InRange(h) {
      var i := Find(s.skippedKeys, h);
      if i < |s.skippedKeys| {
        StoredSound(s, i, h, ct, mk);
      } else if s.receivingDhPub == Some(h.dhPub) {
        SameSound(s, h, ct, mk);
      } else {
        NewSound(s, h, ct, seed, mk);
      }
    }
  }

  lemma SameSound(s: State, h: Header, ct: Ciphertext, mk: Term)
    requires Sound(s)
    ensures var r := DecryptSameChain(s, h, ct);
      && Preserves(s, r.state, mk)
      && (r.result.Plaintext? ==> OpenedBy(r.state, ct))
  {
    if s.receivingChainKey.Some? && h.messageNumber >= s.receivingMessageNumber {
      var skip := h.messageNumber - s.receivingMessageNumber;
      if skip > MAX_SKIPPED_KEYS {
        LossSound(s, h.messageNumber + 1, mk);
      } else if DecryptAdvance(s, h, ct, skip).result.Plaintext? {
        AdvanceSound(s, h, ct, skip, mk);
      }
    }
  }

  lemma SendSound(s: State, mk: Term)
    requires Sound(s) && s.sendingChainKey.Some?
    ensures Preserves(s, AfterEncrypt(s), mk) && Spent(AfterEncrypt(s), MessageKey(s.sendingChainKey.value))
  {
    var t, cks := AfterEncrypt(s), s.sendingChainKey.value;
    forall k | 0 <= k < |t.skippedKeys|
      ensures Fits(t.skippedKeys[k].messageKey, t.rootKey, t.receivingChainKey, t.sendingChainKey)
      ensures t.skippedKeys[k].messageKey != MessageKey(cks)
    {
      assert Fits(s.skippedKeys[k].messageKey, s.rootKey, s.receivingChainKey, s.sendingChainKey);
    }
  }

  // ---------------------------------------------------------------------------
  // Whole runs
  // ---------------------------------------------------------------------------

  lemma {:induction false} RunSound(s: State, cs: seq<Call>, mk: Term)
    requires Sound(s)
    ensures Preserves(s, RunState(s, cs), mk)
    decreases |cs|
  {
    if cs != [] {
      var c := cs[0];
      CallSound(s, c.header, c.ciphertext, c.seed, mk);
      RunSound(Decrypt(s, c.header, c.ciphertext, c.seed).state, cs[1..], mk);
    }
  }

  lemma SpentNeverOpens(s: State, h: Header, ct: Ciphertext, seed: nat)
    requires Sound(s) && OpenedBy(s, ct)
    ensures !Decrypt(s, h, ct, seed).result.Plaintext?
  {
    var mk := ct.key.mk;
    if InRange(h) {
      var i := Find(s.skippedKeys, h);
      if i < |s.skippedKeys| {
        assert s.skippedKeys[i].messageKey != mk;
      } else if s.receivingDhPub == Some(h.dhPub) {
        if s.receivingChainKey.Some? && h.messageNumber >= s.receivingMessageNumber {
          ChainFrom(s.receivingChainKey.value, h.messageNumber - s.receivingMessageNumber);
        }
      } else {
        ChainFrom(ChainKey(s.rootKey, Agree(s.sendingDhPriv, h.dhPub)), h.messageNumber);
        BelowLower(Base(mk.ck).root, s.rootKey);
      }
    }
  }

  /** A ciphertext that has opened never opens again: not after any further calls whatever, under
      any header, and however the session got where it is. */
  lemma OpensOnce(s: State, c: Call, cs: seq<Call>, again: Call)
    requires Sound(s) && again.ciphertext == c.ciphertext
    requires Decrypt(s, c.header, c.ciphertext, c.seed).result.Plaintext?
    ensures var t := RunState(Decrypt(s, c.header, c.ciphertext, c.seed).state, cs);
      !Decrypt(t, again.header, again.ciphertext, again.seed).result.Plaintext?
  {
    var mk := if c.ciphertext.Sealed? && c.ciphertext.key.AesKey? then c.ciphertext.key.mk else s.rootKey;
    CallSound(s, c.header, c.ciphertext, c.seed, mk);
    var t := Decrypt(s, c.header, c.ciphertext, c.seed).state;
    RunSound(t, cs, mk);
    SpentNeverOpens(RunState(t, cs), again.header, again.ciphertext, again.seed);
  }

  // ---------------------------------------------------------------------------
  // Eviction
  // ---------------------------------------------------------------------------

  lemma OldEntriesBehind(s: State, h: Header, seed: nat, i: nat)
    requires Sound(s) && i < |OldEntries(s, h)|
    ensures Behind(Ratcheted(s, h, seed), OldEntries(s, h)[i].messageKey)
  {
    var ck := s.receivingChainKey.value;
    EntryKey(s.receivingDhPub.value, ck, s.receivingMessageNumber, h.prevChainLength - s.receivingMessageNumber, i);
    OlderFits(OldEntries(s, h)[i].messageKey, s.rootKey, Agree(s.sendingDhPriv, h.dhPub), Agree(Priv(seed), h.dhPub));
  }

  /** What a walk appended is behind the session it made. */
  lemma WalkedBehind(s: State, h: Header, ct: Ciphertext, skip: nat, i: nat)
    requires Sound(s) && s.receivingChainKey.Some? && DecryptAdvance(s, h, ct, skip).result.Plaintext? && i < skip
    ensures Behind(DecryptAdvance(s, h, ct, skip).state,
                   Entries(h.dhPub, s.receivingChainKey.value, s.receivingMessageNumber, skip)[i].messageKey)
  {
    EntryKey(h.dhPub, s.receivingChainKey.value, s.receivingMessageNumber, skip, i);
    ChainFrom(s.receivingChainKey.value, skip + 1);
  }

  lemma AppendedBehind(s: State, h: Header, ct: Ciphertext, seed: nat, i: nat)
    requires Sound(s) && i < |Appended(s, h, ct, seed)|
    ensures Behind(Decrypt(s, h, ct, seed).state, Appended(s, h, ct, seed)[i].messageKey)
  {
    hide ChainsSound, StoreSound, Rooted, AheadOn, SameChain, Base, Steps, Below, Stores, Fits;
    if s.receivingDhPub == Some(h.dhPub) {
      WalkedBehind(s, h, ct, h.messageNumber - s.receivingMessageNumber, i);
    } else {
      var t := Ratcheted(s, h, seed);
      var mk := Appended(s, h, ct, seed)[i].messageKey;
      RatchetSound(s, h, seed, mk);
      if i < |OldEntries(s, h)| {
        OldEntriesBehind(s, h, seed, i);
        NewSound(s, h, ct, seed, mk);
        if h.messageNumber > MAX_SKIPPED_KEYS {
          LossSound(t, h.messageNumber + 1, mk);
        } else {
          AdvanceSound(t, h, ct, h.messageNumber, mk);
        }
      } else {
        WalkedBehind(t, h, ct, h.messageNumber, i - |OldEntries(s, h)|);
      }
    }
  }

  lemma GivenUp(s: State, t: State, added: seq<SkippedKey>, mk: Term)
    requires Sound(s) && Preserves(s, t, mk) && Stores(s.skippedKeys + added, mk) && !Stores(t.skippedKeys, mk)
    requires forall i :: 0 <= i < |added| ==> Behind(t, added[i].messageKey)
    ensures Spent(t, mk)
  {
    var all := s.skippedKeys + added;
    var k :| 0 <= k < |all| && all[k].messageKey == mk;
    if k < |s.skippedKeys| {
      assert Fits(s.skippedKeys[k].messageKey, s.rootKey, s.receivingChainKey, s.sendingChainKey);
    }
  }

  /** A key the store held or was given in a call, and no longer has after it, is spent. */
  lemma EvictedSpent(s: State, h: Header, ct: Ciphertext, seed: nat, mk: Term)
    requires Sound(s) && Stores(s.skippedKeys + Appended(s, h, ct, seed), mk)
    requires !Stores(Decrypt(s, h, ct, seed).state.skippedKeys, mk)
    ensures Spent(Decrypt(s, h, ct, seed).state, mk)
  {
    var t, added := Decrypt(s, h, ct, seed).state, Appended(s, h, ct, seed);
    CallSound(s, h, ct, seed, mk);
    forall i | 0 <= i < |added| ensures Behind(t, added[i].messageKey) {
      AppendedBehind(s, h, ct, seed, i);
    }
    GivenUp(s, t, added, mk);
  }
}
