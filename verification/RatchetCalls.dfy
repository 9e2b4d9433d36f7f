/** encryptToDevice and decryptFromDevice on heap sessions. None of the public methods has a
    `modifies` clause, so whatever the input, header or ciphertext, no buffer that existed
    before the call is written; each is proved to do what the functions of `Ratchet` say. */
module RatchetCalls {
  import opened Options
  import opened Symbols
  import opened Ratchet
  import opened Buffers
  import opened RatchetBuffers

  ghost predicate HeaderIs(header: HeaderBuffer, h: Header)
    reads header.dhPub
  {
    && Holds(header.dhPub, h.dhPub)
    && header.prevChainLength == h.prevChainLength && header.messageNumber == h.messageNumber
  }

  /** A call that fails hands back its own input; any other hands back a session made of new
      buffers only. */
  twostate predicate Returned(s: Session, new next: Session, result: Result, r: Reply)
    reads next, next.Core(), next.receivingChainKey, Cells(next.skippedKeys)
  {
    && next.Is(r.state) && result == r.result
    && if result.Plaintext? || result.MessageLost? then AllNew(next) else next == s
  }

  /** If the buffer holds a chain key, it is one that session v still lives on. */
  ghost predicate LivesIn(x: Buffer, v: State)
    reads x
  {
    HoldsChainKey(x) ==>
      (v.sendingChainKey.Some? && Holds(x, v.sendingChainKey.value)) ||
      (v.receivingChainKey.Some? && Holds(x, v.receivingChainKey.value))
  }

  /** Sessions start with chain keys where they belong... */
  lemma StartsPlain(shares: seq<Term>, peer: nat, seed: nat, own: nat)
    ensures Plain(InitSender(SessionKey(shares), Pub(peer), seed))
    ensures Plain(InitReceiver(SessionKey(shares), Priv(own), Pub(own)))
  {
  }

  lemma AppendedPlain(v: State, h: Header, ct: Ciphertext, seed: nat)
    requires Plain(v) && !IsChainKey(h.dhPub)
    ensures PlainStore(Appended(v, h, ct, seed))
  {
    hide Open, Push, Find, SerializeHeader;
  }

  lemma StoreStaysPlain(v: State, h: Header, ct: Ciphertext, seed: nat)
    requires Plain(v) && !IsChainKey(h.dhPub)
    ensures PlainStore(Decrypt(v, h, ct, seed).state.skippedKeys)
  {
    hide Decrypt, Appended, PlainCore, Find, IsChainKey;
    StoreStep(v, h, ct, seed);
    AppendedPlain(v, h, ct, seed);
  }

  lemma CoreStaysPlain(v: State, h: Header, ct: Ciphertext, seed: nat)
    requires PlainCore(v) && !IsChainKey(h.dhPub)
    ensures PlainCore(Decrypt(v, h, ct, seed).state)
  {
    hide Push, Find, Open, SerializeHeader, PlainStore;
  }

  /** ... and no call puts them anywhere else, whatever header and ciphertext it is given. */
  lemma StaysPlain(v: State, h: Header, ct: Ciphertext, seed: nat)
    requires Plain(v) && !h.dhPub.ChainKey? && !h.dhPub.NextChain?
    ensures Plain(Decrypt(v, h, ct, seed).state)
    ensures v.sendingChainKey.Some? ==> Plain(AfterEncrypt(v))
  {
    hide Decrypt, PlainStore;
    CoreStaysPlain(v, h, ct, seed);
    StoreStaysPlain(v, h, ct, seed);
  }

  // ---------------------------------------------------------------------------
  // Stored keys
  // ---------------------------------------------------------------------------

  lemma {:induction false} StoreWithout(es: seq<Entry>, v: seq<SkippedKey>, i: nat)
    requires StoreIs(es, v) && Separate(es) && i < |es|
    ensures StoreIs(Without(es, i), Without(v, i)) && Separate(Without(es, i))
    ensures Cells(Without(es, i)) <= Cells(es) - {es[i].messageKey}
  {
    if i == 0 {
      assert Without(es, i) == es[1..] && Without(v, i) == v[1..];
    } else {
      StoreWithout(es[1..], v[1..], i - 1);
      CellsAt(es[1..], i - 1);
      assert Without(es, i)[1..] == Without(es[1..], i - 1) && Without(v, i)[1..] == Without(v[1..], i - 1);
    }
  }

  method FindSkipped(es: seq<Entry>, header: HeaderBuffer, ghost v: seq<SkippedKey>, ghost h: Header)
    returns (i: nat)
    requires StoreIs(es, v) && HeaderIs(header, h)
    ensures i == Find(v, h)
    ensures forall x: Buffer :: Any(x) ==> !fresh(x)
  {
    assert allocated(Cells(es));
    i := 0;
    while i < |es|
      invariant i <= |es| && forall k :: 0 <= k < i ==> !Matches(v[k], h)
      invariant forall x: Buffer :: Any(x) ==> !fresh(x)
    {
      StoreAt(es, v, i);
      HoldSame(es[i].dhPub, v[i].dhPub, header.dhPub, h.dhPub);
      var same := BytesEqual(es[i].dhPub, header.dhPub);
      if es[i].messageNumber == header.messageNumber && same {
        return;
      }
      i := i + 1;
    }
  }

  /** Scrubs and drops one entry of a candidate. */
  method Consume(next: Session, i: nat, ghost v: seq<SkippedKey>)
    requires StoreIs(next.skippedKeys, v) && Separate(next.skippedKeys) && i < |next.skippedKeys|
    modifies next`skippedKeys, Cells(next.skippedKeys)
    ensures StoreIs(next.skippedKeys, Without(v, i)) && Cells(next.skippedKeys) <= old(Cells(next.skippedKeys))
    ensures Scrubbed(old(next.skippedKeys)[i].messageKey)
    ensures forall x: Buffer :: Any(x) && HoldsChainKey(x) ==> !fresh(x) && old(HoldsChainKey(x))
  {
    var es := next.skippedKeys;
    StoreWithout(es, v, i);
    CellsAt(es, i);
    next.skippedKeys := Without(es, i);
    assert allocated(Cells(es)) && es[i].messageKey !in Cells(next.skippedKeys);
    Fill0(es[i].messageKey);
  }

  method CloneConsumed(s: Session, i: nat, ghost v: State) returns (next: Session)
    requires s.Is(v) && i < |s.skippedKeys|
    ensures fresh(next) && AllNew(next) && next.Is(v.(skippedKeys := Without(v.skippedKeys, i)))
    ensures Plain(v) ==> forall x: Buffer :: Any(x) && fresh(x) && HoldsChainKey(x) ==>
      x == next.sendingChainKey || x == next.receivingChainKey
  {
    next := Clone(s, v);
    Consume(next, i, v.skippedKeys);
  }

  method OpenStored(s: Session, i: nat, aad: seq<Octet>, ct: Ciphertext, ghost v: State, ghost h: Header)
    returns (next: Session, result: Result)
    requires s.Is(v) && i < |s.skippedKeys| && aad == SerializeHeader(h)
    ensures Returned(s, next, result, DecryptStored(v, i, h, ct))
    ensures next == s || fresh(next)
    ensures Plain(v) ==> forall x: Buffer :: Any(x) && fresh(x) ==>
      LivesIn(x, DecryptStored(v, i, h, ct).state)
  {
    assert allocated(Cells(s.skippedKeys));
    StoreAt(s.skippedKeys, v.skippedKeys, i);
    var text := TryOpen(s.skippedKeys[i].messageKey, v.skippedKeys[i].messageKey, aad, ct);
    if text.None? {
      return s, InvalidMessage;
    }
    next := CloneConsumed(s, i, v);
    result := Plaintext(text.value);
  }

  // ---------------------------------------------------------------------------
  // The current chain
  // ---------------------------------------------------------------------------

  /** A candidate gives up its receiving chain: the chain key is scrubbed. */
  method DropReceivingChain(next: Session)
    modifies next`receivingChainKey, next.receivingChainKey
    ensures next.receivingChainKey == null
    ensures old(next.receivingChainKey) != null ==> Scrubbed(old(next.receivingChainKey))
    ensures forall x: Buffer :: Any(x) && HoldsChainKey(x) ==>
      !fresh(x) && old(HoldsChainKey(x)) && x != old(next.receivingChainKey)
  {
    if next.receivingChainKey != null {
      Fill0(next.receivingChainKey);
      next.receivingChainKey := null;
    }
  }

  method AdvancePastLossThreshold(s: Session, header: HeaderBuffer, ghost v: State, ghost h: Header)
    returns (next: Session, result: Result)
    requires s.Is(v) && HeaderIs(header, h)
    ensures Returned(s, next, result, AdvancePastLoss(v, h))
    ensures next == s || fresh(next)
    ensures Plain(v) ==> forall x: Buffer :: Any(x) && fresh(x) ==>
      LivesIn(x, AdvancePastLoss(v, h).state)
  {
    hide Holds, Scrubbed, StoreIs, Separate;
    assert allocated(Cells(s.skippedKeys));
    next := Clone(s, v);
    assert allocated(Cells(next.skippedKeys));
    DropReceivingChain(next);
    next.receivingMessageNumber := header.messageNumber + 1;
    result := MessageLost(header.messageNumber - s.receivingMessageNumber);
  }

  /** Walks a candidate to the header's position and commits it if the message opens; if not,
      scrubs what the walk derived. */
  method Advance(next: Session, header: HeaderBuffer, aad: seq<Octet>, ct: Ciphertext, skip: nat,
                 ghost v: State, ghost h: Header) returns (text: Option<Text>)
    requires next.Is(v) && next.CoreApart() && next.StoreApart()
    requires HeaderIs(header, h) && aad == SerializeHeader(h)
    requires header.dhPub !in Cells(next.skippedKeys) && header.dhPub != next.receivingChainKey
    requires v.receivingChainKey.Some? && skip == h.messageNumber - v.receivingMessageNumber
    modifies next`skippedKeys, next`receivingChainKey, next`receivingMessageNumber
    modifies next.receivingChainKey, Cells(next.skippedKeys)
    ensures var r := DecryptAdvance(v, h, ct, skip);
      (if text.None? then r.result.InvalidMessage? else r.result == Plaintext(text.value) && next.Is(r.state))
    ensures if text.Some? then fresh(next.receivingChainKey) else next.receivingChainKey == old(next.receivingChainKey)
    ensures Scrubbed(old(next.receivingChainKey))
    ensures text.None? ==> forall e :: e in next.skippedKeys ==> Scrubbed(e.messageKey)
    ensures !IsChainKey(h.dhPub) ==> forall x: Buffer :: Any(x) && HoldsChainKey(x) ==>
      (text.Some? && x == next.receivingChainKey) ||
      (!fresh(x) && old(HoldsChainKey(x)) && x != old(next.receivingChainKey))
    ensures forall b :: b in Cells(next.skippedKeys) ==> b in old(Cells(next.skippedKeys)) || fresh(b)
  {
    hide Holds, Scrubbed, StoreIs, Separate;
    assert allocated(Cells(next.skippedKeys));
    var nextChainKey;
    text, nextChainKey := WalkAndOpen(next, header.dhPub, next.receivingChainKey, next.receivingMessageNumber, skip,
                                      aad, ct, v.skippedKeys, h.dhPub, v.receivingChainKey.value);
    if text.None? {
      ScrubStore(next);
    } else {
      next.receivingChainKey := nextChainKey;
      next.receivingMessageNumber := header.messageNumber + 1;
    }
  }

  lemma AdvanceFails(v: State, h: Header, ct: Ciphertext, skip: nat)
    requires v.receivingChainKey.Some?
    ensures var r := DecryptAdvance(v, h, ct, skip); r.result.InvalidMessage? ==> r == Reply(v, InvalidMessage)
  {
  }

  method DecryptAdvanceChain(s: Session, header: HeaderBuffer, aad: seq<Octet>, ct: Ciphertext, skip: nat,
                             ghost v: State, ghost h: Header) returns (next: Session, result: Result)
    requires s.Is(v) && HeaderIs(header, h) && aad == SerializeHeader(h)
    requires v.receivingChainKey.Some? && skip == h.messageNumber - v.receivingMessageNumber
    ensures Returned(s, next, result, DecryptAdvance(v, h, ct, skip))
    ensures next == s || fresh(next)
    ensures Plain(v) && !IsChainKey(h.dhPub) ==> forall x: Buffer :: Any(x) && fresh(x) ==>
      LivesIn(x, DecryptAdvance(v, h, ct, skip).state)
  {
    hide Holds, Scrubbed, StoreIs, Separate, DecryptAdvance;
    assert allocated(Cells(s.skippedKeys));
    next := Clone(s, v);
    assert allocated(Cells(next.skippedKeys));
    var text := Advance(next, header, aad, ct, skip, v, h);
    AdvanceFails(v, h, ct, skip);
    if text.None? {
      return s, InvalidMessage;
    }
    result := Plaintext(text.value);
  }

  method DecryptSame(s: Session, header: HeaderBuffer, aad: seq<Octet>, ct: Ciphertext,
                     ghost v: State, ghost h: Header) returns (next: Session, result: Result)
    requires s.Is(v) && HeaderIs(header, h) && aad == SerializeHeader(h)
    ensures Returned(s, next, result, DecryptSameChain(v, h, ct))
    ensures next == s || fresh(next)
    ensures Plain(v) && !IsChainKey(h.dhPub) ==> forall x: Buffer :: Any(x) && fresh(x) ==>
      LivesIn(x, DecryptSameChain(v, h, ct).state)
  {
    if s.receivingChainKey == null || header.messageNumber < s.receivingMessageNumber {
      return s, Duplicate;
    }
    var skip := header.messageNumber - s.receivingMessageNumber;
    if skip > MAX_SKIPPED_KEYS {
      next, result := AdvancePastLossThreshold(s, header, v, h);
    } else {
      next, result := DecryptAdvanceChain(s, header, aad, ct, skip, v, h);
    }
  }

  // ---------------------------------------------------------------------------
  // A new chain
  // ---------------------------------------------------------------------------

  /** Stores what is left of the old receiving chain and scrubs its chain key. */
  method SkipOld(next: Session, header: HeaderBuffer, ghost v: State, ghost h: Header)
    requires next.Is(v) && next.CoreApart() && next.StoreApart()
    requires header.prevChainLength == h.prevChainLength && !GapTooLong(v, h)
    modifies next`skippedKeys, next.receivingChainKey, Cells(next.skippedKeys)
    ensures next.CoreIs(v) && next.receivingChainKey == old(next.receivingChainKey)
    ensures Receiving(v) ==> Scrubbed(next.receivingChainKey)
    ensures StoreIs(next.skippedKeys, Push(v.skippedKeys, OldEntries(v, h))) && next.StoreApart()
    ensures forall b :: b in Cells(next.skippedKeys) ==> b in old(Cells(next.skippedKeys)) || fresh(b)
    ensures Plain(v) ==> forall x: Buffer :: Any(x) && HoldsChainKey(x) ==>
      !fresh(x) && old(HoldsChainKey(x)) && x != next.receivingChainKey
  {
    hide Holds, Scrubbed;
    assert allocated(Cells(next.skippedKeys));
    if next.receivingChainKey != null && next.receivingDhPub != null {
      var skip := header.prevChainLength - next.receivingMessageNumber;
      if skip > 0 {
        var chainKey := Walk(next, next.receivingDhPub, next.receivingChainKey, next.receivingMessageNumber, skip,
                             v.skippedKeys, v.receivingDhPub.value, v.receivingChainKey.value);
        assert allocated(Cells(next.skippedKeys));
        Fill0(chainKey);
      } else {
        Fill0(next.receivingChainKey);
      }
    }
  }

  /** One shared secret mixed into a root: of all the buffers this makes only the two keys are left. */
  method RootStep(rootKey: Buffer, priv: Buffer, pub: Buffer, ghost r: Term, ghost a: Term, ghost p: Term)
    returns (root: Buffer, chain: Buffer)
    requires Holds(rootKey, r) && Holds(priv, a) && Holds(pub, p)
    ensures fresh(root) && fresh(chain) && root != chain
    ensures Holds(root, RootKey(r, Agree(a, p))) && Holds(chain, ChainKey(r, Agree(a, p)))
    ensures forall x: Buffer :: Any(x) && fresh(x) ==> x in {root, chain} || Scrubbed(x)
  {
    var shared := SharedSecret(priv, pub, a, p);
    root, chain := RootKdf(rootKey, shared, r, Agree(a, p));
    Fill0(shared);
  }

  /** The receiving half of the DH ratchet: a new root and receiving chain, the old root scrubbed. */
  method ReceiveStep(next: Session, header: HeaderBuffer, ghost v: State, ghost h: Header)
    requires next.CoreIs(v) && next.CoreApart() && Holds(header.dhPub, h.dhPub)
    requires header.dhPub != next.rootKey
    modifies next`rootKey, next`receivingDhPub, next`receivingChainKey, next`receivingMessageNumber, next.rootKey
    ensures var d := Agree(v.sendingDhPriv, h.dhPub);
      next.CoreIs(v.(rootKey := RootKey(v.rootKey, d), receivingDhPub := Some(h.dhPub), receivingMessageNumber := 0)) &&
      next.receivingChainKey != null && Holds(next.receivingChainKey, ChainKey(v.rootKey, d))
    ensures fresh(next.rootKey) && fresh(next.receivingDhPub) && fresh(next.receivingChainKey)
    ensures Scrubbed(old(next.rootKey))
    ensures next.CoreApart()
    ensures !IsChainKey(h.dhPub) ==> forall x: Buffer :: Any(x) && HoldsChainKey(x) ==>
      x == next.receivingChainKey || (!fresh(x) && old(HoldsChainKey(x)))
  {
    var root, chain := RootStep(next.rootKey, next.sendingDhPriv, header.dhPub, v.rootKey, v.sendingDhPriv, h.dhPub);
    Fill0(next.rootKey);
    var peer := Copy(header.dhPub, h.dhPub);
    next.rootKey, next.receivingDhPub, next.receivingChainKey := root, peer, chain;
    next.receivingMessageNumber := 0;
  }

  /** A new key pair and what the root KDF makes of it; nothing else is left. */
  method SendKeys(rootKey: Buffer, peer: Buffer, seed: nat, ghost r: Term, ghost p: Term)
    returns (priv: Buffer, pub: Buffer, root: Buffer, chain: Buffer)
    requires Holds(rootKey, r) && Holds(peer, p)
    ensures fresh({priv, pub, root, chain}) && |{priv, pub, root, chain}| == 4
    ensures Holds(priv, Priv(seed)) && Holds(pub, Pub(seed))
    ensures Holds(root, RootKey(r, Agree(Priv(seed), p))) && Holds(chain, ChainKey(r, Agree(Priv(seed), p)))
    ensures forall x: Buffer :: Any(x) && fresh(x) ==> x in {priv, pub, root, chain} || Scrubbed(x)
    ensures forall x: Buffer :: Any(x) && fresh(x) && HoldsChainKey(x) ==> x == chain
  {
    priv := Allocate(Priv(seed));
    pub := Allocate(Pub(seed));
    root, chain := RootStep(rootKey, priv, peer, r, Priv(seed), p);
  }

  /** The keys about to be replaced. */
  method ScrubReplaced(next: Session)
    requires next.CoreApart()
    modifies next.rootKey, next.sendingDhPriv, next.sendingChainKey
    ensures Scrubbed(next.rootKey) && Scrubbed(next.sendingDhPriv)
    ensures next.sendingChainKey != null ==> Scrubbed(next.sendingChainKey)
    ensures forall x: Buffer :: Any(x) && HoldsChainKey(x) ==>
      !fresh(x) && old(HoldsChainKey(x)) && x != next.sendingChainKey
  {
    Fill0(next.rootKey);
    if next.sendingChainKey != null {
      Fill0(next.sendingChainKey);
    }
    Fill0(next.sendingDhPriv);
  }

  /** The sending half: a new key pair and sending chain, everything they replace scrubbed. */
  method SendStep(next: Session, header: HeaderBuffer, seed: nat, ghost v: State, ghost h: Header)
    requires next.CoreIs(v) && next.CoreApart() && Holds(header.dhPub, h.dhPub)
    requires header.dhPub !in {next.rootKey, next.sendingDhPriv, next.sendingChainKey}
    modifies next`rootKey, next`previousSendingChainLength, next`sendingDhPriv, next`sendingDhPub
    modifies next`sendingChainKey, next`sendingMessageNumber
    modifies next.rootKey, next.sendingDhPriv, next.sendingChainKey
    ensures var d := Agree(Priv(seed), h.dhPub);
      next.CoreIs(v.(rootKey := RootKey(v.rootKey, d), previousSendingChainLength := v.sendingMessageNumber,
                     sendingDhPriv := Priv(seed), sendingDhPub := Pub(seed),
                     sendingChainKey := Some(ChainKey(v.rootKey, d)), sendingMessageNumber := 0))
    ensures fresh({next.rootKey, next.sendingDhPriv, next.sendingDhPub, next.sendingChainKey})
    ensures Scrubbed(old(next.rootKey)) && Scrubbed(old(next.sendingDhPriv))
    ensures old(next.sendingChainKey) != null ==> Scrubbed(old(next.sendingChainKey))
    ensures next.CoreApart()
    ensures forall x: Buffer :: Any(x) && HoldsChainKey(x) ==>
      x == next.sendingChainKey || (!fresh(x) && old(HoldsChainKey(x)) && x != old(next.sendingChainKey))
  {
    hide Holds, Scrubbed, HoldsChainKey;
    var priv, pub, root, chain := SendKeys(next.rootKey, header.dhPub, seed, v.rootKey, h.dhPub);
    ScrubReplaced(next);
    next.rootKey, next.previousSendingChainLength := root, next.sendingMessageNumber;
    next.sendingDhPriv, next.sendingDhPub, next.sendingChainKey := priv, pub, chain;
    next.sendingMessageNumber := 0;
  }

  /** Both halves of the DH ratchet, on everything but the store. */
  method DhStep(next: Session, header: HeaderBuffer, seed: nat, ghost v: State, ghost h: Header)
    requires next.CoreIs(v) && next.CoreApart() && HeaderIs(header, h) && header.dhPub !in next.Core()
    modifies next`rootKey, next`sendingDhPriv, next`sendingDhPub, next`receivingDhPub, next`sendingChainKey
    modifies next`receivingChainKey, next`sendingMessageNumber, next`receivingMessageNumber
    modifies next`previousSendingChainLength, next.Core()
    ensures var t := Ratcheted(v, h, seed);
      next.CoreIs(t) && OptHolds(next.receivingChainKey, t.receivingChainKey) && next.CoreApart()
    ensures Scrubbed(old(next.rootKey)) && Scrubbed(old(next.sendingDhPriv))
    ensures old(next.sendingChainKey) != null ==> Scrubbed(old(next.sendingChainKey))
    ensures fresh(next.Core() - {null}) && fresh(next.receivingChainKey)
    ensures !IsChainKey(h.dhPub) ==> forall x: Buffer :: Any(x) && HoldsChainKey(x) ==>
      x == next.sendingChainKey || x == next.receivingChainKey ||
      (!fresh(x) && old(HoldsChainKey(x)) && x != old(next.sendingChainKey))
  {
    ReceiveStep(next, header, v, h);
    ghost var d := Agree(v.sendingDhPriv, h.dhPub);
    SendStep(next, header, seed,
             v.(rootKey := RootKey(v.rootKey, d), receivingDhPub := Some(h.dhPub), receivingMessageNumber := 0), h);
  }

  /** The whole step: the candidate becomes the ratcheted session. */
  method RatchetStep(next: Session, header: HeaderBuffer, seed: nat, ghost v: State, ghost h: Header)
    requires next.Is(v) && next.CoreApart() && next.StoreApart() && HeaderIs(header, h) && !GapTooLong(v, h)
    requires header.dhPub !in next.Core() && header.dhPub != next.receivingChainKey
    requires header.dhPub !in Cells(next.skippedKeys)
    modifies next, next.Core(), next.receivingChainKey, Cells(next.skippedKeys)
    ensures next.Is(Ratcheted(v, h, seed)) && next.CoreApart() && next.StoreApart()
    ensures fresh(next.Core() - {null}) && fresh(next.receivingChainKey)
    ensures forall b :: b in Cells(next.skippedKeys) ==> b in old(Cells(next.skippedKeys)) || fresh(b)
    ensures Plain(v) && !IsChainKey(h.dhPub) ==> forall x: Buffer :: Any(x) && HoldsChainKey(x) ==>
      x == next.sendingChainKey || x == next.receivingChainKey ||
      (!fresh(x) && old(HoldsChainKey(x)) && x != old(next.sendingChainKey) && x != old(next.receivingChainKey))
  {
    hide Holds, Scrubbed, StoreIs, Separate, GapTooLong;
    SkipOld(next, header, v, h);
    assert allocated(Cells(next.skippedKeys));
    DhStep(next, header, seed, v, h);
  }

  /** The walk along a ratcheted candidate's new chain, or the report that it is too long. A
      candidate whose message does not open is scrubbed. */
  method FinishNew(next: Session, header: HeaderBuffer, aad: seq<Octet>, ct: Ciphertext, seed: nat,
                   ghost v: State, ghost h: Header) returns (result: Result)
    requires HeaderIs(header, h) && InRange(h) && aad == SerializeHeader(h) && !GapTooLong(v, h)
    requires next.Is(Ratcheted(v, h, seed)) && next.CoreApart() && next.StoreApart()
    requires header.dhPub !in Cells(next.skippedKeys) && header.dhPub != next.receivingChainKey
    modifies next`skippedKeys, next`receivingChainKey, next`receivingMessageNumber
    modifies next.Core(), next.receivingChainKey, Cells(next.skippedKeys)
    ensures var r := DecryptNewChain(v, h, ct, seed);
      result == r.result && (!result.InvalidMessage? ==> next.Is(r.state))
    ensures result.Plaintext? || result.MessageLost? || result.InvalidMessage?
    ensures result.Plaintext? ==> fresh(next.receivingChainKey)
    ensures result.MessageLost? ==> next.receivingChainKey == null
    ensures Scrubbed(old(next.receivingChainKey))
    ensures result.InvalidMessage? ==> Scrubbed(next.rootKey) && Scrubbed(next.sendingDhPriv)
    ensures result.InvalidMessage? && next.sendingChainKey != null ==> Scrubbed(next.sendingChainKey)
    ensures !IsChainKey(h.dhPub) ==> forall x: Buffer :: Any(x) && HoldsChainKey(x) ==>
      (result.Plaintext? && x == next.receivingChainKey) ||
      (!fresh(x) && old(HoldsChainKey(x)) && x != old(next.receivingChainKey))
    ensures next.sendingChainKey == old(next.sendingChainKey)
    ensures result.InvalidMessage? && next.sendingChainKey != null ==> !HoldsChainKey(next.sendingChainKey)
    ensures forall b :: b in Cells(next.skippedKeys) ==> b in old(Cells(next.skippedKeys)) || fresh(b)
  {
    hide Holds, StoreIs, Separate, GapTooLong;
    assert allocated(Cells(next.skippedKeys));
    if header.messageNumber > MAX_SKIPPED_KEYS {
      next.receivingMessageNumber := header.messageNumber + 1;
      DropReceivingChain(next);
      return MessageLost(header.messageNumber);
    }
    var text := Advance(next, header, aad, ct, header.messageNumber, Ratcheted(v, h, seed), h);
    if text.None? {
      Fill0(next.rootKey);
      if next.sendingChainKey != null {
        Fill0(next.sendingChainKey);
      }
      if next.receivingChainKey != null {
        Fill0(next.receivingChainKey);
      }
      Fill0(next.sendingDhPriv);
      return InvalidMessage;
    }
    return Plaintext(text.value);
  }

  /** A session the code has just cloned and ratcheted. */
  method CloneRatcheted(s: Session, header: HeaderBuffer, seed: nat, ghost v: State, ghost h: Header)
    returns (next: Session)
    requires s.Is(v) && HeaderIs(header, h) && !GapTooLong(v, h)
    ensures fresh(next) && AllNew(next) && next.Is(Ratcheted(v, h, seed)) && next.CoreApart() && next.StoreApart()
    ensures Plain(v) && !IsChainKey(h.dhPub) ==> forall x: Buffer :: Any(x) && fresh(x) && HoldsChainKey(x) ==>
      x == next.sendingChainKey || x == next.receivingChainKey
  {
    hide Holds, Scrubbed, StoreIs, Separate, Ratcheted, GapTooLong;
    next := Clone(s, v);
    assert allocated(Cells(next.skippedKeys));
    RatchetStep(next, header, seed, v, h);
  }

  lemma NewChainFails(v: State, h: Header, ct: Ciphertext, seed: nat)
    requires InRange(h)
    ensures var r := DecryptNewChain(v, h, ct, seed); r.result.InvalidMessage? ==> r.state == v
  {
  }

  method DecryptRatcheted(s: Session, header: HeaderBuffer, aad: seq<Octet>, ct: Ciphertext, seed: nat,
                          ghost v: State, ghost h: Header) returns (next: Session, result: Result)
    requires s.Is(v) && HeaderIs(header, h) && InRange(h) && aad == SerializeHeader(h) && !GapTooLong(v, h)
    ensures Returned(s, next, result, DecryptNewChain(v, h, ct, seed))
    ensures next == s || fresh(next)
    ensures Plain(v) && !IsChainKey(h.dhPub) ==> forall x: Buffer :: Any(x) && fresh(x) ==>
      LivesIn(x, DecryptNewChain(v, h, ct, seed).state)
  {
    hide Holds, Scrubbed, StoreIs, Separate, GapTooLong, DecryptNewChain;
    NewChainFails(v, h, ct, seed);
    assert allocated(Cells(s.skippedKeys));
    next := CloneRatcheted(s, header, seed, v, h);
    result := FinishNew(next, header, aad, ct, seed, v, h);
    if result.InvalidMessage? {
      next := s;
    }
  }

  method DecryptNew(s: Session, header: HeaderBuffer, aad: seq<Octet>, ct: Ciphertext, seed: nat,
                    ghost v: State, ghost h: Header) returns (next: Session, result: Result)
    requires s.Is(v) && HeaderIs(header, h) && InRange(h) && aad == SerializeHeader(h)
    ensures Returned(s, next, result, DecryptNewChain(v, h, ct, seed))
    ensures next == s || fresh(next)
    ensures Plain(v) && !IsChainKey(h.dhPub) ==> forall x: Buffer :: Any(x) && fresh(x) ==>
      LivesIn(x, DecryptNewChain(v, h, ct, seed).state)
  {
    assert allocated(Cells(s.skippedKeys));
    if s.receivingChainKey != null && s.receivingDhPub != null
       && header.prevChainLength - s.receivingMessageNumber > MAX_SKIPPED_KEYS {
      next, result := AdvancePastLossThreshold(s, header, v, h);
    } else {
      next, result := DecryptRatcheted(s, header, aad, ct, seed, v, h);
    }
  }

  // ---------------------------------------------------------------------------
  // The public surface
  // ---------------------------------------------------------------------------

  method IsSameChain(s: Session, header: HeaderBuffer, ghost v: State, ghost h: Header) returns (same: bool)
    requires s.CoreIs(v) && HeaderIs(header, h)
    ensures same <==> v.receivingDhPub == Some(h.dhPub)
    ensures forall x: Buffer :: Any(x) ==> !fresh(x)
  {
    if s.receivingDhPub == null {
      return false;
    }
    HoldSame(s.receivingDhPub, v.receivingDhPub.value, header.dhPub, h.dhPub);
    same := BytesEqual(s.receivingDhPub, header.dhPub);
  }

  /** No stored key fits: the current chain if it is the header's, a new one otherwise. */
  method DecryptLive(s: Session, ct: Ciphertext, header: HeaderBuffer, aad: seq<Octet>, seed: nat, sameChain: bool,
                     ghost v: State, ghost h: Header) returns (next: Session, result: Result)
    requires s.Is(v) && HeaderIs(header, h) && InRange(h) && aad == SerializeHeader(h)
    requires sameChain <==> v.receivingDhPub == Some(h.dhPub)
    ensures Returned(s, next, result,
      if v.receivingDhPub == Some(h.dhPub) then DecryptSameChain(v, h, ct) else DecryptNewChain(v, h, ct, seed))
    ensures next == s || fresh(next)
    ensures Plain(v) && !IsChainKey(h.dhPub) ==> forall x: Buffer :: Any(x) && fresh(x) ==>
      LivesIn(x, (if v.receivingDhPub == Some(h.dhPub) then DecryptSameChain(v, h, ct)
                  else DecryptNewChain(v, h, ct, seed)).state)
  {
    if sameChain {
      next, result := DecryptSame(s, header, aad, ct, v, h);
    } else {
      next, result := DecryptNew(s, header, aad, ct, seed, v, h);
    }
  }

  /** A stored key first. */
  method Dispatch(s: Session, ct: Ciphertext, header: HeaderBuffer, aad: seq<Octet>, seed: nat, i: nat,
                  ghost v: State, ghost h: Header) returns (next: Session, result: Result)
    requires s.Is(v) && HeaderIs(header, h) && InRange(h) && aad == SerializeHeader(h) && i == Find(v.skippedKeys, h)
    ensures Returned(s, next, result, Decrypt(v, h, ct, seed))
    ensures next == s || fresh(next)
    ensures Plain(v) && !IsChainKey(h.dhPub) ==> forall x: Buffer :: Any(x) && fresh(x) ==>
      LivesIn(x, Decrypt(v, h, ct, seed).state)
  {
    assert allocated(Cells(s.skippedKeys));
    if i < |s.skippedKeys| {
      next, result := OpenStored(s, i, aad, ct, v, h);
    } else {
      var sameChain := IsSameChain(s, header, v, h);
      next, result := DecryptLive(s, ct, header, aad, seed, sameChain, v, h);
    }
  }

  method DecryptValid(s: Session, ct: Ciphertext, header: HeaderBuffer, aad: seq<Octet>, seed: nat,
                      ghost v: State, ghost h: Header) returns (next: Session, result: Result)
    requires s.Is(v) && HeaderIs(header, h) && InRange(h) && aad == SerializeHeader(h)
    ensures Returned(s, next, result, Decrypt(v, h, ct, seed))
    ensures next == s || fresh(next)
    ensures Plain(v) && !IsChainKey(h.dhPub) ==> forall x: Buffer :: Any(x) && fresh(x) ==>
      LivesIn(x, Decrypt(v, h, ct, seed).state)
  {
    assert allocated(Cells(s.skippedKeys));
    var i := FindSkipped(s.skippedKeys, header, v.skippedKeys, h);
    next, result := Dispatch(s, ct, header, aad, seed, i, v, h);
  }

  /** A header of the wrong shape throws; on any other the call returns what `Decrypt` says. */
  method DecryptFromDevice(s: Session, ct: Ciphertext, header: HeaderBuffer, seed: nat, ghost v: State, ghost h: Header)
    returns (next: Session, result: Result)
    requires s.Is(v) && (header.dhPub.Length == KEY_LENGTH ==> HeaderIs(header, h))
    ensures if header.dhPub.Length != KEY_LENGTH then next == s && result == Thrown
            else Returned(s, next, result, Decrypt(v, h, ct, seed))
    ensures next == s || fresh(next)
    ensures header.dhPub.Length == KEY_LENGTH && Plain(v) && !IsChainKey(h.dhPub) ==>
      forall x: Buffer :: Any(x) && fresh(x) && x.Length > 0 && x[0].Of? && (x[0].t.ChainKey? || x[0].t.NextChain?) ==>
        var t := Decrypt(v, h, ct, seed).state; OptHolds(x, t.sendingChainKey) || OptHolds(x, t.receivingChainKey)
  {
    assert allocated(Cells(s.skippedKeys));
    if header.dhPub.Length != KEY_LENGTH
       || header.messageNumber < 0 || header.messageNumber > 0xffff_ffff
       || header.prevChainLength < 0 || header.prevChainLength > 0xffff_ffff {
      return s, Thrown;
    }
    var aad := SerializeHeaderBuffer(header, h);
    next, result := DecryptValid(s, ct, header, aad[..], seed, v, h);
  }

  datatype Sent = Sent(header: HeaderBuffer, ciphertext: Ciphertext)

  /** Sealing under one message key; it leaves no buffer behind that is not scrubbed. */
  method SealUnder(messageKey: Buffer, ghost mk: Term, aad: seq<Octet>, text: Text) returns (ct: Ciphertext)
    requires Holds(messageKey, mk)
    ensures ct == Seal(mk, aad, text)
    ensures forall x: Buffer :: Any(x) && fresh(x) ==> Scrubbed(x)
  {
    var aesKey, iv := ExpandMessageKey(messageKey, mk);
    ct := Sealed(aesKey[0].t, iv[0].t, aad, text);
    Fill0(aesKey);
    Fill0(iv);
  }

  /** The sending chain of a candidate moves on; the chain key it leaves is scrubbed. */
  method StepSending(next: Session, ghost v: State) returns (messageKey: Buffer)
    requires next.Is(v) && next.CoreApart() && next.StoreApart() && v.sendingChainKey.Some?
    modifies next`sendingChainKey, next`sendingMessageNumber, next.sendingChainKey
    ensures next.Is(AfterEncrypt(v)) && fresh(messageKey) && fresh(next.sendingChainKey)
    ensures Scrubbed(old(next.sendingChainKey))
    ensures forall x: Buffer :: Any(x) && HoldsChainKey(x) ==>
      x == next.sendingChainKey || (!fresh(x) && old(HoldsChainKey(x)) && x != old(next.sendingChainKey))
    ensures Holds(messageKey, MessageKey(v.sendingChainKey.value))
    ensures messageKey !in Cells(next.skippedKeys) && messageKey !in next.Core() && messageKey != next.receivingChainKey
    ensures forall x: Buffer :: Any(x) && fresh(x) ==> x in {messageKey, next.sendingChainKey}
  {
    assert allocated(Cells(next.skippedKeys));
    var chainKey := next.sendingChainKey;
    var nextChainKey;
    nextChainKey, messageKey := ChainStep(chainKey, v.sendingChainKey.value);
    Fill0(chainKey);
    next.sendingChainKey := nextChainKey;
    next.sendingMessageNumber := next.sendingMessageNumber + 1;
  }

  method MakeHeader(s: Session, ghost v: State, ghost text: Text) returns (header: HeaderBuffer, aad: Buffer)
    requires s.CoreIs(v) && v.sendingChainKey.Some?
    ensures var h := NextEnvelope(v, text).header; HeaderIs(header, h) && aad[..] == SerializeHeader(h)
    ensures fresh(header.dhPub) && fresh(aad)
    ensures forall x: Buffer :: Any(x) && fresh(x) ==> x in {header.dhPub, aad}
  {
    var pub := Copy(s.sendingDhPub, v.sendingDhPub);
    header := HeaderBuffer(pub, s.previousSendingChainLength, s.sendingMessageNumber);
    aad := SerializeHeaderBuffer(header, NextEnvelope(v, text).header);
  }

  /** Seals one message under a candidate's sending chain and moves the chain on. */
  method SealNext(next: Session, text: Text, ghost v: State) returns (sent: Sent)
    requires next.Is(v) && next.CoreApart() && next.StoreApart() && v.sendingChainKey.Some?
    modifies next`sendingChainKey, next`sendingMessageNumber, next.sendingChainKey
    ensures next.Is(AfterEncrypt(v)) && fresh(next.sendingChainKey) && Scrubbed(old(next.sendingChainKey))
    ensures Plain(v) ==> forall x: Buffer :: Any(x) && HoldsChainKey(x) ==>
      x == next.sendingChainKey || (!fresh(x) && old(HoldsChainKey(x)) && x != old(next.sendingChainKey))
    ensures HeaderIs(sent.header, NextEnvelope(v, text).header) && fresh(sent.header.dhPub)
    ensures sent.ciphertext == NextEnvelope(v, text).ciphertext
    ensures forall x: Buffer :: Any(x) && fresh(x) ==>
      x in {next.sendingChainKey, sent.header.dhPub} || Scrubbed(x) ||
      x[..] == SerializeHeader(NextEnvelope(v, text).header)
  {
    assert allocated(Cells(next.skippedKeys));
    var header, aad := MakeHeader(next, v, text);
    var messageKey := StepSending(next, v);
    var ct := SealUnder(messageKey, MessageKey(v.sendingChainKey.value), aad[..], text);
    Fill0(messageKey);
    sent := Sent(header, ct);
  }

  /** Encryption throws exactly when there is no sending chain; otherwise the new session
      shares no buffer with the old one and the envelope is the next one of the chain. */
  method EncryptToDevice(s: Session, text: Text, ghost v: State) returns (next: Session, sent: Option<Sent>)
    requires s.Is(v)
    ensures if v.sendingChainKey.None? then next == s && sent.None?
            else AllNew(next) && next.Is(AfterEncrypt(v)) && sent.Some? &&
                 HeaderIs(sent.value.header, NextEnvelope(v, text).header) && fresh(sent.value.header.dhPub) &&
                 sent.value.ciphertext == NextEnvelope(v, text).ciphertext
    ensures Plain(v) && v.sendingChainKey.Some? ==>
      forall x: Buffer :: Any(x) && fresh(x) && x.Length > 0 && x[0].Of? && (x[0].t.ChainKey? || x[0].t.NextChain?) ==>
        var t := AfterEncrypt(v); OptHolds(x, t.sendingChainKey) || OptHolds(x, t.receivingChainKey)
  {
    if s.sendingChainKey == null {
      return s, None;
    }
    next := Clone(s, v);
    var envelope := SealNext(next, text, v);
    sent := Some(envelope);
  }

  /** The sender's first session; null stands for the exception on a buffer of the wrong length. */
  method InitSenderRatchet(rootKey: Buffer, recipientDhPub: Buffer, seed: nat, ghost r: Term, ghost p: Term)
    returns (s: Session?)
    requires rootKey.Length == KEY_LENGTH ==> Holds(rootKey, r)
    requires recipientDhPub.Length == KEY_LENGTH ==> Holds(recipientDhPub, p)
    ensures if rootKey.Length == recipientDhPub.Length == KEY_LENGTH
            then s != null && fresh(s) && AllNew(s) && s.Is(InitSender(r, p, seed)) else s == null
    ensures s != null && !IsChainKey(r) && !IsChainKey(p) ==>
      forall x: Buffer :: Any(x) && fresh(x) && HoldsChainKey(x) ==> x == s.sendingChainKey
  {
    if rootKey.Length != KEY_LENGTH || recipientDhPub.Length != KEY_LENGTH {
      return null;
    }
    var rootCopy := Copy(rootKey, r);
    var priv, pub, root, chain := SendKeys(rootCopy, recipientDhPub, seed, r, p);
    var peer := Copy(recipientDhPub, p);
    s := new Session(root, priv, pub, peer, chain, null);
  }

  method InitReceiverRatchet(rootKey: Buffer, ourPriv: Buffer, ourPub: Buffer,
                             ghost r: Term, ghost a: Term, ghost p: Term)
    returns (s: Session?)
    requires rootKey.Length == KEY_LENGTH ==> Holds(rootKey, r)
    requires ourPriv.Length == KEY_LENGTH ==> Holds(ourPriv, a)
    requires ourPub.Length == KEY_LENGTH ==> Holds(ourPub, p)
    ensures if rootKey.Length == ourPriv.Length == ourPub.Length == KEY_LENGTH
            then s != null && fresh(s) && AllNew(s) && s.Is(InitReceiver(r, a, p)) else s == null
    ensures s != null && !IsChainKey(r) && !IsChainKey(a) && !IsChainKey(p) ==>
      forall x: Buffer :: Any(x) && fresh(x) ==> !HoldsChainKey(x)
  {
    if rootKey.Length != KEY_LENGTH || ourPriv.Length != KEY_LENGTH || ourPub.Length != KEY_LENGTH {
      return null;
    }
    var root := Copy(rootKey, r);
    var priv := Copy(ourPriv, a);
    var pub := Copy(ourPub, p);
    s := new Session(root, priv, pub, null, null, null);
  }
}
