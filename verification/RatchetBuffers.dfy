/** The buffer-level code of ratchet.ts: sessions are heap records of byte buffers, a call
    works on a clone, walks chains in loops, evicts and scrubs. No method below has a
    `modifies` clause that reaches its input session: whatever the input, no buffer that
    existed before the call is written. */
module RatchetBuffers {
  import opened Options
  import opened Symbols
  import opened Ratchet
  import opened Buffers

  datatype Entry = Entry(dhPub: Buffer, messageNumber: int, messageKey: Buffer)

  datatype HeaderBuffer = HeaderBuffer(dhPub: Buffer, prevChainLength: int, messageNumber: int)

  // ---------------------------------------------------------------------------
  // The store
  // ---------------------------------------------------------------------------

  /** The buffers of a store. */
  ghost function Cells(es: seq<Entry>): set<Buffer> {
    if es == [] then {} else {es[0].messageKey, es[0].dhPub} + Cells(es[1..])
  }

  lemma {:induction false} CellsSnoc(es: seq<Entry>, e: Entry)
    ensures Cells(es + [e]) == Cells(es) + {e.messageKey, e.dhPub}
  {
    if es != [] {
      CellsSnoc(es[1..], e);
      assert (es + [e])[1..] == es[1..] + [e];
    }
  }

  lemma {:induction false} CellsAt(es: seq<Entry>, i: nat)
    requires i < |es|
    ensures es[i].messageKey in Cells(es) && es[i].dhPub in Cells(es)
  {
    if i > 0 {
      CellsAt(es[1..], i - 1);
    }
  }

  ghost predicate EntryIs(e: Entry, v: SkippedKey)
    reads e.dhPub, e.messageKey
  {
    Holds(e.dhPub, v.dhPub) && e.messageNumber == v.messageNumber && Holds(e.messageKey, v.messageKey)
  }

  /** The entries' buffers hold exactly the store v. */
  ghost predicate StoreIs(es: seq<Entry>, v: seq<SkippedKey>)
    reads Cells(es)
    decreases |es|
  {
    |es| == |v| && (es != [] ==> EntryIs(es[0], v[0]) && StoreIs(es[1..], v[1..]))
  }

  lemma {:induction false} StoreAt(es: seq<Entry>, v: seq<SkippedKey>, i: nat)
    requires StoreIs(es, v) && i < |es|
    ensures EntryIs(es[i], v[i])
  {
    if i > 0 {
      StoreAt(es[1..], v[1..], i - 1);
    }
  }

  ghost predicate Alone(e: Entry, others: set<Buffer>) {
    e.messageKey != e.dhPub && e.messageKey !in others && e.dhPub !in others
  }

  /** No buffer is used twice: scrubbing one entry's key touches no other. */
  ghost predicate Separate(es: seq<Entry>) {
    es != [] ==> Alone(es[0], Cells(es[1..])) && Separate(es[1..])
  }

  lemma {:induction false} StoreSnoc(es: seq<Entry>, v: seq<SkippedKey>, e: Entry, x: SkippedKey)
    requires StoreIs(es, v) && Separate(es) && EntryIs(e, x) && Alone(e, Cells(es))
    ensures StoreIs(es + [e], v + [x]) && Separate(es + [e])
    ensures Cells(es + [e]) == Cells(es) + {e.messageKey, e.dhPub}
  {
    CellsSnoc(es, e);
    if es != [] {
      StoreSnoc(es[1..], v[1..], e, x);
      CellsSnoc(es[1..], e);
      assert (es + [e])[1..] == es[1..] + [e] && (v + [x])[1..] == v[1..] + [x];
    }
  }

  class Session {
    var rootKey: Buffer
    var sendingDhPriv: Buffer
    var sendingDhPub: Buffer
    var receivingDhPub: OptBuffer
    var sendingChainKey: OptBuffer
    var receivingChainKey: OptBuffer
    var sendingMessageNumber: int
    var receivingMessageNumber: int
    var previousSendingChainLength: int
    var skippedKeys: seq<Entry>

    constructor (rootKey: Buffer, sendingDhPriv: Buffer, sendingDhPub: Buffer, receivingDhPub: OptBuffer,
                 sendingChainKey: OptBuffer, receivingChainKey: OptBuffer)
      ensures this.rootKey == rootKey && this.sendingDhPriv == sendingDhPriv && this.sendingDhPub == sendingDhPub
      ensures this.receivingDhPub == receivingDhPub && this.sendingChainKey == sendingChainKey
      ensures this.receivingChainKey == receivingChainKey
      ensures sendingMessageNumber == receivingMessageNumber == previousSendingChainLength == 0 && skippedKeys == []
      ensures forall x: Buffer :: Any(x) ==> !fresh(x)
    {
      this.rootKey, this.sendingDhPriv, this.sendingDhPub := rootKey, sendingDhPriv, sendingDhPub;
      this.receivingDhPub := receivingDhPub;
      this.sendingChainKey, this.receivingChainKey := sendingChainKey, receivingChainKey;
      sendingMessageNumber, receivingMessageNumber, previousSendingChainLength := 0, 0, 0;
      skippedKeys := [];
    }

    /** The buffers outside the store and the receiving chain key. */
    ghost function Core(): set<OptBuffer>
      reads this
    {
      {rootKey, sendingDhPriv, sendingDhPub, receivingDhPub, sendingChainKey}
    }

    ghost predicate CoreIs(v: State)
      reads this, Core()
    {
      && Holds(rootKey, v.rootKey)
      && Holds(sendingDhPriv, v.sendingDhPriv)
      && Holds(sendingDhPub, v.sendingDhPub)
      && OptHolds(receivingDhPub, v.receivingDhPub)
      && OptHolds(sendingChainKey, v.sendingChainKey)
      && sendingMessageNumber == v.sendingMessageNumber
      && receivingMessageNumber == v.receivingMessageNumber
      && previousSendingChainLength == v.previousSendingChainLength
    }

    /** The record's buffers hold exactly the session v. */
    ghost predicate Is(v: State)
      reads this, Core(), receivingChainKey, Cells(skippedKeys)
    {
      CoreIs(v) && OptHolds(receivingChainKey, v.receivingChainKey) && StoreIs(skippedKeys, v.skippedKeys)
    }

    /** No two buffers outside the store that a call may scrub or keep are the same. */
    ghost predicate CoreApart()
      reads this
    {
      && rootKey !in {sendingDhPriv, sendingDhPub, receivingDhPub, sendingChainKey, receivingChainKey}
      && sendingDhPriv !in {sendingDhPub, receivingDhPub, sendingChainKey, receivingChainKey}
      && (sendingChainKey == null || sendingChainKey !in {sendingDhPub, receivingDhPub, receivingChainKey})
      && (receivingChainKey == null || receivingChainKey !in {sendingDhPub, receivingDhPub})
    }

    ghost predicate StoreApart()
      reads this
    {
      Separate(skippedKeys) && Cells(skippedKeys) !! Core() && receivingChainKey !in Cells(skippedKeys)
    }
  }

  /** A session none of whose buffers existed before. */
  twostate predicate AllNew(new c: Session)
    reads c
  {
    && fresh(c)
    && fresh(c.Core() - {null})
    && (c.receivingChainKey != null ==> fresh(c.receivingChainKey))
    && fresh(Cells(c.skippedKeys))
  }

  /** Only the fields for chain keys hold any, and a live receiving chain belongs to some peer key. */
  ghost predicate Plain(v: State) {
    PlainCore(v) && PlainStore(v.skippedKeys)
  }

  ghost predicate PlainCore(v: State) {
    && !IsChainKey(v.rootKey) && !IsChainKey(v.sendingDhPriv) && !IsChainKey(v.sendingDhPub)
    && (v.receivingDhPub.Some? ==> !IsChainKey(v.receivingDhPub.value))
    && (v.receivingChainKey.Some? ==> v.receivingDhPub.Some?)
  }

  ghost predicate PlainStore(v: seq<SkippedKey>) {
    forall k :: 0 <= k < |v| ==> !IsChainKey(v[k].dhPub) && !IsChainKey(v[k].messageKey)
  }

  // ---------------------------------------------------------------------------
  // Cloning
  // ---------------------------------------------------------------------------

  method CopyOpt(b: OptBuffer, ghost t: Option<Term>) returns (c: OptBuffer)
    requires OptHolds(b, t)
    ensures OptHolds(c, t) && (c != null ==> fresh(c))
    ensures forall x: Buffer :: Any(x) && fresh(x) ==> x == c
  {
    if b == null {
      c := null;
    } else {
      c := Copy(b, t.value);
    }
  }

  method CloneStore(es: seq<Entry>, ghost v: seq<SkippedKey>) returns (cs: seq<Entry>)
    requires StoreIs(es, v)
    ensures StoreIs(cs, v) && Separate(cs) && fresh(Cells(cs))
    ensures PlainStore(v) ==> forall x: Buffer :: Any(x) && fresh(x) ==> !HoldsChainKey(x)
  {
    assert allocated(Cells(es));
    cs := [];
    for i := 0 to |es|
      invariant |cs| == i && StoreIs(cs, v[..i]) && Separate(cs) && fresh(Cells(cs))
      invariant PlainStore(v) ==> forall x: Buffer :: Any(x) && fresh(x) ==> !HoldsChainKey(x)
    {
      StoreAt(es, v, i);
      assert allocated(Cells(cs));
      var p := Copy(es[i].dhPub, v[i].dhPub);
      var m := Copy(es[i].messageKey, v[i].messageKey);
      StoreSnoc(cs, v[..i], Entry(p, es[i].messageNumber, m), v[i]);
      assert v[..i + 1] == v[..i] + [v[i]];
      cs := cs + [Entry(p, es[i].messageNumber, m)];
    }
    assert v[..|es|] == v;
  }

  method CopyKeys(s: Session, ghost v: State) returns (rootKey: Buffer, priv: Buffer, pub: Buffer, peer: OptBuffer)
    requires s.CoreIs(v)
    ensures fresh({rootKey, priv, pub}) && |{rootKey, priv, pub}| == 3
    ensures peer != null ==> fresh(peer) && peer !in {rootKey, priv, pub}
    ensures Holds(rootKey, v.rootKey) && Holds(priv, v.sendingDhPriv) && Holds(pub, v.sendingDhPub)
    ensures OptHolds(peer, v.receivingDhPub)
    ensures Plain(v) ==> forall x: Buffer :: Any(x) && fresh(x) ==> !HoldsChainKey(x)
  {
    rootKey := Copy(s.rootKey, v.rootKey);
    priv := Copy(s.sendingDhPriv, v.sendingDhPriv);
    pub := Copy(s.sendingDhPub, v.sendingDhPub);
    peer := CopyOpt(s.receivingDhPub, v.receivingDhPub);
  }

  method CopyChains(s: Session, ghost v: State) returns (cks: OptBuffer, ckr: OptBuffer)
    requires OptHolds(s.sendingChainKey, v.sendingChainKey) && OptHolds(s.receivingChainKey, v.receivingChainKey)
    ensures OptHolds(cks, v.sendingChainKey) && OptHolds(ckr, v.receivingChainKey)
    ensures (cks != null ==> fresh(cks) && cks != ckr) && (ckr != null ==> fresh(ckr))
    ensures forall x: Buffer :: Any(x) && fresh(x) ==> x == cks || x == ckr
  {
    cks := CopyOpt(s.sendingChainKey, v.sendingChainKey);
    ckr := CopyOpt(s.receivingChainKey, v.receivingChainKey);
  }

  method CloneCore(s: Session, ghost v: State) returns (c: Session)
    requires s.CoreIs(v) && OptHolds(s.receivingChainKey, v.receivingChainKey)
    ensures fresh(c) && fresh(c.Core() - {null}) && (c.receivingChainKey != null ==> fresh(c.receivingChainKey))
    ensures c.CoreIs(v) && OptHolds(c.receivingChainKey, v.receivingChainKey) && c.CoreApart()
    ensures c.skippedKeys == []
    ensures Plain(v) ==> forall x: Buffer :: Any(x) && fresh(x) && HoldsChainKey(x) ==>
      x == c.sendingChainKey || x == c.receivingChainKey
  {
    hide Holds, HoldsChainKey, Plain;
    var rootKey, priv, pub, peer := CopyKeys(s, v);
    var cks, ckr := CopyChains(s, v);
    c := new Session(rootKey, priv, pub, peer, cks, ckr);
    c.sendingMessageNumber := s.sendingMessageNumber;
    c.receivingMessageNumber := s.receivingMessageNumber;
    c.previousSendingChainLength := s.previousSendingChainLength;
  }

  method Clone(s: Session, ghost v: State) returns (c: Session)
    requires s.Is(v)
    ensures fresh(c) && AllNew(c)
    ensures c.Is(v) && c.CoreApart() && c.StoreApart()
    ensures Plain(v) ==> forall x: Buffer :: Any(x) && fresh(x) && HoldsChainKey(x) ==>
      x == c.sendingChainKey || x == c.receivingChainKey
  {
    var store := CloneStore(s.skippedKeys, v.skippedKeys);
    assert allocated(Cells(store));
    c := CloneCore(s, v);
    c.skippedKeys := store;
  }

  // ---------------------------------------------------------------------------
  // Primitives
  // ---------------------------------------------------------------------------

  method ChainStep(chainKey: Buffer, ghost ck: Term) returns (nextChainKey: Buffer, messageKey: Buffer)
    requires Holds(chainKey, ck)
    ensures fresh(nextChainKey) && fresh(messageKey) && nextChainKey != messageKey
    ensures Holds(nextChainKey, NextChain(ck)) && Holds(messageKey, MessageKey(ck))
    ensures forall x: Buffer :: Any(x) && fresh(x) ==> x in {nextChainKey, messageKey}
  {
    var k := Read(chainKey, ck);
    nextChainKey := Allocate(NextChain(k));
    messageKey := Allocate(MessageKey(k));
  }

  method RootKdf(rootKey: Buffer, dhOutput: Buffer, ghost r: Term, ghost d: Term)
    returns (newRootKey: Buffer, newChainKey: Buffer)
    requires Holds(rootKey, r) && Holds(dhOutput, d)
    ensures fresh(newRootKey) && fresh(newChainKey) && newRootKey != newChainKey
    ensures Holds(newRootKey, RootKey(r, d)) && Holds(newChainKey, ChainKey(r, d))
    ensures forall x: Buffer :: Any(x) && fresh(x) ==> x in {newRootKey, newChainKey}
  {
    var root := Read(rootKey, r);
    var dh := Read(dhOutput, d);
    newRootKey := Allocate(RootKey(root, dh));
    newChainKey := Allocate(ChainKey(root, dh));
  }

  /** The AES key and IV of one message key. */
  method ExpandMessageKey(messageKey: Buffer, ghost mk: Term) returns (aesKey: Buffer, iv: Buffer)
    requires Holds(messageKey, mk)
    ensures fresh(aesKey) && fresh(iv) && Holds(aesKey, AesKey(mk))
    ensures iv.Length == 12 && forall i :: 0 <= i < 12 ==> iv[i] == Of(AesIv(mk), i)
    ensures forall x: Buffer :: Any(x) && fresh(x) ==> x in {aesKey, iv}
  {
    var k := Read(messageKey, mk);
    aesKey := Allocate(AesKey(k));
    iv := new Octet[12](i requires 0 <= i => Of(AesIv(k), i));
  }

  /** Trial decryption under one message key; it leaves no buffer behind that is not scrubbed. */
  method TryOpen(messageKey: Buffer, ghost mk: Term, aad: seq<Octet>, ct: Ciphertext) returns (text: Option<Text>)
    requires Holds(messageKey, mk)
    ensures text == Open(mk, aad, ct)
    ensures forall x: Buffer :: Any(x) && fresh(x) ==> Scrubbed(x)
  {
    var aesKey, iv := ExpandMessageKey(messageKey, mk);
    text := OpenWith(aesKey[0].t, iv[0].t, aad, ct);
    Fill0(aesKey);
    Fill0(iv);
  }

  /** One step along the chain and a trial decryption: of all the buffers this makes only the next
      chain key is left, and not even that if the message does not open. */
  method StepAndOpen(chainKey: Buffer, aad: seq<Octet>, ct: Ciphertext, ghost ck: Term)
    returns (text: Option<Text>, nextChainKey: Buffer)
    requires Holds(chainKey, ck)
    modifies chainKey
    ensures text == Open(MessageKey(ck), aad, ct) && Scrubbed(chainKey) && fresh(nextChainKey)
    ensures if text.Some? then Holds(nextChainKey, NextChain(ck)) else Scrubbed(nextChainKey)
    ensures forall x: Buffer :: Any(x) && fresh(x) ==> x == nextChainKey || Scrubbed(x)
  {
    var messageKey;
    nextChainKey, messageKey := ChainStep(chainKey, ck);
    Fill0(chainKey);
    text := TryOpen(messageKey, MessageKey(ck), aad, ct);
    Fill0(messageKey);
    if text.None? {
      Fill0(nextChainKey);
    }
  }

  method WriteCounter(out: Buffer, at: nat, n: int)
    requires at + 4 <= out.Length
    modifies out
    ensures forall x: Buffer :: Any(x) ==> !fresh(x)
    ensures forall i :: 0 <= i < out.Length ==>
      out[i] == if at <= i < at + 4 then Counter(n)[i - at] else old(out[i])
  {
    var i := 0;
    while i < 4
      invariant 0 <= i <= 4 && forall x: Buffer :: Any(x) ==> !fresh(x)
      invariant forall k :: 0 <= k < out.Length ==>
        out[k] == if at <= k < at + i then Counter(n)[k - at] else old(out[k])
    {
      out[at + i] := Lit(ByteOf(n % U32, 3 - i));
      i := i + 1;
    }
  }

  method SerializeHeaderBuffer(header: HeaderBuffer, ghost h: Header) returns (aad: Buffer)
    requires Holds(header.dhPub, h.dhPub)
    requires header.prevChainLength == h.prevChainLength && header.messageNumber == h.messageNumber
    ensures fresh(aad) && aad[..] == SerializeHeader(h)
    ensures forall x: Buffer :: Any(x) && fresh(x) ==> x == aad
  {
    aad := new Octet[40](_ => Lit(0));
    var i := 0;
    while i < KEY_LENGTH
      invariant 0 <= i <= KEY_LENGTH
      invariant forall k :: 0 <= k < i ==> aad[k] == Of(h.dhPub, k)
      invariant forall x: Buffer :: Any(x) && fresh(x) ==> x == aad
    {
      aad[i] := header.dhPub[i];
      i := i + 1;
    }
    WriteCounter(aad, 32, header.prevChainLength);
    WriteCounter(aad, 36, header.messageNumber);
  }

  // ---------------------------------------------------------------------------
  // The store: append with eviction
  // ---------------------------------------------------------------------------

  /** Makes room for one more entry: the oldest go first, each key scrubbed. */
  method Evict(next: Session, ghost v: seq<SkippedKey>)
    requires StoreIs(next.skippedKeys, v) && Separate(next.skippedKeys)
    modifies next`skippedKeys, Cells(next.skippedKeys)
    ensures var w := if |v| < MAX_SKIPPED_KEYS then v else v[|v| + 1 - MAX_SKIPPED_KEYS..];
      StoreIs(next.skippedKeys, w) && Separate(next.skippedKeys)
    ensures Cells(next.skippedKeys) <= old(Cells(next.skippedKeys))
    ensures forall i :: 0 <= i < |old(next.skippedKeys)| - |next.skippedKeys| ==>
      Scrubbed(old(next.skippedKeys)[i].messageKey)
    ensures forall x: Buffer :: Any(x) ==> !fresh(x)
    ensures forall x: Buffer :: Any(x) && !fresh(x) && HoldsChainKey(x) ==> old(HoldsChainKey(x))
  {
    assert allocated(Cells(next.skippedKeys));
    ghost var k := 0;
    while |next.skippedKeys| >= MAX_SKIPPED_KEYS
      invariant 0 <= k <= |v| && (k > 0 ==> |v| - k + 1 >= MAX_SKIPPED_KEYS)
      invariant StoreIs(next.skippedKeys, v[k..]) && Separate(next.skippedKeys)
      invariant Cells(next.skippedKeys) <= old(Cells(next.skippedKeys))
      invariant next.skippedKeys == old(next.skippedKeys)[k..]
      invariant forall i :: 0 <= i < k ==> Scrubbed(old(next.skippedKeys)[i].messageKey)
      invariant forall x: Buffer :: Any(x) ==> !fresh(x)
      invariant forall x: Buffer :: Any(x) && !fresh(x) && HoldsChainKey(x) ==> old(HoldsChainKey(x))
      decreases |next.skippedKeys|
    {
      var es := next.skippedKeys;
      var evicted := es[0];
      next.skippedKeys := es[1..];
      assert StoreIs(es[1..], v[k..][1..]);
      assert v[k..][1..] == v[k + 1..];
      Fill0(evicted.messageKey);
      k := k + 1;
    }
  }

  method AppendSkipped(next: Session, dhPub: Buffer, messageNumber: int, messageKey: Buffer,
                       ghost v: seq<SkippedKey>, ghost pub: Term, ghost mk: Term)
    requires StoreIs(next.skippedKeys, v) && Separate(next.skippedKeys)
    requires Holds(dhPub, pub) && Holds(messageKey, mk)
    requires dhPub !in Cells(next.skippedKeys) && messageKey !in Cells(next.skippedKeys)
    modifies next`skippedKeys, Cells(next.skippedKeys)
    ensures StoreIs(next.skippedKeys, Push(v, [SkippedKey(pub, messageNumber, mk)])) && Separate(next.skippedKeys)
    ensures forall b :: b in Cells(next.skippedKeys) ==> b in old(Cells(next.skippedKeys)) || fresh(b)
    ensures !IsChainKey(pub) && !IsChainKey(mk) ==>
      forall x: Buffer :: Any(x) && HoldsChainKey(x) ==> !fresh(x) && old(HoldsChainKey(x))
  {
    Evict(next, v);
    assert allocated(Cells(next.skippedKeys));
    var p := Copy(dhPub, pub);
    var m := Copy(messageKey, mk);
    ghost var kept := if |v| < MAX_SKIPPED_KEYS then v else v[|v| + 1 - MAX_SKIPPED_KEYS..];
    ghost var x := SkippedKey(pub, messageNumber, mk);
    StoreSnoc(next.skippedKeys, kept, Entry(p, messageNumber, m), x);
    assert Push(v, [x]) == kept + [x];
    next.skippedKeys := next.skippedKeys + [Entry(p, messageNumber, m)];
  }

  // ---------------------------------------------------------------------------
  // Walking a chain
  // ---------------------------------------------------------------------------

  /** Derives and stores one key and scrubs the chain key it came from. */
  method WalkStep(next: Session, dhPub: Buffer, chainKey: Buffer, messageNumber: int,
                  ghost v: seq<SkippedKey>, ghost pub: Term, ghost ck: Term) returns (nextChainKey: Buffer)
    requires StoreIs(next.skippedKeys, v) && Separate(next.skippedKeys)
    requires Holds(dhPub, pub) && Holds(chainKey, ck) && dhPub != chainKey
    requires dhPub !in Cells(next.skippedKeys) && chainKey !in Cells(next.skippedKeys)
    modifies next`skippedKeys, chainKey, Cells(next.skippedKeys)
    ensures StoreIs(next.skippedKeys, Push(v, [SkippedKey(pub, messageNumber, MessageKey(ck))]))
    ensures Separate(next.skippedKeys)
    ensures forall b :: b in Cells(next.skippedKeys) ==> b in old(Cells(next.skippedKeys)) || fresh(b)
    ensures fresh(nextChainKey) && Holds(nextChainKey, NextChain(ck)) && nextChainKey !in Cells(next.skippedKeys)
    ensures Scrubbed(chainKey)
    ensures !IsChainKey(pub) ==> forall x: Buffer :: Any(x) && HoldsChainKey(x) ==>
      x == nextChainKey || (!fresh(x) && old(HoldsChainKey(x)) && x != chainKey)
  {
    assert allocated(Cells(next.skippedKeys));
    var messageKey;
    nextChainKey, messageKey := ChainStep(chainKey, ck);
    AppendSkipped(next, dhPub, messageNumber, messageKey, v, pub, MessageKey(ck));
    assert allocated(Cells(next.skippedKeys)) && chainKey !in Cells(next.skippedKeys);
    Fill0(chainKey);
  }

  /** The store after i steps of a walk, one append at a time. */
  ghost function Walked(v: seq<SkippedKey>, pub: Term, ck: Term, from: int, i: nat): seq<SkippedKey> {
    if i == 0 then v
    else Push(Walked(v, pub, ck, from, i - 1), [SkippedKey(pub, from + i - 1, MessageKey(ChainAt(ck, i - 1)))])
  }

  lemma {:induction false} WalkedEntries(v: seq<SkippedKey>, pub: Term, ck: Term, from: int, i: nat)
    ensures Walked(v, pub, ck, from, i) == Push(v, Entries(pub, ck, from, i))
  {
    if i > 0 {
      WalkedEntries(v, pub, ck, from, i - 1);
      var x := SkippedKey(pub, from + i - 1, MessageKey(ChainAt(ck, i - 1)));
      PushPush(v, Entries(pub, ck, from, i - 1), [x]);
      assert Entries(pub, ck, from, i) == Entries(pub, ck, from, i - 1) + [x];
    }
  }

  /** Derives and stores `count` keys from `start`, scrubbing each chain key it leaves. */
  method Walk(next: Session, dhPub: Buffer, start: Buffer, from: int, count: nat,
              ghost v: seq<SkippedKey>, ghost pub: Term, ghost ck: Term) returns (chainKey: Buffer)
    requires StoreIs(next.skippedKeys, v) && Separate(next.skippedKeys)
    requires Holds(dhPub, pub) && Holds(start, ck) && dhPub != start
    requires dhPub !in Cells(next.skippedKeys) && start !in Cells(next.skippedKeys)
    modifies next`skippedKeys, start, Cells(next.skippedKeys)
    ensures StoreIs(next.skippedKeys, Push(v, Entries(pub, ck, from, count))) && Separate(next.skippedKeys)
    ensures forall b :: b in Cells(next.skippedKeys) ==> b in old(Cells(next.skippedKeys)) || fresh(b)
    ensures Holds(chainKey, ChainAt(ck, count)) && chainKey !in Cells(next.skippedKeys)
    ensures if count == 0 then chainKey == start else fresh(chainKey) && Scrubbed(start)
    ensures !IsChainKey(pub) ==> forall x: Buffer :: Any(x) && HoldsChainKey(x) ==>
      x == chainKey || (!fresh(x) && old(HoldsChainKey(x)) && x != start)
  {
    hide Holds, Scrubbed, Push, Entries;
    assert allocated(Cells(next.skippedKeys));
    chainKey := start;
    var i := 0;
    while i < count
      invariant 0 <= i <= count
      invariant StoreIs(next.skippedKeys, Walked(v, pub, ck, from, i)) && Separate(next.skippedKeys)
      invariant forall b :: b in Cells(next.skippedKeys) ==> b in old(Cells(next.skippedKeys)) || fresh(b)
      invariant Holds(chainKey, ChainAt(ck, i)) && chainKey !in Cells(next.skippedKeys)
      invariant if i == 0 then chainKey == start
                else fresh(chainKey) && Scrubbed(start) && start !in Cells(next.skippedKeys)
      invariant Holds(dhPub, pub) && dhPub != chainKey
      invariant !IsChainKey(pub) ==> forall x: Buffer :: Any(x) && HoldsChainKey(x) ==>
        x == chainKey || (!fresh(x) && old(HoldsChainKey(x)) && x != start)
    {
      chainKey := WalkStep(next, dhPub, chainKey, from + i, Walked(v, pub, ck, from, i), pub, ChainAt(ck, i));
      i := i + 1;
    }
    WalkedEntries(v, pub, ck, from, count);
  }

  /** Walks to the header's position and tries its message key; the chain key behind it is scrubbed
      if it does not open. */
  method WalkAndOpen(next: Session, dhPub: Buffer, start: Buffer, from: int, count: nat, aad: seq<Octet>,
                     ct: Ciphertext, ghost v: seq<SkippedKey>, ghost pub: Term, ghost ck: Term)
    returns (text: Option<Text>, nextChainKey: Buffer)
    requires StoreIs(next.skippedKeys, v) && Separate(next.skippedKeys)
    requires Holds(dhPub, pub) && Holds(start, ck) && dhPub != start
    requires dhPub !in Cells(next.skippedKeys) && start !in Cells(next.skippedKeys)
    modifies next`skippedKeys, start, Cells(next.skippedKeys)
    ensures StoreIs(next.skippedKeys, Push(v, Entries(pub, ck, from, count))) && Separate(next.skippedKeys)
    ensures forall b :: b in Cells(next.skippedKeys) ==> b in old(Cells(next.skippedKeys)) || fresh(b)
    ensures fresh(nextChainKey) && Scrubbed(start)
    ensures text == Open(MessageKey(ChainAt(ck, count)), aad, ct)
    ensures if text.Some? then Holds(nextChainKey, ChainAt(ck, count + 1)) else Scrubbed(nextChainKey)
    ensures !IsChainKey(pub) ==> forall x: Buffer :: Any(x) && HoldsChainKey(x) ==>
      (text.Some? && x == nextChainKey) || (!fresh(x) && old(HoldsChainKey(x)) && x != start)
  {
    var chainKey := Walk(next, dhPub, start, from, count, v, pub, ck);
    assert allocated(Cells(next.skippedKeys));
    text, nextChainKey := StepAndOpen(chainKey, aad, ct, ChainAt(ck, count));
  }

  /** Scrubs every key of a candidate store that is being dropped. */
  method ScrubStore(next: Session)
    modifies Cells(next.skippedKeys)
    ensures forall e :: e in next.skippedKeys ==> Scrubbed(e.messageKey)
    ensures forall x: Buffer :: Any(x) && HoldsChainKey(x) ==> !fresh(x) && old(HoldsChainKey(x))
  {
    var es := next.skippedKeys;
    for i := 0 to |es|
      invariant forall k :: 0 <= k < i ==> Scrubbed(es[k].messageKey)
      invariant forall x: Buffer :: Any(x) && HoldsChainKey(x) ==> !fresh(x) && old(HoldsChainKey(x))
    {
      CellsAt(es, i);
      Fill0(es[i].messageKey);
    }
  }
}
