/** The Double Ratchet of packages/crypto/src/ratchet.ts as functions on values: what one
    call does to a session. `RatchetBuffers` proves the buffer-level code against these
    functions; `Conversation` proves what two sessions do together. */
module Ratchet {
  import opened Options
  import opened Symbols

  const MAX_SKIPPED_KEYS: nat := 1000
  const U32: nat := 0x1_0000_0000

  datatype SkippedKey = SkippedKey(dhPub: Term, messageNumber: int, messageKey: Term)

  datatype State = State(
    rootKey: Term,
    sendingDhPriv: Term,
    sendingDhPub: Term,
    receivingDhPub: Option<Term>,
    sendingChainKey: Option<Term>,
    receivingChainKey: Option<Term>,
    sendingMessageNumber: int,
    receivingMessageNumber: int,
    previousSendingChainLength: int,
    skippedKeys: seq<SkippedKey>)

  datatype Header = Header(dhPub: Term, prevChainLength: int, messageNumber: int)

  datatype Result =
    | Plaintext(text: Text)
    | InvalidMessage
    | Duplicate
    | MessageLost(gap: int)
    | Thrown

  datatype Reply = Reply(state: State, result: Result)

  datatype Envelope = Envelope(header: Header, ciphertext: Ciphertext)

  // ---------------------------------------------------------------------------
  // Headers
  // ---------------------------------------------------------------------------

  /** The k-th byte of w from the least significant. */
  function ByteOf(w: nat, k: nat): nat {
    if k == 0 then w % 256 else ByteOf(w / 256, k - 1)
  }

  /** A 32-bit big-endian counter, truncated as `>>> 0` truncates. */
  function Counter(n: int): (bs: seq<Octet>)
    ensures |bs| == 4
  {
    seq(4, (i: nat) requires i < 4 => Lit(ByteOf(n % U32, 3 - i)))
  }

  function SerializeHeader(h: Header): (bs: seq<Octet>)
    ensures |bs| == 40
  {
    Bytes(h.dhPub) + Counter(h.prevChainLength) + Counter(h.messageNumber)
  }

  lemma FourBytes(w: nat)
    ensures ByteOf(w, 0) == w % 256 && ByteOf(w, 1) == w / 256 % 256
    ensures ByteOf(w, 2) == w / 256 / 256 % 256 && ByteOf(w, 3) == w / 256 / 256 / 256 % 256
  {
    assert ByteOf(w, 2) == ByteOf(w / 256, 1) == ByteOf(w / 256 / 256, 0);
    assert ByteOf(w, 3) == ByteOf(w / 256, 2) == ByteOf(w / 256 / 256, 1) == ByteOf(w / 256 / 256 / 256, 0);
  }

  /** The 40 bytes: the key at 0, the chain length at 32 and the number at 36, each of the two in four
      bytes, the high one first. */
  lemma HeaderLayout(h: Header)
    ensures var bs, c, n := SerializeHeader(h), h.prevChainLength % 0x1_0000_0000, h.messageNumber % 0x1_0000_0000;
      && (forall i :: 0 <= i < 32 ==> bs[i] == Of(h.dhPub, i))
      && bs[32] == Lit(c / 256 / 256 / 256 % 256) && bs[33] == Lit(c / 256 / 256 % 256)
      && bs[34] == Lit(c / 256 % 256) && bs[35] == Lit(c % 256)
      && bs[36] == Lit(n / 256 / 256 / 256 % 256) && bs[37] == Lit(n / 256 / 256 % 256)
      && bs[38] == Lit(n / 256 % 256) && bs[39] == Lit(n % 256)
  {
    FourBytes(h.prevChainLength % U32);
    FourBytes(h.messageNumber % U32);
    forall i | 0 <= i < 32 ensures SerializeHeader(h)[i] == Bytes(h.dhPub)[i] {
    }
  }

  predicate InRange(h: Header) {
    0 <= h.messageNumber < U32 && 0 <= h.prevChainLength < U32
  }

  function Power256(k: nat): nat {
    if k == 0 then 1 else 256 * Power256(k - 1)
  }

  lemma {:induction false} BytesDetermine(m: nat, n: nat, k: nat)
    requires m < Power256(k) && n < Power256(k)
    requires forall i :: 0 <= i < k ==> ByteOf(m, i) == ByteOf(n, i)
    ensures m == n
  {
    if k > 0 {
      assert ByteOf(m, 0) == ByteOf(n, 0);
      forall i | 0 <= i < k - 1 ensures ByteOf(m / 256, i) == ByteOf(n / 256, i) {
        assert ByteOf(m, i + 1) == ByteOf(n, i + 1);
      }
      BytesDetermine(m / 256, n / 256, k - 1);
    }
  }

  lemma CounterInjective(m: int, n: int)
    requires 0 <= m < U32 && 0 <= n < U32 && Counter(m) == Counter(n)
    ensures m == n
  {
    var a, b := Counter(m), Counter(n);
    forall i | 0 <= i < 4 ensures ByteOf(m, i) == ByteOf(n, i) {
      assert a[3 - i] == b[3 - i];
    }
    assert Power256(4) == U32 by {
      assert Power256(2) == 0x1_0000;
    }
    BytesDetermine(m, n, 4);
  }

  /** The additional data binds every header field: no two headers a receiver accepts
      serialize alike. */
  lemma HeaderInjective(g: Header, h: Header)
    requires InRange(g) && InRange(h) && SerializeHeader(g) == SerializeHeader(h)
    ensures g == h
  {
    var a, b := SerializeHeader(g), SerializeHeader(h);
    assert a[..32] == Bytes(g.dhPub) && b[..32] == Bytes(h.dhPub);
    assert a[32..36] == Counter(g.prevChainLength) && b[32..36] == Counter(h.prevChainLength);
    assert a[36..] == Counter(g.messageNumber) && b[36..] == Counter(h.messageNumber);
    BytesInjective(g.dhPub, h.dhPub);
    CounterInjective(g.prevChainLength, h.prevChainLength);
    CounterInjective(g.messageNumber, h.messageNumber);
  }

  // ---------------------------------------------------------------------------
  // The skipped-key store
  // ---------------------------------------------------------------------------

  /** The newest MAX_SKIPPED_KEYS entries. */
  function Latest<T>(s: seq<T>): seq<T> {
    if |s| <= MAX_SKIPPED_KEYS then s else s[|s| - MAX_SKIPPED_KEYS..]
  }

  /** What a store holds after entries are appended one at a time, each evicting the oldest
      while the store is full. */
  function Push<T>(s: seq<T>, es: seq<T>): seq<T> {
    if es == [] then s else Latest(s + es)
  }

  lemma PushNothing<T>(s: seq<T>)
    ensures Push(s, []) == s
  {
  }

  lemma PushPush<T>(s: seq<T>, a: seq<T>, b: seq<T>)
    ensures Push(Push(s, a), b) == Push(s, a + b)
  {
    if a == [] {
      assert a + b == b;
    } else if b == [] {
      assert a + b == a;
    } else {
      assert s + a + b == s + (a + b);
    }
  }

  /** The entries a walk of `count` steps from chain key `ck` at counter `from` derives. */
  function Entries(pub: Term, ck: Term, from: int, count: nat): (es: seq<SkippedKey>)
    ensures |es| == count
  {
    seq(count, (i: nat) => SkippedKey(pub, from + i, MessageKey(ChainAt(ck, i))))
  }

  predicate Matches(e: SkippedKey, h: Header) {
    e.messageNumber == h.messageNumber && e.dhPub == h.dhPub
  }

  /** The first entry for a header, or the store's length. */
  function Find(s: seq<SkippedKey>, h: Header): (i: nat)
    ensures i <= |s|
    ensures i < |s| ==> Matches(s[i], h)
    ensures forall k :: 0 <= k < i ==> !Matches(s[k], h)
  {
    if s == [] || Matches(s[0], h) then 0 else 1 + Find(s[1..], h)
  }

  function Without<T>(s: seq<T>, i: nat): (r: seq<T>)
    requires i < |s|
    ensures |r| == |s| - 1
  {
    s[..i] + s[i + 1..]
  }

  // ---------------------------------------------------------------------------
  // Initialization and encryption
  // ---------------------------------------------------------------------------

  function InitSender(rootKey: Term, recipientDhPub: Term, seed: nat): State {
    var dh := Agree(Priv(seed), recipientDhPub);
    State(RootKey(rootKey, dh), Priv(seed), Pub(seed), Some(recipientDhPub),
          Some(ChainKey(rootKey, dh)), None, 0, 0, 0, [])
  }

  function InitReceiver(rootKey: Term, priv: Term, pub: Term): State {
    State(rootKey, priv, pub, None, None, None, 0, 0, 0, [])
  }

  /** A new session has counted nothing and stored nothing, and only the side that starts can send. */
  lemma SessionsStartEmpty(rootKey: Term, other: Term, seed: nat, priv: Term, pub: Term)
    ensures forall s :: s in {InitSender(rootKey, other, seed), InitReceiver(rootKey, priv, pub)} ==>
      && s.sendingMessageNumber == 0 && s.receivingMessageNumber == 0 && s.previousSendingChainLength == 0
      && s.skippedKeys == [] && s.receivingChainKey == None
    ensures InitSender(rootKey, other, seed).sendingChainKey.Some?
    ensures InitReceiver(rootKey, priv, pub).sendingChainKey == None
    ensures InitSender(rootKey, other, seed).receivingDhPub == Some(other)
    ensures InitReceiver(rootKey, priv, pub).receivingDhPub == None
  {
  }

  /** The envelope the next encryption produces. */
  function NextEnvelope(s: State, text: Text): Envelope
    requires s.sendingChainKey.Some?
  {
    var h := Header(s.sendingDhPub, s.previousSendingChainLength, s.sendingMessageNumber);
    Envelope(h, Seal(MessageKey(s.sendingChainKey.value), SerializeHeader(h), text))
  }

  function AfterEncrypt(s: State): State
    requires s.sendingChainKey.Some?
  {
    s.(sendingChainKey := Some(NextChain(s.sendingChainKey.value)),
       sendingMessageNumber := s.sendingMessageNumber + 1)
  }

  // ---------------------------------------------------------------------------
  // Decryption
  // ---------------------------------------------------------------------------

  function AdvancePastLoss(s: State, h: Header): Reply {
    Reply(s.(receivingChainKey := None, receivingMessageNumber := h.messageNumber + 1),
          MessageLost(h.messageNumber - s.receivingMessageNumber))
  }

  function DecryptStored(s: State, i: nat, h: Header, ct: Ciphertext): Reply
    requires i < |s.skippedKeys|
  {
    match Open(s.skippedKeys[i].messageKey, SerializeHeader(h), ct)
    case None => Reply(s, InvalidMessage)
    case Some(text) => Reply(s.(skippedKeys := Without(s.skippedKeys, i)), Plaintext(text))
  }

  function DecryptSameChain(s: State, h: Header, ct: Ciphertext): Reply {
    if s.receivingChainKey.None? || h.messageNumber < s.receivingMessageNumber then
      Reply(s, Duplicate)
    else
      var skip := h.messageNumber - s.receivingMessageNumber;
      if skip > MAX_SKIPPED_KEYS then AdvancePastLoss(s, h)
      else DecryptAdvance(s, h, ct, skip)
  }

  function DecryptAdvance(s: State, h: Header, ct: Ciphertext, skip: nat): Reply
    requires s.receivingChainKey.Some?
  {
    var ck := s.receivingChainKey.value;
    match Open(MessageKey(ChainAt(ck, skip)), SerializeHeader(h), ct)
    case None => Reply(s, InvalidMessage)
    case Some(text) =>
      Reply(s.(receivingChainKey := Some(ChainAt(ck, skip + 1)),
               receivingMessageNumber := h.messageNumber + 1,
               skippedKeys := Push(s.skippedKeys, Entries(h.dhPub, ck, s.receivingMessageNumber, skip))),
            Plaintext(text))
  }

  predicate Receiving(s: State) {
    s.receivingChainKey.Some? && s.receivingDhPub.Some?
  }

  /** The old receiving chain ran further than the store can hold. */
  predicate GapTooLong(s: State, h: Header) {
    Receiving(s) && h.prevChainLength - s.receivingMessageNumber > MAX_SKIPPED_KEYS
  }

  /** The keys of the old receiving chain that a new chain's header says were sent. */
  function OldEntries(s: State, h: Header): seq<SkippedKey> {
    if Receiving(s) && h.prevChainLength > s.receivingMessageNumber then
      Entries(s.receivingDhPub.value, s.receivingChainKey.value, s.receivingMessageNumber,
              h.prevChainLength - s.receivingMessageNumber)
    else []
  }

  /** Both halves of a DH ratchet step, with `seed` as the new sending key pair. */
  function Ratcheted(s: State, h: Header, seed: nat): State {
    var receive := Agree(s.sendingDhPriv, h.dhPub);
    var root := RootKey(s.rootKey, receive);
    var send := Agree(Priv(seed), h.dhPub);
    State(RootKey(root, send), Priv(seed), Pub(seed), Some(h.dhPub),
          Some(ChainKey(root, send)), Some(ChainKey(s.rootKey, receive)),
          0, 0, s.sendingMessageNumber, Push(s.skippedKeys, OldEntries(s, h)))
  }

  function DecryptNewChain(s: State, h: Header, ct: Ciphertext, seed: nat): Reply
    requires InRange(h)
  {
    if GapTooLong(s, h) then AdvancePastLoss(s, h)
    else
      var t := Ratcheted(s, h, seed);
      if h.messageNumber > MAX_SKIPPED_KEYS then
        Reply(t.(receivingChainKey := None, receivingMessageNumber := h.messageNumber + 1),
              MessageLost(h.messageNumber))
      else
        DecryptAdvanceFrom(s, t, h, ct)
  }

  /** The walk along the new chain; `s` comes back whole when the tag does not verify. */
  function DecryptAdvanceFrom(s: State, t: State, h: Header, ct: Ciphertext): Reply
    requires t.receivingChainKey.Some? && t.receivingMessageNumber <= h.messageNumber
  {
    var r := DecryptAdvance(t, h, ct, h.messageNumber - t.receivingMessageNumber);
    if r.result.Plaintext? then r else Reply(s, r.result)
  }

  function Decrypt(s: State, h: Header, ct: Ciphertext, seed: nat): Reply {
    if !InRange(h) then Reply(s, Thrown)
    else
      var i := Find(s.skippedKeys, h);
      if i < |s.skippedKeys| then DecryptStored(s, i, h, ct)
      else if s.receivingDhPub == Some(h.dhPub) then DecryptSameChain(s, h, ct)
      else DecryptNewChain(s, h, ct, seed)
  }

  // ---------------------------------------------------------------------------
  // What every call keeps, for any state, header and ciphertext
  // ---------------------------------------------------------------------------

  /** The new chain's keys below the header's number. */
  function NewEntries(s: State, h: Header): seq<SkippedKey>
    requires 0 <= h.messageNumber
  {
    Entries(h.dhPub, ChainKey(s.rootKey, Agree(s.sendingDhPriv, h.dhPub)), 0, h.messageNumber)
  }

  function AppendedSame(s: State, h: Header, ct: Ciphertext): seq<SkippedKey> {
    if DecryptSameChain(s, h, ct).result.Plaintext? then
      Entries(h.dhPub, s.receivingChainKey.value, s.receivingMessageNumber, h.messageNumber - s.receivingMessageNumber)
    else []
  }

  function AppendedNew(s: State, h: Header, ct: Ciphertext, seed: nat): seq<SkippedKey>
    requires InRange(h)
  {
    if GapTooLong(s, h) then []
    else if h.messageNumber > MAX_SKIPPED_KEYS then OldEntries(s, h)
    else if DecryptNewChain(s, h, ct, seed).result.Plaintext? then OldEntries(s, h) + NewEntries(s, h)
    else []
  }

  /** The keys one call appends to the store. */
  function Appended(s: State, h: Header, ct: Ciphertext, seed: nat): seq<SkippedKey> {
    if !InRange(h) || Find(s.skippedKeys, h) < |s.skippedKeys| then []
    else if s.receivingDhPub == Some(h.dhPub) then AppendedSame(s, h, ct)
    else AppendedNew(s, h, ct, seed)
  }

  lemma StoreStepNew(s: State, h: Header, ct: Ciphertext, seed: nat)
    requires InRange(h)
    ensures DecryptNewChain(s, h, ct, seed).state.skippedKeys == Push(s.skippedKeys, AppendedNew(s, h, ct, seed))
  {
    hide Push, Entries;
    PushNothing(s.skippedKeys);
    PushPush(s.skippedKeys, OldEntries(s, h), NewEntries(s, h));
  }

  /** Every call leaves the store as it was, takes one entry out, or appends with
      oldest-first eviction, even when one call walks two chains. */
  lemma StoreStep(s: State, h: Header, ct: Ciphertext, seed: nat)
    ensures var r, i := Decrypt(s, h, ct, seed), Find(s.skippedKeys, h);
      r.state.skippedKeys ==
        if InRange(h) && i < |s.skippedKeys| && r.result.Plaintext? then Without(s.skippedKeys, i)
        else Push(s.skippedKeys, Appended(s, h, ct, seed))
  {
    if InRange(h) {
      StoreStepNew(s, h, ct, seed);
    }
  }

  /** No key is stored for the header, and reaching its message would skip more than the cap. */
  predicate OverCap(s: State, h: Header) {
    && InRange(h) && Find(s.skippedKeys, h) == |s.skippedKeys|
    && if s.receivingDhPub == Some(h.dhPub) then
         s.receivingChainKey.Some? && h.messageNumber - s.receivingMessageNumber > MAX_SKIPPED_KEYS
       else GapTooLong(s, h) || h.messageNumber > MAX_SKIPPED_KEYS
  }

  /** The header's place on the current chain is behind the session, or the chain is dead. */
  predicate Repeats(s: State, h: Header) {
    && InRange(h) && Find(s.skippedKeys, h) == |s.skippedKeys| && s.receivingDhPub == Some(h.dhPub)
    && (s.receivingChainKey.None? || h.messageNumber < s.receivingMessageNumber)
  }

  /** What a call that gives no text back reports and does, by the header alone: it moves the session
      exactly when the header is over the cap, whatever the ciphertext, and then reports a loss. */
  lemma MovesWithoutText(s: State, h: Header, ct: Ciphertext, seed: nat)
    ensures var r := Decrypt(s, h, ct, seed);
      && (r.result.MessageLost? <==> OverCap(s, h))
      && (r.result.Duplicate? <==> Repeats(s, h))
      && (r.result.Thrown? <==> !InRange(h))
      && (!r.result.Plaintext? ==> (r.state != s <==> OverCap(s, h)))
  {
    if InRange(h) && !GapTooLong(s, h) {
      assert Ratcheted(s, h, seed).rootKey.root.root == s.rootKey;
    }
  }

  /** No key is stored under the header's key and number. */
  predicate Unstored(s: State, h: Header) {
    forall k :: 0 <= k < |s.skippedKeys| ==>
      s.skippedKeys[k].messageNumber != h.messageNumber || s.skippedKeys[k].dhPub != h.dhPub
  }

  /** On the current chain: behind the session or on a dead chain a duplicate; more than a thousand
      ahead a loss, which drops the chain key and goes on past the message; neither touches the store. */
  lemma SameChainExactly(s: State, h: Header, ct: Ciphertext, seed: nat)
    requires 0 <= h.prevChainLength <= 0xffff_ffff && 0 <= h.messageNumber <= 0xffff_ffff
    requires Unstored(s, h) && s.receivingDhPub == Some(h.dhPub)
    ensures var r, gap := Decrypt(s, h, ct, seed), h.messageNumber - s.receivingMessageNumber;
      && (r.result.Duplicate? <==> s.receivingChainKey.None? || gap < 0)
      && (r.result.MessageLost? <==> s.receivingChainKey.Some? && gap > 1000)
      && (r.result.Duplicate? ==> r.state == s)
      && (r.result.MessageLost? ==>
            r == Reply(s.(receivingChainKey := None, receivingMessageNumber := h.messageNumber + 1), MessageLost(gap)))
  {
  }

  /** On a new chain: a rest of more than a thousand on the old one is a loss that drops the old chain and
      takes no ratchet step; else a message past the thousandth is a loss on the ratcheted session. */
  lemma NewChainExactly(s: State, h: Header, ct: Ciphertext, seed: nat)
    requires 0 <= h.prevChainLength <= 0xffff_ffff && 0 <= h.messageNumber <= 0xffff_ffff
    requires Unstored(s, h) && s.receivingDhPub != Some(h.dhPub)
    ensures var r := Decrypt(s, h, ct, seed);
      var over := s.receivingChainKey.Some? && s.receivingDhPub.Some? &&
                  h.prevChainLength - s.receivingMessageNumber > 1000;
      && !r.result.Duplicate? && !r.result.Thrown?
      && (r.result.MessageLost? <==> over || h.messageNumber > 1000)
      && (over ==> r == Reply(s.(receivingChainKey := None, receivingMessageNumber := h.messageNumber + 1),
                              MessageLost(h.messageNumber - s.receivingMessageNumber)))
      && (!over && h.messageNumber > 1000 ==>
            r == Reply(Ratcheted(s, h, seed).(receivingChainKey := None, receivingMessageNumber := h.messageNumber + 1),
                       MessageLost(h.messageNumber)))
  {
  }

  /** Tamper rejection: what was sealed under one header opens under no other, and bytes
      that were never sealed open under none. */
  lemma TamperRejected(s: State, g: Header, h: Header, mk: Term, text: Text, ct: Ciphertext, seed: nat)
    requires InRange(g)
    requires ct == Seal(mk, SerializeHeader(g), text) || ct.Forged?
    ensures var result := Decrypt(s, h, ct, seed).result;
      result.Plaintext? ==> !ct.Forged? && h == g && result.text == text
  {
    if SerializeHeader(g) == SerializeHeader(h) && InRange(h) {
      HeaderInjective(g, h);
    }
  }
}
