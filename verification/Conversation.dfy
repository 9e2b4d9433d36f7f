/** Two sessions that share a root key, joined by a network that keeps every packet and may
    deliver any of them at any time, in any order, any number of times, or never. */
module Conversation {
  import opened Options
  import opened Symbols
  import opened Ratchet
  import opened History

  datatype Role = Alice | Bob

  datatype World = World(h: History, alice: State, bob: State, used: set<nat>)

  datatype Event =
    | Send(who: Role, text: Text)
    | Deliver(chain: nat, n: nat, seed: nat)

  function Other(r: Role): Role {
    if r.Alice? then Bob else Alice
  }

  function StateOf(w: World, r: Role): State {
    if r.Alice? then w.alice else w.bob
  }

  function WithState(w: World, r: Role, s: State): World {
    if r.Alice? then w.(alice := s) else w.(bob := s)
  }

  /** Alice made the odd keys, Bob the even ones. */
  function Sender(chain: nat): Role {
    if chain % 2 == 1 then Alice else Bob
  }

  function Receiver(chain: nat): Role {
    Other(Sender(chain))
  }

  /** The index of r's current sending key. */
  function Position(h: History, r: Role): nat
    requires |h.keys| >= 2
  {
    var last := |h.keys| - 1;
    if Sender(last) == r then last else last - 1
  }

  // ---------------------------------------------------------------------------
  // Steps
  // ---------------------------------------------------------------------------

  ghost predicate Enabled(w: World, e: Event) {
    match e
    case Send(r, _) => StateOf(w, r).sendingChainKey.Some?
    case Deliver(j, n, seed) => j < |w.h.net| && n < |w.h.net[j]| && seed !in w.used
  }

  /** h with one more packet on chain p. */
  function Sent(h: History, p: nat, k: Packet): History
    requires p < |h.net|
  {
    h.(net := h.net[p := h.net[p] + [k]])
  }

  function AfterSend(w: World, r: Role, text: Text): World
    requires |w.h.keys| >= 2 && |w.h.net| == |w.h.keys| && StateOf(w, r).sendingChainKey.Some?
  {
    var s, p := StateOf(w, r), Position(w.h, r);
    WithState(w, r, AfterEncrypt(s)).(h := Sent(w.h, p, Packet(NextEnvelope(s, text), text)))
  }

  function ReplyTo(w: World, j: nat, n: nat, seed: nat): Reply
    requires j < |w.h.net| && n < |w.h.net[j]|
  {
    var e := w.h.net[j][n].envelope;
    Decrypt(StateOf(w, Receiver(j)), e.header, e.ciphertext, seed)
  }

  /** h with a new ratchet key, under which nothing is sent yet. */
  function Grown(h: History, seed: nat): History {
    h.(keys := h.keys + [seed], net := h.net + [[]])
  }

  /** r's session becomes t; a key is filed when the sending key changes. */
  function Settled(w: World, r: Role, t: State, seed: nat): World {
    WithState(w, r, t).(used := w.used + {seed},
                        h := if t.sendingDhPub == StateOf(w, r).sendingDhPub then w.h else Grown(w.h, seed))
  }

  function AfterDeliver(w: World, j: nat, n: nat, seed: nat): World
    requires j < |w.h.net| && n < |w.h.net[j]|
  {
    Settled(w, Receiver(j), ReplyTo(w, j, n, seed).state, seed)
  }

  ghost function Step(w: World, e: Event): (v: World)
    requires |w.h.keys| >= 2 && |w.h.net| == |w.h.keys| && Enabled(w, e)
    ensures |v.h.net| == |v.h.keys| >= 2
  {
    match e
    case Send(r, text) => AfterSend(w, r, text)
    case Deliver(j, n, seed) => AfterDeliver(w, j, n, seed)
  }

  // ---------------------------------------------------------------------------
  // The invariant
  // ---------------------------------------------------------------------------

  ghost predicate EntryFor(h: History, e: SkippedKey, j: int) {
    && 1 <= j < |h.keys| == |h.net|
    && e.dhPub == Pub(h.keys[j])
    && 0 <= e.messageNumber < |h.net[j]|
    && e.messageKey == KeyOf(h, j, e.messageNumber)
  }

  /** e is the key of an honest message on one of the chains top, top - 2, ..., and on chain
      top itself only below the counter `limit`. */
  ghost predicate EntryOk(h: History, top: int, limit: int, e: SkippedKey) {
    exists j: int ::
      EntryFor(h, e, j) && j <= top && j % 2 == top % 2 && (j == top ==> e.messageNumber < limit)
  }

  ghost predicate StoreOk(h: History, top: int, limit: int, sk: seq<SkippedKey>) {
    && (forall k :: 0 <= k < |sk| ==> EntryOk(h, top, limit, sk[k]))
    && (forall i, k :: 0 <= i < k < |sk| ==>
         sk[i].dhPub != sk[k].dhPub || sk[i].messageNumber != sk[k].messageNumber)
  }

  /** The counter below which keys of the current receiving chain may be stored: a dead
      chain stores no more. */
  function Limit(h: History, p: nat, s: State): int
    requires p < |h.net|
  {
    if s.receivingChainKey.Some? then s.receivingMessageNumber
    else if p == 0 then 0 else |h.net[p - 1]|
  }

  /** The key material of a session whose sending key is keys[p]. */
  ghost predicate Keyed(h: History, p: nat, s: State)
    requires p < |h.keys| == |h.net|
  {
    && s.rootKey == RootAt(h.root0, h.keys, p)
    && s.sendingDhPriv == Priv(h.keys[p])
    && s.sendingDhPub == Pub(h.keys[p])
    && (p == 0 ==> s == InitReceiver(h.root0, Priv(h.keys[0]), Pub(h.keys[0])))
    && (p >= 1 ==>
          && s.receivingDhPub == Some(Pub(h.keys[p - 1]))
          && s.sendingChainKey == Some(ChainAt(ChainStart(h, p), |h.net[p]|))
          && s.sendingMessageNumber == |h.net[p]|
          && s.previousSendingChainLength == PrevLength(h, p))
    && (s.receivingChainKey.Some? ==>
          && p >= 2
          && 1 <= s.receivingMessageNumber <= |h.net[p - 1]|
          && s.receivingChainKey == Some(ChainAt(ChainStart(h, p - 1), s.receivingMessageNumber)))
  }

  ghost predicate Stocked(h: History, p: nat, s: State)
    requires p < |h.net|
  {
    |s.skippedKeys| <= MAX_SKIPPED_KEYS && StoreOk(h, p - 1, Limit(h, p, s), s.skippedKeys)
  }

  ghost predicate InPlace(h: History, p: nat, s: State)
    requires p < |h.keys| == |h.net|
  {
    Keyed(h, p, s) && Stocked(h, p, s)
  }

  ghost predicate Inv(w: World) {
    && Shape(w.h)
    && Honest(w.h)
    && (forall i :: 0 <= i < |w.h.keys| ==> w.h.keys[i] in w.used)
    && (forall r :: InPlace(w.h, Position(w.h, r), StateOf(w, r)))
  }

  // ---------------------------------------------------------------------------
  // What a delivery does
  // ---------------------------------------------------------------------------

  predicate HasKey(sk: seq<SkippedKey>, hd: Header) {
    Find(sk, hd) < |sk|
  }

  /** Chain j is older than the receiver's current receiving chain. */
  predicate Stale(h: History, j: nat)
    requires |h.keys| >= 2
  {
    j + 1 < Position(h, Receiver(j))
  }

  lemma NeverTwoAhead(h: History, j: nat)
    requires |h.keys| >= 2 && 1 <= j < |h.keys|
    ensures Position(h, Receiver(j)) % 2 != j % 2
    ensures j <= Position(h, Receiver(j)) + 1
  {
  }

  /** A store hit: the entry goes, nothing else changes. */
  function ExpectedStored(s: State, hd: Header, text: Text): Reply
    requires HasKey(s.skippedKeys, hd)
  {
    Reply(s.(skippedKeys := Without(s.skippedKeys, Find(s.skippedKeys, hd))), Plaintext(text))
  }

  function ExpectedSame(h: History, j: nat, n: nat, s: State): Reply
    requires 1 <= j < |h.keys| == |h.net| && n < |h.net[j]|
  {
    if s.receivingChainKey.None? || n < s.receivingMessageNumber then Reply(s, Duplicate)
    else if n - s.receivingMessageNumber > MAX_SKIPPED_KEYS then AdvancePastLoss(s, HeaderOf(h, j, n))
    else
      Reply(s.(receivingChainKey := Some(ChainAt(ChainStart(h, j), n + 1)),
               receivingMessageNumber := n + 1,
               skippedKeys := Push(s.skippedKeys, Entries(Pub(h.keys[j]), s.receivingChainKey.value,
                                                          s.receivingMessageNumber, n - s.receivingMessageNumber))),
            Plaintext(h.net[j][n].text))
  }

  function ExpectedNew(h: History, p: nat, j: nat, n: nat, s: State, seed: nat): Reply
    requires 1 <= j < |h.keys| == |h.net| && n < |h.net[j]|
  {
    var hd := HeaderOf(h, j, n);
    if GapTooLong(s, hd) then AdvancePastLoss(s, hd)
    else if n > MAX_SKIPPED_KEYS then
      Reply(Ratcheted(s, hd, seed).(receivingChainKey := None, receivingMessageNumber := n + 1), MessageLost(n))
    else if j < p then Reply(s, InvalidMessage)
    else
      var t := Ratcheted(s, hd, seed);
      Reply(t.(receivingChainKey := Some(ChainAt(ChainStart(h, j), n + 1)),
               receivingMessageNumber := n + 1,
               skippedKeys := Push(t.skippedKeys, Entries(hd.dhPub, ChainStart(h, j), 0, n))),
            Plaintext(h.net[j][n].text))
  }

  /** The outcome of delivering honest packet n of chain j, by where the chain stands. No
      ciphertext is looked at: the packet's own text comes back or none does. */
  function Expected(h: History, j: nat, n: nat, s: State, seed: nat): Reply
    requires 1 <= j < |h.keys| == |h.net| && |h.keys| >= 2 && n < |h.net[j]|
  {
    var hd, p := HeaderOf(h, j, n), Position(h, Receiver(j));
    if !InRange(hd) then Reply(s, Thrown)
    else if HasKey(s.skippedKeys, hd) then ExpectedStored(s, hd, h.net[j][n].text)
    else if j + 1 == p then ExpectedSame(h, j, n, s)
    else ExpectedNew(h, p, j, n, s, seed)
  }

  lemma StoredOpens(h: History, top: int, limit: int, sk: seq<SkippedKey>, j: nat, n: nat)
    requires Shape(h) && Honest(h) && StoreOk(h, top, limit, sk)
    requires 1 <= j < |h.keys| && n < |h.net[j]| && HasKey(sk, HeaderOf(h, j, n))
    ensures j <= top && j % 2 == top % 2 && (j == top ==> n < limit)
    ensures sk[Find(sk, HeaderOf(h, j, n))].messageKey == KeyOf(h, j, n)
  {
    var e := sk[Find(sk, HeaderOf(h, j, n))];
    var i: int :| EntryFor(h, e, i) && i <= top && i % 2 == top % 2 && (i == top ==> e.messageNumber < limit);
    DistinctAt(h.keys, i, j);
  }

  lemma OpensHonest(h: History, j: nat, n: nat, mk: Term)
    requires Shape(h) && Honest(h) && 1 <= j < |h.keys| && n < |h.net[j]|
    ensures var e := h.net[j][n].envelope;
      && e.header == HeaderOf(h, j, n)
      && Open(mk, SerializeHeader(e.header), e.ciphertext)
         == if mk == KeyOf(h, j, n) then Some(h.net[j][n].text) else None
  {
    assert HonestPacket(h, j, n);
  }

  /** A replay from an old chain is tried under a root that chain never had. */
  lemma StaleNeverOpens(h: History, p: nat, j: nat, n: nat)
    requires Shape(h) && 1 <= j < |h.keys| && p < |h.keys| && j != p + 1
    ensures MessageKey(ChainAt(ChainKey(RootAt(h.root0, h.keys, p), Agree(Priv(h.keys[p]), Pub(h.keys[j]))), n))
         != KeyOf(h, j, n)
  {
    var d := Agree(Priv(h.keys[p]), Pub(h.keys[j]));
    if ChainAt(ChainKey(RootAt(h.root0, h.keys, p), d), n) == ChainAt(ChainStart(h, j), n) {
      ChainInjective(RootAt(h.root0, h.keys, p), d, n, RootAt(h.root0, h.keys, j - 1), Link(h.keys, j), n);
      RootsDiffer(h.root0, h.keys, p, j - 1);
      assert false;
    }
  }

  lemma DecideStored(h: History, s: State, j: nat, n: nat)
    requires Shape(h) && Honest(h) && 1 <= j < |h.keys| && n < |h.net[j]| && HasKey(s.skippedKeys, HeaderOf(h, j, n))
    requires s.skippedKeys[Find(s.skippedKeys, HeaderOf(h, j, n))].messageKey == KeyOf(h, j, n)
    ensures var hd := HeaderOf(h, j, n);
      DecryptStored(s, Find(s.skippedKeys, hd), hd, h.net[j][n].envelope.ciphertext)
      == ExpectedStored(s, hd, h.net[j][n].text)
  {
    OpensHonest(h, j, n, KeyOf(h, j, n));
  }

  lemma DecideSame(h: History, p: nat, s: State, n: nat)
    requires Shape(h) && Honest(h) && 2 <= p < |h.keys| && Keyed(h, p, s) && n < |h.net[p - 1]|
    ensures DecryptSameChain(s, HeaderOf(h, p - 1, n), h.net[p - 1][n].envelope.ciphertext)
         == ExpectedSame(h, p - 1, n, s)
  {
    if s.receivingChainKey.Some? && s.receivingMessageNumber <= n {
      OpensHonest(h, p - 1, n, KeyOf(h, p - 1, n));
      ChainAdd(ChainStart(h, p - 1), s.receivingMessageNumber, n - s.receivingMessageNumber);
      ChainAdd(ChainStart(h, p - 1), s.receivingMessageNumber, n + 1 - s.receivingMessageNumber);
    }
  }

  lemma DecideNew(h: History, p: nat, s: State, j: nat, n: nat, seed: nat)
    requires Shape(h) && Honest(h) && p < |h.keys| && Keyed(h, p, s)
    requires 1 <= j < |h.keys| && n < |h.net[j]| && j <= p + 1 && j != p && InRange(HeaderOf(h, j, n))
    ensures DecryptNewChain(s, HeaderOf(h, j, n), h.net[j][n].envelope.ciphertext, seed)
         == ExpectedNew(h, p, j, n, s, seed)
  {
    var ck := ChainKey(RootAt(h.root0, h.keys, p), Agree(Priv(h.keys[p]), Pub(h.keys[j])));
    OpensHonest(h, j, n, MessageKey(ChainAt(ck, n)));
    if j < p {
      StaleNeverOpens(h, p, j, n);
    } else {
      assert ck == ChainStart(h, j);
    }
  }

  lemma PeerIs(h: History, p: nat, s: State, j: nat)
    requires Shape(h) && p < |h.keys| && Keyed(h, p, s) && 1 <= j < |h.keys|
    ensures s.receivingDhPub == Some(Pub(h.keys[j])) <==> j + 1 == p
  {
    if p >= 1 {
      DistinctAt(h.keys, p - 1, j);
    }
  }

  lemma DecideAt(h: History, p: nat, s: State, j: nat, n: nat, seed: nat)
    requires Shape(h) && Honest(h) && p < |h.keys| && Keyed(h, p, s)
    requires 1 <= j < |h.keys| && n < |h.net[j]| && p == Position(h, Receiver(j))
    requires var hd := HeaderOf(h, j, n);
      HasKey(s.skippedKeys, hd) ==> s.skippedKeys[Find(s.skippedKeys, hd)].messageKey == KeyOf(h, j, n)
    ensures Decrypt(s, HeaderOf(h, j, n), h.net[j][n].envelope.ciphertext, seed) == Expected(h, j, n, s, seed)
  {
    var hd := HeaderOf(h, j, n);
    PeerIs(h, p, s, j);
    if HasKey(s.skippedKeys, hd) {
      DecideStored(h, s, j, n);
    } else if j + 1 == p {
      DecideSame(h, p, s, n);
    } else if InRange(hd) {
      DecideNew(h, p, s, j, n, seed);
    }
  }

  lemma DecideIn(h: History, p: nat, s: State, j: nat, n: nat, seed: nat)
    requires Shape(h) && Honest(h) && p < |h.keys| && InPlace(h, p, s)
    requires 1 <= j < |h.keys| && n < |h.net[j]| && p == Position(h, Receiver(j))
    ensures Decrypt(s, HeaderOf(h, j, n), h.net[j][n].envelope.ciphertext, seed) == Expected(h, j, n, s, seed)
  {
    if HasKey(s.skippedKeys, HeaderOf(h, j, n)) {
      StoredOpens(h, p - 1, Limit(h, p, s), s.skippedKeys, j, n);
    }
    DecideAt(h, p, s, j, n, seed);
  }

  lemma Decide(w: World, j: nat, n: nat, seed: nat)
    requires Inv(w) && j < |w.h.net| && n < |w.h.net[j]|
    ensures 1 <= j
    ensures ReplyTo(w, j, n, seed) == Expected(w.h, j, n, StateOf(w, Receiver(j)), seed)
  {
    OpensHonest(w.h, j, n, KeyOf(w.h, j, n));
    DecideIn(w.h, Position(w.h, Receiver(j)), StateOf(w, Receiver(j)), j, n, seed);
  }
}
