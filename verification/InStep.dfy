/** The two sessions stay in step over every run, and exactly what takes them out of it. */
module InStep {
  import opened Options
  import opened Symbols
  import opened Ratchet
  import opened History
  import opened Conversation

  // ---------------------------------------------------------------------------
  // The skipped-key store under appends
  // ---------------------------------------------------------------------------

  lemma StoreWithout(h: History, top: int, limit: int, sk: seq<SkippedKey>, i: nat)
    requires StoreOk(h, top, limit, sk) && i < |sk|
    ensures StoreOk(h, top, limit, Without(sk, i))
  {
    var r := Without(sk, i);
    forall k | 0 <= k < |r| ensures r[k] == sk[if k < i then k else k + 1] {
    }
  }

  lemma StoreLatest(h: History, top: int, limit: int, sk: seq<SkippedKey>)
    requires StoreOk(h, top, limit, sk)
    ensures StoreOk(h, top, limit, Latest(sk)) && |Latest(sk)| <= MAX_SKIPPED_KEYS
  {
  }

  lemma StoreWeaken(h: History, top: int, limit: int, sk: seq<SkippedKey>, top': int, limit': int)
    requires StoreOk(h, top, limit, sk)
    requires (top' == top && limit <= limit') || top' == top + 2
    ensures StoreOk(h, top', limit', sk)
  {
    forall k | 0 <= k < |sk| ensures EntryOk(h, top', limit', sk[k]) {
      var e := sk[k];
      var j: int :| EntryFor(h, e, j) && j <= top && j % 2 == top % 2 && (j == top ==> e.messageNumber < limit);
    }
  }

  lemma StoreExtends(h: History, h': History, top: int, limit: int, sk: seq<SkippedKey>)
    requires Extends(h, h') && StoreOk(h, top, limit, sk)
    ensures StoreOk(h', top, limit, sk)
  {
    forall k | 0 <= k < |sk| ensures EntryOk(h', top, limit, sk[k]) {
      var e := sk[k];
      var j: int :| EntryFor(h, e, j) && j <= top && j % 2 == top % 2 && (j == top ==> e.messageNumber < limit);
      ExtendsKeyOf(h, h', j, e.messageNumber);
      assert h.net[j] <= h'.net[j];
      assert h'.keys[..|h.keys|][j] == h'.keys[j];
      assert EntryFor(h', e, j);
    }
  }

  /** Each walk appends keys of positions above everything stored for its chain. */
  lemma StoreAppend(h: History, top: int, limit: int, sk: seq<SkippedKey>, j: nat, from: nat, count: nat)
    requires Shape(h) && StoreOk(h, top, limit, sk) && 1 <= j < |h.keys|
    requires (j == top && limit <= from) || j == top + 2
    requires from + count <= |h.net[j]|
    ensures StoreOk(h, j, from + count,
                    sk + Entries(Pub(h.keys[j]), ChainAt(ChainStart(h, j), from), from, count))
  {
    var es := Entries(Pub(h.keys[j]), ChainAt(ChainStart(h, j), from), from, count);
    var all := sk + es;
    StoreWeaken(h, top, limit, sk, j, from + count);
    forall k | 0 <= k < count ensures EntryFor(h, es[k], j) {
      ChainAdd(ChainStart(h, j), from, k);
    }
    forall k | |sk| <= k < |all| ensures EntryOk(h, j, from + count, all[k]) {
      assert EntryFor(h, all[k], j);
    }
    forall i, k | 0 <= i < k < |all|
      ensures all[i].dhPub != all[k].dhPub || all[i].messageNumber != all[k].messageNumber
    {
      if i < |sk| <= k {
        var e := sk[i];
        var j': int :| EntryFor(h, e, j') && j' <= top && j' % 2 == top % 2 && (j' == top ==> e.messageNumber < limit);
        DistinctAt(h.keys, j', j);
      }
    }
  }

  // ---------------------------------------------------------------------------
  // One session at a time
  // ---------------------------------------------------------------------------

  /** A session's keys stay right while the other party's doings extend the history. */
  lemma KeyedExtends(h: History, h': History, p: nat, s: State)
    requires Shape(h) && Shape(h') && Extends(h, h') && p < |h.keys| && Keyed(h, p, s)
    requires |h'.net[p]| == |h.net[p]| && PrevLength(h', p) == PrevLength(h, p)
    ensures Keyed(h', p, s)
  {
    assert h'.keys[..|h.keys|][p] == h'.keys[p];
    if p >= 1 {
      ExtendsKeyOf(h, h', p, 0);
      assert h'.keys[..|h.keys|][p - 1] == h'.keys[p - 1];
      assert h.net[p - 1] <= h'.net[p - 1];
      if p >= 2 {
        ExtendsKeyOf(h, h', p - 1, 0);
      }
    } else {
      RootPrefix(h.root0, h.keys, h'.keys[|h.keys|..], 0);
      assert h'.keys[..|h.keys|][0] == h'.keys[0];
    }
  }

  lemma StockedExtends(h: History, h': History, p: nat, s: State)
    requires Extends(h, h') && p < |h.net| && Stocked(h, p, s)
    ensures Stocked(h', p, s)
  {
    StoreExtends(h, h', p - 1, Limit(h, p, s), s.skippedKeys);
    if p >= 1 {
      assert h.net[p - 1] <= h'.net[p - 1];
    }
    StoreWeaken(h', p - 1, Limit(h, p, s), s.skippedKeys, p - 1, Limit(h', p, s));
  }

  lemma SentKeyed(h: History, h': History, p: nat, s: State)
    requires Shape(h) && Shape(h') && Extends(h, h') && 1 <= p < |h.keys| && Keyed(h, p, s)
    requires |h'.keys| == |h.keys| && |h'.net[p]| == |h.net[p]| + 1
    requires forall j :: 0 <= j < |h.net| && j != p ==> h'.net[j] == h.net[j]
    ensures Keyed(h', p, AfterEncrypt(s))
  {
    assert h'.keys == h.keys;
    assert h' == h.(net := h'.net);
    ExtendsKeyOf(h, h', p, 0);
    if p >= 2 {
      ExtendsKeyOf(h, h', p - 1, 0);
    }
  }

  lemma LossInPlace(h: History, p: nat, s: State, m: int)
    requires Shape(h) && 2 <= p < |h.keys| && InPlace(h, p, s) && s.receivingChainKey.Some?
    ensures InPlace(h, p, s.(receivingChainKey := None, receivingMessageNumber := m))
  {
    StoreWeaken(h, p - 1, Limit(h, p, s), s.skippedKeys, p - 1, |h.net[p - 1]|);
  }

  /** Appending a walk to a bounded store, from the old counter to n. */
  lemma WalkStocked(h: History, top: int, limit: int, sk: seq<SkippedKey>, j: nat, from: nat, n: nat, limit': int)
    requires Shape(h) && StoreOk(h, top, limit, sk) && |sk| <= MAX_SKIPPED_KEYS && 1 <= j < |h.keys|
    requires (j == top && limit <= from) || j == top + 2
    requires from <= n <= |h.net[j]| && n <= limit'
    ensures var r := Push(sk, Entries(Pub(h.keys[j]), ChainAt(ChainStart(h, j), from), from, n - from));
      StoreOk(h, j, limit', r) && |r| <= MAX_SKIPPED_KEYS
  {
    var all := sk + Entries(Pub(h.keys[j]), ChainAt(ChainStart(h, j), from), from, n - from);
    StoreAppend(h, top, limit, sk, j, from, n - from);
    StoreWeaken(h, j, n, all, j, limit');
    StoreLatest(h, j, limit', all);
    StoreWeaken(h, top, limit, sk, j, limit');
  }

  lemma SameInPlace(h: History, p: nat, s: State, n: nat)
    requires Shape(h) && 2 <= p < |h.keys| && InPlace(h, p, s) && n < |h.net[p - 1]|
    ensures InPlace(h, p, ExpectedSame(h, p - 1, n, s).state)
  {
    if s.receivingChainKey.Some? && n >= s.receivingMessageNumber {
      if n - s.receivingMessageNumber > MAX_SKIPPED_KEYS {
        LossInPlace(h, p, s, n + 1);
      } else {
        WalkStocked(h, p - 1, s.receivingMessageNumber, s.skippedKeys, p - 1, s.receivingMessageNumber, n, n + 1);
      }
    }
  }

  // ---------------------------------------------------------------------------
  // The DH ratchet step
  // ---------------------------------------------------------------------------

  lemma GrownShape(h: History, seed: nat)
    requires Shape(h) && seed !in h.keys
    ensures Shape(Grown(h, seed)) && Extends(h, Grown(h, seed))
    ensures Honest(h) ==> Honest(Grown(h, seed))
  {
    var h' := Grown(h, seed);
    assert h'.keys[..|h.keys|] == h.keys && h'.keys[..|h'.keys| - 1] == h.keys;
    if Honest(h) {
      forall j, n | 1 <= j < |h'.net| && 0 <= n < |h'.net[j]| ensures HonestPacket(h', j, n) {
        assert HonestPacket(h, j, n);
        ExtendsKeyOf(h, h', j, n);
      }
    }
  }

  /** The two root steps of the DH ratchet. */
  lemma NextRoots(h: History, p: nat, seed: nat)
    requires Shape(h) && p + 2 == |h.keys| && seed !in h.keys
    ensures var h', d := Grown(h, seed), Agree(Priv(h.keys[p]), Pub(h.keys[p + 1]));
      var root := RootKey(RootAt(h.root0, h.keys, p), d);
      && RootAt(h'.root0, h'.keys, p + 2) == RootKey(root, Agree(Priv(seed), Pub(h.keys[p + 1])))
      && ChainStart(h', p + 2) == ChainKey(root, Agree(Priv(seed), Pub(h.keys[p + 1])))
  {
    var h' := Grown(h, seed);
    GrownShape(h, seed);
    ExtendsKeyOf(h, h', p + 1, 0);
    assert Agree(Priv(h.keys[p]), Pub(h.keys[p + 1])) == Link(h.keys, p + 1);
    assert Agree(Priv(seed), Pub(h.keys[p + 1])) == Link(h'.keys, p + 2);
  }

  /** The session that first sees the newest key ends up holding the next one. */
  lemma RatchetedKeyed(h: History, p: nat, s: State, n: nat, seed: nat, m: int)
    requires Shape(h) && p + 2 == |h.keys| && Keyed(h, p, s) && seed !in h.keys
    ensures var t := Ratcheted(s, HeaderOf(h, p + 1, n), seed);
      Keyed(Grown(h, seed), p + 2, t.(receivingChainKey := None, receivingMessageNumber := m))
  {
    hide Push, OldEntries, RootAt, ChainStart, Link, Agree;
    NextRoots(h, p, seed);
  }

  lemma ReceivingKeyed(h: History, p: nat, t: State, m: nat)
    requires p < |h.keys| == |h.net| && 2 <= p && Keyed(h, p, t) && 1 <= m <= |h.net[p - 1]|
    ensures Keyed(h, p, t.(receivingChainKey := Some(ChainAt(ChainStart(h, p - 1), m)), receivingMessageNumber := m))
  {
  }

  /** After the walk along the old chain every stored key of it is below its final length. */
  lemma OldWalkStocked(h: History, p: nat, s: State, hd: Header, m: nat)
    requires Shape(h) && p + 2 == |h.keys| && InPlace(h, p, s) && hd == HeaderOf(h, p + 1, m)
    ensures var r := Push(s.skippedKeys, OldEntries(s, hd));
      |r| <= MAX_SKIPPED_KEYS && StoreOk(h, p - 1, if p == 0 then 0 else |h.net[p - 1]|, r)
  {
    if Receiving(s) && hd.prevChainLength > s.receivingMessageNumber {
      WalkStocked(h, p - 1, s.receivingMessageNumber, s.skippedKeys, p - 1, s.receivingMessageNumber,
                  |h.net[p - 1]|, |h.net[p - 1]|);
    } else {
      StoreWeaken(h, p - 1, Limit(h, p, s), s.skippedKeys, p - 1, if p == 0 then 0 else |h.net[p - 1]|);
    }
  }

  lemma NewStocked(h: History, p: nat, sk: seq<SkippedKey>, limit: int, n: nat, seed: nat)
    requires Shape(h) && p + 2 == |h.keys| && seed !in h.keys && n < |h.net[p + 1]|
    requires |sk| <= MAX_SKIPPED_KEYS && StoreOk(h, p - 1, limit, sk)
    ensures StoreOk(Grown(h, seed), p + 1, |h.net[p + 1]|, sk)
    ensures var r := Push(sk, Entries(Pub(h.keys[p + 1]), ChainStart(h, p + 1), 0, n));
      StoreOk(Grown(h, seed), p + 1, n + 1, r) && |r| <= MAX_SKIPPED_KEYS
  {
    hide StoreOk, Entries;
    var r := Push(sk, Entries(Pub(h.keys[p + 1]), ChainStart(h, p + 1), 0, n));
    GrownShape(h, seed);
    StoreWeaken(h, p - 1, limit, sk, p + 1, |h.net[p + 1]|);
    StoreExtends(h, Grown(h, seed), p + 1, |h.net[p + 1]|, sk);
    WalkStocked(h, p - 1, limit, sk, p + 1, 0, n, n + 1);
    StoreExtends(h, Grown(h, seed), p + 1, n + 1, r);
  }

  lemma NewKeyed(h: History, p: nat, s: State, n: nat, seed: nat)
    requires Shape(h) && p + 2 == |h.keys| && Keyed(h, p, s) && seed !in h.keys && n < |h.net[p + 1]|
    requires !GapTooLong(s, HeaderOf(h, p + 1, n))
    ensures Keyed(Grown(h, seed), p + 2, ExpectedNew(h, p, p + 1, n, s, seed).state)
  {
    hide RootAt, Link, Agree, Push, OldEntries, ChainAt;
    var h' := Grown(h, seed);
    RatchetedKeyed(h, p, s, n, seed, n + 1);
    if n <= MAX_SKIPPED_KEYS {
      var t := Ratcheted(s, HeaderOf(h, p + 1, n), seed).(receivingChainKey := None, receivingMessageNumber := n + 1);
      GrownShape(h, seed);
      ExtendsKeyOf(h, h', p + 1, n);
      ReceivingKeyed(h', p + 2, t, n + 1);
    }
  }

  lemma NewInPlace(h: History, p: nat, s: State, n: nat, seed: nat)
    requires Shape(h) && p + 2 == |h.keys| && InPlace(h, p, s) && seed !in h.keys && n < |h.net[p + 1]|
    requires !GapTooLong(s, HeaderOf(h, p + 1, n))
    ensures InPlace(Grown(h, seed), p + 2, ExpectedNew(h, p, p + 1, n, s, seed).state)
  {
    var hd := HeaderOf(h, p + 1, n);
    NewKeyed(h, p, s, n, seed);
    OldWalkStocked(h, p, s, hd, n);
    NewStocked(h, p, Push(s.skippedKeys, OldEntries(s, hd)), if p == 0 then 0 else |h.net[p - 1]|, n, seed);
  }

  // ---------------------------------------------------------------------------
  // Runs
  // ---------------------------------------------------------------------------

  /** A replay from an old chain, with no stored key, that gets past the old-chain gap check
      and whose own number is over the cap: the one packet that desynchronizes a session. */
  predicate Harmful(h: History, j: nat, n: nat, s: State)
    requires |h.keys| >= 2 && j < |h.keys| == |h.net|
  {
    var hd := HeaderOf(h, j, n);
    InRange(hd) && Stale(h, j) && !HasKey(s.skippedKeys, hd) && !GapTooLong(s, hd) && n > MAX_SKIPPED_KEYS
  }

  /** The party that ratcheted last is one root step ahead of the other. */
  ghost predicate RootsInStep(w: World) {
    || w.alice.rootKey == RootKey(w.bob.rootKey, Agree(w.alice.sendingDhPriv, w.bob.sendingDhPub))
    || w.bob.rootKey == RootKey(w.alice.rootKey, Agree(w.bob.sendingDhPriv, w.alice.sendingDhPub))
  }

  lemma InvRoots(w: World)
    requires Inv(w)
    ensures RootsInStep(w)
  {
    var last := |w.h.keys| - 1;
    assert StateOf(w, Alice) == w.alice && StateOf(w, Bob) == w.bob;
    assert RootAt(w.h.root0, w.h.keys, last)
        == RootKey(RootAt(w.h.root0, w.h.keys, last - 1), Link(w.h.keys, last));
  }

  lemma SentHonest(h: History, p: nat, s: State, text: Text)
    requires Shape(h) && Honest(h) && 1 <= p < |h.keys| <= p + 2 && Keyed(h, p, s)
    ensures var h' := Sent(h, p, Packet(NextEnvelope(s, text), text));
      Shape(h') && Honest(h') && Extends(h, h')
  {
    var h' := Sent(h, p, Packet(NextEnvelope(s, text), text));
    assert h'.keys[..|h.keys|] == h.keys;
    forall j, n | 1 <= j < |h'.net| && 0 <= n < |h'.net[j]| ensures HonestPacket(h', j, n) {
      ExtendsKeyOf(h, h', j, n);
      if n < |h.net[j]| {
        assert HonestPacket(h, j, n);
      }
    }
  }

  lemma SenderInPlace(h: History, p: nat, s: State, k: Packet)
    requires Shape(h) && 1 <= p < |h.keys| && InPlace(h, p, s)
    requires Shape(Sent(h, p, k)) && Extends(h, Sent(h, p, k))
    ensures InPlace(Sent(h, p, k), p, AfterEncrypt(s))
  {
    SentKeyed(h, Sent(h, p, k), p, s);
    StockedExtends(h, Sent(h, p, k), p, s);
  }

  lemma ListenerInPlace(h: History, p: nat, k: Packet, q: nat, o: State)
    requires Shape(h) && p < |h.keys| <= p + 2 && q < |h.keys| <= q + 2 && q != p && InPlace(h, q, o)
    requires Shape(Sent(h, p, k)) && Extends(h, Sent(h, p, k))
    ensures InPlace(Sent(h, p, k), q, o)
  {
    KeyedExtends(h, Sent(h, p, k), q, o);
    StockedExtends(h, Sent(h, p, k), q, o);
  }

  /** What sending does to x's session, whichever party x is. */
  lemma SendKeepsSession(w: World, r: Role, text: Text, x: Role)
    requires Inv(w) && StateOf(w, r).sendingChainKey.Some?
    requires Shape(AfterSend(w, r, text).h) && Extends(w.h, AfterSend(w, r, text).h)
    ensures var w' := AfterSend(w, r, text);
      InPlace(w'.h, Position(w'.h, x), StateOf(w', x))
  {
    hide Keyed, Stocked, Honest;
    var p, s := Position(w.h, r), StateOf(w, r);
    var k := Packet(NextEnvelope(s, text), text);
    assert InPlace(w.h, Position(w.h, x), StateOf(w, x));
    if x == r {
      SenderInPlace(w.h, p, s, k);
    } else {
      ListenerInPlace(w.h, p, k, Position(w.h, x), StateOf(w, x));
    }
  }

  lemma SendKeepsInv(w: World, r: Role, text: Text)
    requires Inv(w) && StateOf(w, r).sendingChainKey.Some?
    ensures Inv(AfterSend(w, r, text))
  {
    SentHonest(w.h, Position(w.h, r), StateOf(w, r), text);
    forall x: Role ensures var w' := AfterSend(w, r, text); InPlace(w'.h, Position(w'.h, x), StateOf(w', x)) {
      SendKeepsSession(w, r, text, x);
    }
  }

  lemma OldGapInPlace(h: History, p: nat, s: State, m: int)
    requires Shape(h) && p < |h.keys| && InPlace(h, p, s) && Receiving(s)
    ensures InPlace(h, p, s.(receivingChainKey := None, receivingMessageNumber := m))
  {
    LossInPlace(h, p, s, m);
  }

  lemma StoredInPlace(h: History, p: nat, s: State, i: nat)
    requires p < |h.keys| == |h.net| && InPlace(h, p, s) && i < |s.skippedKeys|
    ensures InPlace(h, p, s.(skippedKeys := Without(s.skippedKeys, i)))
  {
    StoreWithout(h, p - 1, Limit(h, p, s), s.skippedKeys, i);
  }

  /** t is what a session at position p may become: still there, or at the key just made. */
  ghost predicate Follows(h: History, p: nat, s: State, t: State, seed: nat)
    requires Shape(h) && p < |h.keys|
  {
    || (t.sendingDhPub == s.sendingDhPub && InPlace(h, p, t))
    || (t.sendingDhPub != s.sendingDhPub && p + 2 == |h.keys| && InPlace(Grown(h, seed), p + 2, t))
  }

  lemma GrownFollows(h: History, p: nat, s: State, t: State, seed: nat)
    requires Shape(h) && p + 2 == |h.keys| && Keyed(h, p, s) && seed !in h.keys
    requires InPlace(Grown(h, seed), p + 2, t)
    ensures Follows(h, p, s, t, seed)
  {
    assert h.keys[p] != seed;
  }

  /** Whatever the network delivers, the receiver's session stays in place, or moves on to the
      key it has just made, unless the packet is harmful. */
  lemma DeliveredInPlace(h: History, p: nat, s: State, j: nat, n: nat, seed: nat)
    requires Shape(h) && p < |h.keys| && InPlace(h, p, s) && seed !in h.keys
    requires 1 <= j < |h.keys| && n < |h.net[j]| && p == Position(h, Receiver(j)) && !Harmful(h, j, n, s)
    ensures Follows(h, p, s, Expected(h, j, n, s, seed).state, seed)
  {
    hide Keyed, Stocked, PrevLength, Push, OldEntries, RootAt;
    var hd := HeaderOf(h, j, n);
    if !InRange(hd) {
    } else if HasKey(s.skippedKeys, hd) {
      StoredInPlace(h, p, s, Find(s.skippedKeys, hd));
    } else if j + 1 == p {
      SameInPlace(h, p, s, n);
    } else if GapTooLong(s, hd) {
      OldGapInPlace(h, p, s, n + 1);
    } else if j > p {
      NewInPlace(h, p, s, n, seed);
      GrownFollows(h, p, s, ExpectedNew(h, p, j, n, s, seed).state, seed);
    }
  }

  /** The other party's session is untouched by a delivery, and stays right if a key is made. */
  lemma BystanderInPlace(h: History, q: nat, o: State, seed: nat)
    requires Shape(h) && q < |h.keys| && InPlace(h, q, o) && seed !in h.keys
    ensures Shape(Grown(h, seed)) && InPlace(Grown(h, seed), q, o)
    ensures Honest(h) ==> Honest(Grown(h, seed))
  {
    GrownShape(h, seed);
    KeyedExtends(h, Grown(h, seed), q, o);
    StockedExtends(h, Grown(h, seed), q, o);
  }

  lemma PositionsGrown(h: History, r: Role, seed: nat)
    requires |h.keys| >= 2 && Position(h, r) + 2 == |h.keys|
    ensures Position(Grown(h, seed), r) == Position(h, r) + 2
    ensures Position(Grown(h, seed), Other(r)) == Position(h, Other(r))
  {
  }

  /** What a delivery to r does to x's session, whichever party x is. */
  lemma SettledSession(w: World, r: Role, t: State, seed: nat, x: Role)
    requires Inv(w) && seed !in w.used && Follows(w.h, Position(w.h, r), StateOf(w, r), t, seed)
    ensures var w' := Settled(w, r, t, seed);
      InPlace(w'.h, Position(w'.h, x), StateOf(w', x))
  {
    hide Keyed, Stocked, Honest;
    assert InPlace(w.h, Position(w.h, x), StateOf(w, x));
    if t.sendingDhPub != StateOf(w, r).sendingDhPub {
      PositionsGrown(w.h, r, seed);
      if x != r {
        BystanderInPlace(w.h, Position(w.h, x), StateOf(w, x), seed);
      }
    }
  }

  lemma SettledInv(w: World, r: Role, t: State, seed: nat)
    requires Inv(w) && seed !in w.used && Follows(w.h, Position(w.h, r), StateOf(w, r), t, seed)
    ensures Inv(Settled(w, r, t, seed))
  {
    GrownShape(w.h, seed);
    forall x: Role ensures var w' := Settled(w, r, t, seed); InPlace(w'.h, Position(w'.h, x), StateOf(w', x)) {
      SettledSession(w, r, t, seed, x);
    }
  }

  lemma DeliverKeepsInv(w: World, j: nat, n: nat, seed: nat)
    requires Inv(w) && Enabled(w, Deliver(j, n, seed))
    requires !Harmful(w.h, j, n, StateOf(w, Receiver(j)))
    ensures Inv(AfterDeliver(w, j, n, seed))
  {
    var r := Receiver(j);
    Decide(w, j, n, seed);
    DeliveredInPlace(w.h, Position(w.h, r), StateOf(w, r), j, n, seed);
    SettledInv(w, r, ReplyTo(w, j, n, seed).state, seed);
  }

  /** A harmful packet leaves the two roots out of step: neither is a step ahead of the other. */
  lemma HarmBreaks(w: World, j: nat, n: nat, seed: nat)
    requires Inv(w) && Enabled(w, Deliver(j, n, seed))
    requires Harmful(w.h, j, n, StateOf(w, Receiver(j)))
    ensures !RootsInStep(AfterDeliver(w, j, n, seed))
  {
    hide Decrypt, Honest, Stocked;
    var h, r := w.h, Receiver(j);
    var p, q := Position(h, r), Position(h, Other(r));
    Decide(w, j, n, seed);
    var wrong := Agree(Priv(h.keys[p]), Pub(h.keys[j]));
    RootDepth(h.root0, h.keys, p);
    RootDepth(h.root0, h.keys, q);
    if q == p + 1 {
      DistinctAt(h.keys, j, p + 1);
      DistinctAt(h.keys, p, p + 1);
      AgreeExactly(h.keys[p], h.keys[j], h.keys[p], h.keys[p + 1]);
      assert RootAt(h.root0, h.keys, q) == RootKey(RootAt(h.root0, h.keys, p), Link(h.keys, q));
    }
  }

  ghost predicate Harmless(w: World, e: Event)
    requires |w.h.keys| >= 2 && |w.h.net| == |w.h.keys| && Enabled(w, e)
  {
    e.Deliver? ==> !Harmful(w.h, e.chain, e.n, StateOf(w, Receiver(e.chain)))
  }

  /** Exactly which steps keep the two sessions in step. */
  lemma StepKeepsInStep(w: World, e: Event)
    requires Inv(w) && Enabled(w, e)
    ensures Inv(Step(w, e)) <==> Harmless(w, e)
    ensures RootsInStep(Step(w, e)) <==> Harmless(w, e)
  {
    match e
    case Send(r, text) =>
      SendKeepsInv(w, r, text);
      InvRoots(AfterSend(w, r, text));
    case Deliver(j, n, seed) =>
      if Harmless(w, e) {
        DeliverKeepsInv(w, j, n, seed);
        InvRoots(AfterDeliver(w, j, n, seed));
      } else {
        HarmBreaks(w, j, n, seed);
        if Inv(AfterDeliver(w, j, n, seed)) {
          InvRoots(AfterDeliver(w, j, n, seed));
        }
      }
  }

  ghost predicate Feasible(w: World, es: seq<Event>)
    requires |w.h.keys| >= 2 && |w.h.net| == |w.h.keys|
    decreases |es|
  {
    es == [] || (Enabled(w, es[0]) && Feasible(Step(w, es[0]), es[1..]))
  }

  ghost function After(w: World, es: seq<Event>): (r: World)
    requires |w.h.keys| >= 2 && |w.h.net| == |w.h.keys| && Feasible(w, es)
    ensures |r.h.net| == |r.h.keys| >= 2
    decreases |es|
  {
    if es == [] then w else After(Step(w, es[0]), es[1..])
  }

  ghost predicate HarmlessRun(w: World, es: seq<Event>)
    requires |w.h.keys| >= 2 && |w.h.net| == |w.h.keys| && Feasible(w, es)
    decreases |es|
  {
    es == [] || (Harmless(w, es[0]) && HarmlessRun(Step(w, es[0]), es[1..]))
  }

  ghost predicate AlwaysInStep(w: World, es: seq<Event>)
    requires |w.h.keys| >= 2 && |w.h.net| == |w.h.keys| && Feasible(w, es)
    decreases |es|
  {
    RootsInStep(w) && (es == [] || AlwaysInStep(Step(w, es[0]), es[1..]))
  }

  /** Safety over whole runs, however long the chains: any interleaving of sends with
      deliveries, repeats, reorderings and losses keeps the roots in step throughout exactly
      when it delivers no harmful packet. */
  lemma {:induction false} RunInStep(w: World, es: seq<Event>)
    requires Inv(w) && Feasible(w, es)
    ensures AlwaysInStep(w, es) <==> HarmlessRun(w, es)
    ensures HarmlessRun(w, es) ==> Inv(After(w, es))
    decreases |es|
  {
    InvRoots(w);
    if es != [] {
      StepKeepsInStep(w, es[0]);
      if Harmless(w, es[0]) {
        RunInStep(Step(w, es[0]), es[1..]);
      }
    }
  }

  /** No chain longer than the cap plus one. */
  ghost predicate Short(h: History) {
    forall j :: 0 <= j < |h.net| ==> |h.net[j]| <= MAX_SKIPPED_KEYS + 1
  }

  lemma StepGrows(w: World, e: Event, j: nat)
    requires |w.h.keys| >= 2 && |w.h.net| == |w.h.keys| && Enabled(w, e) && j < |w.h.net|
    ensures j < |Step(w, e).h.net| && |w.h.net[j]| <= |Step(w, e).h.net[j]|
    ensures w.h.keys <= Step(w, e).h.keys
  {
  }

  lemma {:induction false} RunGrows(w: World, es: seq<Event>)
    requires |w.h.keys| >= 2 && |w.h.net| == |w.h.keys| && Feasible(w, es)
    ensures w.h.keys <= After(w, es).h.keys
    decreases |es|
  {
    if es != [] {
      StepGrows(w, es[0], 0);
      RunGrows(Step(w, es[0]), es[1..]);
    }
  }

  lemma {:induction false} ShortBefore(w: World, es: seq<Event>)
    requires |w.h.keys| >= 2 && |w.h.net| == |w.h.keys| && Feasible(w, es) && Short(After(w, es).h)
    ensures Short(w.h)
    decreases |es|
  {
    if es != [] {
      ShortBefore(Step(w, es[0]), es[1..]);
      forall j | 0 <= j < |w.h.net| ensures |w.h.net[j]| <= MAX_SKIPPED_KEYS + 1 {
        StepGrows(w, es[0], j);
      }
    }
  }

  /** A run whose chains all stay within the cap plus one never delivers a harmful packet. */
  lemma {:induction false} ShortRunHarmless(w: World, es: seq<Event>)
    requires |w.h.keys| >= 2 && |w.h.net| == |w.h.keys| && Feasible(w, es) && Short(After(w, es).h)
    ensures HarmlessRun(w, es)
    decreases |es|
  {
    if es != [] {
      ShortBefore(w, es);
      ShortRunHarmless(Step(w, es[0]), es[1..]);
    }
  }

  /** Two fresh sessions built from one root key and the responder's signed prekey. */
  function Genesis(root0: Term, prekey: nat, first: nat, used: set<nat>): World {
    World(History(root0, [prekey, first], [[], []]),
          InitSender(root0, Pub(prekey), first),
          InitReceiver(root0, Priv(prekey), Pub(prekey)),
          used + {prekey, first})
  }

  lemma GenesisInv(root0: Term, prekey: nat, first: nat, used: set<nat>)
    requires prekey != first
    ensures Inv(Genesis(root0, prekey, first, used))
  {
    var w := Genesis(root0, prekey, first, used);
    assert w.h.keys[..1] == [prekey] && w.h.keys[..1][..0] == [];
    assert Distinct(w.h.keys[..1]);
    assert RootAt(root0, w.h.keys, 1) == RootKey(root0, Link(w.h.keys, 1));
    forall r: Role ensures InPlace(w.h, Position(w.h, r), StateOf(w, r)) {
    }
  }
}
