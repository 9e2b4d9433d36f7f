/** Symbolic forward secrecy and healing: exactly which message keys can be computed from all
    the secrets a session holds. */
module Secrecy {
  import opened Options
  import opened Symbols
  import opened Ratchet
  import opened History
  import opened Conversation
  import opened InStep
  import opened Ledger

  /** Everything secret in a session. */
  function Held(s: State): set<Term> {
    {s.rootKey, s.sendingDhPriv}
    + (if s.sendingChainKey.Some? then {s.sendingChainKey.value} else {})
    + (if s.receivingChainKey.Some? then {s.receivingChainKey.value} else {})
    + (set k | 0 <= k < |s.skippedKeys| :: s.skippedKeys[k].messageKey)
  }

  /** t can be computed from the terms in ks: public keys are known, X25519 needs one private
      half, every KDF needs all its inputs and none runs backwards. */
  predicate Derives(ks: set<Term>, t: Term) {
    t in ks ||
    match t
    case Priv(_) => false
    case Pub(_) => true
    case Shared(lo, hi) => Priv(lo) in ks || Priv(hi) in ks
    case Mixed(a, b) => Derives(ks, a) && Derives(ks, b)
    case SessionKey(shares) => forall i :: 0 <= i < |shares| ==> Derives(ks, shares[i])
    case RootKey(r, d) => Derives(ks, r) && Derives(ks, d)
    case ChainKey(r, d) => Derives(ks, r) && Derives(ks, d)
    case NextChain(c) => Derives(ks, c)
    case MessageKey(c) => Derives(ks, c)
    case AesKey(m) => Derives(ks, m)
    case AesIv(m) => Derives(ks, m)
  }

  /** A set of terms that the public operations cannot lead out of. */
  ghost predicate Closed(known: iset<Term>) {
    && (forall i: nat :: Pub(i) in known)
    && (forall a: nat, b: nat :: Priv(a) in known || Priv(b) in known ==> Shared(a, b) in known)
    && (forall a, b :: a in known && b in known ==> Mixed(a, b) in known)
    && (forall shares: seq<Term> {:trigger SessionKey(shares)} ::
         (forall i :: 0 <= i < |shares| ==> shares[i] in known) ==> SessionKey(shares) in known)
    && (forall r, d :: r in known && d in known ==> RootKey(r, d) in known)
    && (forall r, d :: r in known && d in known ==> ChainKey(r, d) in known)
    && (forall c :: c in known ==> NextChain(c) in known)
    && (forall c :: c in known ==> MessageKey(c) in known)
    && (forall m :: m in known ==> AesKey(m) in known)
    && (forall m :: m in known ==> AesIv(m) in known)
  }

  /** `Derives` is the least closed set around ks: it reaches nothing that the operations do
      not force. */
  lemma {:induction false} DerivesLeast(ks: set<Term>, known: iset<Term>, t: Term)
    requires Closed(known) && (forall k :: k in ks ==> k in known) && Derives(ks, t)
    ensures t in known
  {
    if t !in ks {
      match t {
        case Priv(_) =>
        case Pub(_) =>
        case Shared(lo, hi) =>
        case Mixed(a, b) =>
          DerivesLeast(ks, known, a);
          DerivesLeast(ks, known, b);
        case SessionKey(shares) =>
          forall i | 0 <= i < |shares| ensures shares[i] in known {
            DerivesLeast(ks, known, shares[i]);
          }
        case RootKey(r, d) =>
          DerivesLeast(ks, known, r);
          DerivesLeast(ks, known, d);
        case ChainKey(r, d) =>
          DerivesLeast(ks, known, r);
          DerivesLeast(ks, known, d);
        case NextChain(c) => DerivesLeast(ks, known, c);
        case MessageKey(c) => DerivesLeast(ks, known, c);
        case AesKey(m) => DerivesLeast(ks, known, m);
        case AesIv(m) => DerivesLeast(ks, known, m);
      }
    }
  }

  lemma DerivesClosed(ks: set<Term>)
    ensures Closed(iset t | Derives(ks, t))
  {
  }

  /** The root key comes from X3DH, and at least one of its shares needs a private key that
      is no ratchet key made later. */
  ghost predicate RootSecret(h: History) {
    h.root0.SessionKey? &&
    exists i :: 0 <= i < |h.root0.shares| && Foreign(h, h.root0.shares[i])
  }

  predicate Foreign(h: History, share: Term) {
    share.Shared? && forall k :: 1 <= k < |h.keys| ==> h.keys[k] != share.lo && h.keys[k] != share.hi
  }

  lemma StoredShape(h: History, p: nat, s: State, k: nat) returns (j: nat, n: nat)
    requires p < |h.keys| == |h.net| && Stocked(h, p, s) && k < |s.skippedKeys|
    ensures 1 <= j < p && s.skippedKeys[k].messageKey == KeyOf(h, j, n)
    ensures s.skippedKeys[k].dhPub == Pub(h.keys[j]) && s.skippedKeys[k].messageNumber == n
  {
    var e := s.skippedKeys[k];
    var c: int :| EntryFor(h, e, c) && c <= p - 1;
    j, n := c, e.messageNumber;
  }

  /** The shape of what a session holds: one root, one private key, chain and message keys. */
  lemma HeldShape(h: History, p: nat, s: State, t: Term)
    requires p < |h.keys| == |h.net| && InPlace(h, p, s) && t in Held(s)
    ensures
      || (t == s.rootKey && t == RootAt(h.root0, h.keys, p))
      || t == Priv(h.keys[p])
      || (p >= 1 && t == ChainAt(ChainStart(h, p), |h.net[p]|))
      || (p >= 2 && s.receivingChainKey.Some? && t == ChainAt(ChainStart(h, p - 1), s.receivingMessageNumber))
      || (exists j: nat, n: nat :: 1 <= j < p && t == KeyOf(h, j, n))
  {
    hide StoreOk;
    if t != s.rootKey && t != s.sendingDhPriv && Some(t) != s.sendingChainKey && Some(t) != s.receivingChainKey {
      var k :| 0 <= k < |s.skippedKeys| && t == s.skippedKeys[k].messageKey;
      var c, n := StoredShape(h, p, s, k);
    }
  }

  lemma ChainIsNoOther(ck: Term, n: nat, r: Term, d: Term)
    requires ck == ChainKey(r, d)
    ensures ChainAt(ck, n).NextChain? || ChainAt(ck, n).ChainKey?
  {
  }

  /** What a session holds besides its root and its private key are chain and message keys. */
  lemma HeldKinds(h: History, p: nat, s: State, t: Term)
    requires p < |h.keys| == |h.net| && InPlace(h, p, s)
    ensures t in Held(s) ==>
      t == RootAt(h.root0, h.keys, p) || t == Priv(h.keys[p]) || t.NextChain? || t.ChainKey? || t.MessageKey?
  {
    if t in Held(s) {
      HeldShape(h, p, s, t);
      if p >= 1 {
        ChainIsNoOther(ChainStart(h, p), |h.net[p]|, RootAt(h.root0, h.keys, p - 1), Link(h.keys, p));
      }
      if p >= 2 && s.receivingChainKey.Some? {
        ChainIsNoOther(ChainStart(h, p - 1), s.receivingMessageNumber,
                       RootAt(h.root0, h.keys, p - 2), Link(h.keys, p - 1));
      }
    }
  }

  /** No root before the session's own can be computed. */
  lemma {:induction false} OldRootsGone(h: History, p: nat, s: State, i: nat)
    requires Shape(h) && p < |h.keys| && InPlace(h, p, s) && RootSecret(h) && i < p
    ensures !Derives(Held(s), RootAt(h.root0, h.keys, i))
  {
    HeldKinds(h, p, s, RootAt(h.root0, h.keys, i));
    RootsDiffer(h.root0, h.keys, i, p);
    if i > 0 {
      OldRootsGone(h, p, s, i - 1);
    } else {
      var k :| 0 <= k < |h.root0.shares| && Foreign(h, h.root0.shares[k]);
      ShareSafe(h, p, s, h.root0.shares[k]);
    }
  }

  lemma ShareSafe(h: History, p: nat, s: State, share: Term)
    requires Shape(h) && 1 <= p < |h.keys| && InPlace(h, p, s) && Foreign(h, share)
    ensures !Derives(Held(s), share)
  {
    OnlyPriv(h, p, s, share.lo);
    OnlyPriv(h, p, s, share.hi);
    HeldKinds(h, p, s, share);
    RootDepth(h.root0, h.keys, p);
  }

  lemma OnlyPriv(h: History, p: nat, s: State, id: nat)
    requires Shape(h) && p < |h.keys| && InPlace(h, p, s) && (p == 0 ==> h.root0.SessionKey?)
    ensures Priv(id) in Held(s) <==> id == h.keys[p]
  {
    HeldKinds(h, p, s, Priv(id));
  }

  /** Where a session's live chains are. */
  predicate Ahead(h: History, p: nat, s: State, j: nat, n: nat)
    requires p < |h.net|
  {
    || (j == p && n >= |h.net[p]|)
    || (j + 1 == p && s.receivingChainKey.Some? && n >= s.receivingMessageNumber)
  }

  lemma HeldChain(h: History, p: nat, s: State, j: nat, n: nat)
    requires Shape(h) && p < |h.keys| && InPlace(h, p, s) && RootSecret(h) && 1 <= j < |h.keys|
    requires ChainAt(ChainStart(h, j), n) in Held(s)
    ensures Ahead(h, p, s, j, n)
  {
    var t := ChainAt(ChainStart(h, j), n);
    HeldShape(h, p, s, t);
    ChainIsNoOther(ChainStart(h, j), n, RootAt(h.root0, h.keys, j - 1), Link(h.keys, j));
    if p >= 1 && t == ChainAt(ChainStart(h, p), |h.net[p]|) {
      KeysDiffer(h, j, n, p, |h.net[p]|);
    } else if p >= 2 && s.receivingChainKey.Some? {
      KeysDiffer(h, j, n, p - 1, s.receivingMessageNumber);
    }
  }

  lemma {:induction false} DerivesForward(ks: set<Term>, ck: Term, m: nat, n: nat)
    requires Derives(ks, ChainAt(ck, m)) && m <= n
    ensures Derives(ks, ChainAt(ck, n))
  {
    if m < n {
      DerivesForward(ks, ck, m, n - 1);
    }
  }

  lemma AheadDerives(h: History, p: nat, s: State, j: nat, n: nat)
    requires Shape(h) && p < |h.keys| && InPlace(h, p, s) && 1 <= j < |h.keys| && Ahead(h, p, s, j, n)
    ensures Derives(Held(s), ChainAt(ChainStart(h, j), n))
  {
    if j == p {
      DerivesForward(Held(s), ChainStart(h, p), |h.net[p]|, n);
    } else {
      DerivesForward(Held(s), ChainStart(h, p - 1), s.receivingMessageNumber, n);
    }
  }

  /** Up to its own position a session reaches its chains only ahead of its counters. */
  lemma {:induction false} BehindGone(h: History, p: nat, s: State, j: nat, n: nat)
    requires Shape(h) && p < |h.keys| && InPlace(h, p, s) && RootSecret(h) && 1 <= j <= p
    requires Derives(Held(s), ChainAt(ChainStart(h, j), n))
    ensures Ahead(h, p, s, j, n)
  {
    if ChainAt(ChainStart(h, j), n) in Held(s) {
      HeldChain(h, p, s, j, n);
    } else if n == 0 {
      OldRootsGone(h, p, s, j - 1);
    } else {
      BehindGone(h, p, s, j, n - 1);
    }
  }

  lemma LinkReach(h: History, p: nat, s: State, j: nat)
    requires Shape(h) && p < |h.keys| && InPlace(h, p, s) && RootSecret(h) && 1 <= j < |h.keys|
    ensures Derives(Held(s), Link(h.keys, j)) <==> j == p || j == p + 1
  {
    OnlyPriv(h, p, s, h.keys[j]);
    OnlyPriv(h, p, s, h.keys[j - 1]);
    DistinctAt(h.keys, p, j);
    DistinctAt(h.keys, p, j - 1);
    if p >= 1 {
      ChainIsNoOther(ChainStart(h, p), |h.net[p]|, RootAt(h.root0, h.keys, p - 1), Link(h.keys, p));
    }
    if p >= 2 && s.receivingChainKey.Some? {
      ChainIsNoOther(ChainStart(h, p - 1), s.receivingMessageNumber,
                     RootAt(h.root0, h.keys, p - 2), Link(h.keys, p - 1));
    }
    if Link(h.keys, j) in Held(s) {
      HeldShape(h, p, s, Link(h.keys, j));
    }
  }

  lemma {:induction false} BeyondReach(h: History, p: nat, s: State, j: nat, n: nat)
    requires Shape(h) && p < |h.keys| && InPlace(h, p, s) && RootSecret(h) && p < j < |h.keys|
    ensures Derives(Held(s), ChainAt(ChainStart(h, j), n)) <==> j == p + 1
  {
    if ChainAt(ChainStart(h, j), n) in Held(s) {
      HeldChain(h, p, s, j, n);
    }
    if n > 0 {
      BeyondReach(h, p, s, j, n - 1);
    } else {
      LinkReach(h, p, s, j);
      assert s.rootKey in Held(s);
    }
  }

  predicate StoredFor(h: History, s: State, j: nat, n: nat)
    requires j < |h.keys|
  {
    exists k :: 0 <= k < |s.skippedKeys| && s.skippedKeys[k].dhPub == Pub(h.keys[j])
             && s.skippedKeys[k].messageNumber == n
  }

  /** A message key a session holds is one of its stored keys. */
  lemma StoredIfHeld(h: History, p: nat, s: State, t: Term)
    requires p < |h.keys| == |h.net| && InPlace(h, p, s) && RootSecret(h) && t in Held(s) && t.MessageKey?
    ensures exists k :: 0 <= k < |s.skippedKeys| && t == s.skippedKeys[k].messageKey
  {
    if p >= 1 {
      ChainIsNoOther(ChainStart(h, p), |h.net[p]|, RootAt(h.root0, h.keys, p - 1), Link(h.keys, p));
    }
    if p >= 2 && s.receivingChainKey.Some? {
      ChainIsNoOther(ChainStart(h, p - 1), s.receivingMessageNumber,
                     RootAt(h.root0, h.keys, p - 2), Link(h.keys, p - 1));
    }
  }

  lemma HeldMessageKey(h: History, p: nat, s: State, j: nat, n: nat)
    requires Shape(h) && p < |h.keys| && InPlace(h, p, s) && RootSecret(h) && 1 <= j < |h.keys|
    ensures KeyOf(h, j, n) in Held(s) <==> StoredFor(h, s, j, n)
  {
    hide StoreOk, Keyed;
    if StoredFor(h, s, j, n) {
      var k :| 0 <= k < |s.skippedKeys| && s.skippedKeys[k].dhPub == Pub(h.keys[j]) &&
               s.skippedKeys[k].messageNumber == n;
      var i, m := StoredShape(h, p, s, k);
      DistinctAt(h.keys, i, j);
    }
    if KeyOf(h, j, n) in Held(s) {
      StoredIfHeld(h, p, s, KeyOf(h, j, n));
      var k :| 0 <= k < |s.skippedKeys| && KeyOf(h, j, n) == s.skippedKeys[k].messageKey;
      var i, m := StoredShape(h, p, s, k);
      KeysDiffer(h, j, n, i, m);
    }
  }

  /** Exactly which message keys a session's secrets reach, for every message of the
      conversation: those it stored, those ahead of it on its two live chains, and all of the
      peer's next chain. Never one it has used, evicted or lost, and never one of a chain two
      or more steps on. */
  lemma Reach(h: History, p: nat, s: State, j: nat, n: nat)
    requires Shape(h) && p < |h.keys| && InPlace(h, p, s) && RootSecret(h) && 1 <= j < |h.keys|
    ensures Derives(Held(s), KeyOf(h, j, n)) <==> StoredFor(h, s, j, n) || Ahead(h, p, s, j, n) || j == p + 1
  {
    HeldMessageKey(h, p, s, j, n);
    if j > p {
      BeyondReach(h, p, s, j, n);
    } else {
      if Derives(Held(s), ChainAt(ChainStart(h, j), n)) {
        BehindGone(h, p, s, j, n);
      }
      if Ahead(h, p, s, j, n) {
        AheadDerives(h, p, s, j, n);
      }
    }
  }

  /** Healing after a compromise: from a snapshot of a session, however the conversation goes
      on, the messages of the peer's next chain are within reach and those of every chain
      after that are not. */
  lemma Healing(h: History, h': History, p: nat, s: State, j: nat, n: nat)
    requires Shape(h) && Shape(h') && Extends(h, h') && p < |h.keys| && InPlace(h, p, s) && RootSecret(h')
    requires 1 <= j < |h'.keys|
    ensures Derives(Held(s), KeyOf(h', j, n)) <==> StoredFor(h', s, j, n) || Ahead(h, p, s, j, n) || j == p + 1
  {
    var snapshot := h'.(net := h.net + h'.net[|h.net|..]);
    assert Extends(h, snapshot);
    KeyedExtends(h, snapshot, p, s);
    StockedExtends(h, snapshot, p, s);
    ExtendsSameKeys(snapshot, h', j, n);
    Reach(snapshot, p, s, j, n);
  }

  lemma ExtendsSameKeys(h: History, h': History, j: nat, n: nat)
    requires h.root0 == h'.root0 && h.keys == h'.keys && 1 <= j < |h.keys|
    ensures KeyOf(h, j, n) == KeyOf(h', j, n)
  {
  }

  // ---------------------------------------------------------------------------
  // Forward secrecy over runs
  // ---------------------------------------------------------------------------

  /** Some X3DH share needs a private key that existed before the conversation. */
  ghost predicate SecretRoot(w: World) {
    w.h.root0.SessionKey? &&
    exists i :: 0 <= i < |w.h.root0.shares|
      && Foreign(w.h, w.h.root0.shares[i]) && w.h.root0.shares[i].lo in w.used && w.h.root0.shares[i].hi in w.used
  }

  lemma {:induction false} RunKeepsSecretRoot(w: World, es: seq<Event>)
    requires |w.h.keys| >= 2 && |w.h.net| == |w.h.keys| && Feasible(w, es) && SecretRoot(w)
    ensures SecretRoot(After(w, es))
    decreases |es|
  {
    if es != [] {
      var w' := Step(w, es[0]);
      var i :| 0 <= i < |w.h.root0.shares|
        && Foreign(w.h, w.h.root0.shares[i]) && w.h.root0.shares[i].lo in w.used && w.h.root0.shares[i].hi in w.used;
      assert Foreign(w'.h, w'.h.root0.shares[i]);
      RunKeepsSecretRoot(w', es[1..]);
    }
  }

  /** Once a party has sent a message, or received it, or evicted its key, nothing it holds
      can compute that message's key again. */
  lemma PassedKeysGone(w: World, l: Ledger, r: Role, j: nat, n: nat)
    requires LedgerInv(w, l) && SecretRoot(w) && 1 <= j < |w.h.keys| && n < |w.h.net[j]|
    requires r == Sender(j) || IdOf(w.h, j, n) in l.got || IdOf(w.h, j, n) in l.evicted
    ensures !Derives(Held(StateOf(w, r)), KeyOf(w.h, j, n))
  {
    hide Derives, Held, Keyed, Stocked;
    var h, p, s := w.h, Position(w.h, r), StateOf(w, r);
    assert InPlace(h, p, s) && Books(h, p, s, l);
    Reach(h, p, s, j, n);
    if r == Sender(j) {
      ForeignId(h, p, s, j);
    } else {
      NeverTwoAhead(h, j);
      assert Accounted(h, p, s, l, j, n);
      assert !Holds(s.skippedKeys, IdOf(h, j, n));
    }
  }
}
