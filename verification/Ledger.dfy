/** Which packets give their text back, and how often: a ledger kept beside the two sessions. */
module Ledger {
  import opened Options
  import opened Symbols
  import opened Ratchet
  import opened History
  import opened Conversation
  import opened InStep

  /** A packet's name on the wire. */
  type Id = (Term, int)

  /** What a run has delivered, what its stores evicted, and from which number on each
      abandoned chain is lost. */
  datatype Ledger = Ledger(got: set<Id>, evicted: set<Id>, lostFrom: map<Term, int>)

  function IdOf(h: History, j: nat, n: nat): Id
    requires j < |h.keys|
  {
    (Pub(h.keys[j]), n)
  }

  predicate Holds(sk: seq<SkippedKey>, id: Id) {
    exists k :: 0 <= k < |sk| && sk[k].dhPub == id.0 && sk[k].messageNumber == id.1
  }

  lemma HoldsIff(sk: seq<SkippedKey>, hd: Header)
    ensures HasKey(sk, hd) <==> Holds(sk, (hd.dhPub, hd.messageNumber))
  {
    if HasKey(sk, hd) {
      assert Matches(sk[Find(sk, hd)], hd);
    }
  }

  /** The ids among `all` that `kept` no longer holds. */
  function Dropped(all: seq<SkippedKey>, kept: seq<SkippedKey>): set<Id> {
    set k | 0 <= k < |all| && !Holds(kept, (all[k].dhPub, all[k].messageNumber))
      :: (all[k].dhPub, all[k].messageNumber)
  }

  /** The entry for one call of the receiver in state s. */
  function Entered(l: Ledger, s: State, hd: Header, ct: Ciphertext, seed: nat): Ledger {
    var r := Decrypt(s, hd, ct, seed);
    var id := (hd.dhPub, hd.messageNumber);
    Ledger(
      if r.result.Plaintext? then l.got + {id} else l.got,
      if HasKey(s.skippedKeys, hd) then l.evicted
      else l.evicted + Dropped(s.skippedKeys + Appended(s, hd, ct, seed), r.state.skippedKeys),
      if !r.result.MessageLost? then l.lostFrom
      else if r.state.sendingDhPub != s.sendingDhPub then l.lostFrom[hd.dhPub := 0]
      else if s.receivingDhPub.Some? then l.lostFrom[s.receivingDhPub.value := s.receivingMessageNumber]
      else l.lostFrom)
  }

  ghost function LedgerStep(w: World, l: Ledger, e: Event): Ledger
    requires |w.h.keys| >= 2 && |w.h.net| == |w.h.keys| && Enabled(w, e)
  {
    match e
    case Send(_, _) => l
    case Deliver(j, n, seed) =>
      var k := w.h.net[j][n].envelope;
      Entered(l, StateOf(w, Receiver(j)), k.header, k.ciphertext, seed)
  }

  // ---------------------------------------------------------------------------
  // The invariant of the ledger
  // ---------------------------------------------------------------------------

  predicate Lost(l: Ledger, id: Id) {
    id.0 in l.lostFrom && id.1 >= l.lostFrom[id.0]
  }

  /** The receiver has moved past number n of chain j. */
  predicate Passed(h: History, p: nat, s: State, j: nat, n: nat)
    requires j < |h.net|
  {
    || (j + 1 < p && n < |h.net[j]|)
    || (j + 1 == p && (s.receivingChainKey.None? || n < s.receivingMessageNumber))
  }

  /** Every number the receiver has moved past is lost, stored, delivered or evicted, and only one
      of these; nothing ahead of it is in the books. */
  ghost predicate Accounted(h: History, p: nat, s: State, l: Ledger, j: nat, n: nat)
    requires j < |h.keys| == |h.net|
  {
    var id := IdOf(h, j, n);
    if !Passed(h, p, s, j, n) then
      id !in l.got && id !in l.evicted && !Holds(s.skippedKeys, id) && (j + 1 >= p ==> !Lost(l, id))
    else if Lost(l, id) then id !in l.got && id !in l.evicted && !Holds(s.skippedKeys, id)
    else ((id in l.got || id in l.evicted) <==> !Holds(s.skippedKeys, id)) && !(id in l.got && id in l.evicted)
  }

  ghost predicate Books(h: History, p: nat, s: State, l: Ledger)
    requires |h.keys| == |h.net|
  {
    && (forall j: nat, n: nat :: 1 <= j < |h.keys| && j % 2 != p % 2 ==> Accounted(h, p, s, l, j, n))
    && (2 <= p < |h.keys| && s.receivingChainKey.None? ==>
          Pub(h.keys[p - 1]) in l.lostFrom && l.lostFrom[Pub(h.keys[p - 1])] <= |h.net[p - 1]|)
  }

  ghost predicate Known(h: History, l: Ledger) {
    && (forall id :: id in l.got + l.evicted ==> id.0.Pub? && id.0.id in h.keys)
    && (forall t :: t in l.lostFrom ==> t.Pub? && t.id in h.keys)
  }

  ghost predicate LedgerInv(w: World, l: Ledger) {
    && Inv(w)
    && Known(w.h, l)
    && (forall r :: Books(w.h, Position(w.h, r), StateOf(w, r), l))
  }

  function One(b: bool): nat {
    if b then 1 else 0
  }

  /** Every number the receiver has moved past is delivered, evicted, stored or lost, and exactly one
      of these; a number it has not reached is none of them. */
  lemma PassedExactlyOnce(w: World, l: Ledger, j: nat, n: nat)
    requires LedgerInv(w, l) && 1 <= j < |w.h.keys| && n < |w.h.net[j]|
    ensures var r, id := Receiver(j), IdOf(w.h, j, n);
      One(id in l.got) + One(id in l.evicted) + One(Holds(StateOf(w, r).skippedKeys, id)) + One(Lost(l, id))
      == One(Passed(w.h, Position(w.h, r), StateOf(w, r), j, n))
  {
    var r := Receiver(j);
    assert Books(w.h, Position(w.h, r), StateOf(w, r), l);
    assert Accounted(w.h, Position(w.h, r), StateOf(w, r), l, j, n);
  }

  // ---------------------------------------------------------------------------
  // Exactly which deliveries give the text back
  // ---------------------------------------------------------------------------

  /** The caps let this packet through. */
  predicate WithinCaps(h: History, p: nat, s: State, j: nat, n: nat)
    requires j < |h.keys| == |h.net|
  {
    && (j + 1 == p && s.receivingChainKey.Some? ==> n - s.receivingMessageNumber <= MAX_SKIPPED_KEYS)
    && (j > p ==> !GapTooLong(s, HeaderOf(h, j, n)) && n <= MAX_SKIPPED_KEYS)
  }

  /** In any reachable state, in any order and any number of ratchet steps later, a packet
      gives its own text back if and only if it has not done so before, its stored key was not
      evicted, its place was not abandoned, and the caps allow it. */
  lemma ExactDelivery(w: World, l: Ledger, j: nat, n: nat, seed: nat)
    requires LedgerInv(w, l) && j < |w.h.net| && n < |w.h.net[j]| && InRange(HeaderOf(w.h, j, n))
    ensures 1 <= j
    ensures var r, id := ReplyTo(w, j, n, seed).result, IdOf(w.h, j, n);
      && (r.Plaintext? <==>
            && id !in l.got
            && id !in l.evicted
            && !Lost(l, id)
            && WithinCaps(w.h, Position(w.h, Receiver(j)), StateOf(w, Receiver(j)), j, n))
      && (r.Plaintext? ==> r.text == w.h.net[j][n].text)
  {
    var h, p, s := w.h, Position(w.h, Receiver(j)), StateOf(w, Receiver(j));
    Decide(w, j, n, seed);
    NeverTwoAhead(h, j);
    HoldsIff(s.skippedKeys, HeaderOf(h, j, n));
    assert Books(h, p, s, l);
    assert Accounted(h, p, s, l, j, n);
  }

  /** What a second delivery of a packet that has given its text back comes to: a duplicate exactly
      while its chain is the receiver's current one, whatever the caps. After that it is an invalid
      message, unless it is over the caps; then it counts as a loss and moves the session. */
  lemma ConsumedReplay(w: World, l: Ledger, j: nat, n: nat, seed: nat)
    requires LedgerInv(w, l) && j < |w.h.net| && n < |w.h.net[j]| && InRange(HeaderOf(w.h, j, n))
    requires IdOf(w.h, j, n) in l.got
    ensures 1 <= j
    ensures var r, s, hd := ReplyTo(w, j, n, seed), StateOf(w, Receiver(j)), HeaderOf(w.h, j, n);
      && (r.result.Duplicate? <==> j + 1 == Position(w.h, Receiver(j)))
      && (r.result.InvalidMessage? <==> j + 1 != Position(w.h, Receiver(j)) && !OverCap(s, hd))
      && (r.result.MessageLost? <==> OverCap(s, hd))
      && (r.state != s <==> OverCap(s, hd))
  {
    hide Decrypt, StoreOk, GapTooLong;
    var h, p, s := w.h, Position(w.h, Receiver(j)), StateOf(w, Receiver(j));
    ExactDelivery(w, l, j, n, seed);
    assert InPlace(h, p, s);
    MovesWithoutText(s, HeaderOf(h, j, n), h.net[j][n].envelope.ciphertext, seed);
    HoldsIff(s.skippedKeys, HeaderOf(h, j, n));
    PeerIs(h, p, s, j);
    assert Books(h, p, s, l);
    assert Accounted(h, p, s, l, j, n);
    assert HonestPacket(h, j, n) && !HasKey(s.skippedKeys, HeaderOf(h, j, n));
    assert ReplyTo(w, j, n, seed) == Decrypt(s, HeaderOf(h, j, n), h.net[j][n].envelope.ciphertext, seed);
  }

  // ---------------------------------------------------------------------------
  // The books stay right: stores
  // ---------------------------------------------------------------------------

  lemma HoldsAppend(a: seq<SkippedKey>, b: seq<SkippedKey>, id: Id)
    ensures Holds(a + b, id) <==> Holds(a, id) || Holds(b, id)
  {
    var all := a + b;
    if Holds(a, id) {
      var k :| 0 <= k < |a| && a[k].dhPub == id.0 && a[k].messageNumber == id.1;
      assert all[k] == a[k];
    }
    if Holds(b, id) {
      var k :| 0 <= k < |b| && b[k].dhPub == id.0 && b[k].messageNumber == id.1;
      assert all[|a| + k] == b[k];
    }
  }

  /** An appended-to store keeps or drops each id it had or gained. */
  lemma KeptOrDropped(sk: seq<SkippedKey>, es: seq<SkippedKey>, id: Id)
    requires |sk| <= MAX_SKIPPED_KEYS
    ensures var kept := Push(sk, es);
      && (Holds(kept, id) ==> Holds(sk, id) || Holds(es, id))
      && (id in Dropped(sk + es, kept) <==> (Holds(sk, id) || Holds(es, id)) && !Holds(kept, id))
  {
    var all, kept := sk + es, Push(sk, es);
    HoldsAppend(sk, es, id);
    if Holds(kept, id) {
      var k :| 0 <= k < |kept| && kept[k].dhPub == id.0 && kept[k].messageNumber == id.1;
      assert es == [] ==> all == sk;
      assert kept[k] == all[|all| - |kept| + k];
    }
  }

  lemma HoldsEntries(pub: Term, ck: Term, from: int, count: nat, id: Id)
    ensures Holds(Entries(pub, ck, from, count), id) <==> id.0 == pub && from <= id.1 < from + count
  {
    if id.0 == pub && from <= id.1 < from + count {
      assert Entries(pub, ck, from, count)[id.1 - from].messageNumber == id.1;
    }
  }

  lemma HoldsWithout(sk: seq<SkippedKey>, i: nat, id: Id)
    requires i < |sk|
    requires forall a, b :: 0 <= a < b < |sk| ==>
      sk[a].dhPub != sk[b].dhPub || sk[a].messageNumber != sk[b].messageNumber
    ensures Holds(Without(sk, i), id) <==> Holds(sk, id) && id != (sk[i].dhPub, sk[i].messageNumber)
  {
    var r := Without(sk, i);
    if Holds(r, id) {
      var k :| 0 <= k < |r| && r[k].dhPub == id.0 && r[k].messageNumber == id.1;
      assert r[k] == sk[if k < i then k else k + 1];
    }
    if Holds(sk, id) && id != (sk[i].dhPub, sk[i].messageNumber) {
      var k :| 0 <= k < |sk| && sk[k].dhPub == id.0 && sk[k].messageNumber == id.1;
      assert r[if k < i then k else k - 1] == sk[k];
    }
  }

  // ---------------------------------------------------------------------------
  // The books stay right: one number at a time
  // ---------------------------------------------------------------------------

  /** What one appending call does to the account of one number: `es` was appended, and the
      number was delivered if `now`. */
  ghost predicate Turned(l: Ledger, l': Ledger, s: State, t: State, es: seq<SkippedKey>, id: Id, now: bool) {
    && t.skippedKeys == Push(s.skippedKeys, es)
    && (id in l'.got <==> id in l.got || now)
    && (id in l'.evicted <==> id in l.evicted || id in Dropped(s.skippedKeys + es, t.skippedKeys))
  }

  lemma TurnedAccount(h: History, p: nat, s: State, l: Ledger, h': History, p': nat, t: State, l': Ledger,
                      j: nat, n: nat, es: seq<SkippedKey>, now: bool)
    requires j < |h.keys| == |h.net| && j < |h'.keys| == |h'.net| && h'.keys[j] == h.keys[j]
    requires |s.skippedKeys| <= MAX_SKIPPED_KEYS && Accounted(h, p, s, l, j, n)
    requires Turned(l, l', s, t, es, IdOf(h, j, n), now)
    // either nothing moved past this number, or it did and it is lost, stored or delivered
    requires var was, past, id := Passed(h, p, s, j, n), Passed(h', p', t, j, n), IdOf(h, j, n);
      || (was == past && !now && !Holds(es, id) && (Lost(l, id) <==> Lost(l', id)))
      || (!was && past && !Lost(l', id) && Holds(es, id) != now)
      || (!was && past && Lost(l', id) && !now && !Holds(es, id))
      || (was && !past && j + 1 < p' && Lost(l, id) && !now && !Holds(es, id))
    requires j + 1 >= p' ==> j + 1 >= p
    ensures Accounted(h', p', t, l', j, n)
  {
    KeptOrDropped(s.skippedKeys, es, IdOf(h, j, n));
  }

  // ---------------------------------------------------------------------------
  // The books stay right: one outcome at a time
  // ---------------------------------------------------------------------------

  lemma NothingDropped(sk: seq<SkippedKey>)
    ensures Dropped(sk + [], sk) == {}
  {
    var all := sk + [];
    assert all == sk;
    forall k | 0 <= k < |all| ensures Holds(sk, (all[k].dhPub, all[k].messageNumber)) {
    }
  }

  lemma QuietEntered(l: Ledger, s: State, hd: Header, ct: Ciphertext, seed: nat)
    requires var r := Decrypt(s, hd, ct, seed).result; r.InvalidMessage? || r.Duplicate? || r.Thrown?
    ensures Decrypt(s, hd, ct, seed).state == s && Entered(l, s, hd, ct, seed) == l
  {
    MovesWithoutText(s, hd, ct, seed);
    NothingDropped(s.skippedKeys);
  }

  lemma StoredBooks(h: History, p: nat, s: State, l: Ledger, j: nat, n: nat, l': Ledger)
    requires Shape(h) && p < |h.keys| && Stocked(h, p, s) && Books(h, p, s, l)
    requires 1 <= j < |h.keys| && j % 2 != p % 2 && HasKey(s.skippedKeys, HeaderOf(h, j, n))
    requires l' == l.(got := l.got + {IdOf(h, j, n)})
    ensures Books(h, p, s.(skippedKeys := Without(s.skippedKeys, Find(s.skippedKeys, HeaderOf(h, j, n)))), l')
  {
    var i := Find(s.skippedKeys, HeaderOf(h, j, n));
    var t := s.(skippedKeys := Without(s.skippedKeys, i));
    HoldsIff(s.skippedKeys, HeaderOf(h, j, n));
    assert Accounted(h, p, s, l, j, n);
    forall c: nat, m: nat | 1 <= c < |h.keys| && c % 2 != p % 2 ensures Accounted(h, p, t, l', c, m) {
      assert Accounted(h, p, s, l, c, m);
      HoldsWithout(s.skippedKeys, i, IdOf(h, c, m));
      DistinctAt(h.keys, c, j);
    }
  }

  lemma AbandonedBooks(h: History, p: nat, s: State, l: Ledger, m: int, l': Ledger)
    requires Shape(h) && 2 <= p < |h.keys| && Keyed(h, p, s) && Books(h, p, s, l) && s.receivingChainKey.Some?
    requires l' == l.(lostFrom := l.lostFrom[Pub(h.keys[p - 1]) := s.receivingMessageNumber])
    ensures Books(h, p, s.(receivingChainKey := None, receivingMessageNumber := m), l')
  {
    var t := s.(receivingChainKey := None, receivingMessageNumber := m);
    var pub := Pub(h.keys[p - 1]);
    var past := s.receivingMessageNumber;
    var far := if pub in l.lostFrom && l.lostFrom[pub] > past then l.lostFrom[pub] else past;
    assert Accounted(h, p, s, l, p - 1, far);
    forall c: nat, k: nat | 1 <= c < |h.keys| && c % 2 != p % 2 ensures Accounted(h, p, t, l', c, k) {
      assert Accounted(h, p, s, l, c, k);
      DistinctAt(h.keys, c, p - 1);
    }
  }

  lemma SameBooks(h: History, p: nat, s: State, l: Ledger, n: nat, l': Ledger, es: seq<SkippedKey>, t: State)
    requires Shape(h) && 2 <= p < |h.keys| && Books(h, p, s, l) && |s.skippedKeys| <= MAX_SKIPPED_KEYS
    requires s.receivingChainKey.Some? && 0 <= s.receivingMessageNumber <= n
    requires es == Entries(Pub(h.keys[p - 1]), s.receivingChainKey.value, s.receivingMessageNumber,
                           n - s.receivingMessageNumber)
    requires t.skippedKeys == Push(s.skippedKeys, es) && t.receivingChainKey.Some? && t.receivingMessageNumber == n + 1
    requires l' == Ledger(l.got + {IdOf(h, p - 1, n)},
                          l.evicted + Dropped(s.skippedKeys + es, t.skippedKeys), l.lostFrom)
    ensures Books(h, p, t, l')
  {
    forall c: nat, m: nat | 1 <= c < |h.keys| && c % 2 != p % 2 ensures Accounted(h, p, t, l', c, m) {
      assert Accounted(h, p, s, l, c, m);
      HoldsEntries(Pub(h.keys[p - 1]), s.receivingChainKey.value, s.receivingMessageNumber,
                   n - s.receivingMessageNumber, IdOf(h, c, m));
      DistinctAt(h.keys, c, p - 1);
      TurnedAccount(h, p, s, l, h, p, t, l', c, m, es, c == p - 1 && m == n);
    }
  }

  /** What the walk along the old chain appends, id by id. */
  lemma HoldsOld(h: History, p: nat, s: State, hd: Header, m: nat, id: Id)
    requires Shape(h) && p + 2 == |h.keys| && Keyed(h, p, s) && hd == HeaderOf(h, p + 1, m)
    ensures Holds(OldEntries(s, hd), id) <==>
      s.receivingChainKey.Some? && id.0 == Pub(h.keys[p - 1]) && s.receivingMessageNumber <= id.1 < |h.net[p - 1]|
  {
    if Receiving(s) && hd.prevChainLength > s.receivingMessageNumber {
      HoldsEntries(s.receivingDhPub.value, s.receivingChainKey.value, s.receivingMessageNumber,
                   hd.prevChainLength - s.receivingMessageNumber, id);
    }
  }

  lemma NewLostBooks(h: History, p: nat, s: State, l: Ledger, n: nat, seed: nat, l': Ledger, t: State)
    requires Shape(h) && p + 2 == |h.keys| && InPlace(h, p, s) && Books(h, p, s, l)
    requires var hd, es := HeaderOf(h, p + 1, n), OldEntries(s, HeaderOf(h, p + 1, n));
      && t == Ratcheted(s, hd, seed).(receivingChainKey := None, receivingMessageNumber := n + 1)
      && l' == Ledger(l.got, l.evicted + Dropped(s.skippedKeys + es, t.skippedKeys), l.lostFrom[hd.dhPub := 0])
    ensures Books(Grown(h, seed), p + 2, t, l')
  {
    hide Push, Entries, StoreOk, Dropped;
    var hd, h', p' := HeaderOf(h, p + 1, n), Grown(h, seed), p + 2;
    var es := OldEntries(s, hd);
    forall c: nat, m: nat | 1 <= c < |h'.keys| && c % 2 != p' % 2 ensures Accounted(h', p', t, l', c, m) {
      assert c < |h.keys|;
      assert Accounted(h, p, s, l, c, m);
      HoldsOld(h, p, s, hd, n, IdOf(h, c, m));
      DistinctAt(h.keys, c, p + 1);
      if p >= 1 {
        DistinctAt(h.keys, c, p - 1);
      }
      TurnedAccount(h, p, s, l, h', p', t, l', c, m, es, false);
    }
  }

  lemma NewBooks(h: History, p: nat, s: State, l: Ledger, n: nat, seed: nat, l': Ledger, t: State)
    requires Shape(h) && p + 2 == |h.keys| && InPlace(h, p, s) && Books(h, p, s, l)
    requires var hd := HeaderOf(h, p + 1, n);
      var es := OldEntries(s, hd) + Entries(hd.dhPub, ChainStart(h, p + 1), 0, n);
      && t.skippedKeys == Push(s.skippedKeys, es) && t.receivingChainKey.Some? && t.receivingMessageNumber == n + 1
      && l' == Ledger(l.got + {IdOf(h, p + 1, n)}, l.evicted + Dropped(s.skippedKeys + es, t.skippedKeys), l.lostFrom)
    ensures Books(Grown(h, seed), p + 2, t, l')
  {
    hide Push, Entries, OldEntries, StoreOk, Honest;
    var hd, h', p' := HeaderOf(h, p + 1, n), Grown(h, seed), p + 2;
    var ahead := Entries(hd.dhPub, ChainStart(h, p + 1), 0, n);
    var es := OldEntries(s, hd) + ahead;
    forall c: nat, m: nat | 1 <= c < |h'.keys| && c % 2 != p' % 2 ensures Accounted(h', p', t, l', c, m) {
      assert c < |h.keys|;
      assert Accounted(h, p, s, l, c, m);
      HoldsOld(h, p, s, hd, n, IdOf(h, c, m));
      HoldsEntries(hd.dhPub, ChainStart(h, p + 1), 0, n, IdOf(h, c, m));
      HoldsAppend(OldEntries(s, hd), ahead, IdOf(h, c, m));
      DistinctAt(h.keys, c, p + 1);
      if p >= 1 {
        DistinctAt(h.keys, c, p - 1);
      }
      TurnedAccount(h, p, s, l, h', p', t, l', c, m, es, c == p + 1 && m == n);
    }
  }

  // ---------------------------------------------------------------------------
  // The books stay right over runs
  // ---------------------------------------------------------------------------

  ghost predicate BooksFollow(h: History, p: nat, s: State, t: State, l': Ledger, seed: nat)
    requires |h.keys| == |h.net|
  {
    if t.sendingDhPub == s.sendingDhPub then Books(h, p, t, l') else Books(Grown(h, seed), p + 2, t, l')
  }

  lemma SameDelivered(h: History, p: nat, s: State, l: Ledger, n: nat, ct: Ciphertext, seed: nat)
    requires Shape(h) && 2 <= p < |h.keys| && InPlace(h, p, s) && Books(h, p, s, l) && n < |h.net[p - 1]|
    requires var hd := HeaderOf(h, p - 1, n);
      InRange(hd) && !HasKey(s.skippedKeys, hd) && Decrypt(s, hd, ct, seed) == ExpectedSame(h, p - 1, n, s)
    ensures var hd := HeaderOf(h, p - 1, n);
      BooksFollow(h, p, s, Decrypt(s, hd, ct, seed).state, Entered(l, s, hd, ct, seed), seed)
  {
    var hd := HeaderOf(h, p - 1, n);
    var r, l' := Decrypt(s, hd, ct, seed), Entered(l, s, hd, ct, seed);
    if r.result.Duplicate? {
      QuietEntered(l, s, hd, ct, seed);
    } else if r.result.MessageLost? {
      NothingDropped(s.skippedKeys);
      AbandonedBooks(h, p, s, l, n + 1, l');
    } else {
      var es := Entries(hd.dhPub, s.receivingChainKey.value, s.receivingMessageNumber, n - s.receivingMessageNumber);
      assert Appended(s, hd, ct, seed) == es;
      SameBooks(h, p, s, l, n, l', es, r.state);
    }
  }

  /** The first message seen of the peer's next chain. */
  lemma NextDelivered(h: History, p: nat, s: State, l: Ledger, n: nat, ct: Ciphertext, seed: nat)
    requires Shape(h) && p + 2 == |h.keys| && InPlace(h, p, s) && Books(h, p, s, l) && seed !in h.keys
    requires n < |h.net[p + 1]|
    requires var hd := HeaderOf(h, p + 1, n);
      && InRange(hd) && !HasKey(s.skippedKeys, hd) && s.receivingDhPub != Some(hd.dhPub) && !GapTooLong(s, hd)
      && Decrypt(s, hd, ct, seed) == ExpectedNew(h, p, p + 1, n, s, seed)
    ensures var hd := HeaderOf(h, p + 1, n);
      BooksFollow(h, p, s, Decrypt(s, hd, ct, seed).state, Entered(l, s, hd, ct, seed), seed)
  {
    var hd := HeaderOf(h, p + 1, n);
    var r, l' := Decrypt(s, hd, ct, seed), Entered(l, s, hd, ct, seed);
    assert s.sendingDhPub != Pub(seed);
    if n > MAX_SKIPPED_KEYS {
      NewLostBooks(h, p, s, l, n, seed, l', r.state);
    } else {
      assert Agree(Priv(h.keys[p]), Pub(h.keys[p + 1])) == Link(h.keys, p + 1);
      PushPush(s.skippedKeys, OldEntries(s, hd), Entries(hd.dhPub, ChainStart(h, p + 1), 0, n));
      NewBooks(h, p, s, l, n, seed, l', r.state);
    }
  }

  lemma NewDelivered(h: History, p: nat, s: State, l: Ledger, j: nat, n: nat, ct: Ciphertext, seed: nat)
    requires Shape(h) && p < |h.keys| && InPlace(h, p, s) && Books(h, p, s, l) && seed !in h.keys
    requires 1 <= j < |h.keys| && n < |h.net[j]| && j + 1 != p && j != p && (j > p ==> p + 2 == |h.keys| && j == p + 1)
    requires var hd := HeaderOf(h, j, n);
      && InRange(hd) && !HasKey(s.skippedKeys, hd) && s.receivingDhPub != Some(hd.dhPub)
      && !(j < p && !GapTooLong(s, hd) && n > MAX_SKIPPED_KEYS)
      && Decrypt(s, hd, ct, seed) == ExpectedNew(h, p, j, n, s, seed)
    ensures var hd := HeaderOf(h, j, n);
      BooksFollow(h, p, s, Decrypt(s, hd, ct, seed).state, Entered(l, s, hd, ct, seed), seed)
  {
    hide Books, StoreOk, Push, OldEntries, Ratcheted;
    var hd := HeaderOf(h, j, n);
    var r, l' := Decrypt(s, hd, ct, seed), Entered(l, s, hd, ct, seed);
    if GapTooLong(s, hd) {
      NothingDropped(s.skippedKeys);
      AbandonedBooks(h, p, s, l, n + 1, l');
    } else if j < p {
      QuietEntered(l, s, hd, ct, seed);
    } else {
      NextDelivered(h, p, s, l, n, ct, seed);
    }
  }

  lemma DeliveredBooks(h: History, p: nat, s: State, l: Ledger, j: nat, n: nat, seed: nat)
    requires Shape(h) && Honest(h) && p < |h.keys| && InPlace(h, p, s) && Books(h, p, s, l) && seed !in h.keys
    requires 1 <= j < |h.keys| && n < |h.net[j]| && p == Position(h, Receiver(j)) && !Harmful(h, j, n, s)
    ensures var hd, ct := HeaderOf(h, j, n), h.net[j][n].envelope.ciphertext;
      BooksFollow(h, p, s, Decrypt(s, hd, ct, seed).state, Entered(l, s, hd, ct, seed), seed)
  {
    var hd, ct := HeaderOf(h, j, n), h.net[j][n].envelope.ciphertext;
    DecideIn(h, p, s, j, n, seed);
    NeverTwoAhead(h, j);
    PeerIs(h, p, s, j);
    if !InRange(hd) {
      QuietEntered(l, s, hd, ct, seed);
    } else if HasKey(s.skippedKeys, hd) {
      StoredBooks(h, p, s, l, j, n, Entered(l, s, hd, ct, seed));
    } else if j + 1 == p {
      SameDelivered(h, p, s, l, n, ct, seed);
    } else {
      NewDelivered(h, p, s, l, j, n, ct, seed);
    }
  }

  lemma AppendedPubs(s: State, hd: Header, ct: Ciphertext, seed: nat, k: nat)
    requires k < |Appended(s, hd, ct, seed)|
    ensures var pub := Appended(s, hd, ct, seed)[k].dhPub; pub == hd.dhPub || Some(pub) == s.receivingDhPub
  {
  }

  ghost predicate SameEntry(l: Ledger, l': Ledger, id: Id) {
    && (id in l'.got <==> id in l.got)
    && (id in l'.evicted <==> id in l.evicted)
    && (id.0 in l'.lostFrom <==> id.0 in l.lostFrom)
    && (id.0 in l.lostFrom ==> l'.lostFrom[id.0] == l.lostFrom[id.0])
  }

  /** A call touches the books only for the chains its store and header name. */
  lemma EnteredElsewhere(l: Ledger, s: State, hd: Header, ct: Ciphertext, seed: nat, id: Id)
    requires id.0 != hd.dhPub && Some(id.0) != s.receivingDhPub
    requires forall k :: 0 <= k < |s.skippedKeys| ==> s.skippedKeys[k].dhPub != id.0
    ensures SameEntry(l, Entered(l, s, hd, ct, seed), id)
  {
    var es := Appended(s, hd, ct, seed);
    forall k | 0 <= k < |es| ensures es[k].dhPub != id.0 {
      AppendedPubs(s, hd, ct, seed, k);
    }
  }

  lemma StockPubs(h: History, p: nat, s: State, k: nat)
    requires p < |h.keys| == |h.net| && Stocked(h, p, s) && k < |s.skippedKeys|
    ensures exists j: nat :: j < |h.keys| && s.skippedKeys[k].dhPub == Pub(h.keys[j]) && j % 2 != p % 2
  {
    var e := s.skippedKeys[k];
    assert EntryOk(h, p - 1, Limit(h, p, s), e);
    var j: int :| EntryFor(h, e, j) && j <= p - 1 && j % 2 == (p - 1) % 2;
    assert h.keys[j] == h.keys[j as nat];
  }

  lemma EnteredKnown(h: History, p: nat, s: State, l: Ledger, j: nat, n: nat, ct: Ciphertext, seed: nat)
    requires Shape(h) && p < |h.keys| && InPlace(h, p, s) && Known(h, l) && j < |h.keys|
    ensures Known(h, Entered(l, s, HeaderOf(h, j, n), ct, seed))
  {
    hide Decrypt, Appended, StoreOk;
    var hd := HeaderOf(h, j, n);
    var l', es := Entered(l, s, hd, ct, seed), Appended(s, hd, ct, seed);
    assert Pub(h.keys[j]).id in h.keys;
    assert s.receivingDhPub.Some? ==> s.receivingDhPub.value.Pub? && s.receivingDhPub.value.id in h.keys;
    forall k | 0 <= k < |s.skippedKeys + es|
      ensures (s.skippedKeys + es)[k].dhPub.Pub? && (s.skippedKeys + es)[k].dhPub.id in h.keys
    {
      if k < |s.skippedKeys| {
        StockPubs(h, p, s, k);
      } else {
        AppendedPubs(s, hd, ct, seed, k - |s.skippedKeys|);
      }
    }
  }

  lemma ForeignId(h: History, p: nat, s: State, c: nat)
    requires Shape(h) && p < |h.keys| && Stocked(h, p, s) && c < |h.keys| && c % 2 == p % 2
    ensures forall k :: 0 <= k < |s.skippedKeys| ==> s.skippedKeys[k].dhPub != Pub(h.keys[c])
  {
    forall k | 0 <= k < |s.skippedKeys| ensures s.skippedKeys[k].dhPub != Pub(h.keys[c]) {
      StockPubs(h, p, s, k);
      var j: nat :| j < |h.keys| && s.skippedKeys[k].dhPub == Pub(h.keys[j]) && j % 2 != p % 2;
      DistinctAt(h.keys, j, c);
    }
  }

  lemma BooksSame(h: History, q: nat, o: State, l: Ledger, l': Ledger)
    requires |h.keys| == |h.net| && Books(h, q, o, l)
    requires forall c: nat, m: nat :: c < |h.keys| && c % 2 != q % 2 ==> SameEntry(l, l', IdOf(h, c, m))
    ensures Books(h, q, o, l')
  {
    forall c: nat, m: nat | 1 <= c < |h.keys| && c % 2 != q % 2 ensures Accounted(h, q, o, l', c, m) {
      assert Accounted(h, q, o, l, c, m) && SameEntry(l, l', IdOf(h, c, m));
    }
    if 2 <= q < |h.keys| {
      assert SameEntry(l, l', IdOf(h, q - 1, 0));
    }
  }

  /** A key just made is in nobody's books. */
  lemma BooksGrown(h: History, q: nat, o: State, l: Ledger, seed: nat)
    requires Shape(h) && q < |h.keys| <= q + 2 && Stocked(h, q, o) && Books(h, q, o, l) && Known(h, l)
    requires seed !in h.keys
    ensures Books(Grown(h, seed), q, o, l)
  {
    var h' := Grown(h, seed);
    forall k | 0 <= k < |o.skippedKeys| ensures o.skippedKeys[k].dhPub != Pub(seed) {
      StockPubs(h, q, o, k);
    }
    forall c: nat, m: nat | 1 <= c < |h'.keys| && c % 2 != q % 2 ensures Accounted(h', q, o, l, c, m) {
      if c < |h.keys| {
        assert Accounted(h, q, o, l, c, m);
      }
    }
  }

  /** The other party's chains are of the other parity, so its books do not change. */
  lemma BystanderBooks(h: History, p: nat, s: State, q: nat, o: State, l: Ledger, j: nat, n: nat, ct: Ciphertext,
                       seed: nat)
    requires Shape(h) && p < |h.keys| && q < |h.keys| && p % 2 != q % 2
    requires InPlace(h, p, s) && Books(h, q, o, l) && j < |h.keys| && j % 2 != p % 2
    ensures Books(h, q, o, Entered(l, s, HeaderOf(h, j, n), ct, seed))
  {
    var l' := Entered(l, s, HeaderOf(h, j, n), ct, seed);
    forall c: nat, m: nat | c < |h.keys| && c % 2 != q % 2 ensures SameEntry(l, l', IdOf(h, c, m)) {
      ForeignId(h, p, s, c);
      DistinctAt(h.keys, c, j);
      if p >= 1 {
        DistinctAt(h.keys, c, p - 1);
      }
      EnteredElsewhere(l, s, HeaderOf(h, j, n), ct, seed, IdOf(h, c, m));
    }
    BooksSame(h, q, o, l, l');
  }

  lemma SentBooks(h: History, p: nat, k: Packet, q: nat, o: State, l: Ledger)
    requires |h.keys| == |h.net| && p < |h.net| && Books(h, q, o, l) && q <= p + 1
    ensures Books(Sent(h, p, k), q, o, l)
  {
    var h' := Sent(h, p, k);
    forall c: nat, m: nat | 1 <= c < |h'.keys| && c % 2 != q % 2 ensures Accounted(h', q, o, l, c, m) {
      assert Accounted(h, q, o, l, c, m);
    }
  }

  /** Books do not depend on the sending half of a session. */
  lemma SenderBooks(h: History, p: nat, s: State, l: Ledger)
    requires |h.keys| == |h.net| && Books(h, p, s, l) && s.sendingChainKey.Some?
    ensures Books(h, p, AfterEncrypt(s), l)
  {
    forall c: nat, m: nat | 1 <= c < |h.keys| && c % 2 != p % 2 ensures Accounted(h, p, AfterEncrypt(s), l, c, m) {
      assert Accounted(h, p, s, l, c, m);
    }
  }

  lemma SendKeepsSessionBooks(w: World, l: Ledger, r: Role, text: Text, x: Role)
    requires |w.h.keys| >= 2 && |w.h.net| == |w.h.keys| && StateOf(w, r).sendingChainKey.Some?
    requires Books(w.h, Position(w.h, x), StateOf(w, x), l)
    ensures var w' := AfterSend(w, r, text);
      Books(w'.h, Position(w'.h, x), StateOf(w', x), l)
  {
    var p := Position(w.h, r);
    var k := Packet(NextEnvelope(StateOf(w, r), text), text);
    SentBooks(w.h, p, k, Position(w.h, x), StateOf(w, x), l);
    if x == r {
      SenderBooks(Sent(w.h, p, k), p, StateOf(w, r), l);
    }
  }

  lemma SendKeepsBooks(w: World, l: Ledger, r: Role, text: Text)
    requires LedgerInv(w, l) && StateOf(w, r).sendingChainKey.Some?
    ensures LedgerInv(AfterSend(w, r, text), l)
  {
    SendKeepsInv(w, r, text);
    forall x: Role ensures var w' := AfterSend(w, r, text); Books(w'.h, Position(w'.h, x), StateOf(w', x), l) {
      SendKeepsSessionBooks(w, l, r, text, x);
    }
  }

  lemma KnownGrown(h: History, l: Ledger, seed: nat)
    requires Known(h, l)
    ensures Known(Grown(h, seed), l)
  {
    forall i | i in h.keys ensures i in Grown(h, seed).keys {
    }
  }

  lemma SettledBooks(w: World, r: Role, t: State, seed: nat, l': Ledger, x: Role)
    requires Shape(w.h) && Follows(w.h, Position(w.h, r), StateOf(w, r), t, seed) && seed !in w.h.keys
    requires BooksFollow(w.h, Position(w.h, r), StateOf(w, r), t, l', seed) && Known(w.h, l')
    requires var q, o := Position(w.h, Other(r)), StateOf(w, Other(r)); Stocked(w.h, q, o) && Books(w.h, q, o, l')
    ensures var w' := Settled(w, r, t, seed);
      Books(w'.h, Position(w'.h, x), StateOf(w', x), l') && Known(w'.h, l')
  {
    KnownGrown(w.h, l', seed);
    if t.sendingDhPub != StateOf(w, r).sendingDhPub {
      PositionsGrown(w.h, r, seed);
      BooksGrown(w.h, Position(w.h, Other(r)), StateOf(w, Other(r)), l', seed);
    }
    assert x == r || x == Other(r);
  }

  lemma SettledLedger(w: World, r: Role, t: State, seed: nat, l': Ledger)
    requires Shape(w.h) && Follows(w.h, Position(w.h, r), StateOf(w, r), t, seed) && seed !in w.h.keys
    requires BooksFollow(w.h, Position(w.h, r), StateOf(w, r), t, l', seed) && Known(w.h, l')
    requires var q, o := Position(w.h, Other(r)), StateOf(w, Other(r)); Stocked(w.h, q, o) && Books(w.h, q, o, l')
    requires Inv(Settled(w, r, t, seed))
    ensures LedgerInv(Settled(w, r, t, seed), l')
  {
    forall x: Role ensures var w' := Settled(w, r, t, seed);
      Books(w'.h, Position(w'.h, x), StateOf(w', x), l') && Known(w'.h, l')
    {
      SettledBooks(w, r, t, seed, l', x);
    }
    SettledBooks(w, r, t, seed, l', r);
  }

  lemma ReceiverFollows(w: World, l: Ledger, j: nat, n: nat, seed: nat)
    requires LedgerInv(w, l) && Enabled(w, Deliver(j, n, seed))
    requires !Harmful(w.h, j, n, StateOf(w, Receiver(j)))
    ensures 1 <= j && w.h.net[j][n].envelope.header == HeaderOf(w.h, j, n)
    ensures var p, s, t := Position(w.h, Receiver(j)), StateOf(w, Receiver(j)), ReplyTo(w, j, n, seed).state;
      && Follows(w.h, p, s, t, seed)
      && BooksFollow(w.h, p, s, t, LedgerStep(w, l, Deliver(j, n, seed)), seed)
  {
    var p, s := Position(w.h, Receiver(j)), StateOf(w, Receiver(j));
    OpensHonest(w.h, j, n, KeyOf(w.h, j, n));
    Decide(w, j, n, seed);
    DeliveredInPlace(w.h, p, s, j, n, seed);
    assert Books(w.h, p, s, l);
    DeliveredBooks(w.h, p, s, l, j, n, seed);
  }

  lemma OthersAt(h: History, p: nat, s: State, q: nat, o: State, l: Ledger, j: nat, n: nat, ct: Ciphertext, seed: nat)
    requires Shape(h) && p < |h.keys| && q < |h.keys| && p % 2 != q % 2 && j < |h.keys| && j % 2 != p % 2
    requires InPlace(h, p, s) && Books(h, q, o, l) && Known(h, l)
    ensures var l' := Entered(l, s, HeaderOf(h, j, n), ct, seed); Known(h, l') && Books(h, q, o, l')
  {
    EnteredKnown(h, p, s, l, j, n, ct, seed);
    BystanderBooks(h, p, s, q, o, l, j, n, ct, seed);
  }

  lemma OthersKnown(w: World, l: Ledger, j: nat, n: nat, seed: nat)
    requires LedgerInv(w, l) && Enabled(w, Deliver(j, n, seed))
    requires 1 <= j && w.h.net[j][n].envelope.header == HeaderOf(w.h, j, n)
    ensures var l', x := LedgerStep(w, l, Deliver(j, n, seed)), Other(Receiver(j));
      && Known(w.h, l')
      && Stocked(w.h, Position(w.h, x), StateOf(w, x))
      && Books(w.h, Position(w.h, x), StateOf(w, x), l')
  {
    var r, x := Receiver(j), Other(Receiver(j));
    assert InPlace(w.h, Position(w.h, r), StateOf(w, r)) && InPlace(w.h, Position(w.h, x), StateOf(w, x));
    assert Books(w.h, Position(w.h, x), StateOf(w, x), l);
    OthersAt(w.h, Position(w.h, r), StateOf(w, r), Position(w.h, x), StateOf(w, x), l, j, n,
             w.h.net[j][n].envelope.ciphertext, seed);
  }

  lemma DeliverKeepsBooks(w: World, l: Ledger, j: nat, n: nat, seed: nat)
    requires LedgerInv(w, l) && Enabled(w, Deliver(j, n, seed))
    requires !Harmful(w.h, j, n, StateOf(w, Receiver(j)))
    ensures LedgerInv(AfterDeliver(w, j, n, seed), LedgerStep(w, l, Deliver(j, n, seed)))
  {
    DeliverKeepsInv(w, j, n, seed);
    ReceiverFollows(w, l, j, n, seed);
    OthersKnown(w, l, j, n, seed);
    SettledLedger(w, Receiver(j), ReplyTo(w, j, n, seed).state, seed, LedgerStep(w, l, Deliver(j, n, seed)));
  }

  // ---------------------------------------------------------------------------
  // Runs
  // ---------------------------------------------------------------------------

  ghost function RunLedger(w: World, l: Ledger, es: seq<Event>): Ledger
    requires |w.h.keys| >= 2 && |w.h.net| == |w.h.keys| && Feasible(w, es)
    decreases |es|
  {
    if es == [] then l else RunLedger(Step(w, es[0]), LedgerStep(w, l, es[0]), es[1..])
  }

  lemma StepKeepsBooks(w: World, l: Ledger, e: Event)
    requires LedgerInv(w, l) && Enabled(w, e) && Harmless(w, e)
    ensures LedgerInv(Step(w, e), LedgerStep(w, l, e))
  {
    match e
    case Send(r, text) => SendKeepsBooks(w, l, r, text);
    case Deliver(j, n, seed) => DeliverKeepsBooks(w, l, j, n, seed);
  }

  lemma {:induction false} RunKeepsBooks(w: World, l: Ledger, es: seq<Event>)
    requires LedgerInv(w, l) && Feasible(w, es) && HarmlessRun(w, es)
    ensures LedgerInv(After(w, es), RunLedger(w, l, es))
    ensures l.got <= RunLedger(w, l, es).got
    decreases |es|
  {
    if es != [] {
      StepKeepsBooks(w, l, es[0]);
      RunKeepsBooks(Step(w, es[0]), LedgerStep(w, l, es[0]), es[1..]);
    }
  }

  lemma ShortNeverLost(w: World, j: nat, n: nat, seed: nat)
    requires Inv(w) && j < |w.h.net| && n < |w.h.net[j]| && Short(w.h)
    ensures !ReplyTo(w, j, n, seed).result.MessageLost? && !ReplyTo(w, j, n, seed).result.Thrown?
    ensures WithinCaps(w.h, Position(w.h, Receiver(j)), StateOf(w, Receiver(j)), j, n)
  {
    var r := Receiver(j);
    Decide(w, j, n, seed);
    assert InPlace(w.h, Position(w.h, r), StateOf(w, r));
    assert |w.h.net[j]| <= MAX_SKIPPED_KEYS + 1 && PrevLength(w.h, j) <= MAX_SKIPPED_KEYS + 1;
  }

  lemma {:induction false} ShortRunLosesNothing(w: World, l: Ledger, es: seq<Event>)
    requires LedgerInv(w, l) && l.lostFrom == map[] && Feasible(w, es) && Short(After(w, es).h)
    ensures HarmlessRun(w, es) && RunLedger(w, l, es).lostFrom == map[]
    decreases |es|
  {
    ShortRunHarmless(w, es);
    if es != [] {
      ShortBefore(w, es);
      StepKeepsBooks(w, l, es[0]);
      if es[0].Deliver? {
        ShortNeverLost(w, es[0].chain, es[0].n, es[0].seed);
      }
      ShortRunLosesNothing(Step(w, es[0]), LedgerStep(w, l, es[0]), es[1..]);
    }
  }

  /** In every run whose chains stay within the cap plus one, in any order and across any
      number of ratchet steps, a packet gives its own text back unless it already has or its
      stored key was evicted. */
  lemma ShortRunDelivery(w: World, l: Ledger, es: seq<Event>, j: nat, n: nat, seed: nat)
    requires LedgerInv(w, l) && l.lostFrom == map[] && Feasible(w, es) && Short(After(w, es).h)
    requires j < |After(w, es).h.net| && n < |After(w, es).h.net[j]|
    ensures var w', l' := After(w, es), RunLedger(w, l, es);
      ReplyTo(w', j, n, seed).result == Plaintext(w'.h.net[j][n].text)
      <==> IdOf(w'.h, j, n) !in l'.got && IdOf(w'.h, j, n) !in l'.evicted
  {
    var w', l' := After(w, es), RunLedger(w, l, es);
    ShortRunLosesNothing(w, l, es);
    RunKeepsBooks(w, l, es);
    ShortNeverLost(w', j, n, seed);
    Decide(w', j, n, seed);
    ExactDelivery(w', l', j, n, seed);
  }

  const EMPTY := Ledger({}, {}, map[])

  /** Before anything is sent the empty ledger is in order. */
  lemma GenesisBooks(root0: Term, prekey: nat, first: nat, used: set<nat>)
    requires prekey != first
    ensures LedgerInv(Genesis(root0, prekey, first, used), EMPTY)
  {
    GenesisInv(root0, prekey, first, used);
  }
}
