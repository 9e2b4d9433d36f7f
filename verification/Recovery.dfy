/** What a loss notice costs a session, what heals it, and the two inputs that break what the
    header comment of ratchet.ts promises. */
module Recovery {
  import opened Options
  import opened Symbols
  import opened Ratchet
  import opened History
  import opened Conversation
  import opened InStep
  import opened SkippedStore

  /** The session is on chain `key` and can derive nothing more of it. */
  predicate Closed(s: State, key: Term) {
    s.receivingDhPub == Some(key) && s.receivingChainKey.None?
  }

  lemma {:induction false} StaysClosed(s: State, key: Term, cs: seq<Call>)
    requires Closed(s, key) && forall i :: 0 <= i < |cs| ==> cs[i].header.dhPub == key
    ensures Closed(RunState(s, cs), key)
    decreases |cs|
  {
    if cs != [] {
      StaysClosed(Decrypt(s, cs[0].header, cs[0].ciphertext, cs[0].seed).state, key, cs[1..]);
    }
  }

  /** After a same-chain loss the rest of the chain is refused until the peer's next key: however
      many messages of it come, every one without a stored key is a duplicate and changes nothing,
      whoever sealed it. */
  lemma LossEndsChain(s: State, h: Header, ct: Ciphertext, seed: nat, cs: seq<Call>, c: Call)
    requires InRange(h) && s.receivingDhPub == Some(h.dhPub) && Decrypt(s, h, ct, seed).result.MessageLost?
    requires forall i :: 0 <= i < |cs| ==> cs[i].header.dhPub == h.dhPub
    requires InRange(c.header) && c.header.dhPub == h.dhPub
    ensures var t := RunState(Decrypt(s, h, ct, seed).state, cs);
      Find(t.skippedKeys, c.header) == |t.skippedKeys| ==>
        Decrypt(t, c.header, c.ciphertext, c.seed) == Reply(t, Duplicate)
  {
    StaysClosed(Decrypt(s, h, ct, seed).state, h.dhPub, cs);
  }

  // ---------------------------------------------------------------------------
  // Runs from the start
  // ---------------------------------------------------------------------------

  lemma {:induction false} RunAppend(w: World, a: seq<Event>, b: seq<Event>)
    requires |w.h.keys| >= 2 && |w.h.net| == |w.h.keys| && Feasible(w, a) && Feasible(After(w, a), b)
    ensures Feasible(w, a + b) && After(w, a + b) == After(After(w, a), b)
    decreases |a|
  {
    hide Step, Enabled;
    if a == [] {
      assert a + b == b;
    } else {
      RunAppend(Step(w, a[0]), a[1..], b);
      assert (a + b)[1..] == a[1..] + b;
    }
  }

  function Sends(r: Role, k: nat, text: Text): seq<Event> {
    seq(k, _ => Send(r, text))
  }

  lemma SendOne(w: World, r: Role, text: Text)
    requires Inv(w) && StateOf(w, r).sendingChainKey.Some?
    ensures var v, p := Step(w, Send(r, text)), Position(w.h, r);
      && Inv(v) && v.h.keys == w.h.keys && v.used == w.used && StateOf(v, Other(r)) == StateOf(w, Other(r))
      && |v.h.net[p]| == |w.h.net[p]| + 1 && v.h.net[p][..|w.h.net[p]|] == w.h.net[p]
      && v.h.net[p][|w.h.net[p]|].text == text
      && (forall j :: 0 <= j < |w.h.net| && j != p ==> v.h.net[j] == w.h.net[j])
      && StateOf(v, r).skippedKeys == StateOf(w, r).skippedKeys
      && StateOf(v, r).receivingChainKey == StateOf(w, r).receivingChainKey && StateOf(v, r).sendingChainKey.Some?
  {
    SendKeepsInv(w, r, text);
    assert InPlace(w.h, Position(w.h, r), StateOf(w, r));
  }

  /** k messages in a row: one chain grows, nothing else moves. */
  lemma {:induction false} SendRun(w: World, r: Role, k: nat, text: Text)
    requires Inv(w) && StateOf(w, r).sendingChainKey.Some?
    ensures Feasible(w, Sends(r, k, text))
    ensures var v, p := After(w, Sends(r, k, text)), Position(w.h, r);
      && Inv(v) && v.h.keys == w.h.keys && v.used == w.used && StateOf(v, Other(r)) == StateOf(w, Other(r))
      && |v.h.net[p]| == |w.h.net[p]| + k
      && (forall n :: |w.h.net[p]| <= n < |v.h.net[p]| ==> v.h.net[p][n].text == text)
      && (forall j :: 0 <= j < |w.h.net| && j != p ==> v.h.net[j] == w.h.net[j])
      && StateOf(v, r).skippedKeys == StateOf(w, r).skippedKeys
      && StateOf(v, r).receivingChainKey == StateOf(w, r).receivingChainKey && StateOf(v, r).sendingChainKey.Some?
  {
    hide Decrypt, Honest, Stocked, InPlace, Step;
    if k > 0 {
      var e := Send(r, text);
      SendRun(w, r, k - 1, text);
      var u := After(w, Sends(r, k - 1, text));
      SendOne(u, r, text);
      RunCons(u, e, []);
      assert [e] + [] == [e];
      RunAppend(w, Sends(r, k - 1, text), [e]);
      assert Sends(r, k, text) == Sends(r, k - 1, text) + [e];
    }
  }

  lemma AliceTalks(root0: Term, prekey: nat, first: nat, used: set<nat>, k: nat, text: Text) returns (v: World)
    requires prekey != first
    ensures var w := Genesis(root0, prekey, first, used);
      Feasible(w, Sends(Alice, k, text)) && v == After(w, Sends(Alice, k, text)) && v.bob == w.bob
    ensures Inv(v) && v.used == used + {prekey, first} && v.h.root0 == root0 && v.h.keys == [prekey, first]
    ensures |v.h.net[1]| == k && forall n :: 0 <= n < k ==> v.h.net[1][n].text == text
    ensures v.alice.skippedKeys == [] && v.alice.receivingChainKey.None?
  {
    hide Decrypt, Honest, Stocked, Step, Enabled, Sends;
    GenesisInv(root0, prekey, first, used);
    var w := Genesis(root0, prekey, first, used);
    SendRun(w, Alice, k, text);
    v := After(w, Sends(Alice, k, text));
  }

  /** A session without a live receiving chain is healed by the first message under the
      peer's next ratchet key that is within the cap. */
  lemma NextKeyHeals(w: World, j: nat, n: nat, seed: nat)
    requires Inv(w) && 1 <= j < |w.h.net| && n < |w.h.net[j]| && InRange(HeaderOf(w.h, j, n))
    requires j == Position(w.h, Receiver(j)) + 1 && StateOf(w, Receiver(j)).receivingChainKey.None?
    requires n <= MAX_SKIPPED_KEYS
    ensures ReplyTo(w, j, n, seed).result == Plaintext(w.h.net[j][n].text)
    ensures ReplyTo(w, j, n, seed).state.receivingChainKey.Some?
  {
    var h, p, s := w.h, Position(w.h, Receiver(j)), StateOf(w, Receiver(j));
    Decide(w, j, n, seed);
    assert InPlace(h, p, s);
    NothingStoredAhead(h, p, s, n);
  }

  lemma NothingStoredAhead(h: History, p: nat, s: State, n: nat)
    requires Shape(h) && Honest(h) && p + 1 < |h.keys| && Stocked(h, p, s) && n < |h.net[p + 1]|
    ensures !HasKey(s.skippedKeys, HeaderOf(h, p + 1, n))
  {
    if HasKey(s.skippedKeys, HeaderOf(h, p + 1, n)) {
      StoredOpens(h, p - 1, Limit(h, p, s), s.skippedKeys, p + 1, n);
    }
  }

  /** An old-chain gap over the cap costs one loss notice: the next message on the new chain
      within the cap decrypts. */
  lemma GapHeals(w: World, j: nat, n: nat, seed: nat, m: nat, seed': nat)
    requires Inv(w) && Enabled(w, Deliver(j, n, seed)) && 1 <= j && m < |w.h.net[j]|
    requires j == Position(w.h, Receiver(j)) + 1 && GapTooLong(StateOf(w, Receiver(j)), HeaderOf(w.h, j, n))
    requires InRange(HeaderOf(w.h, j, n)) && m <= MAX_SKIPPED_KEYS
    ensures ReplyTo(w, j, n, seed).result.MessageLost?
    ensures var w' := AfterDeliver(w, j, n, seed);
      w'.h == w.h && ReplyTo(w', j, m, seed').result == Plaintext(w.h.net[j][m].text)
  {
    var h, p, s := w.h, Position(w.h, Receiver(j)), StateOf(w, Receiver(j));
    var w' := AfterDeliver(w, j, n, seed);
    Decide(w, j, n, seed);
    assert InPlace(h, p, s);
    NothingStoredAhead(h, p, s, n);
    DeliverKeepsInv(w, j, n, seed);
    assert StateOf(w', Receiver(j)) == AdvancePastLoss(s, HeaderOf(h, j, n)).state;
    NextKeyHeals(w', j, m, seed');
  }

  // ---------------------------------------------------------------------------
  // The two promises that fail, from the start of a conversation
  // ---------------------------------------------------------------------------

  /** The first delivery of a chain to a party with no live receiving chain and nothing stored. */
  lemma FirstOfChain(w: World, j: nat, n: nat, seed: nat)
    requires Inv(w) && Enabled(w, Deliver(j, n, seed)) && 1 <= j && n < U32 && PrevLength(w.h, j) < U32
    requires var s := StateOf(w, Receiver(j));
      && j == Position(w.h, Receiver(j)) + 1 && s.receivingChainKey.None? && s.skippedKeys == []
      && (n == 0 || n > MAX_SKIPPED_KEYS)
    ensures var r, v := ReplyTo(w, j, n, seed), Step(w, Deliver(j, n, seed));
      && r.result == (if n == 0 then Plaintext(w.h.net[j][n].text) else MessageLost(n))
      && Inv(v) && v.h == Grown(w.h, seed) && v.used == w.used + {seed}
      && StateOf(v, Other(Receiver(j))) == StateOf(w, Other(Receiver(j)))
      && StateOf(v, Receiver(j)) == r.state && r.state.skippedKeys == [] && r.state.sendingChainKey.Some?
      && r.state.receivingChainKey.Some? == (n == 0) && r.state.receivingMessageNumber == n + 1
  {
    var p, s := Position(w.h, Receiver(j)), StateOf(w, Receiver(j));
    assert InPlace(w.h, p, s);
    Decide(w, j, n, seed);
    DeliverKeepsInv(w, j, n, seed);
    assert w.h.keys[p] in w.used;
  }

  /** A gap over the cap on a live chain, with nothing stored. */
  lemma LostOnChain(w: World, j: nat, n: nat, seed: nat)
    requires Inv(w) && Enabled(w, Deliver(j, n, seed)) && 1 <= j && InRange(HeaderOf(w.h, j, n))
    requires var s := StateOf(w, Receiver(j));
      && j + 1 == Position(w.h, Receiver(j)) && s.receivingChainKey.Some? && s.skippedKeys == []
      && n > s.receivingMessageNumber + MAX_SKIPPED_KEYS
    ensures var s, v := StateOf(w, Receiver(j)), Step(w, Deliver(j, n, seed));
      && ReplyTo(w, j, n, seed).result == MessageLost(n - s.receivingMessageNumber)
      && Inv(v) && v.h == w.h && v.used == w.used + {seed}
      && StateOf(v, Receiver(j)).receivingChainKey.None? && StateOf(v, Receiver(j)).skippedKeys == []
  {
    hide Decrypt, Honest, Stocked;
    assert InPlace(w.h, j + 1, StateOf(w, Receiver(j)));
    Decide(w, j, n, seed);
    DeliverKeepsInv(w, j, n, seed);
  }

  lemma ClosedRefuses(w: World, j: nat, n: nat, seed: nat)
    requires Inv(w) && j < |w.h.net| && n < |w.h.net[j]| && 1 <= j && InRange(HeaderOf(w.h, j, n))
    requires var s := StateOf(w, Receiver(j));
      j + 1 == Position(w.h, Receiver(j)) && s.receivingChainKey.None? && s.skippedKeys == []
    ensures ReplyTo(w, j, n, seed) == Reply(StateOf(w, Receiver(j)), Duplicate)
  {
    hide Decrypt, Honest, Stocked;
    assert InPlace(w.h, j + 1, StateOf(w, Receiver(j)));
    Decide(w, j, n, seed);
  }

  /** The promise that later messages of the chain still decrypt fails. Alice sends 1004 messages;
      Bob gets the first, then number 1002, which is lost, then number 1003, which is refused. */
  lemma NextOnChainRefused(root0: Term, prekey: nat, first: nat, used: set<nat>, text: Text, s1: nat, s2: nat, s3: nat)
    requires prekey != first && |{prekey, first, s1, s2, s3}| == 5 && s1 !in used && s2 !in used && s3 !in used
    ensures var w, sends := Genesis(root0, prekey, first, used), Sends(Alice, 1004, text);
      Feasible(w, sends) && var w1 := After(w, sends);
      Enabled(w1, Deliver(1, 0, s1)) && ReplyTo(w1, 1, 0, s1).result == Plaintext(text) &&
      var w2 := Step(w1, Deliver(1, 0, s1));
      Enabled(w2, Deliver(1, 1002, s2)) && ReplyTo(w2, 1, 1002, s2).result == MessageLost(1001) &&
      var w3 := Step(w2, Deliver(1, 1002, s2));
      Enabled(w3, Deliver(1, 1003, s3)) && ReplyTo(w3, 1, 1003, s3) == Reply(w3.bob, Duplicate)
  {
    hide Decrypt, Honest, Stocked, Keyed, Sends, Feasible, After;
    var w1 := AliceTalks(root0, prekey, first, used, 1004, text);
    FirstOfChain(w1, 1, 0, s1);
    var w2 := Step(w1, Deliver(1, 0, s1));
    LostOnChain(w2, 1, 1002, s2);
    ClosedRefuses(Step(w2, Deliver(1, 1002, s2)), 1, 1003, s3);
  }

  /** Alice sends 1002 messages and Bob gets only the last; then each answers the other once. */
  function LongRun(text: Text, s1: nat, s2: nat, s3: nat): seq<Event> {
    Sends(Alice, 1002, text) + Talk(text, s1, s2, s3)
  }

  function Talk(text: Text, s1: nat, s2: nat, s3: nat): seq<Event> {
    [Deliver(1, 1001, s1), Send(Bob, text)] + ([Deliver(2, 0, s2), Send(Alice, text)] + [Deliver(3, 0, s3)])
  }

  lemma RunCons(w: World, e: Event, rest: seq<Event>)
    requires |w.h.keys| >= 2 && |w.h.net| == |w.h.keys| && Enabled(w, e) && Feasible(Step(w, e), rest)
    ensures Feasible(w, [e] + rest) && After(w, [e] + rest) == After(Step(w, e), rest)
  {
    assert ([e] + rest)[1..] == rest;
  }

  lemma BobAnswers(w: World, text: Text, s1: nat)
    requires Inv(w) && |w.h.keys| == 2 && |w.h.net[1]| == 1002 && s1 !in w.used
    requires w.bob == InitReceiver(w.h.root0, Priv(w.h.keys[0]), Pub(w.h.keys[0]))
    ensures var es := [Deliver(1, 1001, s1), Send(Bob, text)];
      Feasible(w, es) && var v := After(w, es);
      && Inv(v) && |v.h.keys| == 3 && |v.h.net[2]| == 1 && v.h.net[1] == w.h.net[1] && v.used == w.used + {s1}
      && v.alice == w.alice && v.bob.skippedKeys == [] && v.bob.receivingChainKey.None?
  {
    hide Decrypt, Honest, Keyed, Stocked;
    FirstOfChain(w, 1, 1001, s1);
    var u := Step(w, Deliver(1, 1001, s1));
    SendOne(u, Bob, text);
    RunCons(u, Send(Bob, text), []);
    RunCons(w, Deliver(1, 1001, s1), [Send(Bob, text)]);
    assert [Deliver(1, 1001, s1)] + [Send(Bob, text)] == [Deliver(1, 1001, s1), Send(Bob, text)];
  }

  lemma AliceAnswers(w: World, text: Text, s2: nat)
    requires Inv(w) && |w.h.keys| == 3 && |w.h.net[2]| == 1 && |w.h.net[1]| == 1002 && s2 !in w.used
    requires w.alice.skippedKeys == [] && w.alice.receivingChainKey.None?
    ensures var es := [Deliver(2, 0, s2), Send(Alice, text)];
      Feasible(w, es) && var v := After(w, es);
      && Inv(v) && |v.h.keys| == 4 && |v.h.net[3]| == 1 && v.h.net[1] == w.h.net[1] && v.used == w.used + {s2}
      && v.bob == w.bob
  {
    hide Decrypt, Honest, Keyed, Stocked;
    FirstOfChain(w, 2, 0, s2);
    var u := Step(w, Deliver(2, 0, s2));
    SendOne(u, Alice, text);
    RunCons(u, Send(Alice, text), []);
    RunCons(w, Deliver(2, 0, s2), [Send(Alice, text)]);
    assert [Deliver(2, 0, s2)] + [Send(Alice, text)] == [Deliver(2, 0, s2), Send(Alice, text)];
  }

  lemma BobListens(w: World, s3: nat)
    requires Inv(w) && |w.h.keys| == 4 && |w.h.net[3]| == 1 && |w.h.net[1]| == 1002 && s3 !in w.used
    requires w.bob.skippedKeys == [] && w.bob.receivingChainKey.None?
    ensures Feasible(w, [Deliver(3, 0, s3)])
    ensures var v := After(w, [Deliver(3, 0, s3)]);
      && Inv(v) && v.used == w.used + {s3} && |v.h.keys| == 5 && v.h.net[1] == w.h.net[1]
      && Harmful(v.h, 1, 1001, v.bob)
  {
    hide Decrypt, Honest, Keyed, Stocked;
    FirstOfChain(w, 3, 0, s3);
    RunCons(w, Deliver(3, 0, s3), []);
  }

  /** Where that leads from the end of Alice's messages. */
  lemma LongRunEnds(w: World, text: Text, s1: nat, s2: nat, s3: nat) returns (v: World)
    requires Inv(w) && |w.h.keys| == 2 && |w.h.net[1]| == 1002 && |{s1, s2, s3}| == 3
    requires s1 !in w.used && s2 !in w.used && s3 !in w.used
    requires w.bob == InitReceiver(w.h.root0, Priv(w.h.keys[0]), Pub(w.h.keys[0]))
    requires w.alice.skippedKeys == [] && w.alice.receivingChainKey.None?
    ensures Feasible(w, Talk(text, s1, s2, s3)) && v == After(w, Talk(text, s1, s2, s3))
    ensures Inv(v) && v.used == w.used + {s1} + {s2} + {s3} && |v.h.keys| == 5 && v.h.net[1] == w.h.net[1]
    ensures Harmful(v.h, 1, 1001, v.bob)
  {
    hide Decrypt, Honest, InPlace, Step, Enabled, Harmful;
    var a, b, c := [Deliver(1, 1001, s1), Send(Bob, text)], [Deliver(2, 0, s2), Send(Alice, text)], [Deliver(3, 0, s3)];
    BobAnswers(w, text, s1);
    var w1 := After(w, a);
    AliceAnswers(w1, text, s2);
    var w2 := After(w1, b);
    BobListens(w2, s3);
    v := After(w2, c);
    RunAppend(w1, b, c);
    RunAppend(w, a, b + c);
  }

  lemma LongRunFrom(root0: Term, prekey: nat, first: nat, used: set<nat>, text: Text, s1: nat, s2: nat, s3: nat)
    returns (v: World)
    requires |{prekey, first, s1, s2, s3}| == 5 && {s1, s2, s3} !! used
    ensures var w, es := Genesis(root0, prekey, first, used), LongRun(text, s1, s2, s3);
      Feasible(w, es) && v == After(w, es)
    ensures Inv(v) && v.used == used + {prekey, first, s1, s2, s3} && |v.h.keys| == 5 && |v.h.net[1]| == 1002
    ensures Harmful(v.h, 1, 1001, v.bob)
  {
    hide Decrypt, Inv, Step, Enabled, Sends, Talk, Feasible, After;
    var w := Genesis(root0, prekey, first, used);
    var w1 := AliceTalks(root0, prekey, first, used, 1002, text);
    v := LongRunEnds(w1, text, s1, s2, s3);
    RunAppend(w, Sends(Alice, 1002, text), Talk(text, s1, s2, s3));
  }

  /** "The session continues" fails: after that run one replay of the message over the cap takes
      two sessions that were in step out of it. */
  lemma ReplayDesynchronizes(root0: Term, prekey: nat, first: nat, used: set<nat>, text: Text,
                             s1: nat, s2: nat, s3: nat, s4: nat)
    requires |{prekey, first, s1, s2, s3, s4}| == 6 && {s1, s2, s3, s4} !! used
    ensures var w, es := Genesis(root0, prekey, first, used), LongRun(text, s1, s2, s3);
      Feasible(w, es) && var v := After(w, es);
      && Enabled(v, Deliver(1, 1001, s4))
      && Harmful(v.h, 1, 1001, v.bob)
      && Inv(v) && RootsInStep(v)
      && !RootsInStep(Step(v, Deliver(1, 1001, s4)))
  {
    hide Decrypt, Inv, RootsInStep, LongRun, Feasible, After;
    var v := LongRunFrom(root0, prekey, first, used, text, s1, s2, s3);
    InvRoots(v);
    HarmBreaks(v, 1, 1001, s4);
  }

  // ---------------------------------------------------------------------------
  // Consumed packets come again
  // ---------------------------------------------------------------------------

  /** A message a thousand ahead on a live chain, with nothing stored: it opens, and the thousand
      before it are stored. */
  lemma LeapOpens(w: World, j: nat, n: nat, seed: nat)
    requires Inv(w) && Enabled(w, Deliver(j, n, seed)) && 1 <= j && InRange(HeaderOf(w.h, j, n))
    requires var s := StateOf(w, Receiver(j));
      && j + 1 == Position(w.h, Receiver(j)) && s.receivingChainKey.Some? && s.skippedKeys == []
      && n == s.receivingMessageNumber + MAX_SKIPPED_KEYS
    ensures var s, r, v := StateOf(w, Receiver(j)), ReplyTo(w, j, n, seed), Step(w, Deliver(j, n, seed));
      && r.result == Plaintext(w.h.net[j][n].text) && r.state.receivingMessageNumber == n + 1
      && Inv(v) && v.h == w.h && v.used == w.used + {seed}
      && StateOf(v, Receiver(j)) == r.state && StateOf(v, Other(Receiver(j))) == StateOf(w, Other(Receiver(j)))
      && (forall k :: 0 <= k < |r.state.skippedKeys| ==>
            s.receivingMessageNumber <= r.state.skippedKeys[k].messageNumber < n)
  {
    hide Decrypt, Honest, Stocked;
    assert InPlace(w.h, j + 1, StateOf(w, Receiver(j)));
    Decide(w, j, n, seed);
    DeliverKeepsInv(w, j, n, seed);
  }

  /** The first message of the next chain to a party that has all of the chain before. */
  lemma NextOpens(w: World, j: nat, seed: nat)
    requires Inv(w) && Enabled(w, Deliver(j, 0, seed)) && InRange(HeaderOf(w.h, j, 0))
    requires 1 <= j == Position(w.h, Receiver(j)) + 1
    requires StateOf(w, Receiver(j)).receivingMessageNumber == PrevLength(w.h, j)
    ensures var s, r, v := StateOf(w, Receiver(j)), ReplyTo(w, j, 0, seed), Step(w, Deliver(j, 0, seed));
      && r.result == Plaintext(w.h.net[j][0].text) && r.state.skippedKeys == s.skippedKeys
      && Inv(v) && v.h == Grown(w.h, seed) && v.used == w.used + {seed}
      && StateOf(v, Receiver(j)) == r.state && r.state.receivingChainKey.Some? && r.state.receivingMessageNumber == 1
  {
    var p, s := Position(w.h, Receiver(j)), StateOf(w, Receiver(j));
    assert InPlace(w.h, p, s);
    NothingStoredAhead(w.h, p, s, 0);
    Decide(w, j, 0, seed);
    DeliverKeepsInv(w, j, 0, seed);
    assert w.h.keys[p] in w.used;
  }

  /** What happens between a consumed packet and its replay. */
  function Exchange(text: Text, s3: nat, s4: nat): seq<Event> {
    [Send(Bob, text), Deliver(2, 0, s3)] + [Send(Alice, text), Deliver(3, 0, s4)]
  }

  lemma TwoRead(w: World, text: Text, s1: nat, s2: nat) returns (v: World)
    requires Inv(w) && |w.h.keys| == 2 && |w.h.net[1]| == 1002
    requires forall n :: 0 <= n < 1002 ==> w.h.net[1][n].text == text
    requires s1 !in w.used && s2 !in w.used && s1 != s2
    requires w.bob == InitReceiver(w.h.root0, Priv(w.h.keys[0]), Pub(w.h.keys[0]))
    ensures Enabled(w, Deliver(1, 0, s1)) && ReplyTo(w, 1, 0, s1).result == Plaintext(text) &&
      var w2 := Step(w, Deliver(1, 0, s1));
      && Enabled(w2, Deliver(1, 1001, s2)) && ReplyTo(w2, 1, 1001, s2).result == Plaintext(text)
      && v == Step(w2, Deliver(1, 1001, s2))
    ensures Inv(v) && |v.h.keys| == 3 && v.h.net == w.h.net + [[]] && v.used == w.used + {s1} + {s2}
    ensures v.alice == w.alice && v.bob.receivingMessageNumber == 1002
    ensures forall k :: 0 <= k < |v.bob.skippedKeys| ==> 1 <= v.bob.skippedKeys[k].messageNumber <= 1000
  {
    hide Decrypt, Honest, Stocked, Keyed;
    FirstOfChain(w, 1, 0, s1);
    var w2 := Step(w, Deliver(1, 0, s1));
    LeapOpens(w2, 1, 1001, s2);
    v := Step(w2, Deliver(1, 1001, s2));
  }

  lemma BobAsks(w: World, text: Text, s3: nat) returns (v: World)
    requires Inv(w) && |w.h.keys| == 3 && |w.h.net[2]| == 0 && |w.h.net[1]| == 1002 && s3 !in w.used
    requires w.alice.skippedKeys == [] && w.alice.receivingChainKey.None?
    ensures var es := [Send(Bob, text), Deliver(2, 0, s3)]; Feasible(w, es) && v == After(w, es)
    ensures Inv(v) && |v.h.keys| == 4 && |v.h.net[3]| == 0 && v.h.net[1] == w.h.net[1] && v.used == w.used + {s3}
    ensures v.bob.skippedKeys == w.bob.skippedKeys && v.bob.receivingMessageNumber == w.bob.receivingMessageNumber
    ensures v.alice.sendingChainKey.Some?
  {
    hide Decrypt, Honest, Stocked;
    assert InPlace(w.h, Position(w.h, Bob), StateOf(w, Bob));
    SendOne(w, Bob, text);
    var u := Step(w, Send(Bob, text));
    FirstOfChain(u, 2, 0, s3);
    v := Step(u, Deliver(2, 0, s3));
    RunCons(u, Deliver(2, 0, s3), []);
    RunCons(w, Send(Bob, text), [Deliver(2, 0, s3)]);
    assert [Send(Bob, text)] + ([Deliver(2, 0, s3)] + []) == [Send(Bob, text), Deliver(2, 0, s3)];
  }

  lemma AliceAsks(w: World, text: Text, s4: nat) returns (v: World)
    requires Inv(w) && |w.h.keys| == 4 && |w.h.net[3]| == 0 && |w.h.net[1]| == 1002 && s4 !in w.used
    requires w.bob.receivingMessageNumber == 1002 && w.alice.sendingChainKey.Some?
    ensures var es := [Send(Alice, text), Deliver(3, 0, s4)]; Feasible(w, es) && v == After(w, es)
    ensures Inv(v) && |v.h.keys| == 5 && v.h.net[1] == w.h.net[1] && v.used == w.used + {s4}
    ensures v.bob.skippedKeys == w.bob.skippedKeys && v.bob.receivingMessageNumber == 1
  {
    hide Decrypt, Honest, Stocked, Keyed;
    SendOne(w, Alice, text);
    var u := Step(w, Send(Alice, text));
    NextOpens(u, 3, s4);
    v := Step(u, Deliver(3, 0, s4));
    RunCons(u, Deliver(3, 0, s4), []);
    RunCons(w, Send(Alice, text), [Deliver(3, 0, s4)]);
    assert [Send(Alice, text)] + ([Deliver(3, 0, s4)] + []) == [Send(Alice, text), Deliver(3, 0, s4)];
  }

  lemma Exchanged(w: World, text: Text, s3: nat, s4: nat) returns (v: World)
    requires Inv(w) && |w.h.keys| == 3 && |w.h.net[2]| == 0 && |w.h.net[1]| == 1002 && s3 != s4
    requires s3 !in w.used && s4 !in w.used && w.alice.skippedKeys == [] && w.alice.receivingChainKey.None?
    requires w.bob.receivingMessageNumber == 1002
    ensures Feasible(w, Exchange(text, s3, s4)) && v == After(w, Exchange(text, s3, s4))
    ensures Inv(v) && |v.h.keys| == 5 && v.h.net[1] == w.h.net[1] && v.used == w.used + {s3} + {s4}
    ensures v.bob.skippedKeys == w.bob.skippedKeys && v.bob.receivingMessageNumber == 1
  {
    hide Honest, InPlace, Step, Enabled;
    var a, b := [Send(Bob, text), Deliver(2, 0, s3)], [Send(Alice, text), Deliver(3, 0, s4)];
    var u := BobAsks(w, text, s3);
    v := AliceAsks(u, text, s4);
    RunAppend(w, a, b);
  }

  lemma OldReplays(w: World, seed: nat)
    requires Inv(w) && |w.h.keys| == 5 && |w.h.net[1]| == 1002 && w.bob.receivingMessageNumber == 1
    requires forall k :: 0 <= k < |w.bob.skippedKeys| ==> 1 <= w.bob.skippedKeys[k].messageNumber <= 1000
    ensures ReplyTo(w, 1, 0, seed) == Reply(w.bob, InvalidMessage)
    ensures ReplyTo(w, 1, 1001, seed).result == MessageLost(1001) && ReplyTo(w, 1, 1001, seed).state != w.bob
  {
    hide Decrypt, Honest, Stocked;
    assert InPlace(w.h, Position(w.h, Bob), StateOf(w, Bob));
    assert !HasKey(w.bob.skippedKeys, HeaderOf(w.h, 1, 0)) && !HasKey(w.bob.skippedKeys, HeaderOf(w.h, 1, 1001));
    Decide(w, 1, 0, seed);
    Decide(w, 1, 1001, seed);
    assert Ratcheted(w.bob, HeaderOf(w.h, 1, 1001), seed).rootKey.root.root == w.bob.rootKey;
  }

  /** "Decrypting a consumed envelope again gives a duplicate" fails. Of 1002 messages Bob reads the
      first and the last, both parties move on to new keys, and the two come again: the first is
      an invalid message, the last a loss that moves the session. */
  lemma ConsumedReplayed(root0: Term, prekey: nat, first: nat, used: set<nat>, text: Text,
                         s1: nat, s2: nat, s3: nat, s4: nat, s5: nat)
    requires |{prekey, first, s1, s2, s3, s4, s5}| == 7 && {s1, s2, s3, s4, s5} !! used
    ensures var w, sends := Genesis(root0, prekey, first, used), Sends(Alice, 1002, text);
      Feasible(w, sends) && var w1 := After(w, sends);
      Enabled(w1, Deliver(1, 0, s1)) && ReplyTo(w1, 1, 0, s1).result == Plaintext(text) &&
      var w2 := Step(w1, Deliver(1, 0, s1));
      Enabled(w2, Deliver(1, 1001, s2)) && ReplyTo(w2, 1, 1001, s2).result == Plaintext(text) &&
      var w3 := Step(w2, Deliver(1, 1001, s2));
      Feasible(w3, Exchange(text, s3, s4)) && var v := After(w3, Exchange(text, s3, s4));
      && Enabled(v, Deliver(1, 0, s5)) && ReplyTo(v, 1, 0, s5) == Reply(v.bob, InvalidMessage)
      && Enabled(v, Deliver(1, 1001, s5)) && ReplyTo(v, 1, 1001, s5).result == MessageLost(1001)
      && ReplyTo(v, 1, 1001, s5).state != v.bob
  {
    hide Decrypt, Inv, Sends, Feasible, After, Exchange;
    var w1 := AliceTalks(root0, prekey, first, used, 1002, text);
    var w3 := TwoRead(w1, text, s1, s2);
    var v := Exchanged(w3, text, s3, s4);
    OldReplays(v, s5);
  }

  // ---------------------------------------------------------------------------
  // A mutated header
  // ---------------------------------------------------------------------------

  /** h with the lowest bit of its number's first byte set. */
  function Flipped(h: Header): Header {
    h.(messageNumber := h.messageNumber + 0x0100_0000)
  }

  /** Adding one to the high byte of a small counter changes that byte alone. */
  lemma HighByte(n: nat)
    requires n < 0x0100_0000
    ensures var m := n + 0x0100_0000;
      ByteOf(m, 0) == ByteOf(n, 0) && ByteOf(m, 1) == ByteOf(n, 1) && ByteOf(m, 2) == ByteOf(n, 2)
      && ByteOf(n, 3) == 0 && ByteOf(m, 3) == 1
  {
    var m := n + 0x0100_0000;
    FourBytes(n);
    FourBytes(m);
    assert m / 256 == n / 256 + 0x1_0000;
    assert m / 256 / 256 == n / 256 / 256 + 0x100;
    assert n / 256 / 256 < 256;
  }

  lemma OneByteApart(h: Header)
    requires 0 <= h.messageNumber < 0x0100_0000
    ensures forall i :: 0 <= i < 40 ==> (SerializeHeader(h)[i] == SerializeHeader(Flipped(h))[i] <==> i != 36)
  {
    var n := h.messageNumber;
    var m := n + 0x0100_0000;
    HighByte(n);
    var a, b := Counter(n), Counter(m);
    assert a[0] == Lit(ByteOf(n, 3)) && a[1] == Lit(ByteOf(n, 2))
        && a[2] == Lit(ByteOf(n, 1)) && a[3] == Lit(ByteOf(n, 0));
    assert b[0] == Lit(ByteOf(m, 3)) && b[1] == Lit(ByteOf(m, 2))
        && b[2] == Lit(ByteOf(m, 1)) && b[3] == Lit(ByteOf(m, 0));
    var front := Bytes(h.dhPub) + Counter(h.prevChainLength);
    assert SerializeHeader(h) == front + a && SerializeHeader(Flipped(h)) == front + b;
  }

  /** "Any tamper to the header surfaces as invalid_message" fails: Alice's first message with one
      header byte changed is reported lost, and Bob's session takes a ratchet step. */
  lemma FlippedByteRatchets(root: Term, prekey: nat, first: nat, text: Text, seed: nat)
    ensures var m := NextEnvelope(InitSender(root, Pub(prekey), first), text);
      var bob := InitReceiver(root, Priv(prekey), Pub(prekey));
      && Decrypt(bob, m.header, m.ciphertext, seed).result == Plaintext(text)
      && (forall i :: 0 <= i < 40 && i != 36 ==> SerializeHeader(Flipped(m.header))[i] == SerializeHeader(m.header)[i])
      && Decrypt(bob, Flipped(m.header), m.ciphertext, seed).result == MessageLost(0x0100_0000)
      && Depth(Decrypt(bob, Flipped(m.header), m.ciphertext, seed).state.rootKey) == Depth(root) + 2
  {
    var m := NextEnvelope(InitSender(root, Pub(prekey), first), text);
    OneByteApart(m.header);
  }
}
