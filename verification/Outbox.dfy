/** The offline-send queue of a client, apps/web/src/db/repositories/outbox.ts: at most a thousand
    rows, one for each nonce, in the order they were added. An enqueue that adds a row first drops
    what is more than seven days old and then, oldest first, what leaves no room. */
module Outbox {

  datatype Envelope = Envelope(sender: nat, recipient: nat, body: nat)

  datatype Entry = Entry(row: nat, nonce: nat, envelope: Envelope, at: int)

  const MAX_ENTRIES := 1000
  const MAX_AGE_MS := 7 * 24 * 60 * 60 * 1000

  predicate HasNonce(outbox: seq<Entry>, nonce: nat) {
    exists i :: 0 <= i < |outbox| && outbox[i].nonce == nonce
  }

  /** The entry an enqueue resolves to. */
  function Resolved(outbox: seq<Entry>, nonce: nat): Entry
    requires HasNonce(outbox, nonce)
  {
    if outbox[0].nonce == nonce then outbox[0] else Resolved(outbox[1..], nonce)
  }

  function WithoutNonce(outbox: seq<Entry>, nonce: nat): seq<Entry> {
    if outbox == [] then []
    else if outbox[0].nonce == nonce then WithoutNonce(outbox[1..], nonce)
    else [outbox[0]] + WithoutNonce(outbox[1..], nonce)
  }

  // ---------------------------------------------------------------------------
  // The sweeps
  // ---------------------------------------------------------------------------

  predicate Aged(e: Entry, now: int) {
    e.at < now - MAX_AGE_MS
  }

  function Unaged(outbox: seq<Entry>, now: int): seq<Entry> {
    if outbox == [] then []
    else (if Aged(outbox[0], now) then [] else [outbox[0]]) + Unaged(outbox[1..], now)
  }

  /** Room for one more. */
  function Newest(outbox: seq<Entry>): seq<Entry> {
    if |outbox| < MAX_ENTRIES then outbox else outbox[|outbox| + 1 - MAX_ENTRIES..]
  }

  function Swept(outbox: seq<Entry>, now: int): seq<Entry> {
    Newest(Unaged(outbox, now))
  }

  /** Rows are numbered in the order they were added, below next. */
  ghost predicate InOrder(outbox: seq<Entry>, next: nat) {
    && (forall i, j :: 0 <= i < j < |outbox| ==> outbox[i].row < outbox[j].row)
    && (forall i :: 0 <= i < |outbox| ==> outbox[i].row < next)
  }

  ghost predicate OneEach(outbox: seq<Entry>) {
    forall e, f :: e in outbox && f in outbox && e.nonce == f.nonce ==> e == f
  }

  ghost predicate StoreOk(outbox: seq<Entry>, next: nat) {
    InOrder(outbox, next) && OneEach(outbox) && |outbox| <= MAX_ENTRIES
  }

  lemma {:induction false} UnagedIn(outbox: seq<Entry>, now: int, e: Entry)
    ensures e in Unaged(outbox, now) <==> e in outbox && !Aged(e, now)
  {
    if outbox != [] {
      assert outbox == [outbox[0]] + outbox[1..];
      UnagedIn(outbox[1..], now, e);
    }
  }

  lemma {:induction false} UnagedOrder(outbox: seq<Entry>, now: int, next: nat)
    requires InOrder(outbox, next)
    ensures InOrder(Unaged(outbox, now), next) && |Unaged(outbox, now)| <= |outbox|
  {
    if outbox != [] {
      UnagedOrder(outbox[1..], now, next);
      forall e | e in Unaged(outbox[1..], now) ensures outbox[0].row < e.row {
        UnagedIn(outbox[1..], now, e);
      }
    }
  }

  lemma UnagedOk(outbox: seq<Entry>, now: int, next: nat)
    requires StoreOk(outbox, next)
    ensures StoreOk(Unaged(outbox, now), next)
  {
    UnagedOrder(outbox, now, next);
    forall e | e in Unaged(outbox, now) ensures e in outbox {
      UnagedIn(outbox, now, e);
    }
  }

  lemma {:induction false} UnagedSplit(outbox: seq<Entry>, now: int, i: nat)
    requires i <= |outbox|
    ensures Unaged(outbox, now) == Unaged(outbox[..i], now) + Unaged(outbox[i..], now)
  {
    if i > 0 {
      UnagedSplit(outbox[1..], now, i - 1);
      assert outbox[..i][1..] == outbox[1..][..i - 1] && outbox[1..][i - 1..] == outbox[i..];
    } else {
      assert outbox[..0] == [] && outbox[0..] == outbox;
    }
  }

  /** Exactly what the two sweeps keep: what is at most seven days old and has fewer than 999 such
      rows after it. */
  lemma SweptExactly(outbox: seq<Entry>, now: int, next: nat, i: nat)
    requires InOrder(outbox, next) && i < |outbox|
    ensures outbox[i] in Swept(outbox, now) <==>
      outbox[i].at >= now - 604_800_000 && |Unaged(outbox[i + 1..], now)| < 999
  {
    var e, kept := outbox[i], Unaged(outbox, now);
    UnagedIn(outbox, now, e);
    UnagedOrder(outbox, now, next);
    if !Aged(e, now) {
      UnagedSplit(outbox, now, i);
      var k := |Unaged(outbox[..i], now)|;
      assert outbox[i..][0] == e && outbox[i..][1..] == outbox[i + 1..];
      assert Unaged(outbox[i..], now) == [e] + Unaged(outbox[i + 1..], now);
      assert kept[k] == e && |kept| == k + 1 + |Unaged(outbox[i + 1..], now)|;
      if |kept| >= MAX_ENTRIES {
        NewestFrom(kept, next, k);
      }
    }
  }

  lemma NewestFrom(kept: seq<Entry>, next: nat, k: nat)
    requires InOrder(kept, next) && k < |kept| && |kept| >= MAX_ENTRIES
    ensures kept[k] in Newest(kept) <==> k >= |kept| + 1 - MAX_ENTRIES
  {
    var from := |kept| + 1 - MAX_ENTRIES;
    if k >= from {
      assert kept[from..][k - from] == kept[k];
    }
  }

  lemma SweptIn(outbox: seq<Entry>, now: int, e: Entry)
    requires e in Swept(outbox, now)
    ensures e in outbox && !Aged(e, now)
  {
    UnagedIn(outbox, now, e);
  }

  /** The sweeps make room for one row and keep the order. */
  lemma SweptOk(outbox: seq<Entry>, now: int, next: nat)
    requires InOrder(outbox, next)
    ensures InOrder(Swept(outbox, now), next) && |Swept(outbox, now)| < MAX_ENTRIES
  {
    UnagedOrder(outbox, now, next);
  }

  lemma {:induction false} RowsApart(outbox: seq<Entry>, next: nat, i: nat, j: nat)
    requires InOrder(outbox, next) && i <= j < |outbox|
    ensures outbox[i].row + (j - i) <= outbox[j].row
  {
    if i < j {
      RowsApart(outbox, next, i, j - 1);
    }
  }

  /** Why a row goes: its age, or a thousand rows added from it on. */
  lemma DropReason(outbox: seq<Entry>, now: int, next: nat, e: Entry)
    requires InOrder(outbox, next) && e in outbox && e !in Swept(outbox, now)
    ensures e.at < now - 604_800_000 || e.row + 1000 <= next
  {
    var kept := Unaged(outbox, now);
    UnagedIn(outbox, now, e);
    UnagedOrder(outbox, now, next);
    if !Aged(e, now) {
      var k :| 0 <= k < |kept| && kept[k] == e;
      NewestFrom(kept, next, k);
      RowsApart(kept, next, k, |kept| - 1);
    }
  }

  lemma {:induction false} NoneAged(outbox: seq<Entry>, now: int)
    requires forall i :: 0 <= i < |outbox| ==> !Aged(outbox[i], now)
    ensures Unaged(outbox, now) == outbox
  {
    if outbox != [] {
      NoneAged(outbox[1..], now);
    }
  }

  /** Age is not the only reason: of a thousand rows added at one moment the first goes when the
      next is added at that same moment. */
  lemma FullStoreDrops(envelope: Envelope, now: int)
    ensures var outbox := seq(MAX_ENTRIES, i requires 0 <= i < MAX_ENTRIES => Entry(i, i, envelope, now));
      StoreOk(outbox, MAX_ENTRIES) && !Aged(outbox[0], now) && outbox[0] !in Swept(outbox, now)
  {
    var outbox := seq(MAX_ENTRIES, i requires 0 <= i < MAX_ENTRIES => Entry(i, i, envelope, now));
    NoneAged(outbox[1..], now);
    SweptExactly(outbox, now, MAX_ENTRIES, 0);
  }

  // ---------------------------------------------------------------------------
  // Lookups and deletions
  // ---------------------------------------------------------------------------

  lemma {:induction false} ResolvedIn(outbox: seq<Entry>, nonce: nat)
    requires HasNonce(outbox, nonce)
    ensures Resolved(outbox, nonce) in outbox && Resolved(outbox, nonce).nonce == nonce
  {
    if outbox[0].nonce != nonce {
      var i :| 0 <= i < |outbox| && outbox[i].nonce == nonce;
      assert outbox[1..][i - 1].nonce == nonce;
      ResolvedIn(outbox[1..], nonce);
    }
  }

  lemma {:induction false} WithoutNonceIn(outbox: seq<Entry>, nonce: nat, e: Entry)
    ensures e in WithoutNonce(outbox, nonce) <==> e in outbox && e.nonce != nonce
  {
    if outbox != [] {
      assert outbox == [outbox[0]] + outbox[1..];
      WithoutNonceIn(outbox[1..], nonce, e);
    }
  }

  lemma {:induction false} WithoutNonceOrder(outbox: seq<Entry>, nonce: nat, next: nat)
    requires InOrder(outbox, next)
    ensures InOrder(WithoutNonce(outbox, nonce), next) && |WithoutNonce(outbox, nonce)| <= |outbox|
  {
    if outbox != [] {
      WithoutNonceOrder(outbox[1..], nonce, next);
      forall e | e in WithoutNonce(outbox[1..], nonce) ensures outbox[0].row < e.row {
        WithoutNonceIn(outbox[1..], nonce, e);
      }
    }
  }

  lemma WithoutNonceOk(outbox: seq<Entry>, nonce: nat, next: nat)
    requires StoreOk(outbox, next)
    ensures StoreOk(WithoutNonce(outbox, nonce), next)
  {
    WithoutNonceOrder(outbox, nonce, next);
    forall e | e in WithoutNonce(outbox, nonce) ensures e in outbox {
      WithoutNonceIn(outbox, nonce, e);
    }
  }

  lemma GoneFromOutbox(outbox: seq<Entry>, nonce: nat)
    ensures !HasNonce(WithoutNonce(outbox, nonce), nonce)
  {
    forall i | 0 <= i < |WithoutNonce(outbox, nonce)| ensures WithoutNonce(outbox, nonce)[i].nonce != nonce {
      WithoutNonceIn(outbox, nonce, WithoutNonce(outbox, nonce)[i]);
    }
  }
}
