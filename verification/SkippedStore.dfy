/** The skipped-key store of one session over every sequence of calls, hostile ones included:
    it is always the tail of everything ever appended, less what was consumed. */
module SkippedStore {
  import opened Options
  import opened Symbols
  import opened Ratchet

  /** Every entry ever appended, how many of the oldest are out of reach, and the indices of
      the entries that were consumed. */
  datatype Ring = Ring(history: seq<SkippedKey>, cut: nat, taken: set<nat>)

  datatype Call = Call(header: Header, ciphertext: Ciphertext, seed: nat)

  /** The indices in [cut, n) that were not taken, in order. */
  function Positions(n: nat, cut: nat, taken: set<nat>): (ps: seq<nat>)
    ensures forall k :: 0 <= k < |ps| ==> cut <= ps[k] < n && ps[k] !in taken
    ensures forall i, k :: 0 <= i < k < |ps| ==> ps[i] < ps[k]
    ensures cut <= n ==> |ps| <= n - cut
  {
    if n <= cut then []
    else Positions(n - 1, cut, taken) + (if n - 1 in taken then [] else [n - 1])
  }

  lemma {:induction false} PositionsComplete(n: nat, cut: nat, taken: set<nat>, i: nat)
    requires cut <= i < n && i !in taken
    ensures i in Positions(n, cut, taken)
  {
    if i < n - 1 {
      PositionsComplete(n - 1, cut, taken, i);
    }
  }

  lemma {:induction false} PositionsAppend(n: nat, m: nat, cut: nat, taken: set<nat>)
    requires cut <= n && forall i :: i in taken ==> i < n
    ensures Positions(n + m, cut, taken) == Positions(n, cut, taken) + seq(m, (i: nat) => n + i)
  {
    if m == 0 {
      assert seq(m, (i: nat) => n + i) == [];
    } else {
      PositionsAppend(n, m - 1, cut, taken);
      assert seq(m, (i: nat) => n + i) == seq(m - 1, (i: nat) => n + i) + [n + m - 1];
    }
  }

  /** Dropping the k oldest survivors moves the cut to the next one. */
  lemma {:induction false} PositionsDrop(n: nat, cut: nat, taken: set<nat>, k: nat)
    requires k < |Positions(n, cut, taken)|
    ensures Positions(n, Positions(n, cut, taken)[k], taken) == Positions(n, cut, taken)[k..]
  {
    var ps := Positions(n, cut, taken);
    var front := Positions(n - 1, cut, taken);
    if k < |front| {
      PositionsDrop(n - 1, cut, taken, k);
    } else {
      assert ps[k] == n - 1 && Positions(n - 1, n - 1, taken) == [];
    }
  }

  lemma {:induction false} PositionsTake(n: nat, cut: nat, taken: set<nat>, k: nat)
    requires k < |Positions(n, cut, taken)|
    ensures Positions(n, cut, taken + {Positions(n, cut, taken)[k]}) == Without(Positions(n, cut, taken), k)
  {
    var ps := Positions(n, cut, taken);
    var front := Positions(n - 1, cut, taken);
    if k < |front| {
      PositionsTake(n - 1, cut, taken, k);
    } else {
      PositionsUntouched(n - 1, cut, taken, n - 1);
    }
  }

  lemma {:induction false} PositionsUntouched(n: nat, cut: nat, taken: set<nat>, i: nat)
    requires n <= i
    ensures Positions(n, cut, taken + {i}) == Positions(n, cut, taken)
  {
    if n > cut {
      PositionsUntouched(n - 1, cut, taken, i);
    }
  }

  function Survivors(r: Ring): seq<SkippedKey> {
    var ps := Positions(|r.history|, r.cut, r.taken);
    seq(|ps|, k requires 0 <= k < |ps| => r.history[ps[k]])
  }

  /** sk is the store the ring describes. An entry is evicted only after the cap's worth of
      later ones. */
  ghost predicate Tracks(r: Ring, sk: seq<SkippedKey>) {
    && r.cut <= |r.history|
    && (forall i :: i in r.taken ==> i < |r.history|)
    && sk == Survivors(r)
    && |sk| <= MAX_SKIPPED_KEYS
    && (forall i :: 0 <= i < r.cut && i !in r.taken ==> i + MAX_SKIPPED_KEYS < |r.history|)
  }

  function Taken(r: Ring, i: nat): Ring
    requires i < |Positions(|r.history|, r.cut, r.taken)|
  {
    r.(taken := r.taken + {Positions(|r.history|, r.cut, r.taken)[i]})
  }

  function Extended(r: Ring, es: seq<SkippedKey>): Ring {
    var all := Positions(|r.history| + |es|, r.cut, r.taken);
    Ring(r.history + es, if |all| > MAX_SKIPPED_KEYS then all[|all| - MAX_SKIPPED_KEYS] else r.cut, r.taken)
  }

  /** The ring after one call. */
  function NextRing(r: Ring, s: State, c: Call): Ring {
    var i := Find(s.skippedKeys, c.header);
    if InRange(c.header) && i < |s.skippedKeys| then
      if Decrypt(s, c.header, c.ciphertext, c.seed).result.Plaintext? && i < |Positions(|r.history|, r.cut, r.taken)|
      then Taken(r, i)
      else r
    else Extended(r, Appended(s, c.header, c.ciphertext, c.seed))
  }

  lemma TakeTracks(r: Ring, sk: seq<SkippedKey>, i: nat)
    requires Tracks(r, sk) && i < |sk|
    ensures Tracks(Taken(r, i), Without(sk, i))
  {
    PositionsTake(|r.history|, r.cut, r.taken, i);
  }

  lemma ExtendSurvivors(r: Ring, es: seq<SkippedKey>)
    requires r.cut <= |r.history| && forall i :: i in r.taken ==> i < |r.history|
    ensures Survivors(r.(history := r.history + es)) == Survivors(r) + es
  {
    var h := r.history + es;
    var before, all := Positions(|r.history|, r.cut, r.taken), Positions(|h|, r.cut, r.taken);
    PositionsAppend(|r.history|, |es|, r.cut, r.taken);
    forall k | 0 <= k < |all| ensures (Survivors(r) + es)[k] == h[all[k]] {
      if k < |before| {
        assert all[k] == before[k];
      }
    }
  }

  lemma DropSurvivors(r: Ring, k: nat)
    requires k < |Survivors(r)|
    ensures Survivors(r.(cut := Positions(|r.history|, r.cut, r.taken)[k])) == Survivors(r)[k..]
  {
    PositionsDrop(|r.history|, r.cut, r.taken, k);
    var ps, later := Positions(|r.history|, r.cut, r.taken), Survivors(r)[k..];
    forall m | 0 <= m < |later| ensures r.history[ps[k..][m]] == later[m] {
    }
  }

  lemma PressureKept(r: Ring, es: seq<SkippedKey>, i: nat)
    requires r.cut <= |r.history| && i !in r.taken && i < Extended(r, es).cut
    requires i < r.cut ==> i + MAX_SKIPPED_KEYS < |r.history|
    ensures i + MAX_SKIPPED_KEYS < |r.history| + |es|
  {
    var n := |r.history| + |es|;
    var all := Positions(n, r.cut, r.taken);
    if |all| > MAX_SKIPPED_KEYS {
      PositionsDrop(n, r.cut, r.taken, |all| - MAX_SKIPPED_KEYS);
    }
  }

  lemma ExtendTracks(r: Ring, sk: seq<SkippedKey>, es: seq<SkippedKey>)
    requires Tracks(r, sk)
    ensures Tracks(Extended(r, es), Push(sk, es))
  {
    hide Positions;
    var grown := r.(history := r.history + es);
    var all := Positions(|grown.history|, r.cut, r.taken);
    ExtendSurvivors(r, es);
    if |all| > MAX_SKIPPED_KEYS {
      DropSurvivors(grown, |all| - MAX_SKIPPED_KEYS);
    }
    forall i | 0 <= i < Extended(r, es).cut && i !in r.taken ensures i + MAX_SKIPPED_KEYS < |grown.history| {
      PressureKept(r, es, i);
    }
  }

  lemma CallTracks(r: Ring, s: State, c: Call)
    requires Tracks(r, s.skippedKeys)
    ensures Tracks(NextRing(r, s, c), Decrypt(s, c.header, c.ciphertext, c.seed).state.skippedKeys)
  {
    StoreStep(s, c.header, c.ciphertext, c.seed);
    MovesWithoutText(s, c.header, c.ciphertext, c.seed);
    var i := Find(s.skippedKeys, c.header);
    if InRange(c.header) && i < |s.skippedKeys| {
      TakeTracks(r, s.skippedKeys, i);
    } else {
      ExtendTracks(r, s.skippedKeys, Appended(s, c.header, c.ciphertext, c.seed));
    }
  }

  function RunState(s: State, cs: seq<Call>): State
    decreases |cs|
  {
    if cs == [] then s else RunState(Decrypt(s, cs[0].header, cs[0].ciphertext, cs[0].seed).state, cs[1..])
  }

  function RunRing(r: Ring, s: State, cs: seq<Call>): Ring
    decreases |cs|
  {
    if cs == [] then r
    else RunRing(NextRing(r, s, cs[0]), Decrypt(s, cs[0].header, cs[0].ciphertext, cs[0].seed).state, cs[1..])
  }

  /** Over any sequence of calls the store stays within the cap and equals the tail of its
      append history, oldest dropped first, less the entries that were consumed. */
  lemma {:induction false} StoreIsTail(r: Ring, s: State, cs: seq<Call>)
    requires Tracks(r, s.skippedKeys)
    ensures Tracks(RunRing(r, s, cs), RunState(s, cs).skippedKeys)
    decreases |cs|
  {
    if cs != [] {
      var c := cs[0];
      CallTracks(r, s, c);
      StoreIsTail(NextRing(r, s, c), Decrypt(s, c.header, c.ciphertext, c.seed).state, cs[1..]);
    }
  }
}
