/** The replay coordinator of apps/web/src/ws/outbox.ts. Its async functions run until their
    next await, so each method below is one such stretch: a trigger, or the continuation after
    the store answers. A ghost log records what happened; `Valid` is what every stretch keeps,
    and the lemmas after the class say what a log that satisfies it promises. */
module Replay {
  import opened Delivery
  import opened Outbox

  datatype Event =
    | Up                       // the socket is ready
    | Down                     // it no longer is
    | Trigger                  // hello_ok, or a manual replay
    | Begin                    // a pass starts
    | Listed(rows: seq<nat>)   // its snapshot of the store
    | Sent(row: nat)
    | End(why: Why)
    | Failed                   // listInOrder threw: the pass and the loop around it die

  /** Why a pass ends: it ran out of rows, the socket was not ready, a send threw, or the store did
      while it recorded an attempt. */
  datatype Why = Done | NotReady | SendThrew | RecordThrew

  /** Where the pass in flight is waiting. */
  datatype Await = Nothing | Listing | Recording(rest: seq<Entry>)

  // ---------------------------------------------------------------------------
  // Reading a log
  // ---------------------------------------------------------------------------

  ghost predicate Closes(e: Event) {
    e.End? || e.Failed?
  }

  function Last(log: seq<Event>): Event
    requires log != []
  {
    log[|log| - 1]
  }

  function Init(log: seq<Event>): seq<Event>
    requires log != []
  {
    log[..|log| - 1]
  }

  /** A pass is running at the end of the log. */
  ghost predicate Open(log: seq<Event>) {
    log != [] && (Last(log).Begin? || (!Closes(Last(log)) && Open(Init(log))))
  }

  /** A trigger has come since the last pass began. */
  ghost predicate Unanswered(log: seq<Event>) {
    log != [] && !Last(log).Begin? && (Last(log).Trigger? || Unanswered(Init(log)))
  }

  /** The socket, as the log has it. */
  ghost predicate UpIn(log: seq<Event>) {
    log != [] && !Last(log).Down? && (Last(log).Up? || UpIn(Init(log)))
  }

  /** The latest pass has its snapshot. */
  ghost predicate HasSnapshot(log: seq<Event>) {
    log != [] && !Last(log).Begin? && (Last(log).Listed? || HasSnapshot(Init(log)))
  }

  /** The snapshot of the latest pass that took one. */
  ghost function Snapshot(log: seq<Event>): seq<nat> {
    if log == [] then [] else if Last(log).Listed? then Last(log).rows else Snapshot(Init(log))
  }

  /** The rows sent from that snapshot. */
  ghost function SentSince(log: seq<Event>): seq<nat> {
    if log == [] || Last(log).Listed? then []
    else if Last(log).Sent? then SentSince(Init(log)) + [Last(log).row]
    else SentSince(Init(log))
  }

  /** The latest pass was killed by the store. */
  ghost predicate Died(log: seq<Event>) {
    log != [] && (Last(log).Failed? || (!Last(log).Begin? && Died(Init(log))))
  }

  ghost predicate Increasing(rows: seq<nat>) {
    forall i, j :: 0 <= i < j < |rows| ==> rows[i] < rows[j]
  }

  /** One pass at a time; each takes one snapshot and sends its next row while the socket is ready; and
      each ends only for the reason given. */
  ghost predicate Orderly(log: seq<Event>) {
    log != [] ==>
      && Orderly(Init(log))
      && match Last(log)
         case Up => true
         case Down => true
         case Trigger => true
         case Begin => !Open(Init(log))
         case Listed(rows) => Open(Init(log)) && !HasSnapshot(Init(log)) && Increasing(rows)
         case Sent(row) =>
           Open(Init(log)) && HasSnapshot(Init(log)) && UpIn(Init(log)) && SentSince(log) <= Snapshot(log)
         case End(why) => Open(Init(log)) && Warranted(Init(log), why)
         case Failed => Open(Init(log)) && !HasSnapshot(Init(log))
  }

  ghost predicate Warranted(log: seq<Event>, why: Why) {
    match why
    case Done => HasSnapshot(log) && SentSince(log) == Snapshot(log)
    case NotReady => !UpIn(log)
    case SendThrew => HasSnapshot(log) && UpIn(log)
    case RecordThrew => HasSnapshot(log)
  }

  lemma Snoc(log: seq<Event>, e: Event)
    ensures Last(log + [e]) == e && Init(log + [e]) == log
  {
  }

  function RowsOf(es: seq<Entry>): (rows: seq<nat>)
    ensures |rows| == |es|
  {
    seq(|es|, i requires 0 <= i < |es| => es[i].row)
  }

  lemma RowsIncrease(es: seq<Entry>, next: nat)
    requires InOrder(es, next)
    ensures Increasing(RowsOf(es))
  {
  }

  class OutboxCoordinator {
    var ready: bool
    var outbox: seq<Entry>
    var nextRow: nat
    var replayInFlight: bool
    var replayPending: bool
    var waiting: Await
    ghost var log: seq<Event>

    ghost predicate StoreValid()
      reads this
    {
      StoreOk(outbox, nextRow)
    }

    ghost predicate FlightValid()
      reads this
    {
      && Orderly(log)
      && ready == UpIn(log)
      && replayInFlight == Open(log)
      && replayPending == Unanswered(log)
      && (!replayInFlight && replayPending ==> Died(log))
    }

    ghost predicate Valid()
      reads this
    {
      && StoreValid() && FlightValid()
      && replayInFlight == !waiting.Nothing?
      && (waiting.Listing? ==> !HasSnapshot(log))
      && (waiting.Recording? ==> HasSnapshot(log) && Snapshot(log) == SentSince(log) + RowsOf(waiting.rest))
    }

    constructor ()
      ensures Valid() && log == [] && outbox == [] && nextRow == 0
      ensures !ready && !replayInFlight && !replayPending && waiting == Nothing
    {
      ready, outbox, nextRow, replayInFlight, replayPending, waiting := false, [], 0, false, false, Nothing;
      log := [];
    }

    ghost method Record(e: Event)
      modifies this`log
      ensures log == old(log) + [e] && Last(log) == e && Init(log) == old(log)
    {
      log := log + [e];
    }

    /** The socket becomes ready or drops; nothing else notices until the next check. */
    method SetReady(isReady: bool)
      requires Valid()
      modifies this`ready, this`log
      ensures Valid() && ready == isReady && log == old(log) + [if isReady then Up else Down]
    {
      ready := isReady;
      Record(if isReady then Up else Down);
    }

    /** Drops every row more than seven days old. */
    method SweepAged(now: int)
      requires Valid()
      modifies this`outbox
      ensures Valid() && outbox == Unaged(old(outbox), now)
    {
      var all, kept: seq<Entry> := outbox, [];
      for i := 0 to |all|
        invariant kept == Unaged(all[..i], now)
      {
        assert all[..i + 1][..i] == all[..i] && all[..i + 1][i..] == [all[i]];
        assert [all[i]][1..] == [];
        UnagedSplit(all[..i + 1], now, i);
        if !Aged(all[i], now) {
          kept := kept + [all[i]];
        }
      }
      assert all[..|all|] == all;
      UnagedOk(all, now, nextRow);
      outbox := kept;
    }

    /** Makes room for one row, oldest first. */
    method SweepCapacity()
      requires Valid()
      modifies this`outbox
      ensures Valid() && outbox == Newest(old(outbox))
    {
      ghost var k := 0;
      while |outbox| >= MAX_ENTRIES
        invariant 0 <= k <= |old(outbox)| && outbox == old(outbox)[k..] && (k > 0 ==> |outbox| >= MAX_ENTRIES - 1)
        invariant StoreOk(outbox, nextRow)
        decreases |outbox|
      {
        outbox := outbox[1..];
        k := k + 1;
      }
    }

    /** A nonce already in the store keeps its row; a new one is added after both sweeps. */
    method Enqueue(nonce: nat, envelope: Envelope, at: int, now: int)
      requires Valid()
      modifies this`outbox, this`nextRow
      ensures Valid()
      ensures var c := Stored(Client(old(outbox), old(nextRow), ready, Idle), nonce, envelope, at, now);
        outbox == c.outbox && nextRow == c.nextRow
    {
      hide Newest, Unaged, InOrder, OneEach, Open, Unanswered, Orderly;
      for i := 0 to |outbox|
        invariant forall k :: 0 <= k < i ==> outbox[k].nonce != nonce
      {
        if outbox[i].nonce == nonce {
          return;
        }
      }
      StoredOk(Client(outbox, nextRow, ready, Idle), nonce, envelope, at, now);
      SweepAged(now);
      SweepCapacity();
      outbox := outbox + [Entry(nextRow, nonce, envelope, at)];
      nextRow := nextRow + 1;
    }

    /** The do-while of #kickReplay from the end of a pass on: another pass if one was asked for. */
    method FinishPass(ghost why: Why)
      requires StoreValid() && FlightValid() && replayInFlight && Warranted(log, why)
      modifies this`replayInFlight, this`replayPending, this`waiting, this`log
      ensures Valid()
      ensures old(replayPending) && ready ==> waiting.Listing? && log == old(log) + [End(why)] + [Begin]
      ensures old(replayPending) && !ready ==>
        !replayInFlight && log == old(log) + [End(why)] + [Begin] + [End(NotReady)]
      ensures !old(replayPending) ==> !replayInFlight && log == old(log) + [End(why)]
      ensures !replayInFlight ==> !replayPending
    {
      Record(End(why));
      while replayPending
        invariant StoreValid() && Orderly(log) && !Open(log) && replayPending == Unanswered(log) && replayInFlight
        invariant ready == UpIn(log)
        invariant if replayPending == old(replayPending) then log == old(log) + [End(why)]
                  else !replayPending && !ready && log == old(log) + [End(why)] + [Begin] + [End(NotReady)]
        decreases replayPending
      {
        replayPending := false;
        Record(Begin);
        if ready {
          waiting := Listing;
          return;
        }
        Record(End(NotReady));
      }
      replayInFlight := false;
      waiting := Nothing;
    }

    /** One trigger: remembered if a pass is running, otherwise it starts one. */
    method KickReplay()
      requires Valid()
      modifies this`replayInFlight, this`replayPending, this`waiting, this`log
      ensures Valid()
      ensures old(replayInFlight) ==>
        replayInFlight && replayPending && waiting == old(waiting) && log == old(log) + [Trigger]
      ensures !old(replayInFlight) ==> !replayPending && replayInFlight == ready
      ensures !old(replayInFlight) && ready ==> waiting.Listing? && log == old(log) + [Trigger] + [Begin]
      ensures !old(replayInFlight) && !ready ==> log == old(log) + [Trigger] + [Begin] + [End(NotReady)]
    {
      Record(Trigger);
      if replayInFlight {
        replayPending := true;
        return;
      }
      replayInFlight := true;
      replayPending := false;
      Record(Begin);
      if ready {
        waiting := Listing;
      } else {
        FinishPass(NotReady);
      }
    }

    /** The for loop of #runReplay up to its next await. */
    method SendFrom(rest: seq<Entry>, sendOk: bool)
      requires StoreValid() && FlightValid() && replayInFlight
      requires HasSnapshot(log) && Snapshot(log) == SentSince(log) + RowsOf(rest)
      modifies this`replayInFlight, this`replayPending, this`waiting, this`log
      ensures Valid()
      ensures rest != [] && ready && sendOk ==>
        && log == old(log) + [Sent(rest[0].row)] && waiting == Recording(rest[1..])
        && replayPending == old(replayPending)
      ensures rest == [] ==> old(log) + [End(Done)] <= log
      ensures rest != [] && !ready ==> old(log) + [End(NotReady)] <= log
      ensures rest != [] && ready && !sendOk ==> old(log) + [End(SendThrew)] <= log
      ensures rest == [] && !old(replayPending) ==> !replayInFlight && log == old(log) + [End(Done)]
    {
      hide InOrder, OneEach, Increasing, Died;
      if rest == [] {
        FinishPass(Done);
      } else if !ready {
        FinishPass(NotReady);
      } else if !sendOk {
        FinishPass(SendThrew);
      } else {
        Record(Sent(rest[0].row));
        waiting := Recording(rest[1..]);
        assert RowsOf(rest) == [rest[0].row] + RowsOf(rest[1..]);
      }
    }

    /** listInOrder answers: the pass takes the whole store as its snapshot and sends its first row, or
        ends for one of three reasons. */
    method OnListed(sendOk: bool)
      requires Valid() && waiting.Listing?
      modifies this`replayInFlight, this`replayPending, this`waiting, this`log
      ensures Valid()
      ensures outbox != [] && ready && sendOk ==>
        && log == old(log) + [Listed(RowsOf(outbox))] + [Sent(outbox[0].row)] && waiting == Recording(outbox[1..])
        && replayPending == old(replayPending)
      ensures outbox == [] ==> old(log) + [Listed([])] + [End(Done)] <= log
      ensures outbox != [] && !ready ==> old(log) + [Listed(RowsOf(outbox))] + [End(NotReady)] <= log
      ensures outbox != [] && ready && !sendOk ==> old(log) + [Listed(RowsOf(outbox))] + [End(SendThrew)] <= log
      ensures outbox == [] && !old(replayPending) ==> !replayInFlight && log == old(log) + [Listed([])] + [End(Done)]
    {
      hide InOrder, OneEach, Increasing;
      RowsIncrease(outbox, nextRow);
      Record(Listed(RowsOf(outbox)));
      SendFrom(outbox, sendOk);
    }

    /** listInOrder throws: the flag is lowered; a trigger remembered by then stays remembered and
        nothing answers it. */
    method OnListFailed()
      requires Valid() && waiting.Listing?
      modifies this`replayInFlight, this`waiting, this`log
      ensures Valid() && !replayInFlight && log == old(log) + [Failed] && replayPending == old(replayPending)
    {
      Record(Failed);
      replayInFlight := false;
      waiting := Nothing;
    }

    /** recordReplayAttempt answers or throws; a throw ends the pass. */
    method OnRecorded(ok: bool, sendOk: bool)
      requires Valid() && waiting.Recording?
      modifies this`replayInFlight, this`replayPending, this`waiting, this`log
      ensures Valid()
      ensures var rest := old(waiting).rest;
        && (!ok ==> old(log) + [End(RecordThrew)] <= log)
        && (ok && rest != [] && ready && sendOk ==>
              && log == old(log) + [Sent(rest[0].row)] && waiting == Recording(rest[1..])
              && replayPending == old(replayPending))
        && (ok && rest == [] ==> old(log) + [End(Done)] <= log)
        && (ok && rest != [] && !ready ==> old(log) + [End(NotReady)] <= log)
        && (ok && rest != [] && ready && !sendOk ==> old(log) + [End(SendThrew)] <= log)
        && (ok && rest == [] && !old(replayPending) ==> !replayInFlight && log == old(log) + [End(Done)])
    {
      if ok {
        SendFrom(waiting.rest, sendOk);
      } else {
        FinishPass(RecordThrew);
      }
    }

    /** ENVELOPE_QUEUED: the row goes. */
    method HandleQueued(nonce: nat)
      requires Valid()
      modifies this`outbox
      ensures Valid()
      ensures forall e :: e in outbox <==> e in old(outbox) && e.nonce != nonce
    {
      var kept: seq<Entry> := [];
      for i := 0 to |outbox|
        invariant forall e :: e in kept <==> e in outbox[..i] && e.nonce != nonce
        invariant InOrder(kept, nextRow) && |kept| <= i
      {
        if outbox[i].nonce != nonce {
          forall k | 0 <= k < |kept| ensures kept[k].row < outbox[i].row {
            assert kept[k] in outbox[..i];
          }
          kept := kept + [outbox[i]];
        }
      }
      outbox := kept;
    }
  }

  // ---------------------------------------------------------------------------
  // What an orderly log promises
  // ---------------------------------------------------------------------------

  lemma {:induction false} OrderlyPrefix(log: seq<Event>, n: nat)
    requires Orderly(log) && n <= |log|
    ensures Orderly(log[..n])
  {
    if n < |log| {
      OrderlyPrefix(Init(log), n);
      assert Init(log)[..n] == log[..n];
    } else {
      assert log[..n] == log;
    }
  }

  /** Open means exactly that the last pass to begin has not been closed. */
  lemma {:induction false} OpenExactly(log: seq<Event>)
    ensures Open(log) <==> exists i :: 0 <= i < |log| && log[i].Begin? && forall k :: i < k < |log| ==> !Closes(log[k])
  {
    if log != [] {
      OpenExactly(Init(log));
      var last := |log| - 1;
      if Last(log).Begin? {
        assert log[last].Begin?;
      } else if Open(log) {
        var i :| 0 <= i < |Init(log)| && Init(log)[i].Begin? &&
                 forall k :: i < k < |Init(log)| ==> !Closes(Init(log)[k]);
        assert log[i].Begin?;
        forall k | i < k < |log| ensures !Closes(log[k]) {
          if k < last {
            assert Init(log)[k] == log[k];
          }
        }
      }
      if exists i :: 0 <= i < last && log[i].Begin? && forall k :: i < k < |log| ==> !Closes(log[k]) {
        var i :| 0 <= i < last && log[i].Begin? && forall k :: i < k < |log| ==> !Closes(log[k]);
        assert Init(log)[i].Begin?;
        forall k | i < k < last ensures !Closes(Init(log)[k]) {
          assert Init(log)[k] == log[k];
        }
      }
    }
  }

  /** Passes never overlap: between two that begin, the first has closed. */
  lemma PassesDisjoint(log: seq<Event>, i: nat, j: nat)
    requires Orderly(log) && i < j < |log| && log[i].Begin? && log[j].Begin?
    ensures exists k :: i < k < j && Closes(log[k])
  {
    OrderlyPrefix(log, j + 1);
    var before := log[..j];
    assert Init(log[..j + 1]) == before && Last(log[..j + 1]) == log[j];
    OpenExactly(before);
    assert before[i].Begin?;
    var k :| i < k < |before| && Closes(before[k]);
    assert Closes(log[k]);
  }

  /** At every moment what the latest snapshot has sent is a prefix of it, oldest row first. */
  lemma {:induction false} SendsPrefix(log: seq<Event>)
    requires Orderly(log)
    ensures SentSince(log) <= Snapshot(log) && Increasing(SentSince(log))
  {
    if log != [] {
      SendsPrefix(Init(log));
    }
    SnapshotIncreasing(log);
  }

  lemma {:induction false} SnapshotIncreasing(log: seq<Event>)
    requires Orderly(log)
    ensures Increasing(Snapshot(log))
  {
    if log != [] {
      SnapshotIncreasing(Init(log));
    }
  }

  /** The rows that a stretch of a log sends. */
  function SentRows(events: seq<Event>): seq<nat> {
    if events == [] then []
    else SentRows(Init(events)) + if Last(events).Sent? then [Last(events).row] else []
  }

  /** The snapshot in force is the last one taken, and no pass has begun since. */
  lemma {:induction false} LastListed(log: seq<Event>) returns (k: nat)
    requires HasSnapshot(log)
    ensures k < |log| && log[k] == Listed(Snapshot(log)) && SentSince(log) == SentRows(log[k + 1..])
    ensures forall m :: k < m < |log| ==> !log[m].Begin? && !log[m].Listed?
  {
    if Last(log).Listed? {
      k := |log| - 1;
    } else {
      k := LastListed(Init(log));
      var tail := log[k + 1..];
      assert Last(tail) == Last(log) && Init(tail) == Init(log)[k + 1..];
      forall m | k < m < |log| ensures !log[m].Begin? && !log[m].Listed? {
        assert m < |Init(log)| ==> log[m] == Init(log)[m];
      }
    }
  }

  lemma {:induction false} UpExactly(log: seq<Event>)
    ensures UpIn(log) <==> exists i :: 0 <= i < |log| && log[i].Up? && forall k :: i < k < |log| ==> !log[k].Down?
  {
    if log != [] {
      UpExactly(Init(log));
      var last := |log| - 1;
      if Last(log).Up? {
        assert log[last].Up?;
      } else if UpIn(log) {
        var i :| 0 <= i < |Init(log)| && Init(log)[i].Up? && forall k :: i < k < |Init(log)| ==> !Init(log)[k].Down?;
        assert log[i].Up?;
        forall k | i < k < |log| ensures !log[k].Down? {
          assert k < last ==> Init(log)[k] == log[k];
        }
      }
      if exists i :: 0 <= i < last && log[i].Up? && forall k :: i < k < |log| ==> !log[k].Down? {
        var i :| 0 <= i < last && log[i].Up? && forall k :: i < k < |log| ==> !log[k].Down?;
        assert Init(log)[i].Up?;
        forall k | i < k < last ensures !Init(log)[k].Down? {
          assert Init(log)[k] == log[k];
        }
      }
    }
  }

  /** A pass that ends with nothing amiss has sent every row of its snapshot, each once and in order;
      and one that blames the socket ends while the socket is down. */
  lemma EndsForItsReason(log: seq<Event>, j: nat) returns (k: nat)
    requires Orderly(log) && j < |log| && log[j].End?
    ensures log[j].why == Done ==>
      && k < j && log[k].Listed? && SentRows(log[k + 1..j]) == log[k].rows
      && forall m :: k < m < j ==> !log[m].Begin? && !log[m].Listed?
    ensures log[j].why == NotReady ==>
      forall i :: 0 <= i < j && log[i].Up? ==> exists m :: i < m < j && log[m].Down?
  {
    OrderlyPrefix(log, j + 1);
    var before := log[..j];
    assert Init(log[..j + 1]) == before && Last(log[..j + 1]) == log[j];
    k := 0;
    if log[j].why == Done {
      k := LastListed(before);
      assert before[k + 1..] == log[k + 1..j];
      forall m | k < m < j ensures !log[m].Begin? && !log[m].Listed? {
        assert before[m] == log[m];
      }
    } else if log[j].why == NotReady {
      UpExactly(before);
      forall i | 0 <= i < j && log[i].Up? ensures exists m :: i < m < j && log[m].Down? {
        assert before[i].Up?;
        var m :| i < m < |before| && before[m].Down?;
        assert log[m].Down?;
      }
    }
  }

  lemma {:induction false} UnansweredExactly(log: seq<Event>)
    ensures Unanswered(log) <==>
      exists i :: 0 <= i < |log| && log[i].Trigger? && forall k :: i < k < |log| ==> !log[k].Begin?
  {
    if log != [] {
      UnansweredExactly(Init(log));
      var last := |log| - 1;
      if Last(log).Trigger? {
        assert log[last].Trigger?;
      } else if Unanswered(log) {
        var i :| 0 <= i < |Init(log)| && Init(log)[i].Trigger? &&
                 forall k :: i < k < |Init(log)| ==> !Init(log)[k].Begin?;
        assert log[i].Trigger?;
        forall k | i < k < |log| ensures !log[k].Begin? {
          if k < last {
            assert Init(log)[k] == log[k];
          }
        }
      }
      if exists i :: 0 <= i < last && log[i].Trigger? && forall k :: i < k < |log| ==> !log[k].Begin? {
        var i :| 0 <= i < last && log[i].Trigger? && forall k :: i < k < |log| ==> !log[k].Begin?;
        assert Init(log)[i].Trigger?;
        forall k | i < k < last ensures !Init(log)[k].Begin? {
          assert Init(log)[k] == log[k];
        }
      }
    }
  }

  /** At rest every trigger has been followed by a pass begun after it if and only if none is still
      remembered; and one is still remembered only if the store killed the latest pass. */
  lemma TriggersAnswered(c: OutboxCoordinator)
    requires c.Valid() && !c.replayInFlight
    ensures !c.replayPending <==>
      forall i :: 0 <= i < |c.log| && c.log[i].Trigger? ==> exists k :: i < k < |c.log| && c.log[k].Begin?
    ensures c.replayPending ==> Died(c.log)
  {
    UnansweredExactly(c.log);
  }

  /** The exception is real: a trigger during a pass whose snapshot fails is forgotten. */
  method ForgottenTrigger() returns (c: OutboxCoordinator)
    ensures c.Valid() && !c.replayInFlight && c.replayPending && c.ready
    ensures c.log == [Up, Trigger, Begin, Trigger, Failed]
  {
    c := new OutboxCoordinator();
    c.SetReady(true);
    c.KickReplay();
    c.KickReplay();
    c.OnListFailed();
  }

  function SentOf(es: seq<Entry>): seq<Event> {
    if es == [] then [] else [Sent(es[0].row)] + SentOf(es[1..])
  }

  /** While the socket stays up and nothing throws, a pass sends its whole snapshot. */
  method RunPass(c: OutboxCoordinator)
    requires c.Valid() && c.waiting.Listing? && c.ready && !c.replayPending
    modifies c
    ensures c.Valid() && !c.replayInFlight && c.outbox == old(c.outbox)
    ensures c.log == old(c.log) + [Listed(RowsOf(c.outbox))] + SentOf(c.outbox) + [End(Done)]
  {
    ghost var start := c.log + [Listed(RowsOf(c.outbox))];
    var all := c.outbox;
    c.OnListed(true);
    if all == [] {
      return;
    }
    var i := 1;
    assert SentOf(all[..1]) == [Sent(all[0].row)];
    while i < |all|
      invariant 1 <= i <= |all| && c.Valid() && c.ready && !c.replayPending && c.outbox == all
      invariant c.waiting == Recording(all[i..]) && c.log == start + SentOf(all[..i])
    {
      SentSnoc(all, i);
      c.OnRecorded(true, true);
      i := i + 1;
    }
    assert all[..|all|] == all;
    c.OnRecorded(true, true);
  }

  lemma {:induction false} SentSnoc(es: seq<Entry>, i: nat)
    requires i < |es|
    ensures SentOf(es[..i + 1]) == SentOf(es[..i]) + [Sent(es[i].row)]
  {
    if i > 0 {
      SentSnoc(es[1..], i - 1);
      assert es[1..][..i] == es[..i + 1][1..] && es[1..][..i - 1] == es[..i][1..];
    }
  }
}
