/** From the sender's outbox to the recipient's socket: what `Delivery` promises of the table and what
    `Inbox` promises of a connection, joined on the rows. */
module Journey {
  import opened Delivery
  import opened Outbox
  import Inbox

  /** The row of the connection's table with this id and recipient. */
  ghost predicate InTable(table: seq<Inbox.Row>, id: nat, recipient: nat) {
    exists r :: r in table && r.id == id && r.recipient == recipient
  }

  /** No row of w has been deleted, and what w published has gone out. */
  ghost predicate Carries(c: Inbox.InboxConnection, w: World)
    reads c
  {
    && (forall k :: k in w.rows ==> InTable(c.table, w.rows[k].id, w.rows[k].envelope.recipient))
    && (forall i :: 0 <= i < |w.published| ==> w.published[i].id in c.announced)
  }

  ghost predicate Forwarded(c: Inbox.InboxConnection, id: nat)
    reads c
  {
    exists i :: 0 <= i < |c.sent| && c.sent[i].id == id
  }

  /** The row is marked delivered, or this connection has forwarded it. */
  ghost predicate Arrived(c: Inbox.InboxConnection, id: nat)
    reads c
  {
    (exists r :: r in c.table && r.id == id && r.delivered) || Forwarded(c, id)
  }

  /** A row of w arrives with any connection of its recipient that is live with no query failed or
      outstanding, if it was there before the SELECT or was announced. */
  lemma RowArrives(w: World, k: Key, c: Inbox.InboxConnection)
    requires k in w.rows && w.rows[k].envelope.recipient == c.device && Carries(c, w)
    requires c.Valid() && c.phase.Live? && !c.selectFailed && c.hydrating == {} && c.dropped == {}
    requires w.rows[k].id < c.selectedBelow || WasPublished(w, w.rows[k].id)
    ensures Arrived(c, w.rows[k].id)
  {
    var id := w.rows[k].id;
    assert InTable(c.table, id, c.device);
    var r :| r in c.table && r.id == id && r.recipient == c.device;
    if !r.delivered {
      if WasPublished(w, id) {
        var i :| 0 <= i < |w.published| && w.published[i].id == id;
      }
      Inbox.InboxComplete(c, r);
    }
  }

  /** From one end to the other, over every interleaving: at the recipient's next attach an enqueued
      envelope whose nonce was used for no other has arrived, or is still in its sender's outbox,
      or was swept there for its age or for a thousand rows added from it on. */
  lemma EnvelopeArrives(steps: seq<Step>, f: Frame, c: Inbox.InboxConnection)
    requires Feasible(START, steps) && f in After(START, steps).enqueued
    requires !Contested(After(START, steps), f)
    requires Carries(c, After(START, steps)) && After(START, steps).nextId <= c.selectedBelow
    requires c.Valid() && c.phase.Live? && !c.selectFailed && c.hydrating == {} && c.dropped == {}
    requires c.device == f.envelope.recipient
    ensures var w := After(START, steps);
      || (HasRow(w, f) && Arrived(c, w.rows[KeyOf(f)].id))
      || InOutbox(w, f)
      || exists d :: d in w.drops && FrameOf(d.device, d.entry) == f &&
           (d.entry.at < d.now - 604_800_000 || d.entry.row + 1000 <= d.next)
  {
    hide Feasible, After;
    var w := After(START, steps);
    NothingEnqueuedLost(steps, f);
    if HasRow(w, f) {
      RunKeepsInv(START, steps);
      assert w.rows[KeyOf(f)].id < w.nextId;
      RowArrives(w, KeyOf(f), c);
    }
  }

  /** Such an attach: subscribe, list, seed, on a table that holds the rows of w. */
  method Attach(device: nat, table: seq<Inbox.Row>, ghost w: World, nextId: nat) returns (c: Inbox.InboxConnection)
    requires Inbox.UniqueIds(table) && (forall r :: r in table ==> r.id < nextId) && nextId == w.nextId
    requires forall k :: k in w.rows ==>
      w.rows[k].id < w.nextId && InTable(table, w.rows[k].id, w.rows[k].envelope.recipient)
    ensures fresh(c) && c.Valid() && c.device == device && c.table == table
    ensures c.phase.Live? && !c.selectFailed && c.hydrating == {} && c.dropped == {} && c.selectedBelow == w.nextId
    ensures forall k :: k in w.rows && w.rows[k].envelope.recipient == device ==> Arrived(c, w.rows[k].id)
  {
    c := new Inbox.InboxConnection.On(device, table, nextId);
    c.SubscribeDone();
    c.OnSelected(true);
    c.Seed();
    forall k | k in w.rows && w.rows[k].envelope.recipient == device ensures Arrived(c, w.rows[k].id) {
      RowArrives(w.(published := []), k, c);
    }
  }
}
