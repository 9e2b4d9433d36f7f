/** At-least-once delivery of envelopes from a client's outbox to the server's table: the
    steps of outbox.ts, client.ts and gateway.ts interleaved in any order, with crashes,
    disconnects, failed queries and failed publishes. A frame or a reply may be lost, late or
    repeated; a handler may be overtaken by another between any two of its awaits. */
module Delivery {
  import opened Outbox

  /** What a device hands to its outbox, and what it puts on the wire. */
  datatype Frame = Frame(device: nat, nonce: nat, envelope: Envelope)

  /** A client: its persistent outbox, and whether the socket is ready and what is left of the
      snapshot a replay pass in flight is sending. */
  datatype Client = Client(outbox: seq<Entry>, nextRow: nat, ready: bool, pass: Pass)

  datatype Pass = Idle | Sending(rest: seq<Entry>)

  /** An entry a sweep dropped, when, and the number of the next row at that moment. */
  datatype Drop = Drop(device: nat, entry: Entry, now: int, next: nat)

  datatype Key = Key(sender: nat, nonce: nat)

  datatype Row = Row(id: nat, envelope: Envelope)

  /** Where a SEND_ENVELOPE handler is between its awaits. */
  datatype Phase = Arrived | Conflicted | Persisted(id: nat) | Announced(id: nat)

  datatype Handler = Handler(frame: Frame, phase: Phase)

  datatype Code = InvalidPayload | RateLimited | Internal

  datatype Reply = Queued(device: nat, nonce: nat, id: nat) | Error(device: nat, code: Code)

  datatype Publish = Publish(channel: nat, id: nat)

  datatype World = World(
    clients: map<nat, Client>,
    enqueued: set<Frame>,
    resolved: set<Frame>,
    drops: set<Drop>,
    sent: set<Frame>,
    rows: map<Key, Row>,
    nextId: nat,
    handlers: map<nat, Handler>,
    nextHandler: nat,
    published: seq<Publish>,
    replies: set<Reply>)

  datatype Step =
    | Enqueue(frame: Frame, at: int, now: int)
    | SendResolved(frame: Frame)
    | Connect(device: nat)
    | Disconnect(device: nat)
    | BeginPass(device: nat)
    | SendNext(device: nat)
    | EndPass(device: nat)
    | Reload(device: nat)
    | Receive(frame: Frame, admitted: bool)
    | Insert(handler: nat)
    | InsertFails(handler: nat, committed: bool)
    | Lookup(handler: nat, found: bool)
    | Announce(handler: nat, published: bool)
    | Confirm(handler: nat)
    | ServerCrash
    | Acknowledge(reply: Reply)

  const NEW_CLIENT := Client([], 0, false, Idle)

  function ClientOf(w: World, d: nat): Client {
    if d in w.clients then w.clients[d] else NEW_CLIENT
  }

  function FrameOf(d: nat, e: Entry): Frame {
    Frame(d, e.nonce, e.envelope)
  }

  function KeyOf(f: Frame): Key {
    Key(f.envelope.sender, f.nonce)
  }

  // ---------------------------------------------------------------------------
  // The client's steps
  // ---------------------------------------------------------------------------

  /** The outbox table's enqueue: a nonce already there keeps its row, and nothing is swept. */
  function Stored(c: Client, nonce: nat, envelope: Envelope, at: int, now: int): Client {
    if HasNonce(c.outbox, nonce) then c
    else c.(outbox := Swept(c.outbox, now) + [Entry(c.nextRow, nonce, envelope, at)], nextRow := c.nextRow + 1)
  }

  function Dropped(d: nat, before: Client, kept: Client, now: int): set<Drop> {
    set e | e in before.outbox && e !in kept.outbox :: Drop(d, e, now, before.nextRow)
  }

  function SetClient(w: World, d: nat, c: Client): World {
    w.(clients := w.clients[d := c])
  }

  /** Only the store changes here; the frame goes out in a later step, if the socket is ready. */
  function AfterEnqueue(w: World, f: Frame, at: int, now: int): World {
    var c := Stored(ClientOf(w, f.device), f.nonce, f.envelope, at, now);
    SetClient(w, f.device, c).(
      enqueued := w.enqueued + {f},
      drops := w.drops + Dropped(f.device, ClientOf(w, f.device), c, now),
      resolved := if HasNonce(c.outbox, f.nonce) then w.resolved + {FrameOf(f.device, Resolved(c.outbox, f.nonce))}
                  else w.resolved)
  }

  // ---------------------------------------------------------------------------
  // The gateway's steps
  // ---------------------------------------------------------------------------

  function Respond(w: World, r: Reply): World {
    w.(replies := w.replies + {r})
  }

  function Finish(w: World, k: nat): World {
    w.(handlers := w.handlers - {k})
  }

  function Advance(w: World, k: nat, p: Phase): World
    requires k in w.handlers
  {
    w.(handlers := w.handlers[k := w.handlers[k].(phase := p)])
  }

  /** Sender check, then rate limit; only an admitted frame starts a handler. */
  function AfterReceive(w: World, f: Frame, admitted: bool): World {
    if f.envelope.sender != f.device then Respond(w, Error(f.device, InvalidPayload))
    else if !admitted then Respond(w, Error(f.device, RateLimited))
    else w.(handlers := w.handlers[w.nextHandler := Handler(f, Arrived)], nextHandler := w.nextHandler + 1)
  }

  /** The table after INSERT ... ON CONFLICT DO NOTHING. */
  function Inserted(w: World, f: Frame): World {
    if KeyOf(f) in w.rows then w
    else w.(rows := w.rows[KeyOf(f) := Row(w.nextId, f.envelope)], nextId := w.nextId + 1)
  }

  function AfterInsert(w: World, k: nat): World
    requires k in w.handlers
  {
    var f := w.handlers[k].frame;
    Advance(Inserted(w, f), k, if KeyOf(f) in w.rows then Conflicted else Persisted(w.nextId))
  }

  predicate Enabled(w: World, s: Step) {
    match s
    case Enqueue(_, _, _) => true
    case SendResolved(f) => f in w.resolved && ClientOf(w, f.device).ready
    case Connect(d) => true
    case Disconnect(d) => true
    case BeginPass(d) => ClientOf(w, d).ready && ClientOf(w, d).pass.Idle?
    case SendNext(d) => ClientOf(w, d).ready && ClientOf(w, d).pass.Sending? && ClientOf(w, d).pass.rest != []
    case EndPass(d) => ClientOf(w, d).pass.Sending?
    case Reload(d) => true
    case Receive(f, _) => f in w.sent
    case Insert(k) => k in w.handlers && w.handlers[k].phase.Arrived?
    case InsertFails(k, _) => k in w.handlers && w.handlers[k].phase.Arrived?
    case Lookup(k, found) =>
      k in w.handlers && w.handlers[k].phase.Conflicted? && (found ==> KeyOf(w.handlers[k].frame) in w.rows)
    case Announce(k, _) => k in w.handlers && w.handlers[k].phase.Persisted?
    case Confirm(k) => k in w.handlers && w.handlers[k].phase.Announced?
    case ServerCrash => true
    case Acknowledge(r) => r in w.replies && r.Queued?
  }

  function Next(w: World, s: Step): World
    requires Enabled(w, s)
  {
    match s
    case Enqueue(f, at, now) => AfterEnqueue(w, f, at, now)
    case SendResolved(f) => w.(sent := w.sent + {f})
    case Connect(d) => SetClient(w, d, ClientOf(w, d).(ready := true))
    case Disconnect(d) => SetClient(w, d, ClientOf(w, d).(ready := false))
    case BeginPass(d) => SetClient(w, d, ClientOf(w, d).(pass := Sending(ClientOf(w, d).outbox)))
    case SendNext(d) =>
      var c := ClientOf(w, d);
      SetClient(w, d, c.(pass := Sending(c.pass.rest[1..]))).(sent := w.sent + {FrameOf(d, c.pass.rest[0])})
    case EndPass(d) => SetClient(w, d, ClientOf(w, d).(pass := Idle))
    case Reload(d) => SetClient(w, d, ClientOf(w, d).(ready := false, pass := Idle))
    case Receive(f, admitted) => AfterReceive(w, f, admitted)
    case Insert(k) => AfterInsert(w, k)
    case InsertFails(k, committed) =>
      var f := w.handlers[k].frame;
      Respond(Finish(if committed then Inserted(w, f) else w, k), Error(f.device, Internal))
    case Lookup(k, found) =>
      var f := w.handlers[k].frame;
      Respond(Finish(w, k), if found then Queued(f.device, f.nonce, w.rows[KeyOf(f)].id)
                            else Error(f.device, Internal))
    case Announce(k, published) =>
      var f, id := w.handlers[k].frame, w.handlers[k].phase.id;
      var told := if published then w.(published := w.published + [Publish(f.envelope.recipient, id)]) else w;
      Advance(told, k, Announced(id))
    case Confirm(k) =>
      var f := w.handlers[k].frame;
      Respond(Finish(w, k), Queued(f.device, f.nonce, w.handlers[k].phase.id))
    case ServerCrash => w.(handlers := map[])
    case Acknowledge(r) =>
      var c := ClientOf(w, r.device);
      SetClient(w, r.device, c.(outbox := WithoutNonce(c.outbox, r.nonce)))
  }

  // ---------------------------------------------------------------------------
  // The invariant
  // ---------------------------------------------------------------------------

  /** What is stored, waiting or on the wire was enqueued on that device. */
  ghost predicate Sourced(w: World) {
    && w.resolved <= w.enqueued
    && w.sent <= w.enqueued
    && (forall d, e :: e in ClientOf(w, d).outbox ==> FrameOf(d, e) in w.enqueued)
    && (forall d, e :: ClientOf(w, d).pass.Sending? && e in ClientOf(w, d).pass.rest ==> FrameOf(d, e) in w.enqueued)
  }

  ghost predicate StoresOk(w: World) {
    forall d :: StoreOk(ClientOf(w, d).outbox, ClientOf(w, d).nextRow)
  }

  /** What was dropped was too old or overtaken by a thousand rows. */
  ghost predicate DropsOk(w: World) {
    forall d :: d in w.drops ==>
      && FrameOf(d.device, d.entry) in w.enqueued
      && (Aged(d.entry, d.now) || d.entry.row + MAX_ENTRIES <= d.next)
  }

  /** Every row holds an envelope its own sender enqueued, under an id of its own. */
  ghost predicate RowsOk(w: World) {
    && (forall k :: k in w.rows ==>
          w.rows[k].id < w.nextId && w.rows[k].envelope.sender == k.sender &&
          Frame(k.sender, k.nonce, w.rows[k].envelope) in w.enqueued)
    && (forall k, l :: k in w.rows && l in w.rows && w.rows[k].id == w.rows[l].id ==> k == l)
  }

  ghost predicate HandlerOk(w: World, k: nat)
    requires k in w.handlers
  {
    var f, p := w.handlers[k].frame, w.handlers[k].phase;
    && k < w.nextHandler
    && f in w.enqueued && f.device == f.envelope.sender
    && (p.Persisted? || p.Announced? ==> KeyOf(f) in w.rows && w.rows[KeyOf(f)] == Row(p.id, f.envelope))
    && (p.Persisted? ==> !WasPublished(w, p.id))
  }

  ghost predicate WasPublished(w: World, id: nat) {
    exists i :: 0 <= i < |w.published| && w.published[i].id == id
  }

  /** At most one handler stands between a row and its announcement. */
  ghost predicate HandlersOk(w: World) {
    && (forall k :: k in w.handlers ==> HandlerOk(w, k))
    && (forall k, l :: k in w.handlers && l in w.handlers && k != l && w.handlers[k].phase.Persisted? ==>
          w.handlers[k].phase != w.handlers[l].phase)
  }

  ghost predicate RowOn(w: World, p: Publish) {
    exists k :: k in w.rows && w.rows[k].id == p.id && w.rows[k].envelope.recipient == p.channel
  }

  ghost predicate PublishedOk(w: World) {
    && (forall i :: 0 <= i < |w.published| ==> RowOn(w, w.published[i]))
    && (forall i, j :: 0 <= i < |w.published| && 0 <= j < |w.published| && w.published[i].id == w.published[j].id ==>
          i == j)
  }

  ghost predicate RepliesOk(w: World) {
    forall r :: r in w.replies && r.Queued? ==>
      Key(r.device, r.nonce) in w.rows && w.rows[Key(r.device, r.nonce)].id == r.id
  }

  ghost predicate InOutbox(w: World, f: Frame) {
    exists e :: e in ClientOf(w, f.device).outbox && e.nonce == f.nonce && e.envelope == f.envelope
  }

  ghost predicate HasRow(w: World, f: Frame) {
    KeyOf(f) in w.rows && w.rows[KeyOf(f)].envelope == f.envelope
  }

  /** Another envelope was enqueued under the same nonce on the same device. */
  ghost predicate Contested(w: World, f: Frame) {
    exists g :: g in w.enqueued && g.device == f.device && g.nonce == f.nonce && g.envelope != f.envelope
  }

  ghost predicate WasDropped(w: World, f: Frame) {
    exists d :: d in w.drops && FrameOf(d.device, d.entry) == f
  }

  ghost predicate NothingLost(w: World) {
    forall f :: f in w.enqueued ==> InOutbox(w, f) || HasRow(w, f) || Contested(w, f) || WasDropped(w, f)
  }

  ghost predicate Inv(w: World) {
    && Sourced(w) && StoresOk(w) && DropsOk(w) && RowsOk(w)
    && HandlersOk(w) && PublishedOk(w) && RepliesOk(w) && NothingLost(w)
  }

  // ---------------------------------------------------------------------------
  // Every step keeps it
  // ---------------------------------------------------------------------------

  lemma SourcedKept(w: World, s: Step)
    requires Sourced(w) && Enabled(w, s)
    ensures Sourced(Next(w, s))
  {
    hide Swept, Dropped;
    match s
    case Enqueue(f, at, now) =>
      EnqueueSourced(w, f, at, now);
    case Acknowledge(r) =>
      forall e | e in WithoutNonce(ClientOf(w, r.device).outbox, r.nonce) ensures e in ClientOf(w, r.device).outbox {
        WithoutNonceIn(ClientOf(w, r.device).outbox, r.nonce, e);
      }
    case _ =>
  }

  lemma EnqueueSourced(w: World, f: Frame, at: int, now: int)
    requires Sourced(w)
    ensures Sourced(AfterEnqueue(w, f, at, now))
  {
    hide Swept, Dropped;
    var before := ClientOf(w, f.device);
    var c := Stored(before, f.nonce, f.envelope, at, now);
    forall e | e in c.outbox ensures e in before.outbox || FrameOf(f.device, e) == f {
      if e in Swept(before.outbox, now) {
        SweptIn(before.outbox, now, e);
      }
    }
    if HasNonce(c.outbox, f.nonce) {
      ResolvedIn(c.outbox, f.nonce);
    }
  }

  lemma StoresKept(w: World, s: Step)
    requires StoresOk(w) && Enabled(w, s)
    ensures StoresOk(Next(w, s))
  {
    hide Stored, Dropped, StoreOk;
    var t := Next(w, s);
    forall d ensures StoreOk(ClientOf(t, d).outbox, ClientOf(t, d).nextRow) {
      var c := ClientOf(w, d);
      assert StoreOk(c.outbox, c.nextRow);
      if s.Enqueue? && s.frame.device == d {
        StoredOk(c, s.frame.nonce, s.frame.envelope, s.at, s.now);
      } else if s.Acknowledge? && s.reply.device == d {
        WithoutNonceOk(c.outbox, s.reply.nonce, c.nextRow);
      } else {
        assert ClientOf(t, d).outbox == c.outbox && ClientOf(t, d).nextRow == c.nextRow;
      }
    }
  }

  lemma StoredOk(c: Client, nonce: nat, envelope: Envelope, at: int, now: int)
    requires StoreOk(c.outbox, c.nextRow)
    ensures var t := Stored(c, nonce, envelope, at, now); StoreOk(t.outbox, t.nextRow)
  {
    hide Swept;
    if !HasNonce(c.outbox, nonce) {
      SweptOk(c.outbox, now, c.nextRow);
      forall e | e in Swept(c.outbox, now) ensures e in c.outbox && e.nonce != nonce {
        SweptIn(c.outbox, now, e);
      }
    }
  }

  lemma DropsKept(w: World, s: Step)
    requires Sourced(w) && StoresOk(w) && DropsOk(w) && Enabled(w, s)
    ensures DropsOk(Next(w, s))
  {
    hide Swept;
    if s.Enqueue? {
      var c := ClientOf(w, s.frame.device);
      forall e | e in c.outbox && e !in Stored(c, s.frame.nonce, s.frame.envelope, s.at, s.now).outbox
        ensures Aged(e, s.now) || e.row + MAX_ENTRIES <= c.nextRow
      {
        assert StoreOk(c.outbox, c.nextRow);
        DropReason(c.outbox, s.now, c.nextRow, e);
      }
    } else {
      assert Next(w, s).drops == w.drops;
    }
  }

  /** What becomes of a frame that arrives: refused with an error if it names another sender or the
      limiter says no, and then nothing else changes; otherwise one handler more. */
  lemma ReceiveExactly(w: World, f: Frame, admitted: bool)
    requires Enabled(w, Receive(f, admitted))
    ensures f.envelope.sender != f.device ==>
      Next(w, Receive(f, admitted)) == w.(replies := w.replies + {Error(f.device, InvalidPayload)})
    ensures f.envelope.sender == f.device && !admitted ==>
      Next(w, Receive(f, admitted)) == w.(replies := w.replies + {Error(f.device, RateLimited)})
    ensures f.envelope.sender == f.device && admitted ==>
      Next(w, Receive(f, admitted)) ==
        w.(handlers := w.handlers[w.nextHandler := Handler(f, Arrived)], nextHandler := w.nextHandler + 1)
  {
  }

  lemma RowsCarry(w: World, t: World)
    requires RowsOk(w) && t.rows == w.rows && t.nextId == w.nextId && w.enqueued <= t.enqueued
    ensures RowsOk(t)
  {
  }

  lemma InsertedRows(w: World, f: Frame)
    requires RowsOk(w) && f in w.enqueued && f.device == f.envelope.sender
    ensures RowsOk(Inserted(w, f))
    ensures forall k :: k in w.rows ==> k in Inserted(w, f).rows && Inserted(w, f).rows[k] == w.rows[k]
  {
  }

  lemma RowsKept(w: World, s: Step)
    requires Inv(w) && Enabled(w, s)
    ensures RowsOk(Next(w, s))
    ensures forall k :: k in w.rows ==> k in Next(w, s).rows && Next(w, s).rows[k] == w.rows[k]
  {
    hide Sourced, StoresOk, DropsOk, RowsOk, PublishedOk, RepliesOk, NothingLost, Stored, Dropped;
    if s.Insert? || (s.InsertFails? && s.committed) {
      assert HandlerOk(w, s.handler);
      InsertedRows(w, w.handlers[s.handler].frame);
      RowsCarry(Inserted(w, w.handlers[s.handler].frame), Next(w, s));
    } else {
      RowsCarry(w, Next(w, s));
    }
  }

  lemma HandlerKept(w: World, s: Step, k: nat)
    requires Inv(w) && Enabled(w, s) && k in Next(w, s).handlers
    ensures HandlerOk(Next(w, s), k)
  {
    hide StoresOk, DropsOk, RowsOk, PublishedOk, RepliesOk, NothingLost, Stored, Dropped;
    var t := Next(w, s);
    if k !in w.handlers {
      assert t.published == w.published;
    } else if t.handlers[k] == w.handlers[k] {
      HandlerStays(w, s, k);
    } else {
      HandlerMoves(w, s, k);
    }
  }

  lemma HandlerStays(w: World, s: Step, k: nat)
    requires Inv(w) && Enabled(w, s)
    requires k in w.handlers && k in Next(w, s).handlers && Next(w, s).handlers[k] == w.handlers[k]
    ensures HandlerOk(Next(w, s), k)
  {
    hide Sourced, StoresOk, DropsOk, RowsOk, PublishedOk, RepliesOk, NothingLost, Stored, Dropped;
    RowsKept(w, s);
    assert HandlerOk(w, k);
    if s.Announce? {
      assert HandlerOk(w, s.handler);
    } else {
      assert Next(w, s).published == w.published;
    }
  }

  lemma HandlerMoves(w: World, s: Step, k: nat)
    requires Inv(w) && Enabled(w, s)
    requires k in w.handlers && k in Next(w, s).handlers && Next(w, s).handlers[k] != w.handlers[k]
    ensures HandlerOk(Next(w, s), k)
  {
    hide Sourced, StoresOk, DropsOk, RowsOk, PublishedOk, RepliesOk, NothingLost, Stored, Dropped;
    RowsKept(w, s);
    assert HandlerOk(w, k);
    if s.Insert? {
      FreshUnpublished(w);
    }
  }

  lemma FreshUnpublished(w: World)
    requires Inv(w)
    ensures !WasPublished(w, w.nextId)
  {
    forall i | 0 <= i < |w.published| ensures w.published[i].id != w.nextId {
      assert RowOn(w, w.published[i]);
    }
  }

  lemma HandlersKept(w: World, s: Step)
    requires Inv(w) && Enabled(w, s)
    ensures HandlersOk(Next(w, s))
  {
    hide Inv, Next;
    var t := Next(w, s);
    forall k | k in t.handlers ensures HandlerOk(t, k) {
      HandlerKept(w, s, k);
    }
    forall k, l | k in t.handlers && l in t.handlers && k != l && t.handlers[k].phase.Persisted?
      ensures t.handlers[k].phase != t.handlers[l].phase
    {
      HandlersApart(w, s, k, l);
    }
  }

  lemma HandlersApart(w: World, s: Step, k: nat, l: nat)
    requires Inv(w) && Enabled(w, s) && k != l
    requires k in Next(w, s).handlers && l in Next(w, s).handlers && Next(w, s).handlers[k].phase.Persisted?
    ensures Next(w, s).handlers[k].phase != Next(w, s).handlers[l].phase
  {
    hide Sourced, StoresOk, DropsOk, PublishedOk, RepliesOk, NothingLost, Stored, Dropped;
    if k in w.handlers && l in w.handlers {
      assert HandlerOk(w, k) && HandlerOk(w, l);
    }
  }

  lemma RowOnKept(w: World, s: Step, p: Publish)
    requires Inv(w) && Enabled(w, s) && RowOn(w, p)
    ensures RowOn(Next(w, s), p)
  {
    hide Inv, Next;
    RowsKept(w, s);
    var k :| k in w.rows && w.rows[k].id == p.id && w.rows[k].envelope.recipient == p.channel;
    assert k in Next(w, s).rows;
  }

  lemma PublishedKept(w: World, s: Step)
    requires Inv(w) && Enabled(w, s)
    ensures PublishedOk(Next(w, s))
  {
    hide Sourced, StoresOk, DropsOk, RowsOk, RepliesOk, NothingLost, RowOn, Stored, Dropped;
    var t := Next(w, s);
    forall i | 0 <= i < |w.published| ensures RowOn(t, w.published[i]) {
      RowOnKept(w, s, w.published[i]);
    }
    if s.Announce? {
      assert HandlerOk(w, s.handler);
      RowAnnounced(t, KeyOf(w.handlers[s.handler].frame));
    } else {
      assert t.published == w.published;
    }
  }

  lemma RowAnnounced(w: World, k: Key)
    requires k in w.rows
    ensures RowOn(w, Publish(w.rows[k].envelope.recipient, w.rows[k].id))
  {
  }

  lemma RepliesKept(w: World, s: Step)
    requires Inv(w) && Enabled(w, s)
    ensures RepliesOk(Next(w, s))
  {
    hide Sourced, StoresOk, DropsOk, PublishedOk, NothingLost, Stored, Dropped;
    RowsKept(w, s);
    var t := Next(w, s);
    forall r | r in t.replies && r.Queued?
      ensures Key(r.device, r.nonce) in t.rows && t.rows[Key(r.device, r.nonce)].id == r.id
    {
      if r in w.replies {
        assert Key(r.device, r.nonce) in w.rows;
      } else {
        assert HandlerOk(w, s.handler);
      }
    }
  }

  lemma LostKept(w: World, s: Step)
    requires Inv(w) && Enabled(w, s)
    ensures NothingLost(Next(w, s))
  {
    hide Sourced, StoresOk, DropsOk, HandlersOk, PublishedOk, RepliesOk;
    RowsKept(w, s);
    var t := Next(w, s);
    forall f | f in t.enqueued ensures InOutbox(t, f) || HasRow(t, f) || Contested(t, f) || WasDropped(t, f) {
      if f !in w.enqueued {
        EnqueuedSafe(w, f, s.at, s.now);
      } else if InOutbox(w, f) {
        StillInOutbox(w, s, f);
      } else {
        StillAccounted(w, s, f);
      }
    }
  }

  lemma StillAccounted(w: World, s: Step, f: Frame)
    requires Inv(w) && Enabled(w, s) && (HasRow(w, f) || Contested(w, f) || WasDropped(w, f))
    ensures var t := Next(w, s); HasRow(t, f) || Contested(t, f) || WasDropped(t, f)
  {
    hide Inv, Stored, Dropped;
    var t := Next(w, s);
    RowsKept(w, s);
    if HasRow(w, f) {
      assert KeyOf(f) in t.rows;
    } else if Contested(w, f) {
      var g :| g in w.enqueued && g.device == f.device && g.nonce == f.nonce && g.envelope != f.envelope;
      assert g in t.enqueued;
    } else {
      var d :| d in w.drops && FrameOf(d.device, d.entry) == f;
      assert d in t.drops;
    }
  }

  /** An enqueue resolves to a row of the outbox. */
  lemma EnqueuedSafe(w: World, f: Frame, at: int, now: int)
    requires Sourced(w)
    ensures var t := AfterEnqueue(w, f, at, now); InOutbox(t, f) || Contested(t, f)
  {
    hide Swept, Dropped;
    var before, t := ClientOf(w, f.device), AfterEnqueue(w, f, at, now);
    var c := Stored(before, f.nonce, f.envelope, at, now);
    if HasNonce(before.outbox, f.nonce) {
      ResolvedIn(c.outbox, f.nonce);
      var e := Resolved(c.outbox, f.nonce);
      assert FrameOf(f.device, e) in w.enqueued;
      assert e in ClientOf(t, f.device).outbox;
      assert FrameOf(f.device, e) in t.enqueued;
    } else {
      assert c.outbox[|c.outbox| - 1] == Entry(before.nextRow, f.nonce, f.envelope, at);
      assert c.outbox[|c.outbox| - 1] in ClientOf(t, f.device).outbox;
    }
  }

  /** Only an acknowledgement and a sweep take an entry out, and an acknowledgement comes from a
      row. */
  lemma StillInOutbox(w: World, s: Step, f: Frame)
    requires Inv(w) && Enabled(w, s) && f in w.enqueued && InOutbox(w, f)
    ensures var t := Next(w, s); InOutbox(t, f) || HasRow(t, f) || Contested(t, f) || WasDropped(t, f)
  {
    hide Swept, StoresOk, DropsOk, HandlersOk, PublishedOk, NothingLost;
    var t := Next(w, s);
    var e :| e in ClientOf(w, f.device).outbox && e.nonce == f.nonce && e.envelope == f.envelope;
    if e in ClientOf(t, f.device).outbox {
    } else if s.Enqueue? {
      assert Drop(f.device, e, s.now, ClientOf(w, f.device).nextRow) in t.drops;
    } else {
      var r := s.reply;
      WithoutNonceIn(ClientOf(w, f.device).outbox, r.nonce, e);
      assert Frame(r.device, r.nonce, w.rows[Key(r.device, r.nonce)].envelope) in t.enqueued;
    }
  }

  lemma StepKeepsInv(w: World, s: Step)
    requires Inv(w) && Enabled(w, s)
    ensures Inv(Next(w, s))
  {
    SourcedKept(w, s);
    StoresKept(w, s);
    DropsKept(w, s);
    RowsKept(w, s);
    HandlersKept(w, s);
    PublishedKept(w, s);
    RepliesKept(w, s);
    LostKept(w, s);
  }

  // ---------------------------------------------------------------------------
  // Whole runs
  // ---------------------------------------------------------------------------

  const START := World(map[], {}, {}, {}, {}, map[], 1, map[], 0, [], {})

  ghost predicate Feasible(w: World, steps: seq<Step>)
    decreases |steps|
  {
    steps == [] || (Enabled(w, steps[0]) && Feasible(Next(w, steps[0]), steps[1..]))
  }

  function After(w: World, steps: seq<Step>): World
    requires Feasible(w, steps)
    decreases |steps|
  {
    if steps == [] then w else After(Next(w, steps[0]), steps[1..])
  }

  lemma {:induction false} RunKeepsInv(w: World, steps: seq<Step>)
    requires Inv(w) && Feasible(w, steps)
    ensures Inv(After(w, steps))
    decreases |steps|
  {
    if steps != [] {
      StepKeepsInv(w, steps[0]);
      RunKeepsInv(Next(w, steps[0]), steps[1..]);
    }
  }

  /** Over every interleaving: an envelope enqueued under a nonce used for no other is in its
      device's outbox or in the server's table, unless a sweep dropped it, and then it was more
      than seven days old or a thousand rows had been added from it on. */
  lemma NothingEnqueuedLost(steps: seq<Step>, f: Frame)
    requires Feasible(START, steps) && f in After(START, steps).enqueued
    requires !Contested(After(START, steps), f)
    ensures var w := After(START, steps);
      || InOutbox(w, f) || HasRow(w, f)
      || exists d :: d in w.drops && FrameOf(d.device, d.entry) == f &&
           (d.entry.at < d.now - 604_800_000 || d.entry.row + 1000 <= d.next)
  {
    RunKeepsInv(START, steps);
  }

  /** How many enqueues of a run are on one device. */
  function Enqueues(steps: seq<Step>, device: nat): nat {
    if steps == [] then 0
    else (if steps[0].Enqueue? && steps[0].frame.device == device then 1 else 0) + Enqueues(steps[1..], device)
  }

  /** Every enqueue on f's device happens by `end`, and f's own are stamped `begin` or later. */
  ghost predicate Within(steps: seq<Step>, f: Frame, begin: int, end: int) {
    forall i :: 0 <= i < |steps| && steps[i].Enqueue? && steps[i].frame.device == f.device ==>
      steps[i].now <= end && (steps[i].frame == f ==> begin <= steps[i].at)
  }

  /** f came after row `first`, and k enqueues have been made from then on. */
  ghost predicate Watched(w: World, f: Frame, first: nat, k: nat, begin: int, end: int) {
    && first <= ClientOf(w, f.device).nextRow <= first + k
    && (forall e :: e in ClientOf(w, f.device).outbox && FrameOf(f.device, e) == f ==> begin <= e.at && first <= e.row)
    && (forall d :: d in w.drops && FrameOf(d.device, d.entry) == f ==>
          begin <= d.entry.at && first <= d.entry.row && d.now <= end && d.next < first + k)
  }

  /** Only an enqueue and an acknowledgment touch a device's rows. */
  lemma RowsUntouched(w: World, s: Step, d: nat)
    requires Enabled(w, s) && !s.Enqueue? && !s.Acknowledge?
    ensures Next(w, s).drops == w.drops
    ensures ClientOf(Next(w, s), d).outbox == ClientOf(w, d).outbox
    ensures ClientOf(Next(w, s), d).nextRow == ClientOf(w, d).nextRow
  {
    hide Swept;
  }

  lemma StepWatched(w: World, s: Step, f: Frame, first: nat, k: nat, begin: int, end: int)
    requires Enabled(w, s) && Watched(w, f, first, k, begin, end) && Within([s], f, begin, end)
    ensures Watched(Next(w, s), f, first, k + Enqueues([s], f.device), begin, end)
  {
    hide Swept;
    var t := Next(w, s);
    assert [s][0] == s && [s][1..] == [];
    match s
    case Enqueue(g, at, now) =>
      var c := ClientOf(w, g.device);
      forall e | e in Stored(c, g.nonce, g.envelope, at, now).outbox
        ensures e in c.outbox || e == Entry(c.nextRow, g.nonce, g.envelope, at)
      {
        if e in Swept(c.outbox, now) {
          SweptIn(c.outbox, now, e);
        }
      }
    case Acknowledge(r) =>
      forall e | e in WithoutNonce(ClientOf(w, r.device).outbox, r.nonce) ensures e in ClientOf(w, r.device).outbox {
        WithoutNonceIn(ClientOf(w, r.device).outbox, r.nonce, e);
      }
    case _ =>
      RowsUntouched(w, s, f.device);
  }

  lemma {:induction false} RunWatched(w: World, steps: seq<Step>, f: Frame, first: nat, k: nat, begin: int, end: int)
    requires Feasible(w, steps) && Watched(w, f, first, k, begin, end) && Within(steps, f, begin, end)
    ensures Watched(After(w, steps), f, first, k + Enqueues(steps, f.device), begin, end)
    decreases |steps|
  {
    hide Next, Enabled, Watched;
    if steps != [] {
      assert [steps[0]][1..] == [];
      StepWatched(w, steps[0], f, first, k, begin, end);
      RunWatched(Next(w, steps[0]), steps[1..], f, first, k + Enqueues([steps[0]], f.device), begin, end);
    }
  }

  lemma NotYetThere(w: World, f: Frame, begin: int, end: int)
    requires Inv(w) && f !in w.enqueued
    ensures Watched(w, f, ClientOf(w, f.device).nextRow, 0, begin, end)
  {
  }

  lemma WatchedKept(w: World, f: Frame, first: nat, k: nat, begin: int)
    requires Inv(w) && Watched(w, f, first, k, begin, begin + MAX_AGE_MS) && k <= MAX_ENTRIES
    requires f in w.enqueued && !Contested(w, f)
    ensures InOutbox(w, f) || HasRow(w, f)
  {
  }

  /** At least once for a week: from f's own enqueue on, up to a thousand enqueues on its device,
      none more than seven days after it, lose nothing, whatever went before, whatever else
      happens and in whatever order. */
  lemma KeptForAWeek(before: seq<Step>, steps: seq<Step>, f: Frame, begin: int)
    requires Feasible(START, before) && f !in After(START, before).enqueued
    requires Feasible(After(START, before), steps) && f in After(After(START, before), steps).enqueued
    requires !Contested(After(After(START, before), steps), f)
    requires Within(steps, f, begin, begin + 604_800_000) && Enqueues(steps, f.device) <= 1000
    ensures var w := After(After(START, before), steps); InOutbox(w, f) || HasRow(w, f)
  {
    hide Watched, Inv;
    var w, first := After(START, before), ClientOf(After(START, before), f.device).nextRow;
    RunKeepsInv(START, before);
    RunKeepsInv(w, steps);
    NotYetThere(w, f, begin, begin + MAX_AGE_MS);
    RunWatched(w, steps, f, first, 0, begin, begin + MAX_AGE_MS);
    WatchedKept(After(w, steps), f, first, Enqueues(steps, f.device), begin);
  }

  /** The i-th announcement is of the envelope under key k. */
  ghost predicate Announces(w: World, i: nat, k: Key) {
    i < |w.published| && k in w.rows && w.published[i].id == w.rows[k].id
  }

  /** Over every interleaving: whatever was announced has a row addressed to that channel, no
      sender-nonce pair is announced twice, and all confirmations for one name one row. */
  lemma SentOnce(steps: seq<Step>)
    requires Feasible(START, steps)
    ensures var w := After(START, steps);
      && (forall i :: 0 <= i < |w.published| ==> RowOn(w, w.published[i]))
      && (forall i, j, k :: Announces(w, i, k) && Announces(w, j, k) ==> i == j)
      && (forall q, r :: q in w.replies && r in w.replies && q.Queued? && r.Queued? ==>
            ((q.device == r.device && q.nonce == r.nonce) <==> q.id == r.id))
  {
    RunKeepsInv(START, steps);
    var w := After(START, steps);
    forall q, r | q in w.replies && r in w.replies && q.Queued? && r.Queued?
      ensures (q.device == r.device && q.nonce == r.nonce) <==> q.id == r.id
    {
      assert Key(q.device, q.nonce) in w.rows && Key(r.device, r.nonce) in w.rows;
    }
  }

  /** Freshness is needed: a nonce used again for another envelope while the first still waits
      resolves to the first, and the second is nowhere. */
  lemma ReusedNonceDropped(f: Frame, g: Frame, at: int, now: int, at': int, now': int)
    requires g.device == f.device && g.nonce == f.nonce && g.envelope != f.envelope
    ensures var steps := [Enqueue(f, at, now), Enqueue(g, at', now')];
      Feasible(START, steps) &&
      var w := After(START, steps);
      g in w.enqueued && !InOutbox(w, g) && !HasRow(w, g) && w.drops == {}
  {
    var w1 := Next(START, Enqueue(f, at, now));
    var c := ClientOf(w1, f.device);
    assert c.outbox == [Entry(0, f.nonce, f.envelope, at)];
    assert c.outbox[0].nonce == g.nonce;
    RunStep(w1, Enqueue(g, at', now'), []);
    RunStep(START, Enqueue(f, at, now), [Enqueue(g, at', now')]);
    assert [Enqueue(f, at, now)] + ([Enqueue(g, at', now')] + []) == [Enqueue(f, at, now), Enqueue(g, at', now')];
  }

  /** Nor does age alone take a row out: enqueued again under its own nonce more than seven days
      later, it waits on as old as it is. */
  lemma OldRowWaits(f: Frame, now: int)
    requires now > MAX_AGE_MS
    ensures var steps := [Enqueue(f, 0, 0), Enqueue(f, now, now)];
      Feasible(START, steps) && var c := ClientOf(After(START, steps), f.device);
      c.outbox == [Entry(0, f.nonce, f.envelope, 0)] && Aged(c.outbox[0], now)
  {
    var w1 := Next(START, Enqueue(f, 0, 0));
    var c := ClientOf(w1, f.device);
    assert c.outbox == [Entry(0, f.nonce, f.envelope, 0)];
    assert c.outbox[0].nonce == f.nonce;
    RunStep(w1, Enqueue(f, now, now), []);
    RunStep(START, Enqueue(f, 0, 0), [Enqueue(f, now, now)]);
    assert [Enqueue(f, 0, 0)] + ([Enqueue(f, now, now)] + []) == [Enqueue(f, 0, 0), Enqueue(f, now, now)];
  }

  /** A row once written never changes. */
  lemma {:induction false} RowsStay(w: World, steps: seq<Step>, k: Key)
    requires Inv(w) && Feasible(w, steps) && k in w.rows
    ensures k in After(w, steps).rows && After(w, steps).rows[k] == w.rows[k]
    decreases |steps|
  {
    if steps != [] {
      StepKeepsInv(w, steps[0]);
      RowsKept(w, steps[0]);
      RowsStay(Next(w, steps[0]), steps[1..], k);
    }
  }

  // ---------------------------------------------------------------------------
  // A retry can always complete
  // ---------------------------------------------------------------------------

  /** The steps that carry the head of the current pass through when nothing fails. */
  function RetrySteps(w: World, d: nat): seq<Step>
    requires Enabled(w, SendNext(d))
  {
    var f := FrameOf(d, ClientOf(w, d).pass.rest[0]);
    [SendNext(d), Receive(f, true), Insert(w.nextHandler)] + HandleSteps(w, f)
  }

  /** The rest of the handler's steps and the client's answer to its reply. */
  function HandleSteps(w: World, f: Frame): seq<Step> {
    if KeyOf(f) in w.rows then
      [Lookup(w.nextHandler, true), Acknowledge(Queued(f.device, f.nonce, w.rows[KeyOf(f)].id))]
    else
      [Announce(w.nextHandler, true), Confirm(w.nextHandler), Acknowledge(Queued(f.device, f.nonce, w.nextId))]
  }

  lemma RunStep(w: World, s: Step, rest: seq<Step>)
    requires Enabled(w, s) && Feasible(Next(w, s), rest)
    ensures Feasible(w, [s] + rest) && After(w, [s] + rest) == After(Next(w, s), rest)
  {
    assert ([s] + rest)[1..] == rest;
  }

  /** The handler that has just run its INSERT for f, from table w to table v, runs to the end. */
  lemma HandlerCompletes(w: World, v: World, f: Frame)
    requires w.nextHandler in v.handlers && v.handlers[w.nextHandler].frame == f
    requires v.handlers[w.nextHandler].phase == if KeyOf(f) in w.rows then Conflicted else Persisted(w.nextId)
    requires KeyOf(f) in v.rows && (KeyOf(f) in w.rows ==> v.rows == w.rows)
    ensures Feasible(v, HandleSteps(w, f))
    ensures var t := After(v, HandleSteps(w, f));
      && t.rows == v.rows
      && ClientOf(t, f.device).outbox == WithoutNonce(ClientOf(v, f.device).outbox, f.nonce)
      && t.published == if KeyOf(f) in w.rows then v.published
                        else v.published + [Publish(f.envelope.recipient, w.nextId)]
  {
    var tail := HandleSteps(w, f);
    var v1 := Next(v, tail[0]);
    if KeyOf(f) in w.rows {
      RunStep(v1, tail[1], []);
      RunStep(v, tail[0], [tail[1]]);
    } else {
      var v2 := Next(v1, tail[1]);
      RunStep(v2, tail[2], []);
      RunStep(v1, tail[1], [tail[2]]);
      RunStep(v, tail[0], [tail[1], tail[2]]);
      assert tail == [tail[0]] + [tail[1], tail[2]];
    }
  }

  /** Whatever crashed, failed or was lost before, sending the entry again with nothing failing
      leaves a row for it and takes it out of the outbox; a row that was already there is kept
      and not announced again. */
  lemma RetryCompletes(w: World, d: nat)
    requires Inv(w) && Enabled(w, SendNext(d))
    requires ClientOf(w, d).pass.rest[0].envelope.sender == d
    ensures var f := FrameOf(d, ClientOf(w, d).pass.rest[0]);
      Feasible(w, RetrySteps(w, d)) &&
      var t := After(w, RetrySteps(w, d));
      && KeyOf(f) in t.rows
      && !HasNonce(ClientOf(t, d).outbox, f.nonce)
      && if KeyOf(f) in w.rows then t.rows == w.rows && t.published == w.published
         else t.rows == w.rows[KeyOf(f) := Row(w.nextId, f.envelope)] &&
              t.published == w.published + [Publish(f.envelope.recipient, w.nextId)]
  {
    var f := FrameOf(d, ClientOf(w, d).pass.rest[0]);
    var k := w.nextHandler;
    var w1 := Next(w, SendNext(d));
    var w2 := Next(w1, Receive(f, true));
    var w3 := Next(w2, Insert(k));
    GoneFromOutbox(ClientOf(w, d).outbox, f.nonce);
    var tail := HandleSteps(w, f);
    HandlerCompletes(w, w3, f);
    RunStep(w2, Insert(k), tail);
    RunStep(w1, Receive(f, true), [Insert(k)] + tail);
    RunStep(w, SendNext(d), [Receive(f, true)] + ([Insert(k)] + tail));
    assert RetrySteps(w, d) == [SendNext(d)] + ([Receive(f, true)] + ([Insert(k)] + tail));
  }
}
