/** One connection's handshake in apps/api/src/ws/gateway.ts. The HELLO handler waits for a query
    before it flips `helloReceived`, so frames that arrive meanwhile still meet the old flag;
    each method is one stretch between awaits. */
module Handshake {

  /** `Other` stands for ENVELOPE_RECEIVED, PRESENCE_PING and the room subscriptions. */
  datatype Frame = Hello(protoVersion: int, device: nat) | SendEnvelope(nonce: nat) | Other(tag: nat) | Malformed

  /** `Handled`: the frame went to its handler. */
  datatype Event = HelloOk | Error | Handled(frame: Frame)

  function HelloOks(log: seq<Event>): nat {
    if log == [] then 0 else HelloOks(log[..|log| - 1]) + if log[|log| - 1].HelloOk? then 1 else 0
  }

  /** Envelopes are handled only after the handshake. */
  ghost predicate Ordered(log: seq<Event>) {
    log != [] ==> Ordered(log[..|log| - 1]) && (log[|log| - 1].Handled? ==> HelloOks(log[..|log| - 1]) > 0)
  }

  lemma Snoc(log: seq<Event>, e: Event)
    ensures HelloOks(log + [e]) == HelloOks(log) + if e.HelloOk? then 1 else 0
    ensures Ordered(log + [e]) <==> Ordered(log) && (e.Handled? ==> HelloOks(log) > 0)
  {
    assert (log + [e])[..|log|] == log;
  }

  lemma {:induction false} HandledAfterHello(log: seq<Event>, i: nat)
    requires Ordered(log) && i < |log| && log[i].Handled?
    ensures HelloOks(log[..i]) > 0
  {
    if i < |log| - 1 {
      HandledAfterHello(log[..|log| - 1], i);
      assert log[..|log| - 1][..i] == log[..i];
    }
  }

  class Connection {
    const deviceId: nat
    var helloReceived: bool
    var closed: bool
    var waiting: nat        // HELLO handlers waiting for their query
    var attached: nat       // inbox subscriptions made
    var handle: nat         // which of them the connection will release on close; 0 is none
    ghost var log: seq<Event>
    ghost var overlapped: bool   // a HELLO came while another was waiting
    ghost var late: bool         // a query answered well when the flag was already up

    ghost predicate Valid()
      reads this
    {
      && Ordered(log)
      && (helloReceived <==> HelloOks(log) > 0)
      && handle <= attached <= HelloOks(log)
      && (!overlapped ==> waiting <= 1 && HelloOks(log) + waiting <= 1)
      && (late <==> HelloOks(log) > 1)
    }

    constructor (deviceId: nat)
      ensures Valid() && !helloReceived && log == [] && !overlapped && this.deviceId == deviceId
      ensures waiting == 0 && attached == 0 && handle == 0 && !closed
    {
      this.deviceId := deviceId;
      helloReceived, closed, waiting, attached, handle := false, false, 0, 0, 0;
      log, overlapped, late := [], false, false;
    }

    method Emit(e: Event)
      requires Ordered(log) && (e.Handled? ==> HelloOks(log) > 0)
      modifies this`log
      ensures log == old(log) + [e] && Ordered(log)
      ensures HelloOks(log) == HelloOks(old(log)) + if e.HelloOk? then 1 else 0
    {
      Snoc(log, e);
      log := log + [e];
    }

    method RejectAndClose()
      requires Valid()
      modifies this`log, this`closed
      ensures Valid() && closed && log == old(log) + [Error]
    {
      Emit(Error);
      closed := true;
    }

    /** The start of handleClientMessage: only HELLO passes before the handshake, only the rest
        after it. */
    method OnMessage(f: Frame)
      requires Valid()
      modifies this`log, this`closed, this`waiting, this`overlapped
      ensures Valid() && (overlapped <==> old(overlapped) || (waiting == old(waiting) + 1 && old(waiting) > 0))
      ensures (f.SendEnvelope? || f.Other?) && helloReceived ==>
        log == old(log) + [Handled(f)] && waiting == old(waiting) && closed == old(closed)
      ensures f == Hello(1, deviceId) && !helloReceived ==>
        waiting == old(waiting) + 1 && log == old(log) && closed == old(closed)
      ensures !((f.SendEnvelope? || f.Other?) && helloReceived) && !(f == Hello(1, deviceId) && !helloReceived) ==>
        closed && log == old(log) + [Error] && waiting == old(waiting)
    {
      if f.Malformed? {
        RejectAndClose();
        return;
      }
      if !helloReceived {
        if !f.Hello? || f.protoVersion != 1 || f.device != deviceId {
          RejectAndClose();
          return;
        }
        if waiting > 0 {
          overlapped := true;
        }
        waiting := waiting + 1;
        return;
      }
      if f.Hello? {
        RejectAndClose();
      } else {
        Emit(Handled(f));
      }
    }

    /** The queued-count query answers. */
    method OnQueuedCount(ok: bool)
      requires Valid() && waiting > 0
      modifies this`log, this`closed, this`waiting, this`helloReceived, this`late
      ensures Valid() && waiting == old(waiting) - 1 && late == (old(late) || (ok && old(helloReceived)))
      ensures log == old(log) + [if ok then HelloOk else Error] && helloReceived == (ok || old(helloReceived))
      ensures closed == (!ok || old(closed))
    {
      waiting := waiting - 1;
      if ok {
        late := late || helloReceived;
        helloReceived := true;
        Emit(HelloOk);
      } else {
        Emit(Error);
        closed := true;
      }
    }

    /** attachInbox resolves; its handle replaces whatever was there. */
    method OnAttached()
      requires Valid() && attached < HelloOks(log)
      modifies this`attached, this`handle
      ensures Valid() && attached == old(attached) + 1 && handle == attached
    {
      attached := attached + 1;
      handle := attached;
    }

    method OnHelloTimeout()
      requires Valid()
      modifies this`log, this`closed
      ensures Valid() && log == if helloReceived then old(log) else old(log) + [Error]
    {
      if !helloReceived {
        RejectAndClose();
      }
    }
  }

  /** Nothing is handled before HELLO_OK. There are two HELLO_OKs exactly if a HELLO's query answered
      when another's had already raised the flag, and that takes HELLOs that overlap; otherwise
      there is at most one, and one inbox. */
  lemma OneHandshake(c: Connection, i: nat)
    requires c.Valid()
    ensures i < |c.log| && c.log[i].Handled? ==> HelloOks(c.log[..i]) > 0
    ensures HelloOks(c.log) > 1 <==> c.late
    ensures c.late ==> c.overlapped
    ensures !c.late ==> c.attached <= 1
  {
    if i < |c.log| && c.log[i].Handled? {
      HandledAfterHello(c.log, i);
    }
  }

  method TwoHellos(device: nat) returns (c: Connection)
    ensures fresh(c) && c.Valid() && !c.closed && !c.helloReceived && c.log == []
    ensures c.waiting == 2 && c.attached == 0 && c.handle == 0
  {
    c := new Connection(device);
    c.OnMessage(Hello(1, device));
    c.OnMessage(Hello(1, device));
  }

  /** Overlapping HELLOs are both accepted: two HELLO_OKs, two inboxes, and only the second is
      ever released. */
  method OverlappingHellos(device: nat) returns (c: Connection)
    ensures c.Valid() && !c.closed && HelloOks(c.log) == 2 && c.attached == 2 && c.handle == 2
  {
    c := TwoHellos(device);
    c.OnQueuedCount(true);
    c.OnQueuedCount(true);
    Snoc([], HelloOk);
    Snoc([HelloOk], HelloOk);
    assert c.log == [HelloOk] + [HelloOk];
    c.OnAttached();
    c.OnAttached();
  }
}
