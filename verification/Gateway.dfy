/** The SEND_ENVELOPE handler of apps/api/src/ws/gateway.ts run from start to end, against the
    table, the publisher and the rate limiter. Each database or publish call may fail. The
    handler is proved to be one sequence of the interleaved steps of `Delivery`, so everything
    proved there about every interleaving covers it. */
module Gateway {
  import opened Delivery
  import opened Outbox
  import TokenBucket

  /** How the calls a handler makes turn out. */
  datatype Faults = Faults(insert: InsertFault, lookup: bool, publish: bool)

  /** An INSERT that throws may have committed all the same. */
  datatype InsertFault = NoFault | ThrowsUncommitted | ThrowsCommitted

  /** The steps of one handler. */
  function HandlingSteps(w: World, f: Frame, admitted: bool, x: Faults): seq<Step> {
    if f.envelope.sender != f.device || !admitted then [Receive(f, admitted)]
    else
      var k := w.nextHandler;
      if !x.insert.NoFault? then [Receive(f, true), InsertFails(k, x.insert.ThrowsCommitted?)]
      else if KeyOf(f) in w.rows then [Receive(f, true), Insert(k), Lookup(k, x.lookup)]
      else [Receive(f, true), Insert(k), Announce(k, x.publish), Confirm(k)]
  }

  lemma Run2(w: World, a: Step, b: Step)
    requires Enabled(w, a) && Enabled(Next(w, a), b)
    ensures Feasible(w, [a, b]) && After(w, [a, b]) == Next(Next(w, a), b)
  {
    var v := Next(w, a);
    RunStep(v, b, []);
    RunStep(w, a, [b]);
    assert [a] + [b] == [a, b];
  }

  /** The handler that inserts a row runs to its end. */
  lemma InsertedEnds(w: World, k: nat, f: Frame, publish: bool)
    requires k in w.handlers && w.handlers[k] == Handler(f, Arrived) && KeyOf(f) !in w.rows
    ensures var steps := [Insert(k), Announce(k, publish), Confirm(k)];
      Feasible(w, steps) &&
      var t := After(w, steps);
      && t.rows == w.rows[KeyOf(f) := Row(w.nextId, f.envelope)] && t.nextId == w.nextId + 1
      && t.published == (if publish then w.published + [Publish(f.envelope.recipient, w.nextId)] else w.published)
      && t.replies == w.replies + {Queued(f.device, f.nonce, w.nextId)}
  {
    hide Feasible, After;
    var rest := [Announce(k, publish), Confirm(k)];
    Run2(Next(w, Insert(k)), rest[0], rest[1]);
    RunStep(w, Insert(k), rest);
    assert [Insert(k)] + rest == [Insert(k), Announce(k, publish), Confirm(k)];
  }

  /** Where the steps of an admitted handler lead. */
  lemma HandlingEnds(w: World, f: Frame, x: Faults)
    requires f in w.sent && f.envelope.sender == f.device
    ensures Feasible(w, HandlingSteps(w, f, true, x))
    ensures var t, conflict := After(w, HandlingSteps(w, f, true, x)), KeyOf(f) in w.rows;
      && t.rows == (if x.insert.ThrowsUncommitted? then w else Inserted(w, f)).rows
      && t.nextId == (if x.insert.ThrowsUncommitted? then w else Inserted(w, f)).nextId
      && t.published == (if x.insert.NoFault? && !conflict && x.publish
                         then w.published + [Publish(f.envelope.recipient, w.nextId)] else w.published)
      && t.replies == w.replies + {if !x.insert.NoFault? || (conflict && !x.lookup) then Error(f.device, Internal)
                                   else Queued(f.device, f.nonce, t.rows[KeyOf(f)].id)}
  {
    hide Feasible, After;
    var k := w.nextHandler;
    var w1 := Next(w, Receive(f, true));
    if !x.insert.NoFault? {
      Run2(w, Receive(f, true), InsertFails(k, x.insert.ThrowsCommitted?));
    } else if KeyOf(f) in w.rows {
      Run2(w1, Insert(k), Lookup(k, x.lookup));
      RunStep(w, Receive(f, true), [Insert(k), Lookup(k, x.lookup)]);
      assert HandlingSteps(w, f, true, x) == [Receive(f, true)] + [Insert(k), Lookup(k, x.lookup)];
    } else {
      InsertedEnds(w1, k, f, x.publish);
      RunStep(w, Receive(f, true), [Insert(k), Announce(k, x.publish), Confirm(k)]);
      assert HandlingSteps(w, f, true, x) == [Receive(f, true)] + [Insert(k), Announce(k, x.publish), Confirm(k)];
    }
  }

  class EnvelopeGateway {
    var rows: map<Key, Row>
    var nextId: nat
    var published: seq<Publish>
    var replies: set<Reply>
    const limiter: TokenBucket.RateLimiter
    const bucket: TokenBucket.Options

    constructor (limiter: TokenBucket.RateLimiter, bucket: TokenBucket.Options)
      ensures rows == map[] && nextId == 1 && published == [] && replies == {}
      ensures this.limiter == limiter && this.bucket == bucket
    {
      rows, nextId, published, replies := map[], 1, [], {};
      this.limiter, this.bucket := limiter, bucket;
    }

    /** The server side of a world. */
    ghost predicate Shows(w: World)
      reads this
    {
      rows == w.rows && nextId == w.nextId && published == w.published && replies == w.replies
    }

    method Send(r: Reply)
      modifies this`replies
      ensures replies == old(replies) + {r}
    {
      replies := replies + {r};
    }

    method OnSendEnvelope(device: nat, nonce: nat, env: Envelope, now: int, x: Faults, ghost w: World)
      returns (ghost admitted: bool)
      requires Shows(w) && Frame(device, nonce, env) in w.sent
      modifies this`rows, this`nextId, this`published, this`replies, limiter
      ensures var f := Frame(device, nonce, env);
        Feasible(w, HandlingSteps(w, f, admitted, x)) && Shows(After(w, HandlingSteps(w, f, admitted, x)))
      ensures env.sender != device || !admitted ==>
        && replies == old(replies) + {Error(device, if env.sender != device then InvalidPayload else RateLimited)}
        && rows == old(rows) && nextId == old(nextId) && published == old(published)
      ensures var call := TokenBucket.Call(device, now);
        if env.sender != device then limiter.buckets == old(limiter.buckets)
        else admitted == TokenBucket.Admits(old(limiter.buckets), call, bucket) &&
             limiter.buckets == TokenBucket.Consumed(old(limiter.buckets), call, bucket)
    {
      ghost var f := Frame(device, nonce, env);
      admitted := true;
      if env.sender != device {
        Send(Error(device, InvalidPayload));
        RunStep(w, Receive(f, true), []);
        return;
      }
      var allowed := limiter.TryConsume(device, now, bucket);
      admitted := allowed;
      if !allowed {
        Send(Error(device, RateLimited));
        RunStep(w, Receive(f, false), []);
        return;
      }
      HandlingEnds(w, f, x);
      var key := Key(env.sender, nonce);
      var conflict := key in rows;
      var envelopeId := nextId;
      if !conflict && !x.insert.ThrowsUncommitted? {
        rows := rows[key := Row(envelopeId, env)];
        nextId := nextId + 1;
      }
      if !x.insert.NoFault? {
        Send(Error(device, Internal));
        return;
      }
      if conflict {
        if x.lookup {
          Send(Queued(device, nonce, rows[key].id));
        } else {
          Send(Error(device, Internal));
        }
        return;
      }
      if x.publish {
        published := published + [Publish(env.recipient, envelopeId)];
      }
      Send(Queued(device, nonce, envelopeId));
    }
  }
}
