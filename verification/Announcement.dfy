/** When a row of the envelope table is announced on Redis: exactly if the handler that inserted it
    gets its one publish through. */
module Announcement {
  import opened Delivery
  import opened Outbox

  ghost predicate Pending(w: World, id: nat) {
    exists h :: h in w.handlers && w.handlers[h].phase == Persisted(id)
  }

  /** The one step that announces a row is its inserting handler's. */
  lemma StepAnnounces(w: World, s: Step, id: nat)
    requires Enabled(w, s)
    ensures WasPublished(Next(w, s), id) <==>
      WasPublished(w, id) || (s.Announce? && s.published && w.handlers[s.handler].phase == Persisted(id))
  {
    hide Stored, Dropped;
    var t := Next(w, s);
    if s.Announce? && s.published {
      assert t.published[|w.published|].id == w.handlers[s.handler].phase.id;
      if WasPublished(w, id) {
        var i :| 0 <= i < |w.published| && w.published[i].id == id;
        assert t.published[i].id == id;
      }
    } else {
      assert t.published == w.published;
    }
  }

  lemma StepPending(w: World, s: Step, id: nat)
    requires Enabled(w, s) && id < w.nextId && !Pending(w, id)
    ensures !Pending(Next(w, s), id) && id < Next(w, s).nextId
  {
    hide Stored, Dropped;
    var t := Next(w, s);
    forall h | h in t.handlers ensures t.handlers[h].phase != Persisted(id) {
      assert h in w.handlers ==> w.handlers[h].phase != Persisted(id);
    }
  }

  /** A row that no handler is about to announce never is, whatever is sent again. */
  lemma {:induction false} NeverAnnounced(w: World, steps: seq<Step>, id: nat)
    requires Feasible(w, steps) && id < w.nextId && !Pending(w, id) && !WasPublished(w, id)
    ensures var t := After(w, steps); !WasPublished(t, id) && !Pending(t, id) && id < t.nextId
    decreases |steps|
  {
    hide Next, Enabled, WasPublished, Pending;
    if steps != [] {
      StepAnnounces(w, steps[0], id);
      NotTheOne(w, steps[0], id);
      StepPending(w, steps[0], id);
      NeverAnnounced(Next(w, steps[0]), steps[1..], id);
    }
  }

  lemma NotTheOne(w: World, s: Step, id: nat)
    requires Enabled(w, s) && !Pending(w, id)
    ensures !(s.Announce? && w.handlers[s.handler].phase == Persisted(id))
  {
  }

  /** Handler h has left its publish behind, one way or the other. */
  ghost predicate Past(w: World, h: nat) {
    h < w.nextHandler && (h in w.handlers ==> w.handlers[h].phase.Announced?)
  }

  lemma {:induction false} PastForGood(w: World, steps: seq<Step>, h: nat, published: bool)
    requires Feasible(w, steps) && Past(w, h)
    ensures Announce(h, published) !in steps
    decreases |steps|
  {
    if steps != [] {
      StepPast(w, steps[0], h);
      PastForGood(Next(w, steps[0]), steps[1..], h, published);
      assert steps == [steps[0]] + steps[1..];
    }
  }

  lemma StepPast(w: World, s: Step, h: nat)
    requires Enabled(w, s) && Past(w, h)
    ensures Past(Next(w, s), h) && !(s.Announce? && s.handler == h)
  {
    hide Stored, Dropped;
  }

  /** "Exactly one publish across all retries" holds exactly if the handler that inserted the row
      gets its publish through; no retry makes up for it. */
  lemma {:induction false} AnnouncedExactly(w: World, steps: seq<Step>, h: nat)
    requires Inv(w) && Feasible(w, steps) && h in w.handlers && w.handlers[h].phase.Persisted?
    ensures WasPublished(After(w, steps), w.handlers[h].phase.id) <==> Announce(h, true) in steps
    decreases |steps|
  {
    hide Inv, Enabled, WasPublished;
    var id := w.handlers[h].phase.id;
    UnpublishedYet(w, h);
    if steps != [] {
      var s, t := steps[0], Next(w, steps[0]);
      assert steps == [s] + steps[1..];
      StepKeepsInv(w, s);
      StepAnnounces(w, s, id);
      if s == Announce(h, true) {
        StaysPublished(t, steps[1..], id);
      } else if h in t.handlers && t.handlers[h] == w.handlers[h] {
        OtherAnnounces(w, s, h);
        AnnouncedExactly(t, steps[1..], h);
      } else {
        Stranded(w, s, h);
        NeverAnnounced(t, steps[1..], id);
        PastForGood(t, steps[1..], h, true);
      }
    }
  }

  lemma UnpublishedYet(w: World, h: nat)
    requires Inv(w) && h in w.handlers && w.handlers[h].phase.Persisted?
    ensures !WasPublished(w, w.handlers[h].phase.id) && w.handlers[h].phase.id < w.nextId && h < w.nextHandler
  {
    assert HandlerOk(w, h);
  }

  lemma {:induction false} StaysPublished(w: World, steps: seq<Step>, id: nat)
    requires Feasible(w, steps) && WasPublished(w, id)
    ensures WasPublished(After(w, steps), id)
    decreases |steps|
  {
    hide Next, Enabled, WasPublished;
    if steps != [] {
      StepAnnounces(w, steps[0], id);
      StaysPublished(Next(w, steps[0]), steps[1..], id);
    }
  }

  lemma OtherAnnounces(w: World, s: Step, h: nat)
    requires Inv(w) && Enabled(w, s) && h in w.handlers && w.handlers[h].phase.Persisted?
    requires h in Next(w, s).handlers && Next(w, s).handlers[h] == w.handlers[h]
    ensures !(s.Announce? && w.handlers[s.handler].phase == w.handlers[h].phase)
  {
    assert HandlerOk(w, h);
  }

  /** The handler stops before its publish, or its publish fails. */
  lemma Stranded(w: World, s: Step, h: nat)
    requires Inv(w) && Enabled(w, s) && h in w.handlers && w.handlers[h].phase.Persisted? && s != Announce(h, true)
    requires !(h in Next(w, s).handlers && Next(w, s).handlers[h] == w.handlers[h])
    ensures var t, id := Next(w, s), w.handlers[h].phase.id;
      !Pending(t, id) && !WasPublished(t, id) && id < t.nextId && Past(t, h)
  {
    hide WasPublished, Sourced, StoresOk, DropsOk, RowsOk, PublishedOk, RepliesOk, NothingLost, Stored, Dropped;
    UnpublishedYet(w, h);
    StepAnnounces(w, s, w.handlers[h].phase.id);
  }

  /** A handler that is cut off between its INSERT and its publish. */
  function CutOff(f: Frame): seq<Step> {
    [Enqueue(f, 0, 0)] + ([Connect(f.device)] + ([SendResolved(f)] + ([Receive(f, true)] + CutShort(f.device))))
  }

  function CutShort(d: nat): seq<Step> {
    [Insert(0)] + ([ServerCrash] + ([BeginPass(d)] + []))
  }

  lemma Waiting(f: Frame) returns (w: World)
    requires f.device == f.envelope.sender
    ensures w.handlers == map[0 := Handler(f, Arrived)] && w.rows == map[] && w.nextId == 1 && w.published == []
    ensures ClientOf(w, f.device) == Client([Entry(0, f.nonce, f.envelope, 0)], 1, true, Idle)
    ensures forall rest: seq<Step> :: Feasible(w, rest) ==>
      var steps := [Enqueue(f, 0, 0)] + ([Connect(f.device)] + ([SendResolved(f)] + ([Receive(f, true)] + rest)));
      Feasible(START, steps) && After(START, steps) == After(w, rest)
  {
    var d := f.device;
    var w1 := Next(START, Enqueue(f, 0, 0));
    var c := ClientOf(w1, d);
    assert c.outbox == [Entry(0, f.nonce, f.envelope, 0)];
    assert c.outbox[0].nonce == f.nonce;
    assert f in w1.resolved;
    var w2 := Next(w1, Connect(d));
    var w3 := Next(w2, SendResolved(f));
    w := Next(w3, Receive(f, true));
    forall rest: seq<Step> | Feasible(w, rest)
      ensures var steps := [Enqueue(f, 0, 0)] + ([Connect(d)] + ([SendResolved(f)] + ([Receive(f, true)] + rest)));
        Feasible(START, steps) && After(START, steps) == After(w, rest)
    {
      RunStep(w3, Receive(f, true), rest);
      RunStep(w2, SendResolved(f), [Receive(f, true)] + rest);
      RunStep(w1, Connect(d), [SendResolved(f)] + ([Receive(f, true)] + rest));
      RunStep(START, Enqueue(f, 0, 0), [Connect(d)] + ([SendResolved(f)] + ([Receive(f, true)] + rest)));
    }
  }

  lemma Crashed(f: Frame) returns (w: World)
    requires f.device == f.envelope.sender
    ensures Feasible(START, CutOff(f)) && w == After(START, CutOff(f))
    ensures ClientOf(w, f.device).ready && w.handlers == map[] && w.published == []
    ensures ClientOf(w, f.device).pass == Sending([Entry(0, f.nonce, f.envelope, 0)])
    ensures w.rows == map[KeyOf(f) := Row(1, f.envelope)] && w.nextId == 2
  {
    var v := Waiting(f);
    var v1 := Next(v, Insert(0));
    var v2 := Next(v1, ServerCrash);
    w := Next(v2, BeginPass(f.device));
    RunStep(v2, BeginPass(f.device), []);
    RunStep(v1, ServerCrash, [BeginPass(f.device)] + []);
    RunStep(v, Insert(0), [ServerCrash] + ([BeginPass(f.device)] + []));
  }

  /** "Exactly one publish" fails: after such a crash the retry runs to its end, with a row and an
      empty outbox slot, and the row is announced neither then nor ever. */
  lemma LostAnnouncement(f: Frame, later: seq<Step>)
    requires f.device == f.envelope.sender
    ensures Feasible(START, CutOff(f)) && var w := After(START, CutOff(f));
      Enabled(w, SendNext(f.device)) && Feasible(w, RetrySteps(w, f.device)) &&
      var t := After(w, RetrySteps(w, f.device));
      && HasRow(t, f) && !HasNonce(ClientOf(t, f.device).outbox, f.nonce) && t.published == []
      && (Feasible(t, later) ==> !WasPublished(After(t, later), t.rows[KeyOf(f)].id))
  {
    hide Feasible, After, Inv, Next;
    var w := Crashed(f);
    RunKeepsInv(START, CutOff(f));
    RetryCompletes(w, f.device);
    var t := After(w, RetrySteps(w, f.device));
    NeverAnnounced(w, RetrySteps(w, f.device), 1);
    if Feasible(t, later) {
      NeverAnnounced(t, later, 1);
    }
  }
}
