/** deepRedact of apps/api/src/obs/logger.ts: the walk over an object graph that may share and
    loop, and the tree of new objects it builds. */
module Redaction {

  datatype Primitive = Text(s: string) | Undefined | Other(n: int)

  /** A JavaScript value: a primitive, a byte array, or a reference to an object. */
  datatype Value = Prim(p: Primitive) | Bytes(b: seq<nat>) | Ref(id: nat)

  datatype Kind = List | Record

  /** An own property; for the elements of an array the key plays no part. */
  datatype Field = Field(key: string, value: Value)

  datatype Obj = Obj(kind: Kind, fields: seq<Field>)

  type Graph = map<nat, Obj>

  /** What the walk builds, read as a tree. */
  datatype Tree = Leaf(p: Primitive) | Raw(b: seq<nat>) | Node(kind: Kind, slots: seq<Slot>)

  datatype Slot = Slot(key: string, tree: Tree)

  const REDACTED_FIELDS: set<string> :=
    {"ciphertext", "body", "password", "token", "key", "privateKey", "identityPriv", "secret", "argon2Hash"}

  const CENSOR := Text("[REDACTED]")
  const CIRCULAR := Text("[Circular]")

  /** `names` is the set of redacted field names; the code fixes it to REDACTED_FIELDS. */
  predicate Censors(names: set<string>, kind: Kind, key: string) {
    kind.Record? && key in names
  }

  predicate Within(g: Graph, v: Value) {
    v.Ref? ==> v.id in g
  }

  ghost predicate Closed(g: Graph) {
    forall id, i :: id in g && 0 <= i < |g[id].fields| ==> Within(g, g[id].fields[i].value)
  }

  // ---------------------------------------------------------------------------
  // The walk
  // ---------------------------------------------------------------------------

  datatype Walk = Walk(tree: Tree, seen: set<nat>)
  datatype Walks = Walks(slots: seq<Slot>, seen: set<nat>)

  ghost function Redact(names: set<string>, g: Graph, v: Value, seen: set<nat>): (w: Walk)
    requires Closed(g) && Within(g, v)
    ensures seen <= w.seen
    decreases g.Keys - seen, 0, 0
  {
    match v
    case Prim(p) => Walk(Leaf(p), seen)
    case Bytes(b) => Walk(Raw(b), seen)
    case Ref(id) =>
      if id in seen then Walk(Leaf(CIRCULAR), seen)
      else
        assert id in g.Keys - seen;
        var r := RedactFields(names, g, g[id].kind, g[id].fields, seen + {id});
        Walk(Node(g[id].kind, r.slots), r.seen)
  }

  ghost function RedactFields(names: set<string>, g: Graph, kind: Kind, fields: seq<Field>, seen: set<nat>): (r: Walks)
    requires Closed(g) && forall i :: 0 <= i < |fields| ==> Within(g, fields[i].value)
    ensures seen <= r.seen && |r.slots| == |fields|
    decreases g.Keys - seen, 1, |fields|
  {
    if fields == [] then Walks([], seen)
    else
      var before, f := RedactFields(names, g, kind, fields[..|fields| - 1], seen), fields[|fields| - 1];
      assert g.Keys - before.seen <= g.Keys - seen;
      if Censors(names, kind, f.key) then Walks(before.slots + [Slot(f.key, Leaf(CENSOR))], before.seen)
      else
        var last := Redact(names, g, f.value, before.seen);
        Walks(before.slots + [Slot(f.key, last.tree)], last.seen)
  }

  /** How many objects a tree is made of. */
  function Size(t: Tree): nat {
    if t.Node? then 1 + SizeOf(t.slots) else 0
  }

  function SizeOf(slots: seq<Slot>): nat {
    if slots == [] then 0 else SizeOf(slots[..|slots| - 1]) + Size(slots[|slots| - 1].tree)
  }

  // ---------------------------------------------------------------------------
  // Each object once
  // ---------------------------------------------------------------------------

  /** The walk enters exactly as many objects as the result has, each for the first time. */
  lemma {:induction false} ExpandedOnce(names: set<string>, g: Graph, v: Value, seen: set<nat>)
    requires Closed(g) && Within(g, v)
    ensures var w := Redact(names, g, v, seen); w.seen <= seen + g.Keys && |w.seen| == |seen| + Size(w.tree)
    decreases g.Keys - seen, 0, 0
  {
    if v.Ref? && v.id !in seen {
      assert v.id in g.Keys - seen;
      FieldsExpandedOnce(names, g, g[v.id].kind, g[v.id].fields, seen + {v.id});
    }
  }

  lemma {:induction false} FieldsExpandedOnce(names: set<string>, g: Graph, kind: Kind, fields: seq<Field>,
                                              seen: set<nat>)
    requires Closed(g) && forall i :: 0 <= i < |fields| ==> Within(g, fields[i].value)
    ensures var r := RedactFields(names, g, kind, fields, seen);
      r.seen <= seen + g.Keys && |r.seen| == |seen| + SizeOf(r.slots)
    decreases g.Keys - seen, 1, |fields|
  {
    if fields != [] {
      var before, f := RedactFields(names, g, kind, fields[..|fields| - 1], seen), fields[|fields| - 1];
      var r := RedactFields(names, g, kind, fields, seen);
      FieldsExpandedOnce(names, g, kind, fields[..|fields| - 1], seen);
      assert g.Keys - before.seen <= g.Keys - seen;
      assert r.slots[..|fields| - 1] == before.slots;
      if !Censors(names, kind, f.key) {
        ExpandedOnce(names, g, f.value, before.seen);
      }
    }
  }

  // ---------------------------------------------------------------------------
  // Every redacted key holds the censor
  // ---------------------------------------------------------------------------

  ghost predicate Clean(names: set<string>, t: Tree)
    decreases t
  {
    t.Node? ==> CleanSlots(names, t.kind, t.slots)
  }

  ghost predicate CleanSlots(names: set<string>, kind: Kind, slots: seq<Slot>)
    decreases slots
  {
    slots != [] ==>
      && CleanSlots(names, kind, slots[..|slots| - 1])
      && Clean(names, slots[|slots| - 1].tree)
      && (kind.Record? && slots[|slots| - 1].key in names ==> slots[|slots| - 1].tree == Leaf(Text("[REDACTED]")))
  }

  lemma CleanSnoc(names: set<string>, kind: Kind, before: seq<Slot>, s: Slot)
    requires CleanSlots(names, kind, before) && Clean(names, s.tree)
    requires Censors(names, kind, s.key) ==> s.tree == Leaf(CENSOR)
    ensures CleanSlots(names, kind, before + [s])
  {
    assert (before + [s])[..|before|] == before;
  }

  lemma {:induction false} AllCensored(names: set<string>, g: Graph, v: Value, seen: set<nat>)
    requires Closed(g) && Within(g, v)
    ensures Clean(names, Redact(names, g, v, seen).tree)
    decreases g.Keys - seen, 0, 0
  {
    if v.Ref? && v.id !in seen {
      assert v.id in g.Keys - seen;
      FieldsCensored(names, g, g[v.id].kind, g[v.id].fields, seen + {v.id});
    }
  }

  lemma {:induction false} FieldsCensored(names: set<string>, g: Graph, kind: Kind, fields: seq<Field>, seen: set<nat>)
    requires Closed(g) && forall i :: 0 <= i < |fields| ==> Within(g, fields[i].value)
    ensures CleanSlots(names, kind, RedactFields(names, g, kind, fields, seen).slots)
    decreases g.Keys - seen, 1, |fields|
  {
    if fields != [] {
      var before, f := RedactFields(names, g, kind, fields[..|fields| - 1], seen), fields[|fields| - 1];
      FieldsCensored(names, g, kind, fields[..|fields| - 1], seen);
      assert g.Keys - before.seen <= g.Keys - seen;
      if Censors(names, kind, f.key) {
        CleanSnoc(names, kind, before.slots, Slot(f.key, Leaf(CENSOR)));
      } else {
        AllCensored(names, g, f.value, before.seen);
        CleanSnoc(names, kind, before.slots, Slot(f.key, Redact(names, g, f.value, before.seen).tree));
      }
    }
  }

  /** Each slot of the result, by the property it comes from: a redacted key of a record holds the
      censor and nothing else; an element of an array, or any other key, holds what its own value
      redacts to after the properties before it. */
  lemma {:induction false} SlotsExactly(names: set<string>, g: Graph, kind: Kind, fields: seq<Field>, seen: set<nat>,
                                        i: nat)
    requires Closed(g) && (forall k :: 0 <= k < |fields| ==> Within(g, fields[k].value)) && i < |fields|
    ensures var slots := RedactFields(names, g, kind, fields, seen).slots;
      && slots[i].key == fields[i].key
      && (kind == Record && fields[i].key in names ==> slots[i].tree == Leaf(Text("[REDACTED]")))
      && (kind == List || fields[i].key !in names ==>
            slots[i].tree ==
              Redact(names, g, fields[i].value, RedactFields(names, g, kind, fields[..i], seen).seen).tree)
  {
    var init := fields[..|fields| - 1];
    if i < |fields| - 1 {
      SlotsExactly(names, g, kind, init, seen, i);
      assert init[..i] == fields[..i];
    }
  }

  /** The walk at one value: what is no object stays; an object seen before is a marker; any other is a
      new object of the same kind with a slot for each property, in order. */
  lemma ValueExactly(names: set<string>, g: Graph, v: Value, seen: set<nat>)
    requires Closed(g) && Within(g, v)
    ensures var t := Redact(names, g, v, seen).tree;
      && (v.Prim? ==> t == Leaf(v.p))
      && (v.Bytes? ==> t == Raw(v.b))
      && (v.Ref? && v.id in seen ==> t == Leaf(Text("[Circular]")))
      && (v.Ref? && v.id !in seen ==>
            t.Node? && t.kind == g[v.id].kind && |t.slots| == |g[v.id].fields| &&
            forall i :: 0 <= i < |t.slots| ==> t.slots[i].key == g[v.id].fields[i].key)
  {
    if v.Ref? && v.id !in seen {
      assert v.id in g.Keys - seen;
      forall i | 0 <= i < |g[v.id].fields|
        ensures
          RedactFields(names, g, g[v.id].kind, g[v.id].fields, seen + {v.id}).slots[i].key == g[v.id].fields[i].key
      {
        SlotsExactly(names, g, g[v.id].kind, g[v.id].fields, seen + {v.id}, i);
      }
    }
  }

  // ---------------------------------------------------------------------------
  // When the circular marker appears
  // ---------------------------------------------------------------------------

  /** The walk comes to an object it has been to before. */
  ghost predicate Marks(names: set<string>, g: Graph, v: Value, seen: set<nat>)
    requires Closed(g) && Within(g, v)
    decreases g.Keys - seen, 0, 0
  {
    v.Ref? && (v.id in seen ||
      (assert v.id in g.Keys - seen; MarksFields(names, g, g[v.id].kind, g[v.id].fields, seen + {v.id})))
  }

  ghost predicate MarksFields(names: set<string>, g: Graph, kind: Kind, fields: seq<Field>, seen: set<nat>)
    requires Closed(g) && forall i :: 0 <= i < |fields| ==> Within(g, fields[i].value)
    decreases g.Keys - seen, 1, |fields|
  {
    fields != [] &&
      var before, f := fields[..|fields| - 1], fields[|fields| - 1];
      (MarksFields(names, g, kind, before, seen) ||
       (!Censors(names, kind, f.key) &&
        (assert g.Keys - RedactFields(names, g, kind, before, seen).seen <= g.Keys - seen;
         Marks(names, g, f.value, RedactFields(names, g, kind, before, seen).seen))))
  }

  /** How an object can be reached: as the value itself, or by a property. */
  datatype Edge = Entry | Property(id: nat, i: nat)

  /** x is what e holds, and redaction follows e. */
  predicate Carries(names: set<string>, g: Graph, v: Value, e: Edge, x: Value) {
    match e
    case Entry => v == x
    case Property(id, i) =>
      && id in g && i < |g[id].fields| && g[id].fields[i].value == x
      && !(g[id].kind.Record? && g[id].fields[i].key in names)
  }

  /** e leads to object t, and redaction follows it. */
  predicate Leads(names: set<string>, g: Graph, v: Value, e: Edge, t: nat) {
    Carries(names, g, v, e, Ref(t))
  }

  /** The properties of the objects in `own`. */
  ghost function Properties(own: set<nat>): iset<Edge> {
    iset e: Edge | e.Property? && e.id in own
  }

  ghost function FirstProperties(id: nat, n: nat): iset<Edge> {
    iset e: Edge | e.Property? && e.id == id && e.i < n
  }

  ghost predicate Twice(names: set<string>, g: Graph, v: Value, es: iset<Edge>) {
    exists e, f, t :: e in es && f in es && e != f && Leads(names, g, v, e, t) && Leads(names, g, v, f, t)
  }

  ghost predicate Back(names: set<string>, g: Graph, v: Value, es: iset<Edge>, seen: set<nat>) {
    exists e, t :: e in es && Leads(names, g, v, e, t) && t in seen
  }

  /** A stretch of the walk followed the edges es, from `seen` to `now`: they reach exactly what is
      new, and one of them leads back, or two to one place, exactly if a marker was written. */
  ghost predicate Walked(names: set<string>, g: Graph, v: Value, es: iset<Edge>, seen: set<nat>, now: set<nat>,
                         marks: bool) {
    && seen <= now
    && (forall e, t :: e in es && Leads(names, g, v, e, t) ==> t in now)
    && (forall t :: t in now && t !in seen ==> exists e :: e in es && Leads(names, g, v, e, t))
    && (marks <==> Twice(names, g, v, es) || Back(names, g, v, es, seen))
  }

  lemma WalkedJoin(names: set<string>, g: Graph, v: Value, es: iset<Edge>, fs: iset<Edge>,
                   seen: set<nat>, mid: set<nat>, now: set<nat>, m: bool, n: bool)
    requires Walked(names, g, v, es, seen, mid, m) && Walked(names, g, v, fs, mid, now, n) && es !! fs
    ensures Walked(names, g, v, es + fs, seen, now, m || n)
  {
    var all := es + fs;
    forall t | t in now && t !in seen ensures exists e :: e in all && Leads(names, g, v, e, t) {
      if t in mid {
        var e :| e in es && Leads(names, g, v, e, t);
        assert e in all;
      } else {
        var e :| e in fs && Leads(names, g, v, e, t);
        assert e in all;
      }
    }
    if m || n {
      JoinMarks(names, g, v, es, fs, seen, mid, now, m, n);
    }
    if Twice(names, g, v, all) {
      var e, f, t :| e in all && f in all && e != f && Leads(names, g, v, e, t) && Leads(names, g, v, f, t);
      if e in es && f in es {
        assert Twice(names, g, v, es);
      } else if e in fs && f in fs {
        assert Twice(names, g, v, fs);
      } else {
        assert Back(names, g, v, fs, mid);
      }
    }
    if Back(names, g, v, all, seen) {
      var e, t :| e in all && Leads(names, g, v, e, t) && t in seen;
      assert Back(names, g, v, es, seen) || Back(names, g, v, fs, mid);
    }
  }

  lemma JoinMarks(names: set<string>, g: Graph, v: Value, es: iset<Edge>, fs: iset<Edge>,
                  seen: set<nat>, mid: set<nat>, now: set<nat>, m: bool, n: bool)
    requires Walked(names, g, v, es, seen, mid, m) && Walked(names, g, v, fs, mid, now, n) && es !! fs && (m || n)
    ensures Twice(names, g, v, es + fs) || Back(names, g, v, es + fs, seen)
  {
    if Twice(names, g, v, es) {
      var e, f, t :| e in es && f in es && e != f && Leads(names, g, v, e, t) && Leads(names, g, v, f, t);
      assert e in es + fs && f in es + fs;
    } else if Back(names, g, v, es, seen) {
      var e, t :| e in es && Leads(names, g, v, e, t) && t in seen;
      assert e in es + fs;
    } else if Twice(names, g, v, fs) {
      var e, f, t :| e in fs && f in fs && e != f && Leads(names, g, v, e, t) && Leads(names, g, v, f, t);
      assert e in es + fs && f in es + fs;
    } else {
      var e, t :| e in fs && Leads(names, g, v, e, t) && t in mid;
      assert e in es + fs;
      if t !in seen {
        var f :| f in es && Leads(names, g, v, f, t);
        assert f in es + fs && f != e;
      }
    }
  }

  /** Entering an object for the first time by the one edge e0. */
  lemma WalkedEnter(names: set<string>, g: Graph, v: Value, e0: Edge, id: nat, es: iset<Edge>,
                    seen: set<nat>, now: set<nat>, m: bool)
    requires Walked(names, g, v, es, seen + {id}, now, m) && id !in seen && e0 !in es
    requires forall t :: Leads(names, g, v, e0, t) <==> t == id
    ensures Walked(names, g, v, iset{e0} + es, seen, now, m)
  {
    assert Leads(names, g, v, e0, id);
    assert Walked(names, g, v, iset{e0}, seen, seen + {id}, false);
    WalkedJoin(names, g, v, iset{e0}, es, seen, seen + {id}, now, false, m);
  }

  lemma {:induction false} WalkFollows(names: set<string>, g: Graph, v0: Value, e0: Edge, v: Value, seen: set<nat>)
    requires Closed(g) && Within(g, v) && (e0.Property? ==> e0.id in seen)
    requires forall t :: Leads(names, g, v0, e0, t) <==> v == Ref(t)
    ensures var w := Redact(names, g, v, seen);
      Walked(names, g, v0, iset{e0} + Properties(w.seen - seen), seen, w.seen, Marks(names, g, v, seen))
    decreases g.Keys - seen, 0, 0
  {
    var w := Redact(names, g, v, seen);
    if v.Ref? && v.id !in seen {
      assert v.id in g.Keys - seen;
      var fields := g[v.id].fields;
      assert fields[..|fields|] == fields;
      FieldsFollow(names, g, v0, v.id, |fields|, seen + {v.id});
      var es := FirstProperties(v.id, |fields|) + Properties(w.seen - (seen + {v.id}));
      WalkedEnter(names, g, v0, e0, v.id, es, seen, w.seen, Marks(names, g, v, seen));
      SameEdges(names, g, v0, iset{e0} + es, iset{e0} + Properties(w.seen - seen), seen, w.seen,
                Marks(names, g, v, seen));
    } else {
      assert w.seen - seen == {};
      if v.Ref? {
        assert Leads(names, g, v0, e0, v.id);
      }
    }
  }

  /** Edges that lead nowhere do not matter. */
  lemma SameEdges(names: set<string>, g: Graph, v: Value, es: iset<Edge>, fs: iset<Edge>,
                  seen: set<nat>, now: set<nat>, m: bool)
    requires Walked(names, g, v, es, seen, now, m)
    requires forall e, t :: Leads(names, g, v, e, t) ==> (e in es <==> e in fs)
    ensures Walked(names, g, v, fs, seen, now, m)
  {
    forall t | t in now && t !in seen ensures exists e :: e in fs && Leads(names, g, v, e, t) {
      var e :| e in es && Leads(names, g, v, e, t);
      assert e in fs;
    }
    if Twice(names, g, v, es) {
      var e, f, t :| e in es && f in es && e != f && Leads(names, g, v, e, t) && Leads(names, g, v, f, t);
      assert e in fs && f in fs;
    }
    if Back(names, g, v, es, seen) {
      var e, t :| e in es && Leads(names, g, v, e, t) && t in seen;
      assert e in fs;
    }
    if Twice(names, g, v, fs) {
      var e, f, t :| e in fs && f in fs && e != f && Leads(names, g, v, e, t) && Leads(names, g, v, f, t);
      assert e in es && f in es;
    }
    if Back(names, g, v, fs, seen) {
      var e, t :| e in fs && Leads(names, g, v, e, t) && t in seen;
      assert e in es;
    }
  }

  lemma {:induction false} FieldsFollow(names: set<string>, g: Graph, v0: Value, id: nat, n: nat, seen: set<nat>)
    requires Closed(g) && id in g && id in seen && n <= |g[id].fields|
    ensures var r := RedactFields(names, g, g[id].kind, g[id].fields[..n], seen);
      Walked(names, g, v0, FirstProperties(id, n) + Properties(r.seen - seen), seen, r.seen,
             MarksFields(names, g, g[id].kind, g[id].fields[..n], seen))
    decreases g.Keys - seen, 1, n
  {
    var kind, fields := g[id].kind, g[id].fields;
    if n > 0 {
      var mid := RedactFields(names, g, kind, fields[..n - 1], seen).seen;
      FieldsFollow(names, g, v0, id, n - 1, seen);
      assert g.Keys - mid <= g.Keys - seen;
      if !Censors(names, kind, fields[n - 1].key) {
        WalkFollows(names, g, v0, Property(id, n - 1), fields[n - 1].value, mid);
      }
      assert fields[..n] == fields[..n - 1] + [fields[n - 1]];
      var now, last := OneMore(names, g, kind, fields[..n - 1], fields[n - 1], seen);
      LastEdge(names, g, v0, id, n, seen, mid, now, MarksFields(names, g, kind, fields[..n - 1], seen), last);
    }
  }

  /** The walk and its markers over one more property. */
  lemma OneMore(names: set<string>, g: Graph, kind: Kind, before: seq<Field>, f: Field, seen: set<nat>)
    returns (now: set<nat>, last: bool)
    requires Closed(g) && (forall i :: 0 <= i < |before| ==> Within(g, before[i].value)) && Within(g, f.value)
    ensures var mid := RedactFields(names, g, kind, before, seen).seen;
      && last == (!Censors(names, kind, f.key) && Marks(names, g, f.value, mid))
      && now == (if Censors(names, kind, f.key) then mid else Redact(names, g, f.value, mid).seen)
      && RedactFields(names, g, kind, before + [f], seen).seen == now
      && MarksFields(names, g, kind, before + [f], seen) == (MarksFields(names, g, kind, before, seen) || last)
  {
    var mid := RedactFields(names, g, kind, before, seen).seen;
    now := if Censors(names, kind, f.key) then mid else Redact(names, g, f.value, mid).seen;
    last := !Censors(names, kind, f.key) && Marks(names, g, f.value, mid);
    assert (before + [f])[..|before|] == before;
  }

  lemma LastEdge(names: set<string>, g: Graph, v0: Value, id: nat, n: nat, seen: set<nat>, mid: set<nat>, now: set<nat>,
                 m: bool, last: bool)
    requires id in g && id in seen && 0 < n <= |g[id].fields| && seen <= mid <= now
    requires Walked(names, g, v0, FirstProperties(id, n - 1) + Properties(mid - seen), seen, mid, m)
    requires if Censors(names, g[id].kind, g[id].fields[n - 1].key) then now == mid && !last
             else Walked(names, g, v0, iset{Property(id, n - 1)} + Properties(now - mid), mid, now, last)
    ensures Walked(names, g, v0, FirstProperties(id, n) + Properties(now - seen), seen, now, m || last)
  {
    var es := FirstProperties(id, n - 1) + Properties(mid - seen);
    var fs := iset{Property(id, n - 1)} + Properties(now - mid);
    if Censors(names, g[id].kind, g[id].fields[n - 1].key) {
      assert now - mid == {};
      assert Walked(names, g, v0, fs, mid, now, false);
    }
    WalkedJoin(names, g, v0, es, fs, seen, mid, now, m, last);
    SameEdges(names, g, v0, es + fs, FirstProperties(id, n) + Properties(now - seen), seen, now, m || last);
  }

  /** Exactly when the walk writes the circular marker, on every graph: when some object is reached
      twice, from the value or from objects that are themselves reached, by properties that
      redaction follows. A cycle is one way; mere sharing is another. */
  lemma MarksExactly(names: set<string>, g: Graph, v: Value)
    requires Closed(g) && Within(g, v)
    ensures Marks(names, g, v, {}) <==> Twice(names, g, v, iset{Entry} + Properties(Redact(names, g, v, {}).seen))
  {
    WalkFollows(names, g, v, Entry, v, {});
    var none: set<nat> := {};
    assert Redact(names, g, v, {}).seen - none == Redact(names, g, v, {}).seen;
  }

  /** The objects visited are exactly those that can be reached: the visited set is closed under the
      properties that redaction follows, and within every set that is. */
  lemma VisitedExactly(names: set<string>, g: Graph, v: Value, region: set<nat>)
    requires Closed(g) && Within(g, v)
    ensures var s := Redact(names, g, v, {}).seen;
      && (v.Ref? ==> v.id in s)
      && (forall e, t :: e in Properties(s) && Leads(names, g, v, e, t) ==> t in s)
      && ((v.Ref? ==> v.id in region)
          && (forall e, t :: e in Properties(region) && Leads(names, g, v, e, t) ==> t in region)
          ==> s <= region)
  {
    WalkFollows(names, g, v, Entry, v, {});
    var s, none: set<nat> := Redact(names, g, v, {}).seen, {};
    assert s - none == s;
    if (v.Ref? ==> v.id in region)
       && (forall e, t :: e in Properties(region) && Leads(names, g, v, e, t) ==> t in region) {
      StaysInside(names, g, v, v, {}, region);
    }
  }

  lemma {:induction false} StaysInside(names: set<string>, g: Graph, v0: Value, v: Value, seen: set<nat>,
                                       region: set<nat>)
    requires Closed(g) && Within(g, v) && seen <= region && (v.Ref? ==> v.id in region)
    requires forall e, t :: e in Properties(region) && Leads(names, g, v0, e, t) ==> t in region
    ensures Redact(names, g, v, seen).seen <= region
    decreases g.Keys - seen, 0, 0
  {
    if v.Ref? && v.id !in seen {
      assert v.id in g.Keys - seen;
      assert g[v.id].fields[..|g[v.id].fields|] == g[v.id].fields;
      FieldsStayInside(names, g, v0, v.id, |g[v.id].fields|, seen + {v.id}, region);
    }
  }

  lemma {:induction false} FieldsStayInside(names: set<string>, g: Graph, v0: Value, id: nat, n: nat,
                                           seen: set<nat>, region: set<nat>)
    requires Closed(g) && id in g && id in region && n <= |g[id].fields| && seen <= region
    requires forall e, t :: e in Properties(region) && Leads(names, g, v0, e, t) ==> t in region
    ensures RedactFields(names, g, g[id].kind, g[id].fields[..n], seen).seen <= region
    decreases g.Keys - seen, 1, n
  {
    if n > 0 {
      var kind, fields := g[id].kind, g[id].fields;
      var before := RedactFields(names, g, kind, fields[..n - 1], seen);
      assert fields[..n][..n - 1] == fields[..n - 1];
      FieldsStayInside(names, g, v0, id, n - 1, seen, region);
      assert g.Keys - before.seen <= g.Keys - seen;
      if !Censors(names, kind, fields[n - 1].key) {
        var f := fields[n - 1].value;
        if f.Ref? {
          assert Leads(names, g, v0, Property(id, n - 1), f.id);
        }
        StaysInside(names, g, v0, f, before.seen, region);
      }
    }
  }

  // ---------------------------------------------------------------------------
  // Which values come out
  // ---------------------------------------------------------------------------

  /** The value x stands in the output; x is no object. */
  ghost predicate Shows(t: Tree, x: Value) {
    match t
    case Leaf(p) => x == Prim(p)
    case Raw(b) => x == Bytes(b)
    case Node(_, slots) => SlotsShow(slots, x)
  }

  ghost predicate SlotsShow(slots: seq<Slot>, x: Value) {
    slots != [] && (SlotsShow(slots[..|slots| - 1], x) || Shows(slots[|slots| - 1].tree, x))
  }

  predicate Plain(x: Value) {
    !x.Ref? && x != Prim(CENSOR) && x != Prim(CIRCULAR)
  }

  ghost predicate Held(names: set<string>, g: Graph, v: Value, es: iset<Edge>, x: Value) {
    exists e :: e in es && Carries(names, g, v, e, x)
  }

  lemma {:induction false} WalkShows(names: set<string>, g: Graph, v0: Value, v: Value, seen: set<nat>, x: Value)
    requires Closed(g) && Within(g, v) && Plain(x)
    ensures var w := Redact(names, g, v, seen);
      Shows(w.tree, x) <==> v == x || Held(names, g, v0, Properties(w.seen - seen), x)
    decreases g.Keys - seen, 0, 0
  {
    var w := Redact(names, g, v, seen);
    if v.Ref? && v.id !in seen {
      assert v.id in g.Keys - seen;
      var fields := g[v.id].fields;
      assert fields[..|fields|] == fields;
      FieldsShow(names, g, v0, v.id, |fields|, seen + {v.id}, x);
      HeldSame(names, g, v0, FirstProperties(v.id, |fields|) + Properties(w.seen - (seen + {v.id})),
               Properties(w.seen - seen), x);
    } else {
      assert w.seen - seen == {};
    }
  }

  lemma HeldSame(names: set<string>, g: Graph, v: Value, es: iset<Edge>, fs: iset<Edge>, x: Value)
    requires forall e :: Carries(names, g, v, e, x) ==> (e in es <==> e in fs)
    ensures Held(names, g, v, es, x) <==> Held(names, g, v, fs, x)
  {
  }

  lemma {:induction false} FieldsShow(names: set<string>, g: Graph, v0: Value, id: nat, n: nat, seen: set<nat>,
                                      x: Value)
    requires Closed(g) && id in g && id in seen && n <= |g[id].fields| && Plain(x)
    ensures var r := RedactFields(names, g, g[id].kind, g[id].fields[..n], seen);
      SlotsShow(r.slots, x) <==> Held(names, g, v0, FirstProperties(id, n) + Properties(r.seen - seen), x)
    decreases g.Keys - seen, 1, n
  {
    var kind, fields := g[id].kind, g[id].fields;
    if n > 0 {
      var before, f := RedactFields(names, g, kind, fields[..n - 1], seen), fields[n - 1];
      var r := RedactFields(names, g, kind, fields[..n], seen);
      assert fields[..n][..n - 1] == fields[..n - 1];
      FieldsShow(names, g, v0, id, n - 1, seen, x);
      assert g.Keys - before.seen <= g.Keys - seen;
      assert r.slots[..n - 1] == before.slots;
      if !Censors(names, kind, f.key) {
        WalkShows(names, g, v0, f.value, before.seen, x);
      }
      LastShows(names, g, v0, id, n, seen, before.seen, r.seen, x);
    }
  }

  /** What the edges hold over one more property. */
  lemma LastShows(names: set<string>, g: Graph, v0: Value, id: nat, n: nat, seen: set<nat>, mid: set<nat>,
                  now: set<nat>, x: Value)
    requires id in g && 0 < n <= |g[id].fields| && seen <= mid <= now
    requires Censors(names, g[id].kind, g[id].fields[n - 1].key) ==> now == mid
    ensures Held(names, g, v0, FirstProperties(id, n) + Properties(now - seen), x) <==>
      || Held(names, g, v0, FirstProperties(id, n - 1) + Properties(mid - seen), x)
      || Held(names, g, v0, Properties(now - mid), x)
      || (!Censors(names, g[id].kind, g[id].fields[n - 1].key) && g[id].fields[n - 1].value == x)
  {
    var es, fs := FirstProperties(id, n) + Properties(now - seen), FirstProperties(id, n - 1) + Properties(mid - seen);
    if e :| e in fs && Carries(names, g, v0, e, x) {
      assert e in es;
    }
    if e :| e in Properties(now - mid) && Carries(names, g, v0, e, x) {
      assert e in es;
    }
    if Carries(names, g, v0, Property(id, n - 1), x) {
      assert Property(id, n - 1) in es;
    }
    if e :| e in es && Carries(names, g, v0, e, x) {
      assert e in fs || e in Properties(now - mid) || e == Property(id, n - 1);
    }
  }

  /** Exactly which values come out, on every graph: the value itself, and what is held by a
      property that redaction follows from an object that it reaches. Texts and byte arrays
      alike; only the two markers may appear besides. */
  lemma ShownExactly(names: set<string>, g: Graph, v: Value, x: Value)
    requires Closed(g) && Within(g, v) && Plain(x)
    ensures var w := Redact(names, g, v, {});
      Shows(w.tree, x) <==> Held(names, g, v, iset{Entry} + Properties(w.seen), x)
  {
    WalkShows(names, g, v, v, {}, x);
    var w, none: set<nat> := Redact(names, g, v, {}), {};
    assert w.seen - none == w.seen;
    if v == x {
      assert Carries(names, g, v, Entry, x);
    }
    if Held(names, g, v, Properties(w.seen), x) {
      var e :| e in Properties(w.seen) && Carries(names, g, v, e, x);
      assert e in iset{Entry} + Properties(w.seen);
    }
  }

  /** So a secret stays hidden behind redacted keys, at any depth below them: if the objects outside
      are closed under the properties that redaction follows, and none of those holds the secret,
      it does not come out. */
  lemma GuardedNeverShows(names: set<string>, g: Graph, v: Value, outside: set<nat>, x: Value)
    requires Closed(g) && Within(g, v) && Plain(x) && v != x
    requires (v.Ref? ==> v.id in outside)
      && (forall e, t :: e in Properties(outside) && Leads(names, g, v, e, t) ==> t in outside)
    requires !Held(names, g, v, Properties(outside), x)
    ensures !Shows(Redact(names, g, v, {}).tree, x)
  {
    VisitedExactly(names, g, v, outside);
    ShownExactly(names, g, v, x);
  }

  /** Where no input text is the marker, the marker in the output is always one the walk wrote. */
  lemma {:induction false} MarkShows(names: set<string>, g: Graph, v: Value, seen: set<nat>)
    requires Closed(g) && Within(g, v) && v != Prim(CIRCULAR) && NoMarker(g)
    ensures Shows(Redact(names, g, v, seen).tree, Prim(CIRCULAR)) <==> Marks(names, g, v, seen)
    decreases g.Keys - seen, 0, 0
  {
    if v.Ref? && v.id !in seen {
      assert v.id in g.Keys - seen;
      FieldMarkShows(names, g, g[v.id].kind, g[v.id].fields, seen + {v.id});
    }
  }

  ghost predicate NoMarker(g: Graph) {
    forall id, i :: id in g && 0 <= i < |g[id].fields| ==> g[id].fields[i].value != Prim(CIRCULAR)
  }

  lemma {:induction false} FieldMarkShows(names: set<string>, g: Graph, kind: Kind, fields: seq<Field>, seen: set<nat>)
    requires Closed(g) && forall i :: 0 <= i < |fields| ==> Within(g, fields[i].value)
    requires NoMarker(g) && forall i :: 0 <= i < |fields| ==> fields[i].value != Prim(CIRCULAR)
    ensures SlotsShow(RedactFields(names, g, kind, fields, seen).slots, Prim(CIRCULAR)) <==>
      MarksFields(names, g, kind, fields, seen)
    decreases g.Keys - seen, 1, |fields|
  {
    if fields != [] {
      var before, f := RedactFields(names, g, kind, fields[..|fields| - 1], seen), fields[|fields| - 1];
      var r := RedactFields(names, g, kind, fields, seen);
      FieldMarkShows(names, g, kind, fields[..|fields| - 1], seen);
      assert g.Keys - before.seen <= g.Keys - seen;
      assert r.slots[..|fields| - 1] == before.slots;
      if Censors(names, kind, f.key) {
        assert !Shows(Leaf(CENSOR), Prim(CIRCULAR)) by {
          assert CENSOR.s[1] != CIRCULAR.s[1];
        }
      } else {
        MarkShows(names, g, f.value, before.seen);
      }
    }
  }

  // ---------------------------------------------------------------------------
  // Trees as object graphs
  // ---------------------------------------------------------------------------

  /** v is the root of t's objects, numbered from lo in the order the walk makes them. */
  ghost predicate Built(g: Graph, v: Value, t: Tree, lo: nat)
    decreases t
  {
    match t
    case Leaf(p) => v == Prim(p)
    case Raw(b) => v == Bytes(b)
    case Node(kind, slots) =>
      v == Ref(lo) && lo in g && g[lo].kind == kind && BuiltFields(g, g[lo].fields, slots, lo + 1)
  }

  ghost predicate BuiltFields(g: Graph, fields: seq<Field>, slots: seq<Slot>, lo: nat)
    decreases slots
  {
    |fields| == |slots| && (slots != [] ==>
      && BuiltFields(g, fields[..|fields| - 1], slots[..|slots| - 1], lo)
      && fields[|fields| - 1].key == slots[|slots| - 1].key
      && Built(g, fields[|fields| - 1].value, slots[|slots| - 1].tree, lo + SizeOf(slots[..|slots| - 1])))
  }

  ghost predicate SameOn(g: Graph, h: Graph, lo: nat, hi: nat) {
    forall id :: lo <= id < hi && id in g ==> id in h && h[id] == g[id]
  }

  lemma {:induction false} BuiltFrame(g: Graph, h: Graph, v: Value, t: Tree, lo: nat)
    requires Built(g, v, t, lo) && SameOn(g, h, lo, lo + Size(t))
    ensures Built(h, v, t, lo)
    decreases t
  {
    if t.Node? {
      FieldsFrame(g, h, g[lo].fields, t.slots, lo + 1);
    }
  }

  lemma {:induction false} FieldsFrame(g: Graph, h: Graph, fields: seq<Field>, slots: seq<Slot>, lo: nat)
    requires BuiltFields(g, fields, slots, lo) && SameOn(g, h, lo, lo + SizeOf(slots))
    ensures BuiltFields(h, fields, slots, lo)
    decreases slots
  {
    if slots != [] {
      FieldsFrame(g, h, fields[..|fields| - 1], slots[..|slots| - 1], lo);
      BuiltFrame(g, h, fields[|fields| - 1].value, slots[|slots| - 1].tree, lo + SizeOf(slots[..|slots| - 1]));
    }
  }

  lemma BuiltSnoc(g: Graph, fields: seq<Field>, slots: seq<Slot>, lo: nat, f: Field, s: Slot)
    requires BuiltFields(g, fields, slots, lo) && f.key == s.key && Built(g, f.value, s.tree, lo + SizeOf(slots))
    ensures BuiltFields(g, fields + [f], slots + [s], lo) && SizeOf(slots + [s]) == SizeOf(slots) + Size(s.tree)
  {
    var fs, ss := fields + [f], slots + [s];
    assert fs[..|fs| - 1] == fields && fs[|fs| - 1] == f;
    assert ss[..|ss| - 1] == slots && ss[|ss| - 1] == s;
  }

  /** Storing a property in an object under construction. */
  lemma StoredField(g: Graph, out: nat, f: Field, slots: seq<Slot>, s: Slot)
    requires out in g && BuiltFields(g, g[out].fields, slots, out + 1)
    requires f.key == s.key && Built(g, f.value, s.tree, out + 1 + SizeOf(slots))
    ensures var h := g[out := Obj(g[out].kind, g[out].fields + [f])];
      BuiltFields(h, h[out].fields, slots + [s], out + 1) && SizeOf(slots + [s]) == SizeOf(slots) + Size(s.tree)
  {
    var h := g[out := Obj(g[out].kind, g[out].fields + [f])];
    FieldsFrame(g, h, g[out].fields, slots, out + 1);
    BuiltFrame(g, h, f.value, s.tree, out + 1 + SizeOf(slots));
    BuiltSnoc(h, g[out].fields, slots, out + 1, f, s);
  }

  // ---------------------------------------------------------------------------
  // Idempotence
  // ---------------------------------------------------------------------------

  /** The objects of g that t is read from, starting at v. */
  ghost function Own(g: Graph, v: Value, t: Tree): set<nat>
    decreases t
  {
    if t.Node? && v.Ref? && v.id in g then {v.id} + OwnFields(g, g[v.id].fields, t.slots) else {}
  }

  ghost function OwnFields(g: Graph, fields: seq<Field>, slots: seq<Slot>): set<nat>
    decreases slots
  {
    if slots == [] || |fields| != |slots| then {}
    else OwnFields(g, fields[..|fields| - 1], slots[..|slots| - 1])
         + Own(g, fields[|fields| - 1].value, slots[|slots| - 1].tree)
  }

  /** From v the graph reads as the tree t, and no object is read twice. */
  ghost predicate Unfolds(g: Graph, v: Value, t: Tree)
    decreases t
  {
    match t
    case Leaf(p) => v == Prim(p)
    case Raw(b) => v == Bytes(b)
    case Node(kind, slots) =>
      && v.Ref? && v.id in g && g[v.id].kind == kind
      && v.id !in OwnFields(g, g[v.id].fields, slots) && UnfoldsFields(g, g[v.id].fields, slots)
  }

  ghost predicate UnfoldsFields(g: Graph, fields: seq<Field>, slots: seq<Slot>)
    decreases slots
  {
    |fields| == |slots| && (slots != [] ==>
      && UnfoldsFields(g, fields[..|fields| - 1], slots[..|slots| - 1])
      && fields[|fields| - 1].key == slots[|slots| - 1].key
      && Unfolds(g, fields[|fields| - 1].value, slots[|slots| - 1].tree)
      && OwnFields(g, fields[..|fields| - 1], slots[..|slots| - 1])
         !! Own(g, fields[|fields| - 1].value, slots[|slots| - 1].tree))
  }

  /** A clean tree of objects nobody shares comes out as it went in, in whatever order its objects
      were made, and the walk visits just those objects. */
  lemma {:induction false} Reproduced(names: set<string>, g: Graph, v: Value, t: Tree, seen: set<nat>)
    requires Closed(g) && Within(g, v) && Unfolds(g, v, t) && Clean(names, t) && Own(g, v, t) !! seen
    ensures Redact(names, g, v, seen) == Walk(t, seen + Own(g, v, t))
    decreases t, 0
  {
    if t.Node? {
      FieldsReproduced(names, g, t.kind, g[v.id].fields, t.slots, seen + {v.id});
    }
  }

  lemma Regroup(seen: set<nat>, a: set<nat>, b: set<nat>)
    requires a + b !! seen && a !! b
    ensures a !! seen && b !! seen + a && seen + (a + b) == seen + a + b
  {
  }

  lemma {:induction false} FieldsReproduced(names: set<string>, g: Graph, kind: Kind, fields: seq<Field>,
                                            slots: seq<Slot>, seen: set<nat>)
    requires Closed(g) && forall i :: 0 <= i < |fields| ==> Within(g, fields[i].value)
    requires UnfoldsFields(g, fields, slots) && CleanSlots(names, kind, slots) && OwnFields(g, fields, slots) !! seen
    ensures RedactFields(names, g, kind, fields, seen) == Walks(slots, seen + OwnFields(g, fields, slots))
    decreases slots
  {
    hide Redact, Unfolds, Clean;
    if slots != [] {
      var front, f := fields[..|fields| - 1], fields[|fields| - 1];
      var init, last := slots[..|slots| - 1], slots[|slots| - 1];
      var a, b := OwnFields(g, front, init), Own(g, f.value, last.tree);
      Regroup(seen, a, b);
      FieldsReproduced(names, g, kind, front, init, seen);
      LastReproduced(names, g, kind, f, last, seen + a);
      assert slots == init + [Slot(f.key, last.tree)];
      LastField(names, g, kind, fields, seen, init, seen + a, last.tree, seen + a + b);
    }
  }

  lemma LastReproduced(names: set<string>, g: Graph, kind: Kind, f: Field, s: Slot, mid: set<nat>)
    requires Closed(g) && Within(g, f.value) && Unfolds(g, f.value, s.tree) && Own(g, f.value, s.tree) !! mid
    requires Clean(names, s.tree) && (Censors(names, kind, f.key) ==> s.tree == Leaf(CENSOR))
    ensures if Censors(names, kind, f.key) then mid + Own(g, f.value, s.tree) == mid
            else Redact(names, g, f.value, mid) == Walk(s.tree, mid + Own(g, f.value, s.tree))
    decreases s.tree, 1
  {
    hide Redact, Unfolds, Clean;
    if !Censors(names, kind, f.key) {
      Reproduced(names, g, f.value, s.tree, mid);
    }
  }

  /** How the walk goes over the last property. */
  lemma LastField(names: set<string>, g: Graph, kind: Kind, fields: seq<Field>, seen: set<nat>,
                  init: seq<Slot>, mid: set<nat>, tree: Tree, now: set<nat>)
    requires Closed(g) && (forall i :: 0 <= i < |fields| ==> Within(g, fields[i].value)) && fields != []
    requires RedactFields(names, g, kind, fields[..|fields| - 1], seen) == Walks(init, mid)
    requires var f := fields[|fields| - 1];
      if Censors(names, kind, f.key) then tree == Leaf(CENSOR) && now == mid
      else Redact(names, g, f.value, mid) == Walk(tree, now)
    ensures RedactFields(names, g, kind, fields, seen) == Walks(init + [Slot(fields[|fields| - 1].key, tree)], now)
  {
  }

  /** Redacting what reads as the redacted tree changes nothing. */
  lemma Idempotent(names: set<string>, g: Graph, v: Value, h: Graph, r: Value)
    requires Closed(g) && Within(g, v) && Closed(h) && Within(h, r)
    requires Unfolds(h, r, Redact(names, g, v, {}).tree)
    ensures Redact(names, h, r, {}).tree == Redact(names, g, v, {}).tree
  {
    AllCensored(names, g, v, {});
    Reproduced(names, h, r, Redact(names, g, v, {}).tree, {});
  }

  /** What the code builds reads as its tree, out of just the objects it made. */
  lemma {:induction false} BuiltUnfolds(g: Graph, v: Value, t: Tree, lo: nat)
    requires Built(g, v, t, lo)
    ensures Unfolds(g, v, t) && forall id :: id in Own(g, v, t) <==> lo <= id < lo + Size(t)
    decreases t
  {
    if t.Node? {
      FieldsBuiltUnfold(g, g[lo].fields, t.slots, lo + 1);
    }
  }

  lemma {:induction false} FieldsBuiltUnfold(g: Graph, fields: seq<Field>, slots: seq<Slot>, lo: nat)
    requires BuiltFields(g, fields, slots, lo)
    ensures UnfoldsFields(g, fields, slots)
    ensures forall id :: id in OwnFields(g, fields, slots) <==> lo <= id < lo + SizeOf(slots)
    decreases slots
  {
    if slots != [] {
      FieldsBuiltUnfold(g, fields[..|fields| - 1], slots[..|slots| - 1], lo);
      BuiltUnfolds(g, fields[|fields| - 1].value, slots[|slots| - 1].tree, lo + SizeOf(slots[..|slots| - 1]));
    }
  }

  /** The objects of a tree refer only to one another. */
  lemma {:induction false} OwnClosed(g: Graph, v: Value, t: Tree)
    requires Unfolds(g, v, t)
    ensures v.Ref? ==> v.id in Own(g, v, t)
    ensures forall id, i :: id in Own(g, v, t) && id in g && 0 <= i < |g[id].fields| ==>
      g[id].fields[i].value.Ref? ==> g[id].fields[i].value.id in Own(g, v, t)
    decreases t
  {
    if t.Node? {
      OwnFieldsClosed(g, g[v.id].fields, t.slots);
    }
  }

  lemma {:induction false} OwnFieldsClosed(g: Graph, fields: seq<Field>, slots: seq<Slot>)
    requires UnfoldsFields(g, fields, slots)
    ensures forall i :: 0 <= i < |fields| && fields[i].value.Ref? ==> fields[i].value.id in OwnFields(g, fields, slots)
    ensures forall id, i :: id in OwnFields(g, fields, slots) && id in g && 0 <= i < |g[id].fields| ==>
      g[id].fields[i].value.Ref? ==> g[id].fields[i].value.id in OwnFields(g, fields, slots)
    decreases slots
  {
    if slots != [] {
      OwnFieldsClosed(g, fields[..|fields| - 1], slots[..|slots| - 1]);
      OwnClosed(g, fields[|fields| - 1].value, slots[|slots| - 1].tree);
    }
  }

  /** The objects numbered from lo on that the code built for t. */
  ghost function Part(g: Graph, lo: nat, t: Tree): Graph {
    map id | id in g && lo <= id < lo + Size(t) :: g[id]
  }

  lemma PartStands(g: Graph, v: Value, t: Tree, lo: nat)
    requires Built(g, v, t, lo)
    ensures Closed(Part(g, lo, t)) && Within(Part(g, lo, t), v) && Unfolds(Part(g, lo, t), v, t)
  {
    BuiltUnfolds(g, v, t, lo);
    OwnClosed(g, v, t);
    var h := Part(g, lo, t);
    BuiltFrame(g, h, v, t, lo);
    BuiltUnfolds(h, v, t, lo);
    OwnInside(g, v, t);
    forall id, i | id in h && 0 <= i < |h[id].fields| ensures Within(h, h[id].fields[i].value) {
    }
  }

  lemma {:induction false} OwnInside(g: Graph, v: Value, t: Tree)
    ensures forall id :: id in Own(g, v, t) ==> id in g
    decreases t
  {
    if t.Node? && v.Ref? && v.id in g {
      OwnFieldsInside(g, g[v.id].fields, t.slots);
    }
  }

  lemma {:induction false} OwnFieldsInside(g: Graph, fields: seq<Field>, slots: seq<Slot>)
    ensures forall id :: id in OwnFields(g, fields, slots) ==> id in g
    decreases slots
  {
    if slots != [] && |fields| == |slots| {
      OwnFieldsInside(g, fields[..|fields| - 1], slots[..|slots| - 1]);
      OwnInside(g, fields[|fields| - 1].value, slots[|slots| - 1].tree);
    }
  }

  /** The set of visited objects is never unwound, so an object reached twice comes out as the
      circular marker the second time even where there is no cycle. */
  lemma SharedReadsCircular(names: set<string>)
    requires "a" !in names && "b" !in names
    ensures var g: Graph := map[0 := Obj(Record, [Field("a", Ref(1)), Field("b", Ref(1))]), 1 := Obj(Record, [])];
      Closed(g) &&
      Redact(names, g, Ref(0), {}).tree
        == Node(Record, [Slot("a", Node(Record, [])), Slot("b", Leaf(Text("[Circular]")))])
  {
    var fields := [Field("a", Ref(1)), Field("b", Ref(1))];
    var g: Graph := map[0 := Obj(Record, fields), 1 := Obj(Record, [])];
    assert fields[..1] == [Field("a", Ref(1))];
    assert fields[..1][..0] == [];
    assert RedactFields(names, g, Record, [], {0}) == Walks([], {0});
    assert Redact(names, g, Ref(1), {0}) == Walk(Node(Record, []), {0, 1});
    assert RedactFields(names, g, Record, fields[..1], {0}) == Walks([Slot("a", Node(Record, []))], {0, 1});
    assert Redact(names, g, Ref(1), {0, 1}) == Walk(Leaf(CIRCULAR), {0, 1});
    assert fields[..|fields| - 1] == fields[..1];
    assert RedactFields(names, g, Record, fields, {0}).slots
        == [Slot("a", Node(Record, []))] + [Slot("b", Leaf(CIRCULAR))];
    var none: set<nat> := {};
    assert none + {0} == {0};
  }

  // ---------------------------------------------------------------------------
  // The code
  // ---------------------------------------------------------------------------

  /** The JavaScript heap and the WeakSet of one deepRedact call. */
  class Redactor {
    var objects: Graph
    var next: nat
    var seen: set<nat>

    constructor (g: Graph, next: nat)
      ensures objects == g && this.next == next && seen == {}
    {
      objects, this.next, seen := g, next, {};
    }

    ghost predicate Holds(g: Graph)
      reads this
    {
      && Closed(g)
      && (forall id :: id in g ==> id in objects && objects[id] == g[id])
      && (forall id :: id in objects ==> id < next)
    }

    /** Builds the redacted tree out of new objects; every object that was there stays as it was. */
    method DeepRedactImpl(names: set<string>, v: Value, ghost g: Graph) returns (r: Value)
      requires Holds(g) && Within(g, v)
      modifies this
      ensures Holds(g) && Kept(old(objects))
      ensures var w := Redact(names, g, v, old(seen));
        seen == w.seen && next == old(next) + Size(w.tree) && Built(objects, r, w.tree, old(next))
      decreases g.Keys - seen, 0, 0
    {
      if v.Prim? || v.Bytes? {
        return v;
      }
      if v.id in seen {
        return Prim(CIRCULAR);
      }
      assert v.id in g.Keys - seen;
      seen := seen + {v.id};
      var out := next;
      objects := objects[out := Obj(objects[v.id].kind, [])];
      next := next + 1;
      RedactProperties(names, objects[v.id].kind, objects[v.id].fields, g, out);
      return Ref(out);
    }

    /** The loop over an object's properties, filling the new object `out`. */
    method RedactProperties(names: set<string>, kind: Kind, fields: seq<Field>, ghost g: Graph, out: nat)
      requires Holds(g) && (forall i :: 0 <= i < |fields| ==> Within(g, fields[i].value))
      requires out in objects && objects[out] == Obj(kind, []) && out !in g && next == out + 1
      modifies this
      ensures Holds(g)
      ensures forall id :: id in old(objects) && id != out ==> id in objects && objects[id] == old(objects)[id]
      ensures var r := RedactFields(names, g, kind, fields, old(seen));
        && seen == r.seen && next == out + 1 + SizeOf(r.slots)
        && out in objects && objects[out].kind == kind && BuiltFields(objects, objects[out].fields, r.slots, out + 1)
      decreases g.Keys - seen, 2
    {
      hide Redact, Censors, Built, Size;
      ghost var before := objects - {out};
      ghost var w := Walks([], seen);
      for i := 0 to |fields|
        invariant w == RedactFields(names, g, kind, fields[..i], old(seen)) && seen == w.seen
        invariant Holds(g) && Kept(before) && out in objects && objects[out].kind == kind
        invariant next == out + 1 + SizeOf(w.slots) && BuiltFields(objects, objects[out].fields, w.slots, out + 1)
      {
        w := RedactProperty(names, kind, fields, i, g, out, old(seen), w, before);
      }
      assert fields[..|fields|] == fields;
    }

    /** One round of that loop: property i is censored or redacted, and stored. */
    method RedactProperty(names: set<string>, kind: Kind, fields: seq<Field>, i: nat, ghost g: Graph, out: nat,
                          ghost seen0: set<nat>, ghost w: Walks, ghost before: Graph) returns (ghost w': Walks)
      requires Holds(g) && i < |fields| && forall k :: 0 <= k < |fields| ==> Within(g, fields[k].value)
      requires w == RedactFields(names, g, kind, fields[..i], seen0) && seen == w.seen
      requires Kept(before) && out in objects && out !in before && out !in g && objects[out].kind == kind
      requires next == out + 1 + SizeOf(w.slots) && BuiltFields(objects, objects[out].fields, w.slots, out + 1)
      modifies this
      ensures w' == RedactFields(names, g, kind, fields[..i + 1], seen0) && seen == w'.seen
      ensures Holds(g) && Kept(before) && out in objects && objects[out].kind == kind
      ensures next == out + 1 + SizeOf(w'.slots) && BuiltFields(objects, objects[out].fields, w'.slots, out + 1)
      decreases g.Keys - seen, 1
    {
      hide Redact, RedactFields, Censors, Built, BuiltFields, Size, SizeOf;
      var child;
      ghost var tree;
      child, tree := ValueFor(names, kind, fields[i], g, out, w.slots, before);
      w' := Walks(w.slots + [Slot(fields[i].key, tree)], seen);
      ghost var upTo := fields[..i + 1];
      assert upTo[..|upTo| - 1] == fields[..i];
      LastField(names, g, kind, upTo, seen0, w.slots, w.seen, tree, seen);
      Store(g, out, Field(fields[i].key, child), w.slots, tree, before);
    }

    /** The value to store for one property: the censor, or the redacted child. */
    method ValueFor(names: set<string>, kind: Kind, f: Field, ghost g: Graph, out: nat, ghost slots: seq<Slot>,
                    ghost before: Graph) returns (child: Value, ghost tree: Tree)
      requires Holds(g) && Within(g, f.value) && Kept(before) && out in objects
      requires next == out + 1 + SizeOf(slots) && BuiltFields(objects, objects[out].fields, slots, out + 1)
      modifies this
      ensures Holds(g) && Kept(before) && out in objects && objects[out] == old(objects)[out]
      ensures BuiltFields(objects, objects[out].fields, slots, out + 1) && next == out + 1 + SizeOf(slots) + Size(tree)
      ensures Built(objects, child, tree, out + 1 + SizeOf(slots))
      ensures if Censors(names, kind, f.key) then tree == Leaf(CENSOR) && seen == old(seen)
              else Redact(names, g, f.value, old(seen)) == Walk(tree, seen)
      decreases g.Keys - seen, 0, 2
    {
      if Censors(names, kind, f.key) {
        child, tree := Prim(CENSOR), Leaf(CENSOR);
      } else {
        child, tree := RedactChild(names, f.value, g, out, slots);
      }
    }

    ghost predicate Kept(before: Graph)
      reads this
    {
      forall id :: id in before ==> id in objects && objects[id] == before[id]
    }

    /** `out[key] = child`. */
    method Store(ghost g: Graph, out: nat, f: Field, ghost slots: seq<Slot>, ghost tree: Tree, ghost before: Graph)
      requires Holds(g) && Kept(before) && out in objects && out !in before && out !in g
      requires BuiltFields(objects, objects[out].fields, slots, out + 1)
      requires Built(objects, f.value, tree, out + 1 + SizeOf(slots))
      modifies this`objects
      ensures Holds(g) && Kept(before) && out in objects && objects[out].kind == old(objects)[out].kind
      ensures BuiltFields(objects, objects[out].fields, slots + [Slot(f.key, tree)], out + 1)
      ensures SizeOf(slots + [Slot(f.key, tree)]) == SizeOf(slots) + Size(tree)
    {
      StoredField(objects, out, f, slots, Slot(f.key, tree));
      objects := objects[out := Obj(objects[out].kind, objects[out].fields + [f])];
    }

    /** Redacts one property while the object `out` is under construction. */
    method RedactChild(names: set<string>, v: Value, ghost g: Graph, out: nat, ghost slots: seq<Slot>)
      returns (child: Value, ghost tree: Tree)
      requires Holds(g) && Within(g, v) && out in objects
      requires next == out + 1 + SizeOf(slots) && BuiltFields(objects, objects[out].fields, slots, out + 1)
      modifies this
      ensures Holds(g) && Kept(old(objects)) && tree == Redact(names, g, v, old(seen)).tree
      ensures seen == Redact(names, g, v, old(seen)).seen && next == out + 1 + SizeOf(slots) + Size(tree)
      ensures BuiltFields(objects, objects[out].fields, slots, out + 1)
      ensures Built(objects, child, tree, out + 1 + SizeOf(slots))
      decreases g.Keys - seen, 0, 1
    {
      ghost var before := objects;
      tree := Redact(names, g, v, seen).tree;
      child := DeepRedactImpl(names, v, g);
      FieldsFrame(before, objects, before[out].fields, slots, out + 1);
    }

    method DeepRedact(v: Value, ghost g: Graph) returns (r: Value)
      requires Holds(g) && Within(g, v) && seen == {}
      modifies this
      ensures Holds(g) && Kept(old(objects))
      ensures var names := {"ciphertext", "body", "password", "token", "key", "privateKey", "identityPriv", "secret",
                            "argon2Hash"};
        var t := Redact(names, g, v, {}).tree;
        Clean(names, t) && Built(objects, r, t, old(next)) && next == old(next) + Size(t)
    {
      AllCensored(REDACTED_FIELDS, g, v, {});
      r := DeepRedactImpl(REDACTED_FIELDS, v, g);
    }

    /** Redacting the result again, with no object remembered from the first call: the second call
        builds the same tree. */
    method RedactTwice(names: set<string>, v: Value, ghost g: Graph) returns (once: Value, twice: Value)
      requires Holds(g) && Within(g, v) && seen == {}
      modifies this
      ensures var t := Redact(names, g, v, {}).tree;
        Built(objects, once, t, old(next)) && Built(objects, twice, t, old(next) + Size(t))
    {
      ghost var t := Redact(names, g, v, {}).tree;
      once := DeepRedactImpl(names, v, g);
      ghost var first, built := objects, Part(objects, old(next), t);
      PartStands(objects, once, t, old(next));
      Idempotent(names, g, v, built, once);
      seen := {};
      twice := DeepRedactImpl(names, once, built);
      BuiltFrame(first, objects, once, t, old(next));
    }
  }
}
