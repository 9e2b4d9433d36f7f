/** One connection's inbox, from apps/api/src/ws/redis-fanout.ts: subscribe, then replay what is
    undelivered, then seed the set of ids already forwarded; live publishes are handled from the
    subscription on. Each method is one stretch of code between two awaits, or one thing the
    rest of the system does to the table; they may come in any order `Valid` allows. */
module Inbox {

  datatype Row = Row(id: nat, recipient: nat, createdAt: int, delivered: bool)

  /** One S2C.ENVELOPE frame: which envelope, and whether a live publish caused it. */
  datatype Forward = Forward(id: nat, live: bool)

  datatype Phase = Connecting | Subscribed | Replayed | Live

  // ---------------------------------------------------------------------------
  // The SELECT of the replay
  // ---------------------------------------------------------------------------

  predicate Before(a: Row, b: Row) {
    a.createdAt < b.createdAt || (a.createdAt == b.createdAt && a.id < b.id)
  }

  function Place(r: Row, s: seq<Row>): seq<Row> {
    if s == [] || Before(r, s[0]) then [r] + s else [s[0]] + Place(r, s[1..])
  }

  predicate Undelivered(r: Row, device: nat) {
    r.recipient == device && !r.delivered
  }

  /** WHERE recipient_device = $1 AND delivered_at IS NULL ORDER BY created_at ASC, id ASC. */
  function Listing(table: seq<Row>, device: nat): seq<Row> {
    if table == [] then []
    else if Undelivered(table[0], device) then Place(table[0], Listing(table[1..], device))
    else Listing(table[1..], device)
  }

  ghost predicate InOrder(s: seq<Row>) {
    forall i, j :: 0 <= i < j < |s| ==> Before(s[i], s[j])
  }

  ghost predicate UniqueIds(table: seq<Row>) {
    forall i, j :: 0 <= i < j < |table| ==> table[i].id != table[j].id
  }

  lemma {:induction false} PlaceMembers(r: Row, s: seq<Row>, x: Row)
    ensures x in Place(r, s) <==> x == r || x in s
  {
    if s != [] && !Before(r, s[0]) {
      PlaceMembers(r, s[1..], x);
      assert s == [s[0]] + s[1..];
    }
  }

  lemma {:induction false} PlaceOrdered(r: Row, s: seq<Row>)
    requires InOrder(s) && forall x :: x in s ==> x.id != r.id
    ensures InOrder(Place(r, s))
  {
    if s != [] && !Before(r, s[0]) {
      PlaceOrdered(r, s[1..]);
      forall j | 0 <= j < |Place(r, s[1..])| ensures Before(s[0], Place(r, s[1..])[j]) {
        PlaceMembers(r, s[1..], Place(r, s[1..])[j]);
      }
    }
  }

  /** The listing holds exactly the device's undelivered rows, oldest first and by id where two are
      as old. */
  lemma {:induction false} ListingExactly(table: seq<Row>, device: nat)
    requires UniqueIds(table)
    ensures var l := Listing(table, device);
      && InOrder(l)
      && (forall r :: r in l <==> r in table && r.recipient == device && !r.delivered)
      && (forall i, j :: 0 <= i < j < |l| ==>
            l[i].createdAt < l[j].createdAt || (l[i].createdAt == l[j].createdAt && l[i].id < l[j].id))
  {
    if table != [] {
      var rest := Listing(table[1..], device);
      ListingExactly(table[1..], device);
      assert table == [table[0]] + table[1..];
      if Undelivered(table[0], device) {
        forall x | x in rest ensures x.id != table[0].id {
          assert x in table[1..];
        }
        PlaceOrdered(table[0], rest);
        forall r ensures r in Listing(table, device) <==> r in table && Undelivered(r, device) {
          PlaceMembers(table[0], rest, r);
        }
      }
    }
  }

  /** The ids the replay forwarded, in order. */
  function Replays(sent: seq<Forward>): seq<nat> {
    if sent == [] then []
    else if sent[|sent| - 1].live then Replays(sent[..|sent| - 1])
    else Replays(sent[..|sent| - 1]) + [sent[|sent| - 1].id]
  }

  function Ids(rows: seq<Row>): (ids: seq<nat>)
    ensures |ids| == |rows|
  {
    seq(|rows|, i requires 0 <= i < |rows| => rows[i].id)
  }

  ghost predicate Listed(rows: seq<Row>, id: nat) {
    id in Ids(rows)
  }

  ghost predicate HasRow(table: seq<Row>, id: nat, device: nat) {
    exists k :: 0 <= k < |table| && table[k].id == id && table[k].recipient == device
  }

  /** The ids live publishes forwarded. */
  function LiveIds(sent: seq<Forward>): set<nat> {
    if sent == [] then {}
    else LiveIds(sent[..|sent| - 1]) + if sent[|sent| - 1].live then {sent[|sent| - 1].id} else {}
  }

  /** Neither path forwards an id twice. */
  ghost predicate OncePerPath(sent: seq<Forward>) {
    sent != [] ==>
      var f, before := sent[|sent| - 1], sent[..|sent| - 1];
      OncePerPath(before) && if f.live then f.id !in LiveIds(before) else f.id !in Replays(before)
  }

  lemma SentSnoc(sent: seq<Forward>, f: Forward)
    ensures Replays(sent + [f]) == if f.live then Replays(sent) else Replays(sent) + [f.id]
    ensures LiveIds(sent + [f]) == if f.live then LiveIds(sent) + {f.id} else LiveIds(sent)
    ensures OncePerPath(sent) && (if f.live then f.id !in LiveIds(sent) else f.id !in Replays(sent)) ==>
      OncePerPath(sent + [f])
  {
    assert (sent + [f])[..|sent|] == sent;
  }

  lemma {:induction false} SentPaths(sent: seq<Forward>, i: nat)
    requires i < |sent|
    ensures if sent[i].live then sent[i].id in LiveIds(sent) else sent[i].id in Replays(sent)
  {
    if i < |sent| - 1 {
      SentPaths(sent[..|sent| - 1], i);
    }
  }

  lemma {:induction false} OneOfEach(sent: seq<Forward>, i: nat, j: nat)
    requires OncePerPath(sent) && i < j < |sent| && sent[i].id == sent[j].id
    ensures sent[i].live != sent[j].live
  {
    var before := sent[..|sent| - 1];
    if j == |sent| - 1 {
      SentPaths(before, i);
    } else {
      OneOfEach(before, i, j);
    }
  }

  lemma {:induction false} WasForwarded(sent: seq<Forward>, id: nat)
    requires id in LiveIds(sent) || id in Replays(sent)
    ensures exists i :: 0 <= i < |sent| && sent[i].id == id
  {
    var last := |sent| - 1;
    if sent[last].id != id {
      WasForwarded(sent[..last], id);
      var i :| 0 <= i < last && sent[..last][i].id == id;
      assert sent[i].id == id;
    } else {
      assert sent[last].id == id;
    }
  }

  // ---------------------------------------------------------------------------
  // Payloads
  // ---------------------------------------------------------------------------

  predicate IsId(payload: string) {
    payload != "" && forall i :: 0 <= i < |payload| ==> '0' <= payload[i] <= '9'
  }

  function IdOf(payload: string): nat
    requires forall i :: 0 <= i < |payload| ==> '0' <= payload[i] <= '9'
  {
    if payload == "" then 0
    else 10 * IdOf(payload[..|payload| - 1]) + (payload[|payload| - 1] as int - '0' as int)
  }

  /** What the gateway publishes: an id in decimal. */
  function Decimal(id: nat): string {
    (if id < 10 then "" else Decimal(id / 10)) + [('0' as int + id % 10) as char]
  }

  /** Every id the gateway publishes is read back as itself. */
  lemma {:induction false} DecimalReadsBack(id: nat)
    ensures IsId(Decimal(id)) && IdOf(Decimal(id)) == id
  {
    if id >= 10 {
      DecimalReadsBack(id / 10);
    }
    var d := Decimal(id);
    assert d[..|d| - 1] == if id < 10 then "" else Decimal(id / 10);
  }

  // ---------------------------------------------------------------------------
  // The connection
  // ---------------------------------------------------------------------------

  class InboxConnection {
    const device: nat
    var table: seq<Row>
    var nextId: nat
    var phase: Phase
    var seen: set<nat>
    var hydrating: set<nat>
    var sent: seq<Forward>
    ghost var listing: seq<Row>      // what the SELECT returned
    ghost var selectFailed: bool
    ghost var selectedBelow: nat     // the ids in use when the SELECT ran
    ghost var announced: set<nat>    // ids published at any time
    ghost var heard: set<nat>        // ids whose publish reached the listener
    ghost var early: set<nat>        // of those, the ones handled before the seeding
    ghost var dropped: set<nat>      // of those, the ones whose hydrate failed or found no row

    ghost predicate TableValid()
      reads this
    {
      && UniqueIds(table) && selectedBelow <= nextId
      && (forall r :: r in table ==> r.id < nextId) && (forall id :: id in announced ==> id < nextId)
    }

    /** What has been forwarded, by which path. */
    ghost predicate SentValid()
      reads this
    {
      && Replays(sent) == Ids(listing)
      && InOrder(listing)
      && (forall r :: r in listing ==> Undelivered(r, device))
      && OncePerPath(sent)
      && (forall id :: id in LiveIds(sent) ==> id in heard && id !in hydrating)
    }

    ghost predicate SeenValid()
      reads this
    {
      && hydrating <= heard && early <= heard <= announced && dropped <= heard
      && (forall id :: id in dropped ==> id !in hydrating && id !in LiveIds(sent))
      && (forall id :: id in early ==> id in hydrating || id in dropped || id in LiveIds(sent))
      && (forall id :: id in seen <==> id in heard || (phase.Live? && Listed(listing, id)))
      && (!phase.Live? ==> early == heard)
      && (phase.Connecting? ==> heard == {} && sent == [])
      && (phase.Connecting? || phase.Subscribed? ==> listing == [] && !selectFailed)
      && (forall id :: id in heard && Listed(listing, id) && (id in hydrating || id in LiveIds(sent)) ==> id in early)
    }

    /** What was heard has been forwarded, or is on its way, or its row was not to be had. */
    ghost predicate Accounted()
      reads this
    {
      forall id :: id in heard ==> id in hydrating || id in dropped || Listed(listing, id) || id in LiveIds(sent)
    }

    ghost predicate Covered(r: Row)
      reads this
    {
      && (Undelivered(r, device) && r.id in announced ==> Listed(listing, r.id) || r.id in heard)
      && (Undelivered(r, device) && r.id < selectedBelow ==> Listed(listing, r.id))
    }

    /** Nothing slips between the subscription and the SELECT. */
    ghost predicate CoverValid()
      reads this
    {
      Accounted() && ((phase.Replayed? || phase.Live?) && !selectFailed ==> forall r :: r in table ==> Covered(r))
    }

    ghost predicate Valid()
      reads this
    {
      TableValid() && SentValid() && SeenValid() && CoverValid()
    }

    constructor (device: nat)
      ensures Valid() && phase.Connecting? && this.device == device
      ensures table == [] && nextId == 1 && seen == {} && hydrating == {} && sent == []
    {
      this.device := device;
      table, nextId, phase, seen, hydrating, sent := [], 1, Connecting, {}, {}, [];
      listing, selectFailed, selectedBelow, announced, heard, early, dropped := [], false, 0, {}, {}, {}, {};
    }

    /** A connection to a table that already holds rows. */
    constructor On(device: nat, table: seq<Row>, nextId: nat)
      requires UniqueIds(table) && forall r :: r in table ==> r.id < nextId
      ensures Valid() && phase.Connecting? && this.device == device
      ensures this.table == table && this.nextId == nextId && seen == {} && hydrating == {} && sent == []
      ensures dropped == {} && announced == {}
    {
      this.device := device;
      this.table, this.nextId, phase, seen, hydrating, sent := table, nextId, Connecting, {}, {}, [];
      listing, selectFailed, selectedBelow, announced, heard, early, dropped := [], false, 0, {}, {}, {}, {};
    }

    // ---- the rest of the system ----

    method InsertRow(recipient: nat, createdAt: int)
      requires Valid()
      modifies this`table, this`nextId
      ensures Valid() && table == old(table) + [Row(old(nextId), recipient, createdAt, false)]
      ensures nextId == old(nextId) + 1
    {
      table := table + [Row(nextId, recipient, createdAt, false)];
      nextId := nextId + 1;
    }

    method MarkDelivered(k: nat)
      requires Valid() && k < |table|
      modifies this`table
      ensures Valid() && table == old(table)[k := old(table)[k].(delivered := true)]
    {
      ghost var was := table;
      table := table[k := table[k].(delivered := true)];
      forall r | r in table && Undelivered(r, device) ensures r in was {
      }
    }

    method DeleteRow(k: nat)
      requires Valid() && k < |table|
      modifies this`table
      ensures Valid() && table == old(table)[..k] + old(table)[k + 1..]
    {
      ghost var was := table;
      table := table[..k] + table[k + 1..];
      forall r | r in table ensures r in was {
      }
    }

    /** The gateway publishes a row's id on its recipient's channel; our listener hears it if it is
        our channel and we have subscribed. */
    method Announce(k: nat)
      requires Valid() && k < |table|
      modifies this`announced, this`heard, this`early, this`seen, this`hydrating
      ensures Valid() && announced == old(announced) + {table[k].id}
      ensures heard ==
        if table[k].recipient == device && !phase.Connecting? then old(heard) + {table[k].id} else old(heard)
      ensures table[k].recipient != device || phase.Connecting? ==>
        early == old(early) && seen == old(seen) && hydrating == old(hydrating)
      ensures table[k].recipient == device && !phase.Connecting? ==>
        && seen == old(seen) + {table[k].id}
        && hydrating == if table[k].id in old(seen) then old(hydrating) else old(hydrating) + {table[k].id}
    {
      announced := announced + {table[k].id};
      if table[k].recipient == device && !phase.Connecting? {
        HandleLivePublish(table[k].id);
      }
    }

    // ---- attachInbox ----

    method SubscribeDone()
      requires Valid() && phase.Connecting?
      modifies this`phase
      ensures Valid() && phase.Subscribed?
    {
      phase := Subscribed;
    }

    /** What reaches the listener: a payload that is no decimal number is dropped unseen. */
    method OnPayload(payload: string)
      requires Valid() && !phase.Connecting? && (IsId(payload) ==> IdOf(payload) in announced)
      modifies this`heard, this`early, this`seen, this`hydrating
      ensures Valid() && heard == if IsId(payload) then old(heard) + {IdOf(payload)} else old(heard)
      ensures if IsId(payload) && IdOf(payload) !in old(seen) then hydrating == old(hydrating) + {IdOf(payload)}
              else hydrating == old(hydrating)
      ensures (payload == "" || exists i :: 0 <= i < |payload| && !('0' <= payload[i] <= '9')) ==>
        heard == old(heard) && early == old(early) && seen == old(seen) && hydrating == old(hydrating)
      ensures (payload != "" && forall i :: 0 <= i < |payload| ==> '0' <= payload[i] <= '9') ==>
        heard == old(heard) + {IdOf(payload)}
    {
      if IsId(payload) {
        HandleLivePublish(IdOf(payload));
      }
    }

    /** The listener up to its query: an id already seen goes no further. */
    method HandleLivePublish(id: nat)
      requires TableValid() && SentValid() && SeenValid() && Accounted() && id in announced && !phase.Connecting?
      requires (phase.Replayed? || phase.Live?) && !selectFailed ==> forall r :: r in table ==>
        if r.id != id then Covered(r) else Undelivered(r, device) && r.id < selectedBelow ==> Listed(listing, r.id)
      modifies this`heard, this`early, this`seen, this`hydrating
      ensures Valid() && heard == old(heard) + {id}
      ensures seen == old(seen) + {id} && early == if phase.Live? then old(early) else old(early) + {id}
      ensures hydrating == if id in old(seen) then old(hydrating) else old(hydrating) + {id}
    {
      hide Replays, LiveIds, OncePerPath, InOrder, UniqueIds;
      heard := heard + {id};
      if !phase.Live? {
        early := early + {id};
      }
      if id in seen {
        return;
      }
      seen := seen + {id};
      hydrating := hydrating + {id};
    }

    method FindRow(id: nat) returns (found: bool)
      ensures found <==> exists k :: 0 <= k < |table| && table[k].id == id && table[k].recipient == device
    {
      for k := 0 to |table|
        invariant forall j :: 0 <= j < k ==> !(table[j].id == id && table[j].recipient == device)
      {
        if table[k].id == id && table[k].recipient == device {
          return true;
        }
      }
      return false;
    }

    /** The rest of the listener: only a row that still exists and is ours is forwarded. */
    method OnHydrated(id: nat, ok: bool)
      requires Valid() && id in hydrating
      modifies this`hydrating, this`sent, this`dropped
      ensures Valid() && hydrating == old(hydrating) - {id}
      ensures var forwards := ok && exists k :: 0 <= k < |table| && table[k].id == id && table[k].recipient == device;
        && (forwards ==> sent == old(sent) + [Forward(id, true)])
        && (!forwards ==> sent == old(sent))
        && (forall i :: i in dropped <==> i in old(dropped) || (i == id && !forwards))
    {
      var found := FindRow(id);
      if ok && found {
        ForwardLive(id);
      } else {
        hydrating := hydrating - {id};
        dropped := dropped + {id};
      }
    }

    method ForwardLive(id: nat)
      requires Valid() && id in hydrating
      modifies this`hydrating, this`sent
      ensures Valid() && hydrating == old(hydrating) - {id} && sent == old(sent) + [Forward(id, true)]
    {
      var more := sent + [Forward(id, true)];
      SentSnoc(sent, Forward(id, true));
      assert Replays(more) == Ids(listing) && LiveIds(more) == LiveIds(sent) + {id} && OncePerPath(more);
      hydrating := hydrating - {id};
      sent := more;
    }

    /** The loop of the replay. */
    method ForwardAll(rows: seq<Row>)
      requires Replays(sent) == [] && OncePerPath(sent)
      requires UniqueIds(rows)
      modifies this`sent
      ensures Replays(sent) == Ids(rows) && LiveIds(sent) == LiveIds(old(sent)) && OncePerPath(sent)
      ensures old(sent) <= sent && |sent| == |old(sent)| + |rows|
      ensures forall i :: 0 <= i < |rows| ==> sent[|old(sent)| + i] == Forward(rows[i].id, false)
    {
      for i := 0 to |rows|
        invariant old(sent) <= sent && |sent| == |old(sent)| + i
        invariant forall j :: 0 <= j < i ==> sent[|old(sent)| + j] == Forward(rows[j].id, false)
        invariant Replays(sent) == Ids(rows)[..i] && LiveIds(sent) == LiveIds(old(sent)) && OncePerPath(sent)
      {
        SentSnoc(sent, Forward(rows[i].id, false));
        assert Ids(rows)[i] == rows[i].id && rows[i].id !in Ids(rows)[..i];
        sent := sent + [Forward(rows[i].id, false)];
      }
    }

    /** The replay: every listed row is forwarded, in the listing's order. */
    method OnSelected(ok: bool)
      requires Valid() && phase.Subscribed?
      modifies this`phase, this`sent, this`listing, this`selectFailed, this`selectedBelow
      ensures Valid() && phase.Replayed? && selectFailed == !ok && selectedBelow == nextId
      ensures !ok ==> listing == [] && sent == old(sent)
      ensures ok ==> forall r :: r in listing <==> r in table && r.recipient == device && !r.delivered
      ensures forall i, j :: 0 <= i < j < |listing| ==>
        || listing[i].createdAt < listing[j].createdAt
        || (listing[i].createdAt == listing[j].createdAt && listing[i].id < listing[j].id)
      ensures old(sent) <= sent && |sent| == |old(sent)| + |listing|
      ensures forall i :: 0 <= i < |listing| ==> sent[|old(sent)| + i] == Forward(listing[i].id, false)
      ensures listing == if ok then Listing(table, device) else []
      ensures Replays(sent) == Ids(listing)
    {
      hide Listing, Replays, LiveIds, OncePerPath, InOrder, Before, Ids, UniqueIds, Listed;
      phase := Replayed;
      selectedBelow := nextId;
      if !ok {
        selectFailed := true;
        return;
      }
      var rows := Listing(table, device);
      ListingExactly(table, device);
      ListedOnce(table, device);
      ForwardAll(rows);
      listing := rows;
      forall r | r in table ensures Covered(r) {
        if Undelivered(r, device) {
          ListedIn(rows, r);
        }
      }
    }

    /** The dedup set is seeded with what the replay forwarded. */
    method Seed()
      requires Valid() && phase.Replayed?
      modifies this`phase, this`seen
      ensures Valid() && phase.Live? && seen == old(seen) + (set r | r in listing :: r.id)
    {
      hide Replays, LiveIds, OncePerPath, InOrder, Before, UniqueIds;
      var replayed := Replays(sent);
      for i := 0 to |replayed|
        invariant seen == old(seen) + (set j | j in replayed[..i])
      {
        seen := seen + {replayed[i]};
      }
      assert replayed[..|replayed|] == replayed == Ids(listing);
      forall r | r in listing ensures r.id in replayed {
        ListedIn(listing, r);
      }
      assert (set j | j in replayed) == (set r | r in listing :: r.id);
      phase := Live;
    }
  }

  lemma ListedIn(rows: seq<Row>, r: Row)
    requires r in rows
    ensures Listed(rows, r.id)
  {
    var i :| 0 <= i < |rows| && rows[i] == r;
    assert Ids(rows)[i] == r.id;
  }

  // ---------------------------------------------------------------------------
  // What a connection has delivered
  // ---------------------------------------------------------------------------

  /** Completeness: once the connection is live, if no query failed and none is outstanding, every
      undelivered row of the device that was inserted before the SELECT, or whose publish has gone
      out at any time, before or after the subscription, has been forwarded. */
  lemma InboxComplete(c: InboxConnection, r: Row)
    requires c.Valid() && c.phase.Live? && !c.selectFailed && c.hydrating == {} && c.dropped == {}
    requires r in c.table && r.recipient == c.device && !r.delivered
    requires r.id < c.selectedBelow || r.id in c.announced
    ensures exists i :: 0 <= i < |c.sent| && c.sent[i].id == r.id
  {
    assert c.Covered(r);
    WasForwarded(c.sent, r.id);
  }

  /** With failures allowed, a publish that was heard comes to nothing only if its own row was not
      to be had. */
  lemma HeardAccounted(c: InboxConnection, id: nat)
    requires c.Valid() && c.hydrating == {} && id in c.heard && id !in c.dropped
    ensures exists i :: 0 <= i < |c.sent| && c.sent[i].id == id
  {
    WasForwarded(c.sent, id);
  }

  /** No id is forwarded three times. */
  lemma AtMostTwice(c: InboxConnection, i: nat, j: nat, k: nat)
    requires c.Valid() && i < j < k < |c.sent| && c.sent[i].id == c.sent[j].id
    ensures c.sent[k].id != c.sent[i].id
  {
    OneOfEach(c.sent, i, j);
    if c.sent[k].id == c.sent[i].id {
      OneOfEach(c.sent, i, k);
      OneOfEach(c.sent, j, k);
    }
  }

  ghost predicate ForwardedTwice(sent: seq<Forward>, id: nat) {
    exists i, j :: 0 <= i < j < |sent| && sent[i].id == id && sent[j].id == id
  }

  lemma {:induction false} TwiceByBoth(sent: seq<Forward>, id: nat)
    requires OncePerPath(sent)
    ensures ForwardedTwice(sent, id) <==> id in Replays(sent) && id in LiveIds(sent)
  {
    if i, j :| 0 <= i < j < |sent| && sent[i].id == id && sent[j].id == id {
      OneOfEach(sent, i, j);
      SentPaths(sent, i);
      SentPaths(sent, j);
    } else if id in Replays(sent) && id in LiveIds(sent) {
      BothPaths(sent, id);
    }
  }

  lemma {:induction false} BothPaths(sent: seq<Forward>, id: nat)
    requires id in Replays(sent) && id in LiveIds(sent)
    ensures ForwardedTwice(sent, id)
  {
    var last, before := |sent| - 1, sent[..|sent| - 1];
    if sent[last].id == id {
      WasForwarded(before, id);
      var i :| 0 <= i < |before| && before[i].id == id;
      assert sent[i].id == id;
    } else {
      BothPaths(before, id);
      var i, j :| 0 <= i < j < |before| && before[i].id == id && before[j].id == id;
      assert sent[i].id == id && sent[j].id == id;
    }
  }

  /** Exactly which ids go out twice, once a connection is live with no query outstanding: those the
      SELECT listed whose publish was handled before the set of seen ids was seeded, and found
      their row. */
  lemma TwiceExactly(c: InboxConnection, id: nat)
    requires c.Valid() && c.phase.Live? && c.hydrating == {}
    ensures ForwardedTwice(c.sent, id) <==> Listed(c.listing, id) && id in c.early && id !in c.dropped
  {
    TwiceByBoth(c.sent, id);
  }

  lemma ListedOnce(table: seq<Row>, device: nat)
    requires UniqueIds(table)
    ensures UniqueIds(Listing(table, device))
  {
    ListingExactly(table, device);
    var l := Listing(table, device);
    forall i, j | 0 <= i < j < |l| ensures l[i].id != l[j].id {
      assert l[i] in table && l[j] in table;
      assert Before(l[i], l[j]);
    }
  }

  lemma OnlyReplay(sent: seq<Forward>, id: nat)
    requires |sent| == 1 && Replays(sent) == [id]
    ensures sent == [Forward(id, false)]
  {
    assert sent[..0] == [];
    assert Replays(sent[..0]) == [];
  }

  /** A row announced after the subscription and before the SELECT. */
  method HearsFirst(device: nat) returns (c: InboxConnection)
    ensures fresh(c) && c.Valid() && c.device == device && c.phase.Subscribed?
    ensures c.table == [Row(1, device, 0, false)] && c.hydrating == {1} && c.sent == []
  {
    c := new InboxConnection(device);
    c.InsertRow(device, 0);
    assert c.table == [Row(1, device, 0, false)];
    c.SubscribeDone();
    c.Announce(0);
  }

  /** The race is real: handled before the seeding, that row goes out by both paths. */
  method RaceForwardsTwice(device: nat) returns (c: InboxConnection)
    ensures c.Valid() && c.phase.Live? && c.sent == [Forward(1, false)] + [Forward(1, true)]
  {
    c := HearsFirst(device);
    var row := Row(1, device, 0, false);
    assert Listing([row], device) == [row] by {
      assert [row][1..] == [];
    }
    c.OnSelected(true);
    OnlyReplay(c.sent, 1);
    assert HasRow(c.table, 1, device) by {
      assert c.table[0].id == 1 && c.table[0].recipient == device;
    }
    c.OnHydrated(1, true);
    c.Seed();
  }
}
