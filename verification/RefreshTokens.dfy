/** Refresh-token rotation with family revoke, from apps/api/src/services/auth/tokens.ts. Each
    transaction is one step. A token stands for its peppered hash, and a new token is one that
    no row holds. */
module RefreshTokens {

  import opened Options

  datatype Row = Row(user: nat, token: nat, expiresAt: int, rotated: bool, revoked: bool)

  /** The table, and for each row the row of the issue() it descends from. */
  datatype Table = Table(rows: seq<Row>, root: seq<nat>)

  datatype Outcome =
    | Rotated(user: nat, token: nat, expiresAt: int)
    | Unknown
    | ReuseDetected
    | Expired

  // ---------------------------------------------------------------------------
  // The transactions
  // ---------------------------------------------------------------------------

  /** The row a token hashes to, or the table's size. */
  function Lookup(rows: seq<Row>, token: nat): (i: nat)
    ensures i <= |rows|
    ensures i < |rows| ==> rows[i].token == token
    ensures forall k :: 0 <= k < i ==> rows[k].token != token
  {
    if rows == [] || rows[0].token == token then 0 else 1 + Lookup(rows[1..], token)
  }

  predicate Live(r: Row) {
    !r.rotated && !r.revoked
  }

  /** UPDATE ... SET revoked_at WHERE user_id = $1 AND revoked_at IS NULL. */
  function RevokedFor(rows: seq<Row>, user: nat): (out: seq<Row>)
    ensures |out| == |rows|
  {
    seq(|rows|, i requires 0 <= i < |rows| => if rows[i].user == user then rows[i].(revoked := true) else rows[i])
  }

  function Issued(t: Table, user: nat, token: nat, expiresAt: int): Table {
    Table(t.rows + [Row(user, token, expiresAt, false, false)], t.root + [|t.rows|])
  }

  function Succeeded(t: Table, i: nat, token: nat, expiresAt: int): Table
    requires i < |t.rows| == |t.root|
  {
    Table(t.rows[i := t.rows[i].(rotated := true)] + [Row(t.rows[i].user, token, expiresAt, false, false)],
          t.root + [t.root[i]])
  }

  function OutcomeOf(t: Table, presented: nat, token: nat, now: int, ttl: int): Outcome {
    var i := Lookup(t.rows, presented);
    if i == |t.rows| then Unknown
    else if !Live(t.rows[i]) then ReuseDetected
    else if t.rows[i].expiresAt <= now then Expired
    else Rotated(t.rows[i].user, token, now + ttl)
  }

  function AfterRotate(t: Table, presented: nat, token: nat, now: int, ttl: int): Table
    requires |t.rows| == |t.root|
  {
    var i := Lookup(t.rows, presented);
    match OutcomeOf(t, presented, token, now, ttl)
    case Unknown => t
    case ReuseDetected => t.(rows := RevokedFor(t.rows, t.rows[i].user))
    case Expired => t
    case Rotated(_, _, expiresAt) => Succeeded(t, i, token, expiresAt)
  }

  function AfterRevoke(t: Table, presented: nat): Table {
    var i := Lookup(t.rows, presented);
    if i == |t.rows| then t else t.(rows := t.rows[i := t.rows[i].(revoked := true)])
  }

  // ---------------------------------------------------------------------------
  // The store
  // ---------------------------------------------------------------------------

  class RefreshTokenStore {
    var rows: seq<Row>
    const ttlMs: int
    ghost var root: seq<nat>

    ghost function View(): Table
      reads this
    {
      Table(rows, root)
    }

    ghost predicate Valid()
      reads this
    {
      Families(View())
    }

    constructor (ttlMs: int)
      requires ttlMs >= 1
      ensures Valid() && View() == Table([], []) && this.ttlMs == ttlMs
    {
      rows, root := [], [];
      this.ttlMs := ttlMs;
    }

    method Find(token: nat) returns (i: nat)
      ensures i == Lookup(rows, token)
    {
      i := 0;
      while i < |rows| && rows[i].token != token
        invariant i <= |rows| && forall k :: 0 <= k < i ==> rows[k].token != token
      {
        i := i + 1;
      }
    }

    /** The UPDATE of a family revoke. */
    method RevokeFamily(user: nat)
      modifies this`rows
      ensures rows == RevokedFor(old(rows), user)
    {
      var i := 0;
      ghost var was := rows;
      while i < |rows|
        invariant 0 <= i <= |rows| == |was|
        invariant forall k :: 0 <= k < |was| ==> rows[k] == if k < i then RevokedFor(was, user)[k] else was[k]
      {
        if rows[i].user == user && !rows[i].revoked {
          rows := rows[i := rows[i].(revoked := true)];
        }
        i := i + 1;
      }
    }

    method Issue(user: nat, token: nat, now: int)
      requires Valid() && Lookup(rows, token) == |rows|
      modifies this
      ensures Valid() && View() == Issued(old(View()), user, token, now + ttlMs)
      ensures rows == old(rows) + [Row(user, token, now + ttlMs, false, false)]
    {
      IssuedKeeps(View(), user, token, now + ttlMs);
      rows := rows + [Row(user, token, now + ttlMs, false, false)];
      root := root + [|root|];
    }

    method Rotate(presented: nat, token: nat, now: int) returns (outcome: Outcome)
      requires Valid() && Lookup(rows, token) == |rows|
      modifies this
      ensures Valid()
      ensures outcome == OutcomeOf(old(View()), presented, token, now, ttlMs)
      ensures View() == AfterRotate(old(View()), presented, token, now, ttlMs)
      ensures (forall i :: 0 <= i < |old(rows)| ==> old(rows)[i].token != presented) ==>
        outcome == Unknown && rows == old(rows)
      ensures forall i :: 0 <= i < |old(rows)| && old(rows)[i].token == presented ==>
        && (outcome == Rotated(old(rows)[i].user, token, now + ttlMs) <==>
              !old(rows)[i].rotated && !old(rows)[i].revoked && now < old(rows)[i].expiresAt)
        && (!old(rows)[i].rotated && !old(rows)[i].revoked && now < old(rows)[i].expiresAt ==>
              rows == old(rows)[i := old(rows)[i].(rotated := true)]
                      + [Row(old(rows)[i].user, token, now + ttlMs, false, false)])
    {
      hide Lookup, Families;
      RotateKeeps(View(), presented, token, now, ttlMs);
      RotateAll(View(), presented, token, now, ttlMs);
      var i := Find(presented);
      if i == |rows| {
        return Unknown;
      }
      var row := rows[i];
      if row.rotated || row.revoked {
        RevokeFamily(row.user);
        return ReuseDetected;
      }
      if row.expiresAt <= now {
        return Expired;
      }
      rows := rows[i := row.(rotated := true)];
      rows := rows + [Row(row.user, token, now + ttlMs, false, false)];
      root := root + [root[i]];
      return Rotated(row.user, token, now + ttlMs);
    }

    method Revoke(presented: nat)
      requires Valid()
      modifies this
      ensures Valid() && View() == AfterRevoke(old(View()), presented)
      ensures |rows| == |old(rows)| && forall i :: 0 <= i < |rows| ==>
        rows[i] == if old(rows)[i].token == presented then old(rows)[i].(revoked := true) else old(rows)[i]
    {
      RevokeKeeps(View(), presented);
      var i := Find(presented);
      if i < |rows| && !rows[i].revoked {
        rows := rows[i := rows[i].(revoked := true)];
      }
    }

    method RevokeAllForUser(user: nat)
      requires Valid()
      modifies this
      ensures Valid() && View() == old(View()).(rows := RevokedFor(old(rows), user))
      ensures |rows| == |old(rows)| && forall i :: 0 <= i < |rows| ==>
        rows[i] == if old(rows)[i].user == user then old(rows)[i].(revoked := true) else old(rows)[i]
    {
      RevokeAllKeeps(View(), user);
      RevokeFamily(user);
    }
  }

  // ---------------------------------------------------------------------------
  // Families
  // ---------------------------------------------------------------------------

  /** The descendants of each issue are one user's, and each but the newest has been rotated. */
  ghost predicate Families(t: Table) {
    && |t.rows| == |t.root|
    && (forall i :: 0 <= i < |t.root| ==> t.root[i] <= i && t.root[t.root[i]] == t.root[i])
    && (forall i :: 0 <= i < |t.rows| ==> t.rows[i].user == t.rows[t.root[i]].user)
    && (forall i, j :: 0 <= i < j < |t.rows| && t.root[i] == t.root[j] ==> t.rows[i].rotated)
    && (forall i, j :: 0 <= i < j < |t.rows| ==> t.rows[i].token != t.rows[j].token)
  }

  lemma IssuedKeeps(t: Table, user: nat, token: nat, expiresAt: int)
    requires Families(t) && Lookup(t.rows, token) == |t.rows|
    ensures Families(Issued(t, user, token, expiresAt))
  {
  }

  lemma SucceededLeaf(t: Table, i: nat, token: nat, expiresAt: int, k: nat, l: nat)
    requires Families(t) && i < |t.rows| && Live(t.rows[i])
    requires var s := Succeeded(t, i, token, expiresAt); k < l < |s.rows| && s.root[k] == s.root[l]
    ensures Succeeded(t, i, token, expiresAt).rows[k].rotated
  {
    if l == |t.rows| && k != i {
      assert t.root[k] == t.root[i];
      assert k < i || i < k;
    }
  }

  lemma SucceededKeeps(t: Table, i: nat, token: nat, expiresAt: int)
    requires Families(t) && i < |t.rows| && Live(t.rows[i]) && Lookup(t.rows, token) == |t.rows|
    ensures Families(Succeeded(t, i, token, expiresAt))
  {
    hide Lookup;
    var s := Succeeded(t, i, token, expiresAt);
    forall k, l | 0 <= k < l < |s.rows| && s.root[k] == s.root[l] ensures s.rows[k].rotated {
      SucceededLeaf(t, i, token, expiresAt, k, l);
    }
  }

  lemma RotateKeeps(t: Table, presented: nat, token: nat, now: int, ttl: int)
    requires Families(t) && Lookup(t.rows, token) == |t.rows|
    ensures Families(AfterRotate(t, presented, token, now, ttl))
  {
    if OutcomeOf(t, presented, token, now, ttl).Rotated? {
      SucceededKeeps(t, Lookup(t.rows, presented), token, now + ttl);
    } else if OutcomeOf(t, presented, token, now, ttl).ReuseDetected? {
      RevokeAllKeeps(t, t.rows[Lookup(t.rows, presented)].user);
    }
  }

  /** Which presented tokens rotate, and what each outcome does to the table. */
  lemma RotateExactly(t: Table, i: nat, token: nat, now: int, ttl: int)
    requires Families(t) && i < |t.rows|
    ensures var row := t.rows[i];
      var outcome, s := OutcomeOf(t, row.token, token, now, ttl), AfterRotate(t, row.token, token, now, ttl);
      && (outcome == Rotated(row.user, token, now + ttl) <==> !row.rotated && !row.revoked && now < row.expiresAt)
      && (outcome == ReuseDetected <==> row.rotated || row.revoked)
      && (outcome == Expired <==> !row.rotated && !row.revoked && row.expiresAt <= now)
      && (outcome == Expired ==> s == t)
      && (outcome.Rotated? ==>
            s.rows == t.rows[i := Row(row.user, row.token, row.expiresAt, true, row.revoked)]
                      + [Row(row.user, token, now + ttl, false, false)])
      && (outcome == ReuseDetected ==> |s.rows| == |t.rows| && forall k :: 0 <= k < |t.rows| ==>
            s.rows[k] == if t.rows[k].user == row.user
                         then Row(row.user, t.rows[k].token, t.rows[k].expiresAt, t.rows[k].rotated, true)
                         else t.rows[k])
  {
    var k := Lookup(t.rows, t.rows[i].token);
    assert k == i;
  }

  /** A token that no row holds is unknown, and presenting it changes nothing. */
  lemma UnknownExactly(t: Table, presented: nat, token: nat, now: int, ttl: int)
    requires Families(t)
    ensures OutcomeOf(t, presented, token, now, ttl) == Unknown <==>
      forall i :: 0 <= i < |t.rows| ==> t.rows[i].token != presented
    ensures OutcomeOf(t, presented, token, now, ttl) == Unknown ==> AfterRotate(t, presented, token, now, ttl) == t
  {
  }

  lemma RotateAll(t: Table, presented: nat, token: nat, now: int, ttl: int)
    requires Families(t)
    ensures var outcome, s := OutcomeOf(t, presented, token, now, ttl), AfterRotate(t, presented, token, now, ttl);
      && ((forall i :: 0 <= i < |t.rows| ==> t.rows[i].token != presented) ==> outcome == Unknown && s == t)
      && (forall i :: 0 <= i < |t.rows| && t.rows[i].token == presented ==>
            && (outcome == Rotated(t.rows[i].user, token, now + ttl) <==>
                  !t.rows[i].rotated && !t.rows[i].revoked && now < t.rows[i].expiresAt)
            && (!t.rows[i].rotated && !t.rows[i].revoked && now < t.rows[i].expiresAt ==>
                  s.rows == t.rows[i := t.rows[i].(rotated := true)]
                            + [Row(t.rows[i].user, token, now + ttl, false, false)]))
  {
    UnknownExactly(t, presented, token, now, ttl);
    forall i | 0 <= i < |t.rows| && t.rows[i].token == presented
      ensures OutcomeOf(t, presented, token, now, ttl) == Rotated(t.rows[i].user, token, now + ttl) <==>
        !t.rows[i].rotated && !t.rows[i].revoked && now < t.rows[i].expiresAt
      ensures !t.rows[i].rotated && !t.rows[i].revoked && now < t.rows[i].expiresAt ==>
        AfterRotate(t, presented, token, now, ttl).rows
        == t.rows[i := t.rows[i].(rotated := true)] + [Row(t.rows[i].user, token, now + ttl, false, false)]
    {
      RotateExactly(t, i, token, now, ttl);
    }
  }

  /** A revoked token is no longer live and is refused as reuse ever after; nothing else changes. */
  lemma RevokeExactly(t: Table, i: nat, token: nat, now: int, ttl: int)
    requires Families(t) && i < |t.rows|
    ensures var s := AfterRevoke(t, t.rows[i].token);
      && s.root == t.root && |s.rows| == |t.rows| && s.rows[i].revoked
      && (forall k :: 0 <= k < |t.rows| && k != i ==> s.rows[k] == t.rows[k])
      && s.rows[i] == Row(t.rows[i].user, t.rows[i].token, t.rows[i].expiresAt, t.rows[i].rotated, true)
      && OutcomeOf(s, t.rows[i].token, token, now, ttl) == ReuseDetected
  {
    var s := AfterRevoke(t, t.rows[i].token);
    assert Lookup(t.rows, t.rows[i].token) == i;
    RevokeKeeps(t, t.rows[i].token);
    RotateExactly(s, i, token, now, ttl);
  }

  lemma RevokeKeeps(t: Table, presented: nat)
    requires Families(t)
    ensures Families(AfterRevoke(t, presented))
  {
  }

  lemma RevokeAllKeeps(t: Table, user: nat)
    requires Families(t)
    ensures Families(t.(rows := RevokedFor(t.rows, user)))
  {
  }

  /** The descendants of one issue have at most one live token, and it is the newest. */
  lemma OneLiveLeaf(t: Table, i: nat, j: nat)
    requires Families(t) && i < |t.rows| && j < |t.rows| && t.root[i] == t.root[j] && Live(t.rows[i])
    ensures j <= i
    ensures Live(t.rows[j]) ==> i == j
  {
  }

  // ---------------------------------------------------------------------------
  // Whole runs
  // ---------------------------------------------------------------------------

  datatype Op =
    | Issue(user: nat, token: nat, now: int)
    | Rotate(presented: nat, token: nat, now: int)
    | Revoke(presented: nat)
    | RevokeAll(user: nat)

  /** A new token is one no row holds. */
  predicate Enabled(t: Table, op: Op) {
    (op.Issue? || op.Rotate?) ==> Lookup(t.rows, op.token) == |t.rows|
  }

  function Apply(t: Table, op: Op, ttl: int): Table
    requires |t.rows| == |t.root|
  {
    match op
    case Issue(user, token, now) => Issued(t, user, token, now + ttl)
    case Rotate(presented, token, now) => AfterRotate(t, presented, token, now, ttl)
    case Revoke(presented) => AfterRevoke(t, presented)
    case RevokeAll(user) => t.(rows := RevokedFor(t.rows, user))
  }

  lemma ApplyKeeps(t: Table, op: Op, ttl: int)
    requires Families(t) && Enabled(t, op)
    ensures Families(Apply(t, op, ttl))
  {
    match op
    case Issue(user, token, now) => IssuedKeeps(t, user, token, now + ttl);
    case Rotate(presented, token, now) => RotateKeeps(t, presented, token, now, ttl);
    case Revoke(presented) => RevokeKeeps(t, presented);
    case RevokeAll(user) => RevokeAllKeeps(t, user);
  }

  const EMPTY := Table([], [])

  /** Where a run from the empty table ends; None if an operation is not possible. */
  function Run(ops: seq<Op>, ttl: int): (r: Option<Table>)
    ensures r.Some? ==> |r.value.rows| == |r.value.root|
  {
    if ops == [] then Some(EMPTY)
    else
      var before := Run(ops[..|ops| - 1], ttl);
      if before.None? || !Enabled(before.value, ops[|ops| - 1]) then None
      else Some(Apply(before.value, ops[|ops| - 1], ttl))
  }

  lemma {:induction false} RunKeeps(ops: seq<Op>, ttl: int)
    requires Run(ops, ttl).Some?
    ensures Families(Run(ops, ttl).value)
  {
    if ops != [] {
      RunKeeps(ops[..|ops| - 1], ttl);
      ApplyKeeps(Run(ops[..|ops| - 1], ttl).value, ops[|ops| - 1], ttl);
    }
  }

  /** The operation revokes the user's whole family. */
  predicate Purges(t: Table, op: Op, user: nat) {
    match op
    case RevokeAll(u) => u == user
    case Rotate(presented, token, now) =>
      OutcomeOf(t, presented, token, now, 0).ReuseDetected? && t.rows[Lookup(t.rows, presented)].user == user
    case _ => false
  }

  /** How many tokens were issued to the user since the last family revoke. */
  function IssuesSince(ops: seq<Op>, ttl: int, user: nat): nat
    requires Run(ops, ttl).Some?
  {
    if ops == [] then 0
    else
      var before, op := Run(ops[..|ops| - 1], ttl).value, ops[|ops| - 1];
      if Purges(before, op, user) then 0
      else IssuesSince(ops[..|ops| - 1], ttl, user) + if op.Issue? && op.user == user then 1 else 0
  }

  function LiveCount(rows: seq<Row>, user: nat): nat {
    if rows == [] then 0
    else LiveCount(rows[..|rows| - 1], user) + if rows[|rows| - 1].user == user && Live(rows[|rows| - 1]) then 1 else 0
  }

  lemma CountSnoc(rows: seq<Row>, r: Row, user: nat)
    ensures LiveCount(rows + [r], user) == LiveCount(rows, user) + if r.user == user && Live(r) then 1 else 0
  {
    assert (rows + [r])[..|rows|] == rows;
  }

  /** Taking one row out of the live ones. */
  lemma {:induction false} CountKill(rows: seq<Row>, i: nat, r: Row, user: nat)
    requires i < |rows| && !Live(r)
    ensures LiveCount(rows[i := r], user)
         == LiveCount(rows, user) - if rows[i].user == user && Live(rows[i]) then 1 else 0
  {
    var last := |rows| - 1;
    if i < last {
      CountKill(rows[..last], i, r, user);
      assert rows[i := r][..last] == rows[..last][i := r];
    } else {
      assert rows[i := r][..last] == rows[..last];
    }
  }

  lemma {:induction false} CountRevoked(rows: seq<Row>, u: nat, user: nat)
    ensures LiveCount(RevokedFor(rows, u), user) == if u == user then 0 else LiveCount(rows, user)
  {
    if rows != [] {
      var init := rows[..|rows| - 1];
      CountRevoked(init, u, user);
      assert RevokedFor(rows, u)[..|rows| - 1] == RevokedFor(init, u);
    }
  }

  /** A user never holds more live tokens than were issued since the last family revoke. */
  lemma {:induction false} LiveBound(ops: seq<Op>, ttl: int, user: nat)
    requires Run(ops, ttl).Some?
    ensures LiveCount(Run(ops, ttl).value.rows, user) <= IssuesSince(ops, ttl, user)
  {
    if ops != [] {
      var t, op := Run(ops[..|ops| - 1], ttl).value, ops[|ops| - 1];
      LiveBound(ops[..|ops| - 1], ttl, user);
      LiveStep(t, op, ttl, user);
    }
  }

  lemma LiveStep(t: Table, op: Op, ttl: int, user: nat)
    requires |t.rows| == |t.root|
    ensures LiveCount(Apply(t, op, ttl).rows, user)
         <= if Purges(t, op, user) then 0 else LiveCount(t.rows, user) + if op.Issue? && op.user == user then 1 else 0
  {
    match op
    case Issue(u, token, now) =>
      CountSnoc(t.rows, Row(u, token, now + ttl, false, false), user);
    case Rotate(presented, token, now) =>
      var i := Lookup(t.rows, presented);
      match OutcomeOf(t, presented, token, now, ttl) {
        case Rotated(_, _, expiresAt) =>
          var killed := t.rows[i := t.rows[i].(rotated := true)];
          CountKill(t.rows, i, t.rows[i].(rotated := true), user);
          CountSnoc(killed, Row(t.rows[i].user, token, expiresAt, false, false), user);
        case ReuseDetected => CountRevoked(t.rows, t.rows[i].user, user);
        case _ =>
      }
    case Revoke(presented) =>
      var i := Lookup(t.rows, presented);
      if i < |t.rows| {
        CountKill(t.rows, i, t.rows[i].(revoked := true), user);
      }
    case RevokeAll(u) => CountRevoked(t.rows, u, user);
  }

  // ---------------------------------------------------------------------------
  // A good token rotates
  // ---------------------------------------------------------------------------

  /** The operation hands a token to the user, good until x: an issue, or a rotation that works. */
  predicate HandsOut(t: Table, op: Op, ttl: int, user: nat, token: nat, x: int) {
    match op
    case Issue(u, k, now) => u == user && k == token && x == now + ttl
    case Rotate(presented, k, now) => OutcomeOf(t, presented, k, now, ttl) == Rotated(user, token, x)
    case _ => false
  }

  /** The operation leaves the user's token alone: it does not present or revoke it, nor presents a
      dead token of that user. */
  predicate Spares(t: Table, op: Op, user: nat, token: nat) {
    match op
    case Issue(_, _, _) => true
    case Rotate(presented, _, _) =>
      presented != token &&
      forall i :: 0 <= i < |t.rows| && t.rows[i].token == presented && t.rows[i].user == user ==>
        !t.rows[i].rotated && !t.rows[i].revoked
    case Revoke(presented) => presented != token
    case RevokeAll(u) => u != user
  }

  lemma HandedOut(t: Table, op: Op, ttl: int, user: nat, token: nat, x: int)
    requires Families(t) && Enabled(t, op) && HandsOut(t, op, ttl, user, token, x)
    ensures var s := Apply(t, op, ttl); |s.rows| > 0 && s.rows[|s.rows| - 1] == Row(user, token, x, false, false)
  {
  }

  lemma SparedStays(t: Table, op: Op, ttl: int, i: nat)
    requires Families(t) && Enabled(t, op) && i < |t.rows| && Spares(t, op, t.rows[i].user, t.rows[i].token)
    ensures i < |Apply(t, op, ttl).rows| && Apply(t, op, ttl).rows[i] == t.rows[i]
  {
    hide Families, Lookup;
  }

  lemma {:induction false} SparedRun(ops: seq<Op>, n: nat, ttl: int, user: nat, token: nat, x: int) returns (i: nat)
    requires n < |ops| && Run(ops, ttl).Some? && Run(ops[..n], ttl).Some?
    requires HandsOut(Run(ops[..n], ttl).value, ops[n], ttl, user, token, x)
    requires forall k :: n < k < |ops| && Run(ops[..k], ttl).Some? ==>
      Spares(Run(ops[..k], ttl).value, ops[k], user, token)
    ensures i < |Run(ops, ttl).value.rows| && Run(ops, ttl).value.rows[i] == Row(user, token, x, false, false)
  {
    hide Families, Apply, Enabled, HandsOut, Spares;
    var last := |ops| - 1;
    var before := ops[..last];
    RunKeeps(before, ttl);
    var t := Run(before, ttl).value;
    if n == last {
      HandedOut(t, ops[last], ttl, user, token, x);
      i := |Run(ops, ttl).value.rows| - 1;
    } else {
      assert before[..n] == ops[..n];
      forall k | n < k < last && Run(before[..k], ttl).Some?
        ensures Spares(Run(before[..k], ttl).value, before[k], user, token)
      {
        assert before[..k] == ops[..k];
      }
      i := SparedRun(before, n, ttl, user, token, x);
      SparedStays(t, ops[last], ttl, i);
    }
  }

  /** Over any run: a token that an issue or a rotation handed out, and that has been left alone since,
      rotates at any time before it expires; and its successor is handed out by that very step. */
  lemma GoodTokenRotates(ops: seq<Op>, n: nat, ttl: int, user: nat, token: nat, x: int, next: nat, now: int)
    requires n < |ops| && Run(ops, ttl).Some? && Run(ops[..n], ttl).Some?
    requires HandsOut(Run(ops[..n], ttl).value, ops[n], ttl, user, token, x)
    requires forall k :: n < k < |ops| && Run(ops[..k], ttl).Some? ==>
      Spares(Run(ops[..k], ttl).value, ops[k], user, token)
    requires now < x
    ensures var t := Run(ops, ttl).value;
      && OutcomeOf(t, token, next, now, ttl) == Rotated(user, next, now + ttl)
      && HandsOut(t, Rotate(token, next, now), ttl, user, next, now + ttl)
  {
    var i := SparedRun(ops, n, ttl, user, token, x);
    RunKeeps(ops, ttl);
    RotateExactly(Run(ops, ttl).value, i, next, now, ttl);
  }

  // ---------------------------------------------------------------------------
  // Replays
  // ---------------------------------------------------------------------------

  /** Presenting a token that was rotated or revoked leaves its user with nothing live; presenting
      an honestly expired one changes nothing. */
  lemma ReplayPurges(t: Table, presented: nat, token: nat, now: int, ttl: int, u: nat)
    requires Families(t)
    ensures var i, s := Lookup(t.rows, presented), AfterRotate(t, presented, token, now, ttl);
      i < |t.rows| ==>
        if t.rows[i].rotated || t.rows[i].revoked then
          LiveCount(s.rows, u) == if u == t.rows[i].user then 0 else LiveCount(t.rows, u)
        else if t.rows[i].expiresAt <= now then s == t
        else LiveCount(s.rows, u) == LiveCount(t.rows, u)
  {
    var i := Lookup(t.rows, presented);
    if i < |t.rows| {
      CountRevoked(t.rows, t.rows[i].user, u);
      var killed := t.rows[i := t.rows[i].(rotated := true)];
      CountKill(t.rows, i, t.rows[i].(rotated := true), u);
      CountSnoc(killed, Row(t.rows[i].user, token, now + ttl, false, false), u);
    }
  }

  /** Rows keep their place, and a row that is dead stays dead. */
  lemma DeadStaysDead(t: Table, op: Op, ttl: int, i: nat)
    requires |t.rows| == |t.root| && i < |t.rows|
    ensures var s := Apply(t, op, ttl);
      && i < |s.rows| && s.rows[i].token == t.rows[i].token && s.rows[i].user == t.rows[i].user
      && (t.rows[i].rotated ==> s.rows[i].rotated) && (t.rows[i].revoked ==> s.rows[i].revoked)
  {
  }

  lemma {:induction false} DeadForever(ops: seq<Op>, n: nat, ttl: int, i: nat)
    requires n <= |ops| && Run(ops, ttl).Some? && Run(ops[..n], ttl).Some?
    requires i < |Run(ops[..n], ttl).value.rows| && !Live(Run(ops[..n], ttl).value.rows[i])
    ensures var t, s := Run(ops[..n], ttl).value, Run(ops, ttl).value;
      i < |s.rows| && s.rows[i].token == t.rows[i].token && !Live(s.rows[i])
  {
    if n < |ops| {
      var init := ops[..|ops| - 1];
      assert init[..n] == ops[..n];
      DeadForever(init, n, ttl, i);
      DeadStaysDead(Run(init, ttl).value, ops[|ops| - 1], ttl, i);
    } else {
      assert ops[..n] == ops;
    }
  }

  /** After a family revoke no token the user held then is ever accepted again: each later
      presentation is itself a detected reuse. */
  lemma PurgedForGood(ops: seq<Op>, n: nat, ttl: int, user: nat, i: nat, token: nat, now: int)
    requires n < |ops| && Run(ops, ttl).Some? && Run(ops[..n], ttl).Some? && Run(ops[..n + 1], ttl).Some?
    requires Purges(Run(ops[..n], ttl).value, ops[n], user)
    requires i < |Run(ops[..n], ttl).value.rows| && Run(ops[..n], ttl).value.rows[i].user == user
    ensures OutcomeOf(Run(ops, ttl).value, Run(ops[..n], ttl).value.rows[i].token, token, now, ttl).ReuseDetected?
  {
    var t := Run(ops[..n], ttl).value;
    assert ops[..n + 1][..n] == ops[..n];
    var s := Run(ops[..n + 1], ttl).value;
    assert s == Apply(t, ops[n], ttl);
    DeadForever(ops, n + 1, ttl, i);
    RunKeeps(ops, ttl);
    var r := Run(ops, ttl).value.rows;
    assert r[i].token == t.rows[i].token;
    assert Lookup(r, r[i].token) == i;
  }

  /** How often a token has been rotated successfully. */
  function Successes(ops: seq<Op>, ttl: int, token: nat): nat
    requires Run(ops, ttl).Some?
  {
    if ops == [] then 0
    else
      var before, op := Run(ops[..|ops| - 1], ttl).value, ops[|ops| - 1];
      Successes(ops[..|ops| - 1], ttl, token) +
      if op.Rotate? && op.presented == token && OutcomeOf(before, token, op.token, op.now, ttl).Rotated? then 1 else 0
  }

  predicate WasRotated(t: Table, token: nat) {
    var i := Lookup(t.rows, token);
    i < |t.rows| && t.rows[i].rotated
  }

  /** Over any run a token rotates successfully at most once, and exactly when its row says so. */
  lemma {:induction false} RotatesOnce(ops: seq<Op>, ttl: int, token: nat)
    requires Run(ops, ttl).Some?
    ensures Successes(ops, ttl, token) == if WasRotated(Run(ops, ttl).value, token) then 1 else 0
  {
    if ops != [] {
      RotatesOnce(ops[..|ops| - 1], ttl, token);
      RotateStep(Run(ops[..|ops| - 1], ttl).value, ops[|ops| - 1], ttl, token);
    }
  }

  lemma RotateStep(t: Table, op: Op, ttl: int, token: nat)
    requires |t.rows| == |t.root| && Enabled(t, op)
    ensures WasRotated(Apply(t, op, ttl), token) <==>
      WasRotated(t, token)
      || (op.Rotate? && op.presented == token && OutcomeOf(t, token, op.token, op.now, ttl).Rotated?)
  {
    var i, s := Lookup(t.rows, token), Apply(t, op, ttl);
    var j := Lookup(s.rows, token);
    if i < |t.rows| {
      DeadStaysDead(t, op, ttl, i);
      forall k | 0 <= k < i ensures s.rows[k].token != token {
        DeadStaysDead(t, op, ttl, k);
      }
      assert i == j;
    }
  }
}
