/** The broadcast routes of apps/api/src/routes/broadcast.ts: cursor pagination over a room's
    posts and the spacing of admitted posts. The table keeps microseconds; a cursor, being a
    JavaScript date, keeps milliseconds. */
module Broadcast {

  import opened Options

  datatype Post = Post(id: nat, createdUs: nat)

  function Ms(p: Post): nat {
    p.createdUs / 1000
  }

  predicate Newer(a: Post, b: Post) {
    a.createdUs > b.createdUs || (a.createdUs == b.createdUs && a.id > b.id)
  }

  /** A room's posts as ORDER BY created_at DESC, id DESC lists them. */
  ghost predicate Descending(posts: seq<Post>) {
    forall i, j :: 0 <= i < j < |posts| ==> Newer(posts[i], posts[j])
  }

  // ---------------------------------------------------------------------------
  // One page
  // ---------------------------------------------------------------------------

  /** created_at < cursor. */
  predicate Under(p: Post, cursor: Option<nat>) {
    cursor.Some? ==> p.createdUs < cursor.value * 1000
  }

  function Matching(posts: seq<Post>, cursor: Option<nat>): (m: seq<Post>)
    ensures |m| <= |posts|
  {
    if posts == [] then []
    else if Under(posts[0], cursor) then [posts[0]] + Matching(posts[1..], cursor)
    else Matching(posts[1..], cursor)
  }

  function Take(posts: seq<Post>, limit: nat): seq<Post> {
    if |posts| <= limit then posts else posts[..limit]
  }

  function Page(posts: seq<Post>, cursor: Option<nat>, limit: nat): seq<Post> {
    Take(Matching(posts, cursor), limit)
  }

  function NextBefore(page: seq<Post>, limit: nat): Option<nat> {
    if |page| == limit && |page| > 0 then Some(Ms(page[|page| - 1])) else None
  }

  // ---------------------------------------------------------------------------
  // Following the cursors
  // ---------------------------------------------------------------------------

  lemma {:induction false} MatchingMember(posts: seq<Post>, cursor: Option<nat>, p: Post)
    ensures p in Matching(posts, cursor) <==> p in posts && Under(p, cursor)
  {
    if posts != [] {
      MatchingMember(posts[1..], cursor, p);
      assert posts == [posts[0]] + posts[1..];
    }
  }

  /** Filtering twice is filtering by the lower cursor. */
  lemma {:induction false} MatchingTwice(posts: seq<Post>, cursor: Option<nat>, c: nat)
    requires cursor.Some? ==> c <= cursor.value
    ensures Matching(Matching(posts, cursor), Some(c)) == Matching(posts, Some(c))
  {
    if posts != [] {
      MatchingTwice(posts[1..], cursor, c);
      if Under(posts[0], cursor) {
        assert Matching(posts, cursor)[1..] == Matching(posts[1..], cursor);
      }
    }
  }

  lemma {:induction false} MatchingDrops(posts: seq<Post>, cursor: Option<nat>, p: Post)
    requires p in posts && !Under(p, cursor)
    ensures |Matching(posts, cursor)| < |posts|
  {
    if Under(posts[0], cursor) {
      MatchingDrops(posts[1..], cursor, p);
    }
  }

  /** Each cursor leaves fewer posts than the one before it: following them terminates. */
  lemma CursorShrinks(posts: seq<Post>, cursor: Option<nat>, limit: nat)
    requires NextBefore(Page(posts, cursor, limit), limit).Some?
    ensures var c := NextBefore(Page(posts, cursor, limit), limit).value;
      |Matching(posts, Some(c))| < |Matching(posts, cursor)| && (cursor.Some? ==> c <= cursor.value)
  {
    var page := Page(posts, cursor, limit);
    var last := page[|page| - 1];
    assert last in Matching(posts, cursor);
    MatchingMember(posts, cursor, last);
    MatchingTwice(posts, cursor, Ms(last));
    MatchingDrops(Matching(posts, cursor), Some(Ms(last)), last);
  }

  /** Everything a client sees that starts at `cursor` and follows nextBefore to the end. */
  ghost function Crawl(posts: seq<Post>, cursor: Option<nat>, limit: nat): seq<Post>
    decreases |Matching(posts, cursor)|
  {
    var page := Page(posts, cursor, limit);
    match NextBefore(page, limit)
    case None => page
    case Some(c) =>
      CursorShrinks(posts, cursor, limit);
      page + Crawl(posts, Some(c), limit)
  }

  // ---------------------------------------------------------------------------
  // What the crawl sees
  // ---------------------------------------------------------------------------

  /** On a descending list a cursor cuts a suffix. */
  lemma {:induction false} MatchingSuffix(posts: seq<Post>, cursor: Option<nat>)
    requires Descending(posts)
    ensures |posts| - |Matching(posts, cursor)| >= 0
    ensures Matching(posts, cursor) == posts[|posts| - |Matching(posts, cursor)|..]
    ensures forall i :: 0 <= i < |posts| ==> (Under(posts[i], cursor) <==> i >= |posts| - |Matching(posts, cursor)|)
  {
    if posts != [] {
      MatchingSuffix(posts[1..], cursor);
      if Under(posts[0], cursor) {
        forall i | 0 <= i < |posts| ensures Under(posts[i], cursor) {
          assert i > 0 ==> Newer(posts[0], posts[i]);
        }
        if |posts| > 1 {
          assert Newer(posts[0], posts[1]) && Under(posts[1..][0], cursor);
        }
      }
    }
  }

  /** The crawl over what lies under the cursor, as a walk over the list itself. */
  ghost function Visited(rest: seq<Post>, limit: nat): seq<Post>
    requires limit > 0
    decreases |rest|
  {
    if |rest| < limit then rest
    else
      MatchingTail(rest, limit);
      rest[..limit] + Visited(Matching(rest, Some(Ms(rest[limit - 1]))), limit)
  }

  lemma MatchingTail(rest: seq<Post>, limit: nat)
    requires 0 < limit <= |rest|
    ensures |Matching(rest, Some(Ms(rest[limit - 1])))| < |rest|
  {
    MatchingDrops(rest, Some(Ms(rest[limit - 1])), rest[limit - 1]);
  }

  lemma {:induction false} CrawlVisits(posts: seq<Post>, cursor: Option<nat>, limit: nat)
    requires limit > 0
    ensures Crawl(posts, cursor, limit) == Visited(Matching(posts, cursor), limit)
    decreases |Matching(posts, cursor)|
  {
    var m := Matching(posts, cursor);
    if |m| >= limit {
      CursorShrinks(posts, cursor, limit);
      var c := Ms(m[limit - 1]);
      CrawlVisits(posts, Some(c), limit);
      assert m[limit - 1] in m;
      MatchingMember(posts, cursor, m[limit - 1]);
      MatchingTwice(posts, cursor, c);
    }
  }

  /** No page ends between two posts of the same millisecond. */
  ghost predicate NoSplit(rest: seq<Post>, limit: nat)
    requires limit > 0
    decreases |rest|
  {
    |rest| > limit ==> Ms(rest[limit]) < Ms(rest[limit - 1]) && NoSplit(rest[limit..], limit)
  }

  /** What lies under a page's cursor: the rest of the list without the posts of its last
      post's millisecond. */
  lemma AfterPage(rest: seq<Post>, limit: nat)
    requires Descending(rest) && 0 < limit <= |rest|
    ensures var m := Matching(rest, Some(Ms(rest[limit - 1])));
      && |m| <= |rest| - limit && m == rest[|rest| - |m|..]
      && (m == rest[limit..] <==> |rest| > limit ==> Ms(rest[limit]) < Ms(rest[limit - 1]))
      && (forall i :: limit <= i < |rest| - |m| ==> Ms(rest[i]) == Ms(rest[limit - 1]))
  {
    var c := Some(Ms(rest[limit - 1]));
    var m := Matching(rest, c);
    MatchingSuffix(rest, c);
    assert !Under(rest[limit - 1], c);
    forall i | limit <= i < |rest| - |m| ensures Ms(rest[i]) == Ms(rest[limit - 1]) {
      assert Newer(rest[limit - 1], rest[i]) && !Under(rest[i], c);
    }
    if |rest| > limit {
      assert Under(rest[limit], c) <==> Ms(rest[limit]) < Ms(rest[limit - 1]);
    }
  }

  lemma {:induction false} VisitedShorter(rest: seq<Post>, limit: nat)
    requires limit > 0 && Descending(rest)
    ensures |Visited(rest, limit)| <= |rest|
    decreases |rest|
  {
    if |rest| >= limit {
      MatchingTail(rest, limit);
      AfterPage(rest, limit);
      VisitedShorter(Matching(rest, Some(Ms(rest[limit - 1]))), limit);
    }
  }

  /** From no cursor to the last page a client sees the whole descending list exactly when no page
      ends between two posts of the same millisecond. */
  lemma {:induction false} CompleteExactly(rest: seq<Post>, limit: nat)
    requires limit > 0 && Descending(rest)
    ensures Visited(rest, limit) == rest <==> NoSplit(rest, limit)
    decreases |rest|
  {
    if |rest| >= limit {
      var m := Matching(rest, Some(Ms(rest[limit - 1])));
      MatchingTail(rest, limit);
      AfterPage(rest, limit);
      VisitedShorter(m, limit);
      if m == rest[limit..] {
        CompleteExactly(rest[limit..], limit);
        assert rest == rest[..limit] + rest[limit..];
        if Visited(rest, limit) == rest {
          assert Visited(m, limit) == Visited(rest, limit)[limit..];
        }
      }
    }
  }

  lemma {:induction false} MatchingAll(posts: seq<Post>)
    ensures Matching(posts, None) == posts
  {
    if posts != [] {
      MatchingAll(posts[1..]);
    }
  }

  lemma CrawlComplete(posts: seq<Post>, limit: nat)
    requires limit > 0 && Descending(posts)
    ensures Crawl(posts, None, limit) == posts <==> NoSplit(posts, limit)
  {
    MatchingAll(posts);
    CrawlVisits(posts, None, limit);
    CompleteExactly(posts, limit);
  }

  /** Three posts of one millisecond, two to a page: the third is never shown. */
  lemma CrawlSkips()
    ensures var posts := [Post(3, 1500), Post(2, 1400), Post(1, 1300)];
      Descending(posts) && Crawl(posts, None, 2) == posts[..2]
  {
    var posts := [Post(3, 1500), Post(2, 1400), Post(1, 1300)];
    MatchingAll(posts);
    CrawlVisits(posts, None, 2);
    assert posts[1..] == [Post(2, 1400), Post(1, 1300)] && posts[1..][1..] == [Post(1, 1300)];
    assert Matching([Post(1, 1300)], Some(1)) == [];
    assert Matching(posts[1..], Some(1)) == [];
    assert Matching(posts, Some(1)) == [];
  }

  /** Posts of pairwise distinct milliseconds are all seen. */
  lemma {:induction false} DistinctNeverSplit(rest: seq<Post>, limit: nat)
    requires limit > 0 && Descending(rest)
    requires forall i, j :: 0 <= i < j < |rest| ==> Ms(rest[i]) != Ms(rest[j])
    ensures NoSplit(rest, limit)
    decreases |rest|
  {
    if |rest| > limit {
      assert Newer(rest[limit - 1], rest[limit]) && Ms(rest[limit - 1]) != Ms(rest[limit]);
      DistinctNeverSplit(rest[limit..], limit);
    }
  }

  lemma {:induction false} VisitedInOrder(rest: seq<Post>, limit: nat)
    requires limit > 0 && Descending(rest)
    ensures Descending(Visited(rest, limit))
    ensures forall p :: p in Visited(rest, limit) ==> p in rest
    decreases |rest|
  {
    if |rest| >= limit {
      var m := Matching(rest, Some(Ms(rest[limit - 1])));
      MatchingTail(rest, limit);
      AfterPage(rest, limit);
      VisitedInOrder(m, limit);
      var page, more := rest[..limit], Visited(m, limit);
      forall i, j | 0 <= i < j < |page + more| ensures Newer((page + more)[i], (page + more)[j]) {
        if i < limit <= j {
          assert more[j - limit] in m;
          var k :| 0 <= k < |m| && m[k] == more[j - limit];
          assert rest[|rest| - |m| + k] == m[k];
        }
      }
    }
  }

  lemma {:induction false} VisitedMisses(rest: seq<Post>, limit: nat, k: nat)
    requires limit > 0 && Descending(rest) && k < |rest|
    ensures rest[k] in Visited(rest, limit) ||
      exists p :: p in Visited(rest, limit) && Ms(p) == Ms(rest[k]) && Newer(p, rest[k])
    decreases |rest|
  {
    if |rest| >= limit {
      var m := Matching(rest, Some(Ms(rest[limit - 1])));
      MatchingTail(rest, limit);
      AfterPage(rest, limit);
      if k < limit {
        assert rest[..limit][k] == rest[k];
      } else if k < |rest| - |m| {
        assert rest[..limit][limit - 1] == rest[limit - 1];
      } else {
        VisitedMisses(m, limit, k - (|rest| - |m|));
      }
    }
  }

  /** A client that follows the cursors from none to the end is shown no post twice, and newest
      first throughout. */
  lemma NeverRepeats(posts: seq<Post>, limit: nat)
    requires limit > 0 && Descending(posts)
    ensures Descending(Crawl(posts, None, limit)) && forall p :: p in Crawl(posts, None, limit) ==> p in posts
  {
    MatchingAll(posts);
    CrawlVisits(posts, None, limit);
    VisitedInOrder(posts, limit);
  }

  /** A post such a client misses shares its millisecond with a newer post it was shown. */
  lemma MissedSharesBoundary(posts: seq<Post>, limit: nat, k: nat)
    requires limit > 0 && Descending(posts) && k < |posts|
    ensures var seen := Crawl(posts, None, limit);
      posts[k] in seen || exists p :: p in seen && Ms(p) == Ms(posts[k]) && Newer(p, posts[k])
  {
    MatchingAll(posts);
    CrawlVisits(posts, None, limit);
    VisitedMisses(posts, limit, k);
  }

  // ---------------------------------------------------------------------------
  // Post spacing
  // ---------------------------------------------------------------------------

  datatype Key = Key(user: nat, room: nat)

  /** What a run of tryAcquire calls admitted, in order. */
  datatype Grant = Grant(key: Key, at: int)

  class PostRateLimiter {
    const windowMs: int
    var state: map<Key, int>
    ghost var granted: seq<Grant>

    /** The map holds each key's latest grant, and one key's grants are a window apart. */
    ghost predicate Valid()
      reads this
    {
      && (forall i :: 0 <= i < |granted| ==> granted[i].key in state)
      && (forall i :: 0 <= i < |granted| ==> granted[i].at <= state[granted[i].key])
      && (forall i, j :: 0 <= i < j < |granted| && granted[i].key == granted[j].key ==>
            granted[j].at - granted[i].at >= windowMs)
    }

    constructor (windowMs: int)
      requires windowMs >= 0
      ensures Valid() && granted == [] && this.windowMs == windowMs && state == map[]
    {
      this.windowMs := windowMs;
      state := map[];
      granted := [];
    }

    /** Refuses exactly the posts less than a window after the key's last admitted one, on any
        clock; `Valid` keeps all grants of a key a window apart. */
    method TryAcquire(user: nat, room: nat, now: int) returns (ok: bool)
      requires Valid() && windowMs >= 0
      modifies this
      ensures Valid()
      ensures ok <==> Key(user, room) in old(state) ==> now - old(state)[Key(user, room)] >= windowMs
      ensures state == if ok then old(state)[Key(user, room) := now] else old(state)
      ensures granted == if ok then old(granted) + [Grant(Key(user, room), now)] else old(granted)
    {
      var k := Key(user, room);
      if k in state && now - state[k] < windowMs {
        return false;
      }
      state := state[k := now];
      granted := granted + [Grant(k, now)];
      return true;
    }
  }
}
