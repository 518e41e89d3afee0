/** The change feed: what `changesSince` answers, and how a client walks it in pages. */
module SyncFeed {
  import Rfc3339
  import opened SyncModel
  import opened SyncLog

  /** The change envelope. */
  datatype Change = Change(entity: Entity, num: nat, deleted: bool, item: Item)

  function ChangeOf(k: Key, row: Row): Change { Change(k.entity, row.num, row.deletedAt.Some?, ItemOf(row)) }

  ghost predicate Numbered(db: Database, u: UserId, k: Key, n: nat)
  {
    k in db.rows && db.rows[k].owner == u && db.rows[k].num == n
  }

  /** The user's changes with numbers in (lo, hi], in the order of their numbers. */
  ghost function Feed(db: Database, u: UserId, lo: nat, hi: nat): seq<Change>
    decreases hi
  {
    if hi <= lo then []
    else
      var front := Feed(db, u, lo, hi - 1);
      if exists k :: Numbered(db, u, k, hi) then
        var k :| Numbered(db, u, k, hi);
        front + [ChangeOf(k, db.rows[k])]
      else front
  }

  predicate Increasing(cs: seq<Change>)
  {
    forall i, j :: 0 <= i < j < |cs| ==> cs[i].num < cs[j].num
  }

  // ---- The feed is the one increasing arrangement of the user's changes ----

  /** `c` reports a row of the user numbered in (lo, hi]. */
  ghost predicate Reports(db: Database, u: UserId, lo: nat, hi: nat, k: Key, c: Change)
  {
    k in db.rows && db.rows[k].owner == u && lo < db.rows[k].num <= hi && c == ChangeOf(k, db.rows[k])
  }

  lemma {:induction false} FeedSound(db: Database, u: UserId, lo: nat, hi: nat, i: nat) returns (k: Key)
    requires i < |Feed(db, u, lo, hi)|
    ensures Reports(db, u, lo, hi, k, Feed(db, u, lo, hi)[i])
    decreases hi
  {
    if i < |Feed(db, u, lo, hi - 1)| {
      k := FeedSound(db, u, lo, hi - 1, i);
    } else {
      k :| Numbered(db, u, k, hi) && Feed(db, u, lo, hi)[i] == ChangeOf(k, db.rows[k]);
    }
  }

  lemma {:induction false} FeedComplete(db: Database, u: UserId, lo: nat, hi: nat, k: Key) returns (i: nat)
    requires LogOk(db) && k in db.rows && db.rows[k].owner == u && lo < db.rows[k].num <= hi
    ensures i < |Feed(db, u, lo, hi)| && Feed(db, u, lo, hi)[i] == ChangeOf(k, db.rows[k])
    decreases hi
  {
    if db.rows[k].num == hi {
      assert Numbered(db, u, k, hi);
      i := |Feed(db, u, lo, hi)| - 1;
    } else {
      i := FeedComplete(db, u, lo, hi - 1, k);
    }
  }

  lemma {:induction false} FeedIncreasing(db: Database, u: UserId, lo: nat, hi: nat)
    ensures Increasing(Feed(db, u, lo, hi))
    decreases hi
  {
    if lo < hi {
      FeedIncreasing(db, u, lo, hi - 1);
      var front := Feed(db, u, lo, hi - 1);
      forall i | 0 <= i < |front| ensures front[i].num < hi {
        var k := FeedSound(db, u, lo, hi - 1, i);
      }
    }
  }

  lemma HasAMember(cs: seq<Change>)
    ensures cs != [] ==> exists c :: c in cs
  {
    if cs != [] { assert cs[0] in cs; }
  }

  lemma {:induction false} IncreasingIsUnique(cs: seq<Change>, ds: seq<Change>)
    requires Increasing(cs) && Increasing(ds) && forall c :: c in cs <==> c in ds
    ensures cs == ds
  {
    if cs == [] {
      HasAMember(ds);
    } else {
      var m := |cs| - 1;
      assert cs[m] in ds;
      var n := |ds| - 1;
      assert ds[n] in cs;
      assert cs[m] == ds[n];
      forall c ensures c in cs[..m] <==> c in ds[..n] {
        if c in cs[..m] { assert c in cs && c.num < cs[m].num; }
        if c in ds[..n] { assert c in ds && c.num < ds[n].num; }
      }
      IncreasingIsUnique(cs[..m], ds[..n]);
      assert cs == cs[..m] + [cs[m]] && ds == ds[..n] + [ds[n]];
    }
  }

  /** However the seven lists were gathered and whatever an unstable sort did with them: the
      only increasing arrangement of exactly the user's changes after `since` is the feed. */
  lemma FeedIsUnique(db: Database, u: UserId, since: nat, cs: seq<Change>)
    requires LogOk(db) && Increasing(cs)
    requires forall c :: c in cs <==> exists k :: Reports(db, u, since, Latest(db, u), k, c)
    ensures cs == Feed(db, u, since, Latest(db, u))
  {
    var hi := Latest(db, u);
    var feed := Feed(db, u, since, hi);
    FeedIncreasing(db, u, since, hi);
    forall c ensures c in cs <==> c in feed {
      if c in cs {
        var k :| Reports(db, u, since, hi, k, c);
        var i := FeedComplete(db, u, since, hi, k);
      }
      if c in feed {
        var i :| 0 <= i < |feed| && feed[i] == c;
        var k := FeedSound(db, u, since, hi, i);
      }
    }
    IncreasingIsUnique(cs, feed);
  }

  // ---- The answer ----

  datatype Answer = Gone | Page(changes: seq<Change>)

  function Truncate(cs: seq<Change>, limit: nat): seq<Change>
  {
    if limit > 0 && |cs| > limit then cs[..limit] else cs
  }

  /** The cursor checks, skipped for a full resync. */
  predicate CursorRejected(db: Database, u: UserId, since: nat)
  {
    since > 0 && (since < Watermark(db, u) || since > Latest(db, u))
  }

  ghost function AnswerTo(db: Database, u: UserId, since: nat, limit: nat): Answer
  {
    if CursorRejected(db, u, since) then Gone
    else Page(Truncate(Feed(db, u, since, Latest(db, u)), limit))
  }

  /** A page holds exactly the user's changes numbered above the cursor and up to its last one:
      the lowest numbers there are. */
  lemma PageHoldsTheLowest(db: Database, u: UserId, since: nat, limit: nat, k: Key)
    requires LogOk(db) && AnswerTo(db, u, since, limit).Page?
    requires k in db.rows && db.rows[k].owner == u && since < db.rows[k].num
    ensures var page := AnswerTo(db, u, since, limit).changes;
            ChangeOf(k, db.rows[k]) in page <==>
              page == Feed(db, u, since, Latest(db, u)) || (page != [] && db.rows[k].num <= page[|page| - 1].num)
  {
    var feed, page := Feed(db, u, since, Latest(db, u)), AnswerTo(db, u, since, limit).changes;
    assert RowOk(db, k);
    FeedIncreasing(db, u, since, Latest(db, u));
    var i := FeedComplete(db, u, since, Latest(db, u), k);
    if page != feed {
      assert page == feed[..limit];
      assert i < limit ==> page[i] == feed[i];
      if ChangeOf(k, db.rows[k]) in page {
        var j :| 0 <= j < limit && page[j] == feed[i];
        assert i == j;
      }
    }
  }

  // ---- Walking the feed in pages on a quiet server ----

  lemma {:induction false} FeedSplits(db: Database, u: UserId, lo: nat, mid: nat, hi: nat)
    requires lo <= mid <= hi
    ensures Feed(db, u, lo, hi) == Feed(db, u, lo, mid) + Feed(db, u, mid, hi)
    decreases hi
  {
    if mid < hi { FeedSplits(db, u, lo, mid, hi - 1); }
  }

  /** What is left after a page is the feed from the page's last number on. */
  lemma RestOfFeed(db: Database, u: UserId, since: nat, n: nat)
    requires LogOk(db) && 0 < n <= |Feed(db, u, since, Latest(db, u))|
    ensures var feed := Feed(db, u, since, Latest(db, u)); var c := feed[n - 1].num;
            since < c <= Latest(db, u) && Feed(db, u, c, Latest(db, u)) == feed[n..]
  {
    var hi := Latest(db, u);
    var feed := Feed(db, u, since, hi);
    var c := feed[n - 1].num;
    var k := FeedSound(db, u, since, hi, n - 1);
    FeedSplits(db, u, since, c, hi);
    FeedIncreasing(db, u, since, hi);
    var head := Feed(db, u, since, c);
    var i := FeedComplete(db, u, since, c, k);
    assert feed[i] == head[i] == feed[n - 1];
    assert i == n - 1;
    if |head| > n {
      assert feed[n] == head[n];
      var l := FeedSound(db, u, since, c, n);
    }
  }

  /** What a client gathers by following last-number cursors until a page comes back short. */
  datatype Walked = Walked(changes: seq<Change>, requests: nat, complete: bool)

  ghost function Walk(db: Database, u: UserId, since: nat, n: nat): Walked
    requires LogOk(db) && n > 0
    decreases |Feed(db, u, since, Latest(db, u))|
  {
    match AnswerTo(db, u, since, n)
    case Gone => Walked([], 1, false)
    case Page(page) =>
      if |page| < n then Walked(page, 1, true)
      else
        RestOfFeed(db, u, since, n);
        var rest := Walk(db, u, page[n - 1].num, n);
        Walked(page + rest.changes, 1 + rest.requests, rest.complete)
  }

  predicate CursorAccepted(db: Database, u: UserId, c: nat) { Watermark(db, u) <= c <= Latest(db, u) }

  lemma OnePageFewer(k: nat, n: nat)
    requires 0 < n <= k
    ensures k / n == (k - n) / n + 1
  {
    var q, r := (k - n) / n, (k - n) % n;
    assert k == n * (q + 1) + r;
    Rfc3339.Quotient(k, n, q + 1);
  }

  /** From an accepted cursor the walk yields exactly the unpaged answer, without gaps or
      duplicates, in k / n + 1 requests for k changes. */
  lemma {:induction false} WalkIsTheFeed(db: Database, u: UserId, since: nat, n: nat)
    requires LogOk(db) && n > 0 && CursorAccepted(db, u, since)
    ensures var feed := Feed(db, u, since, Latest(db, u));
            Walk(db, u, since, n) == Walked(feed, |feed| / n + 1, true)
    decreases |Feed(db, u, since, Latest(db, u))|
  {
    var feed := Feed(db, u, since, Latest(db, u));
    assert AnswerTo(db, u, since, n) == Page(Truncate(feed, n));
    if |feed| >= n {
      RestOfFeed(db, u, since, n);
      WalkIsTheFeed(db, u, feed[n - 1].num, n);
      PageAndRest(feed, n);
    } else {
      assert |feed| / n == 0;
    }
  }

  lemma PageAndRest(feed: seq<Change>, n: nat)
    requires 0 < n <= |feed|
    ensures feed == feed[..n] + feed[n..] && |feed| / n + 1 == 1 + (|feed[n..]| / n + 1)
  {
    OnePageFewer(|feed|, n);
  }

  lemma WalkAfterFullPage(db: Database, u: UserId, n: nat)
    requires LogOk(db) && 0 < n <= |Feed(db, u, 0, Latest(db, u))|
    ensures var feed := Feed(db, u, 0, Latest(db, u)); var c := feed[n - 1].num;
            if c < Watermark(db, u) then !Walk(db, u, 0, n).complete
            else Walk(db, u, 0, n) == Walked(feed, |feed| / n + 1, true)
  {
    var feed := Feed(db, u, 0, Latest(db, u));
    var c := feed[n - 1].num;
    RestOfFeed(db, u, 0, n);
    assert AnswerTo(db, u, 0, n) == Page(feed[..n]);
    if c >= Watermark(db, u) {
      WalkIsTheFeed(db, u, c, n);
      OnePageFewer(|feed|, n);
      assert feed == feed[..n] + feed[n..];
    }
  }

  /** A full resync in pages does not always complete. It does if and only if its first page is
      short or ends at or above the purge watermark; then it yields the whole state. */
  lemma PagedResyncCompletes(db: Database, u: UserId, n: nat)
    requires LogOk(db) && n > 0
    ensures var feed, walk := Feed(db, u, 0, Latest(db, u)), Walk(db, u, 0, n);
            (walk.complete <==> |feed| < n || feed[n - 1].num >= Watermark(db, u)) &&
            (walk.complete ==> walk == Walked(feed, |feed| / n + 1, true))
  {
    if |Feed(db, u, 0, Latest(db, u))| >= n { WalkAfterFullPage(db, u, n); }
  }
}
