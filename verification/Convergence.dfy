/** A client replica beside the server: after every complete pull it equals the user's live rows. */
module Convergence {
  import opened Options
  import opened Rfc3339
  import opened SyncModel
  import opened SyncLog
  import opened SyncFeed

  /** A client that starts empty at cursor 0, applies changes in order, moves its cursor to the
      last number received, and starts over when its cursor is rejected. */
  datatype Replica = Replica(cursor: nat, copy: map<Entity, Item>)

  const FRESH := Replica(0, map[])

  function ApplyChange(copy: map<Entity, Item>, c: Change): map<Entity, Item>
  {
    if c.deleted then copy - {c.entity} else copy[c.entity := c.item]
  }

  function ApplyChanges(copy: map<Entity, Item>, cs: seq<Change>): map<Entity, Item>
  {
    if cs == [] then copy else ApplyChange(ApplyChanges(copy, cs[..|cs| - 1]), cs[|cs| - 1])
  }

  function Absorb(r: Replica, a: Answer): Replica
  {
    match a
    case Gone => FRESH
    case Page(cs) => if cs == [] then r else Replica(cs[|cs| - 1].num, ApplyChanges(r.copy, cs))
  }

  function Held(copy: map<Entity, Item>, e: Entity): Option<Item> { if e in copy then Some(copy[e]) else None }

  /** The copy is exactly the user's live rows. */
  ghost predicate Mirrors(copy: map<Entity, Item>, db: Database, u: UserId)
  {
    forall e :: Held(copy, e) == View(db, u, e)
  }

  // ---- What the replica knows at any time ----

  ghost predicate Settled(db: Database, u: UserId, r: Replica, e: Entity)
  {
    Owns(db, u, e) && db.rows[KeyFor(e, u)].num <= r.cursor ==> Held(r.copy, e) == View(db, u, e)
  }

  /** Rows numbered up to the cursor are reflected exactly, and anything held for an entity whose
      row is gone will be noticed, because the cursor is then below the watermark. */
  ghost predicate Consistent(db: Database, u: UserId, r: Replica)
  {
    && r.cursor <= Latest(db, u)
    && (r.cursor == 0 ==> r.copy == map[])
    && (forall e :: Settled(db, u, r, e))
    && (forall e :: e in r.copy && !Owns(db, u, e) ==> r.cursor < Watermark(db, u))
  }

  lemma CommitKeepsConsistent(db: Database, v: UserId, f: Entity, row: Row, u: UserId, r: Replica)
    requires LogOk(db) && Consistent(db, u, r) && row.owner == v
    requires KeyFor(f, v) in db.rows ==> db.rows[KeyFor(f, v)].owner == v
    ensures Consistent(Commit(db, v, KeyFor(f, v), row), u, r)
  {
    var db' := Commit(db, v, KeyFor(f, v), row);
    forall e ensures Settled(db', u, r, e) {
      CommitTouchesOneEntity(db, v, f, row, u, e);
      assert Settled(db, u, r, e);
    }
    forall e | e in r.copy && !Owns(db', u, e) ensures r.cursor < Watermark(db', u) {
      assert !Owns(db, u, e);
    }
  }

  lemma WriteKeepsConsistent(db: Database, w: Write, u: UserId, r: Replica, merge: Merger)
    requires LogOk(db) && Consistent(db, u, r)
    ensures Consistent(AfterWrite(db, w, merge), u, r)
  {
    StoresOwnRow(db, w, merge);
    match PlanOf(db, w, merge)
    case Refuse(_) =>
    case Store(row) => CommitKeepsConsistent(db, w.user, w.entity, row, u, r);
  }

  lemma PurgeKeepsSettled(db: Database, cutoff: Instant, u: UserId, r: Replica, e: Entity)
    requires Settled(db, u, r, e)
    ensures Settled(AfterPurge(db, cutoff), u, r, e)
  {
  }

  /** A purged row was either noticed as deleted already, or is numbered above the cursor. */
  lemma PurgeIsNoticed(db: Database, cutoff: Instant, u: UserId, r: Replica, e: Entity)
    requires LogOk(db) && Settled(db, u, r, e) && e in r.copy && Owns(db, u, e) && !Owns(AfterPurge(db, cutoff), u, e)
    ensures r.cursor < Watermark(AfterPurge(db, cutoff), u)
  {
    var k := KeyFor(e, u);
    assert Purgeable(db.rows[k], cutoff);
    assert db.rows[k].num in PurgedSeqs(db, u, cutoff);
    PurgeRaisesWatermark(db, u, cutoff);
  }

  lemma PurgeKeepsConsistent(db: Database, cutoff: Instant, u: UserId, r: Replica)
    requires LogOk(db) && Consistent(db, u, r)
    ensures Consistent(AfterPurge(db, cutoff), u, r)
  {
    var db' := AfterPurge(db, cutoff);
    PurgeRaisesWatermark(db, u, cutoff);
    forall e ensures Settled(db', u, r, e) { PurgeKeepsSettled(db, cutoff, u, r, e); }
    forall e | e in r.copy && !Owns(db', u, e) ensures r.cursor < Watermark(db', u) {
      assert Settled(db, u, r, e);
      if Owns(db, u, e) { PurgeIsNoticed(db, cutoff, u, r, e); }
    }
  }

  lemma OtherAccountKeepsConsistent(db: Database, v: UserId, u: UserId, r: Replica)
    requires LogOk(db) && Consistent(db, u, r) && v != u
    ensures Consistent(AfterAccountDeletion(db, v), u, r)
  {
    var db' := AfterAccountDeletion(db, v);
    forall e ensures Settled(db', u, r, e) { assert Settled(db, u, r, e); }
    forall e | e in r.copy && !Owns(db', u, e) ensures r.cursor < Watermark(db', u) { assert !Owns(db, u, e); }
  }

  // ---- Absorbing a page ----

  predicate OnePerEntity(cs: seq<Change>) { forall i, j :: 0 <= i < j < |cs| ==> cs[i].entity != cs[j].entity }

  lemma {:induction false} AppliedAt(copy: map<Entity, Item>, cs: seq<Change>, i: nat)
    requires OnePerEntity(cs) && i < |cs|
    ensures Held(ApplyChanges(copy, cs), cs[i].entity) == if cs[i].deleted then None else Some(cs[i].item)
  {
    var n := |cs| - 1;
    if i < n {
      AppliedAt(copy, cs[..n], i);
      assert cs[..n][i] == cs[i] && cs[i].entity != cs[n].entity;
    }
  }

  lemma {:induction false} NotApplied(copy: map<Entity, Item>, cs: seq<Change>, e: Entity)
    requires forall i :: 0 <= i < |cs| ==> cs[i].entity != e
    ensures Held(ApplyChanges(copy, cs), e) == Held(copy, e)
  {
    if cs == [] {
    } else {
      NotApplied(copy, cs[..|cs| - 1], e);
    }
  }

  /** A page is a prefix of the feed. */
  ghost predicate IsPage(db: Database, u: UserId, since: nat, cs: seq<Change>)
  {
    cs <= Feed(db, u, since, Latest(db, u))
  }

  lemma PageEntry(db: Database, u: UserId, since: nat, cs: seq<Change>, i: nat)
    requires LogOk(db) && IsPage(db, u, since, cs) && i < |cs|
    ensures var e := cs[i].entity;
            Owns(db, u, e) && since < cs[i].num <= Latest(db, u) &&
              cs[i] == ChangeOf(KeyFor(e, u), db.rows[KeyFor(e, u)])
  {
    var k := FeedSound(db, u, since, Latest(db, u), i);
    assert RowOk(db, k);
  }

  lemma PageEntitiesDistinct(db: Database, u: UserId, since: nat, cs: seq<Change>)
    requires LogOk(db) && IsPage(db, u, since, cs)
    ensures OnePerEntity(cs) && Increasing(cs)
  {
    FeedIncreasing(db, u, since, Latest(db, u));
    forall i, j | 0 <= i < j < |cs| ensures cs[i].entity != cs[j].entity {
      PageEntry(db, u, since, cs, i);
      PageEntry(db, u, since, cs, j);
      var feed := Feed(db, u, since, Latest(db, u));
      assert feed[i].num < feed[j].num;
    }
  }

  /** Up to the page's last number (or all the way, for a whole feed), nothing is left out. */
  lemma PageReaches(db: Database, u: UserId, since: nat, cs: seq<Change>, e: Entity) returns (i: nat)
    requires LogOk(db) && IsPage(db, u, since, cs) && Owns(db, u, e) && since < db.rows[KeyFor(e, u)].num
    requires cs == Feed(db, u, since, Latest(db, u)) || (cs != [] && db.rows[KeyFor(e, u)].num <= cs[|cs| - 1].num)
    ensures i < |cs| && cs[i].entity == e
  {
    var k := KeyFor(e, u);
    assert RowOk(db, k);
    var feed := Feed(db, u, since, Latest(db, u));
    i := FeedComplete(db, u, since, Latest(db, u), k);
    assert cs != [] ==> cs[|cs| - 1] == feed[|cs| - 1];
    FeedIncreasing(db, u, since, Latest(db, u));
  }

  /** After a page, every row up to its last number is reflected exactly. */
  lemma AbsorbedAt(db: Database, u: UserId, r: Replica, cs: seq<Change>, e: Entity)
    requires LogOk(db) && Consistent(db, u, r) && !CursorRejected(db, u, r.cursor) && IsPage(db, u, r.cursor, cs)
    requires Owns(db, u, e) ==>
               cs == Feed(db, u, r.cursor, Latest(db, u)) ||
               (cs != [] && db.rows[KeyFor(e, u)].num <= cs[|cs| - 1].num)
    ensures Held(ApplyChanges(r.copy, cs), e) == View(db, u, e)
  {
    PageEntitiesDistinct(db, u, r.cursor, cs);
    if Owns(db, u, e) && r.cursor < db.rows[KeyFor(e, u)].num {
      var i := PageReaches(db, u, r.cursor, cs, e);
      PageEntry(db, u, r.cursor, cs, i);
      AppliedAt(r.copy, cs, i);
    } else {
      forall i | 0 <= i < |cs| ensures cs[i].entity != e { PageEntry(db, u, r.cursor, cs, i); }
      NotApplied(r.copy, cs, e);
      assert Settled(db, u, r, e);
    }
  }

  lemma {:induction false} CopyComesFrom(copy: map<Entity, Item>, cs: seq<Change>, e: Entity)
    requires e in ApplyChanges(copy, cs)
    ensures e in copy || exists i :: 0 <= i < |cs| && cs[i].entity == e
  {
    if cs != [] && cs[|cs| - 1].entity != e { CopyComesFrom(copy, cs[..|cs| - 1], e); }
  }

  lemma TruncatedIsPage(db: Database, u: UserId, since: nat, limit: nat)
    ensures IsPage(db, u, since, Truncate(Feed(db, u, since, Latest(db, u)), limit))
  {
  }

  lemma PullKeepsConsistent(db: Database, u: UserId, r: Replica, limit: nat)
    requires LogOk(db) && Consistent(db, u, r)
    ensures Consistent(db, u, Absorb(r, AnswerTo(db, u, r.cursor, limit)))
  {
    if !CursorRejected(db, u, r.cursor) {
      var cs := AnswerTo(db, u, r.cursor, limit).changes;
      TruncatedIsPage(db, u, r.cursor, limit);
      if cs != [] {
        var r' := Absorb(r, Page(cs));
        PageEntry(db, u, r.cursor, cs, |cs| - 1);
        forall e ensures Settled(db, u, r', e) {
          if Owns(db, u, e) && db.rows[KeyFor(e, u)].num <= r'.cursor { AbsorbedAt(db, u, r, cs, e); }
        }
        forall e | e in r'.copy ensures Owns(db, u, e) {
          CopyComesFrom(r.copy, cs, e);
          if i :| 0 <= i < |cs| && cs[i].entity == e { PageEntry(db, u, r.cursor, cs, i); }
        }
      }
    }
  }

  /** The heart of the protocol: an answer that was not truncated leaves the copy equal to the
      user's live rows. */
  lemma CompletePullMirrors(db: Database, u: UserId, r: Replica, limit: nat)
    requires LogOk(db) && Consistent(db, u, r)
    requires AnswerTo(db, u, r.cursor, limit) == Page(Feed(db, u, r.cursor, Latest(db, u)))
    ensures Mirrors(Absorb(r, AnswerTo(db, u, r.cursor, limit)).copy, db, u)
  {
    var cs := Feed(db, u, r.cursor, Latest(db, u));
    var r' := Absorb(r, Page(cs));
    forall e ensures Held(r'.copy, e) == View(db, u, e) { AbsorbedAt(db, u, r, cs, e); }
  }

  // ---- Over every run ----

  datatype Action = Server(step: Step) | Pull(limit: nat)

  datatype World = World(db: Database, replica: Replica)

  ghost function Next(w: World, a: Action, u: UserId, merge: Merger): World
  {
    match a
    case Server(s) => w.(db := After(w.db, s, merge))
    case Pull(limit) => w.(replica := Absorb(w.replica, AnswerTo(w.db, u, w.replica.cursor, limit)))
  }

  ghost function Play(actions: seq<Action>, u: UserId, merge: Merger): World
  {
    if actions == [] then World(EMPTY, FRESH)
    else Next(Play(actions[..|actions| - 1], u, merge), actions[|actions| - 1], u, merge)
  }

  /** The observed user's account is not deleted during the run. */
  predicate AccountStays(actions: seq<Action>, u: UserId)
  {
    forall i :: 0 <= i < |actions| ==> actions[i] != Server(DeleteAccount(u))
  }

  lemma {:induction false} ConsistentOnEveryRun(actions: seq<Action>, u: UserId, merge: Merger)
    requires AccountStays(actions, u)
    ensures var w := Play(actions, u, merge); LogOk(w.db) && Consistent(w.db, u, w.replica)
  {
    if actions == [] {
    } else {
      var front, a := actions[..|actions| - 1], actions[|actions| - 1];
      ConsistentOnEveryRun(front, u, merge);
      var w := Play(front, u, merge);
      match a
      case Pull(limit) => PullKeepsConsistent(w.db, u, w.replica, limit);
      case Server(s) =>
        StepKeepsLog(w.db, s, merge);
        match s
        case Submit(write) => WriteKeepsConsistent(w.db, write, u, w.replica, merge);
        case Purge(cutoff) => PurgeKeepsConsistent(w.db, cutoff, u, w.replica);
        case DeleteAccount(v) => OtherAccountKeepsConsistent(w.db, v, u, w.replica);
    }
  }

  /** Convergence. Interleave the writes of any users, purges, deletions of other accounts and
      pulls of any page size in any way: after a pull whose answer was not truncated, the copy
      equals the user's live rows exactly. */
  lemma ReplicaConverges(actions: seq<Action>, u: UserId, limit: nat, merge: Merger)
    requires AccountStays(actions, u)
    requires var w := Play(actions, u, merge);
             !CursorRejected(w.db, u, w.replica.cursor) &&
             (limit == 0 || |Feed(w.db, u, w.replica.cursor, Latest(w.db, u))| <= limit)
    ensures var w' := Play(actions + [Pull(limit)], u, merge); Mirrors(w'.replica.copy, w'.db, u)
  {
    ConsistentOnEveryRun(actions, u, merge);
    var w := Play(actions, u, merge);
    CompletePullMirrors(w.db, u, w.replica, limit);
    assert (actions + [Pull(limit)])[..|actions|] == actions;
  }

  // ---- When the account is deleted ----

  predicate AccountGone(db: Database, u: UserId)
  {
    u !in db.counters && forall k :: k in db.rows ==> db.rows[k].owner != u
  }

  predicate NotWrittenBy(steps: seq<Step>, u: UserId)
  {
    forall i :: 0 <= i < |steps| && steps[i].Submit? ==> steps[i].write.user != u
  }

  lemma {:induction false} AccountStaysGone(db: Database, steps: seq<Step>, u: UserId, merge: Merger)
    requires LogOk(db) && AccountGone(db, u) && NotWrittenBy(steps, u)
    ensures LogOk(Run(db, steps, merge)) && AccountGone(Run(db, steps, merge), u)
  {
    if steps == [] {
    } else {
      var front, last := steps[..|steps| - 1], steps[|steps| - 1];
      AccountStaysGone(db, front, u, merge);
      StepKeepsLog(Run(db, front, merge), last, merge);
      if last.Submit? { StoresOwnRow(Run(db, front, merge), last.write, merge); }
    }
  }

  lemma PullOfDeletedAccount(db: Database, u: UserId, r: Replica, limit: nat)
    requires AccountGone(db, u) && (r.cursor == 0 ==> r.copy == map[])
    ensures Absorb(r, AnswerTo(db, u, r.cursor, limit)) == FRESH && Mirrors(map[], db, u)
    ensures r.cursor > 0 ==> AnswerTo(db, u, r.cursor, limit) == Gone
  {
    forall e ensures Held(map[], e) == View(db, u, e) {}
  }

  /** When the account is deleted at the end of any run, and its user writes no more, the next pull
      leaves the copy empty, which is then exact; it is rejected unless the client never had anything. */
  lemma DeletedAccountEmptiesTheCopy(actions: seq<Action>, u: UserId, later: seq<Step>, limit: nat, merge: Merger)
    requires AccountStays(actions, u) && NotWrittenBy(later, u)
    ensures var w := Play(actions, u, merge);
            var db := Run(After(w.db, DeleteAccount(u), merge), later, merge);
            && Absorb(w.replica, AnswerTo(db, u, w.replica.cursor, limit)) == FRESH
            && Mirrors(FRESH.copy, db, u)
            && (w.replica.cursor > 0 ==> AnswerTo(db, u, w.replica.cursor, limit) == Gone)
  {
    var w := Play(actions, u, merge);
    ConsistentOnEveryRun(actions, u, merge);
    StepKeepsLog(w.db, DeleteAccount(u), merge);
    AccountStaysGone(After(w.db, DeleteAccount(u), merge), later, u, merge);
    PullOfDeletedAccount(Run(After(w.db, DeleteAccount(u), merge), later, merge), u, w.replica, limit);
  }

  ghost function PullOnce(db: Database, u: UserId, r: Replica, limit: nat): Replica
  {
    Absorb(r, AnswerTo(db, u, r.cursor, limit))
  }

  /** What clients do when the answer is 410: ask once more, for everything. */
  ghost function Sync(db: Database, u: UserId, r: Replica): Replica
  {
    if AnswerTo(db, u, r.cursor, 0).Gone? then PullOnce(db, u, FRESH, 0) else PullOnce(db, u, r, 0)
  }

  lemma FreshIsConsistent(db: Database, u: UserId)
    requires LogOk(db)
    ensures Consistent(db, u, FRESH)
  {
    forall e ensures Settled(db, u, FRESH, e) {
      if Owns(db, u, e) { assert RowOk(db, KeyFor(e, u)); }
    }
  }

  /** Whatever a client holds, and whatever server its cursor comes from: a cursor above the counter, or
      below the watermark, is answered with 410, and one sync then makes the copy equal to the live rows. */
  lemma SyncRecoversFromAnywhere(db: Database, u: UserId, r: Replica, limit: nat)
    requires LogOk(db) && (Latest(db, u) < r.cursor || 0 < r.cursor < Watermark(db, u))
    ensures AnswerTo(db, u, r.cursor, limit) == Gone
    ensures Mirrors(Sync(db, u, r).copy, db, u)
  {
    FreshIsConsistent(db, u);
    CompletePullMirrors(db, u, FRESH, 0);
  }

  /** From any point of any run, one unpaged pull, repeated from zero if it is rejected, makes
      the copy equal to the live rows. */
  lemma SyncAlwaysConverges(actions: seq<Action>, u: UserId, merge: Merger)
    requires AccountStays(actions, u)
    ensures var w := Play(actions, u, merge); Mirrors(Sync(w.db, u, w.replica).copy, w.db, u)
  {
    ConsistentOnEveryRun(actions, u, merge);
    var w := Play(actions, u, merge);
    if CursorRejected(w.db, u, w.replica.cursor) {
      PullKeepsConsistent(w.db, u, w.replica, 0);
      CompletePullMirrors(w.db, u, FRESH, 0);
    } else {
      CompletePullMirrors(w.db, u, w.replica, 0);
    }
  }

  // ---- Where a full resync leaves the cursor ----

  ghost function FirstPage(db: Database, u: UserId, limit: nat): seq<Change>
  {
    Truncate(Feed(db, u, 0, Latest(db, u)), limit)
  }

  /** The cursor a full resync ends at is itself rejected, on a quiet server, exactly when the
      page ends below the purge watermark: a purged tombstone was numbered above it. */
  lemma ResyncCursorRejected(db: Database, u: UserId, limit: nat)
    requires LogOk(db)
    ensures var page := FirstPage(db, u, limit);
            CursorRejected(db, u, PullOnce(db, u, FRESH, limit).cursor) <==>
              page != [] && page[|page| - 1].num < Watermark(db, u)
  {
    var page := FirstPage(db, u, limit);
    TruncatedIsPage(db, u, 0, limit);
    if page != [] { PageEntry(db, u, 0, page, |page| - 1); }
  }

  ghost function Pulls(db: Database, u: UserId, r: Replica, limit: nat, times: nat): Replica
  {
    if times == 0 then r else PullOnce(db, u, Pulls(db, u, r, limit, times - 1), limit)
  }

  /** In that case the client forgets everything at every second pull, however long it goes on;
      with a page size no larger than the number of changes it never sees a short page. */
  lemma {:induction false} ResyncForgetsForever(db: Database, u: UserId, limit: nat, times: nat)
    requires LogOk(db) && FirstPage(db, u, limit) != []
    requires var page := FirstPage(db, u, limit); page[|page| - 1].num < Watermark(db, u)
    ensures Pulls(db, u, FRESH, limit, times) ==
            if times % 2 == 0 then FRESH
            else
              var page := FirstPage(db, u, limit);
              Replica(page[|page| - 1].num, ApplyChanges(map[], page))
  {
    if times == 0 {
    } else {
      ResyncForgetsForever(db, u, limit, times - 1);
      if times % 2 == 0 { ResyncCursorRejected(db, u, limit); }
    }
  }

  // ---- A run that gets there ----

  const A := Entity(Tasks, "a")
  const B := Entity(Tasks, "b")
  const ROW := Row("u", map[], map[], [], 1, 1, None)
  const ONE := Database(map[KeyFor(A, "u") := ROW], map["u" := Counter(1, 0)])
  const TWO := Database(map[KeyFor(A, "u") := ROW, KeyFor(B, "u") := ROW.(num := 2)], map["u" := Counter(2, 0)])
  const DEAD := ROW.(num := 3, updatedAt := 2, deletedAt := Some(2))
  const THREE := Database(map[KeyFor(A, "u") := ROW, KeyFor(B, "u") := DEAD], map["u" := Counter(3, 0)])
  const FOUR := Database(map[KeyFor(A, "u") := ROW], map["u" := Counter(3, 3)])

  /** Create two tasks, delete the second, purge its tombstone. */
  const FORGETFUL := [
    Submit(Post("u", A, map[], 1)), Submit(Post("u", B, map[], 1)), Submit(Delete("u", B, 2)), Purge(2 * NANOS)]

  lemma FirstTwoWrites(merge: Merger)
    ensures AfterWrite(EMPTY, Post("u", A, map[], 1), merge) == ONE
    ensures AfterWrite(ONE, Post("u", B, map[], 1), merge) == TWO
  {
  }

  lemma ThirdWrite(merge: Merger)
    ensures AfterWrite(TWO, Delete("u", B, 2), merge) == THREE
  {
  }

  lemma OnlyBIsPurged()
    ensures PurgedSeqs(THREE, "u", 2 * NANOS) == {3} && !Purgeable(ROW, 2 * NANOS) && Purgeable(DEAD, 2 * NANOS)
  {
    TextOrderWithinASecond(2, 2 * NANOS);
    var ka, kb := KeyFor(A, "u"), KeyFor(B, "u");
    assert THREE.rows == map[ka := ROW, kb := DEAD] && ka != kb;
    OnlyTombstone(THREE, ka, ROW, kb, DEAD, 2 * NANOS);
  }

  lemma OnlyTombstone(db: Database, k: Key, row: Row, l: Key, dead: Row, cutoff: Instant)
    requires k != l && db.rows == map[k := row, l := dead] && !Purgeable(row, cutoff) && Purgeable(dead, cutoff)
    ensures PurgedSeqs(db, dead.owner, cutoff) == {dead.num}
  {
    assert l in db.rows && db.rows[l] == dead;
  }

  lemma OneOfTwoPurged(db: Database, k: Key, row: Row, l: Key, dead: Row, cutoff: Instant)
    requires k != l && db.rows == map[k := row, l := dead] && !Purgeable(row, cutoff) && Purgeable(dead, cutoff)
    ensures AfterPurge(db, cutoff).rows == map[k := row]
  {
  }

  lemma PurgeLeavesA()
    ensures AfterPurge(THREE, 2 * NANOS).rows == FOUR.rows
  {
    OnlyBIsPurged();
    OneOfTwoPurged(THREE, KeyFor(A, "u"), ROW, KeyFor(B, "u"), DEAD, 2 * NANOS);
  }

  lemma OneUserPurged(db: Database, u: UserId, c: Counter, cutoff: Instant, n: nat)
    requires db.counters == map[u := c] && PurgedSeqs(db, u, cutoff) == {n} && c.purgedBefore <= n
    ensures AfterPurge(db, cutoff).counters == map[u := c.(purgedBefore := n)]
  {
    assert n in PurgedSeqs(db, u, cutoff) && MaxOf(PurgedSeqs(db, u, cutoff)) == n;
    var after := AfterPurge(db, cutoff).counters;
    assert after.Keys == {u};
    assert after[u] == c.(purgedBefore := n);
  }

  lemma PurgeRaisesToThree()
    ensures AfterPurge(THREE, 2 * NANOS).counters == FOUR.counters
  {
    OnlyBIsPurged();
    OneUserPurged(THREE, "u", Counter(3, 0), 2 * NANOS, 3);
  }

  lemma FourSteps(db: Database, a: Step, b: Step, c: Step, d: Step, merge: Merger)
    ensures Run(db, [a, b, c, d], merge) == After(After(After(After(db, a, merge), b, merge), c, merge), d, merge)
  {
    assert [a, b, c, d][..3] == [a, b, c] && [a, b, c][..2] == [a, b] && [a, b][..1] == [a] && [a][..0] == [];
    assert Run(db, [], merge) == db;
    assert Run(db, [a], merge) == After(db, a, merge);
    assert Run(db, [a, b], merge) == After(After(db, a, merge), b, merge);
  }

  lemma ForgetfulRun(merge: Merger)
    ensures Run(EMPTY, FORGETFUL, merge) == FOUR
  {
    FirstTwoWrites(merge);
    ThirdWrite(merge);
    PurgeLeavesA();
    PurgeRaisesToThree();
    FourSteps(EMPTY, Submit(Post("u", A, map[], 1)), Submit(Post("u", B, map[], 1)), Submit(Delete("u", B, 2)),
      Purge(2 * NANOS), merge);
  }

  lemma FeedOfFour()
    ensures LogOk(FOUR) && Feed(FOUR, "u", 0, 3) == [ChangeOf(KeyFor(A, "u"), ROW)]
  {
    var k := KeyFor(A, "u");
    var cs := [ChangeOf(k, ROW)];
    assert FOUR.rows.Keys == {k} && FOUR.rows[k] == ROW;
    assert LogOk(FOUR) && Latest(FOUR, "u") == 3 && Increasing(cs);
    forall c ensures c in cs <==> exists k' :: Reports(FOUR, "u", 0, 3, k', c) {
      if c in cs { assert Reports(FOUR, "u", 0, 3, k, c); }
      if k' :| Reports(FOUR, "u", 0, 3, k', c) { assert k' == k; }
    }
    FeedIsUnique(FOUR, "u", 0, cs);
  }

  /** Four steps are enough: the client's full resync is right, its next pull is rejected, and
      with pages of one change a full resync never completes. */
  lemma ResyncForgetsOnARun(merge: Merger)
    ensures var db := Run(EMPTY, FORGETFUL, merge);
            Mirrors(PullOnce(db, "u", FRESH, 0).copy, db, "u") &&
            CursorRejected(db, "u", PullOnce(db, "u", FRESH, 0).cursor) && LogOk(db) && !Walk(db, "u", 0, 1).complete
  {
    ForgetfulRun(merge);
    ResyncForgetsAtFour();
  }

  lemma ResyncForgetsAtFour()
    ensures Mirrors(PullOnce(FOUR, "u", FRESH, 0).copy, FOUR, "u")
    ensures CursorRejected(FOUR, "u", PullOnce(FOUR, "u", FRESH, 0).cursor) && LogOk(FOUR) &&
            !Walk(FOUR, "u", 0, 1).complete
  {
    FeedOfFour();
    CompletePullMirrors(FOUR, "u", FRESH, 0);
    ResyncCursorRejected(FOUR, "u", 0);
    PagedResyncCompletes(FOUR, "u", 1);
  }
}
