/** The client behind the non-atomic fan-out: when an answer keeps it on course, which entries it loses, and
    convergence over runs whose pulls are interleaved with everything else. */
module FanOutReplica {
  import opened Options
  import opened Rfc3339
  import opened SyncModel
  import opened SyncLog
  import opened SyncFeed
  import opened Convergence
  import opened FanOut

  // ---- The replica while the tables are read ----

  lemma StepKeepsReplica(db: Database, s: Step, u: UserId, r: Replica, merge: Merger)
    requires LogOk(db) && s != DeleteAccount(u) && Consistent(db, u, r)
    ensures Consistent(After(db, s, merge), u, r)
  {
    match s
    case Submit(w) => WriteKeepsConsistent(db, w, u, r, merge);
    case Purge(cutoff) => PurgeKeepsConsistent(db, cutoff, u, r);
    case DeleteAccount(v) => OtherAccountKeepsConsistent(db, v, u, r);
  }

  lemma {:induction false} StepsKeepReplica(db: Database, steps: seq<Step>, u: UserId, r: Replica, merge: Merger)
    requires LogOk(db) && AccountKept(steps, u) && Consistent(db, u, r)
    ensures Consistent(Run(db, steps, merge), u, r)
  {
    if steps == [] {
    } else {
      var front := steps[..|steps| - 1];
      StepsKeepReplica(db, front, u, r, merge);
      StepsGrow(db, front, u, merge);
      StepKeepsReplica(Run(db, front, merge), steps[|steps| - 1], u, r, merge);
    }
  }

  lemma ReadKeepsLog(db: Database, gaps: seq<seq<Step>>, u: UserId, merge: Merger, t: nat)
    requires LogOk(db) && AccountKeptThroughout(gaps, u) && t < |gaps|
    ensures LogOk(Reads(db, gaps, merge)[t])
  {
    ReadGrows(db, gaps, u, merge, t);
  }

  lemma {:induction false} ReadsKeepReplica(db: Database, gaps: seq<seq<Step>>, u: UserId, r: Replica, merge: Merger,
                                            t: nat)
    requires LogOk(db) && AccountKeptThroughout(gaps, u) && Consistent(db, u, r) && t < |gaps|
    ensures Consistent(Reads(db, gaps, merge)[t], u, r)
  {
    assert AccountKept(gaps[t], u);
    ReadsInOrder(db, gaps, merge, t);
    if t == 0 {
      StepsKeepReplica(db, gaps[0], u, r, merge);
    } else {
      ReadsKeepReplica(db, gaps, u, r, merge, t - 1);
      ReadKeepsLog(db, gaps, u, merge, t - 1);
      StepsKeepReplica(Reads(db, gaps, merge)[t - 1], gaps[t], u, r, merge);
    }
  }

  lemma OneChangePerEntity(db: Database, gaps: seq<seq<Step>>, u: UserId, since: nat, answer: seq<Change>,
                           merge: Merger)
    requires SevenReads(db, gaps, u) && ArrangesUpToLast(answer, Reads(db, gaps, merge), u, since)
    ensures OnePerEntity(answer)
  {
    forall i, j | 0 <= i < j < |answer| ensures answer[i].entity != answer[j].entity {
      assert answer[i] in answer && answer[j] in answer;
      GatheredFrom(db, gaps, u, since, answer[i], merge);
      GatheredFrom(db, gaps, u, since, answer[j], merge);
    }
  }

  lemma LastIsHandedOut(db: Database, gaps: seq<seq<Step>>, u: UserId, since: nat, answer: seq<Change>, merge: Merger)
    requires SevenReads(db, gaps, u) && ArrangesUpToLast(answer, Reads(db, gaps, merge), u, since) && answer != []
    ensures var end := Reads(db, gaps, merge)[6]; LogOk(end) && since < answer[|answer| - 1].num <= Latest(end, u)
  {
    var last := answer[|answer| - 1];
    assert last in answer;
    GatheredFrom(db, gaps, u, since, last, merge);
    ReadGrows(db, gaps, u, merge, 6);
    ReadsGrow(db, gaps, u, merge, TableIndex(last.entity.table), 6);
  }

  // ---- Answers that keep the client on course ----

  /** No row that the client moves its cursor past has been left out: `LostExactly` of none. */
  ghost predicate NothingSkipped(dbs: seq<Database>, u: UserId, since: nat, last: nat)
    requires |dbs| == |TABLES|
  {
    forall k :: OwnedIn(dbs[6], k, u) && since < dbs[6].rows[k].num <= last ==>
      dbs[6].rows[k].num <= Latest(dbs[TableIndex(k.entity.table)], u)
  }

  /** No purge has been missed for good: the new cursor will be rejected, or nothing above the old one has
      been purged, or, for a client that had nothing, nothing above the counter of the first read. */
  predicate NothingForgotten(dbs: seq<Database>, u: UserId, r: Replica, last: nat)
    requires |dbs| == |TABLES|
  {
    var mark := Watermark(dbs[6], u);
    last < mark || mark <= r.cursor || (r.copy == map[] && mark <= Latest(dbs[0], u))
  }

  lemma SettledAfter(db: Database, gaps: seq<seq<Step>>, u: UserId, r: Replica, answer: seq<Change>, e: Entity,
                     merge: Merger)
    requires SevenReads(db, gaps, u) && Consistent(db, u, r)
    requires var dbs := Reads(db, gaps, merge); ArrangesUpToLast(answer, dbs, u, r.cursor) && answer != [] &&
                                                NothingSkipped(dbs, u, r.cursor, answer[|answer| - 1].num)
    ensures Settled(Reads(db, gaps, merge)[6], u, Absorb(r, Page(answer)), e)
  {
    var dbs, k, last := Reads(db, gaps, merge), KeyFor(e, u), answer[|answer| - 1].num;
    var t := TableIndex(e.table);
    if Owns(dbs[6], u, e) && dbs[6].rows[k].num <= last {
      OneChangePerEntity(db, gaps, u, r.cursor, answer, merge);
      if r.cursor < dbs[6].rows[k].num {
        ReportedExactly(db, gaps, u, r.cursor, k, merge);
        var i :| 0 <= i < |answer| && answer[i] == ChangeOf(k, dbs[6].rows[k]);
        AppliedAt(r.copy, answer, i);
      } else {
        ReadsKeepReplica(db, gaps, u, r, merge, 6);
        ReadGrows(db, gaps, u, merge, t);
        ReadsGrow(db, gaps, u, merge, t, 6);
        forall i | 0 <= i < |answer| ensures answer[i].entity != e {
          assert answer[i] in answer;
          GatheredFrom(db, gaps, u, r.cursor, answer[i], merge);
        }
        NotApplied(r.copy, answer, e);
        assert Settled(dbs[6], u, r, e);
      }
    }
  }

  /** Where an entity that the client still holds, although the server has no row for it, comes from. */
  lemma GoneEntity(db: Database, gaps: seq<seq<Step>>, u: UserId, r: Replica, answer: seq<Change>, e: Entity,
                   merge: Merger)
    requires SevenReads(db, gaps, u) && Consistent(db, u, r) &&
             ArrangesUpToLast(answer, Reads(db, gaps, merge), u, r.cursor)
    requires e in ApplyChanges(r.copy, answer) && !Owns(Reads(db, gaps, merge)[6], u, e)
    ensures var dbs := Reads(db, gaps, merge);
            r.cursor < Watermark(dbs[6], u) && (r.copy == map[] ==> Latest(dbs[0], u) < Watermark(dbs[6], u))
  {
    var dbs, t := Reads(db, gaps, merge), TableIndex(e.table);
    ReadsKeepReplica(db, gaps, u, r, merge, 6);
    if i :| 0 <= i < |answer| && answer[i].entity == e {
      assert answer[i] in answer;
      GatheredFrom(db, gaps, u, r.cursor, answer[i], merge);
      ReadsGrow(db, gaps, u, merge, t, 6);
      ReadsGrow(db, gaps, u, merge, 0, t);
      OneChangePerEntity(db, gaps, u, r.cursor, answer, merge);
      AppliedAt(r.copy, answer, i);
      assert OwnedIn(dbs[t], KeyFor(e, u), u) && !OwnedIn(dbs[6], KeyFor(e, u), u);
    } else {
      CopyComesFrom(r.copy, answer, e);
    }
  }

  /** A client that absorbs an answer, cut to any limit, with nothing skipped and nothing forgotten is as
      well off as after an atomic pull. */
  lemma UnbrokenAnswerKeepsConsistent(db: Database, gaps: seq<seq<Step>>, u: UserId, r: Replica, answer: seq<Change>,
                                      merge: Merger)
    requires SevenReads(db, gaps, u) && Consistent(db, u, r)
    requires var dbs := Reads(db, gaps, merge);
             && ArrangesUpToLast(answer, dbs, u, r.cursor)
             && (answer != [] ==>
                  NothingSkipped(dbs, u, r.cursor, answer[|answer| - 1].num) &&
                  NothingForgotten(dbs, u, r, answer[|answer| - 1].num))
    ensures Consistent(Reads(db, gaps, merge)[6], u, Absorb(r, Page(answer)))
  {
    var dbs, after := Reads(db, gaps, merge), Absorb(r, Page(answer));
    ReadsKeepReplica(db, gaps, u, r, merge, 6);
    if answer != [] {
      LastIsHandedOut(db, gaps, u, r.cursor, answer, merge);
      forall e ensures Settled(dbs[6], u, after, e) { SettledAfter(db, gaps, u, r, answer, e, merge); }
      forall e | e in after.copy && !Owns(dbs[6], u, e) ensures after.cursor < Watermark(dbs[6], u) {
        GoneEntity(db, gaps, u, r, answer, e, merge);
      }
    }
  }

  /** For instance the first `limit` changes of all that the reads have seen. */
  lemma CutAnswerKeepsConsistent(db: Database, gaps: seq<seq<Step>>, u: UserId, r: Replica, all: seq<Change>,
                                 limit: nat, merge: Merger)
    requires SevenReads(db, gaps, u) && Consistent(db, u, r)
    requires var dbs, answer := Reads(db, gaps, merge), Truncate(all, limit);
             && Arranges(all, dbs, u, r.cursor)
             && (answer != [] ==>
                  NothingSkipped(dbs, u, r.cursor, answer[|answer| - 1].num) &&
                  NothingForgotten(dbs, u, r, answer[|answer| - 1].num))
    ensures Consistent(Reads(db, gaps, merge)[6], u, Absorb(r, Page(Truncate(all, limit))))
  {
    CutArrangement(all, limit, Reads(db, gaps, merge), u, r.cursor);
    UnbrokenAnswerKeepsConsistent(db, gaps, u, r, Truncate(all, limit), merge);
  }

  /** With only writes in between, an accepted answer that ends at or below the counter of the first read is
      such an answer. */
  lemma EarlyAnswerKeepsConsistent(db: Database, gaps: seq<seq<Step>>, u: UserId, r: Replica, answer: seq<Change>,
                                   merge: Merger)
    requires LogOk(db) && OnlyWritesBetween(gaps) && |gaps| == |TABLES| && Consistent(db, u, r) &&
             !CursorRejected(db, u, r.cursor)
    requires var dbs := Reads(db, gaps, merge);
             && ArrangesUpToLast(answer, dbs, u, r.cursor)
             && (answer != [] ==> answer[|answer| - 1].num <= Latest(dbs[0], u))
    ensures Consistent(Reads(db, gaps, merge)[6], u, Absorb(r, Page(answer)))
  {
    var dbs := Reads(db, gaps, merge);
    WritesKeepAccounts(gaps, u);
    ReadsPurgeNothing(db, gaps, merge, 6);
    ReadGrows(db, gaps, u, merge, 0);
    forall i | 0 <= i < |TABLES| ensures Latest(dbs[0], u) <= Latest(dbs[i], u) { ReadsGrow(db, gaps, u, merge, 0, i); }
    UnbrokenAnswerKeepsConsistent(db, gaps, u, r, answer, merge);
  }

  // ---- What is kept for good ----

  /** On a quiet server, an entity that the client holds and the server has no row for stays with the client
      for ever exactly if its cursor is not below the watermark. */
  lemma KeptForGoodExactly(db: Database, u: UserId, r: Replica, e: Entity, limit: nat)
    requires LogOk(db) && 0 < r.cursor <= Latest(db, u) && e in r.copy && !Owns(db, u, e)
    ensures (forall times: nat :: e in Pulls(db, u, r, limit, times).copy) <==> Watermark(db, u) <= r.cursor
  {
    if Watermark(db, u) <= r.cursor {
      forall times: nat ensures e in Pulls(db, u, r, limit, times).copy { StillHeld(db, u, r, e, limit, times); }
    } else {
      assert Pulls(db, u, r, limit, 0) == r;
      assert e !in Pulls(db, u, r, limit, 1).copy;
    }
  }

  lemma {:induction false} StillHeld(db: Database, u: UserId, r: Replica, e: Entity, limit: nat, times: nat)
    requires LogOk(db) && Watermark(db, u) <= r.cursor <= Latest(db, u) && e in r.copy && !Owns(db, u, e)
    ensures var later := Pulls(db, u, r, limit, times);
            e in later.copy && Watermark(db, u) <= later.cursor <= Latest(db, u)
  {
    if times == 0 {
    } else {
      var before := Pulls(db, u, r, limit, times - 1);
      StillHeld(db, u, r, e, limit, times - 1);
      var page := Truncate(Feed(db, u, before.cursor, Latest(db, u)), limit);
      TruncatedIsPage(db, u, before.cursor, limit);
      forall i | 0 <= i < |page| ensures page[i].entity != e && before.cursor < page[i].num <= Latest(db, u) {
        PageEntry(db, u, before.cursor, page, i);
      }
      NotApplied(before.copy, page, e);
    }
  }

  /** So an interleaved answer makes the client keep a purged entity for good exactly if its last number is
      not below the watermark that the purges have raised. */
  lemma PurgedIsKeptExactly(db: Database, gaps: seq<seq<Step>>, u: UserId, r: Replica, answer: seq<Change>, e: Entity,
                            limit: nat, merge: Merger)
    requires SevenReads(db, gaps, u) && Consistent(db, u, r) && answer != []
    requires ArrangesUpToLast(answer, Reads(db, gaps, merge), u, r.cursor)
    requires var end := Reads(db, gaps, merge)[6]; e in Absorb(r, Page(answer)).copy && !Owns(end, u, e)
    ensures var end := Reads(db, gaps, merge)[6];
            (forall times: nat :: e in Pulls(end, u, Absorb(r, Page(answer)), limit, times).copy) <==>
            Watermark(end, u) <= answer[|answer| - 1].num
  {
    LastIsHandedOut(db, gaps, u, r.cursor, answer, merge);
    KeptForGoodExactly(Reads(db, gaps, merge)[6], u, Absorb(r, Page(answer)), e, limit);
  }

  // ---- Runs of interleaved pulls ----

  /** A pull: what commits between its two cursor checks, before each of its table reads, and the changes
      those reads arrange. */
  datatype Act = Server(step: Step) | Pull(between: seq<Step>, gaps: seq<seq<Step>>, limit: nat, all: seq<Change>)

  datatype Pair = Pair(db: Database, replica: Replica)

  predicate Rejected(first: Database, second: Database, u: UserId, since: nat)
  {
    since > 0 && (since < Watermark(first, u) || since > Latest(second, u))
  }

  ghost function ReadsOf(db: Database, a: Act, merge: Merger): (dbs: seq<Database>)
    requires a.Pull?
    ensures |dbs| == |a.gaps|
  {
    Reads(Run(db, a.between, merge), a.gaps, merge)
  }

  function AnswerOf(db: Database, checked: Database, a: Act, u: UserId, since: nat): Answer
    requires a.Pull?
  {
    if Rejected(db, checked, u, since) then Gone else Page(Truncate(a.all, a.limit))
  }

  ghost function NextPair(w: Pair, a: Act, u: UserId, merge: Merger): Pair
    requires a.Pull? ==> |a.gaps| == |TABLES|
  {
    match a
    case Server(s) => Pair(After(w.db, s, merge), w.replica)
    case Pull(between, _, _, _) =>
      Pair(ReadsOf(w.db, a, merge)[6],
           Absorb(w.replica, AnswerOf(w.db, Run(w.db, between, merge), a, u, w.replica.cursor)))
  }

  /** The client's account is kept, each pull's changes are those its reads have seen, and no answer breaks
      the client's course. */
  ghost predicate Unbroken(w: Pair, a: Act, u: UserId, merge: Merger)
  {
    match a
    case Server(s) => s != DeleteAccount(u)
    case Pull(between, gaps, limit, all) =>
      && |gaps| == |TABLES| && AccountKept(between, u) && AccountKeptThroughout(gaps, u)
      && var dbs, answer := ReadsOf(w.db, a, merge), Truncate(all, limit);
         && Arranges(all, dbs, u, w.replica.cursor)
         && (!Rejected(w.db, Run(w.db, between, merge), u, w.replica.cursor) && answer != [] ==>
              NothingSkipped(dbs, u, w.replica.cursor, answer[|answer| - 1].num) &&
              NothingForgotten(dbs, u, w.replica, answer[|answer| - 1].num))
  }

  ghost predicate UnbrokenRun(acts: seq<Act>, u: UserId, merge: Merger)
    decreases |acts|, 0
  {
    acts == [] ||
    var front, last := acts[..|acts| - 1], acts[|acts| - 1];
    UnbrokenRun(front, u, merge) && Unbroken(PlayPulls(front, u, merge), last, u, merge)
  }

  /** The run, from the empty database and a fresh client. */
  ghost function PlayPulls(acts: seq<Act>, u: UserId, merge: Merger): Pair
    requires UnbrokenRun(acts, u, merge)
    decreases |acts|, 1
  {
    if acts == [] then Pair(EMPTY, FRESH)
    else NextPair(PlayPulls(acts[..|acts| - 1], u, merge), acts[|acts| - 1], u, merge)
  }

  lemma PullKeepsPair(w: Pair, a: Act, u: UserId, merge: Merger)
    requires LogOk(w.db) && Consistent(w.db, u, w.replica) && a.Pull? && Unbroken(w, a, u, merge)
    ensures var next := NextPair(w, a, u, merge); LogOk(next.db) && Consistent(next.db, u, next.replica)
  {
    var checked := Run(w.db, a.between, merge);
    StepsGrow(w.db, a.between, u, merge);
    StepsKeepReplica(w.db, a.between, u, w.replica, merge);
    ReadGrows(checked, a.gaps, u, merge, 6);
    if Rejected(w.db, checked, u, w.replica.cursor) {
      FreshIsConsistent(ReadsOf(w.db, a, merge)[6], u);
    } else {
      CutAnswerKeepsConsistent(checked, a.gaps, u, w.replica, a.all, a.limit, merge);
    }
  }

  lemma {:induction false} UnbrokenRunIsConsistent(acts: seq<Act>, u: UserId, merge: Merger)
    requires UnbrokenRun(acts, u, merge)
    ensures var w := PlayPulls(acts, u, merge); LogOk(w.db) && Consistent(w.db, u, w.replica)
  {
    if acts == [] {
      FreshIsConsistent(EMPTY, u);
    } else {
      var w, a := PlayPulls(acts[..|acts| - 1], u, merge), acts[|acts| - 1];
      UnbrokenRunIsConsistent(acts[..|acts| - 1], u, merge);
      if a.Pull? {
        PullKeepsPair(w, a, u, merge);
      } else {
        StepKeepsLog(w.db, a.step, merge);
        StepKeepsReplica(w.db, a.step, u, w.replica, merge);
      }
    }
  }

  /** Convergence without atomic pulls: after every run whose pulls, of any size, are interleaved with
      writes, purges and other accounts' deletions and break nothing, one undisturbed complete pull makes the
      copy exact. */
  lemma UnbrokenRunConverges(acts: seq<Act>, u: UserId, limit: nat, merge: Merger)
    requires UnbrokenRun(acts, u, merge)
    requires var w := PlayPulls(acts, u, merge);
             !CursorRejected(w.db, u, w.replica.cursor) &&
             (limit == 0 || |Feed(w.db, u, w.replica.cursor, Latest(w.db, u))| <= limit)
    ensures var w := PlayPulls(acts, u, merge); Mirrors(PullOnce(w.db, u, w.replica, limit).copy, w.db, u)
  {
    UnbrokenRunIsConsistent(acts, u, merge);
    var w := PlayPulls(acts, u, merge);
    CompletePullMirrors(w.db, u, w.replica, limit);
  }

  // ---- A run that loses a delete ----

  const NEW := Entity(Notes, "n")
  const FIVE := Database(
    map[KeyFor(A, "u") := ROW, KeyFor(NEW, "u") := ROW.(num := 4)], map["u" := Counter(4, 3)])

  /** The client has pulled two tasks; the second has been deleted since. */
  const HELD := Replica(2, map[A := ItemOf(ROW), B := ItemOf(ROW.(num := 2))])

  /** Its next pull has passed the cursor checks when the tombstone is purged and a note is created. */
  predicate PurgedMeanwhile(gaps: seq<seq<Step>>)
  {
    && |gaps| == |TABLES| && gaps[0] == [Purge(2 * NANOS), Submit(Post("u", NEW, map[], 1))]
    && forall i :: 0 < i < |gaps| ==> gaps[i] == []
  }

  const CHANGE_A := ChangeOf(KeyFor(A, "u"), ROW)
  const CHANGE_B := ChangeOf(KeyFor(B, "u"), ROW.(num := 2))

  lemma FeedOfTwo()
    ensures LogOk(TWO) && Feed(TWO, "u", 0, Latest(TWO, "u")) == [CHANGE_A, CHANGE_B]
  {
    var ka, kb := KeyFor(A, "u"), KeyFor(B, "u");
    var cs := [CHANGE_A, CHANGE_B];
    assert TWO.rows.Keys == {ka, kb} && TWO.rows[ka] == ROW && TWO.rows[kb] == ROW.(num := 2) && ka != kb;
    assert LogOk(TWO) && Latest(TWO, "u") == 2 && Increasing(cs);
    forall c ensures c in cs <==> exists k :: Reports(TWO, "u", 0, 2, k, c) {
      if c == cs[0] { assert Reports(TWO, "u", 0, 2, ka, c); }
      if c == cs[1] { assert Reports(TWO, "u", 0, 2, kb, c); }
      if k :| Reports(TWO, "u", 0, 2, k, c) { assert k == ka || k == kb; }
    }
    FeedIsUnique(TWO, "u", 0, cs);
  }

  lemma HeldIsPulled()
    ensures PullOnce(TWO, "u", FRESH, 0) == HELD
  {
    FeedOfTwo();
    var cs := [CHANGE_A, CHANGE_B];
    assert cs[..1] == [cs[0]] && cs[..1][..0] == [];
    assert ApplyChanges(map[], cs[..1]) == map[A := ItemOf(ROW)];
    assert ApplyChanges(map[], cs) == HELD.copy;
  }

  lemma TwoSteps(db: Database, a: Step, b: Step, merge: Merger)
    ensures Run(db, [a, b], merge) == After(After(db, a, merge), b, merge)
  {
    assert [a, b][..1] == [a] && [a][..0] == [];
    assert Run(db, [a], merge) == After(db, a, merge);
  }

  lemma FourThenFive(merge: Merger)
    ensures AfterWrite(FOUR, Post("u", NEW, map[], 1), merge) == FIVE
  {
    assert AfterWrite(FOUR, Post("u", NEW, map[], 1), merge).rows == FIVE.rows;
  }

  lemma PurgeAndPost(merge: Merger)
    ensures Run(THREE, [Purge(2 * NANOS), Submit(Post("u", NEW, map[], 1))], merge) == FIVE
  {
    PurgeLeavesA();
    PurgeRaisesToThree();
    assert AfterPurge(THREE, 2 * NANOS) == FOUR;
    FourThenFive(merge);
    TwoSteps(THREE, Purge(2 * NANOS), Submit(Post("u", NEW, map[], 1)), merge);
  }

  lemma {:induction false} QuietFrom(db: Database, gaps: seq<seq<Step>>, end: Database, merge: Merger, t: nat)
    requires t < |gaps| && Run(db, gaps[0], merge) == end && forall i :: 0 < i < |gaps| ==> gaps[i] == []
    ensures Reads(db, gaps, merge)[t] == end
    decreases t
  {
    ReadsInOrder(db, gaps, merge, t);
    if t == 0 {
    } else {
      QuietFrom(db, gaps, end, merge, t - 1);
    }
  }

  lemma AllReadFive(gaps: seq<seq<Step>>, merge: Merger)
    requires PurgedMeanwhile(gaps)
    ensures forall t :: 0 <= t < 7 ==> Reads(THREE, gaps, merge)[t] == FIVE
  {
    PurgeAndPost(merge);
    forall t | 0 <= t < 7 ensures Reads(THREE, gaps, merge)[t] == FIVE { QuietFrom(THREE, gaps, FIVE, merge, t); }
  }

  const NOTE_CHANGE := ChangeOf(KeyFor(NEW, "u"), ROW.(num := 4))

  lemma GathersTheNote(dbs: seq<Database>)
    requires |dbs| == |TABLES| && forall t :: 0 <= t < |dbs| ==> dbs[t] == FIVE
    ensures Gathered(dbs, "u", 2) == {NOTE_CHANGE} && NothingSkipped(dbs, "u", 2, 4)
  {
    var n := KeyFor(NEW, "u");
    assert dbs[1] == FIVE && n in dbs[1].rows && Reported(dbs, "u", 2, 1, n);
    forall i, k | 0 <= i < |TABLES| && k in dbs[i].rows && Reported(dbs, "u", 2, i, k) ensures i == 1 && k == n {
      assert dbs[i] == FIVE && (k == n || k == KeyFor(A, "u"));
    }
  }

  lemma HoldsTheDeletedTask(limit: nat)
    ensures var after := Absorb(HELD, Page([NOTE_CHANGE]));
            View(FIVE, "u", B) == None && forall times: nat :: B in Pulls(FIVE, "u", after, limit, times).copy
  {
    var after := Absorb(HELD, Page([NOTE_CHANGE]));
    assert [NOTE_CHANGE][..0] == [];
    assert ApplyChanges(HELD.copy, [NOTE_CHANGE]) == ApplyChange(ApplyChanges(HELD.copy, []), NOTE_CHANGE);
    assert LogOk(FIVE) && !Owns(FIVE, "u", B) && B in after.copy && after.cursor == 4;
    KeptForGoodExactly(FIVE, "u", after, B, limit);
  }

  /** The answer is the note alone, although every number in it had been handed out before the first read; the
      client moves its cursor past the watermark and holds the deleted task for good. */
  lemma PurgedEntryIsKept(gaps: seq<seq<Step>>, limit: nat, merge: Merger)
    requires PurgedMeanwhile(gaps)
    ensures HELD == PullOnce(TWO, "u", FRESH, 0) && THREE == AfterWrite(TWO, Delete("u", B, 2), merge)
    ensures !Rejected(THREE, THREE, "u", HELD.cursor)
    ensures var dbs, after := Reads(THREE, gaps, merge), Absorb(HELD, Page([NOTE_CHANGE]));
            && Arranges([NOTE_CHANGE], dbs, "u", HELD.cursor) && NothingSkipped(dbs, "u", HELD.cursor, 4)
            && View(dbs[6], "u", B) == None && forall times: nat :: B in Pulls(dbs[6], "u", after, limit, times).copy
  {
    HeldIsPulled();
    ThirdWrite(merge);
    AllReadFive(gaps, merge);
    GathersTheNote(Reads(THREE, gaps, merge));
    HoldsTheDeletedTask(limit);
  }
}
