/** `changesSince` reads the seven tables one after the other, not from one snapshot: what its answer still
    guarantees when writes, purges and the deletion of other accounts commit between the reads, and what it
    does not. */
module FanOut {
  import opened Options
  import opened Rfc3339
  import opened SyncModel
  import opened SyncLog
  import opened SyncFeed
  import opened Convergence

  /** What others may have done between two moments to what a user owns: a row that is new or different
      carries a number above the earlier counter, and a row that is gone has been purged, as it was or after
      a later delete. */
  ghost predicate Grew(a: Database, b: Database, u: UserId)
  {
    && Latest(a, u) <= Latest(b, u) && Watermark(a, u) <= Watermark(b, u)
    && (forall k :: OwnedIn(b, k, u) ==> (k in a.rows && a.rows[k] == b.rows[k]) || Latest(a, u) < b.rows[k].num)
    && (forall k :: OwnedIn(a, k, u) && !OwnedIn(b, k, u) ==>
          a.rows[k].num <= Watermark(b, u) && (a.rows[k].deletedAt.None? ==> Latest(a, u) < Watermark(b, u)))
  }

  predicate OwnedIn(db: Database, k: Key, u: UserId) { k in db.rows && db.rows[k].owner == u }

  lemma StepGrows(db: Database, s: Step, u: UserId, merge: Merger)
    requires LogOk(db) && s != DeleteAccount(u)
    ensures Grew(db, After(db, s, merge), u)
  {
    match s
    case Submit(w) => StoresOwnRow(db, w, merge);
    case Purge(cutoff) => PurgeGrows(db, cutoff, u);
    case DeleteAccount(_) =>
  }

  lemma PurgeGrows(db: Database, cutoff: Instant, u: UserId)
    requires LogOk(db)
    ensures Grew(db, AfterPurge(db, cutoff), u)
  {
    PurgeRaisesWatermark(db, u, cutoff);
    forall k | OwnedIn(db, k, u) && !OwnedIn(AfterPurge(db, cutoff), k, u)
      ensures db.rows[k].num in PurgedSeqs(db, u, cutoff)
    {
      assert Purgeable(db.rows[k], cutoff);
    }
  }

  lemma GrewReflexive(a: Database, u: UserId)
    ensures Grew(a, a, u)
  {
  }

  lemma GrewTransitive(a: Database, b: Database, c: Database, u: UserId)
    requires LogOk(a) && Grew(a, b, u) && Grew(b, c, u)
    ensures Grew(a, c, u)
  {
    forall k | OwnedIn(a, k, u) && !OwnedIn(c, k, u)
      ensures a.rows[k].num <= Watermark(c, u) && (a.rows[k].deletedAt.None? ==> Latest(a, u) < Watermark(c, u))
    {
      assert RowOk(a, k);
      if OwnedIn(b, k, u) && b.rows[k] != a.rows[k] { NewerRow(a, b, k, u); }
    }
  }

  lemma NewerRow(a: Database, b: Database, k: Key, u: UserId)
    requires Grew(a, b, u) && OwnedIn(a, k, u) && OwnedIn(b, k, u) && b.rows[k] != a.rows[k]
    ensures Latest(a, u) < b.rows[k].num
  {
  }

  /** Anything may happen but the deletion of this user's account. */
  ghost predicate AccountKept(steps: seq<Step>, u: UserId)
  {
    forall i :: 0 <= i < |steps| ==> steps[i] != DeleteAccount(u)
  }

  lemma {:induction false} StepsGrow(db: Database, steps: seq<Step>, u: UserId, merge: Merger)
    requires LogOk(db) && AccountKept(steps, u)
    ensures LogOk(Run(db, steps, merge)) && Grew(db, Run(db, steps, merge), u)
  {
    if steps == [] {
      GrewReflexive(db, u);
    } else {
      var front, last := steps[..|steps| - 1], steps[|steps| - 1];
      StepsGrow(db, front, u, merge);
      StepKeepsLog(Run(db, front, merge), last, merge);
      StepGrows(Run(db, front, merge), last, u, merge);
      GrewTransitive(db, Run(db, front, merge), Run(db, steps, merge), u);
    }
  }

  /** The states the seven reads see: any number of steps commits before each of them. */
  ghost function Reads(db: Database, gaps: seq<seq<Step>>, merge: Merger): (dbs: seq<Database>)
    ensures |dbs| == |gaps|
  {
    if gaps == [] then []
    else
      var front := Reads(db, gaps[..|gaps| - 1], merge);
      front + [Run(if front == [] then db else front[|front| - 1], gaps[|gaps| - 1], merge)]
  }

  lemma {:induction false} ReadsInOrder(db: Database, gaps: seq<seq<Step>>, merge: Merger, t: nat)
    requires t < |gaps|
    ensures var dbs := Reads(db, gaps, merge); dbs[t] == Run(if t == 0 then db else dbs[t - 1], gaps[t], merge)
    decreases |gaps|
  {
    if t < |gaps| - 1 { ReadsInOrder(db, gaps[..|gaps| - 1], merge, t); }
  }

  ghost predicate AccountKeptThroughout(gaps: seq<seq<Step>>, u: UserId)
  {
    forall i :: 0 <= i < |gaps| ==> AccountKept(gaps[i], u)
  }

  /** Seven reads, with anything but the deletion of this user's account before each. */
  ghost predicate SevenReads(db: Database, gaps: seq<seq<Step>>, u: UserId)
  {
    LogOk(db) && |gaps| == |TABLES| && AccountKeptThroughout(gaps, u)
  }

  lemma {:induction false} ReadGrows(db: Database, gaps: seq<seq<Step>>, u: UserId, merge: Merger, i: nat)
    requires LogOk(db) && AccountKeptThroughout(gaps, u) && i < |gaps|
    ensures LogOk(Reads(db, gaps, merge)[i]) && Grew(db, Reads(db, gaps, merge)[i], u)
    ensures i > 0 ==> Grew(Reads(db, gaps, merge)[i - 1], Reads(db, gaps, merge)[i], u)
  {
    var dbs := Reads(db, gaps, merge);
    assert AccountKept(gaps[i], u);
    ReadsInOrder(db, gaps, merge, i);
    if i == 0 {
      StepsGrow(db, gaps[0], u, merge);
    } else {
      ReadGrows(db, gaps, u, merge, i - 1);
      StepsGrow(dbs[i - 1], gaps[i], u, merge);
      GrewTransitive(db, dbs[i - 1], dbs[i], u);
    }
  }

  lemma {:induction false} ReadsGrow(db: Database, gaps: seq<seq<Step>>, u: UserId, merge: Merger, i: nat, j: nat)
    requires LogOk(db) && AccountKeptThroughout(gaps, u) && i <= j < |gaps|
    ensures LogOk(Reads(db, gaps, merge)[i]) && Grew(Reads(db, gaps, merge)[i], Reads(db, gaps, merge)[j], u)
    decreases j
  {
    var dbs := Reads(db, gaps, merge);
    assert LogOk(dbs[i]) by { ReadGrows(db, gaps, u, merge, i); }
    if i == j {
      GrewReflexive(dbs[i], u);
    } else {
      ReadsGrow(db, gaps, u, merge, i, j - 1);
      assert Grew(dbs[j - 1], dbs[j], u) by { ReadGrows(db, gaps, u, merge, j); }
      GrewTransitive(dbs[i], dbs[j - 1], dbs[j], u);
    }
  }

  // ---- What the answer holds ----

  /** The answer, unlimited: each table's rows as they were when that table was read. The final
      sort only arranges them. */
  ghost function Gathered(dbs: seq<Database>, u: UserId, since: nat): set<Change>
    requires |dbs| == |TABLES|
  {
    set i, k | 0 <= i < |TABLES| && k in dbs[i].rows && Reported(dbs, u, since, i, k) :: ChangeOf(k, dbs[i].rows[k])
  }

  predicate Reported(dbs: seq<Database>, u: UserId, since: nat, i: nat, k: Key)
    requires |dbs| == |TABLES| && i < |TABLES| && k in dbs[i].rows
  {
    k.entity.table == TABLES[i] && dbs[i].rows[k].owner == u && since < dbs[i].rows[k].num
  }

  lemma ReportedRow(dbs: seq<Database>, u: UserId, since: nat, i: nat, k: Key)
    requires |dbs| == |TABLES| && i < |TABLES| && k in dbs[i].rows && Reported(dbs, u, since, i, k) && LogOk(dbs[i])
    ensures i == TableIndex(k.entity.table) && k == KeyFor(k.entity, u) && dbs[i].rows[k].num <= Latest(dbs[i], u)
  {
    assert RowOk(dbs[i], k);
  }

  /** A gathered change is a row of its own table's read. */
  lemma GatheredFrom(db: Database, gaps: seq<seq<Step>>, u: UserId, since: nat, c: Change, merge: Merger)
    requires SevenReads(db, gaps, u) && c in Gathered(Reads(db, gaps, merge), u, since)
    ensures var seen, k := Reads(db, gaps, merge)[TableIndex(c.entity.table)], KeyFor(c.entity, u);
            Owns(seen, u, c.entity) && c == ChangeOf(k, seen.rows[k]) && since < c.num <= Latest(seen, u)
  {
    var dbs := Reads(db, gaps, merge);
    var i, k :| 0 <= i < |TABLES| && k in dbs[i].rows && Reported(dbs, u, since, i, k) &&
      c == ChangeOf(k, dbs[i].rows[k]);
    ReadGrows(db, gaps, u, merge, i);
    ReportedRow(dbs, u, since, i, k);
  }

  /** Whatever the user had changed after the cursor when the reads began is in the answer, at that version
      or a newer one, unless it has been purged before its table was read. */
  lemma OldIsReportedOrPurged(db: Database, gaps: seq<seq<Step>>, u: UserId, since: nat, k: Key, merge: Merger)
    returns (c: Option<Change>)
    requires SevenReads(db, gaps, u)
    requires var first := Reads(db, gaps, merge)[0]; OwnedIn(first, k, u) && since < first.rows[k].num
    ensures var dbs, seen := Reads(db, gaps, merge), Reads(db, gaps, merge)[TableIndex(k.entity.table)];
            match c
            case Some(d) => d in Gathered(dbs, u, since) && d.entity == k.entity && d.num >= dbs[0].rows[k].num
            case None => !OwnedIn(seen, k, u) && dbs[0].rows[k].num <= Watermark(seen, u)
  {
    var dbs, i := Reads(db, gaps, merge), TableIndex(k.entity.table);
    ReadsGrow(db, gaps, u, merge, 0, i);
    assert RowOk(dbs[0], k);
    if !OwnedIn(dbs[i], k, u) { return None; }
    assert Reported(dbs, u, since, i, k);
    return Some(ChangeOf(k, dbs[i].rows[k]));
  }

  lemma NumbersIdentify(dbs: seq<Database>, u: UserId, since: nat, i: nat, k: Key, j: nat, l: Key)
    requires |dbs| == |TABLES| && i <= j < |TABLES|
    requires LogOk(dbs[i]) && LogOk(dbs[j]) && Grew(dbs[i], dbs[j], u)
    requires k in dbs[i].rows && Reported(dbs, u, since, i, k) && l in dbs[j].rows && Reported(dbs, u, since, j, l)
    requires dbs[i].rows[k].num == dbs[j].rows[l].num
    ensures ChangeOf(k, dbs[i].rows[k]) == ChangeOf(l, dbs[j].rows[l])
  {
    assert RowOk(dbs[i], k);
  }

  /** No number occurs twice, even between tables read at different times. */
  lemma NumbersStayDistinct(db: Database, gaps: seq<seq<Step>>, u: UserId, since: nat, c: Change, d: Change,
                            merge: Merger)
    requires SevenReads(db, gaps, u)
    requires c in Gathered(Reads(db, gaps, merge), u, since) && d in Gathered(Reads(db, gaps, merge), u, since) &&
             c.num == d.num
    ensures c == d
  {
    var dbs := Reads(db, gaps, merge);
    var i, k :| 0 <= i < |TABLES| && k in dbs[i].rows && Reported(dbs, u, since, i, k) &&
      c == ChangeOf(k, dbs[i].rows[k]);
    var j, l :| 0 <= j < |TABLES| && l in dbs[j].rows && Reported(dbs, u, since, j, l) &&
      d == ChangeOf(l, dbs[j].rows[l]);
    ReadGrows(db, gaps, u, merge, i);
    ReadGrows(db, gaps, u, merge, j);
    if i <= j {
      ReadsGrow(db, gaps, u, merge, i, j);
      NumbersIdentify(dbs, u, since, i, k, j, l);
    } else {
      ReadsGrow(db, gaps, u, merge, j, i);
      NumbersIdentify(dbs, u, since, j, l, i, k);
    }
  }

  /** Which versions make it into the answer: a row, as it is when the last table has been read, is
      reported exactly if its number had been handed out before its own table was read. */
  lemma ReportedExactly(db: Database, gaps: seq<seq<Step>>, u: UserId, since: nat, k: Key, merge: Merger)
    requires SevenReads(db, gaps, u)
    requires var end := Reads(db, gaps, merge)[6]; OwnedIn(end, k, u) && since < end.rows[k].num
    ensures var dbs := Reads(db, gaps, merge);
            ChangeOf(k, dbs[6].rows[k]) in Gathered(dbs, u, since) <==>
            dbs[6].rows[k].num <= Latest(dbs[TableIndex(k.entity.table)], u)
  {
    var dbs, i := Reads(db, gaps, merge), TableIndex(k.entity.table);
    ReadsGrow(db, gaps, u, merge, i, 6);
    var c := ChangeOf(k, dbs[6].rows[k]);
    if c in Gathered(dbs, u, since) { GatheredFrom(db, gaps, u, since, c, merge); }
    if dbs[6].rows[k].num <= Latest(dbs[i], u) { assert Reported(dbs, u, since, i, k); }
  }

  // ---- The answer as it is sent ----

  /** The gathered changes in the order of their numbers. */
  ghost predicate Arranges(answer: seq<Change>, dbs: seq<Database>, u: UserId, since: nat)
    requires |dbs| == |TABLES|
  {
    Increasing(answer) && forall c :: c in answer <==> c in Gathered(dbs, u, since)
  }

  /** All of them up to the last one sent. */
  ghost predicate ArrangesUpToLast(answer: seq<Change>, dbs: seq<Database>, u: UserId, since: nat)
    requires |dbs| == |TABLES|
  {
    && Increasing(answer) && (forall c :: c in answer ==> c in Gathered(dbs, u, since))
    && (forall c :: c in Gathered(dbs, u, since) && answer != [] && c.num <= answer[|answer| - 1].num ==> c in answer)
  }

  lemma CutArrangement(all: seq<Change>, limit: nat, dbs: seq<Database>, u: UserId, since: nat)
    requires |dbs| == |TABLES| && Arranges(all, dbs, u, since)
    ensures ArrangesUpToLast(Truncate(all, limit), dbs, u, since)
  {
    var answer := Truncate(all, limit);
    forall c | c in Gathered(dbs, u, since) && answer != [] && c.num <= answer[|answer| - 1].num ensures c in answer {
      var i :| 0 <= i < |all| && all[i] == c;
      assert i <= |answer| - 1;
      assert answer[i] == c;
    }
  }

  /** Which rows the client never hears of: neither in this answer nor in what the server reports above its
      last number. Such a row's number was handed out after its table was read. */
  lemma LostExactly(db: Database, gaps: seq<seq<Step>>, u: UserId, since: nat, answer: seq<Change>, k: Key,
                    merge: Merger)
    requires SevenReads(db, gaps, u)
    requires ArrangesUpToLast(answer, Reads(db, gaps, merge), u, since) && answer != []
    requires var end := Reads(db, gaps, merge)[6]; OwnedIn(end, k, u) && since < end.rows[k].num
    ensures var dbs, last := Reads(db, gaps, merge), answer[|answer| - 1].num;
            var c := ChangeOf(k, dbs[6].rows[k]);
            c !in answer && c !in Feed(dbs[6], u, last, Latest(dbs[6], u)) <==>
            Latest(dbs[TableIndex(k.entity.table)], u) < c.num <= last
  {
    var dbs, last := Reads(db, gaps, merge), answer[|answer| - 1].num;
    var c, hi := ChangeOf(k, dbs[6].rows[k]), Latest(dbs[6], u);
    ReadGrows(db, gaps, u, merge, 6);
    ReportedExactly(db, gaps, u, since, k, merge);
    assert RowOk(dbs[6], k);
    NotAboveLast(answer, c);
    if c in Feed(dbs[6], u, last, hi) {
      var i :| 0 <= i < |Feed(dbs[6], u, last, hi)| && Feed(dbs[6], u, last, hi)[i] == c;
      var l := FeedSound(dbs[6], u, last, hi, i);
    }
    if last < c.num { var i := FeedComplete(dbs[6], u, last, hi, k); }
  }

  lemma NotAboveLast(answer: seq<Change>, c: Change)
    requires Increasing(answer)
    ensures c in answer ==> c.num <= answer[|answer| - 1].num
  {
    if c in answer { var i :| 0 <= i < |answer| && answer[i] == c; }
  }

  // ---- When only writes commit between the reads ----

  ghost predicate WritesOnly(steps: seq<Step>) { forall i :: 0 <= i < |steps| ==> steps[i].Submit? }

  ghost predicate OnlyWritesBetween(gaps: seq<seq<Step>>) { forall i :: 0 <= i < |gaps| ==> WritesOnly(gaps[i]) }

  /** No row is gone, and the watermarks have not moved. */
  ghost predicate NothingPurged(a: Database, b: Database)
  {
    && (forall k :: k in a.rows ==> k in b.rows && b.rows[k].owner == a.rows[k].owner)
    && (forall u :: Watermark(a, u) == Watermark(b, u))
  }

  lemma WritePurgesNothing(db: Database, w: Write, merge: Merger)
    requires LogOk(db)
    ensures LogOk(AfterWrite(db, w, merge)) && NothingPurged(db, AfterWrite(db, w, merge))
  {
    StoresOwnRow(db, w, merge);
    WriteKeepsLog(db, w, merge);
  }

  lemma PurgedNeither(a: Database, b: Database, c: Database)
    requires NothingPurged(a, b) && NothingPurged(b, c)
    ensures NothingPurged(a, c)
  {
  }

  lemma {:induction false} WritesPurgeNothing(db: Database, steps: seq<Step>, merge: Merger)
    requires LogOk(db) && WritesOnly(steps)
    ensures LogOk(Run(db, steps, merge)) && NothingPurged(db, Run(db, steps, merge))
  {
    if steps == [] {
    } else {
      var front, last := steps[..|steps| - 1], steps[|steps| - 1];
      WritesPurgeNothing(db, front, merge);
      WritePurgesNothing(Run(db, front, merge), last.write, merge);
      PurgedNeither(db, Run(db, front, merge), Run(db, steps, merge));
    }
  }

  lemma {:induction false} ReadsPurgeNothing(db: Database, gaps: seq<seq<Step>>, merge: Merger, i: nat)
    requires LogOk(db) && OnlyWritesBetween(gaps) && i < |gaps|
    ensures var dbs := Reads(db, gaps, merge);
            LogOk(dbs[i]) && NothingPurged(db, dbs[i]) &&
            NothingPurged(dbs[0], dbs[i])
  {
    assert WritesOnly(gaps[i]);
    ReadsInOrder(db, gaps, merge, i);
    if i == 0 {
      WritesPurgeNothing(db, gaps[0], merge);
    } else {
      ReadsPurgeNothing(db, gaps, merge, i - 1);
      WritesPurgeNothing(Reads(db, gaps, merge)[i - 1], gaps[i], merge);
    }
  }

  lemma WritesKeepAccounts(gaps: seq<seq<Step>>, u: UserId)
    requires OnlyWritesBetween(gaps)
    ensures AccountKeptThroughout(gaps, u)
  {
    forall i | 0 <= i < |gaps| ensures AccountKept(gaps[i], u) { assert WritesOnly(gaps[i]); }
  }

  /** With only writes in between, whatever the user had changed after the cursor when the reads began is in
      the answer, at that version or a newer one. */
  lemma NothingOldIsMissed(db: Database, gaps: seq<seq<Step>>, u: UserId, since: nat, k: Key, merge: Merger)
    returns (c: Change)
    requires LogOk(db) && OnlyWritesBetween(gaps) && |gaps| == |TABLES|
    requires var first := Reads(db, gaps, merge)[0];
             k in first.rows && first.rows[k].owner == u &&
             since < first.rows[k].num
    ensures c in Gathered(Reads(db, gaps, merge), u, since) && c.entity == k.entity
    ensures c.num >= Reads(db, gaps, merge)[0].rows[k].num
  {
    WritesKeepAccounts(gaps, u);
    ReadsPurgeNothing(db, gaps, merge, TableIndex(k.entity.table));
    var found := OldIsReportedOrPurged(db, gaps, u, since, k, merge);
    return found.value;
  }

  // ---- What is lost ----

  const TASK := Entity(Tasks, "t")
  const NOTE := Entity(Notes, "n")
  const FIRST_ROW := Row("u", map[], map[], [], 1, 1, None)
  const BOTH := Database(
    map[KeyFor(TASK, "u") := FIRST_ROW, KeyFor(NOTE, "u") := FIRST_ROW.(num := 2)], map["u" := Counter(2, 0)])

  /** A task and then a note are created after the tasks were read and before the notes are. */
  const BETWEEN := [Submit(Post("u", TASK, map[], 1)), Submit(Post("u", NOTE, map[], 1))]
  const GAPS: seq<seq<Step>> := [[], BETWEEN, [], [], [], [], []]

  lemma BothCreated(merge: Merger)
    ensures Run(EMPTY, BETWEEN, merge) == BOTH
  {
    assert BETWEEN[..1][..0] == [];
    assert Run(EMPTY, BETWEEN[..0], merge) == EMPTY;
    var one := AfterWrite(EMPTY, Post("u", TASK, map[], 1), merge);
    assert Run(EMPTY, BETWEEN[..1], merge) == one;
    assert one.rows == map[KeyFor(TASK, "u") := FIRST_ROW];
  }

  lemma WitnessReads(merge: Merger)
    ensures Reads(EMPTY, GAPS, merge) == [EMPTY, BOTH, BOTH, BOTH, BOTH, BOTH, BOTH]
  {
    BothCreated(merge);
    var g := GAPS;
    assert Reads(EMPTY, g[..0], merge) == [];
    assert g[..1][..0] == g[..0];
    assert Reads(EMPTY, g[..1], merge) == [EMPTY];
    assert g[..2][..1] == g[..1];
    assert Reads(EMPTY, g[..2], merge) == [EMPTY, BOTH];
    assert g[..3][..2] == g[..2];
    assert Reads(EMPTY, g[..3], merge) == [EMPTY, BOTH, BOTH];
    assert g[..4][..3] == g[..3];
    assert Reads(EMPTY, g[..4], merge) == [EMPTY, BOTH, BOTH, BOTH];
    assert g[..5][..4] == g[..4];
    assert Reads(EMPTY, g[..5], merge) == [EMPTY, BOTH, BOTH, BOTH, BOTH];
    assert g[..6][..5] == g[..5];
    assert Reads(EMPTY, g[..6], merge) == [EMPTY, BOTH, BOTH, BOTH, BOTH, BOTH];
    assert g[..7] == g && g[..7][..6] == g[..6];
  }

  lemma WitnessGathered(merge: Merger)
    ensures Gathered(Reads(EMPTY, GAPS, merge), "u", 0) == {ChangeOf(KeyFor(NOTE, "u"), FIRST_ROW.(num := 2))}
  {
    WitnessReads(merge);
    var dbs := Reads(EMPTY, GAPS, merge);
    var n := KeyFor(NOTE, "u");
    assert n in dbs[1].rows && Reported(dbs, "u", 0, 1, n) && dbs[1].rows[n] == FIRST_ROW.(num := 2);
    forall i, k | 0 <= i < |TABLES| && k in dbs[i].rows && Reported(dbs, "u", 0, i, k) ensures i == 1 && k == n {
      assert i > 0 && dbs[i] == BOTH;
      assert k == n || k == KeyFor(TASK, "u");
    }
  }

  /** Numbers above the counter at the first read can be missed, and then for good: the client
      moves its cursor past the task it never received, and later pulls answer nothing. */
  lemma NewerEntriesCanBeLost(merge: Merger)
    ensures var answer := [ChangeOf(KeyFor(NOTE, "u"), FIRST_ROW.(num := 2))];
            var replica := Absorb(FRESH, Page(answer));
            Gathered(Reads(EMPTY, GAPS, merge), "u", 0) == (set c | c in answer) &&
            AnswerTo(BOTH, "u", replica.cursor, 0) == Page([]) &&
            View(BOTH, "u", TASK).Some? && Held(replica.copy, TASK) == None
  {
    WitnessGathered(merge);
    var answer := [ChangeOf(KeyFor(NOTE, "u"), FIRST_ROW.(num := 2))];
    assert ApplyChanges(map[], answer) == ApplyChange(ApplyChanges(map[], answer[..0]), answer[0]);
  }
}
