/** The change feed's fan-out over the store, while others act: their writes, the purge and the deletion of
    other accounts are committed to the store between its nine reads. */
module SyncInterleaved {
  import opened FieldMerge
  import opened SyncModel
  import opened SyncLog
  import opened SyncFeed
  import opened SyncStore
  import opened FanOut
  import opened FanOutReplica

  /** What may commit meanwhile: writes the endpoints offer, purges, and the deletion of other accounts. */
  predicate Permitted(s: Step, u: UserId) { (s.Submit? ==> Offered(s.write)) && s != DeleteAccount(u) }

  predicate AllPermitted(steps: seq<Step>, u: UserId) { forall i :: 0 <= i < |steps| ==> Permitted(steps[i], u) }

  method Columns(p: Patch) returns (columns: seq<Field>)
    ensures Distinct(columns) && forall f :: f in p.fields ==> f in columns
  {
    var todo := p.fields.Keys;
    columns := [];
    while todo != {}
      invariant todo <= p.fields.Keys && Distinct(columns)
      invariant forall f :: f in columns <==> f in p.fields && f !in todo
      decreases todo
    {
      var f :| f in todo;
      todo := todo - {f};
      columns := columns + [f];
    }
  }

  method PerformWrite(s: Store, w: Write)
    requires LogOk(s.Db()) && Offered(w)
    modifies s
    ensures s.Db() == AfterWrite(old(s.Db()), w, s.merge)
  {
    match w
    case Post(u, e, fields, at) =>
      var _ := s.Upsert(u, e, fields, at);
    case Edit(u, e, p, now) =>
      var columns := Columns(p);
      var _, _ := s.PatchRow(u, e, p, now, columns);
    case Delete(u, e, now) =>
      var _ := s.SoftDelete(u, e, now);
    case MergeContent(u, e, update, at) =>
      var _ := s.ApplyContentUpdate(u, e, update, at);
  }

  method Perform(s: Store, step: Step, u: UserId)
    requires LogOk(s.Db()) && Permitted(step, u)
    modifies s
    ensures s.Db() == After(old(s.Db()), step, s.merge)
  {
    match step
    case Submit(w) => PerformWrite(s, w);
    case Purge(cutoff) => s.PurgeTombstones(cutoff, 0);
    case DeleteAccount(v) => s.DeleteAccountRows(v);
  }

  method PerformAll(s: Store, steps: seq<Step>, u: UserId)
    requires LogOk(s.Db()) && AllPermitted(steps, u)
    modifies s
    ensures s.Db() == Run(old(s.Db()), steps, s.merge) && LogOk(s.Db())
  {
    ghost var db := s.Db();
    for i := 0 to |steps|
      invariant s.Db() == Run(db, steps[..i], s.merge) && LogOk(s.Db())
    {
      assert steps[..i + 1][..i] == steps[..i];
      StepKeepsLog(s.Db(), steps[i], s.merge);
      Perform(s, steps[i], u);
    }
    assert steps[..|steps|] == steps;
  }

  // ---- The answer so far ----

  /** What the first `t` tables have contributed. */
  ghost predicate Collected(dbs: seq<Database>, u: UserId, since: nat, t: nat, changes: seq<Change>)
    requires |dbs| == |TABLES|
  {
    && (forall c :: c in changes ==> TableIndex(c.entity.table) < t && c in Gathered(dbs, u, since))
    && (forall c :: c in Gathered(dbs, u, since) && TableIndex(c.entity.table) < t ==> c in changes)
    && (forall i, j :: 0 <= i < j < |changes| ==> changes[i].entity != changes[j].entity)
  }

  lemma ItemIsGathered(dbs: seq<Database>, u: UserId, since: nat, t: nat, items: seq<(Key, Row)>, i: nat)
    requires |dbs| == |TABLES| && t < |TABLES| && LogOk(dbs[t]) && ListsTable(dbs[t], TABLES[t], u, since, items) &&
             i < |items|
    ensures var c := ChangeOf(items[i].0, items[i].1);
            c in Gathered(dbs, u, since) && TableIndex(c.entity.table) == t && items[i].0 == KeyFor(c.entity, u)
  {
    var k := items[i].0;
    assert Wanted(dbs[t], TABLES[t], u, since, k);
    assert Reported(dbs, u, since, t, k);
    ReportedRow(dbs, u, since, t, k);
  }

  /** One more table's items, after those of the first `t` tables. */
  ghost predicate NextTable(dbs: seq<Database>, u: UserId, since: nat, t: nat, before: seq<Change>,
                            items: seq<(Key, Row)>, after: seq<Change>)
  {
    && |dbs| == |TABLES| && t < |TABLES| && LogOk(dbs[t])
    && Collected(dbs, u, since, t, before) && ListsTable(dbs[t], TABLES[t], u, since, items)
    && Appended(before, items, after)
  }

  lemma AppendedIsGathered(dbs: seq<Database>, u: UserId, since: nat, t: nat, before: seq<Change>,
                           items: seq<(Key, Row)>, after: seq<Change>, i: nat)
    requires NextTable(dbs, u, since, t, before, items, after) && i < |after|
    ensures after[i] in Gathered(dbs, u, since)
    ensures if i < |before| then TableIndex(after[i].entity.table) < t && after[i] == before[i]
            else TableIndex(after[i].entity.table) == t && KeyFor(after[i].entity, u) == items[i - |before|].0
  {
    AppendedAt(before, items, after, i);
    if i >= |before| { ItemIsGathered(dbs, u, since, t, items, i - |before|); }
  }

  lemma GatheredIsAppended(dbs: seq<Database>, u: UserId, since: nat, t: nat, before: seq<Change>,
                           items: seq<(Key, Row)>, after: seq<Change>, c: Change)
    requires NextTable(dbs, u, since, t, before, items, after)
    requires c in Gathered(dbs, u, since) && TableIndex(c.entity.table) <= t
    requires var k := KeyFor(c.entity, u); Owns(dbs[TableIndex(c.entity.table)], u, c.entity) && since < c.num &&
                                           c == ChangeOf(k, dbs[TableIndex(c.entity.table)].rows[k])
    ensures c in after
  {
    if TableIndex(c.entity.table) < t {
      var i :| 0 <= i < |before| && before[i] == c;
      AppendedAt(before, items, after, i);
    } else {
      var k := KeyFor(c.entity, u);
      assert Wanted(dbs[t], TABLES[t], u, since, k) && Lists(items, k);
      var i :| 0 <= i < |items| && items[i].0 == k;
      AppendedAt(before, items, after, |before| + i);
    }
  }

  lemma AppendedAreDistinct(dbs: seq<Database>, u: UserId, since: nat, t: nat, before: seq<Change>,
                            items: seq<(Key, Row)>, after: seq<Change>, i: nat, j: nat)
    requires NextTable(dbs, u, since, t, before, items, after) && i < j < |after|
    ensures after[i].entity != after[j].entity
  {
    AppendedIsGathered(dbs, u, since, t, before, items, after, i);
    AppendedIsGathered(dbs, u, since, t, before, items, after, j);
  }

  lemma OneTableMore(db: Database, gaps: seq<seq<Step>>, u: UserId, since: nat, t: nat, before: seq<Change>,
                     items: seq<(Key, Row)>, after: seq<Change>, merge: Merger)
    requires SevenReads(db, gaps, u) && NextTable(Reads(db, gaps, merge), u, since, t, before, items, after)
    ensures Collected(Reads(db, gaps, merge), u, since, t + 1, after)
  {
    var dbs := Reads(db, gaps, merge);
    forall c | c in after ensures TableIndex(c.entity.table) < t + 1 && c in Gathered(dbs, u, since) {
      var i :| 0 <= i < |after| && after[i] == c;
      AppendedIsGathered(dbs, u, since, t, before, items, after, i);
    }
    forall c | c in Gathered(dbs, u, since) && TableIndex(c.entity.table) < t + 1 ensures c in after {
      GatheredFrom(db, gaps, u, since, c, merge);
      GatheredIsAppended(dbs, u, since, t, before, items, after, c);
    }
    forall i, j | 0 <= i < j < |after| ensures after[i].entity != after[j].entity {
      AppendedAreDistinct(dbs, u, since, t, before, items, after, i, j);
    }
  }

  lemma CollectedAll(db: Database, gaps: seq<seq<Step>>, u: UserId, since: nat, changes: seq<Change>,
                     sorted: seq<Change>, merge: Merger)
    requires SevenReads(db, gaps, u)
    requires Collected(Reads(db, gaps, merge), u, since, |TABLES|, changes)
    requires multiset(sorted) == multiset(changes) && NonDecreasing(sorted)
    ensures Arranges(sorted, Reads(db, gaps, merge), u, since)
  {
    forall i, j | 0 <= i < j < |changes| ensures changes[i].num != changes[j].num {
      assert changes[i] in changes && changes[j] in changes;
      if changes[i].num == changes[j].num { NumbersStayDistinct(db, gaps, u, since, changes[i], changes[j], merge); }
    }
    SortedStrictly(changes, sorted);
  }

  lemma {:induction false} QuietReads(db: Database, gaps: seq<seq<Step>>, merge: Merger, t: nat)
    requires t < |gaps| && forall i :: 0 <= i < |gaps| ==> gaps[i] == []
    ensures Reads(db, gaps, merge)[t] == db
    decreases |gaps|, t
  {
    ReadsInOrder(db, gaps, merge, t);
    if t > 0 { QuietReads(db, gaps, merge, t - 1); }
  }

  /** With nothing in between, the answer is the feed. */
  lemma QuietAnswerIsTheFeed(db: Database, gaps: seq<seq<Step>>, u: UserId, since: nat, all: seq<Change>, merge: Merger)
    requires LogOk(db) && |gaps| == |TABLES| && forall i :: 0 <= i < |gaps| ==> gaps[i] == []
    requires Arranges(all, Reads(db, gaps, merge), u, since)
    ensures Reads(db, gaps, merge)[6] == db && all == Feed(db, u, since, Latest(db, u))
  {
    var dbs := Reads(db, gaps, merge);
    forall t | 0 <= t < |gaps| ensures dbs[t] == db { QuietReads(db, gaps, merge, t); }
    assert AccountKeptThroughout(gaps, u);
    forall c ensures c in all <==> exists k :: Reports(db, u, since, Latest(db, u), k, c) {
      if c in all {
        GatheredFrom(db, gaps, u, since, c, merge);
        assert Reports(db, u, since, Latest(db, u), KeyFor(c.entity, u), c);
      }
      if k :| Reports(db, u, since, Latest(db, u), k, c) {
        assert dbs[TableIndex(k.entity.table)] == db && Reported(dbs, u, since, TableIndex(k.entity.table), k);
      }
    }
    FeedIsUnique(db, u, since, all);
  }

  // ---- The feed ----

  /** What others do before each of the table reads. */
  predicate AllGapsPermitted(gaps: seq<seq<Step>>, u: UserId)
  {
    |gaps| == |TABLES| && forall i :: 0 <= i < |gaps| ==> AllPermitted(gaps[i], u)
  }

  lemma PermittedKeepsAccount(gaps: seq<seq<Step>>, u: UserId)
    requires AllGapsPermitted(gaps, u)
    ensures AccountKeptThroughout(gaps, u)
  {
    forall i | 0 <= i < |gaps| ensures AccountKept(gaps[i], u) {
      forall j | 0 <= j < |gaps[i]| ensures gaps[i][j] != DeleteAccount(u) { assert Permitted(gaps[i][j], u); }
    }
  }

  /** One table's turn. */
  method ReadTable(s: Store, u: UserId, since: nat, gaps: seq<seq<Step>>, t: nat, changes: seq<Change>,
                   ghost start: Database)
    returns (after: seq<Change>)
    requires LogOk(start) && AllGapsPermitted(gaps, u) && AccountKeptThroughout(gaps, u) && t < |TABLES| &&
             LogOk(s.Db())
    requires s.Db() == if t == 0 then start else Reads(start, gaps, s.merge)[t - 1]
    requires Collected(Reads(start, gaps, s.merge), u, since, t, changes)
    modifies s
    ensures LogOk(s.Db()) && s.Db() == Reads(start, gaps, s.merge)[t]
    ensures Collected(Reads(start, gaps, s.merge), u, since, t + 1, after)
  {
    assert AllPermitted(gaps[t], u);
    PerformAll(s, gaps[t], u);
    ReadsInOrder(start, gaps, s.merge, t);
    var items := s.TableChanges(TABLES[t], u, since);
    after := AddChanges(changes, items);
    ReadGrows(start, gaps, u, s.merge, t);
    OneTableMore(start, gaps, u, since, t, changes, items, after, s.merge);
  }

  /** The fan-out over the seven tables, and the sort. */
  method FanOutAndSort(s: Store, u: UserId, since: nat, gaps: seq<seq<Step>>) returns (sorted: seq<Change>)
    requires LogOk(s.Db()) && AllGapsPermitted(gaps, u)
    modifies s
    ensures s.Db() == Reads(old(s.Db()), gaps, s.merge)[6]
    ensures Arranges(sorted, Reads(old(s.Db()), gaps, s.merge), u, since)
  {
    ghost var start := s.Db();
    PermittedKeepsAccount(gaps, u);
    var changes: seq<Change> := [];
    for t := 0 to |TABLES|
      invariant LogOk(s.Db()) && s.Db() == if t == 0 then start else Reads(start, gaps, s.merge)[t - 1]
      invariant Collected(Reads(start, gaps, s.merge), u, since, t, changes)
    {
      changes := ReadTable(s, u, since, gaps, t, changes, start);
    }
    sorted := SortByNumber(changes);
    CollectedAll(start, gaps, u, since, changes, sorted, s.merge);
  }

  /** The two cursor checks; `between` commits between them. */
  method CheckCursor(s: Store, u: UserId, since: nat, between: seq<Step>) returns (rejected: bool)
    requires LogOk(s.Db()) && AllPermitted(between, u)
    modifies s
    ensures rejected <==> 0 < since < Watermark(old(s.Db()), u) || Latest(Run(old(s.Db()), between, s.merge), u) < since
    ensures !rejected ==> s.Db() == Run(old(s.Db()), between, s.merge) && LogOk(s.Db())
    ensures s.Db() == old(s.Db()) || s.Db() == Run(old(s.Db()), between, s.merge)
  {
    if since > 0 && since < Watermark(s.Db(), u) {
      return true;
    }
    PerformAll(s, between, u);
    rejected := since > 0 && since > Latest(s.Db(), u);
  }

  /** The whole answer. `all` is what the reads have seen, arranged; if the cursor passes, the answer and the
      tables are those of the client model's pull. */
  method ChangesSince(s: Store, u: UserId, since: nat, limit: nat, between: seq<Step>, gaps: seq<seq<Step>>)
    returns (answer: Answer, ghost all: seq<Change>)
    requires LogOk(s.Db()) && AllPermitted(between, u) && AllGapsPermitted(gaps, u)
    modifies s
    ensures var checked := Run(old(s.Db()), between, s.merge);
            && answer == AnswerOf(old(s.Db()), checked, Pull(between, gaps, limit, all), u, since)
            && (answer == Gone <==> 0 < since < Watermark(old(s.Db()), u) || Latest(checked, u) < since)
            && if answer == Gone then s.Db() == old(s.Db()) || s.Db() == checked
               else s.Db() == Reads(checked, gaps, s.merge)[6] && Arranges(all, Reads(checked, gaps, s.merge), u, since)
  {
    all := [];
    var rejected := CheckCursor(s, u, since, between);
    if rejected {
      return Gone, [];
    }
    var sorted := FanOutAndSort(s, u, since, gaps);
    all := sorted;
    if limit > 0 && |sorted| > limit {
      sorted := sorted[..limit];
    }
    answer := Page(sorted);
  }

  /** With nobody acting in between, the answer is the one an atomic read would give. */
  method QuietChangesSince(s: Store, u: UserId, since: nat, limit: nat) returns (answer: Answer)
    requires LogOk(s.Db())
    modifies s
    ensures answer == AnswerTo(old(s.Db()), u, since, limit) && s.Db() == old(s.Db())
    ensures answer == Gone <==> 0 < since < Watermark(old(s.Db()), u) || Latest(old(s.Db()), u) < since
  {
    var gaps: seq<seq<Step>> := [[], [], [], [], [], [], []];
    ghost var db := s.Db();
    ghost var all;
    answer, all := ChangesSince(s, u, since, limit, [], gaps);
    if answer.Page? { QuietAnswerIsTheFeed(db, gaps, u, since, all, s.merge); }
  }
}
