/** The stores themselves: transactions that update rows and counters in place, the purge's three
    loops and the change feed's fan-out, each proved to do what the model says. */
module SyncStore {
  import opened Options
  import opened Rfc3339
  import opened FieldMerge
  import opened SyncModel
  import opened SyncLog
  import opened SyncFeed

  predicate NonDecreasing(cs: seq<Change>) { forall i, j :: 0 <= i < j < |cs| ==> cs[i].num <= cs[j].num }

  predicate DistinctNumbers(cs: seq<Change>) { forall i, j :: 0 <= i < j < |cs| ==> cs[i].num != cs[j].num }

  method InsertionPoint(sorted: seq<Change>, c: Change) returns (p: nat)
    requires NonDecreasing(sorted)
    ensures p <= |sorted| && (p > 0 ==> sorted[p - 1].num <= c.num)
    ensures forall j :: p <= j < |sorted| ==> c.num < sorted[j].num
  {
    p := |sorted|;
    while p > 0 && sorted[p - 1].num > c.num
      invariant p <= |sorted|
      invariant forall j :: p <= j < |sorted| ==> c.num < sorted[j].num
    {
      p := p - 1;
    }
  }

  /** What `sort.Slice` promises: the same elements, ordered, with no word on the order of equals. */
  method SortByNumber(changes: seq<Change>) returns (sorted: seq<Change>)
    ensures multiset(sorted) == multiset(changes) && NonDecreasing(sorted)
  {
    sorted := [];
    for i := 0 to |changes|
      invariant multiset(sorted) == multiset(changes[..i]) && NonDecreasing(sorted)
    {
      var p := InsertionPoint(sorted, changes[i]);
      InsertedInOrder(sorted, p, changes[i]);
      InsertedOnce(sorted, p, changes[i]);
      assert changes[..i + 1] == changes[..i] + [changes[i]];
      sorted := sorted[..p] + [changes[i]] + sorted[p..];
    }
    assert changes[..|changes|] == changes;
  }

  lemma InsertedInOrder(cs: seq<Change>, p: nat, c: Change)
    requires NonDecreasing(cs) && p <= |cs|
    requires (p > 0 ==> cs[p - 1].num <= c.num) && forall j :: p <= j < |cs| ==> c.num < cs[j].num
    ensures NonDecreasing(cs[..p] + [c] + cs[p..])
  {
    var r := cs[..p] + [c] + cs[p..];
    forall i | 0 <= i < |r| ensures r[i] == if i < p then cs[i] else if i == p then c else cs[i - 1] {}
    forall i, j | 0 <= i < j < |r| ensures r[i].num <= r[j].num {
      if i < p <= j { assert cs[i].num <= cs[p - 1].num; }
    }
  }

  lemma InsertedOnce(cs: seq<Change>, p: nat, c: Change)
    requires p <= |cs|
    ensures multiset(cs[..p] + [c] + cs[p..]) == multiset(cs) + multiset{c}
  {
    assert cs == cs[..p] + cs[p..];
  }

  lemma TwiceInSequence(cs: seq<Change>, i: nat, j: nat)
    requires i < j < |cs| && cs[i] == cs[j]
    ensures multiset(cs)[cs[i]] >= 2
  {
    assert cs == cs[..j] + cs[j..];
    assert cs[i] in cs[..j] && cs[j] in cs[j..];
  }

  lemma OnceInSequence(cs: seq<Change>, i: nat)
    requires DistinctNumbers(cs) && i < |cs|
    ensures multiset(cs)[cs[i]] == 1
  {
    assert cs == cs[..i] + [cs[i]] + cs[i + 1..];
    assert cs[i] !in cs[..i] && cs[i] !in cs[i + 1..];
  }

  /** Distinct numbers leave an unstable sort no freedom. */
  lemma SortedStrictly(cs: seq<Change>, sorted: seq<Change>)
    requires DistinctNumbers(cs) && multiset(sorted) == multiset(cs) && NonDecreasing(sorted)
    ensures Increasing(sorted) && forall c :: c in sorted <==> c in cs
  {
    forall c ensures c in sorted <==> c in cs {
      assert c in sorted <==> c in multiset(sorted);
    }
    forall i, j | 0 <= i < j < |sorted| ensures sorted[i].num < sorted[j].num {
      assert sorted[i] in cs && sorted[j] in cs;
      var a :| 0 <= a < |cs| && cs[a] == sorted[i];
      var b :| 0 <= b < |cs| && cs[b] == sorted[j];
      if sorted[i].num == sorted[j].num {
        assert a == b;
        TwiceInSequence(sorted, i, j);
        OnceInSequence(cs, a);
      }
    }
  }

  /** `addChanges`: wrap each item of one table and append it. */
  method AddChanges(changes: seq<Change>, items: seq<(Key, Row)>) returns (r: seq<Change>)
    ensures Appended(changes, items, r)
  {
    r := changes;
    for j := 0 to |items|
      invariant Appended(changes, items[..j], r)
    {
      r := r + [ChangeOf(items[j].0, items[j].1)];
    }
  }

  lemma OnlyTable(t: nat)
    requires t < |TABLES|
    ensures forall k: Key :: k.entity.table == TABLES[t] <==> TableIndex(k.entity.table) == t
  {
  }

  function WatermarkIn(w: map<UserId, nat>, u: UserId): nat { if u in w then w[u] else 0 }

  function RaisedTo(c: Counter, n: nat): Counter { c.(purgedBefore := Max(c.purgedBefore, n)) }

  ghost function PurgedAmong(db: Database, keys: set<Key>, u: UserId, cutoff: Instant): set<nat>
  {
    set k | k in keys && k in db.rows && db.rows[k].owner == u && Purgeable(db.rows[k], cutoff) :: db.rows[k].num
  }

  lemma MaxOfOneMore(s: set<nat>, n: nat)
    ensures MaxOf(s + {n}) == Max(MaxOf(s), n)
  {
  }

  lemma OneMorePurged(db: Database, keys: set<Key>, k: Key, u: UserId, cutoff: Instant)
    requires k in db.rows && Purgeable(db.rows[k], cutoff)
    ensures MaxOf(PurgedAmong(db, keys + {k}, u, cutoff)) ==
            if db.rows[k].owner == u then Max(MaxOf(PurgedAmong(db, keys, u, cutoff)), db.rows[k].num)
            else MaxOf(PurgedAmong(db, keys, u, cutoff))
  {
    var before, after := PurgedAmong(db, keys, u, cutoff), PurgedAmong(db, keys + {k}, u, cutoff);
    if db.rows[k].owner == u {
      assert after == before + {db.rows[k].num};
      MaxOfOneMore(before, db.rows[k].num);
    } else {
      assert after == before;
    }
  }

  ghost predicate Raised(db: Database, w: map<UserId, nat>, seen: set<Key>, cutoff: Instant)
  {
    forall u :: WatermarkIn(w, u) == MaxOf(PurgedAmong(db, seen, u, cutoff))
  }

  lemma RaiseOnce(db: Database, w: map<UserId, nat>, seen: set<Key>, k: Key, cutoff: Instant)
    requires Raised(db, w, seen, cutoff) && k in db.rows && Purgeable(db.rows[k], cutoff)
    ensures var u, n := db.rows[k].owner, db.rows[k].num;
            Raised(db, if n > WatermarkIn(w, u) then w[u := n] else w, seen + {k}, cutoff)
  {
    var owner, n := db.rows[k].owner, db.rows[k].num;
    var raised := if n > WatermarkIn(w, owner) then w[owner := n] else w;
    forall u ensures WatermarkIn(raised, u) == MaxOf(PurgedAmong(db, seen + {k}, u, cutoff)) {
      OneMorePurged(db, seen, k, u, cutoff);
      assert WatermarkIn(raised, u) == if u == owner then Max(WatermarkIn(w, u), n) else WatermarkIn(w, u);
    }
  }

  lemma AllSeen(db: Database, w: map<UserId, nat>, seen: set<Key>, cutoff: Instant)
    requires Raised(db, w, seen, cutoff)
    requires forall k :: k in seen <==> k in db.rows && Purgeable(db.rows[k], cutoff)
    ensures forall u :: WatermarkIn(w, u) == MaxOf(PurgedSeqs(db, u, cutoff))
  {
    forall u ensures WatermarkIn(w, u) == MaxOf(PurgedSeqs(db, u, cutoff)) {
      assert PurgedAmong(db, seen, u, cutoff) == PurgedSeqs(db, u, cutoff);
    }
  }

  /** Raised watermarks and removed tombstones together are a purge. */
  lemma PurgeInStages(db: Database, w: map<UserId, nat>, cutoff: Instant)
    requires forall u :: WatermarkIn(w, u) == MaxOf(PurgedSeqs(db, u, cutoff))
    ensures AfterPurge(db, cutoff) ==
            Database(map k | k in db.rows && !Purgeable(db.rows[k], cutoff) :: db.rows[k],
                     map u | u in db.counters :: RaisedTo(db.counters[u], WatermarkIn(w, u)))
  {
    var purged := AfterPurge(db, cutoff);
    var raised := map u | u in db.counters :: RaisedTo(db.counters[u], WatermarkIn(w, u));
    forall u | u in db.counters ensures purged.counters[u] == raised[u] {
      assert WatermarkIn(w, u) == MaxOf(PurgedSeqs(db, u, cutoff));
    }
    assert purged.counters == raised;
  }

  /** `items` lists the user's rows of one table above the cursor, each once. */
  ghost predicate ListsTable(db: Database, table: Table, u: UserId, since: nat, items: seq<(Key, Row)>)
  {
    && (forall i :: 0 <= i < |items| ==> Wanted(db, table, u, since, items[i].0) && items[i].1 == db.rows[items[i].0])
    && (forall k :: Wanted(db, table, u, since, k) ==> Lists(items, k))
    && (forall i, j :: 0 <= i < j < |items| ==> items[i].0 != items[j].0)
  }

  ghost predicate Lists(items: seq<(Key, Row)>, k: Key) { exists i :: 0 <= i < |items| && items[i].0 == k }

  lemma ListsOneMore(items: seq<(Key, Row)>, item: (Key, Row), k: Key)
    requires Lists(items, k) || item.0 == k
    ensures Lists(items + [item], k)
  {
    if item.0 == k {
      assert (items + [item])[|items|].0 == k;
    } else {
      var i :| 0 <= i < |items| && items[i].0 == k;
      assert (items + [item])[i].0 == k;
    }
  }

  predicate Wanted(db: Database, table: Table, u: UserId, since: nat, k: Key)
  {
    k in db.rows && k.entity.table == table && db.rows[k].owner == u && since < db.rows[k].num
  }

  /** What is left when the first `t` tables have been purged. */
  function PurgedUpTo(rows: map<Key, Row>, t: nat, cutoff: Instant): map<Key, Row>
  {
    map k | k in rows && !(TableIndex(k.entity.table) < t && Purgeable(rows[k], cutoff)) :: rows[k]
  }

  function WithoutTombstones(rows: map<Key, Row>, table: Table, cutoff: Instant): map<Key, Row>
  {
    map k | k in rows && !(k.entity.table == table && Purgeable(rows[k], cutoff)) :: rows[k]
  }

  lemma OneMoreTable(rows: map<Key, Row>, t: nat, cutoff: Instant)
    requires t < |TABLES|
    ensures WithoutTombstones(PurgedUpTo(rows, t, cutoff), TABLES[t], cutoff) == PurgedUpTo(rows, t + 1, cutoff)
  {
    OnlyTable(t);
  }

  lemma AllTables(rows: map<Key, Row>, cutoff: Instant)
    ensures PurgedUpTo(rows, 0, cutoff) == rows
    ensures PurgedUpTo(rows, |TABLES|, cutoff) == map k | k in rows && !Purgeable(rows[k], cutoff) :: rows[k]
  {
  }

  /** What is left when the user's rows in the first `t` tables have been deleted. */
  function KeptUpTo(rows: map<Key, Row>, t: nat, u: UserId): map<Key, Row>
  {
    map k | k in rows && !(TableIndex(k.entity.table) < t && rows[k].owner == u) :: rows[k]
  }

  lemma OneAccountTableMore(rows: map<Key, Row>, t: nat, u: UserId)
    requires t < |TABLES|
    ensures var some := KeptUpTo(rows, t, u);
            (map k | k in some && !(k.entity.table == TABLES[t] && some[k].owner == u) :: some[k]) ==
            KeptUpTo(rows, t + 1, u)
  {
    OnlyTable(t);
  }

  lemma EditPlan(db: Database, u: UserId, e: Entity, p: Patch, now: Instant, merge: Merger)
    requires !e.table.DailyEntries?
    ensures var row := Stored(db, Edit(u, e, p, now));
            var merged := FieldMerge.Apply(Merged(row.fields, row.stamps), p);
            PlanOf(db, Edit(u, e, p, now), merge) ==
            if KeyFor(e, u) !in db.rows && !e.table.OvertimeMonthMeta? then Refuse(NotFound)
            else if row.owner != u then Refuse(Forbidden)
            else if Winners(row.stamps, p) == {} then Refuse(Unchanged)
            else Store(row.(fields := merged.fields, stamps := merged.stamps, updatedAt := now, deletedAt := None))
  {
  }

  class Store {
    var rows: map<Key, Row>
    var counters: map<UserId, Counter>
    const merge: Merger

    constructor (merge: Merger)
      ensures Db() == EMPTY && this.merge == merge
    {
      this.merge := merge;
      rows, counters := map[], map[];
    }

    function Db(): Database
      reads this
    {
      Database(rows, counters)
    }

    method NextSeq(u: UserId) returns (num: nat)
      modifies this`counters
      ensures num == Latest(old(Db()), u) + 1
      ensures counters == old(counters)[u := Counter(num, Watermark(old(Db()), u))]
    {
      if u in counters {
        counters := counters[u := counters[u].(nextSeq := counters[u].nextSeq + 1)];
      } else {
        counters := counters[u := Counter(1, 0)];
      }
      num := counters[u].nextSeq;
    }

    /** The row write that follows `NextSeq` in the same transaction. */
    method StoreRow(u: UserId, k: Key, row: Row) returns (num: nat)
      modifies this
      ensures Db() == Commit(old(Db()), u, k, row) && num == Latest(old(Db()), u) + 1
    {
      num := NextSeq(u);
      rows := rows[k := row.(num := num)];
    }

    /** POST of a task, note, overtime entry, calendar event or absence day. */
    method Upsert(u: UserId, e: Entity, fields: map<Field, Value>, at: Instant) returns (outcome: Outcome)
      requires !NaturalKey(e.table)
      modifies this
      ensures Db() == AfterWrite(old(Db()), Post(u, e, fields, at), merge)
      ensures outcome == OutcomeOf(old(Db()), Post(u, e, fields, at), merge)
    {
      var k := KeyFor(e, u);
      var row := Blank(u, fields).(updatedAt := at);
      if k in rows {
        if rows[k].owner != u {
          return Forbidden;
        }
        if !(rows[k].updatedAt < at) {
          return Conflict;
        }
        row := rows[k].(fields := fields, updatedAt := at, deletedAt := None);
      }
      var num := StoreRow(u, k, row);
      outcome := Accepted(num);
    }

    /** PATCH, with the table's columns in the order the code tries them. The month metadata is
        created when it is missing. The caller gets the resulting row even if nothing changed. */
    method PatchRow(u: UserId, e: Entity, p: Patch, now: Instant, columns: seq<Field>)
      returns (outcome: Outcome, current: Option<Row>)
      requires !e.table.DailyEntries?
      requires Distinct(columns) && forall f :: f in p.fields ==> f in columns
      modifies this
      ensures Db() == AfterWrite(old(Db()), Edit(u, e, p, now), merge)
      ensures outcome == OutcomeOf(old(Db()), Edit(u, e, p, now), merge)
      ensures outcome.Accepted? ==> current == Some(rows[KeyFor(e, u)])
      ensures outcome.Unchanged? ==> current == Some(Stored(old(Db()), Edit(u, e, p, now)))
    {
      var k := KeyFor(e, u);
      var row := Blank(u, BLANK_MONTH);
      if k in rows {
        row := rows[k];
      } else if !e.table.OvertimeMonthMeta? {
        return NotFound, None;
      }
      if row.owner != u {
        return Forbidden, None;
      }
      var merged, changed := MergePatch(Merged(row.fields, row.stamps), p, columns);
      EditPlan(Db(), u, e, p, now, merge);
      if !changed {
        return Unchanged, Some(row);
      }
      outcome, current := StorePatched(u, e, row, p, now, merged);
    }

    /** What follows a PATCH that has won a field of the user's row. */
    method StorePatched(u: UserId, e: Entity, row: Row, p: Patch, now: Instant, merged: Merged)
      returns (outcome: Outcome, current: Option<Row>)
      requires !e.table.DailyEntries? && row == Stored(Db(), Edit(u, e, p, now)) && row.owner == u
      requires KeyFor(e, u) in rows || e.table.OvertimeMonthMeta?
      requires merged == FieldMerge.Apply(Merged(row.fields, row.stamps), p) && Winners(row.stamps, p) != {}
      modifies this
      ensures Db() == AfterWrite(old(Db()), Edit(u, e, p, now), merge)
      ensures outcome == OutcomeOf(old(Db()), Edit(u, e, p, now), merge) && outcome.Accepted?
      ensures current == Some(rows[KeyFor(e, u)])
    {
      EditPlan(Db(), u, e, p, now, merge);
      var patched := row.(fields := merged.fields, stamps := merged.stamps, updatedAt := now, deletedAt := None);
      var num := StoreRow(u, KeyFor(e, u), patched);
      return Accepted(num), Some(patched.(num := num));
    }

    method SoftDelete(u: UserId, e: Entity, now: Instant) returns (outcome: Outcome)
      requires LogOk(Db())
      modifies this
      ensures Db() == AfterWrite(old(Db()), Delete(u, e, now), merge)
      ensures outcome == OutcomeOf(old(Db()), Delete(u, e, now), merge)
    {
      var k := KeyFor(e, u);
      if k !in rows || rows[k].deletedAt.Some? {
        return NotFound;
      }
      assert RowOk(Db(), k);
      if !NaturalKey(e.table) && rows[k].owner != u {
        return Forbidden;
      }
      var num := StoreRow(u, k, rows[k].(deletedAt := Some(now), updatedAt := now));
      outcome := Accepted(num);
    }

    /** Content of a note, which must exist, or of a daily entry, created if missing. */
    method ApplyContentUpdate(u: UserId, e: Entity, update: Bytes, at: Instant) returns (outcome: Outcome)
      requires LogOk(Db()) && (e.table.Notes? || e.table.DailyEntries?)
      modifies this
      ensures Db() == AfterWrite(old(Db()), MergeContent(u, e, update, at), merge)
      ensures outcome == OutcomeOf(old(Db()), MergeContent(u, e, update, at), merge)
    {
      var k := KeyFor(e, u);
      var row := Blank(u, map[]);
      if k in rows {
        assert RowOk(Db(), k);
        row := rows[k];
      }
      if e.table.Notes? {
        if k !in rows {
          return NotFound;
        }
        if row.owner != u {
          return Forbidden;
        }
      }
      var merged := merge(row.content, update);
      if merged.None? {
        return BadUpdate;
      }
      row := row.(content := merged.value, updatedAt := at);
      if e.table.DailyEntries? {
        row := row.(deletedAt := None);
      }
      var num := StoreRow(u, k, row);
      outcome := Accepted(num);
    }

    // ---- Purge ----

    /** Per user, the highest number among the tombstones of one table about to go, or what the
        tables before it already gave. */
    method RaiseByTable(w0: map<UserId, nat>, table: Table, cutoff: Instant, ghost seen0: set<Key>)
      returns (w: map<UserId, nat>, ghost seen: set<Key>)
      requires Raised(Db(), w0, seen0, cutoff)
      ensures Raised(Db(), w, seen, cutoff)
      ensures seen == seen0 + set k | k in rows && k.entity.table == table && Purgeable(rows[k], cutoff)
    {
      w, seen := w0, seen0;
      var todo := set k | k in rows && k.entity.table == table && Purgeable(rows[k], cutoff);
      ghost var all := todo;
      while todo != {}
        invariant todo <= all && forall k :: k in seen <==> k in seen0 || (k in all && k !in todo)
        invariant Raised(Db(), w, seen, cutoff)
        decreases todo
      {
        var k :| k in todo;
        RaiseOnce(Db(), w, seen, k, cutoff);
        var u, num := rows[k].owner, rows[k].num;
        if num > WatermarkIn(w, u) {
          w := w[u := num];
        }
        todo, seen := todo - {k}, seen + {k};
      }
    }

    /** Per user, the highest number among all the tombstones about to go. */
    method TombstoneWatermarks(cutoff: Instant) returns (w: map<UserId, nat>)
      ensures forall u :: WatermarkIn(w, u) == MaxOf(PurgedSeqs(Db(), u, cutoff))
    {
      w := map[];
      ghost var seen: set<Key> := {};
      var t := 0;
      assert forall u :: PurgedAmong(Db(), seen, u, cutoff) == {};
      while t < |TABLES|
        invariant 0 <= t <= |TABLES|
        invariant forall k :: k in seen <==> k in rows && Purgeable(rows[k], cutoff) && TableIndex(k.entity.table) < t
        invariant Raised(Db(), w, seen, cutoff)
      {
        OnlyTable(t);
        w, seen := RaiseByTable(w, TABLES[t], cutoff, seen);
        t := t + 1;
      }
      AllSeen(Db(), w, seen, cutoff);
    }

    method RaiseWatermarks(w: map<UserId, nat>)
      modifies this`counters
      ensures counters == map u | u in old(counters) :: RaisedTo(old(counters)[u], WatermarkIn(w, u))
    {
      var todo := w.Keys;
      while todo != {}
        invariant todo <= w.Keys
        invariant counters.Keys == old(counters).Keys
        invariant forall u :: u in counters ==>
                    counters[u] ==
                    if u in w && u !in todo then RaisedTo(old(counters)[u], w[u]) else old(counters)[u]
        decreases todo
      {
        var u :| u in todo;
        if u in counters {
          counters := counters[u := RaisedTo(counters[u], w[u])];
        }
        todo := todo - {u};
      }
    }

    method DeleteTombstones(cutoff: Instant)
      modifies this`rows
      ensures rows == map k | k in old(rows) && !Purgeable(old(rows)[k], cutoff) :: old(rows)[k]
    {
      AllTables(rows, cutoff);
      var t := 0;
      while t < |TABLES|
        invariant 0 <= t <= |TABLES|
        invariant rows == PurgedUpTo(old(rows), t, cutoff)
      {
        OneMoreTable(old(rows), t, cutoff);
        rows := WithoutTombstones(rows, TABLES[t], cutoff);
        t := t + 1;
      }
    }

    method PurgeTombstones(now: Instant, retention: nat)
      requires retention <= now
      modifies this
      ensures Db() == AfterPurge(old(Db()), now - retention)
    {
      var cutoff: Instant := now - retention;
      var w := TombstoneWatermarks(cutoff);
      PurgeInStages(Db(), w, cutoff);
      RaiseWatermarks(w);
      DeleteTombstones(cutoff);
    }

    method DeleteAccountRows(u: UserId)
      modifies this
      ensures Db() == AfterAccountDeletion(old(Db()), u)
    {
      var t := 0;
      while t < |TABLES|
        invariant 0 <= t <= |TABLES| && counters == old(counters)
        invariant rows == KeptUpTo(old(rows), t, u)
      {
        var table := TABLES[t];
        OneAccountTableMore(old(rows), t, u);
        rows := map k | k in rows && !(k.entity.table == table && rows[k].owner == u) :: rows[k];
        t := t + 1;
      }
      counters := counters - {u};
    }

    // ---- The change feed ----

    /** One table's `ChangesSince`: the user's rows above the cursor. */
    method TableChanges(table: Table, u: UserId, since: nat) returns (items: seq<(Key, Row)>)
      ensures ListsTable(Db(), table, u, since, items)
    {
      var todo := set k | k in rows && k.entity.table == table && rows[k].owner == u && since < rows[k].num;
      ghost var all := todo;
      items := [];
      while todo != {}
        invariant todo <= all && forall k :: k in all <==> Wanted(Db(), table, u, since, k)
        invariant forall i :: 0 <= i < |items| ==> items[i].0 in all - todo && items[i].1 == rows[items[i].0]
        invariant forall k :: k in all && k !in todo ==> Lists(items, k)
        invariant forall i, j :: 0 <= i < j < |items| ==> items[i].0 != items[j].0
        decreases todo
      {
        var k :| k in todo;
        todo := todo - {k};
        forall l | l in all && l !in todo ensures Lists(items + [(k, rows[k])], l) {
          ListsOneMore(items, (k, rows[k]), l);
        }
        items := items + [(k, rows[k])];
      }
    }
  }

  /** `after` is `before` with the changes of one more table appended. */
  ghost predicate Appended(before: seq<Change>, items: seq<(Key, Row)>, after: seq<Change>)
  {
    && |after| == |before| + |items| && after[..|before|] == before
    && forall i :: 0 <= i < |items| ==> after[|before| + i] == ChangeOf(items[i].0, items[i].1)
  }

  lemma AppendedAt(before: seq<Change>, items: seq<(Key, Row)>, after: seq<Change>, i: nat)
    requires Appended(before, items, after) && i < |after|
    ensures if i < |before| then after[i] == before[i] && after[i] in before
            else after[i] == ChangeOf(items[i - |before|].0, items[i - |before|].1)
  {
    if i < |before| {
      assert after[i] == after[..|before|][i];
    } else {
      assert after[i] == after[|before| + (i - |before|)];
    }
  }
}
