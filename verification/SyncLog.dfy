/** What every write, purge and account deletion keeps of the per-user log. */
module SyncLog {
  import opened Options
  import opened Rfc3339
  import opened StampText
  import opened FieldMerge
  import opened SyncModel

  predicate RowOk(db: Database, k: Key)
    requires k in db.rows
  {
    var row := db.rows[k];
    && k == KeyFor(k.entity, row.owner)
    && row.owner in db.counters
    && 1 <= row.num <= db.counters[row.owner].nextSeq
  }

  /** A user's rows, across all seven tables, have pairwise distinct numbers between 1 and the
      user's counter, and the purge watermark stays within the counter. */
  ghost predicate LogOk(db: Database)
  {
    && (forall k :: k in db.rows ==> RowOk(db, k))
    && (forall k, l ::
          k in db.rows && l in db.rows && db.rows[k].owner == db.rows[l].owner && db.rows[k].num == db.rows[l].num ==>
          k == l)
    && (forall u :: u in db.counters ==> db.counters[u].purgedBefore <= db.counters[u].nextSeq)
  }

  /** An accepted write stores a row of the writer, and never over somebody else's row. */
  lemma StoresOwnRow(db: Database, w: Write, merge: Merger)
    requires LogOk(db)
    ensures var plan, k := PlanOf(db, w, merge), KeyFor(w.entity, w.user);
            plan.Store? ==> plan.row.owner == w.user && (k in db.rows ==> db.rows[k].owner == w.user)
  {
    var k := KeyFor(w.entity, w.user);
    assert k in db.rows ==> RowOk(db, k);
  }

  lemma CommitKeepsLog(db: Database, u: UserId, e: Entity, row: Row)
    requires LogOk(db) && row.owner == u
    requires KeyFor(e, u) in db.rows ==> db.rows[KeyFor(e, u)].owner == u
    ensures LogOk(Commit(db, u, KeyFor(e, u), row))
  {
    var db', key := Commit(db, u, KeyFor(e, u), row), KeyFor(e, u);
    forall k | k in db'.rows ensures RowOk(db', k) {
      if k != key { assert RowOk(db, k); }
    }
    forall k, l | k in db'.rows && l in db'.rows && db'.rows[k].owner == db'.rows[l].owner &&
      db'.rows[k].num == db'.rows[l].num
      ensures k == l
    {
      assert k != key ==> RowOk(db, k);
      assert l != key ==> RowOk(db, l);
    }
  }

  lemma WriteKeepsLog(db: Database, w: Write, merge: Merger)
    requires LogOk(db)
    ensures LogOk(AfterWrite(db, w, merge))
  {
    StoresOwnRow(db, w, merge);
    match PlanOf(db, w, merge)
    case Refuse(_) =>
    case Store(row) => CommitKeepsLog(db, w.user, w.entity, row);
  }

  lemma PurgedWithinCounter(db: Database, u: UserId, cutoff: Instant)
    requires LogOk(db)
    ensures MaxOf(PurgedSeqs(db, u, cutoff)) <= Latest(db, u)
  {
    forall n | n in PurgedSeqs(db, u, cutoff) ensures n <= Latest(db, u) {
      var k :| k in db.rows && db.rows[k].owner == u && Purgeable(db.rows[k], cutoff) && db.rows[k].num == n;
      assert RowOk(db, k);
    }
  }

  lemma PurgeKeepsRows(db: Database, cutoff: Instant)
    ensures var db' := AfterPurge(db, cutoff);
            && (forall k :: k in db'.rows ==> k in db.rows && db'.rows[k] == db.rows[k])
            && db'.counters.Keys == db.counters.Keys
            && (forall u :: u in db.counters ==>
                 db'.counters[u].nextSeq == db.counters[u].nextSeq &&
                 db'.counters[u].purgedBefore == Max(db.counters[u].purgedBefore, MaxOf(PurgedSeqs(db, u, cutoff))))
  {
  }

  /** `db'` has lost rows, and watermarks have moved within the counters. */
  lemma FewerRowsKeepLog(db: Database, db': Database)
    requires LogOk(db) && forall k :: k in db'.rows ==> k in db.rows && db'.rows[k] == db.rows[k]
    requires db'.counters.Keys == db.counters.Keys
    requires forall u :: u in db.counters ==>
               db'.counters[u].nextSeq == db.counters[u].nextSeq &&
                 db'.counters[u].purgedBefore <= db.counters[u].nextSeq
    ensures LogOk(db')
  {
    forall k | k in db'.rows ensures RowOk(db', k) { assert RowOk(db, k); }
  }

  lemma PurgeKeepsLog(db: Database, cutoff: Instant)
    requires LogOk(db)
    ensures LogOk(AfterPurge(db, cutoff))
  {
    PurgeKeepsRows(db, cutoff);
    forall u | u in db.counters ensures AfterPurge(db, cutoff).counters[u].purgedBefore <= db.counters[u].nextSeq {
      PurgedWithinCounter(db, u, cutoff);
    }
    FewerRowsKeepLog(db, AfterPurge(db, cutoff));
  }

  lemma AccountDeletionKeepsLog(db: Database, u: UserId)
    requires LogOk(db)
    ensures LogOk(AfterAccountDeletion(db, u))
  {
    var db' := AfterAccountDeletion(db, u);
    forall k | k in db'.rows ensures RowOk(db', k) { assert RowOk(db, k); }
  }

  lemma StepKeepsLog(db: Database, s: Step, merge: Merger)
    requires LogOk(db)
    ensures LogOk(After(db, s, merge))
  {
    match s
    case Submit(w) => WriteKeepsLog(db, w, merge);
    case Purge(cutoff) => PurgeKeepsLog(db, cutoff);
    case DeleteAccount(u) => AccountDeletionKeepsLog(db, u);
  }

  /** The log invariant holds after every run from the empty database. */
  lemma {:induction false} LogHoldsOnEveryRun(steps: seq<Step>, merge: Merger)
    ensures LogOk(Run(EMPTY, steps, merge))
  {
    if steps == [] {
    } else {
      LogHoldsOnEveryRun(steps[..|steps| - 1], merge);
      StepKeepsLog(Run(EMPTY, steps[..|steps| - 1], merge), steps[|steps| - 1], merge);
    }
  }

  // ---- Counting accepted writes and purged tombstones over a run ----

  /** Writes of `u` that were accepted, since the account's rows were last deleted. */
  ghost function AcceptedWrites(steps: seq<Step>, u: UserId, merge: Merger): nat
  {
    if steps == [] then 0
    else
      var front, last := steps[..|steps| - 1], steps[|steps| - 1];
      var before := AcceptedWrites(front, u, merge);
      match last
      case Submit(w) =>
        if w.user == u && OutcomeOf(Run(EMPTY, front, merge), w, merge).Accepted? then before + 1 else before
      case Purge(_) => before
      case DeleteAccount(v) => if v == u then 0 else before
  }

  /** Numbers of the tombstones of `u` that purges removed, likewise. */
  ghost function PurgedTombstones(steps: seq<Step>, u: UserId, merge: Merger): set<nat>
  {
    if steps == [] then {}
    else
      var front, last := steps[..|steps| - 1], steps[|steps| - 1];
      var before := PurgedTombstones(front, u, merge);
      match last
      case Submit(_) => before
      case Purge(cutoff) => before + PurgedSeqs(Run(EMPTY, front, merge), u, cutoff)
      case DeleteAccount(v) => if v == u then {} else before
  }

  lemma PurgedHaveCounter(db: Database, u: UserId, cutoff: Instant)
    requires LogOk(db) && PurgedSeqs(db, u, cutoff) != {}
    ensures u in db.counters
  {
    var n :| n in PurgedSeqs(db, u, cutoff);
    var k :| k in db.rows && db.rows[k].owner == u && Purgeable(db.rows[k], cutoff) && db.rows[k].num == n;
    assert RowOk(db, k);
  }

  lemma PurgeRaisesWatermark(db: Database, u: UserId, cutoff: Instant)
    requires LogOk(db)
    ensures Watermark(db, u) <= Watermark(AfterPurge(db, cutoff), u)
    ensures forall n :: n in PurgedSeqs(db, u, cutoff) ==> n <= Watermark(AfterPurge(db, cutoff), u)
    ensures var mark := Watermark(AfterPurge(db, cutoff), u);
            mark == Watermark(db, u) || mark in PurgedSeqs(db, u, cutoff)
    ensures Latest(AfterPurge(db, cutoff), u) == Latest(db, u)
  {
    var purged := PurgedSeqs(db, u, cutoff);
    if u in db.counters {
      assert Watermark(AfterPurge(db, cutoff), u) == Max(Watermark(db, u), MaxOf(purged));
    } else if purged != {} {
      PurgedHaveCounter(db, u, cutoff);
    }
  }

  /** Which rows a purge removes: the tombstones deleted in an earlier second than the cutoff's, and, of
      those deleted in the same second, the earlier ones whose nanoseconds are not the cutoff's cut off at
      a decimal place, and the later ones of whose nanoseconds the cutoff's are such a cut. */
  lemma PurgeExactly(db: Database, cutoff: Instant, k: Key)
    requires k in db.rows
    ensures k !in AfterPurge(db, cutoff).rows <==>
            && db.rows[k].deletedAt.Some?
            && var d := db.rows[k].deletedAt.value;
               || Second(d) < Second(cutoff)
               || (Second(d) == Second(cutoff) && d < cutoff && !CutShort(d % NANOS, cutoff % NANOS))
               || (Second(d) == Second(cutoff) && cutoff < d && CutShort(cutoff % NANOS, d % NANOS))
    ensures k in AfterPurge(db, cutoff).rows ==> AfterPurge(db, cutoff).rows[k] == db.rows[k]
  {
    if db.rows[k].deletedAt.Some? {
      var d := db.rows[k].deletedAt.value;
      if d < cutoff {
        TextOrderExact(d, cutoff);
      } else if cutoff < d {
        TextOrderExact(cutoff, d);
      } else {
        TextIrreflexive(Format(d));
      }
    }
  }

  /** With `cutoff` = now - retention: nothing younger than the retention less one second is
      purged, and no tombstone older than the retention plus one second survives. */
  lemma PurgeIsExactToASecond(db: Database, now: Instant, retention: nat, k: Key)
    requires k in db.rows && db.rows[k].deletedAt.Some? && retention <= now
    ensures var age := now - db.rows[k].deletedAt.value; var kept := k in AfterPurge(db, now - retention).rows;
            (age <= retention - NANOS ==> kept) && (age >= retention + NANOS ==> !kept)
  {
    var cutoff: Instant := now - retention;
    assert k in AfterPurge(db, cutoff).rows <==> !Purgeable(db.rows[k], cutoff);
    TextOrderWithinASecond(db.rows[k].deletedAt.value, cutoff);
  }

  lemma {:induction false} CounterIsCount(steps: seq<Step>, u: UserId, merge: Merger)
    ensures Latest(Run(EMPTY, steps, merge), u) == AcceptedWrites(steps, u, merge)
  {
    if steps == [] {
    } else {
      CounterIsCount(steps[..|steps| - 1], u, merge);
    }
  }

  ghost predicate MarksGreatest(purged: set<nat>, mark: nat)
  {
    (forall n :: n in purged ==> n <= mark) && (mark == 0 || mark in purged)
  }

  lemma PurgeMarksGreatest(db: Database, u: UserId, cutoff: Instant, purged: set<nat>)
    requires LogOk(db) && MarksGreatest(purged, Watermark(db, u))
    ensures MarksGreatest(purged + PurgedSeqs(db, u, cutoff), Watermark(AfterPurge(db, cutoff), u))
  {
    PurgeRaisesWatermark(db, u, cutoff);
  }

  lemma {:induction false} MarkIsGreatest(steps: seq<Step>, u: UserId, merge: Merger)
    ensures MarksGreatest(PurgedTombstones(steps, u, merge), Watermark(Run(EMPTY, steps, merge), u))
  {
    if steps == [] {
    } else {
      var front, last := steps[..|steps| - 1], steps[|steps| - 1];
      var db := Run(EMPTY, front, merge);
      MarkIsGreatest(front, u, merge);
      LogHoldsOnEveryRun(front, merge);
      match last
      case Submit(w) => WriteKeepsWatermark(db, w, u, merge);
      case DeleteAccount(_) =>
      case Purge(cutoff) => PurgeMarksGreatest(db, u, cutoff, PurgedTombstones(front, u, merge));
    }
  }

  /** Over every run the counter is the number of accepted writes, so refused and fully stale
      writes take no number, and the watermark is the greatest number of a purged tombstone. */
  lemma {:induction false} CounterCountsWrites(steps: seq<Step>, u: UserId, merge: Merger)
    ensures Latest(Run(EMPTY, steps, merge), u) == AcceptedWrites(steps, u, merge)
    ensures var mark, purged := Watermark(Run(EMPTY, steps, merge), u), PurgedTombstones(steps, u, merge);
            (forall n :: n in purged ==> n <= mark) && (mark == 0 || mark in purged)
  {
    CounterIsCount(steps, u, merge);
    MarkIsGreatest(steps, u, merge);
  }

  lemma WriteKeepsWatermark(db: Database, w: Write, u: UserId, merge: Merger)
    ensures Watermark(AfterWrite(db, w, merge), u) == Watermark(db, u)
  {
  }

  // ---- What the writes mean ----

  /** A committed write changes what clients see of the one entity it names, for its owner only. */
  lemma CommitTouchesOneEntity(db: Database, u: UserId, e: Entity, row: Row, v: UserId, f: Entity)
    requires LogOk(db) && row.owner == u
    requires KeyFor(e, u) in db.rows ==> db.rows[KeyFor(e, u)].owner == u
    ensures var db' := Commit(db, u, KeyFor(e, u), row);
            View(db', v, f) ==
              if v != u || f != e then View(db, v, f)
              else if row.deletedAt.Some? then None
              else Some(Item(row.fields, row.content, Latest(db, u) + 1, row.updatedAt))
  {
  }

  /** The contents a stored entity starts a write from. */
  function Stored(db: Database, w: Write): Row
  {
    match Lookup(db, w)
    case Some(row) => row
    case None => Blank(w.user, if w.entity.table.OvertimeMonthMeta? then BLANK_MONTH else map[])
  }

  /** What a PATCH leaves of a field: its value and time if the field had no stamp or an older one, else what
      the row had. */
  predicate FieldPatched(fields: map<Field, Value>, stamps: map<Field, Instant>, row: Row, p: Patch, f: Field)
  {
    if f in p.fields && (f !in stamps || stamps[f] < p.at) then
      f in row.fields && row.fields[f] == p.fields[f] && f in row.stamps && row.stamps[f] == p.at
    else
      && (f in row.fields <==> f in fields) && (f in fields ==> row.fields[f] == fields[f])
      && (f in row.stamps <==> f in stamps) && (f in stamps ==> row.stamps[f] == stamps[f])
  }

  lemma EditPatchesFields(stored: Row, e: Entity, u: UserId, p: Patch, now: Instant, found: Option<Row>)
    requires PlanEdit(found, e, u, p, now).Store?
    requires stored == if found.Some? then found.value else Blank(u, BLANK_MONTH)
    ensures var row := PlanEdit(found, e, u, p, now).row;
            && row.owner == u && row.content == stored.content && row.updatedAt == now && row.deletedAt.None?
            && forall f :: FieldPatched(stored.fields, stored.stamps, row, p, f)
  {
  }

  /** The row an accepted write leaves. */
  function RowAfter(db: Database, w: Write, merge: Merger): (row: Row)
    requires OutcomeOf(db, w, merge).Accepted?
    ensures KeyFor(w.entity, w.user) in AfterWrite(db, w, merge).rows
    ensures row == AfterWrite(db, w, merge).rows[KeyFor(w.entity, w.user)]
    ensures row == PlanOf(db, w, merge).row.(num := Latest(db, w.user) + 1)
  {
    AfterWrite(db, w, merge).rows[KeyFor(w.entity, w.user)]
  }

  /** POST replaces the columns and keeps field stamps and content, and brings a tombstone back. */
  lemma PostStores(db: Database, u: UserId, e: Entity, fields: map<Field, Value>, at: Instant, merge: Merger)
    requires LogOk(db) && OutcomeOf(db, Post(u, e, fields, at), merge).Accepted?
    ensures var k, n := KeyFor(e, u), Latest(db, u) + 1;
            RowAfter(db, Post(u, e, fields, at), merge) ==
            if k in db.rows then Row(u, fields, db.rows[k].stamps, db.rows[k].content, n, at, None)
            else Row(u, fields, map[], [], n, at, None)
  {
    StoresOwnRow(db, Post(u, e, fields, at), merge);
  }

  /** PATCH sets the fields it wins, under its own time, stamps the row with the server's, and brings a tombstone
      back; a month that is missing starts with two empty columns. */
  lemma EditStores(db: Database, u: UserId, e: Entity, p: Patch, now: Instant, merge: Merger)
    requires LogOk(db) && Offered(Edit(u, e, p, now)) && OutcomeOf(db, Edit(u, e, p, now), merge).Accepted?
    ensures var k, row := KeyFor(e, u), RowAfter(db, Edit(u, e, p, now), merge);
            && (k in db.rows || e.table.OvertimeMonthMeta?)
            && row.owner == u && row.num == Latest(db, u) + 1 && row.updatedAt == now && row.deletedAt.None?
            && row.content == (if k in db.rows then db.rows[k].content else [])
            && forall f ::
                 if k in db.rows then FieldPatched(db.rows[k].fields, db.rows[k].stamps, row, p, f)
                 else FieldPatched(map["colaborador" := "", "cedula" := ""], map[], row, p, f)
  {
    var w := Edit(u, e, p, now);
    EditPatchesFields(Stored(db, w), e, u, p, now, Lookup(db, w));
    forall f { FieldsAlone(PlanOf(db, w, merge).row, RowAfter(db, w, merge), Stored(db, w), p, f); }
  }

  lemma FieldsAlone(planned: Row, row: Row, stored: Row, p: Patch, f: Field)
    requires row == planned.(num := row.num)
    ensures FieldPatched(stored.fields, stored.stamps, planned, p, f) ==>
              FieldPatched(stored.fields, stored.stamps, row, p, f)
  {
  }

  /** A delete keeps everything of a live row but the clock and the number. */
  lemma DeleteStores(db: Database, u: UserId, e: Entity, now: Instant, merge: Merger)
    requires LogOk(db) && OutcomeOf(db, Delete(u, e, now), merge).Accepted?
    ensures var k := KeyFor(e, u);
            && k in db.rows && db.rows[k].deletedAt.None?
            && RowAfter(db, Delete(u, e, now), merge) ==
               db.rows[k].(deletedAt := Some(now), updatedAt := now, num := Latest(db, u) + 1)
  {
  }

  /** Content merges under the client's time: into a note that must exist and stays deleted if it was, into a
      daily entry that is created or brought back. */
  lemma ContentStores(db: Database, u: UserId, e: Entity, update: Bytes, at: Instant, merge: Merger)
    requires LogOk(db) && Offered(MergeContent(u, e, update, at))
    requires OutcomeOf(db, MergeContent(u, e, update, at), merge).Accepted?
    ensures var k, n, row := KeyFor(e, u), Latest(db, u) + 1, RowAfter(db, MergeContent(u, e, update, at), merge);
            if k in db.rows then
              && merge(db.rows[k].content, update).Some?
              && row == Row(u, db.rows[k].fields, db.rows[k].stamps, merge(db.rows[k].content, update).value, n, at,
                            if e.table.Notes? then db.rows[k].deletedAt else None)
            else
              && e.table.DailyEntries? && merge([], update).Some?
              && row == Row(u, map[], map[], merge([], update).value, n, at, None)
  {
    StoresOwnRow(db, MergeContent(u, e, update, at), merge);
  }

  /** What clients see of an accepted write: the writer's entity as the row it leaves shows it, and every other
      entity, of any user, as before. */
  lemma AcceptedWriteMeans(db: Database, w: Write, v: UserId, f: Entity, merge: Merger)
    requires LogOk(db) && Offered(w) && OutcomeOf(db, w, merge).Accepted?
    ensures var row := RowAfter(db, w, merge);
            View(AfterWrite(db, w, merge), v, f) ==
            if v != w.user || f != w.entity then View(db, v, f)
            else if row.deletedAt.Some? then None
            else Some(Item(row.fields, row.content, row.num, row.updatedAt))
    ensures w.Delete? ==> View(db, w.user, w.entity).Some?
  {
    StoresOwnRow(db, w, merge);
    CommitTouchesOneEntity(db, w.user, w.entity, PlanOf(db, w, merge).row, v, f);
  }

  /** The row under this key has the number, which is its owner's counter and above every other number of
      the owner; other rows, watermarks and other users' counters are as before. */
  ghost predicate TakesTheNumber(db: Database, after: Database, u: UserId, k: Key, n: nat)
  {
    && k in after.rows && after.rows[k].owner == u && after.rows[k].num == n == Latest(after, u)
    && (forall l :: l != k ==> (l in after.rows <==> l in db.rows) && (l in db.rows ==> after.rows[l] == db.rows[l]))
    && (forall l :: l in db.rows && l != k && db.rows[l].owner == u ==> db.rows[l].num < n)
    && (forall v :: Watermark(after, v) == Watermark(db, v) && (v != u ==> Latest(after, v) == Latest(db, v)))
  }

  lemma CommitTakesTheNumber(db: Database, u: UserId, k: Key, row: Row)
    requires LogOk(db) && row.owner == u
    ensures TakesTheNumber(db, Commit(db, u, k, row), u, k, Latest(db, u) + 1)
  {
    forall l | l in db.rows && db.rows[l].owner == u ensures db.rows[l].num <= Latest(db, u) { assert RowOk(db, l); }
  }

  /** The number in an answer is the row's new one and the user's counter. */
  lemma AcceptedTakesTheNumber(db: Database, w: Write, merge: Merger)
    requires LogOk(db) && OutcomeOf(db, w, merge).Accepted?
    ensures TakesTheNumber(
              db, AfterWrite(db, w, merge), w.user, KeyFor(w.entity, w.user), OutcomeOf(db, w, merge).num)
  {
    StoresOwnRow(db, w, merge);
    CommitTakesTheNumber(db, w.user, KeyFor(w.entity, w.user), PlanOf(db, w, merge).row);
  }

  /** An entity of another user: the tables keyed by a client's own id have one row for everybody, so only its
      owner may write it; the months and the daily entries have one row per user. */
  lemma WritesToAnothersEntity(db: Database, w: Write, owner: UserId, merge: Merger)
    requires LogOk(db) && Offered(w) && Owns(db, owner, w.entity) && w.user != owner
    ensures if w.entity.table.OvertimeMonthMeta? || w.entity.table.DailyEntries? then
              OutcomeOf(db, w, merge) != Forbidden &&
              View(AfterWrite(db, w, merge), owner, w.entity) == View(db, owner, w.entity)
            else
              AfterWrite(db, w, merge) == db &&
              OutcomeOf(db, w, merge) ==
              if w.Delete? && View(db, owner, w.entity).None? then NotFound else Forbidden
  {
    if NaturalKey(w.entity.table) {
      OwnRowIsNobodyElses(db, w, owner, merge);
    } else {
      SharedRowIsAnothers(db, w, owner, merge);
    }
  }

  lemma OwnRowIsNobodyElses(db: Database, w: Write, owner: UserId, merge: Merger)
    requires LogOk(db) && Offered(w) && w.user != owner && NaturalKey(w.entity.table)
    ensures OutcomeOf(db, w, merge) != Forbidden
    ensures View(AfterWrite(db, w, merge), owner, w.entity) == View(db, owner, w.entity)
  {
    StoresOwnRow(db, w, merge);
    if OutcomeOf(db, w, merge).Accepted? {
      CommitTouchesOneEntity(db, w.user, w.entity, PlanOf(db, w, merge).row, owner, w.entity);
    }
    assert KeyFor(w.entity, w.user) in db.rows ==> RowOk(db, KeyFor(w.entity, w.user));
  }

  lemma SharedRowIsAnothers(db: Database, w: Write, owner: UserId, merge: Merger)
    requires Offered(w) && Owns(db, owner, w.entity) && w.user != owner && !NaturalKey(w.entity.table)
    ensures PlanOf(db, w, merge) == Refuse(if w.Delete? && View(db, owner, w.entity).None? then NotFound else Forbidden)
  {
    assert Lookup(db, w) == Some(db.rows[KeyFor(w.entity, owner)]);
  }

  /** A PATCH of a month that is not there creates it: two empty columns, with what the PATCH sets. */
  lemma PatchCreatesMonth(db: Database, u: UserId, id: Id, p: Patch, now: Instant, merge: Merger)
    requires LogOk(db) && p.fields != map[] && KeyFor(Entity(OvertimeMonthMeta, id), u) !in db.rows
    ensures var e, w := Entity(OvertimeMonthMeta, id), Edit(u, Entity(OvertimeMonthMeta, id), p, now);
            && OutcomeOf(db, w, merge) == Accepted(Latest(db, u) + 1)
            && View(AfterWrite(db, w, merge), u, e) ==
               Some(Item(map["colaborador" := "", "cedula" := ""] + p.fields, [], Latest(db, u) + 1, now))
  {
    FreshRowTakesAll(BLANK_MONTH, p);
  }

  /** When an account is deleted, exactly the user's rows and counter go. */
  lemma AccountDeletionMeans(db: Database, u: UserId, k: Key, v: UserId)
    requires LogOk(db)
    ensures var after := AfterAccountDeletion(db, u);
            && (k in after.rows <==> k in db.rows && db.rows[k].owner != u)
            && (k in after.rows ==> after.rows[k] == db.rows[k])
            && (v in after.counters <==> v in db.counters && v != u)
            && (v in after.counters ==> after.counters[v] == db.counters[v])
  {
  }

  /** When each answer is given; every answer but acceptance leaves the database as it was. */
  lemma RefusedWriteMeans(db: Database, w: Write, merge: Merger)
    requires LogOk(db) && Offered(w)
    ensures !OutcomeOf(db, w, merge).Accepted? ==> AfterWrite(db, w, merge) == db
    ensures var k, outcome := KeyFor(w.entity, w.user), OutcomeOf(db, w, merge);
            var found := k in db.rows;
            var own := found && db.rows[k].owner == w.user;
            && (outcome == NotFound <==>
                 match w
                 case Post(_, _, _, _) => false
                 case Edit(_, e, _, _) => !found && !e.table.OvertimeMonthMeta?
                 case Delete(_, _, _) => !found || db.rows[k].deletedAt.Some?
                 case MergeContent(_, e, _, _) => !found && e.table.Notes?)
            && (outcome == Forbidden <==> found && !own && !(w.Delete? && db.rows[k].deletedAt.Some?))
            && (outcome == Conflict <==> w.Post? && own && w.at <= db.rows[k].updatedAt)
            && (outcome == Unchanged <==>
                 w.Edit? && (own || (!found && w.entity.table.OvertimeMonthMeta?)) &&
                 forall f :: f in w.patch.fields ==>
                   found && f in db.rows[k].stamps && w.patch.at <= db.rows[k].stamps[f])
            && (outcome == BadUpdate <==>
                 w.MergeContent? && (own || (!found && w.entity.table.DailyEntries?)) &&
                 merge(if found then db.rows[k].content else [], w.update).None?)
  {
    if w.Edit? { NoWinners(Stored(db, w).stamps, w.patch); }
  }

  lemma NoWinners(stamps: map<Field, Instant>, p: Patch)
    ensures Winners(stamps, p) == {} <==> forall f :: f in p.fields ==> f in stamps && p.at <= stamps[f]
  {
    if Winners(stamps, p) == {} {
      forall f | f in p.fields ensures f in stamps && p.at <= stamps[f] { assert f !in Winners(stamps, p); }
    }
  }

  /** Row-level last-write-wins does not keep the newest POST: merging content stamps the row with
      the client's time, so a POST older than one already accepted can be accepted after it. */
  lemma RowClockRunsBackwards(merge: Merger, update: Bytes)
    requires merge([], update).Some?
    ensures var e := Entity(Notes, "n");
            var newer, merged, older := Post("u", e, map["title" := "new"], 30), MergeContent("u", e, update, 10),
              Post("u", e, map["title" := "old"], 20);
            var db := Run(EMPTY, [Submit(newer), Submit(merged)], merge);
            OutcomeOf(EMPTY, newer, merge).Accepted? && OutcomeOf(db, older, merge).Accepted? &&
            View(AfterWrite(db, older, merge), "u", e).Some? &&
            View(AfterWrite(db, older, merge), "u", e).value.fields == map["title" := "old"]
  {
    var e := Entity(Notes, "n");
    var newer, merged, older := Post("u", e, map["title" := "new"], 30), MergeContent("u", e, update, 10),
      Post("u", e, map["title" := "old"], 20);
    var db1 := AfterWrite(EMPTY, newer, merge);
    var db2 := AfterWrite(db1, merged, merge);
    var steps := [Submit(newer), Submit(merged)];
    assert steps[..1] == [Submit(newer)] && steps[..1][..0] == [];
    assert Run(EMPTY, steps[..1], merge) == db1 && Run(EMPTY, steps, merge) == db2;
  }

  /** A PATCH that wins a field does not look at the row's tombstone, number or clock. */
  lemma PatchIgnoresTombstone(row: Row, dead: Row, e: Entity, p: Patch, now: Instant)
    requires dead == row.(deletedAt := dead.deletedAt, updatedAt := dead.updatedAt, num := dead.num)
    requires Winners(row.stamps, p) != {}
    ensures var kept, revived := PlanEdit(Some(row), e, row.owner, p, now), PlanEdit(Some(dead), e, row.owner, p, now);
            kept.Store? && kept.row.deletedAt.None? && revived == Store(kept.row.(num := dead.num))
  {
  }

  lemma OwnEdit(db: Database, u: UserId, e: Entity, p: Patch, now: Instant, merge: Merger)
    requires KeyFor(e, u) in db.rows
    ensures var k, plan := KeyFor(e, u), PlanEdit(Some(db.rows[KeyFor(e, u)]), e, u, p, now);
            AfterWrite(db, Edit(u, e, p, now), merge) == if plan.Store? then Commit(db, u, k, plan.row) else db
  {
  }

  /** A PATCH that is let through shows its planned row under the next number. */
  lemma EditShows(db: Database, u: UserId, e: Entity, p: Patch, now: Instant, merge: Merger)
    requires var k := KeyFor(e, u); k in db.rows && db.rows[k].owner == u && Winners(db.rows[k].stamps, p) != {}
    ensures var k, after := KeyFor(e, u), AfterWrite(db, Edit(u, e, p, now), merge);
            var planned := PlanEdit(Some(db.rows[k]), e, u, p, now).row;
            && k in after.rows && after.rows[k] == planned.(num := Latest(db, u) + 1)
            && View(after, u, e) == Some(ItemOf(planned.(num := Latest(db, u) + 1)))
  {
    OwnEdit(db, u, e, p, now, merge);
    CommitShows(db, u, e, PlanEdit(Some(db.rows[KeyFor(e, u)]), e, u, p, now).row);
  }

  lemma DeleteLeaves(db: Database, u: UserId, e: Entity, deleted: Instant, merge: Merger)
    requires LogOk(db) && Live(db, u, e)
    ensures var k, n := KeyFor(e, u), Latest(db, u) + 1;
            AfterWrite(db, Delete(u, e, deleted), merge) ==
            Commit(db, u, k, db.rows[k].(deletedAt := Some(deleted), updatedAt := deleted)) &&
            AfterWrite(db, Delete(u, e, deleted), merge).rows[k] ==
            db.rows[k].(deletedAt := Some(deleted), updatedAt := deleted, num := n)
  {
  }

  /** A delete keeps everything a later PATCH brings back: reviving by PATCH shows the same columns
      and content as if the entity had never been deleted. */
  lemma PatchUndoesDelete(db: Database, u: UserId, e: Entity, p: Patch, deleted: Instant, now: Instant, merge: Merger)
    requires LogOk(db) && Live(db, u, e) && Winners(db.rows[KeyFor(e, u)].stamps, p) != {}
    ensures var kept := AfterWrite(db, Edit(u, e, p, now), merge);
            var revived := AfterWrite(AfterWrite(db, Delete(u, e, deleted), merge), Edit(u, e, p, now), merge);
            && View(AfterWrite(db, Delete(u, e, deleted), merge), u, e) == None
            && View(kept, u, e).Some? && View(revived, u, e) == Some(View(kept, u, e).value.(num := Latest(db, u) + 2))
            && kept.rows[KeyFor(e, u)].stamps == revived.rows[KeyFor(e, u)].stamps
  {
    var k := KeyFor(e, u);
    var row := db.rows[k];
    var dead := row.(deletedAt := Some(deleted), updatedAt := deleted, num := Latest(db, u) + 1);
    var gone := AfterWrite(db, Delete(u, e, deleted), merge);
    DeleteLeaves(db, u, e, deleted, merge);
    assert gone.rows[k] == dead && Latest(gone, u) == Latest(db, u) + 1;
    PatchIgnoresTombstone(row, dead, e, p, now);
    EditShows(db, u, e, p, now, merge);
    EditShows(gone, u, e, p, now, merge);
  }

  lemma CommitShows(db: Database, u: UserId, e: Entity, row: Row)
    requires row.owner == u && row.deletedAt.None?
    ensures var k := KeyFor(e, u); var n := Latest(db, u) + 1;
            Commit(db, u, k, row).rows[k] == row.(num := n) &&
              View(Commit(db, u, k, row), u, e) == Some(ItemOf(row.(num := n)))
  {
  }

  /** What a field holds once a PATCH has come after a POST that left it as `posted`. */
  predicate PatchDecides(after: map<Field, Value>, posted: map<Field, Value>, p: Patch, f: Field, wins: bool)
    requires f in p.fields
  {
    if wins then f in after && after[f] == p.fields[f]
    else (f in after <==> f in posted) && (f in after ==> after[f] == posted[f])
  }

  /** An accepted POST, whether it creates the row or replaces it, does not move the field clocks: a
      PATCH wins a field after it exactly if it would have won it before. So a PATCH older than the POST
      overwrites the POST's value exactly where the field has no stamp or an older one. */
  lemma PostLeavesFieldClocks(db: Database, u: UserId, e: Entity, fields: map<Field, Value>, at: Instant, p: Patch,
                              now: Instant, merge: Merger)
    requires LogOk(db) && OutcomeOf(db, Post(u, e, fields, at), merge).Accepted?
    ensures var post := Post(u, e, fields, at);
            var posted, stamps := AfterWrite(db, post, merge), Stored(db, post).stamps;
            var patched, k := AfterWrite(posted, Edit(u, e, p, now), merge), KeyFor(e, u);
            && k in posted.rows && k in patched.rows
            && Winners(posted.rows[k].stamps, p) == Winners(stamps, p)
            && forall f :: f in p.fields ==>
                 PatchDecides(patched.rows[k].fields, fields, p, f, f !in stamps || stamps[f] < p.at)
  {
    var post, k := Post(u, e, fields, at), KeyFor(e, u);
    StoresOwnRow(db, post, merge);
    var posted := AfterWrite(db, post, merge);
    var row := posted.rows[k];
    assert row.fields == fields && row.stamps == Stored(db, post).stamps && row.owner == u;
    PatchOnRow(posted, u, e, p, now, merge);
  }

  lemma PatchOnRow(db: Database, u: UserId, e: Entity, p: Patch, now: Instant, merge: Merger)
    requires Owns(db, u, e)
    ensures var row, patched := db.rows[KeyFor(e, u)], AfterWrite(db, Edit(u, e, p, now), merge);
            && KeyFor(e, u) in patched.rows
            && forall f :: f in p.fields ==>
                 PatchDecides(patched.rows[KeyFor(e, u)].fields, row.fields, p, f,
                                f !in row.stamps || row.stamps[f] < p.at)
  {
    var row, patched := db.rows[KeyFor(e, u)], AfterWrite(db, Edit(u, e, p, now), merge);
    forall f | f in p.fields
      ensures PatchDecides(patched.rows[KeyFor(e, u)].fields, row.fields, p, f,
                           f !in row.stamps || row.stamps[f] < p.at)
    {
      assert f in Winners(row.stamps, p) <==> (f !in row.stamps || row.stamps[f] < p.at);
    }
  }

  lemma FreshRowTakesAll(fields: map<Field, Value>, p: Patch)
    ensures Winners(map[], p) == p.fields.Keys
    ensures FieldMerge.Apply(Merged(fields, map[]), p).fields == fields + p.fields
  {
    assert Winners(map[], p) == p.fields.Keys;
  }

  /** In particular any later PATCH wins every field of an entity that a POST has just created. */
  lemma StalePatchBeatsPost(db: Database, u: UserId, e: Entity, fields: map<Field, Value>, at: Instant, p: Patch,
                            now: Instant, merge: Merger)
    requires LogOk(db) && !NaturalKey(e.table) && KeyFor(e, u) !in db.rows && p.fields != map[]
    ensures var posted := AfterWrite(db, Post(u, e, fields, at), merge);
            && OutcomeOf(posted, Edit(u, e, p, now), merge).Accepted?
            && View(AfterWrite(posted, Edit(u, e, p, now), merge), u, e) ==
              Some(Item(fields + p.fields, [], Latest(db, u) + 2, now))
  {
    var posted, k := AfterWrite(db, Post(u, e, fields, at), merge), KeyFor(e, u);
    PostLeavesFieldClocks(db, u, e, fields, at, p, now, merge);
    FreshRowTakesAll(fields, p);
    assert posted.rows[k] == Blank(u, fields).(updatedAt := at, num := Latest(db, u) + 1);
    assert Latest(posted, u) == Latest(db, u) + 1;
  }
}
