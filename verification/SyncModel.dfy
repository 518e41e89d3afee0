/** The synced tables of the database and the transactions that write them.

    The seven domain stores differ only in their columns, so one row type covers them; what sets
    them apart is how a row is identified and which write endpoints a table has. */
module SyncModel {
  import opened Options
  import opened Rfc3339
  import opened FieldMerge

  type UserId = string
  type Id = string
  /** Encoded CRDT state or update. */
  type Bytes = seq<bv8>
  /** `crdt.ApplyTextUpdate`, left uninterpreted: it may also fail. */
  type Merger = (Bytes, Bytes) -> Option<Bytes>

  datatype Table =
    Tasks | Notes | OvertimeEntries | OvertimeMonthMeta | CalendarEvents | AbsenceDays | DailyEntries

  /** The order in which the purge and the change feed visit the tables. */
  const TABLES := [Tasks, Notes, OvertimeEntries, OvertimeMonthMeta, CalendarEvents, AbsenceDays, DailyEntries]

  function TableIndex(t: Table): (i: nat)
    ensures i < |TABLES| && TABLES[i] == t
  {
    match t
    case Tasks => 0
    case Notes => 1
    case OvertimeEntries => 2
    case OvertimeMonthMeta => 3
    case CalendarEvents => 4
    case AbsenceDays => 5
    case DailyEntries => 6
  }

  /** Tables whose primary key is (user_id, natural key) rather than a client-chosen id. */
  predicate NaturalKey(t: Table) { t.OvertimeMonthMeta? || t.DailyEntries? }

  /** What a client calls an entity: the change envelope's type and id. */
  datatype Entity = Entity(table: Table, id: Id)

  /** A primary key. */
  datatype Key = Key(entity: Entity, scope: Option<UserId>)

  function KeyFor(e: Entity, u: UserId): Key { Key(e, if NaturalKey(e.table) then Some(u) else None) }

  datatype Row = Row(
    owner: UserId,
    fields: map<Field, Value>,
    stamps: map<Field, Instant>,
    content: Bytes,
    num: nat,
    updatedAt: Instant,
    deletedAt: Option<Instant>)

  /** A row of user_sync_counters. */
  datatype Counter = Counter(nextSeq: nat, purgedBefore: nat)

  datatype Database = Database(rows: map<Key, Row>, counters: map<UserId, Counter>)

  const EMPTY := Database(map[], map[])

  function Latest(db: Database, u: UserId): nat { if u in db.counters then db.counters[u].nextSeq else 0 }

  function Watermark(db: Database, u: UserId): nat { if u in db.counters then db.counters[u].purgedBefore else 0 }

  // ---- Writes ----

  datatype Write =
    | Post(user: UserId, entity: Entity, fields: map<Field, Value>, at: Instant)
    | Edit(user: UserId, entity: Entity, patch: Patch, now: Instant)
    | Delete(user: UserId, entity: Entity, now: Instant)
    | MergeContent(user: UserId, entity: Entity, update: Bytes, at: Instant)

  /** The endpoints that exist: the natural-key tables have no POST, daily entries no PATCH, and
      only the two tables with CRDT content take content updates. */
  predicate Offered(w: Write)
  {
    match w
    case Post(_, e, _, _) => !NaturalKey(e.table)
    case Edit(_, e, _, _) => !e.table.DailyEntries?
    case Delete(_, _, _) => true
    case MergeContent(_, e, _, _) => e.table.Notes? || e.table.DailyEntries?
  }

  datatype Outcome = Accepted(num: nat) | Unchanged | NotFound | Forbidden | Conflict | BadUpdate

  /** What a write's transaction decides before it takes a number: give up, or store this row. */
  datatype Plan = Refuse(outcome: Outcome) | Store(row: Row)

  const BLANK_MONTH: map<Field, Value> := map["colaborador" := "", "cedula" := ""]

  function Blank(u: UserId, fields: map<Field, Value>): Row { Row(u, fields, map[], [], 0, 0, None) }

  function Lookup(db: Database, w: Write): Option<Row>
  {
    var k := KeyFor(w.entity, w.user);
    if k in db.rows then Some(db.rows[k]) else None
  }

  function PlanPost(found: Option<Row>, u: UserId, fields: map<Field, Value>, at: Instant): Plan
  {
    match found
    case None => Store(Blank(u, fields).(updatedAt := at))
    case Some(row) =>
      if row.owner != u then Refuse(Forbidden)
      else if at <= row.updatedAt then Refuse(Conflict)
      else Store(row.(fields := fields, updatedAt := at, deletedAt := None))
  }

  function PlanEdit(found: Option<Row>, e: Entity, u: UserId, p: Patch, now: Instant): Plan
  {
    if found.None? && !NaturalKey(e.table) then Refuse(NotFound)
    else if found.Some? && found.value.owner != u then Refuse(Forbidden)
    else
      var row := if found.Some? then found.value else Blank(u, BLANK_MONTH);
      var merged := FieldMerge.Apply(Merged(row.fields, row.stamps), p);
      if Winners(row.stamps, p) == {} then Refuse(Unchanged)
      else Store(row.(fields := merged.fields, stamps := merged.stamps, updatedAt := now, deletedAt := None))
  }

  function PlanDelete(found: Option<Row>, u: UserId, now: Instant): Plan
  {
    if found.None? || found.value.deletedAt.Some? then Refuse(NotFound)
    else if found.value.owner != u then Refuse(Forbidden)
    else Store(found.value.(deletedAt := Some(now), updatedAt := now))
  }

  /** A note must exist and stays deleted if it was; a daily entry is created or revived. */
  function PlanContent(found: Option<Row>, e: Entity, u: UserId, update: Bytes, at: Instant, merge: Merger): Plan
  {
    if found.None? && !NaturalKey(e.table) then Refuse(NotFound)
    else if found.Some? && found.value.owner != u then Refuse(Forbidden)
    else
      var row := if found.Some? then found.value else Blank(u, map[]);
      match merge(row.content, update)
      case None => Refuse(BadUpdate)
      case Some(content) =>
        var stored := row.(content := content, updatedAt := at);
        Store(if NaturalKey(e.table) then stored.(deletedAt := None) else stored)
  }

  function PlanOf(db: Database, w: Write, merge: Merger): Plan
  {
    var found := Lookup(db, w);
    match w
    case Post(u, _, fields, at) => PlanPost(found, u, fields, at)
    case Edit(u, e, p, now) => PlanEdit(found, e, u, p, now)
    case Delete(u, _, now) => PlanDelete(found, u, now)
    case MergeContent(u, e, update, at) => PlanContent(found, e, u, update, at, merge)
  }

  /** `NextSeq` and the row write, committed together. */
  function Commit(db: Database, u: UserId, k: Key, row: Row): Database
  {
    var n := Latest(db, u) + 1;
    Database(db.rows[k := row.(num := n)], db.counters[u := Counter(n, Watermark(db, u))])
  }

  function AfterWrite(db: Database, w: Write, merge: Merger): Database
  {
    match PlanOf(db, w, merge)
    case Refuse(_) => db
    case Store(row) => Commit(db, w.user, KeyFor(w.entity, w.user), row)
  }

  function OutcomeOf(db: Database, w: Write, merge: Merger): Outcome
  {
    match PlanOf(db, w, merge)
    case Refuse(outcome) => outcome
    case Store(_) => Accepted(Latest(db, w.user) + 1)
  }

  // ---- Purge ----

  /** `deleted_at IS NOT NULL AND deleted_at < ?`, a comparison of texts. */
  predicate Purgeable(row: Row, cutoff: Instant)
  {
    row.deletedAt.Some? && TextBefore(Format(row.deletedAt.value), Format(cutoff))
  }

  ghost function MaxOf(s: set<nat>): (m: nat)
    ensures s == {} ==> m == 0
    ensures s != {} ==> m in s
    ensures forall x :: x in s ==> x <= m
  {
    if s == {} then 0
    else
      var x :| x in s;
      var rest := s - {x};
      assert s == rest + {x};
      var m := MaxOf(rest);
      if x > m then x else m
  }

  ghost function PurgedSeqs(db: Database, u: UserId, cutoff: Instant): set<nat>
  {
    set k | k in db.rows && db.rows[k].owner == u && Purgeable(db.rows[k], cutoff) :: db.rows[k].num
  }

  function Max(a: nat, b: nat): nat { if a < b then b else a }

  ghost function AfterPurge(db: Database, cutoff: Instant): Database
  {
    Database(
      map k | k in db.rows && !Purgeable(db.rows[k], cutoff) :: db.rows[k],
      map u | u in db.counters ::
        db.counters[u].(purgedBefore := Max(db.counters[u].purgedBefore, MaxOf(PurgedSeqs(db, u, cutoff)))))
  }

  /** The part of `deleteUserAccount` that concerns the synced tables. */
  function AfterAccountDeletion(db: Database, u: UserId): Database
  {
    Database(map k | k in db.rows && db.rows[k].owner != u :: db.rows[k], db.counters - {u})
  }

  // ---- Runs ----

  datatype Step = Submit(write: Write) | Purge(cutoff: Instant) | DeleteAccount(user: UserId)

  ghost function After(db: Database, s: Step, merge: Merger): Database
  {
    match s
    case Submit(w) => AfterWrite(db, w, merge)
    case Purge(cutoff) => AfterPurge(db, cutoff)
    case DeleteAccount(u) => AfterAccountDeletion(db, u)
  }

  ghost function Run(db: Database, steps: seq<Step>, merge: Merger): Database
  {
    if steps == [] then db else After(Run(db, steps[..|steps| - 1], merge), steps[|steps| - 1], merge)
  }

  // ---- What a client sees ----

  /** The `data` of a change: everything of a row that is sent to clients. */
  datatype Item = Item(fields: map<Field, Value>, content: Bytes, num: nat, updatedAt: Instant)

  function ItemOf(row: Row): Item { Item(row.fields, row.content, row.num, row.updatedAt) }

  predicate Owns(db: Database, u: UserId, e: Entity)
  {
    KeyFor(e, u) in db.rows && db.rows[KeyFor(e, u)].owner == u
  }

  predicate Live(db: Database, u: UserId, e: Entity)
  {
    Owns(db, u, e) && db.rows[KeyFor(e, u)].deletedAt.None?
  }

  /** What a client that is up to date holds for an entity: the live row's item, or nothing. */
  function View(db: Database, u: UserId, e: Entity): Option<Item>
  {
    if Live(db, u, e) then Some(ItemOf(db.rows[KeyFor(e, u)])) else None
  }
}
