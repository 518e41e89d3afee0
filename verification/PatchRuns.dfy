/** The per-field merge laws, carried over to runs of PATCH requests on a stored row. */
module PatchRuns {
  import opened Rfc3339
  import opened FieldMerge
  import opened MergeOrder
  import opened SyncModel

  /** The PATCH requests `ps` on one row, each handled at its own server time. */
  function Requests(u: UserId, e: Entity, ps: seq<Patch>, nows: seq<Instant>): seq<Step>
    requires |ps| == |nows|
  {
    seq(|ps|, i requires 0 <= i < |ps| => Submit(Edit(u, e, ps[i], nows[i])))
  }

  function MergedOf(row: Row): Merged { Merged(row.fields, row.stamps) }

  /** PATCH may be sent for an own row, and in the month table also for a missing one. */
  predicate CanPatch(db: Database, u: UserId, e: Entity)
  {
    Owns(db, u, e) || (e.table.OvertimeMonthMeta? && KeyFor(e, u) !in db.rows)
  }

  /** What a PATCH starts from: the row, or the blank month that it would create. */
  function MergedAt(db: Database, u: UserId, e: Entity): Merged
  {
    if KeyFor(e, u) in db.rows then MergedOf(db.rows[KeyFor(e, u)]) else Merged(BLANK_MONTH, map[])
  }

  lemma OneRequest(db: Database, u: UserId, e: Entity, p: Patch, now: Instant, merge: Merger)
    requires CanPatch(db, u, e)
    ensures var db' := AfterWrite(db, Edit(u, e, p, now), merge);
            CanPatch(db', u, e) && MergedAt(db', u, e) == FieldMerge.Apply(MergedAt(db, u, e), p)
  {
    if Winners(MergedAt(db, u, e).stamps, p) == {} { SpentChangesNothing(MergedAt(db, u, e), p); }
  }

  /** A PATCH-only run merges its patches one after the other. */
  lemma {:induction false} RunMerges(db: Database, u: UserId, e: Entity, ps: seq<Patch>, nows: seq<Instant>,
                                     merge: Merger)
    requires CanPatch(db, u, e) && |ps| == |nows|
    ensures var db' := Run(db, Requests(u, e, ps, nows), merge);
            CanPatch(db', u, e) && MergedAt(db', u, e) == ApplyAll(MergedAt(db, u, e), ps)
  {
    if ps == [] {
    } else {
      var n := |ps| - 1;
      RunMerges(db, u, e, ps[..n], nows[..n], merge);
      assert Requests(u, e, ps, nows)[..n] == Requests(u, e, ps[..n], nows[..n]);
      OneRequest(Run(db, Requests(u, e, ps[..n], nows[..n]), merge), u, e, ps[n], nows[n], merge);
    }
  }

  /** Delivered in any order, at any server times, PATCHes whose newest values agree leave the same
      columns and the same `field_updated_at`, also when the first of them creates the month. */
  lemma RequestsCommute(db: Database, u: UserId, e: Entity, ps: seq<Patch>, qs: seq<Patch>, nows: seq<Instant>,
                        laters: seq<Instant>, merge: Merger)
    requires CanPatch(db, u, e) && |ps| == |nows| && |qs| == |laters|
    requires multiset(ps) == multiset(qs) && forall f :: NewestAgree(MergedAt(db, u, e), ps, f)
    ensures MergedAt(Run(db, Requests(u, e, ps, nows), merge), u, e) ==
            MergedAt(Run(db, Requests(u, e, qs, laters), merge), u, e)
  {
    RunMerges(db, u, e, ps, nows, merge);
    RunMerges(db, u, e, qs, laters, merge);
    OrderExact(MergedAt(db, u, e), ps);
  }

  lemma AppliedOneMore(m: Merged, ps: seq<Patch>, p: Patch)
    ensures ApplyAll(m, ps + [p]) == FieldMerge.Apply(ApplyAll(m, ps), p)
  {
    assert (ps + [p])[..|ps|] == ps;
  }

  lemma {:induction false} AppliedInTwoRuns(m: Merged, ps: seq<Patch>, qs: seq<Patch>)
    ensures ApplyAll(m, ps + qs) == ApplyAll(ApplyAll(m, ps), qs)
  {
    if qs == [] {
      assert ps + qs == ps;
    } else {
      var front, last := qs[..|qs| - 1], qs[|qs| - 1];
      AppliedInTwoRuns(m, ps, front);
      AppliedOneMore(m, ps + front, last);
      AppliedOneMore(ApplyAll(m, ps), front, last);
      assert ps + qs == ps + front + [last] && qs == front + [last];
    }
  }

  /** Replaying a PATCH that a PATCH-only run already handled changes nothing and takes no
      number, so it causes no sync event. */
  lemma ReplayTakesNoNumber(db: Database, u: UserId, e: Entity, before: seq<Patch>, p: Patch, after: seq<Patch>,
                            nows: seq<Instant>, now: Instant, merge: Merger)
    requires CanPatch(db, u, e) && |nows| == |before + [p] + after|
    ensures var db' := Run(db, Requests(u, e, before + [p] + after, nows), merge);
            OutcomeOf(db', Edit(u, e, p, now), merge) == Unchanged && AfterWrite(db', Edit(u, e, p, now), merge) == db'
  {
    var m := MergedAt(db, u, e);
    RunMerges(db, u, e, before + [p] + after, nows, merge);
    AppliedInTwoRuns(m, before + [p], after);
    ReplayChangesNothing(m, before, p, after);
  }
}
