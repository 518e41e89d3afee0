/** A note's metadata and its content are edited through two endpoints that do not interfere. */
module NoteStreams {
  import opened SyncModel

  /** A PATCH or a content update of one note. */
  predicate OnNote(s: Step, u: UserId, e: Entity)
  {
    s.Submit? && s.write.user == u && s.write.entity == e && (s.write.Edit? || s.write.MergeContent?)
  }

  predicate AllOnNote(steps: seq<Step>, u: UserId, e: Entity)
  {
    forall i :: 0 <= i < |steps| ==> OnNote(steps[i], u, e)
  }

  /** The sub-stream of PATCHes, or of content updates, in order. */
  function Stream(steps: seq<Step>, edits: bool): seq<Step>
  {
    if steps == [] then []
    else
      var front, last := Stream(steps[..|steps| - 1], edits), steps[|steps| - 1];
      if last.Submit? && last.write.Edit? == edits then front + [last] else front
  }

  /** Two versions of the note agree on what PATCH governs, and on the content. */
  predicate SameMetadata(a: Row, b: Row) { a.fields == b.fields && a.stamps == b.stamps && a.deletedAt == b.deletedAt }

  lemma EditActsOnMetadata(a: Database, b: Database, u: UserId, e: Entity, w: Write, merge: Merger)
    requires w.Edit? && w.user == u && w.entity == e && Owns(a, u, e) && Owns(b, u, e)
    requires SameMetadata(a.rows[KeyFor(e, u)], b.rows[KeyFor(e, u)])
    ensures var a', b' := AfterWrite(a, w, merge), AfterWrite(b, w, merge);
            Owns(a', u, e) && Owns(b', u, e) && SameMetadata(a'.rows[KeyFor(e, u)], b'.rows[KeyFor(e, u)]) &&
            a'.rows[KeyFor(e, u)].content == a.rows[KeyFor(e, u)].content
  {
  }

  lemma ContentActsOnContent(a: Database, b: Database, u: UserId, e: Entity, w: Write, merge: Merger)
    requires w.MergeContent? && w.user == u && w.entity == e && e.table.Notes? && Owns(a, u, e) && Owns(b, u, e)
    requires a.rows[KeyFor(e, u)].content == b.rows[KeyFor(e, u)].content
    ensures var a', b' := AfterWrite(a, w, merge), AfterWrite(b, w, merge);
            Owns(a', u, e) && Owns(b', u, e) && a'.rows[KeyFor(e, u)].content == b'.rows[KeyFor(e, u)].content &&
            SameMetadata(a'.rows[KeyFor(e, u)], a.rows[KeyFor(e, u)])
  {
  }

  lemma Continue(db: Database, steps: seq<Step>, s: Step, merge: Merger)
    ensures Run(db, steps + [s], merge) == After(Run(db, steps, merge), s, merge)
  {
    assert (steps + [s])[..|steps|] == steps;
  }

  /** However PATCHes and content updates of a note interleave, the note ends up with the fields,
      field timestamps and tombstone the PATCHes alone give it, and the content the content
      updates alone give it, whatever the merge function does. */
  lemma {:induction false} StreamsAreIndependent(db: Database, steps: seq<Step>, u: UserId, e: Entity, merge: Merger)
    requires e.table.Notes? && Owns(db, u, e) && AllOnNote(steps, u, e)
    ensures var k := KeyFor(e, u);
            var both, edits, contents := Run(db, steps, merge), Run(db, Stream(steps, true), merge),
              Run(db, Stream(steps, false), merge);
            Owns(both, u, e) && Owns(edits, u, e) && Owns(contents, u, e) &&
            SameMetadata(both.rows[k], edits.rows[k]) && both.rows[k].content == contents.rows[k].content
  {
    if steps == [] {
    } else {
      var n := |steps| - 1;
      var front, s := steps[..n], steps[n];
      StreamsAreIndependent(db, front, u, e, merge);
      assert OnNote(s, u, e);
      var both := Run(db, front, merge);
      if s.write.Edit? {
        Continue(db, Stream(front, true), s, merge);
        EditActsOnMetadata(both, Run(db, Stream(front, true), merge), u, e, s.write, merge);
      } else {
        Continue(db, Stream(front, false), s, merge);
        ContentActsOnContent(both, Run(db, Stream(front, false), merge), u, e, s.write, merge);
      }
    }
  }
}
