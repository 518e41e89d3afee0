/** Row-level last-write-wins: a POST is accepted only over an older row, but PATCH, delete and content
    writes set the row's `updated_at` without looking at it. When this still orders the POSTs. */
module RowClock {
  import opened Rfc3339
  import opened FieldMerge
  import opened SyncModel
  import opened SyncLog

  /** The `updated_at` an accepted write leaves: the client's for POST and content, else the server's. */
  function Stamp(w: Write): Instant
  {
    match w
    case Post(_, _, _, at) => at
    case Edit(_, _, _, now) => now
    case Delete(_, _, now) => now
    case MergeContent(_, _, _, at) => at
  }

  function Clock(db: Database, u: UserId, e: Entity): Instant
    requires KeyFor(e, u) in db.rows
  {
    db.rows[KeyFor(e, u)].updatedAt
  }

  /** The row clock runs backwards exactly for a PATCH, a delete or a content update with an older
      stamp, never for a POST. */
  lemma ClockRunsBackwards(db: Database, w: Write, merge: Merger)
    requires LogOk(db) && OutcomeOf(db, w, merge).Accepted? && Owns(db, w.user, w.entity)
    ensures Owns(AfterWrite(db, w, merge), w.user, w.entity)
    ensures Clock(AfterWrite(db, w, merge), w.user, w.entity) < Clock(db, w.user, w.entity) <==>
            !w.Post? && Stamp(w) < Clock(db, w.user, w.entity)
  {
    StoresOwnRow(db, w, merge);
  }

  ghost predicate PostAccepted(db: Database, u: UserId, e: Entity, fields: map<Field, Value>, at: Instant,
                               merge: Merger)
  {
    OutcomeOf(db, Post(u, e, fields, at), merge).Accepted?
  }

  lemma PostAfter(db: Database, w: Write, fields: map<Field, Value>, at: Instant, merge: Merger)
    requires LogOk(db) && OutcomeOf(db, w, merge).Accepted?
    ensures PostAccepted(AfterWrite(db, w, merge), w.user, w.entity, fields, at, merge) <==> Stamp(w) < at
  {
    StoresOwnRow(db, w, merge);
  }

  /** After an accepted write, a POST no newer than the row was before is accepted for some time
      exactly if the write was no POST and its stamp is below the row's clock; the times are then those
      above the stamp. */
  lemma WhenAnOldPostGetsIn(db: Database, w: Write, fields: map<Field, Value>, merge: Merger)
    requires LogOk(db) && OutcomeOf(db, w, merge).Accepted? && Owns(db, w.user, w.entity)
    ensures var clock, after := Clock(db, w.user, w.entity), AfterWrite(db, w, merge);
            && ((exists at: Instant :: at <= clock && PostAccepted(after, w.user, w.entity, fields, at, merge)) <==>
                !w.Post? && Stamp(w) < clock)
            && forall at: Instant :: PostAccepted(after, w.user, w.entity, fields, at, merge) <==> Stamp(w) < at
  {
    var clock, after := Clock(db, w.user, w.entity), AfterWrite(db, w, merge);
    StoresOwnRow(db, w, merge);
    forall at: Instant ensures PostAccepted(after, w.user, w.entity, fields, at, merge) <==> Stamp(w) < at {
      PostAfter(db, w, fields, at, merge);
    }
    assert PostAccepted(after, w.user, w.entity, fields, clock, merge) <==> Stamp(w) < clock;
  }

  // ---- Over runs ----

  predicate AcceptedPost(db: Database, s: Step, u: UserId, e: Entity, merge: Merger)
  {
    s.Submit? && s.write.Post? && s.write.user == u && s.write.entity == e && OutcomeOf(db, s.write, merge).Accepted?
  }

  /** The times of the accepted POSTs of `u` on an entity, since its row was last created. */
  ghost function PostsSince(steps: seq<Step>, u: UserId, e: Entity, merge: Merger): seq<Instant>
  {
    if steps == [] then []
    else
      var front, last := steps[..|steps| - 1], steps[|steps| - 1];
      var db := Run(EMPTY, front, merge);
      if KeyFor(e, u) !in After(db, last, merge).rows then []
      else if AcceptedPost(db, last, u, e, merge) then PostsSince(front, u, e, merge) + [last.write.at]
      else PostsSince(front, u, e, merge)
  }

  /** An accepted write of `u`, other than a POST, to a row of `u`. */
  predicate TouchesClock(db: Database, s: Step, u: UserId, e: Entity, merge: Merger)
  {
    && s.Submit? && !s.write.Post? && s.write.user == u && s.write.entity == e
    && Owns(db, u, e) && OutcomeOf(db, s.write, merge).Accepted?
  }

  /** No accepted PATCH, delete or content update of the entity is stamped before the row's clock. */
  ghost predicate ClockKept(steps: seq<Step>, u: UserId, e: Entity, merge: Merger)
  {
    steps == [] ||
    var front, last := steps[..|steps| - 1], steps[|steps| - 1];
    var db := Run(EMPTY, front, merge);
    && ClockKept(front, u, e, merge)
    && (TouchesClock(db, last, u, e, merge) ==> Clock(db, u, e) <= Stamp(last.write))
  }

  predicate Increase(s: seq<Instant>) { forall i, j :: 0 <= i < j < |s| ==> s[i] < s[j] }

  lemma OneMoreIncrease(s: seq<Instant>, t: Instant)
    requires Increase(s)
    ensures Increase(s + [t]) <==> s == [] || s[|s| - 1] < t
  {
    if s != [] && Increase(s + [t]) {
      assert (s + [t])[|s| - 1] < (s + [t])[|s|];
    }
  }

  /** What one step does to the row of an entity one has posted. */
  lemma StepOnOwnRow(db: Database, s: Step, u: UserId, e: Entity, merge: Merger)
    requires LogOk(db) && !NaturalKey(e.table) && Owns(db, u, e) && KeyFor(e, u) in After(db, s, merge).rows
    ensures var after := After(db, s, merge);
            && Owns(after, u, e)
            && Clock(after, u, e) ==
               if s.Submit? && s.write.user == u && s.write.entity == e && OutcomeOf(db, s.write, merge).Accepted?
               then Stamp(s.write) else Clock(db, u, e)
  {
    if s.Submit? { StoresOwnRow(db, s.write, merge); }
  }

  lemma {:induction false} PostedMeansOwned(steps: seq<Step>, u: UserId, e: Entity, merge: Merger)
    requires !NaturalKey(e.table) && PostsSince(steps, u, e, merge) != []
    ensures Owns(Run(EMPTY, steps, merge), u, e)
  {
    var front, last := steps[..|steps| - 1], steps[|steps| - 1];
    var db := Run(EMPTY, front, merge);
    LogHoldsOnEveryRun(front, merge);
    if PostsSince(front, u, e, merge) != [] {
      PostedMeansOwned(front, u, e, merge);
      StepOnOwnRow(db, last, u, e, merge);
    } else {
      StoresOwnRow(db, last.write, merge);
    }
  }

  /** The posts are in order, and the row is the writer's and no older than the newest. */
  predicate InOrder(posts: seq<Instant>, db: Database, u: UserId, e: Entity)
  {
    Increase(posts) && (posts != [] ==> Owns(db, u, e) && posts[|posts| - 1] <= Clock(db, u, e))
  }

  lemma AcceptedPostKeepsOrder(db: Database, w: Write, posts: seq<Instant>, merge: Merger)
    requires LogOk(db) && w.Post? && OutcomeOf(db, w, merge).Accepted? && InOrder(posts, db, w.user, w.entity)
    ensures InOrder(posts + [w.at], AfterWrite(db, w, merge), w.user, w.entity)
  {
    StoresOwnRow(db, w, merge);
    OneMoreIncrease(posts, w.at);
  }

  lemma OtherStepKeepsOrder(db: Database, s: Step, u: UserId, e: Entity, posts: seq<Instant>, merge: Merger)
    requires LogOk(db) && !NaturalKey(e.table) && InOrder(posts, db, u, e) && KeyFor(e, u) in After(db, s, merge).rows
    requires !AcceptedPost(db, s, u, e, merge)
    requires TouchesClock(db, s, u, e, merge) ==> Clock(db, u, e) <= Stamp(s.write)
    ensures InOrder(posts, After(db, s, merge), u, e)
  {
    if posts != [] { StepOnOwnRow(db, s, u, e, merge); }
  }

  lemma StepKeepsOrder(db: Database, s: Step, u: UserId, e: Entity, posts: seq<Instant>, merge: Merger)
    requires LogOk(db) && !NaturalKey(e.table) && InOrder(posts, db, u, e) && KeyFor(e, u) in After(db, s, merge).rows
    requires TouchesClock(db, s, u, e, merge) ==> Clock(db, u, e) <= Stamp(s.write)
    ensures InOrder(if AcceptedPost(db, s, u, e, merge) then posts + [s.write.at] else posts, After(db, s, merge), u, e)
  {
    if AcceptedPost(db, s, u, e, merge) {
      AcceptedPostKeepsOrder(db, s.write, posts, merge);
    } else {
      OtherStepKeepsOrder(db, s, u, e, posts, merge);
    }
  }

  /** If every PATCH, delete and content update of an entity is stamped no earlier than its row, the
      accepted POSTs are strictly ordered in time, and the row is never older than the newest. */
  lemma {:induction false} PostsIncrease(steps: seq<Step>, u: UserId, e: Entity, merge: Merger)
    requires !NaturalKey(e.table) && ClockKept(steps, u, e, merge)
    ensures InOrder(PostsSince(steps, u, e, merge), Run(EMPTY, steps, merge), u, e)
  {
    if steps == [] {
    } else {
      var front, last := steps[..|steps| - 1], steps[|steps| - 1];
      PostsIncrease(front, u, e, merge);
      LogHoldsOnEveryRun(front, merge);
      if KeyFor(e, u) in After(Run(EMPTY, front, merge), last, merge).rows {
        StepKeepsOrder(Run(EMPTY, front, merge), last, u, e, PostsSince(front, u, e, merge), merge);
      }
    }
  }

  /** The POSTs stay in order when one more is sent. */
  ghost predicate OrderedWith(steps: seq<Step>, u: UserId, e: Entity, fields: map<Field, Value>, at: Instant,
                              merge: Merger)
  {
    Increase(PostsSince(steps + [Submit(Post(u, e, fields, at))], u, e, merge))
  }

  /** On an own row a POST is accepted exactly over an older clock, and its time is then one more. */
  lemma {:induction false} PostsAfterOneMore(steps: seq<Step>, u: UserId, e: Entity, fields: map<Field, Value>,
                                             at: Instant, merge: Merger)
    requires !NaturalKey(e.table) && Owns(Run(EMPTY, steps, merge), u, e)
    ensures var posts := PostsSince(steps, u, e, merge);
            PostsSince(steps + [Submit(Post(u, e, fields, at))], u, e, merge) ==
            if Clock(Run(EMPTY, steps, merge), u, e) < at then posts + [at] else posts
  {
    var more, db := steps + [Submit(Post(u, e, fields, at))], Run(EMPTY, steps, merge);
    assert more[..|steps|] == steps && more[|steps|] == Submit(Post(u, e, fields, at));
    assert KeyFor(e, u) in After(db, more[|steps|], merge).rows;
    assert AcceptedPost(db, more[|steps|], u, e, merge) <==> Clock(db, u, e) < at;
  }

  lemma {:induction false} OnePostMore(steps: seq<Step>, u: UserId, e: Entity, fields: map<Field, Value>, at: Instant,
                                       merge: Merger)
    requires !NaturalKey(e.table) && Owns(Run(EMPTY, steps, merge), u, e)
    requires var posts := PostsSince(steps, u, e, merge); posts != [] && Increase(posts)
    ensures var posts := PostsSince(steps, u, e, merge);
            OrderedWith(steps, u, e, fields, at, merge) <==>
            (Clock(Run(EMPTY, steps, merge), u, e) < at ==> posts[|posts| - 1] < at)
  {
    PostsAfterOneMore(steps, u, e, fields, at, merge);
    OneMoreIncrease(PostsSince(steps, u, e, merge), at);
  }

  /** Whatever its time, one more POST keeps the POSTs in order. */
  ghost predicate OrderedWithAny(steps: seq<Step>, u: UserId, e: Entity, fields: map<Field, Value>, merge: Merger)
  {
    forall at: Instant :: OrderedWith(steps, u, e, fields, at, merge)
  }

  /** And that is when: as long as the POSTs are in order, every further POST keeps them so exactly if
      the row's clock has not fallen below the newest. */
  lemma {:induction false} NextPostIsNewer(steps: seq<Step>, u: UserId, e: Entity, fields: map<Field, Value>,
                                           posts: seq<Instant>, db: Database, merge: Merger)
    requires !NaturalKey(e.table) && posts == PostsSince(steps, u, e, merge) && db == Run(EMPTY, steps, merge)
    requires posts != [] && Increase(posts)
    ensures Owns(db, u, e)
    ensures OrderedWithAny(steps, u, e, fields, merge) <==> posts[|posts| - 1] <= Clock(db, u, e)
  {
    PostedMeansOwned(steps, u, e, merge);
    var clock, newest := Clock(db, u, e), posts[|posts| - 1];
    OnePostMore(steps, u, e, fields, newest, merge);
    if newest <= clock {
      forall at: Instant ensures OrderedWith(steps, u, e, fields, at, merge) {
        OnePostMore(steps, u, e, fields, at, merge);
      }
    }
  }
}
