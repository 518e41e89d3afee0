/** A request among others: the worlds in which its calls take place, while any number of other requests and
    actions commit between those calls and any of the calls may fail. */
module SessionSchedules {
  import opened Options
  import opened Rfc3339
  import opened SessionModel
  import opened SessionInvariant
  import opened SessionGuarantees
  import opened SessionProgress
  import opened SessionEffects
  import opened SessionAnswers

  // ---- What a handler meets ----

  /** What one call of a handler finds: the tables as the others have left them, the clock, the lifetime
      setting, and whether the call fails. */
  datatype Moment = Moment(db: Db, now: Instant, ttl: nat, fails: bool)

  predicate ClockCheck(pc: Pc) { pc.CheckLeeway? || pc.CheckExpiry? }

  /** The request's own step at a moment; a clock check cannot fail. */
  ghost function OwnStep(w: World, q: ReqId, fails: bool): World
    requires q in w.requests
  {
    Next(w, if fails && !ClockCheck(w.requests[q].pc) then Fail(q) else Succeed(q))
  }

  predicate ByOthers(actions: seq<Action>, q: ReqId)
  {
    forall i :: 0 <= i < |actions| ==> actions[i] != Succeed(q) && actions[i] != Fail(q)
  }

  /** Between one own step and the next the others have taken any steps. */
  ghost predicate Interleaved(w: World, next: World, q: ReqId, fails: bool)
  {
    q in w.requests && exists others :: ByOthers(others, q) && next == Run(OwnStep(w, q, fails), others)
  }

  /** The worlds in which the request takes its steps, and what it meets of them. */
  ghost predicate Schedule(seen: seq<World>, moments: seq<Moment>, q: ReqId)
  {
    && |seen| == |moments|
    && (forall i :: 0 <= i < |seen| ==> Meets(moments[i], seen[i], q))
    && (forall i :: 0 <= i < |seen| - 1 ==> Interleaved(seen[i], seen[i + 1], q, moments[i].fails))
  }

  predicate Meets(m: Moment, w: World, q: ReqId)
  {
    m.db == w.db && m.now == w.now && m.ttl == w.ttl && q in w.requests && HashesDiffer(m.db)
  }

  lemma OtherLeavesRequest(w: World, a: Action, q: ReqId)
    requires q in w.requests && a != Succeed(q) && a != Fail(q)
    ensures q in Next(w, a).requests && Next(w, a).requests[q] == w.requests[q]
  {
    if a.Succeed? && Enabled(w, a) { OthersLeaveIt(w, a.req, q); }
  }

  lemma {:induction false} OthersLeaveRequest(w: World, actions: seq<Action>, q: ReqId)
    requires q in w.requests && ByOthers(actions, q)
    ensures q in Run(w, actions).requests && Run(w, actions).requests[q] == w.requests[q]
  {
    if actions == [] {
    } else {
      var n := |actions| - 1;
      OthersLeaveRequest(w, actions[..n], q);
      OtherLeavesRequest(Run(w, actions[..n]), actions[n], q);
    }
  }

  lemma OwnStepKeepsRequest(w: World, q: ReqId, fails: bool)
    requires q in w.requests
    ensures q in OwnStep(w, q, fails).requests
    ensures var r := OwnStep(w, q, fails).requests[q]; r == w.requests[q].(pc := r.pc)
  {
  }

  ghost function PcAfter(w: World, q: ReqId, fails: bool): Pc
    requires q in w.requests
  {
    OwnStepKeepsRequest(w, q, fails);
    OwnStep(w, q, fails).requests[q].pc
  }

  /** The next world the request sees has its own step behind it. */
  lemma Resumes(seen: seq<World>, moments: seq<Moment>, q: ReqId, i: nat)
    requires Schedule(seen, moments, q) && i + 1 < |seen|
    ensures Meets(moments[i], seen[i], q) && Meets(moments[i + 1], seen[i + 1], q)
    ensures seen[i + 1].requests[q] == seen[i].requests[q].(pc := PcAfter(seen[i], q, moments[i].fails))
  {
    assert Interleaved(seen[i], seen[i + 1], q, moments[i].fails);
    var others :| ByOthers(others, q) && seen[i + 1] == Run(OwnStep(seen[i], q, moments[i].fails), others);
    OwnStepKeepsRequest(seen[i], q, moments[i].fails);
    OthersLeaveRequest(OwnStep(seen[i], q, moments[i].fails), others, q);
  }

  // ---- What the machine guarantees along the way ----

  lemma ReachableOn(w: World, a: Action)
    requires Reachable(w)
    ensures Reachable(Next(w, a))
  {
    var now: Instant, ttl: nat, actions :| w == Run(Start(now, ttl), actions);
    assert (actions + [a])[..|actions|] == actions;
    assert Next(w, a) == Run(Start(now, ttl), actions + [a]);
  }

  lemma {:induction false} ReachableAfter(w: World, actions: seq<Action>)
    requires Reachable(w)
    ensures Reachable(Run(w, actions))
  {
    if actions == [] {
    } else {
      ReachableAfter(w, actions[..|actions| - 1]);
      ReachableOn(Run(w, actions[..|actions| - 1]), actions[|actions| - 1]);
    }
  }

  /** If the first world is one the machine reaches, so are the ones its steps and the others' lead to. */
  lemma {:induction false} ScheduleIsReachable(seen: seq<World>, moments: seq<Moment>, q: ReqId, i: nat)
    requires Schedule(seen, moments, q) && i < |seen| && Reachable(seen[0])
    ensures Reachable(seen[i]) && Reachable(OwnStep(seen[i], q, moments[i].fails))
    ensures seen[i].requests[q].hash == seen[0].requests[q].hash
  {
    if i == 0 {
    } else {
      ScheduleIsReachable(seen, moments, q, i - 1);
      Resumes(seen, moments, q, i - 1);
      assert Interleaved(seen[i - 1], seen[i], q, moments[i - 1].fails);
      var others :| ByOthers(others, q) && seen[i] == Run(OwnStep(seen[i - 1], q, moments[i - 1].fails), others);
      ReachableAfter(OwnStep(seen[i - 1], q, moments[i - 1].fails), others);
    }
    assert Meets(moments[i], seen[i], q);
    OwnStepIsReachable(seen[i], q, moments[i].fails);
  }

  lemma OwnStepIsReachable(w: World, q: ReqId, fails: bool)
    requires Reachable(w) && q in w.requests
    ensures Reachable(OwnStep(w, q, fails))
  {
    ReachableOn(w, Fail(q));
    ReachableOn(w, Succeed(q));
  }

  /** No own step of a request with a never-issued text changes the tables it meets. */
  ghost predicate LeavesTablesAlone(seen: seq<World>, moments: seq<Moment>, q: ReqId)
    requires Schedule(seen, moments, q)
  {
    forall i :: 0 <= i < |seen| ==>
      Meets(moments[i], seen[i], q) &&
      OwnStep(seen[i], q, moments[i].fails).db == moments[i].db
  }

  lemma UnknownLeavesTablesAlone(seen: seq<World>, moments: seq<Moment>, q: ReqId)
    requires Schedule(seen, moments, q) && seen != [] && Reachable(seen[0]) && q in seen[0].requests
    requires seen[0].requests[q].hash.Unknown?
    ensures LeavesTablesAlone(seen, moments, q)
  {
    forall i | 0 <= i < |seen|
      ensures Meets(moments[i], seen[i], q) && OwnStep(seen[i], q, moments[i].fails).db == moments[i].db
    {
      ScheduleIsReachable(seen, moments, q, i);
      UnknownTokenChangesNothing(seen[i], q);
    }
  }

  /** None of the first `n` calls of the request has failed; a clock check is no call. */
  ghost predicate NoCallFailed(seen: seq<World>, moments: seq<Moment>, q: ReqId, n: nat)
    requires Schedule(seen, moments, q) && n <= |seen|
  {
    forall i :: 0 <= i < n ==>
      Meets(moments[i], seen[i], q) && (moments[i].fails ==> ClockCheck(seen[i].requests[q].pc))
  }

  lemma {:induction false} UntroubledSoFar(seen: seq<World>, moments: seq<Moment>, q: ReqId, n: nat)
    requires Schedule(seen, moments, q) && n < |seen| && Reachable(seen[0]) && Meets(moments[0], seen[0], q)
    requires Untroubled(seen[0], seen[0].requests[q].pc) && NoCallFailed(seen, moments, q, n)
    ensures Meets(moments[n], seen[n], q) && Untroubled(seen[n], seen[n].requests[q].pc)
  {
    if n == 0 {
    } else {
      UntroubledSoFar(seen, moments, q, n - 1);
      ScheduleIsReachable(seen, moments, q, n - 1);
      Resumes(seen, moments, q, n - 1);
      UntroubledNext(seen[n - 1], q, moments[n - 1].fails, seen[n]);
    }
  }

  lemma UntroubledNext(w: World, q: ReqId, fails: bool, next: World)
    requires Reachable(w) && q in w.requests && Untroubled(w, w.requests[q].pc)
    requires Interleaved(w, next, q, fails) && (fails ==> ClockCheck(w.requests[q].pc))
    ensures q in next.requests && Untroubled(next, next.requests[q].pc)
  {
    var own := OwnStep(w, q, fails);
    UntroubledStep(w, q, fails);
    OwnStepIsReachable(w, q, fails);
    OwnStepKeepsRequest(w, q, fails);
    InvOnEveryRun(own);
    var others :| ByOthers(others, q) && next == Run(own, others);
    RunKeeps(own, others);
    OthersLeaveRequest(own, others, q);
    OthersKeepUntroubled(own, next, own.requests[q]);
  }

  lemma UntroubledStep(w: World, q: ReqId, fails: bool)
    requires Reachable(w) && q in w.requests && Untroubled(w, w.requests[q].pc)
    requires fails ==> ClockCheck(w.requests[q].pc)
    ensures Untroubled(OwnStep(w, q, fails), PcAfter(w, q, fails))
  {
    InvOnEveryRun(w);
    OwnStepKeepsUntroubled(w, q);
  }

  // ---- Whose session a request touches ----

  /** No device is new, and every device on whose line the hash does not stand is as it was. */
  ghost predicate SparesOtherSessions(before: map<DevId, Device>, after: map<DevId, Device>, w: World, h: Hash)
  {
    && (forall e :: e in after ==> e in before)
    && (forall e :: e in before && !(exists i :: Stands(w, e, i, h)) ==> e in after && after[e] == before[e])
  }

  /** A step of a request, of whatever kind, touches no session but that of the token it presented. */
  lemma OwnStepSparesOtherSessions(w: World, q: ReqId, fails: bool)
    requires Reachable(w) && q in w.requests
    ensures SparesOtherSessions(w.db.devices, OwnStep(w, q, fails).db.devices, w, w.requests[q].hash)
  {
    InvOnEveryRun(w);
    var a := if fails && !ClockCheck(w.requests[q].pc) then Fail(q) else Succeed(q);
    forall e | e in Next(w, a).db.devices ensures e in w.db.devices {
      if e !in w.db.devices { DevicesAppearByLogin(w, a, e); }
    }
    forall e | e in w.db.devices && !(exists i :: Stands(w, e, i, w.requests[q].hash))
      ensures e in Next(w, a).db.devices && Next(w, a).db.devices[e] == w.db.devices[e]
    {
      DeviceAfterStep(w, a, e);
      TouchesOwnSession(w, q, e);
    }
  }

  lemma TouchesOwnSession(w: World, q: ReqId, e: DevId)
    requires Inv(w) && q in w.requests && !(exists i :: Stands(w, e, i, w.requests[q].hash))
    ensures var pc := w.requests[q].pc; (pc.Delete? || pc.Swap?) ==> pc.dev != e
  {
    var r := w.requests[q];
    assert RequestOk(w, r);
    if (r.pc.Delete? || r.pc.Swap?) && r.pc.dev == e {
      PlaceStands(w, r.hash);
    }
  }
}
