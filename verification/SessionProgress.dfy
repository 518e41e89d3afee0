/** Refreshes that race: every request finishes, losing five swaps takes five winners, and five
    refreshes of one device all commit. */
module SessionProgress {
  import opened SessionModel
  import opened SessionInvariant
  import opened SessionGuarantees

  // ---- Every request finishes ----

  /** Own steps a request still has at most. */
  function StepsLeft(pc: Pc): int
  {
    match pc
    case Lookup => 16
    case LookupUsed => 15
    case CheckLeeway(_, _) => 14
    case LoadRotated(_) => 13
    case CheckExpiry(_, _, _, _) => 12
    case LoadUser(_, _, _) => 11
    case LoadSettings(_, _) => 10
    case Swap(_, _, _, _, attempt) => 2 * (MAX_ATTEMPTS - attempt) + 1
    case Reload(_, _, _, attempt) => 2 * (MAX_ATTEMPTS - attempt)
    case WasUsed(_) => 3
    case FindUsed(_) => 2
    case Delete(_, _) => 1
    case LogoutLookup => 3
    case LogoutUsed(_) => 2
    case LoginLookup => 2
    case Done(_) => 0
  }

  function Turns(actions: seq<Action>, q: ReqId): nat
  {
    if actions == [] then 0
    else Turns(actions[..|actions| - 1], q) + if actions[|actions| - 1] == Succeed(q) then 1 else 0
  }

  predicate AttemptInRange(pc: Pc)
  {
    (pc.Swap? ==> 1 <= pc.attempt <= MAX_ATTEMPTS) && (pc.Reload? ==> 1 <= pc.attempt < MAX_ATTEMPTS)
  }

  lemma RankInRange(pc: Pc)
    requires AttemptInRange(pc)
    ensures 0 <= StepsLeft(pc) <= 16 && (StepsLeft(pc) == 0 <==> pc.Done?)
  {
  }

  lemma AttemptsStayInRange(w: World, q: ReqId)
    requires Inv(w) && q in w.requests
    ensures AttemptInRange(w.requests[q].pc)
  {
    assert RequestOk(w, w.requests[q]);
  }

  lemma StepIsProgress(w: World, q: ReqId)
    requires q in w.requests && !w.requests[q].pc.Done? && AttemptInRange(w.requests[q].pc)
    ensures q in Advance(w, q).requests && StepsLeft(NextPc(w, q)) < StepsLeft(w.requests[q].pc)
  {
    if w.requests[q].pc.Swap? { SwapIsProgress(w, q); } else { OtherStepIsProgress(w, q); }
  }

  lemma SwapIsProgress(w: World, q: ReqId)
    requires q in w.requests && w.requests[q].pc.Swap? && AttemptInRange(w.requests[q].pc)
    ensures q in Advance(w, q).requests && StepsLeft(NextPc(w, q)) < StepsLeft(w.requests[q].pc)
  {
  }

  lemma OtherStepIsProgress(w: World, q: ReqId)
    requires q in w.requests && !w.requests[q].pc.Done? && !w.requests[q].pc.Swap? && AttemptInRange(w.requests[q].pc)
    ensures q in Advance(w, q).requests && StepsLeft(NextPc(w, q)) < StepsLeft(w.requests[q].pc)
  {
  }

  lemma OthersLeaveIt(w: World, p: ReqId, q: ReqId)
    requires p in w.requests && q in w.requests && p != q
    ensures q in Advance(w, p).requests && Advance(w, p).requests[q] == w.requests[q]
  {
  }

  lemma FaultIsProgress(pc: Pc)
    requires AttemptInRange(pc)
    ensures StepsLeft(AfterFault(pc)) <= StepsLeft(pc)
  {
  }

  lemma StepsLeftShrink(w: World, a: Action, q: ReqId)
    requires q in w.requests && AttemptInRange(w.requests[q].pc)
    ensures var next := Next(w, a);
            q in next.requests && (w.requests[q].pc.Done? ==> next.requests[q].pc.Done?) &&
            StepsLeft(next.requests[q].pc) <=
              StepsLeft(w.requests[q].pc) - if a == Succeed(q) && !w.requests[q].pc.Done? then 1 else 0
  {
    if !Enabled(w, a) { return; }
    match a
    case Succeed(p) =>
      if p != q { OthersLeaveIt(w, p, q); } else if !w.requests[q].pc.Done? { StepIsProgress(w, q); }
    case Fail(_) => FaultIsProgress(w.requests[q].pc);
    case _ =>
  }

  lemma {:induction false} TurnsAreUsed(w: World, actions: seq<Action>, q: ReqId)
    requires Inv(w) && q in w.requests
    ensures var v := Run(w, actions);
            q in v.requests &&
            (v.requests[q].pc.Done? || StepsLeft(v.requests[q].pc) + Turns(actions, q) <= StepsLeft(w.requests[q].pc))
  {
    if actions == [] {
    } else {
      var front, last := actions[..|actions| - 1], actions[|actions| - 1];
      TurnsAreUsed(w, front, q);
      RunKeeps(w, front);
      AttemptsStayInRange(Run(w, front), q);
      StepsLeftShrink(Run(w, front), last, q);
    }
  }

  /** No request can be kept busy: after 16 steps of its own it has answered, whatever the others do. */
  lemma EveryRequestFinishes(w: World, actions: seq<Action>, q: ReqId)
    requires Reachable(w) && q in w.requests && Turns(actions, q) >= 16
    ensures var v := Run(w, actions); q in v.requests && v.requests[q].pc.Done?
  {
    InvOnEveryRun(w);
    TurnsAreUsed(w, actions, q);
    RunKeeps(w, actions);
    AttemptsStayInRange(w, q);
    AttemptsStayInRange(Run(w, actions), q);
    RankInRange(w.requests[q].pc);
    RankInRange(Run(w, actions).requests[q].pc);
  }

  // ---- Losing ----

  /** Link `i` of the device was added by this request, which answered with it. */
  predicate Winner(w: World, d: DevId, i: int, q: ReqId)
  {
    i >= 0 && Stands(w, d, i, OfRefresh(q)) && q in w.requests && w.requests[q].pc == Done(Committed(d, i))
  }

  lemma LaterLinksHaveWinners(w: World, d: DevId, i: nat)
    requires Chains(w) && d in w.chain && 0 < i < |w.chain[d]|
    ensures w.chain[d][i].hash.OfRefresh? && Winner(w, d, i, w.chain[d][i].hash.req)
  {
    StandsAtPlace(w, d, i, w.chain[d][i].hash);
  }

  /** Another request added link `i`. A request wins at most once, so different links have different
      winners. */
  ghost predicate WonByAnother(w: World, d: DevId, i: int, q: ReqId) { exists p :: p != q && Winner(w, d, i, p) }

  lemma LostToAnother(w: World, q: ReqId, d: DevId, i: nat)
    requires Chains(w) && d in w.chain && 0 < i < |w.chain[d]|
    requires q in w.requests && !(w.requests[q].pc.Done? && w.requests[q].pc.result.Committed?)
    ensures WonByAnother(w, d, i, q)
  {
    LaterLinksHaveWinners(w, d, i);
  }

  /** A refresh gives up after five lost swaps only if the device is gone, or if five other requests
      have each committed a rotation of it since the first look. */
  lemma FiveLossesTakeFiveWinners(w: World, q: ReqId, d: DevId, first: Hash)
    requires Reachable(w) && q in w.requests && w.requests[q].pc == Done(LostFive(d, first)) && d in w.db.devices
    ensures exists i :: Stands(w, d, i, first) && forall k :: i < k <= i + 5 ==> WonByAnother(w, d, k, q)
  {
    InvOnEveryRun(w);
    assert RequestOk(w, w.requests[q]);
    PlaceStands(w, first);
    var i := PlaceOf(w, first).value.index;
    forall k | i < k <= i + 5 ensures WonByAnother(w, d, k, q) { LostToAnother(w, q, d, k); }
    assert Stands(w, d, i, first);
  }
}
