/** What the end of a refresh means when none of its database calls failed: why a token was turned away,
    and what five lost swaps leave. */
module SessionAnswers {
  import opened Options
  import opened Rfc3339
  import opened SessionModel
  import opened SessionInvariant
  import opened SessionGuarantees

  predicate OwnerIs(w: World, d: DevId, user: UserId) { d in w.db.devices ==> w.db.devices[d].user == user }

  /** What holds of a request none of whose calls has failed. */
  predicate Untroubled(w: World, pc: Pc)
  {
    match pc
    case CheckExpiry(d, user, _, _) => OwnerIs(w, d, user)
    case LoadUser(d, user, _) => OwnerIs(w, d, user)
    case WasUsed(faulted) => !faulted
    case FindUsed(faulted) => !faulted
    case Delete(_, Reuse(faulted)) => !faulted
    case LogoutUsed(clean) => clean
    case Done(Refused(d)) => d !in w.db.devices
    case Done(Broken(_)) => false
    case Done(Rejected(clean)) => clean
    case Done(SignedOut(clean)) => clean
    case _ => true
  }

  /** Others change none of it: devices keep their owner and only disappear. */
  lemma OthersKeepUntroubled(v: World, w: World, r: Request)
    requires Inv(v) && Evolves(v, w) && RequestOk(v, r) && Untroubled(v, r.pc)
    ensures Untroubled(w, r.pc)
  {
    match r.pc
    case CheckExpiry(_, _, _, _) => PlaceStays(v, w, r.hash);
    case LoadUser(_, _, _) => PlaceStays(v, w, r.hash);
    case Done(Refused(_)) => PlaceStays(v, w, r.hash);
    case _ =>
  }

  lemma OwnStepKeepsUntroubled(w: World, q: ReqId)
    requires Inv(w) && q in w.requests && Untroubled(w, w.requests[q].pc)
    ensures Untroubled(Advance(w, q), NextPc(w, q))
  {
    var r := w.requests[q];
    assert RequestOk(w, r);
    if r.pc.Swap? {
      SwapNeverClashes(w, q);
      SwapKeepsUntroubled(w, q);
    } else {
      OtherStepKeepsUntroubled(w, q);
    }
  }

  lemma SwapKeepsUntroubled(w: World, q: ReqId)
    requires q in w.requests && w.requests[q].pc.Swap?
    requires var pc := w.requests[q].pc;
             Rotate(w.db, pc.dev, pc.from, OfRefresh(q), w.now + pc.ttl, w.now, pc.ttl) != Clash
    ensures Untroubled(Advance(w, q), NextPc(w, q))
  {
  }

  lemma OtherStepKeepsUntroubled(w: World, q: ReqId)
    requires Rows(w) && q in w.requests && !w.requests[q].pc.Swap? && Untroubled(w, w.requests[q].pc)
    ensures Untroubled(Advance(w, q), NextPc(w, q))
  {
  }

  // ---- Why a token is turned away ----

  /** The token opens no session: it was never issued, its device is gone, or it was rotated away more than
      20 seconds ago. */
  ghost predicate OpensNothing(w: World, h: Hash)
  {
    h.Unknown? ||
    exists d, i :: Stands(w, d, i, h) &&
      (d !in w.db.devices || (i + 1 < |w.chain[d]| && w.chain[d][i + 1].at + 20_000_000_000 < w.now))
  }

  /** The token's device has had five tokens more than the one the request first found, or is gone. */
  ghost predicate OvertakenFiveTimes(w: World, h: Hash)
  {
    exists d, i :: Stands(w, d, i, h) && (d in w.db.devices ==> 5 < |w.chain[d]|)
  }

  /** A refresh none of whose calls failed has rotated its device, or been overtaken by five others, or was
      turned away because its token opens nothing. */
  lemma UntroubledEnds(w: World, q: ReqId)
    requires Reachable(w) && q in w.requests && w.requests[q].kind.Refresh? && w.requests[q].pc.Done?
    requires Untroubled(w, w.requests[q].pc)
    ensures match w.requests[q].pc.result
            case Committed(d, i) => Stands(w, d, i, OfRefresh(q))
            case LostFive(_, _) => OvertakenFiveTimes(w, w.requests[q].hash)
            case Refused(_) => OpensNothing(w, w.requests[q].hash)
            case Rejected(_) => OpensNothing(w, w.requests[q].hash)
            case _ => false
  {
    InvOnEveryRun(w);
    var r := w.requests[q];
    assert RequestOk(w, r);
    if r.pc.result.Committed? {
      PlaceStands(w, OfRefresh(q));
    } else if !r.hash.Unknown? {
      PlaceStands(w, r.hash);
      assert Stands(w, PlaceOf(w, r.hash).value.dev, PlaceOf(w, r.hash).value.index, r.hash);
      if r.pc.result.LostFive? { PlaceStands(w, r.pc.result.first); }
    }
  }

  /** A logout none of whose calls failed leaves its token opening nothing. */
  lemma UntroubledLogoutEnds(w: World, q: ReqId)
    requires Reachable(w) && q in w.requests && w.requests[q].pc.Done? && w.requests[q].pc.result.SignedOut?
    requires Untroubled(w, w.requests[q].pc)
    ensures OpensNothing(w, w.requests[q].hash)
  {
    InvOnEveryRun(w);
    var r := w.requests[q];
    assert RequestOk(w, r);
    if !r.hash.Unknown? {
      PlaceStands(w, r.hash);
      assert Stands(w, PlaceOf(w, r.hash).value.dev, PlaceOf(w, r.hash).value.index, r.hash);
    }
  }

  /** The request's own hash is on a line exactly if it has committed. */
  lemma OwnHashStands(w: World, q: ReqId)
    requires Reachable(w) && q in w.requests
    ensures (exists d, i :: Stands(w, d, i, OfRefresh(q))) <==>
            w.requests[q].pc.Done? && w.requests[q].pc.result.Committed?
  {
    InvOnEveryRun(w);
    if d, i :| Stands(w, d, i, OfRefresh(q)) { StandsAtPlace(w, d, i, OfRefresh(q)); }
    if PlaceOf(w, OfRefresh(q)).Some? {
      PlaceStands(w, OfRefresh(q));
      var p := PlaceOf(w, OfRefresh(q)).value;
      assert Stands(w, p.dev, p.index, OfRefresh(q));
    }
  }
}
