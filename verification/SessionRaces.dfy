/** Racing refreshes of one device: tabs and reloads that present the same token, or one that replaced
    it meanwhile. */
module SessionRaces {
  import opened Rfc3339
  import opened SessionModel
  import opened SessionInvariant
  import opened SessionGuarantees
  import opened SessionProgress

  /** From `start`, when the device had `links` tokens so far, until `until`. */
  datatype Race = Race(dev: DevId, links: nat, start: Instant, until: Instant)

  /** A token of the device that was current when the race started, or newer. */
  predicate Recent(w: World, race: Race, h: Hash)
  {
    IssuedFor(w, h, race.dev) && race.links <= PlaceOf(w, h).value.index + 1
  }

  /** The device exists, does not expire meanwhile, and the race is no longer than the leeway. */
  predicate Open(w: World, race: Race)
  {
    && race.dev in w.db.devices && race.dev in w.chain
    && race.start <= w.now <= race.until <= race.start + LEEWAY
    && race.until <= w.db.devices[race.dev].expires && LEEWAY <= w.ttlFloor
    && 0 < race.links <= |w.chain[race.dev]|
    && forall i :: race.links <= i < |w.chain[race.dev]| ==> race.start <= w.chain[race.dev][i].at
  }

  predicate OnTrack(w: World, race: Race, r: Request)
  {
    && race.dev in w.db.devices && Recent(w, race, r.hash)
    && match r.pc
       case Lookup => true
       case LookupUsed => true
       case CheckLeeway(_, _) => true
       case LoadRotated(_) => true
       case CheckExpiry(_, user, from, expires) =>
         user == w.db.devices[race.dev].user && Recent(w, race, from) && race.until <= expires
       case LoadUser(_, user, from) => user == w.db.devices[race.dev].user && Recent(w, race, from)
       case LoadSettings(_, from) => Recent(w, race, from)
       case Swap(_, first, _, _, _) => Recent(w, race, first)
       case Reload(_, first, _, _) => Recent(w, race, first)
       case Done(Committed(_, _)) => true
       case Done(LostFive(_, first)) => Recent(w, race, first)
       case _ => false
  }

  // ---- A racer's own steps ----

  lemma FoundIsOnTrack(w: World, race: Race, r: Request)
    requires Chains(w) && Rows(w) && Open(w, race) && Recent(w, race, r.hash)
    ensures OnTrack(w, race, r.(pc := Found(w, race.dev)))
  {
    HolderIsOwner(w, race.dev, w.db.devices[race.dev].hash);
    PlaceStands(w, w.db.devices[race.dev].hash);
  }

  /** A recent token that is no longer current was rotated away during the race and is still recorded. */
  lemma RecentIsRecorded(w: World, race: Race, h: Hash)
    requires Chains(w) && Records(w) && Memory(w) && Open(w, race) && Recent(w, race, h) && Gone(w, h)
    ensures h in w.db.used && w.now - w.db.used[h].at <= LEEWAY
  {
    var p := PlaceOf(w, h).value;
    PlaceStands(w, h);
    RecordOfRotation(w, race.dev, p.index, h, RotatedAt(w, p));
  }

  lemma RacerLooksUp(w: World, race: Race, q: ReqId)
    requires DbOk(w) && q in w.requests && RequestOk(w, w.requests[q]) && Open(w, race) &&
             OnTrack(w, race, w.requests[q])
    requires var pc := w.requests[q].pc; pc.Lookup? || pc.LookupUsed? || pc.CheckLeeway? || pc.LoadRotated?
    ensures OnTrack(w, race, w.requests[q].(pc := NextPc(w, q)))
  {
    var r := w.requests[q];
    if r.pc.Lookup? {
      var found := Holder(w.db, r.hash);
      if found.Some? { HolderIsOwner(w, found.value, r.hash); FoundIsOnTrack(w, race, r); }
    } else if r.pc.LoadRotated? {
      FoundIsOnTrack(w, race, r);
    } else {
      RecentIsRecorded(w, race, r.hash);
      RecordMeansRotated(w, r.hash);
    }
  }

  lemma RacerRotates(w: World, race: Race, q: ReqId)
    requires DbOk(w) && q in w.requests && RequestOk(w, w.requests[q]) && Open(w, race) &&
             OnTrack(w, race, w.requests[q])
    requires var pc := w.requests[q].pc;
             !(pc.Lookup? || pc.LookupUsed? || pc.CheckLeeway? || pc.LoadRotated? ||
             pc.Done?)
    ensures OnTrack(w, race, w.requests[q].(pc := NextPc(w, q)))
  {
    if w.requests[q].pc.Swap? {
      RacerSwaps(w, race, q);
    } else {
      assert RequestOk(w, w.requests[q]);
    }
  }

  lemma RacerSwaps(w: World, race: Race, q: ReqId)
    requires DbOk(w) && q in w.requests && w.requests[q].pc.Swap? && OnTrack(w, race, w.requests[q])
    ensures OnTrack(w, race, w.requests[q].(pc := NextPc(w, q)))
  {
    SwapNeverClashes(w, q);
  }

  lemma OnTrackStays(v: World, w: World, race: Race, r: Request)
    requires Chains(v) && Evolves(v, w) && OnTrack(v, race, r) && race.dev in v.chain && race.dev in w.db.devices
    ensures OnTrack(w, race, r)
  {
  }

  // ---- A whole race ----

  predicate Joins(w: World, race: Race, q: ReqId, before: set<ReqId>)
  {
    q in w.requests && q !in before && w.requests[q].kind.Refresh? && Recent(w, race, w.requests[q].hash)
  }

  ghost predicate AllOnTrack(w: World, race: Race, before: set<ReqId>)
  {
    forall q :: Joins(w, race, q, before) ==> OnTrack(w, race, w.requests[q])
  }

  /** A device's expiry is touched only by a rotation, which sets it at least a lifetime ahead. */
  lemma ExpiryMovesAhead(w: World, a: Action, d: DevId)
    requires Inv(w) && d in w.chain && d in w.db.devices && d in Next(w, a).db.devices
    ensures Next(w, a).db.devices[d].expires == w.db.devices[d].expires ||
            w.now + w.ttlFloor <= Next(w, a).db.devices[d].expires
  {
    if a.Succeed? && Enabled(w, a) { RotationExpiry(w, a.req, d); }
  }

  lemma RotationExpiry(w: World, q: ReqId, d: DevId)
    requires Inv(w) && q in w.requests && d in w.db.devices && d in Advance(w, q).db.devices
    ensures Advance(w, q).db.devices[d].expires == w.db.devices[d].expires ||
            w.now + w.ttlFloor <= Advance(w, q).db.devices[d].expires
  {
    if Commits(w, q) {
      assert RequestOk(w, w.requests[q]);
      CommittedExpiry(w, q, d);
    } else {
      OnlyCommitsTouchRows(w, q, d);
    }
  }

  lemma CommittedExpiry(w: World, q: ReqId, d: DevId)
    requires q in w.requests && Commits(w, q) && d in w.db.devices && d in Advance(w, q).db.devices
    ensures Advance(w, q).db.devices[d].expires ==
            if d == w.requests[q].pc.dev then w.now + w.requests[q].pc.ttl else w.db.devices[d].expires
  {
  }

  lemma StaysOpen(w: World, a: Action, race: Race)
    requires Inv(w) && Open(w, race)
    requires var next := Next(w, a); race.dev in next.db.devices && next.now <= race.until && LEEWAY <= next.ttlFloor
    ensures Open(Next(w, a), race)
  {
    StepKeeps(w, a);
    ExpiryMovesAhead(w, a, race.dev);
    assert w.now + w.ttlFloor <= Next(w, a).db.devices[race.dev].expires ==>
      race.until <= Next(w, a).db.devices[race.dev].expires;
    LinesStayOpen(w, Next(w, a), race);
  }

  lemma LinesStayOpen(v: World, w: World, race: Race)
    requires Open(v, race) && Evolves(v, w)
    ensures race.dev in w.chain && 0 < race.links <= |w.chain[race.dev]|
    ensures forall i :: race.links <= i < |w.chain[race.dev]| ==> race.start <= w.chain[race.dev][i].at
  {
  }

  lemma RacerSteps(w: World, race: Race, q: ReqId)
    requires Inv(w) && Open(w, race) && q in w.requests && OnTrack(w, race, w.requests[q])
    requires race.dev in Advance(w, q).db.devices
    ensures OnTrack(Advance(w, q), race, w.requests[q].(pc := NextPc(w, q)))
  {
    var r := w.requests[q];
    assert RequestOk(w, r);
    if r.pc.Lookup? || r.pc.LookupUsed? || r.pc.CheckLeeway? || r.pc.LoadRotated? {
      RacerLooksUp(w, race, q);
    } else if !r.pc.Done? {
      RacerRotates(w, race, q);
    }
    AdvanceKeeps(w, q);
    OnTrackStays(w, Advance(w, q), race, r.(pc := NextPc(w, q)));
  }

  lemma RacerStays(w: World, a: Action, race: Race, q: ReqId)
    requires Inv(w) && Open(w, race) && q in w.requests && OnTrack(w, race, w.requests[q]) && !a.Fail?
    requires Evolves(w, Next(w, a)) && race.dev in Next(w, a).db.devices
    ensures OnTrack(Next(w, a), race, Next(w, a).requests[q])
  {
    if a == Succeed(q) {
      RacerSteps(w, race, q);
    } else {
      OthersLeaveRacer(w, a, q);
      OnTrackStays(w, Next(w, a), race, w.requests[q]);
    }
  }

  lemma OthersLeaveRacer(w: World, a: Action, q: ReqId)
    requires q in w.requests && !a.Fail? && a != Succeed(q)
    ensures q in Next(w, a).requests && Next(w, a).requests[q] == w.requests[q]
  {
    if a.Succeed? && Enabled(w, a) { OthersLeaveIt(w, a.req, q); }
  }

  lemma ArrivalsStart(w: World, a: Action, q: ReqId)
    requires q !in w.requests && q in Next(w, a).requests
    ensures a.Arrive? && Next(w, a).requests[q].pc == FirstStep(Next(w, a).requests[q].kind)
  {
  }

  lemma StaysOnTrack(w: World, a: Action, race: Race, before: set<ReqId>)
    requires Inv(w) && Open(w, race) && AllOnTrack(w, race, before) && !a.Fail?
    requires race.dev in Next(w, a).db.devices
    ensures AllOnTrack(Next(w, a), race, before)
  {
    var next := Next(w, a);
    StepKeeps(w, a);
    forall q | Joins(next, race, q, before) ensures OnTrack(next, race, next.requests[q]) {
      if q in w.requests {
        JoinedBefore(w, next, race, q, before);
        RacerStays(w, a, race, q);
      } else {
        ArrivalsStart(w, a, q);
      }
    }
  }

  lemma JoinedBefore(v: World, w: World, race: Race, q: ReqId, before: set<ReqId>)
    requires Evolves(v, w) && q in v.requests && Joins(w, race, q, before) && RequestOk(v, v.requests[q])
    ensures Joins(v, race, q, before)
  {
  }

  lemma ConditionsHeldBefore(w: World, a: Action, race: Race)
    requires Inv(w) && race.dev in w.chain
    requires var next := Next(w, a); race.dev in next.db.devices && next.now <= race.until && LEEWAY <= next.ttlFloor
    ensures race.dev in w.db.devices && w.now <= race.until && LEEWAY <= w.ttlFloor
  {
    StepKeeps(w, a);
  }

  predicate NothingFails(actions: seq<Action>) { forall i :: 0 <= i < |actions| ==> !actions[i].Fail? }

  lemma {:induction false} RaceStaysOnTrack(w: World, actions: seq<Action>, race: Race)
    requires Inv(w) && Open(w, race) && NothingFails(actions)
    requires var v := Run(w, actions); race.dev in v.db.devices && v.now <= race.until && LEEWAY <= v.ttlFloor
    ensures Open(Run(w, actions), race) && AllOnTrack(Run(w, actions), race, w.requests.Keys)
  {
    if actions == [] {
    } else {
      var front, last := actions[..|actions| - 1], actions[|actions| - 1];
      RunKeeps(w, front);
      assert race.dev in Run(w, front).chain;
      ConditionsHeldBefore(Run(w, front), last, race);
      RaceStaysOnTrack(w, front, race);
      StaysOpen(Run(w, front), last, race);
      StaysOnTrack(Run(w, front), last, race, w.requests.Keys);
    }
  }

  // ---- Counting winners ----

  /** The requests that added links `lo..` of the device are as many as the links. */
  lemma {:induction false} WinnersAreDistinct(w: World, d: DevId, lo: nat, n: nat, winners: set<ReqId>)
    requires Chains(w) && d in w.chain && 0 < lo && lo + n <= |w.chain[d]|
    requires forall i :: lo <= i < lo + n ==> w.chain[d][i].hash.OfRefresh? && w.chain[d][i].hash.req in winners
    ensures n <= |winners|
  {
    if n == 0 {
    } else {
      var last := w.chain[d][lo + n - 1].hash.req;
      forall i | lo <= i < lo + n - 1 ensures w.chain[d][i].hash.req in winners - {last} {
        StandsAtPlace(w, d, i, w.chain[d][i].hash);
        StandsAtPlace(w, d, lo + n - 1, w.chain[d][lo + n - 1].hash);
      }
      WinnersAreDistinct(w, d, lo, n - 1, winners - {last});
    }
  }

  /** If at most five requests rotate a device in a run no longer than the leeway, in which the device
      is not deleted and does not expire and no database call fails, then every refresh that started
      in the run with a token current at its start, or newer, and has answered, has committed. */
  lemma {:induction false} FiveRacersAllCommit(w: World, actions: seq<Action>, d: DevId, racers: set<ReqId>, q: ReqId)
    requires Reachable(w) && NothingFails(actions) && d in w.db.devices
    requires var v := Run(w, actions);
             && d in v.db.devices && v.now <= w.now + LEEWAY && v.now <= w.db.devices[d].expires && LEEWAY <= v.ttlFloor
             && (forall p, i :: p in v.requests && v.requests[p].pc == Done(Committed(d, i)) && |Links(w, d)| <= i ==>
               p in racers)
             && q in v.requests && q !in w.requests && v.requests[q].kind.Refresh? && v.requests[q].pc.Done?
             && exists i :: |Links(w, d)| - 1 <= i && Stands(v, d, i, v.requests[q].hash)
    requires |racers| <= 5 && q in racers
    ensures Run(w, actions).requests[q].pc.result.Committed? && Run(w, actions).requests[q].pc.result.dev == d
  {
    InvOnEveryRun(w);
    RunKeeps(w, actions);
    var v, n := Run(w, actions), |Links(w, d)|;
    var race := Race(d, n, w.now, v.now);
    assert Open(w, race);
    RaceStaysOnTrack(w, actions, race);
    var i :| n - 1 <= i && Stands(v, d, i, v.requests[q].hash);
    RacerHasCommitted(v, race, w.requests.Keys, racers, q, i);
  }

  lemma RacerHasCommitted(v: World, race: Race, before: set<ReqId>, racers: set<ReqId>, q: ReqId, i: nat)
    requires Inv(v) && Open(v, race) && AllOnTrack(v, race, before)
    requires q in v.requests && q !in before && v.requests[q].kind.Refresh? && v.requests[q].pc.Done?
    requires race.links - 1 <= i && Stands(v, race.dev, i, v.requests[q].hash)
    requires forall p, j :: p in v.requests && v.requests[p].pc == Done(Committed(race.dev, j)) && race.links <= j ==>
             p in racers
    requires |racers| <= 5 && q in racers
    ensures v.requests[q].pc.result.Committed? && v.requests[q].pc.result.dev == race.dev
  {
    StandsAtPlace(v, race.dev, i, v.requests[q].hash);
    assert Joins(v, race, q, before);
    assert RequestOk(v, v.requests[q]);
    if v.requests[q].pc.result.LostFive? { TooFewWinners(v, race, racers, q); }
  }

  lemma TooFewWinners(v: World, race: Race, racers: set<ReqId>, q: ReqId)
    requires Chains(v) && Open(v, race) && q in v.requests && OnTrack(v, race, v.requests[q]) &&
             RequestOk(v, v.requests[q])
    requires v.requests[q].pc.Done? && v.requests[q].pc.result.LostFive? && q in racers
    requires forall p, i :: p in v.requests && v.requests[p].pc == Done(Committed(race.dev, i)) && race.links <= i ==>
             p in racers
    ensures |racers| > 5
  {
    var d, n := race.dev, race.links;
    PlaceStands(v, v.requests[q].pc.result.first);
    assert n + 5 <= |v.chain[d]|;
    forall i | n <= i < n + 5 ensures v.chain[d][i].hash.OfRefresh? && v.chain[d][i].hash.req in racers - {q} {
      LaterLinksHaveWinners(v, d, i);
    }
    WinnersAreDistinct(v, d, n, 5, racers - {q});
  }
}
