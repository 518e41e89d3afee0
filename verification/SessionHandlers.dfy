/** The refresh, logout and login handlers as loops and branches over store calls, while any number of
    other requests and actions commit between those calls and any of the calls may fail. Each handler
    is proved to take exactly the steps of its request in the step machine. */
module SessionHandlers {
  import opened Options
  import opened Rfc3339
  import opened SessionModel
  import opened SessionInvariant
  import opened SessionGuarantees
  import opened SessionProgress
  import opened SessionAnswers
  import opened SessionSchedules
  import opened SessionStore

  // ---- What the machine guarantees of the answer ----

  /** The presented hash was one of this device's, and at most 20 seconds before the request arrived it
      was still current. */
  ghost predicate EntitledTo(w: World, r: Request, d: DevId)
  {
    exists j :: Stands(w, d, j, r.hash) &&
      (j + 1 < |w.chain[d]| ==> r.arrived <= w.chain[d][j + 1].at + 20_000_000_000)
  }

  /** A token that had been rotated away for more than 20 seconds when it arrived. */
  ghost predicate Reused(w: World, r: Request)
  {
    exists d, i, at: Instant :: RotatedAway(w, d, i, r.hash, at) && at + 20_000_000_000 < r.arrived
  }

  /** What the status of an answered refresh says of the token it presented. 200 is for the requests that have
      put a hash of their own on the device's line. */
  ghost predicate StatusIsRight(w: World, q: ReqId, status: int)
    requires q in w.requests
  {
    var r := w.requests[q];
    && (status == 200 || status == 401 || status == 500)
    && (status == 200 <==> exists d, i :: Stands(w, d, i, OfRefresh(q)))
    && (status == 200 ==> exists d, i :: Stands(w, d, i, OfRefresh(q)) && EntitledTo(w, r, d))
    && (Reused(w, r) || r.hash.Unknown? ==> status == 401)
  }

  lemma AnswerIsRight(w: World, q: ReqId)
    requires Reachable(w) && q in w.requests && w.requests[q].pc.Done?
    requires var r := w.requests[q].pc.result; !r.SignedOut? && !r.NoCookieSession?
    ensures StatusIsRight(w, q, Status(w.requests[q].pc.result))
  {
    var r := w.requests[q];
    OwnHashStands(w, q);
    if r.pc.result.Committed? {
      var d, i := r.pc.result.dev, r.pc.result.index;
      CommitMeansEntitled(w, q, d, i);
      assert Stands(w, d, i, OfRefresh(q)) && EntitledTo(w, r, d);
    }
    InvOnEveryRun(w);
    assert RequestOk(w, r);
    if d, i, at: Instant :| RotatedAway(w, d, i, r.hash, at) && at + LEEWAY < r.arrived {
      ReuseIsCaught(w, q, d, i, at);
    }
  }

  /** Without failed calls, 401 means that the token opens no session, and 500 that five others have rotated
      the device meanwhile, or that it is gone. */
  ghost predicate RefusalIsRight(w: World, h: Hash, status: int)
  {
    (status == 401 ==> OpensNothing(w, h)) && (status == 500 ==> OvertakenFiveTimes(w, h))
  }

  lemma RefusalFollows(w: World, q: ReqId)
    requires Reachable(w) && q in w.requests && w.requests[q].kind.Refresh? && w.requests[q].pc.Done?
    requires Untroubled(w, w.requests[q].pc)
    ensures var r := w.requests[q].pc.result;
            !r.SignedOut? && !r.NoCookieSession? && RefusalIsRight(w, w.requests[q].hash, Status(r))
  {
    UntroubledEnds(w, q);
  }

  lemma AnswerFollows(seen: seq<World>, moments: seq<Moment>, q: ReqId, n: nat)
    requires Schedule(seen, moments, q) && n < |seen| && Meets(moments[n], seen[n], q) && Reachable(seen[0])
    requires PcAfter(seen[n], q, moments[n].fails).Done?
    requires var r := PcAfter(seen[n], q, moments[n].fails).result; !r.SignedOut? && !r.NoCookieSession?
    ensures var after := OwnStep(seen[n], q, moments[n].fails);
            && q in after.requests && q in seen[0].requests && after.requests[q].hash == seen[0].requests[q].hash
            && StatusIsRight(after, q, Status(PcAfter(seen[n], q, moments[n].fails).result))
            && (after.requests[q].hash.Unknown? ==> LeavesTablesAlone(seen, moments, q))
            && SparesOtherSessions(seen[n].db.devices, after.db.devices, seen[n], after.requests[q].hash)
  {
    assert Meets(moments[0], seen[0], q);
    ScheduleIsReachable(seen, moments, q, n);
    OwnStepKeepsRequest(seen[n], q, moments[n].fails);
    OwnStepSparesOtherSessions(seen[n], q, moments[n].fails);
    AnswerIsRight(OwnStep(seen[n], q, moments[n].fails), q);
    if seen[0].requests[q].hash.Unknown? { UnknownLeavesTablesAlone(seen, moments, q); }
  }

  lemma CleanAnswerFollows(seen: seq<World>, moments: seq<Moment>, q: ReqId, n: nat)
    requires Schedule(seen, moments, q) && n < |seen| && Meets(moments[0], seen[0], q) && Meets(moments[n], seen[n], q)
    requires Reachable(seen[0]) && seen[0].requests[q].pc.Lookup? && NoCallFailed(seen, moments, q, n + 1)
    requires PcAfter(seen[n], q, moments[n].fails).Done?
    ensures var after, r := OwnStep(seen[n], q, moments[n].fails), PcAfter(seen[n], q, moments[n].fails).result;
            !r.SignedOut? && !r.NoCookieSession? && RefusalIsRight(after, seen[0].requests[q].hash, Status(r))
  {
    UntroubledSoFar(seen, moments, q, n);
    ScheduleIsReachable(seen, moments, q, n);
    UntroubledStep(seen[n], q, moments[n].fails);
    OwnStepKeepsRequest(seen[n], q, moments[n].fails);
    KindStays(seen, moments, q, n);
    RefusalFollows(OwnStep(seen[n], q, moments[n].fails), q);
  }

  lemma {:induction false} KindStays(seen: seq<World>, moments: seq<Moment>, q: ReqId, n: nat)
    requires Schedule(seen, moments, q) && n < |seen| && Meets(moments[0], seen[0], q) && Reachable(seen[0])
    requires seen[0].requests[q].pc.Lookup?
    ensures Meets(moments[n], seen[n], q) && seen[n].requests[q].kind.Refresh?
  {
    if n == 0 {
      InvOnEveryRun(seen[0]);
      assert RequestOk(seen[0], seen[0].requests[q]);
    } else {
      KindStays(seen, moments, q, n - 1);
      Resumes(seen, moments, q, n - 1);
    }
  }

  /** The fifth swap finds the device gone, or with another hash than the one it read. */
  predicate LosesTheFifth(w: World, q: ReqId)
    requires q in w.requests
  {
    var pc := w.requests[q].pc;
    pc.Swap? && pc.attempt == 5 && !(pc.dev in w.db.devices && w.db.devices[pc.dev].hash == pc.from)
  }

  /** The last call decides: a failed one is answered with 500 if it was the swap or the read of the settings,
      else with 401, and a fifth lost swap with 500. */
  lemma LastCallDecides(w: World, q: ReqId, fails: bool)
    requires q in w.requests && PcAfter(w, q, fails).Done?
    requires var r := PcAfter(w, q, fails).result; !r.SignedOut? && !r.NoCookieSession?
    requires !w.requests[q].pc.Done?
    ensures var pc, status := w.requests[q].pc, Status(PcAfter(w, q, fails).result);
            && (fails ==> status == if pc.Swap? || pc.LoadSettings? then 500 else 401)
            && (!fails && LosesTheFifth(w, q) ==> status == 500)
  {
  }

  lemma SparesFollows(seen: seq<World>, moments: seq<Moment>, q: ReqId, n: nat)
    requires Schedule(seen, moments, q) && n < |seen| && Meets(moments[0], seen[0], q) && Meets(moments[n], seen[n], q)
    requires Reachable(seen[0])
    ensures var after := OwnStep(seen[n], q, moments[n].fails);
            SparesOtherSessions(moments[n].db.devices, after.db.devices, seen[n], seen[0].requests[q].hash)
  {
    ScheduleIsReachable(seen, moments, q, n);
    OwnStepSparesOtherSessions(seen[n], q, moments[n].fails);
  }

  lemma DeletedIsTheHolder(w: World, q: ReqId, d: DevId)
    requires Reachable(w) && q in w.requests && w.requests[q].pc == Delete(d, SignOut)
    ensures forall e :: Holds(w.db, e, w.requests[q].hash) ==> e == d
  {
    InvOnEveryRun(w);
    assert RequestOk(w, w.requests[q]);
    forall e | Holds(w.db, e, w.requests[q].hash) ensures e == d { HolderIsOwner(w, e, w.requests[q].hash); }
  }

  lemma NobodyHolds(after: Db, seen: seq<World>, moments: seq<Moment>, q: ReqId, n: nat)
    requires Schedule(seen, moments, q) && n < |seen| == 2
    requires Meets(moments[0], seen[0], q) && Meets(moments[n], seen[n], q)
    requires Reachable(seen[0]) && seen[0].requests[q].pc.LoginLookup? && NoCallFailed(seen, moments, q, n + 1)
    requires var h, pc := seen[0].requests[q].hash, seen[1].requests[q].pc;
             if n == 0 then moments[0].fails || forall e :: !Holds(after, e, h)
             else
               && pc.Delete? && pc.why.SignOut?
               && (!moments[1].fails ==> OnlyGone(moments[1].db.devices, after.devices, pc.dev))
    ensures forall e :: !Holds(after, e, seen[0].requests[q].hash)
  {
    assert !moments[n].fails;
    if n == 1 {
      ScheduleIsReachable(seen, moments, q, 1);
      DeletedIsTheHolder(seen[1], q, seen[1].requests[q].pc.dev);
      forall e ensures !Holds(after, e, seen[0].requests[q].hash) {
        assert e in after.devices ==>
          (Holds(after, e, seen[0].requests[q].hash) <==> Holds(seen[1].db, e, seen[0].requests[q].hash));
      }
    }
  }

  lemma LogoutFollows(seen: seq<World>, moments: seq<Moment>, q: ReqId, n: nat)
    requires Schedule(seen, moments, q) && n < |seen| && Meets(moments[0], seen[0], q) && Meets(moments[n], seen[n], q)
    requires Reachable(seen[0]) && seen[0].requests[q].pc.LogoutLookup? && NoCallFailed(seen, moments, q, n + 1)
    requires PcAfter(seen[n], q, moments[n].fails).Done? && PcAfter(seen[n], q, moments[n].fails).result.SignedOut?
    ensures OpensNothing(OwnStep(seen[n], q, moments[n].fails), seen[0].requests[q].hash)
  {
    UntroubledSoFar(seen, moments, q, n);
    ScheduleIsReachable(seen, moments, q, n);
    UntroubledStep(seen[n], q, moments[n].fails);
    OwnStepKeepsRequest(seen[n], q, moments[n].fails);
    UntroubledLogoutEnds(OwnStep(seen[n], q, moments[n].fails), q);
  }

  // ---- What each call leads to ----

  lemma AfterLookup(w: World, q: ReqId, fails: bool)
    requires q in w.requests && w.requests[q].pc.Lookup?
    ensures PcAfter(w, q, fails) ==
            if fails then WasUsed(true)
            else match Holder(w.db, w.requests[q].hash)
                 case Some(d) => Found(w, d)
                 case None => LookupUsed
  {
  }

  lemma AfterLookupUsed(w: World, q: ReqId, fails: bool)
    requires q in w.requests && w.requests[q].pc.LookupUsed?
    ensures var h := w.requests[q].hash;
            PcAfter(w, q, fails) ==
            if fails then WasUsed(true)
            else if h in w.db.used then CheckLeeway(w.db.used[h].dev, w.db.used[h].at) else WasUsed(false)
  {
  }

  lemma AfterLeeway(w: World, q: ReqId, fails: bool)
    requires q in w.requests && w.requests[q].pc.CheckLeeway?
    ensures var pc := w.requests[q].pc;
            PcAfter(w, q, fails) == if w.now - pc.usedAt > LEEWAY then WasUsed(false) else LoadRotated(pc.dev)
  {
  }

  lemma AfterLoadRotated(w: World, q: ReqId, fails: bool)
    requires q in w.requests && w.requests[q].pc.LoadRotated?
    ensures var d := w.requests[q].pc.dev;
            PcAfter(w, q, fails) ==
            if fails then WasUsed(true) else if d in w.db.devices then Found(w, d) else WasUsed(false)
  {
  }

  lemma AfterExpiry(w: World, q: ReqId, fails: bool)
    requires q in w.requests && w.requests[q].pc.CheckExpiry?
    ensures var pc := w.requests[q].pc;
            PcAfter(w, q, fails) ==
            if w.now > pc.expires then Delete(pc.dev, Expired(pc.from)) else LoadUser(pc.dev, pc.user, pc.from)
  {
  }

  lemma AfterLoads(w: World, q: ReqId, fails: bool)
    requires q in w.requests && (w.requests[q].pc.LoadUser? || w.requests[q].pc.LoadSettings?)
    ensures var pc := w.requests[q].pc;
            PcAfter(w, q, fails) ==
            if pc.LoadSettings? then if fails then Done(Broken(pc.dev)) else Swap(pc.dev, pc.from, pc.from, w.ttl, 1)
            else if fails || pc.user !in w.db.users then Done(Refused(pc.dev)) else LoadSettings(pc.dev, pc.from)
    ensures OwnStep(w, q, fails).db == w.db
  {
  }

  lemma AfterSwap(w: World, q: ReqId, fails: bool)
    requires q in w.requests && w.requests[q].pc.Swap?
    ensures fails ==> PcAfter(w, q, fails) == Done(Broken(w.requests[q].pc.dev)) && OwnStep(w, q, fails).db == w.db
    ensures !fails ==> SwapLeaves(w, OwnStep(w, q, fails), q)
  {
    SwapAlone(w, q);
  }

  lemma AfterReload(w: World, q: ReqId, fails: bool)
    requires q in w.requests && w.requests[q].pc.Reload?
    ensures var pc := w.requests[q].pc;
            PcAfter(w, q, fails) ==
            if fails || pc.dev !in w.db.devices then Done(Refused(pc.dev))
            else Swap(pc.dev, pc.first, w.db.devices[pc.dev].hash, pc.ttl, pc.attempt + 1)
    ensures OwnStep(w, q, fails).db == w.db
  {
  }

  lemma AfterUsed(w: World, q: ReqId, fails: bool)
    requires q in w.requests && (w.requests[q].pc.WasUsed? || w.requests[q].pc.FindUsed?)
    ensures var r := w.requests[q];
            PcAfter(w, q, fails) ==
            if fails then Done(Rejected(false))
            else if r.hash !in w.db.used then Done(Rejected(!r.pc.faulted))
            else if r.pc.WasUsed? then FindUsed(r.pc.faulted)
            else Delete(w.db.used[r.hash].dev, Reuse(r.pc.faulted))
    ensures OwnStep(w, q, fails).db == w.db
  {
  }

  lemma AfterDeletion(w: World, q: ReqId, fails: bool)
    requires q in w.requests && w.requests[q].pc.Delete?
    ensures var pc := w.requests[q].pc;
            && PcAfter(w, q, fails) == Done(AfterDelete(pc.dev, pc.why, !fails))
            && OwnStep(w, q, fails).db == if fails then w.db else WithoutDevice(w.db, pc.dev)
  {
  }

  lemma AfterSignOutLookup(w: World, q: ReqId, fails: bool)
    requires q in w.requests && (w.requests[q].pc.LogoutLookup? || w.requests[q].pc.LoginLookup?)
    ensures var found, out := Holder(w.db, w.requests[q].hash), w.requests[q].pc.LogoutLookup?;
            PcAfter(w, q, fails) ==
            if !fails && found.Some? then Delete(found.value, SignOut)
            else if out then LogoutUsed(!fails) else Done(NoCookieSession)
    ensures OwnStep(w, q, fails).db == w.db
  {
  }

  lemma AfterLogoutUsed(w: World, q: ReqId, fails: bool)
    requires q in w.requests && w.requests[q].pc.LogoutUsed?
    ensures var r := w.requests[q];
            PcAfter(w, q, fails) ==
            if fails then Done(SignedOut(false))
            else if r.hash in w.db.used then Delete(w.db.used[r.hash].dev, SignOut) else Done(SignedOut(r.pc.clean))
    ensures OwnStep(w, q, fails).db == w.db
  {
  }

  // ---- The handlers ----

  /** The one device is gone, and every other row is there as before. */
  ghost predicate OnlyGone(before: map<DevId, Device>, after: map<DevId, Device>, d: DevId)
  {
    && d !in after
    && (forall e :: e != d ==> (e in after <==> e in before) && (e in before ==> after[e] == before[e]))
  }

  class Handler {
    const store: Store

    constructor (s: Store)
      ensures store == s
    {
      store := s;
    }

    /** The request is done with its step in this world, and the tables are as that step left them. */
    ghost predicate Ends(w: World, q: ReqId, fails: bool)
      requires q in w.requests
      reads store
    {
      && store.Valid() && store.Tables() == OwnStep(w, q, fails).db
      && !w.requests[q].pc.Done? && PcAfter(w, q, fails).Done?
    }

    ghost predicate Answers(w: World, q: ReqId, fails: bool, status: int)
      requires q in w.requests
      reads store
    {
      Ends(w, q, fails) && var r := PcAfter(w, q, fails).result;
                           !r.SignedOut? && !r.NoCookieSession? &&
                           Status(r) == status
    }

    /** The tables as the others have left them. */
    method Arrive(m: Moment)
      requires HashesDiffer(m.db)
      modifies store
      ensures store.Valid() && store.Tables() == m.db
    {
      store.users, store.devices, store.used := m.db.users, m.db.devices, m.db.used;
    }

    /** The device lookups of a refresh: by current hash, then among recent rotations. */
    method LookUp(hash: Hash, moments: seq<Moment>, ghost seen: seq<World>, q: ReqId)
      returns (found: Option<(DevId, Device)>, ghost faulted: bool, i: nat)
      requires Schedule(seen, moments, q) && |seen| == 16 && Meets(moments[0], seen[0], q)
      requires seen[0].requests[q].hash == hash && seen[0].requests[q].pc.Lookup?
      modifies store
      ensures 1 <= i <= 4 && Meets(moments[i], seen[i], q) && seen[i].requests[q].hash == hash
      ensures match found
              case Some(row) => seen[i].requests[q].pc == CheckExpiry(row.0, row.1.user, row.1.hash, row.1.expires)
              case None => seen[i].requests[q].pc == WasUsed(faulted)
    {
      Resumes(seen, moments, q, 0);
      AfterLookup(seen[0], q, moments[0].fails);
      if moments[0].fails {
        return None, true, 1;
      }
      Arrive(moments[0]);
      var d := store.GetDeviceByRefreshTokenHash(hash);
      if d.Some? {
        return Some((d.value, store.devices[d.value])), false, 1;
      }

      Resumes(seen, moments, q, 1);
      AfterLookupUsed(seen[1], q, moments[1].fails);
      if moments[1].fails || hash !in moments[1].db.used {
        return None, moments[1].fails, 2;
      }
      var used := moments[1].db.used[hash];

      Resumes(seen, moments, q, 2);
      AfterLeeway(seen[2], q, moments[2].fails);
      if moments[2].now - used.at > LEEWAY {
        return None, false, 3;
      }

      Resumes(seen, moments, q, 3);
      AfterLoadRotated(seen[3], q, moments[3].fails);
      if moments[3].fails || used.dev !in moments[3].db.devices {
        return None, moments[3].fails, 4;
      }
      return Some((used.dev, moments[3].db.devices[used.dev])), false, 4;
    }

    /** `revokeIfReused`, and the 401 after it. */
    method Reject(hash: Hash, moments: seq<Moment>, ghost seen: seq<World>, q: ReqId, i: nat)
      returns (status: int, n: nat)
      requires Schedule(seen, moments, q) && i + 3 <= |seen| && Meets(moments[i], seen[i], q)
      requires seen[i].requests[q].hash == hash && seen[i].requests[q].pc.WasUsed?
      modifies store
      ensures i <= n <= i + 2 && Meets(moments[n], seen[n], q) && Answers(seen[n], q, moments[n].fails, status)
      ensures status == 401
      ensures n < i + 2 || moments[n].fails ==> store.devices == moments[n].db.devices
      ensures n == i + 2 ==> hash in moments[i + 1].db.used
      ensures n == i + 2 && !moments[n].fails ==>
                OnlyGone(moments[n].db.devices, store.devices, moments[i + 1].db.used[hash].dev)
    {
      Arrive(moments[i]);
      AfterUsed(seen[i], q, moments[i].fails);
      if moments[i].fails || hash !in store.used {
        return 401, i;
      }
      Resumes(seen, moments, q, i);
      Arrive(moments[i + 1]);
      AfterUsed(seen[i + 1], q, moments[i + 1].fails);
      if moments[i + 1].fails || hash !in store.used {
        return 401, i + 1;
      }
      var d := store.used[hash].dev;
      Resumes(seen, moments, q, i + 1);
      Arrive(moments[i + 2]);
      AfterDeletion(seen[i + 2], q, moments[i + 2].fails);
      if !moments[i + 2].fails {
        store.DeleteDevice(d);
      }
      return 401, i + 2;
    }

    /** The loop around the swap. */
    method RotateWithRetries(d: DevId, from: Hash, ttl: nat, moments: seq<Moment>, ghost seen: seq<World>, q: ReqId,
                             i: nat)
      returns (status: int, n: nat)
      requires Schedule(seen, moments, q) && i + 9 <= |seen| && Meets(moments[i], seen[i], q)
      requires seen[i].requests[q].pc == Swap(d, from, from, ttl, 1)
      modifies store
      ensures i <= n < |seen| && Meets(moments[n], seen[n], q) && Answers(seen[n], q, moments[n].fails, status)
      ensures !moments[n].fails && LosesTheFifth(seen[n], q) ==> status == 500
      ensures moments[n].fails ==> status == if seen[n].requests[q].pc.Swap? then 500 else 401
    {
      var rotateFrom, attempt := from, 1;
      n := i;
      while true
        invariant 1 <= attempt <= MAX_ATTEMPTS && n == i + 2 * (attempt - 1) && Meets(moments[n], seen[n], q)
        invariant seen[n].requests[q].pc == Swap(d, from, rotateFrom, ttl, attempt)
        decreases MAX_ATTEMPTS - attempt
      {
        var err;
        status, err := TrySwap(d, rotateFrom, ttl, moments[n], seen[n], q);
        if !err.TokenReused? || attempt == MAX_ATTEMPTS {
          return;
        }
        Resumes(seen, moments, q, n);
        n := n + 1;
        var current := TryReload(d, moments[n], seen[n], q);
        if current.None? {
          status := 401;
          return;
        }
        Resumes(seen, moments, q, n);
        n := n + 1;
        rotateFrom, attempt := current.value, attempt + 1;
      }
    }

    method TryReload(d: DevId, m: Moment, ghost w: World, q: ReqId) returns (current: Option<Hash>)
      requires Meets(m, w, q) && w.requests[q].pc.Reload? && w.requests[q].pc.dev == d
      modifies store
      ensures var pc := w.requests[q].pc;
              match current
              case Some(from) => PcAfter(w, q, m.fails) == Swap(d, pc.first, from, pc.ttl, pc.attempt + 1)
              case None => Answers(w, q, m.fails, 401)
    {
      Arrive(m);
      AfterReload(w, q, m.fails);
      current := if m.fails || d !in store.devices then None else Some(store.devices[d].hash);
    }

    /** One attempt; `status` is the answer if it is the last. A failed call is no lost swap. */
    method TrySwap(d: DevId, from: Hash, ttl: nat, m: Moment, ghost w: World, q: ReqId)
      returns (status: int, err: RotationError)
      requires Meets(m, w, q)
      requires var pc := w.requests[q].pc; pc.Swap? && pc.dev == d && pc.from == from && pc.ttl == ttl
      modifies store
      ensures var pc := w.requests[q].pc;
              if err.TokenReused? && pc.attempt != MAX_ATTEMPTS
              then PcAfter(w, q, m.fails) == Reload(d, pc.first, ttl, pc.attempt)
              else Answers(w, q, m.fails, status) && (m.fails || LosesTheFifth(w, q) ==> status == 500)
    {
      Arrive(m);
      AfterSwap(w, q, m.fails);
      if m.fails {
        return 500, ConstraintFailed;
      }
      status, err := SwapNow(d, from, ttl, m.now, w, OwnStep(w, q, false), q);
    }

    method SwapNow(d: DevId, from: Hash, ttl: nat, now: Instant, ghost w: World, ghost next: World, q: ReqId)
      returns (status: int, err: RotationError)
      requires store.Valid() && store.Tables() == w.db && now == w.now && q in w.requests
      requires var pc := w.requests[q].pc;
               pc.Swap? && pc.dev == d && pc.from == from && pc.ttl == ttl &&
               SwapLeaves(w, next, q)
      modifies store
      ensures store.Valid() && store.Tables() == next.db && q in next.requests
      ensures !Holds(w.db, d, from) ==> status == 500
      ensures var pc, after := w.requests[q].pc, next.requests[q].pc;
              if err.TokenReused? && pc.attempt != MAX_ATTEMPTS then after == Reload(d, pc.first, ttl, pc.attempt)
              else
                && after.Done? && !after.result.SignedOut? && !after.result.NoCookieSession?
                && Status(after.result) == status
    {
      err := store.RotateRefreshToken(d, from, OfRefresh(q), now + ttl, now, ttl);
      status := if err.NoError? then 200 else 500;
    }

    /** The whole refresh handler. In every run of the machine its status is right: 200 means that the
        token was entitled to it, and a token reused too late, or never issued, gets 401; the latter
        changes nothing, and no other session is touched. If no call failed, 401 means that the token opens
        no session. A fifth lost swap, and a failed swap or read of the settings, get 500. */
    method Refresh(hash: Hash, moments: seq<Moment>, ghost seen: seq<World>, q: ReqId) returns (status: int, n: nat)
      requires Schedule(seen, moments, q) && |seen| == 16 && Meets(moments[0], seen[0], q)
      requires seen[0].requests[q].hash == hash && seen[0].requests[q].pc.Lookup?
      modifies store
      ensures n < 16 && Meets(moments[n], seen[n], q) && Answers(seen[n], q, moments[n].fails, status)
      ensures var after := OwnStep(seen[n], q, moments[n].fails);
              Reachable(seen[0]) ==>
                q in after.requests && after.requests[q].hash == hash && StatusIsRight(after, q, status)
      ensures Reachable(seen[0]) && NoCallFailed(seen, moments, q, n + 1) ==>
                RefusalIsRight(OwnStep(seen[n], q, moments[n].fails), hash, status)
      ensures Reachable(seen[0]) && hash.Unknown? ==> status == 401 && LeavesTablesAlone(seen, moments, q)
      ensures Reachable(seen[0]) ==> SparesOtherSessions(moments[n].db.devices, store.devices, seen[n], hash)
      ensures !moments[n].fails && LosesTheFifth(seen[n], q) ==> status == 500
      ensures var pc := seen[n].requests[q].pc;
              moments[n].fails ==> status == if pc.Swap? || pc.LoadSettings? then 500 else 401
    {
      var found, i;
      ghost var faulted;
      found, faulted, i := LookUp(hash, moments, seen, q);
      if found.None? {
        status, n := Reject(hash, moments, seen, q, i);
      } else {
        var (d, row) := found.value;
        status, n := RotateFound(d, row, moments, seen, q, i);
      }
      LastCallDecides(seen[n], q, moments[n].fails);
      if Reachable(seen[0]) {
        AnswerFollows(seen, moments, q, n);
        if NoCallFailed(seen, moments, q, n + 1) { CleanAnswerFollows(seen, moments, q, n); }
      }
    }

    /** The handler once it has the device's row. */
    method RotateFound(d: DevId, row: Device, moments: seq<Moment>, ghost seen: seq<World>, q: ReqId, i: nat)
      returns (status: int, n: nat)
      requires Schedule(seen, moments, q) && |seen| == 16 && 1 <= i <= 4 && Meets(moments[i], seen[i], q)
      requires seen[i].requests[q].pc == CheckExpiry(d, row.user, row.hash, row.expires)
      modifies store
      ensures i <= n < 16 && Meets(moments[n], seen[n], q) && Answers(seen[n], q, moments[n].fails, status)
    {
      AfterExpiry(seen[i], q, moments[i].fails);
      Resumes(seen, moments, q, i);
      n := i + 1;
      if moments[i].now > row.expires {
        Arrive(moments[n]);
        AfterDeletion(seen[n], q, moments[n].fails);
        if !moments[n].fails {
          store.DeleteDevice(d);
        }
        return 401, n;
      }
      status, n := RotateOwned(d, row, moments, seen, q, n);
    }

    method RotateOwned(d: DevId, row: Device, moments: seq<Moment>, ghost seen: seq<World>, q: ReqId, i: nat)
      returns (status: int, n: nat)
      requires Schedule(seen, moments, q) && i + 11 <= |seen| && Meets(moments[i], seen[i], q)
      requires seen[i].requests[q].pc == LoadUser(d, row.user, row.hash)
      modifies store
      ensures i <= n < |seen| && Meets(moments[n], seen[n], q) && Answers(seen[n], q, moments[n].fails, status)
    {
      Arrive(moments[i]);
      AfterLoads(seen[i], q, moments[i].fails);
      if moments[i].fails || row.user !in store.users {
        return 401, i;
      }
      Resumes(seen, moments, q, i);
      n := i + 1;
      Arrive(moments[n]);
      AfterLoads(seen[n], q, moments[n].fails);
      if moments[n].fails {
        return 500, n;
      }
      Resumes(seen, moments, q, n);
      status, n := RotateWithRetries(d, row.hash, moments[n].ttl, moments, seen, q, n + 1);
    }

    /** Signs out the session of the presented token, current or already rotated away. */
    method Logout(hash: Hash, moments: seq<Moment>, ghost seen: seq<World>, q: ReqId) returns (n: nat)
      requires Schedule(seen, moments, q) && |seen| == 3 && Meets(moments[0], seen[0], q)
      requires seen[0].requests[q].hash == hash && seen[0].requests[q].pc.LogoutLookup?
      modifies store
      ensures n < 3 && Meets(moments[n], seen[n], q) && Ends(seen[n], q, moments[n].fails)
      ensures Reachable(seen[0]) ==> SparesOtherSessions(moments[n].db.devices, store.devices, seen[n], hash)
      ensures Reachable(seen[0]) && NoCallFailed(seen, moments, q, n + 1) ==>
                OpensNothing(OwnStep(seen[n], q, moments[n].fails), hash)
    {
      n := TakeLogoutSteps(hash, moments, seen, q);
      if Reachable(seen[0]) {
        SparesFollows(seen, moments, q, n);
        if NoCallFailed(seen, moments, q, n + 1) { LogoutFollows(seen, moments, q, n); }
      }
    }

    method TakeLogoutSteps(hash: Hash, moments: seq<Moment>, ghost seen: seq<World>, q: ReqId) returns (n: nat)
      requires Schedule(seen, moments, q) && |seen| == 3 && Meets(moments[0], seen[0], q)
      requires seen[0].requests[q].hash == hash && seen[0].requests[q].pc.LogoutLookup?
      modifies store
      ensures n < 3 && Meets(moments[n], seen[n], q) && Ends(seen[n], q, moments[n].fails)
      ensures PcAfter(seen[n], q, moments[n].fails).result.SignedOut?
    {
      Arrive(moments[0]);
      AfterSignOutLookup(seen[0], q, moments[0].fails);
      Resumes(seen, moments, q, 0);
      if !moments[0].fails {
        var found := store.GetDeviceByRefreshTokenHash(hash);
        if found.Some? {
          n := SignOutOf(found.value, moments, seen, q, 1);
          return;
        }
      }
      Arrive(moments[1]);
      AfterLogoutUsed(seen[1], q, moments[1].fails);
      if moments[1].fails || hash !in store.used {
        return 1;
      }
      Resumes(seen, moments, q, 1);
      n := SignOutOf(store.used[hash].dev, moments, seen, q, 2);
    }

    method SignOutOf(d: DevId, moments: seq<Moment>, ghost seen: seq<World>, q: ReqId, i: nat) returns (n: nat)
      requires Schedule(seen, moments, q) && i < |seen| && Meets(moments[i], seen[i], q)
      requires seen[i].requests[q].pc == Delete(d, SignOut)
      modifies store
      ensures n == i && Ends(seen[n], q, moments[n].fails) && PcAfter(seen[n], q, moments[n].fails).result.SignedOut?
      ensures if moments[i].fails then store.devices == moments[i].db.devices
              else OnlyGone(moments[i].db.devices, store.devices, d)
    {
      Arrive(moments[i]);
      AfterDeletion(seen[i], q, moments[i].fails);
      if !moments[i].fails {
        store.DeleteDevice(d);
      }
      return i;
    }

    /** A login in cookie mode ends the session whose current token the browser still holds. */
    method RevokeCookieSessionOnLogin(hash: Hash, moments: seq<Moment>, ghost seen: seq<World>, q: ReqId)
      returns (n: nat)
      requires Schedule(seen, moments, q) && |seen| == 2 && Meets(moments[0], seen[0], q)
      requires seen[0].requests[q].hash == hash && seen[0].requests[q].pc.LoginLookup?
      modifies store
      ensures n < 2 && Meets(moments[n], seen[n], q) && Ends(seen[n], q, moments[n].fails)
      ensures Reachable(seen[0]) ==> SparesOtherSessions(moments[n].db.devices, store.devices, seen[n], hash)
      ensures Reachable(seen[0]) && NoCallFailed(seen, moments, q, n + 1) ==>
                forall e :: !Holds(store.Tables(), e, hash)
    {
      n := TakeCookieLoginSteps(hash, moments, seen, q);
      if Reachable(seen[0]) {
        SparesFollows(seen, moments, q, n);
        if NoCallFailed(seen, moments, q, n + 1) { NobodyHolds(store.Tables(), seen, moments, q, n); }
      }
    }

    method TakeCookieLoginSteps(hash: Hash, moments: seq<Moment>, ghost seen: seq<World>, q: ReqId) returns (n: nat)
      requires Schedule(seen, moments, q) && |seen| == 2 && Meets(moments[0], seen[0], q)
      requires seen[0].requests[q].hash == hash && seen[0].requests[q].pc.LoginLookup?
      modifies store
      ensures n < 2 && Meets(moments[n], seen[n], q) && Ends(seen[n], q, moments[n].fails)
      ensures n == 0 ==> moments[0].fails || forall e :: !Holds(store.Tables(), e, hash)
      ensures n == 1 ==>
                var pc := seen[1].requests[q].pc;
                && pc.Delete? && pc.why.SignOut?
                && (!moments[1].fails ==> OnlyGone(moments[1].db.devices, store.devices, pc.dev))
    {
      Arrive(moments[0]);
      AfterSignOutLookup(seen[0], q, moments[0].fails);
      if moments[0].fails {
        return 0;
      }
      var found := store.GetDeviceByRefreshTokenHash(hash);
      if found.None? {
        return 0;
      }
      Resumes(seen, moments, q, 0);
      n := SignOutOf(found.value, moments, seen, q, 1);
    }
  }
}
