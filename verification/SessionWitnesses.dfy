/** Runs that reach the two states in which a session is lost although its owner did nothing wrong. */
module SessionWitnesses {
  import opened Options
  import opened Rfc3339
  import opened SessionModel
  import opened SessionInvariant
  import opened SessionGuarantees

  const LOGGED_IN := Db({1}, map[7 := Device(1, OfLogin(7), DAY)], map[])

  const FIRST_LINK := Link(OfLogin(7), 0, DAY)

  /** User 1 is logged in on device 7, and these requests are under way. */
  function With(now: Instant, requests: map<ReqId, Request>): World
  {
    World(LOGGED_IN, now, DAY, requests, map[7 := [FIRST_LINK]], DAY)
  }

  function Presents(pc: Pc): Request { Request(Refresh, OfLogin(7), 0, pc) }

  function Two(now: Instant, q: Pc, p: Pc): World { With(now, map[0 := Presents(q), 1 := Presents(p)]) }

  lemma NextIsReachable(w: World, a: Action, next: World)
    requires Reachable(w) && next == Next(w, a)
    ensures Reachable(next)
  {
    var now: Instant, ttl: nat, actions :| w == Run(Start(now, ttl), actions);
    assert (actions + [a])[..|actions|] == actions;
    assert next == Run(Start(now, ttl), actions + [a]);
  }

  lemma StartIsReachable(now: Instant, ttl: nat)
    ensures Reachable(Start(now, ttl))
  {
    assert Start(now, ttl) == Run(Start(now, ttl), []);
  }

  lemma LoggedIn()
    ensures Reachable(With(0, map[]))
  {
    var start := Start(0, DAY);
    var added := start.(db := Db({1}, map[], map[]));
    StartIsReachable(0, DAY);
    assert Next(start, AddUser(1)).db == added.db;
    NextIsReachable(start, AddUser(1), added);
    assert Next(added, Login(1, 7)).db == LOGGED_IN && Next(added, Login(1, 7)).chain == map[7 := [FIRST_LINK]];
    NextIsReachable(added, Login(1, 7), With(0, map[]));
  }

  lemma HeldBySeven()
    ensures Holder(LOGGED_IN, OfLogin(7)) == Some(7)
  {
    assert Holds(LOGGED_IN, 7, OfLogin(7));
  }

  lemma GotoFirst(now: Instant, q: Pc, p: Pc, next: Pc)
    ensures Goto(Two(now, q, p), 0, next) == Two(now, next, p)
  {
    assert Goto(Two(now, q, p), 0, next).requests == Two(now, next, p).requests;
  }

  lemma GotoSecond(now: Instant, q: Pc, p: Pc, next: Pc)
    ensures Goto(Two(now, q, p), 1, next) == Two(now, q, next)
  {
    assert Goto(Two(now, q, p), 1, next).requests == Two(now, q, next).requests;
  }

  const READ := CheckExpiry(7, 1, OfLogin(7), DAY)

  const SWAPPING := Swap(7, OfLogin(7), OfLogin(7), DAY, 1)

  /** The first request up to its swap. */
  lemma FirstReachesItsSwap(now: Instant, p: Pc)
    requires now <= DAY && Reachable(Two(now, Lookup, p))
    ensures Reachable(Two(now, SWAPPING, p))
  {
    HeldBySeven();
    GotoFirst(now, Lookup, p, READ);
    NextIsReachable(Two(now, Lookup, p), Succeed(0), Two(now, READ, p));
    GotoFirst(now, READ, p, LoadUser(7, 1, OfLogin(7)));
    NextIsReachable(Two(now, READ, p), Succeed(0), Two(now, LoadUser(7, 1, OfLogin(7)), p));
    GotoFirst(now, LoadUser(7, 1, OfLogin(7)), p, LoadSettings(7, OfLogin(7)));
    NextIsReachable(Two(now, LoadUser(7, 1, OfLogin(7)), p), Succeed(0), Two(now, LoadSettings(7, OfLogin(7)), p));
    GotoFirst(now, LoadSettings(7, OfLogin(7)), p, SWAPPING);
    NextIsReachable(Two(now, LoadSettings(7, OfLogin(7)), p), Succeed(0), Two(now, SWAPPING, p));
  }

  lemma BothArrive()
    ensures Reachable(Two(0, Lookup, Lookup))
  {
    LoggedIn();
    var one := With(0, map[0 := Presents(Lookup)]);
    NextIsReachable(With(0, map[]), Arrive(0, OfLogin(7), Refresh), one);
    assert Next(one, Arrive(1, OfLogin(7), Refresh)).requests == Two(0, Lookup, Lookup).requests;
    NextIsReachable(one, Arrive(1, OfLogin(7), Refresh), Two(0, Lookup, Lookup));
  }

  lemma SwapIsReady()
    ensures Reachable(Two(0, SWAPPING, Lookup))
  {
    BothArrive();
    FirstReachesItsSwap(0, Lookup);
  }

  // ---- Expiry ----

  /** Two requests with the same token: the first has passed its checks when the token expires, the
      second reads the device just before and looks at the clock just after. */
  lemma ExpiryRaceIsReachable()
    ensures Reachable(Two(DAY + 1, SWAPPING, Delete(7, Expired(OfLogin(7)))))
  {
    SwapIsReady();
    HeldBySeven();
    GotoSecond(0, SWAPPING, Lookup, READ);
    NextIsReachable(Two(0, SWAPPING, Lookup), Succeed(1), Two(0, SWAPPING, READ));
    NextIsReachable(Two(0, SWAPPING, READ), Tick(DAY + 1), Two(DAY + 1, SWAPPING, READ));
    GotoSecond(DAY + 1, SWAPPING, READ, Delete(7, Expired(OfLogin(7))));
    NextIsReachable(Two(DAY + 1, SWAPPING, READ), Succeed(1), Two(DAY + 1, SWAPPING, Delete(7, Expired(OfLogin(7)))));
  }

  lemma SwapCommits(now: Instant, p: Pc)
    ensures var w := Two(now, SWAPPING, p);
            && Commits(w, 0) && Advance(w, 0).db.devices[7] == Device(1, OfRefresh(0), now + DAY)
            && Advance(w, 0).db.used == map[OfLogin(7) := Used(7, now)]
            && Advance(w, 0).requests == map[0 := Presents(Done(Committed(7, 1))), 1 := Presents(p)]
  {
    if Stale(now, now, DAY) { PruningIsLate(now, now, DAY); }
    assert Pruned(map[OfLogin(7) := Used(7, now)], now, DAY) == map[OfLogin(7) := Used(7, now)];
  }

  /** The swap then commits, with a fresh lifetime, and the second request deletes the device. */
  lemma FreshTokenIsDeleted() returns (w: World)
    ensures Reachable(w) && 0 in w.requests && 1 in w.requests && Commits(w, 0) &&
            w.requests[1].pc == Delete(7, Expired(OfLogin(7)))
    ensures var v := Next(w, Succeed(0));
            && 0 in v.requests && v.requests[0].pc == Done(Committed(7, 1))
            && 7 in v.db.devices && v.now <= v.db.devices[7].expires && !AcceptsAccess(Next(v, Succeed(1)), 7)
  {
    ExpiryRaceIsReachable();
    w := Two(DAY + 1, SWAPPING, Delete(7, Expired(OfLogin(7))));
    SwapCommits(DAY + 1, Delete(7, Expired(OfLogin(7))));
  }

  // ---- Failed lookups ----

  /** A token is rotated, and presented again in the same instant by a request whose lookup fails: the
      device is deleted, well inside the leeway. */
  lemma RecentRotationIsRevoked() returns (w: World)
    ensures Reachable(w) && 1 in w.requests && w.requests[1].pc.LookupUsed? && AcceptsAccess(w, 7)
    ensures w.requests[1].hash in w.db.used && w.db.used[w.requests[1].hash] == Used(7, w.now)
    ensures !AcceptsAccess(Run(w, [Fail(1), Succeed(1), Succeed(1), Succeed(1)]), 7)
  {
    SwapIsReady();
    SwapCommits(0, Lookup);
    var v := Advance(Two(0, SWAPPING, Lookup), 0);
    NextIsReachable(Two(0, SWAPPING, Lookup), Succeed(0), v);
    assert Holder(v.db, OfLogin(7)) == None;
    w := Next(v, Succeed(1));
    NextIsReachable(v, Succeed(1), w);
    FailedLookupRevokes(w, 1);
  }
}
