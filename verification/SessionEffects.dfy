/** What each step does to the session tables, row by row, and what the answers of a request without failed
    calls mean. */
module SessionEffects {
  import opened Options
  import opened Rfc3339
  import opened SessionModel
  import opened SessionInvariant
  import opened SessionGuarantees

  // ---- Which rows a step touches ----

  /** The action names this device for removal: by the deletion the request stands at, by its id, as one of
      its owner's, or with its owner's account. */
  predicate Removes(w: World, a: Action, e: DevId)
    requires e in w.db.devices
  {
    match a
    case Succeed(q) => q in w.requests && w.requests[q].pc.Delete? && w.requests[q].pc.dev == e
    case RevokeDevice(d) => d == e
    case RevokeOwnDevice(d, u) => d == e && w.db.devices[e].user == u
    case DropDevicesOf(u) => w.db.devices[e].user == u
    case DeleteAccount(u) => w.db.devices[e].user == u
    case _ => false
  }

  /** The request swaps the device's hash, if it is still the one it read. */
  predicate Swaps(w: World, a: Action, e: DevId)
    requires e in w.db.devices
  {
    && a.Succeed? && a.req in w.requests && w.requests[a.req].pc.Swap?
    && w.requests[a.req].pc.dev == e && w.requests[a.req].pc.from == w.db.devices[e].hash
  }

  /** A device that is there stays there exactly unless the step removes it, with its owner, and with its
      whole row unless the step swaps its hash; the hash is then the request's own. */
  lemma DeviceAfterStep(w: World, a: Action, e: DevId)
    requires Reachable(w) && e in w.db.devices
    ensures e in Next(w, a).db.devices <==> !Removes(w, a, e)
    ensures e in Next(w, a).db.devices ==> Next(w, a).db.devices[e].user == w.db.devices[e].user
    ensures e in Next(w, a).db.devices && !Swaps(w, a, e) ==> Next(w, a).db.devices[e] == w.db.devices[e]
    ensures Swaps(w, a, e) ==>
              var expires := w.now + w.requests[a.req].pc.ttl;
              e in Next(w, a).db.devices &&
              Next(w, a).db.devices[e] == Device(w.db.devices[e].user, OfRefresh(a.req), expires)
  {
    InvOnEveryRun(w);
    if a.Succeed? && Enabled(w, a) {
      if w.requests[a.req].pc.Swap? { SwapNeverClashes(w, a.req); }
      DeviceAfterOwnStep(w, a.req, e);
    }
  }

  lemma DeviceAfterOwnStep(w: World, q: ReqId, e: DevId)
    requires q in w.requests && e in w.db.devices
    requires var pc := w.requests[q].pc;
             pc.Swap? ==> Rotate(w.db, pc.dev, pc.from, OfRefresh(q), w.now + pc.ttl, w.now, pc.ttl) != Clash
    ensures var pc, after := w.requests[q].pc, Advance(w, q).db.devices;
            && (e in after <==> !(pc.Delete? && pc.dev == e))
            && (e in after ==>
                 after[e] == if pc.Swap? && pc.dev == e && pc.from == w.db.devices[e].hash
                             then Device(w.db.devices[e].user, OfRefresh(q), w.now + pc.ttl) else w.db.devices[e])
  {
    var pc := w.requests[q].pc;
    if pc.Swap? {
      if Commits(w, q) { CommittedWorld(w, q); } else { UncommittedSwap(w, q); }
    }
  }

  lemma UncommittedSwap(w: World, q: ReqId)
    requires q in w.requests && w.requests[q].pc.Swap? && !Commits(w, q)
    ensures Advance(w, q).db == w.db
  {
  }

  /** A device appears only by a login, as the user's, with the login's hash and the lifetime in force. */
  lemma DevicesAppearByLogin(w: World, a: Action, e: DevId)
    requires Reachable(w) && e !in w.db.devices
    ensures e in Next(w, a).db.devices <==> a.Login? && Enabled(w, a) && a.dev == e
    ensures e in Next(w, a).db.devices ==>
              Next(w, a).db.devices[e] == Device(a.user, OfLogin(e), w.now + w.ttl) && a.user in w.db.users
  {
    if a.Succeed? && Enabled(w, a) { NoOwnStepAdds(w, a.req, e); }
  }

  lemma NoOwnStepAdds(w: World, q: ReqId, e: DevId)
    requires q in w.requests && e !in w.db.devices
    ensures e !in Advance(w, q).db.devices
  {
    if w.requests[q].pc.Swap? && Commits(w, q) { CommittedWorld(w, q); }
  }

  /** A user goes exactly with the account. */
  lemma UserAfterStep(w: World, a: Action, u: UserId)
    ensures u in Next(w, a).db.users <==> (u in w.db.users && a != DeleteAccount(u)) || a == AddUser(u)
  {
    if a.Succeed? && Enabled(w, a) { OwnStepKeepsUsers(w, a.req); }
  }

  lemma OwnStepKeepsUsers(w: World, q: ReqId)
    requires q in w.requests
    ensures Advance(w, q).db.users == w.db.users
  {
  }

  /** The step rotates a device: the hash it read is the device's. */
  ghost predicate RotatesOne(w: World, a: Action)
  {
    a.Succeed? && a.req in w.requests && w.requests[a.req].pc.Swap? &&
    Holds(w.db, w.requests[a.req].pc.dev, w.requests[a.req].pc.from)
  }

  /** Recorded hashes: an account's go with it, a rotation drops the stale ones and adds the one it replaces,
      and every other step leaves them all. */
  lemma RecordsAfterStep(w: World, a: Action, h: Hash)
    requires Reachable(w)
    ensures h in Next(w, a).db.used ==>
              (h in w.db.used && Next(w, a).db.used[h] == w.db.used[h]) ||
              (RotatesOne(w, a) && h == w.requests[a.req].pc.from &&
               Next(w, a).db.used[h] == Used(w.requests[a.req].pc.dev, w.now))
    ensures h in w.db.used ==>
              (h !in Next(w, a).db.used <==>
                (RotatesOne(w, a) && Stale(w.db.used[h].at, w.now, w.requests[a.req].pc.ttl)) ||
                (a.DeleteAccount? && w.db.used[h].dev in w.db.devices && w.db.devices[w.db.used[h].dev].user == a.user))
  {
    InvOnEveryRun(w);
    if a.Succeed? && Enabled(w, a) {
      RecordsAfterOwnStep(w, a.req, h);
      if w.requests[a.req].pc.Swap? { SwapNeverClashes(w, a.req); }
    }
  }

  lemma RecordsAfterOwnStep(w: World, q: ReqId, h: Hash)
    requires q in w.requests
    ensures var used, pc := Advance(w, q).db.used, w.requests[q].pc;
            if !Commits(w, q) then used == w.db.used
            else
              && Holds(w.db, pc.dev, pc.from)
              && (h in used ==>
                   (h in w.db.used && used[h] == w.db.used[h]) || (h == pc.from && used[h] == Used(pc.dev, w.now)))
              && (h in w.db.used ==> (h !in used <==> Stale(w.db.used[h].at, w.now, pc.ttl)))
  {
    if Commits(w, q) {
      CommittedWorld(w, q);
    } else if w.requests[q].pc.Swap? {
      UncommittedSwap(w, q);
    }
  }
}
