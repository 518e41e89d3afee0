/** What the session machine guarantees in every run: one line of tokens per device, no false
    revocation, final revocation, and a memory of rotated tokens that lasts. */
module SessionGuarantees {
  import opened Options
  import opened Rfc3339
  import opened SessionModel
  import opened SessionInvariant

  ghost predicate Reachable(w: World) { exists now: Instant, ttl: nat, actions :: w == Run(Start(now, ttl), actions) }

  lemma InvOnEveryRun(w: World)
    requires Reachable(w)
    ensures Inv(w)
  {
    var now: Instant, ttl: nat, actions :| w == Run(Start(now, ttl), actions);
    InvAtStart(now, ttl);
    RunKeeps(Start(now, ttl), actions);
  }

  /** Link `i` of a device's history. */
  predicate Stands(w: World, d: DevId, i: int, h: Hash)
  {
    d in w.chain && 0 <= i < |w.chain[d]| && w.chain[d][i].hash == h
  }

  predicate RotatedAway(w: World, d: DevId, i: int, h: Hash, at: Instant)
  {
    Stands(w, d, i, h) && i + 1 < |w.chain[d]| && w.chain[d][i + 1].at == at
  }

  lemma PlaceStands(w: World, h: Hash)
    requires Chains(w) && PlaceOf(w, h).Some?
    ensures Stands(w, PlaceOf(w, h).value.dev, PlaceOf(w, h).value.index, h)
  {
  }

  lemma StandsAtPlace(w: World, d: DevId, i: nat, h: Hash)
    requires Chains(w) && Stands(w, d, i, h)
    ensures PlaceOf(w, h) == Some(Place(d, i))
  {
  }

  // ---- One line of tokens per device ----

  /** No hash is on two devices' lines or twice on one, so each is rotated away at most once. */
  lemma TokensDoNotFork(w: World, h: Hash, d: DevId, i: nat, e: DevId, j: nat)
    requires Reachable(w) && Stands(w, d, i, h) && Stands(w, e, j, h)
    ensures d == e && i == j
  {
    InvOnEveryRun(w);
    StandsAtPlace(w, d, i, h);
    StandsAtPlace(w, e, j, h);
  }

  /** Every line ends at its device's current hash, which is no other device's and not recorded as
      used; every record names the device that rotated the hash away, and when. */
  lemma LinesEndAtCurrentHash(w: World)
    requires Reachable(w)
    ensures forall d :: d in w.db.devices ==>
              Stands(w, d, |Links(w, d)| - 1, w.db.devices[d].hash) && w.db.devices[d].hash !in w.db.used
    ensures HashesDiffer(w.db)
    ensures forall h :: h in w.db.used ==> exists i :: RotatedAway(w, w.db.used[h].dev, i, h, w.db.used[h].at)
  {
    InvOnEveryRun(w);
    forall d | d in w.db.devices ensures IssuedFor(w, w.db.devices[d].hash, d) && w.db.devices[d].hash !in w.db.used {
      HolderIsOwner(w, d, w.db.devices[d].hash);
    }
    forall h | h in w.db.used ensures exists i :: RotatedAway(w, w.db.used[h].dev, i, h, w.db.used[h].at) {
      RecordMeansRotated(w, h);
      PlaceStands(w, h);
      assert RotatedAway(w, w.db.used[h].dev, PlaceOf(w, h).value.index, h, w.db.used[h].at);
    }
  }

  /** A swap never fails on a unique key. */
  lemma RecordingNeverClashes(w: World, q: ReqId)
    requires Reachable(w) && q in w.requests && w.requests[q].pc.Swap?
    ensures var pc := w.requests[q].pc;
            Rotate(w.db, pc.dev, pc.from, OfRefresh(q), w.now + pc.ttl, w.now, pc.ttl) != Clash
  {
    InvOnEveryRun(w);
    SwapNeverClashes(w, q);
  }

  // ---- Who may rotate ----

  /** A refresh commits only for a hash of that device that was current when the request arrived or
      later, or had been rotated away at most the leeway before; its own hash is the link it added. */
  lemma CommitMeansEntitled(w: World, q: ReqId, d: DevId, i: nat)
    requires Reachable(w) && q in w.requests && w.requests[q].pc == Done(Committed(d, i))
    ensures i > 0 && Stands(w, d, i, OfRefresh(q))
    ensures exists j :: Stands(w, d, j, w.requests[q].hash) &&
              (j + 1 < |w.chain[d]| ==> w.requests[q].arrived <= w.chain[d][j + 1].at + 20_000_000_000)
  {
    InvOnEveryRun(w);
    var r := w.requests[q];
    assert RequestOk(w, r);
    PlaceStands(w, OfRefresh(q));
    PlaceStands(w, OfLogin(d));
    PlaceStands(w, r.hash);
    assert Stands(w, d, PlaceOf(w, r.hash).value.index, r.hash);
  }

  /** A text the server never issued changes no row, whatever the step and whether it fails. */
  lemma UnknownTokenChangesNothing(w: World, q: ReqId)
    requires Reachable(w) && q in w.requests && w.requests[q].hash.Unknown?
    ensures Next(w, Succeed(q)).db == w.db && Next(w, Fail(q)).db == w.db
    ensures !(w.requests[q].pc.Done? && w.requests[q].pc.result.Committed?)
  {
    InvOnEveryRun(w);
    assert RequestOk(w, w.requests[q]);
  }

  // ---- Reuse ----

  /** Reuse handling deletes an existing device only for a hash that device rotated away longer ago
      than the leeway; or, after a failed lookup, for one it rotated away at some time. */
  lemma NoFalseRevocation(w: World, q: ReqId, d: DevId, faulted: bool)
    requires Reachable(w) && q in w.requests && w.requests[q].pc == Delete(d, Reuse(faulted)) && d in w.db.devices
    ensures exists i, at: Instant :: RotatedAway(w, d, i, w.requests[q].hash, at) && (faulted || at + LEEWAY < w.now)
  {
    InvOnEveryRun(w);
    var h := w.requests[q].hash;
    assert RequestOk(w, w.requests[q]);
    PlaceStands(w, h);
    var p := PlaceOf(w, h).value;
    assert RotatedAway(w, d, p.index, h, RotatedAt(w, p));
  }

  /** Conversely, a refresh whose hash had been rotated away for longer than the leeway when it
      arrived is always refused, and unless a database call failed the device is gone by then or the
      rotation is so old that its record may have been pruned. */
  lemma ReuseIsCaught(w: World, q: ReqId, d: DevId, i: nat, at: Instant)
    requires Reachable(w) && q in w.requests && w.requests[q].kind.Refresh? && w.requests[q].pc.Done?
    requires RotatedAway(w, d, i, w.requests[q].hash, at) && at + LEEWAY < w.requests[q].arrived
    ensures w.requests[q].pc.result.Rejected?
    ensures w.requests[q].pc.result.clean ==> d !in w.db.devices || Forgettable(w, at)
  {
    InvOnEveryRun(w);
    assert RequestOk(w, w.requests[q]);
    StandsAtPlace(w, d, i, w.requests[q].hash);
  }

  lemma OneByOne(w: World, a: Action, b: Action, c: Action, d: Action)
    ensures Run(w, [a, b, c, d]) == Next(Next(Next(Next(w, a), b), c), d)
  {
    assert [a, b, c, d][..3] == [a, b, c] && [a, b, c][..2] == [a, b];
    TwoActions(w, a, b);
    assert Run(w, [a, b, c]) == Next(Next(Next(w, a), b), c);
  }

  lemma ReuseTakesThreeSteps(w: World, q: ReqId, faulted: bool)
    requires q in w.requests && w.requests[q].hash in w.db.used && w.requests[q].pc == WasUsed(faulted)
    ensures Next(Next(Next(w, Succeed(q)), Succeed(q)), Succeed(q)).db ==
            WithoutDevice(w.db, w.db.used[w.requests[q].hash].dev)
  {
    var d := w.db.used[w.requests[q].hash].dev;
    var one, two := Goto(w, q, FindUsed(faulted)), Goto(w, q, Delete(d, Reuse(faulted)));
    assert Next(w, Succeed(q)) == one;
    assert Next(one, Succeed(q)) == two;
  }

  /** The exception is real: when one of the three lookups of a recorded hash fails, the handler goes on
      to revoke the device, however recent the rotation. */
  lemma FailedLookupRevokes(w: World, q: ReqId)
    requires Reachable(w) && q in w.requests && w.requests[q].hash in w.db.used
    requires var pc := w.requests[q].pc; pc.Lookup? || pc.LookupUsed? || pc.LoadRotated?
    ensures w.db.used[w.requests[q].hash].dev !in Run(w, [Fail(q), Succeed(q), Succeed(q), Succeed(q)]).db.devices
  {
    assert Next(w, Fail(q)) == Goto(w, q, WasUsed(true));
    ReuseTakesThreeSteps(Goto(w, q, WasUsed(true)), q, true);
    OneByOne(w, Fail(q), Succeed(q), Succeed(q), Succeed(q));
  }

  /** A rotated hash is still recorded for as long as any refresh token lifetime ever in force plus 24
      hours, to one second, if its device exists: pruning never touches what the leeway looks up. */
  lemma RotationsAreRemembered(w: World, d: DevId, i: nat, h: Hash, at: Instant)
    requires Reachable(w) && d in w.db.devices && RotatedAway(w, d, i, h, at)
    ensures w.now + NANOS <= at + w.ttlFloor + DAY ==> h in w.db.used && w.db.used[h] == Used(d, at)
    ensures w.now <= at + LEEWAY ==> h in w.db.used && w.db.used[h] == Used(d, at)
  {
    InvOnEveryRun(w);
    if !Forgettable(w, at) { RecordOfRotation(w, d, i, h, at); }
  }

  lemma RecordOfRotation(w: World, d: DevId, i: nat, h: Hash, at: Instant)
    requires Chains(w) && Records(w) && Memory(w) && d in w.db.devices && RotatedAway(w, d, i, h, at)
    requires !Forgettable(w, at)
    ensures h in w.db.used && w.db.used[h] == Used(d, at)
  {
    StandsAtPlace(w, d, i, h);
    assert Remembered(w, d, i);
  }

  // ---- Revocation ----

  /** `verifyAccessToken`, for a token whose signature and expiry are good. */
  predicate AcceptsAccess(w: World, d: DevId) { d in w.db.devices }

  lemma OnlyCommitsExtend(w: World, q: ReqId, d: DevId)
    requires q in w.requests && d in w.chain && !(Commits(w, q) && w.requests[q].pc.dev == d)
    ensures d in Advance(w, q).chain && Advance(w, q).chain[d] == w.chain[d]
  {
  }

  lemma NoStepRevives(w: World, a: Action, d: DevId)
    requires Inv(w) && d in w.chain && d !in w.db.devices
    ensures d !in Next(w, a).db.devices && d in Next(w, a).chain && Next(w, a).chain[d] == w.chain[d]
  {
    StepKeeps(w, a);
    if a.Succeed? && Enabled(w, a) { OnlyCommitsExtend(w, a.req, d); }
  }

  lemma {:induction false} NothingRevives(w: World, actions: seq<Action>, d: DevId)
    requires Inv(w) && d in w.chain && d !in w.db.devices
    ensures var v := Run(w, actions); d !in v.db.devices && d in v.chain && v.chain[d] == w.chain[d]
  {
    if actions == [] {
    } else {
      var front := actions[..|actions| - 1];
      NothingRevives(w, front, d);
      RunKeeps(w, front);
      NoStepRevives(Run(w, front), actions[|actions| - 1], d);
    }
  }

  /** Once a device is deleted, for whatever reason, no later step restores it, no access token that
      names it is accepted, and no refresh in flight commits a rotation for it. */
  lemma RevocationIsFinal(w: World, actions: seq<Action>, d: DevId)
    requires Reachable(w) && d in w.chain && d !in w.db.devices
    ensures var v := Run(w, actions);
            && !AcceptsAccess(v, d) && d in v.chain && v.chain[d] == w.chain[d]
            && forall q, i :: q in v.requests && v.requests[q].pc == Done(Committed(d, i)) ==>
                 q in w.requests && w.requests[q] == v.requests[q]
  {
    DeletedStaysDeleted(w, actions, d);
    LinesGoOn(w, actions);
    CommitsAreOld(w, Run(w, actions), d);
  }

  lemma DeletedStaysDeleted(w: World, actions: seq<Action>, d: DevId)
    requires Reachable(w) && d in w.chain && d !in w.db.devices
    ensures var v := Run(w, actions); d !in v.db.devices && d in v.chain && v.chain[d] == w.chain[d]
  {
    InvOnEveryRun(w);
    NothingRevives(w, actions, d);
  }

  lemma LinesGoOn(w: World, actions: seq<Action>)
    requires Reachable(w)
    ensures Chains(w) && Chains(Run(w, actions)) && Evolves(w, Run(w, actions))
  {
    InvOnEveryRun(w);
    RunKeeps(w, actions);
  }

  lemma CommitsAreOld(w: World, v: World, d: DevId)
    requires Chains(w) && Chains(v) && Evolves(w, v) && d in w.chain && d in v.chain && v.chain[d] == w.chain[d]
    ensures forall q, i :: q in v.requests && v.requests[q].pc == Done(Committed(d, i)) ==>
              q in w.requests && w.requests[q] == v.requests[q]
  {
    forall q, i | q in v.requests && v.requests[q].pc == Done(Committed(d, i))
      ensures q in w.requests && w.requests[q] == v.requests[q]
    {
      CommitIsOld(w, v, q, d, i);
    }
  }

  lemma CommitIsOld(w: World, v: World, q: ReqId, d: DevId, i: nat)
    requires Chains(w) && Chains(v) && Evolves(w, v) && d in w.chain && d in v.chain && v.chain[d] == w.chain[d]
    requires q in v.requests && v.requests[q].pc == Done(Committed(d, i))
    ensures q in w.requests && w.requests[q] == v.requests[q]
  {
    PlaceStands(v, OfRefresh(q));
    StandsAtPlace(w, d, i, OfRefresh(q));
  }

  /** A password reset or a deactivation ends every session the user has, for good, and no other. */
  lemma ResetEndsEverySession(w: World, u: UserId, actions: seq<Action>, d: DevId)
    requires Reachable(w) && d in w.db.devices
    ensures var reset := Next(w, DropDevicesOf(u));
            if w.db.devices[d].user == u then !AcceptsAccess(Run(reset, actions), d)
            else d in reset.db.devices && reset.db.devices[d] == w.db.devices[d]
  {
    if w.db.devices[d].user == u {
      InvOnEveryRun(w);
      DroppedDeviceStaysGone(w, u, actions, d);
    }
  }

  lemma DroppedDeviceIsGone(w: World, u: UserId, d: DevId)
    requires Rows(w) && d in w.db.devices && w.db.devices[d].user == u
    ensures d in Next(w, DropDevicesOf(u)).chain && d !in Next(w, DropDevicesOf(u)).db.devices
  {
  }

  lemma DroppedDeviceStaysGone(w: World, u: UserId, actions: seq<Action>, d: DevId)
    requires Inv(w) && d in w.db.devices && w.db.devices[d].user == u
    ensures !AcceptsAccess(Run(Next(w, DropDevicesOf(u)), actions), d)
  {
    StepKeeps(w, DropDevicesOf(u));
    DroppedDeviceIsGone(w, u, d);
    NothingRevives(Next(w, DropDevicesOf(u)), actions, d);
  }

  /** A logout without failed calls ends the session its token belongs to, also when the token has
      been rotated away meanwhile, unless the rotation is so old that its record may be gone. */
  lemma LogoutEndsTheSession(w: World, q: ReqId, d: DevId, i: nat, actions: seq<Action>)
    requires Reachable(w) && q in w.requests && w.requests[q].pc == Done(SignedOut(true))
    requires Stands(w, d, i, w.requests[q].hash)
    ensures !AcceptsAccess(w, d) || (i + 1 < |w.chain[d]| && Forgettable(w, w.chain[d][i + 1].at))
    ensures !AcceptsAccess(w, d) ==> !AcceptsAccess(Run(w, actions), d)
  {
    InvOnEveryRun(w);
    SignedOutMeansEnded(w, w.requests[q], d, i);
    if !AcceptsAccess(w, d) { RevocationIsFinal(w, actions, d); }
  }

  lemma SignedOutMeansEnded(w: World, r: Request, d: DevId, i: nat)
    requires Chains(w) && RequestOk(w, r) && r.pc == Done(SignedOut(true)) && Stands(w, d, i, r.hash)
    ensures !AcceptsAccess(w, d) || (i + 1 < |w.chain[d]| && Forgettable(w, w.chain[d][i + 1].at))
  {
    StandsAtPlace(w, d, i, r.hash);
  }

  // ---- Lifetimes ----

  /** The device expires one lifetime after its last token was issued. */
  predicate LifetimeIs(w: World, d: DevId, ttl: nat)
    requires d in w.db.devices
  {
    d in w.chain && w.chain[d] != [] && w.db.devices[d].expires == w.chain[d][|w.chain[d]| - 1].at + ttl
  }

  predicate Carries(pc: Pc, ttl: nat) { (pc.Swap? ==> pc.ttl == ttl) && (pc.Reload? ==> pc.ttl == ttl) }

  ghost predicate LifetimesAre(w: World, ttl: nat)
  {
    && w.ttl == ttl
    && (forall d :: d in w.db.devices ==> LifetimeIs(w, d, ttl))
    && (forall q :: q in w.requests ==> Carries(w.requests[q].pc, ttl))
  }

  lemma StepCarries(w: World, q: ReqId)
    requires q in w.requests && Carries(w.requests[q].pc, w.ttl)
    ensures q in Advance(w, q).requests && Carries(NextPc(w, q), w.ttl)
  {
  }

  /** Only a commit touches rows that stay, and it sets the expiry with the new link. */
  lemma StepSetsLifetime(w: World, q: ReqId, d: DevId)
    requires q in w.requests && d in Advance(w, q).db.devices && Carries(w.requests[q].pc, w.ttl)
    requires d in w.db.devices ==> LifetimeIs(w, d, w.ttl)
    ensures LifetimeIs(Advance(w, q), d, w.ttl)
  {
    if Commits(w, q) { CommitSetsLifetime(w, q, d); } else { OnlyCommitsTouchRows(w, q, d); }
  }

  lemma OnlyCommitsTouchRows(w: World, q: ReqId, d: DevId)
    requires q in w.requests && !Commits(w, q) && d in Advance(w, q).db.devices
    ensures d in w.db.devices && Advance(w, q).db.devices[d] == w.db.devices[d] && Advance(w, q).chain == w.chain
  {
  }

  lemma CommitSetsLifetime(w: World, q: ReqId, d: DevId)
    requires q in w.requests && Commits(w, q) && d in Advance(w, q).db.devices && w.requests[q].pc.ttl == w.ttl
    requires d in w.db.devices ==> LifetimeIs(w, d, w.ttl)
    ensures LifetimeIs(Advance(w, q), d, w.ttl)
  {
    assert d in w.db.devices;
  }

  lemma AdvanceKeepsLifetimes(w: World, q: ReqId)
    requires Inv(w) && LifetimesAre(w, w.ttl) && q in w.requests
    ensures LifetimesAre(Advance(w, q), w.ttl)
  {
    AdvanceKeeps(w, q);
    StepCarries(w, q);
    forall p | p in Advance(w, q).requests ensures Carries(Advance(w, q).requests[p].pc, w.ttl) {
      if p != q { OnlyItMoves(w, q, p); }
    }
    forall d | d in Advance(w, q).db.devices ensures LifetimeIs(Advance(w, q), d, w.ttl) {
      StepSetsLifetime(w, q, d);
    }
    TtlIsRead(w, q);
  }

  lemma OnlyItMoves(w: World, q: ReqId, p: ReqId)
    requires q in w.requests && p in Advance(w, q).requests && p != q
    ensures p in w.requests && Advance(w, q).requests[p] == w.requests[p]
  {
  }

  lemma TtlIsRead(w: World, q: ReqId)
    requires q in w.requests
    ensures Advance(w, q).ttl == w.ttl
  {
  }

  lemma OtherStepsKeepLifetimes(w: World, a: Action)
    requires LifetimesAre(w, w.ttl) && !a.Succeed? && !a.SetTtl?
    ensures LifetimesAre(Next(w, a), w.ttl)
  {
    var next := Next(w, a);
    forall d | d in next.db.devices ensures LifetimeIs(next, d, w.ttl) {
      if d in w.db.devices { assert LifetimeIs(w, d, w.ttl); }
    }
  }

  /** While the setting stays the same, a device expires exactly one lifetime after its login or its
      last rotation, whatever runs in between. */
  lemma {:induction false} ExpiryFollowsRotation(now: Instant, ttl: nat, actions: seq<Action>)
    requires forall i :: 0 <= i < |actions| ==> !actions[i].SetTtl?
    ensures LifetimesAre(Run(Start(now, ttl), actions), ttl)
  {
    if actions == [] {
    } else {
      var front, last := actions[..|actions| - 1], actions[|actions| - 1];
      var w := Run(Start(now, ttl), front);
      ExpiryFollowsRotation(now, ttl, front);
      if last.Succeed? {
        InvAtStart(now, ttl);
        RunKeeps(Start(now, ttl), front);
        if Enabled(w, last) { AdvanceKeepsLifetimes(w, last.req); }
      } else {
        OtherStepsKeepLifetimes(w, last);
      }
    }
  }

  // ---- Expiry ----

  /** A deletion for expiry is of a device that has expired, unless another refresh has rotated it since
      this request read it. While the setting stays the same it is wrong exactly if one has, and the last
      token of the device was issued at most a lifetime ago. */
  lemma ExpiryIsRightUnlessRotated(w: World, q: ReqId, d: DevId, from: Hash)
    requires Reachable(w) && q in w.requests && w.requests[q].pc == Delete(d, Expired(from)) && d in w.db.devices
    ensures w.db.devices[d].hash == from ==> w.db.devices[d].expires < w.now
    ensures w.db.devices[d].hash != from <==> exists i, at: Instant :: RotatedAway(w, d, i, from, at)
    ensures LifetimesAre(w, w.ttl) ==>
              d in w.chain && w.chain[d] != [] &&
              (w.now <= w.db.devices[d].expires <==>
                w.db.devices[d].hash != from && w.now <= w.chain[d][|w.chain[d]| - 1].at + w.ttl)
  {
    assert Chains(w) && Rows(w) && IssuedExpired(w, from, d) by {
      InvOnEveryRun(w);
      assert RequestOk(w, w.requests[q]);
    }
    HolderIsOwner(w, d, w.db.devices[d].hash);
    ReplacedMeansRotated(w, d, from);
    if LifetimesAre(w, w.ttl) { assert LifetimeIs(w, d, w.ttl); }
  }

  /** An issued hash of an existing device is current or has been rotated away. */
  lemma ReplacedMeansRotated(w: World, d: DevId, from: Hash)
    requires Chains(w) && Rows(w) && d in w.db.devices && IssuedFor(w, from, d)
    ensures w.db.devices[d].hash != from <==> exists i, at: Instant :: RotatedAway(w, d, i, from, at)
  {
    HolderIsOwner(w, d, w.db.devices[d].hash);
    PlaceStands(w, from);
    var i := PlaceOf(w, from).value.index;
    if w.db.devices[d].hash != from { assert RotatedAway(w, d, i, from, w.chain[d][i + 1].at); }
    forall j, at: Instant | RotatedAway(w, d, j, from, at) ensures w.db.devices[d].hash != from {
      StandsAtPlace(w, d, j, from);
    }
  }

  /** So a committed refresh can be followed by the deletion of its device. */
  lemma ExpiryDeletesAFreshToken(w: World, q: ReqId, p: ReqId, d: DevId, from: Hash)
    requires Reachable(w) && q in w.requests && p in w.requests && Commits(w, q)
    requires w.requests[q].pc.dev == d && w.requests[p].pc == Delete(d, Expired(from))
    ensures var v := Run(w, [Succeed(q), Succeed(p)]);
            q in v.requests && v.requests[q].pc.Done? && v.requests[q].pc.result.Committed? && !AcceptsAccess(v, d)
  {
    var one := Next(w, Succeed(q));
    assert one == Advance(w, q) && p != q;
    CommittedWorld(w, q);
    assert one.requests[p] == w.requests[p] && one.requests[q].pc.Done?;
    TwoActions(w, Succeed(q), Succeed(p));
  }

  lemma TwoActions(w: World, a: Action, b: Action)
    ensures Run(w, [a, b]) == Next(Next(w, a), b)
  {
    assert [a, b][..1] == [a] && [a][..0] == [];
    assert Run(w, [a]) == Next(w, a);
  }
}
