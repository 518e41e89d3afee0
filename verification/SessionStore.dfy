/** The session tables as a store of transactions that update rows in place, and what the handlers do to
    them when nobody else acts. */
module SessionStore {
  import opened Options
  import opened Rfc3339
  import opened SessionModel
  import opened SessionInvariant
  import opened SessionGuarantees

  datatype RotationError = NoError | TokenReused | ConstraintFailed

  /** The HTTP status a refresh answers with. */
  function Status(r: Result): int
    requires !r.SignedOut? && !r.NoCookieSession?
  {
    if r.Committed? then 200 else if r.Refused? || r.Rejected? then 401 else 500
  }

  // ---- A request on its own ----

  /** The request's next `n` steps, with nobody in between. */
  ghost function Alone(w: World, q: ReqId, n: nat): World
  {
    if n == 0 then w else Next(Alone(w, q, n - 1), Succeed(q))
  }

  /** The same action `n` times. */
  function Times(a: Action, n: nat): (s: seq<Action>)
    ensures |s| == n && forall i :: 0 <= i < n ==> s[i] == a
  {
    if n == 0 then [] else Times(a, n - 1) + [a]
  }

  lemma {:induction false} AloneIsARun(w: World, q: ReqId, n: nat)
    ensures Alone(w, q, n) == Run(w, Times(Succeed(q), n))
  {
    if n == 0 {
    } else {
      AloneIsARun(w, q, n - 1);
      var front := Times(Succeed(q), n - 1);
      assert (front + [Succeed(q)])[..n - 1] == front;
    }
  }

  lemma OneMoreStep(w: World, q: ReqId, n: nat)
    ensures Next(Alone(w, q, n), Succeed(q)) == Alone(w, q, n + 1)
  {
  }

  lemma {:induction false} AloneInTwoParts(w: World, q: ReqId, m: nat, n: nat)
    ensures Alone(Alone(w, q, m), q, n) == Alone(w, q, m + n)
  {
    if n == 0 {
    } else {
      AloneInTwoParts(w, q, m, n - 1);
    }
  }

  /** The device a presented hash entitles to: its current holder, or the one that rotated it away
      within the leeway. */
  ghost function Entitling(db: Db, hash: Hash, now: Instant): Option<DevId>
  {
    if Holder(db, hash).Some? then Holder(db, hash)
    else RotatedWithin(db, hash, LEEWAY, now)
  }

  /** The existing device that rotated the hash away at most `within` ago. */
  function RotatedWithin(db: Db, hash: Hash, within: nat, now: Instant): Option<DevId>
  {
    if hash in db.used && now - db.used[hash].at <= within && db.used[hash].dev in db.devices
    then Some(db.used[hash].dev)
    else None
  }

  datatype Answer = Answer(db: Db, status: int)

  predicate Answers(w: World, q: ReqId, a: Answer)
  {
    && w.db == a.db && q in w.requests && w.requests[q].pc.Done?
    && var r := w.requests[q].pc.result; !r.SignedOut? && !r.NoCookieSession? && Status(r) == a.status
  }

  function Retried(db: Db, q: ReqId, d: DevId, from: Hash, now: Instant, ttl: nat, attempt: nat): Answer
    requires attempt <= MAX_ATTEMPTS
    decreases MAX_ATTEMPTS - attempt
  {
    match Rotate(db, d, from, OfRefresh(q), now + ttl, now, ttl)
    case Rotated(after) => Answer(after, 200)
    case Clash => Answer(db, 500)
    case Lost =>
      if attempt == MAX_ATTEMPTS then Answer(db, 500)
      else if d !in db.devices then Answer(db, 401)
      else Retried(db, q, d, db.devices[d].hash, now, ttl, attempt + 1)
  }

  function FoundAnswer(db: Db, q: ReqId, d: DevId, now: Instant, ttl: nat): Answer
    requires d in db.devices
  {
    var row := db.devices[d];
    if now > row.expires then Answer(WithoutDevice(db, d), 401)
    else if row.user !in db.users then Answer(db, 401)
    else Retried(db, q, d, row.hash, now, ttl, 1)
  }

  function WithoutReused(db: Db, hash: Hash): Db
  {
    if hash in db.used then WithoutDevice(db, db.used[hash].dev) else db
  }

  ghost function Refreshed(db: Db, q: ReqId, hash: Hash, now: Instant, ttl: nat): Answer
  {
    match Entitling(db, hash, now)
    case Some(d) => FoundAnswer(db, q, d, now, ttl)
    case None => Answer(WithoutReused(db, hash), 401)
  }

  ghost function LoggedOut(db: Db, hash: Hash): Db
  {
    match Holder(db, hash)
    case Some(d) => WithoutDevice(db, d)
    case None => WithoutReused(db, hash)
  }

  ghost function CookieSessionEnded(db: Db, hash: Hash): Db
  {
    match Holder(db, hash)
    case Some(d) => WithoutDevice(db, d)
    case None => db
  }

  /** The world when the device has been looked up. */
  ghost function LookedUp(w: World, q: ReqId): World
    requires q in w.requests
  {
    match Entitling(w.db, w.requests[q].hash, w.now)
    case Some(d) => Goto(w, q, Found(w, d))
    case None => Goto(w, q, WasUsed(false))
  }

  lemma LookupAlone(w: World, q: ReqId) returns (n: nat)
    requires q in w.requests && w.requests[q].pc.Lookup?
    ensures n <= 4 && Alone(w, q, n) == LookedUp(w, q)
  {
    var h := w.requests[q].hash;
    var one := Alone(w, q, 1);
    assert one == Next(Alone(w, q, 0), Succeed(q));
    if Holder(w.db, h).Some? { return 1; }
    assert one == Goto(w, q, LookupUsed);
    var two := Alone(w, q, 2);
    assert two == Next(one, Succeed(q));
    if h !in w.db.used { return 2; }
    assert two == Goto(w, q, CheckLeeway(w.db.used[h].dev, w.db.used[h].at));
    var three := Alone(w, q, 3);
    assert three == Next(two, Succeed(q));
    if w.now - w.db.used[h].at > LEEWAY { return 3; }
    assert three == Goto(w, q, LoadRotated(w.db.used[h].dev));
    assert Alone(w, q, 4) == Next(three, Succeed(q));
    return 4;
  }

  lemma RejectionAlone(w: World, q: ReqId) returns (n: nat)
    requires q in w.requests && w.requests[q].pc == WasUsed(false)
    ensures n <= 3
    ensures Answers(Alone(w, q, n), q, Answer(WithoutReused(w.db, w.requests[q].hash), 401))
  {
    var h := w.requests[q].hash;
    var one := Alone(w, q, 1);
    assert one == Next(Alone(w, q, 0), Succeed(q));
    if h !in w.db.used { return 1; }
    assert one == Goto(w, q, FindUsed(false));
    var two := Alone(w, q, 2);
    assert two == Next(one, Succeed(q)) == Goto(w, q, Delete(w.db.used[h].dev, Reuse(false)));
    assert Alone(w, q, 3) == Next(two, Succeed(q));
    return 3;
  }

  /** What a swap leaves: a committed rotation, a broken key, or, when lost, a retry or the end. */
  predicate SwapLeaves(w: World, next: World, q: ReqId)
    requires q in w.requests && w.requests[q].pc.Swap?
  {
    var pc := w.requests[q].pc;
    && q in next.requests && next.now == w.now
    && match Rotate(w.db, pc.dev, pc.from, OfRefresh(q), w.now + pc.ttl, w.now, pc.ttl)
       case Rotated(db) => next.db == db && next.requests[q].pc.Done? && next.requests[q].pc.result.Committed?
       case Clash => next.db == w.db && next.requests[q].pc == Done(Broken(pc.dev))
       case Lost =>
         next.db == w.db &&
         next.requests[q].pc == if pc.attempt == MAX_ATTEMPTS then Done(LostFive(pc.dev, pc.first))
                                else Reload(pc.dev, pc.first, pc.ttl, pc.attempt)
  }

  lemma SwapAlone(w: World, q: ReqId)
    requires q in w.requests && w.requests[q].pc.Swap?
    ensures SwapLeaves(w, Next(w, Succeed(q)), q)
  {
  }

  lemma RotationKeepsHashes(db: Db, d: DevId, from: Hash, to: Hash, expires: int, now: Instant, ttl: nat)
    requires HashesDiffer(db) && Rotate(db, d, from, to, expires, now, ttl).Rotated?
    ensures HashesDiffer(Rotate(db, d, from, to, expires, now, ttl).db)
  {
  }

  class Store {
    var users: set<UserId>
    var devices: map<DevId, Device>
    var used: map<Hash, Used>

    function Tables(): Db
      reads this
    {
      Db(users, devices, used)
    }

    /** The UNIQUE constraint on current hashes. */
    ghost predicate Valid()
      reads this
    {
      HashesDiffer(Tables())
    }

    constructor ()
      ensures Valid() && Tables() == Db({}, map[], map[])
    {
      users, devices, used := {}, map[], map[];
    }

    /** Inserts a device unless that breaks a constraint. */
    method CreateDevice(user: UserId, d: DevId, hash: Hash, expires: int) returns (ok: bool)
      requires Valid()
      modifies this
      ensures Valid()
      ensures match Inserted(old(Tables()), user, d, hash, expires)
              case Some(db) => ok && Tables() == db
              case None => !ok && Tables() == old(Tables())
      ensures ok <==>
                user in users && d !in old(devices) && forall e :: e in old(devices) ==> old(devices)[e].hash != hash
      ensures users == old(users) && used == old(used)
      ensures devices == if ok then old(devices)[d := Device(user, hash, expires)] else old(devices)
    {
      if user !in users || d in devices {
        return false;
      }
      if e :| e in devices && devices[e].hash == hash {
        assert Holds(Tables(), e, hash);
        return false;
      }
      devices := devices[d := Device(user, hash, expires)];
      return true;
    }

    method GetDeviceByRefreshTokenHash(hash: Hash) returns (found: Option<DevId>)
      requires Valid()
      ensures found == Holder(Tables(), hash)
    {
      if d :| d in devices && devices[d].hash == hash {
        assert Holds(Tables(), d, hash);
        return Some(d);
      }
      return None;
    }

    method RotateRefreshToken(d: DevId, from: Hash, to: Hash, expires: int, now: Instant, ttl: nat)
      returns (err: RotationError)
      requires Valid()
      modifies this
      ensures Valid()
      ensures match Rotate(old(Tables()), d, from, to, expires, now, ttl)
              case Rotated(db) => err.NoError? && Tables() == db
              case Lost => err.TokenReused? && Tables() == old(Tables())
              case Clash => err.ConstraintFailed? && Tables() == old(Tables())
      ensures err.TokenReused? <==> !(d in old(devices) && old(devices)[d].hash == from)
      ensures err.NoError? <==>
                !err.TokenReused? && from !in old(used) &&
                forall e :: e in old(devices) && e != d ==> old(devices)[e].hash != to
      ensures err.NoError? ==> devices == old(devices)[d := Device(old(devices)[d].user, to, expires)]
      ensures err.NoError? ==> used == Pruned(old(used)[from := Used(d, now)], now, ttl)
      ensures !err.NoError? ==> users == old(users) && devices == old(devices) && used == old(used)
    {
      ghost var db := Tables();
      var before := devices;
      if d !in devices || devices[d].hash != from {
        return TokenReused;
      }
      if exists e :: e in devices && e != d && devices[e].hash == to {
        return ConstraintFailed;
      }
      devices := devices[d := devices[d].(hash := to, expires := expires)];
      if from in used {
        devices := before;
        return ConstraintFailed;
      }
      used := used[from := Used(d, now)];
      used := map h | h in used && !Stale(used[h].at, now, ttl) :: used[h];
      RotationKeepsHashes(db, d, from, to, expires, now, ttl);
      return NoError;
    }

    method DeleteDevice(d: DevId)
      requires Valid()
      modifies this
      ensures Valid() && Tables() == WithoutDevice(old(Tables()), d)
      ensures devices == map e | e in old(devices) && e != d :: old(devices)[e]
    {
      devices := devices - {d};
    }

    method RevokeDeviceForUser(d: DevId, user: UserId) returns (ok: bool)
      requires Valid()
      modifies this
      ensures Valid() && Tables() == WithoutOwnDevice(old(Tables()), d, user)
      ensures ok <==> d in old(devices) && old(devices)[d].user == user
      ensures devices == map e | e in old(devices) && !(e == d && old(devices)[e].user == user) :: old(devices)[e]
    {
      ok := d in devices && devices[d].user == user;
      if ok {
        devices := devices - {d};
      }
    }

    /** Part of a password reset and of a deactivation. */
    method DeleteDevicesOf(user: UserId)
      requires Valid()
      modifies this
      ensures Valid() && Tables() == WithoutDevicesOf(old(Tables()), user)
      ensures devices == map e | e in old(devices) && old(devices)[e].user != user :: old(devices)[e]
    {
      devices := map d | d in devices && devices[d].user != user :: devices[d];
      assert devices == old(devices) - DevicesOf(old(Tables()), user);
    }

    /** The recorded hashes go first, while the devices that name their owner still exist. */
    method DeleteUserAccount(user: UserId)
      requires Valid()
      modifies this
      ensures Valid() && Tables() == WithoutAccount(old(Tables()), user)
      ensures user !in users && devices == map e | e in old(devices) && old(devices)[e].user != user :: old(devices)[e]
    {
      used := map h | h in used && !(used[h].dev in devices && devices[used[h].dev].user == user) :: used[h];
      users := users - {user};
      devices := map d | d in devices && devices[d].user != user :: devices[d];
      assert devices == old(devices) - DevicesOf(old(Tables()), user);
      assert used == WithoutAccount(old(Tables()), user).used;
    }
  }

  // ---- What a handler does when left alone ----

  /** Alone, the first swap is not lost, so the loop is left in its first round. */
  lemma FirstSwapDecides(w: World, q: ReqId)
    requires q in w.requests && w.requests[q].pc.Swap? && w.requests[q].pc.attempt <= MAX_ATTEMPTS
    requires Holds(w.db, w.requests[q].pc.dev, w.requests[q].pc.from)
    ensures var pc := w.requests[q].pc;
            Answers(Alone(w, q, 1), q, Retried(w.db, q, pc.dev, pc.from, w.now, pc.ttl, pc.attempt))
  {
    SwapAlone(w, q);
    assert Alone(w, q, 1) == Next(w, Succeed(q)) by { OneMoreStep(w, q, 0); }
    SwapAnswers(w, Next(w, Succeed(q)), q);
  }

  lemma SwapAnswers(w: World, next: World, q: ReqId)
    requires q in w.requests && w.requests[q].pc.Swap? && w.requests[q].pc.attempt <= MAX_ATTEMPTS
    requires Holds(w.db, w.requests[q].pc.dev, w.requests[q].pc.from) && SwapLeaves(w, next, q)
    ensures var pc := w.requests[q].pc;
            Answers(next, q, Retried(w.db, q, pc.dev, pc.from, w.now, pc.ttl, pc.attempt))
  {
  }

  lemma FoundIsARun(w: World, q: ReqId, d: DevId) returns (n: nat)
    requires d in w.db.devices && q in w.requests && w.requests[q].pc == Found(w, d)
    ensures n <= 4 && Answers(Alone(w, q, n), q, FoundAnswer(w.db, q, d, w.now, w.ttl))
  {
    var row := w.db.devices[d];
    var one := Alone(w, q, 1);
    OneMoreStep(w, q, 0);
    var two := Alone(w, q, 2);
    OneMoreStep(w, q, 1);
    if w.now > row.expires || row.user !in w.db.users { return 2; }
    var three := Alone(w, q, 3);
    OneMoreStep(w, q, 2);
    assert three == Goto(w, q, Swap(d, row.hash, row.hash, w.ttl, 1));
    FirstSwapDecides(three, q);
    AloneInTwoParts(w, q, 3, 1);
    return 4;
  }

  /** The refresh handler, with nobody else acting, is a run of the step machine of at most 8 steps:
      same tables, same answer. */
  lemma RefreshedIsARun(w: World, q: ReqId) returns (n: nat)
    requires q in w.requests && w.requests[q].pc.Lookup?
    ensures n <= 8 && Answers(Alone(w, q, n), q, Refreshed(w.db, q, w.requests[q].hash, w.now, w.ttl))
    ensures Alone(w, q, n) == Run(w, Times(Succeed(q), n))
  {
    n := RefreshedAlone(w, q);
    AloneIsARun(w, q, n);
  }

  lemma {:induction false} RefreshedAlone(w: World, q: ReqId) returns (n: nat)
    requires q in w.requests && w.requests[q].pc.Lookup?
    ensures n <= 8 && Answers(Alone(w, q, n), q, Refreshed(w.db, q, w.requests[q].hash, w.now, w.ttl))
  {
    var k := LookupAlone(w, q);
    var m := AnsweredAlone(w, Alone(w, q, k), q);
    n := AnsweredInTwoParts(w, q, k, m, Refreshed(w.db, q, w.requests[q].hash, w.now, w.ttl));
  }

  lemma AnsweredInTwoParts(w: World, q: ReqId, m: nat, n: nat, a: Answer) returns (k: nat)
    requires Answers(Alone(Alone(w, q, m), q, n), q, a)
    ensures k == m + n && Answers(Alone(w, q, k), q, a)
  {
    AloneInTwoParts(w, q, m, n);
    return m + n;
  }

  lemma AnsweredAlone(w: World, looked: World, q: ReqId) returns (n: nat)
    requires q in w.requests
    requires looked == LookedUp(w, q)
    ensures n <= 4 && Answers(Alone(looked, q, n), q, Refreshed(w.db, q, w.requests[q].hash, w.now, w.ttl))
  {
    match Entitling(w.db, w.requests[q].hash, w.now)
    case Some(d) => n := FoundIsARun(looked, q, d);
    case None => n := RejectionAlone(looked, q);
  }

  /** So is the logout handler, of at most three steps. */
  lemma LogoutIsARun(w: World, q: ReqId) returns (n: nat)
    requires q in w.requests && w.requests[q].pc.LogoutLookup?
    ensures n <= 3 && Alone(w, q, n) == Goto(w, q, Done(SignedOut(true))).(db := LoggedOut(w.db, w.requests[q].hash))
  {
    var h := w.requests[q].hash;
    var found := Holder(w.db, h);
    var one := Alone(w, q, 1);
    OneMoreStep(w, q, 0);
    OneMoreStep(w, q, 1);
    if found.Some? { return 2; }
    assert one == Goto(w, q, LogoutUsed(true));
    if h !in w.db.used { return 2; }
    OneMoreStep(w, q, 2);
    return 3;
  }

  /** And the revocation a login in cookie mode makes, of at most two. */
  lemma CookieLoginIsARun(w: World, q: ReqId) returns (n: nat)
    requires q in w.requests && w.requests[q].pc.LoginLookup?
    ensures var v := Alone(w, q, n);
            n <= 2 && v.db == CookieSessionEnded(w.db, w.requests[q].hash) && q in v.requests && v.requests[q].pc.Done?
  {
    OneMoreStep(w, q, 0);
    OneMoreStep(w, q, 1);
    return if Holder(w.db, w.requests[q].hash).Some? then 2 else 1;
  }

  /** It ends exactly the session whose current token was presented: one rotated away is left alone. */
  lemma CookieLoginEndsOnlyTheCurrent(w: World, d: DevId, i: nat, h: Hash)
    requires Reachable(w) && Stands(w, d, i, h)
    ensures CookieSessionEnded(w.db, h) ==
            if d in w.db.devices && i + 1 == |w.chain[d]| then WithoutDevice(w.db, d) else w.db
  {
    InvOnEveryRun(w);
    CurrentMeansHeld(w, d, i, h);
  }

  /** Creating the device of a login breaks no constraint, and is the machine's step. */
  lemma LoginNeverClashes(w: World, u: UserId, d: DevId)
    requires Reachable(w) && Enabled(w, Login(u, d))
    ensures Inserted(w.db, u, d, OfLogin(d), w.now + w.ttl) == Some(Next(w, Login(u, d)).db)
  {
    InvOnEveryRun(w);
    forall e | Holds(w.db, e, OfLogin(d)) ensures false { HolderIsOwner(w, e, OfLogin(d)); }
  }

  // ---- When a lone refresh succeeds ----

  /** A swap from the device's current hash goes through. */
  lemma CurrentHashRotates(w: World, q: ReqId, d: DevId, expires: int, ttl: nat)
    requires DbOk(w) && d in w.db.devices && PlaceOf(w, OfRefresh(q)).None?
    ensures Rotate(w.db, d, w.db.devices[d].hash, OfRefresh(q), expires, w.now, ttl).Rotated?
  {
    HolderIsOwner(w, d, w.db.devices[d].hash);
    forall e | e in w.db.devices ensures w.db.devices[e].hash != OfRefresh(q) {
      HolderIsOwner(w, e, w.db.devices[e].hash);
    }
  }

  lemma FoundDecides(w: World, q: ReqId, d: DevId)
    requires DbOk(w) && d in w.db.devices && PlaceOf(w, OfRefresh(q)).None?
    ensures var a := FoundAnswer(w.db, q, d, w.now, w.ttl);
            if w.now <= w.db.devices[d].expires then a.status == 200 else a == Answer(WithoutDevice(w.db, d), 401)
  {
    CurrentHashRotates(w, q, d, w.now + w.ttl, w.ttl);
  }

  lemma EntitledDevice(w: World, d: DevId, i: nat, h: Hash)
    requires DbOk(w) && Stands(w, d, i, h)
    ensures Entitling(w.db, h, w.now) ==
            if d in w.db.devices && (i + 1 < |w.chain[d]| ==> w.now <= w.chain[d][i + 1].at + LEEWAY)
            then Some(d) else None
  {
    CurrentMeansHeld(w, d, i, h);
    if i + 1 < |w.chain[d]| { RotatedIsEntitledWithin(w, d, i, h); }
  }

  lemma CurrentMeansHeld(w: World, d: DevId, i: nat, h: Hash)
    requires DbOk(w) && Stands(w, d, i, h)
    ensures Holder(w.db, h) == if d in w.db.devices && i + 1 == |w.chain[d]| then Some(d) else None
    ensures i + 1 == |w.chain[d]| ==> h !in w.db.used
  {
    StandsAtPlace(w, d, i, h);
    var found := Holder(w.db, h);
    if found.Some? { HolderIsOwner(w, found.value, h); } else { NoHolderMeansGone(w, h); }
    if h in w.db.used { RecordMeansRotated(w, h); }
  }

  lemma RotatedIsEntitledWithin(w: World, d: DevId, i: nat, h: Hash)
    requires DbOk(w) && Stands(w, d, i, h) && i + 1 < |w.chain[d]|
    ensures var recent := d in w.db.devices && w.now <= w.chain[d][i + 1].at + LEEWAY;
            RotatedWithin(w.db, h, LEEWAY, w.now) == if recent then Some(d) else None
  {
    var at := w.chain[d][i + 1].at;
    StandsAtPlace(w, d, i, h);
    if h in w.db.used {
      RecordMeansRotated(w, h);
      assert w.db.used[h] == Used(d, at);
    } else if d in w.db.devices && w.now <= at + LEEWAY {
      RecordOfRotation(w, d, i, h, at);
    }
  }

  /** With nobody else acting, a refresh with an issued token succeeds exactly when its device exists
      and is not past its expiry, and the token is current or was rotated away at most the leeway ago.
      Otherwise the device is gone afterwards, unless the rotation is so old that its record may be. */
  lemma LoneRefreshIsExact(w: World, q: ReqId, d: DevId, i: nat)
    requires Reachable(w) && q in w.requests && w.requests[q].pc.Lookup? && Stands(w, d, i, w.requests[q].hash)
    ensures var a := Refreshed(w.db, q, w.requests[q].hash, w.now, w.ttl);
            && (a.status == 200 <==>
                 d in w.db.devices && w.now <= w.db.devices[d].expires &&
                 (i + 1 < |w.chain[d]| ==> w.now <= w.chain[d][i + 1].at + 20_000_000_000))
            && (a.status != 200 ==>
                 a.status == 401 &&
                 (d !in a.db.devices || (i + 1 < |w.chain[d]| && Forgettable(w, w.chain[d][i + 1].at))))
  {
    InvOnEveryRun(w);
    EntitledDevice(w, d, i, w.requests[q].hash);
    if Entitling(w.db, w.requests[q].hash, w.now).Some? {
      FoundDecides(w, q, d);
    } else {
      RejectionRevokes(w, d, i, w.requests[q].hash);
    }
  }

  lemma RejectionRevokes(w: World, d: DevId, i: nat, h: Hash)
    requires DbOk(w) && Stands(w, d, i, h) && Entitling(w.db, h, w.now).None?
    ensures d !in WithoutReused(w.db, h).devices || (i + 1 < |w.chain[d]| && Forgettable(w, w.chain[d][i + 1].at))
  {
    EntitledDevice(w, d, i, h);
    StandsAtPlace(w, d, i, h);
    if h in w.db.used { RecordMeansRotated(w, h); }
    else if d in w.db.devices && !Forgettable(w, w.chain[d][i + 1].at) {
      RecordOfRotation(w, d, i, h, w.chain[d][i + 1].at);
    }
  }

  /** A text the server never issued is refused, and nothing changes. */
  lemma LoneUnknownIsRefused(w: World, q: ReqId, text: string)
    requires Reachable(w)
    ensures Refreshed(w.db, q, Unknown(text), w.now, w.ttl) == Answer(w.db, 401)
  {
    InvOnEveryRun(w);
    if Holder(w.db, Unknown(text)).Some? { HolderIsOwner(w, Holder(w.db, Unknown(text)).value, Unknown(text)); }
  }
}
