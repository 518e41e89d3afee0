/** Login sessions as a step machine: device rows, rotated refresh tokens, and requests that make one
    database call at a time, in any interleaving (internal/auth/handlers.go, store.go and
    session_cookie.go). Write transactions are serial, so each is one step; so is each read. */
module SessionModel {
  import opened Options
  import opened Rfc3339

  type UserId = nat

  type DevId = nat

  type ReqId = nat

  /** A stored token hash, named by where its token came from. A request generates one token, so
      hashes from different logins and requests differ. Only texts the server never issued are left. */
  datatype Hash = OfLogin(dev: DevId) | OfRefresh(req: ReqId) | Unknown(text: string)

  const DAY := DAY_SECONDS * NANOS

  /** For this long after a rotation the old token is still exchanged. */
  const LEEWAY := 20 * NANOS

  const MAX_ATTEMPTS := 5

  // ---- The database ----

  datatype Device = Device(user: UserId, hash: Hash, expires: int)

  datatype Used = Used(dev: DevId, at: Instant)

  datatype Db = Db(users: set<UserId>, devices: map<DevId, Device>, used: map<Hash, Used>)

  predicate Holds(db: Db, d: DevId, h: Hash) { d in db.devices && db.devices[d].hash == h }

  /** The UNIQUE constraint on the current hash. */
  predicate HashesDiffer(db: Db)
  {
    forall d, e :: d in db.devices && e in db.devices && db.devices[d].hash == db.devices[e].hash ==> d == e
  }

  ghost function Holder(db: Db, h: Hash): (found: Option<DevId>)
    ensures found.Some? ==> Holds(db, found.value, h)
    ensures found.None? ==> forall d :: !Holds(db, d, h)
  {
    if d :| Holds(db, d, h) then Some(d) else None
  }

  /** `used_at < now - ttl - 24h`, a comparison of texts. A cutoff before year 0 starts with a minus
      sign, which comes before every digit. */
  predicate Stale(at: Instant, now: Instant, ttl: nat)
  {
    ttl + DAY <= now && TextBefore(Format(at), Format(now - ttl - DAY))
  }

  function Pruned(used: map<Hash, Used>, now: Instant, ttl: nat): map<Hash, Used>
  {
    map h | h in used && !Stale(used[h].at, now, ttl) :: used[h]
  }

  datatype Rotation = Lost | Clash | Rotated(db: Db)

  /** The transaction of `rotateRefreshToken`; a broken unique key rolls it back. */
  function Rotate(db: Db, d: DevId, from: Hash, to: Hash, expires: int, now: Instant, ttl: nat): Rotation
  {
    if !Holds(db, d, from) then Lost
    else if (exists e :: e in db.devices && e != d && db.devices[e].hash == to) || from in db.used then Clash
    else
      Rotated(db.(
        devices := db.devices[d := db.devices[d].(hash := to, expires := expires)],
        used := Pruned(db.used[from := Used(d, now)], now, ttl)))
  }

  /** The insert of `createDevice`, unless it breaks the foreign key, the primary key or the unique
      hash. */
  ghost function Inserted(db: Db, u: UserId, d: DevId, hash: Hash, expires: int): Option<Db>
  {
    if u !in db.users || d in db.devices || exists e :: Holds(db, e, hash) then None
    else Some(db.(devices := db.devices[d := Device(u, hash, expires)]))
  }

  function WithoutDevice(db: Db, d: DevId): Db { db.(devices := db.devices - {d}) }

  function WithoutOwnDevice(db: Db, d: DevId, u: UserId): Db
  {
    if d in db.devices && db.devices[d].user == u then WithoutDevice(db, d) else db
  }

  function DevicesOf(db: Db, u: UserId): set<DevId> { set d | d in db.devices && db.devices[d].user == u }

  function WithoutDevicesOf(db: Db, u: UserId): Db { db.(devices := db.devices - DevicesOf(db, u)) }

  /** The rows `deleteUserAccount` removes: recorded hashes of the user's devices, the user, and with
      the user the devices. */
  function WithoutAccount(db: Db, u: UserId): Db
  {
    Db(db.users - {u},
       db.devices - DevicesOf(db, u),
       map h | h in db.used && db.used[h].dev !in DevicesOf(db, u) :: db.used[h])
  }

  // ---- Requests ----

  datatype Kind = Refresh | Logout | CookieLogin

  datatype Reason = Reuse(faulted: bool) | Expired(from: Hash) | SignOut

  /** How a request ends: a rotation committed (and which link it added), 401 or 500 for a token that
      was good when looked up, five lost swaps, 401 for a token that was not, or a sign-out. `clean`
      is false when a failed database call may have left the session alive. */
  datatype Result =
    | Committed(dev: DevId, index: nat)
    | Refused(dev: DevId)
    | Broken(dev: DevId)
    | LostFive(dev: DevId, first: Hash)
    | Rejected(clean: bool)
    | SignedOut(clean: bool)
    | NoCookieSession

  /** The database call or clock check a request makes next. */
  datatype Pc =
    | Lookup
    | LookupUsed
    | CheckLeeway(dev: DevId, usedAt: Instant)
    | LoadRotated(dev: DevId)
    | CheckExpiry(dev: DevId, user: UserId, from: Hash, expires: int)
    | LoadUser(dev: DevId, user: UserId, from: Hash)
    | LoadSettings(dev: DevId, from: Hash)
    | Swap(dev: DevId, first: Hash, from: Hash, ttl: nat, attempt: nat)
    | Reload(dev: DevId, first: Hash, ttl: nat, attempt: nat)
    | WasUsed(faulted: bool)
    | FindUsed(faulted: bool)
    | Delete(dev: DevId, why: Reason)
    | LogoutLookup
    | LogoutUsed(clean: bool)
    | LoginLookup
    | Done(result: Result)

  datatype Request = Request(kind: Kind, hash: Hash, arrived: Instant, pc: Pc)

  /** A hash a device had as its current one, since when, and the expiry that came with it. */
  datatype Link = Link(hash: Hash, at: Instant, expires: int)

  /** `chain` and `ttlFloor` are history: every hash a device ever had, in order, and the shortest
      refresh token lifetime ever in force. No step looks at them. */
  datatype World = World(
    db: Db, now: Instant, ttl: nat, requests: map<ReqId, Request>,
    chain: map<DevId, seq<Link>>, ttlFloor: nat)

  function Goto(w: World, q: ReqId, pc: Pc): World
    requires q in w.requests
  {
    w.(requests := w.requests[q := w.requests[q].(pc := pc)])
  }

  function Links(w: World, d: DevId): seq<Link> { if d in w.chain then w.chain[d] else [] }

  function AfterDelete(d: DevId, why: Reason, deleted: bool): Result
  {
    match why
    case Reuse(_) => Rejected(deleted)
    case Expired(_) => Refused(d)
    case SignOut => SignedOut(deleted)
  }

  /** The device as a lookup returns it, with its current hash as the one to rotate away. */
  function Found(w: World, d: DevId): Pc
    requires d in w.db.devices
  {
    var row := w.db.devices[d];
    CheckExpiry(d, row.user, row.hash, row.expires)
  }

  /** The next step of a request, when the database call succeeds. */
  ghost function Advance(w: World, q: ReqId): World
    requires q in w.requests
  {
    var r := w.requests[q];
    match r.pc
    case Lookup =>
      (match Holder(w.db, r.hash)
       case Some(d) => Goto(w, q, Found(w, d))
       case None => Goto(w, q, LookupUsed))
    case LookupUsed =>
      if r.hash in w.db.used then Goto(w, q, CheckLeeway(w.db.used[r.hash].dev, w.db.used[r.hash].at))
      else Goto(w, q, WasUsed(false))
    case CheckLeeway(d, usedAt) =>
      Goto(w, q, if w.now - usedAt > LEEWAY then WasUsed(false) else LoadRotated(d))
    case LoadRotated(d) =>
      if d in w.db.devices then Goto(w, q, Found(w, d))
      else Goto(w, q, WasUsed(false))
    case CheckExpiry(d, user, from, expires) =>
      Goto(w, q, if w.now > expires then Delete(d, Expired(from)) else LoadUser(d, user, from))
    case LoadUser(d, user, from) =>
      Goto(w, q, if user in w.db.users then LoadSettings(d, from) else Done(Refused(d)))
    case LoadSettings(d, from) => Goto(w, q, Swap(d, from, from, w.ttl, 1))
    case Swap(d, first, from, ttl, attempt) =>
      (match Rotate(w.db, d, from, OfRefresh(q), w.now + ttl, w.now, ttl)
       case Rotated(db) =>
         Goto(w, q, Done(Committed(d, |Links(w, d)|))).(
           db := db, chain := w.chain[d := Links(w, d) + [Link(OfRefresh(q), w.now, w.now + ttl)]])
       case Clash => Goto(w, q, Done(Broken(d)))
       case Lost =>
         Goto(w, q, if attempt == MAX_ATTEMPTS then Done(LostFive(d, first)) else Reload(d, first, ttl, attempt)))
    case Reload(d, first, ttl, attempt) =>
      if d in w.db.devices then Goto(w, q, Swap(d, first, w.db.devices[d].hash, ttl, attempt + 1))
      else Goto(w, q, Done(Refused(d)))
    case WasUsed(faulted) =>
      Goto(w, q, if r.hash in w.db.used then FindUsed(faulted) else Done(Rejected(!faulted)))
    case FindUsed(faulted) =>
      Goto(w, q,
        if r.hash in w.db.used then Delete(w.db.used[r.hash].dev, Reuse(faulted)) else Done(Rejected(!faulted)))
    case Delete(d, why) => Goto(w, q, Done(AfterDelete(d, why, true))).(db := WithoutDevice(w.db, d))
    case LogoutLookup =>
      (match Holder(w.db, r.hash)
       case Some(d) => Goto(w, q, Delete(d, SignOut))
       case None => Goto(w, q, LogoutUsed(true)))
    case LogoutUsed(clean) =>
      if r.hash in w.db.used then Goto(w, q, Delete(w.db.used[r.hash].dev, SignOut))
      else Goto(w, q, Done(SignedOut(clean)))
    case LoginLookup =>
      (match Holder(w.db, r.hash)
       case Some(d) => Goto(w, q, Delete(d, SignOut))
       case None => Goto(w, q, Done(NoCookieSession)))
    case Done(_) => w
  }

  /** Where a request goes when its database call fails, which then has written nothing. The clock
      checks make no call. */
  function AfterFault(pc: Pc): Pc
  {
    match pc
    case Lookup => WasUsed(true)
    case LookupUsed => WasUsed(true)
    case LoadRotated(_) => WasUsed(true)
    case LoadUser(d, _, _) => Done(Refused(d))
    case LoadSettings(d, _) => Done(Broken(d))
    case Swap(d, _, _, _, _) => Done(Broken(d))
    case Reload(d, _, _, _) => Done(Refused(d))
    case WasUsed(_) => Done(Rejected(false))
    case FindUsed(_) => Done(Rejected(false))
    case Delete(d, why) => Done(AfterDelete(d, why, false))
    case LogoutLookup => LogoutUsed(false)
    case LogoutUsed(_) => Done(SignedOut(false))
    case LoginLookup => Done(NoCookieSession)
    case _ => pc
  }

  // ---- Runs ----

  /** Where a hash stands in the history of the device it was issued for. */
  datatype Place = Place(dev: DevId, index: nat)

  function PlaceOf(w: World, h: Hash): Option<Place>
  {
    match h
    case OfLogin(d) => if d in w.chain then Some(Place(d, 0)) else None
    case OfRefresh(q) =>
      if q in w.requests && w.requests[q].pc.Done? && w.requests[q].pc.result.Committed?
      then Some(Place(w.requests[q].pc.result.dev, w.requests[q].pc.result.index))
      else None
    case Unknown(_) => None
  }

  function FirstStep(k: Kind): Pc
  {
    match k
    case Refresh => Lookup
    case Logout => LogoutLookup
    case CookieLogin => LoginLookup
  }

  datatype Action =
    | Tick(to: Instant)
    | SetTtl(ttl: nat)
    | AddUser(user: UserId)
    | Login(user: UserId, dev: DevId)
    | Arrive(req: ReqId, hash: Hash, kind: Kind)
    | Succeed(req: ReqId)
    | Fail(req: ReqId)
    | RevokeDevice(dev: DevId)
    | RevokeOwnDevice(dev: DevId, user: UserId)
    | DropDevicesOf(user: UserId)
    | DeleteAccount(user: UserId)

  /** The clock does not run backwards, ids are fresh, a session belongs to a user, and a presented
      hash is of a token the server has handed out or of a text it never issued. */
  predicate Enabled(w: World, a: Action)
  {
    match a
    case Tick(to) => w.now <= to
    case Login(user, dev) => user in w.db.users && dev !in w.chain
    case Arrive(req, hash, _) => req !in w.requests && (hash.Unknown? || PlaceOf(w, hash).Some?)
    case Succeed(req) => req in w.requests
    case Fail(req) => req in w.requests
    case _ => true
  }

  ghost function Next(w: World, a: Action): World
  {
    if !Enabled(w, a) then w else
    match a
    case Tick(to) => w.(now := to)
    case SetTtl(ttl) => w.(ttl := ttl, ttlFloor := if ttl < w.ttlFloor then ttl else w.ttlFloor)
    case AddUser(user) => w.(db := w.db.(users := w.db.users + {user}))
    case Login(user, dev) =>
      w.(db := w.db.(devices := w.db.devices[dev := Device(user, OfLogin(dev), w.now + w.ttl)]),
         chain := w.chain[dev := [Link(OfLogin(dev), w.now, w.now + w.ttl)]])
    case Arrive(req, hash, kind) => w.(requests := w.requests[req := Request(kind, hash, w.now, FirstStep(kind))])
    case Succeed(req) => Advance(w, req)
    case Fail(req) => Goto(w, req, AfterFault(w.requests[req].pc))
    case RevokeDevice(dev) => w.(db := WithoutDevice(w.db, dev))
    case RevokeOwnDevice(dev, user) => w.(db := WithoutOwnDevice(w.db, dev, user))
    case DropDevicesOf(user) => w.(db := WithoutDevicesOf(w.db, user))
    case DeleteAccount(user) => w.(db := WithoutAccount(w.db, user))
  }

  ghost function Run(w: World, actions: seq<Action>): World
  {
    if actions == [] then w else Next(Run(w, actions[..|actions| - 1]), actions[|actions| - 1])
  }

  function Start(now: Instant, ttl: nat): World { World(Db({}, map[], map[]), now, ttl, map[], map[], ttl) }
}
