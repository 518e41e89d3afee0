/** What every step of the session machine keeps, whatever the interleaving and whichever database
    calls fail. */
module SessionInvariant {
  import opened Options
  import opened Rfc3339
  import opened SessionModel

  // ---- The history of a hash ----

  /** The place was once current and has been rotated away. */
  predicate WasRotated(w: World, p: Place) { p.dev in w.chain && p.index + 1 < |w.chain[p.dev]| }

  function RotatedAt(w: World, p: Place): Instant
    requires WasRotated(w, p)
  {
    w.chain[p.dev][p.index + 1].at
  }

  /** Long enough ago for a rotation to have pruned the record. */
  predicate Forgettable(w: World, at: Instant) { at + w.ttlFloor + DAY < w.now + NANOS }

  /** If the device the hash was issued for still exists, it has rotated the hash away. */
  predicate Gone(w: World, h: Hash)
  {
    var p := PlaceOf(w, h);
    p.Some? && p.value.dev in w.db.devices ==> WasRotated(w, p.value)
  }

  /** ... and did so longer ago than the leeway. */
  predicate Hopeless(w: World, h: Hash)
  {
    var p := PlaceOf(w, h);
    p.Some? && p.value.dev in w.db.devices ==> WasRotated(w, p.value) && RotatedAt(w, p.value) + LEEWAY < w.now
  }

  /** ... or so long ago that the record may be gone. */
  predicate Ended(w: World, h: Hash)
  {
    var p := PlaceOf(w, h);
    p.Some? && p.value.dev in w.db.devices ==> WasRotated(w, p.value) && Forgettable(w, RotatedAt(w, p.value))
  }

  predicate IssuedFor(w: World, h: Hash, d: DevId) { PlaceOf(w, h).Some? && PlaceOf(w, h).value.dev == d }

  /** The hash was this device's, and not rotated away before the leeway started. */
  predicate Entitled(w: World, r: Request, d: DevId)
  {
    && IssuedFor(w, r.hash, d)
    && var p := PlaceOf(w, r.hash).value;
       WasRotated(w, p) ==> r.arrived <= RotatedAt(w, p) + LEEWAY
  }

  /** The hash was this device's, with this expiry. */
  predicate IssuedWith(w: World, h: Hash, d: DevId, expires: int)
  {
    && IssuedFor(w, h, d)
    && var p := PlaceOf(w, h).value;
       p.dev in w.chain && p.index < |w.chain[p.dev]| &&
       w.chain[p.dev][p.index].expires == expires
  }

  /** The hash came with an expiry that has passed. */
  predicate IssuedExpired(w: World, h: Hash, d: DevId)
  {
    && IssuedFor(w, h, d)
    && var p := PlaceOf(w, h).value;
       p.dev in w.chain && p.index < |w.chain[p.dev]| &&
       w.chain[p.dev][p.index].expires < w.now
  }

  /** At least `n` rotations separate the two hashes. */
  predicate Apart(w: World, d: DevId, first: Hash, n: int, from: Hash)
  {
    IssuedFor(w, first, d) && IssuedFor(w, from, d) && PlaceOf(w, first).value.index + n <= PlaceOf(w, from).value.index
  }

  /** Unless the device is gone, at least `n` rotations have followed `first`. */
  predicate Overtaken(w: World, d: DevId, first: Hash, n: int)
  {
    IssuedFor(w, first, d) && (d in w.db.devices ==> PlaceOf(w, first).value.index + n < |Links(w, d)|)
  }

  // ---- The invariant ----

  /** The devices' histories partition the issued hashes: each hash stands at one place. */
  ghost predicate Chains(w: World)
  {
    && (forall d :: d in w.chain ==> w.chain[d] != [])
    && (forall d, i :: d in w.chain && 0 <= i < |w.chain[d]| ==> PlaceOf(w, w.chain[d][i].hash) == Some(Place(d, i)))
    && (forall h :: PlaceOf(w, h).Some? ==>
          var p := PlaceOf(w, h).value;
          p.dev in w.chain && p.index < |w.chain[p.dev]| &&
          w.chain[p.dev][p.index].hash == h)
  }

  predicate Rows(w: World)
  {
    forall d :: d in w.db.devices ==>
      && d in w.chain && w.chain[d] != []
      && w.db.devices[d].hash == w.chain[d][|w.chain[d]| - 1].hash
      && w.db.devices[d].expires == w.chain[d][|w.chain[d]| - 1].expires
      && w.db.devices[d].user in w.db.users
  }

  /** The record of a hash names the device that rotated it away, and when. */
  predicate Recorded(w: World, h: Hash)
    requires h in w.db.used
  {
    && IssuedFor(w, h, w.db.used[h].dev) && WasRotated(w, PlaceOf(w, h).value)
    && w.db.used[h].at == RotatedAt(w, PlaceOf(w, h).value)
  }

  predicate Records(w: World) { forall h :: h in w.db.used ==> Recorded(w, h) }

  predicate Remembered(w: World, d: DevId, i: nat)
    requires d in w.chain && i + 1 < |w.chain[d]|
  {
    w.chain[d][i].hash in w.db.used || Forgettable(w, w.chain[d][i + 1].at)
  }

  predicate Memory(w: World)
  {
    forall d, i :: d in w.db.devices && d in w.chain && 0 <= i && i + 1 < |w.chain[d]| ==> Remembered(w, d, i)
  }

  predicate Belongs(pc: Pc, kind: Kind)
  {
    var signsOut := pc.LogoutLookup? || pc.LogoutUsed? || pc.LoginLookup? || (pc.Delete? && pc.why.SignOut?) ||
                    (pc.Done? && (pc.result.SignedOut? || pc.result.NoCookieSession?));
    signsOut <==> !kind.Refresh?
  }

  predicate RequestOk(w: World, r: Request)
  {
    && Belongs(r.pc, r.kind)
    && (r.hash.Unknown? || PlaceOf(w, r.hash).Some?)
    && r.arrived <= w.now
    && match r.pc
       case LookupUsed => Gone(w, r.hash)
       case CheckLeeway(d, usedAt) =>
         IssuedFor(w, r.hash, d) && WasRotated(w, PlaceOf(w, r.hash).value) &&
           RotatedAt(w, PlaceOf(w, r.hash).value) == usedAt
       case LoadRotated(d) => Entitled(w, r, d)
       case CheckExpiry(d, _, from, expires) => Entitled(w, r, d) && IssuedWith(w, from, d, expires)
       case LoadUser(d, _, from) => Entitled(w, r, d) && IssuedFor(w, from, d)
       case LoadSettings(d, from) => Entitled(w, r, d) && IssuedFor(w, from, d)
       case Swap(d, first, from, ttl, attempt) =>
         Entitled(w, r, d) && 1 <= attempt <= MAX_ATTEMPTS && w.ttlFloor <= ttl && Apart(w, d, first, attempt - 1, from)
       case Reload(d, first, ttl, attempt) =>
         Entitled(w, r, d) && 1 <= attempt < MAX_ATTEMPTS && w.ttlFloor <= ttl && Overtaken(w, d, first, attempt)
       case WasUsed(faulted) => faulted || Hopeless(w, r.hash)
       case FindUsed(faulted) => faulted || Hopeless(w, r.hash)
       case Delete(d, Reuse(faulted)) => IssuedFor(w, r.hash, d) && Gone(w, r.hash) && (faulted || Hopeless(w, r.hash))
       case Delete(d, Expired(from)) => Entitled(w, r, d) && IssuedExpired(w, from, d)
       case Delete(d, SignOut) => IssuedFor(w, r.hash, d)
       case LogoutUsed(clean) => clean ==> Gone(w, r.hash)
       case Done(Committed(d, _)) => Entitled(w, r, d)
       case Done(Refused(d)) => Entitled(w, r, d)
       case Done(Broken(d)) => Entitled(w, r, d)
       case Done(Rejected(clean)) => clean ==> Ended(w, r.hash)
       case Done(LostFive(d, first)) => Entitled(w, r, d) && Overtaken(w, d, first, MAX_ATTEMPTS)
       case Done(SignedOut(clean)) => clean ==> Ended(w, r.hash)
       case _ => true
  }

  ghost predicate DbOk(w: World) { Chains(w) && Rows(w) && Records(w) && Memory(w) && w.ttlFloor <= w.ttl }

  ghost predicate Inv(w: World)
  {
    && DbOk(w)
    && forall q {:trigger RequestOk(w, w.requests[q])} :: q in w.requests ==> RequestOk(w, w.requests[q])
  }

  // ---- What no step undoes ----

  /** Devices only disappear, histories only grow, answers stand. */
  ghost predicate Evolves(v: World, w: World)
  {
    && v.now <= w.now && w.ttlFloor <= v.ttlFloor
    && (forall d :: d in v.chain ==>
          d in w.chain && |v.chain[d]| <= |w.chain[d]| &&
          forall i :: 0 <= i < |w.chain[d]| ==>
            if i < |v.chain[d]| then w.chain[d][i] == v.chain[d][i] else v.now <= w.chain[d][i].at)
    && (forall d :: d in v.chain && d in w.db.devices ==>
          d in v.db.devices &&
          w.db.devices[d].user == v.db.devices[d].user)
    && (forall h :: PlaceOf(v, h).Some? ==> PlaceOf(w, h) == PlaceOf(v, h))
    && (forall q :: q in v.requests ==>
          q in w.requests && w.requests[q] == v.requests[q].(pc := w.requests[q].pc) &&
          (v.requests[q].pc.Done? ==> w.requests[q] == v.requests[q]))
  }

  lemma EvolvesOn(u: World, v: World, w: World)
    requires Evolves(u, v) && Evolves(v, w)
    ensures Evolves(u, w)
  {
  }

  /** What is known of the presented hash stays true while others act. */
  lemma HashFactsStay(v: World, w: World, r: Request, d: DevId)
    requires Chains(v) && Evolves(v, w) && (r.hash.Unknown? || PlaceOf(v, r.hash).Some?) && r.arrived <= v.now
    ensures r.hash.Unknown? || PlaceOf(w, r.hash) == PlaceOf(v, r.hash)
    ensures (Gone(v, r.hash) ==> Gone(w, r.hash)) && (Hopeless(v, r.hash) ==> Hopeless(w, r.hash))
    ensures (Ended(v, r.hash) ==> Ended(w, r.hash)) && (Entitled(v, r, d) ==> Entitled(w, r, d))
  {
    if PlaceOf(v, r.hash).Some? { PlaceStays(v, w, r.hash); }
  }

  lemma ExpiryFactsStay(v: World, w: World, d: DevId, from: Hash, expires: int)
    requires Chains(v) && Evolves(v, w)
    ensures IssuedWith(v, from, d, expires) ==> IssuedWith(w, from, d, expires)
    ensures IssuedExpired(v, from, d) ==> IssuedExpired(w, from, d)
  {
    if PlaceOf(v, from).Some? { PlaceStays(v, w, from); }
  }

  lemma RotationFactsStay(v: World, w: World, d: DevId, first: Hash, n: int, from: Hash)
    requires Chains(v) && Evolves(v, w)
    ensures IssuedFor(v, from, d) ==> IssuedFor(w, from, d)
    ensures Apart(v, d, first, n, from) ==> Apart(w, d, first, n, from)
    ensures Overtaken(v, d, first, n) ==> Overtaken(w, d, first, n)
  {
    if PlaceOf(v, first).Some? { PlaceStays(v, w, first); }
    if PlaceOf(v, from).Some? { PlaceStays(v, w, from); }
  }

  /** What is known of a request stays true while others act. */
  lemma RequestOkStays(v: World, w: World, r: Request)
    requires Chains(v) && Evolves(v, w) && RequestOk(v, r)
    ensures RequestOk(w, r)
  {
    match r.pc
    case CheckLeeway(d, _) => PlaceStays(v, w, r.hash);
    case LoadRotated(d) => HashFactsStay(v, w, r, d);
    case CheckExpiry(d, _, from, expires) => HashFactsStay(v, w, r, d); ExpiryFactsStay(v, w, d, from, expires);
    case LoadUser(d, _, from) => HashFactsStay(v, w, r, d); RotationFactsStay(v, w, d, from, 0, from);
    case LoadSettings(d, from) => HashFactsStay(v, w, r, d); RotationFactsStay(v, w, d, from, 0, from);
    case Swap(d, first, from, _, attempt) =>
      HashFactsStay(v, w, r, d);
      RotationFactsStay(v, w, d, first, attempt - 1, from);
    case Reload(d, first, _, attempt) => HashFactsStay(v, w, r, d); RotationFactsStay(v, w, d, first, attempt, first);
    case Delete(d, Expired(from)) => HashFactsStay(v, w, r, d); ExpiryFactsStay(v, w, d, from, 0);
    case Delete(d, _) => HashFactsStay(v, w, r, d);
    case Done(LostFive(d, first)) => HashFactsStay(v, w, r, d); RotationFactsStay(v, w, d, first, MAX_ATTEMPTS, first);
    case Done(Committed(d, _)) => HashFactsStay(v, w, r, d);
    case Done(Refused(d)) => HashFactsStay(v, w, r, d);
    case Done(Broken(d)) => HashFactsStay(v, w, r, d);
    case _ => HashFactsStay(v, w, r, 0);
  }

  /** A place keeps its position and its time of rotation; a rotation still to come is not in the past. */
  lemma PlaceStays(v: World, w: World, h: Hash)
    requires Chains(v) && Evolves(v, w) && PlaceOf(v, h).Some?
    ensures PlaceOf(w, h) == PlaceOf(v, h)
    ensures var p := PlaceOf(v, h).value;
            && p.dev in v.chain && p.dev in w.chain && |v.chain[p.dev]| <= |w.chain[p.dev]|
            && p.index < |v.chain[p.dev]| && w.chain[p.dev][p.index] == v.chain[p.dev][p.index]
            && (WasRotated(v, p) ==> WasRotated(w, p) && RotatedAt(w, p) == RotatedAt(v, p))
            && (!WasRotated(v, p) && WasRotated(w, p) ==> v.now <= RotatedAt(w, p))
            && (p.dev in w.db.devices ==> p.dev in v.db.devices)
  {
  }

  // ---- Steps that rotate nothing ----

  /** Rows may disappear, but no record of a device that stays. */
  ghost predicate Shrinks(v: World, w: World)
  {
    && w.chain == v.chain && v.now <= w.now && w.ttlFloor <= v.ttlFloor && w.ttlFloor <= w.ttl
    && (forall d :: d in w.db.devices ==> d in v.db.devices && w.db.devices[d] == v.db.devices[d])
    && (forall d :: d in w.db.devices ==> w.db.devices[d].user in w.db.users)
    && (forall h :: h in w.db.used ==> h in v.db.used && w.db.used[h] == v.db.used[h])
    && (forall h :: h in v.db.used && v.db.used[h].dev in w.db.devices ==> h in w.db.used)
  }

  ghost predicate SameAnswers(v: World, w: World)
  {
    && (forall h :: PlaceOf(w, h) == PlaceOf(v, h))
    && (forall q :: q in v.requests ==>
          q in w.requests && w.requests[q] == v.requests[q].(pc := w.requests[q].pc) &&
          (v.requests[q].pc.Done? ==> w.requests[q] == v.requests[q]))
  }

  lemma ShrinkEvolves(v: World, w: World)
    requires Shrinks(v, w) && SameAnswers(v, w)
    ensures Evolves(v, w)
  {
  }

  lemma ShrinkKeepsRows(v: World, w: World)
    requires Chains(v) && Rows(v) && Shrinks(v, w) && SameAnswers(v, w)
    ensures Chains(w) && Rows(w)
  {
  }

  lemma ShrinkKeepsRecords(v: World, w: World)
    requires Records(v) && Shrinks(v, w) && SameAnswers(v, w)
    ensures Records(w)
  {
    forall h | h in w.db.used ensures Recorded(w, h) { assert Recorded(v, h); }
  }

  lemma ShrinkKeepsMemory(v: World, w: World)
    requires Chains(v) && Records(v) && Memory(v) && Shrinks(v, w) && SameAnswers(v, w)
    ensures Memory(w)
  {
    forall d, i | d in w.db.devices && d in w.chain && 0 <= i && i + 1 < |w.chain[d]| ensures Remembered(w, d, i) {
      assert Remembered(v, d, i);
      var h := v.chain[d][i].hash;
      assert PlaceOf(v, h) == Some(Place(d, i));
    }
  }

  lemma ShrinkKeeps(v: World, w: World)
    requires DbOk(v) && Shrinks(v, w) && SameAnswers(v, w)
    ensures Evolves(v, w) && DbOk(w)
  {
    ShrinkEvolves(v, w);
    ShrinkKeepsRows(v, w);
    ShrinkKeepsRecords(v, w);
    ShrinkKeepsMemory(v, w);
  }

  /** An action that leaves the requests alone. */
  lemma EnvironmentKeeps(v: World, w: World)
    requires Inv(v) && Shrinks(v, w) && w.requests == v.requests
    ensures Inv(w) && Evolves(v, w)
  {
    forall h ensures PlaceOf(w, h) == PlaceOf(v, h) {}
    ShrinkKeeps(v, w);
    forall q | q in w.requests ensures RequestOk(w, w.requests[q]) { RequestOkStays(v, w, w.requests[q]); }
  }

  /** Only the request moves, and it does not commit. */
  ghost predicate Moves(v: World, w: World, q: ReqId)
  {
    && q in v.requests && q in w.requests && !v.requests[q].pc.Done?
    && w.requests == v.requests[q := v.requests[q].(pc := w.requests[q].pc)]
    && !(w.requests[q].pc.Done? && w.requests[q].pc.result.Committed?)
    && Shrinks(v, w)
  }

  lemma MoveEvolves(v: World, w: World, q: ReqId)
    requires DbOk(v) && Moves(v, w, q)
    ensures Evolves(v, w) && DbOk(w)
  {
    forall h ensures PlaceOf(w, h) == PlaceOf(v, h) {}
    ShrinkKeeps(v, w);
  }

  lemma MoveKeeps(v: World, w: World, q: ReqId)
    requires Inv(v) && Moves(v, w, q) && RequestOk(w, w.requests[q])
    ensures Inv(w) && Evolves(v, w)
  {
    MoveEvolves(v, w, q);
    forall p | p in w.requests ensures RequestOk(w, w.requests[p]) {
      if p != q { RequestOkStays(v, w, w.requests[p]); }
    }
  }

  // ---- Lookups ----

  /** The row that holds a hash is the one the hash was issued for, and the hash is its latest. */
  lemma HolderIsOwner(w: World, d: DevId, h: Hash)
    requires Chains(w) && Rows(w) && Holds(w.db, d, h)
    ensures IssuedWith(w, h, d, w.db.devices[d].expires) && !WasRotated(w, PlaceOf(w, h).value)
  {
    var i := |w.chain[d]| - 1;
    assert PlaceOf(w, w.chain[d][i].hash) == Some(Place(d, i));
  }

  lemma NoHolderMeansGone(w: World, h: Hash)
    requires Chains(w) && Rows(w) && Holder(w.db, h) == None
    ensures Gone(w, h)
  {
    var p := PlaceOf(w, h);
    if p.Some? && p.value.dev in w.db.devices {
      var d, i := p.value.dev, p.value.index;
      assert w.chain[d][i].hash == h && !Holds(w.db, d, h);
      assert i != |w.chain[d]| - 1;
    }
  }

  /** A hash that is neither current nor recorded has been gone for longer than the leeway. */
  lemma NotRecordedMeansEnded(w: World, h: Hash)
    requires Chains(w) && Memory(w) && Gone(w, h) && h !in w.db.used
    ensures Ended(w, h) && Hopeless(w, h)
  {
    var p := PlaceOf(w, h);
    if p.Some? && p.value.dev in w.db.devices {
      assert Remembered(w, p.value.dev, p.value.index);
    }
  }

  lemma RecordMeansRotated(w: World, h: Hash)
    requires Records(w) && h in w.db.used
    ensures IssuedFor(w, h, w.db.used[h].dev) && WasRotated(w, PlaceOf(w, h).value) && Gone(w, h)
    ensures RotatedAt(w, PlaceOf(w, h).value) == w.db.used[h].at
  {
    assert Recorded(w, h);
  }

  // ---- Steps of a request ----

  predicate Commits(w: World, q: ReqId)
    requires q in w.requests
  {
    var r := w.requests[q];
    r.pc.Swap? && Rotate(w.db, r.pc.dev, r.pc.from, OfRefresh(q), w.now + r.pc.ttl, w.now, r.pc.ttl).Rotated?
  }

  lemma FoundOk(w: World, r: Request, d: DevId)
    requires DbOk(w) && RequestOk(w, r) && r.kind.Refresh? && d in w.db.devices && Entitled(w, r, d)
    ensures RequestOk(w, r.(pc := Found(w, d)))
  {
    HolderIsOwner(w, d, w.db.devices[d].hash);
  }

  /** A swap loses only to another rotation, or to a deletion. */
  lemma LostMeansOvertaken(w: World, d: DevId, first: Hash, n: nat, from: Hash)
    requires Chains(w) && Rows(w) && Apart(w, d, first, n, from) && !Holds(w.db, d, from)
    ensures Overtaken(w, d, first, n + 1)
  {
    if d in w.db.devices {
      var i := PlaceOf(w, from).value.index;
      assert w.chain[d][i].hash == from;
      assert i != |w.chain[d]| - 1;
    }
  }

  /** The next program counter after a step that writes nothing. */
  ghost function NextPc(w: World, q: ReqId): Pc
    requires q in w.requests
  {
    Advance(w, q).requests[q].pc
  }

  /** What is known after a step that looks a token up. */
  lemma LookupOk(w: World, q: ReqId)
    requires DbOk(w) && q in w.requests && RequestOk(w, w.requests[q])
    requires var pc := w.requests[q].pc;
             pc.Lookup? || pc.LookupUsed? || pc.LogoutLookup? || pc.LogoutUsed? ||
             pc.LoginLookup?
    ensures RequestOk(w, w.requests[q].(pc := NextPc(w, q)))
  {
    var r := w.requests[q];
    var found := Holder(w.db, r.hash);
    if found.Some? {
      HolderIsOwner(w, found.value, r.hash);
      if r.pc.Lookup? { FoundOk(w, r, found.value); }
    } else {
      NoHolderMeansGone(w, r.hash);
    }
    if r.hash in w.db.used { RecordMeansRotated(w, r.hash); }
    else if Gone(w, r.hash) { NotRecordedMeansEnded(w, r.hash); }
  }

  lemma LostSwapOk(w: World, q: ReqId)
    requires DbOk(w) && q in w.requests && w.requests[q].pc.Swap? && RequestOk(w, w.requests[q]) && !Commits(w, q)
    ensures RequestOk(w, w.requests[q].(pc := NextPc(w, q)))
  {
    var pc := w.requests[q].pc;
    if !Holds(w.db, pc.dev, pc.from) { LostMeansOvertaken(w, pc.dev, pc.first, pc.attempt - 1, pc.from); }
  }

  /** What is known after a step of the reuse handling. */
  lemma ReuseStepOk(w: World, q: ReqId)
    requires DbOk(w) && q in w.requests && RequestOk(w, w.requests[q])
    requires w.requests[q].pc.WasUsed? || w.requests[q].pc.FindUsed?
    ensures RequestOk(w, w.requests[q].(pc := NextPc(w, q)))
  {
    var h := w.requests[q].hash;
    if h in w.db.used { RecordMeansRotated(w, h); }
    else if Gone(w, h) { NotRecordedMeansEnded(w, h); }
  }

  /** What is known after any other step that writes nothing. */
  lemma CheckOk(w: World, q: ReqId)
    requires DbOk(w) && q in w.requests && RequestOk(w, w.requests[q])
    requires var pc := w.requests[q].pc;
             pc.CheckLeeway? || pc.LoadRotated? || pc.CheckExpiry? || pc.LoadUser? || pc.LoadSettings? || pc.Reload?
    ensures RequestOk(w, w.requests[q].(pc := NextPc(w, q)))
  {
    var r := w.requests[q];
    match r.pc
    case LoadRotated(d) =>
      if d in w.db.devices { FoundOk(w, r, d); }
    case Reload(d, _, _, _) =>
      if d in w.db.devices { HolderIsOwner(w, d, w.db.devices[d].hash); }
    case _ =>
  }

  predicate NotACommit(pc: Pc) { !(pc.Done? && pc.result.Committed?) }

  lemma GotoKeeps(w: World, q: ReqId, pc: Pc)
    requires Inv(w) && q in w.requests && !w.requests[q].pc.Done? && NotACommit(pc)
    requires RequestOk(w, w.requests[q].(pc := pc))
    ensures Inv(Goto(w, q, pc)) && Evolves(w, Goto(w, q, pc))
  {
    var next := Goto(w, q, pc);
    assert Moves(w, next, q);
    MoveEvolves(w, next, q);
    RequestOkStays(w, next, next.requests[q]);
    MoveKeeps(w, next, q);
  }

  lemma ReadKeeps(w: World, q: ReqId)
    requires Inv(w) && q in w.requests && !w.requests[q].pc.Done? && !w.requests[q].pc.Delete? && !Commits(w, q)
    ensures Inv(Advance(w, q)) && Evolves(w, Advance(w, q))
  {
    var r := w.requests[q];
    assert RequestOk(w, r);
    if r.pc.Lookup? || r.pc.LookupUsed? || r.pc.LogoutLookup? || r.pc.LogoutUsed? || r.pc.LoginLookup? {
      LookupOk(w, q);
    } else if r.pc.Swap? {
      LostSwapOk(w, q);
    } else if r.pc.WasUsed? || r.pc.FindUsed? {
      ReuseStepOk(w, q);
    } else {
      CheckOk(w, q);
    }
    assert Advance(w, q) == Goto(w, q, NextPc(w, q)) && NotACommit(NextPc(w, q));
    GotoKeeps(w, q, NextPc(w, q));
  }

  lemma DeleteKeeps(w: World, q: ReqId)
    requires Inv(w) && q in w.requests && w.requests[q].pc.Delete?
    ensures Inv(Advance(w, q)) && Evolves(w, Advance(w, q))
  {
    var next, r := Advance(w, q), w.requests[q];
    assert RequestOk(w, r);
    assert Moves(w, next, q);
    MoveEvolves(w, next, q);
    RequestOkStays(w, next, r);
    MoveKeeps(w, next, q);
  }

  lemma FaultKeeps(w: World, q: ReqId)
    requires Inv(w) && q in w.requests
    ensures Inv(Next(w, Fail(q))) && Evolves(w, Next(w, Fail(q)))
  {
    var pc := w.requests[q].pc;
    assert RequestOk(w, w.requests[q]);
    if pc.Done? {
      assert Next(w, Fail(q)) == w;
    } else {
      GotoKeeps(w, q, AfterFault(pc));
    }
  }

  // ---- Steps that issue a token ----

  /** The device of `issued` gets one more link, and nothing else changes place. */
  ghost predicate Extends(v: World, w: World, d: DevId, issued: Hash)
  {
    && w.now == v.now && w.ttl == v.ttl && w.ttlFloor == v.ttlFloor
    && PlaceOf(v, issued).None? && PlaceOf(w, issued) == Some(Place(d, |Links(v, d)|))
    && (forall h :: h != issued ==> PlaceOf(w, h) == PlaceOf(v, h))
    && d in w.db.devices && w.db.devices[d].hash == issued && w.db.devices[d].user in w.db.users
    && w.chain == v.chain[d := Links(v, d) + [Link(issued, v.now, w.db.devices[d].expires)]]
    && (d in v.chain ==> d in v.db.devices && w.db.devices[d].user == v.db.devices[d].user)
    && (forall e :: e != d ==> (e in w.db.devices <==> e in v.db.devices))
    && (forall e :: e != d && e in v.db.devices ==> w.db.devices[e] == v.db.devices[e])
    && w.db.users == v.db.users
    && (forall q :: q in v.requests ==>
          q in w.requests && w.requests[q] == v.requests[q].(pc := w.requests[q].pc) &&
          (v.requests[q].pc.Done? ==> w.requests[q] == v.requests[q]))
  }

  lemma ExtendedLinks(v: World, w: World, d: DevId, issued: Hash)
    requires Extends(v, w, d, issued)
    ensures w.chain.Keys == v.chain.Keys + {d}
    ensures forall e :: e in v.chain && e != d ==> w.chain[e] == v.chain[e]
    ensures d in w.db.devices && w.chain[d] == Links(v, d) + [Link(issued, v.now, w.db.devices[d].expires)]
    ensures |w.chain[d]| == |Links(v, d)| + 1 && w.chain[d][|Links(v, d)|].hash == issued &&
            w.chain[d][|Links(v, d)|].at == v.now
    ensures forall i :: 0 <= i < |Links(v, d)| ==> w.chain[d][i] == v.chain[d][i]
  {
  }

  lemma ExtendEvolves(v: World, w: World, d: DevId, issued: Hash)
    requires Extends(v, w, d, issued)
    ensures Evolves(v, w)
  {
    ExtendedLinks(v, w, d, issued);
  }

  lemma ExtendChains(v: World, w: World, d: DevId, issued: Hash)
    requires Chains(v) && Extends(v, w, d, issued)
    ensures Chains(w)
  {
    ExtendedLinks(v, w, d, issued);
    forall h | PlaceOf(w, h).Some? ensures
      var p := PlaceOf(w, h).value; p.dev in w.chain && p.index < |w.chain[p.dev]| && w.chain[p.dev][p.index].hash == h
    {
      if h != issued { assert PlaceOf(v, h) == PlaceOf(w, h); }
    }
    forall e, i | e in w.chain && 0 <= i < |w.chain[e]| ensures PlaceOf(w, w.chain[e][i].hash) == Some(Place(e, i)) {
      if e != d || i < |Links(v, d)| {
        assert w.chain[e][i] == v.chain[e][i];
        assert PlaceOf(v, v.chain[e][i].hash) == Some(Place(e, i));
      }
    }
  }

  lemma ExtendRows(v: World, w: World, d: DevId, issued: Hash)
    requires Rows(v) && Extends(v, w, d, issued)
    ensures Rows(w)
  {
    ExtendedLinks(v, w, d, issued);
  }

  /** Pruning takes only what the longest-lived token could no longer need. */
  lemma PruningIsLate(at: Instant, now: Instant, ttl: nat)
    requires Stale(at, now, ttl)
    ensures at + ttl + DAY < now + NANOS
  {
    TextOrderWithinASecond(at, now - ttl - DAY);
  }

  /** Of the records there were, a rotation drops the stale ones. */
  lemma RotationPrunes(db: Db, d: DevId, from: Hash, to: Hash, expires: int, now: Instant, ttl: nat, h: Hash)
    requires Rotate(db, d, from, to, expires, now, ttl).Rotated? && h in db.used
    ensures h in Rotate(db, d, from, to, expires, now, ttl).db.used <==> !Stale(db.used[h].at, now, ttl)
  {
    var used := db.used[from := Used(d, now)];
    assert Rotate(db, d, from, to, expires, now, ttl).db.used == Pruned(used, now, ttl);
    assert from !in db.used && used[h] == db.used[h];
  }

  lemma OldIsStale(at: Instant, now: Instant, ttl: nat)
    requires at + ttl + DAY + NANOS <= now
    ensures Stale(at, now, ttl)
  {
    TextOrderWithinASecond(at, now - ttl - DAY);
  }

  /** A rotation keeps every record younger than the lifetime plus 24 hours and drops every older one,
      to one second. */
  lemma PruningIsExactToASecond(db: Db, d: DevId, from: Hash, to: Hash, expires: int, now: Instant, ttl: nat, h: Hash)
    requires Rotate(db, d, from, to, expires, now, ttl).Rotated? && h in db.used && ttl + DAY <= now
    ensures var kept, age := h in Rotate(db, d, from, to, expires, now, ttl).db.used, now - db.used[h].at;
            var limit := ttl + 86_400_000_000_000;
            (age <= limit - 1_000_000_000 ==> kept) && (age >= limit + 1_000_000_000 ==> !kept)
  {
    RotationPrunes(db, d, from, to, expires, now, ttl, h);
    if Stale(db.used[h].at, now, ttl) { PruningIsLate(db.used[h].at, now, ttl); }
    else if now - db.used[h].at >= ttl + DAY + NANOS { OldIsStale(db.used[h].at, now, ttl); }
  }

  /** A swap never breaks a unique key: the hash it records is not recorded yet, and its own new hash
      is nobody's. */
  lemma SwapNeverClashes(w: World, q: ReqId)
    requires Chains(w) && Rows(w) && Records(w) && q in w.requests && w.requests[q].pc.Swap?
    ensures var pc := w.requests[q].pc;
            Rotate(w.db, pc.dev, pc.from, OfRefresh(q), w.now + pc.ttl, w.now, pc.ttl) != Clash
  {
    var pc := w.requests[q].pc;
    if Holds(w.db, pc.dev, pc.from) { HolderIsOwner(w, pc.dev, pc.from); }
    forall e | e in w.db.devices ensures w.db.devices[e].hash != OfRefresh(q) {
      HolderIsOwner(w, e, w.db.devices[e].hash);
    }
  }

  /** A rotation: the old hash is recorded, and old records are pruned. */
  ghost predicate Rotates(v: World, w: World, d: DevId, from: Hash, issued: Hash, ttl: nat)
  {
    && Extends(v, w, d, issued) && Holds(v.db, d, from) && v.ttlFloor <= ttl
    && w.db.used == Pruned(v.db.used[from := Used(d, v.now)], v.now, ttl)
  }

  lemma OldRecordStays(v: World, w: World, h: Hash)
    requires Chains(v) && Records(v) && Evolves(v, w) && h in v.db.used && h in w.db.used &&
             w.db.used[h] == v.db.used[h]
    ensures Recorded(w, h)
  {
    PlaceStays(v, w, h);
  }

  lemma NewRecord(v: World, w: World, d: DevId, from: Hash, issued: Hash)
    requires Chains(v) && Rows(v) && Extends(v, w, d, issued) && Holds(v.db, d, from)
    requires from in w.db.used && w.db.used[from] == Used(d, v.now)
    ensures Recorded(w, from)
  {
    HolderIsOwner(v, d, from);
    ExtendedLinks(v, w, d, issued);
  }

  lemma RotationRecords(v: World, w: World, d: DevId, from: Hash, issued: Hash, ttl: nat)
    requires DbOk(v) && Rotates(v, w, d, from, issued, ttl) && Evolves(v, w)
    ensures Records(w)
  {
    forall h | h in w.db.used ensures Recorded(w, h) {
      if h == from { NewRecord(v, w, d, from, issued); } else { OldRecordStays(v, w, h); }
    }
  }

  lemma RotationRemembers(v: World, w: World, d: DevId, from: Hash, issued: Hash, ttl: nat)
    requires Chains(v) && Rows(v) && Records(v) && Memory(v) && Rotates(v, w, d, from, issued, ttl)
    ensures Memory(w)
  {
    forall e, i | e in w.db.devices && e in w.chain && 0 <= i && i + 1 < |w.chain[e]| ensures Remembered(w, e, i) {
      RemembersLink(v, w, d, from, Link(issued, v.now, w.db.devices[d].expires), ttl, e, i);
    }
  }

  lemma RemembersLink(v: World, w: World, d: DevId, from: Hash, link: Link, ttl: nat, e: DevId, i: nat)
    requires Chains(v) && Rows(v) && Records(v) && Memory(v) && Holds(v.db, d, from) && e in v.db.devices
    requires w.chain == v.chain[d := Links(v, d) + [link]] && link.at == v.now && e in w.chain && i + 1 < |w.chain[e]|
    requires w.db.used == Pruned(v.db.used[from := Used(d, v.now)], v.now, ttl)
    requires w.now == v.now && w.ttlFloor == v.ttlFloor <= ttl
    ensures Remembered(w, e, i)
  {
    if e == d && i == |Links(v, d)| - 1 {
      JustRemembered(v, w, d, i, from, ttl);
    } else {
      RecordOfLink(v, e, i);
      StillRemembered(v, w, e, i, d, from, ttl);
    }
  }

  lemma JustRemembered(v: World, w: World, d: DevId, i: nat, from: Hash, ttl: nat)
    requires d in w.chain && i + 1 < |w.chain[d]| && w.chain[d][i].hash == from
    requires w.db.used == Pruned(v.db.used[from := Used(d, v.now)], v.now, ttl)
    ensures Remembered(w, d, i)
  {
    if Stale(v.now, v.now, ttl) { PruningIsLate(v.now, v.now, ttl); }
  }

  lemma RecordOfLink(w: World, d: DevId, i: nat)
    requires Chains(w) && Records(w) && Memory(w) && d in w.db.devices && d in w.chain && i + 1 < |w.chain[d]|
    ensures Remembered(w, d, i)
    ensures w.chain[d][i].hash in w.db.used ==> w.db.used[w.chain[d][i].hash].at == w.chain[d][i + 1].at
  {
    assert PlaceOf(w, w.chain[d][i].hash) == Some(Place(d, i));
  }

  lemma StillRemembered(v: World, w: World, e: DevId, i: nat, d: DevId, from: Hash, ttl: nat)
    requires e in v.chain && i + 1 < |v.chain[e]| && Remembered(v, e, i)
    requires v.chain[e][i].hash in v.db.used ==> v.db.used[v.chain[e][i].hash].at == v.chain[e][i + 1].at
    requires e in w.chain && i + 1 < |w.chain[e]| && w.chain[e][i] == v.chain[e][i] &&
             w.chain[e][i + 1] == v.chain[e][i + 1]
    requires w.db.used == Pruned(v.db.used[from := Used(d, v.now)], v.now, ttl) && w.now == v.now
    requires w.ttlFloor == v.ttlFloor <= ttl
    ensures Remembered(w, e, i)
  {
    var h, at := v.chain[e][i].hash, v.chain[e][i + 1].at;
    if h in v.db.used {
      if Stale(at, v.now, ttl) { PruningIsLate(at, v.now, ttl); }
      if Stale(v.now, v.now, ttl) { PruningIsLate(v.now, v.now, ttl); }
    }
  }

  /** The world after a commit. */
  ghost function CommittedTo(w: World, q: ReqId): World
    requires q in w.requests && Commits(w, q)
  {
    var pc := w.requests[q].pc;
    Goto(w, q, Done(Committed(pc.dev, |Links(w, pc.dev)|))).(
      db := Rotate(w.db, pc.dev, pc.from, OfRefresh(q), w.now + pc.ttl, w.now, pc.ttl).db,
      chain := w.chain[pc.dev := Links(w, pc.dev) + [Link(OfRefresh(q), w.now, w.now + pc.ttl)]])
  }

  lemma CommittedWorld(w: World, q: ReqId)
    requires q in w.requests && Commits(w, q)
    ensures Advance(w, q) == CommittedTo(w, q)
  {
  }

  lemma CommitPlaces(w: World, q: ReqId, h: Hash)
    requires Rows(w) && q in w.requests && Commits(w, q)
    ensures var d := w.requests[q].pc.dev;
            PlaceOf(CommittedTo(w, q), h) == if h == OfRefresh(q) then Some(Place(d, |Links(w, d)|)) else PlaceOf(w, h)
  {
  }

  lemma CommitRotates(w: World, q: ReqId)
    requires Rows(w) && w.ttlFloor <= w.ttl && q in w.requests && Commits(w, q) && RequestOk(w, w.requests[q])
    ensures var next, pc := Advance(w, q), w.requests[q].pc;
            && Rotates(w, next, pc.dev, pc.from, OfRefresh(q), pc.ttl)
            && next.requests == w.requests[q := w.requests[q].(pc := Done(Committed(pc.dev, |Links(w, pc.dev)|)))]
  {
    CommittedWorld(w, q);
    forall h { CommitPlaces(w, q, h); }
  }

  lemma RotationEvolves(v: World, w: World, d: DevId, from: Hash, issued: Hash, ttl: nat)
    requires DbOk(v) && Rotates(v, w, d, from, issued, ttl)
    ensures DbOk(w) && Evolves(v, w)
  {
    ExtendEvolves(v, w, d, issued);
    ExtendChains(v, w, d, issued);
    ExtendRows(v, w, d, issued);
    RotationRecords(v, w, d, from, issued, ttl);
    RotationRemembers(v, w, d, from, issued, ttl);
  }

  lemma RotationKeeps(v: World, w: World, q: ReqId)
    requires Inv(v) && q in v.requests && v.requests[q].pc.Swap?
    requires DbOk(w) && Evolves(v, w)
    requires var d := v.requests[q].pc.dev;
             w.requests == v.requests[q := v.requests[q].(pc := Done(Committed(d, |Links(v, d)|)))]
    ensures Inv(w)
  {
    RequestOkStays(v, w, v.requests[q]);
    forall p | p in w.requests ensures RequestOk(w, w.requests[p]) {
      if p != q { RequestOkStays(v, w, v.requests[p]); }
    }
  }

  lemma CommitKeeps(w: World, q: ReqId)
    requires Inv(w) && q in w.requests && Commits(w, q)
    ensures Inv(Advance(w, q)) && Evolves(w, Advance(w, q))
  {
    assert RequestOk(w, w.requests[q]);
    CommitRotates(w, q);
    var pc := w.requests[q].pc;
    RotationEvolves(w, Advance(w, q), pc.dev, pc.from, OfRefresh(q), pc.ttl);
    RotationKeeps(w, Advance(w, q), q);
  }

  lemma NewDeviceKeepsRecords(v: World, w: World, d: DevId, issued: Hash)
    requires Chains(v) && Records(v) && Memory(v) && Evolves(v, w) && Extends(v, w, d, issued)
    requires d !in v.chain && w.db.used == v.db.used
    ensures Records(w) && Memory(w)
  {
    ExtendedLinks(v, w, d, issued);
    forall h | h in w.db.used ensures Recorded(w, h) { OldRecordStays(v, w, h); }
    forall e, i | e in w.db.devices && e in w.chain && 0 <= i && i + 1 < |w.chain[e]| ensures Remembered(w, e, i) {
      assert Remembered(v, e, i);
    }
  }

  lemma LoginExtends(w: World, user: UserId, d: DevId)
    requires Rows(w) && Enabled(w, Login(user, d))
    ensures Extends(w, Next(w, Login(user, d)), d, OfLogin(d))
  {
    var next, link := Next(w, Login(user, d)), Link(OfLogin(d), w.now, w.now + w.ttl);
    forall h | h != OfLogin(d) ensures PlaceOf(next, h) == PlaceOf(w, h) {}
    assert Links(w, d) == [] && [] + [link] == [link];
  }

  lemma LoginKeeps(w: World, user: UserId, d: DevId)
    requires Inv(w) && Enabled(w, Login(user, d))
    ensures Inv(Next(w, Login(user, d))) && Evolves(w, Next(w, Login(user, d)))
  {
    var next := Next(w, Login(user, d));
    LoginExtends(w, user, d);
    ExtendEvolves(w, next, d, OfLogin(d));
    ExtendChains(w, next, d, OfLogin(d));
    ExtendRows(w, next, d, OfLogin(d));
    NewDeviceKeepsRecords(w, next, d, OfLogin(d));
    forall p | p in next.requests ensures RequestOk(next, next.requests[p]) { RequestOkStays(w, next, w.requests[p]); }
  }

  lemma ArriveKeeps(w: World, q: ReqId, h: Hash, k: Kind)
    requires Inv(w) && Enabled(w, Arrive(q, h, k))
    ensures Inv(Next(w, Arrive(q, h, k))) && Evolves(w, Next(w, Arrive(q, h, k)))
  {
    var next := Next(w, Arrive(q, h, k));
    forall g ensures PlaceOf(next, g) == PlaceOf(w, g) {}
    ShrinkKeeps(w, next);
    forall p | p in next.requests ensures RequestOk(next, next.requests[p]) {
      if p != q { RequestOkStays(w, next, w.requests[p]); }
    }
  }

  // ---- Every step ----

  lemma AdvanceKeeps(w: World, q: ReqId)
    requires Inv(w) && q in w.requests
    ensures Inv(Advance(w, q)) && Evolves(w, Advance(w, q))
  {
    if w.requests[q].pc.Delete? { DeleteKeeps(w, q); }
    else if Commits(w, q) { CommitKeeps(w, q); }
    else if !w.requests[q].pc.Done? { ReadKeeps(w, q); }
  }

  lemma StepKeeps(w: World, a: Action)
    requires Inv(w)
    ensures Inv(Next(w, a)) && Evolves(w, Next(w, a))
  {
    if !Enabled(w, a) { return; }
    match a
    case Succeed(q) => AdvanceKeeps(w, q);
    case Fail(q) => FaultKeeps(w, q);
    case Login(user, d) => LoginKeeps(w, user, d);
    case Arrive(q, h, k) => ArriveKeeps(w, q, h, k);
    case _ => EnvironmentKeeps(w, Next(w, a));
  }

  lemma {:induction false} RunKeeps(w: World, actions: seq<Action>)
    requires Inv(w)
    ensures Inv(Run(w, actions)) && Evolves(w, Run(w, actions))
  {
    if actions == [] {
    } else {
      var front := actions[..|actions| - 1];
      RunKeeps(w, front);
      StepKeeps(Run(w, front), actions[|actions| - 1]);
      EvolvesOn(w, Run(w, front), Run(w, actions));
    }
  }

  lemma InvAtStart(now: Instant, ttl: nat)
    ensures Inv(Start(now, ttl))
  {
  }
}
