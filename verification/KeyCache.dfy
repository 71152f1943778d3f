/** The key cache of one gateway process in front of the key store. A lookup (cache, store, insert)
    and a revoke (find, update, invalidate) are not atomic: every cache or store access below is a
    step of its own, and any two may have other steps between them. */
module KeyCache {
  import opened Values

  type Hash = string

  /** A row of api_keys, as far as authentication looks at it. Its hash is its key in the store. */
  datatype Row = Row(id: string, active: bool, expiresAt: Option<int>)

  /** What a lookup hands to its caller and to the cache; readAt is when the store was read. */
  datatype Info = Info(id: string, expiresAt: Option<int>, readAt: int)

  /** A cache entry and when it was inserted. */
  datatype Cached = Cached(info: Info, insertedAt: int)

  /** Why a key is refused: a hit that was found expired, or a read that found this row, if any. */
  datatype Cause =
    | ExpiredHit(entry: Cached, at: int)
    | Missed(row: Option<Row>, at: int)

  /** An entry of the negative cache, with its cause. */
  datatype Denied = Denied(insertedAt: int, cause: Cause)

  /** How far a call of Authenticate has got. */
  datatype Lookup =
    | AtHit(hash: Hash, entry: Cached, gotAt: int) // positive hit, expiry not yet re-checked
    | AtDrop(hash: Hash, entry: Cached, at: int)   // expired hit, about to leave the positive cache
    | AtNegative(hash: Hash)                       // positive miss
    | AtStore(hash: Hash)                          // negative miss
    | AtInsert(hash: Hash, info: Info)             // row read, not yet cached
    | AtNegInsert(hash: Hash, cause: Cause)        // known to be invalid, not yet cached as such

  /** How far a call of Revoke has got. */
  datatype Revoke =
    | AtUpdate(id: string, found: Option<Hash>)
    | AtInvalidate(hash: Hash)
    | AtNegInvalidate(hash: Hash)

  /** One successful Authenticate: the information returned, when, and the hit it came from. */
  datatype Acceptance = Acceptance(hash: Hash, info: Info, at: int, hit: Option<(Cached, int)>)

  datatype State = State(
    now: int,
    store: map<Hash, Row>,
    pos: map<Hash, Cached>,
    neg: map<Hash, Denied>,
    lookups: map<int, Lookup>,
    revokes: map<int, Revoke>,
    seen: seq<(Hash, Row, int)>,
    accepted: seq<Acceptance>)

  const INITIAL := State(0, map[], map[], map[], map[], map[], [], [])

  datatype Step =
    | Tick(ms: nat)
    | Create(hash: Hash, row: Row)
    | EvictPos(hash: Hash)
    | EvictNeg(hash: Hash)
    | Begin(t: int, hash: Hash)      // c.pos.Get
    | Recheck(t: int)                // info.ExpiresAt against time.Now()
    | Drop(t: int)                   // c.pos.Remove
    | TryNegative(t: int)            // c.neg.Get
    | ReadStore(t: int, fails: bool) // c.store.GetByHash
    | Insert(t: int)                 // c.pos.Add
    | NegInsert(t: int)              // c.neg.Add
    | Find(r: int, id: string)       // h.store.GetByID
    | Update(r: int, fails: bool)    // h.store.Revoke
    | Invalidate(r: int)             // c.pos.Remove
    | NegInvalidate(r: int)          // c.neg.Remove

  /** expires_at IS NULL OR expires_at > NOW(), and time.Now().Before(*ExpiresAt). */
  predicate Unexpired(expiresAt: Option<int>, now: int) {
    expiresAt.None? || now < expiresAt.value
  }

  /** A new row has a hash of its own, and a store identifier names one row. */
  ghost predicate Enabled(s: State, a: Step) {
    match a
    case Tick(_) => true
    case Create(hash, row) => hash !in s.store && row.active && forall h :: h in s.store ==> s.store[h].id != row.id
    case EvictPos(_) => true
    case EvictNeg(_) => true
    case Begin(t, _) => t !in s.lookups
    case Recheck(t) => t in s.lookups && s.lookups[t].AtHit?
    case Drop(t) => t in s.lookups && s.lookups[t].AtDrop?
    case TryNegative(t) => t in s.lookups && s.lookups[t].AtNegative?
    case ReadStore(t, _) => t in s.lookups && s.lookups[t].AtStore?
    case Insert(t) => t in s.lookups && s.lookups[t].AtInsert?
    case NegInsert(t) => t in s.lookups && s.lookups[t].AtNegInsert?
    case Find(r, _) => r !in s.revokes
    case Update(r, _) => r in s.revokes && s.revokes[r].AtUpdate?
    case Invalidate(r) => r in s.revokes && s.revokes[r].AtInvalidate?
    case NegInvalidate(r) => r in s.revokes && s.revokes[r].AtNegInvalidate?
  }

  function Goto(s: State, t: int, l: Lookup): State {
    s.(lookups := s.lookups[t := l])
  }

  function Done(s: State, t: int): State {
    s.(lookups := s.lookups - {t})
  }

  function Accept(s: State, t: int, a: Acceptance): State {
    Done(s, t).(accepted := s.accepted + [a])
  }

  /** UPDATE api_keys SET is_active = FALSE WHERE id = $1. */
  function Deactivate(store: map<Hash, Row>, id: string): map<Hash, Row> {
    map h | h in store :: if store[h].id == id then store[h].(active := false) else store[h]
  }

  /** GetByID returns the row with that identifier, if there is one. */
  ghost function FindHash(store: map<Hash, Row>, id: string): (r: Option<Hash>)
    ensures r.Some? ==> r.value in store && store[r.value].id == id
    ensures r.None? ==> forall h :: h in store ==> store[h].id != id
  {
    if h :| h in store && store[h].id == id then Some(h) else None
  }

  /** Begin: an entry of the positive cache counts until its TTL has passed. */
  function OnBegin(s: State, ttl: int, t: int, hash: Hash): State {
    if hash in s.pos && s.now <= s.pos[hash].insertedAt + ttl
    then Goto(s, t, AtHit(hash, s.pos[hash], s.now))
    else Goto(s, t, AtNegative(hash))
  }

  function OnRecheck(s: State, t: int, l: Lookup): State
    requires l.AtHit?
  {
    if Unexpired(l.entry.info.expiresAt, s.now)
    then Accept(s, t, Acceptance(l.hash, l.entry.info, s.now, Some((l.entry, l.gotAt))))
    else Goto(s, t, AtDrop(l.hash, l.entry, s.now))
  }

  function OnReadStore(s: State, t: int, hash: Hash, fails: bool): State {
    if fails then Done(s, t)
    else if hash in s.store && s.store[hash].active && Unexpired(s.store[hash].expiresAt, s.now) then
      var row := s.store[hash];
      Goto(s, t, AtInsert(hash, Info(row.id, row.expiresAt, s.now))).(seen := s.seen + [(hash, row, s.now)])
    else
      Goto(s, t, AtNegInsert(hash, Missed(if hash in s.store then Some(s.store[hash]) else None, s.now)))
  }

  ghost function OnUpdate(s: State, r: int, id: string, hash: Option<Hash>, fails: bool): State {
    if fails then s.(revokes := s.revokes - {r})
    else s.(store := Deactivate(s.store, id),
            revokes := if hash.Some? then s.revokes[r := AtInvalidate(hash.value)] else s.revokes - {r})
  }

  ghost function Next(s: State, ttl: int, negTtl: int, a: Step): State
    requires Enabled(s, a)
  {
    match a
    case Tick(ms) => s.(now := s.now + ms)
    case Create(hash, row) => s.(store := s.store[hash := row])
    case EvictPos(hash) => s.(pos := s.pos - {hash})
    case EvictNeg(hash) => s.(neg := s.neg - {hash})
    case Begin(t, hash) => OnBegin(s, ttl, t, hash)
    case Recheck(t) => OnRecheck(s, t, s.lookups[t])
    case Drop(t) =>
      var AtDrop(hash, entry, at) := s.lookups[t];
      Goto(s.(pos := s.pos - {hash}), t, AtNegInsert(hash, ExpiredHit(entry, at)))
    case TryNegative(t) =>
      var hash := s.lookups[t].hash;
      if hash in s.neg && s.now <= s.neg[hash].insertedAt + negTtl then Done(s, t) else Goto(s, t, AtStore(hash))
    case ReadStore(t, fails) => OnReadStore(s, t, s.lookups[t].hash, fails)
    case Insert(t) =>
      var AtInsert(hash, info) := s.lookups[t];
      Accept(s.(pos := s.pos[hash := Cached(info, s.now)]), t, Acceptance(hash, info, s.now, None))
    case NegInsert(t) =>
      var AtNegInsert(hash, cause) := s.lookups[t];
      Done(s.(neg := s.neg[hash := Denied(s.now, cause)]), t)
    case Find(r, id) => s.(revokes := s.revokes[r := AtUpdate(id, FindHash(s.store, id))])
    case Update(r, fails) => OnUpdate(s, r, s.revokes[r].id, s.revokes[r].found, fails)
    case Invalidate(r) =>
      s.(pos := s.pos - {s.revokes[r].hash}, revokes := s.revokes[r := AtNegInvalidate(s.revokes[r].hash)])
    case NegInvalidate(r) => s.(neg := s.neg - {s.revokes[r].hash}, revokes := s.revokes - {r})
  }

  /** Every step of the run can be taken from where the steps before it lead. */
  ghost predicate Possible(s: State, ttl: int, negTtl: int, run: seq<Step>)
    decreases |run|
  {
    run == [] || (Enabled(s, run[0]) && Possible(Next(s, ttl, negTtl, run[0]), ttl, negTtl, run[1..]))
  }

  ghost function Exec(s: State, ttl: int, negTtl: int, run: seq<Step>): State
    requires Possible(s, ttl, negTtl, run)
    decreases |run|
  {
    if run == [] then s else Exec(Next(s, ttl, negTtl, run[0]), ttl, negTtl, run[1..])
  }

  // ---- Every acceptance is backed by a store read

  /** Some read of the store saw the row active and unexpired, and info is what it saw. */
  ghost predicate Backed(seen: seq<(Hash, Row, int)>, hash: Hash, info: Info) {
    exists i :: 0 <= i < |seen| && Saw(seen[i], hash, info)
  }

  ghost predicate Saw(read: (Hash, Row, int), hash: Hash, info: Info) {
    && read.0 == hash && read.1.active && (read.1.expiresAt.Some? ==> read.2 < read.1.expiresAt.value)
    && info == Info(read.1.id, read.1.expiresAt, read.2)
  }

  ghost predicate GoodHit(entry: Cached, gotAt: int, ttl: int) {
    entry.info.readAt <= entry.insertedAt <= gotAt <= entry.insertedAt + ttl
  }

  /** An acceptance at time t is backed by a read no later than t; one from the cache found its entry
      within the TTL of its insertion and was re-checked before the key's expiry. */
  ghost predicate Justified(s: State, a: Acceptance, ttl: int) {
    && Backed(s.seen, a.hash, a.info) && a.info.readAt <= a.at <= s.now
    && (a.hit.Some? ==>
          && a.hit.value.0.info == a.info
          && GoodHit(a.hit.value.0, a.hit.value.1, ttl)
          && a.hit.value.1 <= a.at
          && (a.info.expiresAt.Some? ==> a.at < a.info.expiresAt.value))
  }

  ghost predicate LookupOk(s: State, l: Lookup, ttl: int) {
    match l
    case AtHit(hash, entry, gotAt) => Backed(s.seen, hash, entry.info) && GoodHit(entry, gotAt, ttl) && gotAt <= s.now
    case AtInsert(hash, info) => Backed(s.seen, hash, info) && info.readAt <= s.now
    case _ => true
  }

  /** A revoke past its update has left its row inactive. */
  ghost predicate RevokeOk(s: State, r: Revoke) {
    match r
    case AtUpdate(id, hash) => hash.Some? ==> hash.value in s.store && s.store[hash.value].id == id
    case AtInvalidate(hash) => Revoked(s, hash)
    case AtNegInvalidate(hash) => Revoked(s, hash)
  }

  ghost predicate Revoked(s: State, hash: Hash) {
    hash in s.store && !s.store[hash].active
  }

  ghost predicate Inv(s: State, ttl: int) {
    && (forall h :: h in s.pos ==>
          Backed(s.seen, h, s.pos[h].info) && s.pos[h].info.readAt <= s.pos[h].insertedAt <= s.now)
    && (forall t :: t in s.lookups ==> LookupOk(s, s.lookups[t], ttl))
    && (forall r :: r in s.revokes ==> RevokeOk(s, s.revokes[r]))
    && (forall i :: 0 <= i < |s.accepted| ==> Justified(s, s.accepted[i], ttl))
  }

  /** Nothing that was read is forgotten, and time does not go back. */
  ghost predicate Onward(s: State, s': State) {
    s.seen <= s'.seen && s.now <= s'.now
  }

  lemma BackedOnward(s: State, s': State, hash: Hash, info: Info)
    requires Onward(s, s') && Backed(s.seen, hash, info)
    ensures Backed(s'.seen, hash, info)
  {
    var i :| 0 <= i < |s.seen| && Saw(s.seen[i], hash, info);
    assert s'.seen[i] == s.seen[i];
  }

  lemma StepOnward(s: State, ttl: int, negTtl: int, a: Step)
    requires Enabled(s, a)
    ensures Onward(s, Next(s, ttl, negTtl, a))
  {
  }

  /** What a step leaves alone stays good. */
  lemma OldOnward(s: State, s': State, ttl: int)
    requires Inv(s, ttl) && Onward(s, s')
    ensures forall h :: h in s.pos ==>
              Backed(s'.seen, h, s.pos[h].info) && s.pos[h].info.readAt <= s.pos[h].insertedAt <= s'.now
    ensures forall t :: t in s.lookups ==> LookupOk(s', s.lookups[t], ttl)
    ensures forall i :: 0 <= i < |s.accepted| ==> Justified(s', s.accepted[i], ttl)
  {
    forall h | h in s.pos ensures Backed(s'.seen, h, s.pos[h].info) {
      BackedOnward(s, s', h, s.pos[h].info);
    }
    forall t | t in s.lookups ensures LookupOk(s', s.lookups[t], ttl) {
      match s.lookups[t]
      case AtHit(hash, entry, _) => BackedOnward(s, s', hash, entry.info);
      case AtInsert(hash, info) => BackedOnward(s, s', hash, info);
      case _ =>
    }
    forall i | 0 <= i < |s.accepted| ensures Justified(s', s.accepted[i], ttl) {
      BackedOnward(s, s', s.accepted[i].hash, s.accepted[i].info);
    }
  }

  /** What one step adds to the positive cache is good. */
  lemma NewEntries(s: State, ttl: int, negTtl: int, a: Step)
    requires Enabled(s, a) && Inv(s, ttl)
    ensures var s' := Next(s, ttl, negTtl, a);
            forall h :: h in s'.pos ==>
              || (h in s.pos && s'.pos[h] == s.pos[h])
              || (Backed(s'.seen, h, s'.pos[h].info) && s'.pos[h].info.readAt <= s'.pos[h].insertedAt <= s'.now)
  {
    match a
    case Insert(t) => assert LookupOk(s, s.lookups[t], ttl);
    case Begin(_, _) =>
    case Recheck(_) =>
    case ReadStore(_, _) =>
    case _ =>
  }

  /** Where one step takes a lookup is good. */
  lemma NewLookups(s: State, ttl: int, negTtl: int, a: Step)
    requires Enabled(s, a) && Inv(s, ttl)
    ensures var s' := Next(s, ttl, negTtl, a);
            forall t :: t in s'.lookups ==>
              || (t in s.lookups && s'.lookups[t] == s.lookups[t])
              || LookupOk(s', s'.lookups[t], ttl)
  {
    hide LookupOk;
    match a
    case Begin(t, hash) => BeginOk(s, ttl, t, hash);
    case ReadStore(t, fails) => ReadOk(s, ttl, t, s.lookups[t].hash, fails);
    case _ => OtherLookupsOk(s, ttl, negTtl, a);
  }

  lemma OtherLookupsOk(s: State, ttl: int, negTtl: int, a: Step)
    requires Enabled(s, a) && !a.Begin? && !a.ReadStore?
    ensures var s' := Next(s, ttl, negTtl, a);
            forall t :: t in s'.lookups ==>
              || (t in s.lookups && s'.lookups[t] == s.lookups[t])
              || LookupOk(s', s'.lookups[t], ttl)
  {
    hide Next, Enabled;
    OtherLookups(s, ttl, negTtl, a);
  }

  lemma OtherLookups(s: State, ttl: int, negTtl: int, a: Step)
    requires Enabled(s, a) && !a.Begin? && !a.ReadStore?
    ensures var s' := Next(s, ttl, negTtl, a);
            forall t :: t in s'.lookups ==>
              || (t in s.lookups && s'.lookups[t] == s.lookups[t])
              || !(s'.lookups[t].AtHit? || s'.lookups[t].AtInsert?)
  {
  }

  lemma BeginOk(s: State, ttl: int, t: int, hash: Hash)
    requires Inv(s, ttl)
    ensures LookupOk(OnBegin(s, ttl, t, hash), OnBegin(s, ttl, t, hash).lookups[t], ttl)
  {
  }

  lemma ReadOk(s: State, ttl: int, t: int, hash: Hash, fails: bool)
    ensures var s' := OnReadStore(s, t, hash, fails);
            t in s'.lookups ==> LookupOk(s', s'.lookups[t], ttl)
  {
    var s' := OnReadStore(s, t, hash, fails);
    if t in s'.lookups && s'.lookups[t].AtInsert? {
      var n := |s.seen|;
      assert Saw(s'.seen[n], hash, s'.lookups[t].info);
    }
  }

  /** What one step accepts is justified. */
  lemma NewAcceptances(s: State, ttl: int, negTtl: int, a: Step)
    requires Enabled(s, a) && Inv(s, ttl)
    ensures var s' := Next(s, ttl, negTtl, a);
            forall i :: 0 <= i < |s'.accepted| ==>
              || (i < |s.accepted| && s'.accepted[i] == s.accepted[i])
              || Justified(s', s'.accepted[i], ttl)
  {
    match a
    case Insert(t) => assert LookupOk(s, s.lookups[t], ttl);
    case Recheck(t) => assert LookupOk(s, s.lookups[t], ttl);
    case Begin(_, _) =>
    case ReadStore(_, _) =>
    case _ =>
  }

  /** The store keeps every row, but for its revocation. */
  ghost predicate StoreOnward(store: map<Hash, Row>, store': map<Hash, Row>) {
    forall h :: h in store ==> h in store' && store'[h] in {store[h], store[h].(active := false)}
  }

  lemma StepStoreOnward(s: State, ttl: int, negTtl: int, a: Step)
    requires Enabled(s, a)
    ensures StoreOnward(s.store, Next(s, ttl, negTtl, a).store)
  {
    match a
    case Create(_, _) =>
    case Update(r, fails) => UpdateOnward(s, r, s.revokes[r].id, s.revokes[r].found, fails);
    case _ => StoreKept(s, ttl, negTtl, a);
  }

  lemma UpdateOnward(s: State, r: int, id: string, found: Option<Hash>, fails: bool)
    ensures StoreOnward(s.store, OnUpdate(s, r, id, found, fails).store)
  {
  }

  lemma StoreKept(s: State, ttl: int, negTtl: int, a: Step)
    requires Enabled(s, a) && !a.Create? && !a.Update?
    ensures Next(s, ttl, negTtl, a).store == s.store
  {
    match a
    case Begin(_, _) =>
    case Recheck(_) =>
    case ReadStore(_, _) =>
    case Find(_, _) =>
    case _ =>
  }

  /** Where one step takes a revoke is good. */
  lemma NewRevokes(s: State, ttl: int, negTtl: int, a: Step)
    requires Enabled(s, a) && Inv(s, ttl)
    ensures var s' := Next(s, ttl, negTtl, a);
            forall r :: r in s'.revokes ==>
              || (r in s.revokes && s'.revokes[r] == s.revokes[r])
              || RevokeOk(s', s'.revokes[r])
  {
    match a
    case Find(_, _) =>
    case Update(r, fails) => assert RevokeOk(s, s.revokes[r]);
    case Invalidate(r) => assert RevokeOk(s, s.revokes[r]);
    case NegInvalidate(_) =>
    case _ => RevokesKept(s, ttl, negTtl, a);
  }

  lemma RevokesKept(s: State, ttl: int, negTtl: int, a: Step)
    requires Enabled(s, a) && !a.Find? && !a.Update? && !a.Invalidate? && !a.NegInvalidate?
    ensures Next(s, ttl, negTtl, a).revokes == s.revokes
  {
    match a
    case Begin(_, _) =>
    case Recheck(_) =>
    case ReadStore(_, _) =>
    case _ =>
  }

  lemma OldRevokes(s: State, s': State, r: Revoke)
    requires StoreOnward(s.store, s'.store) && RevokeOk(s, r)
    ensures RevokeOk(s', r)
  {
  }

  /** The store never reactivates a key, so revokes stay where they are. */
  lemma RevokesStayGood(s: State, s': State, ttl: int)
    requires Inv(s, ttl) && StoreOnward(s.store, s'.store)
    ensures forall r :: r in s.revokes ==> RevokeOk(s', s.revokes[r])
  {
    forall r | r in s.revokes ensures RevokeOk(s', s.revokes[r]) {
      OldRevokes(s, s', s.revokes[r]);
    }
  }

  lemma Preserved(s: State, ttl: int, negTtl: int, a: Step)
    requires Enabled(s, a) && Inv(s, ttl)
    ensures Inv(Next(s, ttl, negTtl, a), ttl)
  {
    var s' := Next(s, ttl, negTtl, a);
    StepOnward(s, ttl, negTtl, a);
    OldOnward(s, s', ttl);
    NewEntries(s, ttl, negTtl, a);
    NewLookups(s, ttl, negTtl, a);
    NewAcceptances(s, ttl, negTtl, a);
    StepStoreOnward(s, ttl, negTtl, a);
    RevokesStayGood(s, s', ttl);
    NewRevokes(s, ttl, negTtl, a);
  }

  lemma {:induction false} InvHolds(s: State, ttl: int, negTtl: int, run: seq<Step>)
    requires Possible(s, ttl, negTtl, run) && Inv(s, ttl)
    ensures Inv(Exec(s, ttl, negTtl, run), ttl)
    decreases |run|
  {
    if run != [] {
      Preserved(s, ttl, negTtl, run[0]);
      InvHolds(Next(s, ttl, negTtl, run[0]), ttl, negTtl, run[1..]);
    }
  }

  /** In any interleaving of lookups, revokes, evictions and key creations, every
      acceptance is justified. */
  lemma AcceptancesAreJustified(ttl: int, negTtl: int, run: seq<Step>, i: nat)
    requires Possible(INITIAL, ttl, negTtl, run)
    requires i < |Exec(INITIAL, ttl, negTtl, run).accepted|
    ensures var s := Exec(INITIAL, ttl, negTtl, run);
            Justified(s, s.accepted[i], ttl)
  {
    InvHolds(INITIAL, ttl, negTtl, run);
  }

  // ---- Revocation

  /** Lookup l of a key has the row in hand and may still accept it. */
  ghost predicate Holds(l: Lookup, hash: Hash, now: int) {
    || (l.AtInsert? && l.hash == hash)
    || (l.AtHit? && l.hash == hash && Unexpired(l.entry.info.expiresAt, now))
  }

  ghost predicate NoneInHand(s: State, hash: Hash) {
    forall t :: t in s.lookups ==> !Holds(s.lookups[t], hash, s.now)
  }

  /** The key is revoked, not cached, and in no lookup's hand. */
  ghost predicate Dead(s: State, hash: Hash) {
    Revoked(s, hash) && hash !in s.pos && NoneInHand(s, hash)
  }

  function AcceptedOf(s: State, hash: Hash): seq<Acceptance> {
    Select(s.accepted, hash)
  }

  function Select(all: seq<Acceptance>, hash: Hash): seq<Acceptance> {
    if all == [] then []
    else Select(all[..|all| - 1], hash) + if all[|all| - 1].hash == hash then [all[|all| - 1]] else []
  }

  lemma DeadStep(s: State, ttl: int, negTtl: int, a: Step, hash: Hash)
    requires Enabled(s, a) && Dead(s, hash)
    ensures Dead(Next(s, ttl, negTtl, a), hash)
    ensures AcceptedOf(Next(s, ttl, negTtl, a), hash) == AcceptedOf(s, hash)
  {
    if a.Recheck? || a.Insert? {
      assert !Holds(s.lookups[a.t], hash, s.now);
      OtherKey(s, Next(s, ttl, negTtl, a), hash);
    }
    DeadStays(s, ttl, negTtl, a, hash);
  }

  lemma OtherKey(s: State, s': State, hash: Hash)
    requires s.accepted <= s'.accepted && |s'.accepted| <= |s.accepted| + 1
    requires |s'.accepted| > |s.accepted| ==> s'.accepted[|s.accepted|].hash != hash
    ensures AcceptedOf(s', hash) == AcceptedOf(s, hash)
  {
    if |s'.accepted| > |s.accepted| {
      assert s'.accepted[..|s.accepted|] == s.accepted;
    } else {
      assert s'.accepted == s.accepted;
    }
  }

  lemma DeadStays(s: State, ttl: int, negTtl: int, a: Step, hash: Hash)
    requires Enabled(s, a) && Dead(s, hash)
    ensures Dead(Next(s, ttl, negTtl, a), hash)
  {
    StepStoreOnward(s, ttl, negTtl, a);
    NotCached(s, ttl, negTtl, a, hash);
    NotInHand(s, ttl, negTtl, a, hash);
  }

  lemma NotCached(s: State, ttl: int, negTtl: int, a: Step, hash: Hash)
    requires Enabled(s, a) && Dead(s, hash)
    ensures hash !in Next(s, ttl, negTtl, a).pos
  {
    if a.Insert? {
      assert !Holds(s.lookups[a.t], hash, s.now);
    }
  }

  lemma NotInHand(s: State, ttl: int, negTtl: int, a: Step, hash: Hash)
    requires Enabled(s, a) && Dead(s, hash)
    ensures NoneInHand(Next(s, ttl, negTtl, a), hash)
  {
  }

  lemma {:induction false} DeadForGood(s: State, ttl: int, negTtl: int, run: seq<Step>, hash: Hash)
    requires Possible(s, ttl, negTtl, run) && Dead(s, hash)
    ensures Dead(Exec(s, ttl, negTtl, run), hash)
    ensures AcceptedOf(Exec(s, ttl, negTtl, run), hash) == AcceptedOf(s, hash)
    decreases |run|
  {
    if run != [] {
      DeadStep(s, ttl, negTtl, run[0], hash);
      DeadForGood(Next(s, ttl, negTtl, run[0]), ttl, negTtl, run[1..], hash);
    }
  }

  /** Some continuation accepts the key once more. */
  ghost predicate CanStillBeAccepted(s: State, ttl: int, negTtl: int, hash: Hash) {
    exists run :: AcceptsLater(s, ttl, negTtl, run, hash)
  }

  ghost predicate AcceptsLater(s: State, ttl: int, negTtl: int, run: seq<Step>, hash: Hash) {
    && Possible(s, ttl, negTtl, run)
    && AcceptedOf(Exec(s, ttl, negTtl, run), hash) != AcceptedOf(s, hash)
  }

  /** A lookup with the row in hand can accept it in one step. */
  lemma InHandAccepts(s: State, ttl: int, negTtl: int, t: int, hash: Hash)
    requires t in s.lookups && Holds(s.lookups[t], hash, s.now)
    ensures CanStillBeAccepted(s, ttl, negTtl, hash)
  {
    var a := if s.lookups[t].AtInsert? then Insert(t) else Recheck(t);
    OneMore(s, Next(s, ttl, negTtl, a), hash);
    OneStep(s, ttl, negTtl, a);
    assert AcceptsLater(s, ttl, negTtl, [a], hash);
  }

  lemma OneMore(s: State, s': State, hash: Hash)
    requires |s'.accepted| == |s.accepted| + 1 && s.accepted <= s'.accepted
    requires s'.accepted[|s.accepted|].hash == hash
    ensures |AcceptedOf(s', hash)| == |AcceptedOf(s, hash)| + 1
  {
    assert s'.accepted[..|s.accepted|] == s.accepted;
  }

  lemma OneStep(s: State, ttl: int, negTtl: int, a: Step)
    requires Enabled(s, a)
    ensures Possible(s, ttl, negTtl, [a]) && Exec(s, ttl, negTtl, [a]) == Next(s, ttl, negTtl, a)
  {
    assert [a][1..] == [];
  }

  /** Revocation, exactly: once a revoke has removed the positive entry, the key can never be accepted
      again if and only if no lookup had the row in hand at that moment. */
  lemma RevokedForGood(start: seq<Step>, ttl: int, negTtl: int, r: int)
    requires Possible(INITIAL, ttl, negTtl, start)
    requires Enabled(Exec(INITIAL, ttl, negTtl, start), Invalidate(r))
    ensures var before := Exec(INITIAL, ttl, negTtl, start);
            var s := Next(before, ttl, negTtl, Invalidate(r));
            var hash := before.revokes[r].hash;
            !CanStillBeAccepted(s, ttl, negTtl, hash) <==> NoneInHand(before, hash)
  {
    InvHolds(INITIAL, ttl, negTtl, start);
    var before := Exec(INITIAL, ttl, negTtl, start);
    var s := Next(before, ttl, negTtl, Invalidate(r));
    var hash := before.revokes[r].hash;
    assert RevokeOk(before, before.revokes[r]);
    if NoneInHand(before, hash) {
      assert Dead(s, hash);
      forall run | Possible(s, ttl, negTtl, run) ensures !AcceptsLater(s, ttl, negTtl, run, hash) {
        DeadForGood(s, ttl, negTtl, run, hash);
      }
    } else {
      var t :| t in before.lookups && Holds(before.lookups[t], hash, before.now);
      InHandAccepts(s, ttl, negTtl, t, hash);
    }
  }

  // ---- How stale an acceptance can be

  /** Every insert of the run comes at most x after the read it inserts. */
  ghost predicate Prompt(s: State, ttl: int, negTtl: int, run: seq<Step>, x: nat)
    requires Possible(s, ttl, negTtl, run)
    decreases |run|
  {
    run != [] ==>
      && (run[0].Insert? ==> s.now <= s.lookups[run[0].t].info.readAt + x)
      && Prompt(Next(s, ttl, negTtl, run[0]), ttl, negTtl, run[1..], x)
  }

  /** What was read by update; and, if inserts are prompt within x, inserted by update + x. */
  ghost predicate Before(entry: Cached, update: int, x: nat, prompt: bool) {
    entry.info.readAt <= update && (prompt ==> entry.insertedAt <= update + x)
  }

  ghost predicate StaleLookup(l: Lookup, hash: Hash, ttl: int, update: int, x: nat, prompt: bool) {
    match l
    case AtHit(h, entry, gotAt) => h == hash ==> Before(entry, update, x, prompt) && gotAt <= entry.insertedAt + ttl
    case AtInsert(h, info) => h == hash ==> info.readAt <= update
    case _ => true
  }

  /** An acceptance that goes back to a read by update; if inserts are prompt within x, one straight from
      that read comes by update + x, and one from the cache found its entry by update + x + ttl. */
  ghost predicate StaleAcceptance(a: Acceptance, ttl: int, update: int, x: nat, prompt: bool) {
    && a.info.readAt <= update
    && (prompt && a.hit.None? ==> a.at <= update + x)
    && (prompt && a.hit.Some? ==> a.hit.value.1 <= update + x + ttl)
  }

  /** The key is revoked, and all that is left of it, and all it was accepted for since the n-th acceptance,
      goes back to reads by update. */
  ghost predicate Stale(s: State, hash: Hash, ttl: int, n: nat, update: int, x: nat, prompt: bool) {
    && Revoked(s, hash) && n <= |s.accepted|
    && (hash in s.pos ==> Before(s.pos[hash], update, x, prompt))
    && (forall t :: t in s.lookups ==> StaleLookup(s.lookups[t], hash, ttl, update, x, prompt))
    && (forall i :: n <= i < |s.accepted| && s.accepted[i].hash == hash ==>
          StaleAcceptance(s.accepted[i], ttl, update, x, prompt))
  }

  lemma StaleBegin(s: State, u: int, h: Hash, hash: Hash, ttl: int, update: int, x: nat, prompt: bool)
    requires hash in s.pos ==> Before(s.pos[hash], update, x, prompt)
    ensures StaleLookup(OnBegin(s, ttl, u, h).lookups[u], hash, ttl, update, x, prompt)
  {
  }

  lemma StaleRead(s: State, u: int, h: Hash, fails: bool, hash: Hash, ttl: int, update: int, x: nat, prompt: bool)
    requires Revoked(s, hash)
    ensures var s' := OnReadStore(s, u, h, fails);
            u in s'.lookups ==> fails || StaleLookup(s'.lookups[u], hash, ttl, update, x, prompt)
  {
  }

  lemma StaleLookups(s: State, ttl: int, negTtl: int, a: Step, hash: Hash, update: int, x: nat, prompt: bool)
    requires Enabled(s, a) && Revoked(s, hash) && (hash in s.pos ==> Before(s.pos[hash], update, x, prompt))
    requires forall t :: t in s.lookups ==> StaleLookup(s.lookups[t], hash, ttl, update, x, prompt)
    ensures var s' := Next(s, ttl, negTtl, a);
            forall t :: t in s'.lookups ==> StaleLookup(s'.lookups[t], hash, ttl, update, x, prompt)
  {
    hide StaleLookup, Before, Revoked;
    match a
    case Begin(u, h) => StaleBegin(s, u, h, hash, ttl, update, x, prompt);
    case ReadStore(u, fails) => StaleRead(s, u, s.lookups[u].hash, fails, hash, ttl, update, x, prompt);
    case _ => StaleOthers(s, ttl, negTtl, a, hash, update, x, prompt);
  }

  lemma StaleOthers(s: State, ttl: int, negTtl: int, a: Step, hash: Hash, update: int, x: nat, prompt: bool)
    requires Enabled(s, a) && !a.Begin? && !a.ReadStore?
    requires forall t :: t in s.lookups ==> StaleLookup(s.lookups[t], hash, ttl, update, x, prompt)
    ensures var s' := Next(s, ttl, negTtl, a);
            forall t :: t in s'.lookups ==> StaleLookup(s'.lookups[t], hash, ttl, update, x, prompt)
  {
    hide Next, Enabled;
    OtherLookups(s, ttl, negTtl, a);
  }

  lemma StaleCache(s: State, ttl: int, negTtl: int, a: Step, hash: Hash, update: int, x: nat, prompt: bool)
    requires Enabled(s, a) && (hash in s.pos ==> Before(s.pos[hash], update, x, prompt))
    requires forall t :: t in s.lookups ==> StaleLookup(s.lookups[t], hash, ttl, update, x, prompt)
    requires prompt && a.Insert? ==> s.now <= s.lookups[a.t].info.readAt + x
    ensures var s' := Next(s, ttl, negTtl, a);
            hash in s'.pos ==> Before(s'.pos[hash], update, x, prompt)
  {
    match a
    case Insert(t) => assert StaleLookup(s.lookups[t], hash, ttl, update, x, prompt);
    case Begin(_, _) =>
    case Recheck(_) =>
    case ReadStore(_, _) =>
    case _ =>
  }

  lemma StaleAccepts(s: State, ttl: int, negTtl: int, a: Step, hash: Hash, n: nat, update: int, x: nat, prompt: bool)
    requires Enabled(s, a) && Stale(s, hash, ttl, n, update, x, prompt)
    requires prompt && a.Insert? ==> s.now <= s.lookups[a.t].info.readAt + x
    ensures var s' := Next(s, ttl, negTtl, a);
            && n <= |s'.accepted|
            && forall i :: n <= i < |s'.accepted| && s'.accepted[i].hash == hash ==>
                 StaleAcceptance(s'.accepted[i], ttl, update, x, prompt)
  {
    match a
    case Insert(t) => assert StaleLookup(s.lookups[t], hash, ttl, update, x, prompt);
    case Recheck(t) => assert StaleLookup(s.lookups[t], hash, ttl, update, x, prompt);
    case Begin(_, _) =>
    case ReadStore(_, _) =>
    case _ =>
  }

  lemma {:induction false} StaleRun(s: State, ttl: int, negTtl: int, run: seq<Step>, hash: Hash, n: nat,
                                    update: int, x: nat, prompt: bool)
    requires Possible(s, ttl, negTtl, run) && Stale(s, hash, ttl, n, update, x, prompt)
    requires prompt ==> Prompt(s, ttl, negTtl, run, x)
    ensures Stale(Exec(s, ttl, negTtl, run), hash, ttl, n, update, x, prompt)
    decreases |run|
  {
    hide StaleLookup, StaleAcceptance, Before;
    if run != [] {
      StepStoreOnward(s, ttl, negTtl, run[0]);
      StaleCache(s, ttl, negTtl, run[0], hash, update, x, prompt);
      StaleLookups(s, ttl, negTtl, run[0], hash, update, x, prompt);
      StaleAccepts(s, ttl, negTtl, run[0], hash, n, update, x, prompt);
      StaleRun(Next(s, ttl, negTtl, run[0]), ttl, negTtl, run[1..], hash, n, update, x, prompt);
    }
  }

  lemma UpdateLeavesStale(before: State, ttl: int, negTtl: int, r: int, hash: Hash, x: nat, prompt: bool)
    requires Enabled(before, Update(r, false)) && Inv(before, ttl)
    requires hash in before.store && before.store[hash].id == before.revokes[r].id
    ensures Stale(Next(before, ttl, negTtl, Update(r, false)), hash, ttl, |before.accepted|, before.now, x, prompt)
  {
    forall t | t in before.lookups
      ensures StaleLookup(before.lookups[t], hash, ttl, before.now, x, prompt)
    {
      assert LookupOk(before, before.lookups[t], ttl);
    }
  }

  /** Staleness is bounded by the revoke: whatever happens once a revoke has updated the store, every
      acceptance of the key goes back to a read of the store no later than that update. If inserts come
      at most x after their reads, the key is accepted straight from such a read until update + x, and
      found in the cache until update + x + ttl, and never again. */
  lemma StalenessIsBounded(start: seq<Step>, ttl: int, negTtl: int, r: int, run: seq<Step>, hash: Hash, x: nat,
                           prompt: bool, i: nat)
    requires Possible(INITIAL, ttl, negTtl, start)
    requires Enabled(Exec(INITIAL, ttl, negTtl, start), Update(r, false))
    requires var before := Exec(INITIAL, ttl, negTtl, start);
             var after := Next(before, ttl, negTtl, Update(r, false));
             && hash in before.store && before.store[hash].id == before.revokes[r].id
             && Possible(after, ttl, negTtl, run) && (prompt ==> Prompt(after, ttl, negTtl, run, x))
             && |before.accepted| <= i < |Exec(after, ttl, negTtl, run).accepted|
             && Exec(after, ttl, negTtl, run).accepted[i].hash == hash
    ensures var before := Exec(INITIAL, ttl, negTtl, start);
            var after := Next(before, ttl, negTtl, Update(r, false));
            StaleAcceptance(Exec(after, ttl, negTtl, run).accepted[i], ttl, before.now, x, prompt)
  {
    InvHolds(INITIAL, ttl, negTtl, start);
    var before := Exec(INITIAL, ttl, negTtl, start);
    var after := Next(before, ttl, negTtl, Update(r, false));
    UpdateLeavesStale(before, ttl, negTtl, r, hash, x, prompt);
    StaleRun(after, ttl, negTtl, run, hash, |before.accepted|, before.now, x, prompt);
  }

  // ---- Calls begun after the revoke

  /** Step a accepts the key for a lookup that is not one of inFlight. */
  ghost predicate AcceptsOther(s: State, s': State, a: Step, hash: Hash, inFlight: set<int>) {
    && (a.Recheck? || a.Insert?) && a.t !in inFlight
    && |s'.accepted| > |s.accepted| && s'.accepted[|s.accepted|].hash == hash
  }

  /** Somewhere in the run a lookup that is not one of inFlight, the earlier ones still going, accepts the key.
      A lookup of inFlight that finishes leaves it, so another may take its number. */
  ghost predicate AcceptsNewcomer(s: State, ttl: int, negTtl: int, run: seq<Step>, hash: Hash, inFlight: set<int>)
    requires Possible(s, ttl, negTtl, run)
    decreases |run|
  {
    run != [] &&
    var s' := Next(s, ttl, negTtl, run[0]);
    || AcceptsOther(s, s', run[0], hash, inFlight)
    || AcceptsNewcomer(s', ttl, negTtl, run[1..], hash, inFlight * s'.lookups.Keys)
  }

  /** Some continuation accepts the key for a call begun after s. */
  ghost predicate NewcomerCanBeAccepted(s: State, ttl: int, negTtl: int, hash: Hash) {
    exists run :: Possible(s, ttl, negTtl, run) && AcceptsNewcomer(s, ttl, negTtl, run, hash, s.lookups.Keys)
  }

  /** Lookup l has read the row, has yet to insert it, and the key has not expired. */
  ghost predicate Inserts(l: Lookup, hash: Hash, now: int) {
    l.AtInsert? && l.hash == hash && Unexpired(l.info.expiresAt, now)
  }

  ghost predicate NoInsertPending(s: State, hash: Hash) {
    forall t :: t in s.lookups ==> !Inserts(s.lookups[t], hash, s.now)
  }

  /** Nobody but the lookups of inFlight can have the key's row in hand, and what they may still insert, or have
      inserted, has expired. */
  ghost predicate Shut(s: State, hash: Hash, inFlight: set<int>) {
    && Revoked(s, hash) && inFlight <= s.lookups.Keys
    && (hash in s.pos ==> !Unexpired(s.pos[hash].info.expiresAt, s.now))
    && (forall t :: t in s.lookups ==> ShutOut(s.lookups[t], hash, s.now, t in inFlight))
  }

  ghost predicate ShutOut(l: Lookup, hash: Hash, now: int, wasInFlight: bool) {
    match l
    case AtHit(h, entry, _) => h == hash ==> wasInFlight || !Unexpired(entry.info.expiresAt, now)
    case AtInsert(h, info) => h == hash ==> wasInFlight && !Unexpired(info.expiresAt, now)
    case _ => true
  }

  lemma ShutStep(s: State, ttl: int, negTtl: int, a: Step, hash: Hash, inFlight: set<int>)
    requires Enabled(s, a) && Shut(s, hash, inFlight)
    ensures var s' := Next(s, ttl, negTtl, a);
            !AcceptsOther(s, s', a, hash, inFlight) && Shut(s', hash, inFlight * s'.lookups.Keys)
  {
    StepStoreOnward(s, ttl, negTtl, a);
    if a.Recheck? || a.Insert? {
      assert ShutOut(s.lookups[a.t], hash, s.now, a.t in inFlight);
    }
    ShutCache(s, ttl, negTtl, a, hash, inFlight);
    ShutLookups(s, ttl, negTtl, a, hash, inFlight);
  }

  lemma ShutCache(s: State, ttl: int, negTtl: int, a: Step, hash: Hash, inFlight: set<int>)
    requires Enabled(s, a) && Shut(s, hash, inFlight)
    ensures var s' := Next(s, ttl, negTtl, a); hash in s'.pos ==> !Unexpired(s'.pos[hash].info.expiresAt, s'.now)
  {
    match a
    case Insert(t) => assert ShutOut(s.lookups[t], hash, s.now, t in inFlight);
    case Begin(_, _) =>
    case Recheck(_) =>
    case ReadStore(_, _) =>
    case _ =>
  }

  lemma ShutLookups(s: State, ttl: int, negTtl: int, a: Step, hash: Hash, inFlight: set<int>)
    requires Enabled(s, a) && Shut(s, hash, inFlight)
    ensures var s' := Next(s, ttl, negTtl, a);
            forall t :: t in s'.lookups ==> ShutOut(s'.lookups[t], hash, s'.now, t in inFlight * s'.lookups.Keys)
  {
    var s' := Next(s, ttl, negTtl, a);
    forall t | t in s'.lookups ensures ShutOut(s'.lookups[t], hash, s'.now, t in inFlight * s'.lookups.Keys) {
      if t in s.lookups {
        assert ShutOut(s.lookups[t], hash, s.now, t in inFlight);
      }
      ShutOne(s, ttl, negTtl, a, hash, inFlight, t);
    }
  }

  lemma ShutOne(s: State, ttl: int, negTtl: int, a: Step, hash: Hash, inFlight: set<int>, t: int)
    requires Enabled(s, a) && Revoked(s, hash) && t in Next(s, ttl, negTtl, a).lookups
    requires hash in s.pos ==> !Unexpired(s.pos[hash].info.expiresAt, s.now)
    requires t in s.lookups ==> ShutOut(s.lookups[t], hash, s.now, t in inFlight)
    ensures ShutOut(Next(s, ttl, negTtl, a).lookups[t], hash, Next(s, ttl, negTtl, a).now, t in inFlight)
  {
    hide ShutOut, OnBegin, OnReadStore;
    match a
    case Begin(u, h) => ShutBegin(s, ttl, u, h, hash, t in inFlight, t);
    case ReadStore(u, fails) => ShutRead(s, u, s.lookups[u].hash, fails, hash, t in inFlight, t);
    case _ => ShutOther(s, ttl, negTtl, a, hash, inFlight, t);
  }

  lemma ShutBegin(s: State, ttl: int, u: int, h: Hash, hash: Hash, wasInFlight: bool, t: int)
    requires hash in s.pos ==> !Unexpired(s.pos[hash].info.expiresAt, s.now)
    requires t in s.lookups ==> ShutOut(s.lookups[t], hash, s.now, wasInFlight)
    ensures var s' := OnBegin(s, ttl, u, h);
            s'.now == s.now && (t in s'.lookups ==> ShutOut(s'.lookups[t], hash, s.now, wasInFlight))
  {
  }

  lemma ShutRead(s: State, u: int, h: Hash, fails: bool, hash: Hash, wasInFlight: bool, t: int)
    requires Revoked(s, hash)
    requires t in s.lookups ==> ShutOut(s.lookups[t], hash, s.now, wasInFlight)
    ensures var s' := OnReadStore(s, u, h, fails);
            s'.now == s.now && (t in s'.lookups ==> ShutOut(s'.lookups[t], hash, s.now, wasInFlight))
  {
  }

  lemma ShutOther(s: State, ttl: int, negTtl: int, a: Step, hash: Hash, inFlight: set<int>, t: int)
    requires Enabled(s, a) && !a.Begin? && !a.ReadStore? && t in Next(s, ttl, negTtl, a).lookups
    requires t in s.lookups ==> ShutOut(s.lookups[t], hash, s.now, t in inFlight)
    ensures ShutOut(Next(s, ttl, negTtl, a).lookups[t], hash, Next(s, ttl, negTtl, a).now, t in inFlight)
  {
    hide Next, Enabled;
    OtherLookups(s, ttl, negTtl, a);
    StepOnward(s, ttl, negTtl, a);
  }

  lemma {:induction false} ShutForGood(s: State, ttl: int, negTtl: int, run: seq<Step>, hash: Hash, inFlight: set<int>)
    requires Possible(s, ttl, negTtl, run) && Shut(s, hash, inFlight)
    ensures !AcceptsNewcomer(s, ttl, negTtl, run, hash, inFlight)
    decreases |run|
  {
    hide Shut, AcceptsOther;
    if run != [] {
      var s' := Next(s, ttl, negTtl, run[0]);
      ShutStep(s, ttl, negTtl, run[0], hash, inFlight);
      ShutForGood(s', ttl, negTtl, run[1..], hash, inFlight * s'.lookups.Keys);
    }
  }

  /** The pending insert puts the row into the cache, where the next call finds it. */
  lemma InsertThenHit(s: State, ttl: int, negTtl: int, t: int, hash: Hash)
    requires ttl >= 0 && t in s.lookups && Inserts(s.lookups[t], hash, s.now)
    ensures NewcomerCanBeAccepted(s, ttl, negTtl, hash)
  {
    var s1 := Next(s, ttl, negTtl, Insert(t));
    var s2 := Next(s1, ttl, negTtl, Begin(t, hash));
    var s3 := Next(s2, ttl, negTtl, Recheck(t));
    assert s2.lookups[t] == AtHit(hash, s1.pos[hash], s.now);
    var flying1 := s.lookups.Keys * s1.lookups.Keys;
    var flying2 := flying1 * s2.lookups.Keys;
    assert t !in s1.lookups && AcceptsOther(s2, s3, Recheck(t), hash, flying2);
    NewcomerLast(s2, ttl, negTtl, Recheck(t), hash, flying2);
    NewcomerCons(s1, ttl, negTtl, Begin(t, hash), [Recheck(t)], hash, flying1);
    NewcomerCons(s, ttl, negTtl, Insert(t), [Begin(t, hash)] + [Recheck(t)], hash, s.lookups.Keys);
  }

  lemma NewcomerLast(s: State, ttl: int, negTtl: int, a: Step, hash: Hash, inFlight: set<int>)
    requires Enabled(s, a) && AcceptsOther(s, Next(s, ttl, negTtl, a), a, hash, inFlight)
    ensures Possible(s, ttl, negTtl, [a]) && AcceptsNewcomer(s, ttl, negTtl, [a], hash, inFlight)
  {
    hide Next, Enabled;
    assert [a][1..] == [];
  }

  lemma NewcomerCons(s: State, ttl: int, negTtl: int, a: Step, run: seq<Step>, hash: Hash, inFlight: set<int>)
    requires Enabled(s, a) && Possible(Next(s, ttl, negTtl, a), ttl, negTtl, run)
    requires AcceptsNewcomer(Next(s, ttl, negTtl, a), ttl, negTtl, run, hash,
                             inFlight * Next(s, ttl, negTtl, a).lookups.Keys)
    ensures Possible(s, ttl, negTtl, [a] + run) && AcceptsNewcomer(s, ttl, negTtl, [a] + run, hash, inFlight)
  {
    hide Next, Enabled;
    assert ([a] + run)[1..] == run;
  }

  /** Revocation for the calls that come after it, exactly: once a revoke has removed the positive entry, no
      call begun from then on is ever accepted if and only if no lookup that had read the row, with the
      key not yet expired, was still to insert it. */
  lemma RevokedForNewcomers(start: seq<Step>, ttl: int, negTtl: int, r: int)
    requires ttl >= 0 && Possible(INITIAL, ttl, negTtl, start)
    requires Enabled(Exec(INITIAL, ttl, negTtl, start), Invalidate(r))
    ensures var before := Exec(INITIAL, ttl, negTtl, start);
            var s := Next(before, ttl, negTtl, Invalidate(r));
            var hash := before.revokes[r].hash;
            !NewcomerCanBeAccepted(s, ttl, negTtl, hash) <==> NoInsertPending(before, hash)
  {
    InvHolds(INITIAL, ttl, negTtl, start);
    var before := Exec(INITIAL, ttl, negTtl, start);
    var s := Next(before, ttl, negTtl, Invalidate(r));
    var hash := before.revokes[r].hash;
    assert RevokeOk(before, before.revokes[r]);
    if NoInsertPending(before, hash) {
      assert Shut(s, hash, s.lookups.Keys);
      forall run | Possible(s, ttl, negTtl, run)
        ensures !AcceptsNewcomer(s, ttl, negTtl, run, hash, s.lookups.Keys)
      {
        ShutForGood(s, ttl, negTtl, run, hash, s.lookups.Keys);
      }
    } else {
      var t :| t in before.lookups && Inserts(before.lookups[t], hash, before.now);
      InsertThenHit(s, ttl, negTtl, t, hash);
    }
  }

  // ---- The race

  lemma Cons(s: State, ttl: int, negTtl: int, a: Step, run: seq<Step>, s': State)
    requires Enabled(s, a) && Possible(Next(s, ttl, negTtl, a), ttl, negTtl, run)
    requires Exec(Next(s, ttl, negTtl, a), ttl, negTtl, run) == s'
    ensures Leads(s, ttl, negTtl, [a] + run, s')
  {
    assert ([a] + run)[1..] == run;
  }

  /** The run can be taken from s and ends in s'. */
  ghost predicate Leads(s: State, ttl: int, negTtl: int, run: seq<Step>, s': State) {
    Possible(s, ttl, negTtl, run) && Exec(s, ttl, negTtl, run) == s'
  }

  /** The state right after lookup 0 has read the row of a new key. */
  function RowRead(hash: Hash, id: string): State {
    var row := Row(id, true, None);
    INITIAL.(store := map[hash := row],
             lookups := map[0 := AtInsert(hash, Info(id, None, 0))],
             seen := [(hash, row, 0)])
  }

  /** The state once that key has been revoked and the lookup has inserted it all the same. */
  function StaleEntry(hash: Hash, id: string): State {
    var info := Info(id, None, 0);
    RowRead(hash, id).(
      store := map[hash := Row(id, false, None)],
      pos := map[hash := Cached(info, 0)],
      lookups := map[],
      accepted := [Acceptance(hash, info, 0, None)])
  }

  lemma ReadFirst(ttl: int, negTtl: int, hash: Hash, id: string, rest: seq<Step>, end: State) returns (run: seq<Step>)
    requires Leads(RowRead(hash, id), ttl, negTtl, rest, end)
    ensures Leads(INITIAL, ttl, negTtl, run, end)
  {
    var row := Row(id, true, None);
    var s1 := INITIAL.(store := map[hash := row]);
    var s2 := s1.(lookups := map[0 := AtNegative(hash)]);
    var s3 := s1.(lookups := map[0 := AtStore(hash)]);
    assert Next(s3, ttl, negTtl, ReadStore(0, false)) == RowRead(hash, id);
    Cons(s3, ttl, negTtl, ReadStore(0, false), rest, end);
    run := [ReadStore(0, false)] + rest;
    assert Next(s2, ttl, negTtl, TryNegative(0)) == s3;
    Cons(s2, ttl, negTtl, TryNegative(0), run, end);
    run := [TryNegative(0)] + run;
    assert Next(s1, ttl, negTtl, Begin(0, hash)) == s2;
    Cons(s1, ttl, negTtl, Begin(0, hash), run, end);
    run := [Begin(0, hash)] + run;
    assert Next(INITIAL, ttl, negTtl, Create(hash, row)) == s1;
    Cons(INITIAL, ttl, negTtl, Create(hash, row), run, end);
    run := [Create(hash, row)] + run;
  }

  lemma InvalidateThenInsert(ttl: int, negTtl: int, hash: Hash, id: string) returns (run: seq<Step>)
    ensures Leads(RowRead(hash, id).(store := map[hash := Row(id, false, None)],
                                     revokes := map[1 := AtInvalidate(hash)]),
                  ttl, negTtl, run, StaleEntry(hash, id))
  {
    var end := StaleEntry(hash, id);
    var s6 := RowRead(hash, id).(store := map[hash := Row(id, false, None)], revokes := map[1 := AtInvalidate(hash)]);
    var s7 := s6.(revokes := map[1 := AtNegInvalidate(hash)]);
    var s8 := end.(revokes := map[1 := AtNegInvalidate(hash)]);
    assert Next(s8, ttl, negTtl, NegInvalidate(1)) == end;
    Cons(s8, ttl, negTtl, NegInvalidate(1), [], end);
    run := [NegInvalidate(1)] + [];
    assert Next(s7, ttl, negTtl, Insert(0)) == s8;
    Cons(s7, ttl, negTtl, Insert(0), run, end);
    run := [Insert(0)] + run;
    assert Next(s6, ttl, negTtl, Invalidate(1)) == s7;
    Cons(s6, ttl, negTtl, Invalidate(1), run, end);
    run := [Invalidate(1)] + run;
  }

  lemma RevokeMeanwhile(ttl: int, negTtl: int, hash: Hash, id: string) returns (run: seq<Step>)
    ensures Leads(RowRead(hash, id), ttl, negTtl, run, StaleEntry(hash, id))
  {
    var end := StaleEntry(hash, id);
    var s4 := RowRead(hash, id);
    var s5 := s4.(revokes := map[1 := AtUpdate(id, Some(hash))]);
    var s6 := s4.(store := map[hash := Row(id, false, None)], revokes := map[1 := AtInvalidate(hash)]);
    run := InvalidateThenInsert(ttl, negTtl, hash, id);
    assert Next(s5, ttl, negTtl, Update(1, false)) == s6;
    Cons(s5, ttl, negTtl, Update(1, false), run, end);
    run := [Update(1, false)] + run;
    assert hash in s4.store && s4.store[hash].id == id;
    assert FindHash(s4.store, id) == Some(hash);
    assert Next(s4, ttl, negTtl, Find(1, id)) == s5;
    Cons(s4, ttl, negTtl, Find(1, id), run, end);
    run := [Find(1, id)] + run;
  }

  /** The race is real: a lookup that read the row before the update and inserts it after the
      invalidation leaves the revoked key in the cache, where it can be accepted again, with the
      revoke complete and nothing in flight. */
  lemma StaleInsertRace(ttl: int, negTtl: int, hash: Hash, id: string) returns (run: seq<Step>, s: State)
    requires ttl >= 0
    ensures Leads(INITIAL, ttl, negTtl, run, s)
    ensures s.lookups == map[] && s.revokes == map[] && Revoked(s, hash)
    ensures CanStillBeAccepted(s, ttl, negTtl, hash)
  {
    s := StaleEntry(hash, id);
    var rest := RevokeMeanwhile(ttl, negTtl, hash, id);
    run := ReadFirst(ttl, negTtl, hash, id, rest, s);
    var hit := Next(s, ttl, negTtl, Begin(0, hash));
    InHandAccepts(hit, ttl, negTtl, 0, hash);
    var again :| AcceptsLater(hit, ttl, negTtl, again, hash);
    Cons(s, ttl, negTtl, Begin(0, hash), again, Exec(hit, ttl, negTtl, again));
    assert AcceptsLater(s, ttl, negTtl, [Begin(0, hash)] + again, hash);
  }
}
