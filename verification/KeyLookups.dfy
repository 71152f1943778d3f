/** Whom the key cache lets in and whom it turns away: the other half of what its calls promise. */
module KeyLookups {
  import opened Values
  import opened KeyCache

  // ---- Every refusal has a cause

  /** info is what the row of the key says. */
  ghost predicate Matches(store: map<Hash, Row>, hash: Hash, info: Info) {
    hash in store && info.id == store[hash].id && info.expiresAt == store[hash].expiresAt
  }

  /** A good cause: the key had expired when its cached row was looked at, or a read of the store found no
      row, a revoked one or an expired one. */
  ghost predicate GoodCause(s: State, hash: Hash, cause: Cause) {
    match cause
    case ExpiredHit(entry, at) =>
      at <= s.now && Matches(s.store, hash, entry.info) && Expired(entry.info.expiresAt, at)
    case Missed(row, at) =>
      at <= s.now && (row.None? || !row.value.active || Expired(row.value.expiresAt, at))
  }

  ghost predicate Expired(expiresAt: Option<int>, at: int) {
    expiresAt.Some? && expiresAt.value <= at
  }

  ghost predicate SoundLookup(s: State, l: Lookup) {
    match l
    case AtHit(h, entry, _) => Matches(s.store, h, entry.info)
    case AtInsert(h, info) => Matches(s.store, h, info)
    case AtDrop(h, entry, at) => GoodCause(s, h, ExpiredHit(entry, at))
    case AtNegInsert(h, cause) => GoodCause(s, h, cause)
    case _ => true
  }

  /** Whatever is cached or in hand agrees with the row of its key, and whatever is denied has a good cause. */
  ghost predicate Sound(s: State) {
    && (forall h :: h in s.pos ==> Matches(s.store, h, s.pos[h].info))
    && (forall t :: t in s.lookups ==> SoundLookup(s, s.lookups[t]))
    && (forall h :: h in s.neg ==> s.neg[h].insertedAt <= s.now && GoodCause(s, h, s.neg[h].cause))
  }

  ghost predicate Later(s: State, s': State) {
    StoreOnward(s.store, s'.store) && s.now <= s'.now
  }

  lemma MatchesLater(s: State, s': State, hash: Hash, info: Info)
    requires Later(s, s') && Matches(s.store, hash, info)
    ensures Matches(s'.store, hash, info)
  {
  }

  lemma CauseLater(s: State, s': State, hash: Hash, cause: Cause)
    requires Later(s, s') && GoodCause(s, hash, cause)
    ensures GoodCause(s', hash, cause)
  {
  }

  lemma LookupLater(s: State, s': State, l: Lookup)
    requires Later(s, s') && SoundLookup(s, l)
    ensures SoundLookup(s', l)
  {
    hide GoodCause, Matches;
    match l
    case AtHit(h, entry, _) => MatchesLater(s, s', h, entry.info);
    case AtInsert(h, info) => MatchesLater(s, s', h, info);
    case AtDrop(h, entry, at) => CauseLater(s, s', h, ExpiredHit(entry, at));
    case AtNegInsert(h, cause) => CauseLater(s, s', h, cause);
    case _ =>
  }

  lemma SoundLater(s: State, s': State)
    requires Later(s, s') && Sound(s)
    ensures forall h :: h in s.pos ==> Matches(s'.store, h, s.pos[h].info)
    ensures forall t :: t in s.lookups ==> SoundLookup(s', s.lookups[t])
    ensures forall h :: h in s.neg ==> s.neg[h].insertedAt <= s'.now && GoodCause(s', h, s.neg[h].cause)
  {
    hide GoodCause, Matches, SoundLookup, StoreOnward;
    forall h | h in s.pos ensures Matches(s'.store, h, s.pos[h].info) {
      MatchesLater(s, s', h, s.pos[h].info);
    }
    forall t | t in s.lookups ensures SoundLookup(s', s.lookups[t]) {
      LookupLater(s, s', s.lookups[t]);
    }
    forall h | h in s.neg ensures GoodCause(s', h, s.neg[h].cause) {
      CauseLater(s, s', h, s.neg[h].cause);
    }
  }

  /** What one step puts into the positive cache matches its row. */
  lemma NewPositives(s: State, ttl: int, negTtl: int, a: Step)
    requires Enabled(s, a) && Sound(s)
    ensures var s' := Next(s, ttl, negTtl, a);
            forall h :: h in s'.pos ==> (h in s.pos && s'.pos[h] == s.pos[h]) || Matches(s'.store, h, s'.pos[h].info)
  {
    match a
    case Insert(t) => assert SoundLookup(s, s.lookups[t]);
    case Begin(_, _) =>
    case Recheck(_) =>
    case ReadStore(_, _) =>
    case _ =>
  }

  lemma NewNegatives(s: State, ttl: int, negTtl: int, a: Step)
    requires Enabled(s, a) && Sound(s)
    ensures var s' := Next(s, ttl, negTtl, a);
            forall h :: h in s'.neg ==>
              || (h in s.neg && s'.neg[h] == s.neg[h])
              || (s'.neg[h].insertedAt <= s'.now && GoodCause(s', h, s'.neg[h].cause))
  {
    hide Matches;
    match a
    case NegInsert(t) => assert SoundLookup(s, s.lookups[t]);
    case Begin(_, _) =>
    case Recheck(_) =>
    case ReadStore(_, _) =>
    case _ =>
  }

  lemma NewSoundLookups(s: State, ttl: int, negTtl: int, a: Step)
    requires Enabled(s, a) && Sound(s)
    ensures var s' := Next(s, ttl, negTtl, a);
            forall t :: t in s'.lookups ==>
              (t in s.lookups && s'.lookups[t] == s.lookups[t]) || SoundLookup(s', s'.lookups[t])
  {
    hide OnBegin, OnRecheck, OnReadStore;
    match a
    case Begin(t, hash) => SoundBegin(s, ttl, t, hash);
    case Recheck(t) =>
      assert SoundLookup(s, s.lookups[t]);
      SoundRecheck(s, t, s.lookups[t]);
    case Drop(t) => assert SoundLookup(s, s.lookups[t]);
    case ReadStore(t, fails) => SoundRead(s, t, s.lookups[t].hash, fails);
    case _ =>
  }

  /** Lookup t aside, nothing moves; and lookup t, if it is still there, is sound. */
  ghost predicate OneMoves(s: State, s': State, t: int) {
    && s'.store == s.store && s'.now == s.now
    && (forall u :: u in s'.lookups && u != t ==> u in s.lookups && s'.lookups[u] == s.lookups[u])
    && (t in s'.lookups ==> (t in s.lookups && s'.lookups[t] == s.lookups[t]) || SoundLookup(s', s'.lookups[t]))
  }

  lemma SoundBegin(s: State, ttl: int, t: int, hash: Hash)
    requires hash in s.pos ==> Matches(s.store, hash, s.pos[hash].info)
    ensures OneMoves(s, OnBegin(s, ttl, t, hash), t)
  {
  }

  lemma SoundRecheck(s: State, t: int, l: Lookup)
    requires l.AtHit? && SoundLookup(s, l)
    ensures OneMoves(s, OnRecheck(s, t, l), t)
  {
  }

  lemma SoundRead(s: State, t: int, hash: Hash, fails: bool)
    ensures OneMoves(s, OnReadStore(s, t, hash, fails), t)
  {
  }

  lemma SoundStep(s: State, ttl: int, negTtl: int, a: Step)
    requires Enabled(s, a) && Sound(s)
    ensures Sound(Next(s, ttl, negTtl, a))
  {
    hide Matches, GoodCause, SoundLookup, Next, StoreOnward;
    var s' := Next(s, ttl, negTtl, a);
    StepStoreOnward(s, ttl, negTtl, a);
    StepOnward(s, ttl, negTtl, a);
    SoundLater(s, s');
    NewPositives(s, ttl, negTtl, a);
    NewNegatives(s, ttl, negTtl, a);
    NewSoundLookups(s, ttl, negTtl, a);
  }

  lemma {:induction false} SoundHolds(s: State, ttl: int, negTtl: int, run: seq<Step>)
    requires Possible(s, ttl, negTtl, run) && Sound(s)
    ensures Sound(Exec(s, ttl, negTtl, run))
    decreases |run|
  {
    hide Sound;
    if run != [] {
      SoundStep(s, ttl, negTtl, run[0]);
      SoundHolds(Next(s, ttl, negTtl, run[0]), ttl, negTtl, run[1..]);
    }
  }

  lemma SoundReached(ttl: int, negTtl: int, run: seq<Step>)
    requires Possible(INITIAL, ttl, negTtl, run)
    ensures Sound(Exec(INITIAL, ttl, negTtl, run))
  {
    SoundHolds(INITIAL, ttl, negTtl, run);
  }

  /** One more acceptance: of this key, with the identifier and the expiry of its row. */
  ghost predicate LetIn(s: State, s': State, hash: Hash) {
    && |s'.accepted| == |s.accepted| + 1 && s.accepted <= s'.accepted
    && s'.accepted[|s.accepted|].hash == hash && Matches(s.store, hash, s'.accepted[|s.accepted|].info)
  }

  /** Lookup t is turned away: the store failed, or the key was found in the negative cache within its time,
      where it had been put for a good cause, or there is a good cause at hand. */
  ghost predicate TurnedAway(s: State, negTtl: int, a: Step, t: int)
    requires t in s.lookups
  {
    var hash := s.lookups[t].hash;
    || a == ReadStore(t, true)
    || (&& a == TryNegative(t) && hash in s.neg && s.neg[hash].insertedAt <= s.now <= s.neg[hash].insertedAt + negTtl
        && GoodCause(s, hash, s.neg[hash].cause))
    || (a == NegInsert(t) && s.lookups[t].AtNegInsert? && GoodCause(s, hash, s.lookups[t].cause))
  }

  /** Every call ends for a reason: in any reachable state, the step that ends a lookup lets its key in, with
      what its row says, or turns it away for one of those causes, and accepts nobody. */
  lemma EveryEndHasAReason(start: seq<Step>, ttl: int, negTtl: int, a: Step, t: int)
    requires Possible(INITIAL, ttl, negTtl, start) && Enabled(Exec(INITIAL, ttl, negTtl, start), a)
    requires var s := Exec(INITIAL, ttl, negTtl, start); t in s.lookups && t !in Next(s, ttl, negTtl, a).lookups
    ensures var s := Exec(INITIAL, ttl, negTtl, start);
            var s' := Next(s, ttl, negTtl, a);
            LetIn(s, s', s.lookups[t].hash) || (TurnedAway(s, negTtl, a, t) && s'.accepted == s.accepted)
  {
    hide Exec;
    SoundReached(ttl, negTtl, start);
    EndHasAReason(Exec(INITIAL, ttl, negTtl, start), ttl, negTtl, a, t);
  }

  lemma EndHasAReason(s: State, ttl: int, negTtl: int, a: Step, t: int)
    requires Sound(s) && Enabled(s, a) && t in s.lookups && t !in Next(s, ttl, negTtl, a).lookups
    ensures var s' := Next(s, ttl, negTtl, a);
            LetIn(s, s', s.lookups[t].hash) || (TurnedAway(s, negTtl, a, t) && s'.accepted == s.accepted)
  {
    hide GoodCause, Matches;
    assert SoundLookup(s, s.lookups[t]);
    OthersStay(s, ttl, negTtl, a, t);
    match a
    case Begin(_, _) =>
    case Recheck(_) =>
    case Drop(_) =>
    case TryNegative(_) =>
      assert s.lookups[t].hash in s.neg;
    case ReadStore(_, _) =>
    case Insert(_) =>
    case NegInsert(_) =>
    case _ =>
  }

  /** The step is one of lookup t. */
  predicate IsOf(a: Step, t: int) {
    match a
    case Begin(u, _) => u == t
    case Recheck(u) => u == t
    case Drop(u) => u == t
    case TryNegative(u) => u == t
    case ReadStore(u, _) => u == t
    case Insert(u) => u == t
    case NegInsert(u) => u == t
    case _ => false
  }

  /** Other steps leave a lookup where it is. */
  lemma OthersStay(s: State, ttl: int, negTtl: int, a: Step, t: int)
    requires Enabled(s, a) && t in s.lookups
    ensures !IsOf(a, t) ==> t in Next(s, ttl, negTtl, a).lookups && Next(s, ttl, negTtl, a).lookups[t] == s.lookups[t]
    ensures !a.Begin? || !IsOf(a, t)
  {
    match a
    case Begin(_, _) =>
    case Recheck(_) =>
    case Drop(_) =>
    case TryNegative(_) =>
    case ReadStore(_, _) =>
    case Insert(_) =>
    case NegInsert(_) =>
    case _ =>
  }

  // ---- A good key gets in

  ghost predicate GoodRow(s: State, hash: Hash, row: Row) {
    hash in s.store && s.store[hash] == row && row.active && !Expired(row.expiresAt, s.now)
  }

  ghost predicate DeniedNow(s: State, hash: Hash, negTtl: int) {
    hash in s.neg && s.now <= s.neg[hash].insertedAt + negTtl
  }

  /** Lookup t goes on throughout the run, on a row that stays good; the store does not fail it, and it does
      not find the key denied. What others do in between is free. */
  ghost predicate Unhindered(s: State, ttl: int, negTtl: int, run: seq<Step>, t: int, hash: Hash, row: Row)
    requires Possible(s, ttl, negTtl, run)
    decreases |run|
  {
    && GoodRow(s, hash, row)
    && (run != [] ==>
          && t in s.lookups && run[0] != ReadStore(t, true)
          && (run[0] == TryNegative(t) ==> !DeniedNow(s, hash, negTtl))
          && Unhindered(Next(s, ttl, negTtl, run[0]), ttl, negTtl, run[1..], t, hash, row))
  }

  /** Where a lookup of a good key can be. */
  ghost predicate OnItsWay(l: Lookup, hash: Hash) {
    l.hash == hash && !l.AtDrop? && !l.AtNegInsert?
  }

  lemma GoodStep(s: State, ttl: int, negTtl: int, a: Step, t: int, hash: Hash, row: Row)
    requires Sound(s) && Enabled(s, a) && GoodRow(s, hash, row) && t in s.lookups && OnItsWay(s.lookups[t], hash)
    requires a != ReadStore(t, true) && (a == TryNegative(t) ==> !DeniedNow(s, hash, negTtl))
    ensures var s' := Next(s, ttl, negTtl, a);
            if t in s'.lookups then OnItsWay(s'.lookups[t], hash) else LetIn(s, s', hash)
  {
    assert SoundLookup(s, s.lookups[t]);
    OthersStay(s, ttl, negTtl, a, t);
    if IsOf(a, t) {
      GoodOwnStep(s, ttl, negTtl, a, t, hash, row);
    }
  }

  lemma GoodOwnStep(s: State, ttl: int, negTtl: int, a: Step, t: int, hash: Hash, row: Row)
    requires Enabled(s, a) && IsOf(a, t) && !a.Begin?
    requires GoodRow(s, hash, row) && t in s.lookups && OnItsWay(s.lookups[t], hash) && SoundLookup(s, s.lookups[t])
    requires a != ReadStore(t, true) && (a == TryNegative(t) ==> !DeniedNow(s, hash, negTtl))
    ensures var s' := Next(s, ttl, negTtl, a);
            if t in s'.lookups then OnItsWay(s'.lookups[t], hash) else LetIn(s, s', hash)
  {
    match a
    case Recheck(_) =>
    case TryNegative(_) =>
    case ReadStore(_, _) =>
    case Insert(_) =>
    case _ =>
  }

  /** The last acceptance is of this key, with the identifier and the expiry of this row. */
  ghost predicate GotIn(s: State, n: nat, hash: Hash, row: Row) {
    && n < |s.accepted|
    && var a := s.accepted[|s.accepted| - 1];
       a.hash == hash && a.info.id == row.id && a.info.expiresAt == row.expiresAt
  }

  lemma {:induction false} GoodCall(s: State, ttl: int, negTtl: int, run: seq<Step>, t: int, hash: Hash, row: Row,
                                    n: nat)
    requires Possible(s, ttl, negTtl, run) && Sound(s) && Unhindered(s, ttl, negTtl, run, t, hash, row)
    requires t in s.lookups && OnItsWay(s.lookups[t], hash) && n <= |s.accepted|
    requires t !in Exec(s, ttl, negTtl, run).lookups
    ensures GotIn(Exec(s, ttl, negTtl, run), n, hash, row)
    decreases |run|
  {
    hide Sound, OnItsWay, DeniedNow;
    assert run != [];
    var s' := Next(s, ttl, negTtl, run[0]);
    GoodStep(s, ttl, negTtl, run[0], t, hash, row);
    SoundStep(s, ttl, negTtl, run[0]);
    AcceptedGrows(s, ttl, negTtl, run[0]);
    if t in s'.lookups {
      GoodCall(s', ttl, negTtl, run[1..], t, hash, row, n);
    } else {
      assert run[1..] == [];
    }
  }

  lemma AcceptedGrows(s: State, ttl: int, negTtl: int, a: Step)
    requires Enabled(s, a)
    ensures s.accepted <= Next(s, ttl, negTtl, a).accepted
  {
    match a
    case Begin(_, _) =>
    case Recheck(_) =>
    case ReadStore(_, _) =>
    case Insert(_) =>
    case _ =>
  }

  /** A good key gets in: from any reachable state, a call that is begun for a key whose row is active and
      unexpired, and stays so until the call ends, is accepted with that row's identifier and expiry,
      unless the store fails it or it finds the key denied. */
  lemma GoodKeyGetsIn(start: seq<Step>, ttl: int, negTtl: int, t: int, hash: Hash, row: Row, run: seq<Step>)
    requires Possible(INITIAL, ttl, negTtl, start)
    requires Enabled(Exec(INITIAL, ttl, negTtl, start), Begin(t, hash))
    requires var s := Exec(INITIAL, ttl, negTtl, start);
             var s' := Next(s, ttl, negTtl, Begin(t, hash));
             && GoodRow(s, hash, row)
             && Possible(s', ttl, negTtl, run) && Unhindered(s', ttl, negTtl, run, t, hash, row)
             && t !in Exec(s', ttl, negTtl, run).lookups
    ensures var s := Exec(INITIAL, ttl, negTtl, start);
            GotIn(Exec(Next(s, ttl, negTtl, Begin(t, hash)), ttl, negTtl, run), |s.accepted|, hash, row)
  {
    hide Sound, GotIn, Unhindered;
    SoundReached(ttl, negTtl, start);
    var s := Exec(INITIAL, ttl, negTtl, start);
    SoundStep(s, ttl, negTtl, Begin(t, hash));
    Begun(s, ttl, negTtl, t, hash);
    GoodCall(Next(s, ttl, negTtl, Begin(t, hash)), ttl, negTtl, run, t, hash, row, |s.accepted|);
  }

  lemma Begun(s: State, ttl: int, negTtl: int, t: int, hash: Hash)
    requires Enabled(s, Begin(t, hash))
    ensures var s' := Next(s, ttl, negTtl, Begin(t, hash));
            t in s'.lookups && OnItsWay(s'.lookups[t], hash) && s'.accepted == s.accepted
  {
  }

  // ---- Nobody else's key is touched

  /** No step of the run revokes the key with this identifier. */
  ghost predicate Spares(s: State, ttl: int, negTtl: int, run: seq<Step>, id: string)
    requires Possible(s, ttl, negTtl, run)
    decreases |run|
  {
    run != [] ==>
      && (run[0].Update? && !run[0].fails ==> s.revokes[run[0].r].id != id)
      && Spares(Next(s, ttl, negTtl, run[0]), ttl, negTtl, run[1..], id)
  }

  lemma SparedStep(s: State, ttl: int, negTtl: int, a: Step, hash: Hash)
    requires Enabled(s, a) && hash in s.store
    requires a.Update? && !a.fails ==> s.revokes[a.r].id != s.store[hash].id
    ensures hash in Next(s, ttl, negTtl, a).store && Next(s, ttl, negTtl, a).store[hash] == s.store[hash]
  {
    match a
    case Create(_, _) =>
    case Update(_, _) =>
    case _ => StoreKept(s, ttl, negTtl, a);
  }

  /** A row changes only by a revoke of its own identifier. */
  lemma {:induction false} SparedRow(s: State, ttl: int, negTtl: int, run: seq<Step>, hash: Hash)
    requires Possible(s, ttl, negTtl, run) && hash in s.store && Spares(s, ttl, negTtl, run, s.store[hash].id)
    ensures var s' := Exec(s, ttl, negTtl, run); hash in s'.store && s'.store[hash] == s.store[hash]
    decreases |run|
  {
    if run != [] {
      SparedStep(s, ttl, negTtl, run[0], hash);
      SparedRow(Next(s, ttl, negTtl, run[0]), ttl, negTtl, run[1..], hash);
    }
  }

  // ---- What the caches are for

  /** Nothing in the run takes the key out of the positive cache. */
  ghost predicate KeepsPositive(s: State, ttl: int, negTtl: int, run: seq<Step>, hash: Hash)
    requires Possible(s, ttl, negTtl, run)
    decreases |run|
  {
    run != [] ==>
      && run[0] != EvictPos(hash)
      && (run[0].Drop? ==> s.lookups[run[0].t].hash != hash)
      && (run[0].Invalidate? ==> s.revokes[run[0].r].hash != hash)
      && KeepsPositive(Next(s, ttl, negTtl, run[0]), ttl, negTtl, run[1..], hash)
  }

  ghost predicate KeepsNegative(s: State, ttl: int, negTtl: int, run: seq<Step>, hash: Hash)
    requires Possible(s, ttl, negTtl, run)
    decreases |run|
  {
    run != [] ==>
      && run[0] != EvictNeg(hash)
      && (run[0].NegInvalidate? ==> s.revokes[run[0].r].hash != hash)
      && KeepsNegative(Next(s, ttl, negTtl, run[0]), ttl, negTtl, run[1..], hash)
  }

  lemma PositiveStep(s: State, ttl: int, negTtl: int, a: Step, hash: Hash, since: int)
    requires Enabled(s, a) && a != EvictPos(hash) && (a.Drop? ==> s.lookups[a.t].hash != hash)
    requires a.Invalidate? ==> s.revokes[a.r].hash != hash
    requires hash in s.pos && s.pos[hash].insertedAt >= since && s.now >= since
    ensures var s' := Next(s, ttl, negTtl, a);
            hash in s'.pos && s'.pos[hash].insertedAt >= since && s'.now >= since
  {
    match a
    case Begin(_, _) =>
    case Recheck(_) =>
    case ReadStore(_, _) =>
    case _ =>
  }

  lemma NegativeStep(s: State, ttl: int, negTtl: int, a: Step, hash: Hash, since: int)
    requires Enabled(s, a) && a != EvictNeg(hash) && (a.NegInvalidate? ==> s.revokes[a.r].hash != hash)
    requires hash in s.neg && s.neg[hash].insertedAt >= since && s.now >= since
    ensures var s' := Next(s, ttl, negTtl, a);
            hash in s'.neg && s'.neg[hash].insertedAt >= since && s'.now >= since
  {
    match a
    case Begin(_, _) =>
    case Recheck(_) =>
    case ReadStore(_, _) =>
    case _ =>
  }

  lemma {:induction false} PositiveStays(s: State, ttl: int, negTtl: int, run: seq<Step>, hash: Hash, since: int)
    requires Possible(s, ttl, negTtl, run) && KeepsPositive(s, ttl, negTtl, run, hash)
    requires hash in s.pos && s.pos[hash].insertedAt >= since && s.now >= since
    ensures var s' := Exec(s, ttl, negTtl, run); hash in s'.pos && s'.pos[hash].insertedAt >= since
    decreases |run|
  {
    if run != [] {
      PositiveStep(s, ttl, negTtl, run[0], hash, since);
      PositiveStays(Next(s, ttl, negTtl, run[0]), ttl, negTtl, run[1..], hash, since);
    }
  }

  lemma {:induction false} NegativeStays(s: State, ttl: int, negTtl: int, run: seq<Step>, hash: Hash, since: int)
    requires Possible(s, ttl, negTtl, run) && KeepsNegative(s, ttl, negTtl, run, hash)
    requires hash in s.neg && s.neg[hash].insertedAt >= since && s.now >= since
    ensures var s' := Exec(s, ttl, negTtl, run); hash in s'.neg && s'.neg[hash].insertedAt >= since
    decreases |run|
  {
    if run != [] {
      NegativeStep(s, ttl, negTtl, run[0], hash, since);
      NegativeStays(Next(s, ttl, negTtl, run[0]), ttl, negTtl, run[1..], hash, since);
    }
  }

  /** A hit found expired leaves the cache and is denied from then on, and its call ends unaccepted. */
  lemma ExpiredHitIsDenied(s: State, ttl: int, negTtl: int, t: int)
    requires t in s.lookups && s.lookups[t].AtHit? && Expired(s.lookups[t].entry.info.expiresAt, s.now)
    ensures var hash, run := s.lookups[t].hash, [Recheck(t)] + ([Drop(t)] + ([NegInsert(t)] + []));
            && Possible(s, ttl, negTtl, run)
            && var s' := Exec(s, ttl, negTtl, run);
               && hash !in s'.pos && hash in s'.neg && s'.neg[hash].insertedAt == s.now
               && t !in s'.lookups && s'.accepted == s.accepted
  {
    var s1 := Next(s, ttl, negTtl, Recheck(t));
    var s2 := Next(s1, ttl, negTtl, Drop(t));
    var s3 := Next(s2, ttl, negTtl, NegInsert(t));
    assert s1.lookups[t].AtDrop? && s2.lookups[t].AtNegInsert?;
    assert Leads(s3, ttl, negTtl, [], s3);
    Cons(s2, ttl, negTtl, NegInsert(t), [], s3);
    Cons(s1, ttl, negTtl, Drop(t), [NegInsert(t)] + [], s3);
    Cons(s, ttl, negTtl, Recheck(t), [Drop(t)] + ([NegInsert(t)] + []), s3);
  }

  /** A revoke past its update clears the key from both caches, and nothing else from either. */
  lemma RevokeClears(s: State, ttl: int, negTtl: int, r: int)
    requires r in s.revokes && s.revokes[r].AtInvalidate?
    ensures var hash, run := s.revokes[r].hash, [Invalidate(r)] + ([NegInvalidate(r)] + []);
            && Possible(s, ttl, negTtl, run)
            && var s' := Exec(s, ttl, negTtl, run);
               s'.pos == s.pos - {hash} && s'.neg == s.neg - {hash} && r !in s'.revokes
  {
    var s1 := Next(s, ttl, negTtl, Invalidate(r));
    var s2 := Next(s1, ttl, negTtl, NegInvalidate(r));
    Cons(s1, ttl, negTtl, NegInvalidate(r), [], s2);
    Cons(s, ttl, negTtl, Invalidate(r), [NegInvalidate(r)] + [], s2);
  }

  /** A key that was inserted, and that nothing has taken out since, is found in the cache by every call until
      its lifetime is over. */
  lemma PositiveServes(s: State, ttl: int, negTtl: int, t: int, run: seq<Step>, u: int)
    requires Enabled(s, Insert(t))
    requires var hash, s' := s.lookups[t].hash, Next(s, ttl, negTtl, Insert(t));
             && Possible(s', ttl, negTtl, run) && KeepsPositive(s', ttl, negTtl, run, hash)
             && Enabled(Exec(s', ttl, negTtl, run), Begin(u, hash))
             && Exec(s', ttl, negTtl, run).now <= s.now + ttl
    ensures var hash := s.lookups[t].hash;
            var end := Exec(Next(s, ttl, negTtl, Insert(t)), ttl, negTtl, run);
            && hash in end.pos
            && Next(end, ttl, negTtl, Begin(u, hash)).lookups[u] == AtHit(hash, end.pos[hash], end.now)
  {
    PositiveStays(Next(s, ttl, negTtl, Insert(t)), ttl, negTtl, run, s.lookups[t].hash, s.now);
  }

  /** A key that was denied, and that nothing has cleared since, is refused without a read of the store until
      the denial has lived its time. */
  lemma NegativeShields(s: State, ttl: int, negTtl: int, t: int, run: seq<Step>, u: int)
    requires Enabled(s, NegInsert(t))
    requires var hash, s' := s.lookups[t].hash, Next(s, ttl, negTtl, NegInsert(t));
             && Possible(s', ttl, negTtl, run) && KeepsNegative(s', ttl, negTtl, run, hash)
             && Enabled(Exec(s', ttl, negTtl, run), TryNegative(u))
             && Exec(s', ttl, negTtl, run).lookups[u].hash == hash
             && Exec(s', ttl, negTtl, run).now <= s.now + negTtl
    ensures var end := Exec(Next(s, ttl, negTtl, NegInsert(t)), ttl, negTtl, run);
            var after := Next(end, ttl, negTtl, TryNegative(u));
            u !in after.lookups && after.accepted == end.accepted
  {
    NegativeStays(Next(s, ttl, negTtl, NegInsert(t)), ttl, negTtl, run, s.lookups[t].hash, s.now);
  }
}
