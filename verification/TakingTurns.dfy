/** Per-user overlap under interleaving. Nothing locks a user, so two of a user's own requests
    can each pass their overlap query before the other commits. Here is exactly when that does
    harm, and why nothing happens to users who wait for one answer before they ask again. */
module TakingTurns {
  import opened Wrappers
  import opened Tables
  import opened Transactions
  import opened Invariants
  import opened LockStep
  import opened Serialisable
  import opened Guarantees
  import opened UserOverlap

  predicate CommitsNow(s: State, a: Action) {
    a.Run? && a.t in s.txs && !Blocked(s, a.t) && s.txs[a.t].pc == Ready
  }

  /** What a step of a sound state is, case by case. */
  lemma OnlyCommitsWrite(first: Db, s: State, a: Action)
    requires Sound(first, s)
    ensures CommitsNow(s, a) ==> Serial(s.db, s.txs[a.t].req, s.txs[a.t].env) == Ok(Step(s, a).db)
                                 && Step(s, a).txs == s.txs - {a.t}
    ensures !CommitsNow(s, a) ==> Step(s, a).db == s.db
  {
    if a.Run? && a.t in s.txs && !Blocked(s, a.t) {
      var tx := s.txs[a.t];
      CommitsOnlyWhenReady(s.db, TakenIds(s, a.t), tx, a.choice);
      RunOneByResult(s, a.t, a.choice, Statement(s.db, TakenIds(s, a.t), tx, a.choice));
      if tx.pc == Ready {
        CommitIsSerial(s.db, tx);
      }
    }
  }

  lemma RunOneByResult(s: State, t: TxId, choice: Choice, result: StepResult)
    requires t in s.txs && !Blocked(s, t) && Statement(s.db, TakenIds(s, t), s.txs[t], choice) == result
    ensures result.Commits? ==> RunOne(s, t, choice).db == Apply(s.db, s.txs[t].writes)
                                && RunOne(s, t, choice).txs == s.txs - {t}
    ensures result.Fails? ==> RunOne(s, t, choice).db == s.db && RunOne(s, t, choice).txs == s.txs - {t}
    ensures result.Goes? ==> RunOne(s, t, choice).db == s.db && RunOne(s, t, choice).txs == s.txs[t := result.tx]
  {}

  // ── Bookings: the exact condition ─────────────────────────────

  /** A booking commits although by now its user holds an overlapping slot. */
  predicate LateBooking(s: State, a: Action) {
    CommitsNow(s, a) && s.txs[a.t].req.Book? && OverlapQuery(s.db, s.txs[a.t].req)
  }

  lemma BookingKeepsApartIff(db: Db, c: CourtId, s: SlotId, u: UserId, env: Env)
    requires BookingsApart(db) && BookSlot(db, c, s, u, env).Ok?
    ensures BookingsApart(BookSlot(db, c, s, u, env).value) <==> !OverlapQuery(db, Book(c, s, u))
  {
    var next := BookSlot(db, c, s, u, env).value;
    if OverlapQuery(db, Book(c, s, u)) {
      var t :| t in db.slots && db.slots[t].bookedBy == Some(u) && t != s && db.slots[t].status == Booked
               && db.slots[t].start < db.slots[s].end && db.slots[t].end > db.slots[s].start;
      assert BookedByBoth(next, s, t, u);
    } else {
      forall a, b, v | BookedByBoth(next, a, b, v)
        ensures !Overlap(next.slots[a], next.slots[b])
      {
        if a != s && b != s { assert BookedByBoth(db, a, b, v); }
      }
    }
  }

  /** One step of the interleaved system puts overlapping bookings into one hand if and only if
      it is the commit of a booking whose overlap query would by now find something. */
  lemma StepKeepsBookingsApartIff(first: Db, s: State, a: Action)
    requires Sound(first, s) && BookingsApart(s.db)
    ensures BookingsApart(Step(s, a).db) <==> !LateBooking(s, a)
  {
    OnlyCommitsWrite(first, s, a);
    if CommitsNow(s, a) {
      var tx := s.txs[a.t];
      if tx.req.Book? {
        BookingKeepsApartIff(s.db, tx.req.court, tx.req.slot, tx.req.user, tx.env);
      } else {
        SlotsAfter(s.db, tx.req, tx.env);
        FewerBookingsStayApart(s.db, Step(s, a).db);
      }
    }
  }

  ghost predicate AlwaysBookingsApart(s: State, actions: seq<Action>)
    decreases |actions|
  {
    BookingsApart(s.db) && (actions == [] || AlwaysBookingsApart(Step(s, actions[0]), actions[1..]))
  }

  predicate NoLateBooking(s: State, actions: seq<Action>)
    decreases |actions|
  {
    actions == [] || (!LateBooking(s, actions[0]) && NoLateBooking(Step(s, actions[0]), actions[1..]))
  }

  lemma {:induction false} ApartIffNoneLate(first: Db, s: State, actions: seq<Action>)
    requires Sound(first, s) && BookingsApart(s.db)
    ensures AlwaysBookingsApart(s, actions) <==> NoLateBooking(s, actions)
    decreases |actions|
  {
    if actions != [] {
      var next := Step(s, actions[0]);
      StepKeepsSound(first, s, actions[0]);
      StepKeepsBookingsApartIff(first, s, actions[0]);
      if BookingsApart(next.db) {
        ApartIffNoneLate(first, next, actions[1..]);
      } else {
        assert !AlwaysBookingsApart(next, actions[1..]);
      }
    }
  }

  /** Over a whole interleaving nobody ever holds overlapping bookings if and only if no booking
      commits that its own query, asked again at the commit, would refuse. */
  lemma BookingsNeverOverlapIff(first: Db, actions: seq<Action>)
    requires Initial(first)
    ensures AlwaysBookingsApart(Start(first), actions) <==> NoLateBooking(Start(first), actions)
  {
    StartIsSound(first);
    InitialIsFair(first);
    ApartIffNoneLate(first, Start(first), actions);
  }

  // ── Joins: the exact condition ────────────────────────────────

  /** `u` plays in an active game of somebody else that overlaps `g`. */
  predicate JoinedElsewhere(db: Db, g: GameId, u: UserId) {
    && g in db.games && db.games[g].slot in db.slots
    && exists h :: h in db.games && h != g && u in Members(db, h) && IsActive(db.games[h].status)
                   && db.games[h].creator != u && db.games[h].slot in db.slots
                   && Overlap(db.slots[db.games[g].slot], db.slots[db.games[h].slot])
  }

  /** A join commits although by now its user has joined an overlapping game. */
  predicate LateJoin(s: State, a: Action) {
    CommitsNow(s, a) && s.txs[a.t].req.Join? && JoinedElsewhere(s.db, s.txs[a.t].req.game, s.txs[a.t].req.user)
  }

  lemma JoinElsewhereSplits(db: Db, g: GameId, u: UserId, env: Env)
    requires Good(db) && JoinGame(db, g, u, env).Ok? && JoinedElsewhere(db, g, u)
    ensures !JoinedApart(JoinGame(db, g, u, env).value)
  {
    var next := JoinGame(db, g, u, env).value;
    var h :| h in db.games && h != g && u in Members(db, h) && IsActive(db.games[h].status)
             && db.games[h].creator != u && db.games[h].slot in db.slots
             && Overlap(db.slots[db.games[g].slot], db.slots[db.games[h].slot]);
    assert CapacityAgrees(db.games[g], db.players[g]);
    assert PlaysBoth(next, g, h, u);
  }

  /** A pair with the game just joined is with a game `u` created, or one found elsewhere. */
  lemma JoinedPairIsOwnOrElsewhere(db: Db, g: GameId, u: UserId, env: Env, h: GameId)
    requires JoinGame(db, g, u, env).Ok?
    requires PlaysBoth(JoinGame(db, g, u, env).value, g, h, u) || PlaysBoth(JoinGame(db, g, u, env).value, h, g, u)
    ensures JoinGame(db, g, u, env).value.games[h].creator == u || JoinedElsewhere(db, g, u)
  {
    JoinGains(db, g, u, env);
    assert Plays(JoinGame(db, g, u, env).value, h, u) && Plays(db, h, u);
  }

  lemma JoinKeepsApartIff(db: Db, g: GameId, u: UserId, env: Env)
    requires Good(db) && JoinedApart(db) && JoinGame(db, g, u, env).Ok?
    ensures JoinedApart(JoinGame(db, g, u, env).value) <==> !JoinedElsewhere(db, g, u)
  {
    var next := JoinGame(db, g, u, env).value;
    if JoinedElsewhere(db, g, u) {
      JoinElsewhereSplits(db, g, u, env);
    } else {
      JoinGains(db, g, u, env);
      forall a: GameId, b: GameId, v: UserId | PlaysBoth(next, a, b, v)
        ensures next.games[a].creator == v || next.games[b].creator == v
      {
        if v != u || (a != g && b != g) {
          OldPairs(db, next, Some(g), u, a, b, v);
        } else {
          JoinedPairIsOwnOrElsewhere(db, g, u, env, if a == g then b else a);
        }
      }
    }
  }

  /** The same for games: only the commit of a join whose user has meanwhile joined an
      overlapping game puts them into two; a create is excused by its creator. */
  lemma StepKeepsJoinedApartIff(first: Db, s: State, a: Action)
    requires Sound(first, s) && JoinedApart(s.db)
    ensures JoinedApart(Step(s, a).db) <==> !LateJoin(s, a)
  {
    OnlyCommitsWrite(first, s, a);
    if CommitsNow(s, a) {
      var tx := s.txs[a.t];
      if tx.req.Join? {
        JoinKeepsApartIff(s.db, tx.req.game, tx.req.user, tx.env);
      } else {
        AloneKeepsJoinedApart(s.db, tx.req, tx.env);
      }
    }
  }

  ghost predicate AlwaysJoinedApart(s: State, actions: seq<Action>)
    decreases |actions|
  {
    JoinedApart(s.db) && (actions == [] || AlwaysJoinedApart(Step(s, actions[0]), actions[1..]))
  }

  predicate NoLateJoin(s: State, actions: seq<Action>)
    decreases |actions|
  {
    actions == [] || (!LateJoin(s, actions[0]) && NoLateJoin(Step(s, actions[0]), actions[1..]))
  }

  lemma {:induction false} JoinedApartIffNoneLate(first: Db, s: State, actions: seq<Action>)
    requires Sound(first, s) && JoinedApart(s.db)
    ensures AlwaysJoinedApart(s, actions) <==> NoLateJoin(s, actions)
    decreases |actions|
  {
    if actions != [] {
      var next := Step(s, actions[0]);
      StepKeepsSound(first, s, actions[0]);
      StepKeepsJoinedApartIff(first, s, actions[0]);
      if JoinedApart(next.db) {
        JoinedApartIffNoneLate(first, next, actions[1..]);
      } else {
        assert !AlwaysJoinedApart(next, actions[1..]);
      }
    }
  }

  /** Over a whole interleaving nobody is ever in two overlapping games of others if and only if
      no join commits whose user has meanwhile joined an overlapping one. */
  lemma JoinsNeverOverlapIff(first: Db, actions: seq<Action>)
    requires Initial(first)
    ensures AlwaysJoinedApart(Start(first), actions) <==> NoLateJoin(Start(first), actions)
  {
    StartIsSound(first);
    InitialIsFair(first);
    JoinedApartIffNoneLate(first, Start(first), actions);
  }

  // ── Users who take turns with themselves ──────────────────────

  /** No user has two bookings under way. */
  predicate OneBookingEach(s: State) {
    forall t, u :: t in s.txs && u in s.txs && t != u && s.txs[t].req.Book? && s.txs[u].req.Book?
                   ==> s.txs[t].req.user != s.txs[u].req.user
  }

  /** No user has two joins under way. */
  predicate OneJoinEach(s: State) {
    forall t, u :: t in s.txs && u in s.txs && t != u && s.txs[t].req.Join? && s.txs[u].req.Join?
                   ==> s.txs[t].req.user != s.txs[u].req.user
  }

  predicate BookingInTurn(s: State, actions: seq<Action>)
    decreases |actions|
  {
    OneBookingEach(s) && (actions == [] || BookingInTurn(Step(s, actions[0]), actions[1..]))
  }

  predicate JoiningInTurn(s: State, actions: seq<Action>)
    decreases |actions|
  {
    OneJoinEach(s) && (actions == [] || JoiningInTurn(Step(s, actions[0]), actions[1..]))
  }

  /** What a booking's overlap query has not found is still not there. */
  predicate StillFree(db: Db, tx: Tx) {
    tx.req.Book? && (tx.pc == Checked || tx.pc == Ready) ==> !OverlapQuery(db, tx.req)
  }

  predicate StillUnjoined(db: Db, tx: Tx) {
    tx.req.Join? && (tx.pc == Checked || tx.pc == RowWritten || tx.pc == Ready)
    ==> !JoinedElsewhere(db, tx.req.game, tx.req.user)
  }

  lemma QueryFindsFree(db: Db, taken: set<GameId>, tx: Tx, choice: Choice)
    requires Established(db, tx) && StillFree(db, tx)
    requires Statement(db, taken, tx, choice).Goes?
    ensures StillFree(db, Statement(db, taken, tx, choice).tx)
  {
    if tx.req.Book? && tx.pc == RowLocked {
      assert Apply(db, tx.writes) == db;
    }
  }

  lemma JoinQueryFindsUnjoined(db: Db, tx: Tx)
    requires tx.req.Join? && tx.pc == Counted && Established(db, tx)
    requires !HasOverlappingGame(db, tx.req.user, tx.req.game, tx.seen.start, tx.seen.end)
    ensures !JoinedElsewhere(db, tx.req.game, tx.req.user)
  {}

  lemma QueryFindsUnjoined(db: Db, taken: set<GameId>, tx: Tx, choice: Choice)
    requires Established(db, tx) && StillUnjoined(db, tx)
    requires Statement(db, taken, tx, choice).Goes?
    ensures StillUnjoined(db, Statement(db, taken, tx, choice).tx)
  {
    if tx.req.Join? && tx.pc == Counted {
      assert Apply(db, tx.writes) == db;
      JoinQueryFindsUnjoined(db, tx);
    }
  }

  /** Somebody else's commit, or one of another kind, gives `u` no booking. */
  lemma CommitKeepsFree(db: Db, req: Request, env: Env, tx: Tx)
    requires Established(db, tx) && StillFree(db, tx) && Serial(db, req, env).Ok?
    requires tx.req.Book? && req.Book? ==> req.user != tx.req.user
    ensures StillFree(Serial(db, req, env).value, tx)
  {
    var next := Serial(db, req, env).value;
    SerialMovesForward(db, req, env);
    if tx.req.Book? && OverlapQuery(next, tx.req) {
      var t :| t in next.slots && next.slots[t].bookedBy == Some(tx.req.user) && t != tx.req.slot
               && next.slots[t].status == Booked && next.slots[t].start < next.slots[tx.req.slot].end
               && next.slots[t].end > next.slots[tx.req.slot].start;
      if !req.Book? {
        SlotsAfter(db, req, env);
      }
      assert next.slots[t] == db.slots[t];
    }
  }

  /** A game `u` joined elsewhere was joined before the commit already. */
  lemma ElsewhereWasBefore(db: Db, req: Request, env: Env, g: GameId, u: UserId)
    requires Serial(db, req, env).Ok? && g in db.games && db.games[g].slot in db.slots
    requires req.Join? ==> req.user != u
    requires JoinedElsewhere(Serial(db, req, env).value, g, u)
    ensures JoinedElsewhere(db, g, u)
  {
    var next := Serial(db, req, env).value;
    SerialMovesForward(db, req, env);
    SerialGains(db, req, env);
    var h :| h in next.games && h != g && u in Members(next, h) && IsActive(next.games[h].status)
             && next.games[h].creator != u && next.games[h].slot in next.slots
             && Overlap(next.slots[next.games[g].slot], next.slots[next.games[h].slot]);
    assert Plays(next, h, u);
    assert !(req.Create? && env.newId == h);
    assert Plays(db, h, u);
  }

  lemma CommitKeepsUnjoined(db: Db, req: Request, env: Env, tx: Tx)
    requires Established(db, tx) && StillUnjoined(db, tx) && Serial(db, req, env).Ok?
    requires tx.req.Join? && req.Join? ==> req.user != tx.req.user
    ensures StillUnjoined(Serial(db, req, env).value, tx)
  {
    var next := Serial(db, req, env).value;
    if tx.req.Join? && tx.pc != Begun && JoinedElsewhere(next, tx.req.game, tx.req.user) {
      ElsewhereWasBefore(db, req, env, tx.req.game, tx.req.user);
    }
  }

  ghost predicate AllFree(s: State) {
    forall t :: t in s.txs ==> StillFree(s.db, s.txs[t])
  }

  ghost predicate AllUnjoined(s: State) {
    forall t :: t in s.txs ==> StillUnjoined(s.db, s.txs[t])
  }

  lemma RunKeepsFree(first: Db, s: State, t: TxId, choice: Choice)
    requires Sound(first, s) && OneBookingEach(s) && AllFree(s) && t in s.txs && !Blocked(s, t)
    ensures AllFree(RunOne(s, t, choice))
  {
    var tx, result := s.txs[t], Statement(s.db, TakenIds(s, t), s.txs[t], choice);
    RunOneByResult(s, t, choice, result);
    if result.Commits? {
      CommitsOnlyWhenReady(s.db, TakenIds(s, t), tx, choice);
      CommitIsSerial(s.db, tx);
      forall u | u in s.txs && u != t
        ensures StillFree(Apply(s.db, tx.writes), s.txs[u])
      {
        CommitKeepsFree(s.db, tx.req, tx.env, s.txs[u]);
      }
    } else if result.Goes? {
      QueryFindsFree(s.db, TakenIds(s, t), tx, choice);
    }
  }

  lemma StepKeepsFree(first: Db, s: State, a: Action)
    requires Sound(first, s) && OneBookingEach(s) && AllFree(s)
    ensures AllFree(Step(s, a))
  {
    if a.Run? && a.t in s.txs && !Blocked(s, a.t) {
      RunKeepsFree(first, s, a.t, a.choice);
    }
  }

  lemma RunKeepsUnjoined(first: Db, s: State, t: TxId, choice: Choice)
    requires Sound(first, s) && OneJoinEach(s) && AllUnjoined(s) && t in s.txs && !Blocked(s, t)
    ensures AllUnjoined(RunOne(s, t, choice))
  {
    var tx, result := s.txs[t], Statement(s.db, TakenIds(s, t), s.txs[t], choice);
    RunOneByResult(s, t, choice, result);
    if result.Commits? {
      CommitsOnlyWhenReady(s.db, TakenIds(s, t), tx, choice);
      CommitIsSerial(s.db, tx);
      forall u | u in s.txs && u != t
        ensures StillUnjoined(Apply(s.db, tx.writes), s.txs[u])
      {
        CommitKeepsUnjoined(s.db, tx.req, tx.env, s.txs[u]);
      }
    } else if result.Goes? {
      QueryFindsUnjoined(s.db, TakenIds(s, t), tx, choice);
    }
  }

  lemma StepKeepsUnjoined(first: Db, s: State, a: Action)
    requires Sound(first, s) && OneJoinEach(s) && AllUnjoined(s)
    ensures AllUnjoined(Step(s, a))
  {
    if a.Run? && a.t in s.txs && !Blocked(s, a.t) {
      RunKeepsUnjoined(first, s, a.t, a.choice);
    }
  }

  lemma {:induction false} InTurnKeepsBookingsApart(first: Db, s: State, actions: seq<Action>)
    requires Sound(first, s) && BookingsApart(s.db) && AllFree(s) && BookingInTurn(s, actions)
    ensures BookingsApart(Exec(s, actions).db) && NoLateBooking(s, actions)
    decreases |actions|
  {
    if actions != [] {
      StepKeepsSound(first, s, actions[0]);
      StepKeepsBookingsApartIff(first, s, actions[0]);
      StepKeepsFree(first, s, actions[0]);
      InTurnKeepsBookingsApart(first, Step(s, actions[0]), actions[1..]);
    }
  }

  lemma {:induction false} InTurnKeepsJoinedApart(first: Db, s: State, actions: seq<Action>)
    requires Sound(first, s) && JoinedApart(s.db) && AllUnjoined(s) && JoiningInTurn(s, actions)
    ensures JoinedApart(Exec(s, actions).db) && NoLateJoin(s, actions)
    decreases |actions|
  {
    if actions != [] {
      StepKeepsSound(first, s, actions[0]);
      StepKeepsJoinedApartIff(first, s, actions[0]);
      StepKeepsUnjoined(first, s, actions[0]);
      InTurnKeepsJoinedApart(first, Step(s, actions[0]), actions[1..]);
    }
  }

  /** If no user ever has two bookings under way, then in every interleaving nobody holds two
      overlapping bookings. */
  lemma UserBookingsNeverOverlap(first: Db, actions: seq<Action>, s: SlotId, t: SlotId, u: UserId)
    requires Initial(first) && BookingInTurn(Start(first), actions)
    requires BookedByBoth(Exec(Start(first), actions).db, s, t, u)
    ensures !Overlap(Exec(Start(first), actions).db.slots[s], Exec(Start(first), actions).db.slots[t])
  {
    StartIsSound(first);
    InitialIsFair(first);
    InTurnKeepsBookingsApart(first, Start(first), actions);
  }

  lemma InTurnIsFair(first: Db, actions: seq<Action>)
    requires Initial(first) && BookingInTurn(Start(first), actions) && JoiningInTurn(Start(first), actions)
    ensures Fair(Exec(Start(first), actions).db)
  {
    StartIsSound(first);
    InitialIsFair(first);
    ReachableIsSound(first, actions);
    InTurnKeepsBookingsApart(first, Start(first), actions);
    InTurnKeepsJoinedApart(first, Start(first), actions);
  }

  /** If no user ever has two bookings or two joins under way, then in every interleaving whoever
      plays in two overlapping active games created exactly one of them. */
  lemma OverlappingGamesOneCreated(first: Db, actions: seq<Action>, g: GameId, h: GameId, u: UserId)
    requires Initial(first) && BookingInTurn(Start(first), actions) && JoiningInTurn(Start(first), actions)
    requires PlaysBoth(Exec(Start(first), actions).db, g, h, u)
    ensures
      var db := Exec(Start(first), actions).db;
      (db.games[g].creator == u) != (db.games[h].creator == u)
  {
    InTurnIsFair(first, actions);
    FairMeansOneCreated(Exec(Start(first), actions).db, g, h, u);
  }

  /** And at any instant everyone is in at most two active games, one created and one joined. */
  lemma AtMostTwoGamesAtOnce(first: Db, actions: seq<Action>, u: UserId, instant: int)
    requires Initial(first) && BookingInTurn(Start(first), actions) && JoiningInTurn(Start(first), actions)
    ensures
      var db := Exec(Start(first), actions).db;
      |CreatedAt(db, u, instant)| <= 1 && |JoinedAt(db, u, instant)| <= 1 && |GamesAt(db, u, instant)| <= 2
  {
    InTurnIsFair(first, actions);
    FairMeansAtMostTwo(Exec(Start(first), actions).db, u, instant);
  }
}
