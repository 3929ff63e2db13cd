/** Per-user overlap, one transaction at a time: what keeps a user's bookings and games apart
    when each transaction runs alone and its overlap query sees what it will commit on. */
module UserOverlap {
  import opened Wrappers
  import opened Tables
  import opened Transactions
  import opened Invariants

  datatype Call = Call(req: Request, now: int, newId: GameId)

  /** A refused transaction changes nothing. */
  function RunSerially(db: Db, calls: seq<Call>): Db
    decreases |calls|
  {
    if calls == [] then db
    else
      match Alone(db, calls[0].req, calls[0].now, calls[0].newId)
      case Ok(next) => RunSerially(next, calls[1..])
      case Err(_) => RunSerially(db, calls[1..])
  }

  predicate BookedByBoth(db: Db, s: SlotId, t: SlotId, u: UserId) {
    && s in db.slots && t in db.slots && s != t
    && db.slots[s].status == Booked && db.slots[s].bookedBy == Some(u)
    && db.slots[t].status == Booked && db.slots[t].bookedBy == Some(u)
  }

  /** `u` plays in the two active games `g` and `h`, whose slots overlap. */
  predicate PlaysBoth(db: Db, g: GameId, h: GameId, u: UserId) {
    && g in db.games && h in db.games && g != h
    && IsActive(db.games[g].status) && IsActive(db.games[h].status)
    && u in Members(db, g) && u in Members(db, h)
    && db.games[g].slot in db.slots && db.games[h].slot in db.slots
    && Overlap(db.slots[db.games[g].slot], db.slots[db.games[h].slot])
  }

  ghost predicate BookingsApart(db: Db) {
    forall s, t, u :: BookedByBoth(db, s, t, u) ==> !Overlap(db.slots[s], db.slots[t])
  }

  ghost predicate JoinedApart(db: Db) {
    forall g, h, u :: PlaysBoth(db, g, h, u) ==> db.games[g].creator == u || db.games[h].creator == u
  }

  ghost predicate Fair(db: Db) {
    Good(db) && BookingsApart(db) && JoinedApart(db)
  }

  /** The documented rule: nobody plays in two games that overlap in time. */
  ghost predicate NobodyPlaysBoth(db: Db) {
    forall g, h, u :: !PlaysBoth(db, g, h, u)
  }

  // ── One transaction ───────────────────────────────────────────

  lemma BookKeepsBookingsApart(db: Db, c: CourtId, s: SlotId, u: UserId, now: int)
    requires Good(db) && BookingsApart(db) && Alone(db, Book(c, s, u), now, 0).Ok?
    ensures BookingsApart(Alone(db, Book(c, s, u), now, 0).value)
  {
    var next := Alone(db, Book(c, s, u), now, 0).value;
    forall a, b, v | BookedByBoth(next, a, b, v)
      ensures !Overlap(next.slots[a], next.slots[b])
    {
      if a != s && b != s { assert BookedByBoth(db, a, b, v); }
    }
  }

  /** Releasing a slot or leaving it alone cannot make two bookings overlap. */
  lemma FewerBookingsStayApart(db: Db, next: Db)
    requires BookingsApart(db) && next.slots.Keys == db.slots.Keys
    requires forall s :: s in db.slots ==> next.slots[s] == db.slots[s] || (next.slots[s].status == Available)
    ensures BookingsApart(next)
  {
    forall a, b, v | BookedByBoth(next, a, b, v)
      ensures !Overlap(next.slots[a], next.slots[b])
    {
      assert BookedByBoth(db, a, b, v);
    }
  }

  predicate Plays(db: Db, g: GameId, u: UserId) {
    g in db.games && IsActive(db.games[g].status) && u in Members(db, g)
  }

  predicate SameTimes(db: Db, next: Db) {
    && next.slots.Keys == db.slots.Keys
    && (forall s :: s in db.slots ==> next.slots[s].start == db.slots[s].start && next.slots[s].end == db.slots[s].end)
  }

  /** Whoever plays in an active game did so before, except perhaps `u` in `grown`. */
  ghost predicate OnlyGains(db: Db, next: Db, grown: Option<GameId>, u: UserId) {
    && SameTimes(db, next)
    && (forall g, v :: Plays(next, g, v) && (grown != Some(g) || v != u) ==>
          Plays(db, g, v) && next.games[g].slot == db.games[g].slot && next.games[g].creator == db.games[g].creator)
  }

  lemma OldPairs(db: Db, next: Db, grown: Option<GameId>, u: UserId, g: GameId, h: GameId, v: UserId)
    requires OnlyGains(db, next, grown, u) && PlaysBoth(next, g, h, v)
    requires v != u || (grown != Some(g) && grown != Some(h))
    ensures PlaysBoth(db, g, h, v)
    ensures next.games[g].creator == db.games[g].creator && next.games[h].creator == db.games[h].creator
  {
    assert Plays(next, g, v) && Plays(next, h, v);
  }

  lemma BookingGains(db: Db, req: Request, env: Env)
    requires (req.Book? || req.CancelBooking?) && Serial(db, req, env).Ok?
    ensures OnlyGains(db, Serial(db, req, env).value, None, req.user)
  {}

  lemma LeaveGains(db: Db, g: GameId, u: UserId)
    requires LeaveGame(db, g, u).Ok?
    ensures OnlyGains(db, LeaveGame(db, g, u).value, None, u)
  {}

  lemma CallOffGains(db: Db, g: GameId, u: UserId)
    requires CallOffGame(db, g, u).Ok?
    ensures OnlyGains(db, CallOffGame(db, g, u).value, None, u)
  {}

  lemma StatusGains(db: Db, g: GameId, u: UserId, target: GameStatus)
    requires UpdateStatus(db, g, u, target).Ok?
    ensures OnlyGains(db, UpdateStatus(db, g, u, target).value, None, u)
  {}

  lemma JoinGains(db: Db, g: GameId, u: UserId, env: Env)
    requires JoinGame(db, g, u, env).Ok?
    ensures OnlyGains(db, JoinGame(db, g, u, env).value, Some(g), u)
  {}

  lemma CreateGains(db: Db, s: SlotId, u: UserId, sport: Sport, n: int, env: Env)
    requires CreateGame(db, s, u, sport, n, env).Ok?
    ensures OnlyGains(db, CreateGame(db, s, u, sport, n, env).value, Some(env.newId), u)
  {}

  /** A join or a create puts its user into one game; nothing else puts anyone anywhere. */
  function Gained(req: Request, newId: GameId): Option<GameId> {
    match req
    case Create(_, _, _, _) => Some(newId)
    case Join(g, _) => Some(g)
    case _ => None
  }

  lemma SerialGains(db: Db, req: Request, env: Env)
    requires Serial(db, req, env).Ok?
    ensures OnlyGains(db, Serial(db, req, env).value, Gained(req, env.newId), req.user)
  {
    match req
    case Book(_, _, _) => BookingGains(db, req, env);
    case CancelBooking(_, _, _) => BookingGains(db, req, env);
    case Create(s, u, sport, n) => CreateGains(db, s, u, sport, n, env);
    case Join(g, u) => JoinGains(db, g, u, env);
    case Leave(g, u) => LeaveGains(db, g, u);
    case CancelGame(g, u) => CallOffGains(db, g, u);
    case SetStatus(g, u, target) => StatusGains(db, g, u, target);
  }

  /** A pair with the game a user has just joined is one the join query would have found. */
  lemma JoinedPairIsFound(db: Db, g: GameId, u: UserId, env: Env, h: GameId)
    requires JoinGame(db, g, u, env).Ok?
    requires PlaysBoth(JoinGame(db, g, u, env).value, g, h, u) || PlaysBoth(JoinGame(db, g, u, env).value, h, g, u)
    ensures OverlapQuery(db, Join(g, u))
  {
    JoinGains(db, g, u, env);
    assert Plays(JoinGame(db, g, u, env).value, h, u) && Plays(db, h, u);
  }

  lemma CreatedPairIsFound(db: Db, s: SlotId, u: UserId, sport: Sport, n: int, env: Env, h: GameId)
    requires CreateGame(db, s, u, sport, n, env).Ok?
    requires
      var next := CreateGame(db, s, u, sport, n, env).value;
      PlaysBoth(next, env.newId, h, u) || PlaysBoth(next, h, env.newId, u)
    ensures HasOverlappingGame(db, u, env.newId, db.slots[s].start, db.slots[s].end)
  {
    CreateGains(db, s, u, sport, n, env);
    assert Plays(CreateGame(db, s, u, sport, n, env).value, h, u) && Plays(db, h, u);
  }

  lemma SlotsAfter(db: Db, req: Request, env: Env)
    requires Serial(db, req, env).Ok? && !req.Book?
    ensures
      var next := Serial(db, req, env).value;
      next.slots.Keys == db.slots.Keys
      && forall s :: s in db.slots ==> next.slots[s] == db.slots[s] || next.slots[s].status == Available
  {}

  /** A pair with the created game is excused by its creator; any other new pair the join
      query would have found. */
  lemma AloneKeepsJoinedApart(db: Db, req: Request, env: Env)
    requires JoinedApart(db) && Serial(db, req, env).Ok? && (req.Join? ==> !OverlapQuery(db, req))
    ensures JoinedApart(Serial(db, req, env).value)
  {
    var next := Serial(db, req, env).value;
    SerialGains(db, req, env);
    forall g: GameId, h: GameId, v: UserId | PlaysBoth(next, g, h, v)
      ensures next.games[g].creator == v || next.games[h].creator == v
    {
      if v != req.user || (Gained(req, env.newId) != Some(g) && Gained(req, env.newId) != Some(h)) {
        OldPairs(db, next, Gained(req, env.newId), req.user, g, h, v);
      } else if req.Join? {
        JoinedPairIsFound(db, req.game, req.user, env, if g == req.game then h else g);
      }
    }
  }

  lemma AloneKeepsFair(db: Db, req: Request, now: int, newId: GameId)
    requires Fair(db) && Alone(db, req, now, newId).Ok?
    ensures Fair(Alone(db, req, now, newId).value)
  {
    var env := Env(now, OverlapQuery(db, req), newId);
    SerialKeepsGood(db, req, env);
    AloneKeepsJoinedApart(db, req, env);
    if req.Book? {
      BookKeepsBookingsApart(db, req.court, req.slot, req.user, now);
    } else {
      SlotsAfter(db, req, env);
      FewerBookingsStayApart(db, Serial(db, req, env).value);
    }
  }

  // ── What fairness means ───────────────────────────────────────

  lemma InitialIsFair(db: Db)
    requires Initial(db)
    ensures Fair(db)
  {
    InitialIsGood(db);
  }

  /** Two active games a user created lie on two slots they have booked. */
  lemma CreatedGamesAreApart(db: Db, g: GameId, h: GameId)
    requires Good(db) && BookingsApart(db)
    requires g in db.games && h in db.games && g != h && db.games[g].creator == db.games[h].creator
    requires IsActive(db.games[g].status) && IsActive(db.games[h].status)
    ensures !Overlap(db.slots[db.games[g].slot], db.slots[db.games[h].slot])
  {
    assert HeldByCreator(db, g) && HeldByCreator(db, h);
    assert BookedByBoth(db, db.games[g].slot, db.games[h].slot, db.games[g].creator);
  }

  /** A user in two overlapping active games created exactly one of them: two created games
      would be two overlapping bookings of theirs, two joined ones the join query excludes. */
  lemma FairMeansOneCreated(db: Db, g: GameId, h: GameId, u: UserId)
    requires Fair(db) && PlaysBoth(db, g, h, u)
    ensures (db.games[g].creator == u) != (db.games[h].creator == u)
  {
    if db.games[g].creator == db.games[h].creator {
      CreatedGamesAreApart(db, g, h);
    }
  }

  /** The active games of `u` that are on at `instant`. */
  function GamesAt(db: Db, u: UserId, instant: int): set<GameId> {
    set g | g in db.games && Plays(db, g, u) && db.games[g].slot in db.slots
            && db.slots[db.games[g].slot].start <= instant < db.slots[db.games[g].slot].end
  }

  lemma AtMostOne(games: set<GameId>)
    requires forall g, h :: g in games && h in games ==> g == h
    ensures |games| <= 1
  {
    if games != {} {
      var g :| g in games;
      assert games == {g};
    }
  }

  lemma OneOfEach(created: set<GameId>, joined: set<GameId>)
    requires |created| <= 1 && |joined| <= 1
    ensures |created + joined| <= 2
  {
    assert created + joined == created + (joined - created);
    assert |joined - created| <= |joined| by {
      assert joined - created <= joined;
      assert |joined| == |joined - created| + |joined * created| by {
        assert joined == (joined - created) + (joined * created);
      }
    }
  }

  function CreatedAt(db: Db, u: UserId, instant: int): set<GameId> {
    set g | g in GamesAt(db, u, instant) && g in db.games && db.games[g].creator == u
  }

  function JoinedAt(db: Db, u: UserId, instant: int): set<GameId> {
    set g | g in GamesAt(db, u, instant) && g in db.games && db.games[g].creator != u
  }

  /** At any instant a user is in at most two active games, one created and one joined. */
  lemma FairMeansAtMostTwo(db: Db, u: UserId, instant: int)
    requires Fair(db)
    ensures |CreatedAt(db, u, instant)| <= 1 && |JoinedAt(db, u, instant)| <= 1 && |GamesAt(db, u, instant)| <= 2
  {
    var created, joined := CreatedAt(db, u, instant), JoinedAt(db, u, instant);
    forall g, h | g in GamesAt(db, u, instant) && h in GamesAt(db, u, instant) && g != h
      ensures (db.games[g].creator == u) != (db.games[h].creator == u)
    {
      assert PlaysBoth(db, g, h, u);
      FairMeansOneCreated(db, g, h, u);
    }
    AtMostOne(created);
    AtMostOne(joined);
    OneOfEach(created, joined);
    assert GamesAt(db, u, instant) == created + joined;
  }

  // ── The documented rule, and exactly when it survives ─────────

  /** Six of the seven transactions keep the rule, a join if its query would find nothing. */
  lemma SerialKeepsTheRule(db: Db, req: Request, env: Env)
    requires NobodyPlaysBoth(db) && !req.Create? && Serial(db, req, env).Ok?
    requires req.Join? ==> !OverlapQuery(db, req)
    ensures NobodyPlaysBoth(Serial(db, req, env).value)
  {
    var next := Serial(db, req, env).value;
    SerialGains(db, req, env);
    forall g: GameId, h: GameId, v: UserId
      ensures !PlaysBoth(next, g, h, v)
    {
      if PlaysBoth(next, g, h, v) {
        if v != req.user || (Gained(req, env.newId) != Some(g) && Gained(req, env.newId) != Some(h)) {
          OldPairs(db, next, Gained(req, env.newId), req.user, g, h, v);
        } else {
          JoinedPairIsFound(db, req.game, req.user, env, if g == req.game then h else g);
        }
      }
    }
  }

  lemma OthersKeepTheRule(db: Db, req: Request, now: int, newId: GameId)
    requires NobodyPlaysBoth(db) && !req.Create? && Alone(db, req, now, newId).Ok?
    ensures NobodyPlaysBoth(Alone(db, req, now, newId).value)
  {
    SerialKeepsTheRule(db, req, Env(now, OverlapQuery(db, req), newId));
  }

  lemma CreateFindingOneBreaks(db: Db, s: SlotId, u: UserId, sport: Sport, n: int, env: Env)
    requires Good(db) && CreateGame(db, s, u, sport, n, env).Ok?
    requires HasOverlappingGame(db, u, env.newId, db.slots[s].start, db.slots[s].end)
    ensures !NobodyPlaysBoth(CreateGame(db, s, u, sport, n, env).value)
  {
    var h :| h in db.games && u in Members(db, h) && h != env.newId && IsActive(db.games[h].status)
             && db.slots[db.games[h].slot].start < db.slots[s].end
             && db.slots[db.games[h].slot].end > db.slots[s].start;
    assert PlaysBoth(CreateGame(db, s, u, sport, n, env).value, env.newId, h, u);
  }

  /** `create_game` makes no overlap query. It keeps the rule exactly when the query that
      `join_game` makes would have found nothing for its creator and slot. */
  lemma CreateKeepsTheRuleIff(db: Db, s: SlotId, u: UserId, sport: Sport, n: int, env: Env)
    requires Good(db) && NobodyPlaysBoth(db) && CreateGame(db, s, u, sport, n, env).Ok?
    ensures NobodyPlaysBoth(CreateGame(db, s, u, sport, n, env).value)
            <==> !HasOverlappingGame(db, u, env.newId, db.slots[s].start, db.slots[s].end)
  {
    var next := CreateGame(db, s, u, sport, n, env).value;
    if HasOverlappingGame(db, u, env.newId, db.slots[s].start, db.slots[s].end) {
      CreateFindingOneBreaks(db, s, u, sport, n, env);
    } else {
      CreateGains(db, s, u, sport, n, env);
      forall g: GameId, h: GameId, v: UserId
        ensures !PlaysBoth(next, g, h, v)
      {
        if PlaysBoth(next, g, h, v) {
          if v != u || (g != env.newId && h != env.newId) {
            OldPairs(db, next, Some(env.newId), u, g, h, v);
          } else {
            CreatedPairIsFound(db, s, u, sport, n, env, if g == env.newId then h else g);
          }
        }
      }
    }
  }
}
