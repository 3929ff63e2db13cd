/** What holds of the committed tables in every reachable state of the interleaved model. */
module Guarantees {
  import opened Wrappers
  import opened Tables
  import opened Transactions
  import opened Invariants
  import opened LockStep
  import opened Serialisable

  lemma ReachableIsSound(first: Db, actions: seq<Action>)
    requires Initial(first)
    ensures Sound(first, Exec(Start(first), actions))
  {
    StartIsSound(first);
    ExecKeepsSound(first, Start(first), actions);
  }

  /** An open, full or running game's slot is booked, by the game's creator. */
  lemma ActiveGameHoldsItsSlot(first: Db, actions: seq<Action>, g: GameId)
    requires Initial(first)
    requires var db := Exec(Start(first), actions).db; g in db.games && IsActive(db.games[g].status)
    ensures
      var db := Exec(Start(first), actions).db;
      db.games[g].slot in db.slots
      && db.slots[db.games[g].slot].status == Booked
      && db.slots[db.games[g].slot].bookedBy == Some(db.games[g].creator)
  {
    ReachableIsSound(first, actions);
    assert HeldByCreator(Exec(Start(first), actions).db, g);
  }

  /** `cancel_game` never re-checks `booked_by`. From the moment it has locked the game until
      it commits, the slot it is going to free is nevertheless booked by its caller. */
  lemma CancelGameFreesItsCallersSlot(first: Db, actions: seq<Action>, t: TxId)
    requires Initial(first)
    requires
      var s := Exec(Start(first), actions);
      t in s.txs && s.txs[t].req.CancelGame? && s.txs[t].pc != Begun
    ensures
      var s := Exec(Start(first), actions);
      var tx := s.txs[t];
      && tx.seen.slot in s.db.slots
      && s.db.slots[tx.seen.slot].status == Booked
      && s.db.slots[tx.seen.slot].bookedBy == Some(tx.req.user)
  {
    ReachableIsSound(first, actions);
    var s := Exec(Start(first), actions);
    assert Established(s.db, s.txs[t]);
    assert HeldByCreator(s.db, s.txs[t].req.game);
  }

  lemma MemberMakesNonEmpty(users: set<UserId>, u: UserId)
    requires u in users
    ensures |users| >= 1
  {
    assert {u} <= users && |users - {u}| + 1 == |users|;
  }

  /** Capacity and status agree, and the creator plays in every game that is not cancelled. */
  lemma CapacityMatchesStatus(first: Db, actions: seq<Action>, g: GameId)
    requires Initial(first)
    requires g in Exec(Start(first), actions).db.games
    ensures
      var db := Exec(Start(first), actions).db;
      var game, users := db.games[g], Members(db, g);
      && 2 <= game.maxPlayers <= 30
      && (game.status == Open ==> 1 <= |users| < game.maxPlayers)
      && (game.status == Full ==> |users| == game.maxPlayers)
      && (game.status == InProgress || game.status == Completed ==> 1 <= |users| <= game.maxPlayers)
      && (game.status == Cancelled <==> users == {})
      && (game.status != Cancelled ==> game.creator in users)
  {
    ReachableIsSound(first, actions);
    var db := Exec(Start(first), actions).db;
    assert CapacityAgrees(db.games[g], db.players[g]);
    if db.games[g].status != Cancelled {
      MemberMakesNonEmpty(db.players[g], db.games[g].creator);
    }
  }

  /** Two active games on one court are never on at the same time. */
  lemma ActiveGamesOnACourtAreDisjoint(first: Db, actions: seq<Action>, g: GameId, h: GameId)
    requires Initial(first)
    requires
      var db := Exec(Start(first), actions).db;
      && g in db.games && h in db.games && g != h
      && IsActive(db.games[g].status) && IsActive(db.games[h].status)
    ensures
      var db := Exec(Start(first), actions).db;
      && db.games[g].slot in db.slots && db.games[h].slot in db.slots
      && (db.slots[db.games[g].slot].court == db.slots[db.games[h].slot].court
          ==> !Overlap(db.slots[db.games[g].slot], db.slots[db.games[h].slot]))
  {
    ReachableIsSound(first, actions);
  }

  // ── Progress is one-way ───────────────────────────────────────

  predicate MayBecome(from: GameStatus, to: GameStatus) {
    match from
    case Open => true
    case Full => true
    case InProgress => to == InProgress || Terminal(to)
    case Completed => to == Completed
    case Cancelled => to == Cancelled
  }

  /** Games stay, keep everything but their status, move forward only, and once over are frozen
      together with their player sets; slots keep their court and times. */
  predicate Later(db: Db, later: Db) {
    && later.slots.Keys == db.slots.Keys
    && (forall s :: s in db.slots ==> later.slots[s].(status := db.slots[s].status, bookedBy := db.slots[s].bookedBy) == db.slots[s])
    && (forall g :: g in db.games ==>
          && g in later.games
          && later.games[g].(status := db.games[g].status) == db.games[g]
          && MayBecome(db.games[g].status, later.games[g].status)
          && (Terminal(db.games[g].status) ==> Members(later, g) == Members(db, g)))
  }

  lemma JoinMovesForward(db: Db, g: GameId, u: UserId, env: Env)
    requires JoinGame(db, g, u, env).Ok?
    ensures Later(db, JoinGame(db, g, u, env).value)
  {}

  lemma LeaveMovesForward(db: Db, g: GameId, u: UserId)
    requires LeaveGame(db, g, u).Ok?
    ensures Later(db, LeaveGame(db, g, u).value)
  {}

  lemma CallOffMovesForward(db: Db, g: GameId, u: UserId)
    requires CallOffGame(db, g, u).Ok?
    ensures Later(db, CallOffGame(db, g, u).value)
  {}

  lemma SerialMovesForward(db: Db, req: Request, env: Env)
    requires Serial(db, req, env).Ok?
    ensures Later(db, Serial(db, req, env).value)
  {
    match req
    case Book(_, _, _) =>
    case CancelBooking(_, _, _) =>
    case Create(_, _, _, _) =>
    case Join(g, u) => JoinMovesForward(db, g, u, env);
    case Leave(g, u) => LeaveMovesForward(db, g, u);
    case CancelGame(g, u) => CallOffMovesForward(db, g, u);
    case SetStatus(_, _, _) =>
  }

  lemma LaterIsTransitive(a: Db, b: Db, c: Db)
    requires Later(a, b) && Later(b, c)
    ensures Later(a, c)
  {
    forall g | g in a.games
      ensures g in c.games && MayBecome(a.games[g].status, c.games[g].status)
    {
      assert g in b.games && MayBecome(b.games[g].status, c.games[g].status);
    }
  }

  lemma {:induction false} ReplayMovesForward(db: Db, log: seq<Entry>)
    requires Replay(db, log).Some?
    ensures Later(db, Replay(db, log).value)
    decreases |log|
  {
    if log != [] {
      var next := Serial(db, log[0].req, log[0].env).value;
      SerialMovesForward(db, log[0].req, log[0].env);
      ReplayMovesForward(next, log[1..]);
      LaterIsTransitive(db, next, Replay(next, log[1..]).value);
    }
  }

  lemma {:induction false} LogGrows(s: State, actions: seq<Action>)
    ensures s.log <= Exec(s, actions).log
    decreases |actions|
  {
    if actions != [] {
      LogGrows(Step(s, actions[0]), actions[1..]);
    }
  }

  /** Whatever runs after a reachable state, no game goes back: not from running to open or
      full, and nothing changes any more in a completed or cancelled one. */
  lemma ProgressIsOneWay(first: Db, actions: seq<Action>, more: seq<Action>)
    requires Initial(first)
    ensures Later(Exec(Start(first), actions).db, Exec(Start(first), actions + more).db)
  {
    var now := Exec(Start(first), actions);
    var after := Exec(now, more);
    ExecConcat(Start(first), actions, more);
    ReachableIsSound(first, actions);
    ReachableIsSound(first, actions + more);
    LogGrows(now, more);
    var rest := after.log[|now.log|..];
    assert after.log == now.log + rest;
    ReplayConcat(first, now.log, rest);
    ReplayMovesForward(now.db, rest);
  }
}
