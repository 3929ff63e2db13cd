/** What every committed transaction keeps, and hence what holds after any serial log. */
module Invariants {
  import opened Wrappers
  import opened Tables
  import opened Transactions

  /** A slot is Booked by someone or Available and nobody's; `Locked` is never reached. */
  predicate SlotStatusAgrees(slot: Slot) {
    || (slot.status == Available && slot.bookedBy == None)
    || (slot.status == Booked && slot.bookedBy.Some?)
  }

  predicate CapacityAgrees(game: Game, users: set<UserId>) {
    match game.status
    case Open => game.creator in users && |users| < game.maxPlayers
    case Full => game.creator in users && |users| == game.maxPlayers
    case InProgress => game.creator in users && |users| <= game.maxPlayers
    case Completed => game.creator in users && |users| <= game.maxPlayers
    case Cancelled => users == {}
  }

  predicate HeldByCreator(db: Db, g: GameId)
    requires g in db.games && db.games[g].slot in db.slots
  {
    var slot := db.slots[db.games[g].slot];
    slot.status == Booked && slot.bookedBy == Some(db.games[g].creator)
  }

  predicate SportAgrees(db: Db, g: GameId)
    requires g in db.games && db.games[g].slot in db.slots && db.slots[db.games[g].slot].court in db.courts
  {
    db.games[g].sport == db.courts[db.slots[db.games[g].slot].court].sport
  }

  predicate Good(db: Db) {
    && Constraints(db)
    && (forall g :: g in db.games ==> SportAgrees(db, g))
    && (forall s :: s in db.slots ==> SlotStatusAgrees(db.slots[s]))
    && (forall g :: g in db.games ==> CapacityAgrees(db.games[g], db.players[g]))
    && (forall g :: g in db.games && IsActive(db.games[g].status) ==> HeldByCreator(db, g))
  }

  lemma InitialIsGood(db: Db)
    requires Initial(db)
    ensures Good(db)
  {}

  /** `later` differs from `db` in mutable columns only: statuses, bookers and player sets. */
  predicate SameRows(db: Db, later: Db) {
    && later.courts == db.courts
    && later.slots.Keys == db.slots.Keys
    && later.games.Keys == db.games.Keys == later.players.Keys
    && (forall s :: s in db.slots ==> later.slots[s].court == db.slots[s].court
                                      && later.slots[s].start == db.slots[s].start
                                      && later.slots[s].end == db.slots[s].end)
    && (forall g :: g in db.games ==> later.games[g].slot == db.games[g].slot
                                      && later.games[g].sport == db.games[g].sport
                                      && later.games[g].maxPlayers == db.games[g].maxPlayers)
  }

  lemma SameRowsKeepConstraints(db: Db, later: Db)
    requires Constraints(db) && SameRows(db, later)
    ensures Constraints(later)
  {
    forall s, t | s in later.slots && t in later.slots && s != t && later.slots[s].court == later.slots[t].court
      ensures !Overlap(later.slots[s], later.slots[t])
    {
      assert !Overlap(db.slots[s], db.slots[t]);
    }
  }

  lemma BookKeepsGood(db: Db, c: CourtId, s: SlotId, u: UserId, env: Env)
    requires Good(db) && BookSlot(db, c, s, u, env).Ok?
    ensures Good(BookSlot(db, c, s, u, env).value)
  {
    SameRowsKeepConstraints(db, BookSlot(db, c, s, u, env).value);
  }

  lemma ReleaseKeepsGood(db: Db, c: CourtId, s: SlotId, u: UserId, env: Env)
    requires Good(db) && ReleaseSlot(db, c, s, u, env).Ok?
    ensures Good(ReleaseSlot(db, c, s, u, env).value)
  {
    SameRowsKeepConstraints(db, ReleaseSlot(db, c, s, u, env).value);
  }

  lemma CreateKeepsGamesWellFormed(db: Db, s: SlotId, u: UserId, sport: Sport, n: int, env: Env)
    requires GamesWellFormed(db) && CreateGame(db, s, u, sport, n, env).Ok?
    ensures GamesWellFormed(CreateGame(db, s, u, sport, n, env).value)
  {
    var later := CreateGame(db, s, u, sport, n, env).value;
    assert forall g :: g in later.games && g != env.newId ==> g in db.games && later.games[g] == db.games[g];
    assert forall g :: g in db.games ==> db.games[g].slot != s;
  }

  lemma CreateKeepsGood(db: Db, s: SlotId, u: UserId, sport: Sport, n: int, env: Env)
    requires Good(db) && CreateGame(db, s, u, sport, n, env).Ok?
    ensures Good(CreateGame(db, s, u, sport, n, env).value)
  {
    var later := CreateGame(db, s, u, sport, n, env).value;
    CreateKeepsGamesWellFormed(db, s, u, sport, n, env);
    forall g | g in later.games
      ensures CapacityAgrees(later.games[g], later.players[g]) && SportAgrees(later, g)
      ensures IsActive(later.games[g].status) ==> HeldByCreator(later, g)
    {
      if g != env.newId {
        assert SportAgrees(db, g);
        assert CapacityAgrees(db.games[g], db.players[g]);
        assert IsActive(db.games[g].status) ==> HeldByCreator(db, g);
      }
    }
  }

  /** Of the games only `g` differs, and of the slots at most the one under `g`. */
  predicate OnlyGame(db: Db, later: Db, g: GameId) {
    && SameRows(db, later)
    && g in db.games && db.players.Keys == db.games.Keys
    && (forall h :: h in db.games && h != g ==> later.games[h] == db.games[h] && later.players[h] == db.players[h])
    && (forall s :: s in db.slots && s != db.games[g].slot ==> later.slots[s] == db.slots[s])
    && later.games[g].creator == db.games[g].creator
  }

  /** When only `g` changes, only `g` has to be looked at: by the unique index on
      `games(court_slot_id)` no other game leans on its slot. */
  lemma OnlyGameKeepsGood(db: Db, later: Db, g: GameId)
    requires Good(db) && Constraints(later) && OnlyGame(db, later, g)
    requires CapacityAgrees(later.games[g], later.players[g])
    requires IsActive(later.games[g].status) ==> HeldByCreator(later, g)
    requires SlotStatusAgrees(later.slots[db.games[g].slot])
    ensures Good(later)
  {
    forall h | h in later.games && h != g && IsActive(later.games[h].status)
      ensures HeldByCreator(later, h)
    {
      assert HeldByCreator(db, h) && db.games[h].slot != db.games[g].slot;
    }
    forall h | h in later.games
      ensures SportAgrees(later, h)
    {
      assert SportAgrees(db, h);
    }
  }

  lemma PlayersTouchOnlyGame(db: Db, g: GameId, users: set<UserId>)
    requires g in db.games && db.players.Keys == db.games.Keys
    ensures OnlyGame(db, WithPlayers(db, g, users), g)
  {}

  lemma StatusTouchesOnlyGame(db: Db, g: GameId, status: GameStatus)
    requires g in db.games && db.players.Keys == db.games.Keys
    ensures OnlyGame(db, WithStatus(db, g, status), g)
  {}

  lemma SlotTouchesOnlyGame(db: Db, g: GameId)
    requires g in db.games && db.players.Keys == db.games.Keys && db.games[g].slot in db.slots
    ensures OnlyGame(db, WithSlot(db, db.games[g].slot, Available, None), g)
  {}

  lemma OnlyGameTwice(a: Db, b: Db, c: Db, g: GameId)
    requires OnlyGame(a, b, g) && OnlyGame(b, c, g)
    ensures OnlyGame(a, c, g)
  {}

  lemma JoinTouchesItsGame(db: Db, g: GameId, u: UserId, env: Env)
    requires GamesWellFormed(db) && JoinGame(db, g, u, env).Ok?
    ensures OnlyGame(db, JoinGame(db, g, u, env).value, g)
  {
    var joined := WithPlayers(db, g, Members(db, g) + {u});
    PlayersTouchOnlyGame(db, g, Members(db, g) + {u});
    StatusTouchesOnlyGame(joined, g, Full);
    OnlyGameTwice(db, joined, WithStatus(joined, g, Full), g);
  }

  lemma JoinKeepsCapacity(db: Db, g: GameId, u: UserId, env: Env)
    requires GamesWellFormed(db) && JoinGame(db, g, u, env).Ok? && CapacityAgrees(db.games[g], db.players[g])
    ensures
      var next := JoinGame(db, g, u, env).value;
      g in next.games && g in next.players && CapacityAgrees(next.games[g], next.players[g])
    ensures IsActive(db.games[g].status) && JoinGame(db, g, u, env).value.slots == db.slots
  {}

  lemma JoinKeepsGood(db: Db, g: GameId, u: UserId, env: Env)
    requires Good(db) && JoinGame(db, g, u, env).Ok?
    ensures Good(JoinGame(db, g, u, env).value)
  {
    JoinTouchesItsGame(db, g, u, env);
    JoinKeepsCapacity(db, g, u, env);
    SameRowsKeepConstraints(db, JoinGame(db, g, u, env).value);
    OnlyGameKeepsGood(db, JoinGame(db, g, u, env).value, g);
  }

  lemma LeaveTouchesItsGame(db: Db, g: GameId, u: UserId)
    requires GamesWellFormed(db) && LeaveGame(db, g, u).Ok?
    ensures OnlyGame(db, LeaveGame(db, g, u).value, g)
  {
    var left := WithPlayers(db, g, Members(db, g) - {u});
    PlayersTouchOnlyGame(db, g, Members(db, g) - {u});
    StatusTouchesOnlyGame(left, g, Open);
    OnlyGameTwice(db, left, WithStatus(left, g, Open), g);
  }

  lemma LeaveKeepsCapacity(db: Db, g: GameId, u: UserId)
    requires GamesWellFormed(db) && LeaveGame(db, g, u).Ok? && CapacityAgrees(db.games[g], db.players[g])
    ensures
      var next := LeaveGame(db, g, u).value;
      g in next.games && g in next.players && CapacityAgrees(next.games[g], next.players[g])
    ensures IsActive(db.games[g].status) && LeaveGame(db, g, u).value.slots == db.slots
  {}

  lemma LeaveKeepsGood(db: Db, g: GameId, u: UserId)
    requires Good(db) && LeaveGame(db, g, u).Ok?
    ensures Good(LeaveGame(db, g, u).value)
  {
    LeaveTouchesItsGame(db, g, u);
    LeaveKeepsCapacity(db, g, u);
    SameRowsKeepConstraints(db, LeaveGame(db, g, u).value);
    OnlyGameKeepsGood(db, LeaveGame(db, g, u).value, g);
  }

  lemma CallOffTouchesItsGame(db: Db, g: GameId, u: UserId)
    requires GamesWellFormed(db) && CallOffGame(db, g, u).Ok?
    ensures OnlyGame(db, CallOffGame(db, g, u).value, g)
  {
    var cleared := WithPlayers(db, g, {});
    var freed := WithSlot(cleared, db.games[g].slot, Available, None);
    PlayersTouchOnlyGame(db, g, {});
    SlotTouchesOnlyGame(cleared, g);
    StatusTouchesOnlyGame(freed, g, Cancelled);
    OnlyGameTwice(db, cleared, freed, g);
    OnlyGameTwice(db, freed, WithStatus(freed, g, Cancelled), g);
  }

  lemma CallOffKeepsCapacity(db: Db, g: GameId, u: UserId)
    requires GamesWellFormed(db) && CallOffGame(db, g, u).Ok? && CapacityAgrees(db.games[g], db.players[g])
    ensures
      var next := CallOffGame(db, g, u).value;
      g in next.games && g in next.players && CapacityAgrees(next.games[g], next.players[g])
    ensures SlotStatusAgrees(CallOffGame(db, g, u).value.slots[db.games[g].slot]) && CallOffGame(db, g, u).value.games[g].status == Cancelled
  {}

  lemma CallOffKeepsGood(db: Db, g: GameId, u: UserId)
    requires Good(db) && CallOffGame(db, g, u).Ok?
    ensures Good(CallOffGame(db, g, u).value)
  {
    CallOffTouchesItsGame(db, g, u);
    CallOffKeepsCapacity(db, g, u);
    SameRowsKeepConstraints(db, CallOffGame(db, g, u).value);
    OnlyGameKeepsGood(db, CallOffGame(db, g, u).value, g);
  }

  lemma StatusTouchesItsGame(db: Db, g: GameId, u: UserId, target: GameStatus)
    requires GamesWellFormed(db) && UpdateStatus(db, g, u, target).Ok?
    ensures OnlyGame(db, UpdateStatus(db, g, u, target).value, g)
  {
    StatusTouchesOnlyGame(db, g, target);
  }

  lemma StatusKeepsCapacity(db: Db, g: GameId, u: UserId, target: GameStatus)
    requires GamesWellFormed(db) && UpdateStatus(db, g, u, target).Ok? && CapacityAgrees(db.games[g], db.players[g])
    ensures
      var next := UpdateStatus(db, g, u, target).value;
      g in next.games && g in next.players && CapacityAgrees(next.games[g], next.players[g])
    ensures IsActive(db.games[g].status) && UpdateStatus(db, g, u, target).value.slots == db.slots
  {}

  lemma StatusKeepsGood(db: Db, g: GameId, u: UserId, target: GameStatus)
    requires Good(db) && UpdateStatus(db, g, u, target).Ok?
    ensures Good(UpdateStatus(db, g, u, target).value)
  {
    StatusTouchesItsGame(db, g, u, target);
    StatusKeepsCapacity(db, g, u, target);
    SameRowsKeepConstraints(db, UpdateStatus(db, g, u, target).value);
    OnlyGameKeepsGood(db, UpdateStatus(db, g, u, target).value, g);
  }

  lemma SerialKeepsGood(db: Db, req: Request, env: Env)
    requires Good(db) && Serial(db, req, env).Ok?
    ensures Good(Serial(db, req, env).value)
  {
    match req
    case Book(c, s, u) => BookKeepsGood(db, c, s, u, env);
    case CancelBooking(c, s, u) => ReleaseKeepsGood(db, c, s, u, env);
    case Create(s, u, sport, n) => CreateKeepsGood(db, s, u, sport, n, env);
    case Join(g, u) => JoinKeepsGood(db, g, u, env);
    case Leave(g, u) => LeaveKeepsGood(db, g, u);
    case CancelGame(g, u) => CallOffKeepsGood(db, g, u);
    case SetStatus(g, u, target) => StatusKeepsGood(db, g, u, target);
  }

  lemma {:induction false} ReplayKeepsGood(db: Db, log: seq<Entry>)
    requires Good(db) && Replay(db, log).Some?
    ensures Good(Replay(db, log).value)
    decreases |log|
  {
    if log != [] {
      SerialKeepsGood(db, log[0].req, log[0].env);
      ReplayKeepsGood(Serial(db, log[0].req, log[0].env).value, log[1..]);
    }
  }
}
