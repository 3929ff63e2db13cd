/** The rows of `courts`, `court_slots`, `games` and `game_players`, the database
    constraints on them, and the predicates the services ask of them in SQL. */
module Tables {
  import opened Wrappers

  type UserId = nat
  type CourtId = nat
  type SlotId = nat
  type GameId = nat

  datatype Sport = Pickleball | MiniFootball

  datatype SlotStatus = Available | Booked | Locked

  datatype GameStatus = Open | Full | InProgress | Completed | Cancelled

  /** `price` is `price_per_slot` in VND, a 32-bit INTEGER column. */
  datatype Court = Court(sport: Sport, price: int)

  datatype Slot = Slot(court: CourtId, start: int, end: int, status: SlotStatus, bookedBy: Option<UserId>)

  datatype Game = Game(slot: SlotId, creator: UserId, sport: Sport, maxPlayers: int, status: GameStatus)

  /** The committed database. `players` is `game_players` grouped by `game_id`, so its
      primary key (game_id, user_id) is the fact that each group is a set. */
  datatype Db = Db(
    courts: map<CourtId, Court>,
    slots: map<SlotId, Slot>,
    games: map<GameId, Game>,
    players: map<GameId, set<UserId>>)

  predicate IsActive(status: GameStatus) {
    status == Open || status == Full || status == InProgress
  }

  predicate Overlap(a: Slot, b: Slot) {
    a.start < b.end && b.start < a.end
  }

  // ── Constraints the migrations put on the tables ──────────────

  predicate SlotsWellFormed(db: Db) {
    && (forall s :: s in db.slots ==> db.slots[s].start < db.slots[s].end && db.slots[s].court in db.courts)
    && (forall s, t :: s in db.slots && t in db.slots && s != t && db.slots[s].court == db.slots[t].court
                       ==> !Overlap(db.slots[s], db.slots[t]))
  }

  predicate GamesWellFormed(db: Db) {
    && db.players.Keys == db.games.Keys
    && (forall g :: g in db.games ==> db.games[g].slot in db.slots && 2 <= db.games[g].maxPlayers <= 30)
    && (forall g, h :: g in db.games && h in db.games && g != h ==> db.games[g].slot != db.games[h].slot)
  }

  predicate Constraints(db: Db) {
    && (forall c :: c in db.courts ==> 0 < db.courts[c].price < 0x8000_0000)
    && SlotsWellFormed(db)
    && GamesWellFormed(db)
  }

  /** The state the services start from: seeded courts and slots, nothing booked, no games. */
  predicate Initial(db: Db) {
    && Constraints(db)
    && db.games == map[]
    && (forall s :: s in db.slots ==> db.slots[s].status == Available && db.slots[s].bookedBy == None)
  }

  // ── SQL predicates ────────────────────────────────────────────

  function Members(db: Db, g: GameId): set<UserId> {
    if g in db.players then db.players[g] else {}
  }

  /** The unique index on `games(court_slot_id)`: a row for the slot, whatever its status. */
  predicate SlotHasGame(db: Db, s: SlotId) {
    exists g :: g in db.games && db.games[g].slot == s
  }

  predicate GameExistsForSlot(db: Db, s: SlotId) {
    exists g :: g in db.games && db.games[g].slot == s && db.games[g].status != Cancelled
  }

  predicate HasActiveGameForSlot(db: Db, s: SlotId) {
    exists g :: g in db.games && db.games[g].slot == s && IsActive(db.games[g].status)
  }

  predicate HasOverlappingBooking(db: Db, u: UserId, exclude: SlotId, start: int, end: int) {
    exists s :: s in db.slots && db.slots[s].bookedBy == Some(u) && s != exclude
                && db.slots[s].status == Booked && db.slots[s].start < end && db.slots[s].end > start
  }

  predicate HasOverlappingGame(db: Db, u: UserId, exclude: GameId, start: int, end: int) {
    exists g :: g in db.games && u in Members(db, g) && g != exclude && IsActive(db.games[g].status)
                && db.games[g].slot in db.slots
                && db.slots[db.games[g].slot].start < end && db.slots[db.games[g].slot].end > start
  }
}
