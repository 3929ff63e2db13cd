/** What each of the seven transactions does when nothing else runs beside it: the checks
    in the order the services make them, then the new tables. */
module Transactions {
  import opened Wrappers
  import opened Tables

  datatype Request =
    | Book(court: CourtId, slot: SlotId, user: UserId)
    | CancelBooking(court: CourtId, slot: SlotId, user: UserId)
    | Create(slot: SlotId, user: UserId, sport: Sport, maxPlayers: int)
    | Join(game: GameId, user: UserId)
    | Leave(game: GameId, user: UserId)
    | CancelGame(game: GameId, user: UserId)
    | SetStatus(game: GameId, user: UserId, target: GameStatus)

  datatype Error =
    | RowNotFound | UniqueViolation | CheckViolation
    | SlotTaken | PastSlot | OverlappingBooking | NotBooked | NotBooker | ActiveGame
    | SportMismatch | GameExists
    | NotOpen | AlreadyJoined | GameFull | OverlappingGame
    | CreatorCannotLeave | GameClosed
    | NotCreator | AlreadyCancelled | AlreadyCompleted | BadTransition

  /** What a transaction takes from outside the rows it locks: the clock, the answer of the
      overlap query (which reads rows of other slots and games) and the generated game id. */
  datatype Env = Env(now: int, overlap: bool, newId: GameId)

  type Outcome = Result<Db, Error>

  /** `as i16`: the cast `create_game` applies to the requested `max_players`. */
  function AsI16(x: int): int {
    (x + 0x8000) % 0x1_0000 - 0x8000
  }

  predicate ValidTransition(from: GameStatus, to: GameStatus) {
    || ((from == Open || from == Full) && to == InProgress)
    || (from == InProgress && to == Completed)
  }

  function WithSlot(db: Db, s: SlotId, status: SlotStatus, booker: Option<UserId>): Db
    requires s in db.slots
  {
    db.(slots := db.slots[s := db.slots[s].(status := status, bookedBy := booker)])
  }

  function WithStatus(db: Db, g: GameId, status: GameStatus): Db
    requires g in db.games
  {
    db.(games := db.games[g := db.games[g].(status := status)])
  }

  function WithPlayers(db: Db, g: GameId, users: set<UserId>): Db {
    db.(players := db.players[g := users])
  }

  function BookSlot(db: Db, c: CourtId, s: SlotId, u: UserId, env: Env): Outcome {
    if s !in db.slots || db.slots[s].court != c then Err(RowNotFound)
    else if db.slots[s].status != Available then Err(SlotTaken)
    else if db.slots[s].start <= env.now then Err(PastSlot)
    else if env.overlap then Err(OverlappingBooking)
    else Ok(WithSlot(db, s, Booked, Some(u)))
  }

  function ReleaseSlot(db: Db, c: CourtId, s: SlotId, u: UserId, env: Env): Outcome {
    if s !in db.slots || db.slots[s].court != c then Err(RowNotFound)
    else if db.slots[s].status != Booked then Err(NotBooked)
    else if db.slots[s].bookedBy != Some(u) then Err(NotBooker)
    else if db.slots[s].start <= env.now then Err(PastSlot)
    else if HasActiveGameForSlot(db, s) then Err(ActiveGame)
    else Ok(WithSlot(db, s, Available, None))
  }

  function CreateGame(db: Db, s: SlotId, u: UserId, sport: Sport, maxPlayers: int, env: Env): Outcome {
    if s !in db.slots then Err(RowNotFound)
    else if db.slots[s].status != Booked then Err(NotBooked)
    else if db.slots[s].bookedBy != Some(u) then Err(NotBooker)
    else if db.slots[s].court !in db.courts then Err(RowNotFound)
    else if db.courts[db.slots[s].court].sport != sport then Err(SportMismatch)
    else if GameExistsForSlot(db, s) then Err(GameExists)
    else if !(2 <= AsI16(maxPlayers) <= 30) then Err(CheckViolation)
    else if SlotHasGame(db, s) || env.newId in db.games then Err(UniqueViolation)
    else
      var row := Game(s, u, sport, AsI16(maxPlayers), Open);
      Ok(WithPlayers(db.(games := db.games[env.newId := row]), env.newId, {u}))
  }

  function JoinGame(db: Db, g: GameId, u: UserId, env: Env): Outcome {
    if g !in db.games || db.games[g].slot !in db.slots then Err(RowNotFound)
    else if db.games[g].status != Open then Err(NotOpen)
    else if u in Members(db, g) then Err(AlreadyJoined)
    else if |Members(db, g)| >= db.games[g].maxPlayers then Err(GameFull)
    else if env.overlap then Err(OverlappingGame)
    else
      var joined := WithPlayers(db, g, Members(db, g) + {u});
      Ok(if |Members(db, g)| + 1 >= db.games[g].maxPlayers then WithStatus(joined, g, Full) else joined)
  }

  function LeaveGame(db: Db, g: GameId, u: UserId): Outcome {
    if g !in db.games then Err(RowNotFound)
    else if db.games[g].creator == u then Err(CreatorCannotLeave)
    else if db.games[g].status == Cancelled || db.games[g].status == Completed then Err(GameClosed)
    else if u !in Members(db, g) then Err(RowNotFound)
    else
      var left := WithPlayers(db, g, Members(db, g) - {u});
      Ok(if db.games[g].status == Full then WithStatus(left, g, Open) else left)
  }

  function CallOffGame(db: Db, g: GameId, u: UserId): Outcome {
    if g !in db.games then Err(RowNotFound)
    else if db.games[g].creator != u then Err(NotCreator)
    else if db.games[g].status == Cancelled then Err(AlreadyCancelled)
    else if db.games[g].status == Completed then Err(AlreadyCompleted)
    else if db.games[g].slot !in db.slots then Err(RowNotFound)
    else Ok(WithStatus(WithSlot(WithPlayers(db, g, {}), db.games[g].slot, Available, None), g, Cancelled))
  }

  function UpdateStatus(db: Db, g: GameId, u: UserId, target: GameStatus): Outcome {
    if g !in db.games then Err(RowNotFound)
    else if db.games[g].creator != u then Err(NotCreator)
    else if !ValidTransition(db.games[g].status, target) then Err(BadTransition)
    else Ok(WithStatus(db, g, target))
  }

  /** One transaction as one atomic step. */
  function Serial(db: Db, req: Request, env: Env): Outcome {
    match req
    case Book(c, s, u) => BookSlot(db, c, s, u, env)
    case CancelBooking(c, s, u) => ReleaseSlot(db, c, s, u, env)
    case Create(s, u, sport, n) => CreateGame(db, s, u, sport, n, env)
    case Join(g, u) => JoinGame(db, g, u, env)
    case Leave(g, u) => LeaveGame(db, g, u)
    case CancelGame(g, u) => CallOffGame(db, g, u)
    case SetStatus(g, u, target) => UpdateStatus(db, g, u, target)
  }

  /** The overlap query as the transaction itself would answer it on `db`. */
  predicate OverlapQuery(db: Db, req: Request) {
    match req
    case Book(_, s, u) =>
      s in db.slots && HasOverlappingBooking(db, u, s, db.slots[s].start, db.slots[s].end)
    case Join(g, u) =>
      g in db.games && db.games[g].slot in db.slots
      && HasOverlappingGame(db, u, g, db.slots[db.games[g].slot].start, db.slots[db.games[g].slot].end)
    case _ => false
  }

  /** A transaction that runs alone from begin to commit: every query is answered on `db`. */
  function Alone(db: Db, req: Request, now: int, newId: GameId): Outcome {
    Serial(db, req, Env(now, OverlapQuery(db, req), newId))
  }

  /** One committed transaction and what it took from outside its locked rows. */
  datatype Entry = Entry(req: Request, env: Env)

  /** The transactions of `log` one after another; `None` as soon as one would be refused. */
  function Replay(db: Db, log: seq<Entry>): Option<Db>
    decreases |log|
  {
    if log == [] then Some(db)
    else
      match Serial(db, log[0].req, log[0].env)
      case Ok(next) => Replay(next, log[1..])
      case Err(_) => None
  }

  lemma {:induction false} ReplaySnoc(db: Db, log: seq<Entry>, e: Entry)
    requires Replay(db, log).Some?
    ensures Replay(db, log + [e]) ==
            match Serial(Replay(db, log).value, e.req, e.env)
            case Ok(next) => Some(next)
            case Err(_) => None
    decreases |log|
  {
    if log == [] {
      assert (log + [e])[1..] == [];
    } else {
      assert (log + [e])[1..] == log[1..] + [e];
      ReplaySnoc(Serial(db, log[0].req, log[0].env).value, log[1..], e);
    }
  }

  lemma {:induction false} ReplayConcat(db: Db, log: seq<Entry>, more: seq<Entry>)
    requires Replay(db, log).Some?
    ensures Replay(db, log + more) == Replay(Replay(db, log).value, more)
    decreases |log|
  {
    if log == [] {
      assert log + more == more;
    } else {
      assert (log + more)[1..] == log[1..] + more;
      ReplayConcat(Serial(db, log[0].req, log[0].env).value, log[1..], more);
    }
  }
}
