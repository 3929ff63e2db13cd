/** What each request is answered and what it leaves behind, said of the columns alone: when it
    succeeds, the tables then, and what an error means. */
module Answers {
  import opened Wrappers
  import opened Tables
  import opened Transactions
  import opened Invariants

  /** There is a moment in both: neither ends before the other begins. */
  predicate During(a: Slot, b: Slot) {
    !(a.end <= b.start || b.end <= a.start)
  }

  /** `book_slot` succeeds if and only if the slot is on that court, free and not begun, and the
      user holds no other slot during it. */
  lemma BookAnswers(db: Db, c: CourtId, s: SlotId, u: UserId, now: int, newId: GameId)
    ensures
      Alone(db, Book(c, s, u), now, newId).Ok? <==>
        && s in db.slots && db.slots[s].court == c && db.slots[s].status == Available && now < db.slots[s].start
        && forall t :: t in db.slots && t != s && db.slots[t].status == Booked && db.slots[t].bookedBy == Some(u)
                       ==> !During(db.slots[s], db.slots[t])
    ensures
      var answer := Alone(db, Book(c, s, u), now, newId);
      answer.Ok? ==> answer.value == db.(
        slots := db.slots[s := Slot(c, db.slots[s].start, db.slots[s].end, Booked, Some(u))])
  {}

  /** `cancel_booking` succeeds if and only if the slot is on that court, booked by the caller and
      not begun, and every game there has been is completed or cancelled. */
  lemma CancelBookingAnswers(db: Db, c: CourtId, s: SlotId, u: UserId, now: int, newId: GameId)
    ensures
      Alone(db, Request.CancelBooking(c, s, u), now, newId).Ok? <==>
        && s in db.slots && db.slots[s].court == c && db.slots[s].status == Booked && db.slots[s].bookedBy == Some(u)
        && now < db.slots[s].start
        && forall g :: g in db.games && db.games[g].slot == s
                       ==> db.games[g].status == Completed || db.games[g].status == Cancelled
    ensures
      var answer := Alone(db, Request.CancelBooking(c, s, u), now, newId);
      answer.Ok? ==> answer.value == db.(
        slots := db.slots[s := Slot(c, db.slots[s].start, db.slots[s].end, Available, None)])
  {}

  /** `create_game` succeeds if and only if the caller has booked the slot, the court is of the
      sport, the 16-bit size is 2 to 30, and the slot never had a game. */
  lemma CreateAnswers(db: Db, s: SlotId, u: UserId, sport: Sport, n: int, now: int, newId: GameId)
    requires Good(db)
    ensures
      Alone(db, Create(s, u, sport, n), now, newId).Ok? <==>
        && s in db.slots && db.slots[s].status == Booked && db.slots[s].bookedBy == Some(u)
        && db.courts[db.slots[s].court].sport == sport && 2 <= n % 0x1_0000 <= 30
        && (forall g :: g in db.games ==> db.games[g].slot != s) && newId !in db.games
    ensures
      var answer := Alone(db, Create(s, u, sport, n), now, newId);
      answer.Ok? ==> answer.value == db.(
        games := db.games[newId := Game(s, u, sport, n % 0x1_0000, Open)], players := db.players[newId := {u}])
  {}

  /** `join_game` succeeds if and only if the game is open, the user is not in it, and is in no
      other open, full or running game during it; the last place makes it full. */
  lemma JoinAnswers(db: Db, g: GameId, u: UserId, now: int, newId: GameId)
    requires Good(db)
    ensures
      Alone(db, Join(g, u), now, newId).Ok? <==>
        && g in db.games && db.games[g].status == Open && u !in db.players[g]
        && forall h :: h in db.games && h != g && u in db.players[h]
                       && During(db.slots[db.games[g].slot], db.slots[db.games[h].slot])
                       ==> db.games[h].status == Completed || db.games[h].status == Cancelled
    ensures
      var answer := Alone(db, Join(g, u), now, newId);
      answer.Ok? ==> answer.value == db.(
        players := db.players[g := db.players[g] + {u}],
        games := if |db.players[g]| + 1 == db.games[g].maxPlayers then db.games[g := db.games[g].(status := Full)]
                 else db.games)
  {
    if g in db.games {
      assert CapacityAgrees(db.games[g], db.players[g]);
    }
  }

  /** `leave_game` succeeds if and only if the user is in the game, did not create it, and it is
      neither completed nor cancelled; a full game opens again. */
  lemma LeaveAnswers(db: Db, g: GameId, u: UserId, now: int, newId: GameId)
    requires Good(db)
    ensures
      Alone(db, Leave(g, u), now, newId).Ok? <==>
        && g in db.games && db.games[g].creator != u && u in db.players[g]
        && db.games[g].status != Completed && db.games[g].status != Cancelled
    ensures
      var answer := Alone(db, Leave(g, u), now, newId);
      answer.Ok? ==> answer.value == db.(
        players := db.players[g := db.players[g] - {u}],
        games := if db.games[g].status == Full then db.games[g := db.games[g].(status := Open)] else db.games)
  {}

  /** `cancel_game` succeeds if and only if the caller created the game and it is open, full or
      running; it empties the game and frees its slot. */
  lemma CancelGameAnswers(db: Db, g: GameId, u: UserId, now: int, newId: GameId)
    requires Good(db)
    ensures
      Alone(db, Request.CancelGame(g, u), now, newId).Ok? <==>
        && g in db.games && db.games[g].creator == u
        && (db.games[g].status == Open || db.games[g].status == Full || db.games[g].status == InProgress)
    ensures
      var answer := Alone(db, Request.CancelGame(g, u), now, newId);
      answer.Ok? ==>
        var slot := db.games[g].slot;
        answer.value == db.(
          players := db.players[g := {}],
          slots := db.slots[slot := db.slots[slot].(status := Available, bookedBy := None)],
          games := db.games[g := db.games[g].(status := Cancelled)])
  {}

  /** `update_status` succeeds if and only if the creator starts an open or full game, or completes
      a running one. */
  lemma SetStatusAnswers(db: Db, g: GameId, u: UserId, target: GameStatus, now: int, newId: GameId)
    ensures
      Alone(db, SetStatus(g, u, target), now, newId).Ok? <==>
        && g in db.games && db.games[g].creator == u
        && (|| (db.games[g].status == Open && target == InProgress)
            || (db.games[g].status == Full && target == InProgress)
            || (db.games[g].status == InProgress && target == Completed))
    ensures
      var answer := Alone(db, SetStatus(g, u, target), now, newId);
      answer.Ok? ==> answer.value == db.(games := db.games[g := db.games[g].(status := target)])
  {}

  // ── What an error means ───────────────────────────────────────

  predicate BookCause(db: Db, c: CourtId, s: SlotId, u: UserId, now: int, e: Error) {
    match e
    case RowNotFound => s !in db.slots || db.slots[s].court != c
    case SlotTaken => s in db.slots && db.slots[s].status != Available
    case PastSlot => s in db.slots && db.slots[s].start <= now
    case OverlappingBooking =>
      s in db.slots && exists t :: t in db.slots && t != s && db.slots[t].status == Booked
                                   && db.slots[t].bookedBy == Some(u) && During(db.slots[s], db.slots[t])
    case _ => false
  }

  predicate CancelBookingCause(db: Db, c: CourtId, s: SlotId, u: UserId, now: int, e: Error) {
    match e
    case RowNotFound => s !in db.slots || db.slots[s].court != c
    case NotBooked => s in db.slots && db.slots[s].status != Booked
    case NotBooker => s in db.slots && db.slots[s].status == Booked && db.slots[s].bookedBy != Some(u)
    case PastSlot => s in db.slots && db.slots[s].start <= now
    case ActiveGame =>
      exists g :: g in db.games && db.games[g].slot == s
                  && db.games[g].status != Completed && db.games[g].status != Cancelled
    case _ => false
  }

  predicate CreateCause(db: Db, s: SlotId, u: UserId, sport: Sport, n: int, newId: GameId, e: Error) {
    match e
    case RowNotFound => s !in db.slots
    case NotBooked => s in db.slots && db.slots[s].status != Booked
    case NotBooker => s in db.slots && db.slots[s].status == Booked && db.slots[s].bookedBy != Some(u)
    case SportMismatch =>
      s in db.slots && db.slots[s].court in db.courts && db.courts[db.slots[s].court].sport != sport
    case GameExists => exists g :: g in db.games && db.games[g].slot == s && db.games[g].status != Cancelled
    case CheckViolation => n % 0x1_0000 < 2 || n % 0x1_0000 > 30
    case UniqueViolation =>
      newId in db.games || exists g :: g in db.games && db.games[g].slot == s && db.games[g].status == Cancelled
    case _ => false
  }

  predicate JoinCause(db: Db, g: GameId, u: UserId, e: Error)
    requires db.players.Keys == db.games.Keys
  {
    match e
    case RowNotFound => g !in db.games
    case NotOpen => g in db.games && db.games[g].status != Open
    case AlreadyJoined => g in db.games && u in db.players[g]
    case OverlappingGame =>
      g in db.games && db.games[g].slot in db.slots
      && exists h :: h in db.games && h != g && u in db.players[h] && db.games[h].slot in db.slots
                     && db.games[h].status != Completed && db.games[h].status != Cancelled
                     && During(db.slots[db.games[g].slot], db.slots[db.games[h].slot])
    case _ => false
  }

  predicate LeaveCause(db: Db, g: GameId, u: UserId, e: Error)
    requires db.players.Keys == db.games.Keys
  {
    match e
    case RowNotFound => g !in db.games || u !in db.players[g]
    case CreatorCannotLeave => g in db.games && db.games[g].creator == u
    case GameClosed => g in db.games && (db.games[g].status == Completed || db.games[g].status == Cancelled)
    case _ => false
  }

  predicate CancelGameCause(db: Db, g: GameId, u: UserId, e: Error) {
    match e
    case RowNotFound => g !in db.games
    case NotCreator => g in db.games && db.games[g].creator != u
    case AlreadyCancelled => g in db.games && db.games[g].status == Cancelled
    case AlreadyCompleted => g in db.games && db.games[g].status == Completed
    case _ => false
  }

  predicate SetStatusCause(db: Db, g: GameId, u: UserId, target: GameStatus, e: Error) {
    match e
    case RowNotFound => g !in db.games
    case NotCreator => g in db.games && db.games[g].creator != u
    case BadTransition =>
      g in db.games && db.games[g].creator == u
      && !(target == InProgress && (db.games[g].status == Open || db.games[g].status == Full))
      && !(target == Completed && db.games[g].status == InProgress)
    case _ => false
  }

  predicate Cause(db: Db, req: Request, now: int, newId: GameId, e: Error)
    requires db.players.Keys == db.games.Keys
  {
    match req
    case Book(c, s, u) => BookCause(db, c, s, u, now, e)
    case CancelBooking(c, s, u) => CancelBookingCause(db, c, s, u, now, e)
    case Create(s, u, sport, n) => CreateCause(db, s, u, sport, n, newId, e)
    case Join(g, u) => JoinCause(db, g, u, e)
    case Leave(g, u) => LeaveCause(db, g, u, e)
    case CancelGame(g, u) => CancelGameCause(db, g, u, e)
    case SetStatus(g, u, target) => SetStatusCause(db, g, u, target, e)
  }

  lemma BookErrs(db: Db, c: CourtId, s: SlotId, u: UserId, now: int, newId: GameId)
    ensures
      var answer := Alone(db, Book(c, s, u), now, newId);
      answer.Err? ==> BookCause(db, c, s, u, now, answer.error)
  {}

  lemma CreateErrs(db: Db, s: SlotId, u: UserId, sport: Sport, n: int, now: int, newId: GameId)
    requires Good(db)
    ensures
      var answer := Alone(db, Create(s, u, sport, n), now, newId);
      answer.Err? ==> CreateCause(db, s, u, sport, n, newId, answer.error)
  {}

  lemma JoinErrs(db: Db, g: GameId, u: UserId, now: int, newId: GameId)
    requires Good(db)
    ensures
      var answer := Alone(db, Join(g, u), now, newId);
      answer.Err? ==> JoinCause(db, g, u, answer.error)
  {
    if g in db.games {
      assert CapacityAgrees(db.games[g], db.players[g]);
    }
  }

  lemma CancelBookingErrs(db: Db, c: CourtId, s: SlotId, u: UserId, now: int, newId: GameId)
    ensures
      var answer := Alone(db, Request.CancelBooking(c, s, u), now, newId);
      answer.Err? ==> CancelBookingCause(db, c, s, u, now, answer.error)
  {}

  lemma LeaveErrs(db: Db, g: GameId, u: UserId, now: int, newId: GameId)
    requires Good(db)
    ensures
      var answer := Alone(db, Leave(g, u), now, newId);
      answer.Err? ==> LeaveCause(db, g, u, answer.error)
  {}

  lemma CancelGameErrs(db: Db, g: GameId, u: UserId, now: int, newId: GameId)
    requires Good(db)
    ensures
      var answer := Alone(db, Request.CancelGame(g, u), now, newId);
      answer.Err? ==> CancelGameCause(db, g, u, answer.error)
  {}

  lemma SetStatusErrs(db: Db, g: GameId, u: UserId, target: GameStatus, now: int, newId: GameId)
    ensures
      var answer := Alone(db, SetStatus(g, u, target), now, newId);
      answer.Err? ==> SetStatusCause(db, g, u, target, answer.error)
  {}

  /** Whatever a request is told of why it failed is so. */
  lemma ErrorsNameTheirCause(db: Db, req: Request, now: int, newId: GameId)
    requires Good(db) && Alone(db, req, now, newId).Err?
    ensures Cause(db, req, now, newId, Alone(db, req, now, newId).error)
  {
    match req
    case Book(c, s, u) => BookErrs(db, c, s, u, now, newId);
    case CancelBooking(c, s, u) => CancelBookingErrs(db, c, s, u, now, newId);
    case Create(s, u, sport, n) => CreateErrs(db, s, u, sport, n, now, newId);
    case Join(g, u) => JoinErrs(db, g, u, now, newId);
    case Leave(g, u) => LeaveErrs(db, g, u, now, newId);
    case CancelGame(g, u) => CancelGameErrs(db, g, u, now, newId);
    case SetStatus(g, u, target) => SetStatusErrs(db, g, u, target, now, newId);
  }
}
