/** The database as an object, and the services' seven transactions on it, each run without
    interruption: rows are read, checked and overwritten in place, and an early return before
    the commit leaves the tables as they were. */
module Store {
  import opened Wrappers
  import opened Tables
  import opened Transactions
  import opened Invariants
  import opened UserOverlap
  import opened Answers

  /** `result` and the tables `after` are what the atomic transaction makes of `before`. */
  predicate Follows<T>(before: Db, after: Db, outcome: Outcome, result: Result<T, Error>) {
    && (outcome.Ok? ==> result.Ok? && after == outcome.value)
    && (outcome.Err? ==> result == Err(outcome.error) && after == before)
  }

  class Database {
    const courts: map<CourtId, Court>
    var slots: map<SlotId, Slot>
    var games: map<GameId, Game>
    var players: map<GameId, set<UserId>>

    function View(): Db
      reads this
    {
      Db(courts, slots, games, players)
    }

    /** Seeded courts and slots; nothing is booked and there are no games. */
    constructor (courts: map<CourtId, Court>, slots: map<SlotId, Slot>)
      requires Initial(Db(courts, slots, map[], map[]))
      ensures View() == Db(courts, slots, map[], map[])
      ensures Fair(View())
    {
      this.courts := courts;
      this.slots := slots;
      this.games := map[];
      this.players := map[];
      InitialIsFair(Db(courts, slots, map[], map[]));
    }

    method BookSlot(court: CourtId, slot: SlotId, user: UserId, now: int) returns (result: Result<Slot, Error>)
      modifies this`slots
      ensures Follows(old(View()), View(), Alone(old(View()), Book(court, slot, user), now, 0), result)
      ensures old(Fair(View())) ==> Fair(View())
      ensures result.Ok? ==> slot in slots && result.value == slots[slot]
                             && result.value.status == Booked && result.value.bookedBy == Some(user)
      ensures result.Ok? <==>
                && slot in old(slots) && old(slots)[slot].court == court && old(slots)[slot].status == Available
                && now < old(slots)[slot].start
                && forall t :: t in old(slots) && t != slot && old(slots)[t].status == Booked
                               && old(slots)[t].bookedBy == Some(user)
                               ==> !During(old(slots)[slot], old(slots)[t])
    {
      ghost var before := View();
      if slot !in slots || slots[slot].court != court { return Err(RowNotFound); }
      var row := slots[slot];
      if row.status != Available { return Err(SlotTaken); }
      if row.start <= now { return Err(PastSlot); }
      var overlap := HasOverlappingBooking(View(), user, slot, row.start, row.end);
      if overlap { return Err(OverlappingBooking); }
      var updated := row.(status := Booked, bookedBy := Some(user));
      slots := slots[slot := updated];
      result := Ok(updated);
      BookAnswers(before, court, slot, user, now, 0);
      if Fair(before) { AloneKeepsFair(before, Book(court, slot, user), now, 0); }
    }

    method CancelBooking(court: CourtId, slot: SlotId, user: UserId, now: int) returns (result: Result<Slot, Error>)
      modifies this`slots
      ensures Follows(old(View()), View(), Alone(old(View()), Request.CancelBooking(court, slot, user), now, 0), result)
      ensures old(Fair(View())) ==> Fair(View())
      ensures result.Ok? ==> slot in slots && result.value == slots[slot]
                             && result.value.status == Available && result.value.bookedBy == None
      ensures result.Ok? <==>
                && slot in old(slots) && old(slots)[slot].court == court && old(slots)[slot].status == Booked
                && old(slots)[slot].bookedBy == Some(user) && now < old(slots)[slot].start
                && forall g :: g in games && games[g].slot == slot
                               ==> games[g].status == Completed || games[g].status == Cancelled
    {
      ghost var before := View();
      if slot !in slots || slots[slot].court != court { return Err(RowNotFound); }
      var row := slots[slot];
      if row.status != Booked { return Err(NotBooked); }
      if row.bookedBy != Some(user) { return Err(NotBooker); }
      if row.start <= now { return Err(PastSlot); }
      var hasGame := HasActiveGameForSlot(View(), slot);
      if hasGame { return Err(ActiveGame); }
      var updated := row.(status := Available, bookedBy := None);
      slots := slots[slot := updated];
      result := Ok(updated);
      if Fair(before) { AloneKeepsFair(before, Request.CancelBooking(court, slot, user), now, 0); }
    }

    method CreateGame(slot: SlotId, creator: UserId, sport: Sport, maxPlayers: int, newId: GameId)
      returns (result: Result<Game, Error>)
      modifies this`games, this`players
      ensures Follows(old(View()), View(), Alone(old(View()), Create(slot, creator, sport, maxPlayers), 0, newId), result)
      ensures old(Fair(View())) ==> Fair(View())
      ensures result.Ok? ==> newId in games && result.value == games[newId] && Members(View(), newId) == {creator}
    {
      ghost var before := View();
      if slot !in slots { return Err(RowNotFound); }
      var row := slots[slot];
      if row.status != Booked { return Err(NotBooked); }
      if row.bookedBy != Some(creator) { return Err(NotBooker); }
      if row.court !in courts { return Err(RowNotFound); }
      if courts[row.court].sport != sport { return Err(SportMismatch); }
      var taken := GameExistsForSlot(View(), slot);
      if taken { return Err(GameExists); }
      var max := AsI16(maxPlayers);
      if max < 2 || 30 < max { return Err(CheckViolation); }
      if SlotHasGame(View(), slot) || newId in games { return Err(UniqueViolation); }
      var game := Game(slot, creator, sport, max, Open);
      games := games[newId := game];
      players := players[newId := {creator}];
      result := Ok(game);
      if Fair(before) { AloneKeepsFair(before, Create(slot, creator, sport, maxPlayers), 0, newId); }
    }

    method JoinGame(game: GameId, user: UserId) returns (result: Result<(), Error>)
      modifies this`games, this`players
      ensures Follows(old(View()), View(), Alone(old(View()), Join(game, user), 0, 0), result)
      ensures old(Fair(View())) ==> Fair(View())
      ensures result.Ok? ==> user in Members(View(), game)
    {
      ghost var before := View();
      if game !in games || games[game].slot !in slots { return Err(RowNotFound); }
      var slot := slots[games[game].slot];
      var row := games[game];
      if row.status != Open { return Err(NotOpen); }
      if user in Members(View(), game) { return Err(AlreadyJoined); }
      var count := |Members(View(), game)|;
      if count >= row.maxPlayers { return Err(GameFull); }
      var overlap := HasOverlappingGame(View(), user, game, slot.start, slot.end);
      if overlap { return Err(OverlappingGame); }
      players := players[game := Members(View(), game) + {user}];
      if count + 1 >= row.maxPlayers {
        games := games[game := row.(status := Full)];
      }
      result := Ok(());
      assert Alone(before, Join(game, user), 0, 0) == Ok(View());
      if Fair(before) { AloneKeepsFair(before, Join(game, user), 0, 0); }
    }

    method LeaveGame(game: GameId, user: UserId) returns (result: Result<(), Error>)
      modifies this`games, this`players
      ensures Follows(old(View()), View(), Alone(old(View()), Leave(game, user), 0, 0), result)
      ensures old(Fair(View())) ==> Fair(View())
      ensures result.Ok? ==> user !in Members(View(), game)
    {
      ghost var before := View();
      if game !in games { return Err(RowNotFound); }
      var row := games[game];
      if row.creator == user { return Err(CreatorCannotLeave); }
      if row.status == Cancelled || row.status == Completed { return Err(GameClosed); }
      if user !in Members(View(), game) { return Err(RowNotFound); }
      players := players[game := Members(View(), game) - {user}];
      if row.status == Full {
        games := games[game := row.(status := Open)];
      }
      result := Ok(());
      if Fair(before) { AloneKeepsFair(before, Leave(game, user), 0, 0); }
    }

    method CancelGame(game: GameId, user: UserId) returns (result: Result<(), Error>)
      modifies this
      ensures Follows(old(View()), View(), Alone(old(View()), Request.CancelGame(game, user), 0, 0), result)
      ensures old(Fair(View())) ==> Fair(View())
      ensures old(Good(View())) && result.Ok? ==> old(slots[games[game].slot].bookedBy) == Some(user)
    {
      ghost var before := View();
      if game !in games { return Err(RowNotFound); }
      var row := games[game];
      if row.creator != user { return Err(NotCreator); }
      if row.status == Cancelled { return Err(AlreadyCancelled); }
      if row.status == Completed { return Err(AlreadyCompleted); }
      if row.slot !in slots { return Err(RowNotFound); }
      assert Good(before) ==> HeldByCreator(before, game);
      players := players[game := {}];
      slots := slots[row.slot := slots[row.slot].(status := Available, bookedBy := None)];
      games := games[game := row.(status := Cancelled)];
      result := Ok(());
      if Fair(before) { AloneKeepsFair(before, Request.CancelGame(game, user), 0, 0); }
    }

    method UpdateStatus(game: GameId, caller: UserId, target: GameStatus) returns (result: Result<Game, Error>)
      modifies this`games
      ensures Follows(old(View()), View(), Alone(old(View()), SetStatus(game, caller, target), 0, 0), result)
      ensures old(Fair(View())) ==> Fair(View())
      ensures result.Ok? ==> game in games && result.value == games[game] && result.value.status == target
      ensures result.Ok? <==>
                && game in old(games) && old(games)[game].creator == caller
                && (|| (old(games)[game].status == Open && target == InProgress)
                    || (old(games)[game].status == Full && target == InProgress)
                    || (old(games)[game].status == InProgress && target == Completed))
    {
      ghost var before := View();
      if game !in games { return Err(RowNotFound); }
      var row := games[game];
      if row.creator != caller { return Err(NotCreator); }
      if !ValidTransition(row.status, target) { return Err(BadTransition); }
      var updated := row.(status := target);
      games := games[game := updated];
      result := Ok(updated);
      if Fair(before) { AloneKeepsFair(before, SetStatus(game, caller, target), 0, 0); }
    }
  }
}
