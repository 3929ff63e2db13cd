/** What users can still bring about from a reachable state with nothing under way. */
module Prospects {
  import opened Wrappers
  import opened Tables
  import opened Transactions
  import opened Invariants
  import opened LockStep
  import opened Guarantees
  import opened SoloRuns
  import opened Answers

  /** A request begun while nothing else is under way has the atomic answer, whatever was
      committed before. */
  lemma QuietRun(s: State, req: Request, choice: Choice) returns (actions: seq<Action>)
    requires Good(s.db) && s.txs == map[]
    ensures
      var answer := Alone(s.db, req, choice.now, choice.newId);
      && Exec(s, actions).db == (if answer.Ok? then answer.value else s.db)
      && Exec(s, actions).txs == map[]
  {
    actions := SoloRunIsAtomic(s.db, req, choice);
    LogIsOnlyAppended(Start(s.db), s.log, actions);
    assert Start(s.db).(log := s.log + Start(s.db).log) == s;
  }

  /** From every such state the creator of an open or full game can start it. */
  lemma CreatorCanStart(first: Db, actions: seq<Action>, g: GameId) returns (more: seq<Action>)
    requires Initial(first) && Exec(Start(first), actions).txs == map[]
    requires
      var db := Exec(Start(first), actions).db;
      g in db.games && (db.games[g].status == Open || db.games[g].status == Full)
    ensures
      var db, last := Exec(Start(first), actions).db, Exec(Start(first), actions + more);
      last.txs == map[] && last.db == db.(games := db.games[g := db.games[g].(status := InProgress)])
  {
    ReachableIsSound(first, actions);
    var s := Exec(Start(first), actions);
    var u := s.db.games[g].creator;
    SetStatusAnswers(s.db, g, u, InProgress, 0, 0);
    more := QuietRun(s, SetStatus(g, u, InProgress), Choice(0, 0));
    ExecConcat(Start(first), actions, more);
  }

  /** And of a running one, complete it. */
  lemma CreatorCanComplete(first: Db, actions: seq<Action>, g: GameId) returns (more: seq<Action>)
    requires Initial(first) && Exec(Start(first), actions).txs == map[]
    requires
      var db := Exec(Start(first), actions).db;
      g in db.games && db.games[g].status == InProgress
    ensures
      var db, last := Exec(Start(first), actions).db, Exec(Start(first), actions + more);
      last.txs == map[] && last.db == db.(games := db.games[g := db.games[g].(status := Completed)])
  {
    ReachableIsSound(first, actions);
    var s := Exec(Start(first), actions);
    var u := s.db.games[g].creator;
    SetStatusAnswers(s.db, g, u, Completed, 0, 0);
    more := QuietRun(s, SetStatus(g, u, Completed), Choice(0, 0));
    ExecConcat(Start(first), actions, more);
  }

  /** A slot that was booked again after its game was cancelled can be released by its booker at
      any moment before it begins. */
  lemma RebookedSlotCanBeReleased(first: Db, actions: seq<Action>, g: GameId, now: int) returns (more: seq<Action>)
    requires Initial(first) && Exec(Start(first), actions).txs == map[]
    requires
      var db := Exec(Start(first), actions).db;
      && g in db.games && db.games[g].status == Cancelled && db.games[g].slot in db.slots
      && db.slots[db.games[g].slot].status == Booked && now < db.slots[db.games[g].slot].start
    ensures
      var db, last := Exec(Start(first), actions).db, Exec(Start(first), actions + more);
      && last.txs == map[] && last.db.games == db.games && last.db.players == db.players
      && last.db.slots == db.slots[db.games[g].slot := db.slots[db.games[g].slot].(status := Available, bookedBy := None)]
  {
    ReachableIsSound(first, actions);
    var s := Exec(Start(first), actions);
    var slot := s.db.games[g].slot;
    var row := s.db.slots[slot];
    assert SlotStatusAgrees(row);
    var u := row.bookedBy.value;
    CancelBookingAnswers(s.db, row.court, slot, u, now, 0);
    more := QuietRun(s, Request.CancelBooking(row.court, slot, u), Choice(now, 0));
    ExecConcat(Start(first), actions, more);
  }
}
