/** Two runs that mark the limits of the results: the documented overlap rule fails in a
    serial run, and the per-user results of serial runs fail under interleaving. */
module Races {
  import opened Wrappers
  import opened Tables
  import opened Transactions
  import opened UserOverlap
  import opened LockStep

  /** Two courts with one slot each, at the same time. */
  function TwoCourts(left: Option<UserId>, right: Option<UserId>, games: map<GameId, Game>, players: map<GameId, set<UserId>>): Db {
    Db(
      map[0 := Court(Pickleball, 100000), 1 := Court(Pickleball, 100000)],
      map[0 := Slot(0, 10, 20, if left.Some? then Booked else Available, left),
          1 := Slot(1, 10, 20, if right.Some? then Booked else Available, right)],
      games,
      players)
  }

  const FIRST := TwoCourts(None, None, map[], map[])
  const GAME0 := Game(0, 1, Pickleball, 4, Open)
  const GAME1 := Game(1, 2, Pickleball, 4, Open)

  lemma FirstIsInitial()
    ensures Initial(FIRST)
  {}

  lemma UserOneBooks()
    ensures Alone(FIRST, Book(0, 0, 1), 0, 0) == Ok(TwoCourts(Some(1), None, map[], map[]))
  {
    assert WithSlot(FIRST, 0, Booked, Some(1)).slots == TwoCourts(Some(1), None, map[], map[]).slots;
  }

  lemma UserOneCreates()
    ensures Alone(TwoCourts(Some(1), None, map[], map[]), Create(0, 1, Pickleball, 4), 0, 0)
            == Ok(TwoCourts(Some(1), None, map[0 := GAME0], map[0 := {1}]))
  {}

  lemma UserTwoJoins()
    ensures Alone(TwoCourts(Some(1), None, map[0 := GAME0], map[0 := {1}]), Join(0, 2), 0, 0)
            == Ok(TwoCourts(Some(1), None, map[0 := GAME0], map[0 := {1, 2}]))
  {
    var db := TwoCourts(Some(1), None, map[0 := GAME0], map[0 := {1}]);
    assert Members(db, 0) == {1} && |Members(db, 0)| == 1;
    assert {1} + {2} == {1, 2};
    assert map[0 := {1}][0 := {1, 2}] == map[0 := {1, 2}];
  }

  lemma UserTwoBooks(inFirst: set<UserId>)
    ensures Alone(TwoCourts(Some(1), None, map[0 := GAME0], map[0 := inFirst]), Book(1, 1, 2), 0, 0)
            == Ok(TwoCourts(Some(1), Some(2), map[0 := GAME0], map[0 := inFirst]))
  {
    var db := TwoCourts(Some(1), None, map[0 := GAME0], map[0 := inFirst]);
    assert WithSlot(db, 1, Booked, Some(2)).slots == TwoCourts(Some(1), Some(2), map[], map[]).slots;
  }

  lemma UserTwoCreates(inFirst: set<UserId>)
    ensures Alone(TwoCourts(Some(1), Some(2), map[0 := GAME0], map[0 := inFirst]), Create(1, 2, Pickleball, 4), 0, 1)
            == Ok(TwoCourts(Some(1), Some(2), map[0 := GAME0, 1 := GAME1], map[0 := inFirst, 1 := {2}]))
  {
    assert map[0 := GAME0][1 := GAME1] == map[0 := GAME0, 1 := GAME1];
    assert map[0 := inFirst][1 := {2}] == map[0 := inFirst, 1 := {2}];
  }

  lemma {:induction false} RunOneMore(db: Db, calls: seq<Call>, c: Call)
    requires Alone(RunSerially(db, calls), c.req, c.now, c.newId).Ok?
    ensures RunSerially(db, calls + [c]) == Alone(RunSerially(db, calls), c.req, c.now, c.newId).value
    decreases |calls|
  {
    if calls == [] {
      assert (calls + [c])[1..] == [];
    } else {
      assert (calls + [c])[1..] == calls[1..] + [c];
      match Alone(db, calls[0].req, calls[0].now, calls[0].newId)
      case Ok(next) => RunOneMore(next, calls[1..], c);
      case Err(_) => RunOneMore(db, calls[1..], c);
    }
  }

  lemma UserTwoIsInAGame() returns (calls: seq<Call>)
    ensures RunSerially(FIRST, calls) == TwoCourts(Some(1), None, map[0 := GAME0], map[0 := {1, 2}])
  {
    calls := [];
    UserOneBooks();
    RunOneMore(FIRST, calls, Call(Book(0, 0, 1), 0, 0));
    calls := calls + [Call(Book(0, 0, 1), 0, 0)];
    UserOneCreates();
    RunOneMore(FIRST, calls, Call(Create(0, 1, Pickleball, 4), 0, 0));
    calls := calls + [Call(Create(0, 1, Pickleball, 4), 0, 0)];
    UserTwoJoins();
    RunOneMore(FIRST, calls, Call(Join(0, 2), 0, 0));
    calls := calls + [Call(Join(0, 2), 0, 0)];
  }

  lemma UserTwoIsInBoth() returns (calls: seq<Call>)
    ensures RunSerially(FIRST, calls)
            == TwoCourts(Some(1), Some(2), map[0 := GAME0, 1 := GAME1], map[0 := {1, 2}, 1 := {2}])
  {
    calls := UserTwoIsInAGame();
    UserTwoBooks({1, 2});
    RunOneMore(FIRST, calls, Call(Book(1, 1, 2), 0, 0));
    calls := calls + [Call(Book(1, 1, 2), 0, 0)];
    UserTwoCreates({1, 2});
    RunOneMore(FIRST, calls, Call(Create(1, 2, Pickleball, 4), 0, 1));
    calls := calls + [Call(Create(1, 2, Pickleball, 4), 0, 1)];
  }

  /** User 2 joins user 1's game, then books the other court and creates a game there:
      `create_game` does not look at the games its caller already plays in. */
  lemma DocumentedRuleFails() returns (calls: seq<Call>)
    ensures Initial(FIRST)
    ensures PlaysBoth(RunSerially(FIRST, calls), 0, 1, 2)
  {
    FirstIsInitial();
    calls := UserTwoIsInBoth();
  }

  // ── Two bookings of one user, interleaved ─────────────────────

  const NOW := Choice(0, 0)

  /** User 7's booking of slot `i`, as far as `pc`. */
  function Booking(i: SlotId, pc: Pc): Tx {
    var tx := NewTx(Book(i, i, 7));
    if pc == Begun then tx
    else tx.(pc := pc, slotLock := Some(i), seen := tx.seen.(start := 10, end := 20),
             writes := if pc == Ready then [SetSlot(i, Booked, Some(7))] else [])
  }

  function Both(left: Pc, right: Pc): State {
    State(FIRST, map[0 := Booking(0, left), 1 := Booking(1, right)], [])
  }

  function Next(pc: Pc): Pc {
    match pc
    case Begun => RowLocked
    case RowLocked => Checked
    case _ => Ready
  }

  lemma BookingAdvances(i: SlotId, pc: Pc, taken: set<GameId>)
    requires (i == 0 || i == 1) && (pc == Begun || pc == RowLocked || pc == Checked)
    ensures Statement(FIRST, taken, Booking(i, pc), NOW) == Goes(Booking(i, Next(pc)))
  {}

  lemma LeftMoves(left: Pc, right: Pc)
    requires left == Begun || left == RowLocked || left == Checked
    ensures Step(Both(left, right), Run(0, NOW)) == Both(Next(left), right)
  {
    var s := Both(left, right);
    BookingAdvances(0, left, TakenIds(s, 0));
    assert !Blocked(s, 0);
    assert s.txs[0 := Booking(0, Next(left))] == Both(Next(left), right).txs;
  }

  lemma RightMoves(left: Pc, right: Pc)
    requires right == Begun || right == RowLocked || right == Checked
    ensures Step(Both(left, right), Run(1, NOW)) == Both(left, Next(right))
  {
    var s := Both(left, right);
    BookingAdvances(1, right, TakenIds(s, 1));
    assert !Blocked(s, 1);
    assert s.txs[1 := Booking(1, Next(right))] == Both(left, Next(right)).txs;
  }

  lemma BothBegin()
    ensures Step(Step(Start(FIRST), Begin(0, Book(0, 0, 7))), Begin(1, Book(1, 1, 7))) == Both(Begun, Begun)
  {
    assert map[0 := Booking(0, Begun)][1 := Booking(1, Begun)] == Both(Begun, Begun).txs;
  }

  lemma BothCommit()
    ensures
      var db := Step(Step(Both(Ready, Ready), Run(0, NOW)), Run(1, NOW)).db;
      BookedByBoth(db, 0, 1, 7) && Overlap(db.slots[0], db.slots[1])
  {
    var s := Both(Ready, Ready);
    assert !Blocked(s, 0);
    var t := Step(s, Run(0, NOW));
    assert t.db == ApplyOne(FIRST, SetSlot(0, Booked, Some(7)));
    assert t.txs == map[1 := Booking(1, Ready)];
    assert !Blocked(t, 1);
    assert Step(t, Run(1, NOW)).db == ApplyOne(t.db, SetSlot(1, Booked, Some(7)));
  }

  lemma TurnAbout(actions: seq<Action>, pc: Pc) returns (more: seq<Action>)
    requires pc == Begun || pc == RowLocked || pc == Checked
    requires Exec(Start(FIRST), actions) == Both(pc, pc)
    ensures Exec(Start(FIRST), more) == Both(Next(pc), Next(pc))
  {
    ExecOneMore(Start(FIRST), actions, Run(0, NOW));
    ExecOneMore(Start(FIRST), actions + [Run(0, NOW)], Run(1, NOW));
    LeftMoves(pc, pc);
    RightMoves(Next(pc), pc);
    more := actions + [Run(0, NOW)] + [Run(1, NOW)];
  }

  lemma BeginBoth() returns (actions: seq<Action>)
    ensures Exec(Start(FIRST), actions) == Both(Begun, Begun)
  {
    var begin0, begin1 := Begin(0, Book(0, 0, 7)), Begin(1, Book(1, 1, 7));
    ExecOneMore(Start(FIRST), [], begin0);
    ExecOneMore(Start(FIRST), [] + [begin0], begin1);
    BothBegin();
    actions := [] + [begin0] + [begin1];
  }

  lemma CommitBoth(actions: seq<Action>) returns (more: seq<Action>)
    requires Exec(Start(FIRST), actions) == Both(Ready, Ready)
    ensures
      var db := Exec(Start(FIRST), more).db;
      BookedByBoth(db, 0, 1, 7) && Overlap(db.slots[0], db.slots[1])
  {
    ExecOneMore(Start(FIRST), actions, Run(0, NOW));
    ExecOneMore(Start(FIRST), actions + [Run(0, NOW)], Run(1, NOW));
    BothCommit();
    more := actions + [Run(0, NOW)] + [Run(1, NOW)];
  }

  /** Interleaved, a user can book two overlapping slots: each transaction asks its overlap
      query before the other commits, and no lock is taken on the user. */
  lemma InterleavedBookingsMayOverlap() returns (actions: seq<Action>)
    ensures Initial(FIRST)
    ensures
      var db := Exec(Start(FIRST), actions).db;
      BookedByBoth(db, 0, 1, 7) && Overlap(db.slots[0], db.slots[1])
  {
    FirstIsInitial();
    actions := BeginBoth();
    actions := TurnAbout(actions, Begun);
    actions := TurnAbout(actions, RowLocked);
    actions := TurnAbout(actions, Checked);
    actions := CommitBoth(actions);
  }
}
