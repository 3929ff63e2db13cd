/** A transaction that nothing interrupts: statement by statement it ends exactly as the
    atomic transaction does, with the same tables or the same error. */
module SoloRuns {
  import opened Wrappers
  import opened Tables
  import opened Transactions
  import opened Invariants
  import opened LockStep
  import opened Serialisable
  import opened Deadlock
  import opened UserOverlap

  /** What earlier statements of an uninterrupted transaction have read is what is in `db`. */
  predicate UpToDate(db: Db, tx: Tx, choice: Choice) {
    match tx.req
    case Book(_, _, _) =>
      && (tx.pc != Begun ==> tx.env.now == choice.now)
      && (tx.pc == Checked || tx.pc == Ready ==> !OverlapQuery(db, tx.req))
    case CancelBooking(_, _, _) => tx.pc != Begun ==> tx.env.now == choice.now
    case Create(s, u, _, _) =>
      && (tx.pc != Begun ==> s in db.slots && db.slots[s].status == Booked && db.slots[s].bookedBy == Some(u))
      && (Inserting(tx) ==> tx.env.newId == choice.newId)
    case Join(_, _) =>
      tx.pc == Checked || tx.pc == RowWritten || tx.pc == Ready ==> !OverlapQuery(db, tx.req)
    case _ => true
  }

  /** The next statement fails with the atomic error, commits the atomic tables, or goes on. */
  predicate OnTrack(db: Db, tx: Tx, choice: Choice) {
    var result := Statement(db, {}, tx, choice);
    var atomic := Alone(db, tx.req, choice.now, choice.newId);
    && (result.Fails? ==> atomic == Err(result.error))
    && (result.Commits? ==> atomic == Ok(Apply(db, tx.writes)))
    && (result.Goes? ==> result.tx.req == tx.req && UpToDate(db, result.tx, choice))
  }

  lemma BookStaysUpToDate(db: Db, tx: Tx, choice: Choice)
    requires tx.req.Book? && Established(db, tx) && UpToDate(db, tx, choice)
    ensures OnTrack(db, tx, choice)
  {
    match tx.pc
    case Ready => CommitIsSerial(db, tx);
    case RowLocked =>
      assert Apply(db, tx.writes) == db;
      if HasOverlappingBooking(db, tx.req.user, tx.req.slot, tx.seen.start, tx.seen.end) {
        assert OverlapQuery(db, tx.req);
        assert Alone(db, tx.req, choice.now, choice.newId) == Err(OverlappingBooking);
      }
    case _ =>
  }

  lemma CreateStaysUpToDate(db: Db, tx: Tx, choice: Choice)
    requires tx.req.Create? && Established(db, tx) && UpToDate(db, tx, choice) && SlotsWellFormed(db)
    ensures OnTrack(db, tx, choice)
  {
    if tx.pc == Ready { CommitIsSerial(db, tx); }
    if tx.writes == [] { assert Apply(db, tx.writes) == db; }
    if |tx.writes| == 1 { assert Apply(db, tx.writes) == ApplyOne(db, tx.writes[0]); }
  }

  lemma JoinStaysUpToDate(db: Db, tx: Tx, choice: Choice)
    requires tx.req.Join? && Established(db, tx) && UpToDate(db, tx, choice)
    ensures OnTrack(db, tx, choice)
  {
    if tx.pc == Ready { CommitIsSerial(db, tx); }
    if tx.writes == [] { assert Apply(db, tx.writes) == db; }
    if |tx.writes| == 1 { assert Apply(db, tx.writes) == ApplyOne(db, tx.writes[0]); }
    if tx.pc == Counted && HasOverlappingGame(db, tx.req.user, tx.req.game, tx.seen.start, tx.seen.end) {
      assert OverlapQuery(db, tx.req);
      assert Alone(db, tx.req, choice.now, choice.newId) == Err(OverlappingGame);
    }
  }

  lemma CancelGameStaysUpToDate(db: Db, tx: Tx, choice: Choice)
    requires tx.req.CancelGame? && Established(db, tx) && UpToDate(db, tx, choice)
    requires GamesWellFormed(db)
    ensures OnTrack(db, tx, choice)
  {
    if tx.pc == Ready { CommitIsSerial(db, tx); }
    if tx.writes == [] { assert Apply(db, tx.writes) == db; }
    if |tx.writes| == 1 { assert Apply(db, tx.writes) == ApplyOne(db, tx.writes[0]); }
  }

  lemma OthersStayUpToDate(db: Db, tx: Tx, choice: Choice)
    requires tx.req.CancelBooking? || tx.req.Leave? || tx.req.SetStatus?
    requires Established(db, tx) && UpToDate(db, tx, choice)
    ensures OnTrack(db, tx, choice)
  {
    if tx.pc == Ready { CommitIsSerial(db, tx); }
    if tx.writes == [] { assert Apply(db, tx.writes) == db; }
    if |tx.writes| == 1 { assert Apply(db, tx.writes) == ApplyOne(db, tx.writes[0]); }
  }

  lemma StaysOnTrack(db: Db, tx: Tx, choice: Choice)
    requires Established(db, tx) && UpToDate(db, tx, choice) && Constraints(db)
    ensures OnTrack(db, tx, choice)
  {
    match tx.req
    case Book(_, _, _) => BookStaysUpToDate(db, tx, choice);
    case CancelBooking(_, _, _) => OthersStayUpToDate(db, tx, choice);
    case Create(_, _, _, _) => CreateStaysUpToDate(db, tx, choice);
    case Join(_, _) => JoinStaysUpToDate(db, tx, choice);
    case Leave(_, _) => OthersStayUpToDate(db, tx, choice);
    case CancelGame(_, _) => CancelGameStaysUpToDate(db, tx, choice);
    case SetStatus(_, _, _) => OthersStayUpToDate(db, tx, choice);
  }

  /** `tx` alone in the system. */
  function OnlyTx(db: Db, tx: Tx): State {
    State(db, map[0 := tx], [])
  }

  function Turns(n: nat, choice: Choice): seq<Action> {
    seq(n, i => Run(0, choice))
  }

  /** The end of an uninterrupted run: no transaction left, and the atomic outcome. */
  predicate EndsAs(db: Db, last: State, req: Request, outcome: Outcome) {
    && last.txs == map[]
    && (outcome.Ok? ==> last.db == outcome.value && |last.log| == 1 && last.log[0].req == req)
    && (outcome.Err? ==> last.db == db && last.log == [])
  }

  /** Where the next statement of the only transaction leads. */
  function AfterStatement(db: Db, tx: Tx, choice: Choice): State {
    match Statement(db, {}, tx, choice)
    case Goes(next) => OnlyTx(db, next)
    case Fails(_) => Start(db)
    case Commits => State(Apply(db, tx.writes), map[], [Entry(tx.req, tx.env)])
  }

  lemma OnlyTxSteps(db: Db, tx: Tx, choice: Choice)
    ensures Step(OnlyTx(db, tx), Run(0, choice)) == AfterStatement(db, tx, choice)
  {
    var s := OnlyTx(db, tx);
    assert !Blocked(s, 0) && TakenIds(s, 0) == {};
    assert s.txs - {0} == map[];
    assert forall next: Tx :: map[0 := tx][0 := next] == map[0 := next];
  }

  lemma FirstTurn(s: State, n: nat, choice: Choice)
    ensures Exec(s, Turns(n + 1, choice)) == Exec(Step(s, Run(0, choice)), Turns(n, choice))
  {
    assert Turns(n + 1, choice)[1..] == Turns(n, choice);
  }

  lemma {:induction false} OnlyTxEnds(db: Db, tx: Tx, choice: Choice) returns (n: nat)
    requires Good(db) && Established(db, tx) && UpToDate(db, tx, choice)
    ensures EndsAs(db, Exec(OnlyTx(db, tx), Turns(n, choice)), tx.req, Alone(db, tx.req, choice.now, choice.newId))
    decreases StatementsLeft(tx.pc)
  {
    OnlyTxSteps(db, tx, choice);
    StaysOnTrack(db, tx, choice);
    var result := Statement(db, {}, tx, choice);
    var m: nat := 0;
    if result.Goes? {
      StatementEstablishes(db, {}, tx, choice);
      StatementAdvances(db, {}, tx, choice);
      m := OnlyTxEnds(db, result.tx, choice);
    }
    FirstTurn(OnlyTx(db, tx), m, choice);
    n := m + 1;
  }

  /** Begun alone on a good database, every request runs to its end, committing exactly when
      the atomic transaction succeeds and then leaving the same tables. */
  lemma SoloRunIsAtomic(db: Db, req: Request, choice: Choice) returns (actions: seq<Action>)
    requires Good(db)
    ensures EndsAs(db, Exec(Start(db), actions), req, Alone(db, req, choice.now, choice.newId))
  {
    var n := OnlyTxEnds(db, NewTx(req), choice);
    actions := [Begin(0, req)] + Turns(n, choice);
    assert actions[1..] == Turns(n, choice);
    assert Start(db).txs[0 := NewTx(req)] == OnlyTx(db, NewTx(req)).txs;
  }

  // ── Every serial run is one of the interleavings ──────────────

  /** What was committed before is never looked at. */
  lemma {:induction false} LogIsOnlyAppended(s: State, before: seq<Entry>, actions: seq<Action>)
    ensures Exec(s.(log := before + s.log), actions)
            == Exec(s, actions).(log := before + Exec(s, actions).log)
    decreases |actions|
  {
    if actions != [] {
      var next := Step(s, actions[0]);
      StepAppends(s, before, actions[0]);
      LogIsOnlyAppended(next, before, actions[1..]);
    }
  }

  lemma StepAppends(s: State, before: seq<Entry>, a: Action)
    ensures Step(s.(log := before + s.log), a) == Step(s, a).(log := before + Step(s, a).log)
  {
    var longer := s.(log := before + s.log);
    if a.Run? && a.t in s.txs {
      assert Blocked(longer, a.t) <==> Blocked(s, a.t) by {
        assert forall u :: WaitsFor(longer, a.t, u) <==> WaitsFor(s, a.t, u);
      }
      assert TakenIds(longer, a.t) == TakenIds(s, a.t);
      var e := Entry(s.txs[a.t].req, s.txs[a.t].env);
      assert before + s.log + [e] == before + (s.log + [e]);
    }
  }

  /** The atomic transactions, one after another, are one of the interleavings: whatever a
      serial run reaches, the statement-by-statement system reaches too. */
  lemma {:induction false} SerialRunsAreInterleavings(db: Db, calls: seq<Call>) returns (actions: seq<Action>)
    requires Good(db)
    ensures Exec(Start(db), actions).db == RunSerially(db, calls)
    ensures Exec(Start(db), actions).txs == map[]
    decreases |calls|
  {
    actions := [];
    if calls != [] {
      var c := calls[0];
      actions := SoloRunIsAtomic(db, c.req, Choice(c.now, c.newId));
      var s := Exec(Start(db), actions);
      if Alone(db, c.req, c.now, c.newId).Ok? {
        SerialKeepsGood(db, c.req, Env(c.now, OverlapQuery(db, c.req), c.newId));
      }
      var rest := SerialRunsAreInterleavings(s.db, calls[1..]);
      ExecConcat(Start(db), actions, rest);
      LogIsOnlyAppended(Start(s.db), s.log, rest);
      assert Start(s.db).(log := s.log + Start(s.db).log) == s;
      actions := actions + rest;
    }
  }
}
