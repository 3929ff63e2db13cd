/** Commit-order serialisability: under every interleaving of the seven transactions,
    rollbacks included, the committed database is the one a serial run of the committed
    transactions produces, in the order of their commits. */
module Serialisable {
  import opened Wrappers
  import opened Tables
  import opened Transactions
  import opened Invariants
  import opened LockStep

  // ── What a transaction has established on the committed rows ──

  predicate SeenTimes(db: Db, tx: Tx, s: SlotId)
    requires s in db.slots
  {
    tx.seen.start == db.slots[s].start && tx.seen.end == db.slots[s].end
  }

  predicate BookEstablished(db: Db, tx: Tx, c: CourtId, s: SlotId, u: UserId) {
    && (tx.pc == Begun || tx.pc == RowLocked || tx.pc == Checked || tx.pc == Ready)
    && tx.gameLock == None
    && tx.slotLock == (if tx.pc == Begun then None else Some(s))
    && tx.writes == (if tx.pc == Ready then [SetSlot(s, Booked, Some(u))] else [])
    && (tx.pc != Begun ==> s in db.slots && db.slots[s].court == c && db.slots[s].status == Available
                           && db.slots[s].start > tx.env.now && SeenTimes(db, tx, s))
    && (tx.pc == Checked || tx.pc == Ready ==> !tx.env.overlap)
  }

  predicate CancelBookingEstablished(db: Db, tx: Tx, c: CourtId, s: SlotId, u: UserId) {
    && (tx.pc == Begun || tx.pc == RowLocked || tx.pc == Checked || tx.pc == Ready)
    && tx.gameLock == None
    && tx.slotLock == (if tx.pc == Begun then None else Some(s))
    && tx.writes == (if tx.pc == Ready then [SetSlot(s, Available, None)] else [])
    && (tx.pc != Begun ==> s in db.slots && db.slots[s].court == c && db.slots[s].status == Booked
                           && db.slots[s].bookedBy == Some(u) && db.slots[s].start > tx.env.now)
    && (tx.pc == Checked || tx.pc == Ready ==> !HasActiveGameForSlot(db, s))
  }

  predicate CreateEstablished(db: Db, tx: Tx, s: SlotId, u: UserId, sport: Sport, n: int) {
    var early := tx.pc == Begun || tx.pc == PreRead || tx.pc == CourtChecked;
    var row := Game(s, u, sport, AsI16(n), Open);
    && (early || tx.pc == RowLocked || tx.pc == Checked || tx.pc == RowWritten || tx.pc == Ready)
    && tx.gameLock == None
    && tx.slotLock == (if early then None else Some(s))
    && tx.writes == (if tx.pc == RowWritten then [InsertGame(tx.env.newId, row)]
                     else if tx.pc == Ready then [InsertGame(tx.env.newId, row), AddPlayer(tx.env.newId, u)]
                     else [])
    && (tx.pc != Begun ==> s in db.slots && db.slots[s].court == tx.seen.court)
    && (tx.pc != Begun && tx.pc != PreRead ==> tx.seen.court in db.courts && db.courts[tx.seen.court].sport == sport)
    && (!early ==> db.slots[s].status == Booked && db.slots[s].bookedBy == Some(u))
    && (!early && tx.pc != RowLocked ==> !GameExistsForSlot(db, s))
    && (Inserting(tx) ==> 2 <= AsI16(n) <= 30 && !SlotHasGame(db, s) && tx.env.newId !in db.games)
  }

  predicate JoinEstablished(db: Db, tx: Tx, g: GameId, u: UserId) {
    var early := tx.pc == Begun || tx.pc == PreRead;
    && (early || tx.pc == RowLocked || tx.pc == MemberChecked || tx.pc == Counted || tx.pc == Checked
        || tx.pc == RowWritten || tx.pc == Ready)
    && tx.slotLock == None
    && tx.gameLock == (if early then None else Some(g))
    && (tx.pc != Begun ==> g in db.games && db.games[g].slot in db.slots && SeenTimes(db, tx, db.games[g].slot))
    && (!early ==> db.games[g].status == Open)
    && (!early && tx.pc != RowLocked ==> u !in Members(db, g))
    && (tx.pc == Counted || tx.pc == Checked || tx.pc == RowWritten || tx.pc == Ready
        ==> tx.seen.count == |Members(db, g)| < db.games[g].maxPlayers)
    && (tx.pc == Checked || tx.pc == RowWritten || tx.pc == Ready ==> !tx.env.overlap)
    && (tx.pc == RowWritten ==> tx.seen.count + 1 >= db.games[g].maxPlayers)
    && tx.writes == (if tx.pc == RowWritten then [AddPlayer(g, u)]
                     else if tx.pc == Ready then
                       if tx.seen.count + 1 >= db.games[g].maxPlayers then [AddPlayer(g, u), SetGameStatus(g, Full)]
                       else [AddPlayer(g, u)]
                     else [])
  }

  predicate LeaveEstablished(db: Db, tx: Tx, g: GameId, u: UserId) {
    var early := tx.pc == Begun || tx.pc == PreRead;
    && (early || tx.pc == RowLocked || tx.pc == RowWritten || tx.pc == Ready)
    && tx.slotLock == None
    && tx.gameLock == (if early then None else Some(g))
    && (tx.pc != Begun ==> g in db.games && db.games[g].creator != u)
    && (!early ==> db.games[g].status == tx.seen.status && tx.seen.status != Cancelled && tx.seen.status != Completed)
    && (tx.pc == RowWritten || tx.pc == Ready ==> u in Members(db, g))
    && (tx.pc == RowWritten ==> tx.seen.status == Full)
    && tx.writes == (if tx.pc == RowWritten then [RemovePlayer(g, u)]
                     else if tx.pc == Ready then
                       if tx.seen.status == Full then [RemovePlayer(g, u), SetGameStatus(g, Open)]
                       else [RemovePlayer(g, u)]
                     else [])
  }

  predicate CancelGameEstablished(db: Db, tx: Tx, g: GameId, u: UserId) {
    && (tx.pc == Begun || tx.pc == RowLocked || tx.pc == RowWritten || tx.pc == SlotWritten || tx.pc == Ready)
    && tx.gameLock == (if tx.pc == Begun then None else Some(g))
    && tx.slotLock == (if tx.pc == SlotWritten || tx.pc == Ready then Some(tx.seen.slot) else None)
    && (tx.pc != Begun ==> g in db.games && db.games[g].creator == u && IsActive(db.games[g].status)
                           && db.games[g].slot == tx.seen.slot)
    && (tx.slotLock.Some? ==> tx.seen.slot in db.slots)
    && tx.writes == (if tx.pc == RowWritten then [ClearPlayers(g)]
                     else if tx.pc == SlotWritten then [ClearPlayers(g), SetSlot(tx.seen.slot, Available, None)]
                     else if tx.pc == Ready then
                       [ClearPlayers(g), SetSlot(tx.seen.slot, Available, None), SetGameStatus(g, Cancelled)]
                     else [])
  }

  predicate SetStatusEstablished(db: Db, tx: Tx, g: GameId, u: UserId, target: GameStatus) {
    && (tx.pc == Begun || tx.pc == RowLocked || tx.pc == Ready)
    && tx.slotLock == None
    && tx.gameLock == (if tx.pc == Begun then None else Some(g))
    && (tx.pc != Begun ==> g in db.games && db.games[g].creator == u && ValidTransition(db.games[g].status, target))
    && tx.writes == (if tx.pc == Ready then [SetGameStatus(g, target)] else [])
  }

  predicate Established(db: Db, tx: Tx) {
    match tx.req
    case Book(c, s, u) => BookEstablished(db, tx, c, s, u)
    case CancelBooking(c, s, u) => CancelBookingEstablished(db, tx, c, s, u)
    case Create(s, u, sport, n) => CreateEstablished(db, tx, s, u, sport, n)
    case Join(g, u) => JoinEstablished(db, tx, g, u)
    case Leave(g, u) => LeaveEstablished(db, tx, g, u)
    case CancelGame(g, u) => CancelGameEstablished(db, tx, g, u)
    case SetStatus(g, u, target) => SetStatusEstablished(db, tx, g, u, target)
  }

  lemma BookEstablishes(db: Db, taken: set<GameId>, tx: Tx, choice: Choice)
    requires tx.req.Book? && Established(db, tx) && Constraints(db)
    requires Statement(db, taken, tx, choice).Goes?
    ensures Established(db, Statement(db, taken, tx, choice).tx)
  {}

  lemma CancelBookingEstablishes(db: Db, taken: set<GameId>, tx: Tx, choice: Choice)
    requires tx.req.CancelBooking? && Established(db, tx) && Constraints(db)
    requires Statement(db, taken, tx, choice).Goes?
    ensures Established(db, Statement(db, taken, tx, choice).tx)
  {}

  lemma CreateEstablishes(db: Db, taken: set<GameId>, tx: Tx, choice: Choice)
    requires tx.req.Create? && Established(db, tx) && Constraints(db)
    requires Statement(db, taken, tx, choice).Goes?
    ensures Established(db, Statement(db, taken, tx, choice).tx)
  {}

  lemma JoinEstablishes(db: Db, taken: set<GameId>, tx: Tx, choice: Choice)
    requires tx.req.Join? && Established(db, tx) && Constraints(db)
    requires Statement(db, taken, tx, choice).Goes?
    ensures Established(db, Statement(db, taken, tx, choice).tx)
  {}

  lemma LeaveEstablishes(db: Db, taken: set<GameId>, tx: Tx, choice: Choice)
    requires tx.req.Leave? && Established(db, tx) && Constraints(db)
    requires Statement(db, taken, tx, choice).Goes?
    ensures Established(db, Statement(db, taken, tx, choice).tx)
  {}

  lemma CancelGameEstablishes(db: Db, taken: set<GameId>, tx: Tx, choice: Choice)
    requires tx.req.CancelGame? && Established(db, tx) && Constraints(db)
    requires Statement(db, taken, tx, choice).Goes?
    ensures Established(db, Statement(db, taken, tx, choice).tx)
  {}

  lemma SetStatusEstablishes(db: Db, taken: set<GameId>, tx: Tx, choice: Choice)
    requires tx.req.SetStatus? && Established(db, tx) && Constraints(db)
    requires Statement(db, taken, tx, choice).Goes?
    ensures Established(db, Statement(db, taken, tx, choice).tx)
  {}

  lemma StatementEstablishes(db: Db, taken: set<GameId>, tx: Tx, choice: Choice)
    requires Established(db, tx) && Constraints(db)
    requires Statement(db, taken, tx, choice).Goes?
    ensures Established(db, Statement(db, taken, tx, choice).tx)
  {
    match tx.req
    case Book(_, _, _) => BookEstablishes(db, taken, tx, choice);
    case CancelBooking(_, _, _) => CancelBookingEstablishes(db, taken, tx, choice);
    case Create(_, _, _, _) => CreateEstablishes(db, taken, tx, choice);
    case Join(_, _) => JoinEstablishes(db, taken, tx, choice);
    case Leave(_, _) => LeaveEstablishes(db, taken, tx, choice);
    case CancelGame(_, _) => CancelGameEstablishes(db, taken, tx, choice);
    case SetStatus(_, _, _) => SetStatusEstablishes(db, taken, tx, choice);
  }

  // ── The buffered writes at commit are the serial outcome ──────

  lemma ApplyTwo(db: Db, a: Write, b: Write)
    ensures Apply(db, [a, b]) == ApplyOne(ApplyOne(db, a), b)
  {
    var next := ApplyOne(db, a);
    assert [a, b][1..] == [b] && [b][1..] == [];
    assert Apply(next, [b]) == Apply(ApplyOne(next, b), []);
  }

  lemma ApplyThree(db: Db, a: Write, b: Write, c: Write)
    ensures Apply(db, [a, b, c]) == ApplyOne(ApplyOne(ApplyOne(db, a), b), c)
  {
    assert [a, b, c][1..] == [b, c];
    ApplyTwo(ApplyOne(db, a), b, c);
  }

  lemma CreateCommitIsSerial(db: Db, tx: Tx)
    requires tx.req.Create? && Established(db, tx) && tx.pc == Ready
    ensures Serial(db, tx.req, tx.env) == Ok(Apply(db, tx.writes))
  {
    ApplyTwo(db, tx.writes[0], tx.writes[1]);
    var g, u := tx.env.newId, tx.req.user;
    var nobody: set<UserId> := {};
    assert nobody + {u} == {u};
    assert db.players[g := nobody][g := {u}] == db.players[g := {u}];
  }

  lemma JoinCommitIsSerial(db: Db, tx: Tx)
    requires tx.req.Join? && Established(db, tx) && tx.pc == Ready
    ensures Serial(db, tx.req, tx.env) == Ok(Apply(db, tx.writes))
  {
    if |tx.writes| == 2 { ApplyTwo(db, tx.writes[0], tx.writes[1]); }
  }

  lemma LeaveCommitIsSerial(db: Db, tx: Tx)
    requires tx.req.Leave? && Established(db, tx) && tx.pc == Ready
    ensures Serial(db, tx.req, tx.env) == Ok(Apply(db, tx.writes))
  {
    if |tx.writes| == 2 { ApplyTwo(db, tx.writes[0], tx.writes[1]); }
  }

  lemma CancelGameCommitIsSerial(db: Db, tx: Tx)
    requires tx.req.CancelGame? && Established(db, tx) && tx.pc == Ready
    ensures Serial(db, tx.req, tx.env) == Ok(Apply(db, tx.writes))
  {
    ApplyThree(db, tx.writes[0], tx.writes[1], tx.writes[2]);
  }

  lemma CommitIsSerial(db: Db, tx: Tx)
    requires Established(db, tx) && tx.pc == Ready
    ensures Serial(db, tx.req, tx.env) == Ok(Apply(db, tx.writes))
  {
    match tx.req
    case Book(_, _, _) =>
    case CancelBooking(_, _, _) =>
    case Create(_, _, _, _) => CreateCommitIsSerial(db, tx);
    case Join(_, _) => JoinCommitIsSerial(db, tx);
    case Leave(_, _) => LeaveCommitIsSerial(db, tx);
    case CancelGame(_, _) => CancelGameCommitIsSerial(db, tx);
    case SetStatus(_, _, _) =>
  }

  // ── What other transactions' commits leave alone ──────────────

  predicate Terminal(status: GameStatus) {
    status == Completed || status == Cancelled
  }

  /** From `db` to `later` nothing changed that `tx` relies on: columns no transaction
      writes, games that are over, and whatever `tx` has locked or is inserting. */
  predicate Undisturbed(db: Db, later: Db, tx: Tx) {
    && later.courts == db.courts
    && later.slots.Keys == db.slots.Keys
    && (forall s :: s in db.slots ==> later.slots[s].court == db.slots[s].court
                                      && later.slots[s].start == db.slots[s].start
                                      && later.slots[s].end == db.slots[s].end)
    && (forall g :: g in db.games ==> g in later.games && later.games[g] == db.games[g].(status := later.games[g].status)
                                      && (Terminal(db.games[g].status) ==> later.games[g] == db.games[g]))
    && (tx.slotLock.Some? && tx.slotLock.value in db.slots ==>
          later.slots[tx.slotLock.value] == db.slots[tx.slotLock.value])
    && (tx.slotLock.Some? ==>
          forall g :: g in later.games && g !in db.games ==> later.games[g].slot != tx.slotLock.value)
    && (tx.gameLock.Some? && tx.gameLock.value in db.games ==>
          later.games[tx.gameLock.value] == db.games[tx.gameLock.value]
          && Members(later, tx.gameLock.value) == Members(db, tx.gameLock.value))
    && (Inserting(tx) && tx.env.newId !in db.games ==> tx.env.newId !in later.games)
  }

  lemma EstablishedSurvives(db: Db, later: Db, tx: Tx)
    requires Established(db, tx) && Undisturbed(db, later, tx)
    ensures Established(later, tx)
  {
    match tx.req
    case Book(_, _, _) =>
    case CancelBooking(_, s, _) =>
      assert tx.slotLock == Some(s) ==> forall g :: g in later.games && later.games[g].slot == s ==> g in db.games;
    case Create(s, _, _, _) =>
      assert tx.slotLock == Some(s) ==> forall g :: g in later.games && later.games[g].slot == s ==> g in db.games;
    case Join(_, _) =>
    case Leave(_, _) =>
    case CancelGame(_, _) =>
    case SetStatus(_, _, _) =>
  }

  predicate Apart(a: Tx, b: Tx) {
    && (a.slotLock.Some? ==> a.slotLock != b.slotLock)
    && (a.gameLock.Some? ==> a.gameLock != b.gameLock)
    && (Inserting(a) && Inserting(b) ==> a.env.newId != b.env.newId)
  }

  lemma BookingUndisturbs(db: Db, done: Tx, tx: Tx)
    requires done.req.Book? || done.req.CancelBooking?
    requires Established(db, done) && done.pc == Ready && Apart(done, tx)
    ensures Undisturbed(db, Apply(db, done.writes), tx)
  {
    CommitIsSerial(db, done);
  }

  /** The inserted row is new, and `tx` has locked existing games only. */
  lemma CreateUndisturbs(db: Db, done: Tx, tx: Tx)
    requires done.req.Create? && Established(db, done) && done.pc == Ready && Apart(done, tx)
    requires tx.gameLock.Some? ==> tx.gameLock.value in db.games
    ensures Undisturbed(db, Apply(db, done.writes), tx)
  {
    CommitIsSerial(db, done);
  }

  lemma JoinUndisturbs(db: Db, done: Tx, tx: Tx)
    requires done.req.Join? && Established(db, done) && done.pc == Ready && Apart(done, tx)
    ensures Undisturbed(db, Apply(db, done.writes), tx)
  {
    CommitIsSerial(db, done);
  }

  lemma LeaveUndisturbs(db: Db, done: Tx, tx: Tx)
    requires done.req.Leave? && Established(db, done) && done.pc == Ready && Apart(done, tx)
    ensures Undisturbed(db, Apply(db, done.writes), tx)
  {
    CommitIsSerial(db, done);
  }

  lemma CancelGameUndisturbs(db: Db, done: Tx, tx: Tx)
    requires done.req.CancelGame? && Established(db, done) && done.pc == Ready && Apart(done, tx)
    ensures Undisturbed(db, Apply(db, done.writes), tx)
  {
    CommitIsSerial(db, done);
  }

  lemma SetStatusUndisturbs(db: Db, done: Tx, tx: Tx)
    requires done.req.SetStatus? && Established(db, done) && done.pc == Ready && Apart(done, tx)
    ensures Undisturbed(db, Apply(db, done.writes), tx)
  {
    CommitIsSerial(db, done);
  }

  lemma CommitUndisturbs(db: Db, done: Tx, tx: Tx)
    requires Established(db, done) && done.pc == Ready && Established(db, tx) && Apart(done, tx)
    ensures Undisturbed(db, Apply(db, done.writes), tx)
  {
    match done.req
    case Book(_, _, _) => BookingUndisturbs(db, done, tx);
    case CancelBooking(_, _, _) => BookingUndisturbs(db, done, tx);
    case Create(_, _, _, _) => CreateUndisturbs(db, done, tx);
    case Join(_, _) => JoinUndisturbs(db, done, tx);
    case Leave(_, _) => LeaveUndisturbs(db, done, tx);
    case CancelGame(_, _) => CancelGameUndisturbs(db, done, tx);
    case SetStatus(_, _, _) => SetStatusUndisturbs(db, done, tx);
  }

  // ── The invariant of the interleaved runs ─────────────────────

  ghost predicate Sound(first: Db, s: State) {
    && Good(s.db)
    && Replay(first, s.log) == Some(s.db)
    && (forall t :: t in s.txs ==> Established(s.db, s.txs[t]))
    && (forall t, u :: t in s.txs && u in s.txs && t != u ==> Apart(s.txs[t], s.txs[u]))
  }

  lemma StartIsSound(first: Db)
    requires Initial(first)
    ensures Sound(first, Start(first))
  {
    InitialIsGood(first);
  }

  /** A statement takes only the lock it waited for, and a generated id nobody else has. */
  lemma StatementTakesItsNeed(db: Db, taken: set<GameId>, tx: Tx, choice: Choice)
    requires Established(db, tx) && Statement(db, taken, tx, choice).Goes?
    ensures
      var next := Statement(db, taken, tx, choice).tx;
      && (next.slotLock != tx.slotLock ==> next.slotLock.Some? && NeedOf(db, tx) == SlotRow(next.slotLock.value))
      && (next.gameLock != tx.gameLock ==> next.gameLock.Some? && NeedOf(db, tx) == GameRow(next.gameLock.value))
      && (Inserting(next) && !Inserting(tx) ==> next.env.newId !in taken)
      && (Inserting(tx) ==> next.env.newId == tx.env.newId)
  {
    match tx.req
    case Book(_, _, _) =>
    case CancelBooking(_, _, _) =>
    case Create(_, _, _, _) =>
    case Join(_, _) =>
    case Leave(_, _) =>
    case CancelGame(_, _) =>
    case SetStatus(_, _, _) =>
  }

  lemma GoesKeepsSound(first: Db, s: State, t: TxId, choice: Choice)
    requires Sound(first, s) && t in s.txs && !Blocked(s, t)
    requires Statement(s.db, TakenIds(s, t), s.txs[t], choice).Goes?
    ensures Sound(first, RunOne(s, t, choice))
  {
    var tx := s.txs[t];
    var next := Statement(s.db, TakenIds(s, t), tx, choice).tx;
    StatementEstablishes(s.db, TakenIds(s, t), tx, choice);
    StatementTakesItsNeed(s.db, TakenIds(s, t), tx, choice);
    forall u | u in s.txs && u != t
      ensures Apart(next, s.txs[u]) && Apart(s.txs[u], next)
    {
      assert !WaitsFor(s, t, u);
      assert Apart(tx, s.txs[u]) && Apart(s.txs[u], tx);
      assert Inserting(s.txs[u]) ==> s.txs[u].env.newId in TakenIds(s, t);
    }
  }

  lemma CommitKeepsSound(first: Db, s: State, t: TxId)
    requires Sound(first, s) && t in s.txs && s.txs[t].pc == Ready
    ensures Sound(first, State(Apply(s.db, s.txs[t].writes), s.txs - {t}, s.log + [Entry(s.txs[t].req, s.txs[t].env)]))
  {
    var tx := s.txs[t];
    CommitIsSerial(s.db, tx);
    SerialKeepsGood(s.db, tx.req, tx.env);
    ReplaySnoc(first, s.log, Entry(tx.req, tx.env));
    forall u | u in s.txs && u != t
      ensures Established(Apply(s.db, tx.writes), s.txs[u])
    {
      CommitUndisturbs(s.db, tx, s.txs[u]);
      EstablishedSurvives(s.db, Apply(s.db, tx.writes), s.txs[u]);
    }
  }

  lemma CommitsOnlyWhenReady(db: Db, taken: set<GameId>, tx: Tx, choice: Choice)
    requires Established(db, tx)
    ensures Statement(db, taken, tx, choice).Commits? <==> tx.pc == Ready
  {
    match tx.req
    case Book(_, _, _) =>
    case CancelBooking(_, _, _) =>
    case Create(_, _, _, _) =>
    case Join(_, _) =>
    case Leave(_, _) =>
    case CancelGame(_, _) =>
    case SetStatus(_, _, _) =>
  }

  lemma StepKeepsSound(first: Db, s: State, a: Action)
    requires Sound(first, s)
    ensures Sound(first, Step(s, a))
  {
    match a
    case Begin(t, req) =>
      assert Established(s.db, NewTx(req));
    case Abort(t) =>
    case Run(t, choice) =>
      if t in s.txs && !Blocked(s, t) {
        match Statement(s.db, TakenIds(s, t), s.txs[t], choice)
        case Fails(_) =>
        case Goes(_) => GoesKeepsSound(first, s, t, choice);
        case Commits =>
          CommitsOnlyWhenReady(s.db, TakenIds(s, t), s.txs[t], choice);
          CommitKeepsSound(first, s, t);
      }
  }

  lemma {:induction false} ExecKeepsSound(first: Db, s: State, actions: seq<Action>)
    requires Sound(first, s)
    ensures Sound(first, Exec(s, actions))
    decreases |actions|
  {
    if actions != [] {
      StepKeepsSound(first, s, actions[0]);
      ExecKeepsSound(first, Step(s, actions[0]), actions[1..]);
    }
  }

  /** Commit-order serialisability: whatever the interleaving, the committed database is
      the outcome of running the committed transactions one after another in commit order,
      none of them refused, with the clock, uuid and overlap answer each of them saw. */
  lemma InterleavingsAreSerial(first: Db, actions: seq<Action>)
    requires Initial(first)
    ensures
      var last := Exec(Start(first), actions);
      Replay(first, last.log) == Some(last.db)
  {
    StartIsSound(first);
    ExecKeepsSound(first, Start(first), actions);
  }
}
