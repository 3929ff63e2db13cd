/** The seven transactions as PostgreSQL runs them side by side under READ COMMITTED: one
    SQL statement is one step, `FOR UPDATE` and `UPDATE` take row locks that last until
    commit or rollback, every statement reads the latest committed rows plus the
    transaction's own writes, and nobody else sees those writes before the commit. */
module LockStep {
  import opened Wrappers
  import opened Tables
  import opened Transactions

  type TxId = nat

  datatype Write =
    | SetSlot(slot: SlotId, slotStatus: SlotStatus, booker: Option<UserId>)
    | InsertGame(game: GameId, row: Game)
    | SetGameStatus(game: GameId, status: GameStatus)
    | AddPlayer(game: GameId, user: UserId)
    | RemovePlayer(game: GameId, user: UserId)
    | ClearPlayers(game: GameId)

  function ApplyOne(db: Db, w: Write): Db {
    match w
    case SetSlot(s, status, booker) => if s in db.slots then WithSlot(db, s, status, booker) else db
    case InsertGame(g, row) => WithPlayers(db.(games := db.games[g := row]), g, {})
    case SetGameStatus(g, status) => if g in db.games then WithStatus(db, g, status) else db
    case AddPlayer(g, u) => WithPlayers(db, g, Members(db, g) + {u})
    case RemovePlayer(g, u) => WithPlayers(db, g, Members(db, g) - {u})
    case ClearPlayers(g) => WithPlayers(db, g, {})
  }

  /** `db` as a transaction with the uncommitted `writes` sees it. */
  function Apply(db: Db, writes: seq<Write>): Db
    decreases |writes|
  {
    if writes == [] then db else Apply(ApplyOne(db, writes[0]), writes[1..])
  }

  /** How far a transaction has come; which steps it takes depends on its request. */
  datatype Pc =
    | Begun | PreRead | CourtChecked | RowLocked | MemberChecked | Counted | Checked
    | RowWritten | SlotWritten | Ready

  /** What earlier statements read into local variables. */
  datatype Seen = Seen(slot: SlotId, court: CourtId, start: int, end: int, count: nat, status: GameStatus)

  datatype Tx = Tx(
    req: Request,
    pc: Pc,
    writes: seq<Write>,
    env: Env,
    slotLock: Option<SlotId>,
    gameLock: Option<GameId>,
    seen: Seen)

  function NewTx(req: Request): Tx {
    Tx(req, Begun, [], Env(0, false, 0), None, None, Seen(0, 0, 0, 0, 0, Open))
  }

  /** What the world answers to one statement: the clock and a generated uuid. */
  datatype Choice = Choice(now: int, newId: GameId)

  // ── Waiting ───────────────────────────────────────────────────

  datatype Need = Nothing | SlotRow(s: SlotId) | GameRow(g: GameId) | SlotIndex(i: SlotId)

  /** The lock the next statement must get before it can run. */
  function NeedOf(db: Db, tx: Tx): Need {
    match tx.req
    case Book(c, s, _) =>
      if tx.pc == Begun && s in db.slots && db.slots[s].court == c then SlotRow(s) else Nothing
    case CancelBooking(c, s, _) =>
      if tx.pc == Begun && s in db.slots && db.slots[s].court == c then SlotRow(s) else Nothing
    case Create(s, _, _, _) =>
      if tx.pc == CourtChecked && s in db.slots && db.slots[s].court == tx.seen.court then SlotRow(s)
      else if tx.pc == Checked then SlotIndex(s)
      else Nothing
    case Join(g, _) => if tx.pc == PreRead && g in db.games then GameRow(g) else Nothing
    case Leave(g, _) => if tx.pc == PreRead && g in db.games then GameRow(g) else Nothing
    case CancelGame(g, _) =>
      if tx.pc == Begun && g in db.games then GameRow(g)
      else if tx.pc == RowWritten then SlotRow(tx.seen.slot)
      else Nothing
    case SetStatus(g, _, _) => if tx.pc == Begun && g in db.games then GameRow(g) else Nothing
  }

  /** An insert into a unique index waits for whoever has an uncommitted version of a row
      with the same key: one inserted or one updated. */
  predicate WritesGameOf(db: Db, tx: Tx, s: SlotId) {
    exists i :: 0 <= i < |tx.writes|
                && ((tx.writes[i].InsertGame? && tx.writes[i].row.slot == s)
                    || (tx.writes[i].SetGameStatus? && tx.writes[i].game in db.games
                        && db.games[tx.writes[i].game].slot == s))
  }

  predicate InTheWay(db: Db, need: Need, other: Tx) {
    match need
    case Nothing => false
    case SlotRow(s) => other.slotLock == Some(s)
    case GameRow(g) => other.gameLock == Some(g)
    case SlotIndex(s) => WritesGameOf(db, other, s)
  }

  // ── One statement ─────────────────────────────────────────────

  datatype StepResult = Fails(error: Error) | Goes(tx: Tx) | Commits

  predicate Inserting(tx: Tx) {
    tx.req.Create? && (tx.pc == RowWritten || tx.pc == Ready)
  }

  function BookStatement(db: Db, tx: Tx, c: CourtId, s: SlotId, u: UserId, choice: Choice): StepResult {
    var view := Apply(db, tx.writes);
    match tx.pc
    case Begun =>
      if s !in view.slots || view.slots[s].court != c then Fails(RowNotFound)
      else if view.slots[s].status != Available then Fails(SlotTaken)
      else if view.slots[s].start <= choice.now then Fails(PastSlot)
      else Goes(tx.(pc := RowLocked, slotLock := Some(s), env := tx.env.(now := choice.now),
                    seen := tx.seen.(start := view.slots[s].start, end := view.slots[s].end)))
    case RowLocked =>
      if HasOverlappingBooking(view, u, s, tx.seen.start, tx.seen.end) then Fails(OverlappingBooking)
      else Goes(tx.(pc := Checked, env := tx.env.(overlap := false)))
    case Checked => Goes(tx.(pc := Ready, writes := tx.writes + [SetSlot(s, Booked, Some(u))]))
    case _ => Commits
  }

  function CancelBookingStatement(db: Db, tx: Tx, c: CourtId, s: SlotId, u: UserId, choice: Choice): StepResult {
    var view := Apply(db, tx.writes);
    match tx.pc
    case Begun =>
      if s !in view.slots || view.slots[s].court != c then Fails(RowNotFound)
      else if view.slots[s].status != Booked then Fails(NotBooked)
      else if view.slots[s].bookedBy != Some(u) then Fails(NotBooker)
      else if view.slots[s].start <= choice.now then Fails(PastSlot)
      else Goes(tx.(pc := RowLocked, slotLock := Some(s), env := tx.env.(now := choice.now)))
    case RowLocked =>
      if HasActiveGameForSlot(view, s) then Fails(ActiveGame) else Goes(tx.(pc := Checked))
    case Checked => Goes(tx.(pc := Ready, writes := tx.writes + [SetSlot(s, Available, None)]))
    case _ => Commits
  }

  /** `taken` are the game ids of uncommitted inserts of other transactions. */
  function CreateStatement(db: Db, taken: set<GameId>, tx: Tx, s: SlotId, u: UserId, sport: Sport, n: int, choice: Choice)
    : StepResult
  {
    var view := Apply(db, tx.writes);
    match tx.pc
    case Begun =>
      // On the pool, before the transaction begins.
      if s !in db.slots then Fails(RowNotFound)
      else if db.slots[s].status != Booked then Fails(NotBooked)
      else if db.slots[s].bookedBy != Some(u) then Fails(NotBooker)
      else Goes(tx.(pc := PreRead, seen := tx.seen.(court := db.slots[s].court)))
    case PreRead =>
      if tx.seen.court !in db.courts then Fails(RowNotFound)
      else if db.courts[tx.seen.court].sport != sport then Fails(SportMismatch)
      else Goes(tx.(pc := CourtChecked))
    case CourtChecked =>
      if s !in view.slots || view.slots[s].court != tx.seen.court then Fails(RowNotFound)
      else if view.slots[s].status != Booked then Fails(NotBooked)
      else if view.slots[s].bookedBy != Some(u) then Fails(NotBooker)
      else Goes(tx.(pc := RowLocked, slotLock := Some(s)))
    case RowLocked =>
      if GameExistsForSlot(view, s) then Fails(GameExists) else Goes(tx.(pc := Checked))
    case Checked =>
      if !(2 <= AsI16(n) <= 30) then Fails(CheckViolation)
      else if SlotHasGame(view, s) || choice.newId in view.games || choice.newId in taken then Fails(UniqueViolation)
      else Goes(tx.(pc := RowWritten, env := tx.env.(newId := choice.newId),
                    writes := tx.writes + [InsertGame(choice.newId, Game(s, u, sport, AsI16(n), Open))]))
    case RowWritten =>
      if tx.env.newId !in view.games then Fails(RowNotFound)
      else if u in Members(view, tx.env.newId) then Fails(UniqueViolation)
      else Goes(tx.(pc := Ready, writes := tx.writes + [AddPlayer(tx.env.newId, u)]))
    case _ => Commits
  }

  function JoinStatement(db: Db, tx: Tx, g: GameId, u: UserId): StepResult {
    var view := Apply(db, tx.writes);
    match tx.pc
    case Begun =>
      if g !in view.games || view.games[g].slot !in view.slots then Fails(RowNotFound)
      else
        var slot := view.slots[view.games[g].slot];
        Goes(tx.(pc := PreRead, seen := tx.seen.(start := slot.start, end := slot.end)))
    case PreRead =>
      if g !in view.games then Fails(RowNotFound)
      else if view.games[g].status != Open then Fails(NotOpen)
      else Goes(tx.(pc := RowLocked, gameLock := Some(g)))
    case RowLocked =>
      if u in Members(view, g) then Fails(AlreadyJoined) else Goes(tx.(pc := MemberChecked))
    case MemberChecked =>
      if g !in view.games then Fails(RowNotFound)
      else if |Members(view, g)| >= view.games[g].maxPlayers then Fails(GameFull)
      else Goes(tx.(pc := Counted, seen := tx.seen.(count := |Members(view, g)|)))
    case Counted =>
      if HasOverlappingGame(view, u, g, tx.seen.start, tx.seen.end) then Fails(OverlappingGame)
      else Goes(tx.(pc := Checked, env := tx.env.(overlap := false)))
    case Checked =>
      if g !in view.games then Fails(RowNotFound)
      else if u in Members(view, g) then Fails(UniqueViolation)
      else Goes(tx.(pc := if tx.seen.count + 1 >= view.games[g].maxPlayers then RowWritten else Ready,
                    writes := tx.writes + [AddPlayer(g, u)]))
    case RowWritten => Goes(tx.(pc := Ready, writes := tx.writes + [SetGameStatus(g, Full)]))
    case _ => Commits
  }

  function LeaveStatement(db: Db, tx: Tx, g: GameId, u: UserId): StepResult {
    var view := Apply(db, tx.writes);
    match tx.pc
    case Begun =>
      // On the pool, before the transaction begins.
      if g !in db.games then Fails(RowNotFound)
      else if db.games[g].creator == u then Fails(CreatorCannotLeave)
      else Goes(tx.(pc := PreRead))
    case PreRead =>
      if g !in view.games then Fails(RowNotFound)
      else if view.games[g].status == Cancelled || view.games[g].status == Completed then Fails(GameClosed)
      else Goes(tx.(pc := RowLocked, gameLock := Some(g), seen := tx.seen.(status := view.games[g].status)))
    case RowLocked =>
      if u !in Members(view, g) then Fails(RowNotFound)
      else Goes(tx.(pc := if tx.seen.status == Full then RowWritten else Ready,
                    writes := tx.writes + [RemovePlayer(g, u)]))
    case RowWritten => Goes(tx.(pc := Ready, writes := tx.writes + [SetGameStatus(g, Open)]))
    case _ => Commits
  }

  function CancelGameStatement(db: Db, tx: Tx, g: GameId, u: UserId): StepResult {
    var view := Apply(db, tx.writes);
    match tx.pc
    case Begun =>
      if g !in view.games then Fails(RowNotFound)
      else if view.games[g].creator != u then Fails(NotCreator)
      else if view.games[g].status == Cancelled then Fails(AlreadyCancelled)
      else if view.games[g].status == Completed then Fails(AlreadyCompleted)
      else Goes(tx.(pc := RowLocked, gameLock := Some(g), seen := tx.seen.(slot := view.games[g].slot)))
    case RowLocked => Goes(tx.(pc := RowWritten, writes := tx.writes + [ClearPlayers(g)]))
    case RowWritten =>
      // The UPDATE takes the slot's row lock; `booked_by` is not looked at.
      if tx.seen.slot !in view.slots then Fails(RowNotFound)
      else Goes(tx.(pc := SlotWritten, slotLock := Some(tx.seen.slot),
                    writes := tx.writes + [SetSlot(tx.seen.slot, Available, None)]))
    case SlotWritten => Goes(tx.(pc := Ready, writes := tx.writes + [SetGameStatus(g, Cancelled)]))
    case _ => Commits
  }

  function SetStatusStatement(db: Db, tx: Tx, g: GameId, u: UserId, target: GameStatus): StepResult {
    var view := Apply(db, tx.writes);
    match tx.pc
    case Begun =>
      if g !in view.games then Fails(RowNotFound)
      else if view.games[g].creator != u then Fails(NotCreator)
      else if !ValidTransition(view.games[g].status, target) then Fails(BadTransition)
      else Goes(tx.(pc := RowLocked, gameLock := Some(g)))
    case RowLocked => Goes(tx.(pc := Ready, writes := tx.writes + [SetGameStatus(g, target)]))
    case _ => Commits
  }

  function Statement(db: Db, taken: set<GameId>, tx: Tx, choice: Choice): StepResult {
    match tx.req
    case Book(c, s, u) => BookStatement(db, tx, c, s, u, choice)
    case CancelBooking(c, s, u) => CancelBookingStatement(db, tx, c, s, u, choice)
    case Create(s, u, sport, n) => CreateStatement(db, taken, tx, s, u, sport, n, choice)
    case Join(g, u) => JoinStatement(db, tx, g, u)
    case Leave(g, u) => LeaveStatement(db, tx, g, u)
    case CancelGame(g, u) => CancelGameStatement(db, tx, g, u)
    case SetStatus(g, u, target) => SetStatusStatement(db, tx, g, u, target)
  }

  // ── Runs ──────────────────────────────────────────────────────

  /** `log` records the committed transactions in commit order. */
  datatype State = State(db: Db, txs: map<TxId, Tx>, log: seq<Entry>)

  datatype Action =
    | Begin(t: TxId, req: Request)
    | Run(t: TxId, choice: Choice)
    | Abort(t: TxId)

  predicate WaitsFor(s: State, t: TxId, u: TxId) {
    t in s.txs && u in s.txs && t != u && InTheWay(s.db, NeedOf(s.db, s.txs[t]), s.txs[u])
  }

  predicate Blocked(s: State, t: TxId) {
    exists u :: u in s.txs && WaitsFor(s, t, u)
  }

  function TakenIds(s: State, t: TxId): set<GameId> {
    set u | u in s.txs && u != t && Inserting(s.txs[u]) :: s.txs[u].env.newId
  }

  /** The next statement of `t`, or nothing while `t` waits. An error rolls back. */
  function RunOne(s: State, t: TxId, choice: Choice): State {
    if t !in s.txs || Blocked(s, t) then s
    else
      match Statement(s.db, TakenIds(s, t), s.txs[t], choice)
      case Fails(_) => s.(txs := s.txs - {t})
      case Goes(tx) => s.(txs := s.txs[t := tx])
      case Commits =>
        State(Apply(s.db, s.txs[t].writes), s.txs - {t}, s.log + [Entry(s.txs[t].req, s.txs[t].env)])
  }

  function Step(s: State, a: Action): State {
    match a
    case Begin(t, req) => if t in s.txs then s else s.(txs := s.txs[t := NewTx(req)])
    case Run(t, choice) => RunOne(s, t, choice)
    case Abort(t) => s.(txs := s.txs - {t})
  }

  function Start(db: Db): State {
    State(db, map[], [])
  }

  function Exec(s: State, actions: seq<Action>): State
    decreases |actions|
  {
    if actions == [] then s else Exec(Step(s, actions[0]), actions[1..])
  }

  lemma {:induction false} ExecConcat(s: State, actions: seq<Action>, more: seq<Action>)
    ensures Exec(s, actions + more) == Exec(Exec(s, actions), more)
    decreases |actions|
  {
    if actions == [] {
      assert actions + more == more;
    } else {
      assert (actions + more)[1..] == actions[1..] + more;
      ExecConcat(Step(s, actions[0]), actions[1..], more);
    }
  }

  lemma ExecOneMore(s: State, actions: seq<Action>, a: Action)
    ensures Exec(s, actions + [a]) == Step(Exec(s, actions), a)
  {
    ExecConcat(s, actions, [a]);
    assert [a][1..] == [];
  }
}
