/** Refused requests under interleaving: every error is the one the atomic transaction would
    have returned at some moment while the request was under way. */
module Refusals {
  import opened Wrappers
  import opened Tables
  import opened Transactions
  import opened LockStep
  import opened Serialisable
  import opened Guarantees

  /** The clock a transaction goes by: it is read once, right after the row is locked. */
  function ClockOf(tx: Tx, choice: Choice): int {
    if tx.pc == Begun then choice.now else tx.env.now
  }

  predicate FailsAs(db: Db, taken: set<GameId>, tx: Tx, choice: Choice, at: Db) {
    var result := Statement(db, taken, tx, choice);
    result.Fails? ==>
      || Alone(at, tx.req, ClockOf(tx, choice), choice.newId) == Err(result.error)
      || (result.error == UniqueViolation && choice.newId in taken)
  }

  lemma BookFailsAtomically(db: Db, taken: set<GameId>, tx: Tx, choice: Choice)
    requires tx.req.Book? && Established(db, tx)
    ensures FailsAs(db, taken, tx, choice, db)
  {
    if tx.pc == Begun || tx.pc == RowLocked {
      assert Apply(db, tx.writes) == db;
    }
  }

  lemma CreateFailsAtomically(db: Db, taken: set<GameId>, tx: Tx, choice: Choice)
    requires tx.req.Create? && tx.pc != PreRead && Established(db, tx)
    ensures FailsAs(db, taken, tx, choice, db)
  {
    if tx.writes == [] { assert Apply(db, tx.writes) == db; }
    if |tx.writes| == 1 { assert Apply(db, tx.writes) == ApplyOne(db, tx.writes[0]); }
  }

  lemma JoinFailsAtomically(db: Db, taken: set<GameId>, tx: Tx, choice: Choice)
    requires tx.req.Join? && Established(db, tx)
    ensures FailsAs(db, taken, tx, choice, db)
  {
    if tx.writes == [] { assert Apply(db, tx.writes) == db; }
  }

  lemma OthersFailAtomically(db: Db, taken: set<GameId>, tx: Tx, choice: Choice)
    requires tx.req.CancelBooking? || tx.req.Leave? || tx.req.SetStatus?
    requires Established(db, tx)
    ensures FailsAs(db, taken, tx, choice, db)
  {
    if tx.writes == [] { assert Apply(db, tx.writes) == db; }
  }

  lemma CancelGameFailsAtomically(db: Db, taken: set<GameId>, tx: Tx, choice: Choice)
    requires tx.req.CancelGame? && Established(db, tx) && GamesWellFormed(db)
    ensures FailsAs(db, taken, tx, choice, db)
  {
    if tx.writes == [] { assert Apply(db, tx.writes) == db; }
    if |tx.writes| == 1 { assert Apply(db, tx.writes) == ApplyOne(db, tx.writes[0]); }
  }

  /** Except for one statement of `create_game`, the moment is that of the failure itself. */
  lemma FailsAtomically(db: Db, taken: set<GameId>, tx: Tx, choice: Choice)
    requires Established(db, tx) && GamesWellFormed(db) && !(tx.req.Create? && tx.pc == PreRead)
    ensures FailsAs(db, taken, tx, choice, db)
  {
    match tx.req
    case Book(_, _, _) => BookFailsAtomically(db, taken, tx, choice);
    case CancelBooking(_, _, _) => OthersFailAtomically(db, taken, tx, choice);
    case Create(_, _, _, _) => CreateFailsAtomically(db, taken, tx, choice);
    case Join(_, _) => JoinFailsAtomically(db, taken, tx, choice);
    case Leave(_, _) => OthersFailAtomically(db, taken, tx, choice);
    case CancelGame(_, _) => CancelGameFailsAtomically(db, taken, tx, choice);
    case SetStatus(_, _, _) => OthersFailAtomically(db, taken, tx, choice);
  }

  // ── The sport check of `create_game` ──────────────────────────

  /** What the read before the transaction saw: the slot on `court`, booked by `u`. */
  predicate BookedOn(db: Db, s: SlotId, u: UserId, court: CourtId) {
    s in db.slots && db.slots[s].status == Booked && db.slots[s].bookedBy == Some(u) && db.slots[s].court == court
  }

  /** The sport check looks at no row that is locked. It fails as the atomic transaction would
      have at the moment of the read before it. */
  lemma SportFailsAsAtRead(db: Db, taken: set<GameId>, tx: Tx, choice: Choice, at: Db)
    requires tx.req.Create? && tx.pc == PreRead && Established(db, tx) && SlotsWellFormed(db)
    requires BookedOn(at, tx.req.slot, tx.req.user, tx.seen.court) && at.courts == db.courts
    ensures FailsAs(db, taken, tx, choice, at)
  {}

  lemma {:induction false} ApplyKeepsCourts(db: Db, writes: seq<Write>)
    ensures Apply(db, writes).courts == db.courts
    decreases |writes|
  {
    if writes != [] {
      ApplyKeepsCourts(ApplyOne(db, writes[0]), writes[1..]);
    }
  }

  lemma StepKeepsCourts(s: State, a: Action)
    ensures Step(s, a).db.courts == s.db.courts
  {
    if a.Run? && a.t in s.txs {
      ApplyKeepsCourts(s.db, s.txs[a.t].writes);
    }
  }

  lemma {:induction false} ExecKeepsCourts(s: State, actions: seq<Action>)
    ensures Exec(s, actions).db.courts == s.db.courts
    decreases |actions|
  {
    if actions != [] {
      StepKeepsCourts(s, actions[0]);
      ExecKeepsCourts(Step(s, actions[0]), actions[1..]);
    }
  }

  function StateAt(first: Db, actions: seq<Action>, k: nat): State
    requires k <= |actions|
  {
    Exec(Start(first), actions[..k])
  }

  /** `t` is under way with request `req` in every state from number `k` on. */
  ghost predicate UnderWaySince(first: Db, actions: seq<Action>, t: TxId, req: Request, k: nat) {
    && k <= |actions|
    && forall j: nat :: k <= j <= |actions| ==>
         t in StateAt(first, actions, j).txs && StateAt(first, actions, j).txs[t].req == req
  }

  lemma LastStep(first: Db, actions: seq<Action>)
    requires actions != []
    ensures
      var n := |actions| - 1;
      Exec(Start(first), actions) == Step(Exec(Start(first), actions[..n]), actions[n])
  {
    var n := |actions| - 1;
    assert actions == actions[..n] + [actions[n]];
    ExecOneMore(Start(first), actions[..n], actions[n]);
  }

  /** A create stands before its sport check either already, or because it has just read. */
  lemma HowReadCameAbout(s: State, a: Action, t: TxId)
    requires t in Step(s, a).txs
    requires Step(s, a).txs[t].req.Create? && Step(s, a).txs[t].pc == PreRead
    ensures t in s.txs && s.txs[t].req == Step(s, a).txs[t].req
    ensures s.txs[t] == Step(s, a).txs[t]
            || BookedOn(s.db, s.txs[t].req.slot, s.txs[t].req.user, Step(s, a).txs[t].seen.court)
  {
    if a.Run? && a.t == t && t in s.txs && !Blocked(s, t) {
      assert Statement(s.db, TakenIds(s, t), s.txs[t], a.choice).Goes?;
      StatementKeepsRequest(s.db, TakenIds(s, t), s.txs[t], a.choice);
    }
  }

  lemma StatementKeepsRequest(db: Db, taken: set<GameId>, tx: Tx, choice: Choice)
    requires Statement(db, taken, tx, choice).Goes?
    ensures Statement(db, taken, tx, choice).tx.req == tx.req
  {
    match tx.req
    case Book(_, _, _) =>
    case CancelBooking(_, _, _) =>
    case Create(_, _, _, _) =>
    case Join(_, _) =>
    case Leave(_, _) =>
    case CancelGame(_, _) =>
    case SetStatus(_, _, _) =>
  }

  lemma OneStateMore(first: Db, actions: seq<Action>, t: TxId, req: Request, k: nat)
    requires actions != [] && UnderWaySince(first, actions[..|actions| - 1], t, req, k)
    requires t in Exec(Start(first), actions).txs && Exec(Start(first), actions).txs[t].req == req
    ensures UnderWaySince(first, actions, t, req, k)
  {
    var n := |actions| - 1;
    forall j: nat | k <= j <= |actions|
      ensures t in StateAt(first, actions, j).txs && StateAt(first, actions, j).txs[t].req == req
    {
      if j <= n {
        assert actions[..j] == actions[..n][..j];
        assert t in StateAt(first, actions[..n], j).txs;
      } else {
        assert actions[..j] == actions;
      }
    }
  }

  lemma {:induction false} WhenItRead(first: Db, actions: seq<Action>, t: TxId) returns (k: nat)
    requires t in Exec(Start(first), actions).txs
    requires
      var tx := Exec(Start(first), actions).txs[t];
      tx.req.Create? && tx.pc == PreRead
    ensures
      var tx := Exec(Start(first), actions).txs[t];
      && UnderWaySince(first, actions, t, tx.req, k)
      && BookedOn(StateAt(first, actions, k).db, tx.req.slot, tx.req.user, tx.seen.court)
    decreases |actions|
  {
    assert actions != [];
    var n := |actions| - 1;
    var s, tx := Exec(Start(first), actions[..n]), Exec(Start(first), actions).txs[t];
    LastStep(first, actions);
    HowReadCameAbout(s, actions[n], t);
    if s.txs[t] == tx {
      k := WhenItRead(first, actions[..n], t);
      assert actions[..k] == actions[..n][..k];
    } else {
      k := n;
      assert forall j: nat :: n <= j <= |actions[..n]| ==> actions[..n][..j] == actions[..n];
    }
    OneStateMore(first, actions, t, tx.req, k);
  }

  lemma CourtsAtRead(first: Db, actions: seq<Action>, k: nat)
    requires k <= |actions|
    ensures StateAt(first, actions, k).db.courts == Exec(Start(first), actions).db.courts
  {
    ExecKeepsCourts(Start(first), actions);
    ExecKeepsCourts(Start(first), actions[..k]);
  }

  /** Whenever the next statement of a pending transaction refuses the request, there is a
      moment since it began at which the atomic transaction, run on the tables committed by
      then, returns the same error. The one exception is a generated game id that another
      pending create has generated too. */
  lemma RefusalsAreAtomic(first: Db, actions: seq<Action>, t: TxId, choice: Choice) returns (k: nat)
    requires Initial(first) && t in Exec(Start(first), actions).txs
    ensures
      var s := Exec(Start(first), actions);
      && UnderWaySince(first, actions, t, s.txs[t].req, k)
      && FailsAs(s.db, TakenIds(s, t), s.txs[t], choice, StateAt(first, actions, k).db)
  {
    ReachableIsSound(first, actions);
    var s := Exec(Start(first), actions);
    var tx := s.txs[t];
    assert Established(s.db, tx);
    if tx.req.Create? && tx.pc == PreRead {
      k := WhenItRead(first, actions, t);
      CourtsAtRead(first, actions, k);
      SportFailsAsAtRead(s.db, TakenIds(s, t), tx, choice, StateAt(first, actions, k).db);
    } else {
      k := |actions|;
      assert actions[..k] == actions;
      FailsAtomically(s.db, TakenIds(s, t), tx, choice);
    }
  }
}
