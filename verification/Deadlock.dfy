/** Deadlock freedom: game rows are locked before slot rows, and whoever holds a slot row
    waits for nothing any more, so waiting always ends at a transaction that can run. */
module Deadlock {
  import opened Wrappers
  import opened Tables
  import opened LockStep
  import opened Serialisable
  import opened Guarantees

  /** Uncommitted writes on a slot's game come from the slot's lock holder, inserting it, or
      change the status of a game that is not over. */
  lemma GameWritersHoldOrFind(db: Db, tx: Tx, s: SlotId)
    requires Established(db, tx) && WritesGameOf(db, tx, s)
    ensures tx.slotLock == Some(s) || GameExistsForSlot(db, s)
  {
    match tx.req
    case Book(_, _, _) =>
    case CancelBooking(_, _, _) =>
    case Create(_, _, _, _) =>
    case Join(_, _) =>
    case Leave(_, _) =>
    case CancelGame(_, _) =>
    case SetStatus(_, _, _) =>
  }

  /** The insert into `games` never waits at the unique index on `court_slot_id`: a competing
      insert would hold the slot's lock, and a game of that slot that may still change its
      status would have been found by the query before. */
  lemma InsertNeverWaits(first: Db, s: State, t: TxId, u: TxId)
    requires Sound(first, s) && t in s.txs
    ensures NeedOf(s.db, s.txs[t]).SlotIndex? ==> !WaitsFor(s, t, u)
  {
    if NeedOf(s.db, s.txs[t]).SlotIndex? && WaitsFor(s, t, u) {
      assert Established(s.db, s.txs[t]) && Established(s.db, s.txs[u]) && Apart(s.txs[t], s.txs[u]);
      GameWritersHoldOrFind(s.db, s.txs[u], s.txs[t].req.slot);
      assert false;
    }
  }

  /** Whoever holds a slot row can run. */
  lemma SlotHolderRuns(first: Db, s: State, t: TxId)
    requires Sound(first, s) && t in s.txs && s.txs[t].slotLock.Some?
    ensures !Blocked(s, t)
  {
    assert Established(s.db, s.txs[t]);
    forall u | u in s.txs
      ensures !WaitsFor(s, t, u)
    {
      InsertNeverWaits(first, s, t, u);
    }
  }

  /** Wait chains have length at most two. */
  lemma WaitChainsAreShort(first: Db, s: State, t: TxId, u: TxId, v: TxId)
    requires Sound(first, s)
    ensures WaitsFor(s, t, u) && WaitsFor(s, u, v) ==>
              s.txs[u].req.CancelGame? && s.txs[v].slotLock.Some? && !Blocked(s, v)
  {
    if WaitsFor(s, t, u) && WaitsFor(s, u, v) {
      assert Established(s.db, s.txs[u]) && Established(s.db, s.txs[v]);
      InsertNeverWaits(first, s, t, u);
      if s.txs[u].slotLock.Some? {
        SlotHolderRuns(first, s, u);
      }
      SlotHolderRuns(first, s, v);
    }
  }

  /** The transaction at the end of `t`'s wait chain, which can run. */
  lemma EndOfChain(first: Db, s: State, t: TxId) returns (u: TxId)
    requires Sound(first, s) && t in s.txs
    ensures u in s.txs && !Blocked(s, u)
    ensures u == t || WaitsFor(s, t, u) || exists v :: v in s.txs && WaitsFor(s, t, v) && WaitsFor(s, v, u)
  {
    u := t;
    if Blocked(s, t) {
      u :| u in s.txs && WaitsFor(s, t, u);
      if Blocked(s, u) {
        var v := u;
        u :| u in s.txs && WaitsFor(s, v, u);
        WaitChainsAreShort(first, s, t, v, u);
      }
    }
  }

  /** No reachable state is a deadlock: while transactions are pending, one can run. */
  lemma NoDeadlock(first: Db, actions: seq<Action>)
    requires Initial(first)
    requires Exec(Start(first), actions).txs != map[]
    ensures
      var s := Exec(Start(first), actions);
      exists t :: t in s.txs && !Blocked(s, t)
  {
    ReachableIsSound(first, actions);
    var s := Exec(Start(first), actions);
    var t :| t in s.txs;
    var u := EndOfChain(first, s, t);
  }

  // ── Everyone can finish ───────────────────────────────────────

  /** How many more statements a transaction may have before its commit. */
  function StatementsLeft(pc: Pc): nat {
    match pc
    case Begun => 9
    case PreRead => 8
    case CourtChecked => 7
    case RowLocked => 6
    case MemberChecked => 5
    case Counted => 4
    case Checked => 3
    case RowWritten => 2
    case SlotWritten => 1
    case Ready => 0
  }

  ghost function Work(txs: map<TxId, Tx>): nat
    decreases |txs|
  {
    if txs == map[] then 0
    else
      var t :| t in txs;
      assert |txs - {t}| < |txs| by { RemoveShrinks(txs, t); }
      StatementsLeft(txs[t].pc) + 1 + Work(txs - {t})
  }

  lemma RemoveShrinks(txs: map<TxId, Tx>, t: TxId)
    requires t in txs
    ensures |txs - {t}| == |txs| - 1
  {
    assert txs == (txs - {t})[t := txs[t]];
  }

  lemma {:induction false} WorkWithout(txs: map<TxId, Tx>, t: TxId)
    requires t in txs
    ensures Work(txs) == StatementsLeft(txs[t].pc) + 1 + Work(txs - {t})
    decreases |txs|
  {
    var u :| u in txs && Work(txs) == StatementsLeft(txs[u].pc) + 1 + Work(txs - {u});
    if u != t {
      RemoveShrinks(txs, u);
      RemoveShrinks(txs, t);
      WorkWithout(txs - {u}, t);
      WorkWithout(txs - {t}, u);
      assert txs - {u} - {t} == txs - {t} - {u};
    }
  }

  /** Every statement that runs brings its transaction nearer to its end. */
  lemma RunningMakesProgress(first: Db, s: State, t: TxId, choice: Choice)
    requires Sound(first, s) && t in s.txs && !Blocked(s, t)
    ensures Work(RunOne(s, t, choice).txs) < Work(s.txs)
  {
    WorkWithout(s.txs, t);
    var result := Statement(s.db, TakenIds(s, t), s.txs[t], choice);
    if result.Goes? {
      var after := s.txs[t := result.tx];
      WorkWithout(after, t);
      assert after - {t} == s.txs - {t};
      StatementAdvances(s.db, TakenIds(s, t), s.txs[t], choice);
    }
  }

  lemma StatementAdvances(db: Db, taken: set<GameId>, tx: Tx, choice: Choice)
    requires Established(db, tx) && Statement(db, taken, tx, choice).Goes?
    ensures StatementsLeft(Statement(db, taken, tx, choice).tx.pc) < StatementsLeft(tx.pc)
  {
    match tx.req
    case Book(_, _, _) =>
    case CancelBooking(_, _, _) =>
    case Create(_, _, _, _) =>
    case Join(_, _) =>
    case Leave(_, _) =>
    case CancelGame(_, _) =>
    case SetStatus(_, _, _) =>
  }

  /** From every reachable state all pending transactions can be run to their own commit or
      error, without a timeout or abort from outside. */
  lemma {:induction false} EveryoneCanFinish(first: Db, s: State) returns (schedule: seq<Action>)
    requires Sound(first, s)
    ensures forall i :: 0 <= i < |schedule| ==> schedule[i].Run?
    ensures |schedule| <= Work(s.txs)
    ensures Exec(s, schedule).txs == map[]
    decreases Work(s.txs)
  {
    schedule := [];
    if s.txs != map[] {
      var t :| t in s.txs;
      var u := EndOfChain(first, s, t);
      var choice := Choice(0, 0);
      RunningMakesProgress(first, s, u, choice);
      StepKeepsSound(first, s, Run(u, choice));
      var rest := EveryoneCanFinish(first, RunOne(s, u, choice));
      schedule := [Run(u, choice)] + rest;
      assert schedule[1..] == rest;
    }
  }
}
