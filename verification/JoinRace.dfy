/** A run that marks a limit: two joins of one user, interleaved, put the user into two
    overlapping games of others. */
module JoinRace {
  import opened Wrappers
  import opened Tables
  import opened Transactions
  import opened Invariants
  import opened LockStep
  import opened Deadlock
  import opened UserOverlap
  import opened SoloRuns
  import opened Races

  /** Users 1 and 2 each have a game on their own court, at the same time. */
  const TWO := TwoCourts(Some(1), Some(2), map[0 := GAME0, 1 := GAME1], map[0 := {1}, 1 := {2}])

  lemma TwoGamesAreOpened() returns (calls: seq<Call>)
    ensures RunSerially(FIRST, calls) == TWO
  {
    calls := [];
    UserOneBooks();
    RunOneMore(FIRST, calls, Call(Book(0, 0, 1), 0, 0));
    calls := calls + [Call(Book(0, 0, 1), 0, 0)];
    UserOneCreates();
    RunOneMore(FIRST, calls, Call(Create(0, 1, Pickleball, 4), 0, 0));
    calls := calls + [Call(Create(0, 1, Pickleball, 4), 0, 0)];
    UserTwoBooks({1});
    RunOneMore(FIRST, calls, Call(Book(1, 1, 2), 0, 0));
    calls := calls + [Call(Book(1, 1, 2), 0, 0)];
    UserTwoCreates({1});
    RunOneMore(FIRST, calls, Call(Create(1, 2, Pickleball, 4), 0, 1));
    calls := calls + [Call(Create(1, 2, Pickleball, 4), 0, 1)];
  }

  predicate PlaysBothAsGuest(db: Db, g: GameId, h: GameId, u: UserId) {
    PlaysBoth(db, g, h, u) && db.games[g].creator != u && db.games[h].creator != u
  }

  predicate Early(pc: Pc) {
    pc == Begun || pc == PreRead || pc == RowLocked || pc == MemberChecked || pc == Counted || pc == Checked
  }

  function NextJoin(pc: Pc): Pc {
    match pc
    case Begun => PreRead
    case PreRead => RowLocked
    case RowLocked => MemberChecked
    case MemberChecked => Counted
    case Counted => Checked
    case _ => Ready
  }

  /** User 7's join of game `g`, as far as `pc`. */
  function Joining(g: GameId, pc: Pc): Tx {
    var tx := NewTx(Join(g, 7));
    var timed := tx.(pc := pc, seen := tx.seen.(start := 10, end := 20));
    var locked := timed.(gameLock := Some(g));
    var counted := locked.(seen := locked.seen.(count := 1));
    match pc
    case Begun => tx
    case PreRead => timed
    case RowLocked => locked
    case MemberChecked => locked
    case Ready => counted.(writes := [AddPlayer(g, 7)])
    case _ => counted
  }

  lemma JoiningAdvances(g: GameId, pc: Pc, taken: set<GameId>)
    requires (g == 0 || g == 1) && Early(pc)
    ensures Statement(TWO, taken, Joining(g, pc), NOW) == Goes(Joining(g, NextJoin(pc)))
  {
    assert Apply(TWO, []) == TWO;
    assert |Members(TWO, g)| == 1;
  }

  function BothJoin(log: seq<Entry>, left: Pc, right: Pc): State {
    State(TWO, map[0 := Joining(0, left), 1 := Joining(1, right)], log)
  }

  lemma LeftJoins(log: seq<Entry>, left: Pc, right: Pc)
    requires Early(left)
    ensures Step(BothJoin(log, left, right), Run(0, NOW)) == BothJoin(log, NextJoin(left), right)
  {
    var s := BothJoin(log, left, right);
    JoiningAdvances(0, left, TakenIds(s, 0));
    assert !Blocked(s, 0);
    assert s.txs[0 := Joining(0, NextJoin(left))] == BothJoin(log, NextJoin(left), right).txs;
  }

  lemma RightJoins(log: seq<Entry>, left: Pc, right: Pc)
    requires Early(right)
    ensures Step(BothJoin(log, left, right), Run(1, NOW)) == BothJoin(log, left, NextJoin(right))
  {
    var s := BothJoin(log, left, right);
    JoiningAdvances(1, right, TakenIds(s, 1));
    assert !Blocked(s, 1);
    assert s.txs[1 := Joining(1, NextJoin(right))] == BothJoin(log, left, NextJoin(right)).txs;
  }

  lemma JoinTurnAbout(actions: seq<Action>, log: seq<Entry>, pc: Pc) returns (more: seq<Action>)
    requires Early(pc) && Exec(Start(FIRST), actions) == BothJoin(log, pc, pc)
    ensures Exec(Start(FIRST), more) == BothJoin(log, NextJoin(pc), NextJoin(pc))
  {
    ExecOneMore(Start(FIRST), actions, Run(0, NOW));
    ExecOneMore(Start(FIRST), actions + [Run(0, NOW)], Run(1, NOW));
    LeftJoins(log, pc, pc);
    RightJoins(log, NextJoin(pc), pc);
    more := actions + [Run(0, NOW)] + [Run(1, NOW)];
  }

  lemma BeginBothJoins(actions: seq<Action>) returns (more: seq<Action>)
    requires Exec(Start(FIRST), actions).db == TWO && Exec(Start(FIRST), actions).txs == map[]
    ensures Exec(Start(FIRST), more) == BothJoin(Exec(Start(FIRST), actions).log, Begun, Begun)
  {
    var begin0, begin1 := Begin(0, Join(0, 7)), Begin(1, Join(1, 7));
    ExecOneMore(Start(FIRST), actions, begin0);
    ExecOneMore(Start(FIRST), actions + [begin0], begin1);
    assert map[0 := Joining(0, Begun)][1 := Joining(1, Begun)] == BothJoin([], Begun, Begun).txs;
    more := actions + [begin0] + [begin1];
  }

  lemma BothJoinsCommit(log: seq<Entry>)
    ensures PlaysBothAsGuest(Step(Step(BothJoin(log, Ready, Ready), Run(0, NOW)), Run(1, NOW)).db, 0, 1, 7)
  {
    var s := BothJoin(log, Ready, Ready);
    assert !Blocked(s, 0);
    var t := Step(s, Run(0, NOW));
    assert t.db == ApplyOne(TWO, AddPlayer(0, 7));
    assert t.txs == map[1 := Joining(1, Ready)];
    assert !Blocked(t, 1);
    assert Step(t, Run(1, NOW)).db == ApplyOne(t.db, AddPlayer(1, 7));
  }

  lemma ReachTwoGames() returns (actions: seq<Action>)
    ensures Exec(Start(FIRST), actions).db == TWO && Exec(Start(FIRST), actions).txs == map[]
  {
    FirstIsInitial();
    InitialIsGood(FIRST);
    var calls := TwoGamesAreOpened();
    actions := SerialRunsAreInterleavings(FIRST, calls);
  }

  lemma {:induction false} JoinUntilReady(actions: seq<Action>, log: seq<Entry>, pc: Pc) returns (more: seq<Action>)
    requires Early(pc) && Exec(Start(FIRST), actions) == BothJoin(log, pc, pc)
    ensures Exec(Start(FIRST), more) == BothJoin(log, Ready, Ready)
    decreases StatementsLeft(pc)
  {
    more := JoinTurnAbout(actions, log, pc);
    if NextJoin(pc) != Ready {
      more := JoinUntilReady(more, log, NextJoin(pc));
    }
  }

  lemma CommitBothJoins(actions: seq<Action>, log: seq<Entry>) returns (more: seq<Action>)
    requires Exec(Start(FIRST), actions) == BothJoin(log, Ready, Ready)
    ensures PlaysBothAsGuest(Exec(Start(FIRST), more).db, 0, 1, 7)
  {
    ExecOneMore(Start(FIRST), actions, Run(0, NOW));
    ExecOneMore(Start(FIRST), actions + [Run(0, NOW)], Run(1, NOW));
    BothJoinsCommit(log);
    more := actions + [Run(0, NOW)] + [Run(1, NOW)];
  }

  /** Interleaved, a user can join two overlapping games: each transaction asks its overlap
      query before the other commits, and the rows they lock are of different games. */
  lemma InterleavedJoinsMayOverlap() returns (actions: seq<Action>)
    ensures Initial(FIRST)
    ensures PlaysBothAsGuest(Exec(Start(FIRST), actions).db, 0, 1, 7)
  {
    FirstIsInitial();
    actions := ReachTwoGames();
    var log := Exec(Start(FIRST), actions).log;
    actions := BeginBothJoins(actions);
    actions := JoinUntilReady(actions, log, Begun);
    actions := CommitBothJoins(actions, log);
  }
}
