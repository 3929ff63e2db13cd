/** Who may do what, and when, over whole interleaved runs. */
module Roles {
  import opened Tables
  import opened Transactions
  import opened Invariants
  import opened LockStep
  import opened Guarantees

  /** What a committed request says about its user and its time, seen from any later state. */
  predicate InRole(e: Entry, later: Db) {
    match e.req
    case Book(c, s, _) => s in later.slots && later.slots[s].court == c && e.env.now < later.slots[s].start
    case CancelBooking(c, s, _) => s in later.slots && later.slots[s].court == c && e.env.now < later.slots[s].start
    case Create(s, u, sport, n) =>
      e.env.newId in later.games && later.games[e.env.newId] == Game(s, u, sport, AsI16(n), later.games[e.env.newId].status)
    case Join(g, u) => g in later.games && later.games[g].creator != u
    case Leave(g, u) => g in later.games && later.games[g].creator != u
    case CancelGame(g, u) => g in later.games && later.games[g].creator == u && later.games[g].status == Cancelled
    case SetStatus(g, u, target) =>
      g in later.games && later.games[g].creator == u && (target == InProgress || target == Completed)
      && MayBecome(target, later.games[g].status)
  }

  lemma CommitIsInRole(db: Db, e: Entry)
    requires Good(db) && Serial(db, e.req, e.env).Ok?
    ensures InRole(e, Serial(db, e.req, e.env).value)
  {
    if e.req.Join? {
      assert CapacityAgrees(db.games[e.req.game], db.players[e.req.game]);
    }
  }

  lemma RoleStays(e: Entry, db: Db, later: Db)
    requires InRole(e, db) && Later(db, later)
    ensures InRole(e, later)
  {
    match e.req
    case Create(_, _, _, _) => assert e.env.newId in later.games;
    case Join(g, _) => assert g in later.games;
    case Leave(g, _) => assert g in later.games;
    case CancelGame(g, _) => assert g in later.games;
    case SetStatus(g, _, _) => assert g in later.games;
    case _ =>
  }

  lemma {:induction false} LogIsInRole(db: Db, log: seq<Entry>, i: nat)
    requires Good(db) && Replay(db, log).Some? && i < |log|
    ensures InRole(log[i], Replay(db, log).value)
    decreases |log|
  {
    var next := Serial(db, log[0].req, log[0].env).value;
    SerialKeepsGood(db, log[0].req, log[0].env);
    if i == 0 {
      CommitIsInRole(db, log[0]);
      ReplayMovesForward(next, log[1..]);
      RoleStays(log[0], next, Replay(next, log[1..]).value);
    } else {
      LogIsInRole(next, log[1..], i - 1);
    }
  }

  /** Of every commit in every interleaving: bookings and their cancellations came before the
      slot began; only the creator called a game off or moved its status on, and a game that
      was called off stayed so; the creator neither joined nor left it; and the game a create
      made still has the slot, creator, sport and size it was asked for. */
  lemma CommitsRespectRoles(first: Db, actions: seq<Action>, i: nat)
    requires Initial(first) && i < |Exec(Start(first), actions).log|
    ensures InRole(Exec(Start(first), actions).log[i], Exec(Start(first), actions).db)
  {
    ReachableIsSound(first, actions);
    InitialIsGood(first);
    LogIsInRole(first, Exec(Start(first), actions).log, i);
  }

  /** A game is of its court's sport. */
  lemma GameSportIsCourtSport(first: Db, actions: seq<Action>, g: GameId)
    requires Initial(first) && g in Exec(Start(first), actions).db.games
    ensures
      var db := Exec(Start(first), actions).db;
      && db.games[g].slot in db.slots && db.slots[db.games[g].slot].court in db.courts
      && db.games[g].sport == db.courts[db.slots[db.games[g].slot].court].sport
  {
    ReachableIsSound(first, actions);
    assert SportAgrees(Exec(Start(first), actions).db, g);
  }
}
