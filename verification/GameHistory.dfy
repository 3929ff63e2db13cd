/** The life of one game over a whole run: which transactions commit on it, in which order,
    and who plays in it because of them. */
module GameHistory {
  import opened Wrappers
  import opened Tables
  import opened Transactions
  import opened Invariants
  import opened LockStep
  import opened Guarantees

  // ── From opening to end ───────────────────────────────────────

  datatype GameEvent = Opens | Starts | Ends | CallsOff

  datatype Phase = Absent | Gathering | Running | Over | CalledOff

  function PhaseOf(db: Db, g: GameId): Phase {
    if g !in db.games then Absent
    else
      match db.games[g].status
      case Open => Gathering
      case Full => Gathering
      case InProgress => Running
      case Completed => Over
      case Cancelled => CalledOff
  }

  /** What the committed request `e` means for game `g`. */
  function EventOf(e: Entry, g: GameId): seq<GameEvent> {
    match e.req
    case Create(_, _, _, _) => if e.env.newId == g then [Opens] else []
    case CancelGame(h, _) => if h == g then [CallsOff] else []
    case SetStatus(h, _, target) => if h != g then [] else if target == InProgress then [Starts] else [Ends]
    case _ => []
  }

  function Events(log: seq<Entry>, g: GameId): seq<GameEvent> {
    if log == [] then [] else EventOf(log[0], g) + Events(log[1..], g)
  }

  function NextPhase(phase: Phase, event: GameEvent): Option<Phase> {
    match (phase, event)
    case (Absent, Opens) => Some(Gathering)
    case (Gathering, Starts) => Some(Running)
    case (Running, Ends) => Some(Over)
    case (Gathering, CallsOff) => Some(CalledOff)
    case (Running, CallsOff) => Some(CalledOff)
    case _ => None
  }

  predicate Leads(phase: Phase, events: seq<GameEvent>, last: Phase)
    decreases |events|
  {
    if events == [] then phase == last
    else NextPhase(phase, events[0]).Some? && Leads(NextPhase(phase, events[0]).value, events[1..], last)
  }

  predicate MovesPhase(db: Db, e: Entry, next: Db, g: GameId) {
    if EventOf(e, g) == [] then PhaseOf(next, g) == PhaseOf(db, g)
    else |EventOf(e, g)| == 1 && NextPhase(PhaseOf(db, g), EventOf(e, g)[0]) == Some(PhaseOf(next, g))
  }

  lemma CreateMovesPhase(db: Db, s: SlotId, v: UserId, sport: Sport, n: int, env: Env, g: GameId)
    requires CreateGame(db, s, v, sport, n, env).Ok?
    ensures MovesPhase(db, Entry(Create(s, v, sport, n), env), CreateGame(db, s, v, sport, n, env).value, g)
  {}

  lemma JoinMovesPhase(db: Db, h: GameId, v: UserId, env: Env, g: GameId)
    requires JoinGame(db, h, v, env).Ok?
    ensures MovesPhase(db, Entry(Join(h, v), env), JoinGame(db, h, v, env).value, g)
  {}

  lemma LeaveMovesPhase(db: Db, h: GameId, v: UserId, env: Env, g: GameId)
    requires LeaveGame(db, h, v).Ok?
    ensures MovesPhase(db, Entry(Leave(h, v), env), LeaveGame(db, h, v).value, g)
  {}

  lemma CallOffMovesPhase(db: Db, h: GameId, v: UserId, env: Env, g: GameId)
    requires CallOffGame(db, h, v).Ok?
    ensures MovesPhase(db, Entry(Request.CancelGame(h, v), env), CallOffGame(db, h, v).value, g)
  {}

  lemma StatusMovesPhase(db: Db, h: GameId, v: UserId, target: GameStatus, env: Env, g: GameId)
    requires UpdateStatus(db, h, v, target).Ok?
    ensures MovesPhase(db, Entry(SetStatus(h, v, target), env), UpdateStatus(db, h, v, target).value, g)
  {}

  lemma CommitMovesPhase(db: Db, e: Entry, g: GameId)
    requires Serial(db, e.req, e.env).Ok?
    ensures MovesPhase(db, e, Serial(db, e.req, e.env).value, g)
  {
    match e.req
    case Book(_, _, _) =>
    case CancelBooking(_, _, _) =>
    case Create(s, v, sport, n) => CreateMovesPhase(db, s, v, sport, n, e.env, g);
    case Join(h, v) => JoinMovesPhase(db, h, v, e.env, g);
    case Leave(h, v) => LeaveMovesPhase(db, h, v, e.env, g);
    case CancelGame(h, v) => CallOffMovesPhase(db, h, v, e.env, g);
    case SetStatus(h, v, target) => StatusMovesPhase(db, h, v, target, e.env, g);
  }

  lemma {:induction false} EventsLead(db: Db, log: seq<Entry>, g: GameId)
    requires Replay(db, log).Some?
    ensures Leads(PhaseOf(db, g), Events(log, g), PhaseOf(Replay(db, log).value, g))
    decreases |log|
  {
    if log != [] {
      var rest := Events(log[1..], g);
      CommitMovesPhase(db, log[0], g);
      EventsLead(Serial(db, log[0].req, log[0].env).value, log[1..], g);
      assert EventOf(log[0], g) == [] ==> Events(log, g) == rest;
      assert EventOf(log[0], g) != [] ==> Events(log, g)[1..] == rest;
    }
  }

  /** The whole story of a game that stands where it stands. */
  predicate StoryOf(phase: Phase, events: seq<GameEvent>) {
    match phase
    case Absent => events == []
    case Gathering => events == [Opens]
    case Running => events == [Opens, Starts]
    case Over => events == [Opens, Starts, Ends]
    case CalledOff => events == [Opens, CallsOff] || events == [Opens, Starts, CallsOff]
  }

  /** `events` continues a story that has come to `phase`. */
  predicate Continues(phase: Phase, events: seq<GameEvent>, last: Phase) {
    match phase
    case Absent => StoryOf(last, events)
    case Gathering => StoryOf(last, [Opens] + events)
    case Running => StoryOf(last, [Opens, Starts] + events)
    case Over => last == Over && events == []
    case CalledOff => last == CalledOff && events == []
  }

  lemma {:induction false} LeadsContinues(phase: Phase, events: seq<GameEvent>, last: Phase)
    requires Leads(phase, events, last)
    ensures Continues(phase, events, last)
    decreases |events|
  {
    if events != [] {
      var next := NextPhase(phase, events[0]).value;
      LeadsContinues(next, events[1..], last);
      assert events == [events[0]] + events[1..];
      assert [Opens] + events == [Opens, events[0]] + events[1..];
      assert [Opens, Starts] + events == [Opens, Starts, events[0]] + events[1..];
    }
  }

  /** In every interleaving a game's commits tell one story, and the row says how far it has
      come: opened; then started; then ended; or called off before its end. Nothing happens
      twice, nothing is skipped, and nothing follows the end or the calling off. */
  lemma LifeOfAGame(first: Db, actions: seq<Action>, g: GameId)
    requires Initial(first)
    ensures
      var last := Exec(Start(first), actions);
      StoryOf(PhaseOf(last.db, g), Events(last.log, g))
  {
    ReachableIsSound(first, actions);
    var last := Exec(Start(first), actions);
    EventsLead(first, last.log, g);
    LeadsContinues(Absent, Events(last.log, g), PhaseOf(last.db, g));
  }

  // ── Who plays ─────────────────────────────────────────────────

  /** Whether `u` plays in `g` after the committed request `e`; `None` if the request makes no
      sense for somebody who plays or does not. */
  function Presence(plays: bool, e: Entry, g: GameId, u: UserId): Option<bool> {
    match e.req
    case Create(_, creator, _, _) =>
      if e.env.newId != g then Some(plays) else if plays then None else Some(u == creator)
    case Join(h, v) => if h != g || v != u then Some(plays) else if plays then None else Some(true)
    case Leave(h, v) => if h != g || v != u then Some(plays) else if plays then Some(false) else None
    case CancelGame(h, _) => Some(plays && h != g)
    case _ => Some(plays)
  }

  function PresenceAfter(plays: bool, log: seq<Entry>, g: GameId, u: UserId): Option<bool>
    decreases |log|
  {
    if log == [] then Some(plays)
    else
      match Presence(plays, log[0], g, u)
      case Some(next) => PresenceAfter(next, log[1..], g, u)
      case None => None
  }

  lemma CreateMovesPlayer(db: Db, s: SlotId, v: UserId, sport: Sport, n: int, env: Env, g: GameId, u: UserId)
    requires db.players.Keys == db.games.Keys && CreateGame(db, s, v, sport, n, env).Ok?
    ensures Presence(u in Members(db, g), Entry(Create(s, v, sport, n), env), g, u) == Some(u in Members(CreateGame(db, s, v, sport, n, env).value, g))
  {}

  lemma JoinMovesPlayer(db: Db, h: GameId, v: UserId, env: Env, g: GameId, u: UserId)
    requires JoinGame(db, h, v, env).Ok?
    ensures Presence(u in Members(db, g), Entry(Join(h, v), env), g, u) == Some(u in Members(JoinGame(db, h, v, env).value, g))
  {}

  lemma LeaveMovesPlayer(db: Db, h: GameId, v: UserId, env: Env, g: GameId, u: UserId)
    requires LeaveGame(db, h, v).Ok?
    ensures Presence(u in Members(db, g), Entry(Leave(h, v), env), g, u) == Some(u in Members(LeaveGame(db, h, v).value, g))
  {}

  lemma CallOffMovesPlayer(db: Db, h: GameId, v: UserId, env: Env, g: GameId, u: UserId)
    requires CallOffGame(db, h, v).Ok?
    ensures Presence(u in Members(db, g), Entry(Request.CancelGame(h, v), env), g, u) == Some(u in Members(CallOffGame(db, h, v).value, g))
  {}

  lemma CommitMovesPlayer(db: Db, e: Entry, g: GameId, u: UserId)
    requires Good(db) && Serial(db, e.req, e.env).Ok?
    ensures Presence(u in Members(db, g), e, g, u) == Some(u in Members(Serial(db, e.req, e.env).value, g))
  {
    match e.req
    case Book(_, _, _) =>
    case CancelBooking(_, _, _) =>
    case Create(s, v, sport, n) => CreateMovesPlayer(db, s, v, sport, n, e.env, g, u);
    case Join(h, v) => JoinMovesPlayer(db, h, v, e.env, g, u);
    case Leave(h, v) => LeaveMovesPlayer(db, h, v, e.env, g, u);
    case CancelGame(h, v) => CallOffMovesPlayer(db, h, v, e.env, g, u);
    case SetStatus(_, _, _) =>
  }

  lemma {:induction false} PlayersFollowTheLog(db: Db, log: seq<Entry>, g: GameId, u: UserId)
    requires Good(db) && Replay(db, log).Some?
    ensures PresenceAfter(u in Members(db, g), log, g, u) == Some(u in Members(Replay(db, log).value, g))
    decreases |log|
  {
    if log != [] {
      CommitMovesPlayer(db, log[0], g, u);
      SerialKeepsGood(db, log[0].req, log[0].env);
      PlayersFollowTheLog(Serial(db, log[0].req, log[0].env).value, log[1..], g, u);
    }
  }

  /** In every interleaving a game's players are exactly those who opened or joined it and have
      not left since, unless it was called off; each user's joins and leaves alternate. */
  lemma PlayersAreWhoCameAndStayed(first: Db, actions: seq<Action>, g: GameId, u: UserId)
    requires Initial(first)
    ensures
      var last := Exec(Start(first), actions);
      PresenceAfter(false, last.log, g, u) == Some(u in Members(last.db, g))
  {
    ReachableIsSound(first, actions);
    InitialIsGood(first);
    PlayersFollowTheLog(first, Exec(Start(first), actions).log, g, u);
  }
}
