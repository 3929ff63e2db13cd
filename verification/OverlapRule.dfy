/** The documented rule, that nobody plays in two games that overlap in time, over the
    interleavings the code runs: exactly which commits break it. */
module OverlapRule {
  import opened Tables
  import opened Transactions
  import opened Invariants
  import opened LockStep
  import opened Serialisable
  import opened UserOverlap
  import opened TakingTurns

  /** The query `join_game` makes, for the game a request is about to put its user into. */
  predicate FindsOverlap(db: Db, req: Request, newId: GameId) {
    match req
    case Create(s, u, _, _) => s in db.slots && HasOverlappingGame(db, u, newId, db.slots[s].start, db.slots[s].end)
    case Join(_, _) => OverlapQuery(db, req)
    case _ => false
  }

  /** A create or join commits although by now its user plays in an overlapping game. */
  predicate BreaksTheRule(s: State, a: Action) {
    CommitsNow(s, a) && FindsOverlap(s.db, s.txs[a.t].req, s.txs[a.t].env.newId)
  }

  lemma JoinFindingOneBreaks(db: Db, g: GameId, u: UserId, env: Env)
    requires JoinGame(db, g, u, env).Ok? && OverlapQuery(db, Join(g, u))
    ensures !NobodyPlaysBoth(JoinGame(db, g, u, env).value)
  {
    var start, end := db.slots[db.games[g].slot].start, db.slots[db.games[g].slot].end;
    var h :| h in db.games && u in Members(db, h) && h != g && IsActive(db.games[h].status)
             && db.games[h].slot in db.slots
             && db.slots[db.games[h].slot].start < end && db.slots[db.games[h].slot].end > start;
    assert PlaysBoth(JoinGame(db, g, u, env).value, g, h, u);
  }

  lemma SerialKeepsTheRuleIff(db: Db, req: Request, env: Env)
    requires Good(db) && NobodyPlaysBoth(db) && Serial(db, req, env).Ok?
    ensures NobodyPlaysBoth(Serial(db, req, env).value) <==> !FindsOverlap(db, req, env.newId)
  {
    if req.Create? {
      CreateKeepsTheRuleIff(db, req.slot, req.user, req.sport, req.maxPlayers, env);
    } else if req.Join? && OverlapQuery(db, req) {
      JoinFindingOneBreaks(db, req.game, req.user, env);
    } else {
      SerialKeepsTheRule(db, req, env);
    }
  }

  /** One step of the interleaved system breaks the documented rule if and only if it commits a
      create or a join for which the overlap query, asked on the tables committed by now, finds
      something. A create never asks it, a join may have asked too early. */
  lemma StepKeepsTheRuleIff(first: Db, s: State, a: Action)
    requires Sound(first, s) && NobodyPlaysBoth(s.db)
    ensures NobodyPlaysBoth(Step(s, a).db) <==> !BreaksTheRule(s, a)
  {
    OnlyCommitsWrite(first, s, a);
    if CommitsNow(s, a) {
      SerialKeepsTheRuleIff(s.db, s.txs[a.t].req, s.txs[a.t].env);
    }
  }

  ghost predicate RuleAlwaysHolds(s: State, actions: seq<Action>)
    decreases |actions|
  {
    NobodyPlaysBoth(s.db) && (actions == [] || RuleAlwaysHolds(Step(s, actions[0]), actions[1..]))
  }

  predicate NothingBreaksIt(s: State, actions: seq<Action>)
    decreases |actions|
  {
    actions == [] || (!BreaksTheRule(s, actions[0]) && NothingBreaksIt(Step(s, actions[0]), actions[1..]))
  }

  lemma {:induction false} HoldsIffNothingBreaks(first: Db, s: State, actions: seq<Action>)
    requires Sound(first, s) && NobodyPlaysBoth(s.db)
    ensures RuleAlwaysHolds(s, actions) <==> NothingBreaksIt(s, actions)
    decreases |actions|
  {
    if actions != [] {
      var next := Step(s, actions[0]);
      StepKeepsSound(first, s, actions[0]);
      StepKeepsTheRuleIff(first, s, actions[0]);
      if NobodyPlaysBoth(next.db) {
        HoldsIffNothingBreaks(first, next, actions[1..]);
      } else {
        assert !RuleAlwaysHolds(next, actions[1..]);
      }
    }
  }

  /** Over a whole interleaving nobody ever plays in two overlapping games if and only if no
      create and no join commits for which the query would by then find something. */
  lemma DocumentedRuleHoldsIff(first: Db, actions: seq<Action>)
    requires Initial(first)
    ensures RuleAlwaysHolds(Start(first), actions) <==> NothingBreaksIt(Start(first), actions)
  {
    StartIsSound(first);
    HoldsIffNothingBreaks(first, Start(first), actions);
  }
}
