/** Splitting a court's price over the players of a game, in 32-bit integers. */
module BillSplit {
  import opened Wrappers
  import opened Tables
  import opened Transactions
  import opened Invariants
  import opened LockStep
  import opened Guarantees

  type I32 = x: int | -0x8000_0000 <= x < 0x8000_0000

  datatype Split = Split(perPlayer: I32, remainder: I32, creatorPaysExtra: bool)

  datatype SplitError = NoPlayers | NegativeTotal

  function CalculateSplit(total: I32, players: I32): Result<Split, SplitError> {
    if players <= 0 then Err(NoPlayers)
    else if total < 0 then Err(NegativeTotal)
    else
      var perPlayer := total / players;
      var remainder := total % players;
      QuotientFits(total, players);
      Ok(Split(perPlayer, remainder, remainder > 0))
  }

  lemma DivisionIsExact(total: int, players: int)
    requires 0 < players
    ensures total == (total / players) * players + total % players
  {}

  lemma ProductGrows(a: int, b: int, c: int)
    requires a <= b && 0 <= c
    ensures a * c <= b * c
  {}

  lemma QuotientFits(total: int, players: int)
    requires 0 <= total && 0 < players
    ensures 0 <= total / players <= total && 0 <= total % players < players
  {
    DivisionIsExact(total, players);
    assert total / players >= 0;
    ProductGrows(1, players, total / players);
  }

  /** It fails exactly without players or for a negative total, and says which. */
  lemma SplitAnswers(total: I32, players: I32)
    ensures CalculateSplit(total, players).Ok? <==> players >= 1 && total >= 0
    ensures CalculateSplit(total, players) == Err(NoPlayers) <==> players <= 0
    ensures CalculateSplit(total, players) == Err(NegativeTotal) <==> players >= 1 && total < 0
  {}

  /** What `user` pays: the creator also pays the remainder. */
  function Share(split: Split, creator: UserId, user: UserId): int {
    split.perPlayer + if user == creator then split.remainder else 0
  }

  ghost function SumOfShares(split: Split, creator: UserId, users: set<UserId>): int {
    if users == {} then 0
    else
      var u :| u in users;
      Share(split, creator, u) + SumOfShares(split, creator, users - {u})
  }

  lemma OneMoreTimes(a: int, n: int)
    ensures a * (n + 1) == a * n + a
  {}

  lemma {:induction false} SharesAddUp(split: Split, creator: UserId, users: set<UserId>)
    ensures SumOfShares(split, creator, users)
            == split.perPlayer * |users| + if creator in users then split.remainder else 0
  {
    if users != {} {
      var u :| u in users && SumOfShares(split, creator, users)
                             == Share(split, creator, u) + SumOfShares(split, creator, users - {u});
      var rest := users - {u};
      SharesAddUp(split, creator, rest);
      assert |users| == |rest| + 1;
      OneMoreTimes(split.perPlayer, |rest|);
      assert split.perPlayer * |users| == split.perPlayer * |rest| + split.perPlayer;
      assert SumOfShares(split, creator, users) == Share(split, creator, u) + SumOfShares(split, creator, rest);
      assert creator in rest <==> creator in users && creator != u;
    }
  }

  function PriceOf(db: Db, g: GameId): int
    requires GamesWellFormed(db) && SlotsWellFormed(db) && g in db.games
  {
    db.courts[db.slots[db.games[g].slot].court].price
  }

  /** A positive 32-bit price over 1 to 30 players: the shares sum to the price exactly, the
      creator's extra stays below the number of players, and nobody pays a negative amount. */
  lemma SplitIsExact(price: I32, creator: UserId, users: set<UserId>)
    requires 0 < price && creator in users && |users| <= 30
    ensures
      var split := CalculateSplit(price, |users|);
      && split.Ok?
      && SumOfShares(split.value, creator, users) == price
      && 0 <= split.value.remainder < |users|
      && 0 <= split.value.perPlayer
      && (split.value.creatorPaysExtra <==> Share(split.value, creator, creator) > split.value.perPlayer)
  {
    var players := |users|;
    MemberMakesNonEmpty(users, creator);
    QuotientFits(price, players);
    DivisionIsExact(price, players);
    var split := CalculateSplit(price, players).value;
    SharesAddUp(split, creator, users);
    assert split.perPlayer == price / players && split.remainder == price % players;
  }

  /** In every reachable state the price of a game that is not cancelled can be split over its
      players, with an extra of at most 29 VND for the creator. */
  lemma ReachableGamesSplit(first: Db, actions: seq<Action>, g: GameId)
    requires Initial(first)
    requires
      var db := Exec(Start(first), actions).db;
      g in db.games && db.games[g].status != Cancelled
    ensures
      var db := Exec(Start(first), actions).db;
      && Good(db)
      && PriceOf(db, g) == db.courts[db.slots[db.games[g].slot].court].price
      && PriceOf(db, g) < 0x8000_0000 && |Members(db, g)| <= 30
      && var split := CalculateSplit(PriceOf(db, g), |Members(db, g)|);
         && split.Ok?
         && SumOfShares(split.value, db.games[g].creator, Members(db, g)) == PriceOf(db, g)
         && 0 <= split.value.remainder <= 29
  {
    ReachableIsSound(first, actions);
    CapacityMatchesStatus(first, actions, g);
    var db := Exec(Start(first), actions).db;
    SplitIsExact(PriceOf(db, g), db.games[g].creator, Members(db, g));
  }

  lemma MorePlayersPayLess(total: int, players: int)
    requires 0 <= total && 0 < players
    ensures total / (players + 1) <= total / players
  {
    var fewer, more := total / players, total / (players + 1);
    DivisionIsExact(total, players);
    DivisionIsExact(total, players + 1);
    QuotientFits(total, players + 1);
    assert more * (players + 1) == more * players + more;
    assert (fewer + 1) * players == fewer * players + players;
    if more > fewer {
      ProductGrows(fewer + 1, more, players);
    }
  }

  function SplitOf(db: Db, g: GameId): Result<Split, SplitError>
    requires Good(db) && g in db.games && |Members(db, g)| <= 30
  {
    CalculateSplit(PriceOf(db, g), |Members(db, g)|)
  }

  lemma JoinAddsOne(db: Db, g: GameId, u: UserId, env: Env)
    requires JoinGame(db, g, u, env).Ok?
    ensures
      var next := JoinGame(db, g, u, env).value;
      && g in next.games && |Members(next, g)| == |Members(db, g)| + 1 <= db.games[g].maxPlayers
      && next.games[g].slot == db.games[g].slot && next.slots == db.slots && next.courts == db.courts
  {
    assert Members(JoinGame(db, g, u, env).value, g) == Members(db, g) + {u};
  }

  lemma JoinBoundsPlayers(db: Db, g: GameId, u: UserId, env: Env)
    requires Good(db) && JoinGame(db, g, u, env).Ok?
    ensures
      var next := JoinGame(db, g, u, env).value;
      && Good(next) && g in next.games && next.games[g].creator == db.games[g].creator
      && 1 <= |Members(db, g)| && |Members(next, g)| == |Members(db, g)| + 1 <= 30
      && PriceOf(next, g) == PriceOf(db, g) > 0
  {
    JoinAddsOne(db, g, u, env);
    JoinKeepsGood(db, g, u, env);
    assert CapacityAgrees(db.games[g], db.players[g]);
    MemberMakesNonEmpty(Members(db, g), db.games[g].creator);
  }

  lemma JoinSplits(db: Db, g: GameId, u: UserId, env: Env)
    requires Good(db) && JoinGame(db, g, u, env).Ok?
    ensures
      var next, n := JoinGame(db, g, u, env).value, |Members(db, g)|;
      && Good(next) && g in next.games && 1 <= n <= 29 && |Members(next, g)| == n + 1
      && 0 < PriceOf(db, g) < 0x8000_0000
      && SplitOf(db, g) == CalculateSplit(PriceOf(db, g), n)
      && SplitOf(next, g) == CalculateSplit(PriceOf(db, g), n + 1)
  {
    JoinBoundsPlayers(db, g, u, env);
  }

  lemma SplitNeverRaisesPerPlayer(price: I32, players: I32)
    requires 0 < price && 0 < players <= 29
    ensures CalculateSplit(price, players).Ok? && CalculateSplit(price, players + 1).Ok?
    ensures CalculateSplit(price, players + 1).value.perPlayer <= CalculateSplit(price, players).value.perPlayer
  {
    MorePlayersPayLess(price, players);
  }

  /** A join never raises `per_player`, which is what everyone but the creator pays. */
  lemma JoiningNeverRaisesPerPlayer(db: Db, g: GameId, u: UserId, env: Env)
    requires Good(db) && JoinGame(db, g, u, env).Ok?
    ensures
      var next := JoinGame(db, g, u, env).value;
      && Good(next) && g in next.games && |Members(db, g)| <= 30 && |Members(next, g)| <= 30
      && SplitOf(db, g).Ok? && SplitOf(next, g).Ok?
      && SplitOf(next, g).value.perPlayer <= SplitOf(db, g).value.perPlayer
  {
    JoinSplits(db, g, u, env);
    SplitNeverRaisesPerPlayer(PriceOf(db, g), |Members(db, g)|);
  }

  // ── What the creator pays ─────────────────────────────────────

  /** The creator's payment, remainder included, among `players`. */
  function CreatorPays(total: int, players: int): int
    requires players > 0
  {
    total / players + total % players
  }

  /** One more player raises it if and only if `per_player` falls by more than its n-th part. */
  lemma OneMoreRaisesCreatorIff(total: int, players: int)
    requires 0 <= total && 0 < players
    ensures CreatorPays(total, players + 1) > CreatorPays(total, players)
            <==> (total / players - total / (players + 1)) * players > total / players
  {
    var fewer, more := total / players, total / (players + 1);
    DivisionIsExact(total, players);
    DivisionIsExact(total, players + 1);
    assert more * (players + 1) == more * players + more;
    assert (fewer - more) * players == fewer * players - more * players;
  }

  /** From `before`, among n players, to `after` the creator's payment rises exactly when
      (q - q') * n > q for the quotients q and q'. */
  predicate RaisesCreatorExactly(before: Split, after: Split, creator: UserId, n: int) {
    Share(after, creator, creator) > Share(before, creator, creator)
    <==> (before.perPlayer - after.perPlayer) * n > before.perPlayer
  }

  lemma SplitRaisesCreatorIff(price: I32, players: I32, creator: UserId)
    requires 0 < price && 0 < players <= 29
    ensures CalculateSplit(price, players).Ok? && CalculateSplit(price, players + 1).Ok?
    ensures RaisesCreatorExactly(CalculateSplit(price, players).value, CalculateSplit(price, players + 1).value,
                                 creator, players)
  {
    OneMoreRaisesCreatorIff(price, players);
  }

  /** What a join does to the creator's payment, remainder included. */
  lemma JoinRaisesCreatorsShareIff(db: Db, g: GameId, u: UserId, env: Env)
    requires Good(db) && JoinGame(db, g, u, env).Ok?
    ensures
      var next, n := JoinGame(db, g, u, env).value, |Members(db, g)|;
      && Good(next) && g in next.games && n <= 30 && |Members(next, g)| <= 30
      && SplitOf(db, g).Ok? && SplitOf(next, g).Ok?
      && RaisesCreatorExactly(SplitOf(db, g).value, SplitOf(next, g).value, db.games[g].creator, n)
  {
    JoinSplits(db, g, u, env);
    SplitRaisesCreatorIff(PriceOf(db, g), |Members(db, g)|, db.games[g].creator);
  }

  /** It does happen: 11 VND over five and six players, 59 VND over 29 and 30. */
  lemma CreatorMayPayMore()
    ensures CalculateSplit(11, 5) == Ok(Split(2, 1, true)) && CalculateSplit(11, 6) == Ok(Split(1, 5, true))
    ensures CreatorPays(11, 5) == 3 && CreatorPays(11, 6) == 6
    ensures CreatorPays(59, 29) == 3 && CreatorPays(59, 30) == 30
  {}
}
