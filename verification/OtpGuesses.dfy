/** The documented limit of `maxAttempts` guesses per code is exceeded without any interleaving:
    twice that many, which `OtpAlone` shows to be the most that uninterrupted requests reach.
    With interleaving there is no limit at all: see `OtpLimits`. */
module OtpGuesses {
  import opened Wrappers
  import opened Otp

  /** One wrong guess from begin to end, with nobody else about. */
  function WrongGuess(digits: int): seq<Action> {
    [Verify(0, Login, digits + 1), Run(0), Run(0), Run(0)]
  }

  function AfterWrongGuess(cfg: Config, r: Redis): Redis
    requires r.code.Some?
  {
    r.(code := Some(r.code.value.(expires := r.now + RestoreTtl(cfg))), counter := Some(Incremented(r.counter)),
       compared := r.compared + 1, comparedSinceSend := r.comparedSinceSend + 1)
  }

  lemma FourSteps(cfg: Config, r: Redis, a: Action, b: Action, c: Action, d: Action)
    ensures Exec(cfg, r, [a, b, c, d]) == Step(cfg, Step(cfg, Step(cfg, Step(cfg, r, a), b), c), d)
  {
    var r1 := Step(cfg, r, a);
    var r2 := Step(cfg, r1, b);
    var r3 := Step(cfg, r2, c);
    assert [a, b, c, d][1..] == [b, c, d] && [b, c, d][1..] == [c, d] && [c, d][1..] == [d] && [d][1..] == [];
    assert Exec(cfg, r3, [d]) == Exec(cfg, Step(cfg, r3, d), []);
    assert Exec(cfg, r2, [c, d]) == Exec(cfg, r3, [d]);
    assert Exec(cfg, r1, [b, c, d]) == Exec(cfg, r2, [c, d]);
  }

  lemma WrongGuessCosts(cfg: Config, r: Redis)
    requires r.procs == map[] && r.code.Some? && Count(r) < cfg.maxAttempts
    ensures Exec(cfg, r, WrongGuess(r.code.value.digits)) == AfterWrongGuess(cfg, r)
  {
    var digits, issue := r.code.value.digits, r.code.value.issue;
    FourSteps(cfg, r, Verify(0, Login, digits + 1), Run(0), Run(0), Run(0));
    var r1 := r.(procs := map[0 := Fetch(Login, digits + 1)]);
    assert Step(cfg, r, Verify(0, Login, digits + 1)) == r1;
    var r2 := r.(code := None, procs := map[0 := Compare(Login, digits + 1, issue, digits)]);
    assert r1.procs[0 := Compare(Login, digits + 1, issue, digits)] == r2.procs;
    assert Step(cfg, r1, Run(0)) == r2;
    var r3 := AfterWrongGuess(cfg, r).(code := None, procs := map[0 := Restore(issue, digits)]);
    assert r2.procs[0 := Restore(issue, digits)] == r3.procs;
    assert Step(cfg, r2, Run(0)) == r3;
    assert r3.procs - {0} == map[];
  }

  lemma {:induction false} WrongGuesses(cfg: Config, r: Redis, k: nat) returns (actions: seq<Action>)
    requires r.procs == map[] && r.code.Some? && Count(r) + k <= cfg.maxAttempts && k > 0
    ensures
      var last := Exec(cfg, r, actions);
      && last.procs == map[] && last.now == r.now && last.issued == r.issued && last.matched == r.matched
      && last.code == Some(r.code.value.(expires := r.now + RestoreTtl(cfg)))
      && last.counter == Some(Counter(Count(r) + k, if r.counter.Some? then r.counter.value.expires else None))
      && last.comparedSinceSend == r.comparedSinceSend + k
    decreases k
  {
    WrongGuessCosts(cfg, r);
    actions := WrongGuess(r.code.value.digits);
    if k > 1 {
      var rest := WrongGuesses(cfg, AfterWrongGuess(cfg, r), k - 1);
      ExecConcat(cfg, r, actions, rest);
      actions := actions + rest;
    }
  }

  /** A send with nobody else about. */
  lemma SendStores(cfg: Config, now: int, digits: int) returns (actions: seq<Action>)
    requires cfg.ttl > 0
    ensures
      var r := Exec(cfg, Fresh(now), actions);
      && r.procs == map[] && r.now == now && r.issued == 1 && r.matched == [] && r.comparedSinceSend == 0
      && r.code == Some(Code(0, digits, now + cfg.ttl)) && r.counter == Some(Counter(0, Some(now + cfg.ttl)))
  {
    var r0 := Fresh(now);
    FourSteps(cfg, r0, Send(0, digits), Run(0), Run(0), Run(0));
    actions := [Send(0, digits), Run(0), Run(0), Run(0)];
    var r1 := Step(cfg, r0, Send(0, digits));
    assert r1.procs == map[0 := CheckRate(digits)];
    var r2 := Step(cfg, r1, Run(0));
    assert r2.procs == map[0 := StoreCode(digits)];
    var r3 := Step(cfg, r2, Run(0));
    assert r3.procs == map[0 := StoreCounter];
    var r4 := Step(cfg, r3, Run(0));
    assert r4.procs == map[0 := StoreRate];
    ExecConcat(cfg, r0, actions, [Run(0)]);
    assert [Run(0)][1..] == [];
    assert Exec(cfg, r4, [Run(0)]) == Step(cfg, r4, Run(0));
    assert Step(cfg, r4, Run(0)).procs == map[];
    actions := actions + [Run(0)];
  }

  lemma Wait(cfg: Config, r: Redis, actions: seq<Action>, seconds: nat)
    ensures Exec(cfg, r, actions + [Tick(seconds)]) == Elapse(Exec(cfg, r, actions), seconds)
  {
    ExecConcat(cfg, r, actions, [Tick(seconds)]);
    assert [Tick(seconds)][1..] == [];
    var last := Exec(cfg, r, actions);
    assert Exec(cfg, last, [Tick(seconds)]) == Step(cfg, last, Tick(seconds));
  }

  /** For every configuration, twice `maxAttempts` guesses at one and the same code: the last
      allowed mismatches put it back for a full TTL, the counter runs out a second later, and
      counting starts again. */
  lemma TwiceTheLimitIsReached(cfg: Config, now: int, digits: int) returns (actions: seq<Action>)
    requires cfg.ttl > 0 && cfg.maxAttempts > 0
    ensures
      var r := Exec(cfg, Fresh(now), actions);
      r.issued == 1 && r.matched == [] && r.comparedSinceSend == 2 * cfg.maxAttempts
  {
    var start := Fresh(now);
    actions := SendStores(cfg, now, digits);
    Wait(cfg, start, actions, cfg.ttl - 1);
    actions := actions + [Tick(cfg.ttl - 1)];
    var guesses := WrongGuesses(cfg, Exec(cfg, start, actions), cfg.maxAttempts);
    ExecConcat(cfg, start, actions, guesses);
    actions := actions + guesses;
    Wait(cfg, start, actions, 1);
    actions := actions + [Tick(1)];
    guesses := WrongGuesses(cfg, Exec(cfg, start, actions), cfg.maxAttempts);
    ExecConcat(cfg, start, actions, guesses);
    actions := actions + guesses;
  }
}
