/** The guesses at one code when requests do not interleave: exactly how many are compared, by
    the seconds in which they come. */
module OtpAlone {
  import opened Wrappers
  import opened Otp
  import opened OtpStore

  /** Some time passes, then somebody verifies. */
  datatype Attempt = Attempt(wait: nat, flow: Flow, guess: int, known: bool)

  function AfterOne(cfg: Config, r: Redis, a: Attempt): Redis {
    Verified(cfg, Elapse(r, a.wait), a.flow, a.guess, a.known)
  }

  function After(cfg: Config, r: Redis, attempts: seq<Attempt>): Redis
    decreases |attempts|
  {
    if attempts == [] then r else After(cfg, AfterOne(cfg, r, attempts[0]), attempts[1..])
  }

  /** The steps of the interleaved model one attempt is. */
  function StepsOf(a: Attempt): seq<Action> {
    var verify := Verify(0, a.flow, a.guess);
    [Tick(a.wait)] + if a.known then Whole(verify) else WithoutAccount(verify)
  }

  function ActionsOf(attempts: seq<Attempt>): seq<Action> {
    if attempts == [] then [] else StepsOf(attempts[0]) + ActionsOf(attempts[1..])
  }

  lemma StepsRun(cfg: Config, r: Redis, a: Attempt)
    requires r.procs == map[]
    ensures Exec(cfg, r, StepsOf(a)) == AfterOne(cfg, r, a)
  {
    var later, steps := Elapse(r, a.wait), StepsOf(a)[1..];
    assert Exec(cfg, r, StepsOf(a)) == Exec(cfg, later, steps);
    if a.known {
      assert steps == Whole(Verify(0, a.flow, a.guess));
      VerifyRuns(cfg, later, a.flow, a.guess);
    } else {
      assert steps == WithoutAccount(Verify(0, a.flow, a.guess));
      UnknownVerifyRuns(cfg, later, a.flow, a.guess);
    }
  }

  lemma VerifiedKeepsRequests(cfg: Config, r: Redis, flow: Flow, guess: int, known: bool)
    ensures Verified(cfg, r, flow, guess, known).procs == r.procs
  {
    if r.code.Some? {
      assert MatchedCode(r).procs == r.procs;
    }
  }

  lemma AttemptKeepsRequests(cfg: Config, r: Redis, a: Attempt)
    ensures AfterOne(cfg, r, a).procs == r.procs
  {
    VerifiedKeepsRequests(cfg, Elapse(r, a.wait), a.flow, a.guess, a.known);
  }

  lemma {:induction false} AttemptsRun(cfg: Config, r: Redis, attempts: seq<Attempt>)
    requires r.procs == map[]
    ensures Exec(cfg, r, ActionsOf(attempts)) == After(cfg, r, attempts)
    decreases |attempts|
  {
    if attempts != [] {
      StepsRun(cfg, r, attempts[0]);
      AttemptKeepsRequests(cfg, r, attempts[0]);
      ExecConcat(cfg, r, StepsOf(attempts[0]), ActionsOf(attempts[1..]));
      AttemptsRun(cfg, AfterOne(cfg, r, attempts[0]), attempts[1..]);
    }
  }

  // ── Attempts that find the code, before and after a second ────

  /** How many attempts find a code in the key before second `until`, or from then on. */
  function Finds(cfg: Config, r: Redis, attempts: seq<Attempt>, until: int, late: bool): nat
    decreases |attempts|
  {
    if attempts == [] then 0
    else
      var later := Elapse(r, attempts[0].wait);
      (if later.code.Some? && (later.now >= until) == late then 1 else 0)
      + Finds(cfg, AfterOne(cfg, r, attempts[0]), attempts[1..], until, late)
  }

  function UpTo(cfg: Config, n: nat): nat {
    if n < cfg.maxAttempts then n else cfg.maxAttempts
  }

  lemma {:induction false} NothingToFind(cfg: Config, r: Redis, attempts: seq<Attempt>, until: int, late: bool)
    requires r.code == None
    ensures Finds(cfg, r, attempts, until, late) == 0
    ensures After(cfg, r, attempts).comparedSinceSend == r.comparedSinceSend
    decreases |attempts|
  {
    if attempts != [] {
      NothingToFind(cfg, AfterOne(cfg, r, attempts[0]), attempts[1..], until, late);
    }
  }

  /** `next` is what a verification makes of `r`, as far as guesses are concerned. */
  predicate GuessCounts(cfg: Config, r: Redis, next: Redis) {
    && next.now == r.now
    && (r.code == None ==> next.code == None && next.comparedSinceSend == r.comparedSinceSend)
    && (r.code != None ==>
          next.comparedSinceSend == r.comparedSinceSend + if Count(r) < cfg.maxAttempts then 1 else 0)
    && (next.code != None ==> next.counter == Some(Incremented(r.counter)))
    && (r.code != None && next.code == None ==> Count(r) < cfg.maxAttempts)
  }

  lemma NoCodeCounts(cfg: Config, r: Redis, flow: Flow, guess: int, known: bool)
    requires r.code == None
    ensures GuessCounts(cfg, r, Verified(cfg, r, flow, guess, known))
  {}

  lemma OverLimitCounts(cfg: Config, r: Redis, flow: Flow, guess: int, known: bool)
    requires r.code.Some? && Count(r) >= cfg.maxAttempts
    ensures GuessCounts(cfg, r, Verified(cfg, r, flow, guess, known))
  {}

  lemma MismatchCounts(cfg: Config, r: Redis, flow: Flow, guess: int, known: bool)
    requires r.code.Some? && Count(r) < cfg.maxAttempts && guess != r.code.value.digits
    ensures GuessCounts(cfg, r, Verified(cfg, r, flow, guess, known))
  {}

  lemma MatchCounts(cfg: Config, r: Redis, flow: Flow, guess: int, known: bool)
    requires Matches(cfg, r, guess)
    ensures GuessCounts(cfg, r, Verified(cfg, r, flow, guess, known))
  {}

  lemma ElapsingCountsNothing(r: Redis, wait: nat)
    ensures Elapse(r, wait).comparedSinceSend == r.comparedSinceSend
  {}

  /** What one attempt does to the code, the counter and the comparisons. */
  lemma OneAttempt(cfg: Config, r: Redis, a: Attempt)
    ensures Elapse(r, a.wait).comparedSinceSend == r.comparedSinceSend
    ensures GuessCounts(cfg, Elapse(r, a.wait), AfterOne(cfg, r, a))
  {
    var later := Elapse(r, a.wait);
    ElapsingCountsNothing(r, a.wait);
    if later.code == None {
      NoCodeCounts(cfg, later, a.flow, a.guess, a.known);
    } else if Count(later) >= cfg.maxAttempts {
      OverLimitCounts(cfg, later, a.flow, a.guess, a.known);
    } else if a.guess != later.code.value.digits {
      MismatchCounts(cfg, later, a.flow, a.guess, a.known);
    } else {
      MatchCounts(cfg, later, a.flow, a.guess, a.known);
    }
  }

  /** The counter has expired; what counts again counts for ever. */
  predicate LateCounter(r: Redis, until: int) {
    r.now >= until && (r.counter.Some? ==> r.counter.value.expires == None)
  }

  lemma LateAttempt(cfg: Config, r: Redis, a: Attempt, until: int)
    requires LateCounter(r, until)
    ensures
      var later, next := Elapse(r, a.wait), AfterOne(cfg, r, a);
      && LateCounter(later, until) && Count(later) == Count(r)
      && (next.code != None ==> LateCounter(next, until) && Count(next) == Count(r) + 1 && later.code != None)
  {
    OneAttempt(cfg, r, a);
  }

  lemma {:induction false} LateAttempts(cfg: Config, r: Redis, attempts: seq<Attempt>, until: int)
    requires LateCounter(r, until)
    ensures Finds(cfg, r, attempts, until, false) == 0
    ensures After(cfg, r, attempts).comparedSinceSend + UpTo(cfg, Count(r))
            == r.comparedSinceSend + UpTo(cfg, Count(r) + Finds(cfg, r, attempts, until, true))
    decreases |attempts|
  {
    if attempts != [] {
      var next := AfterOne(cfg, r, attempts[0]);
      OneAttempt(cfg, r, attempts[0]);
      LateAttempt(cfg, r, attempts[0], until);
      if next.code == None {
        NothingToFind(cfg, next, attempts[1..], until, false);
        NothingToFind(cfg, next, attempts[1..], until, true);
      } else {
        LateAttempts(cfg, next, attempts[1..], until);
      }
    }
  }

  /** The counter is the one the send stored. */
  predicate EarlyCounter(r: Redis, until: int) {
    r.now < until && r.counter.Some? && r.counter.value.expires == Some(until)
  }

  lemma ElapsedCounter(r: Redis, wait: nat, until: int)
    requires EarlyCounter(r, until)
    ensures
      var later := Elapse(r, wait);
      if later.now < until then EarlyCounter(later, until) && Count(later) == Count(r)
      else LateCounter(later, until) && Count(later) == 0
  {}

  lemma EarlyAttempt(cfg: Config, r: Redis, a: Attempt, until: int)
    requires EarlyCounter(r, until) && r.now + a.wait < until
    ensures
      var later, next := Elapse(r, a.wait), AfterOne(cfg, r, a);
      && later.now < until && Count(later) == Count(r)
      && (next.code != None ==> EarlyCounter(next, until) && Count(next) == Count(r) + 1 && later.code != None)
  {
    OneAttempt(cfg, r, a);
    ElapsedCounter(r, a.wait, until);
  }

  /** Tokens that have not expired are not touched. */
  lemma NoTimePasses(r: Redis, wait: nat)
    ensures Elapse(Elapse(r, wait), 0) == Elapse(r, wait)
  {
    var later := Elapse(r, wait);
    assert Elapse(later, 0).tokens == later.tokens;
  }

  lemma ElapsedTwice(cfg: Config, r: Redis, attempts: seq<Attempt>, until: int, late: bool)
    requires attempts != []
    ensures
      var later, again := Elapse(r, attempts[0].wait), [attempts[0].(wait := 0)] + attempts[1..];
      && After(cfg, later, again) == After(cfg, r, attempts)
      && Finds(cfg, later, again, until, late) == Finds(cfg, r, attempts, until, late)
  {
    var later, again := Elapse(r, attempts[0].wait), [attempts[0].(wait := 0)] + attempts[1..];
    NoTimePasses(r, attempts[0].wait);
    assert AfterOne(cfg, later, again[0]) == AfterOne(cfg, r, attempts[0]);
    assert again[1..] == attempts[1..];
  }

  lemma {:induction false} EarlyAttempts(cfg: Config, r: Redis, attempts: seq<Attempt>, until: int)
    requires EarlyCounter(r, until)
    ensures After(cfg, r, attempts).comparedSinceSend + UpTo(cfg, Count(r))
            == r.comparedSinceSend + UpTo(cfg, Count(r) + Finds(cfg, r, attempts, until, false))
               + UpTo(cfg, Finds(cfg, r, attempts, until, true))
    decreases |attempts|
  {
    if attempts != [] {
      var later, next := Elapse(r, attempts[0].wait), AfterOne(cfg, r, attempts[0]);
      OneAttempt(cfg, r, attempts[0]);
      if later.now >= until {
        ElapsedCounter(r, attempts[0].wait, until);
        ElapsedTwice(cfg, r, attempts, until, false);
        ElapsedTwice(cfg, r, attempts, until, true);
        LateAttempts(cfg, later, [attempts[0].(wait := 0)] + attempts[1..], until);
      } else {
        EarlyAttempt(cfg, r, attempts[0], until);
        if next.code == None {
          NothingToFind(cfg, next, attempts[1..], until, false);
          NothingToFind(cfg, next, attempts[1..], until, true);
        } else {
          EarlyAttempts(cfg, next, attempts[1..], until);
        }
      }
    }
  }

  /** One code, requests one after another: of the attempts that find it within a TTL of the
      send the first `maxAttempts` are compared, and again as many of those that find it later.
      So the documented limit is exceeded if and only if some find it early and some late, more
      than `maxAttempts` in all; never by attempts within a TTL of the send. */
  lemma GuessesAtOneCode(cfg: Config, before: Redis, digits: int, attempts: seq<Attempt>)
    requires before.rate == None && cfg.ttl > 0
    ensures
      var sent := Sent(cfg, before, digits);
      var early := Finds(cfg, sent, attempts, sent.now + cfg.ttl, false);
      var late := Finds(cfg, sent, attempts, sent.now + cfg.ttl, true);
      var compared := After(cfg, sent, attempts).comparedSinceSend;
      && compared == UpTo(cfg, early) + UpTo(cfg, late)
      && (compared > cfg.maxAttempts <==> early >= 1 && late >= 1 && early + late > cfg.maxAttempts && cfg.maxAttempts > 0)
  {
    var sent := Sent(cfg, before, digits);
    EarlyAttempts(cfg, sent, attempts, sent.now + cfg.ttl);
  }
}
