/** The code and token flows as the services run them when nobody interferes: methods that
    read and overwrite the Redis keys one after another, each tied to the interleaved model. */
module OtpStore {
  import opened Wrappers
  import opened Otp

  /** Request 0 from begin to end; runs after its end change nothing. */
  function Whole(a: Action): seq<Action> {
    [a, Run(0), Run(0), Run(0), Run(0), Run(0)]
  }

  /** `r` with only request 0 about. */
  function At(r: Redis, proc: Proc): Redis {
    r.(procs := map[0 := proc])
  }

  lemma WholeUnfolds(cfg: Config, r: Redis, a: Action)
    ensures Exec(cfg, r, Whole(a))
            == RunOne(cfg, RunOne(cfg, RunOne(cfg, RunOne(cfg, RunOne(cfg, Step(cfg, r, a), 0), 0), 0), 0), 0)
  {
    var r1 := Step(cfg, r, a);
    var r2 := RunOne(cfg, r1, 0);
    var r3 := RunOne(cfg, r2, 0);
    var r4 := RunOne(cfg, r3, 0);
    var r5 := RunOne(cfg, r4, 0);
    var run := Run(0);
    assert Whole(a)[1..] == [run, run, run, run, run] && [run, run, run, run, run][1..] == [run, run, run, run];
    assert [run, run, run, run][1..] == [run, run, run] && [run, run, run][1..] == [run, run];
    assert [run, run][1..] == [run] && [run][1..] == [];
    assert Exec(cfg, r5, [run]) == Exec(cfg, RunOne(cfg, r5, 0), []);
    assert Exec(cfg, r4, [run, run]) == Exec(cfg, r5, [run]);
    assert Exec(cfg, r3, [run, run, run]) == Exec(cfg, r4, [run, run]);
    assert Exec(cfg, r2, [run, run, run, run]) == Exec(cfg, r3, [run, run, run]);
    assert Exec(cfg, r1, [run, run, run, run, run]) == Exec(cfg, r2, [run, run, run, run]);
  }

  /** One command of the only request: it moves on, or ends. */
  lemma MovesOn(r: Redis, proc: Proc, next: Proc)
    ensures Then(At(r, proc), 0, next) == At(r, next)
    ensures r.procs == map[] ==> Done(At(r, proc), 0) == r && Then(r, 0, next) == At(r, next)
  {
    assert map[0 := proc][0 := next] == map[0 := next];
    assert map[0 := proc] - {0} == map[];
  }

  // ── The flows as one piece ────────────────────────────────────

  function Stored(cfg: Config, r: Redis, digits: int): Redis {
    r.(code := Some(Code(r.issued, digits, r.now + cfg.ttl)), issued := r.issued + 1)
  }

  function CounterStored(cfg: Config, r: Redis): Redis {
    r.(counter := Some(Counter(0, Some(r.now + cfg.ttl))), compared := 0, comparedSinceSend := 0,
       expiredSinceSend := false, clearedSinceSend := false)
  }

  function Sent(cfg: Config, r: Redis, digits: int): Redis {
    if r.rate.Some? then r
    else CounterStored(cfg, Stored(cfg, r, digits)).(rate := Some(r.now + 60))
  }

  function Tried(r: Redis): Redis {
    r.(counter := Some(Incremented(r.counter)), compared := r.compared + 1, comparedSinceSend := r.comparedSinceSend + 1)
  }

  function PutBack(cfg: Config, r: Redis, c: Code): Redis {
    r.(code := Some(Code(c.issue, c.digits, r.now + RestoreTtl(cfg))))
  }

  predicate Matches(cfg: Config, r: Redis, guess: int) {
    r.code.Some? && Count(r) + 1 <= cfg.maxAttempts && guess == r.code.value.digits
  }

  function MatchedCode(r: Redis): Redis
    requires r.code.Some?
  {
    Tried(r).(code := None, matched := r.matched + [r.code.value.issue], counter := None, compared := 0, clearedSinceSend := true)
  }

  function Granted(cfg: Config, r: Redis, issue: nat): Redis {
    r.(tokens := r.tokens[issue := r.now + cfg.ttl], granted := r.granted + [issue])
  }

  /** `known` tells whether the email has an account: it is looked up after a match, when the
      code is gone already. */
  function Verified(cfg: Config, r: Redis, flow: Flow, guess: int, known: bool): Redis {
    if r.code.None? then r.(counter := Some(Incremented(r.counter)))
    else if Count(r) + 1 > cfg.maxAttempts then PutBack(cfg, r.(counter := Some(Incremented(r.counter))), r.code.value)
    else if guess != r.code.value.digits then PutBack(cfg, Tried(r), r.code.value)
    else if flow == Login || !known then MatchedCode(r)
    else Granted(cfg, MatchedCode(r), r.code.value.issue)
  }

  function PasswordSet(r: Redis, token: nat): Redis {
    if token in r.tokens then r.(tokens := r.tokens - {token}, updated := r.updated + [token]) else r
  }

  lemma StoreCodeRuns(cfg: Config, r: Redis, digits: int)
    requires r.procs == map[]
    ensures RunOne(cfg, At(r, StoreCode(digits)), 0) == At(Stored(cfg, r, digits), StoreCounter)
  {
    MovesOn(Stored(cfg, r, digits), StoreCode(digits), StoreCounter);
  }

  lemma StoreCounterRuns(cfg: Config, r: Redis)
    requires r.procs == map[]
    ensures RunOne(cfg, At(r, StoreCounter), 0) == At(CounterStored(cfg, r), StoreRate)
  {
    MovesOn(CounterStored(cfg, r), StoreCounter, StoreRate);
  }

  lemma StoreRateRuns(cfg: Config, r: Redis)
    requires r.procs == map[]
    ensures RunOne(cfg, At(r, StoreRate), 0) == r.(rate := Some(r.now + 60))
  {
    MovesOn(r.(rate := Some(r.now + 60)), StoreRate, StoreRate);
  }

  lemma SendRuns(cfg: Config, r: Redis, digits: int)
    requires r.procs == map[]
    ensures Exec(cfg, r, Whole(Send(0, digits))) == Sent(cfg, r, digits)
  {
    WholeUnfolds(cfg, r, Send(0, digits));
    MovesOn(r, CheckRate(digits), CheckRate(digits));
    MovesOn(r, CheckRate(digits), StoreCode(digits));
    if r.rate.None? {
      var stored := Stored(cfg, r, digits);
      StoreCodeRuns(cfg, r, digits);
      StoreCounterRuns(cfg, stored);
      StoreRateRuns(cfg, CounterStored(cfg, stored));
    }
  }

  lemma FetchRuns(cfg: Config, r: Redis, flow: Flow, guess: int)
    requires r.procs == map[]
    ensures r.code.None? ==> RunOne(cfg, RunOne(cfg, At(r, Fetch(flow, guess)), 0), 0) == Verified(cfg, r, flow, guess, true)
    ensures r.code.Some? ==> RunOne(cfg, At(r, Fetch(flow, guess)), 0)
                             == At(r.(code := None), Compare(flow, guess, r.code.value.issue, r.code.value.digits))
  {
    if r.code.None? {
      MovesOn(r, Fetch(flow, guess), Probe);
      assert RunOne(cfg, At(r, Fetch(flow, guess)), 0) == At(r, Probe);
      MovesOn(r.(counter := Some(Incremented(r.counter))), Probe, Probe);
    } else {
      MovesOn(r.(code := None), Fetch(flow, guess), Compare(flow, guess, r.code.value.issue, r.code.value.digits));
    }
  }

  lemma RestoreRuns(cfg: Config, next: Redis, c: Code)
    requires next.procs == map[] && next.code == None
    ensures RunOne(cfg, At(next, Restore(c.issue, c.digits)), 0) == PutBack(cfg, next, c)
  {
    MovesOn(PutBack(cfg, next, c), Restore(c.issue, c.digits), Probe);
  }

  lemma OverLimitRuns(cfg: Config, r: Redis, flow: Flow, guess: int)
    requires r.procs == map[] && r.code.Some? && Count(r) + 1 > cfg.maxAttempts
    ensures
      var compare := Compare(flow, guess, r.code.value.issue, r.code.value.digits);
      RunOne(cfg, RunOne(cfg, At(r.(code := None), compare), 0), 0) == Verified(cfg, r, flow, guess, true)
  {
    var issue, digits := r.code.value.issue, r.code.value.digits;
    var next := r.(counter := Some(Incremented(r.counter)), code := None);
    MovesOn(next, Compare(flow, guess, issue, digits), Restore(issue, digits));
    assert RunOne(cfg, At(r.(code := None), Compare(flow, guess, issue, digits)), 0) == At(next, Restore(issue, digits));
    RestoreRuns(cfg, next, r.code.value);
  }

  lemma MismatchRuns(cfg: Config, r: Redis, flow: Flow, guess: int)
    requires r.procs == map[] && r.code.Some? && Count(r) + 1 <= cfg.maxAttempts && guess != r.code.value.digits
    ensures
      var compare := Compare(flow, guess, r.code.value.issue, r.code.value.digits);
      RunOne(cfg, RunOne(cfg, At(r.(code := None), compare), 0), 0) == Verified(cfg, r, flow, guess, true)
  {
    var issue, digits := r.code.value.issue, r.code.value.digits;
    var next := Tried(r).(code := None);
    MovesOn(next, Compare(flow, guess, issue, digits), Restore(issue, digits));
    assert RunOne(cfg, At(r.(code := None), Compare(flow, guess, issue, digits)), 0) == At(next, Restore(issue, digits));
    RestoreRuns(cfg, next, r.code.value);
  }

  lemma MatchingCompareRuns(cfg: Config, r: Redis, flow: Flow, guess: int)
    requires r.procs == map[] && Matches(cfg, r, guess)
    ensures
      var issue, digits := r.code.value.issue, r.code.value.digits;
      RunOne(cfg, At(r.(code := None), Compare(flow, guess, issue, digits)), 0)
      == At(Tried(r).(code := None, matched := r.matched + [issue]), ClearCounter(flow, issue))
  {
    var issue, digits := r.code.value.issue, r.code.value.digits;
    MovesOn(Tried(r).(code := None, matched := r.matched + [issue]), Compare(flow, guess, issue, digits),
            ClearCounter(flow, issue));
  }

  /** What is left after the match: clear the counter and, in the reset flow, grant a token. */
  lemma ClearRuns(cfg: Config, next: Redis, flow: Flow, issue: nat)
    requires next.procs == map[]
    ensures
      var cleared := next.(counter := None, compared := 0, clearedSinceSend := true);
      RunOne(cfg, RunOne(cfg, At(next, ClearCounter(flow, issue)), 0), 0)
      == if flow == Login then cleared else Granted(cfg, cleared, issue)
  {
    var cleared := next.(counter := None, compared := 0, clearedSinceSend := true);
    MovesOn(cleared, ClearCounter(flow, issue), GrantToken(issue));
    if flow == Reset {
      assert RunOne(cfg, At(next, ClearCounter(flow, issue)), 0) == At(cleared, GrantToken(issue));
      MovesOn(Granted(cfg, cleared, issue), GrantToken(issue), Probe);
    }
  }

  lemma MatchRuns(cfg: Config, r: Redis, flow: Flow, guess: int)
    requires r.procs == map[] && Matches(cfg, r, guess)
    ensures
      var compare := Compare(flow, guess, r.code.value.issue, r.code.value.digits);
      RunOne(cfg, RunOne(cfg, RunOne(cfg, At(r.(code := None), compare), 0), 0), 0) == Verified(cfg, r, flow, guess, true)
  {
    var issue := r.code.value.issue;
    MatchingCompareRuns(cfg, r, flow, guess);
    ClearRuns(cfg, Tried(r).(code := None, matched := r.matched + [issue]), flow, issue);
  }

  lemma VerifyRuns(cfg: Config, r: Redis, flow: Flow, guess: int)
    requires r.procs == map[]
    ensures Exec(cfg, r, Whole(Verify(0, flow, guess))) == Verified(cfg, r, flow, guess, true)
  {
    WholeUnfolds(cfg, r, Verify(0, flow, guess));
    MovesOn(r, Probe, Fetch(flow, guess));
    FetchRuns(cfg, r, flow, guess);
    if r.code.Some? {
      if Matches(cfg, r, guess) {
        MatchRuns(cfg, r, flow, guess);
      } else if Count(r) + 1 > cfg.maxAttempts {
        OverLimitRuns(cfg, r, flow, guess);
      } else {
        MismatchRuns(cfg, r, flow, guess);
      }
    }
  }

  /** The same for an email without an account: after the counter is cleared the lookup fails
      and the request ends. */
  function WithoutAccount(a: Action): seq<Action> {
    [a, Run(0), Run(0), Run(0), Die(0)]
  }

  lemma WithoutAccountUnfolds(cfg: Config, r: Redis, a: Action)
    ensures Exec(cfg, r, WithoutAccount(a))
            == Done(RunOne(cfg, RunOne(cfg, RunOne(cfg, Step(cfg, r, a), 0), 0), 0), 0)
  {
    var r1 := Step(cfg, r, a);
    var r2 := RunOne(cfg, r1, 0);
    var r3 := RunOne(cfg, r2, 0);
    var r4 := RunOne(cfg, r3, 0);
    var run, die := Run(0), Die(0);
    assert WithoutAccount(a)[1..] == [run, run, run, die] && [run, run, run, die][1..] == [run, run, die];
    assert [run, run, die][1..] == [run, die] && [run, die][1..] == [die] && [die][1..] == [];
    assert Exec(cfg, r4, [die]) == Exec(cfg, Step(cfg, r4, die), []);
    assert Exec(cfg, r3, [run, die]) == Exec(cfg, r4, [die]);
    assert Exec(cfg, r2, [run, run, die]) == Exec(cfg, r3, [run, die]);
    assert Exec(cfg, r1, [run, run, run, die]) == Exec(cfg, r2, [run, run, die]);
  }

  lemma DoneChangesNothing(r: Redis)
    requires r.procs == map[]
    ensures Done(r, 0) == r && forall proc :: Done(At(r, proc), 0) == r
  {
    forall proc ensures Done(At(r, proc), 0) == r {
      MovesOn(r, proc, proc);
    }
  }

  lemma MatchWithoutAccountRuns(cfg: Config, r: Redis, flow: Flow, guess: int)
    requires r.procs == map[] && Matches(cfg, r, guess)
    ensures
      var compare := Compare(flow, guess, r.code.value.issue, r.code.value.digits);
      Done(RunOne(cfg, RunOne(cfg, At(r.(code := None), compare), 0), 0), 0) == MatchedCode(r)
  {
    var issue := r.code.value.issue;
    MatchingCompareRuns(cfg, r, flow, guess);
    MovesOn(MatchedCode(r), ClearCounter(flow, issue), GrantToken(issue));
    DoneChangesNothing(MatchedCode(r));
  }

  lemma UnknownVerifyRuns(cfg: Config, r: Redis, flow: Flow, guess: int)
    requires r.procs == map[]
    ensures Exec(cfg, r, WithoutAccount(Verify(0, flow, guess))) == Verified(cfg, r, flow, guess, false)
  {
    WithoutAccountUnfolds(cfg, r, Verify(0, flow, guess));
    MovesOn(r, Probe, Fetch(flow, guess));
    FetchRuns(cfg, r, flow, guess);
    if r.code.Some? && Matches(cfg, r, guess) {
      MatchWithoutAccountRuns(cfg, r, flow, guess);
    } else {
      if r.code.Some? && Count(r) + 1 > cfg.maxAttempts {
        OverLimitRuns(cfg, r, flow, guess);
      } else if r.code.Some? {
        MismatchRuns(cfg, r, flow, guess);
      }
      DoneChangesNothing(Verified(cfg, r, flow, guess, false));
    }
  }

  lemma SetPasswordRuns(cfg: Config, r: Redis, token: nat)
    requires r.procs == map[]
    ensures Exec(cfg, r, Whole(SetPassword(0, token))) == PasswordSet(r, token)
  {
    WholeUnfolds(cfg, r, SetPassword(0, token));
    MovesOn(r, TakeToken(token), TakeToken(token));
    if token in r.tokens {
      var taken := r.(tokens := r.tokens - {token});
      MovesOn(taken, TakeToken(token), Update(token));
      assert RunOne(cfg, At(r, TakeToken(token)), 0) == At(taken, Update(token));
      MovesOn(PasswordSet(r, token), Update(token), Probe);
    }
  }

  class Store {
    const cfg: Config
    var now: int
    var code: Option<Code>
    var counter: Option<Counter>
    var rate: Option<int>
    var tokens: map<nat, int>
    var issued: nat
    var matched: seq<nat>
    var granted: seq<nat>
    var updated: seq<nat>
    var compared: nat
    var comparedSinceSend: nat
    var expiredSinceSend: bool
    var clearedSinceSend: bool

    function View(): Redis
      reads this
    {
      Redis(now, code, counter, rate, tokens, map[], issued, matched, granted, updated,
            compared, comparedSinceSend, expiredSinceSend, clearedSinceSend)
    }

    constructor (cfg: Config, now: int)
      ensures this.cfg == cfg && View() == Fresh(now)
    {
      this.cfg, this.now := cfg, now;
      code, counter, rate, tokens := None, None, None, map[];
      issued, matched, granted, updated := 0, [], [], [];
      compared, comparedSinceSend, expiredSinceSend, clearedSinceSend := 0, 0, false, false;
    }

    method StoreCode(newDigits: int)
      modifies this`code, this`issued
      ensures View() == Stored(cfg, old(View()), newDigits)
    {
      code := Some(Code(issued, newDigits, now + cfg.ttl));
      issued := issued + 1;
    }

    method StoreCounter()
      modifies this`counter, this`compared, this`comparedSinceSend, this`expiredSinceSend, this`clearedSinceSend
      ensures View() == CounterStored(cfg, old(View()))
    {
      counter := Some(Counter(0, Some(now + cfg.ttl)));
      compared, comparedSinceSend, expiredSinceSend, clearedSinceSend := 0, 0, false, false;
    }

    method SendOtp(newDigits: int) returns (sent: bool)
      modifies this
      ensures View() == Sent(cfg, old(View()), newDigits)
      ensures sent <==> old(rate) == None
      ensures sent ==> code == Some(Code(old(issued), newDigits, now + cfg.ttl)) && Count(View()) == 0
      ensures sent ==> rate == Some(now + 60)
    {
      if rate.Some? { return false; }
      StoreCode(newDigits);
      StoreCounter();
      rate := Some(now + 60);
      return true;
    }

    /** What both verify flows begin with: take the code, count, compare, put it back on a
        mismatch, clear the counter on a match. */
    method TakeCode(guess: int) returns (ok: bool)
      modifies this
      ensures View() == Verified(cfg, old(View()), Login, guess, true)
      ensures ok <==> Matches(cfg, old(View()), guess)
      ensures ok ==> code == None && matched == old(matched) + [old(code).value.issue]
      ensures !ok && old(code).Some? ==>
                code == Some(old(code).value.(expires := now + RestoreTtl(cfg))) && matched == old(matched)
    {
      var stored := code;
      var count := Incremented(counter);
      counter := Some(count);
      if stored.None? { return false; }
      code := None;
      if count.value > cfg.maxAttempts {
        code := Some(Code(stored.value.issue, stored.value.digits, now + RestoreTtl(cfg)));
        return false;
      }
      compared, comparedSinceSend := compared + 1, comparedSinceSend + 1;
      if guess != stored.value.digits {
        code := Some(Code(stored.value.issue, stored.value.digits, now + RestoreTtl(cfg)));
        return false;
      }
      matched := matched + [stored.value.issue];
      counter, compared, clearedSinceSend := None, 0, true;
      return true;
    }

    /** Logs in exactly on a match for an email with an account; the match uses up the code
        whether or not there is one. `known` is what the lookup after the match answers. */
    method VerifyOtp(guess: int, known: bool) returns (ok: bool)
      modifies this
      ensures View() == Verified(cfg, old(View()), Login, guess, known)
      ensures ok <==> Matches(cfg, old(View()), guess) && known
      ensures Matches(cfg, old(View()), guess) ==> code == None && matched == old(matched) + [old(code).value.issue]
      ensures !Matches(cfg, old(View()), guess) && old(code).Some? ==>
                code == Some(old(code).value.(expires := now + RestoreTtl(cfg))) && matched == old(matched)
    {
      ok := TakeCode(guess);
      if ok && !known { return false; }
    }

    /** A match for an email with an account leads to a reset token. */
    method VerifyResetOtp(guess: int, known: bool) returns (token: Option<nat>)
      modifies this
      ensures View() == Verified(cfg, old(View()), Reset, guess, known)
      ensures token == if Matches(cfg, old(View()), guess) && known then Some(old(code).value.issue) else None
      ensures token.Some? ==> tokens == old(tokens)[token.value := now + cfg.ttl] && granted == old(granted) + [token.value]
      ensures token.None? ==> tokens == old(tokens) && granted == old(granted)
      ensures Matches(cfg, old(View()), guess) ==> code == None && matched == old(matched) + [old(code).value.issue]
    {
      var stored := code;
      var ok := TakeCode(guess);
      if !ok { return None; }
      if !known { return None; }
      tokens := tokens[stored.value.issue := now + cfg.ttl];
      granted := granted + [stored.value.issue];
      return Some(stored.value.issue);
    }

    method SetNewPassword(token: nat) returns (ok: bool)
      modifies this
      ensures View() == PasswordSet(old(View()), token)
      ensures ok <==> token in old(tokens)
      ensures ok ==> tokens == old(tokens) - {token} && updated == old(updated) + [token]
      ensures !ok ==> tokens == old(tokens) && updated == old(updated)
      ensures token !in tokens
    {
      if token !in tokens { return false; }
      tokens := tokens - {token};
      updated := updated + [token];
      return true;
    }
  }
}
