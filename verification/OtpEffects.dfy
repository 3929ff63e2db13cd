/** What the code and token flows do to every key, said of the keys alone, and what that makes
    possible: a code that is sent can be verified, and a token that is granted can be used. */
module OtpEffects {
  import opened Wrappers
  import opened Otp
  import opened OtpStore
  import opened OtpTimes

  /** Everything but what the key of the code, the counter and the rate key hold. */
  predicate SameTokens(r: Redis, next: Redis) {
    && next.now == r.now && next.procs == r.procs && next.tokens == r.tokens
    && next.matched == r.matched && next.granted == r.granted && next.updated == r.updated
  }

  /** Within a minute of the last a send does nothing. Otherwise a new code is stored for the
      TTL, the counter is 0 for as long, and the rate key is set for 60 seconds. */
  lemma SendMeans(cfg: Config, r: Redis, digits: int)
    ensures r.rate.Some? ==> Sent(cfg, r, digits) == r
    ensures
      var next := Sent(cfg, r, digits);
      r.rate.None? ==>
        && next.code == Some(Code(r.issued, digits, r.now + cfg.ttl)) && next.issued == r.issued + 1
        && next.counter == Some(Counter(0, Some(r.now + cfg.ttl)))
        && next.rate == Some(r.now + 60) && SameTokens(r, next)
  {}

  /** The attempts the counter stands at once this one is counted. */
  function Attempts(r: Redis): nat {
    if r.counter.Some? then r.counter.value.value + 1 else 1
  }

  function CounterEnd(r: Redis): Option<int> {
    if r.counter.Some? then r.counter.value.expires else None
  }

  /** Without a code a verification only counts. */
  lemma VerifyWithoutCodeMeans(cfg: Config, r: Redis, flow: Flow, guess: int, known: bool)
    requires r.code == None
    ensures
      var next := Verified(cfg, r, flow, guess, known);
      && next.code == None && next.counter == Some(Counter(Attempts(r), CounterEnd(r)))
      && next.rate == r.rate && next.issued == r.issued && SameTokens(r, next)
  {}

  /** Over the limit or with other digits it counts, and the code is good for the TTL again, or
      for 30 seconds if that is more. */
  lemma VerifyRefusedMeans(cfg: Config, r: Redis, flow: Flow, guess: int, known: bool)
    requires r.code.Some? && (Attempts(r) > cfg.maxAttempts || guess != r.code.value.digits)
    ensures
      var next := Verified(cfg, r, flow, guess, known);
      && next.code == Some(Code(r.code.value.issue, r.code.value.digits, r.now + if cfg.ttl < 30 then 30 else cfg.ttl))
      && next.counter == Some(Counter(Attempts(r), CounterEnd(r)))
      && next.rate == r.rate && next.issued == r.issued && SameTokens(r, next)
  {}

  /** With the right digits within the limit code and counter are gone and the code is matched;
      for a reset with an account a token is stored for the TTL beside those there are. */
  lemma VerifyMatchedMeans(cfg: Config, r: Redis, flow: Flow, guess: int, known: bool)
    requires r.code.Some? && Attempts(r) <= cfg.maxAttempts && guess == r.code.value.digits
    ensures
      var next, issue := Verified(cfg, r, flow, guess, known), r.code.value.issue;
      && next.code == None && next.counter == None && next.rate == r.rate && next.issued == r.issued
      && next.now == r.now && next.procs == r.procs
      && next.matched == r.matched + [issue] && next.updated == r.updated
      && (if flow == Reset && known then
            next.tokens == r.tokens[issue := r.now + cfg.ttl] && next.granted == r.granted + [issue]
          else next.tokens == r.tokens && next.granted == r.granted)
  {}

  /** A token that is there is taken and the password updated; without it nothing happens. */
  lemma SetPasswordMeans(r: Redis, token: nat)
    ensures token !in r.tokens ==> PasswordSet(r, token) == r
    ensures token in r.tokens ==> PasswordSet(r, token) == r.(tokens := r.tokens - {token}, updated := r.updated + [token])
  {}

  /** As time passes exactly the keys whose time has come go. */
  lemma ElapseMeans(r: Redis, seconds: nat)
    ensures
      var next, now := Elapse(r, seconds), r.now + seconds;
      && next.now == now
      && next.code == (if r.code.Some? && now < r.code.value.expires then r.code else None)
      && next.rate == (if r.rate.Some? && now < r.rate.value then r.rate else None)
      && (forall t :: t in next.tokens <==> t in r.tokens && now < r.tokens[t])
      && (forall t :: t in next.tokens ==> next.tokens[t] == r.tokens[t])
      && next.counter == (if r.counter.Some? && (r.counter.value.expires == None || now < r.counter.value.expires.value)
                          then r.counter else None)
      && next.procs == r.procs && next.issued == r.issued && next.matched == r.matched
      && next.granted == r.granted && next.updated == r.updated
  {}

  // ── From the first mail to the new password ───────────────────

  lemma SentThenVerified(cfg: Config, r: Redis, digits: int)
    requires r.procs == map[] && r.rate == None && cfg.maxAttempts > 0
    ensures Exec(cfg, r, Whole(Send(0, digits)) + Whole(Verify(0, Reset, digits)))
            == Verified(cfg, Sent(cfg, r, digits), Reset, digits, true)
    ensures Exec(cfg, r, Whole(Send(0, digits)) + Whole(Verify(0, Reset, digits))).procs == map[]
  {
    var sent := Sent(cfg, r, digits);
    SendMeans(cfg, r, digits);
    SendRuns(cfg, r, digits);
    ExecConcat(cfg, r, Whole(Send(0, digits)), Whole(Verify(0, Reset, digits)));
    VerifyRuns(cfg, sent, Reset, digits);
    VerifyMatchedMeans(cfg, sent, Reset, digits, true);
  }

  /** A send, then a reset verification with the right digits, then, within the TTL, a new
      password with the token that came of it: the password is updated. */
  lemma ResetGoesThrough(cfg: Config, r: Redis, digits: int, wait: nat)
    requires r.procs == map[] && r.rate == None && cfg.maxAttempts > 0 && wait < cfg.ttl
    ensures
      var verified := Exec(cfg, r, Whole(Send(0, digits)) + Whole(Verify(0, Reset, digits)));
      var last := Exec(cfg, verified, [Tick(wait)] + Whole(SetPassword(0, r.issued)));
      && verified.granted == r.granted + [r.issued]
      && last.updated == r.updated + [r.issued] && r.issued !in last.tokens
  {
    var sent := Sent(cfg, r, digits);
    SendMeans(cfg, r, digits);
    SentThenVerified(cfg, r, digits);
    VerifyMatchedMeans(cfg, sent, Reset, digits, true);
    var verified := Verified(cfg, sent, Reset, digits, true);
    ElapseMeans(verified, wait);
    SetPasswordMeans(Elapse(verified, wait), r.issued);
    SetPasswordRuns(cfg, Elapse(verified, wait), r.issued);
    assert ([Tick(wait)] + Whole(SetPassword(0, r.issued)))[1..] == Whole(SetPassword(0, r.issued));
  }

  /** And a login with the right digits, within the TTL, matches the code that was sent. */
  lemma LoginGoesThrough(cfg: Config, r: Redis, digits: int, wait: nat)
    requires r.procs == map[] && r.rate == None && cfg.maxAttempts > 0 && wait < cfg.ttl
    ensures Exec(cfg, Exec(cfg, r, Whole(Send(0, digits))), [Tick(wait)] + Whole(Verify(0, Login, digits))).matched
            == r.matched + [r.issued]
  {
    var sent := Sent(cfg, r, digits);
    SendMeans(cfg, r, digits);
    SendRuns(cfg, r, digits);
    ElapseMeans(sent, wait);
    VerifyMatchedMeans(cfg, Elapse(sent, wait), Login, digits, true);
    VerifyRuns(cfg, Elapse(sent, wait), Login, digits);
    assert ([Tick(wait)] + Whole(Verify(0, Login, digits)))[1..] == Whole(Verify(0, Login, digits));
  }

  // ── Interleaved ───────────────────────────────────────────────

  predicate Takes(r: Redis, a: Action, token: nat) {
    a.Run? && a.p in r.procs && r.procs[a.p] == TakeToken(token)
  }

  /** Nobody takes `token` out of its key in the run. */
  predicate NobodyTakes(cfg: Config, r: Redis, actions: seq<Action>, token: nat)
    decreases |actions|
  {
    actions == [] || (!Takes(r, actions[0], token) && NobodyTakes(cfg, Step(cfg, r, actions[0]), actions[1..], token))
  }

  lemma RunMovesTokens(cfg: Config, r: Redis, p: nat)
    requires p in r.procs
    ensures
      var proc := r.procs[p];
      RunOne(cfg, r, p).tokens ==
      if proc.GrantToken? then r.tokens[proc.issue := r.now + cfg.ttl]
      else if proc.TakeToken? then r.tokens - {proc.token}
      else r.tokens
  {
    match r.procs[p]
    case CheckRate(_) =>
    case StoreCode(_) =>
    case StoreCounter =>
    case StoreRate =>
    case Fetch(_, _) =>
    case Probe =>
    case Compare(_, _, _, _) =>
    case Restore(_, _) =>
    case ClearCounter(_, _) =>
    case GrantToken(_) =>
    case TakeToken(_) =>
    case Update(_) =>
  }

  predicate Holds(r: Redis, token: nat, until: int) {
    token in r.tokens && r.tokens[token] >= until
  }

  lemma StepKeepsToken(cfg: Config, r: Redis, a: Action, token: nat, until: int)
    requires Holds(r, token, until) && !Takes(r, a, token) && until <= r.now + cfg.ttl
    ensures Step(cfg, r, a).now < until ==> Holds(Step(cfg, r, a), token, until)
    ensures r.now <= Step(cfg, r, a).now
  {
    if a.Run? && a.p in r.procs {
      RunTakesNoTime(cfg, r, a.p);
      RunMovesTokens(cfg, r, a.p);
    } else if a.Tick? {
      ElapseMeans(r, a.seconds);
    }
  }

  lemma {:induction false} TokenLasts(cfg: Config, r: Redis, actions: seq<Action>, token: nat, until: int)
    requires Holds(r, token, until) && NobodyTakes(cfg, r, actions, token) && until <= r.now + cfg.ttl
    requires Exec(cfg, r, actions).now < until
    ensures Holds(Exec(cfg, r, actions), token, until)
    decreases |actions|
  {
    if actions != [] {
      StepKeepsToken(cfg, r, actions[0], token, until);
      TimePasses(cfg, Step(cfg, r, actions[0]), actions[1..]);
      TokenLasts(cfg, Step(cfg, r, actions[0]), actions[1..], token, until);
    }
  }

  /** Under every interleaving a granted token is in its key until somebody takes it or its TTL is
      over, and whoever takes it goes on to update the password. */
  lemma GrantedTokenWaits(cfg: Config, r: Redis, p: nat, more: seq<Action>, token: nat)
    requires p in r.procs && r.procs[p] == GrantToken(token)
    requires NobodyTakes(cfg, RunOne(cfg, r, p), more, token) && Exec(cfg, RunOne(cfg, r, p), more).now < r.now + cfg.ttl
    ensures
      var last := Exec(cfg, RunOne(cfg, r, p), more);
      && token in last.tokens
      && forall q :: q in last.procs && last.procs[q] == TakeToken(token)
           ==> RunOne(cfg, last, q).procs == last.procs[q := Update(token)]
  {
    RunMovesTokens(cfg, r, p);
    RunTakesNoTime(cfg, r, p);
    TokenLasts(cfg, RunOne(cfg, r, p), more, token, r.now + cfg.ttl);
  }

  /** Whoever has taken a token and goes on updates the password, once, and is done. */
  lemma TakenTokenUpdates(cfg: Config, r: Redis, p: nat, token: nat)
    requires p in r.procs && r.procs[p] == Update(token)
    ensures RunOne(cfg, r, p) == r.(updated := r.updated + [token], procs := r.procs - {p})
  {}
}
