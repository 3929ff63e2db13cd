/** How long the keys of one email address live, under every interleaving. */
module OtpTimes {
  import opened Wrappers
  import opened Otp

  predicate Within(expires: int, now: int, seconds: nat) {
    now < expires <= now + seconds
  }

  predicate CodeLively(cfg: Config, r: Redis) {
    r.code.Some? ==> Within(r.code.value.expires, r.now, RestoreTtl(cfg))
  }

  predicate RateLively(r: Redis) {
    r.rate.Some? ==> Within(r.rate.value, r.now, 60)
  }

  predicate TokensLively(cfg: Config, r: Redis) {
    forall t :: t in r.tokens ==> Within(r.tokens[t], r.now, cfg.ttl)
  }

  predicate CounterLively(cfg: Config, r: Redis) {
    r.counter.Some? && r.counter.value.expires.Some? ==> Within(r.counter.value.expires.value, r.now, cfg.ttl)
  }

  /** Every key that expires is alive and expires within its lifetime. */
  predicate Lively(cfg: Config, r: Redis) {
    CodeLively(cfg, r) && RateLively(r) && TokensLively(cfg, r) && CounterLively(cfg, r)
  }

  lemma RunTakesNoTime(cfg: Config, r: Redis, p: nat)
    requires p in r.procs
    ensures RunOne(cfg, r, p).now == r.now
  {
    match r.procs[p]
    case CheckRate(_) =>
    case StoreCode(_) =>
    case StoreCounter =>
    case StoreRate =>
    case Fetch(_, _) =>
    case Probe =>
    case Compare(_, _, _, _) =>
    case Restore(_, _) =>
    case ClearCounter(_, _) =>
    case GrantToken(_) =>
    case TakeToken(_) =>
    case Update(_) =>
  }

  lemma RunKeepsCode(cfg: Config, r: Redis, p: nat)
    requires cfg.ttl > 0 && CodeLively(cfg, r) && p in r.procs
    ensures CodeLively(cfg, RunOne(cfg, r, p))
  {
    match r.procs[p]
    case CheckRate(_) =>
    case StoreCode(_) =>
    case StoreCounter =>
    case StoreRate =>
    case Fetch(_, _) =>
    case Probe =>
    case Compare(_, _, _, _) =>
    case Restore(_, _) =>
    case ClearCounter(_, _) =>
    case GrantToken(_) =>
    case TakeToken(_) =>
    case Update(_) =>
  }

  lemma RunKeepsRate(cfg: Config, r: Redis, p: nat)
    requires RateLively(r) && p in r.procs
    ensures RateLively(RunOne(cfg, r, p))
  {
    match r.procs[p]
    case CheckRate(_) =>
    case StoreCode(_) =>
    case StoreCounter =>
    case StoreRate =>
    case Fetch(_, _) =>
    case Probe =>
    case Compare(_, _, _, _) =>
    case Restore(_, _) =>
    case ClearCounter(_, _) =>
    case GrantToken(_) =>
    case TakeToken(_) =>
    case Update(_) =>
  }

  lemma RunKeepsTokens(cfg: Config, r: Redis, p: nat)
    requires cfg.ttl > 0 && TokensLively(cfg, r) && p in r.procs
    ensures TokensLively(cfg, RunOne(cfg, r, p))
  {
    match r.procs[p]
    case CheckRate(_) =>
    case StoreCode(_) =>
    case StoreCounter =>
    case StoreRate =>
    case Fetch(_, _) =>
    case Probe =>
    case Compare(_, _, _, _) =>
    case Restore(_, _) =>
    case ClearCounter(_, _) =>
    case GrantToken(_) =>
    case TakeToken(_) =>
    case Update(_) =>
  }

  lemma RunKeepsCounter(cfg: Config, r: Redis, p: nat)
    requires cfg.ttl > 0 && CounterLively(cfg, r) && p in r.procs
    ensures CounterLively(cfg, RunOne(cfg, r, p))
  {
    match r.procs[p]
    case CheckRate(_) =>
    case StoreCode(_) =>
    case StoreCounter =>
    case StoreRate =>
    case Fetch(_, _) =>
    case Probe =>
    case Compare(_, _, _, _) =>
    case Restore(_, _) =>
    case ClearCounter(_, _) =>
    case GrantToken(_) =>
    case TakeToken(_) =>
    case Update(_) =>
  }

  lemma StepKeepsLively(cfg: Config, r: Redis, a: Action)
    requires cfg.ttl > 0 && Lively(cfg, r)
    ensures Lively(cfg, Step(cfg, r, a))
  {
    if a.Run? && a.p in r.procs {
      RunKeepsCode(cfg, r, a.p);
      RunKeepsRate(cfg, r, a.p);
      RunKeepsTokens(cfg, r, a.p);
      RunKeepsCounter(cfg, r, a.p);
    }
  }

  lemma {:induction false} ExecKeepsLively(cfg: Config, r: Redis, actions: seq<Action>)
    requires cfg.ttl > 0 && Lively(cfg, r)
    ensures Lively(cfg, Exec(cfg, r, actions))
    decreases |actions|
  {
    if actions != [] {
      StepKeepsLively(cfg, r, actions[0]);
      ExecKeepsLively(cfg, Step(cfg, r, actions[0]), actions[1..]);
    }
  }

  /** Left alone from any reachable state, the reset tokens are gone after a TTL, the code
      after a TTL or 30 seconds, and the counter stays if and only if nobody gave it an
      expiry: one that INCR created for a missing code or after a success never goes. */
  lemma KeysRunOut(cfg: Config, now: int, actions: seq<Action>, seconds: nat)
    requires cfg.ttl > 0
    ensures
      var r := Exec(cfg, Fresh(now), actions);
      var last := Elapse(r, seconds);
      && (seconds >= RestoreTtl(cfg) ==> last.code == None)
      && (seconds >= 60 ==> last.rate == None)
      && (seconds >= cfg.ttl ==> last.tokens == map[])
      && (seconds >= cfg.ttl ==> (last.counter.Some? <==> r.counter.Some? && r.counter.value.expires == None))
  {
    ExecKeepsLively(cfg, Fresh(now), actions);
    var last := Elapse(Exec(cfg, Fresh(now), actions), seconds);
    if seconds >= cfg.ttl && last.tokens != map[] {
      var t :| t in last.tokens;
      assert false;
    }
  }

  // ── One send a minute ─────────────────────────────────────────

  lemma RunMovesRate(cfg: Config, r: Redis, p: nat)
    requires p in r.procs
    ensures RunOne(cfg, r, p).rate == if r.procs[p].StoreRate? then Some(r.now + 60) else r.rate
  {
    match r.procs[p]
    case CheckRate(_) =>
    case StoreCode(_) =>
    case StoreCounter =>
    case StoreRate =>
    case Fetch(_, _) =>
    case Probe =>
    case Compare(_, _, _, _) =>
    case Restore(_, _) =>
    case ClearCounter(_, _) =>
    case GrantToken(_) =>
    case TakeToken(_) =>
    case Update(_) =>
  }

  lemma StepKeepsRate(cfg: Config, r: Redis, a: Action, until: int)
    requires r.rate.Some? && until <= r.rate.value && r.rate.value <= r.now + 60
    ensures
      var next := Step(cfg, r, a);
      next.now < until ==> next.rate.Some? && until <= next.rate.value <= next.now + 60
    ensures r.now <= Step(cfg, r, a).now
  {
    if a.Run? && a.p in r.procs {
      RunTakesNoTime(cfg, r, a.p);
      RunMovesRate(cfg, r, a.p);
    }
  }

  lemma {:induction false} TimePasses(cfg: Config, r: Redis, actions: seq<Action>)
    ensures r.now <= Exec(cfg, r, actions).now
    decreases |actions|
  {
    if actions != [] {
      TimePasses(cfg, Step(cfg, r, actions[0]), actions[1..]);
      if actions[0].Run? && actions[0].p in r.procs {
        RunTakesNoTime(cfg, r, actions[0].p);
      }
    }
  }

  lemma {:induction false} ExecKeepsRate(cfg: Config, r: Redis, actions: seq<Action>, until: int)
    requires r.rate.Some? && until <= r.rate.value && r.rate.value <= r.now + 60
    requires Exec(cfg, r, actions).now < until
    ensures Exec(cfg, r, actions).rate.Some?
    decreases |actions|
  {
    if actions != [] {
      var next := Step(cfg, r, actions[0]);
      TimePasses(cfg, next, actions[1..]);
      StepKeepsRate(cfg, r, actions[0], until);
      ExecKeepsRate(cfg, next, actions[1..], until);
    }
  }

  /** Once a send has stored its rate key, then for 60 seconds, whatever else happens, every
      send that checks the key is turned away with nothing stored. */
  lemma AMinuteBetweenSends(cfg: Config, r: Redis, p: nat, more: seq<Action>, q: nat)
    requires p in r.procs && r.procs[p] == StoreRate
    requires
      var last := Exec(cfg, RunOne(cfg, r, p), more);
      last.now < r.now + 60 && q in last.procs && last.procs[q].CheckRate?
    ensures
      var last := Exec(cfg, RunOne(cfg, r, p), more);
      RunOne(cfg, last, q) == last.(procs := last.procs - {q})
  {
    ExecKeepsRate(cfg, RunOne(cfg, r, p), more, r.now + 60);
  }
}
